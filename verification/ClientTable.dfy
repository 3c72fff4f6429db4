/**
 The client side of a connection: the tables that the goroutines of Call, send,
 cancel and the input loop change under the connection's mutex, and the one-slot
 Done channels that complete a call.
 */
module ClientTable {
  import opened Common

  /** A request id, an unsigned 64-bit counter. */
  type ReqId = nat
  /** The goroutine of one Call. */
  type Call = nat

  const ID_SPACE: nat := 0x1_0000_0000_0000_0000

  /** The value put into a Done channel. */
  datatype Result = ByResponse(id: ReqId) | ByWriteFailure(id: ReqId) | ByShutdown(id: ReqId) | ByRefusal

  datatype Shared = Shared(
    reqId: ReqId,                 // latest request id
    pending: map<ReqId, Call>,    // clientPending
    tombstones: set<ReqId>,       // ids of cancelled requests
    shutdown: bool,               // set together with the closing of `dead`
    inbox: map<Call, Result>,     // Done channels holding a value
    discarded: nat)               // values thrown away because the channel was full

  function Empty(): Shared { Shared(0, map[], {}, false, map[], 0) }

  function NextId(reqId: ReqId): ReqId { (reqId + 1) % ID_SPACE }

  // What each critical section does to the shared state.

  function Registered(sh: Shared, call: Call): Shared {
    sh.(reqId := NextId(sh.reqId), pending := sh.pending[NextId(sh.reqId) := call])
  }

  function Taken(sh: Shared, id: ReqId): Shared { sh.(pending := sh.pending - {id}) }

  function Cancelled(sh: Shared, id: ReqId): Shared {
    sh.(tombstones := sh.tombstones + {id}, pending := sh.pending - {id})
  }

  function Forgotten(sh: Shared, id: ReqId): Shared { sh.(tombstones := sh.tombstones - {id}) }

  /** A non-blocking send on the Done channel of `call`. */
  function Pushed(sh: Shared, call: Call, result: Result): Shared {
    if call in sh.inbox then sh.(discarded := sh.discarded + 1)
    else sh.(inbox := sh.inbox[call := result])
  }

  /** `order` lists the keys of `pending`, each once. */
  ghost predicate Enumerates(order: seq<ReqId>, pending: map<ReqId, Call>) {
    && (forall id :: id in order <==> id in pending)
    && (forall i, j :: 0 <= i < j < |order| ==> order[i] != order[j])
  }

  /** Sends a value to the calls of `order`, one after the other. */
  function PushedAll(sh: Shared, order: seq<ReqId>): Shared
    requires forall id :: id in order ==> id in sh.pending
  {
    if order == [] then sh
    else
      var last := order[|order| - 1];
      Pushed(PushedAll(sh, order[..|order| - 1]), sh.pending[last], ByShutdown(last))
  }

  /** The end of the input loop, completing the pending calls in the given order. */
  ghost function ShutDown(sh: Shared, order: seq<ReqId>): Shared
    requires Enumerates(order, sh.pending)
  {
    PushedAll(sh, order).(pending := map[], shutdown := true)
  }

  /** The mutex-guarded part of a connection. Every method is one critical section,
      except Push, which is one send on a Done channel. */
  class Table {
    var reqId: ReqId
    var pending: map<ReqId, Call>
    var tombstones: set<ReqId>
    var shutdown: bool
    var inbox: map<Call, Result>
    var discarded: nat

    function View(): Shared
      reads this
    {
      Shared(reqId, pending, tombstones, shutdown, inbox, discarded)
    }

    constructor ()
      ensures View() == Empty()
    {
      reqId, pending, tombstones, shutdown, inbox, discarded := 0, map[], {}, false, map[], 0;
    }

    /** The first critical section of send: refuse, or register under a new id. */
    method Register(call: Call, started: bool, closing: bool) returns (id: Option<ReqId>)
      modifies this
      ensures !started || closing || old(shutdown) ==> id == None && View() == old(View())
      ensures started && !closing && !old(shutdown) ==>
                id == Some(NextId(old(reqId))) && View() == Registered(old(View()), call)
    {
      if !started || closing || shutdown {
        return None;
      }
      reqId := (reqId + 1) % ID_SPACE;
      pending := pending[reqId := call];
      id := Some(reqId);
    }

    /** Used after a failed write and on arrival of a response. */
    method Take(id: ReqId) returns (call: Option<Call>)
      modifies this`pending
      ensures call == if id in old(pending) then Some(old(pending)[id]) else None
      ensures View() == Taken(old(View()), id)
    {
      call := if id in pending then Some(pending[id]) else None;
      pending := pending - {id};
    }

    method Cancel(id: ReqId)
      modifies this`tombstones, this`pending
      ensures View() == Cancelled(old(View()), id)
    {
      tombstones := tombstones + {id};
      pending := pending - {id};
    }

    method HasTombstone(id: ReqId) returns (b: bool)
      ensures b <==> id in tombstones
    {
      b := id in tombstones;
    }

    method Forget(id: ReqId)
      modifies this`tombstones
      ensures View() == Forgotten(old(View()), id)
    {
      tombstones := tombstones - {id};
    }

    method Push(call: Call, result: Result)
      modifies this`inbox, this`discarded
      ensures View() == Pushed(old(View()), call, result)
    {
      if call in inbox {
        discarded := discarded + 1;
      } else {
        inbox := inbox[call := result];
      }
    }

    /** The caller takes the value out of its Done channel. */
    method Receive(call: Call) returns (result: Result)
      requires call in inbox
      modifies this`inbox
      ensures result == old(inbox)[call] && View() == old(View()).(inbox := old(inbox) - {call})
    {
      result := inbox[call];
      inbox := inbox - {call};
    }

    /** The end of the input loop, one critical section: completes every pending
        call, in whatever order the map is visited. */
    method Shutdown(order: seq<ReqId>)
      requires Enumerates(order, pending)
      modifies this
      ensures View() == ShutDown(old(View()), order)
    {
      for i := 0 to |order|
        invariant pending == old(pending) && View() == PushedAll(old(View()), order[..i])
      {
        assert order[..i + 1][..i] == order[..i];
        Push(pending[order[i]], ByShutdown(order[i]));
      }
      assert order[..|order|] == order;
      pending := map[];
      shutdown := true;
    }
  }
}
