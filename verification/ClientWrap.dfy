/**
 The 64-bit request counter and what happens when it wraps: exactly when an id is
 issued again, and a run in which that leaves a caller waiting for ever.
 */
module ClientWrap {
  import opened ClientTable
  import opened ClientCalls
  import opened Common
  import opened ClientGuarantees

  lemma AddMod(a: nat, b: nat)
    ensures (a % ID_SPACE + b) % ID_SPACE == (a + b) % ID_SPACE
  {
    assert a == ID_SPACE * (a / ID_SPACE) + a % ID_SPACE;
    ModPlusMultiple(a % ID_SPACE + b, a / ID_SPACE);
  }

  lemma {:induction false} ModPlusMultiple(a: nat, k: nat)
    ensures (a + ID_SPACE * k) % ID_SPACE == a % ID_SPACE
    decreases k
  {
    if k != 0 {
      ModPlusMultiple(a, k - 1);
      assert a + ID_SPACE * k == (a + ID_SPACE * (k - 1)) + ID_SPACE;
    }
  }

  /** In every run, wrapping or not, the latest id is the number of registered calls
      modulo two to the sixty-fourth. */
  lemma {:induction false} IdIsCallCount(s: State, run: seq<Action>, end: State, calls: nat)
    requires Legal(s, run) && s.shared.reqId < ID_SPACE && end == Exec(s, run) && calls == Accepted(s, run)
    ensures end.shared.reqId == (s.shared.reqId + calls) % ID_SPACE
    decreases |run|
  {
    if run == [] {
    } else {
      var s', first := Apply(s, run[0]), run[0].Begin? && Accepts(s);
      CounterStep(s, run[0]);
      IdIsCallCount(s', run[1..], end, calls - One(first));
      CountOneMore(s.shared.reqId, s'.shared.reqId, calls - One(first), first);
    }
  }

  lemma CountOneMore(id: ReqId, id': ReqId, rest: nat, first: bool)
    requires id' == if first then NextId(id) else id
    ensures (id' + rest) % ID_SPACE == (id + (One(first) + rest)) % ID_SPACE
  {
    AddMod(id + 1, rest);
  }

  /** Take a run from one call of send to a later one, `calls` registrations after it.
      The later call gets the same id exactly when that is a multiple of the id space,
      and the zero that signals a refusal exactly when it completes one. */
  lemma IdReusedIff(s: State, run: seq<Action>, end: State, calls: nat)
    requires Legal(s, run) && s.shared.reqId < ID_SPACE && end == Exec(s, run) && calls == Accepted(s, run)
    ensures NextId(end.shared.reqId) == NextId(s.shared.reqId) <==> calls % ID_SPACE == 0
    ensures NextId(end.shared.reqId) == 0 <==> (s.shared.reqId + calls + 1) % ID_SPACE == 0
  {
    IdIsCallCount(s, run, end, calls);
    AddMod(s.shared.reqId + calls, 1);
    SameResidue(s.shared.reqId + 1, calls);
  }

  lemma SameResidue(a: nat, k: nat)
    ensures (a + k) % ID_SPACE == a % ID_SPACE <==> k % ID_SPACE == 0
  {
  }

  // ---------------------------------------------------------------------
  // A run that wraps

  /** Starts the connection and `n` calls, all of them still writing their request. */
  function Calls(n: nat): seq<Action> {
    if n == 0 then [Start] else Calls(n - 1) + [Begin(n - 1)]
  }

  /** Only the latest call of each id is pending. */
  ghost predicate AfterCalls(s: State, n: nat) {
    && s.input == Reading && !s.closing && !s.shared.shutdown && s.shared.inbox == map[]
    && s.shared.reqId == n % ID_SPACE
    && (forall c: Call :: c in s.callers <==> c < n)
    && (forall c :: c in s.callers ==> s.callers[c] == Writing((c + 1) % ID_SPACE))
    && (forall id :: id in s.shared.pending ==>
          (s.shared.pending[id] + 1) % ID_SPACE == id && s.shared.pending[id] < n <= s.shared.pending[id] + ID_SPACE)
  }

  lemma {:induction false} ExecSnoc(s: State, run: seq<Action>, a: Action)
    requires Legal(s, run) && Enabled(Exec(s, run), a)
    ensures Legal(s, run + [a]) && Exec(s, run + [a]) == Apply(Exec(s, run), a)
    ensures Accepted(s, run + [a]) == Accepted(s, run) + One(a.Begin? && Accepts(Exec(s, run)))
    decreases |run|
  {
    if run == [] {
      assert [a][1..] == [];
    } else {
      assert (run + [a])[1..] == run[1..] + [a];
      ExecSnoc(Apply(s, run[0]), run[1..], a);
    }
  }

  lemma {:induction false} CallsReach(n: nat)
    ensures Legal(Init(), Calls(n)) && AfterCalls(Exec(Init(), Calls(n)), n) && Accepted(Init(), Calls(n)) == n
  {
    if n == 0 {
      assert [Start][1..] == [];
    } else {
      CallsReach(n - 1);
      ExecSnoc(Init(), Calls(n - 1), Begin(n - 1));
      OneMoreCall(Exec(Init(), Calls(n - 1)), n - 1);
    }
  }

  lemma OneMoreCall(s: State, n: nat)
    requires AfterCalls(s, n)
    ensures Enabled(s, Begin(n)) && AfterCalls(Apply(s, Begin(n)), n + 1)
  {
    AddMod(n, 1);
    forall id | id in s.shared.pending && id != (n + 1) % ID_SPACE
      ensures n + 1 <= s.shared.pending[id] + ID_SPACE
    {
      SameResidue(s.shared.pending[id] + 1, ID_SPACE);
    }
  }

  lemma {:induction false} EnumerationExists(pending: map<ReqId, Call>) returns (order: seq<ReqId>)
    ensures Enumerates(order, pending)
    decreases |pending|
  {
    if pending == map[] {
      order := [];
    } else {
      var id :| id in pending;
      var rest := EnumerationExists(pending - {id});
      order := rest + [id];
    }
  }

  /** The shutdown completes pending calls only. */
  lemma {:induction false} OnlyPendingCompleted(sh: Shared, order: seq<ReqId>, c: Call)
    requires forall id :: id in order ==> id in sh.pending && sh.pending[id] != c
    requires c !in sh.inbox
    ensures c !in PushedAll(sh, order).inbox
    decreases |order|
  {
    if order != [] { OnlyPendingCompleted(sh, order[..|order| - 1], c); }
  }

  /** One call more than there are ids: the last call takes the place of the first in
      the pending table, so after the shutdown the first waits without a value. */
  lemma WrapStrandsCall() returns (run: seq<Action>)
    ensures Legal(Init(), run) && Accepted(Init(), run) == ID_SPACE + 1
    ensures var s := Exec(Init(), run);
            s.shared.shutdown && 0 in s.callers && s.callers[0].Waiting? && 0 !in s.shared.inbox
  {
    var calls := Calls(ID_SPACE + 1);
    CallsReach(ID_SPACE + 1);
    var s := Exec(Init(), calls);
    var order := EnumerationExists(s.shared.pending);
    OnlyPendingCompleted(s.shared, order, 0);
    ExecSnoc(Init(), calls, WriteEnds(0, true));
    var written := calls + [WriteEnds(0, true)];
    ExecSnoc(Init(), written, ReadFails);
    var failed := written + [ReadFails];
    ExecSnoc(Init(), failed, Die(order));
    run := failed + [Die(order)];
  }
}
