/**
 Client calls as a labelled transition system. Every caller runs Call and send,
 the input goroutine handles responses and its own death, and each action is one
 critical section of ClientTable, one codec operation or one channel operation.
 */
module ClientCalls {
  import opened ClientTable
  import opened Common

  /** Where a goroutine stands inside Call; `id` is its request id. */
  datatype CallPc =
    | Refusing                             // send refused it, about to push Done
    | RefusedReturn                        // send returned zero
    | Writing(id: ReqId)                   // in WriteMessage
    | WriteFailed(id: ReqId)               // about to take the call back
    | Completing(id: ReqId, call: Call)    // took a call back, about to push its Done
    | Waiting(id: ReqId)                   // at the select
    | Cancelling(id: ReqId)                // saw its context end, about to cancel
    | Returned(id: ReqId)
    | Misread(id: ReqId)                   // registered under id zero, taken for a refusal

  /** Where the input goroutine stands; `ok` tells whether the body could be read,
      `cancelled` whether the id had a tombstone when its response arrived. */
  datatype InputPc =
    | NotStarted
    | Reading
    | Held(id: ReqId, call: Call)                          // took the pending call
    | Answering(id: ReqId, call: Call, ok: bool)           // body read, about to push Done
    | Orphan(id: ReqId, cancelled: bool)                   // nothing was pending
    | Checking(id: ReqId, ok: bool, cancelled: bool)       // about to look for a tombstone
    | Forgetting(id: ReqId, ok: bool, cancelled: bool)     // about to drop the tombstone
    | Dying
    | Dead

  datatype Cause = Response | WriteFailure | Cancellation | Shutdown

  /** A call leaving the pending table. */
  datatype Removal = Removal(id: ReqId, cause: Cause)

  /** A value sent to a Done channel. */
  datatype Sent = Sent(call: Call, result: Result)

  datatype State = State(
    shared: Shared,
    closing: bool,
    callers: map<Call, CallPc>,
    input: InputPc,
    owner: map<ReqId, Call>,         // history: the call each id was issued to
    removals: multiset<Removal>,     // history
    sent: multiset<Sent>)            // history

  datatype Action =
    | Start
    | SetClosing
    | Begin(call: Call)
    | RefuseDone(call: Call)
    | WriteEnds(call: Call, ok: bool)
    | TakeBack(call: Call)
    | CompleteFailed(call: Call)
    | SeeContextEnd(call: Call)
    | CancelCall(call: Call)
    | Receive(call: Call)
    | ResponseArrives(response: ReqId)
    | BodyRead(ok: bool)
    | Answer
    | CheckTombstone
    | ForgetTombstone
    | ReadFails
    | Die(order: seq<ReqId>)

  function Init(): State {
    State(Empty(), false, map[], NotStarted, map[], multiset{}, multiset{})
  }

  ghost predicate Enabled(s: State, a: Action) {
    match a
    case Start => s.input.NotStarted?
    case SetClosing => true
    case Begin(c) => c !in s.callers
    case RefuseDone(c) => c in s.callers && s.callers[c].Refusing?
    case WriteEnds(c, _) => c in s.callers && s.callers[c].Writing?
    case TakeBack(c) => c in s.callers && s.callers[c].WriteFailed?
    case CompleteFailed(c) => c in s.callers && s.callers[c].Completing?
    case SeeContextEnd(c) => c in s.callers && s.callers[c].Waiting?
    case CancelCall(c) => c in s.callers && s.callers[c].Cancelling?
    case Receive(c) => c in s.callers && s.callers[c].Waiting? && c in s.shared.inbox
    case ResponseArrives(_) => s.input.Reading?
    case BodyRead(_) => s.input.Held? || s.input.Orphan?
    case Answer => s.input.Answering?
    case CheckTombstone => s.input.Checking?
    case ForgetTombstone => s.input.Forgetting?
    case ReadFails => s.input.Reading?
    case Die(order) => s.input.Dying? && Enumerates(order, s.shared.pending)
  }

  /** Whether a new call is registered rather than refused. */
  predicate Accepts(s: State) {
    !s.input.NotStarted? && !s.closing && !s.shared.shutdown
  }

  /** What send does once the request has been written or taken back. */
  function AfterSend(id: ReqId): CallPc { if id == 0 then Misread(id) else Waiting(id) }

  function Goto(s: State, c: Call, pc: CallPc): State { s.(callers := s.callers[c := pc]) }

  function Push(s: State, call: Call, result: Result): State {
    s.(shared := Pushed(s.shared, call, result), sent := s.sent + multiset{Sent(call, result)})
  }

  /** Takes `id` out of the pending table, recording why if it was there. */
  function Remove(s: State, id: ReqId, cause: Cause): State {
    s.(shared := Taken(s.shared, id),
       removals := if id in s.shared.pending then s.removals + multiset{Removal(id, cause)} else s.removals)
  }

  ghost function Apply(s: State, a: Action): State
    requires Enabled(s, a)
  {
    match a
    case Start => s.(input := Reading)
    case SetClosing => s.(closing := true)
    case Begin(c) =>
      if !Accepts(s) then Goto(s, c, Refusing)
      else
        var id := NextId(s.shared.reqId);
        Goto(s, c, Writing(id)).(shared := Registered(s.shared, c), owner := s.owner[id := c])
    case RefuseDone(c) => Push(Goto(s, c, RefusedReturn), c, ByRefusal)
    case WriteEnds(c, ok) =>
      var id := s.callers[c].id;
      Goto(s, c, if ok then AfterSend(id) else WriteFailed(id))
    case TakeBack(c) =>
      var id := s.callers[c].id;
      var pc := if id in s.shared.pending then Completing(id, s.shared.pending[id]) else AfterSend(id);
      Goto(Remove(s, id, WriteFailure), c, pc)
    case CompleteFailed(c) =>
      var id := s.callers[c].id;
      Push(Goto(s, c, AfterSend(id)), s.callers[c].call, ByWriteFailure(id))
    case SeeContextEnd(c) => Goto(s, c, Cancelling(s.callers[c].id))
    case CancelCall(c) =>
      var id := s.callers[c].id;
      Goto(Remove(s, id, Cancellation), c, Returned(id)).(shared := Cancelled(s.shared, id))
    case Receive(c) =>
      Goto(s, c, Returned(s.callers[c].id)).(shared := s.shared.(inbox := s.shared.inbox - {c}))
    case ResponseArrives(id) =>
      Remove(s, id, Response).(
        input := if id in s.shared.pending then Held(id, s.shared.pending[id])
                 else Orphan(id, id in s.shared.tombstones))
    case BodyRead(ok) =>
      s.(input := if s.input.Held? then Answering(s.input.id, s.input.call, ok)
                  else Checking(s.input.id, ok, s.input.cancelled))
    case Answer =>
      Push(s, s.input.call, ByResponse(s.input.id)).(input := Forgetting(s.input.id, s.input.ok, false))
    case CheckTombstone =>
      s.(input := Forgetting(s.input.id, s.input.ok || s.input.id in s.shared.tombstones, s.input.cancelled))
    case ForgetTombstone =>
      s.(shared := Forgotten(s.shared, s.input.id), input := if s.input.ok then Reading else Dying)
    case ReadFails => s.(input := Dying)
    case Die(order) =>
      s.(shared := ShutDown(s.shared, order), input := Dead,
         removals := s.removals + multiset(set id | id in s.shared.pending :: Removal(id, Shutdown)),
         sent := s.sent + multiset(set id | id in s.shared.pending :: Sent(s.shared.pending[id], ByShutdown(id))))
  }

  ghost predicate Legal(s: State, run: seq<Action>)
    decreases |run|
  {
    run == [] || (Enabled(s, run[0]) && Legal(Apply(s, run[0]), run[1..]))
  }

  ghost function Exec(s: State, run: seq<Action>): State
    requires Legal(s, run)
    decreases |run|
  {
    if run == [] then s else Exec(Apply(s, run[0]), run[1..])
  }

  // ---------------------------------------------------------------------
  // The invariant

  predicate HasId(pc: CallPc) {
    !pc.Refusing? && !pc.RefusedReturn?
  }

  function Removals(removals: multiset<Removal>, id: ReqId): nat {
    removals[Removal(id, Response)] + removals[Removal(id, WriteFailure)]
    + removals[Removal(id, Cancellation)] + removals[Removal(id, Shutdown)]
  }

  predicate InputHolds(input: InputPc, id: ReqId) {
    (input.Held? || input.Answering?) && input.id == id
  }

  /** Ids come from the counter and belong to one caller; pending ids and tombstones
      are disjoint; each issued id is pending or was removed exactly once. */
  ghost predicate IdOk(s: State, id: ReqId) {
    && (id in s.owner <==> 1 <= id <= s.shared.reqId)
    && (id in s.owner ==>
          s.owner[id] in s.callers && HasId(s.callers[s.owner[id]]) && s.callers[s.owner[id]].id == id)
    && (id in s.shared.pending ==> id in s.owner && s.shared.pending[id] == s.owner[id])
    && (id in s.shared.tombstones ==> id in s.owner && id !in s.shared.pending)
    && One(id in s.shared.pending) + Removals(s.removals, id) == One(id in s.owner)
    && (id in s.owner ==> RemoverCompletes(s, id, s.owner[id]))
  }

  /** Whoever takes a call out of the table sends its value, and nobody else does. */
  ghost predicate RemoverCompletes(s: State, id: ReqId, c: Call) {
    && s.removals[Removal(id, Response)] == s.sent[Sent(c, ByResponse(id))] + One(InputHolds(s.input, id))
    && s.removals[Removal(id, WriteFailure)]
       == s.sent[Sent(c, ByWriteFailure(id))] + One(c in s.callers && s.callers[c].Completing?)
    && s.removals[Removal(id, Shutdown)] == s.sent[Sent(c, ByShutdown(id))]
    && (s.removals[Removal(id, Cancellation)] > 0 || id in s.shared.tombstones ==>
          c in s.callers && s.callers[c].Returned?)
  }

  ghost predicate CallOk(s: State, c: Call) {
    && (c in s.callers && HasId(s.callers[c]) ==> s.callers[c].id in s.owner && s.owner[s.callers[c].id] == c)
    && (c in s.callers && s.callers[c].Completing? ==> s.callers[c].call == c)
    && (c in s.callers ==> !s.callers[c].Misread?)
    && s.sent[Sent(c, ByRefusal)] == One(c in s.callers && s.callers[c].RefusedReturn?)
    && (c in s.shared.inbox ==> Sent(c, s.shared.inbox[c]) in s.sent)
  }

  /** A value goes to the call its id was issued to, and stays in the channel until
      that call returns. */
  ghost predicate SentOk(s: State, c: Call, r: Result) {
    Sent(c, r) in s.sent ==>
      && c in s.callers
      && (r != ByRefusal ==> r.id in s.owner && s.owner[r.id] == c)
      && (!s.callers[c].Returned? ==> c in s.shared.inbox)
  }

  ghost predicate InputOk(s: State) {
    && (s.input.Dead? <==> s.shared.shutdown)
    && (s.input.Held? || s.input.Answering? ==> s.input.id in s.owner && s.input.call == s.owner[s.input.id])
    && ((s.input.Orphan? || s.input.Checking? || s.input.Forgetting?) && s.input.cancelled ==>
          s.input.id in s.shared.tombstones)
    && (s.input.Forgetting? && s.input.cancelled ==> s.input.ok)
    && (s.shared.shutdown ==> s.shared.pending == map[])
    && s.shared.discarded == 0 && s.shared.reqId < ID_SPACE
  }

  ghost predicate Inv(s: State) {
    && InputOk(s)
    && (forall id :: IdOk(s, id))
    && (forall c :: CallOk(s, c))
    && (forall c, r :: SentOk(s, c, r))
  }

  /** Issuing one more id would wrap the 64-bit counter. */
  predicate Wraps(s: State, a: Action) {
    a.Begin? && Accepts(s) && s.shared.reqId + 1 >= ID_SPACE
  }

  // ---------------------------------------------------------------------
  // Preservation

  predicate ByCaller(a: Action) {
    a.Begin? || a.RefuseDone? || a.WriteEnds? || a.TakeBack? || a.CompleteFailed? || a.SeeContextEnd?
    || a.CancelCall? || a.Receive?
  }

  /** The invariant at one id, one call and one value. */
  ghost predicate PointOk(s: State, id: ReqId, x: Call, r: Result) {
    IdOk(s, id) && CallOk(s, x) && SentOk(s, x, r)
  }

  /** A call whose value is still to be sent has an empty Done channel. */
  lemma ChannelFree(s: State, c: Call)
    requires Inv(s) && c in s.callers
    requires s.callers[c].Refusing? || s.callers[c].Completing?
             || (HasId(s.callers[c]) && (s.callers[c].id in s.shared.pending || InputHolds(s.input, s.callers[c].id)))
    ensures c !in s.shared.inbox && !s.callers[c].RefusedReturn?
  {
    assert CallOk(s, c);
    if HasId(s.callers[c]) { assert IdOk(s, s.callers[c].id); }
    if c in s.shared.inbox { InboxExplained(s, c); }
  }

  lemma InboxExplained(s: State, c: Call)
    requires Inv(s) && c in s.shared.inbox
    ensures var r := s.shared.inbox[c];
            && Sent(c, r) in s.sent && c in s.callers
            && if r == ByRefusal then s.callers[c].RefusedReturn? else HasId(s.callers[c]) && s.callers[c].id == r.id
  {
    var r := s.shared.inbox[c];
    assert CallOk(s, c) && SentOk(s, c, r);
    if r != ByRefusal { assert IdOk(s, r.id); }
  }

  /** Nothing has been sent under an id that was never issued. */
  lemma FreshId(s: State, c: Call, id: ReqId)
    requires Inv(s) && id !in s.owner
    ensures Sent(c, ByResponse(id)) !in s.sent && Sent(c, ByWriteFailure(id)) !in s.sent
            && Sent(c, ByShutdown(id)) !in s.sent && !InputHolds(s.input, id)
  {
    assert SentOk(s, c, ByResponse(id)) && SentOk(s, c, ByWriteFailure(id)) && SentOk(s, c, ByShutdown(id));
  }

  lemma BeginIdStep(s: State, c: Call, id: ReqId)
    requires Inv(s) && Enabled(s, Begin(c)) && !Wraps(s, Begin(c))
    ensures IdOk(Apply(s, Begin(c)), id)
  {
    assert IdOk(s, id);
    if id !in s.owner { FreshId(s, c, id); }
    BeginIdPoint(s, c, id);
  }

  lemma BeginIdPoint(s: State, c: Call, id: ReqId)
    requires IdOk(s, id) && c !in s.callers && !Wraps(s, Begin(c))
    requires id !in s.owner ==>
               Sent(c, ByResponse(id)) !in s.sent && Sent(c, ByWriteFailure(id)) !in s.sent
               && Sent(c, ByShutdown(id)) !in s.sent && !InputHolds(s.input, id)
    ensures IdOk(Apply(s, Begin(c)), id)
  {
  }

  lemma BeginCallStep(s: State, c: Call, x: Call, r: Result)
    requires Inv(s) && Enabled(s, Begin(c)) && !Wraps(s, Begin(c))
    ensures CallOk(Apply(s, Begin(c)), x) && SentOk(Apply(s, Begin(c)), x, r)
  {
    assert IdOk(s, NextId(s.shared.reqId)) && CallOk(s, c) && CallOk(s, x) && SentOk(s, x, r);
  }

  lemma RefuseDoneStep(s: State, c: Call, id: ReqId, x: Call, r: Result)
    requires Inv(s) && Enabled(s, RefuseDone(c))
    ensures PointOk(Apply(s, RefuseDone(c)), id, x, r)
  {
    assert PointOk(s, id, x, r) && CallOk(s, c);
  }

  lemma WriteEndsStep(s: State, c: Call, ok: bool, id: ReqId, x: Call, r: Result)
    requires Inv(s) && Enabled(s, WriteEnds(c, ok))
    ensures PointOk(Apply(s, WriteEnds(c, ok)), id, x, r)
  {
    assert PointOk(s, id, x, r) && CallOk(s, c) && IdOk(s, s.callers[c].id);
  }

  lemma TakeBackStep(s: State, c: Call, id: ReqId, x: Call, r: Result)
    requires Inv(s) && Enabled(s, TakeBack(c))
    ensures PointOk(Apply(s, TakeBack(c)), id, x, r)
  {
    assert PointOk(s, id, x, r) && CallOk(s, c) && IdOk(s, s.callers[c].id);
  }

  lemma CompleteFailedStep(s: State, c: Call, id: ReqId, x: Call, r: Result)
    requires Inv(s) && Enabled(s, CompleteFailed(c))
    ensures PointOk(Apply(s, CompleteFailed(c)), id, x, r)
  {
    assert PointOk(s, id, x, r) && CallOk(s, c) && IdOk(s, s.callers[c].id);
  }

  lemma SeeContextEndStep(s: State, c: Call, id: ReqId, x: Call, r: Result)
    requires Inv(s) && Enabled(s, SeeContextEnd(c))
    ensures PointOk(Apply(s, SeeContextEnd(c)), id, x, r)
  {
    assert PointOk(s, id, x, r) && CallOk(s, c) && IdOk(s, s.callers[c].id);
  }

  lemma CancelCallStep(s: State, c: Call, id: ReqId, x: Call, r: Result)
    requires Inv(s) && Enabled(s, CancelCall(c))
    ensures PointOk(Apply(s, CancelCall(c)), id, x, r)
  {
    assert PointOk(s, id, x, r) && CallOk(s, c) && IdOk(s, s.callers[c].id);
  }

  lemma ReceiveStep(s: State, c: Call, id: ReqId, x: Call, r: Result)
    requires Inv(s) && Enabled(s, Receive(c))
    ensures PointOk(Apply(s, Receive(c)), id, x, r)
  {
    assert PointOk(s, id, x, r) && CallOk(s, c) && IdOk(s, s.callers[c].id);
  }

  lemma CallerInputStep(s: State, a: Action)
    requires Inv(s) && Enabled(s, a) && ByCaller(a) && !Wraps(s, a)
    ensures InputOk(Apply(s, a))
  {
    assert CallOk(s, a.call);
    if a.call in s.callers && HasId(s.callers[a.call]) { assert IdOk(s, s.callers[a.call].id); }
    if a.Begin? { assert IdOk(s, NextId(s.shared.reqId)); }
    if a.RefuseDone? || a.CompleteFailed? { ChannelFree(s, a.call); }
  }

  lemma CallerStep(s: State, a: Action)
    requires Inv(s) && Enabled(s, a) && ByCaller(a) && !Wraps(s, a)
    ensures Inv(Apply(s, a))
  {
    CallerInputStep(s, a);
    forall id, x, r ensures PointOk(Apply(s, a), id, x, r) {
      match a
      case Begin(c) =>
        BeginIdStep(s, c, id);
        BeginCallStep(s, c, x, r);
      case RefuseDone(c) => RefuseDoneStep(s, c, id, x, r);
      case WriteEnds(c, ok) => WriteEndsStep(s, c, ok, id, x, r);
      case TakeBack(c) => TakeBackStep(s, c, id, x, r);
      case CompleteFailed(c) => CompleteFailedStep(s, c, id, x, r);
      case SeeContextEnd(c) => SeeContextEndStep(s, c, id, x, r);
      case CancelCall(c) => CancelCallStep(s, c, id, x, r);
      case Receive(c) => ReceiveStep(s, c, id, x, r);
    }
    PointsSuffice(Apply(s, a));
  }

  lemma PointsSuffice(s: State)
    requires InputOk(s) && forall id, x, r :: PointOk(s, id, x, r)
    ensures Inv(s)
  {
    forall id ensures IdOk(s, id) { assert PointOk(s, id, 0, ByRefusal); }
    forall x ensures CallOk(s, x) { assert PointOk(s, 0, x, ByRefusal); }
    forall x, r ensures SentOk(s, x, r) { assert PointOk(s, 0, x, r); }
  }

  predicate ByInput(a: Action) {
    !ByCaller(a) && !a.Die?
  }

  lemma ArrivesStep(s: State, response: ReqId, id: ReqId, x: Call, r: Result)
    requires Inv(s) && Enabled(s, ResponseArrives(response))
    ensures PointOk(Apply(s, ResponseArrives(response)), id, x, r)
  {
    assert PointOk(s, id, x, r) && IdOk(s, response);
  }

  lemma AnswerStep(s: State, id: ReqId, x: Call, r: Result)
    requires Inv(s) && Enabled(s, Answer)
    ensures PointOk(Apply(s, Answer), id, x, r)
  {
    assert PointOk(s, id, x, r) && IdOk(s, s.input.id);
  }

  lemma QuietStep(s: State, a: Action, id: ReqId, x: Call, r: Result)
    requires Inv(s) && Enabled(s, a) && ByInput(a) && !a.ResponseArrives? && !a.Answer?
    ensures PointOk(Apply(s, a), id, x, r)
  {
    assert PointOk(s, id, x, r);
  }

  lemma InputStep(s: State, a: Action)
    requires Inv(s) && Enabled(s, a) && ByInput(a)
    ensures Inv(Apply(s, a))
  {
    forall id, x, r ensures PointOk(Apply(s, a), id, x, r) {
      match a
      case ResponseArrives(response) => ArrivesStep(s, response, id, x, r);
      case Answer => AnswerStep(s, id, x, r);
      case _ => QuietStep(s, a, id, x, r);
    }
    if a.ResponseArrives? { assert IdOk(s, a.response); }
    if a.Answer? {
      assert IdOk(s, s.input.id);
      ChannelFree(s, s.input.call);
    }
    PointsSuffice(Apply(s, a));
  }

  // The death of the input loop

  ghost predicate AllFree(sh: Shared) {
    && (forall i, j :: i in sh.pending && j in sh.pending && i != j ==> sh.pending[i] != sh.pending[j])
    && (forall i :: i in sh.pending ==> sh.pending[i] !in sh.inbox)
  }

  /** `after` holds, on top of `sh`, one value for each call of `order`. */
  ghost predicate Completed(sh: Shared, order: seq<ReqId>, after: Shared) {
    && after == sh.(inbox := after.inbox)
    && (forall c :: c in sh.inbox ==> c in after.inbox && after.inbox[c] == sh.inbox[c])
    && (forall i :: i in order ==>
          i in sh.pending && sh.pending[i] in after.inbox && after.inbox[sh.pending[i]] == ByShutdown(i))
    && (forall c :: c in after.inbox && c !in sh.inbox ==>
          exists i :: i in order && i in sh.pending && sh.pending[i] == c)
  }

  /** When every pending call's channel is free, shutting down discards nothing,
      whatever order the calls are completed in. */
  lemma {:induction false} ShutdownCompletes(sh: Shared, order: seq<ReqId>)
    requires AllFree(sh) && (forall id :: id in order ==> id in sh.pending)
    requires forall i, j :: 0 <= i < j < |order| ==> order[i] != order[j]
    ensures Completed(sh, order, PushedAll(sh, order))
    decreases |order|
  {
    if order != [] {
      var n := |order| - 1;
      var front, id := order[..n], order[n];
      ShutdownCompletes(sh, front);
      assert order == front + [id] && id !in front;
      assert PushedAll(sh, order) == Pushed(PushedAll(sh, front), sh.pending[id], ByShutdown(id));
      CompletesOne(sh, front, PushedAll(sh, front), id);
    }
  }

  lemma CompletesOne(sh: Shared, front: seq<ReqId>, mid: Shared, id: ReqId)
    requires AllFree(sh) && Completed(sh, front, mid) && id in sh.pending && id !in front
    ensures Completed(sh, front + [id], Pushed(mid, sh.pending[id], ByShutdown(id)))
  {
    assert sh.pending[id] !in mid.inbox;
    assert id in front + [id];
    var after := Pushed(mid, sh.pending[id], ByShutdown(id));
    forall c | c in after.inbox && c !in sh.inbox
      ensures exists i :: i in front + [id] && i in sh.pending && sh.pending[i] == c
    {
      if c != sh.pending[id] {
        var i :| i in front && i in sh.pending && sh.pending[i] == c;
        assert i in front + [id];
      }
    }
  }

  lemma PendingFree(s: State)
    requires Inv(s)
    ensures AllFree(s.shared)
  {
    forall i | i in s.shared.pending ensures s.shared.pending[i] !in s.shared.inbox {
      assert IdOk(s, i);
      ChannelFree(s, s.shared.pending[i]);
    }
    forall i, j | i in s.shared.pending && j in s.shared.pending && i != j
      ensures s.shared.pending[i] != s.shared.pending[j]
    {
      assert IdOk(s, i) && IdOk(s, j);
    }
  }

  lemma DieCounts(s: State, order: seq<ReqId>, id: ReqId, c: Call)
    requires Enabled(s, Die(order))
    ensures var s' := Apply(s, Die(order));
            && s'.removals[Removal(id, Shutdown)] == s.removals[Removal(id, Shutdown)] + One(id in s.shared.pending)
            && s'.sent[Sent(c, ByShutdown(id))]
               == s.sent[Sent(c, ByShutdown(id))] + One(id in s.shared.pending && s.shared.pending[id] == c)
  {
    var gone := set i | i in s.shared.pending :: Removal(i, Shutdown);
    var values := set i | i in s.shared.pending :: Sent(s.shared.pending[i], ByShutdown(i));
    assert id in s.shared.pending <==> Removal(id, Shutdown) in gone;
    assert id in s.shared.pending && s.shared.pending[id] == c <==> Sent(c, ByShutdown(id)) in values;
  }

  lemma DieIdStep(s: State, order: seq<ReqId>, id: ReqId)
    requires Inv(s) && Enabled(s, Die(order))
    requires PushedAll(s.shared, order) == s.shared.(inbox := PushedAll(s.shared, order).inbox)
    ensures IdOk(Apply(s, Die(order)), id)
  {
    assert IdOk(s, id);
    DieCounts(s, order, id, if id in s.owner then s.owner[id] else 0);
  }

  lemma DieCallStep(s: State, order: seq<ReqId>, x: Call, r: Result)
    requires Inv(s) && Enabled(s, Die(order)) && Completed(s.shared, order, PushedAll(s.shared, order))
    ensures CallOk(Apply(s, Die(order)), x) && SentOk(Apply(s, Die(order)), x, r)
  {
    assert CallOk(s, x) && SentOk(s, x, r);
    var after := PushedAll(s.shared, order);
    var values := set i | i in s.shared.pending :: Sent(s.shared.pending[i], ByShutdown(i));
    if x in after.inbox && x !in s.shared.inbox {
      var i :| i in order && i in s.shared.pending && s.shared.pending[i] == x;
      assert Sent(x, after.inbox[x]) in values;
    }
    if Sent(x, r) in values {
      var i :| i in s.shared.pending && Sent(x, r) == Sent(s.shared.pending[i], ByShutdown(i));
      assert IdOk(s, i) && i in order;
    }
  }

  lemma DieStep(s: State, order: seq<ReqId>)
    requires Inv(s) && Enabled(s, Die(order))
    ensures Inv(Apply(s, Die(order)))
  {
    PendingFree(s);
    ShutdownCompletes(s.shared, order);
    forall id, x, r ensures PointOk(Apply(s, Die(order)), id, x, r) {
      DieIdStep(s, order, id);
      DieCallStep(s, order, x, r);
    }
    PointsSuffice(Apply(s, Die(order)));
  }

  lemma StepPreserves(s: State, a: Action)
    requires Inv(s) && Enabled(s, a) && !Wraps(s, a)
    ensures Inv(Apply(s, a))
  {
    if a.Die? {
      DieStep(s, a.order);
    } else if ByCaller(a) {
      CallerStep(s, a);
    } else {
      InputStep(s, a);
    }
  }
}
