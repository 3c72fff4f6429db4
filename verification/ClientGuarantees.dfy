/**
 What client calls guarantee over whole runs, as long as the 64-bit request
 counter does not wrap; and what happens when it does.
 */
module ClientGuarantees {
  import opened ClientTable
  import opened ClientCalls
  import opened Common

  /** How many calls of a run are registered. */
  ghost function Accepted(s: State, run: seq<Action>): nat
    requires Legal(s, run)
    decreases |run|
  {
    if run == [] then 0
    else One(run[0].Begin? && Accepts(s)) + Accepted(Apply(s, run[0]), run[1..])
  }

  lemma {:induction false} InvAlong(s: State, run: seq<Action>)
    requires Inv(s) && Legal(s, run) && s.shared.reqId + Accepted(s, run) < ID_SPACE
    ensures Inv(Exec(s, run))
    decreases |run|
  {
    if run == [] {
    } else {
      StepPreserves(s, run[0]);
      IdGrows(s, run[0]);
      InvAlong(Apply(s, run[0]), run[1..]);
    }
  }

  lemma IdGrows(s: State, a: Action)
    requires Enabled(s, a) && !Wraps(s, a)
    ensures Apply(s, a).shared.reqId == s.shared.reqId + One(a.Begin? && Accepts(s))
  {
    CounterStep(s, a);
  }

  lemma {:induction false} PushKeepsCounter(sh: Shared, order: seq<ReqId>)
    requires forall id :: id in order ==> id in sh.pending
    ensures PushedAll(sh, order).reqId == sh.reqId && PushedAll(sh, order).tombstones == sh.tombstones
    decreases |order|
  {
    if order != [] { PushKeepsCounter(sh, order[..|order| - 1]); }
  }

  lemma ReachableInv(run: seq<Action>)
    requires Legal(Init(), run) && Accepted(Init(), run) < ID_SPACE
    ensures Inv(Exec(Init(), run))
  {
    InvAlong(Init(), run);
  }

  // ---------------------------------------------------------------------
  // Completion

  /** Every issued id is pending or has left the table exactly once, by a response,
      a write failure, a cancellation or the shutdown. */
  lemma RemovedExactlyOnce(run: seq<Action>, id: ReqId)
    requires Legal(Init(), run) && Accepted(Init(), run) < ID_SPACE
    ensures var s := Exec(Init(), run);
            One(id in s.shared.pending) + s.removals[Removal(id, Response)] + s.removals[Removal(id, WriteFailure)]
            + s.removals[Removal(id, Cancellation)] + s.removals[Removal(id, Shutdown)]
            == One(1 <= id <= s.shared.reqId)
  {
    ReachableInv(run);
    assert IdOk(Exec(Init(), run), id);
  }

  /** A Done channel is sent at most one value, so the branch that discards a
      value because the channel is full is never taken. */
  lemma OneValuePerCall(run: seq<Action>, c: Call, r: Result, q: Result)
    requires Legal(Init(), run) && Accepted(Init(), run) < ID_SPACE
    ensures var s := Exec(Init(), run);
            && s.sent[Sent(c, r)] <= 1
            && (Sent(c, r) in s.sent && Sent(c, q) in s.sent ==> r == q)
            && s.shared.discarded == 0
  {
    ReachableInv(run);
    var s := Exec(Init(), run);
    assert CallOk(s, c) && SentOk(s, c, r) && SentOk(s, c, q);
    if r != ByRefusal { assert IdOk(s, r.id); }
    if q != ByRefusal { assert IdOk(s, q.id); }
  }

  // ---------------------------------------------------------------------
  // Correlation

  /** Pending ids and tombstones are disjoint and issued, and a call is completed
      only by the response to its own request. */
  lemma ResponsesCorrelate(run: seq<Action>, id: ReqId, c: Call)
    requires Legal(Init(), run) && Accepted(Init(), run) < ID_SPACE
    ensures var s := Exec(Init(), run);
            && (id in s.shared.pending ==> id !in s.shared.tombstones)
            && (id in s.shared.pending || id in s.shared.tombstones ==> 1 <= id <= s.shared.reqId)
            && (Sent(c, ByResponse(id)) in s.sent ==> id in s.owner && s.owner[id] == c)
            && (c in s.shared.inbox && s.shared.inbox[c] == ByResponse(id) ==> id in s.owner && s.owner[id] == c)
  {
    ReachableInv(run);
    var s := Exec(Init(), run);
    assert IdOk(s, id) && CallOk(s, c) && SentOk(s, c, ByResponse(id));
  }

  /** An id, once issued, keeps its owner in every continuation. */
  lemma {:induction false} IdNeverReused(s: State, run: seq<Action>, id: ReqId)
    requires Inv(s) && Legal(s, run) && s.shared.reqId + Accepted(s, run) < ID_SPACE && id in s.owner
    ensures id in Exec(s, run).owner && Exec(s, run).owner[id] == s.owner[id]
    decreases |run|
  {
    if run == [] {
    } else {
      assert IdOk(s, id);
      StepPreserves(s, run[0]);
      IdGrows(s, run[0]);
      IdNeverReused(Apply(s, run[0]), run[1..], id);
    }
  }

  /** The response to a cancelled request is being dropped, or has been. */
  ghost predicate Swallowing(s: State, id: ReqId) {
    && id in s.owner && s.owner[id] in s.callers && s.callers[s.owner[id]].Returned?
    && id !in s.shared.pending
    && (|| (s.input.Orphan? && s.input.id == id && s.input.cancelled)
        || (s.input.Checking? && s.input.id == id && s.input.cancelled)
        || (s.input.Forgetting? && s.input.id == id && s.input.cancelled)
        || (s.input.Reading? && id !in s.shared.tombstones))
  }

  lemma SwallowStep(s: State, a: Action, id: ReqId, c: Call)
    requires Inv(s) && Swallowing(s, id) && Enabled(s, a) && !Wraps(s, a)
    requires !a.ResponseArrives? && !a.ReadFails?
    ensures Swallowing(Apply(s, a), id)
    ensures Apply(s, a).sent[Sent(c, ByResponse(id))] == s.sent[Sent(c, ByResponse(id))]
  {
    assert IdOk(s, id);
    if ByCaller(a) {
      assert CallOk(s, a.call);
      SwallowCaller(s, a, id, c);
    } else {
      SwallowInput(s, a, id, c);
    }
  }

  lemma SwallowCaller(s: State, a: Action, id: ReqId, c: Call)
    requires ByCaller(a) && Enabled(s, a) && IdOk(s, id) && CallOk(s, a.call) && Swallowing(s, id) && !Wraps(s, a)
    ensures Swallowing(Apply(s, a), id)
    ensures Apply(s, a).sent[Sent(c, ByResponse(id))] == s.sent[Sent(c, ByResponse(id))]
  {
  }

  lemma SwallowInput(s: State, a: Action, id: ReqId, c: Call)
    requires !ByCaller(a) && !a.ResponseArrives? && !a.ReadFails? && Enabled(s, a)
    requires InputOk(s) && IdOk(s, id) && Swallowing(s, id)
    ensures Swallowing(Apply(s, a), id)
    ensures Apply(s, a).sent[Sent(c, ByResponse(id))] == s.sent[Sent(c, ByResponse(id))]
  {
  }

  /** The first response to a cancelled call completes nobody, leaves its id in
      neither table and does not end the input loop. */
  lemma CancelledResponseSwallowed(s: State, id: ReqId, run: seq<Action>, c: Call)
    requires Inv(s) && s.input.Reading? && id in s.shared.tombstones
    requires Legal(Apply(s, ResponseArrives(id)), run)
    requires s.shared.reqId + Accepted(Apply(s, ResponseArrives(id)), run) < ID_SPACE
    requires forall a :: a in run ==> !a.ResponseArrives? && !a.ReadFails?
    ensures var s' := Exec(Apply(s, ResponseArrives(id)), run);
            && !s'.input.Dying? && !s'.input.Dead?
            && (s'.input.Reading? ==> id !in s'.shared.pending && id !in s'.shared.tombstones)
            && s'.sent[Sent(c, ByResponse(id))] == s.sent[Sent(c, ByResponse(id))]
  {
    assert IdOk(s, id);
    StepPreserves(s, ResponseArrives(id));
    SwallowAlong(Apply(s, ResponseArrives(id)), id, run, c);
  }

  /** The input goroutine is handling a response with this id. */
  predicate Handles(input: InputPc, id: ReqId) {
    (input.Held? || input.Answering? || input.Orphan? || input.Checking? || input.Forgetting?) && input.id == id
  }

  lemma {:induction false} TombstoneStays(s: State, run: seq<Action>, id: ReqId)
    requires Legal(s, run) && id in s.shared.tombstones && !Handles(s.input, id) && ResponseArrives(id) !in run
    ensures id in Exec(s, run).shared.tombstones && !Handles(Exec(s, run).input, id)
    decreases |run|
  {
    if run == [] {
    } else {
      TombstoneStep(s, run[0], id);
      TombstoneStays(Apply(s, run[0]), run[1..], id);
    }
  }

  lemma TombstoneStep(s: State, a: Action, id: ReqId)
    requires Enabled(s, a) && id in s.shared.tombstones && !Handles(s.input, id) && a != ResponseArrives(id)
    ensures id in Apply(s, a).shared.tombstones && !Handles(Apply(s, a).input, id)
  {
    if a.Die? { PushKeepsCounter(s.shared, a.order); }
  }

  /** A call is cancelled while no response to it is being handled. However long the
      response takes, it then completes nobody, leaves the id in neither table and does
      not end the input loop. */
  lemma LateResponseSwallowed(s: State, c: Call, wait: seq<Action>, run: seq<Action>, d: Call)
    requires Inv(s) && Enabled(s, CancelCall(c)) && !Handles(s.input, s.callers[c].id)
    requires var id := s.callers[c].id; var t := Apply(s, CancelCall(c));
             && ResponseArrives(id) !in wait && Legal(t, wait) && t.shared.reqId + Accepted(t, wait) < ID_SPACE
             && Exec(t, wait).input.Reading?
             && var u := Apply(Exec(t, wait), ResponseArrives(id));
                Legal(u, run) && Exec(t, wait).shared.reqId + Accepted(u, run) < ID_SPACE
    requires forall a :: a in run ==> !a.ResponseArrives? && !a.ReadFails?
    ensures var id := s.callers[c].id; var before := Exec(Apply(s, CancelCall(c)), wait);
            var end := Exec(Apply(before, ResponseArrives(id)), run);
            && !end.input.Dying? && !end.input.Dead?
            && (end.input.Reading? ==> id !in end.shared.pending && id !in end.shared.tombstones)
            && end.sent[Sent(d, ByResponse(id))] == before.sent[Sent(d, ByResponse(id))]
  {
    var id := s.callers[c].id;
    var t := Apply(s, CancelCall(c));
    StepPreserves(s, CancelCall(c));
    TombstoneStays(t, wait, id);
    InvAlong(t, wait);
    CancelledResponseSwallowed(Exec(t, wait), id, run, d);
  }

  lemma {:induction false} SwallowAlong(s: State, id: ReqId, run: seq<Action>, c: Call)
    requires Inv(s) && Swallowing(s, id) && Legal(s, run) && s.shared.reqId + Accepted(s, run) < ID_SPACE
    requires forall a :: a in run ==> !a.ResponseArrives? && !a.ReadFails?
    ensures Swallowing(Exec(s, run), id)
    ensures Exec(s, run).sent[Sent(c, ByResponse(id))] == s.sent[Sent(c, ByResponse(id))]
    decreases |run|
  {
    if run == [] {
    } else {
      assert run[0] in run;
      SwallowStep(s, run[0], id, c);
      StepPreserves(s, run[0]);
      IdGrows(s, run[0]);
      SwallowAlong(Apply(s, run[0]), id, run[1..], c);
    }
  }

  // ---------------------------------------------------------------------
  // The counter

  lemma CounterStep(s: State, a: Action)
    requires Enabled(s, a)
    ensures Apply(s, a).shared.reqId == if a.Begin? && Accepts(s) then NextId(s.shared.reqId) else s.shared.reqId
  {
    if a.Die? { PushKeepsCounter(s.shared, a.order); }
  }
}
