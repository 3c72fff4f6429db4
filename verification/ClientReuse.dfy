/**
 Who is stranded and who is not, for any number of calls. A request id may be issued
 again after the counter has wrapped. That is harmless as long as the call it was
 issued to before has returned, and fatal for a call that is still pending.
 */
module ClientReuse {
  import opened ClientCalls
  import opened ClientGuarantees
  import opened ClientTable
  import opened Common

  /** Inside Call and still going to use its id. */
  predicate Busy(pc: CallPc) {
    pc.Writing? || pc.WriteFailed? || pc.Completing? || pc.Waiting? || pc.Cancelling?
  }

  /** Going to wait for a value, or waiting. */
  predicate Owed(pc: CallPc) {
    Busy(pc) && !pc.Cancelling?
  }

  /** The step registers a call under the id of one that has not returned. */
  ghost predicate ReusesBusyId(s: State, a: Action) {
    && a.Begin? && Accepts(s)
    && exists d :: d in s.callers && Busy(s.callers[d]) && s.callers[d].id == NextId(s.shared.reqId)
  }

  /** No step of the run does that. */
  ghost predicate NoReuse(s: State, run: seq<Action>)
    requires Legal(s, run)
    decreases |run|
  {
    run == [] || (!ReusesBusyId(s, run[0]) && NoReuse(Apply(s, run[0]), run[1..]))
  }

  predicate InputHas(input: InputPc, c: Call) {
    (input.Held? || input.Answering?) && input.call == c
  }

  // ---------------------------------------------------------------------
  // The invariant

  ghost predicate Unique(s: State, c: Call, d: Call) {
    c in s.callers && d in s.callers && Busy(s.callers[c]) && Busy(s.callers[d]) && s.callers[c].id == s.callers[d].id
    ==> c == d
  }

  /** A pending call is registered under its own id and is nowhere else. */
  ghost predicate PendingOk(s: State, id: ReqId) {
    id in s.shared.pending ==>
      var d := s.shared.pending[id];
      && d in s.callers && HasId(s.callers[d]) && s.callers[d].id == id
      && d !in s.shared.inbox && !InputHas(s.input, d)
      && (forall x :: x in s.callers && s.callers[x].Completing? ==> s.callers[x].call != d)
  }

  /** Someone has the value of a call that is owed one, or is going to send it. */
  ghost predicate Placed(s: State, c: Call) {
    c in s.callers && Owed(s.callers[c]) ==>
      || (s.callers[c].id in s.shared.pending && s.shared.pending[s.callers[c].id] == c)
      || c in s.shared.inbox
      || InputHas(s.input, c)
      || (s.callers[c].Completing? && s.callers[c].call == c)
  }

  /** Values are for calls that have begun. */
  ghost predicate Known(s: State) {
    && (forall c :: c in s.shared.inbox ==> c in s.callers)
    && (s.input.Held? || s.input.Answering? ==> s.input.call in s.callers)
    && (forall x :: x in s.callers && s.callers[x].Completing? ==> s.callers[x].call in s.callers)
    && (s.shared.shutdown <==> s.input.Dead?)
    && (s.shared.shutdown ==> s.shared.pending == map[])
  }

  ghost predicate ReuseInv(s: State) {
    && Known(s)
    && (forall c, d :: Unique(s, c, d))
    && (forall id :: PendingOk(s, id))
    && (forall c :: Placed(s, c))
  }

  // ---------------------------------------------------------------------
  // Preservation

  lemma {:induction false} PushesAll(sh: Shared, order: seq<ReqId>)
    requires forall id :: id in order ==> id in sh.pending
    ensures var inbox := PushedAll(sh, order).inbox;
            && (forall c :: c in sh.inbox ==> c in inbox)
            && (forall id :: id in order ==> sh.pending[id] in inbox)
            && (forall c :: c in inbox ==> c in sh.inbox || exists id :: id in order && sh.pending[id] == c)
    decreases |order|
  {
    if order != [] {
      var n := |order| - 1;
      PushesAll(sh, order[..n]);
      assert order == order[..n] + [order[n]];
      forall c | c in PushedAll(sh, order).inbox && c !in sh.inbox
        ensures exists id :: id in order && sh.pending[id] == c
      {
        if c != sh.pending[order[n]] {
          var id :| id in order[..n] && sh.pending[id] == c;
          assert id in order;
        }
      }
    }
  }

  /** What a caller's step leaves alone, and where it gets a value from. */
  ghost predicate CallerFrame(s: State, a: Action, t: State)
    requires ByCaller(a)
  {
    && a.call in t.callers && t.callers == s.callers[a.call := t.callers[a.call]]
    && t.input == s.input && t.shared.shutdown == s.shared.shutdown
    && (a.Begin? ==> a.call !in s.callers)
    && (!a.Begin? ==> a.call in s.callers && (HasId(s.callers[a.call]) ==> Keeps(s.callers[a.call], t.callers[a.call])))
    && (a.RefuseDone? ==> s.callers[a.call].Refusing? && !t.callers[a.call].Refusing?)
    && (a.CompleteFailed? ==> s.callers[a.call].Completing?)
    && (t.callers[a.call].Refusing? ==> a.Begin?)
    && (forall id :: id in t.shared.pending ==>
          || (id in s.shared.pending && s.shared.pending[id] == t.shared.pending[id])
          || (a.Begin? && t.shared.pending[id] == a.call && t.callers[a.call] == Writing(id) && !s.shared.shutdown))
    && (forall c :: c in t.shared.inbox ==>
          || c in s.shared.inbox || (a.RefuseDone? && c == a.call)
          || (a.CompleteFailed? && c == s.callers[a.call].call))
    && (t.callers[a.call].Completing? ==>
          && a.TakeBack? && s.callers[a.call].WriteFailed? && s.callers[a.call].id in s.shared.pending
          && t.callers[a.call].call == s.shared.pending[s.callers[a.call].id]
          && s.callers[a.call].id !in t.shared.pending)
  }

  predicate Keeps(before: CallPc, after: CallPc)
    requires HasId(before)
  {
    HasId(after) && after.id == before.id
  }

  lemma CallerFrames(s: State, a: Action)
    requires ByCaller(a) && Enabled(s, a)
    ensures CallerFrame(s, a, Apply(s, a))
  {
    match a
    case Begin(c) => BeginFrame(s, c);
    case TakeBack(c) => TakeBackFrame(s, c);
    case CancelCall(c) => CancelFrame(s, c);
    case CompleteFailed(c) => CompleteFrame(s, c);
    case _ => QuietFrame(s, a);
  }

  lemma BeginFrame(s: State, c: Call)
    requires Enabled(s, Begin(c))
    ensures CallerFrame(s, Begin(c), Apply(s, Begin(c)))
  {
  }

  lemma TakeBackFrame(s: State, c: Call)
    requires Enabled(s, TakeBack(c))
    ensures CallerFrame(s, TakeBack(c), Apply(s, TakeBack(c)))
  {
  }

  lemma CancelFrame(s: State, c: Call)
    requires Enabled(s, CancelCall(c))
    ensures CallerFrame(s, CancelCall(c), Apply(s, CancelCall(c)))
  {
  }

  lemma CompleteFrame(s: State, c: Call)
    requires Enabled(s, CompleteFailed(c))
    ensures CallerFrame(s, CompleteFailed(c), Apply(s, CompleteFailed(c)))
  {
  }

  lemma QuietFrame(s: State, a: Action)
    requires a.RefuseDone? || a.WriteEnds? || a.SeeContextEnd? || a.Receive?
    requires Enabled(s, a)
    ensures CallerFrame(s, a, Apply(s, a))
  {
  }

  lemma KnownStep(s: State, a: Action)
    requires Known(s) && (forall id :: PendingOk(s, id)) && Enabled(s, a)
    ensures Known(Apply(s, a))
  {
    if ByCaller(a) {
      if a.TakeBack? { assert PendingOk(s, s.callers[a.call].id); }
      CallerFrames(s, a);
      FrameKnown(s, a, Apply(s, a));
    } else if a.ResponseArrives? {
      assert PendingOk(s, a.response);
    } else if a.Die? {
      PushesAll(s.shared, a.order);
      forall c | c in PushedAll(s.shared, a.order).inbox ensures c in s.callers {
        if c !in s.shared.inbox {
          var id :| id in a.order && s.shared.pending[id] == c;
          assert PendingOk(s, id);
        }
      }
    }
  }

  lemma FrameKnown(s: State, a: Action, t: State)
    requires Known(s) && ByCaller(a) && CallerFrame(s, a, t)
    requires a.TakeBack? && s.callers[a.call].WriteFailed? ==> PendingOk(s, s.callers[a.call].id)
    ensures Known(t)
  {
    if s.shared.shutdown { assert t.shared.pending == map[]; }
  }

  lemma UniqueStep(s: State, a: Action, c: Call, d: Call)
    requires Unique(s, c, d) && Enabled(s, a) && !ReusesBusyId(s, a)
    ensures Unique(Apply(s, a), c, d)
  {
  }

  lemma PendingStep(s: State, a: Action, id: ReqId)
    requires Known(s) && (forall x :: PendingOk(s, x)) && Enabled(s, a)
    ensures PendingOk(Apply(s, a), id)
  {
    assert PendingOk(s, id);
    if ByCaller(a) {
      if a.TakeBack? { assert PendingOk(s, s.callers[a.call].id); }
      CallerFrames(s, a);
      FramePending(s, a, Apply(s, a), id);
    } else {
      if a.ResponseArrives? { assert PendingOk(s, a.response); }
      InputPending(s, a, id);
    }
  }

  lemma FramePending(s: State, a: Action, t: State, id: ReqId)
    requires Known(s) && PendingOk(s, id) && ByCaller(a) && CallerFrame(s, a, t)
    requires a.TakeBack? && s.callers[a.call].WriteFailed? ==> PendingOk(s, s.callers[a.call].id)
    ensures PendingOk(t, id)
  {
  }

  lemma InputPending(s: State, a: Action, id: ReqId)
    requires PendingOk(s, id) && Enabled(s, a) && !ByCaller(a) && (a.ResponseArrives? ==> PendingOk(s, a.response))
    ensures PendingOk(Apply(s, a), id)
  {
  }

  lemma PlacedStep(s: State, a: Action, c: Call)
    requires ReuseInv(s) && Enabled(s, a) && !ReusesBusyId(s, a)
    ensures Placed(Apply(s, a), c)
  {
    assert Placed(s, c);
    match a
    case Begin(d) => BeginPlaced(s, d, c);
    case TakeBack(d) =>
      assert Unique(s, d, c);
      TakeBackPlaced(s, d, c);
    case CancelCall(d) =>
      assert Unique(s, d, c);
      CancelPlaced(s, d, c);
    case Die(order) => DiePlaced(s, order, c);
    case _ => OtherPlaced(s, a, c);
  }

  lemma BeginPlaced(s: State, d: Call, c: Call)
    requires Placed(s, c) && Enabled(s, Begin(d)) && !ReusesBusyId(s, Begin(d))
    ensures Placed(Apply(s, Begin(d)), c)
  {
  }

  lemma TakeBackPlaced(s: State, d: Call, c: Call)
    requires Placed(s, c) && Unique(s, d, c) && Enabled(s, TakeBack(d))
    ensures Placed(Apply(s, TakeBack(d)), c)
  {
  }

  lemma CancelPlaced(s: State, d: Call, c: Call)
    requires Placed(s, c) && Unique(s, d, c) && Enabled(s, CancelCall(d))
    ensures Placed(Apply(s, CancelCall(d)), c)
  {
  }

  lemma DiePlaced(s: State, order: seq<ReqId>, c: Call)
    requires Placed(s, c) && Enabled(s, Die(order))
    ensures Placed(Apply(s, Die(order)), c)
  {
    PushesAll(s.shared, order);
  }

  lemma OtherPlaced(s: State, a: Action, c: Call)
    requires Placed(s, c) && Enabled(s, a) && !a.Begin? && !a.TakeBack? && !a.CancelCall? && !a.Die?
    ensures Placed(Apply(s, a), c)
  {
  }

  lemma ReusePreserves(s: State, a: Action)
    requires ReuseInv(s) && Enabled(s, a) && !ReusesBusyId(s, a)
    ensures ReuseInv(Apply(s, a))
  {
    KnownStep(s, a);
    forall c, d ensures Unique(Apply(s, a), c, d) { UniqueStep(s, a, c, d); }
    forall id ensures PendingOk(Apply(s, a), id) { PendingStep(s, a, id); }
    forall c ensures Placed(Apply(s, a), c) { PlacedStep(s, a, c); }
  }

  lemma {:induction false} ReuseInvAlong(s: State, run: seq<Action>)
    requires ReuseInv(s) && Legal(s, run) && NoReuse(s, run)
    ensures ReuseInv(Exec(s, run))
    decreases |run|
  {
    if run == [] {
    } else {
      ReusePreserves(s, run[0]);
      ReuseInvAlong(Apply(s, run[0]), run[1..]);
    }
  }

  // ---------------------------------------------------------------------
  // Guarantees

  /** Once `dead` is closed nothing is pending, every call still waiting has its
      value, and a new call is refused without touching the tables; however many calls
      there have been. */
  lemma NobodyStranded(run: seq<Action>, c: Call)
    requires Legal(Init(), run) && NoReuse(Init(), run) && Exec(Init(), run).shared.shutdown
    ensures var s := Exec(Init(), run);
            && s.shared.pending == map[]
            && (c in s.callers && s.callers[c].Waiting? ==> c in s.shared.inbox)
            && (c !in s.callers ==> Apply(s, Begin(c)) == s.(callers := s.callers[c := Refusing]))
  {
    ReuseInvAlong(Init(), run);
    assert Placed(Exec(Init(), run), c);
  }

  /** Fewer registrations than there are ids never reuse one. */
  lemma {:induction false} NoWrapNoReuse(s: State, run: seq<Action>)
    requires Inv(s) && Legal(s, run) && s.shared.reqId + Accepted(s, run) < ID_SPACE
    ensures NoReuse(s, run)
    decreases |run|
  {
    if run == [] {
    } else {
      forall d | d in s.callers && Busy(s.callers[d]) && run[0].Begin? && Accepts(s)
        ensures s.callers[d].id != NextId(s.shared.reqId)
      {
        assert CallOk(s, d) && IdOk(s, s.callers[d].id);
      }
      StepPreserves(s, run[0]);
      IdGrows(s, run[0]);
      NoWrapNoReuse(Apply(s, run[0]), run[1..]);
    }
  }

  /** Nobody has a value for `d` or is going to send it one. */
  ghost predicate Lost(s: State, d: Call) {
    && d in s.callers && !s.callers[d].Refusing? && d !in s.shared.inbox && !InputHas(s.input, d)
    && (forall id :: id in s.shared.pending ==> s.shared.pending[id] != d)
    && (forall x :: x in s.callers && s.callers[x].Completing? ==> s.callers[x].call != d)
  }

  lemma LostStep(s: State, a: Action, d: Call)
    requires Lost(s, d) && Enabled(s, a)
    ensures Lost(Apply(s, a), d)
  {
    if a.Die? {
      PushesAll(s.shared, a.order);
    } else if ByCaller(a) {
      CallerFrames(s, a);
      FrameLost(s, a, Apply(s, a), d);
    } else {
      InputLost(s, a, d);
    }
  }

  lemma FrameLost(s: State, a: Action, t: State, d: Call)
    requires Lost(s, d) && ByCaller(a) && CallerFrame(s, a, t)
    ensures Lost(t, d)
  {
  }

  lemma InputLost(s: State, a: Action, d: Call)
    requires Lost(s, d) && Enabled(s, a) && !ByCaller(a) && !a.Die?
    ensures Lost(Apply(s, a), d)
  {
  }

  lemma {:induction false} LostForever(s: State, run: seq<Action>, d: Call)
    requires Lost(s, d) && Legal(s, run)
    ensures Lost(Exec(s, run), d)
    decreases |run|
  {
    if run == [] {
    } else {
      LostStep(s, run[0], d);
      LostForever(Apply(s, run[0]), run[1..], d);
    }
  }

  /** A registration that finds its id still pending takes the place of the call there,
      and that call is not sent a value in any continuation, not even by the shutdown. */
  lemma DisplacedNeverCompleted(before: seq<Action>, c: Call, after: seq<Action>)
    requires Legal(Init(), before) && NoReuse(Init(), before)
    requires var s := Exec(Init(), before);
             c !in s.callers && Accepts(s) && NextId(s.shared.reqId) in s.shared.pending
             && Legal(Apply(s, Begin(c)), after)
    ensures var s := Exec(Init(), before); var d := s.shared.pending[NextId(s.shared.reqId)];
            d in Exec(Apply(s, Begin(c)), after).callers && d !in Exec(Apply(s, Begin(c)), after).shared.inbox
  {
    ReuseInvAlong(Init(), before);
    var s := Exec(Init(), before);
    var n := NextId(s.shared.reqId);
    var d := s.shared.pending[n];
    assert PendingOk(s, n);
    forall id | id in s.shared.pending && id != n ensures s.shared.pending[id] != d { assert PendingOk(s, id); }
    LostForever(Apply(s, Begin(c)), after, d);
  }
}
