/**
 What the steps of a run say about the state it ends in: when the input loop goes on
 reading and when it ends, where every value sent to a caller comes from, and when a new
 call is accepted.
 */
module ClientTrace {
  import opened ClientCalls
  import opened ClientTable
  import opened Common

  // ---------------------------------------------------------------------
  // The input loop

  /** Whether the response being handled has failed: its body could not be read, and if it
      answers nobody no tombstone excuses that. */
  predicate Failing(failed: bool, s: State, a: Action) {
    match a
    case ResponseArrives(_) => false
    case BodyRead(ok) => !ok
    case CheckTombstone => failed && (s.input.Checking? ==> s.input.id !in s.shared.tombstones)
    case _ => failed
  }

  ghost function FailedAfter(failed: bool, s: State, run: seq<Action>): bool
    requires Legal(s, run)
    decreases |run|
  {
    if run == [] then failed else FailedAfter(Failing(failed, s, run[0]), Apply(s, run[0]), run[1..])
  }

  /** The input goroutine remembers whether the response failed, and only a failed
      response or a failed read lets it leave the loop. */
  predicate LoopOk(s: State, failed: bool, cut: bool) {
    && (s.input.Answering? || s.input.Checking? || s.input.Forgetting? ==> s.input.ok == !failed)
    && (s.input.Dying? || s.input.Dead? ==> failed || cut)
  }

  lemma LoopStep(s: State, a: Action, failed: bool, cut: bool)
    requires Enabled(s, a) && LoopOk(s, failed, cut)
    ensures LoopOk(Apply(s, a), Failing(failed, s, a), cut || a == ReadFails)
  {
  }

  lemma {:induction false} LoopAlong(s: State, run: seq<Action>, failed: bool, cut: bool)
    requires Legal(s, run) && LoopOk(s, failed, cut)
    ensures LoopOk(Exec(s, run), FailedAfter(failed, s, run), cut || ReadFails in run)
    decreases |run|
  {
    if run == [] {
    } else {
      LoopStep(s, run[0], failed, cut);
      LoopAlong(Apply(s, run[0]), run[1..], Failing(failed, s, run[0]), cut || run[0] == ReadFails);
    }
  }

  lemma {:induction false} FailureOccurred(s: State, run: seq<Action>, failed: bool)
    requires Legal(s, run) && FailedAfter(failed, s, run)
    ensures failed || BodyRead(false) in run
    decreases |run|
  {
    if run != [] { FailureOccurred(Apply(s, run[0]), run[1..], Failing(failed, s, run[0])); }
  }

  /** In every run: a response that has been handled leads back to reading exactly when it
      did not fail, and the loop ends only if a response failed, because a body could not
      be read, or a header could not. */
  lemma LoopGoesOn(run: seq<Action>)
    requires Legal(Init(), run)
    ensures var s, failed := Exec(Init(), run), FailedAfter(false, Init(), run);
            && (Enabled(s, ForgetTombstone) ==> Apply(s, ForgetTombstone).input == if failed then Dying else Reading)
            && (s.input.Dying? || s.input.Dead? ==> (failed && BodyRead(false) in run) || ReadFails in run)
  {
    LoopAlong(Init(), run, false, false);
    if FailedAfter(false, Init(), run) { FailureOccurred(Init(), run, false); }
  }

  function ResponseRank(input: InputPc): nat {
    match input
    case Held(_, _) => 3
    case Orphan(_, _) => 3
    case Answering(_, _, _) => 2
    case Checking(_, _, _) => 2
    case Forgetting(_, _, _) => 1
    case _ => 0
  }

  /** Handling a response takes at most three steps of the input goroutine, each of which
      is enabled whatever the callers do. */
  lemma ResponseFinishes(s: State) returns (a: Action)
    requires ResponseRank(s.input) > 0
    ensures Enabled(s, a) && !ByCaller(a) && ResponseRank(Apply(s, a).input) == ResponseRank(s.input) - 1
  {
    match s.input
    case Held(_, _) => a := BodyRead(true);
    case Orphan(_, _) => a := BodyRead(true);
    case Answering(_, _, _) => a := Answer;
    case Checking(_, _, _) => a := CheckTombstone;
    case Forgetting(_, _, _) => a := ForgetTombstone;
  }

  // ---------------------------------------------------------------------
  // Where callers and values come from

  /** Where a caller stands, it got by what happened to it. */
  predicate CallerTold(s: State, past: seq<Action>, c: Call) {
    c in s.callers ==>
      && Begin(c) in past
      && (s.callers[c].RefusedReturn? ==> RefuseDone(c) in past)
      && (s.callers[c].WriteFailed? || s.callers[c].Completing? ==> WriteEnds(c, false) in past)
      && (s.callers[c].Completing? ==> TakeBack(c) in past)
      && (s.callers[c].Waiting? || s.callers[c].Misread? ==> WriteEnds(c, true) in past || TakeBack(c) in past)
      && (s.callers[c].Waiting? ==> s.callers[c].id != 0) && (s.callers[c].Misread? ==> s.callers[c].id == 0)
      && (TakeBack(c) in past ==> WriteEnds(c, false) in past)
      && (s.callers[c].Cancelling? ==> SeeContextEnd(c) in past)
      && (s.callers[c].Returned? <==> Receive(c) in past || CancelCall(c) in past)
      && (CancelCall(c) in past ==> SeeContextEnd(c) in past)
  }

  /** Some call whose write failed has taken back what was pending under its id. */
  ghost predicate TookBack(s: State, past: seq<Action>, id: ReqId) {
    exists d :: d in s.callers && HasId(s.callers[d]) && s.callers[d].id == id && WriteEnds(d, false) in past
  }

  ghost predicate ValueTold(s: State, past: seq<Action>, x: Sent) {
    x in s.sent ==>
      match x.result
      case ByResponse(id) => ResponseArrives(id) in past && Answer in past
      case ByWriteFailure(id) => TookBack(s, past, id)
      case ByShutdown(_) => exists order :: Die(order) in past
      case ByRefusal => RefuseDone(x.call) in past
  }

  predicate InputTold(s: State, past: seq<Action>) {
    && (s.input.NotStarted? <==> Start !in past)
    && (s.closing <==> SetClosing in past)
    && (ResponseRank(s.input) > 0 ==> ResponseArrives(s.input.id) in past)
  }

  ghost predicate ShutdownTold(s: State, past: seq<Action>) {
    s.shared.shutdown <==> exists order :: Die(order) in past
  }

  lemma CallerToldStep(s: State, a: Action, past: seq<Action>, c: Call)
    requires Enabled(s, a) && CallerTold(s, past, c) && (c !in s.callers ==> NotYet(past, c))
    ensures CallerTold(Apply(s, a), past + [a], c) && (c !in Apply(s, a).callers ==> NotYet(past + [a], c))
  {
    if ByCaller(a) && a.call == c { OwnStep(s, a, past); } else { OthersStep(s, a, past, c); }
  }

  /** Nothing has happened to `c`. */
  predicate NotYet(past: seq<Action>, c: Call) {
    forall a :: a in past ==> !(ByCaller(a) && a.call == c)
  }

  lemma OwnStep(s: State, a: Action, past: seq<Action>)
    requires ByCaller(a) && Enabled(s, a) && CallerTold(s, past, a.call)
    requires a.call !in s.callers ==> NotYet(past, a.call)
    ensures CallerTold(Apply(s, a), past + [a], a.call) && a.call in Apply(s, a).callers
  {
    assert forall x :: x in past + [a] <==> x in past || x == a;
  }

  lemma OthersStep(s: State, a: Action, past: seq<Action>, c: Call)
    requires Enabled(s, a) && !(ByCaller(a) && a.call == c)
    ensures c in Apply(s, a).callers <==> c in s.callers
    ensures c in s.callers ==> Apply(s, a).callers[c] == s.callers[c]
    ensures CallerTold(s, past, c) ==> CallerTold(Apply(s, a), past + [a], c)
    ensures NotYet(past, c) ==> NotYet(past + [a], c)
  {
    assert forall x :: x in past + [a] <==> x in past || x == a;
  }

  lemma InputToldStep(s: State, a: Action, past: seq<Action>)
    requires Enabled(s, a) && InputTold(s, past)
    ensures InputTold(Apply(s, a), past + [a])
  {
    assert forall x :: x in past + [a] <==> x in past || x == a;
  }

  lemma ShutdownToldStep(s: State, a: Action, past: seq<Action>)
    requires Enabled(s, a) && ShutdownTold(s, past)
    ensures ShutdownTold(Apply(s, a), past + [a])
  {
    assert forall x :: x in past + [a] <==> x in past || x == a;
  }

  /** Ids and failed writes stay what they are. */
  lemma TookBackStays(s: State, a: Action, past: seq<Action>, id: ReqId)
    requires Enabled(s, a) && TookBack(s, past, id)
    ensures TookBack(Apply(s, a), past + [a], id)
  {
    var d :| d in s.callers && HasId(s.callers[d]) && s.callers[d].id == id && WriteEnds(d, false) in past;
    assert WriteEnds(d, false) in past + [a];
    if ByCaller(a) && a.call == d { KeepsId(s, a); } else { OthersStep(s, a, past, d); }
  }

  lemma KeepsId(s: State, a: Action)
    requires ByCaller(a) && Enabled(s, a) && a.call in s.callers && HasId(s.callers[a.call])
    ensures var pc := Apply(s, a).callers[a.call]; HasId(pc) && pc.id == s.callers[a.call].id
  {
  }

  /** The values sent by a step. */
  lemma NewValue(s: State, a: Action, x: Sent)
    requires Enabled(s, a) && x in Apply(s, a).sent && x !in s.sent
    ensures || (a.RefuseDone? && x == Sent(a.call, ByRefusal))
            || (a.CompleteFailed? && x == Sent(s.callers[a.call].call, ByWriteFailure(s.callers[a.call].id)))
            || (a.Answer? && x == Sent(s.input.call, ByResponse(s.input.id)))
            || (a.Die? && x.result.ByShutdown?)
  {
  }

  lemma ValueToldStep(s: State, a: Action, past: seq<Action>, x: Sent)
    requires Enabled(s, a) && ValueTold(s, past, x) && InputTold(s, past)
    requires a.CompleteFailed? ==> CallerTold(s, past, a.call)
    ensures ValueTold(Apply(s, a), past + [a], x)
  {
    if x in Apply(s, a).sent {
      if x in s.sent {
        OldValue(s, a, past, x);
      } else {
        NewValue(s, a, x);
        FreshValue(s, a, past, x);
      }
    }
  }

  lemma OldValue(s: State, a: Action, past: seq<Action>, x: Sent)
    requires Enabled(s, a) && ValueTold(s, past, x) && x in s.sent
    ensures ValueTold(Apply(s, a), past + [a], x)
  {
    assert forall y :: y in past ==> y in past + [a];
    if x.result.ByWriteFailure? { TookBackStays(s, a, past, x.result.id); }
  }

  lemma FreshValue(s: State, a: Action, past: seq<Action>, x: Sent)
    requires Enabled(s, a) && InputTold(s, past) && (a.CompleteFailed? ==> CallerTold(s, past, a.call))
    requires || (a.RefuseDone? && x == Sent(a.call, ByRefusal))
             || (a.CompleteFailed? && x == Sent(s.callers[a.call].call, ByWriteFailure(s.callers[a.call].id)))
             || (a.Answer? && x == Sent(s.input.call, ByResponse(s.input.id)))
             || (a.Die? && x.result.ByShutdown?)
    ensures ValueTold(Apply(s, a), past + [a], x)
  {
    assert forall y :: y in past ==> y in past + [a];
    assert a in past + [a];
    if a.CompleteFailed? { KeepsId(s, a); }
  }

  ghost predicate AllTold(s: State, past: seq<Action>) {
    && InputTold(s, past) && ShutdownTold(s, past)
    && (forall c :: CallerTold(s, past, c) && (c !in s.callers ==> NotYet(past, c)))
    && (forall x :: ValueTold(s, past, x))
  }

  lemma AllToldStep(s: State, a: Action, past: seq<Action>)
    requires Enabled(s, a) && AllTold(s, past)
    ensures AllTold(Apply(s, a), past + [a])
  {
    InputToldStep(s, a, past);
    ShutdownToldStep(s, a, past);
    forall c ensures CallerTold(Apply(s, a), past + [a], c) && (c !in Apply(s, a).callers ==> NotYet(past + [a], c)) {
      CallerToldStep(s, a, past, c);
    }
    forall x ensures ValueTold(Apply(s, a), past + [a], x) { ValueToldStep(s, a, past, x); }
  }

  lemma {:induction false} AllToldAlong(s: State, run: seq<Action>, past: seq<Action>)
    requires Legal(s, run) && AllTold(s, past)
    ensures AllTold(Exec(s, run), past + run)
    decreases |run|
  {
    if run == [] {
      assert past + run == past;
    } else {
      AllToldStep(s, run[0], past);
      AllToldAlong(Apply(s, run[0]), run[1..], past + [run[0]]);
      assert past + [run[0]] + run[1..] == past + run;
    }
  }

  // ---------------------------------------------------------------------
  // Guarantees

  /** No value comes out of nothing: a response was received, a write had failed, the
      input loop had ended or the call was refused. Where a caller stands it got by what
      happened to it: it waits after its write, cancels after its context has ended, and
      returns by a value or a cancellation. */
  lemma ValuesExplained(run: seq<Action>, c: Call, r: Result)
    requires Legal(Init(), run)
    ensures var s := Exec(Init(), run); ValueTold(s, run, Sent(c, r)) && CallerTold(s, run, c)
  {
    AllToldAlong(Init(), run, []);
    assert [] + run == run;
  }

  /** A call is registered exactly on a connection that was started, on which Close has
      not begun and whose input loop has not ended. */
  lemma AcceptsIff(run: seq<Action>, c: Call)
    requires Legal(Init(), run) && Enabled(Exec(Init(), run), Begin(c))
    ensures var s := Exec(Init(), run); var t := Apply(s, Begin(c));
            if Start in run && SetClosing !in run && !(exists order :: Die(order) in run) then
              t.callers[c] == Writing(NextId(s.shared.reqId)) && t.shared == Registered(s.shared, c)
            else
              t.callers[c] == Refusing && t.shared == s.shared
  {
    AllToldAlong(Init(), run, []);
    assert [] + run == run;
  }

  // ---------------------------------------------------------------------
  // Conservation of values

  /** How many values callers have taken out of their Done channels. */
  function Received(run: seq<Action>): nat {
    if run == [] then 0 else One(run[0].Receive?) + Received(run[1..])
  }

  /** Values in channels and values thrown away. */
  function InChannels(sh: Shared): nat { |sh.inbox| + sh.discarded }

  lemma PushedOne(sh: Shared, call: Call, result: Result)
    ensures InChannels(Pushed(sh, call, result)) == InChannels(sh) + 1
  {
    if call !in sh.inbox { assert sh.inbox[call := result].Keys == sh.inbox.Keys + {call}; }
  }

  lemma {:induction false} PushedMany(sh: Shared, order: seq<ReqId>)
    requires forall id :: id in order ==> id in sh.pending
    ensures InChannels(PushedAll(sh, order)) == InChannels(sh) + |order|
    decreases |order|
  {
    if order != [] {
      var n := |order| - 1;
      PushedMany(sh, order[..n]);
      PushedOne(PushedAll(sh, order[..n]), sh.pending[order[n]], ByShutdown(order[n]));
    }
  }

  lemma {:induction false} EnumerationSize(order: seq<ReqId>, ids: set<ReqId>)
    requires (forall id :: id in order <==> id in ids) && forall i, j :: 0 <= i < j < |order| ==> order[i] != order[j]
    ensures |order| == |ids|
    decreases |order|
  {
    if order == [] {
      assert ids == {};
    } else {
      var n := |order| - 1;
      var last := order[n];
      assert forall id :: id in order[..n] <==> id in ids - {last} by {
        assert order == order[..n] + [last];
      }
      EnumerationSize(order[..n], ids - {last});
    }
  }

  /** A set of values, one for each pending id, has as many elements. */
  lemma {:induction false} ShutdownValues(pending: map<ReqId, Call>)
    ensures |set id | id in pending :: Sent(pending[id], ByShutdown(id))| == |pending|
    decreases |pending|
  {
    var values := set id | id in pending :: Sent(pending[id], ByShutdown(id));
    if pending == map[] {
      assert values == {};
    } else {
      var id :| id in pending;
      var rest := pending - {id};
      ShutdownValues(rest);
      var fewer := set x | x in rest :: Sent(rest[x], ByShutdown(x));
      assert values == fewer + {Sent(pending[id], ByShutdown(id))};
    }
  }

  lemma DieConserves(s: State, order: seq<ReqId>)
    requires Enabled(s, Die(order))
    ensures var t := Apply(s, Die(order)); |t.sent| - InChannels(t.shared) == |s.sent| - InChannels(s.shared)
  {
    PushedMany(s.shared, order);
    EnumerationSize(order, s.shared.pending.Keys);
    ShutdownValues(s.shared.pending);
  }

  lemma ConservesStep(s: State, a: Action)
    requires Enabled(s, a)
    ensures var t := Apply(s, a);
            |t.sent| - InChannels(t.shared) == |s.sent| - InChannels(s.shared) + One(a.Receive?)
  {
    match a
    case RefuseDone(c) => PushedOne(s.shared, c, ByRefusal);
    case CompleteFailed(c) => PushedOne(s.shared, s.callers[c].call, ByWriteFailure(s.callers[c].id));
    case Answer => PushedOne(s.shared, s.input.call, ByResponse(s.input.id));
    case Receive(c) => assert s.shared.inbox.Keys == (s.shared.inbox - {c}).Keys + {c};
    case Die(order) => DieConserves(s, order);
    case _ => QuietConserves(s, a);
  }

  lemma QuietConserves(s: State, a: Action)
    requires Enabled(s, a) && !a.RefuseDone? && !a.CompleteFailed? && !a.Answer? && !a.Receive? && !a.Die?
    ensures Apply(s, a).sent == s.sent && InChannels(Apply(s, a).shared) == InChannels(s.shared)
  {
  }

  lemma {:induction false} ConservedAlong(s: State, run: seq<Action>)
    requires Legal(s, run)
    ensures var t := Exec(s, run);
            |t.sent| - InChannels(t.shared) == |s.sent| - InChannels(s.shared) + Received(run)
    decreases |run|
  {
    if run == [] {
    } else {
      ConservesStep(s, run[0]);
      ConservedAlong(Apply(s, run[0]), run[1..]);
    }
  }

  /** In every run, however often the counter wraps, each value sent is in its channel, has
      been received, or was discarded because the channel was full. */
  lemma ValuesConserved(run: seq<Action>)
    requires Legal(Init(), run)
    ensures var s := Exec(Init(), run); |s.sent| == |s.shared.inbox| + Received(run) + s.shared.discarded
  {
    ConservedAlong(Init(), run);
  }
}
