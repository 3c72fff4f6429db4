/**
 What the reply protocol guarantees over whole runs: exact accounting, one
 finish per reply, no lost wakeup, and a drain that ends.
 */
module ReplyShutdown {
  import opened ReplyWriter

  lemma {:induction false} InvAlong(s: State, run: seq<Action>)
    requires Inv(s) && Legal(s, run)
    ensures Inv(Exec(s, run))
    decreases |run|
  {
    if run == [] {
    } else {
      StepPreserves(s, run[0]);
      InvAlong(Apply(s, run[0]), run[1..]);
    }
  }

  lemma ReachableInv(run: seq<Action>)
    requires Legal(Init(), run)
    ensures Inv(Exec(Init(), run))
  {
    InitInv();
    InvAlong(Init(), run);
  }

  // ---------------------------------------------------------------------
  // Accounting and finishing

  /** In every reachable state pendingWrites counts exactly the senders past
      `add` and not undone, the queued replies and the one being written. */
  lemma PendingWritesExact(run: seq<Action>)
    requires Legal(Init(), run)
    ensures var s := Exec(Init(), run);
            s.count == |AllAt(s.senders, SecondCheck)| + |AllAt(s.senders, AtSelect)| + |AllAt(s.senders, AtUndo)|
                       + |s.queue| + Holding(s.writer)
            && |s.queue| <= QUEUE_CAPACITY
  {
    ReachableInv(run);
  }

  /** Once the writer has exited the queue is empty, and it stays empty in every
      continuation, including those in which new replies keep arriving. */
  lemma {:induction false} WriterExitIsFinal(before: seq<Action>, after: seq<Action>)
    requires Legal(Init(), before) && Legal(Exec(Init(), before), after)
    requires Exec(Init(), before).writer == Exited
    ensures Exec(Exec(Init(), before), after).writer == Exited
    ensures Exec(Exec(Init(), before), after).queue == []
  {
    ReachableInv(before);
    ExitedForever(Exec(Init(), before), after);
  }

  lemma {:induction false} ExitedForever(s: State, run: seq<Action>)
    requires Inv(s) && s.writer == Exited && Legal(s, run)
    ensures Exec(s, run).writer == Exited && Exec(s, run).queue == []
    decreases |run|
  {
    if run == [] {
    } else {
      StepPreserves(s, run[0]);
      ExitedForever(Apply(s, run[0]), run[1..]);
    }
  }

  /** A reply is finished at most once: written if its sender handed it over, refused if
      its sender gave it up, which happens only once the input loop has died. */
  lemma FinishedAtMostOnce(run: seq<Action>, r: Reply)
    requires Legal(Init(), run)
    ensures var s := Exec(Init(), run);
            && s.finishes[Finish(r, Written)] + s.finishes[Finish(r, Refused)] <= 1
            && (s.finishes[Finish(r, Written)] > 0 ==> At(s, r, HandedOver))
            && (s.finishes[Finish(r, Refused)] > 0 ==> At(s, r, Dropped) && s.dead)
  {
    ReachableInv(run);
    var s := Exec(Init(), run);
    assert Places(s, r) == if r in s.senders then 1 else 0;
  }

  /** Every sender has returned and the writer has exited. */
  predicate Quiescent(s: State) {
    s.writer == Exited && forall r :: r in s.senders ==> Terminal(s.senders[r])
  }

  /** In a finished run each reply handed in has exactly one finish, and no
      other finish exists. */
  lemma FinishedExactlyOnce(run: seq<Action>, r: Reply)
    requires Legal(Init(), run) && Quiescent(Exec(Init(), run))
    ensures var s := Exec(Init(), run);
            s.finishes[Finish(r, Written)] + s.finishes[Finish(r, Refused)] == if r in s.senders then 1 else 0
  {
    ReachableInv(run);
    QuiescentFinishes(Exec(Init(), run), r);
  }

  lemma QuiescentFinishes(s: State, r: Reply)
    requires Inv(s) && Quiescent(s)
    ensures s.finishes[Finish(r, Written)] + s.finishes[Finish(r, Refused)] == if r in s.senders then 1 else 0
  {
    assert Places(s, r) == if r in s.senders then 1 else 0;
  }

  // ---------------------------------------------------------------------
  // Wakeups

  /** Whoever is blocked on `notify` with the counter at zero has a token waiting
      or on its way, and Close and the writer never compete for tokens. */
  lemma WakeupNeverLost(run: seq<Action>)
    requires Legal(Init(), run)
    ensures var s := Exec(Init(), run);
            && (Blocked(s) && s.count == 0 ==> s.token || s.writer.Pushing? || exists r :: At(s, r, AtPush))
            && !(s.closer == FlushWait && s.writer == DrainSelect)
  {
    ReachableInv(run);
  }

  /** Close goes on to the codec without a timeout exactly when no reply is between
      `add` and its finish: nobody is about to queue one, none is queued and none is
      being written. */
  lemma FlushSeesIdle(run: seq<Action>)
    requires Legal(Init(), run) && Enabled(Exec(Init(), run), Closer(LoadPending))
    ensures var s := Exec(Init(), run);
            Apply(s, Closer(LoadPending)).closer == CloseCodec <==>
              && s.queue == [] && !s.writer.Writing? && !s.writer.Settling?
              && (forall r :: !At(s, r, SecondCheck) && !At(s, r, AtSelect) && !At(s, r, AtUndo))
  {
    ReachableInv(run);
    var s := Exec(Init(), run);
    if s.count == 0 {
      forall r ensures !At(s, r, SecondCheck) && !At(s, r, AtSelect) && !At(s, r, AtUndo) {
        CountZero(s.senders, SecondCheck, r);
        CountZero(s.senders, AtSelect, r);
        CountZero(s.senders, AtUndo, r);
      }
    } else if s.queue == [] && Holding(s.writer) == 0 {
      var pc := if CountAt(s.senders, SecondCheck) > 0 then SecondCheck
                else if CountAt(s.senders, AtSelect) > 0 then AtSelect else AtUndo;
      var r := CountWitness(s.senders, pc);
      assert At(s, r, pc);
    }
  }

  // ---------------------------------------------------------------------
  // The drain ends

  function WriterWeight(w: WriterPc): nat {
    match w
    case Serving => 3
    case Writing(_, draining) => if draining then 7 else 8
    case Settling(draining) => if draining then 6 else 7
    case Pushing(draining) => if draining then 5 else 6
    case DrainCheck => 2
    case DrainSelect => 1
    case Exited => 0
  }

  function PcWeight(pc: SenderPc): nat {
    match pc
    case AtSelect => 8
    case AtAdd => 6
    case SecondCheck => 5
    case AtUndo => 4
    case AtPush => 3
    case _ => 0
  }

  ghost function SenderWeight(senders: map<Reply, SenderPc>): nat {
    8 * CountAt(senders, AtSelect) + 6 * CountAt(senders, AtAdd) + 5 * CountAt(senders, SecondCheck)
    + 4 * CountAt(senders, AtUndo) + 3 * CountAt(senders, AtPush)
  }

  /** How much work is left between setting writerStopped and the writer's exit. */
  ghost function DrainWork(s: State): nat {
    SenderWeight(s.senders) + 7 * |s.queue| + (if s.token then 2 else 0)
    + WriterWeight(s.writer) + (if s.stopSignal then 0 else 1)
  }

  /** The steps that carry the drain forward: the writer's own, those of senders
      that passed the first check, and closing writerStop. */
  predicate Drains(a: Action) {
    match a
    case Sender(_, step) => step != Arrive && step != CheckFirst && step != Drop
    case Writer(_) => true
    case Closer(phase) => phase == CloseStop
    case InputDies => false
  }

  lemma SenderMoves(senders: map<Reply, SenderPc>, r: Reply, to: SenderPc)
    ensures SenderWeight(senders[r := to])
            == SenderWeight(senders) - (if r in senders then PcWeight(senders[r]) else 0) + PcWeight(to)
  {
    CountMove(senders, r, to, AtSelect);
    CountMove(senders, r, to, AtAdd);
    CountMove(senders, r, to, SecondCheck);
    CountMove(senders, r, to, AtUndo);
    CountMove(senders, r, to, AtPush);
  }

  lemma SenderWork(s: State, r: Reply, step: SenderStep)
    requires s.stopped && SenderEnabled(s, r, step)
    ensures DrainWork(ApplySender(s, r, step)) + (if Drains(Sender(r, step)) then 1 else 0) <= DrainWork(s)
  {
    var s' := ApplySender(s, r, step);
    assert s'.senders == s.senders[r := s'.senders[r]];
    SenderMoves(s.senders, r, s'.senders[r]);
  }

  lemma WriterWork(s: State, step: WriterStep)
    requires s.stopped && WriterEnabled(s, step)
    ensures DrainWork(ApplyWriter(s, step)) + 1 <= DrainWork(s)
  {
  }

  /** After writerStopped is set every draining step lowers the work left and no
      other step raises it. */
  lemma StepWork(s: State, a: Action)
    requires Phased(s) && s.stopped && Enabled(s, a)
    ensures DrainWork(Apply(s, a)) + (if Drains(a) then 1 else 0) <= DrainWork(s)
    ensures Apply(s, a).stopped
  {
    match a
    case Sender(r, step) => SenderWork(s, r, step);
    case Writer(step) => WriterWork(s, step);
    case Closer(step) => CloserWork(s, step);
    case InputDies =>
  }

  lemma CloserWork(s: State, step: CloserStep)
    requires Phased(s) && s.stopped && CloserEnabled(s, step)
    ensures DrainWork(ApplyCloser(s, step)) + (if step == CloseStop then 1 else 0) <= DrainWork(s)
    ensures ApplyCloser(s, step).stopped
  {
  }

  function DrainSteps(run: seq<Action>): nat {
    if run == [] then 0 else (if Drains(run[0]) then 1 else 0) + DrainSteps(run[1..])
  }

  /** Every continuation after writerStopped was set takes at most DrainWork
      draining steps, however many other steps are interleaved. */
  lemma DrainBounded(before: seq<Action>, after: seq<Action>)
    requires Legal(Init(), before) && Legal(Exec(Init(), before), after)
    requires Exec(Init(), before).stopped
    ensures DrainSteps(after) <= DrainWork(Exec(Init(), before))
  {
    ReachableInv(before);
    DrainBoundedFrom(Exec(Init(), before), after);
  }

  lemma {:induction false} DrainBoundedFrom(s: State, run: seq<Action>)
    requires Inv(s) && s.stopped && Legal(s, run)
    ensures DrainSteps(run) + DrainWork(Exec(s, run)) <= DrainWork(s)
    decreases |run|
  {
    if run == [] {
    } else {
      StepWork(s, run[0]);
      StepPreserves(s, run[0]);
      DrainBoundedFrom(Apply(s, run[0]), run[1..]);
    }
  }

  /** ... and until the writer has exited a draining step is always enabled. */
  lemma DrainNeverStuck(run: seq<Action>) returns (a: Action)
    requires Legal(Init(), run)
    requires Exec(Init(), run).stopped && Exec(Init(), run).writer != Exited
    ensures Drains(a) && Enabled(Exec(Init(), run), a)
  {
    ReachableInv(run);
    a := NextDrainStep(Exec(Init(), run));
  }

  lemma NextDrainStep(s: State) returns (a: Action)
    requires Inv(s) && s.stopped && s.writer != Exited
    ensures Drains(a) && Enabled(s, a)
  {
    match s.writer
    case Serving => a := if s.stopSignal then Writer(SeeStop) else Closer(CloseStop);
    case Writing(_, _) => a := Writer(FinishWrite);
    case Settling(_) => a := Writer(Settle);
    case Pushing(_) => a := Writer(PushToken);
    case DrainCheck => a := Writer(LoadCount);
    case DrainSelect =>
      if s.queue != [] {
        a := Writer(Take);
      } else if s.token {
        a := Writer(TakeToken);
      } else if s.count == 0 {
        var r :| At(s, r, AtPush);
        a := Sender(r, Push);
      } else if CountAt(s.senders, SecondCheck) > 0 {
        var r := CountWitness(s.senders, SecondCheck);
        a := Sender(r, CheckSecond);
      } else if CountAt(s.senders, AtSelect) > 0 {
        var r := CountWitness(s.senders, AtSelect);
        a := Sender(r, SeeDead);
      } else {
        var r := CountWitness(s.senders, AtUndo);
        a := Sender(r, Undo);
      }
  }
}
