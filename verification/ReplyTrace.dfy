/**
 What the steps of a run say about the state it ends in: Close takes its steps in the
 order of the source and flushes before it closes the codec, and replies are written in
 the order in which they were queued.
 */
module ReplyTrace {
  import opened ReplyShutdown
  import opened ReplyWriter

  lemma {:induction false} ExecFront(s: State, run: seq<Action>)
    requires run != [] && Legal(s, run)
    ensures var front, a := run[..|run| - 1], run[|run| - 1];
            Legal(s, front) && Enabled(Exec(s, front), a) && Exec(s, run) == Apply(Exec(s, front), a)
    decreases |run|
  {
    if |run| > 1 {
      ExecFront(Apply(s, run[0]), run[1..]);
      assert run[1..][..|run| - 2] == run[..|run| - 1][1..];
    }
  }

  // ---------------------------------------------------------------------
  // The order of Close

  predicate Flushing(c: CloserPc) { c == FlushCheck || c == FlushWait }

  predicate PastFlush(c: CloserPc) {
    c != Open && c != AwaitHandlers && !Flushing(c)
  }

  predicate PastCodec(c: CloserPc) {
    PastFlush(c) && c != CloseCodec
  }

  /** No reply is between `add` and its finish. */
  predicate Idle(s: State) {
    && s.queue == [] && !s.writer.Writing? && !s.writer.Settling?
    && (forall r :: r in s.senders ==> s.senders[r] !in {SecondCheck, AtSelect, AtUndo})
  }

  /** The steps Close has taken. */
  function Taken(run: seq<Action>): set<CloserStep> {
    set a | a in run && a.Closer? :: a.phase
  }

  /** How far Close has come is what it has done. */
  predicate Accounts(taken: set<CloserStep>, c: CloserPc) {
    UpToCodec(taken, c) && FromCodec(taken, c) && FromStop(taken, c)
  }

  predicate UpToCodec(taken: set<CloserStep>, c: CloserPc) {
    && (Begin in taken <==> c != Open)
    && (HandlersWaited in taken <==> c != Open && c != AwaitHandlers)
    && (LoadPending in taken || FlushTimeout in taken ==> HandlersWaited in taken)
    && (c == FlushWait || PastFlush(c) ==> LoadPending in taken)
    && (FlushTimeout in taken ==> PastFlush(c))
  }

  predicate FromCodec(taken: set<CloserStep>, c: CloserPc) {
    && (CodecClosed in taken <==> PastCodec(c))
    && (SeeInputDead in taken <==> c == StopWriter || PastStop(c))
  }

  predicate FromStop(taken: set<CloserStep>, c: CloserPc) {
    && (SetStopped in taken <==> PastStop(c))
    && (CloseStop in taken <==> c == AwaitWriter || c == Closed)
    && (SeeWriterDone in taken || WriterTimeout in taken <==> c == Closed)
  }

  lemma AccountsStep(taken: set<CloserStep>, s: State, step: CloserStep)
    requires CloserEnabled(s, step) && Accounts(taken, s.closer)
    ensures Accounts(taken + {step}, ApplyCloser(s, step).closer)
  {
    EarlyStep(taken, s, step);
    LateStep(taken, s, step);
    LastStep(taken, s, step);
  }

  lemma EarlyStep(taken: set<CloserStep>, s: State, step: CloserStep)
    requires CloserEnabled(s, step) && UpToCodec(taken, s.closer)
    ensures UpToCodec(taken + {step}, ApplyCloser(s, step).closer)
  {
  }

  lemma LateStep(taken: set<CloserStep>, s: State, step: CloserStep)
    requires CloserEnabled(s, step) && FromCodec(taken, s.closer)
    ensures FromCodec(taken + {step}, ApplyCloser(s, step).closer)
  {
  }

  lemma LastStep(taken: set<CloserStep>, s: State, step: CloserStep)
    requires CloserEnabled(s, step) && FromStop(taken, s.closer)
    ensures FromStop(taken + {step}, ApplyCloser(s, step).closer)
  {
  }

  lemma TakenSnoc(run: seq<Action>, a: Action)
    ensures Taken(run + [a]) == if a.Closer? then Taken(run) + {a.phase} else Taken(run)
  {
    forall step ensures step in Taken(run + [a]) <==> step in Taken(run) || a == Closer(step) {
      assert Closer(step) in run + [a] <==> Closer(step) in run || a == Closer(step);
      assert Closer(step) in run <==> step in Taken(run);
    }
  }

  lemma OthersLeaveCloser(s: State, a: Action)
    requires Enabled(s, a) && !a.Closer?
    ensures Apply(s, a).closer == s.closer
  {
    match a
    case Sender(r, step) => SenderFrame(s, r, step);
    case Writer(move) => WriterFrame(s, move);
    case InputDies =>
  }

  /** Close never skips a step: it is in each of its phases exactly when the steps that
      lead there have been taken, its flags are set accordingly, and `dead` is closed by
      the input loop alone. */
  lemma {:induction false} CloseInOrder(run: seq<Action>)
    requires Legal(Init(), run)
    ensures var s := Exec(Init(), run);
            && Accounts(Taken(run), s.closer)
            && (s.stopped <==> SetStopped in Taken(run)) && (s.stopSignal <==> CloseStop in Taken(run))
            && (s.dead <==> InputDies in run) && (SeeInputDead in Taken(run) ==> s.dead)
            && (SeeWriterDone in Taken(run) ==> s.writer == Exited)
    decreases |run|
  {
    ReachableInv(run);
    if run == [] {
    } else {
      var n := |run| - 1;
      var front, a := run[..n], run[n];
      ExecFront(Init(), run);
      CloseInOrder(front);
      assert front + [a] == run;
      TakenSnoc(front, a);
      StepFrame(Exec(Init(), front), a);
      if a.Closer? {
        AccountsStep(Taken(front), Exec(Init(), front), a.phase);
      } else {
        OthersLeaveCloser(Exec(Init(), front), a);
      }
    }
  }

  /** Close has loaded the counter at a moment when no reply was outstanding. */
  ghost predicate SawIdle(run: seq<Action>)
    requires Legal(Init(), run)
  {
    exists i :: 0 <= i < |run| && run[i] == Closer(LoadPending) && IdleBefore(run, i)
  }

  ghost predicate IdleBefore(run: seq<Action>, i: nat)
    requires i < |run|
  {
    Legal(Init(), run[..i]) && Idle(Exec(Init(), run[..i]))
  }

  lemma IdleIffZero(s: State)
    requires Inv(s)
    ensures s.count == 0 <==> Idle(s)
  {
    if s.count == 0 {
      forall r | r in s.senders ensures s.senders[r] !in {SecondCheck, AtSelect, AtUndo} {
        CountZero(s.senders, SecondCheck, r);
        CountZero(s.senders, AtSelect, r);
        CountZero(s.senders, AtUndo, r);
      }
    } else if Idle(s) {
      var pc := if CountAt(s.senders, SecondCheck) > 0 then SecondCheck
                else if CountAt(s.senders, AtSelect) > 0 then AtSelect else AtUndo;
      var r := CountWitness(s.senders, pc);
    }
  }

  /** The codec is closed only after a flush that found every reply finished, or one that
      timed out. */
  lemma {:induction false} FlushBeforeCodec(run: seq<Action>)
    requires Legal(Init(), run) && PastFlush(Exec(Init(), run).closer)
    ensures Closer(FlushTimeout) in run || SawIdle(run)
    decreases |run|
  {
    var n := |run| - 1;
    ExecFront(Init(), run);
    var front := run[..n];
    var s := Exec(Init(), front);
    if PastFlush(s.closer) {
      FlushBeforeCodec(front);
      if SawIdle(front) {
        var i :| 0 <= i < n && front[i] == Closer(LoadPending) && IdleBefore(front, i);
        assert front[..i] == run[..i];
        assert IdleBefore(run, i);
      }
    } else {
      ReachableInv(front);
      EndsFlush(s, run[n]);
      IdleIffZero(s);
      assert s.count == 0 ==> IdleBefore(run, n);
    }
  }

  lemma EndsFlush(s: State, a: Action)
    requires Enabled(s, a) && !PastFlush(s.closer) && PastFlush(Apply(s, a).closer)
    ensures a == Closer(FlushTimeout) || (a == Closer(LoadPending) && s.count == 0)
  {
    if !a.Closer? { OthersLeaveCloser(s, a); }
  }

  // ---------------------------------------------------------------------
  // The order of replies

  /** The replies queued by a run, in order. */
  function Queued(run: seq<Action>): seq<Reply> {
    if run == [] then []
    else (if run[0].Sender? && run[0].step == Enqueue then [run[0].reply] else []) + Queued(run[1..])
  }

  /** The replies whose writing a run completes, in order. */
  function Written(s: State, run: seq<Action>): seq<Reply>
    requires Legal(s, run)
    decreases |run|
  {
    if run == [] then []
    else (if run[0] == Writer(FinishWrite) then [s.writer.reply] else []) + Written(Apply(s, run[0]), run[1..])
  }

  /** What the writer has in hand, and then what waits in the queue. */
  function Ahead(s: State): seq<Reply> {
    (if s.writer.Writing? then [s.writer.reply] else []) + s.queue
  }

  lemma AheadStep(s: State, a: Action)
    requires Enabled(s, a)
    ensures Ahead(s) + (if a.Sender? && a.step == Enqueue then [a.reply] else [])
            == (if a == Writer(FinishWrite) then [s.writer.reply] else []) + Ahead(Apply(s, a))
  {
    match a
    case Sender(r, step) => SenderAhead(s, r, step);
    case Writer(move) => WriterAhead(s, move);
    case Closer(phase) => CloserAhead(s, phase);
    case InputDies =>
  }

  lemma SenderAhead(s: State, r: Reply, step: SenderStep)
    requires SenderEnabled(s, r, step)
    ensures Ahead(ApplySender(s, r, step)) == Ahead(s) + if step == Enqueue then [r] else []
  {
  }

  lemma WriterAhead(s: State, move: WriterStep)
    requires WriterEnabled(s, move)
    ensures Ahead(s) == (if move == FinishWrite then [s.writer.reply] else []) + Ahead(ApplyWriter(s, move))
  {
    if move == Take { assert s.queue == [s.queue[0]] + s.queue[1..]; }
  }

  lemma CloserAhead(s: State, phase: CloserStep)
    requires CloserEnabled(s, phase)
    ensures Ahead(ApplyCloser(s, phase)) == Ahead(s)
  {
  }

  /** From any state on: what was ahead and what a run queues is what it writes and what
      is ahead after it, in this order. */
  lemma {:induction false} WrittenInOrder(s: State, run: seq<Action>, end: State)
    requires Legal(s, run) && end == Exec(s, run)
    ensures Ahead(s) + Queued(run) == Written(s, run) + Ahead(end)
    decreases |run|
  {
    if run == [] {
    } else {
      var a, rest := run[0], run[1..];
      var t := Apply(s, a);
      AheadStep(s, a);
      WrittenInOrder(t, rest, end);
      var queued := if a.Sender? && a.step == Enqueue then [a.reply] else [];
      var written := if a == Writer(FinishWrite) then [s.writer.reply] else [];
      Shift(Ahead(s), queued, Queued(rest), written, Ahead(t), Written(t, rest), Ahead(end));
    }
  }

  lemma Shift(a: seq<Reply>, q: seq<Reply>, qs: seq<Reply>, w: seq<Reply>, b: seq<Reply>, ws: seq<Reply>, c: seq<Reply>)
    requires a + q == w + b && b + qs == ws + c
    ensures a + (q + qs) == (w + ws) + c
  {
    assert a + (q + qs) == (a + q) + qs;
    assert (w + b) + qs == w + (b + qs);
    assert w + (ws + c) == (w + ws) + c;
  }

  /** A connection writes its replies in the order in which they were queued, none is
      left out, and each one written is finished as written that many times. */
  lemma RepliesInOrder(run: seq<Action>, r: Reply)
    requires Legal(Init(), run)
    ensures var s := Exec(Init(), run);
            && Queued(run) == Written(Init(), run) + Ahead(s)
            && s.finishes[Finish(r, Outcome.Written)] == multiset(Written(Init(), run))[r]
  {
    WrittenInOrder(Init(), run, Exec(Init(), run));
    assert Ahead(Init()) + Queued(run) == Queued(run);
    FinishesWritten(Init(), run, r);
  }

  lemma {:induction false} FinishesWritten(s: State, run: seq<Action>, r: Reply)
    requires Legal(s, run)
    ensures Exec(s, run).finishes[Finish(r, Outcome.Written)]
            == s.finishes[Finish(r, Outcome.Written)] + multiset(Written(s, run))[r]
    decreases |run|
  {
    if run == [] {
    } else {
      FinishesStep(s, run[0], r);
      FinishesWritten(Apply(s, run[0]), run[1..], r);
    }
  }

  lemma FinishesStep(s: State, a: Action, r: Reply)
    requires Enabled(s, a)
    ensures Apply(s, a).finishes[Finish(r, Outcome.Written)]
            == s.finishes[Finish(r, Outcome.Written)] + if a == Writer(FinishWrite) && s.writer.reply == r then 1 else 0
  {
    match a
    case Sender(x, step) => SenderFinishes(s, x, step, r);
    case Writer(move) => WriterFinishes(s, move, r);
    case Closer(_) =>
    case InputDies =>
  }

  lemma SenderFinishes(s: State, x: Reply, step: SenderStep, r: Reply)
    requires SenderEnabled(s, x, step)
    ensures ApplySender(s, x, step).finishes[Finish(r, Outcome.Written)] == s.finishes[Finish(r, Outcome.Written)]
  {
  }

  lemma WriterFinishes(s: State, move: WriterStep, r: Reply)
    requires WriterEnabled(s, move)
    ensures ApplyWriter(s, move).finishes[Finish(r, Outcome.Written)]
            == s.finishes[Finish(r, Outcome.Written)] + if move == FinishWrite && s.writer.reply == r then 1 else 0
  {
  }
}
