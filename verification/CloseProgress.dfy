/**
 Close never deadlocks. From every reachable state of a connection on which Close has
 begun it can be brought to its end by steps of the writer, of goroutines inside
 sendResponse, of the input loop and of Close itself: no write or flush has to time out,
 no handler has to return and no further request is read.
 */
module CloseProgress {
  import W = ReplyWriter
  import D = ReplyShutdown
  import R = Requests
  import opened Common

  // ---------------------------------------------------------------------
  // The flush

  ghost function SenderWork(senders: map<W.Reply, W.SenderPc>): nat {
    9 * W.CountAt(senders, W.SecondCheck) + 8 * W.CountAt(senders, W.AtSelect)
    + 4 * W.CountAt(senders, W.AtUndo) + 3 * W.CountAt(senders, W.AtPush)
  }

  function PcWork(pc: W.SenderPc): nat {
    match pc
    case SecondCheck => 9
    case AtSelect => 8
    case AtUndo => 4
    case AtPush => 3
    case _ => 0
  }

  /** What is left to do until Close finds the counter at zero. */
  ghost function FlushWork(w: W.State): nat {
    SenderWork(w.senders) + 7 * |w.queue| + 2 * One(w.token) + D.WriterWeight(w.writer) + One(w.closer == W.FlushCheck)
  }

  lemma SenderMoves(senders: map<W.Reply, W.SenderPc>, r: W.Reply, to: W.SenderPc)
    ensures SenderWork(senders[r := to])
            == SenderWork(senders) - (if r in senders then PcWork(senders[r]) else 0) + PcWork(to)
  {
    W.CountMove(senders, r, to, W.SecondCheck);
    W.CountMove(senders, r, to, W.AtSelect);
    W.CountMove(senders, r, to, W.AtUndo);
    W.CountMove(senders, r, to, W.AtPush);
  }

  /** The flush can go on: the counter is loaded, a token taken, a reply written, or a
      sender that has been counted moves on. */
  lemma NextFlushStep(w: W.State) returns (a: W.Action)
    requires W.Inv(w) && (w.closer == W.FlushCheck || w.closer == W.FlushWait)
    ensures W.Enabled(w, a) && FlushMoves(w, a)
  {
    if w.closer == W.FlushCheck {
      a := W.Closer(W.LoadPending);
    } else if w.token {
      a := W.Closer(W.TakeFlushToken);
    } else if w.writer.Writing? {
      a := W.Writer(W.FinishWrite);
    } else if w.writer.Settling? {
      a := W.Writer(W.Settle);
    } else if w.writer.Pushing? {
      a := W.Writer(W.PushToken);
    } else if w.queue != [] {
      a := W.Writer(W.Take);
    } else {
      a := NextSenderStep(w);
    }
  }

  ghost predicate FlushMoves(w: W.State, a: W.Action) {
    match a
    case Sender(_, step) => step in {W.CheckSecond, W.Enqueue, W.Undo, W.Push}
    case Writer(move) => move in {W.FinishWrite, W.Settle, W.PushToken, W.Take}
    case Closer(phase) => phase in {W.LoadPending, W.TakeFlushToken}
    case InputDies => false
  }

  lemma NextSenderStep(w: W.State) returns (a: W.Action)
    requires W.Inv(w) && w.closer == W.FlushWait && !w.token && w.queue == [] && W.Holding(w.writer) == 0
    requires !w.writer.Pushing?
    ensures W.Enabled(w, a) && a.Sender? && FlushMoves(w, a)
  {
    if w.count == 0 {
      var r :| W.At(w, r, W.AtPush);
      a := W.Sender(r, W.Push);
    } else if W.CountAt(w.senders, W.SecondCheck) > 0 {
      var r := W.CountWitness(w.senders, W.SecondCheck);
      a := W.Sender(r, W.CheckSecond);
    } else if W.CountAt(w.senders, W.AtSelect) > 0 {
      var r := W.CountWitness(w.senders, W.AtSelect);
      a := W.Sender(r, W.Enqueue);
    } else {
      var r := W.CountWitness(w.senders, W.AtUndo);
      a := W.Sender(r, W.Undo);
    }
  }

  lemma FlushSenderWork(w: W.State, r: W.Reply, step: W.SenderStep)
    requires W.SenderEnabled(w, r, step) && FlushMoves(w, W.Sender(r, step))
    ensures FlushWork(W.ApplySender(w, r, step)) < FlushWork(w) && W.ApplySender(w, r, step).closer == w.closer
  {
    W.SenderFrame(w, r, step);
    SenderMoves(w.senders, r, W.ApplySender(w, r, step).senders[r]);
  }

  /** Such a step lowers the work left, unless it ends the flush. */
  lemma FlushLowers(w: W.State, a: W.Action)
    requires W.Phased(w) && W.Enabled(w, a) && FlushMoves(w, a) && (w.closer == W.FlushCheck || w.closer == W.FlushWait)
    ensures var w' := W.Apply(w, a);
            || w'.closer == W.CloseCodec
            || ((w'.closer == W.FlushCheck || w'.closer == W.FlushWait) && FlushWork(w') < FlushWork(w))
  {
    match a
    case Sender(r, step) => FlushSenderWork(w, r, step);
    case Writer(move) => FlushWriterWork(w, move);
    case Closer(_) =>
  }

  lemma FlushWriterWork(w: W.State, move: W.WriterStep)
    requires !W.InDrain(w.writer) && W.WriterEnabled(w, move) && FlushMoves(w, W.Writer(move))
    ensures FlushWork(W.ApplyWriter(w, move)) < FlushWork(w) && W.ApplyWriter(w, move).closer == w.closer
  {
  }

  // ---------------------------------------------------------------------
  // The end of the input loop

  function InputRank(input: R.InputPc): nat {
    match input
    case Handling(_) => 8
    case AtClosingCheck(_) => 7
    case AtErrorReply(_) => 6
    case Sending(_) => 5
    case AtSpawn(_) => 4
    case Reading => 3
    case Dying(_) => 2
    case Finished(_) => 0
  }

  function PcRank(pc: W.SenderPc): nat {
    match pc
    case FirstCheck => 4
    case AtAdd => 3
    case SecondCheck => 2
    case AtSelect => 1
    case _ => 0
  }

  /** How far the reply is that the input goroutine is sending. */
  function ReplyRank(s: R.State): nat {
    if s.input.Sending? && s.input.reply in s.wire.senders then PcRank(s.wire.senders[s.input.reply]) else 0
  }

  function Full(w: W.State): nat { One(|w.queue| >= W.QUEUE_CAPACITY) }

  /** Close waits for `dead` and nobody has closed it yet. */
  ghost predicate AwaitingDead(s: R.State) {
    W.Phased(s.wire) && R.InputAgrees(s) && s.wire.closer == W.AwaitDead && !s.wire.dead
  }

  /** `t` is closer to the end of the input loop than `s`. */
  ghost predicate InputCloser(t: R.State, s: R.State) {
    && t.wire.closer == s.wire.closer
    && (|| InputRank(t.input) < InputRank(s.input)
        || (InputRank(t.input) == InputRank(s.input)
            && (|| ReplyRank(t) < ReplyRank(s)
                || (ReplyRank(t) == ReplyRank(s)
                    && (|| Full(t.wire) < Full(s.wire)
                        || (Full(t.wire) == Full(s.wire)
                            && D.WriterWeight(t.wire.writer) < D.WriterWeight(s.wire.writer)))))))
  }

  lemma {:induction false} FreshReply(used: set<W.Reply>) returns (r: W.Reply)
    ensures forall x :: x in used ==> x < r
    decreases |used|
  {
    if used == {} {
      r := 0;
    } else {
      var x :| x in used;
      var above := FreshReply(used - {x});
      r := if above <= x then x + 1 else above;
      forall y | y in used ensures y < r {
        assert y == x || y in used - {x};
      }
    }
  }

  /** Reads fail once the codec is closed, and a reply the input goroutine is sending gets
      into the queue because the writer goes on. */
  lemma NextInputStep(s: R.State) returns (a: R.Action)
    requires AwaitingDead(s) && R.OneFate(s)
    ensures R.Enabled(s, a) && Helps(a) && InputCloser(R.Apply(s, a), s)
  {
    match s.input
    case Reading => a := R.ReadFails;
    case Handling(_) => a := R.JudgeRequest(true, true, R.Eof);
    case AtClosingCheck(_) => a := R.CheckClosing;
    case AtSpawn(_) => a := R.Spawn;
    case AtErrorReply(t) =>
      R.TicketKnown(s, t);
      var r := FreshReply(s.wire.senders.Keys);
      a := R.SendError(r);
      SendErrorCloser(s, r);
    case Sending(r) =>
      if R.SendReturned(s, r) {
        a := R.LeaveSend;
      } else {
        a := NextReplyStep(s, r);
      }
    case Dying(_) => a := R.CloseDead;
  }

  lemma SendErrorCloser(s: R.State, r: W.Reply)
    requires R.Enabled(s, R.SendError(r))
    ensures InputCloser(R.Apply(s, R.SendError(r)), s)
  {
  }

  lemma NextReplyStep(s: R.State, r: W.Reply) returns (a: R.Action)
    requires AwaitingDead(s) && s.input == R.Sending(r) && !R.SendReturned(s, r)
    ensures R.Enabled(s, a) && Helps(a) && InputCloser(R.Apply(s, a), s)
  {
    var pc := s.wire.senders[r];
    assert !W.Abandoning(pc);
    if pc == W.AtSelect && |s.wire.queue| >= W.QUEUE_CAPACITY {
      var move := NextWriterMove(s.wire);
      a := R.Wire(W.Writer(move));
      WriterCloser(s, r, move);
    } else {
      var step := if pc == W.FirstCheck then W.CheckFirst else if pc == W.AtAdd then W.Add
                  else if pc == W.SecondCheck then W.CheckSecond else W.Enqueue;
      a := R.Wire(W.Sender(r, step));
      ReplyCloser(s, r, step);
    }
  }

  lemma ReplyCloser(s: R.State, r: W.Reply, step: W.SenderStep)
    requires s.input == R.Sending(r) && W.SenderEnabled(s.wire, r, step) && !s.wire.stopped
    requires step in {W.CheckFirst, W.Add, W.CheckSecond, W.Enqueue}
    ensures InputCloser(s.(wire := W.ApplySender(s.wire, r, step)), s)
  {
  }

  /** With a full queue the writer is not blocked. */
  lemma NextWriterMove(w: W.State) returns (move: W.WriterStep)
    requires !W.InDrain(w.writer) && w.queue != []
    ensures W.WriterEnabled(w, move) && move in {W.Take, W.FinishWrite, W.Settle, W.PushToken}
  {
    match w.writer
    case Serving => move := W.Take;
    case Writing(_, _) => move := W.FinishWrite;
    case Settling(_) => move := W.Settle;
    case Pushing(_) => move := W.PushToken;
  }

  lemma WriterCloser(s: R.State, r: W.Reply, move: W.WriterStep)
    requires s.input == R.Sending(r) && W.WriterEnabled(s.wire, move) && !W.InDrain(s.wire.writer)
    requires |s.wire.queue| == W.QUEUE_CAPACITY && move in {W.Take, W.FinishWrite, W.Settle, W.PushToken}
    ensures InputCloser(s.(wire := W.ApplyWriter(s.wire, move)), s)
  {
    W.WriterFrame(s.wire, move);
  }

  // ---------------------------------------------------------------------
  // All of Close

  /** No request is read, no handler moves and no wait for a write times out. */
  predicate Helps(a: R.Action) {
    match a
    case ReadRequest(_) => false
    case CallEnds(_, _) => false
    case SendReply(_, _) => false
    case HandlerDone(_) => false
    case Wire(w) => w != W.Closer(W.FlushTimeout) && w != W.Closer(W.WriterTimeout)
    case _ => true
  }

  function Phase(c: W.CloserPc): nat {
    match c
    case Open => 9
    case AwaitHandlers => 8
    case FlushCheck => 7
    case FlushWait => 7
    case CloseCodec => 6
    case AwaitDead => 5
    case StopWriter => 4
    case SignalWriter => 3
    case AwaitWriter => 2
    case Closed => 0
  }

  /** What is left to do within the phase Close is in. */
  ghost function Work(s: R.State): nat {
    match s.wire.closer
    case FlushCheck => FlushWork(s.wire)
    case FlushWait => FlushWork(s.wire)
    case AwaitDead => InputRank(s.input)
    case AwaitWriter => D.DrainWork(s.wire)
    case _ => 0
  }

  /** `t` is closer to the end of Close than `s`. */
  ghost predicate Nearer(t: R.State, s: R.State) {
    || Phase(t.wire.closer) < Phase(s.wire.closer)
    || (Phase(t.wire.closer) == Phase(s.wire.closer)
        && if s.wire.closer == W.AwaitDead then InputCloser(t, s) else Work(t) < Work(s))
  }

  /** Whatever Close is waiting for, some step that helps is enabled. */
  lemma NextCloseStep(s: R.State) returns (a: R.Action)
    requires R.Inv(s) && s.wire.closer != W.Open && s.wire.closer != W.Closed
    ensures R.Enabled(s, a) && Helps(a) && Nearer(R.Apply(s, a), s)
  {
    match s.wire.closer
    case AwaitHandlers => a := OwnStep(s, W.HandlersWaited);
    case FlushCheck => a := FlushPhase(s);
    case FlushWait => a := FlushPhase(s);
    case CloseCodec => a := OwnStep(s, W.CodecClosed);
    case AwaitDead => a := DeadPhase(s);
    case StopWriter => a := OwnStep(s, W.SetStopped);
    case SignalWriter => a := OwnStep(s, W.CloseStop);
    case AwaitWriter => a := DrainPhase(s);
  }

  /** A step of Close that ends a phase. */
  lemma OwnStep(s: R.State, step: W.CloserStep) returns (a: R.Action)
    requires W.CloserEnabled(s.wire, step)
    requires step in {W.HandlersWaited, W.CodecClosed, W.SeeInputDead, W.SetStopped, W.CloseStop, W.SeeWriterDone}
    ensures R.Enabled(s, a) && Helps(a) && Phase(R.Apply(s, a).wire.closer) < Phase(s.wire.closer)
  {
    a := R.Wire(W.Closer(step));
  }

  lemma DeadPhase(s: R.State) returns (a: R.Action)
    requires R.Inv(s) && s.wire.closer == W.AwaitDead
    ensures R.Enabled(s, a) && Helps(a) && Nearer(R.Apply(s, a), s)
  {
    if s.wire.dead {
      a := OwnStep(s, W.SeeInputDead);
    } else {
      a := NextInputStep(s);
    }
  }

  lemma FlushPhase(s: R.State) returns (a: R.Action)
    requires W.Inv(s.wire) && (s.wire.closer == W.FlushCheck || s.wire.closer == W.FlushWait)
    ensures R.Enabled(s, a) && Helps(a) && Nearer(R.Apply(s, a), s)
  {
    var w := NextFlushStep(s.wire);
    a := R.Wire(w);
    FlushNearer(s, w);
  }

  lemma FlushNearer(s: R.State, w: W.Action)
    requires W.Phased(s.wire) && (s.wire.closer == W.FlushCheck || s.wire.closer == W.FlushWait)
    requires W.Enabled(s.wire, w) && FlushMoves(s.wire, w)
    ensures R.Enabled(s, R.Wire(w)) && Helps(R.Wire(w)) && Nearer(R.Apply(s, R.Wire(w)), s)
  {
    FlushLowers(s.wire, w);
  }

  lemma DrainPhase(s: R.State) returns (a: R.Action)
    requires W.Inv(s.wire) && s.wire.closer == W.AwaitWriter
    ensures R.Enabled(s, a) && Helps(a) && Nearer(R.Apply(s, a), s)
  {
    if s.wire.writer == W.Exited {
      a := OwnStep(s, W.SeeWriterDone);
    } else {
      var w := D.NextDrainStep(s.wire);
      D.StepWork(s.wire, w);
      DrainKeepsPhase(s.wire, w);
      a := R.Wire(w);
    }
  }

  lemma DrainKeepsPhase(w: W.State, a: W.Action)
    requires W.Enabled(w, a) && D.Drains(a) && w.closer == W.AwaitWriter
    ensures !a.Closer? && a != W.InputDies && !(a.Sender? && a.step == W.Arrive)
    ensures W.Apply(w, a).closer == W.AwaitWriter
  {
    match a
    case Sender(r, step) => W.SenderFrame(w, r, step);
    case Writer(move) => W.WriterFrame(w, move);
    case Closer(_) =>
  }

  lemma {:induction false} FinishClose(s: R.State) returns (rest: seq<R.Action>)
    requires R.Inv(s) && s.wire.closer != W.Open
    ensures R.Legal(s, rest) && R.Exec(s, rest).wire.closer == W.Closed && forall a :: a in rest ==> Helps(a)
    decreases Phase(s.wire.closer), Work(s), ReplyRank(s), Full(s.wire), D.WriterWeight(s.wire.writer)
  {
    if s.wire.closer == W.Closed {
      rest := [];
    } else {
      var a := NextCloseStep(s);
      R.StepPreserves(s, a);
      var more := FinishClose(R.Apply(s, a));
      rest := [a] + more;
      assert rest[1..] == more;
    }
  }

  /** From every reachable state with Close begun, Close can return. */
  lemma CloseCanFinish(run: seq<R.Action>) returns (rest: seq<R.Action>)
    requires R.Legal(R.Init(), run) && R.Exec(R.Init(), run).wire.closer != W.Open
    ensures R.Legal(R.Exec(R.Init(), run), rest)
    ensures R.Exec(R.Exec(R.Init(), run), rest).wire.closer == W.Closed
    ensures forall a :: a in rest ==> Helps(a)
  {
    R.ReachableInv(run);
    rest := FinishClose(R.Exec(R.Init(), run));
  }
}
