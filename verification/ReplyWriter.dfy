/**
 The reply path of a server connection: handler goroutines hand replies to one
 writer goroutine through a bounded queue while Close shuts the connection down.

 The protocol is a labelled transition system. Every action is one atomic
 operation of the original: one load or store of an atomic, one channel
 operation, one completed write. Timeouts may fire at any moment, and replies
 may arrive at any moment, in particular after Close has returned.
 */
module ReplyWriter {

  type Reply = nat

  /** Capacity of the buffered channel `responses`. */
  const QUEUE_CAPACITY := 128

  /** Where a goroutine stands inside sendResponse. */
  datatype SenderPc =
    | FirstCheck   // about to load writerStopped
    | AtAdd        // saw it false, about to increment pendingWrites
    | SecondCheck  // counted, about to load writerStopped again
    | AtSelect     // counted, waiting to queue the reply or to see `dead`
    | AtUndo       // counted, about to decrement pendingWrites
    | AtPush       // its decrement reached zero, about to offer a token
    | AtFinish     // about to finish the reply with ErrShutdown
    | HandedOver   // returned, the reply went into the queue
    | Dropped      // returned, the reply was finished with ErrShutdown

  /** Where the writer goroutine stands. */
  datatype WriterPc =
    | Serving                                  // outer select
    | Writing(reply: Reply, draining: bool)    // in writeResponse, before finishResponse
    | Settling(draining: bool)                 // finished, about to decrement pendingWrites
    | Pushing(draining: bool)                  // its decrement reached zero
    | DrainCheck                               // about to load pendingWrites
    | DrainSelect                              // inner select
    | Exited                                   // writerDone is closed

  /** Where the one effective call of Close stands. */
  datatype CloserPc =
    | Open          // Close has not been called
    | AwaitHandlers
    | FlushCheck    // about to load pendingWrites
    | FlushWait     // waiting for a token or the timeout
    | CloseCodec
    | AwaitDead
    | StopWriter    // about to set writerStopped
    | SignalWriter  // about to close writerStop
    | AwaitWriter
    | Closed

  datatype Outcome = Written | Refused

  /** One call of finishResponse. */
  datatype Finish = Finish(reply: Reply, outcome: Outcome)

  datatype State = State(
    senders: map<Reply, SenderPc>,
    queue: seq<Reply>,
    count: int,
    token: bool,
    stopped: bool,
    stopSignal: bool,
    dead: bool,
    writer: WriterPc,
    closer: CloserPc,
    finishes: multiset<Finish>)

  datatype Action =
    | Sender(reply: Reply, step: SenderStep)
    | Writer(move: WriterStep)
    | Closer(phase: CloserStep)
    | InputDies

  datatype SenderStep =
    | Arrive | CheckFirst | Add | CheckSecond | Enqueue | SeeDead | Undo | Push | Drop

  datatype WriterStep =
    | Take | SeeStop | FinishWrite | Settle | PushToken | LoadCount | TakeToken

  datatype CloserStep =
    | Begin | HandlersWaited | LoadPending | TakeFlushToken | FlushTimeout
    | CodecClosed | SeeInputDead | SetStopped | CloseStop | SeeWriterDone | WriterTimeout

  function Init(): State {
    State(map[], [], 0, false, false, false, false, Serving, Open, multiset{})
  }

  predicate At(s: State, r: Reply, pc: SenderPc) {
    r in s.senders && s.senders[r] == pc
  }

  predicate SenderEnabled(s: State, r: Reply, step: SenderStep) {
    match step
    case Arrive => r !in s.senders
    case CheckFirst => At(s, r, FirstCheck)
    case Add => At(s, r, AtAdd)
    case CheckSecond => At(s, r, SecondCheck)
    case Enqueue => At(s, r, AtSelect) && |s.queue| < QUEUE_CAPACITY
    case SeeDead => At(s, r, AtSelect) && s.dead
    case Undo => At(s, r, AtUndo)
    case Push => At(s, r, AtPush)
    case Drop => At(s, r, AtFinish)
  }

  function Goto(s: State, r: Reply, pc: SenderPc): State {
    s.(senders := s.senders[r := pc])
  }

  function ApplySender(s: State, r: Reply, step: SenderStep): State
    requires SenderEnabled(s, r, step)
  {
    match step
    case Arrive => Goto(s, r, FirstCheck)
    case CheckFirst => Goto(s, r, if s.stopped then AtFinish else AtAdd)
    case Add => Goto(s, r, SecondCheck).(count := s.count + 1)
    case CheckSecond => Goto(s, r, if s.stopped then AtUndo else AtSelect)
    case Enqueue => Goto(s, r, HandedOver).(queue := s.queue + [r])
    case SeeDead => Goto(s, r, AtUndo)
    case Undo => Goto(s, r, if s.count - 1 == 0 then AtPush else AtFinish).(count := s.count - 1)
    case Push => Goto(s, r, AtFinish).(token := true)
    case Drop => Goto(s, r, Dropped).(finishes := s.finishes + multiset{Finish(r, Refused)})
  }

  predicate WriterEnabled(s: State, step: WriterStep) {
    match step
    case Take => (s.writer == Serving || s.writer == DrainSelect) && s.queue != []
    case SeeStop => s.writer == Serving && s.stopSignal
    case FinishWrite => s.writer.Writing?
    case Settle => s.writer.Settling?
    case PushToken => s.writer.Pushing?
    case LoadCount => s.writer == DrainCheck
    case TakeToken => s.writer == DrainSelect && s.token
  }

  /** The point the writer goes back to after one reply. */
  function LoopHead(draining: bool): WriterPc {
    if draining then DrainCheck else Serving
  }

  function ApplyWriter(s: State, step: WriterStep): State
    requires WriterEnabled(s, step)
  {
    match step
    case Take => s.(writer := Writing(s.queue[0], s.writer == DrainSelect), queue := s.queue[1..])
    case SeeStop => s.(writer := DrainCheck)
    case FinishWrite =>
      s.(writer := Settling(s.writer.draining),
         finishes := s.finishes + multiset{Finish(s.writer.reply, Written)})
    case Settle =>
      s.(writer := if s.count - 1 == 0 then Pushing(s.writer.draining) else LoopHead(s.writer.draining),
         count := s.count - 1)
    case PushToken => s.(writer := LoopHead(s.writer.draining), token := true)
    case LoadCount => s.(writer := if s.count != 0 then DrainSelect else Exited)
    case TakeToken => s.(writer := DrainCheck, token := false)
  }

  predicate CloserEnabled(s: State, step: CloserStep) {
    match step
    case Begin => s.closer == Open
    case HandlersWaited => s.closer == AwaitHandlers
    case LoadPending => s.closer == FlushCheck
    case TakeFlushToken => s.closer == FlushWait && s.token
    case FlushTimeout => s.closer == FlushWait
    case CodecClosed => s.closer == CloseCodec
    case SeeInputDead => s.closer == AwaitDead && s.dead
    case SetStopped => s.closer == StopWriter
    case CloseStop => s.closer == SignalWriter
    case SeeWriterDone => s.closer == AwaitWriter && s.writer == Exited
    case WriterTimeout => s.closer == AwaitWriter
  }

  function ApplyCloser(s: State, step: CloserStep): State
    requires CloserEnabled(s, step)
  {
    match step
    case Begin => s.(closer := AwaitHandlers)
    case HandlersWaited => s.(closer := FlushCheck)
    case LoadPending => s.(closer := if s.count == 0 then CloseCodec else FlushWait)
    case TakeFlushToken => s.(closer := FlushCheck, token := false)
    case FlushTimeout => s.(closer := CloseCodec)
    case CodecClosed => s.(closer := AwaitDead)
    case SeeInputDead => s.(closer := StopWriter)
    case SetStopped => s.(closer := SignalWriter, stopped := true)
    case CloseStop => s.(closer := AwaitWriter, stopSignal := true)
    case SeeWriterDone => s.(closer := Closed)
    case WriterTimeout => s.(closer := Closed)
  }

  predicate Enabled(s: State, a: Action) {
    match a
    case Sender(r, step) => SenderEnabled(s, r, step)
    case Writer(move) => WriterEnabled(s, move)
    case Closer(phase) => CloserEnabled(s, phase)
    case InputDies => !s.dead
  }

  function Apply(s: State, a: Action): State
    requires Enabled(s, a)
  {
    match a
    case Sender(r, step) => ApplySender(s, r, step)
    case Writer(move) => ApplyWriter(s, move)
    case Closer(phase) => ApplyCloser(s, phase)
    case InputDies => s.(dead := true)
  }

  /** A schedule that can be executed from `s`. */
  predicate Legal(s: State, run: seq<Action>)
    decreases |run|
  {
    run == [] || (Enabled(s, run[0]) && Legal(Apply(s, run[0]), run[1..]))
  }

  function Exec(s: State, run: seq<Action>): State
    requires Legal(s, run)
    decreases |run|
  {
    if run == [] then s else Exec(Apply(s, run[0]), run[1..])
  }

  // ---------------------------------------------------------------------
  // The invariant

  ghost function AllAt(senders: map<Reply, SenderPc>, pc: SenderPc): set<Reply> {
    set r | r in senders && senders[r] == pc
  }

  /** How many senders stand at `pc`. */
  ghost function CountAt(senders: map<Reply, SenderPc>, pc: SenderPc): nat {
    |AllAt(senders, pc)|
  }

  function Holding(writer: WriterPc): nat {
    if writer.Writing? || writer.Settling? then 1 else 0
  }

  /** The counter counts the senders between `add` and their undo, the queued
      replies and the one being written. */
  ghost predicate CountExact(s: State) {
    s.count == CountAt(s.senders, SecondCheck) + CountAt(s.senders, AtSelect) + CountAt(s.senders, AtUndo)
               + |s.queue| + Holding(s.writer)
  }

  predicate Terminal(pc: SenderPc) {
    pc == HandedOver || pc == Dropped
  }

  /** In how many places reply `r` is: with its sender, in the queue, in the
      writer's hands, or finished. */
  ghost function Places(s: State, r: Reply): nat {
    (if r in s.senders && !Terminal(s.senders[r]) then 1 else 0)
    + multiset(s.queue)[r]
    + (if s.writer.Writing? && s.writer.reply == r then 1 else 0)
    + s.finishes[Finish(r, Written)] + s.finishes[Finish(r, Refused)]
  }

  /** The writer has reply `r`, or has written it. */
  predicate WithWriter(s: State, r: Reply) {
    s.finishes[Finish(r, Written)] > 0 || r in s.queue || (s.writer.Writing? && s.writer.reply == r)
  }

  /** Each reply ever handed in is in exactly one place, every other in none; its sender
      gave it up if it was refused and handed it over if the writer has or had it. */
  ghost predicate Conserved(s: State) {
    && (forall r :: Places(s, r) == if r in s.senders then 1 else 0)
    && (forall r :: s.finishes[Finish(r, Refused)] > 0 ==> At(s, r, Dropped))
    && (forall r :: WithWriter(s, r) ==> At(s, r, HandedOver))
  }

  predicate PastStop(c: CloserPc) {
    c == SignalWriter || c == AwaitWriter || c == Closed
  }

  predicate InDrain(w: WriterPc) {
    || w == DrainCheck || w == DrainSelect || w == Exited
    || ((w.Writing? || w.Settling? || w.Pushing?) && w.draining)
  }

  predicate Abandoning(pc: SenderPc) {
    pc == AtUndo || pc == AtPush || pc == AtFinish || pc == Dropped
  }

  /** The order in which Close sets its flags, and what each of them licenses. */
  ghost predicate Phased(s: State) {
    && (s.stopped <==> PastStop(s.closer))
    && (s.stopSignal <==> s.closer == AwaitWriter || s.closer == Closed)
    && (s.closer == StopWriter || s.stopped ==> s.dead)
    && (InDrain(s.writer) ==> s.stopSignal)
    && (forall r :: r in s.senders && Abandoning(s.senders[r]) ==> s.dead)
    && |s.queue| <= QUEUE_CAPACITY
  }

  /** After the writer has left, nothing is queued and nobody can queue. */
  ghost predicate Drained(s: State) {
    s.writer == Exited ==> s.queue == [] && CountAt(s.senders, AtSelect) == 0
  }

  /** Close's flush wait or the draining writer is blocked on `notify`. */
  predicate Blocked(s: State) {
    s.closer == FlushWait || s.writer == DrainSelect
  }

  /** Some `done` has reached zero and is about to offer its token. */
  ghost predicate PushPending(s: State) {
    s.writer.Pushing? || exists r :: At(s, r, AtPush)
  }

  ghost predicate NoLostWakeup(s: State) {
    Blocked(s) && s.count == 0 ==> s.token || PushPending(s)
  }

  ghost predicate Inv(s: State) {
    CountExact(s) && Conserved(s) && Phased(s) && Drained(s) && NoLostWakeup(s)
  }

  // ---------------------------------------------------------------------
  // Preservation

  /** Moving one sender changes two of the counts, by one each. */
  lemma CountMove(senders: map<Reply, SenderPc>, r: Reply, to: SenderPc, pc: SenderPc)
    ensures CountAt(senders[r := to], pc)
            == CountAt(senders, pc) - (if r in senders && senders[r] == pc then 1 else 0)
               + (if to == pc then 1 else 0)
  {
    var before, after := AllAt(senders, pc), AllAt(senders[r := to], pc);
    assert after == if to == pc then before + {r} else before - {r};
  }

  lemma CountPositive(senders: map<Reply, SenderPc>, r: Reply)
    requires r in senders
    ensures CountAt(senders, senders[r]) > 0
  {
    assert r in AllAt(senders, senders[r]);
  }

  lemma CountZero(senders: map<Reply, SenderPc>, pc: SenderPc, r: Reply)
    requires CountAt(senders, pc) == 0
    ensures !(r in senders && senders[r] == pc)
  {
    if r in senders && senders[r] == pc { CountPositive(senders, r); }
  }

  lemma CountWitness(senders: map<Reply, SenderPc>, pc: SenderPc) returns (r: Reply)
    requires CountAt(senders, pc) > 0
    ensures r in senders && senders[r] == pc
  {
    assert AllAt(senders, pc) != {};
    r :| r in AllAt(senders, pc);
  }

  lemma InitInv()
    ensures Inv(Init())
  {
  }

  lemma SenderCounts(s: State, r: Reply, step: SenderStep)
    requires CountExact(s) && Phased(s) && Drained(s) && SenderEnabled(s, r, step)
    ensures CountExact(ApplySender(s, r, step)) && Drained(ApplySender(s, r, step))
  {
    var to := ApplySender(s, r, step).senders[r];
    CountMove(s.senders, r, to, SecondCheck);
    CountMove(s.senders, r, to, AtSelect);
    CountMove(s.senders, r, to, AtUndo);
    if r in s.senders { CountPositive(s.senders, r); }
  }

  lemma SenderConserves(s: State, r: Reply, step: SenderStep)
    requires Conserved(s) && SenderEnabled(s, r, step)
    ensures Conserved(ApplySender(s, r, step))
  {
    var s' := ApplySender(s, r, step);
    forall x ensures Places(s', x) == if x in s'.senders then 1 else 0 { SenderPlaces(s, r, step, x); }
    forall x | s'.finishes[Finish(x, Refused)] > 0 ensures At(s', x, Dropped) { SenderRefuses(s, r, step, x); }
    forall x | WithWriter(s', x) ensures At(s', x, HandedOver) { SenderHands(s, r, step, x); }
  }

  lemma SenderHands(s: State, r: Reply, step: SenderStep, x: Reply)
    requires Conserved(s) && SenderEnabled(s, r, step) && WithWriter(ApplySender(s, r, step), x)
    ensures At(ApplySender(s, r, step), x, HandedOver)
  {
    if step != Enqueue || x != r {
      assert WithWriter(s, x);
      SenderFrame(s, r, step);
    }
  }

  lemma SenderRefuses(s: State, r: Reply, step: SenderStep, x: Reply)
    requires Conserved(s) && SenderEnabled(s, r, step) && ApplySender(s, r, step).finishes[Finish(x, Refused)] > 0
    ensures At(ApplySender(s, r, step), x, Dropped)
  {
    if step != Drop || x != r {
      assert s.finishes[Finish(x, Refused)] > 0 && At(s, x, Dropped);
      SenderFrame(s, r, step);
    }
  }

  lemma EnqueuePlaces(s: State, r: Reply, x: Reply)
    requires SenderEnabled(s, r, Enqueue)
    ensures Places(ApplySender(s, r, Enqueue), x) == Places(s, x)
  {
    assert multiset(s.queue + [r])[x] == multiset(s.queue)[x] + multiset{r}[x];
  }

  lemma DropPlaces(s: State, r: Reply, x: Reply)
    requires SenderEnabled(s, r, Drop)
    ensures Places(ApplySender(s, r, Drop), x) == Places(s, x)
  {
  }

  /** A sender's step moves no reply but its own, and that one from place to place. */
  lemma SenderPlaces(s: State, r: Reply, step: SenderStep, x: Reply)
    requires SenderEnabled(s, r, step)
    ensures Places(ApplySender(s, r, step), x) == Places(s, x) + if step == Arrive && x == r then 1 else 0
  {
    if step == Enqueue {
      EnqueuePlaces(s, r, x);
    } else if step == Drop {
      DropPlaces(s, r, x);
    }
  }

  lemma SenderWakes(s: State, r: Reply, step: SenderStep)
    requires CountExact(s) && NoLostWakeup(s) && SenderEnabled(s, r, step)
    ensures NoLostWakeup(ApplySender(s, r, step))
  {
    var s' := ApplySender(s, r, step);
    if Blocked(s') && s'.count == 0 && !s'.token && !s'.writer.Pushing? && step != Add {
      if step == Undo {
        assert At(s', r, AtPush);
      } else {
        var x :| At(s, x, AtPush);
        assert At(s', x, AtPush);
      }
    }
  }

  lemma SenderPhases(s: State, r: Reply, step: SenderStep)
    requires Phased(s) && SenderEnabled(s, r, step)
    ensures Phased(ApplySender(s, r, step))
  {
  }

  lemma SenderPreserves(s: State, r: Reply, step: SenderStep)
    requires Inv(s) && SenderEnabled(s, r, step)
    ensures Inv(ApplySender(s, r, step))
  {
    SenderCounts(s, r, step);
    SenderConserves(s, r, step);
    SenderPhases(s, r, step);
    SenderWakes(s, r, step);
  }

  /** The writer moves replies from place to place. */
  lemma WriterPlaces(s: State, step: WriterStep, x: Reply)
    requires WriterEnabled(s, step)
    ensures Places(ApplyWriter(s, step), x) == Places(s, x)
  {
    if step == Take {
      assert s.queue == [s.queue[0]] + s.queue[1..];
      assert multiset(s.queue)[x] == multiset{s.queue[0]}[x] + multiset(s.queue[1..])[x];
    }
  }

  lemma WriterConserves(s: State, step: WriterStep)
    requires Conserved(s) && WriterEnabled(s, step)
    ensures Conserved(ApplyWriter(s, step))
  {
    var s' := ApplyWriter(s, step);
    forall x ensures Places(s', x) == if x in s'.senders then 1 else 0 { WriterPlaces(s, step, x); }
    forall x | WithWriter(s', x) ensures WithWriter(s, x) { WriterKeeps(s, step, x); }
  }

  lemma WriterKeeps(s: State, step: WriterStep, x: Reply)
    requires WriterEnabled(s, step) && WithWriter(ApplyWriter(s, step), x)
    ensures WithWriter(s, x)
  {
  }

  lemma WriterCounts(s: State, step: WriterStep)
    requires CountExact(s) && Drained(s) && WriterEnabled(s, step)
    ensures CountExact(ApplyWriter(s, step)) && Drained(ApplyWriter(s, step))
  {
  }

  lemma WriterPhases(s: State, step: WriterStep)
    requires Phased(s) && WriterEnabled(s, step)
    ensures Phased(ApplyWriter(s, step))
  {
  }

  lemma WriterWakes(s: State, step: WriterStep)
    requires CountExact(s) && Phased(s) && NoLostWakeup(s) && WriterEnabled(s, step)
    ensures NoLostWakeup(ApplyWriter(s, step))
  {
  }

  lemma WriterPreserves(s: State, step: WriterStep)
    requires Inv(s) && WriterEnabled(s, step)
    ensures Inv(ApplyWriter(s, step))
  {
    WriterConserves(s, step);
    WriterCounts(s, step);
    WriterPhases(s, step);
    WriterWakes(s, step);
  }

  /** Close and the input loop never touch a reply. */
  lemma SamePlaces(s: State, s': State)
    requires Conserved(s)
    requires s'.senders == s.senders && s'.queue == s.queue && s'.writer == s.writer && s'.finishes == s.finishes
    ensures Conserved(s')
  {
    forall x ensures Places(s', x) == if x in s'.senders then 1 else 0 {
      assert Places(s', x) == Places(s, x);
    }
    forall x | WithWriter(s', x) ensures At(s', x, HandedOver) {
      assert WithWriter(s, x);
    }
  }

  lemma CloserPhases(s: State, step: CloserStep)
    requires Phased(s) && CloserEnabled(s, step)
    ensures Phased(ApplyCloser(s, step))
  {
  }

  lemma CloserWakes(s: State, step: CloserStep)
    requires NoLostWakeup(s) && CloserEnabled(s, step) && (s.writer == DrainSelect ==> PastStop(s.closer))
    ensures NoLostWakeup(ApplyCloser(s, step))
  {
    var s' := ApplyCloser(s, step);
    if Blocked(s') && s'.count == 0 && !s'.token && !s'.writer.Pushing? {
      var x :| At(s, x, AtPush);
      assert At(s', x, AtPush);
    }
  }

  lemma CloserPreserves(s: State, step: CloserStep)
    requires Inv(s) && CloserEnabled(s, step)
    ensures Inv(ApplyCloser(s, step))
  {
    SamePlaces(s, ApplyCloser(s, step));
    CloserPhases(s, step);
    CloserWakes(s, step);
  }

  lemma StepPreserves(s: State, a: Action)
    requires Inv(s) && Enabled(s, a)
    ensures Inv(Apply(s, a))
  {
    match a
    case Sender(r, step) => SenderPreserves(s, r, step);
    case Writer(move) => WriterPreserves(s, move);
    case Closer(phase) => CloserPreserves(s, phase);
    case InputDies => SamePlaces(s, Apply(s, a));
  }

  /** No step takes a reply back, revives a sender that has returned, or reopens
      `dead`. */
  lemma StepFrame(s: State, a: Action)
    requires Enabled(s, a)
    ensures Apply(s, a).senders.Keys
            == if a.Sender? && a.step == Arrive then s.senders.Keys + {a.reply} else s.senders.Keys
    ensures Apply(s, a).dead == (s.dead || a == InputDies)
    ensures forall r :: r in s.senders && Terminal(s.senders[r]) ==> Apply(s, a).senders[r] == s.senders[r]
  {
    match a
    case Sender(r, step) => SenderFrame(s, r, step);
    case Writer(move) => WriterFrame(s, move);
    case Closer(phase) => CloserFrame(s, phase);
    case InputDies =>
  }

  lemma SenderFrame(s: State, r: Reply, step: SenderStep)
    requires SenderEnabled(s, r, step)
    ensures var s' := ApplySender(s, r, step);
            r in s'.senders && s'.senders == s.senders[r := s'.senders[r]] && s'.dead == s.dead && s'.closer == s.closer
    ensures r in s.senders <==> step != Arrive
    ensures r in s.senders ==> !Terminal(s.senders[r])
  {
  }

  lemma WriterFrame(s: State, step: WriterStep)
    requires WriterEnabled(s, step)
    ensures var s' := ApplyWriter(s, step);
            s'.senders == s.senders && s'.dead == s.dead && s'.closer == s.closer
  {
  }

  lemma CloserFrame(s: State, step: CloserStep)
    requires CloserEnabled(s, step)
    ensures var s' := ApplyCloser(s, step);
            s'.senders == s.senders && s'.dead == s.dead && s'.closer != Open
  {
  }

  lemma CloserNeverReopens(s: State, a: Action)
    requires Enabled(s, a) && s.closer != Open
    ensures Apply(s, a).closer != Open
  {
    match a
    case Sender(r, step) => SenderFrame(s, r, step);
    case Writer(move) => WriterFrame(s, move);
    case Closer(phase) => CloserFrame(s, phase);
    case InputDies =>
  }
}
