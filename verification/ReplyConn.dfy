/**
 The reply side of a connection as a mutable object. Each step of a goroutine is
 performed on the shared fields, as the original does, and is proved to be the
 step of the protocol with that name; so the object moves through exactly the
 states that the theorems of ReplyShutdown are about.
 */
module ReplyConn {
  import opened Common
  import opened ReplyShutdown
  import opened ReplyWriter

  class Conn {
    var senders: map<Reply, SenderPc>   // where each goroutine in sendResponse stands
    var responses: seq<Reply>           // the buffered channel
    var pendingWrites: int              // writeCounter.n
    var notify: bool                    // a token in writeCounter.notify
    var writerStopped: bool
    var writerStop: bool                // closed
    var dead: bool                      // closed
    var writer: WriterPc
    var closer: CloserPc
    ghost var finishes: multiset<Finish>

    ghost function View(): State
      reads this
    {
      State(senders, responses, pendingWrites, notify, writerStopped, writerStop, dead, writer, closer, finishes)
    }

    constructor ()
      ensures View() == Init()
    {
      senders, responses, pendingWrites, notify := map[], [], 0, false;
      writerStopped, writerStop, dead, writer, closer := false, false, false, Serving, Open;
      finishes := multiset{};
    }

    /** writeCounter.add */
    method Add()
      modifies this`pendingWrites
      ensures pendingWrites == old(pendingWrites) + 1
    {
      pendingWrites := pendingWrites + 1;
    }

    /** The decrement of writeCounter.done; a token has to be offered if it reached zero. */
    method Decrement() returns (zero: bool)
      modifies this`pendingWrites
      ensures pendingWrites == old(pendingWrites) - 1 && zero == (pendingWrites == 0)
    {
      pendingWrites := pendingWrites - 1;
      zero := pendingWrites == 0;
    }

    /** The non-blocking send on the one-slot channel of writeCounter.done. */
    method OfferToken()
      modifies this`notify
      ensures notify
    {
      notify := true;
    }

    /** One step of the goroutine that sends reply `r`, up to handing it over. */
    method StepSender(r: Reply, step: SenderStep)
      requires SenderEnabled(View(), r, step) && step != Undo && step != Push && step != Drop
      modifies this
      ensures View() == ApplySender(old(View()), r, step)
    {
      match step
      case Arrive =>
        senders := senders[r := FirstCheck];
      case CheckFirst =>
        senders := senders[r := if writerStopped then AtFinish else AtAdd];
      case Add =>
        Add();
        senders := senders[r := SecondCheck];
      case CheckSecond =>
        senders := senders[r := if writerStopped then AtUndo else AtSelect];
      case Enqueue =>
        responses := responses + [r];
        senders := senders[r := HandedOver];
      case SeeDead =>
        senders := senders[r := AtUndo];
    }

    /** One step of a goroutine that gives up sending reply `r`, until the reply is finished. */
    method StepAbandoning(r: Reply, step: SenderStep)
      requires SenderEnabled(View(), r, step) && (step == Undo || step == Push)
      modifies this
      ensures View() == ApplySender(old(View()), r, step)
    {
      match step
      case Undo =>
        var zero := Decrement();
        senders := senders[r := if zero then AtPush else AtFinish];
      case Push =>
        OfferToken();
        senders := senders[r := AtFinish];
    }

    /** Finishes a refused reply. */
    method Refuse(r: Reply)
      requires SenderEnabled(View(), r, Drop)
      modifies this
      ensures View() == ApplySender(old(View()), r, Drop)
    {
      finishes := finishes + multiset{Finish(r, Refused)};
      senders := senders[r := Dropped];
    }

    /** One step of the writer goroutine. */
    method StepWriter(step: WriterStep)
      requires WriterEnabled(View(), step)
      modifies this
      ensures View() == ApplyWriter(old(View()), step)
    {
      match step
      case Take =>
        writer := Writing(responses[0], writer == DrainSelect);
        responses := responses[1..];
      case SeeStop =>
        writer := DrainCheck;
      case FinishWrite =>
        finishes := finishes + multiset{Finish(writer.reply, Written)};
        writer := Settling(writer.draining);
      case Settle =>
        var zero := Decrement();
        writer := if zero then Pushing(writer.draining) else LoopHead(writer.draining);
      case PushToken =>
        OfferToken();
        writer := LoopHead(writer.draining);
      case LoadCount =>
        writer := if pendingWrites != 0 then DrainSelect else Exited;
      case TakeToken =>
        notify := false;
        writer := DrainCheck;
    }

    /** One step of Close. */
    method StepCloser(step: CloserStep)
      requires CloserEnabled(View(), step)
      modifies this
      ensures View() == ApplyCloser(old(View()), step)
    {
      match step
      case Begin => closer := AwaitHandlers;
      case HandlersWaited => closer := FlushCheck;
      case LoadPending => closer := if pendingWrites == 0 then CloseCodec else FlushWait;
      case TakeFlushToken =>
        notify := false;
        closer := FlushCheck;
      case FlushTimeout => closer := CloseCodec;
      case CodecClosed => closer := AwaitDead;
      case SeeInputDead => closer := StopWriter;
      case SetStopped =>
        writerStopped := true;
        closer := SignalWriter;
      case CloseStop =>
        writerStop := true;
        closer := AwaitWriter;
      case SeeWriterDone => closer := Closed;
      case WriterTimeout => closer := Closed;
    }

    /** The input loop closes `dead`. */
    method CloseDead()
      requires !dead
      modifies this`dead
      ensures View() == Apply(old(View()), InputDies)
    {
      dead := true;
    }
  }

  /** One step of whichever goroutine it belongs to. */
  method Step(c: Conn, a: Action)
    requires Enabled(c.View(), a)
    modifies c
    ensures c.View() == Apply(old(c.View()), a)
  {
    match a
    case Sender(r, step) =>
      if step == Drop {
        c.Refuse(r);
      } else if step == Undo || step == Push {
        c.StepAbandoning(r, step);
      } else {
        c.StepSender(r, step);
      }
    case Writer(move) => c.StepWriter(move);
    case Closer(phase) => c.StepCloser(phase);
    case InputDies => c.CloseDead();
  }

  /** A new connection on which the goroutines take turns as `run` says. Its counter is
      exact, its queue is empty once the writer has exited, and when everyone has
      returned each reply has been finished exactly once. */
  method Perform(run: seq<Action>) returns (c: Conn)
    requires Legal(Init(), run)
    ensures c.View() == Exec(Init(), run)
    ensures c.pendingWrites == |AllAt(c.senders, SecondCheck)| + |AllAt(c.senders, AtSelect)|
                               + |AllAt(c.senders, AtUndo)| + |c.responses| + Holding(c.writer)
    ensures c.writer == Exited ==> c.responses == []
    ensures Quiescent(c.View()) ==>
              forall r :: c.finishes[Finish(r, Written)] + c.finishes[Finish(r, Refused)] == One(r in c.senders)
  {
    c := new Conn();
    for n := 0 to |run|
      invariant fresh(c) && Legal(c.View(), run[n..]) && Exec(c.View(), run[n..]) == Exec(Init(), run)
    {
      assert run[n..][0] == run[n] && run[n..][1..] == run[n + 1..];
      Step(c, run[n]);
    }
    ReachableInv(run);
    PendingWritesExact(run);
    if Quiescent(c.View()) {
      forall r ensures c.finishes[Finish(r, Written)] + c.finishes[Finish(r, Refused)] == One(r in c.senders) {
        QuiescentFinishes(c.View(), r);
      }
    }
  }
}
