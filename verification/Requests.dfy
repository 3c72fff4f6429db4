/**
 A whole server connection: the input loop reads request headers, refuses them
 or starts handler goroutines, and every reply goes through the reply protocol
 of ReplyWriter. Handlers may outlive Close: the check of `closing` and the
 registration in srvPending are separate steps.
 */
module Requests {
  import opened Common
  import W = ReplyWriter

  type RequestId = nat
  /** Position of a request among all request headers read. */
  type Ticket = nat

  /** Where the input goroutine stands; `cause` is the request that ended the loop. */
  datatype InputPc =
    | Reading
    | Handling(ticket: Ticket)       // in handleRequest, outcome not known yet
    | AtClosingCheck(ticket: Ticket) // about to load `closing`
    | AtSpawn(ticket: Ticket)        // about to add to srvPending and start the handler
    | AtErrorReply(ticket: Ticket)   // about to enter sendResponse with an error
    | Sending(reply: W.Reply)        // inside sendResponse
    | Dying(cause: Option<Ticket>)   // loop left, `dead` not closed yet
    | Finished(cause: Option<Ticket>)

  datatype CallOutcome = Value | Failure | Panic

  datatype HandlerPc =
    | Calling                        // running the bound method
    | Returned(outcome: CallOutcome) // method returned, failed, or its panic was recovered
    | InSend(reply: W.Reply, outcome: CallOutcome)  // inside sendResponse
    | Gone(reply: W.Reply, outcome: CallOutcome)    // srvPending.Done has been called

  datatype Body = Complete | Eof | Malformed

  datatype Verdict = Teardown | ReplyError | Proceed

  /** The branches of handleRequest up to the check of `closing`: was a method
      found, did the recorder accept the request, could the body be read. */
  function Judge(bound: bool, recorded: bool, body: Body): Verdict {
    if !bound then
      if !recorded || body != Complete then Teardown else ReplyError
    else if body != Complete then
      if !recorded || body == Eof then Teardown else ReplyError
    else
      if !recorded then ReplyError else Proceed
  }

  datatype ReplyInfo = ReplyInfo(ticket: Ticket, requestId: RequestId, isError: bool, byInput: bool)

  datatype State = State(
    requests: seq<RequestId>,
    input: InputPc,
    handlers: map<Ticket, HandlerPc>,
    srvPending: int,
    replies: map<W.Reply, ReplyInfo>,
    wire: W.State)

  datatype Action =
    | ReadRequest(id: RequestId)
    | ReadFails
    | JudgeRequest(bound: bool, recorded: bool, body: Body)
    | CheckClosing
    | Spawn
    | SendError(reply: W.Reply)
    | LeaveSend
    | CloseDead
    | CallEnds(ticket: Ticket, outcome: CallOutcome)
    | SendReply(ticket: Ticket, reply: W.Reply)
    | HandlerDone(ticket: Ticket)
    | Wire(action: W.Action)

  function Init(): State {
    State([], Reading, map[], 0, map[], W.Init())
  }

  /** Whether `r` has come out of sendResponse. */
  predicate SendReturned(s: State, r: W.Reply) {
    r in s.wire.senders && W.Terminal(s.wire.senders[r])
  }

  predicate Enabled(s: State, a: Action) {
    match a
    case ReadRequest(_) => s.input == Reading
    case ReadFails => s.input == Reading
    case JudgeRequest(_, _, _) => s.input.Handling?
    case CheckClosing => s.input.AtClosingCheck?
    case Spawn => s.input.AtSpawn?
    case SendError(r) => s.input.AtErrorReply? && s.input.ticket < |s.requests| && r !in s.wire.senders
    case LeaveSend => s.input.Sending? && SendReturned(s, s.input.reply)
    case CloseDead => s.input.Dying? && !s.wire.dead
    case CallEnds(t, _) => t in s.handlers && s.handlers[t] == Calling
    case SendReply(t, r) =>
      t in s.handlers && s.handlers[t].Returned? && t < |s.requests| && r !in s.wire.senders
    case HandlerDone(t) => t in s.handlers && s.handlers[t].InSend? && SendReturned(s, s.handlers[t].reply)
    case Wire(w) => !(w.Sender? && w.step == W.Arrive) && w != W.InputDies && W.Enabled(s.wire, w)
  }

  /** A goroutine enters sendResponse with a reply to request `t`. */
  function StartSend(s: State, t: Ticket, r: W.Reply, isError: bool, byInput: bool): State
    requires t < |s.requests| && r !in s.wire.senders
  {
    s.(replies := s.replies[r := ReplyInfo(t, s.requests[t], isError, byInput)],
       wire := W.Apply(s.wire, W.Sender(r, W.Arrive)))
  }

  function Apply(s: State, a: Action): State
    requires Enabled(s, a)
  {
    match a
    case ReadRequest(id) => s.(requests := s.requests + [id], input := Handling(|s.requests|))
    case ReadFails => s.(input := Dying(None))
    case JudgeRequest(bound, recorded, body) =>
      s.(input := match Judge(bound, recorded, body)
                  case Teardown => Dying(Some(s.input.ticket))
                  case ReplyError => AtErrorReply(s.input.ticket)
                  case Proceed => AtClosingCheck(s.input.ticket))
    case CheckClosing =>
      s.(input := if s.wire.closer != W.Open then AtErrorReply(s.input.ticket) else AtSpawn(s.input.ticket))
    case Spawn =>
      s.(input := Reading, srvPending := s.srvPending + 1, handlers := s.handlers[s.input.ticket := Calling])
    case SendError(r) => StartSend(s, s.input.ticket, r, true, true).(input := Sending(r))
    case LeaveSend => s.(input := Reading)
    case CloseDead => s.(input := Finished(s.input.cause), wire := W.Apply(s.wire, W.InputDies))
    case CallEnds(t, outcome) => s.(handlers := s.handlers[t := Returned(outcome)])
    case SendReply(t, r) =>
      var outcome := s.handlers[t].outcome;
      StartSend(s, t, r, outcome != Value, false).(handlers := s.handlers[t := InSend(r, outcome)])
    case HandlerDone(t) =>
      s.(handlers := s.handlers[t := Gone(s.handlers[t].reply, s.handlers[t].outcome)], srvPending := s.srvPending - 1)
    case Wire(w) => s.(wire := W.Apply(s.wire, w))
  }

  predicate Legal(s: State, run: seq<Action>)
    decreases |run|
  {
    run == [] || (Enabled(s, run[0]) && Legal(Apply(s, run[0]), run[1..]))
  }

  function Exec(s: State, run: seq<Action>): State
    requires Legal(s, run)
    decreases |run|
  {
    if run == [] then s else Exec(Apply(s, run[0]), run[1..])
  }

  // ---------------------------------------------------------------------
  // The fate of a request

  /** The input goroutine is still working on request `t`. */
  predicate InHand(input: InputPc, t: Ticket) {
    (input.Handling? || input.AtClosingCheck? || input.AtSpawn? || input.AtErrorReply?) && input.ticket == t
  }

  /** The connection was torn down over request `t`. */
  predicate TornDown(input: InputPc, t: Ticket) {
    (input.Dying? || input.Finished?) && input.cause == Some(t)
  }

  /** A handler for request `t` is running and has not replied yet. */
  predicate Running(s: State, t: Ticket) {
    t in s.handlers && (s.handlers[t].Calling? || s.handlers[t].Returned?)
  }

  ghost function RepliesTo(replies: map<W.Reply, ReplyInfo>, t: Ticket): set<W.Reply> {
    set r | r in replies && replies[r].ticket == t
  }

  ghost function Fates(s: State, t: Ticket): nat {
    One(InHand(s.input, t)) + One(TornDown(s.input, t)) + One(Running(s, t)) + |RepliesTo(s.replies, t)|
  }

  ghost predicate OneFate(s: State) {
    forall t: Ticket :: Fates(s, t) == One(t < |s.requests|)
  }

  ghost predicate RepliesMatch(s: State) {
    && s.replies.Keys == s.wire.senders.Keys
    && (forall r :: r in s.replies ==>
          s.replies[r].ticket < |s.requests| && s.replies[r].requestId == s.requests[s.replies[r].ticket])
  }

  /** A reply still inside sendResponse is there on behalf of a goroutine waiting for it. */
  ghost predicate SendersOwned(s: State) {
    forall r :: r in s.replies && !SendReturned(s, r) ==>
      var info := s.replies[r];
      if info.byInput then s.input == Sending(r)
      else info.ticket in s.handlers && s.handlers[info.ticket].InSend? && s.handlers[info.ticket].reply == r
  }

  /** What handler `t` has sent answers its request, and is an error unless the method
      returned a value. */
  ghost predicate Answered(s: State, t: Ticket) {
    t in s.handlers && (s.handlers[t].InSend? || s.handlers[t].Gone?) ==>
      && t < |s.requests| && s.handlers[t].reply in s.replies
      && s.replies[s.handlers[t].reply]
         == ReplyInfo(t, s.requests[t], s.handlers[t].outcome != Value, false)
  }

  ghost function Live(handlers: map<Ticket, HandlerPc>): set<Ticket> {
    set t | t in handlers && !handlers[t].Gone?
  }

  ghost predicate InputAgrees(s: State) {
    && (s.wire.dead <==> s.input.Finished?)
    && (s.input.Sending? ==> s.input.reply in s.wire.senders)
    && (forall t :: t in s.handlers ==> !InHand(s.input, t) && t < |s.requests|)
  }

  ghost predicate Linked(s: State) {
    RepliesMatch(s) && SendersOwned(s) && InputAgrees(s)
  }

  ghost predicate Inv(s: State) {
    W.Inv(s.wire) && OneFate(s) && Linked(s) && s.srvPending == |Live(s.handlers)| && (forall t :: Answered(s, t))
  }

  // ---------------------------------------------------------------------
  // Preservation

  lemma RepliesAfter(replies: map<W.Reply, ReplyInfo>, r: W.Reply, info: ReplyInfo, t: Ticket)
    requires r !in replies
    ensures |RepliesTo(replies[r := info], t)| == |RepliesTo(replies, t)| + One(info.ticket == t)
  {
    var before, after := RepliesTo(replies, t), RepliesTo(replies[r := info], t);
    assert after == if info.ticket == t then before + {r} else before;
  }

  lemma LiveAfter(handlers: map<Ticket, HandlerPc>, t: Ticket, pc: HandlerPc)
    ensures |Live(handlers[t := pc])|
            == |Live(handlers)| - One(t in handlers && !handlers[t].Gone?) + One(!pc.Gone?)
  {
    var before, after := Live(handlers), Live(handlers[t := pc]);
    assert after == if !pc.Gone? then before + {t} else before - {t};
  }

  lemma TicketKnown(s: State, t: Ticket)
    requires OneFate(s) && (InHand(s.input, t) || Running(s, t))
    ensures t < |s.requests|
  {
    assert Fates(s, t) == One(t < |s.requests|);
  }

  lemma FatesStep(s: State, a: Action, t: Ticket)
    requires OneFate(s) && RepliesMatch(s) && InputAgrees(s) && Enabled(s, a) && !a.Wire?
    ensures Fates(Apply(s, a), t) == One(t < |Apply(s, a).requests|)
  {
    assert Fates(s, t) == One(t < |s.requests|);
    if a.SendError? || a.SendReply? {
      RepliesAfter(s.replies, a.reply, Apply(s, a).replies[a.reply], t);
    }
  }

  lemma WireStep(s: State, w: W.Action)
    requires W.Inv(s.wire) && Linked(s) && Enabled(s, Wire(w))
    ensures var s' := s.(wire := W.Apply(s.wire, w));
            W.Inv(s'.wire) && Linked(s')
  {
    W.StepPreserves(s.wire, w);
    W.StepFrame(s.wire, w);
  }

  lemma ArriveStep(wire: W.State, r: W.Reply)
    requires W.Inv(wire) && r !in wire.senders
    ensures var wire' := W.Apply(wire, W.Sender(r, W.Arrive));
            W.Inv(wire') && wire'.senders == wire.senders[r := W.FirstCheck] && wire'.dead == wire.dead
  {
    W.StepPreserves(wire, W.Sender(r, W.Arrive));
  }

  /** Entering sendResponse keeps replies, goroutines and senders linked. */
  lemma StartLinked(s: State, s': State, t: Ticket, r: W.Reply, info: ReplyInfo)
    requires Linked(s) && r !in s.wire.senders && t < |s.requests|
    requires info.ticket == t && info.requestId == s.requests[t]
    requires s'.requests == s.requests && s'.replies == s.replies[r := info]
    requires s'.wire.senders == s.wire.senders[r := W.FirstCheck] && s'.wire.dead == s.wire.dead
    requires if info.byInput then s.input.AtErrorReply? && s'.input == Sending(r) && s'.handlers == s.handlers
             else Running(s, t) && s'.input == s.input && t in s'.handlers && s'.handlers[t].InSend?
                  && s'.handlers[t].reply == r && s'.handlers == s.handlers[t := s'.handlers[t]]
    ensures Linked(s')
  {
  }

  lemma SendErrorStep(s: State, r: W.Reply)
    requires Inv(s) && Enabled(s, SendError(r))
    ensures var s' := Apply(s, SendError(r)); W.Inv(s'.wire) && Linked(s')
  {
    var s' := Apply(s, SendError(r));
    ArriveStep(s.wire, r);
    StartLinked(s, s', s.input.ticket, r, s'.replies[r]);
  }

  lemma SendReplyStep(s: State, t: Ticket, r: W.Reply)
    requires Inv(s) && Enabled(s, SendReply(t, r))
    ensures var s' := Apply(s, SendReply(t, r)); W.Inv(s'.wire) && Linked(s') && s'.srvPending == |Live(s'.handlers)|
  {
    var s' := Apply(s, SendReply(t, r));
    ArriveStep(s.wire, r);
    StartLinked(s, s', t, r, s'.replies[r]);
    LiveAfter(s.handlers, t, s'.handlers[t]);
  }

  /** A handler's own step leaves replies and senders alone. */
  lemma HandlerLinked(s: State, s': State, t: Ticket, pc: HandlerPc)
    requires Linked(s) && t < |s.requests| && !InHand(s'.input, t)
    requires t in s.handlers && s.handlers[t].InSend? ==> SendReturned(s, s.handlers[t].reply)
    requires s' == s.(input := s'.input, srvPending := s'.srvPending, handlers := s.handlers[t := pc])
    requires s'.input == s.input || (s.input.AtSpawn? && s'.input == Reading)
    ensures Linked(s')
  {
  }

  lemma HandlerStep(s: State, a: Action)
    requires OneFate(s) && Linked(s) && s.srvPending == |Live(s.handlers)|
    requires Enabled(s, a) && (a.Spawn? || a.CallEnds? || a.HandlerDone?)
    ensures var s' := Apply(s, a);
            Linked(s') && s'.srvPending == |Live(s'.handlers)|
  {
    var s' := Apply(s, a);
    var t := if a.Spawn? then s.input.ticket else a.ticket;
    if a.Spawn? { TicketKnown(s, t); }
    HandlerLinked(s, s', t, s'.handlers[t]);
    LiveAfter(s.handlers, t, s'.handlers[t]);
  }

  lemma InputStep(s: State, a: Action)
    requires Linked(s) && OneFate(s) && Enabled(s, a)
    requires a.ReadRequest? || a.ReadFails? || a.JudgeRequest? || a.CheckClosing? || a.LeaveSend?
    ensures var s' := Apply(s, a); Linked(s')
  {
  }

  lemma StepPreserves(s: State, a: Action)
    requires Inv(s) && Enabled(s, a)
    ensures Inv(Apply(s, a))
  {
    if a.Wire? {
      forall t: Ticket ensures Fates(Apply(s, a), t) == One(t < |s.requests|) {
        assert Fates(s, t) == One(t < |s.requests|);
      }
    } else {
      forall t: Ticket ensures Fates(Apply(s, a), t) == One(t < |Apply(s, a).requests|) { FatesStep(s, a, t); }
    }
    StepLinks(s, a);
    forall t: Ticket ensures Answered(Apply(s, a), t) { AnsweredStep(s, a, t); }
  }

  lemma AnsweredStep(s: State, a: Action, t: Ticket)
    requires RepliesMatch(s) && Answered(s, t) && Enabled(s, a)
    ensures Answered(Apply(s, a), t)
  {
    if a.Wire? {
      assert Apply(s, a) == s.(wire := Apply(s, a).wire);
    }
  }

  lemma StepLinks(s: State, a: Action)
    requires Inv(s) && Enabled(s, a)
    ensures var s' := Apply(s, a); W.Inv(s'.wire) && Linked(s') && s'.srvPending == |Live(s'.handlers)|
  {
    match a
    case Wire(w) => WireStep(s, w);
    case SendError(r) => SendErrorStep(s, r);
    case SendReply(t, r) => SendReplyStep(s, t, r);
    case CloseDead => W.StepPreserves(s.wire, W.InputDies);
    case Spawn => HandlerStep(s, a);
    case CallEnds(_, _) => HandlerStep(s, a);
    case HandlerDone(_) => HandlerStep(s, a);
    case _ => InputStep(s, a);
  }

  lemma {:induction false} InvAlong(s: State, run: seq<Action>)
    requires Inv(s) && Legal(s, run)
    ensures Inv(Exec(s, run))
    decreases |run|
  {
    if run == [] {
    } else {
      StepPreserves(s, run[0]);
      InvAlong(Apply(s, run[0]), run[1..]);
    }
  }

  lemma ReachableInv(run: seq<Action>)
    requires Legal(Init(), run)
    ensures Inv(Exec(Init(), run))
  {
    W.InitInv();
    forall t: Ticket ensures Fates(Init(), t) == 0 {
      assert RepliesTo(map[], t) == {};
    }
    assert Live(map[]) == {};
    InvAlong(Init(), run);
  }

  // ---------------------------------------------------------------------
  // Guarantees over whole runs

  /** Every request header read has exactly one fate: still being handled, torn
      down, running in its handler, or answered by exactly one reply. Nothing is
      ever sent that answers no request. */
  lemma OneFatePerRequest(run: seq<Action>, t: Ticket)
    requires Legal(Init(), run)
    ensures var s := Exec(Init(), run);
            One(InHand(s.input, t)) + One(TornDown(s.input, t)) + One(Running(s, t)) + |RepliesTo(s.replies, t)|
            == One(t < |s.requests|)
  {
    ReachableInv(run);
    assert Fates(Exec(Init(), run), t) == One(t < |Exec(Init(), run).requests|);
  }

  /** A handler that has finished has made the one reply to its request, an error if
      its method failed or panicked. */
  lemma HandlerRepliesOnce(run: seq<Action>, t: Ticket)
    requires Legal(Init(), run) && t in Exec(Init(), run).handlers && Exec(Init(), run).handlers[t].Gone?
    ensures var s := Exec(Init(), run); var h := s.handlers[t];
            && t < |s.requests| && RepliesTo(s.replies, t) == {h.reply} && h.reply in s.replies
            && s.replies[h.reply].requestId == s.requests[t]
            && (s.replies[h.reply].isError <==> h.outcome == Failure || h.outcome == Panic)
  {
    ReachableInv(run);
    var s := Exec(Init(), run);
    assert Answered(s, t) && Fates(s, t) == One(t < |s.requests|);
    assert s.handlers[t].reply in RepliesTo(s.replies, t);
    var r := TheReply(s, t);
  }

  /** A reply carries the id of the request it answers, and srvPending counts the
      handlers that have not finished, so it never goes negative. */
  lemma RepliesCarryRequestId(run: seq<Action>, r: W.Reply)
    requires Legal(Init(), run) && r in Exec(Init(), run).replies
    ensures var s := Exec(Init(), run);
            && s.replies[r].ticket < |s.requests| && s.replies[r].requestId == s.requests[s.replies[r].ticket]
            && r in s.wire.senders && s.srvPending == |Live(s.handlers)|
  {
    ReachableInv(run);
  }

  /** The input loop has ended, every handler has gone and the writer has exited. */
  predicate Quiescent(s: State) {
    && s.input.Finished? && s.wire.writer == W.Exited
    && forall t :: t in s.handlers ==> s.handlers[t].Gone?
  }

  ghost predicate FinishedOnce(wire: W.State, r: W.Reply) {
    wire.finishes[W.Finish(r, W.Written)] + wire.finishes[W.Finish(r, W.Refused)] == 1
  }

  /** End to end: when a connection has come to rest, a request whose handling did
      not tear it down has one reply, with its id, finished exactly once. */
  lemma EveryRequestAnsweredOnce(run: seq<Action>, t: Ticket)
    requires Legal(Init(), run) && Quiescent(Exec(Init(), run)) && t < |Exec(Init(), run).requests|
    ensures var s := Exec(Init(), run);
            || (s.input.cause == Some(t) && RepliesTo(s.replies, t) == {})
            || (exists r :: && RepliesTo(s.replies, t) == {r} && r in s.replies
                            && s.replies[r].requestId == s.requests[t] && FinishedOnce(s.wire, r))
  {
    ReachableInv(run);
    var s := Exec(Init(), run);
    assert Fates(s, t) == 1;
    if s.input.cause != Some(t) {
      var r := TheReply(s, t);
      RestFinishes(s, r);
    }
  }

  lemma TheReply(s: State, t: Ticket) returns (r: W.Reply)
    requires |RepliesTo(s.replies, t)| == 1
    ensures RepliesTo(s.replies, t) == {r} && r in s.replies && s.replies[r].ticket == t
  {
    var all := RepliesTo(s.replies, t);
    r :| r in all;
    assert |all - {r}| == 0;
    assert all == {r};
  }

  lemma RestFinishes(s: State, r: W.Reply)
    requires Inv(s) && Quiescent(s) && r in s.replies
    ensures FinishedOnce(s.wire, r)
  {
    assert SendReturned(s, r);
    assert W.Places(s.wire, r) == 1;
  }

  function Spawns(run: seq<Action>): nat {
    if run == [] then 0 else One(run[0].Spawn?) + Spawns(run[1..])
  }

  lemma ClosingStays(s: State, a: Action)
    requires Enabled(s, a) && s.wire.closer != W.Open
    ensures Apply(s, a).wire.closer != W.Open
    ensures One(a.Spawn?) + One(Apply(s, a).input.AtSpawn?) <= One(s.input.AtSpawn?)
  {
    if a.Wire? { W.CloserNeverReopens(s.wire, a.action); }
  }

  /** Once Close has begun at most one more handler is started: the one whose request
      had already passed the check of `closing`. */
  lemma {:induction false} AtMostOneLateHandler(s: State, run: seq<Action>)
    requires Legal(s, run) && s.wire.closer != W.Open
    ensures Spawns(run) <= One(s.input.AtSpawn?)
    decreases |run|
  {
    if run == [] {
    } else {
      ClosingStays(s, run[0]);
      AtMostOneLateHandler(Apply(s, run[0]), run[1..]);
    }
  }

  /** The reply actions of a run of the connection, in order. */
  function WireRun(s: State, run: seq<Action>): seq<W.Action>
    requires Legal(s, run)
    decreases |run|
  {
    if run == [] then [] else
      (match run[0]
       case Wire(w) => [w]
       case SendError(r) => [W.Sender(r, W.Arrive)]
       case SendReply(_, r) => [W.Sender(r, W.Arrive)]
       case CloseDead => [W.InputDies]
       case _ => [])
      + WireRun(Apply(s, run[0]), run[1..])
  }

  /** Seen from the reply protocol, a connection is one of its runs, so every
      guarantee of that protocol holds of every connection. */
  lemma {:induction false} ConnectionRefinesReplyRun(s: State, run: seq<Action>)
    requires Legal(s, run)
    ensures W.Legal(s.wire, WireRun(s, run)) && W.Exec(s.wire, WireRun(s, run)) == Exec(s, run).wire
    decreases |run|
  {
    if run == [] {
    } else {
      var s', rest := Apply(s, run[0]), run[1..];
      ConnectionRefinesReplyRun(s', rest);
      var ws := WireRun(s, run);
      if s'.wire == s.wire && ws == WireRun(s', rest) {
      } else {
        assert ws[1..] == WireRun(s', rest);
      }
    }
  }
}
