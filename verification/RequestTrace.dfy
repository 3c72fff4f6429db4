/**
 What becomes of a request is decided by what happened to it: whether its method was
 found, whether the recorder took it, whether its body could be read, and whether Close
 had begun when it was about to be started.
 */
module RequestTrace {
  import W = ReplyWriter
  import opened Common
  import opened Requests

  /** What a run tells about one request. */
  datatype Story = Story(
    bound: bool, recorded: bool, body: Body, judged: bool,   // handleRequest up to the check of `closing`
    closing: Option<bool>,                                   // what that check saw
    outcome: Option<CallOutcome>)                            // how its method ended

  function Untold(): Story { Story(false, false, Eof, false, None, None) }

  /** What action `a`, taken in state `s`, adds to the story of request `t`. */
  function Told(h: Story, s: State, a: Action, t: Ticket): Story {
    match a
    case JudgeRequest(bound, recorded, body) =>
      if s.input == Handling(t) then h.(bound := bound, recorded := recorded, body := body, judged := true) else h
    case CheckClosing =>
      if s.input == AtClosingCheck(t) then h.(closing := Some(s.wire.closer != W.Open)) else h
    case CallEnds(x, outcome) => if x == t then h.(outcome := Some(outcome)) else h
    case _ => h
  }

  function StoryOf(h: Story, s: State, run: seq<Action>, t: Ticket): Story
    requires Legal(s, run)
    decreases |run|
  {
    if run == [] then h else StoryOf(Told(h, s, run[0], t), Apply(s, run[0]), run[1..], t)
  }

  /** Method found, request recorded, body read. */
  predicate Good(h: Story) { h.bound && h.recorded && h.body == Complete }

  /** The connection is given up: it has ended, the recorder refused a request that cannot
      be answered, or the body of one for an unknown method could not be skipped. */
  predicate Fatal(h: Story) {
    h.body == Eof || (!h.recorded && !(h.bound && h.body == Complete)) || (!h.bound && h.body == Malformed)
  }

  /** An error reply has been sent or is the next thing to be sent. */
  predicate ErrorReply(s: State, t: Ticket) {
    s.input == AtErrorReply(t) || exists r :: r in s.replies && ErrorTo(s.replies[r], t)
  }

  predicate ErrorTo(info: ReplyInfo, t: Ticket) { info.ticket == t && info.isError && info.byInput }

  /** The handler of `t` stands where the end of its method has brought it. */
  predicate Handled(s: State, t: Ticket, outcome: Option<CallOutcome>) {
    t in s.handlers &&
    match s.handlers[t]
    case Calling => outcome == None
    case Returned(o) => outcome == Some(o)
    case InSend(_, o) => outcome == Some(o)
    case Gone(_, o) => outcome == Some(o)
  }

  /** Where a request read stands, given its story. */
  predicate Befits(s: State, t: Ticket, h: Story) {
    if !h.judged then s.input == Handling(t)
    else if Fatal(h) then TornDown(s.input, t)
    else if !Good(h) || h.closing == Some(true) then ErrorReply(s, t)
    else if h.closing == None then s.input == AtClosingCheck(t)
    else s.input == AtSpawn(t) || Handled(s, t, h.outcome)
  }

  /** Handlers are for good requests that were not caught by the check of `closing`. */
  predicate Deserves(s: State, t: Ticket, h: Story) {
    && (t in s.handlers || s.input == AtSpawn(t) ==> h.judged && Good(h) && h.closing == Some(false))
    && (s.input == Handling(t) ==> !h.judged)
    && (s.input == AtClosingCheck(t) ==> h.judged && Good(h) && h.closing == None)
    && (h.outcome.Some? ==> t in s.handlers) && (h.closing.Some? ==> h.judged)
  }

  predicate Fits(s: State, t: Ticket, h: Story) {
    if t < |s.requests| then Befits(s, t, h) && Deserves(s, t, h)
    else h == Untold() && t !in s.handlers && !InHand(s.input, t)
  }

  // ---------------------------------------------------------------------
  // Preservation

  lemma InputFits(s: State, a: Action, t: Ticket, h: Story)
    requires Fits(s, t, h) && Enabled(s, a) && InputAgrees(s)
    requires a.ReadRequest? || a.ReadFails? || a.JudgeRequest? || a.CheckClosing? || a.Spawn? || a.LeaveSend?
             || a.CloseDead?
    ensures Fits(Apply(s, a), t, Told(h, s, a, t))
  {
  }

  lemma SendErrorFits(s: State, r: W.Reply, t: Ticket, h: Story)
    requires Fits(s, t, h) && Enabled(s, SendError(r)) && RepliesMatch(s)
    ensures Fits(Apply(s, SendError(r)), t, h)
  {
    var s' := Apply(s, SendError(r));
    assert ErrorTo(s'.replies[r], s.input.ticket);
    KeepsErrors(s, s', r, t);
  }

  /** A new reply leaves the others alone. */
  lemma KeepsErrors(s: State, s': State, r: W.Reply, t: Ticket)
    requires r !in s.replies && r in s'.replies && s'.replies == s.replies[r := s'.replies[r]]
    requires s.input == s'.input || (s.input.AtErrorReply? && ErrorTo(s'.replies[r], s.input.ticket))
    ensures ErrorReply(s, t) ==> ErrorReply(s', t)
  {
    if x :| x in s.replies && ErrorTo(s.replies[x], t) {
      assert x in s'.replies && ErrorTo(s'.replies[x], t);
    } else if s.input == AtErrorReply(t) && s'.input != s.input {
      assert ErrorTo(s'.replies[r], t);
    }
  }

  lemma SendReplyFits(s: State, x: Ticket, r: W.Reply, t: Ticket, h: Story)
    requires Fits(s, t, h) && Enabled(s, SendReply(x, r)) && RepliesMatch(s)
    ensures Fits(Apply(s, SendReply(x, r)), t, h)
  {
    KeepsErrors(s, Apply(s, SendReply(x, r)), r, t);
  }

  lemma HandlerFits(s: State, a: Action, t: Ticket, h: Story)
    requires Fits(s, t, h) && Enabled(s, a) && InputAgrees(s) && (a.CallEnds? || a.HandlerDone? || a.Wire?)
    ensures Fits(Apply(s, a), t, Told(h, s, a, t))
  {
  }

  lemma FitsStep(s: State, a: Action, t: Ticket, h: Story)
    requires Inv(s) && Fits(s, t, h) && Enabled(s, a)
    ensures Fits(Apply(s, a), t, Told(h, s, a, t))
  {
    match a
    case SendError(r) => SendErrorFits(s, r, t, h);
    case SendReply(x, r) => SendReplyFits(s, x, r, t, h);
    case CallEnds(_, _) => HandlerFits(s, a, t, h);
    case HandlerDone(_) => HandlerFits(s, a, t, h);
    case Wire(_) => HandlerFits(s, a, t, h);
    case _ => InputFits(s, a, t, h);
  }

  lemma {:induction false} FitsAlong(s: State, run: seq<Action>, t: Ticket, h: Story)
    requires Inv(s) && Legal(s, run) && Fits(s, t, h)
    ensures Fits(Exec(s, run), t, StoryOf(h, s, run, t))
    decreases |run|
  {
    if run == [] {
    } else {
      FitsStep(s, run[0], t, h);
      StepPreserves(s, run[0]);
      FitsAlong(Apply(s, run[0]), run[1..], t, Told(h, s, run[0], t));
    }
  }

  // ---------------------------------------------------------------------
  // The decision

  /** Every request read, in every run: it is still being judged, or the connection was
      given up over it, or it gets an error reply, or it gets a handler, as its method,
      the recorder, its body and the check of `closing` demand; and nothing else gets a
      handler. The handler's outcome is that of the method. */
  lemma FateAsDeserved(run: seq<Action>, t: Ticket)
    requires Legal(Init(), run)
    ensures var s, h := Exec(Init(), run), StoryOf(Untold(), Init(), run, t);
            && (t < |s.requests| ==> Befits(s, t, h))
            && (t in s.handlers ==> t < |s.requests| && h.judged && Good(h) && h.closing == Some(false))
  {
    ReachableInv([]);
    FitsAlong(Init(), run, t, Untold());
  }

  /** One step of handleRequest: on to the check of `closing`, teardown, or error. */
  lemma Decides(s: State, bound: bool, recorded: bool, body: Body)
    requires s.input.Handling?
    ensures var input, t := Apply(s, JudgeRequest(bound, recorded, body)).input, s.input.ticket;
            && (input == AtClosingCheck(t) <==> bound && recorded && body == Complete)
            && (TornDown(input, t) <==>
                  body == Eof || (!recorded && !(bound && body == Complete)) || (!bound && body == Malformed))
            && (input == AtErrorReply(t) || input == AtClosingCheck(t) || TornDown(input, t))
  {
  }

  /** The input loop ends on its own only when a header cannot be read. */
  lemma {:induction false} EndsOnFailedRead(s: State, run: seq<Action>)
    requires Legal(s, run) && !((s.input.Dying? || s.input.Finished?) && s.input.cause == None)
    requires var end := Exec(s, run).input; (end.Dying? || end.Finished?) && end.cause == None
    ensures ReadFails in run
    decreases |run|
  {
    if run[0] != ReadFails { EndsOnFailedRead(Apply(s, run[0]), run[1..]); }
  }
}
