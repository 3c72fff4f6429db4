/**
 The client side as mutable objects: the tables of ClientTable and where every
 goroutine stands. Each step calls the critical sections that the goroutine runs, and
 is proved to be the step of ClientCalls with that name.
 */
module ClientConn {
  import opened ClientCalls
  import opened ClientGuarantees
  import opened ClientReuse
  import opened ClientTable
  import opened Common

  class Client {
    const table: Table
    var closing: bool
    var callers: map<Call, CallPc>
    var input: InputPc
    ghost var state: State     // the same as a value, with its histories

    ghost predicate Valid()
      reads this, table
    {
      table.View() == state.shared && closing == state.closing && callers == state.callers && input == state.input
    }

    constructor ()
      ensures Valid() && state == Init() && fresh(table)
    {
      table := new Table();
      closing, callers, input, state := false, map[], NotStarted, Init();
    }

    /** A goroutine in send, up to the end of its write. */
    method StepSend(a: Action)
      requires Valid() && Enabled(state, a)
      requires a.Begin? || a.RefuseDone? || a.WriteEnds? || a.TakeBack? || a.CompleteFailed?
      modifies this, table
      ensures Valid() && state == Apply(old(state), a)
    {
      var c := a.call;
      state := Apply(state, a);
      match a
      case Begin(_) =>
        var id := table.Register(c, !input.NotStarted?, closing);
        callers := callers[c := if id.None? then Refusing else Writing(id.value)];
      case RefuseDone(_) =>
        table.Push(c, ByRefusal);
        callers := callers[c := RefusedReturn];
      case WriteEnds(_, ok) =>
        callers := callers[c := if ok then AfterSend(callers[c].id) else WriteFailed(callers[c].id)];
      case TakeBack(_) =>
        var id := callers[c].id;
        var call := table.Take(id);
        callers := callers[c := if call.Some? then Completing(id, call.value) else AfterSend(id)];
      case CompleteFailed(_) =>
        var id := callers[c].id;
        table.Push(callers[c].call, ByWriteFailure(id));
        callers := callers[c := AfterSend(id)];
    }

    /** A goroutine at the select of Call. */
    method StepWait(a: Action)
      requires Valid() && Enabled(state, a) && (a.SeeContextEnd? || a.CancelCall? || a.Receive?)
      modifies this, table
      ensures Valid() && state == Apply(old(state), a)
    {
      var c := a.call;
      var id := callers[c].id;
      state := Apply(state, a);
      match a
      case SeeContextEnd(_) =>
        callers := callers[c := Cancelling(id)];
      case CancelCall(_) =>
        table.Cancel(id);
        callers := callers[c := Returned(id)];
      case Receive(_) =>
        var value := table.Receive(c);
        callers := callers[c := Returned(id)];
    }

    /** The input goroutine in handleResponse. */
    method StepResponse(a: Action)
      requires Valid() && Enabled(state, a)
      requires a.ResponseArrives? || a.BodyRead? || a.Answer? || a.CheckTombstone? || a.ForgetTombstone?
      modifies this, table
      ensures Valid() && state == Apply(old(state), a)
    {
      state := Apply(state, a);
      match a
      case ResponseArrives(id) =>
        var cancelled := id in table.tombstones;   // history only
        var call := table.Take(id);
        input := if call.Some? then Held(id, call.value) else Orphan(id, cancelled);
      case BodyRead(ok) =>
        input := if input.Held? then Answering(input.id, input.call, ok) else Checking(input.id, ok, input.cancelled);
      case Answer =>
        table.Push(input.call, ByResponse(input.id));
        input := Forgetting(input.id, input.ok, false);
      case CheckTombstone =>
        var cancelled := table.HasTombstone(input.id);
        input := Forgetting(input.id, input.ok || cancelled, input.cancelled);
      case ForgetTombstone =>
        table.Forget(input.id);
        input := if input.ok then Reading else Dying;
    }

    /** Start, Close and the end of the input loop. */
    method StepLife(a: Action)
      requires Valid() && Enabled(state, a) && (a.Start? || a.SetClosing? || a.ReadFails? || a.Die?)
      modifies this, table
      ensures Valid() && state == Apply(old(state), a)
    {
      state := Apply(state, a);
      match a
      case Start => input := Reading;
      case SetClosing => closing := true;
      case ReadFails => input := Dying;
      case Die(order) =>
        table.Shutdown(order);
        input := Dead;
    }

    method Step(a: Action)
      requires Valid() && Enabled(state, a)
      modifies this, table
      ensures Valid() && state == Apply(old(state), a)
    {
      if a.Start? || a.SetClosing? || a.ReadFails? || a.Die? {
        StepLife(a);
      } else if a.SeeContextEnd? || a.CancelCall? || a.Receive? {
        StepWait(a);
      } else if a.Begin? || a.RefuseDone? || a.WriteEnds? || a.TakeBack? || a.CompleteFailed? {
        StepSend(a);
      } else {
        StepResponse(a);
      }
    }
  }

  /** A new connection on which callers and the input goroutine take turns as `run`
      says. After the shutdown its tables strand nobody unless a busy id was reused, and
      no Done channel overflows unless the counter wraps. */
  method Perform(run: seq<Action>) returns (client: Client)
    requires Legal(Init(), run)
    ensures client.Valid() && client.state == Exec(Init(), run)
    ensures NoReuse(Init(), run) && client.table.shutdown ==>
              && client.table.pending == map[]
              && (forall c :: c in client.callers && client.callers[c].Waiting? ==> c in client.table.inbox)
    ensures Accepted(Init(), run) < ID_SPACE ==> client.table.discarded == 0
  {
    client := new Client();
    for n := 0 to |run|
      invariant fresh(client) && fresh(client.table) && client.Valid()
      invariant Legal(client.state, run[n..]) && Exec(client.state, run[n..]) == Exec(Init(), run)
    {
      assert run[n..][0] == run[n] && run[n..][1..] == run[n + 1..];
      client.Step(run[n]);
    }
    if NoReuse(Init(), run) && client.table.shutdown {
      forall c | c in client.callers && client.callers[c].Waiting? ensures c in client.table.inbox {
        NobodyStranded(run, c);
      }
      NobodyStranded(run, 0);
    }
    if Accepted(Init(), run) < ID_SPACE {
      OneValuePerCall(run, 0, ByRefusal, ByRefusal);
    }
  }
}
