/**
 Running a function under leadership: WithLeader first waits for the expiry of
 the lease in a goroutine of its own, then checks that the unit holds the lease,
 then runs the function with a context that ends when the wait ends.

 The lease manager is known by its contract only. `start` is closed when the wait
 is registered, and from then on the next expiry is delivered to the waiter; a
 holder changes only by expiry; Check succeeds only for the current holder; a
 wait may fail at any moment and can always end once its context is cancelled.
 */
module LeaseGuard {
  import opened Common

  type Unit = string

  datatype WaiterPc =
    | NotSpawned
    | Calling      // in WaitUntilExpired, not registered yet
    | Registered   // `start` is closed, the next expiry will be delivered
    | Notified     // an expiry is on its way to the waiter
    | WaitOver     // WaitUntilExpired has returned, about to call leaseCancel
    | Offering     // about to offer waitErr or to see waitCtx end
    | WaiterGone

  datatype Outcome =
    | NotStarted         // context already ended, or no lease manager
    | EndedBeforeStart   // "waiting for leadership finished before execution"
    | BareWaitError      // the wait's own error, with leaseCtx still alive
    | NotHeld            // the token check failed
    | Executed(ok: bool)

  datatype MainPc =
    | Entry
    | AtSelect
    | AtCheck
    | Running
    | Leaving(outcome: Outcome)         // about to run `defer waitCancel()`
    | LeavingFurther(outcome: Outcome)  // about to run `defer leaseCancel()`
    | Returned(outcome: Outcome)

  datatype State = State(
    holder: Option<Unit>,
    parentDone: bool,
    leaseCancelled: bool,
    waitCancelled: bool,
    started: bool,
    waiter: WaiterPc,
    main: MainPc)

  datatype Action =
    | CancelParent
    | Expire
    | Claim(unit: Unit)
    | Register
    | WaitReturns
    | WaitCancelled
    | WaitFails
    | CancelLease
    | SeeWaitEnd
    | Enter(managerOk: bool)
    | SelectLeaseEnd
    | SelectWaitErr
    | SelectStart
    | Check(ok: bool)
    | FnReturns(ok: bool)
    | DeferWaitCancel
    | DeferLeaseCancel

  function Init(holder: Option<Unit>, parentDone: bool): State {
    State(holder, parentDone, false, false, false, NotSpawned, Entry)
  }

  predicate LeaseCtxDone(s: State) { s.parentDone || s.leaseCancelled }

  predicate WaitCtxDone(s: State) { s.parentDone || s.waitCancelled }

  predicate InWait(w: WaiterPc) { w == Calling || w == Registered || w == Notified }

  /** `me` is the unit WithLeader was called for. */
  predicate Enabled(s: State, a: Action, me: Unit) {
    match a
    case CancelParent => true
    case Expire => s.holder.Some?
    case Claim(_) => s.holder.None?
    case Register => s.waiter == Calling
    case WaitReturns => s.waiter == Notified
    case WaitCancelled => InWait(s.waiter) && WaitCtxDone(s)
    case WaitFails => InWait(s.waiter)
    case CancelLease => s.waiter == WaitOver
    case SeeWaitEnd => s.waiter == Offering && WaitCtxDone(s)
    case Enter(_) => s.main == Entry
    case SelectLeaseEnd => s.main == AtSelect && LeaseCtxDone(s)
    case SelectWaitErr => s.main == AtSelect && s.waiter == Offering
    case SelectStart => s.main == AtSelect && s.started
    case Check(ok) => s.main == AtCheck && (ok ==> s.holder == Some(me))
    case FnReturns(_) => s.main == Running
    case DeferWaitCancel => s.main.Leaving?
    case DeferLeaseCancel => s.main.LeavingFurther?
  }

  function Apply(s: State, a: Action, me: Unit): State
    requires Enabled(s, a, me)
  {
    match a
    case CancelParent => s.(parentDone := true)
    case Expire => s.(holder := None, waiter := if s.waiter == Registered then Notified else s.waiter)
    case Claim(u) => s.(holder := Some(u))
    case Register => s.(waiter := Registered, started := true)
    case WaitReturns => s.(waiter := WaitOver)
    case WaitCancelled => s.(waiter := WaitOver)
    case WaitFails => s.(waiter := WaitOver)
    case CancelLease => s.(waiter := Offering, leaseCancelled := true)
    case SeeWaitEnd => s.(waiter := WaiterGone)
    case Enter(managerOk) =>
      if s.parentDone || !managerOk then s.(main := Returned(NotStarted))
      else s.(main := AtSelect, waiter := Calling)
    case SelectLeaseEnd => s.(main := Leaving(EndedBeforeStart))
    case SelectWaitErr =>
      s.(main := Leaving(if LeaseCtxDone(s) then EndedBeforeStart else BareWaitError), waiter := WaiterGone)
    case SelectStart => s.(main := AtCheck)
    case Check(ok) => s.(main := if ok then Running else Leaving(NotHeld))
    case FnReturns(ok) => s.(main := Leaving(Executed(ok)))
    case DeferWaitCancel => s.(main := LeavingFurther(s.main.outcome), waitCancelled := true)
    case DeferLeaseCancel => s.(main := Returned(s.main.outcome), leaseCancelled := true)
  }

  predicate Legal(s: State, run: seq<Action>, me: Unit)
    decreases |run|
  {
    run == [] || (Enabled(s, run[0], me) && Legal(Apply(s, run[0], me), run[1..], me))
  }

  function Exec(s: State, run: seq<Action>, me: Unit): State
    requires Legal(s, run, me)
    decreases |run|
  {
    if run == [] then s else Exec(Apply(s, run[0], me), run[1..], me)
  }

  // ---------------------------------------------------------------------
  // Guarantees

  predicate Left(main: MainPc) { main.Leaving? || main.LeavingFurther? || main.Returned? }

  function OutcomeOf(main: MainPc): Outcome
    requires Left(main)
  {
    main.outcome
  }

  predicate Inv(s: State, me: Unit) {
    && (s.main == Entry ==> s.waiter == NotSpawned)
    && (s.waiter == NotSpawned ==> s.main == Entry || s.main == Returned(NotStarted))
    && (s.started ==> s.waiter != NotSpawned && s.waiter != Calling)
    && (s.waiter == Registered || s.waiter == Notified ==> s.started)
    && (s.main == AtCheck || s.main == Running ==> s.started)
    && (s.waiter == Offering || s.waiter == WaiterGone ==> s.leaseCancelled)
    && (s.main == Running && s.waiter == Registered ==> s.holder == Some(me))
    && (Left(s.main) ==> s.main.outcome != BareWaitError)
    && (s.main.LeavingFurther? ==> s.waitCancelled)
    && (s.main.Returned? && s.waiter != NotSpawned ==> s.waitCancelled && s.leaseCancelled)
  }

  lemma StepPreserves(s: State, a: Action, me: Unit)
    requires Inv(s, me) && Enabled(s, a, me)
    ensures Inv(Apply(s, a, me), me)
  {
  }

  lemma {:induction false} InvAlong(s: State, run: seq<Action>, me: Unit)
    requires Inv(s, me) && Legal(s, run, me)
    ensures Inv(Exec(s, run, me), me)
    decreases |run|
  {
    if run == [] {
    } else {
      StepPreserves(s, run[0], me);
      InvAlong(Apply(s, run[0], me), run[1..], me);
    }
  }

  /** Who holds the lease after claims and expiries. */
  function HolderAfter(holder: Option<Unit>, run: seq<Action>): Option<Unit>
    decreases |run|
  {
    if run == [] then holder
    else HolderAfter(match run[0] case Expire => None case Claim(u) => Some(u) case _ => holder, run[1..])
  }

  lemma {:induction false} HolderKept(s: State, run: seq<Action>, me: Unit)
    requires Legal(s, run, me)
    ensures Exec(s, run, me).holder == HolderAfter(s.holder, run)
    decreases |run|
  {
    if run != [] { HolderKept(Apply(s, run[0], me), run[1..], me); }
  }

  /** While the function runs the unit holds the lease, going by the claims and expiries
      so far, or its loss is on the way to the waiter, or the function's context has
      already ended. */
  lemma LeaderWhileRunning(holder: Option<Unit>, parentDone: bool, run: seq<Action>, me: Unit)
    requires Legal(Init(holder, parentDone), run, me)
    ensures var s := Exec(Init(holder, parentDone), run, me);
            s.main == Running ==>
              || HolderAfter(holder, run) == Some(me)
              || s.waiter == Notified || s.waiter == WaitOver || LeaseCtxDone(s)
  {
    HolderKept(Init(holder, parentDone), run, me);
    InvAlong(Init(holder, parentDone), run, me);
  }

  /** The function's context ends for good once the lease is lost and the waiter has
      taken its next two steps; until then one of those steps is enabled. */
  lemma LossCancelsFunction(holder: Option<Unit>, parentDone: bool, run: seq<Action>, me: Unit)
    returns (next: Action)
    requires Legal(Init(holder, parentDone), run, me)
    requires var s := Exec(Init(holder, parentDone), run, me);
             s.main == Running && HolderAfter(holder, run) != Some(me) && !LeaseCtxDone(s)
    ensures var s := Exec(Init(holder, parentDone), run, me);
            && Enabled(s, next, me) && WaiterRank(Apply(s, next, me).waiter) < WaiterRank(s.waiter)
            && (LeaseCtxDone(Apply(s, next, me))
                || (Apply(s, next, me).waiter == WaitOver && Enabled(Apply(s, next, me), CancelLease, me)))
  {
    HolderKept(Init(holder, parentDone), run, me);
    InvAlong(Init(holder, parentDone), run, me);
    next := if Exec(Init(holder, parentDone), run, me).waiter == Notified then WaitReturns else CancelLease;
  }

  /** The branch that returns the wait's own error is never taken: the waiter ends
      the function's context before it offers that error. */
  lemma WaitErrorNeverBare(holder: Option<Unit>, parentDone: bool, run: seq<Action>, me: Unit)
    requires Legal(Init(holder, parentDone), run, me)
    ensures Left(Exec(Init(holder, parentDone), run, me).main) ==>
              OutcomeOf(Exec(Init(holder, parentDone), run, me).main) != BareWaitError
  {
    InvAlong(Init(holder, parentDone), run, me);
  }

  function WaiterRank(w: WaiterPc): nat {
    match w
    case NotSpawned => 6
    case Calling => 5
    case Registered => 4
    case Notified => 3
    case WaitOver => 2
    case Offering => 1
    case WaiterGone => 0
  }

  /** No step takes the waiter back. */
  lemma RankNeverRises(s: State, a: Action, me: Unit)
    requires Inv(s, me) && Enabled(s, a, me)
    ensures WaiterRank(Apply(s, a, me).waiter) <= WaiterRank(s.waiter)
  {
  }

  predicate WaiterStep(a: Action) {
    a.WaitReturns? || a.WaitCancelled? || a.WaitFails? || a.CancelLease? || a.SeeWaitEnd?
  }

  /** After WithLeader has returned the waiter goroutine is gone or has an enabled
      step that brings it closer to its end. */
  lemma WaiterAlwaysExits(holder: Option<Unit>, parentDone: bool, run: seq<Action>, me: Unit) returns (next: Action)
    requires Legal(Init(holder, parentDone), run, me)
    requires var s := Exec(Init(holder, parentDone), run, me);
             s.main.Returned? && s.waiter != NotSpawned && s.waiter != WaiterGone
    ensures var s := Exec(Init(holder, parentDone), run, me);
            Enabled(s, next, me) && WaiterStep(next) && WaiterRank(Apply(s, next, me).waiter) < WaiterRank(s.waiter)
  {
    InvAlong(Init(holder, parentDone), run, me);
    var s := Exec(Init(holder, parentDone), run, me);
    next := if InWait(s.waiter) then WaitCancelled else if s.waiter == WaitOver then CancelLease else SeeWaitEnd;
  }

  // ---------------------------------------------------------------------
  // Outcomes

  /** Whether WithLeader may start at all, decided on entry. */
  function Admitted(before: Option<bool>, s: State, a: Action): Option<bool> {
    if a.Enter? then Some(!s.parentDone && a.managerOk) else before
  }

  ghost function AdmittedAfter(before: Option<bool>, s: State, run: seq<Action>, me: Unit): Option<bool>
    requires Legal(s, run, me)
    decreases |run|
  {
    if run == [] then before else AdmittedAfter(Admitted(before, s, run[0]), Apply(s, run[0], me), run[1..], me)
  }

  /** Where the call stands, or with what it ended, is what happened to it. */
  predicate Explained(s: State, past: seq<Action>, admitted: Option<bool>) {
    && (s.main == Entry <==> admitted == None)
    && (Left(s.main) && s.main.outcome == NotStarted <==> admitted == Some(false))
    && (Left(s.main) && s.main.outcome == EndedBeforeStart <==> SelectLeaseEnd in past || SelectWaitErr in past)
    && (Left(s.main) && s.main.outcome == NotHeld <==> Check(false) in past)
    && (s.main == Running || (Left(s.main) && s.main.outcome.Executed?) <==> Check(true) in past)
    && (forall ok :: Left(s.main) && s.main.outcome == Executed(ok) <==> FnReturns(ok) in past)
    && (s.main == AtCheck ==> SelectStart in past)
    && (Check(true) in past || Check(false) in past ==> SelectStart in past)
  }

  /** Where the waiter stands, and which contexts have ended, is what happened. */
  predicate WaiterExplained(s: State, past: seq<Action>, admitted: Option<bool>, ended: bool) {
    WaiterMoves(s, past, admitted) && ContextsEnd(s, past, ended)
  }

  predicate WaiterMoves(s: State, past: seq<Action>, admitted: Option<bool>) {
    && (s.waiter == NotSpawned <==> admitted != Some(true))
    && (s.started <==> Register in past)
    && (s.waiter == Registered ==> Register in past)
    && (s.waiter == Notified || WaitReturns in past ==> Expire in past && Register in past)
    && (s.waiter == WaitOver || s.waiter == Offering || s.waiter == WaiterGone
        <==> WaitReturns in past || WaitCancelled in past || WaitFails in past)
    && (s.waiter == Offering || s.waiter == WaiterGone <==> CancelLease in past)
    && (s.waiter == WaiterGone <==> SelectWaitErr in past || SeeWaitEnd in past)
  }

  /** `ended` tells whether the caller's context had ended from the start. */
  predicate ContextsEnd(s: State, past: seq<Action>, ended: bool) {
    && (s.leaseCancelled <==> CancelLease in past || DeferLeaseCancel in past)
    && (s.waitCancelled <==> DeferWaitCancel in past)
    && (LeaseCtxDone(s) <==> ended || CancelParent in past || CancelLease in past || DeferLeaseCancel in past)
    && (WaitCtxDone(s) <==> ended || CancelParent in past || DeferWaitCancel in past)
    && (WaitCancelled in past || SeeWaitEnd in past ==> WaitCtxDone(s))
    && (SelectLeaseEnd in past || SelectWaitErr in past ==> LeaseCtxDone(s))
  }

  lemma WaiterStepExplained(s: State, a: Action, past: seq<Action>, admitted: Option<bool>, ended: bool, me: Unit)
    requires Enabled(s, a, me) && WaiterExplained(s, past, admitted, ended) && (s.main == Entry <==> admitted == None)
    ensures WaiterExplained(Apply(s, a, me), past + [a], Admitted(admitted, s, a), ended)
  {
    var now := past + [a];
    assert forall x :: x in now <==> x in past || x == a;
    if a.Enter? || a.SelectWaitErr? || a.Expire? {
      SharedMoves(s, a, past, now, admitted, me);
    } else if ByWaiter(a) {
      OwnMoves(s, a, past, now, admitted, me);
    } else {
      NoMoves(s, a, past, now, admitted, me);
    }
    ContextsStep(s, a, past, now, ended, me);
  }

  predicate ByWaiter(a: Action) {
    a.Register? || a.WaitReturns? || a.WaitCancelled? || a.WaitFails? || a.CancelLease? || a.SeeWaitEnd?
  }

  lemma OwnMoves(s: State, a: Action, past: seq<Action>, now: seq<Action>, admitted: Option<bool>, me: Unit)
    requires ByWaiter(a) && Enabled(s, a, me) && WaiterMoves(s, past, admitted)
    requires forall x :: x in now <==> x in past || x == a
    ensures WaiterMoves(Apply(s, a, me), now, admitted)
  {
  }

  lemma NoMoves(s: State, a: Action, past: seq<Action>, now: seq<Action>, admitted: Option<bool>, me: Unit)
    requires !a.Enter? && !a.SelectWaitErr? && !a.Expire? && !ByWaiter(a) && Enabled(s, a, me)
    requires WaiterMoves(s, past, admitted) && forall x :: x in now <==> x in past || x == a
    ensures WaiterMoves(Apply(s, a, me), now, admitted)
  {
  }

  lemma SharedMoves(s: State, a: Action, past: seq<Action>, now: seq<Action>, admitted: Option<bool>, me: Unit)
    requires (a.Enter? || a.SelectWaitErr? || a.Expire?) && Enabled(s, a, me) && WaiterMoves(s, past, admitted)
    requires (s.main == Entry <==> admitted == None) && forall x :: x in now <==> x in past || x == a
    ensures WaiterMoves(Apply(s, a, me), now, Admitted(admitted, s, a))
  {
  }

  lemma ContextsStep(s: State, a: Action, past: seq<Action>, now: seq<Action>, ended: bool, me: Unit)
    requires Enabled(s, a, me) && ContextsEnd(s, past, ended) && (s.waiter == Offering ==> CancelLease in past)
    requires forall x :: x in now <==> x in past || x == a
    ensures ContextsEnd(Apply(s, a, me), now, ended)
  {
  }

  lemma ExplainedStep(s: State, a: Action, past: seq<Action>, admitted: Option<bool>, me: Unit)
    requires Inv(s, me) && Enabled(s, a, me) && Inv(Apply(s, a, me), me) && Explained(s, past, admitted)
    ensures Explained(Apply(s, a, me), past + [a], Admitted(admitted, s, a))
  {
    assert forall x :: x in past + [a] <==> x in past || x == a;
    if ByMain(a) {
      MainExplained(s, a, past, past + [a], admitted, me);
    } else {
      assert Apply(s, a, me).main == s.main;
    }
  }

  predicate ByMain(a: Action) {
    a.Enter? || a.SelectLeaseEnd? || a.SelectWaitErr? || a.SelectStart? || a.Check? || a.FnReturns?
    || a.DeferWaitCancel? || a.DeferLeaseCancel?
  }

  lemma MainExplained(s: State, a: Action, past: seq<Action>, now: seq<Action>, admitted: Option<bool>, me: Unit)
    requires ByMain(a) && Enabled(s, a, me) && Explained(s, past, admitted)
    requires s.waiter == Offering ==> s.leaseCancelled
    requires forall x :: x in now <==> x in past || x == a
    ensures Explained(Apply(s, a, me), now, Admitted(admitted, s, a))
  {
  }

  lemma {:induction false} ExplainedAlong(s: State, run: seq<Action>, past: seq<Action>, admitted: Option<bool>,
                                          ended: bool, me: Unit)
    requires Inv(s, me) && Legal(s, run, me) && Explained(s, past, admitted)
    requires WaiterExplained(s, past, admitted, ended)
    ensures Explained(Exec(s, run, me), past + run, AdmittedAfter(admitted, s, run, me))
    ensures WaiterExplained(Exec(s, run, me), past + run, AdmittedAfter(admitted, s, run, me), ended)
    decreases |run|
  {
    if run == [] {
      assert past + run == past;
    } else {
      StepPreserves(s, run[0], me);
      ExplainedStep(s, run[0], past, admitted, me);
      WaiterStepExplained(s, run[0], past, admitted, ended, me);
      ExplainedAlong(Apply(s, run[0], me), run[1..], past + [run[0]], Admitted(admitted, s, run[0]), ended, me);
      assert past + [run[0]] + run[1..] == past + run;
    }
  }

  /** WithLeader returns what happened: nothing was started exactly when its context had
      ended or there was no manager on entry, it ended before the start exactly when the
      wait did, it reports no leadership exactly when the token check failed, and the
      function runs exactly when that check succeeded and gives the result. The waiter
      ends the function's context whenever its wait is over, and nobody else does before
      the call returns. */
  lemma OutcomeExplained(holder: Option<Unit>, parentDone: bool, run: seq<Action>, me: Unit)
    requires Legal(Init(holder, parentDone), run, me)
    ensures var s := Init(holder, parentDone);
            && Explained(Exec(s, run, me), run, AdmittedAfter(None, s, run, me))
            && WaiterExplained(Exec(s, run, me), run, AdmittedAfter(None, s, run, me), parentDone)
  {
    ExplainedAlong(Init(holder, parentDone), run, [], None, parentDone, me);
    assert [] + run == run;
  }
}
