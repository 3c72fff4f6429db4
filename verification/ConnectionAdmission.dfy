/**
 Why a connection tracks its model before checking that the model can be served:
 connections, the models of the controller, and the stream of removals that the
 server loop delivers to the registry, interleaved in every possible way.
 */
module ConnectionAdmission {
  import opened ModelRemovals
  import R = RemovalHistory

  type Conn = nat

  /** Where the goroutine serving a connection stands; `handle` is what track gave it. */
  datatype ConnPc =
    | Tracked(handle: nat)                     // tracked, model not checked yet
    | Admitted(handle: nat, watches: bool)     // root chosen, not started yet
    | Serving(handle: nat, watches: bool)      // at the select; a nil channel if it does not watch
    | Closing(handle: nat)                     // closing the RPC connection
    | Gone

  datatype State = State(
    connectable: set<Uuid>,         // models found connectable right now
    removed: seq<Uuid>,             // every removal of a model, in order
    delivered: nat,                 // how many of them the server loop has handled
    registry: R.State,
    conns: map<Conn, ConnPc>)

  datatype Action =
    | ModelAppears(uuid: Uuid)
    | ModelRemoved(uuid: Uuid)
    | Deliver
    | Open(conn: Conn, uuid: Uuid)
    | FindConnectable(conn: Conn)
    | FindOtherwise(conn: Conn)     // redirect, unknown model or any other error
    | Start(conn: Conn)
    | SeeRemoved(conn: Conn)
    | SeeDead(conn: Conn)           // the connection died or the server is stopping
    | Finish(conn: Conn)

  function Init(): State {
    State({}, [], 0, R.State(Registry(map[], []), []), map[])
  }

  predicate HandleInRange(s: State, c: Conn) {
    c in s.conns && s.conns[c] != Gone && s.conns[c].handle < |s.registry.handles|
  }

  function UuidOf(s: State, c: Conn): Uuid
    requires HandleInRange(s, c)
  {
    s.registry.handles[s.conns[c].handle].uuid
  }

  /** A connection admitted because its model was found connectable. */
  predicate Watching(pc: ConnPc) {
    (pc.Admitted? || pc.Serving?) && pc.watches
  }

  predicate Enabled(s: State, a: Action) {
    match a
    case ModelAppears(_) => true
    case ModelRemoved(_) => true
    case Deliver => s.delivered < |s.removed| && WellFormed(s.registry.reg)
    case Open(c, _) => c !in s.conns && WellFormed(s.registry.reg)
    case FindConnectable(c) =>
      HandleInRange(s, c) && s.conns[c].Tracked? && UuidOf(s, c) in s.connectable
    case FindOtherwise(c) => c in s.conns && s.conns[c].Tracked?
    case Start(c) => c in s.conns && s.conns[c].Admitted?
    case SeeRemoved(c) =>
      HandleInRange(s, c) && s.conns[c].Serving? && s.conns[c].watches && R.Told(s.registry, s.conns[c].handle)
    case SeeDead(c) => c in s.conns && s.conns[c].Serving?
    case Finish(c) =>
      HandleInRange(s, c) && s.conns[c].Closing? && WellFormed(s.registry.reg)
      && s.registry.handles[s.conns[c].handle].live
  }

  function Goto(s: State, c: Conn, pc: ConnPc): State { s.(conns := s.conns[c := pc]) }

  function Apply(s: State, a: Action): State
    requires Enabled(s, a)
  {
    match a
    case ModelAppears(u) => s.(connectable := s.connectable + {u})
    case ModelRemoved(u) => s.(connectable := s.connectable - {u}, removed := s.removed + [u])
    case Deliver =>
      s.(delivered := s.delivered + 1,
         registry := R.Apply(s.registry, R.Notify(s.removed[s.delivered]), 0))
    case Open(c, u) =>
      Goto(s, c, Tracked(|s.registry.handles|)).(registry := R.Apply(s.registry, R.Track(u), 0))
    case FindConnectable(c) => Goto(s, c, Admitted(s.conns[c].handle, true))
    case FindOtherwise(c) => Goto(s, c, Admitted(s.conns[c].handle, false))
    case Start(c) => Goto(s, c, Serving(s.conns[c].handle, s.conns[c].watches))
    case SeeRemoved(c) => Goto(s, c, Closing(s.conns[c].handle))
    case SeeDead(c) => Goto(s, c, Closing(s.conns[c].handle))
    case Finish(c) => Goto(s, c, Gone).(registry := R.Apply(s.registry, R.Untrack(s.conns[c].handle), 0))
  }

  predicate Legal(s: State, run: seq<Action>)
    decreases |run|
  {
    run == [] || (Enabled(s, run[0]) && Legal(Apply(s, run[0]), run[1..]))
  }

  function Exec(s: State, run: seq<Action>): State
    requires Legal(s, run)
    decreases |run|
  {
    if run == [] then s else Exec(Apply(s, run[0]), run[1..])
  }

  // ---------------------------------------------------------------------
  // The invariant

  /** Every connection not yet gone holds a live handle. */
  ghost predicate ConnOk(s: State, c: Conn) {
    c in s.conns && s.conns[c] != Gone ==>
      s.conns[c].handle < |s.registry.handles| && s.registry.handles[s.conns[c].handle].live
  }

  ghost predicate Apart(s: State, c: Conn, d: Conn) {
    c in s.conns && d in s.conns && s.conns[c] != Gone && s.conns[d] != Gone && s.conns[c].handle == s.conns[d].handle
    ==> c == d
  }

  ghost predicate Inv(s: State) {
    && R.Inv(s.registry) && s.delivered <= |s.removed|
    && (forall c :: ConnOk(s, c)) && (forall c, d :: Apart(s, c, d))
  }

  lemma RegistryStep(s: State, a: Action)
    requires Inv(s) && Enabled(s, a)
    ensures R.Inv(Apply(s, a).registry)
  {
    match a
    case Deliver => R.StepPreserves(s.registry, R.Notify(s.removed[s.delivered]), 0);
    case Open(_, u) => R.StepPreserves(s.registry, R.Track(u), 0);
    case Finish(c) => R.StepPreserves(s.registry, R.Untrack(s.conns[c].handle), 0);
    case _ =>
  }

  lemma ConnStep(s: State, a: Action, c: Conn)
    requires Inv(s) && Enabled(s, a)
    ensures ConnOk(Apply(s, a), c)
  {
    assert ConnOk(s, c);
    if a.Finish? { assert Apart(s, c, a.conn); }
  }

  lemma ApartStep(s: State, a: Action, c: Conn, d: Conn)
    requires Inv(s) && Enabled(s, a)
    ensures Apart(Apply(s, a), c, d)
  {
    assert Apart(s, c, d) && ConnOk(s, c) && ConnOk(s, d);
  }

  lemma StepPreserves(s: State, a: Action)
    requires Inv(s) && Enabled(s, a)
    ensures Inv(Apply(s, a))
  {
    RegistryStep(s, a);
    forall c ensures ConnOk(Apply(s, a), c) { ConnStep(s, a, c); }
    forall c, d ensures Apart(Apply(s, a), c, d) { ApartStep(s, a, c, d); }
  }

  lemma {:induction false} InvAlong(s: State, run: seq<Action>)
    requires Inv(s) && Legal(s, run)
    ensures Inv(Exec(s, run))
    decreases |run|
  {
    if run == [] {
    } else {
      StepPreserves(s, run[0]);
      InvAlong(Apply(s, run[0]), run[1..]);
    }
  }

  // ---------------------------------------------------------------------
  // Guarantees

  lemma InitInv()
    ensures Inv(Init())
  {
    assert R.Inv(Init().registry);
  }

  /** Removal number `n` is one of the model that `c` serves through handle `h`; once it
      has been delivered, `c` has gone, is closing, or has been told. */
  ghost predicate Reached(s: State, c: Conn, h: nat, n: nat) {
    && c in s.conns && n < |s.removed|
    && (s.conns[c] != Gone ==>
          && s.conns[c].handle == h < |s.registry.handles| && s.registry.handles[h].uuid == s.removed[n]
          && (n < s.delivered ==> R.Told(s.registry, h)))
  }

  lemma ReachedStep(s: State, a: Action, c: Conn, h: nat, n: nat)
    requires Inv(s) && Enabled(s, a) && Reached(s, c, h, n)
    ensures Reached(Apply(s, a), c, h, n)
  {
    assert ConnOk(s, c);
    if s.conns[c] != Gone {
      match a
      case Deliver => R.ToldStep(s.registry, R.Notify(s.removed[s.delivered]), 0, h);
      case Open(_, u) => R.ToldStep(s.registry, R.Track(u), 0, h);
      case Finish(d) =>
        assert Apart(s, c, d);
        R.ToldStep(s.registry, R.Untrack(s.conns[d].handle), 0, h);
      case _ =>
    }
  }

  lemma {:induction false} ReachedAlong(s: State, run: seq<Action>, c: Conn, h: nat, n: nat)
    requires Inv(s) && Legal(s, run) && Reached(s, c, h, n)
    ensures Reached(Exec(s, run), c, h, n)
    decreases |run|
  {
    if run == [] {
    } else {
      StepPreserves(s, run[0]);
      ReachedStep(s, run[0], c, h, n);
      ReachedAlong(Apply(s, run[0]), run[1..], c, h, n);
    }
  }

  /** What the steps of a run say about connection `c`. */
  predicate Accounts(s: State, past: seq<Action>, c: Conn) {
    && (FindConnectable(c) in past || FindOtherwise(c) in past || SeeRemoved(c) in past ==> c in s.conns)
    && (c in s.conns ==>
          && (s.conns[c].Tracked? ==> FindConnectable(c) !in past && FindOtherwise(c) !in past)
          && (s.conns[c].Admitted? || s.conns[c].Serving? ==>
                if s.conns[c].watches then FindConnectable(c) in past && FindOtherwise(c) !in past
                else FindOtherwise(c) in past && FindConnectable(c) !in past)
          && (s.conns[c].Serving? ==> Start(c) in past)
          && (s.conns[c].Closing? || s.conns[c] == Gone <==> SeeRemoved(c) in past || SeeDead(c) in past)
          && (s.conns[c] == Gone <==> Finish(c) in past)
          && (SeeRemoved(c) in past ==> FindConnectable(c) in past && FindOtherwise(c) !in past))
  }

  /** A connection that was opened for `u` and is still there holds a handle of `u`. */
  predicate For(s: State, past: seq<Action>, c: Conn, u: Uuid) {
    Open(c, u) in past ==> c in s.conns && (s.conns[c] == Gone || (HandleInRange(s, c) && UuidOf(s, c) == u))
  }

  lemma AccountsStep(s: State, a: Action, past: seq<Action>, c: Conn)
    requires Enabled(s, a) && Accounts(s, past, c) && (c !in s.conns ==> NotYet(past, c))
    ensures Accounts(Apply(s, a), past + [a], c) && (c !in Apply(s, a).conns ==> NotYet(past + [a], c))
  {
    assert forall x :: x in past + [a] <==> x in past || x == a;
    if Concerns(a, c) {
      OwnAccounts(s, a, past, past + [a], c);
    } else {
      assert (c in Apply(s, a).conns <==> c in s.conns) && (c in s.conns ==> Apply(s, a).conns[c] == s.conns[c]);
    }
  }

  predicate Concerns(a: Action, c: Conn) {
    !a.ModelAppears? && !a.ModelRemoved? && !a.Deliver? && a.conn == c
  }

  /** Nothing has happened to `c`. */
  predicate NotYet(past: seq<Action>, c: Conn) {
    forall a :: a in past ==> !Concerns(a, c)
  }

  lemma OwnAccounts(s: State, a: Action, past: seq<Action>, now: seq<Action>, c: Conn)
    requires Concerns(a, c) && Enabled(s, a) && Accounts(s, past, c) && (c !in s.conns ==> NotYet(past, c))
    requires forall x :: x in now <==> x in past || x == a
    ensures Accounts(Apply(s, a), now, c) && c in Apply(s, a).conns
  {
  }

  lemma ForStep(s: State, a: Action, past: seq<Action>, c: Conn, u: Uuid)
    requires Inv(s) && Enabled(s, a) && For(s, past, c, u) && (c !in s.conns ==> NotYet(past, c))
    ensures For(Apply(s, a), past + [a], c, u)
  {
    assert forall x :: x in past + [a] <==> x in past || x == a;
    HandlesStay(s, a);
  }

  lemma HandlesStay(s: State, a: Action)
    requires Enabled(s, a)
    ensures var before, after := s.registry.handles, Apply(s, a).registry.handles;
            |before| <= |after| && forall h :: 0 <= h < |before| ==> after[h].uuid == before[h].uuid
    ensures a.Open? ==> |s.registry.handles| < |Apply(s, a).registry.handles|
                        && Apply(s, a).registry.handles[|s.registry.handles|].uuid == a.uuid
  {
  }

  lemma {:induction false} AccountsAlong(s: State, run: seq<Action>, past: seq<Action>, c: Conn, u: Uuid)
    requires Inv(s) && Legal(s, run) && Accounts(s, past, c) && For(s, past, c, u)
    requires c !in s.conns ==> NotYet(past, c)
    ensures Accounts(Exec(s, run), past + run, c) && For(Exec(s, run), past + run, c, u)
    decreases |run|
  {
    if run == [] {
      assert past + run == past;
    } else {
      StepPreserves(s, run[0]);
      AccountsStep(s, run[0], past, c);
      ForStep(s, run[0], past, c, u);
      AccountsAlong(Apply(s, run[0]), run[1..], past + [run[0]], c, u);
      assert past + [run[0]] + run[1..] == past + run;
    }
  }

  /** How a connection was admitted decides what it watches and what may close it: one
      closed by a removal was found connectable, and not admitted otherwise. */
  lemma AdmissionDecides(run: seq<Action>, c: Conn)
    requires Legal(Init(), run)
    ensures Accounts(Exec(Init(), run), run, c)
  {
    InitInv();
    AccountsAlong(Init(), run, [], c, "");
    assert [] + run == run;
  }

  /** Track before check: whatever happens before and after the removal of a model, once
      that removal has been delivered every connection opened for the model and found
      connectable before is gone, is closing, or can close as soon as it is served. */
  lemma RemovalReachesConnection(before: seq<Action>, u: Uuid, after: seq<Action>, c: Conn)
    requires Legal(Init(), before) && Legal(Apply(Exec(Init(), before), ModelRemoved(u)), after)
    requires Open(c, u) in before && FindConnectable(c) in before
    requires Exec(Apply(Exec(Init(), before), ModelRemoved(u)), after).delivered > |Exec(Init(), before).removed|
    ensures var s := Exec(Apply(Exec(Init(), before), ModelRemoved(u)), after);
            && c in s.conns && (CanClose(s, c) || s.conns[c].Closing? || s.conns[c] == Gone)
  {
    InitInv();
    AccountsAlong(Init(), before, [], c, u);
    assert [] + before == before;
    InvAlong(Init(), before);
    var s := Exec(Init(), before);
    StepPreserves(s, ModelRemoved(u));
    StillServing(Apply(s, ModelRemoved(u)), after, c);
    if s.conns[c] != Gone {
      ReachedAlong(Apply(s, ModelRemoved(u)), after, c, s.conns[c].handle, |s.removed|);
    }
  }

  /** The removal of its model closes `c`, if need be as soon as it is served. */
  predicate CanClose(s: State, c: Conn) {
    c in s.conns &&
    if s.conns[c].Admitted? then
      Enabled(Apply(s, Start(c)), SeeRemoved(c)) && Apply(Apply(s, Start(c)), SeeRemoved(c)).conns[c].Closing?
    else
      Enabled(s, SeeRemoved(c)) && Apply(s, SeeRemoved(c)).conns[c].Closing?
  }

  lemma {:induction false} StillServing(s: State, run: seq<Action>, c: Conn)
    requires Legal(s, run) && c in s.conns && (Watching(s.conns[c]) || s.conns[c].Closing? || s.conns[c] == Gone)
    ensures var pc := if c in Exec(s, run).conns then Exec(s, run).conns[c] else Gone;
            c in Exec(s, run).conns && (Watching(pc) || pc.Closing? || pc == Gone)
    ensures s.conns[c] == Gone ==> Exec(s, run).conns[c] == Gone
    decreases |run|
  {
    if run == [] {
    } else {
      StillServing(Apply(s, run[0]), run[1..], c);
    }
  }

  /** A connection admitted for a redirect or an error is not closed by any removal. */
  lemma RedirectNeverClosedByRemoval(before: seq<Action>, c: Conn, after: seq<Action>)
    requires Legal(Init(), before) && Enabled(Exec(Init(), before), FindOtherwise(c))
    requires Legal(Apply(Exec(Init(), before), FindOtherwise(c)), after)
    ensures SeeRemoved(c) !in after
    ensures !Enabled(Exec(Apply(Exec(Init(), before), FindOtherwise(c)), after), SeeRemoved(c))
  {
    NeverWatches(Apply(Exec(Init(), before), FindOtherwise(c)), after, c);
  }

  lemma {:induction false} NeverWatches(s: State, run: seq<Action>, c: Conn)
    requires Legal(s, run) && c in s.conns && !Watching(s.conns[c]) && !s.conns[c].Tracked?
    ensures c in Exec(s, run).conns && !Watching(Exec(s, run).conns[c]) && !Exec(s, run).conns[c].Tracked?
    ensures SeeRemoved(c) !in run
    decreases |run|
  {
    if run == [] {
    } else {
      NeverWatches(Apply(s, run[0]), run[1..], c);
    }
  }

  /** After the removal of a model no connection of it is found connectable, until the
      model appears again. */
  lemma {:induction false} RemovedNotConnectable(s: State, run: seq<Action>, u: Uuid)
    requires Legal(s, run) && u !in s.connectable && ModelAppears(u) !in run
    ensures u !in Exec(s, run).connectable
    ensures forall c :: HandleInRange(Exec(s, run), c) && UuidOf(Exec(s, run), c) == u ==>
              !Enabled(Exec(s, run), FindConnectable(c))
    decreases |run|
  {
    if run == [] {
    } else {
      RemovedNotConnectable(Apply(s, run[0]), run[1..], u);
    }
  }

  /** A model that has appeared and was not removed since is found connectable. */
  lemma {:induction false} AppearedConnectable(s: State, run: seq<Action>, u: Uuid, c: Conn)
    requires Legal(Apply(s, ModelAppears(u)), run) && ModelRemoved(u) !in run
    ensures var t := Exec(Apply(s, ModelAppears(u)), run);
            HandleInRange(t, c) && t.conns[c].Tracked? && UuidOf(t, c) == u ==> Enabled(t, FindConnectable(c))
  {
    StaysConnectable(Apply(s, ModelAppears(u)), run, u);
  }

  lemma {:induction false} StaysConnectable(s: State, run: seq<Action>, u: Uuid)
    requires Legal(s, run) && u in s.connectable && ModelRemoved(u) !in run
    ensures u in Exec(s, run).connectable
    decreases |run|
  {
    if run == [] {
    } else {
      StaysConnectable(Apply(s, run[0]), run[1..], u);
    }
  }

  lemma RemovalDisconnects(before: seq<Action>, u: Uuid, after: seq<Action>, c: Conn)
    requires Legal(Init(), before) && Legal(Apply(Exec(Init(), before), ModelRemoved(u)), after)
    requires ModelAppears(u) !in after
    ensures var s := Exec(Apply(Exec(Init(), before), ModelRemoved(u)), after);
            HandleInRange(s, c) && UuidOf(s, c) == u ==> !Enabled(s, FindConnectable(c))
  {
    RemovedNotConnectable(Apply(Exec(Init(), before), ModelRemoved(u)), after, u);
  }

  /** Handle `h` of model `u` has been told only if a removal of `u` was delivered, not
      before delivery `from`. */
  ghost predicate ToldFor(s: State, h: nat, u: Uuid, from: nat) {
    && h < |s.registry.handles| && s.registry.handles[h].uuid == u && s.delivered <= |s.removed|
    && (s.registry.handles[h].live && R.Told(s.registry, h) ==>
          exists j :: from <= j < s.delivered && s.removed[j] == u)
  }

  lemma ToldForStep(s: State, a: Action, h: nat, u: Uuid, from: nat)
    requires Inv(s) && Enabled(s, a) && ToldFor(s, h, u, from) && from <= s.delivered
    ensures ToldFor(Apply(s, a), h, u, from)
  {
    HandlesStay(s, a);
    var t := Apply(s, a);
    if s.registry.handles[h].live {
      match a
      case Deliver =>
        R.ToldStep(s.registry, R.Notify(s.removed[s.delivered]), 0, h);
        if !R.Told(s.registry, h) && R.Told(t.registry, h) { assert t.removed[s.delivered] == u; }
      case Open(_, v) => R.ToldStep(s.registry, R.Track(v), 0, h);
      case Finish(d) => R.ToldStep(s.registry, R.Untrack(s.conns[d].handle), 0, h);
      case _ =>
    }
    if j :| from <= j < s.delivered && s.removed[j] == u { assert t.removed[j] == u; }
  }

  lemma {:induction false} ToldForAlong(s: State, run: seq<Action>, h: nat, u: Uuid, from: nat)
    requires Inv(s) && Legal(s, run) && ToldFor(s, h, u, from) && from <= s.delivered
    ensures ToldFor(Exec(s, run), h, u, from)
    decreases |run|
  {
    if run == [] {
    } else {
      ToldForStep(s, run[0], h, u, from);
      StepPreserves(s, run[0]);
      ToldForAlong(Apply(s, run[0]), run[1..], h, u, from);
    }
  }

  /** A connection is closed for a removal only if a removal of its model was delivered
      after it was opened. */
  lemma ClosedOnlyByRemoval(before: seq<Action>, c: Conn, u: Uuid, after: seq<Action>)
    requires Legal(Init(), before) && Enabled(Exec(Init(), before), Open(c, u))
    requires Legal(Apply(Exec(Init(), before), Open(c, u)), after)
    requires Enabled(Exec(Apply(Exec(Init(), before), Open(c, u)), after), SeeRemoved(c))
    ensures var s := Exec(Apply(Exec(Init(), before), Open(c, u)), after);
            && s.delivered <= |s.removed|
            && exists j :: Exec(Init(), before).delivered <= j < s.delivered && s.removed[j] == u
  {
    InitInv();
    InvAlong(Init(), before);
    var s := Exec(Init(), before);
    var tracked := Apply(s, Open(c, u));
    var h := |s.registry.handles|;
    StepPreserves(s, Open(c, u));
    HandlesStay(s, Open(c, u));
    assert ConnOk(tracked, c);
    ToldForAlong(tracked, after, h, u, s.delivered);
    InvAlong(tracked, after);
    assert ConnOk(Exec(tracked, after), c);
    KeepsHandle(tracked, after, c, h);
  }

  lemma {:induction false} KeepsHandle(s: State, run: seq<Action>, c: Conn, h: nat)
    requires Legal(s, run) && c in s.conns && (s.conns[c] == Gone || s.conns[c].handle == h)
    ensures c in Exec(s, run).conns && (Exec(s, run).conns[c] == Gone || Exec(s, run).conns[c].handle == h)
    decreases |run|
  {
    if run == [] {
    } else {
      KeepsHandle(Apply(s, run[0]), run[1..], c, h);
    }
  }

  // ---------------------------------------------------------------------
  // Nothing is left behind

  /** A live handle belongs to a connection that has not gone. */
  ghost predicate Owned(s: State, h: nat) {
    h < |s.registry.handles| && s.registry.handles[h].live ==>
      exists c :: c in s.conns && s.conns[c] != Gone && s.conns[c].handle == h
  }

  lemma OwnedStep(s: State, a: Action, h: nat)
    requires Inv(s) && Enabled(s, a) && Owned(s, h)
    ensures Owned(Apply(s, a), h)
  {
    var t := Apply(s, a);
    if h < |s.registry.handles| && s.registry.handles[h].live {
      var c :| c in s.conns && s.conns[c] != Gone && s.conns[c].handle == h;
      assert Apart(s, c, c) && (a.Finish? ==> Apart(s, c, a.conn));
      assert c in t.conns && (t.conns[c] == Gone || t.conns[c].handle == h);
    } else if a.Open? && h == |s.registry.handles| {
      assert t.conns[a.conn].handle == h;
    }
  }

  lemma {:induction false} OwnedAlong(s: State, run: seq<Action>, h: nat)
    requires Inv(s) && Legal(s, run) && Owned(s, h)
    ensures Owned(Exec(s, run), h)
    decreases |run|
  {
    if run == [] {
    } else {
      OwnedStep(s, run[0], h);
      StepPreserves(s, run[0]);
      OwnedAlong(Apply(s, run[0]), run[1..], h);
    }
  }

  /** Every connection gives back what it tracked: once all have gone, no model is served
      in the registry. */
  lemma NoneLeftBehind(run: seq<Action>, u: Uuid)
    requires Legal(Init(), run)
    requires forall c :: c in Exec(Init(), run).conns ==> Exec(Init(), run).conns[c] == Gone
    ensures u !in Exec(Init(), run).registry.reg.served
  {
    InitInv();
    InvAlong(Init(), run);
    var s := Exec(Init(), run);
    if u in s.registry.reg.served {
      assert R.GenOk(s.registry, u);
      var h :| h in R.LiveIn(s.registry.handles, s.registry.reg.served[u]);
      OwnedAlong(Init(), run, h);
    }
  }
}
