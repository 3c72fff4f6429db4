/**
 Every history of track, untrack and notify: what the shared generations tell the
 connections is what a removal flag per connection would tell them.
 */
module RemovalHistory {
  import opened ModelRemovals

  datatype Op = Track(uuid: Uuid) | Untrack(handle: nat) | Notify(uuid: Uuid)

  /** What track gave a connection; `since` is the length of the history then. */
  datatype Handle = Handle(uuid: Uuid, gen: nat, live: bool, since: nat)

  datatype State = State(reg: Registry, handles: seq<Handle>)

  ghost function LiveIn(handles: seq<Handle>, g: nat): set<nat> {
    set h | 0 <= h < |handles| && handles[h].live && handles[h].gen == g
  }

  /** The channel of handle `h` is closed. */
  predicate Told(s: State, h: nat)
    requires h < |s.handles|
  {
    s.handles[h].gen < |s.reg.gens| && s.reg.gens[s.handles[h].gen].closed
  }

  /** Handle `h` is in the generation its model is served by. */
  predicate Current(s: State, h: nat)
    requires h < |s.handles|
  {
    s.handles[h].uuid in s.reg.served && s.reg.served[s.handles[h].uuid] == s.handles[h].gen
  }

  /** The generation of a model served counts its live handles. */
  ghost predicate GenOk(s: State, u: Uuid) {
    u in s.reg.served && s.reg.served[u] < |s.reg.gens| ==>
      s.reg.gens[s.reg.served[u]].conns == |LiveIn(s.handles, s.reg.served[u])| > 0
  }

  /** A handle belongs to one generation of its own model, and while it is live that
      generation is the current one or has been told of the removal. */
  ghost predicate HandleOk(s: State, h: nat) {
    h < |s.handles| ==>
      && s.handles[h].gen < |s.reg.gens|
      && (forall u :: u in s.reg.served && s.reg.served[u] == s.handles[h].gen ==> s.handles[h].uuid == u)
      && (s.handles[h].live ==> Told(s, h) || Current(s, h))
  }

  ghost predicate Inv(s: State) {
    WellFormed(s.reg) && (forall u :: GenOk(s, u)) && (forall h: nat :: HandleOk(s, h))
  }

  predicate Enabled(s: State, op: Op) {
    op.Untrack? ==> op.handle < |s.handles| && s.handles[op.handle].live
  }

  function Apply(s: State, op: Op, time: nat): State
    requires WellFormed(s.reg) && Enabled(s, op)
  {
    match op
    case Track(u) => State(Tracked(s.reg, u), s.handles + [Handle(u, GenFor(s.reg, u), true, time + 1)])
    case Untrack(h) =>
      State(Untracked(s.reg, s.handles[h].uuid, s.handles[h].gen), s.handles[h := s.handles[h].(live := false)])
    case Notify(u) => s.(reg := Notified(s.reg, u))
  }

  lemma LiveAfterTrack(handles: seq<Handle>, x: Handle, g: nat)
    ensures |LiveIn(handles + [x], g)| == |LiveIn(handles, g)| + if x.live && x.gen == g then 1 else 0
  {
    var before, after := LiveIn(handles, g), LiveIn(handles + [x], g);
    assert after == if x.live && x.gen == g then before + {|handles|} else before;
  }

  lemma LiveAfterUntrack(handles: seq<Handle>, h: nat, g: nat)
    requires h < |handles| && handles[h].live
    ensures |LiveIn(handles[h := handles[h].(live := false)], g)|
            == |LiveIn(handles, g)| - if handles[h].gen == g then 1 else 0
  {
    var before, after := LiveIn(handles, g), LiveIn(handles[h := handles[h].(live := false)], g);
    assert after == if handles[h].gen == g then before - {h} else before;
  }

  lemma TrackGen(s: State, u: Uuid, time: nat, v: Uuid)
    requires Inv(s)
    ensures GenOk(Apply(s, Track(u), time), v)
  {
    assert GenOk(s, v);
    var s' := Apply(s, Track(u), time);
    if v in s'.reg.served {
      var g := s'.reg.served[v];
      LiveAfterTrack(s.handles, s'.handles[|s.handles|], g);
      if v !in s.reg.served { FutureGenEmpty(s); }
    }
  }

  lemma FutureGenEmpty(s: State)
    requires Inv(s)
    ensures LiveIn(s.handles, |s.reg.gens|) == {}
  {
    forall h: nat | h < |s.handles| ensures s.handles[h].gen != |s.reg.gens| { assert HandleOk(s, h); }
  }

  lemma TrackHandle(s: State, u: Uuid, time: nat, h: nat)
    requires Inv(s)
    ensures HandleOk(Apply(s, Track(u), time), h)
  {
    assert HandleOk(s, h);
  }

  lemma UntrackGen(s: State, k: nat, time: nat, v: Uuid)
    requires Inv(s) && Enabled(s, Untrack(k))
    ensures GenOk(Apply(s, Untrack(k), time), v)
  {
    assert GenOk(s, v) && HandleOk(s, k);
    if v in s.reg.served { LiveAfterUntrack(s.handles, k, s.reg.served[v]); }
  }

  lemma UntrackHandle(s: State, k: nat, time: nat, h: nat)
    requires Inv(s) && Enabled(s, Untrack(k))
    ensures HandleOk(Apply(s, Untrack(k), time), h)
  {
    var u, g := s.handles[k].uuid, s.handles[k].gen;
    assert HandleOk(s, h) && HandleOk(s, k) && GenOk(s, u);
    LiveAfterUntrack(s.handles, k, g);
    if h < |s.handles| && h != k && s.handles[h].live && s.handles[h].gen == g {
      assert h in LiveIn(s.handles[k := s.handles[k].(live := false)], g);
    }
  }

  lemma NotifyPoint(s: State, u: Uuid, time: nat, v: Uuid, h: nat)
    requires Inv(s)
    ensures GenOk(Apply(s, Notify(u), time), v) && HandleOk(Apply(s, Notify(u), time), h)
  {
    assert GenOk(s, v) && HandleOk(s, h);
  }

  lemma StepPreserves(s: State, op: Op, time: nat)
    requires Inv(s) && Enabled(s, op)
    ensures Inv(Apply(s, op, time))
  {
    var s' := Apply(s, op, time);
    forall v ensures GenOk(s', v) {
      match op
      case Track(u) => TrackGen(s, u, time, v);
      case Untrack(h) => UntrackGen(s, h, time, v);
      case Notify(u) => NotifyPoint(s, u, time, v, 0);
    }
    forall h: nat ensures HandleOk(s', h) {
      match op
      case Track(u) => TrackHandle(s, u, time, h);
      case Untrack(k) => UntrackHandle(s, k, time, h);
      case Notify(u) => NotifyPoint(s, u, time, "", h);
    }
  }

  // ---------------------------------------------------------------------
  // Histories

  ghost predicate Legal(ops: seq<Op>)
    decreases |ops|, 0
  {
    ops == [] || (Legal(ops[..|ops| - 1]) && Enabled(Exec(ops[..|ops| - 1]), ops[|ops| - 1]))
  }

  /** The state after a history. */
  ghost function Exec(ops: seq<Op>): (s: State)
    requires Legal(ops)
    ensures Inv(s)
    decreases |ops|, 1
  {
    if ops == [] then State(Registry(map[], []), [])
    else
      var n := |ops| - 1;
      var s := Exec(ops[..n]);
      StepPreserves(s, ops[n], n);
      Apply(s, ops[n], n)
  }

  /** After any history each model served has an open channel and a positive count
      equal to the number of its live handles. */
  lemma CurrentGenerationsCounted(ops: seq<Op>, u: Uuid)
    requires Legal(ops) && u in Exec(ops).reg.served
    ensures var s := Exec(ops); var g := s.reg.served[u];
            g < |s.reg.gens| && !s.reg.gens[g].closed && s.reg.gens[g].conns == |LiveIn(s.handles, g)| > 0
  {
    assert GenOk(Exec(ops), u);
  }

  /** The model of handle `h` was notified after `h` was tracked. */
  ghost predicate NotifiedSince(ops: seq<Op>, h: Handle) {
    exists j :: h.since <= j < |ops| && ops[j] == Notify(h.uuid)
  }

  lemma {:induction false} SinceBounded(ops: seq<Op>, h: nat)
    requires Legal(ops) && h < |Exec(ops).handles|
    ensures Exec(ops).handles[h].since <= |ops|
    decreases |ops|
  {
    var n := |ops| - 1;
    if h < |Exec(ops[..n]).handles| { SinceBounded(ops[..n], h); }
  }

  lemma NotifiedGrows(ops: seq<Op>, x: Handle)
    requires ops != [] && x.since < |ops|
    ensures NotifiedSince(ops, x) <==> NotifiedSince(ops[..|ops| - 1], x) || ops[|ops| - 1] == Notify(x.uuid)
  {
    var front := ops[..|ops| - 1];
    assert forall j :: 0 <= j < |front| ==> front[j] == ops[j];
  }

  /** One more operation keeps the channel of a live handle in step with the history. */
  lemma ToldStep(s: State, op: Op, time: nat, h: nat)
    requires Inv(s) && Enabled(s, op) && h < |s.handles| && s.handles[h].live
    ensures var s' := Apply(s, op, time);
            && h < |s'.handles| && s'.handles[h].uuid == s.handles[h].uuid && s'.handles[h].since == s.handles[h].since
            && (Told(s', h) <==> Told(s, h) || op == Notify(s.handles[h].uuid))
  {
    assert HandleOk(s, h);
  }

  /** A live handle's channel is closed exactly when its model was notified after it
      was tracked. */
  lemma {:induction false} ClosedIffNotifiedSince(ops: seq<Op>, h: nat, s: State)
    requires Legal(ops) && s == Exec(ops) && h < |s.handles| && s.handles[h].live
    ensures Told(s, h) <==> NotifiedSince(ops, s.handles[h])
    decreases |ops|
  {
    var n := |ops| - 1;
    var front := Exec(ops[..n]);
    if h < |front.handles| {
      ClosedIffNotifiedSince(ops[..n], h, front);
      SinceBounded(ops[..n], h);
      ToldStep(front, ops[n], n, h);
      NotifiedGrows(ops, front.handles[h]);
    }
  }

  /** A channel is never closed twice, and untracking a handle whose model has been
      reported removed leaves the registry, and so every later generation, alone. */
  lemma StaleUntrackHarmless(ops: seq<Op>, h: nat, u: Uuid)
    requires Legal(ops) && Enabled(Exec(ops), Untrack(h))
    ensures var s := Exec(ops);
            && (u in s.reg.served ==> s.reg.served[u] < |s.reg.gens| && !s.reg.gens[s.reg.served[u]].closed)
            && (Told(s, h) ==> Apply(s, Untrack(h), |ops|).reg == s.reg)
  {
    assert HandleOk(Exec(ops), h);
  }

  // ---------------------------------------------------------------------
  // Histories of the mutable registry

  /** What a connection holds: its model and the object track found for it. */
  datatype Held = Held(uuid: Uuid, model: ServedModel)

  ghost predicate HeldFor(registry: Removals, x: Held, h: Handle)
    reads registry
  {
    x.uuid == h.uuid && x.model in registry.gens && x.model.serial == h.gen
  }

  /** The objects held by the connections stand for the handles of `s`. */
  ghost predicate StandFor(registry: Removals, held: seq<Held>, s: State)
    reads registry, registry.gens
  {
    && registry.Valid() && registry.view == s.reg && |held| == |s.handles|
    && (forall h :: 0 <= h < |held| ==> HeldFor(registry, held[h], s.handles[h]))
  }

  /** The registry's promise, read off the objects: the channel of a live handle is
      closed exactly when its model was notified since, and a model served has an open
      channel and counts its live handles. */
  ghost predicate KeepsPromise(ops: seq<Op>, s: State, registry: Removals, held: seq<Held>)
    requires |held| == |s.handles|
    reads registry, registry.gens, set x | x in held :: x.model
  {
    && (forall h :: 0 <= h < |held| && s.handles[h].live ==>
          (held[h].model.removed <==> NotifiedSince(ops, s.handles[h])))
    && (forall u :: u in registry.served ==>
          && registry.served[u] in registry.gens && !registry.served[u].removed
          && registry.served[u].conns == |LiveIn(s.handles, registry.served[u].serial)| > 0)
  }

  lemma PromiseKept(ops: seq<Op>, s: State, registry: Removals, held: seq<Held>)
    requires Legal(ops) && s == Exec(ops) && StandFor(registry, held, s)
    ensures KeepsPromise(ops, s, registry, held)
  {
    forall h | 0 <= h < |held| && s.handles[h].live
      ensures held[h].model.removed <==> NotifiedSince(ops, s.handles[h])
    {
      ClosedIffNotifiedSince(ops, h, s);
      assert HeldFor(registry, held[h], s.handles[h]);
      assert held[h].model == registry.gens[held[h].model.serial];
    }
    forall u | u in registry.served
      ensures registry.served[u] in registry.gens && !registry.served[u].removed
      ensures registry.served[u].conns == |LiveIn(s.handles, registry.served[u].serial)| > 0
    {
      assert registry.served[u] == registry.gens[registry.served[u].serial];
      CurrentGenerationsCounted(ops, u);
    }
  }

  /** One operation on the objects. */
  method Perform(op: Op, registry: Removals, held0: seq<Held>, ghost s: State, ghost time: nat)
    returns (held: seq<Held>)
    requires StandFor(registry, held0, s) && Enabled(s, op)
    modifies registry, registry.gens
    ensures WellFormed(s.reg) && StandFor(registry, held, Apply(s, op, time))
    ensures old(registry.gens) <= registry.gens
    ensures forall i :: |old(registry.gens)| <= i < |registry.gens| ==> fresh(registry.gens[i])
  {
    held := held0;
    match op
    case Track(u) =>
      var m := registry.Track(u);
      held := held + [Held(u, m)];
    case Untrack(h) =>
      assert HeldFor(registry, held[h], s.handles[h]);
      registry.Untrack(held[h].uuid, held[h].model);
    case Notify(u) =>
      registry.Notify(u);
  }

  /** Any history on a new registry. */
  method PerformAll(ops: seq<Op>) returns (registry: Removals, held: seq<Held>)
    requires Legal(ops)
    ensures StandFor(registry, held, Exec(ops)) && KeepsPromise(ops, Exec(ops), registry, held)
    ensures fresh(registry) && forall i :: 0 <= i < |registry.gens| ==> fresh(registry.gens[i])
    decreases |ops|
  {
    if ops == [] {
      registry := new Removals();
      held := [];
    } else {
      var n := |ops| - 1;
      registry, held := PerformAll(ops[..n]);
      held := Perform(ops[n], registry, held, Exec(ops[..n]), n);
    }
    PromiseKept(ops, Exec(ops), registry, held);
  }
}
