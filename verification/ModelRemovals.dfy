/**
 Reporting the removal of a model to the connections serving it. The connections
 of one model share one generation: a reference count and a channel that is closed
 when the model is removed.
 */
module ModelRemovals {
  type Uuid = string

  /** A generation as a value: its count and whether its channel is closed. */
  datatype Gen = Gen(conns: int, closed: bool)

  /** The registry as a value: the current generation of each model served, and
      every generation ever made. */
  datatype Registry = Registry(served: map<Uuid, nat>, gens: seq<Gen>)

  /** Every model served has an open generation of its own. */
  predicate WellFormed(reg: Registry) {
    && (forall u :: u in reg.served ==> reg.served[u] < |reg.gens| && !reg.gens[reg.served[u]].closed)
    && (forall u, v :: u in reg.served && v in reg.served && reg.served[u] == reg.served[v] ==> u == v)
  }

  /** A model not served yet gets a fresh generation. */
  function Opened(reg: Registry, u: Uuid): Registry {
    if u in reg.served then reg else Registry(reg.served[u := |reg.gens|], reg.gens + [Gen(0, false)])
  }

  function Tracked(reg: Registry, u: Uuid): Registry
    requires WellFormed(reg)
  {
    var open := Opened(reg, u);
    var g := open.served[u];
    open.(gens := open.gens[g := open.gens[g].(conns := open.gens[g].conns + 1)])
  }

  /** The generation a connection gets when it tracks `u`. */
  function GenFor(reg: Registry, u: Uuid): nat {
    if u in reg.served then reg.served[u] else |reg.gens|
  }

  function Untracked(reg: Registry, u: Uuid, g: nat): Registry
    requires WellFormed(reg)
  {
    if u !in reg.served || reg.served[u] != g then reg
    else
      var conns := reg.gens[g].conns - 1;
      Registry(if conns == 0 then reg.served - {u} else reg.served, reg.gens[g := reg.gens[g].(conns := conns)])
  }

  function Notified(reg: Registry, u: Uuid): Registry
    requires WellFormed(reg)
  {
    if u !in reg.served then reg
    else
      var g := reg.served[u];
      Registry(reg.served - {u}, reg.gens[g := reg.gens[g].(closed := true)])
  }

  lemma NotifiedWellFormed(reg: Registry, u: Uuid)
    requires WellFormed(reg)
    ensures WellFormed(Notified(reg, u))
  {
  }

  lemma UntrackedWellFormed(reg: Registry, u: Uuid, g: nat)
    requires WellFormed(reg)
    ensures WellFormed(Untracked(reg, u, g))
  {
  }

  // ---------------------------------------------------------------------
  // The mutable registry

  class ServedModel {
    var removed: bool
    var conns: int
    ghost const serial: nat

    constructor (ghost serial: nat)
      ensures !removed && conns == 0 && this.serial == serial
    {
      removed, conns := false, 0;
      this.serial := serial;
    }

    /** Closing a closed channel would panic. */
    method Close()
      requires !removed
      modifies this`removed
      ensures removed
    {
      removed := true;
    }
  }

  class Removals {
    var served: map<Uuid, ServedModel>
    ghost var gens: seq<ServedModel>   // every generation ever made
    ghost var view: Registry           // the registry as a value

    ghost predicate Valid()
      reads this, gens
    {
      && WellFormed(view)
      && |view.gens| == |gens|
      && (forall i :: 0 <= i < |gens| ==>
            gens[i].serial == i && view.gens[i].conns == gens[i].conns && view.gens[i].closed == gens[i].removed)
      && view.served.Keys == served.Keys
      && (forall u :: u in served ==> served[u] in gens && view.served[u] == served[u].serial)
    }

    constructor ()
      ensures Valid() && gens == [] && view == Registry(map[], [])
    {
      served, gens, view := map[], [], Registry(map[], []);
    }

    method Open(u: Uuid)
      requires Valid()
      modifies this
      ensures Valid() && u in served && view == Opened(old(view), u)
      ensures old(gens) <= gens && forall i :: |old(gens)| <= i < |gens| ==> fresh(gens[i])
    {
      if u !in served {
        var m := new ServedModel(|gens|);
        served := served[u := m];
        gens := gens + [m];
        view := Opened(view, u);
      }
    }

    method Track(u: Uuid) returns (m: ServedModel)
      requires Valid()
      modifies this, gens
      ensures Valid() && view == Tracked(old(view), u)
      ensures m in gens && m.serial == GenFor(old(view), u)
      ensures old(gens) <= gens && forall i :: |old(gens)| <= i < |gens| ==> fresh(gens[i])
    {
      Open(u);
      m := served[u];
      m.conns := m.conns + 1;
      view := Tracked(old(view), u);
    }

    method Untrack(u: Uuid, m: ServedModel)
      requires Valid() && m in gens
      modifies this, gens
      ensures Valid() && view == Untracked(old(view), u, m.serial) && gens == old(gens)
    {
      if u !in served || served[u] != m {
        return;
      }
      assert m == gens[m.serial];
      m.conns := m.conns - 1;
      UntrackedWellFormed(view, u, m.serial);
      view := Untracked(view, u, m.serial);
      if m.conns == 0 {
        served := served - {u};
      }
    }

    method Notify(u: Uuid)
      requires Valid()
      modifies this, gens
      ensures Valid() && view == Notified(old(view), u) && gens == old(gens)
    {
      if u !in served {
        return;
      }
      var m := served[u];
      assert m == gens[m.serial];
      served := served - {u};
      m.Close();
      NotifiedWellFormed(view, u);
      view := Notified(view, u);
    }
  }
}
