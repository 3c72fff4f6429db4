/**
 The cross-model relation watcher: each new snapshot of a relation is turned into
 the changes since the snapshot kept, and the snapshot is kept only if there are
 any. Receivers see the changes alone and must still be able to tell what holds.
 */
module RelationDeltas {
  type Key = string
  type Version = int
  type Unit = string

  /** A snapshot of a relation, or the changes between two of them. */
  datatype Snapshot = Snapshot(units: map<Key, Version>, app: map<Key, Version>, departed: set<Unit>)

  predicate IsEmpty(c: Snapshot) {
    |c.units| + |c.app| + |c.departed| == 0
  }

  /** The entries of `now` that are new or different. */
  function Difference(was: map<Key, Version>, now: map<Key, Version>): map<Key, Version> {
    map k | k in now && (k !in was || was[k] != now[k]) :: now[k]
  }

  function Changes(was: Snapshot, now: Snapshot): Snapshot {
    Snapshot(Difference(was.units, now.units), Difference(was.app, now.app), now.departed - was.departed)
  }

  class Watcher {
    var data: Snapshot

    constructor (initial: Snapshot)
      ensures data == initial
    {
      data := initial;
    }

    static method MapDifference(oldMap: map<Key, Version>, newMap: map<Key, Version>)
      returns (difference: map<Key, Version>)
      ensures difference == Difference(oldMap, newMap)
    {
      difference := map[];
      var rest := newMap.Keys;
      while rest != {}
        invariant rest <= newMap.Keys
        invariant difference
                  == map k | k in newMap && k !in rest && (k !in oldMap || oldMap[k] != newMap[k]) :: newMap[k]
        decreases |rest|
      {
        var k :| k in rest;
        if k !in oldMap || oldMap[k] != newMap[k] {
          difference := difference[k := newMap[k]];
        }
        rest := rest - {k};
      }
    }

    method DataChanges(event: Snapshot) returns (changes: Snapshot)
      ensures changes == Changes(data, event)
    {
      var appChanges := MapDifference(data.app, event.app);
      var unitChanges := MapDifference(data.units, event.units);
      changes := Snapshot(unitChanges, appChanges, event.departed - data.departed);
    }

    /** Nothing is sent, and nothing kept, unless something changed. */
    method Convert(newData: Snapshot) returns (change: Snapshot, sendEvent: bool)
      modifies this
      ensures sendEvent <==> !IsEmpty(Changes(old(data), newData))
      ensures sendEvent ==> change == Changes(old(data), newData) && data == newData
      ensures !sendEvent ==> IsEmpty(change) && data == old(data)
    {
      var changes := DataChanges(newData);
      if IsEmpty(changes) {
        return Snapshot(map[], map[], {}), false;
      }
      data := newData;
      return changes, true;
    }
  }

  // ---------------------------------------------------------------------
  // Reconstruction

  /** What a receiver has after applying the changes `c` on top of `seen`. */
  function Overlay(seen: Snapshot, c: Snapshot): Snapshot {
    Snapshot(seen.units + c.units, seen.app + c.app, seen.departed + c.departed)
  }

  /** `seen` has every entry of `truth`, with the same value, and every departed unit. */
  ghost predicate Covers(seen: Snapshot, truth: Snapshot) {
    && (forall k :: k in truth.units ==> k in seen.units && seen.units[k] == truth.units[k])
    && (forall k :: k in truth.app ==> k in seen.app && seen.app[k] == truth.app[k])
    && truth.departed <= seen.departed
  }

  /** Applying the changes against the kept snapshot reaches the new one. */
  lemma OverlayCovers(seen: Snapshot, kept: Snapshot, now: Snapshot)
    requires Covers(seen, kept)
    ensures Covers(Overlay(seen, Changes(kept, now)), now)
  {
  }

  /** Nothing is sent that the receiver of the kept snapshot does not need: whatever laid
      over it reaches the new snapshot contains the changes. */
  lemma ChangesLeast(kept: Snapshot, now: Snapshot, d: Snapshot)
    requires Covers(Overlay(kept, d), now)
    ensures Covers(d, Changes(kept, now))
  {
    var c := Changes(kept, now);
    forall k | k in c.units ensures k in d.units && d.units[k] == c.units[k] {
      assert k in now.units;
    }
    forall k | k in c.app ensures k in d.app && d.app[k] == c.app[k] {
      assert k in now.app;
    }
  }

  lemma EmptyChangesCover(kept: Snapshot, now: Snapshot)
    requires IsEmpty(Changes(kept, now))
    ensures Covers(kept, now)
  {
    var c := Changes(kept, now);
    assert c.units == map[] && c.app == map[] && c.departed == {};
    forall k | k in now.units ensures k in kept.units && kept.units[k] == now.units[k] { assert k !in c.units; }
    forall k | k in now.app ensures k in kept.app && kept.app[k] == now.app[k] { assert k !in c.app; }
    forall u | u in now.departed ensures u in kept.departed { assert u !in c.departed; }
  }

  predicate Unchanged(kept: Snapshot, now: Snapshot) { IsEmpty(Changes(kept, now)) }

  /** Keeps the latest element that is not the same as the one kept before. */
  function Keep<T>(same: (T, T) -> bool, initial: T, all: seq<T>): T {
    if all == [] then initial
    else
      var before, now := Keep(same, initial, all[..|all| - 1]), all[|all| - 1];
      if same(before, now) then before else now
  }

  /** The snapshot kept after a sequence of snapshots. */
  function Kept(initial: Snapshot, snapshots: seq<Snapshot>): Snapshot {
    Keep(Unchanged, initial, snapshots)
  }

  /** All changes sent, laid over the initial data one after the other. */
  function Seen(initial: Snapshot, snapshots: seq<Snapshot>): Snapshot {
    if snapshots == [] then initial
    else
      var front := snapshots[..|snapshots| - 1];
      var c := Changes(Kept(initial, front), snapshots[|snapshots| - 1]);
      if IsEmpty(c) then Seen(initial, front) else Overlay(Seen(initial, front), c)
  }

  /** Element `i` is the last one that differed from what was kept before it, and none
      since differs from it. */
  ghost predicate LastNew<T(!new)>(same: (T, T) -> bool, initial: T, all: seq<T>, i: nat) {
    && i < |all| && !same(Keep(same, initial, all[..i]), all[i])
    && (forall j :: i < j < |all| ==> same(all[i], all[j]))
  }

  lemma {:induction false} KeepsLastNew<T(!new)>(same: (T, T) -> bool, initial: T, all: seq<T>) returns (i: nat)
    ensures i <= |all|
    ensures i == |all| ==> Keep(same, initial, all) == initial && forall j :: 0 <= j < |all| ==> same(initial, all[j])
    ensures i < |all| ==> Keep(same, initial, all) == all[i] && LastNew(same, initial, all, i)
    decreases |all|
  {
    if all == [] {
      i := 0;
    } else {
      var n := |all| - 1;
      var front := all[..n];
      i := KeepsLastNew(same, initial, front);
      if !same(Keep(same, initial, front), all[n]) {
        i := n;
      } else if i == n {
        i := n + 1;
      } else {
        StillLastNew(same, initial, all, i);
      }
    }
  }

  lemma StillLastNew<T(!new)>(same: (T, T) -> bool, initial: T, all: seq<T>, i: nat)
    requires all != [] && LastNew(same, initial, all[..|all| - 1], i) && same(all[i], all[|all| - 1])
    ensures LastNew(same, initial, all, i)
  {
    assert all[..|all| - 1][..i] == all[..i];
  }

  /** The kept snapshot is the last one that was sent, or the initial data if none was,
      and the snapshots since had nothing new against it. */
  lemma KeptIsLastSent(initial: Snapshot, snapshots: seq<Snapshot>) returns (i: nat)
    ensures i <= |snapshots|
    ensures i == |snapshots| ==>
              && Kept(initial, snapshots) == initial
              && forall j :: 0 <= j < |snapshots| ==> Unchanged(initial, snapshots[j])
    ensures i < |snapshots| ==> Kept(initial, snapshots) == snapshots[i] && LastNew(Unchanged, initial, snapshots, i)
  {
    i := KeepsLastNew(Unchanged, initial, snapshots);
  }

  lemma {:induction false} SeenCoversKept(initial: Snapshot, snapshots: seq<Snapshot>)
    ensures Covers(Seen(initial, snapshots), Kept(initial, snapshots))
    decreases |snapshots|
  {
    if snapshots != [] {
      var front, now := snapshots[..|snapshots| - 1], snapshots[|snapshots| - 1];
      SeenCoversKept(initial, front);
      OverlayCovers(Seen(initial, front), Kept(initial, front), now);
    }
  }

  /** For any sequence of snapshots, a receiver that lays all changes over the initial
      data agrees with the latest snapshot on every key it contains and knows all its
      departed units, although empty changes leave the kept snapshot behind. */
  lemma ReceiverCoversLatest(initial: Snapshot, snapshots: seq<Snapshot>)
    requires snapshots != []
    ensures Covers(Seen(initial, snapshots), snapshots[|snapshots| - 1])
  {
    var front, now := snapshots[..|snapshots| - 1], snapshots[|snapshots| - 1];
    SeenCoversKept(initial, snapshots);
    if IsEmpty(Changes(Kept(initial, front), now)) { EmptyChangesCover(Kept(initial, front), now); }
  }

  /** Nothing is invented: whatever a receiver has for a unit came from the initial
      data or from some snapshot. */
  lemma {:induction false} SeenFromSnapshots(initial: Snapshot, snapshots: seq<Snapshot>, k: Key)
    ensures var seen := Seen(initial, snapshots);
            k in seen.units ==>
              || (k in initial.units && initial.units[k] == seen.units[k])
              || (exists i :: 0 <= i < |snapshots| && k in snapshots[i].units && snapshots[i].units[k] == seen.units[k])
    decreases |snapshots|
  {
    if snapshots != [] {
      var n := |snapshots| - 1;
      SeenFromSnapshots(initial, snapshots[..n], k);
      var seen := Seen(initial, snapshots);
      if k in seen.units && !(k in snapshots[n].units && snapshots[n].units[k] == seen.units[k]) {
        assert seen.units[k] == Seen(initial, snapshots[..n]).units[k];
        assert forall i :: 0 <= i < n ==> snapshots[..n][i] == snapshots[i];
      }
    }
  }

  /** A watcher fed with snapshots sends exactly the changes the receiver lays over. */
  method Watch(initial: Snapshot, snapshots: seq<Snapshot>) returns (seen: Snapshot)
    ensures seen == Seen(initial, snapshots)
    ensures snapshots != [] ==> Covers(seen, snapshots[|snapshots| - 1])
  {
    var watcher := new Watcher(initial);
    seen := initial;
    for i := 0 to |snapshots|
      invariant fresh(watcher)
      invariant watcher.data == Kept(initial, snapshots[..i]) && seen == Seen(initial, snapshots[..i])
    {
      assert snapshots[..i + 1][..i] == snapshots[..i];
      var change, sendEvent := watcher.Convert(snapshots[i]);
      if sendEvent {
        seen := Overlay(seen, change);
      }
    }
    assert snapshots[..|snapshots|] == snapshots;
    if snapshots != [] { ReceiverCoversLatest(initial, snapshots); }
  }
}
