/**
 The life watcher's mapper: a stateful filter over batches of change events that
 reports an entity exactly when its life has changed since it was last resolved.
 Go visits maps in a random order; the loops here pick an arbitrary remaining
 key, so what is proved of them holds for every order.
 */
module LifeMapper {
  type Id = string

  datatype Life = Alive | Dying | Dead

  datatype Change = Change(id: Id, deleted: bool)

  datatype Result<T> = Ok(value: T) | Err

  /** Looks up the current life of the given entities. The answer may leave ids
      out and may hold ids nobody asked for. */
  type LifeGetter = set<Id> -> Result<map<Id, Life>>

  // ---------------------------------------------------------------------
  // What one batch means

  /** The last change of each id. */
  function Events(changes: seq<Change>): map<Id, Change> {
    if changes == [] then map[]
    else
      var last := changes[|changes| - 1];
      Events(changes[..|changes| - 1])[last.id := last]
  }

  /** The ids whose last change is a deletion. */
  function Deleted(changes: seq<Change>): set<Id> {
    set id | id in Events(changes) && Events(changes)[id].deleted
  }

  /** The ids whose life has to be looked up. */
  function Asked(changes: seq<Change>): set<Id> {
    Events(changes).Keys - Deleted(changes)
  }

  /** The lives a batch resolves: deleted entities are dead unless the lookup says
      otherwise, ids missing from the answer are not resolved at all. */
  function Latest(changes: seq<Change>, current: map<Id, Life>): map<Id, Life> {
    (map id | id in Deleted(changes) :: Dead) + current
  }

  /** The remembered life of an id, where absent means dead. */
  function LifeOf(known: map<Id, Life>, id: Id): Life {
    if id in known then known[id] else Dead
  }

  predicate NoneDead(known: map<Id, Life>) {
    forall id :: id in known ==> known[id] != Dead
  }

  predicate LifeChanged(known: map<Id, Life>, latest: map<Id, Life>, id: Id) {
    id in latest && LifeOf(known, id) != latest[id]
  }

  /** The changes to report, in the order received and as often as received. */
  function Reported(changes: seq<Change>, known: map<Id, Life>, latest: map<Id, Life>): seq<Id> {
    if changes == [] then []
    else
      var last := changes[|changes| - 1].id;
      Reported(changes[..|changes| - 1], known, latest) + if LifeChanged(known, latest, last) then [last] else []
  }

  /** `after` is what is remembered once every life in `latest` has been taken over. */
  ghost predicate Remembers(after: map<Id, Life>, before: map<Id, Life>, latest: map<Id, Life>) {
    NoneDead(after) && forall id :: LifeOf(after, id) == if id in latest then latest[id] else LifeOf(before, id)
  }

  // ---------------------------------------------------------------------
  // The mapper

  class Mapper {
    var knownLife: map<Id, Life>

    predicate Valid()
      reads this
    {
      NoneDead(knownLife)
    }

    constructor ()
      ensures Valid() && knownLife == map[]
    {
      knownLife := map[];
    }

    /** Collects the last event of each id. */
    static method Collect(changes: seq<Change>) returns (events: map<Id, Change>)
      ensures events == Events(changes)
      ensures forall i :: 0 <= i < |changes| && IsLast(changes, i) ==>
                changes[i].id in events && events[changes[i].id] == changes[i]
    {
      events := map[];
      for i := 0 to |changes|
        invariant events == Events(changes[..i])
      {
        events := events[changes[i].id := changes[i]];
        assert changes[..i + 1][..i] == changes[..i];
      }
      assert changes[..|changes|] == changes;
      forall i | 0 <= i < |changes| && IsLast(changes, i)
        ensures changes[i].id in events && events[changes[i].id] == changes[i]
      {
        LastChangeCounts(changes, i);
      }
    }

    /** Records deleted entities as dead and takes them off the ids to look up. */
    static method MarkDeleted(events: map<Id, Change>) returns (latest: map<Id, Life>, ids: set<Id>)
      ensures latest == map id | id in events && events[id].deleted :: Dead
      ensures ids == set id | id in events && !events[id].deleted
    {
      latest, ids := map[], events.Keys;
      var rest := events.Keys;
      while rest != {}
        invariant rest <= events.Keys
        invariant latest == map id | id in events && id !in rest && events[id].deleted :: Dead
        invariant ids == set id | id in events && (id in rest || !events[id].deleted)
        decreases |rest|
      {
        var id :| id in rest;
        if events[id].deleted {
          latest := latest[id := Dead];
          ids := ids - {id};
        }
        rest := rest - {id};
      }
    }

    /** Adds the looked-up lives and finds the ids that were asked for in vain. */
    static method AddCurrent(latest0: map<Id, Life>, ids: set<Id>, current: map<Id, Life>)
      returns (latest: map<Id, Life>, unknown: set<Id>)
      ensures latest == latest0 + current && unknown == ids - current.Keys
    {
      latest, unknown := latest0, ids;
      var rest := current.Keys;
      while rest != {}
        invariant rest <= current.Keys
        invariant latest.Keys == latest0.Keys + (current.Keys - rest)
        invariant forall id :: id in latest ==>
                    latest[id] == if id in current && id !in rest then current[id] else latest0[id]
        invariant unknown == ids - (current.Keys - rest)
        decreases |rest|
      {
        var id :| id in rest;
        unknown := unknown - {id};
        latest := latest[id := current[id]];
        rest := rest - {id};
      }
    }

    /** Takes over every life in `latest` and drops the events that changed nothing. */
    method TakeOver(latest: map<Id, Life>, events0: map<Id, Change>) returns (events: map<Id, Change>)
      requires Valid()
      modifies this
      ensures Valid() && Remembers(knownLife, old(knownLife), latest)
      ensures forall id :: id in events
                <==> id in events0 && (id in latest ==> LifeChanged(old(knownLife), latest, id))
    {
      events := events0;
      var rest := latest.Keys;
      while rest != {}
        invariant Valid() && rest <= latest.Keys
        invariant forall id :: LifeOf(knownLife, id)
                    == if id in latest && id !in rest then latest[id] else LifeOf(old(knownLife), id)
        invariant forall id :: id in events
                    <==> id in events0 && (id in latest && id !in rest ==> LifeChanged(old(knownLife), latest, id))
        decreases |rest|
      {
        var id :| id in rest;
        assert LifeOf(knownLife, id) == LifeOf(old(knownLife), id);
        var changed := TakeOne(id, latest[id]);
        if !changed {
          events := events - {id};
        }
        rest := rest - {id};
      }
    }

    /** Takes over one life and tells whether it is new. */
    method TakeOne(id: Id, newLife: Life) returns (changed: bool)
      requires Valid()
      modifies this
      ensures Valid() && (changed <==> LifeOf(old(knownLife), id) != newLife)
      ensures forall x :: LifeOf(knownLife, x) == if x == id then newLife else LifeOf(old(knownLife), x)
    {
      var gone := newLife == Dead;
      var known := id in knownLife;
      changed := true;
      if known && gone {
        knownLife := knownLife - {id};
      } else if !known && !gone {
        knownLife := knownLife[id := newLife];
      } else if known && newLife != knownLife[id] {
        knownLife := knownLife[id := newLife];
      } else {
        changed := false;
      }
    }

    /** The in-order filter of the changes whose id still has an event. */
    static method Filter(changes: seq<Change>, events: map<Id, Change>,
                         ghost known: map<Id, Life>, ghost latest: map<Id, Life>) returns (result: seq<Id>)
      requires forall c :: c in changes ==> (c.id in events <==> LifeChanged(known, latest, c.id))
      ensures result == Reported(changes, known, latest)
    {
      result := [];
      for i := 0 to |changes|
        invariant result == Reported(changes[..i], known, latest)
      {
        assert changes[..i + 1][..i] == changes[..i];
        if changes[i].id in events {
          result := result + [changes[i].id];
        }
      }
      assert changes[..|changes|] == changes;
    }

    /** One batch. A failed lookup changes nothing; otherwise the resolved lives are
        taken over and exactly the ids whose life changed are reported. */
    method Map(changes: seq<Change>, lifeGetter: LifeGetter) returns (result: Result<seq<Id>>)
      requires Valid()
      modifies this
      ensures Valid()
      ensures match lifeGetter(Asked(changes))
              case Err => result == Err && knownLife == old(knownLife)
              case Ok(current) =>
                && result == Ok(Reported(changes, old(knownLife), Latest(changes, current)))
                && Remembers(knownLife, old(knownLife), Latest(changes, current))
    {
      var events := Collect(changes);
      var latest, ids := MarkDeleted(events);
      assert ids == Asked(changes);
      match lifeGetter(ids)
      case Err => result := Err;
      case Ok(current) =>
        var unknown;
        latest, unknown := AddCurrent(latest, ids, current);
        assert latest == Latest(changes, current);
        events := events - unknown;
        latest := latest - unknown;
        assert latest == Latest(changes, current);
        ghost var before := knownLife;
        events := TakeOver(latest, events);
        forall c | c in changes ensures c.id in events <==> LifeChanged(before, latest, c.id) {
          EventOfEach(changes, c);
        }
        var filtered := Filter(changes, events, before, latest);
        result := Ok(filtered);
    }
  }

  lemma {:induction false} EventOfEach(changes: seq<Change>, c: Change)
    requires c in changes
    ensures c.id in Events(changes)
  {
    var n := |changes| - 1;
    if c != changes[n] {
      assert c in changes[..n];
      EventOfEach(changes[..n], c);
    }
  }

  /** The `i`-th change is the last one of its id. */
  predicate IsLast(changes: seq<Change>, i: nat)
    requires i < |changes|
  {
    forall j :: i < j < |changes| ==> changes[j].id != changes[i].id
  }

  /** Of several changes of an id the last one counts. */
  lemma {:induction false} LastChangeCounts(changes: seq<Change>, i: nat)
    requires i < |changes| && IsLast(changes, i)
    ensures changes[i].id in Events(changes) && Events(changes)[changes[i].id] == changes[i]
    decreases |changes|
  {
    var n := |changes| - 1;
    if i < n {
      assert changes[n].id != changes[i].id;
      assert forall j :: i < j < n ==> changes[..n][j] == changes[j];
      LastChangeCounts(changes[..n], i);
    }
  }

  lemma {:induction false} EventsOfReceived(changes: seq<Change>, id: Id)
    ensures id in Events(changes) <==> exists c :: c in changes && c.id == id
    decreases |changes|
  {
    if changes != [] {
      var n := |changes| - 1;
      EventsOfReceived(changes[..n], id);
      assert changes == changes[..n] + [changes[n]];
    }
  }

  /** An id is dead without being looked up exactly when its last change is a deletion, and
      is looked up exactly when that is something else. What the lookup says wins; an id
      not received and not in the answer is not resolved. */
  lemma ResolvedAsReceived(changes: seq<Change>, current: map<Id, Life>, i: nat)
    requires i < |changes| && IsLast(changes, i)
    ensures var id, latest := changes[i].id, Latest(changes, current);
            && (id in Asked(changes) <==> !changes[i].deleted)
            && (id in latest <==> id in current || changes[i].deleted)
            && (id in latest ==> latest[id] == if id in current then current[id] else Dead)
  {
    LastChangeCounts(changes, i);
  }

  lemma NothingElseResolved(changes: seq<Change>, current: map<Id, Life>, id: Id)
    requires !exists c :: c in changes && c.id == id
    ensures id !in Asked(changes) && (id in Latest(changes, current) <==> id in current)
    ensures id in current ==> Latest(changes, current)[id] == current[id]
  {
    EventsOfReceived(changes, id);
  }

  /** Reports keep the order of the changes. */
  lemma {:induction false} ReportedInOrder(a: seq<Change>, b: seq<Change>, known: map<Id, Life>, latest: map<Id, Life>)
    ensures Reported(a + b, known, latest) == Reported(a, known, latest) + Reported(b, known, latest)
    decreases |b|
  {
    if b == [] {
      assert a + b == a;
    } else {
      var n := |b| - 1;
      assert (a + b)[..|a| + n] == a + b[..n];
      ReportedInOrder(a, b[..n], known, latest);
    }
  }

  // ---------------------------------------------------------------------
  // Runs of batches

  /** One call of the mapper, with the answer its lookup got. */
  datatype Batch = Batch(changes: seq<Change>, answer: Result<map<Id, Life>>)

  /** `known` lists what was remembered before, between and after the batches. */
  ghost predicate RunOf(batches: seq<Batch>, known: seq<map<Id, Life>>) {
    && |known| == |batches| + 1 && known[0] == map[]
    && (forall i :: 0 <= i < |batches| ==>
          match batches[i].answer
          case Err => known[i + 1] == known[i]
          case Ok(current) => Remembers(known[i + 1], known[i], Latest(batches[i].changes, current)))
  }

  predicate Resolves(b: Batch, id: Id) {
    b.answer.Ok? && id in Latest(b.changes, b.answer.value)
  }

  /** The plain specification: the life the last batch to resolve `id` found. */
  function LastResolved(batches: seq<Batch>, id: Id): Life {
    if batches == [] then Dead
    else
      var last := batches[|batches| - 1];
      if Resolves(last, id) then Latest(last.changes, last.answer.value)[id]
      else LastResolved(batches[..|batches| - 1], id)
  }

  /** Over any run the remembered lives are those last resolved, none of them dead. */
  lemma {:induction false} RememberedIsLastResolved(batches: seq<Batch>, known: seq<map<Id, Life>>, id: Id)
    requires RunOf(batches, known)
    ensures LifeOf(known[|batches|], id) == LastResolved(batches, id) && NoneDead(known[|batches|])
    decreases |batches|
  {
    if batches != [] {
      var n := |batches| - 1;
      assert forall i :: 0 <= i < n ==> batches[..n][i] == batches[i];
      RememberedIsLastResolved(batches[..n], known[..n + 1], id);
      assert batches[n].answer.Err? || batches[n].answer.Ok?;
    }
  }

  /** What a batch leaves remembered is determined by what was remembered before,
      so the order in which maps are visited does not matter. */
  lemma RememberedUnique(a: map<Id, Life>, b: map<Id, Life>, before: map<Id, Life>, latest: map<Id, Life>)
    requires Remembers(a, before, latest) && Remembers(b, before, latest)
    ensures a == b
  {
    forall id ensures id in a <==> id in b {
      assert LifeOf(a, id) == LifeOf(b, id);
    }
    forall id | id in a && id in b ensures a[id] == b[id] {
      assert LifeOf(a, id) == LifeOf(b, id);
    }
  }

  /** A mapper fed with a sequence of batches behaves as RunOf says, and reports
      for each batch what that batch's lives call for. */
  method MapAll(batches: seq<Batch>) returns (known: seq<map<Id, Life>>, results: seq<Result<seq<Id>>>)
    ensures RunOf(batches, known) && |results| == |batches|
    ensures forall i :: 0 <= i < |batches| ==>
              results[i] == match batches[i].answer
                            case Err => Err
                            case Ok(current) =>
                              Ok(Reported(batches[i].changes, known[i], Latest(batches[i].changes, current)))
  {
    var mapper := new Mapper();
    known, results := [mapper.knownLife], [];
    for n := 0 to |batches|
      invariant fresh(mapper) && mapper.Valid()
      invariant |results| == n && RunOf(batches[..n], known) && known[n] == mapper.knownLife
      invariant forall i :: 0 <= i < n ==>
                  results[i] == match batches[i].answer
                                case Err => Err
                                case Ok(current) =>
                                  Ok(Reported(batches[i].changes, known[i], Latest(batches[i].changes, current)))
    {
      var answer := batches[n].answer;
      assert RunOf(batches[..n], known);
      assert forall i :: 0 <= i < n ==> batches[..n][i] == batches[..n + 1][i];
      var result := mapper.Map(batches[n].changes, ids => answer);
      known, results := known + [mapper.knownLife], results + [result];
    }
    assert batches[..|batches|] == batches;
  }

  /** What a successful batch reports: the received ids, and of those exactly the
      ones whose life differs from the one last resolved before. */
  lemma ReportedIffChanged(batches: seq<Batch>, known: seq<map<Id, Life>>, b: Batch, id: Id)
    requires RunOf(batches, known) && b.answer.Ok?
    ensures var latest := Latest(b.changes, b.answer.value);
            id in Reported(b.changes, known[|batches|], latest)
            <==> (exists c :: c in b.changes && c.id == id) && id in latest && latest[id] != LastResolved(batches, id)
  {
    RememberedIsLastResolved(batches, known, id);
    ReportedMembers(b.changes, known[|batches|], Latest(b.changes, b.answer.value), id);
  }

  /** How often `id` occurs among the changes. */
  function Received(changes: seq<Change>, id: Id): nat {
    if changes == [] then 0
    else Received(changes[..|changes| - 1], id) + if changes[|changes| - 1].id == id then 1 else 0
  }

  /** A reported id keeps its multiplicity. */
  lemma {:induction false} ReportedMultiplicity(changes: seq<Change>, known: map<Id, Life>, latest: map<Id, Life>,
                                                id: Id)
    ensures multiset(Reported(changes, known, latest))[id]
            == if LifeChanged(known, latest, id) then Received(changes, id) else 0
    decreases |changes|
  {
    if changes != [] { ReportedMultiplicity(changes[..|changes| - 1], known, latest, id); }
  }

  lemma {:induction false} ReceivedMembers(changes: seq<Change>, id: Id)
    ensures Received(changes, id) > 0 <==> exists c :: c in changes && c.id == id
    decreases |changes|
  {
    if changes != [] {
      var n := |changes| - 1;
      ReceivedMembers(changes[..n], id);
      assert changes == changes[..n] + [changes[n]];
    }
  }

  lemma ReportedMembers(changes: seq<Change>, known: map<Id, Life>, latest: map<Id, Life>, id: Id)
    ensures id in Reported(changes, known, latest)
            <==> LifeChanged(known, latest, id) && exists c :: c in changes && c.id == id
  {
    ReportedMultiplicity(changes, known, latest, id);
    ReceivedMembers(changes, id);
    assert id in Reported(changes, known, latest) <==> id in multiset(Reported(changes, known, latest));
  }
}
