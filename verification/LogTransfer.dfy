/**
 Receiving the logs of a migrated model: every record is written, and now and then
 the time of the latest record is persisted as a checkpoint to resume from.
 Times and durations are nanoseconds; time zero is Go's zero time.
 */
module LogTransfer {
  type Time = int

  datatype Record = Record(time: Time, message: string)

  const NANOS_PER_MINUTE := 60_000_000_000
  const TRACKING_PERIOD := 2 * NANOS_PER_MINUTE
  const MAX_DURATION := 0x7FFF_FFFF_FFFF_FFFF
  const MIN_DURATION := -0x8000_0000_0000_0000

  /** Go's saturating difference of two times. */
  function Sub(t: Time, u: Time): int {
    if t - u > MAX_DURATION then MAX_DURATION else if t - u < MIN_DURATION then MIN_DURATION else t - u
  }

  /** The checkpoints have been taken at least a tracking period apart. */
  predicate Spaced(checkpoints: seq<Time>) {
    forall i :: 0 <= i < |checkpoints| - 1 ==> checkpoints[i] + TRACKING_PERIOD <= checkpoints[i + 1]
  }

  /** A record at time `t` calls for a checkpoint. */
  predicate Due(t: Time, tracked: Time) {
    t != 0 && t - tracked >= TRACKING_PERIOD
  }

  function LastOf(checkpoints: seq<Time>): Time {
    if checkpoints == [] then 0 else checkpoints[|checkpoints| - 1]
  }

  /** The checkpoints a stream of records leads to when nothing fails. */
  function Saved(records: seq<Record>): seq<Time> {
    if records == [] then []
    else
      var saved, t := Saved(records[..|records| - 1]), records[|records| - 1].time;
      if Due(t, LastOf(saved)) then saved + [t] else saved
  }

  class Session {
    var trackedTime: Time
    var written: seq<Record>        // what the model's log has received
    var checkpoints: seq<Time>      // what has been persisted

    predicate Valid()
      reads this
    {
      Spaced(checkpoints) && trackedTime == LastOf(checkpoints)
    }

    constructor ()
      ensures Valid() && written == [] && checkpoints == []
    {
      trackedTime, written, checkpoints := 0, [], [];
    }

    /** Persists a checkpoint when a period has passed since the last one. */
    method TrackLogTransferTime(t: Time, setOk: bool) returns (ok: bool)
      requires Valid()
      modifies this`trackedTime, this`checkpoints
      ensures Valid()
      ensures checkpoints == if Due(t, old(trackedTime)) && setOk then old(checkpoints) + [t] else old(checkpoints)
      ensures ok <==> !Due(t, old(trackedTime)) || setOk
    {
      if t == 0 || Sub(t, trackedTime) < TRACKING_PERIOD {
        return true;
      }
      if !setOk {
        return false;
      }
      checkpoints := checkpoints + [t];
      trackedTime := t;
      return true;
    }

    /** Writes one record, then tracks its time. `logOk` and `setOk` say whether the
        log and the database accept their writes. A record that succeeds leaves an
        unsaved window shorter than one period. */
    method WriteLog(r: Record, logOk: bool, setOk: bool) returns (ok: bool)
      requires Valid()
      modifies this
      ensures Valid()
      ensures written == if logOk then old(written) + [r] else old(written)
      ensures checkpoints == if logOk && Due(r.time, old(trackedTime)) && setOk then old(checkpoints) + [r.time]
                             else old(checkpoints)
      ensures ok <==> logOk && (!Due(r.time, old(trackedTime)) || setOk)
      ensures ok ==> r.time == 0 || r.time - trackedTime < TRACKING_PERIOD
    {
      if !logOk {
        return false;
      }
      written := written + [r];
      ok := TrackLogTransferTime(r.time, setOk);
    }

    /** A log transfer connection: records are taken in order until one fails. */
    method Receive(records: seq<Record>, logOk: nat -> bool, setOk: nat -> bool) returns (ok: bool)
      requires Valid() && written == [] && checkpoints == []
      modifies this
      ensures Valid()
      ensures ok ==> written == records && checkpoints == Saved(records)
      ensures !ok ==> exists n :: 0 <= n < |records| && checkpoints == Saved(records[..n])
                        && (if logOk(n) then !setOk(n) && written == records[..n + 1] else written == records[..n])
    {
      for n := 0 to |records|
        invariant Valid() && written == records[..n] && checkpoints == Saved(records[..n])
      {
        assert records[..n + 1][..n] == records[..n];
        ok := WriteLog(records[n], logOk(n), setOk(n));
        if !ok {
          return;
        }
      }
      ok := true;
      assert records[..|records|] == records;
    }
  }

  lemma {:induction false} SavedFromRecords(records: seq<Record>, c: Time)
    requires c in Saved(records)
    ensures exists i :: 0 <= i < |records| && records[i].time == c
    decreases |records|
  {
    var n := |records| - 1;
    if c != records[n].time {
      SavedFromRecords(records[..n], c);
      var i :| 0 <= i < n && records[..n][i].time == c;
      assert records[i].time == c;
    }
  }

  /** The saturation of Sub never decides whether a period has passed. */
  lemma SaturationHarmless(t: Time, u: Time)
    ensures Sub(t, u) < TRACKING_PERIOD <==> t - u < TRACKING_PERIOD
  {
  }

  lemma {:induction false} SpacedApart(checkpoints: seq<Time>, i: nat, j: nat)
    requires Spaced(checkpoints) && i <= j < |checkpoints|
    ensures checkpoints[i] + (j - i) * TRACKING_PERIOD <= checkpoints[j]
    decreases j - i
  {
    if i < j { SpacedApart(checkpoints, i, j - 1); }
  }

  /** Records spanning a duration cause at most one checkpoint per period of it, and one more. */
  lemma CheckpointsBounded(checkpoints: seq<Time>, lo: Time, hi: Time)
    requires Spaced(checkpoints) && lo <= hi && forall c :: c in checkpoints ==> lo <= c <= hi
    ensures |checkpoints| <= 1 + (hi - lo) / TRACKING_PERIOD
  {
    if checkpoints != [] {
      var last := |checkpoints| - 1;
      SpacedApart(checkpoints, 0, last);
      assert checkpoints[0] in checkpoints && checkpoints[last] in checkpoints;
    }
  }

  predicate TimeOrdered(records: seq<Record>) {
    forall i, j :: 0 <= i < j < |records| ==> records[i].time <= records[j].time
  }

  /** Resuming from a checkpoint loses nothing: of a time-ordered stream, every record
      strictly before a checkpoint has been written. */
  lemma NothingLostBeforeCheckpoint(records: seq<Record>, written: seq<Record>, checkpoints: seq<Time>, i: nat, c: Time)
    requires TimeOrdered(records) && written <= records
    requires forall x :: x in checkpoints ==> exists j :: 0 <= j < |written| && written[j].time == x
    requires c in checkpoints && i < |records| && records[i].time < c
    ensures i < |written| && written[i] == records[i]
  {
    var j :| 0 <= j < |written| && written[j].time == c;
    assert records[j] == written[j];
  }

  predicate Within(records: seq<Record>, lo: Time, hi: Time) {
    lo <= hi && forall i :: 0 <= i < |records| ==> lo <= records[i].time <= hi
  }

  /** A whole session, whatever fails. */
  method Transfer(records: seq<Record>, logOk: nat -> bool, setOk: nat -> bool)
    returns (written: seq<Record>, checkpoints: seq<Time>, ok: bool)
    ensures written <= records && Spaced(checkpoints) && (ok ==> written == records && checkpoints == Saved(records))
    ensures forall c :: c in checkpoints ==> exists j :: 0 <= j < |written| && written[j].time == c
    ensures TimeOrdered(records) ==>
              forall c, i :: c in checkpoints && 0 <= i < |records| && records[i].time < c ==>
                i < |written| && written[i] == records[i]
    ensures forall lo, hi :: Within(records, lo, hi) ==> |checkpoints| <= 1 + (hi - lo) / TRACKING_PERIOD
  {
    var session := new Session();
    ok := session.Receive(records, logOk, setOk);
    assert ok ==> records[..|records|] == records;
    written, checkpoints := session.written, session.checkpoints;
    forall x | x in checkpoints ensures exists j :: 0 <= j < |written| && written[j].time == x {
      var n :| 0 <= n <= |records| && checkpoints == Saved(records[..n]) && records[..n] <= written;
      SavedFromRecords(records[..n], x);
    }
    if TimeOrdered(records) {
      forall c, i | c in checkpoints && 0 <= i < |records| && records[i].time < c
        ensures i < |written| && written[i] == records[i]
      {
        NothingLostBeforeCheckpoint(records, written, checkpoints, i, c);
      }
    }
    forall lo, hi | Within(records, lo, hi) ensures |checkpoints| <= 1 + (hi - lo) / TRACKING_PERIOD {
      forall c | c in checkpoints ensures lo <= c <= hi {
        var j :| 0 <= j < |written| && written[j].time == c;
        assert records[j] == written[j];
      }
      CheckpointsBounded(checkpoints, lo, hi);
    }
  }
}
