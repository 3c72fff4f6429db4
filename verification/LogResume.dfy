/**
 A log transfer with interruptions. Every attempt asks the target for the persisted
 checkpoint and sends the records from there on, so records may be written twice. None
 is missed exactly when no record is older than a checkpoint taken before it.
 */
module LogResume {
  import opened LogTransfer

  // ---------------------------------------------------------------------
  // Sessions

  /** What the source controller sends when asked for the logs from `start` on. */
  function NotBefore(records: seq<Record>, start: Time): seq<Record> {
    if records == [] then []
    else
      var last := records[|records| - 1];
      NotBefore(records[..|records| - 1], start) + if last.time < start then [] else [last]
  }

  /** The checkpoint in the database after more have been written: it never goes back. */
  function Advanced(persisted: Time, checkpoints: seq<Time>): Time {
    if checkpoints == [] then persisted
    else
      var before, c := Advanced(persisted, checkpoints[..|checkpoints| - 1]), checkpoints[|checkpoints| - 1];
      if before < c then c else before
  }

  /** How a session ended: how many records of its stream were tracked, and how many
      written. The last one written is not tracked when the database refuses it. */
  datatype Ending = Ending(tracked: nat, written: nat)

  predicate CanEnd(stream: seq<Record>, e: Ending) {
    e.tracked <= e.written <= e.tracked + 1 && e.written <= |stream|
  }

  predicate CanRun(records: seq<Record>, endings: seq<Ending>)
    decreases |endings|, 0
  {
    endings == [] ||
    (var front := endings[..|endings| - 1];
     CanRun(records, front) && CanEnd(NotBefore(records, Start(records, front)), endings[|endings| - 1]))
  }

  /** Where the next session starts. */
  function Start(records: seq<Record>, endings: seq<Ending>): Time
    requires CanRun(records, endings)
    decreases |endings|, 1
  {
    if endings == [] then 0
    else
      var start := Start(records, endings[..|endings| - 1]);
      Advanced(start, Saved(NotBefore(records, start)[..endings[|endings| - 1].tracked]))
  }

  /** What each session has written. */
  function Sessions(records: seq<Record>, endings: seq<Ending>): seq<seq<Record>>
    requires CanRun(records, endings)
    decreases |endings|
  {
    if endings == [] then []
    else
      var front := endings[..|endings| - 1];
      Sessions(records, front) + [NotBefore(records, Start(records, front))[..endings[|endings| - 1].written]]
  }

  /** The last session has taken its whole stream. */
  predicate Completed(records: seq<Record>, endings: seq<Ending>)
    requires CanRun(records, endings)
  {
    endings != [] &&
    endings[|endings| - 1].tracked == |NotBefore(records, Start(records, endings[..|endings| - 1]))|
  }

  predicate WrittenBySome(sessions: seq<seq<Record>>, r: Record) {
    exists k :: 0 <= k < |sessions| && r in sessions[k]
  }

  /** Every record before `until` has been written by some session. */
  predicate NoneMissed(records: seq<Record>, sessions: seq<seq<Record>>, until: Time) {
    forall r :: r in records && 0 <= r.time < until ==> WrittenBySome(sessions, r)
  }

  predicate AllWritten(records: seq<Record>, sessions: seq<seq<Record>>) {
    forall r :: r in records && 0 <= r.time ==> WrittenBySome(sessions, r)
  }

  /** Record `j` is new and is not older than the checkpoints the records before it lead to. */
  predicate OnTime(records: seq<Record>, j: nat)
    requires j < |records|
  {
    records[j] in records[..j] || records[j].time < 0
    || forall c :: c in Saved(records[..j]) ==> c <= records[j].time
  }

  predicate NoneLate(records: seq<Record>) {
    forall j :: 0 <= j < |records| ==> OnTime(records, j)
  }

  // ---------------------------------------------------------------------
  // The stream from a checkpoint on

  lemma {:induction false} NotBeforeMembers(records: seq<Record>, start: Time, r: Record)
    ensures r in NotBefore(records, start) <==> r in records && start <= r.time
    decreases |records|
  {
    if records != [] {
      var n := |records| - 1;
      NotBeforeMembers(records[..n], start, r);
      assert records == records[..n] + [records[n]];
    }
  }

  lemma {:induction false} NotBeforePrefix(records: seq<Record>, start: Time, m: nat)
    requires m <= |records|
    ensures NotBefore(records[..m], start) <= NotBefore(records, start)
    decreases |records|
  {
    if m == |records| {
      assert records[..m] == records;
    } else {
      var front := records[..|records| - 1];
      NotBeforePrefix(front, start, m);
      assert front[..m] == records[..m];
    }
  }

  /** The first records of a stream are the stream of the first records. */
  lemma {:induction false} StreamPrefix(records: seq<Record>, start: Time, k: nat) returns (m: nat)
    requires k <= |NotBefore(records, start)|
    ensures m <= |records| && NotBefore(records[..m], start) == NotBefore(records, start)[..k]
    decreases |records|
  {
    if k == |NotBefore(records, start)| {
      m := |records|;
      assert records[..m] == records;
    } else {
      var front := records[..|records| - 1];
      m := StreamPrefix(front, start, k);
      assert front[..m] == records[..m];
    }
  }

  lemma {:induction false} SavedPrefix(records: seq<Record>, m: nat)
    requires m <= |records|
    ensures Saved(records[..m]) <= Saved(records)
    decreases |records|
  {
    if m == |records| {
      assert records[..m] == records;
    } else {
      var front := records[..|records| - 1];
      SavedPrefix(front, m);
      assert front[..m] == records[..m];
    }
  }

  lemma {:induction false} SavedBounds(records: seq<Record>, c: Time)
    requires c in Saved(records)
    ensures TRACKING_PERIOD <= c <= LastOf(Saved(records))
    decreases |records|
  {
    var front := records[..|records| - 1];
    if c in Saved(front) {
      SavedBounds(front, c);
    } else if Saved(front) != [] {
      SavedBounds(front, LastOf(Saved(front)));
    }
  }

  lemma LastNotNegative(records: seq<Record>)
    ensures 0 <= LastOf(Saved(records))
  {
    if Saved(records) != [] { SavedBounds(records, LastOf(Saved(records))); }
  }

  /** Records so far are less than a period after the latest checkpoint. */
  lemma {:induction false} BelowNext(records: seq<Record>, r: Record)
    requires r in records
    ensures r.time < LastOf(Saved(records)) + TRACKING_PERIOD
    decreases |records|
  {
    var n := |records| - 1;
    var front := records[..n];
    LastNotNegative(records);
    LastNotNegative(front);
    if r != records[n] {
      assert r in front;
      BelowNext(front, r);
    }
  }

  /** Everything received before a checkpoint was taken is older than it. */
  lemma {:induction false} BeforeCheckpoint(records: seq<Record>, c: Time, m: nat, r: Record)
    requires c in Saved(records) && m <= |records| && c !in Saved(records[..m]) && r in records[..m]
    ensures r.time < c
    decreases |records|
  {
    var n := |records| - 1;
    assert records[..|records|] == records;
    var front := records[..n];
    assert front[..m] == records[..m];
    if c in Saved(front) {
      BeforeCheckpoint(front, c, m, r);
    } else {
      assert r in front;
      BelowNext(front, r);
    }
  }

  lemma NothingFromLater(records: seq<Record>, c: Time, m: nat)
    requires c in Saved(records) && m <= |records| && c !in Saved(records[..m])
    ensures NotBefore(records[..m], c) == []
  {
    var stream := NotBefore(records[..m], c);
    if stream != [] {
      NotBeforeMembers(records[..m], c, stream[0]);
      BeforeCheckpoint(records, c, m, stream[0]);
    }
  }

  /** A session that starts afresh from a checkpoint takes the checkpoints that the
      uninterrupted transfer takes from there on. */
  lemma {:induction false} SameCheckpoints(records: seq<Record>, start: Time, c: Time)
    requires start == 0 || start in Saved(records)
    ensures LastOf(Saved(NotBefore(records, start))) == LastOf(Saved(records))
    ensures c in Saved(NotBefore(records, start)) ==> c in Saved(records)
    decreases |records|
  {
    if records != [] {
      var n := |records| - 1;
      var front := records[..n];
      LastNotNegative(front);
      if start == 0 || start in Saved(front) {
        SameCheckpoints(front, start, c);
        if start != 0 { SavedBounds(front, start); }
        OneMoreRecord(records, start);
      } else {
        StreamBegins(records, start);
      }
    }
  }

  /** The stream from the latest checkpoint on begins with its record. */
  lemma StreamBegins(records: seq<Record>, start: Time)
    requires start in Saved(records) && start !in Saved(records[..|records| - 1])
    ensures Saved(NotBefore(records, start)) == [start] && LastOf(Saved(records)) == start
  {
    var n := |records| - 1;
    SavedBounds(records, start);
    NothingFromLater(records, start, n);
    assert records[n].time == start;
    assert NotBefore(records, start) == [records[n]];
    assert [records[n]][..0] == [];
  }

  lemma {:induction false} OneMoreRecord(records: seq<Record>, start: Time)
    requires records != []
    requires var front := records[..|records| - 1];
             LastOf(Saved(NotBefore(front, start))) == LastOf(Saved(front)) >= start >= 0
    ensures var front, t := records[..|records| - 1], records[|records| - 1].time;
            var more := if Due(t, LastOf(Saved(front))) then [t] else [];
            && Saved(records) == Saved(front) + more
            && Saved(NotBefore(records, start)) == Saved(NotBefore(front, start)) + more
  {
    var front, r := records[..|records| - 1], records[|records| - 1];
    var stream := NotBefore(front, start);
    if r.time < start {
      assert NotBefore(records, start) == stream;
    } else {
      assert NotBefore(records, start) == stream + [r];
      assert (stream + [r])[..|stream|] == stream;
    }
  }

  lemma {:induction false} AdvancedFrom(persisted: Time, checkpoints: seq<Time>)
    ensures var p := Advanced(persisted, checkpoints); persisted <= p && (p == persisted || p in checkpoints)
    ensures checkpoints != [] ==> LastOf(checkpoints) <= Advanced(persisted, checkpoints)
    decreases |checkpoints|
  {
    if checkpoints != [] { AdvancedFrom(persisted, checkpoints[..|checkpoints| - 1]); }
  }

  // ---------------------------------------------------------------------
  // Nothing is missed

  /** A place a session can start from. */
  ghost predicate CanStart(records: seq<Record>, start: Time) {
    start == 0 || start in Saved(records)
  }

  /** A checkpoint taken in the first `k` records of a stream was due by the records
      before anything else. */
  lemma {:induction false} CheckpointEarly(records: seq<Record>, start: Time, k: nat, c: Time) returns (m: nat)
    requires CanStart(records, start) && k <= |NotBefore(records, start)| && c in Saved(NotBefore(records, start)[..k])
    ensures m <= |records| && NotBefore(records[..m], start) == NotBefore(records, start)[..k]
    ensures c in Saved(records[..m])
  {
    m := StreamPrefix(records, start, k);
    if start != 0 && start !in Saved(records[..m]) {
      NothingFromLater(records, start, m);
    } else {
      SameCheckpoints(records[..m], start, c);
    }
  }

  lemma {:induction false} FirstIndex(records: seq<Record>, r: Record) returns (j: nat)
    requires r in records
    ensures j < |records| && records[j] == r && r !in records[..j]
    decreases |records|
  {
    var front := records[..|records| - 1];
    if r in front {
      j := FirstIndex(front, r);
      assert front[..j] == records[..j];
    } else {
      j := |records| - 1;
    }
  }

  lemma {:induction false} RunStarts(records: seq<Record>, endings: seq<Ending>)
    requires CanRun(records, endings)
    ensures CanStart(records, Start(records, endings))
    decreases |endings|
  {
    if endings != [] {
      var front, e := endings[..|endings| - 1], endings[|endings| - 1];
      RunStarts(records, front);
      NextStart(records, Start(records, front), e.tracked);
    }
  }

  lemma {:induction false} NextStart(records: seq<Record>, start: Time, tracked: nat)
    requires CanStart(records, start) && tracked <= |NotBefore(records, start)|
    ensures CanStart(records, Advanced(start, Saved(NotBefore(records, start)[..tracked])))
  {
    var checkpoints := Saved(NotBefore(records, start)[..tracked]);
    var next := Advanced(start, checkpoints);
    AdvancedFrom(start, checkpoints);
    if next != start {
      var m := CheckpointEarly(records, start, tracked, next);
      SavedPrefix(records, m);
    }
  }

  /** What a session leaves unwritten is not before the next start. */
  lemma {:induction false} SessionAdds(records: seq<Record>, start: Time, e: Ending, r: Record)
    requires NoneLate(records) && CanStart(records, start) && CanEnd(NotBefore(records, start), e)
    requires r in records && start <= r.time && 0 <= r.time
    requires var stream := NotBefore(records, start);
             r.time < Advanced(start, Saved(stream[..e.tracked])) || e.tracked == |stream|
    ensures r in NotBefore(records, start)[..e.written]
  {
    var stream := NotBefore(records, start);
    NotBeforeMembers(records, start, r);
    if r !in stream[..e.tracked] {
      assert stream[..|stream|] == stream;
      var c := Advanced(start, Saved(stream[..e.tracked]));
      AdvancedFrom(start, Saved(stream[..e.tracked]));
      var j := CheckpointBefore(records, start, e.tracked, c, r);
      NotLate(records, j, c);
    }
  }

  lemma {:induction false} NotLate(records: seq<Record>, j: nat, c: Time)
    requires NoneLate(records) && j < |records| && records[j] !in records[..j] && 0 <= records[j].time
    requires c in Saved(records[..j])
    ensures c <= records[j].time
  {
    assert OnTime(records, j);
  }

  /** A record that is not among the first `k` of a stream comes after the checkpoints
      that those led to. */
  lemma {:induction false} CheckpointBefore(records: seq<Record>, start: Time, k: nat, c: Time, r: Record)
    returns (j: nat)
    requires CanStart(records, start) && k <= |NotBefore(records, start)| && c in Saved(NotBefore(records, start)[..k])
    requires r in records && start <= r.time && r !in NotBefore(records, start)[..k]
    ensures j < |records| && records[j] == r && r !in records[..j] && c in Saved(records[..j])
  {
    var m := CheckpointEarly(records, start, k, c);
    NotBeforeMembers(records[..m], start, r);
    j := FirstIndex(records, r);
    SavedEarlier(records, m, j, c);
  }

  lemma {:induction false} SavedEarlier(records: seq<Record>, m: nat, j: nat, c: Time)
    requires m <= j <= |records| && c in Saved(records[..m])
    ensures c in Saved(records[..j])
  {
    assert records[..j][..m] == records[..m];
    SavedPrefix(records[..j], m);
  }

  /** If no record comes late, then at any time every record before the persisted
      checkpoint has been written by some session, and once a session has gone through
      every record has. */
  lemma {:induction false} ResumeMissesNothing(records: seq<Record>, endings: seq<Ending>, r: Record)
    requires NoneLate(records) && CanRun(records, endings) && r in records && 0 <= r.time
    requires r.time < Start(records, endings) || Completed(records, endings)
    ensures WrittenBySome(Sessions(records, endings), r)
    decreases |endings|
  {
    var front, e := endings[..|endings| - 1], endings[|endings| - 1];
    var before, sessions := Sessions(records, front), Sessions(records, endings);
    if r.time < Start(records, front) {
      ResumeMissesNothing(records, front, r);
      var k :| 0 <= k < |before| && r in before[k];
      assert r in sessions[k];
    } else {
      RunStarts(records, front);
      SessionAdds(records, Start(records, front), e, r);
      assert r in sessions[|before|];
    }
  }

  lemma {:induction false} RunSnoc(records: seq<Record>, endings: seq<Ending>, e: Ending)
    requires CanRun(records, endings) && CanEnd(NotBefore(records, Start(records, endings)), e)
    ensures CanRun(records, endings + [e])
    ensures var stream := NotBefore(records, Start(records, endings));
            && Sessions(records, endings + [e]) == Sessions(records, endings) + [stream[..e.written]]
            && Start(records, endings + [e]) == Advanced(Start(records, endings), Saved(stream[..e.tracked]))
            && (Completed(records, endings + [e]) <==> e.tracked == |stream|)
  {
    assert (endings + [e])[..|endings|] == endings;
  }

  lemma StartsAfter(stream: seq<Record>, c: Time)
    requires c <= LastOf(Saved(stream)) && 0 < c
    ensures c <= Advanced(0, Saved(stream))
  {
    AdvancedFrom(0, Saved(stream));
  }

  /** A late record is missed by a transfer that is interrupted just before it. */
  lemma {:induction false} LateIsMissed(records: seq<Record>, j: nat) returns (endings: seq<Ending>)
    requires j < |records| && !OnTime(records, j)
    ensures CanRun(records, endings) && Completed(records, endings)
    ensures !WrittenBySome(Sessions(records, endings), records[j])
  {
    var r := records[j];
    var c :| c in Saved(records[..j]) && r.time < c;
    var first := NotBefore(records[..j], 0);
    var interrupted := InterruptedBefore(records, j, c);
    var start := Start(records, interrupted);
    var rest := NotBefore(records, start);
    assert rest[..|rest|] == rest;
    RunSnoc(records, interrupted, Ending(|rest|, |rest|));
    endings := interrupted + [Ending(|rest|, |rest|)];
    NotBeforeMembers(records[..j], 0, r);
    NotBeforeMembers(records, start, r);
    var sessions := Sessions(records, endings);
    assert sessions == [first, rest];
    assert forall k :: 0 <= k < |sessions| ==> sessions[k] == first || sessions[k] == rest;
  }

  /** One session that takes everything before record `j`. */
  lemma {:induction false} InterruptedBefore(records: seq<Record>, j: nat, c: Time) returns (endings: seq<Ending>)
    requires j < |records| && c in Saved(records[..j])
    ensures CanRun(records, endings) && Sessions(records, endings) == [NotBefore(records[..j], 0)]
    ensures c <= Start(records, endings)
  {
    var first := NotBefore(records[..j], 0);
    NotBeforePrefix(records, 0, j);
    assert NotBefore(records, 0)[..|first|] == first;
    RunSnoc(records, [], Ending(|first|, |first|));
    endings := [] + [Ending(|first|, |first|)];
    SameCheckpoints(records[..j], 0, c);
    SavedBounds(records[..j], c);
    StartsAfter(first, c);
  }

  /** Every interrupted transfer that goes through has written every record exactly when
      no record is older than a checkpoint taken before it. */
  lemma NoneMissedIff(records: seq<Record>)
    ensures (forall endings :: CanRun(records, endings) && Completed(records, endings) ==>
               AllWritten(records, Sessions(records, endings)))
            <==> NoneLate(records)
  {
    if NoneLate(records) {
      forall endings, r | CanRun(records, endings) && Completed(records, endings) && r in records && 0 <= r.time
        ensures WrittenBySome(Sessions(records, endings), r)
      {
        ResumeMissesNothing(records, endings, r);
      }
    } else {
      var j :| 0 <= j < |records| && !OnTime(records, j);
      var endings := LateIsMissed(records, j);
      assert records[j] in records && !AllWritten(records, Sessions(records, endings));
    }
  }

  /** In a time-ordered stream no record is late. */
  lemma OrderedNoneLate(records: seq<Record>)
    requires TimeOrdered(records)
    ensures NoneLate(records)
  {
    forall j, c | 0 <= j < |records| && c in Saved(records[..j]) ensures c <= records[j].time {
      SavedFromRecords(records[..j], c);
    }
  }

  /** Two records, the second five minutes older: an interruption between them loses it. */
  lemma OutOfOrderRecordMissed() returns (records: seq<Record>, endings: seq<Ending>)
    ensures CanRun(records, endings) && Completed(records, endings)
    ensures !AllWritten(records, Sessions(records, endings))
  {
    var newer, older := Record(10 * NANOS_PER_MINUTE, "newer"), Record(5 * NANOS_PER_MINUTE, "older");
    records := [newer, older];
    assert records[..1] == [newer] && [newer][..0] == [];
    assert Saved([newer]) == [newer.time] && newer.time in Saved(records[..1]);
    assert older !in records[..1];
    endings := LateIsMissed(records, 1);
    assert records[1] in records;
  }

  // ---------------------------------------------------------------------
  // The transfer itself

  /** One attempt: how many records reach the target, and which writes to its log and
      its database succeed. */
  datatype Attempt = Attempt(received: nat, logOk: nat -> bool, setOk: nat -> bool)

  /** One session over a stream, which ends in one of the ways CanEnd allows. */
  method AttemptOnce(stream: seq<Record>, attempt: Attempt)
    returns (written: seq<Record>, checkpoints: seq<Time>, complete: bool, ghost e: Ending)
    ensures CanEnd(stream, e) && written == stream[..e.written] && checkpoints == Saved(stream[..e.tracked])
    ensures complete <==> e.tracked == |stream|
    ensures written <= stream && (complete ==> written == stream && checkpoints == Saved(stream))
  {
    var arriving := if attempt.received < |stream| then stream[..attempt.received] else stream;
    var session := new Session();
    var ok := session.Receive(arriving, attempt.logOk, attempt.setOk);
    written, checkpoints, complete := session.written, session.checkpoints, ok && |arriving| == |stream|;
    if ok {
      e := Ending(|arriving|, |arriving|);
      assert stream[..|arriving|] == arriving;
    } else {
      ghost var n :| 0 <= n < |arriving| && checkpoints == Saved(arriving[..n])
                     && (written == arriving[..n] || written == arriving[..n + 1]);
      e := Ending(n, |written|);
      assert arriving[..n] == stream[..n] && arriving[..n + 1] == stream[..n + 1];
    }
  }

  /** Attempts are made until one goes through. Each starts from the persisted checkpoint
      with a session that has tracked nothing yet. */
  method TransferAll(records: seq<Record>, attempts: seq<Attempt>)
    returns (sessions: seq<seq<Record>>, persisted: Time, complete: bool, ghost endings: seq<Ending>)
    ensures CanRun(records, endings) && |endings| <= |attempts| && (!complete ==> |endings| == |attempts|)
    ensures sessions == Sessions(records, endings) && persisted == Start(records, endings)
    ensures complete <==> Completed(records, endings)
    ensures NoneLate(records) ==> NoneMissed(records, sessions, persisted)
    ensures NoneLate(records) && complete ==> AllWritten(records, sessions)
  {
    sessions, persisted, complete, endings := [], 0, false, [];
    var n := 0;
    while n < |attempts| && !complete
      invariant n == |endings| <= |attempts| && CanRun(records, endings)
      invariant sessions == Sessions(records, endings) && persisted == Start(records, endings)
      invariant complete <==> Completed(records, endings)
      decreases |attempts| - n
    {
      var stream := NotBefore(records, persisted);
      ghost var e;
      var written, checkpoints;
      written, checkpoints, complete, e := AttemptOnce(stream, attempts[n]);
      RunSnoc(records, endings, e);
      endings := endings + [e];
      sessions, persisted, n := sessions + [written], Advanced(persisted, checkpoints), n + 1;
    }
    if NoneLate(records) {
      forall r | r in records && 0 <= r.time && (r.time < persisted || complete) ensures WrittenBySome(sessions, r) {
        ResumeMissesNothing(records, endings, r);
      }
    }
  }
}
