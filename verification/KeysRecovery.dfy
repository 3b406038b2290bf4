/**
 The KEYS projector after it went down anywhere in a run: whether a new start recovers, exactly, and
 that where it does not no later start ever does, however the log grows.
 */
module KeysRecovery {
  import opened Wrappers
  import opened Cpkv
  import opened EventLog
  import opened KeysProjector
  import opened KeysRestart
  import opened KeysRuns
  import opened Projections

  // ---------- A run depends only on what it has seen ----------

  lemma StepOnSeen(log: Log, h: nat, w: State, a: Action)
    requires ValidLog(log) && FreshHashes(log) && Inv(log, w) && h <= |log| && Step(log, w, a).head <= h
    ensures Step(log[..h], w, a) == Step(log, w, a)
  {
    hide Writes, Learn, WarmUp, BucketOk, ProcessOk;
    var seen := log[..h];
    if a.Deliver? && a.k < w.head {
      assert forall j :: 0 <= j < h ==> seen[j] == log[j];
      assert InOrder(seen, KeyStream, if w.process.Up? then w.process.pos else 0, a.k) <==>
             InOrder(log, KeyStream, if w.process.Up? then w.process.pos else 0, a.k);
    }
    if a.Start? && w.head <= h {
      assert seen[..w.head] == log[..w.head];
    }
  }

  lemma HeadGrows(log: Log, w: State, a: Action)
    ensures w.head <= Step(log, w, a).head
  {
    hide Writes, Learn, WarmUp, InOrder;
  }

  lemma {:induction false} RunOnSeen(log: Log, h: nat, actions: seq<Action>)
    requires ValidLog(log) && FreshHashes(log) && Run(log, actions).head <= h <= |log|
    ensures Run(log[..h], actions) == Run(log, actions)
  {
    hide Step, Inv, ValidLog, FreshHashes;
    if actions != [] {
      var init, last := actions[..|actions| - 1], actions[|actions| - 1];
      HeadGrows(log, Run(log, init), last);
      RunOnSeen(log, h, init);
      RunInv(log, init);
      StepOnSeen(log, h, Run(log, init), last);
    }
  }

  // ---------- Starting again ----------

  /** A bucket and a marker as some run over this log leaves them while its process is down. */
  ghost predicate Resting(log: Log, kv: Bucket, marker: nat) {
    exists actions :: RestsAfter(log, kv, marker, actions)
  }

  ghost predicate RestsAfter(log: Log, kv: Bucket, marker: nat, actions: seq<Action>) {
    var w := Run(log, actions);
    w.process.Down? && w.head == |log| && w.kv == kv && w.marker == marker
  }

  /** Wherever a run goes down, what it leaves is resting on the part of the log there was by then. */
  lemma DownIsResting(log: Log, actions: seq<Action>)
    requires ValidLog(log) && FreshHashes(log) && Run(log, actions).process.Down?
    ensures var w := Run(log, actions); w.head <= |log| && Resting(log[..w.head], w.kv, w.marker)
  {
    hide Run, Inv;
    var w := Run(log, actions);
    assert w.head <= |log| by { RunHeads(log, actions); }
    RunOnSeen(log, w.head, actions);
    assert RestsAfter(log[..w.head], w.kv, w.marker, actions);
  }

  lemma RunHeads(log: Log, actions: seq<Action>)
    requires ValidLog(log) && FreshHashes(log)
    ensures Run(log, actions).marker <= Run(log, actions).head <= |log|
  {
    RunInv(log, actions);
  }

  /** The next key event is a rotation whose old entry is gone: the guard on which applyOne fails. */
  predicate OldEntryGone(log: Log, marker: nat, kv: Bucket)
    requires marker <= |log|
  {
    var k := NextOf(log, KeyStream, marker);
    k < |log| && log[k].KeyEnv? && log[k].key.Rotated? && log[k].key.previousHash !in kv
  }

  lemma {:induction false} ReplayOthers(p: Proj, log: Log)
    requires NoneBetween(log, KeyStream, 0, |log|)
    ensures Replay(p, log) == p
  {
    if log != [] {
      var init := log[..|log| - 1];
      assert forall j :: 0 <= j < |init| ==> init[j] == log[j];
      ReplayOthers(p, init);
      assert !OfKind(log[|log| - 1], KeyStream);
    }
  }

  /** Markers with no key event between them are alike for what overtakes what. */
  lemma OvertakenFromNext(log: Log, m: nat, k: nat)
    requires m <= k <= |log| && NoneBetween(log, KeyStream, m, k)
    ensures Overtaken(log, m) <==> Overtaken(log, k)
  {
    forall j ensures m <= j < |log| && OvertakenAt(log, m, j) <==> k <= j < |log| && OvertakenAt(log, k, j) {
      if m <= j < |log| && Changes(log[j], log[j].id) {
        var id := log[j].id;
        assert OfKind(log[j], KeyStream);
        SameKeysBetween(log, m, k, id);
        RotatedFromNext(log, m, k, j, id);
      }
    }
  }

  lemma RotatedFromNext(log: Log, m: nat, k: nat, j: nat, id: string)
    requires m <= k <= j <= |log| && NoneBetween(log, KeyStream, m, k)
    ensures RotatedIn(log, m, j, id) <==> RotatedIn(log, k, j, id)
  {
    if RotatedIn(log, m, j, id) {
      var i :| m <= i < j && i < |log| && Rotates(log[i], id);
      assert OfKind(log[i], KeyStream);
      assert k <= i < j;
    }
    if RotatedIn(log, k, j, id) {
      var i :| k <= i < j && i < |log| && Rotates(log[i], id);
      assert m <= i < j;
    }
  }

  /** The old entry is gone exactly when both of the rotation's writes are in the bucket. */
  lemma GoneIffDeleted(log: Log, k: nat, base: Bucket, done: nat)
    requires ValidLog(log) && FreshHashes(log) && k < |log| && log[k].KeyEnv? && IsImage(base, log[..k])
    requires done <= |DueWrites(base, log, k)|
    ensures var kv := ApplyAll(base, DueWrites(base, log, k)[..done]);
            log[k].key.Rotated? && log[k].key.previousHash !in kv <==> DeletedBeforeMarker(log, k, done)
  {
    hide KeyState, IsImage, ValidLog, FreshHashes, DueWrites;
    DueShape(log, k, base);
    CutBucket(base, DueWrites(base, log, k), done);
    KeyEventDecided(log, k);
  }

  /**
   From what any run leaves when it goes down, a start with no failing call recovers iff no change
   after the marker has been overtaken by a rotation and the next event is no rotation whose old entry
   is gone. If it does recover, KEYS is the fold of the log.
   */
  lemma StartRecoversIff(log: Log, kv: Bucket, marker: nat)
    requires ValidLog(log) && FreshHashes(log) && Resting(log, kv, marker)
    ensures marker <= |log|
    ensures var p := Replay(Proj(kv, WarmUp(log), false), log[marker..]);
            && (p.failed <==> Overtaken(log, marker) || OldEntryGone(log, marker, kv))
            && (!p.failed ==> IsImage(p.kv, log))
  {
    hide Run, IsImage, ValidLog, FreshHashes, KeyState, WarmUp, Overtaken, DueWrites;
    var actions :| RestsAfter(log, kv, marker, actions);
    RunHeads(log, actions);
    var base, k, done := MarkerNeverAhead(log, actions);
    var start := Proj(kv, WarmUp(log), false);
    if k == |log| {
      assert NextOf(log, KeyStream, marker) == |log|;
      RestartReachesFoldIff(log, marker, kv);
    } else {
      NextIs(log, KeyStream, marker, k);
      NoKeyEventsBetween(log, marker, k, base);
      CrashRecoversIff(log, k, base, done);
      GoneIffDeleted(log, k, base, done);
      OvertakenFromNext(log, marker, k);
      assert log[marker..] == log[marker..k] + log[k..];
      assert NoneBetween(log[marker..k], KeyStream, 0, k - marker);
      ReplayOthers(start, log[marker..k]);
      ReplaySplit(start, log[marker..k], log[k..]);
    }
  }

  // ---------- A start that does not recover never will ----------

  /** What makes a start stop at j: the event there is overtaken, or it is a rotation whose old entry is gone. */
  predicate StopsAt(log: Log, w: State, j: nat) {
    && w.marker <= j < w.head <= |log|
    && (OvertakenAt(log[..w.head], w.marker, j) || (j == NextOf(log, KeyStream, w.marker) && OldEntryGone(log, w.marker, w.kv)))
  }

  /** No process that could still apply the event at j: one that saw rotation r, and has not got past j. */
  ghost predicate Behind(log: Log, w: State, j: nat, r: nat, id: string) {
    && w.marker <= j < r < w.head <= |log|
    && Changes(log[j], id) && log[j].id == id && Rotates(log[r], id)
    && Exists(log[..w.marker], id) && !RotatedIn(log, w.marker, j, id)
    && (w.process.Up? && !w.process.failed ==>
          && r < w.process.warm && w.process.from <= w.marker
          && Exists(log[..w.process.from], id) && !RotatedIn(log, w.process.from, j, id)
          && (w.process.job.Some? ==> w.process.job.value.k < j))
  }

  lemma NotRotatedWithin(log: Log, lo: nat, hi: nat, lo': nat, hi': nat, id: string)
    requires !RotatedIn(log, lo, hi, id) && lo <= lo' && hi' <= hi
    ensures !RotatedIn(log, lo', hi', id)
  {
  }

  /** Such a process looks the changed key up under a hash that is not stored yet. */
  lemma BehindRefuses(log: Log, w: State, j: nat, r: nat, id: string)
    requires ValidLog(log) && FreshHashes(log) && Inv(log, w) && Behind(log, w, j, r, id)
    requires w.process.Up? && !w.process.failed && InOrder(log, KeyStream, w.marker, j)
    ensures Writes(w.kv, w.process.hashes, id, log[j].key).Err?
  {
    hide KeyState, IsImage, ValidLog, FreshHashes, WarmUp, Base, DueWrites;
    var hashes, base := w.process.hashes, Base(log, j);
    assert j == NextOf(log, KeyStream, w.marker);
    BaseIsImage(log, j);
    StaleHash(log, w, j, r, id);
    LaterHashNotStored(base, log, j, hashes[id]);
    KeyEventDecided(log, j);
    DueShape(log, j, base);
    HashStored(base, log, j, id);
    CutBucket(base, DueWrites(base, log, j), w.cut);
  }

  lemma HashStored(kv: Bucket, log: Log, j: nat, id: string)
    requires ValidLog(log) && j < |log| && IsImage(kv, log[..j]) && Changes(log[j], id)
    ensures KeyState(log[..j], id).hash in kv
  {
    KeyEventDecided(log, j);
    assert LiveKey(log[..j], id);
  }

  lemma StaleHash(log: Log, w: State, j: nat, r: nat, id: string)
    requires ValidLog(log) && FreshHashes(log) && Inv(log, w) && Behind(log, w, j, r, id)
    requires w.process.Up? && !w.process.failed
    ensures id in w.process.hashes && IntroducedIn(log, j, |log|, w.process.hashes[id])
  {
    hide KeyState, IsImage, FreshHashes, BucketOk, JobOk, WarmUp;
    var (from, warm) := (w.process.from, w.process.warm);
    var seen := log[..warm];
    ValidPrefix(log, warm);
    assert MapNow(w.process.hashes, log, from, warm, w.marker, id);
    assert seen[..from] == log[..from] && seen[..j] == log[..j];
    NotRotatedWithin(log, from, j, from, w.marker, id);
    assert forall i :: from <= i < w.marker ==> seen[i] == log[i];
    assert !RotatedIn(seen, from, w.marker, id);
    StillExists(log, w.marker, j, id);
    HashAfter(seen, j, id);
    assert Rotates(seen[r], id);
    assert RotatedIn(seen, j, |seen|, id);
    var i :| j <= i < warm && Introduces(seen[i]) == Some(KeyState(seen, id).hash);
    assert Introduces(log[i]) == Some(KeyState(seen, id).hash);
  }

  lemma StillExists(log: Log, m: nat, k: nat, id: string)
    requires ValidLog(log) && m <= k <= |log| && Exists(log[..m], id)
    ensures Exists(log[..k], id)
  {
    ValidPrefix(log, k);
    assert log[..k][..m] == log[..m];
    ExistsForever(log[..k], m, id);
  }

  lemma StepStaysBehind(log: Log, w: State, a: Action, j: nat, r: nat, id: string)
    requires ValidLog(log) && FreshHashes(log) && Inv(log, w) && Behind(log, w, j, r, id)
    ensures Behind(log, Step(log, w, a), j, r, id)
  {
    hide KeyState, IsImage, WarmUp, Learn, Writes, Inv, FreshHashes, ValidLog;
    match a
    case Deliver(k, readOk) => DeliverStaysBehind(log, w, k, readOk, j, r, id);
    case SaveMarker(outcome) => SaveStaysBehind(log, w, outcome, j, r, id);
    case _ =>
  }

  lemma DeliverStaysBehind(log: Log, w: State, k: nat, readOk: bool, j: nat, r: nat, id: string)
    requires ValidLog(log) && FreshHashes(log) && Inv(log, w) && Behind(log, w, j, r, id)
    ensures Behind(log, DeliverStep(log, w, k, readOk), j, r, id)
  {
    hide KeyState, IsImage, Writes, FreshHashes, ValidLog, BucketOk, JobOk;
    if w.process.Up? && !w.process.failed {
      assert OfKind(log[j], KeyStream);
      if k == j && InOrder(log, KeyStream, w.marker, j) {
        BehindRefuses(log, w, j, r, id);
      }
    }
  }

  lemma SaveStaysBehind(log: Log, w: State, outcome: KvOutcome, j: nat, r: nat, id: string)
    requires ValidLog(log) && FreshHashes(log) && Inv(log, w) && Behind(log, w, j, r, id)
    ensures Behind(log, SaveMarkerStep(log, w, outcome), j, r, id)
  {
    hide KeyState, IsImage, Learn, FreshHashes, BucketOk, ValidLog;
    var w' := SaveMarkerStep(log, w, outcome);
    if w' != w {
      var k := w.process.job.value.k;
      StillExists(log, w.marker, k + 1, id);
      NotRotatedWithin(log, w.marker, j, k + 1, j, id);
    }
  }

  /** The same for a rotation whose old entry is gone: nothing before it writes, and it is refused. */
  ghost predicate Gone(log: Log, w: State, j: nat) {
    && w.marker <= j < w.head <= |log| && NoneBetween(log, KeyStream, w.marker, j)
    && log[j].KeyEnv? && log[j].key.Rotated? && log[j].key.previousHash !in w.kv
    && (w.process.Up? && !w.process.failed && w.process.job.Some? ==> w.process.job.value.k < j)
  }

  lemma StepStaysGone(log: Log, w: State, a: Action, j: nat)
    requires ValidLog(log) && FreshHashes(log) && Inv(log, w) && Gone(log, w, j)
    ensures Gone(log, Step(log, w, a), j)
  {
    hide KeyState, IsImage, WarmUp, Learn, ValidLog, FreshHashes, BucketOk, MapNow;
    assert OfKind(log[j], KeyStream);
    if w.process.Up? && w.process.job.Some? {
      assert !OfKind(log[w.process.job.value.k], KeyStream);
    }
  }

  lemma {:induction false} StepsStayBehind(log: Log, w: State, more: seq<Action>, j: nat, r: nat, id: string)
    requires ValidLog(log) && FreshHashes(log) && Inv(log, w) && Behind(log, w, j, r, id)
    ensures Inv(log, Steps(log, w, more)) && Behind(log, Steps(log, w, more), j, r, id)
  {
    hide Step, Inv, Behind, ValidLog, FreshHashes;
    if more != [] {
      StepsStayBehind(log, w, more[..|more| - 1], j, r, id);
      StepKeepsInv(log, Steps(log, w, more[..|more| - 1]), more[|more| - 1]);
      StepStaysBehind(log, Steps(log, w, more[..|more| - 1]), more[|more| - 1], j, r, id);
    }
  }

  lemma {:induction false} StepsStayGone(log: Log, w: State, more: seq<Action>, j: nat)
    requires ValidLog(log) && FreshHashes(log) && Inv(log, w) && Gone(log, w, j)
    ensures Inv(log, Steps(log, w, more)) && Gone(log, Steps(log, w, more), j)
  {
    hide Step, Inv, Gone, ValidLog, FreshHashes;
    if more != [] {
      StepsStayGone(log, w, more[..|more| - 1], j);
      StepKeepsInv(log, Steps(log, w, more[..|more| - 1]), more[|more| - 1]);
      StepStaysGone(log, Steps(log, w, more[..|more| - 1]), more[|more| - 1], j);
    }
  }

  lemma OvertakenIsBehind(log: Log, w: State, j: nat) returns (r: nat)
    requires w.marker <= j < w.head <= |log| && OvertakenAt(log[..w.head], w.marker, j)
    requires w.process.Down? || w.process.failed
    ensures Behind(log, w, j, r, log[j].id)
  {
    var (seen, id) := (log[..w.head], log[j].id);
    assert seen[..w.marker] == log[..w.marker] && seen[j] == log[j];
    r :| j + 1 <= r < w.head && r < |seen| && Rotates(seen[r], id);
    assert forall i :: w.marker <= i < j ==> seen[i] == log[i];
  }

  /**
   Once a run is down, or has failed, where a start would stop, no restarts, redeliveries or growth of
   the log ever bring the marker past that event. Only a resync, which empties the bucket and sets
   the marker back, is not an action of the run.
   */
  lemma WedgedForGood(log: Log, actions: seq<Action>, more: seq<Action>, j: nat)
    requires ValidLog(log) && FreshHashes(log)
    requires var w := Run(log, actions); (w.process.Down? || w.process.failed) && StopsAt(log, w, j)
    ensures Run(log, actions + more).marker <= j
  {
    hide Step, Inv, ValidLog, FreshHashes, Behind, Gone;
    var w := Run(log, actions);
    RunInv(log, actions);
    RunThenSteps(log, actions, more);
    if OvertakenAt(log[..w.head], w.marker, j) {
      var r := OvertakenIsBehind(log, w, j);
      StepsStayBehind(log, w, more, j, r, log[j].id);
      BehindMarker(log, Steps(log, w, more), j, r, log[j].id);
    } else {
      GoneFromStops(log, w, j);
      StepsStayGone(log, w, more, j);
      GoneMarker(log, Steps(log, w, more), j);
    }
  }

  lemma GoneFromStops(log: Log, w: State, j: nat)
    requires w.marker <= j < w.head <= |log| && (w.process.Down? || w.process.failed)
    requires j == NextOf(log, KeyStream, w.marker) && OldEntryGone(log, w.marker, w.kv)
    ensures Gone(log, w, j)
  {
  }

  lemma BehindMarker(log: Log, w: State, j: nat, r: nat, id: string)
    requires Behind(log, w, j, r, id)
    ensures w.marker <= j
  {
  }

  lemma GoneMarker(log: Log, w: State, j: nat)
    requires Gone(log, w, j)
    ensures w.marker <= j
  {
  }
}
