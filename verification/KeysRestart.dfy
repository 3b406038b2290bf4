/**
 Restarting the KEYS projector from its marker. The warm-up reads the whole log, so the map runs
 ahead of the replay; exactly when an allowlist or limits event is overtaken by a later rotation of
 the same key does the replay fail-stop. A crash between an event's writes is harmless except
 after a rotation deleted the old entry.
 */
module KeysRestart {
  import opened Wrappers
  import opened Cpkv
  import opened EventLog
  import opened ApiKeys
  import opened KeysProjector
  import Slugs

  predicate Changes(e: Envelope, id: string) {
    e.KeyEnv? && e.id == id && (e.key.AllowlistChanged? || e.key.LimitsChanged?)
  }

  predicate Rotates(e: Envelope, id: string) {
    e.KeyEnv? && e.id == id && e.key.Rotated?
  }

  predicate RotatedIn(log: Log, lo: nat, hi: nat, id: string) {
    exists j :: lo <= j < hi && j < |log| && Rotates(log[j], id)
  }

  /**
   The event at k changes a key that existed at the marker m, no rotation since m has corrected the
   map entry, and a later rotation has already moved it on.
   */
  predicate OvertakenAt(log: Log, m: nat, k: nat)
    requires m <= |log|
  {
    && m <= k < |log| && Changes(log[k], log[k].id)
    && Exists(log[..m], log[k].id)
    && !RotatedIn(log, m, k, log[k].id)
    && RotatedIn(log, k + 1, |log|, log[k].id)
  }

  predicate OvertakenBefore(log: Log, m: nat, k: nat)
    requires m <= |log|
  {
    exists j :: m <= j < k && OvertakenAt(log, m, j)
  }

  /** The guard: visible in the log itself before the restart. */
  predicate Overtaken(log: Log, m: nat)
    requires m <= |log|
  {
    OvertakenBefore(log, m, |log|)
  }

  lemma {:induction false} WarmUpKnowsFinalHash(log: Log, id: string)
    requires ValidLog(log) && Exists(log, id)
    ensures Knows(WarmUp(log), log, id)
  {
    var n := |log| - 1;
    ValidPrefix(log, n);
    if Exists(log[..n], id) {
      WarmUpKnowsFinalHash(log[..n], id);
    }
    assert log[..n + 1] == log;
    LearnKeepsKnowing(WarmUp(log[..n]), log, n, id);
  }

  lemma {:induction false} ExistsForever(log: Log, k: nat, id: string)
    requires ValidLog(log) && k <= |log| && Exists(log[..k], id)
    ensures Exists(log, id)
  {
    if k == |log| {
      assert log[..k] == log;
    } else {
      var n := |log| - 1;
      ValidPrefix(log, n);
      assert log[..n][..k] == log[..k];
      ExistsForever(log[..n], k, id);
      KeyEventDecided(log, n);
    }
  }

  /** A key keeps its org, project and name for ever, and once disabled it never changes again. */
  lemma {:induction false} KeyLifeCycle(log: Log, k: nat, id: string)
    requires ValidLog(log) && k <= |log| && Exists(log[..k], id)
    ensures var (was, now) := (KeyState(log[..k], id), KeyState(log, id));
            && (now.id, now.org, now.project, now.name) == (was.id, was.org, was.project, was.name)
            && (was.disabled ==> now == was)
  {
    if k == |log| {
      assert log[..k] == log;
    } else {
      var n := |log| - 1;
      ValidPrefix(log, n);
      assert log[..n][..k] == log[..k];
      KeyLifeCycle(log[..n], k, id);
      ExistsForever(log[..n], k, id);
      KeyEventDecided(log, n);
    }
  }

  /** Without a rotation the hash stays; with one, the final hash was introduced after k. */
  lemma {:induction false} HashAfter(log: Log, k: nat, id: string)
    requires ValidLog(log) && k <= |log| && Exists(log[..k], id)
    ensures !RotatedIn(log, k, |log|, id) ==> KeyState(log, id).hash == KeyState(log[..k], id).hash
    ensures RotatedIn(log, k, |log|, id) ==> IntroducedIn(log, k, |log|, KeyState(log, id).hash)
  {
    if k == |log| {
      assert log[..k] == log;
    } else {
      var n := |log| - 1;
      var init := log[..n];
      ValidPrefix(log, n);
      assert init[..k] == log[..k];
      HashAfter(init, k, id);
      ExistsForever(init, k, id);
      KeyEventDecided(log, n);
      if Rotates(log[n], id) {
        assert Introduces(log[n]) == Some(KeyState(log, id).hash);
      } else if RotatedIn(log, k, |log|, id) {
        var j :| k <= j < |log| && Rotates(log[j], id);
        assert j < n && Rotates(init[j], id);
        var i :| k <= i < n && Introduces(init[i]) == Some(KeyState(init, id).hash);
        assert Introduces(log[i]) == Some(KeyState(log, id).hash);
      } else {
        RotatedInGrows(log, n, k, id);
      }
    }
  }

  lemma RotatedInGrows(log: Log, n: nat, k: nat, id: string)
    requires k <= n <= |log|
    ensures RotatedIn(log[..n], k, n, id) ==> RotatedIn(log, k, |log|, id)
  {
    if RotatedIn(log[..n], k, n, id) {
      var j :| k <= j < n && Rotates(log[..n][j], id);
      assert Rotates(log[j], id);
    }
  }

  /** What the map says of a key during a restarted replay: the warm-up's final hash until a rotation corrects it. */
  predicate MapAt(hashes: HashMap, log: Log, m: nat, k: nat, id: string)
    requires m <= k <= |log|
  {
    if Exists(log[..m], id) && !RotatedIn(log, m, k, id)
    then id in hashes && hashes[id] == KeyState(log, id).hash
    else Knows(hashes, log[..k], id)
  }

  ghost predicate OnTrack(p: Proj, log: Log, m: nat, k: nat)
    requires m <= k <= |log|
  {
    && !p.failed
    && IsImage(p.kv, log[..k])
    && forall id :: Exists(log[..k], id) ==> MapAt(p.hashes, log, m, k, id)
  }

  lemma RotatedInNext(log: Log, m: nat, k: nat, id: string)
    requires m <= k < |log|
    ensures RotatedIn(log, m, k + 1, id) <==> RotatedIn(log, m, k, id) || Rotates(log[k], id)
  {
    if RotatedIn(log, m, k, id) {
      var j :| m <= j < k && Rotates(log[j], id);
      assert m <= j < k + 1;
    }
  }

  lemma MapAfter(hashes: HashMap, log: Log, m: nat, k: nat, id: string)
    requires ValidLog(log) && m <= k < |log|
    requires Exists(log[..k + 1], id) && (Exists(log[..k], id) ==> MapAt(hashes, log, m, k, id))
    ensures MapAt(Learn(hashes, log[k]), log, m, k + 1, id)
  {
    StateAfter(log, k, id);
    KeyEventDecided(log, k);
    ValidPrefix(log, k);
    if Exists(log[..m], id) {
      assert log[..k][..m] == log[..m];
      ExistsForever(log[..k], m, id);
    }
    RotatedInNext(log, m, k, id);
  }

  /** A hash introduced later is not in the bucket yet. */
  lemma LaterHashNotStored(kv: Bucket, log: Log, k: nat, hash: string)
    requires ValidLog(log) && FreshHashes(log) && k <= |log| && IsImage(kv, log[..k])
    requires IntroducedIn(log, k, |log|, hash)
    ensures hash !in kv
  {
    if hash in kv {
      assert LiveKey(log[..k], kv[hash].id);
      NewHashIsNew(log, k, kv[hash].id, hash);
    }
  }

  /** An allowlist or limits event finds its entry iff it is not overtaken. */
  lemma ChangeFindsEntryIff(p: Proj, log: Log, m: nat, k: nat)
    requires ValidLog(log) && FreshHashes(log) && m <= k < |log| && OnTrack(p, log, m, k)
    requires Changes(log[k], log[k].id)
    ensures OvertakenAt(log, m, k) ==> log[k].id in p.hashes && p.hashes[log[k].id] !in p.kv
    ensures !OvertakenAt(log, m, k) ==> Knows(p.hashes, log[..k], log[k].id)
  {
    var id := log[k].id;
    KeyEventDecided(log, k);
    assert MapAt(p.hashes, log, m, k, id);
    HashAfter(log, k, id);
    assert RotatedIn(log, k, |log|, id) <==> RotatedIn(log, k + 1, |log|, id) by {
      if RotatedIn(log, k, |log|, id) {
        var j :| k <= j < |log| && Rotates(log[j], id);
        assert j != k;
      }
      if RotatedIn(log, k + 1, |log|, id) {
        var j :| k + 1 <= j < |log| && Rotates(log[j], id);
      }
    }
    if RotatedIn(log, k, |log|, id) {
      LaterHashNotStored(p.kv, log, k, KeyState(log, id).hash);
    }
  }

  /** One step of the restarted replay: it fails if the event is overtaken, else it stays on track. */
  lemma RestartStep(p: Proj, log: Log, m: nat, k: nat)
    requires ValidLog(log) && FreshHashes(log) && m <= k < |log| && OnTrack(p, log, m, k)
    ensures OvertakenAt(log, m, k) ==> ApplyOne(p, log[k]).failed
    ensures !OvertakenAt(log, m, k) ==> OnTrack(ApplyOne(p, log[k]), log, m, k + 1)
  {
    if Changes(log[k], log[k].id) {
      ChangeFindsEntryIff(p, log, m, k);
    }
    if !OvertakenAt(log, m, k) {
      EventKeepsImage(p, log, k);
      var next := log[..k + 1];
      forall id | Exists(next, id) ensures MapAt(ApplyOne(p, log[k]).hashes, log, m, k + 1, id) {
        MapAfter(p.hashes, log, m, k, id);
      }
    }
  }

  /** A projector starting at marker m on a given bucket, warmed up with the whole log, replaying up to k. */
  function RestartTo(log: Log, m: nat, kv: Bucket, k: nat): Proj
    requires m <= k <= |log|
  {
    Replay(Proj(kv, WarmUp(log), false), log[m..k])
  }

  lemma RestartToNext(log: Log, m: nat, kv: Bucket, k: nat)
    requires m <= k < |log|
    ensures RestartTo(log, m, kv, k + 1) == ApplyOne(RestartTo(log, m, kv, k), log[k])
  {
    assert log[m..k + 1][..k - m] == log[m..k];
  }

  lemma OvertakenBeforeNext(log: Log, m: nat, k: nat)
    requires m <= k < |log|
    ensures OvertakenBefore(log, m, k + 1) <==> OvertakenBefore(log, m, k) || OvertakenAt(log, m, k)
  {
  }

  lemma StartsOnTrack(log: Log, m: nat, kv: Bucket)
    requires ValidLog(log) && m <= |log| && IsImage(kv, log[..m])
    ensures OnTrack(Proj(kv, WarmUp(log), false), log, m, m)
  {
    forall id | Exists(log[..m], id) ensures MapAt(WarmUp(log), log, m, m, id) {
      ExistsForever(log, m, id);
      WarmUpKnowsFinalHash(log, id);
    }
  }

  /** Either an overtaken event has stopped the projector, or it is still on track. */
  ghost predicate RestartState(p: Proj, log: Log, m: nat, k: nat)
    requires m <= k <= |log|
  {
    if OvertakenBefore(log, m, k) then p.failed else OnTrack(p, log, m, k)
  }

  lemma RestartStateStart(log: Log, m: nat, kv: Bucket)
    requires ValidLog(log) && m <= |log| && IsImage(kv, log[..m])
    ensures RestartState(RestartTo(log, m, kv, m), log, m, m)
  {
    assert log[m..m] == [];
    StartsOnTrack(log, m, kv);
  }

  lemma RestartStateNext(p: Proj, log: Log, m: nat, k: nat)
    requires ValidLog(log) && FreshHashes(log) && m <= k < |log| && RestartState(p, log, m, k)
    ensures RestartState(ApplyOne(p, log[k]), log, m, k + 1)
  {
    OvertakenBeforeNext(log, m, k);
    if !OvertakenBefore(log, m, k) {
      RestartStep(p, log, m, k);
    }
  }

  lemma {:induction false} RestartUpTo(log: Log, m: nat, kv: Bucket, k: nat)
    requires ValidLog(log) && FreshHashes(log) && m <= k <= |log| && IsImage(kv, log[..m])
    ensures RestartState(RestartTo(log, m, kv, k), log, m, k)
    decreases k
  {
    hide ApplyOne, WarmUp, OvertakenBefore, OnTrack, IsImage, RestartState, FreshHashes, ValidLog;
    if k == m {
      RestartStateStart(log, m, kv);
    } else {
      RestartUpTo(log, m, kv, k - 1);
      RestartToNext(log, m, kv, k - 1);
      RestartStateNext(RestartTo(log, m, kv, k - 1), log, m, k - 1);
    }
  }

  /**
   Restarting at marker m with KEYS equal to the fold of the first m events reaches the fold of
   the whole log iff no event after m is overtaken; otherwise the projector fail-stops.
   */
  lemma RestartReachesFoldIff(log: Log, m: nat, kv: Bucket)
    requires ValidLog(log) && FreshHashes(log) && m <= |log| && IsImage(kv, log[..m])
    ensures var p := Replay(Proj(kv, WarmUp(log), false), log[m..]);
            && (p.failed <==> Overtaken(log, m))
            && (!p.failed ==> IsImage(p.kv, log))
  {
    RestartUpTo(log, m, kv, |log|);
    assert log[m..|log|] == log[m..] && log[..|log|] == log;
  }

  // ---------- A crash between the writes of one event ----------

  /** The writes the event at k calls for, its map entry being right. */
  function DueWrites(kv: Bucket, log: Log, k: nat): seq<Write>
    requires k < |log| && log[k].KeyEnv?
  {
    var id := log[k].id;
    match Writes(kv, map[id := KeyState(log[..k], id).hash], id, log[k].key)
    case Ok(ws) => ws
    case Err(_) => []
  }

  /** After a rotation has deleted the old entry but before its marker is saved, redoing it fails. */
  predicate DeletedBeforeMarker(log: Log, k: nat, done: nat)
    requires k < |log|
  {
    log[k].KeyEnv? && log[k].key.Rotated? && done == 2
  }

  /** The planned writes of a key event: one, or two for a rotation. */
  lemma DueShape(log: Log, k: nat, kv: Bucket)
    requires ValidLog(log) && FreshHashes(log) && k < |log| && log[k].KeyEnv? && IsImage(kv, log[..k])
    ensures var ws := DueWrites(kv, log, k);
            var (id, s) := (log[k].id, KeyState(log[..k], log[k].id));
            && (!log[k].key.Rotated? ==> |ws| == 1)
            && (Changes(log[k], id) ==> ws[0].Put? && ws[0].hash == s.hash)
            && (log[k].key.Rotated? ==>
                  && s.hash in kv && log[k].key.newHash != s.hash
                  && ws == [Put(log[k].key.newHash, kv[s.hash].(id := id)), Del(s.hash)])
  {
    var (id, e) := (log[k].id, log[k].key);
    var s := KeyState(log[..k], id);
    KeyEventDecided(log, k);
    ValidPrefix(log, k);
    FreshPrefix(log, k);
    if !e.Created? {
      assert LiveKey(log[..k], id);
      HashesApart(log[..k], id, id);
    }
    if e.Rotated? {
      NewHashIsNewHere(log, k);
      var entry := kv[s.hash].(id := id);
      assert [Put(e.newHash, entry)] + Deletion(s.hash) == [Put(e.newHash, entry), Del(s.hash)];
    }
  }

  lemma CutBucket(kv: Bucket, ws: seq<Write>, cut: nat)
    requires 1 <= |ws| <= 2 && cut <= |ws|
    ensures cut == 0 ==> ApplyAll(kv, ws[..cut]) == kv
    ensures cut == 1 ==> ApplyAll(kv, ws[..cut]) == Apply(kv, ws[0])
    ensures cut == 2 ==> ApplyAll(kv, ws[..cut]) == Apply(Apply(kv, ws[0]), ws[1])
  {
    if cut == 1 {
      assert ws[..1] == [ws[0]];
      ApplyTwo(kv, ws[0], ws[0]);
    } else if cut == 2 {
      assert ws[..2] == [ws[0], ws[1]];
      ApplyTwo(kv, ws[0], ws[1]);
    }
  }

  lemma RedoRotation(log: Log, k: nat, kv: Bucket, done: nat, hashes: HashMap)
    requires ValidLog(log) && FreshHashes(log) && k < |log| && log[k].KeyEnv? && log[k].key.Rotated? && IsImage(kv, log[..k])
    requires done <= |DueWrites(kv, log, k)|
    ensures var cut := ApplyAll(kv, DueWrites(kv, log, k)[..done]);
            if done == 2 then ApplyOne(Proj(cut, hashes, false), log[k]).failed
            else ApplyOne(Proj(cut, hashes, false), log[k]) == ApplyOne(Proj(kv, hashes, false), log[k])
  {
    hide KeyState, IsImage, FreshHashes, ValidLog;
    var ws := DueWrites(kv, log, k);
    KeyEventDecided(log, k);
    DueShape(log, k, kv);
    CutBucket(kv, ws, done);
    if done == 1 {
      var cut := Apply(kv, ws[0]);
      ApplyTwo(kv, ws[0], ws[1]);
      ApplyTwo(cut, ws[0], ws[1]);
      assert Apply(cut, ws[0]) == cut;
    }
  }

  /** Where an event's writes were cut short, redoing it either fails (rotation, old entry gone) or is a no-op. */
  lemma RedoIsNoOpIff(log: Log, k: nat, kv: Bucket, done: nat, hashes: HashMap)
    requires ValidLog(log) && FreshHashes(log) && k < |log| && log[k].KeyEnv? && IsImage(kv, log[..k])
    requires Changes(log[k], log[k].id) ==> Knows(hashes, log[..k], log[k].id)
    requires done <= |DueWrites(kv, log, k)|
    ensures var cut := ApplyAll(kv, DueWrites(kv, log, k)[..done]);
            if DeletedBeforeMarker(log, k, done)
            then ApplyOne(Proj(cut, hashes, false), log[k]).failed
            else ApplyOne(Proj(cut, hashes, false), log[k]) == ApplyOne(Proj(kv, hashes, false), log[k])
  {
    hide KeyState, FreshHashes, ValidLog;
    if log[k].key.Rotated? {
      RedoRotation(log, k, kv, done, hashes);
    } else {
      var id, ws := log[k].id, DueWrites(kv, log, k);
      KeyEventDecided(log, k);
      assert !log[k].key.Created? ==> LiveKey(log[..k], id);
      DueShape(log, k, kv);
      CutBucket(kv, ws, done);
      if done == 1 {
        assert Writes(kv, hashes, id, log[k].key) == Ok([ws[0]]);
        RedoSingle(kv, hashes, id, log[k].key, ws[0]);
        ApplyTwo(kv, ws[0], ws[0]);
      }
    }
  }

  lemma NewHashIsNewHere(log: Log, k: nat)
    requires ValidLog(log) && FreshHashes(log) && k < |log| && log[k].KeyEnv? && log[k].key.Rotated?
    ensures log[k].key.newHash != KeyState(log[..k], log[k].id).hash
  {
    KeyEventDecided(log, k);
    assert Introduces(log[k]) == Some(log[k].key.newHash);
    NewHashIsNew(log, k, log[k].id, log[k].key.newHash);
  }

  /** An event with one write does the same again on a bucket that already has that write. */
  lemma RedoSingle(kv: Bucket, hashes: HashMap, id: string, e: KeyEvent, w: Write)
    requires !e.Rotated? && Writes(kv, hashes, id, e) == Ok([w])
    ensures Writes(Apply(kv, w), hashes, id, e).Ok?
    ensures ApplyAll(Apply(kv, w), Writes(Apply(kv, w), hashes, id, e).value) == Apply(kv, w)
  {
    var kv' := Apply(kv, w);
    var w' := Writes(kv', hashes, id, e).value[0];
    assert Writes(kv', hashes, id, e).value == [w'];
    ApplyTwo(kv', w', w');
    assert Apply(kv', w') == kv';
  }

  // ---------- Crash, restart, and the events that follow ----------

  lemma ReplayFront(p: Proj, e: Envelope, rest: Log)
    ensures Replay(p, [e] + rest) == Replay(ApplyOne(p, e), rest)
  {
    assert [e][..0] == [];
    ReplaySplit(p, [e], rest);
  }

  lemma {:induction false} FailureIsSticky(p: Proj, log: Log)
    requires p.failed
    ensures Replay(p, log) == p
  {
    if log != [] {
      FailureIsSticky(p, log[..|log| - 1]);
    }
  }

  /**
   A process that died with done of event k's writes applied, its marker at k, recovers on restart
   iff no event from k on is overtaken and k is not a rotation whose old entry is already gone.
   */
  lemma CrashRecoversIff(log: Log, k: nat, kv: Bucket, done: nat)
    requires ValidLog(log) && FreshHashes(log) && k < |log| && log[k].KeyEnv? && IsImage(kv, log[..k])
    requires done <= |DueWrites(kv, log, k)|
    ensures var cut := ApplyAll(kv, DueWrites(kv, log, k)[..done]);
            var p := Replay(Proj(cut, WarmUp(log), false), log[k..]);
            && (p.failed <==> Overtaken(log, k) || DeletedBeforeMarker(log, k, done))
            && (!p.failed ==> IsImage(p.kv, log))
  {
    hide KeyState, IsImage, FreshHashes, ValidLog;
    var cut := ApplyAll(kv, DueWrites(kv, log, k)[..done]);
    var (whole, resumed) := (Proj(kv, WarmUp(log), false), Proj(cut, WarmUp(log), false));
    assert log[k..] == [log[k]] + log[k + 1..];
    ReplayFront(whole, log[k], log[k + 1..]);
    ReplayFront(resumed, log[k], log[k + 1..]);
    RestartReachesFoldIff(log, k, kv);
    StartsOnTrack(log, k, kv);
    if Changes(log[k], log[k].id) {
      ChangeFindsEntryIff(whole, log, k, k);
    }
    if OvertakenAt(log, k, k) {
      OvertakenNotStored(log, k, kv, done);
      FailureIsSticky(ApplyOne(resumed, log[k]), log[k + 1..]);
    } else {
      RedoIsNoOpIff(log, k, kv, done, WarmUp(log));
      if DeletedBeforeMarker(log, k, done) {
        FailureIsSticky(ApplyOne(resumed, log[k]), log[k + 1..]);
      }
    }
  }

  /** Redoing an overtaken event fails as well: its writes never touch the final hash. */
  lemma OvertakenNotStored(log: Log, k: nat, kv: Bucket, done: nat)
    requires ValidLog(log) && FreshHashes(log) && k < |log| && log[k].KeyEnv? && IsImage(kv, log[..k])
    requires OvertakenAt(log, k, k) && done <= |DueWrites(kv, log, k)|
    ensures ApplyOne(Proj(ApplyAll(kv, DueWrites(kv, log, k)[..done]), WarmUp(log), false), log[k]).failed
  {
    var id := log[k].id;
    var ws := DueWrites(kv, log, k);
    StartsOnTrack(log, k, kv);
    ChangeFindsEntryIff(Proj(kv, WarmUp(log), false), log, k, k);
    ValidPrefix(log, k);
    KeyEventDecided(log, k);
    assert LiveKey(log[..k], id);
    assert KeyState(log[..k], id).hash in kv;
    assert ws[..0] == [] && ws[..|ws|] == ws;
    ApplyTwo(kv, ws[0], ws[0]);
  }

  /** Once the replay has caught up with what the warm-up saw, the map is right for every key. */
  lemma CaughtUpIsCurrent(p: Proj, log: Log, m: nat, h: nat)
    requires m <= h <= |log| && OnTrack(p, log[..h], m, h)
    ensures Current(p, log, h)
  {
    var seen := log[..h];
    assert seen[..h] == seen;
    forall id | Exists(seen, id) ensures Knows(p.hashes, seen, id) {
      assert MapAt(p.hashes, seen, m, h, id);
    }
  }

  lemma RestartUpToSeen(log: Log, m: nat, h: nat, kv: Bucket)
    requires ValidLog(log) && FreshHashes(log) && m <= h <= |log| && IsImage(kv, log[..m])
    ensures var p := Replay(Proj(kv, WarmUp(log[..h]), false), log[m..h]);
            && (p.failed <==> Overtaken(log[..h], m))
            && (!p.failed ==> Current(p, log, h))
  {
    var seen := log[..h];
    ValidPrefix(log, h);
    FreshPrefix(log, h);
    assert seen[..m] == log[..m] && seen[m..h] == log[m..h];
    RestartUpTo(seen, m, kv, h);
    var p := RestartTo(seen, m, kv, h);
    if !OvertakenBefore(seen, m, h) {
      CaughtUpIsCurrent(p, log, m, h);
    }
  }

  /**
   The same with the log still growing: the warm-up saw its first h events, the rest arrive later.
   Only an overtaking within those h matters; what arrives live is always applied.
   */
  lemma RestartThenLiveIff(log: Log, m: nat, h: nat, kv: Bucket)
    requires ValidLog(log) && FreshHashes(log) && m <= h <= |log| && IsImage(kv, log[..m])
    ensures var p := Replay(Proj(kv, WarmUp(log[..h]), false), log[m..]);
            && (p.failed <==> Overtaken(log[..h], m))
            && (!p.failed ==> IsImage(p.kv, log))
  {
    hide KeyState, IsImage, Overtaken, ApplyOne, FreshHashes, ValidLog;
    var start := Proj(kv, WarmUp(log[..h]), false);
    RestartUpToSeen(log, m, h, kv);
    var p := Replay(start, log[m..h]);
    ReplaySplit(start, log[m..h], log[h..]);
    assert log[m..h] + log[h..] == log[m..];
    if p.failed {
      FailureIsSticky(p, log[h..]);
    } else {
      CurrentStretch(p, log, h, |log|);
      assert log[h..|log|] == log[h..] && log[..|log|] == log;
    }
  }

  lemma {:induction false} ReplaySplit(p: Proj, first: Log, rest: Log)
    ensures Replay(p, first + rest) == Replay(Replay(p, first), rest)
  {
    if rest == [] {
      assert first + rest == first;
    } else {
      var n := |rest| - 1;
      ReplaySplit(p, first, rest[..n]);
      assert (first + rest)[..|first| + n] == first + rest[..n];
    }
  }

  // ---------- The failure is real ----------

  const CREATED := KeyEnv("k", Created("k", "o", "p", "n", "h1", [], 0, 0))
  const CHANGED := KeyEnv("k", AllowlistChanged(["m"]))
  const ROTATED := KeyEnv("k", Rotated("h2", "h1"))

  /** Appending what a command emits keeps a log valid. */
  lemma ExtendWith(log: Log, c: Command, e: Envelope)
    requires ValidLog(log) && Issued(c) && Emission(log, c) == [e]
    ensures ValidLog(log + [e])
  {
    ValidExtend(log, c);
  }

  lemma PlainIsSlug()
    ensures Slugs.ValidSlug("o")
  {
    Slugs.SlugFixpointIff("o");
  }

  lemma EmptyIsValid()
    ensures ValidLog([])
  {
  }

  lemma WedgeLogIsValid()
    ensures ValidLog([CREATED]) && ValidLog([CREATED, CHANGED]) && ValidLog([CREATED, CHANGED, ROTATED])
    ensures Exists([CREATED], "k")
  {
    hide Slugs.ValidSlug, ValidLog;
    PlainIsSlug();
    EmptyIsValid();
    ExtendWith([], KeyCmd("k", Create("k", "o", "p", "n", "h1", [], 0, 0)), CREATED);
    assert [] + [CREATED] == [CREATED] && [CREATED][..0] == [];
    assert KeyState([CREATED], "k") == Evolve(NO_KEY, CREATED.key);
    ExtendWith([CREATED], KeyCmd("k", SetAllowlist(["m"])), CHANGED);
    assert [CREATED] + [CHANGED] == [CREATED, CHANGED] && [CREATED, CHANGED][..1] == [CREATED];
    assert KeyState([CREATED, CHANGED], "k") == Evolve(KeyState([CREATED], "k"), CHANGED.key);
    ExtendWith([CREATED, CHANGED], KeyCmd("k", Rotate("h2")), ROTATED);
    assert [CREATED, CHANGED] + [ROTATED] == [CREATED, CHANGED, ROTATED];
  }

  /** A key is created; while the projector is down its allowlist changes and it is rotated. */
  lemma RestartCanWedge() returns (log: Log, kv: Bucket)
    ensures |log| == 3 && ValidLog(log) && FreshHashes(log) && IsImage(kv, log[..1])
    ensures Replay(Proj(kv, WarmUp(log), false), log[1..]).failed
  {
    hide KeyState, Replay, WarmUp, ValidLog, IsImage;
    WedgeLogIsValid();
    log := [CREATED, CHANGED, ROTATED];
    assert log[..1] == [CREATED];
    FreshPrefix(log, 1);
    ReplayFromStart(log[..1], map[]);
    kv := Replay(Proj(map[], map[], false), log[..1]).kv;
    assert Changes(log[1], "k") && Rotates(log[2], "k");
    assert OvertakenAt(log, 1, 1);
    RestartReachesFoldIff(log, 1, kv);
  }
}
