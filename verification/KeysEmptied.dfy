/**
 Starting the KEYS projector on a bucket that was emptied while its marker was not: what ResyncKV leaves
 when it is cut short between destroying the buckets and setting the markers back. Nothing before the
 marker is replayed, so the keys that existed by then are simply not there.
 */
module KeysEmptied {
  import opened EventLog
  import opened KeysProjector
  import opened KeysRestart
  import R = KeysRuns

  /** The entries of the keys created since m. */
  function Young(kv: Bucket, log: Log, m: nat): Bucket
    requires m <= |log|
  {
    map h | h in kv && !Exists(log[..m], kv[h].id) :: kv[h]
  }

  /** The event at k needs the entry of a key that existed at m. */
  predicate NeedsOldAt(log: Log, m: nat, k: nat)
    requires m <= |log|
  {
    && m <= k < |log| && log[k].KeyEnv? && Exists(log[..m], log[k].id)
    && (Changes(log[k], log[k].id) || Rotates(log[k], log[k].id))
  }

  predicate NeedsOldBefore(log: Log, m: nat, k: nat)
    requires m <= |log|
  {
    exists j :: m <= j < k && NeedsOldAt(log, m, j)
  }

  predicate NeedsOld(log: Log, m: nat)
    requires m <= |log|
  {
    NeedsOldBefore(log, m, |log|)
  }

  /** Every key that existed at m has been disabled since, or was before. */
  ghost predicate OldAreDead(log: Log, m: nat)
    requires m <= |log|
  {
    forall id :: Exists(log[..m], id) ==> !LiveKey(log, id)
  }

  // ---------- Taking the young entries commutes with an event ----------

  predicate PutsYoung(w: Write, log: Log, m: nat)
    requires m <= |log|
  {
    w.Put? ==> !Exists(log[..m], w.entry.id)
  }

  lemma YoungApplies(kv: Bucket, w: Write, log: Log, m: nat)
    requires m <= |log| && PutsYoung(w, log, m)
    ensures Young(Apply(kv, w), log, m) == Apply(Young(kv, log, m), w)
  {
    hide Exists;
  }

  lemma {:induction false} YoungAppliesAll(kv: Bucket, ws: seq<Write>, log: Log, m: nat)
    requires m <= |log| && forall i :: 0 <= i < |ws| ==> PutsYoung(ws[i], log, m)
    ensures Young(ApplyAll(kv, ws), log, m) == ApplyAll(Young(kv, log, m), ws)
  {
    hide Young, Apply, PutsYoung;
    if ws != [] {
      YoungAppliesAll(kv, ws[..|ws| - 1], log, m);
      YoungApplies(ApplyAll(kv, ws[..|ws| - 1]), ws[|ws| - 1], log, m);
    }
  }

  /** An event that needs no old entry plans the same writes on the young entries as on all of them. */
  lemma SameWrites(kv: Bucket, hashes: HashMap, log: Log, m: nat, k: nat)
    requires ValidLog(log) && m <= k < |log| && log[k].KeyEnv? && !NeedsOldAt(log, m, k) && IsImage(kv, log[..k])
    requires Changes(log[k], log[k].id) ==> Knows(hashes, log[..k], log[k].id)
    ensures var (all, young) := (Writes(kv, hashes, log[k].id, log[k].key), Writes(Young(kv, log, m), hashes, log[k].id, log[k].key));
            && all.Ok? && young == all
            && forall i :: 0 <= i < |all.value| ==> PutsYoung(all.value[i], log, m)
  {
    hide KeyState, ValidLog;
    KeyEventDecided(log, k);
    var id := log[k].id;
    if log[k].key.Created? {
      CreatedIsYoung(log, m, k);
    } else {
      assert LiveKey(log[..k], id);
    }
  }

  lemma CreatedIsYoung(log: Log, m: nat, k: nat)
    requires ValidLog(log) && m <= k < |log| && log[k].KeyEnv? && log[k].key.Created?
    ensures !Exists(log[..m], log[k].id)
  {
    KeyEventDecided(log, k);
    if Exists(log[..m], log[k].id) {
      ValidPrefix(log, k);
      assert log[..k][..m] == log[..m];
      ExistsForever(log[..k], m, log[k].id);
    }
  }

  /** The final hash of an old key is not among the young entries. */
  lemma OldHashNotYoung(kv: Bucket, log: Log, m: nat, k: nat, id: string)
    requires ValidLog(log) && FreshHashes(log) && m <= k <= |log| && IsImage(kv, log[..k])
    requires Exists(log[..m], id)
    ensures KeyState(log, id).hash !in Young(kv, log, m)
  {
    hide KeyState;
    var h := KeyState(log, id).hash;
    if h in Young(kv, log, m) {
      assert LiveKey(log[..k], kv[h].id);
      ValidPrefix(log, k);
      ExistsForever(log, m, id);
      var i := CurrentHashIntroduced(log[..k], kv[h].id);
      var j := CurrentHashIntroduced(log, id);
    }
  }

  /** An event that needs an old entry does not find it. */
  lemma OldIsMissing(kv: Bucket, hashes: HashMap, log: Log, m: nat, k: nat)
    requires ValidLog(log) && FreshHashes(log) && m <= k < |log| && NeedsOldAt(log, m, k) && IsImage(kv, log[..k])
    requires log[k].id in hashes && hashes[log[k].id] == KeyState(log, log[k].id).hash
    ensures Writes(Young(kv, log, m), hashes, log[k].id, log[k].key).Err?
  {
    hide KeyState, ValidLog, FreshHashes;
    KeyEventDecided(log, k);
    OldHashNotYoung(kv, log, m, k, log[k].id);
    if log[k].key.Rotated? {
      assert LiveKey(log[..k], log[k].id);
    }
  }

  // ---------- The replay ----------

  /** The bucket holds the young entries of the fold, and the map is where a restarted replay has it. */
  ghost predicate OnlyYoung(p: Proj, log: Log, m: nat, k: nat)
    requires m <= k <= |log|
  {
    && !p.failed
    && p.kv == Young(R.Base(log, k), log, m)
    && forall id :: Exists(log[..k], id) ==> MapAt(p.hashes, log, m, k, id)
  }

  ghost predicate EmptiedState(p: Proj, log: Log, m: nat, k: nat)
    requires m <= k <= |log|
  {
    if NeedsOldBefore(log, m, k) then p.failed else OnlyYoung(p, log, m, k)
  }

  lemma EmptiedStart(log: Log, m: nat)
    requires ValidLog(log) && FreshHashes(log) && m <= |log|
    ensures OnlyYoung(Proj(map[], WarmUp(log), false), log, m, m)
  {
    hide KeyState, WarmUp, ValidLog, FreshHashes, R.Base;
    var base := R.Base(log, m);
    R.BaseIsImage(log, m);
    StartsOnTrack(log, m, base);
    forall h | h in base ensures Exists(log[..m], base[h].id) {
      assert LiveKey(log[..m], base[h].id);
    }
  }

  /** Without a failure so far, an old key has not been rotated, and any other's entry in the map is right. */
  lemma MapOfEvent(hashes: HashMap, log: Log, m: nat, k: nat)
    requires ValidLog(log) && m <= k < |log| && log[k].KeyEnv? && !log[k].key.Created? && !NeedsOldBefore(log, m, k)
    requires forall id :: Exists(log[..k], id) ==> MapAt(hashes, log, m, k, id)
    ensures var id := log[k].id;
            && id in hashes
            && hashes[id] == KeyState(if Exists(log[..m], id) then log else log[..k], id).hash
  {
    var id := log[k].id;
    KeyEventDecided(log, k);
    assert MapAt(hashes, log, m, k, id);
    if Exists(log[..m], id) && RotatedIn(log, m, k, id) {
      var j :| m <= j < k && j < |log| && Rotates(log[j], id);
      assert NeedsOldAt(log, m, j);
    }
  }

  lemma BaseAfter(log: Log, k: nat, hashes: HashMap)
    requires ValidLog(log) && FreshHashes(log) && k < |log| && log[k].KeyEnv?
    requires Changes(log[k], log[k].id) ==> Knows(hashes, log[..k], log[k].id)
    ensures R.Base(log, k + 1) == ApplyOne(Proj(R.Base(log, k), hashes, false), log[k]).kv
    ensures Writes(R.Base(log, k), hashes, log[k].id, log[k].key).Ok?
  {
    hide R.Base, ValidLog, FreshHashes, KeyState, IsImage;
    R.BaseIsImage(log, k);
    R.BaseIsImage(log, k + 1);
    var p := Proj(R.Base(log, k), hashes, false);
    EventKeepsImage(p, log, k);
    ImageUnique(R.Base(log, k + 1), ApplyOne(p, log[k]).kv, log[..k + 1]);
  }

  /** The event at k that needs no old entry does to the young entries what it does to all of them. */
  lemma YoungEvent(p: Proj, log: Log, m: nat, k: nat)
    requires ValidLog(log) && FreshHashes(log) && m <= k < |log| && OnlyYoung(p, log, m, k)
    requires log[k].KeyEnv? && !NeedsOldBefore(log, m, k + 1)
    ensures var q := ApplyOne(p, log[k]);
            !q.failed && q.hashes == Learn(p.hashes, log[k]) && q.kv == Young(R.Base(log, k + 1), log, m)
  {
    hide R.Base, ValidLog, FreshHashes, KeyState, IsImage, Young, Writes, PutsYoung, Learn, MapAt;
    assert !NeedsOldAt(log, m, k);
    if Changes(log[k], log[k].id) {
      MapOfEvent(p.hashes, log, m, k);
    }
    R.BaseIsImage(log, k);
    SameWrites(R.Base(log, k), p.hashes, log, m, k);
    BaseAfter(log, k, p.hashes);
    YoungAppliesAll(R.Base(log, k), Writes(p.kv, p.hashes, log[k].id, log[k].key).value, log, m);
  }

  lemma EmptiedNext(p: Proj, log: Log, m: nat, k: nat)
    requires ValidLog(log) && FreshHashes(log) && m <= k < |log| && EmptiedState(p, log, m, k)
    ensures EmptiedState(ApplyOne(p, log[k]), log, m, k + 1)
  {
    hide R.Base, ValidLog, FreshHashes, KeyState, IsImage, Young, Writes, Learn, MapAt, ApplyOne;
    if NeedsOldBefore(log, m, k) {
      StaysFailed(p, log[k]);
      var j :| m <= j < k && NeedsOldAt(log, m, j);
      assert NeedsOldBefore(log, m, k + 1);
    } else if NeedsOldAt(log, m, k) {
      MapOfEvent(p.hashes, log, m, k);
      R.BaseIsImage(log, k);
      OldIsMissing(R.Base(log, k), p.hashes, log, m, k);
      RefusedFails(p, log[k]);
    } else {
      assert !NeedsOldBefore(log, m, k + 1);
      YoungKept(p, log, m, k);
    }
  }

  lemma StaysFailed(p: Proj, e: Envelope)
    requires p.failed
    ensures ApplyOne(p, e).failed
  {
  }

  lemma RefusedFails(p: Proj, e: Envelope)
    requires e.KeyEnv? && Writes(p.kv, p.hashes, e.id, e.key).Err?
    ensures ApplyOne(p, e).failed
  {
  }

  lemma YoungKept(p: Proj, log: Log, m: nat, k: nat)
    requires ValidLog(log) && FreshHashes(log) && m <= k < |log| && OnlyYoung(p, log, m, k) && !NeedsOldBefore(log, m, k + 1)
    ensures OnlyYoung(ApplyOne(p, log[k]), log, m, k + 1)
  {
    hide R.Base, ValidLog, FreshHashes, KeyState, IsImage, Young, Writes, MapAt;
    if log[k].KeyEnv? {
      YoungEvent(p, log, m, k);
    } else {
      R.BaseSkipsOthers(log, k, k + 1);
    }
    var after := log[..k + 1];
    forall id | Exists(after, id) ensures MapAt(ApplyOne(p, log[k]).hashes, log, m, k + 1, id) {
      MapAfter(p.hashes, log, m, k, id);
    }
  }

  lemma {:induction false} EmptiedUpTo(log: Log, m: nat, k: nat)
    requires ValidLog(log) && FreshHashes(log) && m <= k <= |log|
    ensures EmptiedState(RestartTo(log, m, map[], k), log, m, k)
    decreases k
  {
    hide ApplyOne, WarmUp, OnlyYoung, ValidLog, FreshHashes, EmptiedState;
    if k == m {
      assert log[m..m] == [];
      EmptiedStart(log, m);
      NothingNeeded(log, m);
    } else {
      EmptiedUpTo(log, m, k - 1);
      RestartToNext(log, m, map[], k - 1);
      EmptiedNext(RestartTo(log, m, map[], k - 1), log, m, k - 1);
    }
  }

  lemma NothingNeeded(log: Log, m: nat)
    requires m <= |log|
    ensures forall p :: EmptiedState(p, log, m, m) <==> OnlyYoung(p, log, m, m)
  {
  }

  /**
   With no failing call, a start on an emptied bucket whose marker still stands at m stops iff some
   event after m changes or rotates a key that existed at m. If it does not stop, KEYS holds exactly
   the live keys created since m, which is the fold of the log iff every older key is disabled by now.
   */
  lemma EmptiedStartIff(log: Log, m: nat)
    requires ValidLog(log) && FreshHashes(log) && m <= |log|
    ensures var p := Replay(Proj(map[], WarmUp(log), false), log[m..]);
            && (p.failed <==> NeedsOld(log, m))
            && (!p.failed ==> HasYoungOnly(p.kv, log, m) && (IsImage(p.kv, log) <==> OldAreDead(log, m)))
  {
    hide Replay, WarmUp, R.Base, Young, Exists;
    EmptiedUpTo(log, m, |log|);
    assert log[m..|log|] == log[m..] && log[..|log|] == log;
    R.BaseIsImage(log, |log|);
    YoungOfImage(R.Base(log, |log|), log, m);
  }

  /** One entry per live key created since m, under its current hash, and nothing else. */
  ghost predicate HasYoungOnly(kv: Bucket, log: Log, m: nat)
    requires m <= |log|
  {
    && (forall id :: LiveKey(log, id) && !Exists(log[..m], id) ==>
          KeyState(log, id).hash in kv && kv[KeyState(log, id).hash] == EntryOf(id, KeyState(log, id)))
    && (forall h :: h in kv ==> LiveKey(log, kv[h].id) && !Exists(log[..m], kv[h].id) && KeyState(log, kv[h].id).hash == h)
  }

  lemma YoungOfImage(kv: Bucket, log: Log, m: nat)
    requires m <= |log| && IsImage(kv, log)
    ensures HasYoungOnly(Young(kv, log, m), log, m)
    ensures IsImage(Young(kv, log, m), log) <==> OldAreDead(log, m)
  {
    hide KeyState;
    var young := Young(kv, log, m);
    forall id | LiveKey(log, id) && !Exists(log[..m], id)
      ensures KeyState(log, id).hash in young && young[KeyState(log, id).hash] == EntryOf(id, KeyState(log, id))
    {
    }
    if IsImage(young, log) {
      forall id | LiveKey(log, id) ensures !Exists(log[..m], id) {
        assert KeyState(log, id).hash in young;
      }
    }
    if OldAreDead(log, m) {
      assert young == kv by {
        forall h | h in kv ensures h in young {
          assert LiveKey(log, kv[h].id);
        }
      }
    }
  }
}
