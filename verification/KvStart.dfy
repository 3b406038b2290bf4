/**
 Starting the KV projectors (RunKVProjectors up to its live consumers) and resyncing them (ResyncKV),
 both as methods on the real objects: what the buckets hold when they return.
 */
module KvStart {
  import opened Cpkv
  import opened EventLog
  import opened Projections
  import opened KvProjectors
  import A = AliasProjector
  import AE = AliasesEmptied
  import KE = KeysEmptied
  import K = KeysProjector
  import R = KeysRuns
  import Recovery = KeysRecovery
  import Restart = KeysRestart

  /** How the calls for each position go. */
  type Calls = nat -> Io

  predicate AllSucceed(ios: Calls, lo: nat, hi: nat) {
    forall i :: lo <= i < hi ==> ios(i).readOk && ios(i).first.Success? && ios(i).second.Success? && ios(i).save.Success?
  }

  /** What projection.Replay hands to apply: the events of indices m, ..., k - 1. */
  function Batch(log: Log, m: nat, k: nat, ios: Calls): seq<Delivery>
    requires m <= k <= |log|
  {
    seq(k - m, i requires 0 <= i < k - m => Delivery(m + i + 1, log[m + i], ios(m + i)))
  }

  lemma BatchSplits(log: Log, m: nat, k: nat, ios: Calls)
    requires m < k <= |log|
    ensures var b := Batch(log, m, k, ios);
            b[..|b| - 1] == Batch(log, m, k - 1, ios) && b[|b| - 1] == Delivery(k, log[k - 1], ios(k - 1))
  {
  }

  // ---------- Aliases ----------

  /** The bucket is the fold of the first h events, or of the first k once k has passed them. */
  ghost predicate AheadImage(kv: A.Bucket, log: Log, h: nat, k: nat)
    requires h <= |log| && k <= |log|
  {
    A.IsImage(kv, log[..if k < h then h else k])
  }

  /** At most the next alias event, at h - 1, is in the bucket already. */
  predicate OneAhead(log: Log, m: nat, h: nat) {
    m <= h <= |log| && (h == m || (OfKind(log[h - 1], AliasStream) && NoneBetween(log, AliasStream, m, h - 1)))
  }

  /** A replay in which no call failed leaves the image of all it covered, and its marker there. */
  lemma {:induction false} AliasReplay(p: A.Projector, log: Log, m: nat, h: nat, k: nat, ios: Calls)
    requires ValidLog(log) && m <= k <= |log| && OneAhead(log, m, h)
    requires p.pos == p.marker == m && !p.failed && A.IsImage(p.kv, log[..h])
    ensures var q := A.ApplyBatch(p, Batch(log, m, k, ios));
            && (!q.failed ==> AheadImage(q.kv, log, h, k) && q.marker == q.pos == k)
            && (AllSucceed(ios, m, k) ==> !q.failed)
    decreases k
  {
    hide A.ApplyDelivery, A.IsImage, ValidLog;
    if m < k {
      BatchSplits(log, m, k, ios);
      AliasReplay(p, log, m, h, k - 1, ios);
      var q := A.ApplyBatch(p, Batch(log, m, k - 1, ios));
      if !q.failed {
        AliasReplayNext(q, log, m, h, k - 1, ios(k - 1));
      } else {
        AliasFailedStays(q, Delivery(k, log[k - 1], ios(k - 1)));
      }
    }
  }

  lemma AliasFailedStays(q: A.Projector, d: Delivery)
    requires q.failed
    ensures A.ApplyDelivery(q, d) == q
  {
  }

  lemma AliasReplayNext(q: A.Projector, log: Log, m: nat, h: nat, k: nat, io: Io)
    requires ValidLog(log) && m <= k < |log| && OneAhead(log, m, h)
    requires q.pos == q.marker == k && !q.failed && AheadImage(q.kv, log, h, k)
    ensures var r := A.ApplyDelivery(q, Delivery(k + 1, log[k], io));
            && (!r.failed ==> AheadImage(r.kv, log, h, k + 1) && r.marker == r.pos == k + 1)
            && (io.first.Success? && io.save.Success? ==> !r.failed)
  {
    hide A.IsImage, A.WriteOf;
    if OfKind(log[k], AliasStream) {
      assert k >= h - 1;
      A.EventKeepsImage(q.kv, log, k);
    } else if k >= h {
      A.OtherKeepsImage(q.kv, log, k, k + 1);
    }
  }

  /** The same from an emptied bucket: what has had an event since the marker, and nothing else. */
  lemma {:induction false} EmptiedAliasReplay(p: A.Projector, log: Log, m: nat, k: nat, ios: Calls)
    requires ValidLog(log) && m <= k <= |log|
    requires p.pos == p.marker == m && !p.failed && p.kv == map[]
    ensures var q := A.ApplyBatch(p, Batch(log, m, k, ios));
            && (!q.failed ==> AE.HasYoungOnly(q.kv, log, m, k) && q.marker == q.pos == k)
            && (AllSucceed(ios, m, k) ==> !q.failed)
    decreases k
  {
    hide A.ApplyDelivery, AE.HasYoungOnly, ValidLog;
    if k == m {
      AE.EmptyIsYoung(log, m);
    } else {
      BatchSplits(log, m, k, ios);
      EmptiedAliasReplay(p, log, m, k - 1, ios);
      var q := A.ApplyBatch(p, Batch(log, m, k - 1, ios));
      if !q.failed {
        EmptiedAliasNext(q, log, m, k - 1, ios(k - 1));
      } else {
        AliasFailedStays(q, Delivery(k, log[k - 1], ios(k - 1)));
      }
    }
  }

  lemma EmptiedAliasNext(q: A.Projector, log: Log, m: nat, k: nat, io: Io)
    requires ValidLog(log) && m <= k < |log|
    requires q.pos == q.marker == k && !q.failed && AE.HasYoungOnly(q.kv, log, m, k)
    ensures var r := A.ApplyDelivery(q, Delivery(k + 1, log[k], io));
            && (!r.failed ==> AE.HasYoungOnly(r.kv, log, m, k + 1) && r.marker == r.pos == k + 1)
            && (io.first.Success? && io.save.Success? ==> !r.failed)
  {
    hide AE.HasYoungOnly, A.WriteOf;
    if log[k].AliasEnv? {
      AE.EventKeepsYoung(q.kv, log, m, k);
    } else {
      AE.OtherKeepsYoung(q.kv, log, m, k);
    }
  }

  // ---------- Keys ----------

  /** A delivery whose calls all succeed, or that does not fail, is ApplyOne. */
  lemma DeliveryIsApplyOne(p: R.Projector, d: Delivery)
    requires !p.failed && p.pos < d.position
    ensures var q := R.ApplyDelivery(p, d);
            var r := K.ApplyOne(K.Proj(p.kv, p.hashes, false), d.event);
            && (!q.failed || (d.io.readOk && d.io.first.Success? && d.io.second.Success? && d.io.save.Success?) ==>
                  K.Proj(q.kv, q.hashes, q.failed) == r)
            && (!q.failed ==> q.marker == q.pos == d.position)
  {
    if d.event.KeyEnv? {
      R.WritesAreFew(p.kv, p.hashes, d.event);
      var plan := K.Writes(p.kv, p.hashes, d.event.id, d.event.key);
      if plan.Ok? {
        WroteAll(p.kv, plan.value, d.io);
      }
    }
  }

  lemma WroteAll(kv: K.Bucket, ws: seq<K.Write>, io: Io)
    requires |ws| <= 2
    ensures R.Wrote(kv, ws, io).1 ==> R.Wrote(kv, ws, io).0 == K.ApplyAll(kv, ws)
    ensures io.first.Success? && io.second.Success? ==> R.Wrote(kv, ws, io).1
  {
    if |ws| == 1 {
      assert ws == [ws[0]];
      K.ApplyTwo(kv, ws[0], ws[0]);
    } else if |ws| == 2 {
      assert ws == [ws[0], ws[1]];
      K.ApplyTwo(kv, ws[0], ws[1]);
    }
  }

  /** A replay in which no call failed, or that did not stop, is Replay. */
  lemma {:induction false} KeysReplay(p: R.Projector, log: Log, m: nat, k: nat, ios: Calls)
    requires m <= k <= |log| && p.pos == p.marker == m && !p.failed
    ensures var q := R.ApplyBatch(p, Batch(log, m, k, ios));
            && (!q.failed || AllSucceed(ios, m, k) ==>
                  K.Proj(q.kv, q.hashes, q.failed) == K.Replay(K.Proj(p.kv, p.hashes, false), log[m..k]))
            && (!q.failed ==> q.marker == q.pos == k)
    decreases k
  {
    if m < k {
      hide R.ApplyDelivery, K.ApplyOne;
      BatchSplits(log, m, k, ios);
      KeysReplay(p, log, m, k - 1, ios);
      assert log[m..k][..k - 1 - m] == log[m..k - 1];
      var q := R.ApplyBatch(p, Batch(log, m, k - 1, ios));
      if q.failed {
        FailedStays(q, Delivery(k, log[k - 1], ios(k - 1)));
      } else {
        DeliveryIsApplyOne(q, Delivery(k, log[k - 1], ios(k - 1)));
      }
    }
  }

  lemma FailedStays(q: R.Projector, d: Delivery)
    requires q.failed
    ensures R.ApplyDelivery(q, d) == q
    ensures K.ApplyOne(K.Proj(q.kv, q.hashes, true), d.event) == K.Proj(q.kv, q.hashes, true)
  {
  }

  // ---------- The methods ----------

  /**
   The start of the ALIASES projector from wherever an earlier one went down, or from a bucket that a
   resync emptied without setting the marker back. With no failing call it succeeds. Success leaves the
   fold of the log in the first case; in the second it leaves the aliases that have had an event since
   the marker, which is the fold iff no other was live there.
   */
  method ReplayAliases(p: AliasProjector, log: Log, ios: Calls) returns (ok: bool)
    requires ValidLog(log) && p.pos == p.marker.position && !p.failed
    requires A.Resting(log, p.kv.content, p.pos) || (p.kv.content == map[] && p.pos <= |log|)
    modifies p, p.kv, p.marker
    ensures ok ==> p.marker.position == |log|
    ensures AllSucceed(ios, old(p.pos), |log|) ==> ok
    ensures ok && old(A.Resting(log, p.kv.content, p.pos)) ==> A.IsImage(p.kv.content, log)
    ensures ok && old(p.kv.content) == map[] ==>
              && old(p.pos) <= |log|
              && AE.HasYoungOnly(p.kv.content, log, old(p.pos), |log|)
              && (A.IsImage(p.kv.content, log) <==> AE.OldAreTouched(log, old(p.pos)))
  {
    hide A.IsImage, A.Resting, AE.HasYoungOnly, AE.OldAreTouched;
    AliasStart(p.Model(), log, ios);
    ok := p.Apply(Batch(log, p.pos, |log|, ios));
  }

  lemma AliasStart(p: A.Projector, log: Log, ios: Calls)
    requires ValidLog(log) && p.pos == p.marker && !p.failed
    requires A.Resting(log, p.kv, p.pos) || (p.kv == map[] && p.pos <= |log|)
    ensures p.pos <= |log|
    ensures var (q, m) := (A.ApplyBatch(p, Batch(log, p.pos, |log|, ios)), p.pos);
            && (!q.failed ==> q.marker == |log|)
            && (AllSucceed(ios, m, |log|) ==> !q.failed)
            && (!q.failed && A.Resting(log, p.kv, m) ==> A.IsImage(q.kv, log))
            && (!q.failed && p.kv == map[] ==>
                  AE.HasYoungOnly(q.kv, log, m, |log|) && (A.IsImage(q.kv, log) <==> AE.OldAreTouched(log, m)))
  {
    hide A.IsImage, A.Resting, AE.HasYoungOnly, AE.OldAreTouched;
    var m := p.pos;
    assert log[..|log|] == log;
    if A.Resting(log, p.kv, m) {
      var h := A.RestingIsImage(log, p.kv, m);
      AliasReplay(p, log, m, h, |log|, ios);
    }
    if p.kv == map[] {
      EmptiedAliasReplay(p, log, m, |log|, ios);
      var q := A.ApplyBatch(p, Batch(log, m, |log|, ios));
      if !q.failed {
        AE.YoungIsFoldIff(q.kv, log, m);
      }
    }
  }

  /**
   The start of the KEYS projector from wherever an earlier one went down, or from a bucket that a
   resync emptied without setting the marker back: marker, warm-up, replay of what lies after the
   marker. With no failing call it succeeds, in the first case, iff nothing after the marker was
   overtaken and the next event is no rotation whose old entry is gone, and leaves the fold; in the
   second, iff no event after the marker changes or rotates a key from before it, and leaves the keys
   created since, which is the fold iff every older key is disabled by now.
   */
  method StartKeys(kv: KvBucket<KeyEntry>, marker: KvMarker, log: Log, ios: Calls) returns (ok: bool, p: KeysProjector)
    requires ValidLog(log) && FreshHashes(log) && marker.position <= |log|
    requires Recovery.Resting(log, kv.content, marker.position) || kv.content == map[]
    modifies kv, marker
    ensures ok ==> marker.position == |log|
    ensures old(Recovery.Resting(log, kv.content, marker.position)) ==>
              Outcome(ok, AllSucceed(ios, old(marker.position), |log|), Stops(log, old(marker.position), old(kv.content)))
    ensures old(Recovery.Resting(log, kv.content, marker.position)) && ok ==> K.IsImage(kv.content, log)
    ensures old(kv.content) == map[] ==>
              Outcome(ok, AllSucceed(ios, old(marker.position), |log|), KE.NeedsOld(log, old(marker.position)))
    ensures old(kv.content) == map[] && ok ==>
              && KE.HasYoungOnly(kv.content, log, old(marker.position))
              && (K.IsImage(kv.content, log) <==> KE.OldAreDead(log, old(marker.position)))
  {
    hide K.IsImage, Recovery.Resting, Stops, KE.NeedsOld, KE.HasYoungOnly, KE.OldAreDead, ValidLog, FreshHashes;
    p := new KeysProjector(kv, marker);
    p.Warmup(log);
    ghost var m := p.pos;
    StartRecovers(log, kv.content, m);
    KE.EmptiedStartIff(log, m);
    KeysReplay(p.Model(), log, m, |log|, ios);
    assert log[m..|log|] == log[m..];
    ok := p.Apply(Batch(log, p.pos, |log|, ios));
  }

  /** Success shows that the start does not stop by itself; without a failing call it is equivalent to it. */
  predicate Outcome(ok: bool, callsSucceed: bool, stops: bool) {
    (ok ==> !stops) && (callsSucceed ==> (ok <==> !stops))
  }

  /** The two ways a start can stop although every call succeeds. */
  predicate Stops(log: Log, m: nat, kv: K.Bucket)
    requires m <= |log|
  {
    Restart.Overtaken(log, m) || Recovery.OldEntryGone(log, m, kv)
  }

  lemma StartRecovers(log: Log, kv: K.Bucket, m: nat)
    requires ValidLog(log) && FreshHashes(log) && m <= |log|
    ensures var p := K.Replay(K.Proj(kv, K.WarmUp(log), false), log[m..]);
            Recovery.Resting(log, kv, m) ==> (p.failed <==> Stops(log, m, kv)) && (!p.failed ==> K.IsImage(p.kv, log))
  {
    if Recovery.Resting(log, kv, m) {
      Recovery.StartRecoversIff(log, kv, m);
    }
  }

  /** How the calls before the replays go: the two buckets destroyed and created, the two markers set back. */
  datatype ResetCalls = ResetCalls(aliases: KvOutcome, keys: KvOutcome, aliasMarker: KvOutcome, keyMarker: KvOutcome)
  {
    predicate Succeed() {
      aliases.Success? && keys.Success? && aliasMarker.Success? && keyMarker.Success?
    }
  }

  method ResetBucket<V>(kv: KvBucket<V>, outcome: KvOutcome) returns (ok: bool)
    modifies kv
    ensures ok == outcome.Success?
    ensures kv.content == if outcome.FailedLost? then old(kv.content) else map[]
  {
    if !outcome.FailedLost? {
      kv.content := map[];
    }
    ok := outcome.Success?;
  }

  /**
   ResyncKV: both buckets emptied, both markers set back, both logs replayed from the start; the first
   failing call ends it. With no failing call it always succeeds, whatever the buckets held before,
   so also after a resync that was cut short.
   */
  method ResyncKV(aliases: KvBucket<AliasEntry>, keys: KvBucket<KeyEntry>, aliasMarker: KvMarker, keyMarker: KvMarker,
                  log: Log, resets: ResetCalls, aliasIos: Calls, keyIos: Calls)
    returns (ok: bool)
    requires ValidLog(log) && FreshHashes(log) && aliasMarker != keyMarker
    modifies aliases, keys, aliasMarker, keyMarker
    ensures ok ==> A.IsImage(aliases.content, log) && K.IsImage(keys.content, log)
    ensures ok ==> aliasMarker.position == keyMarker.position == |log|
    ensures ok ==> resets.Succeed()
    ensures resets.Succeed() && AllSucceed(aliasIos, 0, |log|) && AllSucceed(keyIos, 0, |log|) ==> ok
  {
    hide K.IsImage, A.IsImage, A.Resting, Recovery.Resting, Stops, ValidLog, FreshHashes;
    ok := ResetBucket(aliases, resets.aliases);
    if !ok {
      return;
    }
    ok := ResetBucket(keys, resets.keys);
    if !ok {
      return;
    }
    ok := aliasMarker.Save(0, resets.aliasMarker);
    if !ok {
      return;
    }
    ok := keyMarker.Save(0, resets.keyMarker);
    if !ok {
      return;
    }
    EmptyRests(log);
    NothingStopsAtStart(log);
    var aliasP := new AliasProjector(aliases, aliasMarker);
    ok := ReplayAliases(aliasP, log, aliasIos);
    if !ok {
      return;
    }
    var keysP;
    ok, keysP := StartKeys(keys, keyMarker, log, keyIos);
  }

  /** Empty buckets and markers at 0 are what a run leaves that has never started a process. */
  lemma EmptyRests(log: Log)
    ensures A.Resting(log, map[], 0) && Recovery.Resting(log, map[], 0)
  {
    var grown := seq(|log|, i => A.Grow);
    AliasGrown(log, |log|);
    assert A.RestsAfter(log, map[], 0, grown);
    var keysGrown := seq(|log|, i => R.Grow);
    KeysGrown(log, |log|);
    assert Recovery.RestsAfter(log, map[], 0, keysGrown);
  }

  lemma {:induction false} AliasGrown(log: Log, n: nat)
    requires n <= |log|
    ensures A.Run(log, seq(n, i => A.Grow)) == A.START.(head := n)
  {
    if n > 0 {
      AliasGrown(log, n - 1);
      assert seq(n, i => A.Grow)[..n - 1] == seq(n - 1, i => A.Grow);
    }
  }

  lemma {:induction false} KeysGrown(log: Log, n: nat)
    requires n <= |log|
    ensures R.Run(log, seq(n, i => R.Grow)) == R.START.(head := n)
  {
    if n > 0 {
      KeysGrown(log, n - 1);
      assert seq(n, i => R.Grow)[..n - 1] == seq(n - 1, i => R.Grow);
    }
  }

  /** No key exists at position 0 and the first key event of a valid log is a creation. */
  lemma NothingStopsAtStart(log: Log)
    requires ValidLog(log)
    ensures !Stops(log, 0, map[])
  {
    assert log[..0] == [];
    var k := NextOf(log, KeyStream, 0);
    if k < |log| {
      K.KeyEventDecided(log, k);
      R.SameKeysBetween(log, 0, k, log[k].id);
    }
  }
}
