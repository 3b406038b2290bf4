/**
 The two KV projectors as the objects the program runs (internal/controlplane/kvproj.go): the
 buckets, the markers, the positions, the sticky failures and the id-to-hash map are fields their
 methods update, call by call. Each method computes the function that AliasProjector.dfy or
 KeysRuns.dfy specifies it by; how each call goes comes with the delivery.
 */
module KvProjectors {
  import opened Cpkv
  import opened AliasIds
  import opened EventLog
  import opened Projections
  import A = AliasProjector
  import K = KeysProjector
  import R = KeysRuns

  /** One entry of the CP_MARKERS bucket. */
  class KvMarker {
    var position: nat

    constructor ()
      ensures position == 0
    {
      position := 0;
    }

    method Save(pos: nat, outcome: KvOutcome) returns (ok: bool)
      modifies this
      ensures ok == outcome.Success?
      ensures position == if outcome.FailedLost? then old(position) else pos
    {
      if !outcome.FailedLost? {
        position := pos;
      }
      ok := outcome.Success?;
    }
  }

  class AliasProjector {
    const kv: KvBucket<AliasEntry>
    const marker: KvMarker
    var pos: nat
    var failed: bool

    ghost function Model(): A.Projector
      reads this, kv, marker
    {
      A.Projector(kv.content, marker.position, pos, failed)
    }

    /** A new projector at the saved marker. */
    constructor (kv: KvBucket<AliasEntry>, marker: KvMarker)
      ensures this.kv == kv && this.marker == marker && pos == marker.position && !failed
    {
      this.kv, this.marker := kv, marker;
      pos, failed := marker.position, false;
    }

    method Apply(batch: seq<Delivery>) returns (ok: bool)
      modifies this, kv, marker
      ensures Model() == A.ApplyBatch(old(Model()), batch)
      ensures ok == !failed
    {
      hide A.ApplyDelivery;
      ghost var start := Model();
      if failed {
        assert batch[..0] == [];
        A.FailedBatch(start, batch, 0);
        return false;
      }
      for i := 0 to |batch|
        invariant Model() == A.ApplyBatch(start, batch[..i]) && !failed
      {
        assert batch[..i + 1][..i] == batch[..i];
        ok := ApplyNext(batch[i]);
        if !ok {
          A.FailedBatch(start, batch, i + 1);
          return;
        }
      }
      assert batch[..|batch|] == batch;
      ok := true;
    }

    /** The body of apply's loop. */
    method ApplyNext(d: Delivery) returns (ok: bool)
      requires !failed
      modifies this, kv, marker
      ensures Model() == A.ApplyDelivery(old(Model()), d)
      ensures ok == !failed
    {
      if d.position <= pos {
        return true;
      }
      if d.event.AliasEnv? {
        ok := ApplyOne(d.event, d.io);
        if !ok {
          failed := true;
          return;
        }
      }
      pos := d.position;
      ok := marker.Save(pos, d.io.save);
      if !ok {
        failed := true;
      }
    }

    method ApplyOne(e: Envelope, io: Io) returns (ok: bool)
      requires e.AliasEnv?
      modifies kv
      ensures var w := A.WriteOf(e.id, e.alias);
              && ok == (w.Ok? && io.first.Success?)
              && kv.content == if w.Err? || io.first.FailedLost? then old(kv.content) else A.Apply(old(kv.content), w.value)
    {
      hide SplitAliasStreamId, BucketKey;
      var split := SplitAliasStreamId(e.id);
      if split.Err? {
        return false;
      }
      var (scope, name) := split.value;
      var key := BucketKey(scope, name);
      match e.alias
      case AliasSet(target, params) => ok := kv.Put(key, AliasEntry(target, params), io.first);
      case AliasDeleted => ok := kv.Delete(key, io.first);
    }
  }

  class KeysProjector {
    const kv: KvBucket<KeyEntry>
    const marker: KvMarker
    var pos: nat
    var hashByID: map<string, string>
    var failed: bool

    ghost function Model(): R.Projector
      reads this, kv, marker
    {
      R.Projector(kv.content, hashByID, marker.position, pos, failed)
    }

    /** A new projector at the saved marker, before its warm-up. */
    constructor (kv: KvBucket<KeyEntry>, marker: KvMarker)
      ensures this.kv == kv && this.marker == marker && pos == marker.position && hashByID == map[] && !failed
    {
      this.kv, this.marker := kv, marker;
      pos, hashByID, failed := marker.position, map[], false;
    }

    /** The write-free replay of the whole history. */
    method Warmup(log: Log)
      modifies this
      ensures hashByID == K.LearnAll(old(hashByID), log)
      ensures pos == old(pos) && failed == old(failed)
    {
      for i := 0 to |log|
        invariant hashByID == K.LearnAll(old(hashByID), log[..i])
        invariant pos == old(pos) && failed == old(failed)
      {
        assert log[..i + 1][..i] == log[..i];
        var e := log[i];
        if !e.KeyEnv? {
          continue;
        }
        match e.key
        case Created(_, _, _, _, hash, _, _, _) => hashByID := hashByID[e.id := hash];
        case Rotated(newHash, _) => hashByID := hashByID[e.id := newHash];
        case _ =>
      }
      assert log[..|log|] == log;
    }

    method Apply(batch: seq<Delivery>) returns (ok: bool)
      modifies this, kv, marker
      ensures Model() == R.ApplyBatch(old(Model()), batch)
      ensures ok == !failed
    {
      hide R.ApplyDelivery;
      ghost var start := Model();
      if failed {
        assert batch[..0] == [];
        R.FailedBatch(start, batch, 0);
        return false;
      }
      for i := 0 to |batch|
        invariant Model() == R.ApplyBatch(start, batch[..i]) && !failed
      {
        assert batch[..i + 1][..i] == batch[..i];
        ok := ApplyNext(batch[i]);
        if !ok {
          R.FailedBatch(start, batch, i + 1);
          return;
        }
      }
      assert batch[..|batch|] == batch;
      ok := true;
    }

    /** The body of apply's loop. */
    method ApplyNext(d: Delivery) returns (ok: bool)
      requires !failed
      modifies this, kv, marker
      ensures Model() == R.ApplyDelivery(old(Model()), d)
      ensures ok == !failed
    {
      if d.position <= pos {
        return true;
      }
      if d.event.KeyEnv? {
        ok := ApplyOne(d.event, d.io);
        if !ok {
          failed := true;
          return;
        }
      }
      pos := d.position;
      ok := marker.Save(pos, d.io.save);
      if !ok {
        failed := true;
      }
    }

    method ApplyOne(e: Envelope, io: Io) returns (ok: bool)
      requires e.KeyEnv?
      modifies `hashByID, kv
      ensures var plan := K.Writes(old(kv.content), old(hashByID), e.id, e.key);
              var wrote := if plan.Ok? && (!R.Reads(e.key) || io.readOk) then R.Wrote(old(kv.content), plan.value, io)
                           else (old(kv.content), false);
              && ok == wrote.1 && kv.content == wrote.0
              && hashByID == if ok then K.Learn(old(hashByID), e) else old(hashByID)
    {
      var id := e.id;
      match e.key
      case Created(_, org, project, name, hash, allow, rpm, budget) =>
        ok := kv.Put(hash, KeyEntry(id, org, project, name, allow, rpm, budget), io.first);
        if !ok {
          return;
        }
        hashByID := hashByID[id := hash];

      case Rotated(newHash, previousHash) =>
        if !io.readOk || previousHash !in kv.content {
          return false;
        }
        var entry := kv.content[previousHash].(id := id);
        ok := kv.Put(newHash, entry, io.first);
        if !ok {
          return;
        }
        ok := DeleteEntry(previousHash, io.second);
        if !ok {
          return;
        }
        hashByID := hashByID[id := newHash];

      case Disabled(currentHash) =>
        ok := DeleteEntry(currentHash, io.first);

      case AllowlistChanged(allow) =>
        if id !in hashByID || !io.readOk || hashByID[id] !in kv.content {
          return false;
        }
        var hash := hashByID[id];
        ok := kv.Put(hash, kv.content[hash].(id := id, allow := allow), io.first);

      case LimitsChanged(rpm, budget) =>
        if id !in hashByID || !io.readOk || hashByID[id] !in kv.content {
          return false;
        }
        var hash := hashByID[id];
        ok := kv.Put(hash, kv.content[hash].(id := id, rateLimitRPM := rpm, monthlyTokenBudget := budget), io.first);
    }

    method DeleteEntry(hash: string, outcome: KvOutcome) returns (ok: bool)
      modifies kv
      ensures ok == (hash == "" || outcome.Success?)
      ensures kv.content == if hash == "" || outcome.FailedLost? then old(kv.content) else old(kv.content) - {hash}
    {
      if hash == "" {
        return true;
      }
      ok := kv.Delete(hash, outcome);
    }
  }
}
