/**
 The KEYS projector (internal/controlplane/kvproj.go): the writes each event leads to, the private
 id-to-hash map and its warm-up, and sticky fail-stop. The specification is the fold of the log:
 one entry per created, non-disabled key, under its current hash.
 */
module KeysProjector {
  import opened Wrappers
  import opened Cpkv
  import opened EventLog
  import opened ApiKeys

  type Bucket = map<string, KeyEntry>
  type HashMap = map<string, string>

  datatype Write = Put(hash: string, entry: KeyEntry) | Del(hash: string)

  datatype Failure = NoPreviousEntry | UnknownKeyId | NoEntryUnderHash

  function Apply(kv: Bucket, w: Write): Bucket {
    match w
    case Put(hash, entry) => kv[hash := entry]
    case Del(hash) => kv - {hash}
  }

  function ApplyAll(kv: Bucket, ws: seq<Write>): Bucket {
    if ws == [] then kv else Apply(ApplyAll(kv, ws[..|ws| - 1]), ws[|ws| - 1])
  }

  /** deleteEntry: an empty hash is skipped. */
  function Deletion(hash: string): seq<Write> {
    if hash == "" then [] else [Del(hash)]
  }

  /** The writes of one event, decided by what applyOne reads before it writes. */
  function Writes(kv: Bucket, hashes: HashMap, id: string, e: KeyEvent): Result<seq<Write>, Failure> {
    match e
    case Created(_, org, project, name, hash, allow, rpm, budget) =>
      Ok([Put(hash, KeyEntry(id, org, project, name, allow, rpm, budget))])
    case Rotated(newHash, previousHash) =>
      if previousHash !in kv then Err(NoPreviousEntry)
      else Ok([Put(newHash, kv[previousHash].(id := id))] + Deletion(previousHash))
    case Disabled(currentHash) => Ok(Deletion(currentHash))
    case AllowlistChanged(allow) =>
      if id !in hashes then Err(UnknownKeyId)
      else if hashes[id] !in kv then Err(NoEntryUnderHash)
      else Ok([Put(hashes[id], kv[hashes[id]].(id := id, allow := allow))])
    case LimitsChanged(rpm, budget) =>
      if id !in hashes then Err(UnknownKeyId)
      else if hashes[id] !in kv then Err(NoEntryUnderHash)
      else Ok([Put(hashes[id], kv[hashes[id]].(id := id, rateLimitRPM := rpm, monthlyTokenBudget := budget))])
  }

  /** The map after an event whose writes all succeeded, and also after the warm-up read it. */
  function Learn(hashes: HashMap, e: Envelope): HashMap {
    if e.KeyEnv? && e.key.Created? then hashes[e.id := e.key.hash]
    else if e.KeyEnv? && e.key.Rotated? then hashes[e.id := e.key.newHash]
    else hashes
  }

  function LearnAll(hashes: HashMap, log: Log): HashMap {
    if log == [] then hashes else Learn(LearnAll(hashes, log[..|log| - 1]), log[|log| - 1])
  }

  function WarmUp(log: Log): HashMap {
    LearnAll(map[], log)
  }

  /** A projector between events; failed is the sticky error. */
  datatype Proj = Proj(kv: Bucket, hashes: HashMap, failed: bool)

  function ApplyOne(p: Proj, e: Envelope): Proj {
    if p.failed || !e.KeyEnv? then p
    else
      match Writes(p.kv, p.hashes, e.id, e.key)
      case Err(_) => p.(failed := true)
      case Ok(ws) => p.(kv := ApplyAll(p.kv, ws), hashes := Learn(p.hashes, e))
  }

  function Replay(p: Proj, log: Log): Proj {
    if log == [] then p else ApplyOne(Replay(p, log[..|log| - 1]), log[|log| - 1])
  }

  // ---------- The specification ----------

  predicate Exists(log: Log, id: string) {
    KeyState(log, id).id != ""
  }

  predicate LiveKey(log: Log, id: string) {
    Exists(log, id) && !KeyState(log, id).disabled
  }

  function EntryOf(id: string, s: ApiKey): KeyEntry {
    KeyEntry(id, s.org, s.project, s.name, s.allow, s.rateLimitRpm, s.monthlyTokenBudget)
  }

  /** kv has one entry per live key, under its current hash, and nothing else. */
  ghost predicate IsImage(kv: Bucket, log: Log) {
    && (forall id :: LiveKey(log, id) ==>
          KeyState(log, id).hash in kv && kv[KeyState(log, id).hash] == EntryOf(id, KeyState(log, id)))
    && (forall h :: h in kv ==> LiveKey(log, kv[h].id) && KeyState(log, kv[h].id).hash == h)
  }

  lemma {:induction false} ImageUnique(kv: Bucket, kv': Bucket, log: Log)
    requires IsImage(kv, log) && IsImage(kv', log)
    ensures kv == kv'
  {
    forall h | h in kv ensures h in kv' && kv[h] == kv'[h] {
      assert LiveKey(log, kv[h].id);
    }
    forall h | h in kv' ensures h in kv {
      assert LiveKey(log, kv'[h].id);
    }
  }

  // ---------- What a valid log says about keys ----------

  lemma {:induction false} KeyStateHasOwnId(log: Log, id: string)
    requires ValidLog(log)
    ensures KeyState(log, id) == NO_KEY || (KeyState(log, id).id == id && id != "")
  {
    if log != [] {
      var n := |log| - 1;
      ValidPrefix(log, n);
      KeyStateHasOwnId(log[..n], id);
      KeyEventDecided(log, n);
    }
  }

  /** Each key event of a valid log fits the key's state at that point. */
  lemma KeyEventDecided(log: Log, k: nat)
    requires ValidLog(log) && k < |log|
    ensures log[k].KeyEnv? ==>
              var s := KeyState(log[..k], log[k].id);
              && (log[k].key.Created? ==> s.id == "" && log[k].key.id == log[k].id && log[k].id != "")
              && (!log[k].key.Created? ==> s.id != "" && !s.disabled)
              && (log[k].key.Rotated? ==> log[k].key.previousHash == s.hash)
              && (log[k].key.Disabled? ==> log[k].key.currentHash == s.hash)
  {
    assert Decided(log, k);
    var c :| Emits(log[..k], c, log[k]);
  }

  predicate IntroducedIn(log: Log, lo: nat, hi: nat, hash: string) {
    exists i :: lo <= i < hi && i < |log| && Introduces(log[i]) == Some(hash)
  }

  /** An existing key's current hash was introduced by an event of its own. */
  lemma {:induction false} CurrentHashIntroduced(log: Log, id: string) returns (i: nat)
    requires Exists(log, id)
    requires ValidLog(log)
    ensures i < |log| && Introduces(log[i]) == Some(KeyState(log, id).hash) && log[i].id == id
  {
    var n := |log| - 1;
    if log[n].KeyEnv? && log[n].id == id && (log[n].key.Created? || log[n].key.Rotated?) {
      i := n;
    } else {
      ValidPrefix(log, n);
      i := CurrentHashIntroduced(log[..n], id);
    }
  }

  /** Distinct existing keys have distinct, non-empty current hashes. */
  lemma HashesApart(log: Log, id: string, id': string)
    requires ValidLog(log) && FreshHashes(log)
    requires Exists(log, id) && Exists(log, id') && KeyState(log, id).hash == KeyState(log, id').hash
    ensures id == id' && KeyState(log, id).hash != ""
  {
    var i := CurrentHashIntroduced(log, id);
    var j := CurrentHashIntroduced(log, id');
  }

  /** A hash introduced at k is not the current hash of any key before k. */
  lemma NewHashIsNew(log: Log, k: nat, id: string, hash: string)
    requires ValidLog(log) && FreshHashes(log) && k <= |log|
    requires Exists(log[..k], id) && IntroducedIn(log, k, |log|, hash)
    ensures KeyState(log[..k], id).hash != hash
  {
    ValidPrefix(log, k);
    var i := CurrentHashIntroduced(log[..k], id);
    var j :| k <= j < |log| && Introduces(log[j]) == Some(hash);
  }

  lemma FreshPrefix(log: Log, k: nat)
    requires FreshHashes(log) && k <= |log|
    ensures FreshHashes(log[..k])
  {
    assert forall i :: 0 <= i < k ==> log[..k][i] == log[i];
  }

  // ---------- One event on an image ----------

  lemma StateAfter(log: Log, k: nat, id: string)
    requires k < |log|
    ensures KeyState(log[..k + 1], id) ==
            if log[k].KeyEnv? && log[k].id == id then Evolve(KeyState(log[..k], id), log[k].key) else KeyState(log[..k], id)
  {
    assert log[..k + 1][..k] == log[..k];
  }

  /** A Put of a key's new entry, under a hash no other key uses. */
  lemma PutKeepsImage(kv: Bucket, log: Log, k: nat, id: string, kv': Bucket)
    requires ValidLog(log) && FreshHashes(log) && k < |log| && IsImage(kv, log[..k])
    requires log[k].KeyEnv? && log[k].id == id
    requires LiveKey(log[..k + 1], id)
    requires var s := KeyState(log[..k + 1], id);
             && kv' == (if Exists(log[..k], id) && KeyState(log[..k], id).hash != s.hash
                        then kv[s.hash := EntryOf(id, s)] - {KeyState(log[..k], id).hash}
                        else kv[s.hash := EntryOf(id, s)])
    ensures IsImage(kv', log[..k + 1])
  {
    hide KeyState, FreshHashes, ValidLog;
    var (before, after) := (log[..k], log[..k + 1]);
    ValidPrefix(log, k);
    ValidPrefix(log, k + 1);
    FreshPrefix(log, k + 1);
    FreshPrefix(log, k);
    forall i ensures KeyState(after, i) == if i == id then Evolve(KeyState(before, id), log[k].key) else KeyState(before, i) {
      StateAfter(log, k, i);
    }
    KeyEventDecided(log, k);
    forall i | LiveKey(after, i)
      ensures KeyState(after, i).hash in kv' && kv'[KeyState(after, i).hash] == EntryOf(i, KeyState(after, i))
    {
      if i != id {
        assert LiveKey(before, i);
        if KeyState(after, i).hash == KeyState(after, id).hash {
          HashesApart(after, i, id);
        }
        if Exists(before, id) && KeyState(before, i).hash == KeyState(before, id).hash {
          HashesApart(before, i, id);
        }
      }
    }
    forall h | h in kv' ensures LiveKey(after, kv'[h].id) && KeyState(after, kv'[h].id).hash == h {
      if h != KeyState(after, id).hash {
        assert h in kv && LiveKey(before, kv[h].id);
      }
    }
  }

  lemma DeleteKeepsImage(kv: Bucket, log: Log, k: nat, id: string)
    requires ValidLog(log) && FreshHashes(log) && k < |log| && IsImage(kv, log[..k])
    requires log[k].KeyEnv? && log[k].id == id && log[k].key.Disabled?
    ensures IsImage(kv - {KeyState(log[..k], id).hash}, log[..k + 1])
  {
    hide KeyState;
    var (before, after) := (log[..k], log[..k + 1]);
    ValidPrefix(log, k);
    FreshPrefix(log, k);
    KeyEventDecided(log, k);
    forall i ensures KeyState(after, i) == if i == id then Evolve(KeyState(before, id), log[k].key) else KeyState(before, i) {
      StateAfter(log, k, i);
    }
    forall i | LiveKey(after, i) ensures LiveKey(before, i) && KeyState(before, i).hash != KeyState(before, id).hash {
      if KeyState(before, i).hash == KeyState(before, id).hash {
        HashesApart(before, i, id);
      }
    }
  }

  lemma SameKeysSameImage(kv: Bucket, log: Log, log': Log)
    requires IsImage(kv, log) && forall id :: KeyState(log', id) == KeyState(log, id)
    ensures IsImage(kv, log')
  {
    forall id | LiveKey(log', id)
      ensures KeyState(log', id).hash in kv && kv[KeyState(log', id).hash] == EntryOf(id, KeyState(log', id))
    {
      assert LiveKey(log, id);
    }
    forall h | h in kv ensures LiveKey(log', kv[h].id) && KeyState(log', kv[h].id).hash == h {
      assert LiveKey(log, kv[h].id);
    }
  }

  /** The map entry an event needs is right: the key's current hash. */
  predicate Knows(hashes: HashMap, log: Log, id: string) {
    id in hashes && hashes[id] == KeyState(log, id).hash
  }

  /** An event applied to the image of what precedes it gives the image of the longer log. */
  lemma EventKeepsImage(p: Proj, log: Log, k: nat)
    requires ValidLog(log) && FreshHashes(log) && k < |log| && IsImage(p.kv, log[..k]) && !p.failed
    requires log[k].KeyEnv? && (log[k].key.AllowlistChanged? || log[k].key.LimitsChanged?) ==>
               Knows(p.hashes, log[..k], log[k].id)
    ensures !ApplyOne(p, log[k]).failed && IsImage(ApplyOne(p, log[k]).kv, log[..k + 1])
  {
    var e := log[k];
    if !e.KeyEnv? {
      forall id ensures KeyState(log[..k + 1], id) == KeyState(log[..k], id) {
        StateAfter(log, k, id);
      }
      SameKeysSameImage(p.kv, log[..k], log[..k + 1]);
    } else {
      var id, kv := e.id, p.kv;
      KeyEventDecided(log, k);
      ValidPrefix(log, k);
      KeyStateHasOwnId(log[..k], id);
      StateAfter(log, k, id);
      var s := KeyState(log[..k], id);
      if e.key.Rotated? {
        assert LiveKey(log[..k], id);
        FreshPrefix(log, k);
        HashesApart(log[..k], id, id);
        assert Introduces(log[k]) == Some(e.key.newHash);
        NewHashIsNew(log, k, id, e.key.newHash);
        var entry := kv[s.hash].(id := id);
        var put := kv[e.key.newHash := entry];
        assert [Put(e.key.newHash, entry)] + Deletion(s.hash) == [Put(e.key.newHash, entry), Del(s.hash)];
        ApplyTwo(kv, Put(e.key.newHash, entry), Del(s.hash));
        PutKeepsImage(kv, log, k, id, put - {s.hash});
      } else if e.key.Disabled? {
        FreshPrefix(log, k);
        HashesApart(log[..k], id, id);
        ApplyTwo(kv, Del(s.hash), Del(s.hash));
        DeleteKeepsImage(kv, log, k, id);
      } else {
        assert !e.key.Created? ==> LiveKey(log[..k], id);
        var w := Writes(kv, p.hashes, id, e.key).value[0];
        ApplyTwo(kv, w, w);
        PutKeepsImage(kv, log, k, id, Apply(kv, w));
      }
    }
  }

  lemma ApplyTwo(kv: Bucket, w: Write, w': Write)
    ensures ApplyAll(kv, [w]) == Apply(kv, w)
    ensures ApplyAll(kv, [w, w']) == Apply(Apply(kv, w), w')
  {
    assert [w, w'][..1] == [w] && [w][..0] == [];
  }

  // ---------- Replay from the start ----------

  /** The map after an event knows the key it concerned, and still knows the others. */
  lemma LearnKeepsKnowing(hashes: HashMap, log: Log, k: nat, id: string)
    requires ValidLog(log) && k < |log|
    requires Exists(log[..k + 1], id) && (Exists(log[..k], id) ==> Knows(hashes, log[..k], id))
    ensures Knows(Learn(hashes, log[k]), log[..k + 1], id)
  {
    StateAfter(log, k, id);
    KeyEventDecided(log, k);
  }

  /** The bucket is the image of the first k events and the map knows every key's current hash. */
  ghost predicate Current(p: Proj, log: Log, k: nat)
    requires k <= |log|
  {
    && !p.failed
    && IsImage(p.kv, log[..k])
    && forall id :: Exists(log[..k], id) ==> Knows(p.hashes, log[..k], id)
  }

  lemma CurrentStep(p: Proj, log: Log, k: nat)
    requires ValidLog(log) && FreshHashes(log) && k < |log| && Current(p, log, k)
    ensures Current(ApplyOne(p, log[k]), log, k + 1)
  {
    KeyEventDecided(log, k);
    EventKeepsImage(p, log, k);
    var next := log[..k + 1];
    forall id | Exists(next, id) ensures Knows(ApplyOne(p, log[k]).hashes, next, id) {
      LearnKeepsKnowing(p.hashes, log, k, id);
    }
  }

  /** From a current projector, any further stretch of the log keeps it current. */
  lemma {:induction false} CurrentStretch(p: Proj, log: Log, h: nat, k: nat)
    requires ValidLog(log) && FreshHashes(log) && h <= k <= |log| && Current(p, log, h)
    ensures Current(Replay(p, log[h..k]), log, k)
    decreases k
  {
    hide ApplyOne, KeyState, FreshHashes, ValidLog, Current;
    if h < k {
      CurrentStretch(p, log, h, k - 1);
      assert log[h..k][..k - 1 - h] == log[h..k - 1];
      CurrentStep(Replay(p, log[h..k - 1]), log, k - 1);
    }
  }

  /**
   Replaying any decider-generated log from its start, whatever the map was warmed up with, never
   fail-stops and leaves KEYS equal to the log's fold.
   */
  lemma ReplayFromStart(log: Log, hashes: HashMap)
    requires ValidLog(log) && FreshHashes(log)
    ensures var p := Replay(Proj(map[], hashes, false), log);
            && !p.failed && IsImage(p.kv, log)
            && forall id :: Exists(log, id) ==> Knows(p.hashes, log, id)
  {
    assert log[..0] == [] && log[0..|log|] == log && log[..|log|] == log;
    CurrentStretch(Proj(map[], hashes, false), log, 0, |log|);
  }
}
