/**
 From the control plane's log to the gateway's decisions: what AuthenticateKey, ResolveAlias and
 BudgetExceeded (internal/gateway/kviam.go) answer on snapshots of buckets that the projectors and
 the ledger keep.
 */
module EndToEnd {
  import opened Wrappers
  import opened Cpkv
  import opened AliasIds
  import opened EventLog
  import opened Slugs
  import A = AliasProjector
  import ApiKeys
  import C = Commands
  import F = KeyFacts
  import K = KeysProjector
  import L = LedgerModel
  import LT = LedgerTheorems
  import LW = LedgerWorld
  import R = KeysRuns
  import Restart = KeysRestart
  import W = Kviam

  datatype KeyConfig = KeyConfig(id: string, name: string, org: string, project: string, allow: seq<string>)

  function ConfigOf(e: KeyEntry): KeyConfig {
    KeyConfig(e.id, e.name, e.org, e.project, e.allow)
  }

  function KeyConfigs(entries: map<string, KeyEntry>): map<string, KeyConfig> {
    map hash | hash in entries :: ConfigOf(entries[hash])
  }

  /** The rows of a snapshot that decode. */
  function Decoded<V>(entries: map<string, Option<V>>): map<string, V> {
    map key | key in entries && entries[key].Some? :: entries[key].value
  }

  function Authenticate(keys: map<string, KeyConfig>, hash: string): Option<KeyConfig> {
    if hash in keys then Some(keys[hash]) else None
  }

  function Resolve(aliases: map<string, AliasEntry>, org: string, alias: string): Option<AliasEntry> {
    if org != "" && BucketKey(org, alias) in aliases then Some(aliases[BucketKey(org, alias)])
    else if BucketKey(GLOBAL_SCOPE, alias) in aliases then Some(aliases[BucketKey(GLOBAL_SCOPE, alias)])
    else None
  }

  predicate Exceeded(budgets: map<string, BudgetEntry>, keyId: string) {
    keyId in budgets && budgets[keyId].exceeded
  }

  /** The three snapshots a gateway serves from. */
  class KVIAM {
    var keys: map<string, KeyConfig>
    var aliases: map<string, AliasEntry>
    var budgets: map<string, BudgetEntry>

    constructor ()
      ensures keys == map[] && aliases == map[] && budgets == map[]
    {
      keys, aliases, budgets := map[], map[], map[];
    }

    /** What the KEYS watch does with a snapshot: a row that does not decode is skipped. */
    method ApplyKeys(entries: map<string, Option<KeyEntry>>)
      modifies `keys
      ensures keys == KeyConfigs(Decoded(entries))
      ensures forall hash :: hash in keys <==> hash in entries && entries[hash].Some?
      ensures forall hash :: hash in keys ==>
                var (config, row) := (keys[hash], entries[hash].value);
                && config.id == row.id && config.name == row.name && config.org == row.org
                && config.project == row.project && config.allow == row.allow
    {
      var m: map<string, KeyConfig> := map[];
      var rest := entries.Keys;
      while rest != {}
        invariant rest <= entries.Keys
        invariant m == map hash | hash in entries && hash !in rest && entries[hash].Some? :: ConfigOf(entries[hash].value)
        decreases rest
      {
        var hash :| hash in rest;
        rest := rest - {hash};
        if entries[hash].None? {
          continue;
        }
        var row := entries[hash].value;
        m := m[hash := KeyConfig(row.id, row.name, row.org, row.project, row.allow)];
      }
      keys := m;
    }

    method AuthenticateKey(presented: string, hashKey: string -> string) returns (config: Option<KeyConfig>)
      ensures config == Authenticate(keys, hashKey(presented))
    {
      var hash := hashKey(presented);
      config := if hash in keys then Some(keys[hash]) else None;
    }

    method ResolveAlias(org: string, alias: string) returns (entry: Option<AliasEntry>)
      ensures entry == Resolve(aliases, org, alias)
    {
      if org != "" {
        if org + "/" + alias in aliases {
          return Some(aliases[org + "/" + alias]);
        }
      }
      var key := GLOBAL_SCOPE + "/" + alias;
      entry := if key in aliases then Some(aliases[key]) else None;
    }

    method BudgetExceeded(keyId: string) returns (exceeded: bool)
      ensures exceeded == Exceeded(budgets, keyId)
    {
      exceeded := keyId in budgets && budgets[keyId].exceeded;
    }
  }

  // ---------- Authentication ----------

  /** The key a hash stands for after a stretch of log: live, and under its current hash. */
  predicate IsCurrent(log: Log, id: string, hash: string) {
    K.LiveKey(log, id) && KeyState(log, id).hash == hash
  }

  /** What the gateway must know of a key: its id, org, project, name and allowlist. */
  predicate Describes(config: KeyConfig, id: string, s: ApiKeys.ApiKey) {
    && config.id == id && config.org == s.org && config.project == s.project
    && config.name == s.name && config.allow == s.allow
  }

  /** What a KEYS entry must hold of a key. */
  predicate Holds(entry: KeyEntry, id: string, s: ApiKeys.ApiKey) {
    && entry.id == id && entry.org == s.org && entry.project == s.project && entry.name == s.name && entry.allow == s.allow
    && entry.rateLimitRPM == s.rateLimitRpm && entry.monthlyTokenBudget == s.monthlyTokenBudget
  }

  /** On the fold of a log, a hash authenticates iff it is a live key's current one, and then as that key, field by field. */
  lemma AuthenticatesLiveKeysOnly(kv: K.Bucket, log: Log, hash: string, config: KeyConfig)
    requires K.IsImage(kv, log)
    ensures Authenticate(KeyConfigs(kv), hash) == Some(config) <==>
            exists id :: IsCurrent(log, id, hash) && Describes(config, id, KeyState(log, id))
  {
    hide KeyState;
    if hash in kv {
      var id := kv[hash].id;
      assert IsCurrent(log, id, hash);
      assert kv[hash] == K.EntryOf(id, KeyState(log, id));
    }
    forall id | IsCurrent(log, id, hash) ensures hash in kv && kv[hash] == K.EntryOf(id, KeyState(log, id)) {
      assert K.LiveKey(log, id);
    }
  }

  /** KEYS at one instant of some run of its projector since it was last emptied. */
  ghost predicate Projected(log: Log, kv: K.Bucket) {
    exists actions :: R.Run(log, actions).kv == kv
  }

  /** What a bucket holds among an event's writes it holds before them or after them. */
  lemma CutBetween(kv: K.Bucket, ws: seq<K.Write>, done: nat, hash: string)
    requires |ws| == 1 || (|ws| == 2 && ws[0].Put? && ws[1].Del? && ws[0].hash != ws[1].hash)
    requires done <= |ws|
    ensures var (cut, after) := (K.ApplyAll(kv, ws[..done]), K.ApplyAll(kv, ws));
            && (hash in cut ==> (hash in kv && cut[hash] == kv[hash]) || (hash in after && cut[hash] == after[hash]))
            && (hash in kv && hash in after ==> hash in cut)
  {
    hide K.ApplyAll;
    assert ws[..|ws|] == ws;
    Restart.CutBucket(kv, ws, done);
    Restart.CutBucket(kv, ws, |ws|);
  }

  /** The bucket when the events before k are in and done of k's own writes are made. */
  lemma CutAuthenticates(kv: K.Bucket, log: Log, k: nat, done: nat, hash: string)
    requires ValidLog(log) && FreshHashes(log) && k < |log| && log[k].KeyEnv? && K.IsImage(kv, log[..k])
    requires done <= |Restart.DueWrites(kv, log, k)|
    ensures var cut := K.ApplyAll(kv, Restart.DueWrites(kv, log, k)[..done]);
            && (hash in cut ==> exists h, id :: k <= h <= k + 1 && IsCurrent(log[..h], id, hash) && Holds(cut[hash], id, KeyState(log[..h], id)))
            && (forall id :: IsCurrent(log[..k], id, hash) && IsCurrent(log[..k + 1], id, hash) ==> hash in cut)
  {
    hide KeyState, K.IsImage, ValidLog, FreshHashes, Restart.DueWrites, K.ApplyAll, IsCurrent, Holds;
    var ws := Restart.DueWrites(kv, log, k);
    Restart.DueShape(log, k, kv);
    R.DueIsEvent(log, k, kv);
    var (cut, after) := (K.ApplyAll(kv, ws[..done]), K.ApplyAll(kv, ws));
    CutBetween(kv, ws, done, hash);
    ImageAuthenticates(kv, log[..k], hash);
    ImageAuthenticates(after, log[..k + 1], hash);
    if hash in cut {
      if hash in kv && cut[hash] == kv[hash] {
        assert IsCurrent(log[..k], kv[hash].id, hash);
      } else {
        assert IsCurrent(log[..k + 1], after[hash].id, hash);
      }
    }
  }

  lemma ImageAuthenticates(kv: K.Bucket, log: Log, hash: string)
    requires K.IsImage(kv, log)
    ensures hash in kv ==> IsCurrent(log, kv[hash].id, hash) && Holds(kv[hash], kv[hash].id, KeyState(log, kv[hash].id))
    ensures forall id :: IsCurrent(log, id, hash) ==> hash in kv
  {
    hide KeyState;
    forall id | IsCurrent(log, id, hash) ensures hash in kv {
      assert K.LiveKey(log, id);
    }
    if hash in kv {
      assert K.LiveKey(log, kv[hash].id);
    }
  }

  /**
   At every instant of every run of the projector, whatever failed or crashed, KEYS holds a hash only
   if some prefix of the log has it as a live key's current hash, with that key's fields.
   */
  lemma BucketNeverInvents(log: Log, kv: K.Bucket, hash: string)
    requires ValidLog(log) && FreshHashes(log) && Projected(log, kv)
    ensures hash in kv ==> exists h: nat, id :: h <= |log| && IsCurrent(log[..h], id, hash) && Holds(kv[hash], id, KeyState(log[..h], id))
  {
    hide KeyState, K.IsImage, ValidLog, FreshHashes, R.Run;
    var actions :| R.Run(log, actions).kv == kv;
    var base, k, done := R.MarkerNeverAhead(log, actions);
    if hash in kv {
      if k == |log| {
        var m := R.Run(log, actions).marker;
        ImageAuthenticates(base, log[..m], hash);
        assert IsCurrent(log[..m], kv[hash].id, hash);
      } else {
        R.NoKeyEventsBetween(log, R.Run(log, actions).marker, k, base);
        CutAuthenticates(base, log, k, done, hash);
        var h, id :| k <= h <= k + 1 && IsCurrent(log[..h], id, hash) && Holds(kv[hash], id, KeyState(log[..h], id));
      }
    }
  }

  /**
   The gateway, served by a watcher that dies and reconnects over a bucket that is rewritten and
   recreated at will, never accepts a credential that no prefix of the log made current.
   */
  lemma GatewayNeverInvents(log: Log, actions: seq<W.Action<KeyEntry>>, hash: string)
    requires ValidLog(log) && FreshHashes(log)
    requires forall i :: 0 <= i < |W.Run(actions).past| ==> Projected(log, W.Run(actions).past[i])
    requires W.Run(actions).client.ready
    ensures var config := Authenticate(KeyConfigs(W.Run(actions).client.snapshot), hash);
            config.Some? ==> exists h: nat, id :: h <= |log| && IsCurrent(log[..h], id, hash) && Describes(config.value, id, KeyState(log[..h], id))
  {
    hide KeyState, ValidLog, FreshHashes, W.Run, Projected, IsCurrent;
    W.ServedSnapshotsAreWhole(actions);
    BucketNeverInvents(log, W.Run(actions).client.snapshot, hash);
  }

  /** From concurrent admin commands to the gateway: after a resync of the log they produced, exactly its live keys get in. */
  lemma CommandsDecideAuthentication(commands: seq<C.Action>, hashes: K.HashMap, hash: string, config: KeyConfig)
    ensures var log := C.Run(commands).log;
            var p := K.Replay(K.Proj(map[], hashes, false), log);
            && !p.failed
            && (Authenticate(KeyConfigs(p.kv), hash) == Some(config) <==>
                exists id :: IsCurrent(log, id, hash) && Describes(config, id, KeyState(log, id)))
  {
    hide KeyState, ValidLog, FreshHashes, C.Run, K.Replay, IsCurrent;
    C.ConcurrentCommandsGiveValidLogs(commands);
    var log := C.Run(commands).log;
    K.ReplayFromStart(log, hashes);
    AuthenticatesLiveKeysOnly(K.Replay(K.Proj(map[], hashes, false), log).kv, log, hash, config);
  }

  // ---------- Aliases ----------

  /** Two pairs, one of them valid, share a stream id only if they are the same pair. */
  lemma StreamOfValidPair(scope: string, name: string, scope': string, name': string)
    requires ValidAlias(scope, name) && (scope' == GLOBAL_SCOPE || ValidSlug(scope'))
    requires AliasStreamId(scope, name) == AliasStreamId(scope', name')
    ensures scope == scope' && name == name'
  {
    hide ValidSlug;
    ValidAliasRoundTrip(scope, name);
    ScopeIsPlain(scope');
    if name' != "" {
      SplitInvertsIff(scope', name');
    } else {
      EmptyNameIsRefused(scope');
    }
  }

  lemma ScopeIsPlain(scope: string)
    requires scope == GLOBAL_SCOPE || ValidSlug(scope)
    ensures scope != "" && '/' !in scope && (scope == GLOBAL_SCOPE || '_' !in scope)
  {
    if scope != GLOBAL_SCOPE {
      SlugsHaveNoSeparators(scope);
    }
  }

  lemma EmptyNameIsRefused(scope: string)
    ensures SplitAliasStreamId(AliasStreamId(scope, "")) != Ok((scope, ""))
    ensures scope == GLOBAL_SCOPE || '_' !in scope ==> SplitAliasStreamId(AliasStreamId(scope, "")).Err?
  {
    SplitInvertsIff(scope, "");
    if scope == GLOBAL_SCOPE {
      CutAtFirst("g", "");
      assert "g" + "_" + "" == AliasStreamId(scope, "");
    } else if '_' !in scope {
      CutAtFirst("o", scope + "_" + "");
      assert "o" + "_" + (scope + "_" + "") == AliasStreamId(scope, "");
      CutAtFirst(scope, "");
    }
  }

  /** Only streams of valid pairs ever get an event. */
  lemma {:induction false} OtherStreamsStayEmpty(log: Log, scope: string, name: string)
    requires ValidLog(log) && (scope == GLOBAL_SCOPE || ValidSlug(scope)) && !ValidAlias(scope, name)
    ensures AliasState(log, AliasStreamId(scope, name)).target == ""
  {
    hide ValidAlias, ValidSlug, AliasStreamId, Slug;
    if log != [] {
      var n := |log| - 1;
      ValidPrefix(log, n);
      OtherStreamsStayEmpty(log[..n], scope, name);
      if log[n].AliasEnv? {
        var s, m := A.AliasEventDecided(log, n);
        if log[n].id == AliasStreamId(scope, name) {
          StreamOfValidPair(s, m, scope, name);
        }
      }
    }
  }

  /** Looking up any name under an org's scope or the global one finds the live alias of that very pair, or nothing. */
  lemma LookupIsAlias(kv: A.Bucket, log: Log, scope: string, name: string)
    requires ValidLog(log) && A.IsImage(kv, log) && (scope == GLOBAL_SCOPE || ValidSlug(scope))
    ensures A.Lookup(kv, BucketKey(scope, name)) == A.AliasAt(log, scope, name)
  {
    hide ValidAlias, ValidSlug, AliasStreamId, BucketKey, AliasState;
    assert A.PairOk(kv, log, scope, name);
    if !ValidAlias(scope, name) {
      OtherStreamsStayEmpty(log, scope, name);
      if BucketKey(scope, name) in kv {
        assert A.KeyOk(BucketKey(scope, name));
        var s, n :| ValidAlias(s, n) && BucketKey(scope, name) == BucketKey(s, n);
        ScopeHasNoSlash(s, n);
        ScopeIsPlain(scope);
        BucketKeysInjective(scope, name, s, n);
      }
    }
  }

  /**
   On the fold of a log, ResolveAlias answers the org's own live alias, else the global one, else
   nothing, for every requested name, valid or not, and for keys with no org.
   */
  lemma {:induction false} ResolvesOrgThenGlobal(kv: A.Bucket, log: Log, org: string, alias: string)
    requires ValidLog(log) && A.IsImage(kv, log) && (org == "" || ValidSlug(org))
    ensures Resolve(kv, org, alias) ==
            if org != "" && A.AliasAt(log, org, alias).Some? then A.AliasAt(log, org, alias)
            else A.AliasAt(log, GLOBAL_SCOPE, alias)
  {
    hide A.AliasAt, BucketKey, ValidSlug, A.IsImage;
    if org != "" {
      LookupIsAlias(kv, log, org, alias);
    }
    LookupIsAlias(kv, log, GLOBAL_SCOPE, alias);
  }

  /** The org of every existing key is a slug, so the last lemma covers every authenticated request. */
  lemma {:induction false} KeyOrgsAreSlugs(log: Log, id: string)
    requires ValidLog(log)
    ensures K.Exists(log, id) ==> ValidSlug(KeyState(log, id).org)
  {
    hide ValidSlug, Slug;
    if log != [] {
      var n := |log| - 1;
      ValidPrefix(log, n);
      KeyOrgsAreSlugs(log[..n], id);
      if log[n].KeyEnv? && log[n].id == id {
        K.KeyEventDecided(log, n);
        assert Decided(log, n);
        var c :| Emits(log[..n], c, log[n]);
      }
    }
  }

  // ---------- Budgets ----------

  /**
   After any interleaving of the ledger's actors, for a live, baselined id with nothing left to
   publish, the gateway blocks on what BUDGETS holds exactly when usage has reached the budget.
   */
  lemma BlocksWhenBudgetIsUsedUp(actions: seq<LW.Action>, id: string)
    requires L.Live(LW.Run(actions).ledger, id)
    requires LW.Run(actions).ledger.entries[id].baselineLoaded && id !in LW.Run(actions).ledger.dirty
    ensures var w := LW.Run(actions);
            Exceeded(w.budgets, id) <==> w.ledger.entries[id].used >= w.ledger.entries[id].budget
  {
    LT.CleanRowsArePublished(actions, id);
  }

  /** After a quiet spell it blocks exactly the ids KEYS gives a positive budget that the sink says is used up. */
  lemma {:induction false} QuietSpellBlocksExactly(actions: seq<LW.Action>, total: (string, string) -> int, id: string)
    requires LW.Run(actions).phase.Idle?
    ensures var w := LW.Run(actions);
            var folded := L.Fold(w.keys);
            Exceeded(LT.QuietSpell(w.ledger, w.budgets, total).1, id) <==>
            id in folded && folded[id] > 0 && id in w.ledger.entries && total(id, w.ledger.entries[id].month) >= folded[id]
  {
    hide LT.QuietSpell, L.Fold, LW.Run;
    LT.QuietSpellConverges(actions, total);
    var w := LW.Run(actions);
    assert LW.FollowsKeys(w.ledger, w.keys, id);
  }

  /** KEYS as a snapshot in which every row decodes. */
  function Watched(kv: K.Bucket): L.KeysSnapshot {
    map hash | hash in kv :: Some(kv[hash])
  }

  /**
   From the log to the ledger: with KEYS the fold of a decided log, a key has a live budget row iff it was
   created, is not disabled and was last given a positive budget; and that is the row's budget.
   */
  lemma LedgerFollowsLog(actions: seq<LW.Action>, kv: K.Bucket, log: Log, id: string)
    requires ValidLog(log) && K.IsImage(kv, log) && LW.Run(actions).keys == Watched(kv) && id != ""
    ensures var (ledger, limits) := (LW.Run(actions).ledger, F.LastLimits(log, id));
            && (L.Live(ledger, id) <==> F.Usable(log, id) && limits.Some? && limits.value.1 > 0)
            && (L.Live(ledger, id) ==> ledger.entries[id].budget == limits.value.1)
  {
    hide KeyState, ValidLog, LW.Run, F.LastLimits, F.Usable, F.LastHash, K.IsImage;
    F.FoldShowsEvents(kv, log);
    LT.LiveRowsFollowKeys(actions);
    forall hash | L.Contributes(Watched(kv), hash, id)
      ensures F.Usable(log, id) && F.LastLimits(log, id) == Some((kv[hash].rateLimitRPM, kv[hash].monthlyTokenBudget))
    {
    }
    if F.Usable(log, id) {
      assert L.Contributes(Watched(kv), F.LastHash(log, id).value, id);
    }
  }
}
