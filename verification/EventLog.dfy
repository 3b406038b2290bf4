/**
 The control plane's event log: envelopes of three aggregate types in one global order, the state
 each stream folds to, and what it means for a log to have been produced by the deciders.
 */
module EventLog {
  import opened Wrappers
  import opened AliasIds
  import opened Slugs
  import ApiKeys
  import Aliases
  import Orgs

  datatype Envelope =
    | OrgEnv(id: string, org: Orgs.OrgEvent)
    | KeyEnv(id: string, key: ApiKeys.KeyEvent)
    | AliasEnv(id: string, alias: Aliases.AliasEvent)

  /** The envelope at index i has global position i + 1. */
  type Log = seq<Envelope>

  datatype StreamType = OrgStream | KeyStream | AliasStream

  datatype StreamId = StreamId(kind: StreamType, id: string)

  function StreamOf(e: Envelope): StreamId {
    match e
    case OrgEnv(id, _) => StreamId(OrgStream, id)
    case KeyEnv(id, _) => StreamId(KeyStream, id)
    case AliasEnv(id, _) => StreamId(AliasStream, id)
  }

  // ---------- States ----------

  function OrgState(log: Log, id: string): Orgs.Org {
    if log == [] then Orgs.NO_ORG
    else
      var before, e := OrgState(log[..|log| - 1], id), log[|log| - 1];
      if e.OrgEnv? && e.id == id then Orgs.Evolve(before, e.org) else before
  }

  function KeyState(log: Log, id: string): ApiKeys.ApiKey {
    if log == [] then ApiKeys.NO_KEY
    else
      var before, e := KeyState(log[..|log| - 1], id), log[|log| - 1];
      if e.KeyEnv? && e.id == id then ApiKeys.Evolve(before, e.key) else before
  }

  function AliasState(log: Log, id: string): Aliases.Alias {
    if log == [] then Aliases.NO_ALIAS
    else
      var before, e := AliasState(log[..|log| - 1], id), log[|log| - 1];
      if e.AliasEnv? && e.id == id then Aliases.Evolve(before, e.alias) else before
  }

  // ---------- Commands ----------

  datatype Command =
    | OrgCmd(id: string, org: Orgs.OrgCommand)
    | KeyCmd(id: string, key: ApiKeys.KeyCommand)
    | AliasCmd(id: string, alias: Aliases.AliasCommand)

  function TargetOf(c: Command): StreamId {
    match c
    case OrgCmd(id, _) => StreamId(OrgStream, id)
    case KeyCmd(id, _) => StreamId(KeyStream, id)
    case AliasCmd(id, _) => StreamId(AliasStream, id)
  }

  /** The hash a command introduces, if any. */
  function Mints(c: Command): Option<string> {
    if c.KeyCmd? && c.key.Create? then Some(c.key.hash)
    else if c.KeyCmd? && c.key.Rotate? then Some(c.key.newHash)
    else None
  }

  /**
   What the admin handlers send: an org and a key are created under their own non-empty ids, a key
   in an org that is a slug, and an alias stream is named after a scope and a name they have
   validated.
   */
  ghost predicate Issued(c: Command) {
    && (c.OrgCmd? && c.org.CreateOrg? ==> c.org.id == c.id && c.id != "")
    && (c.KeyCmd? && c.key.Create? ==> c.key.id == c.id && c.id != "" && ValidSlug(c.key.org))
    && (c.AliasCmd? ==> exists scope, name :: ValidAlias(scope, name) && c.id == AliasStreamId(scope, name))
  }

  /**
   The envelopes a command appends when decided on a log: none if it is rejected or changes
   nothing, else one; DecideIsSingle says that no decider returns more.
   */
  function Emission(log: Log, c: Command): seq<Envelope> {
    match c
    case OrgCmd(id, cmd) =>
      var r := Orgs.Decide(OrgState(log, id), cmd);
      if r.Ok? && r.value != [] then [OrgEnv(id, r.value[0])] else []
    case KeyCmd(id, cmd) =>
      var r := ApiKeys.Decide(KeyState(log, id), cmd);
      if r.Ok? && r.value != [] then [KeyEnv(id, r.value[0])] else []
    case AliasCmd(id, cmd) =>
      var r := Aliases.Decide(AliasState(log, id), cmd);
      if r.Ok? && r.value != [] then [AliasEnv(id, r.value[0])] else []
  }

  lemma DecideIsSingle(org: Orgs.Org, orgCmd: Orgs.OrgCommand, key: ApiKeys.ApiKey, keyCmd: ApiKeys.KeyCommand,
                       alias: Aliases.Alias, aliasCmd: Aliases.AliasCommand)
    ensures Orgs.Decide(org, orgCmd).Ok? ==> |Orgs.Decide(org, orgCmd).value| <= 1
    ensures ApiKeys.Decide(key, keyCmd).Ok? ==> |ApiKeys.Decide(key, keyCmd).value| <= 1
    ensures Aliases.Decide(alias, aliasCmd).Ok? ==> |Aliases.Decide(alias, aliasCmd).value| <= 1
  {
  }

  /** A decided command appends at most one envelope, to its own stream. */
  lemma EmissionShape(log: Log, c: Command)
    ensures |Emission(log, c)| <= 1
    ensures forall e :: e in Emission(log, c) ==> StreamOf(e) == TargetOf(c)
  {
  }

  ghost predicate Emits(log: Log, c: Command, e: Envelope) {
    Issued(c) && Emission(log, c) == [e]
  }

  ghost predicate Decided(log: Log, i: nat)
    requires i < |log|
  {
    exists c :: Emits(log[..i], c, log[i])
  }

  /** Every envelope was decided on the state the log before it folds to. */
  ghost predicate ValidLog(log: Log) {
    forall i :: 0 <= i < |log| ==> Decided(log, i)
  }

  lemma ValidPrefix(log: Log, k: nat)
    requires ValidLog(log) && k <= |log|
    ensures ValidLog(log[..k])
  {
    forall i | 0 <= i < k ensures Decided(log[..k], i) {
      assert Decided(log, i);
      assert log[..k][..i] == log[..i];
    }
  }

  lemma ValidExtend(log: Log, c: Command)
    requires ValidLog(log) && Issued(c)
    ensures ValidLog(log + Emission(log, c))
  {
    EmissionShape(log, c);
    var log' := log + Emission(log, c);
    forall i | 0 <= i < |log'| ensures Decided(log', i) {
      if i < |log| {
        assert Decided(log, i);
        assert log'[..i] == log[..i] && log'[i] == log[i];
        var d :| Emits(log[..i], d, log[i]);
        assert Emits(log'[..i], d, log'[i]);
      } else {
        assert log'[..i] == log;
        assert Emission(log, c) == [log'[i]];
        assert Emits(log'[..i], c, log'[i]);
      }
    }
  }

  // ---------- Hashes ----------

  function Introduces(e: Envelope): Option<string> {
    if e.KeyEnv? && e.key.Created? then Some(e.key.hash)
    else if e.KeyEnv? && e.key.Rotated? then Some(e.key.newHash)
    else None
  }

  /** Every hash the log introduces is non-empty and new. */
  ghost predicate FreshHashes(log: Log) {
    && (forall i :: 0 <= i < |log| && Introduces(log[i]).Some? ==> Introduces(log[i]).value != "")
    && (forall i, j :: 0 <= i < j < |log| && Introduces(log[i]).Some? ==> Introduces(log[i]) != Introduces(log[j]))
  }

  // ---------- Versions ----------

  function Version(log: Log, sid: StreamId): nat {
    if log == [] then 0
    else Version(log[..|log| - 1], sid) + if StreamOf(log[|log| - 1]) == sid then 1 else 0
  }

  /** What a command would append depends only on its own stream, so an unchanged version means an unchanged answer. */
  lemma {:induction false} SameVersionSameEmission(log: Log, k: nat, c: Command)
    requires k <= |log|
    ensures Version(log[..k], TargetOf(c)) <= Version(log, TargetOf(c))
    ensures Version(log[..k], TargetOf(c)) == Version(log, TargetOf(c)) ==> Emission(log[..k], c) == Emission(log, c)
  {
    if k == |log| {
      assert log[..k] == log;
    } else {
      var init := log[..|log| - 1];
      SameVersionSameEmission(init, k, c);
      assert init[..k] == log[..k];
    }
  }
}
