/**
 The ALIASES counterpart of KeysEmptied: a start on an emptied bucket whose marker was not set back. No
 alias event needs a stored entry, so the start never stops; what is missing is every alias set before
 the marker that no later event concerns.
 */
module AliasesEmptied {
  import opened Wrappers
  import opened AliasIds
  import opened EventLog
  import opened AliasProjector

  /** An event at m, ..., k - 1 concerns the alias. */
  predicate Touched(log: Log, m: nat, k: nat, id: string) {
    exists j :: m <= j < k && j < |log| && log[j].AliasEnv? && log[j].id == id
  }

  ghost predicate YoungPair(kv: Bucket, log: Log, m: nat, k: nat, scope: string, name: string)
    requires k <= |log|
  {
    ValidAlias(scope, name) ==>
      Lookup(kv, BucketKey(scope, name)) ==
      if Touched(log, m, k, AliasStreamId(scope, name)) then AliasAt(log[..k], scope, name) else None
  }

  /** The live aliases among those an event since m concerns, and nothing else. */
  ghost predicate HasYoungOnly(kv: Bucket, log: Log, m: nat, k: nat)
    requires k <= |log|
  {
    && (forall scope, name :: YoungPair(kv, log, m, k, scope, name))
    && (forall key :: key in kv ==> KeyOk(key))
  }

  lemma TouchedNext(log: Log, m: nat, k: nat, id: string)
    requires m <= k < |log|
    ensures Touched(log, m, k + 1, id) <==> Touched(log, m, k, id) || (log[k].AliasEnv? && log[k].id == id)
  {
    if Touched(log, m, k, id) {
      var j :| m <= j < k && j < |log| && log[j].AliasEnv? && log[j].id == id;
      assert m <= j < k + 1;
    }
  }

  lemma EmptyIsYoung(log: Log, m: nat)
    requires m <= |log|
    ensures HasYoungOnly(map[], log, m, m)
  {
  }

  lemma EventKeepsYoungPair(kv: Bucket, log: Log, m: nat, k: nat, scope: string, name: string, s: string, n: string)
    requires m <= k < |log| && log[k].AliasEnv? && ValidAlias(scope, name) && log[k].id == AliasStreamId(scope, name)
    requires SplitAliasStreamId(log[k].id) == Ok((scope, name))
    requires log[k].alias.AliasSet? ==> log[k].alias.target != ""
    requires YoungPair(kv, log, m, k, s, n)
    ensures YoungPair(Apply(kv, WriteOf(log[k].id, log[k].alias).value), log, m, k + 1, s, n)
  {
    hide Touched, ValidAlias, AliasStreamId, BucketKey, SplitAliasStreamId;
    TouchedNext(log, m, k, AliasStreamId(s, n));
    StateAfter(log, k, AliasStreamId(s, n));
    if ValidAlias(s, n) && (s, n) != (scope, name) {
      PairsApart(s, n, scope, name);
    }
  }

  lemma EventKeepsYoung(kv: Bucket, log: Log, m: nat, k: nat)
    requires ValidLog(log) && m <= k < |log| && log[k].AliasEnv? && HasYoungOnly(kv, log, m, k)
    ensures WriteOf(log[k].id, log[k].alias).Ok?
    ensures HasYoungOnly(Apply(kv, WriteOf(log[k].id, log[k].alias).value), log, m, k + 1)
  {
    hide YoungPair, ValidAlias, ValidLog;
    var scope, name := AliasEventDecided(log, k);
    var kv' := Apply(kv, WriteOf(log[k].id, log[k].alias).value);
    var next := k + 1;
    forall s, n ensures YoungPair(kv', log, m, next, s, n) {
      EventKeepsYoungPair(kv, log, m, k, scope, name, s, n);
    }
    forall key | key in kv' ensures KeyOk(key) {
      assert key in kv || key == BucketKey(scope, name);
    }
  }

  lemma OtherKeepsYoung(kv: Bucket, log: Log, m: nat, k: nat)
    requires m <= k < |log| && !log[k].AliasEnv? && HasYoungOnly(kv, log, m, k)
    ensures HasYoungOnly(kv, log, m, k + 1)
  {
    hide ValidAlias, Touched, AliasStreamId;
    var next := k + 1;
    forall scope, name ensures YoungPair(kv, log, m, next, scope, name) {
      assert YoungPair(kv, log, m, k, scope, name);
      TouchedNext(log, m, k, AliasStreamId(scope, name));
      StateAfter(log, k, AliasStreamId(scope, name));
    }
  }

  /** Every alias live at m has had an event since. */
  ghost predicate OldAreTouched(log: Log, m: nat)
    requires m <= |log|
  {
    forall scope, name :: ValidAlias(scope, name) && AliasAt(log[..m], scope, name).Some? ==>
      Touched(log, m, |log|, AliasStreamId(scope, name))
  }

  lemma {:induction false} UntouchedStays(log: Log, m: nat, k: nat, id: string)
    requires m <= k <= |log| && !Touched(log, m, k, id)
    ensures AliasState(log[..k], id) == AliasState(log[..m], id)
    decreases k
  {
    if m < k {
      TouchedNext(log, m, k - 1, id);
      UntouchedStays(log, m, k - 1, id);
      StateAfter(log, k - 1, id);
    }
  }

  /** That is the fold of the log iff every alias live at m has had an event since. */
  lemma YoungIsFoldIff(kv: Bucket, log: Log, m: nat)
    requires m <= |log| && HasYoungOnly(kv, log, m, |log|)
    ensures IsImage(kv, log) <==> OldAreTouched(log, m)
  {
    hide ValidAlias, Touched, AliasStreamId, BucketKey, Aliases.IsLive;
    assert log[..|log|] == log;
    forall scope, name
      ensures PairOk(kv, log, scope, name) <==>
              (ValidAlias(scope, name) && AliasAt(log[..m], scope, name).Some? ==> Touched(log, m, |log|, AliasStreamId(scope, name)))
    {
      assert YoungPair(kv, log, m, |log|, scope, name);
      if !Touched(log, m, |log|, AliasStreamId(scope, name)) {
        UntouchedStays(log, m, |log|, AliasStreamId(scope, name));
      }
    }
  }
}
