/** Alias stream ids and bucket keys: the printer in admin.go and the parser in kvproj.go. */
module AliasIds {
  import opened Wrappers
  import opened Cpkv
  import opened Slugs

  datatype SplitError = MissingScopePrefix | EmptyName | MissingOrgSeparator | EmptyOrgOrName | UnknownScopePrefix

  function AliasStreamId(scope: string, name: string): string {
    if scope == GLOBAL_SCOPE then "g_" + name else "o_" + scope + "_" + name
  }

  /** strings.Cut(s, "_"): what lies before and after the first underscore, if there is one. */
  function Cut(s: string): Option<(string, string)> {
    if s == "" then None
    else if s[0] == '_' then Some(("", s[1..]))
    else
      match Cut(s[1..])
      case None => None
      case Some((before, after)) => Some(([s[0]] + before, after))
  }

  function SplitAliasStreamId(id: string): Result<(string, string), SplitError> {
    match Cut(id)
    case None => Err(MissingScopePrefix)
    case Some((prefix, rest)) =>
      if prefix == "g" then
        if rest == "" then Err(EmptyName) else Ok((GLOBAL_SCOPE, rest))
      else if prefix == "o" then
        match Cut(rest)
        case None => Err(MissingOrgSeparator)
        case Some((orgId, name)) => if orgId == "" || name == "" then Err(EmptyOrgOrName) else Ok((orgId, name))
      else Err(UnknownScopePrefix)
  }

  function BucketKey(scope: string, name: string): string {
    scope + "/" + name
  }

  lemma {:induction false} CutAtFirst(before: string, after: string)
    requires '_' !in before
    ensures Cut(before + "_" + after) == Some((before, after))
  {
    var s := before + "_" + after;
    if before == "" {
      assert s[1..] == after;
    } else {
      CutAtFirst(before[1..], after);
      assert s[1..] == before[1..] + "_" + after;
      assert [s[0]] + before[1..] == before;
    }
  }

  lemma {:induction false} CutSplits(s: string)
    ensures Cut(s).Some? ==>
              && '_' !in Cut(s).value.0
              && s == Cut(s).value.0 + "_" + Cut(s).value.1
    ensures Cut(s).None? ==> '_' !in s
  {
    if s != "" && s[0] != '_' {
      CutSplits(s[1..]);
      assert s == [s[0]] + s[1..];
    }
  }

  /** For which pairs the parser undoes the printer: exactly these. */
  lemma SplitInvertsIff(scope: string, name: string)
    ensures SplitAliasStreamId(AliasStreamId(scope, name)) == Ok((scope, name)) <==>
            name != "" && (scope == GLOBAL_SCOPE || (scope != "" && '_' !in scope))
  {
    if scope == GLOBAL_SCOPE {
      CutAtFirst("g", name);
      assert "g" + "_" + name == AliasStreamId(scope, name);
    } else {
      var rest := scope + "_" + name;
      CutAtFirst("o", rest);
      assert "o" + "_" + rest == AliasStreamId(scope, name);
      CutSplits(rest);
      if '_' !in scope {
        CutAtFirst(scope, name);
      }
    }
  }

  /** Whatever the parser accepts, the printer prints back. */
  lemma PrintInvertsSplit(id: string)
    requires SplitAliasStreamId(id).Ok?
    ensures var (scope, name) := SplitAliasStreamId(id).value; AliasStreamId(scope, name) == id
  {
    CutSplits(id);
    var (prefix, rest) := Cut(id).value;
    CutSplits(rest);
  }

  /** The scopes and names the admin API admits. */
  predicate ValidAlias(scope: string, name: string) {
    (scope == GLOBAL_SCOPE || ValidSlug(scope)) && ValidSlug(name)
  }

  lemma SlugsHaveNoSeparators(s: string)
    requires ValidSlug(s)
    ensures '_' !in s && '/' !in s && s != GLOBAL_SCOPE
  {
    SlugFixpointIff(s);
    assert '_' == GLOBAL_SCOPE[0];
  }

  lemma ValidAliasRoundTrip(scope: string, name: string)
    requires ValidAlias(scope, name)
    ensures SplitAliasStreamId(AliasStreamId(scope, name)) == Ok((scope, name))
  {
    SplitInvertsIff(scope, name);
    if scope != GLOBAL_SCOPE {
      SlugsHaveNoSeparators(scope);
    }
  }

  /** Two valid aliases never share a stream. */
  lemma StreamIdsInjective(scope: string, name: string, scope': string, name': string)
    requires ValidAlias(scope, name) && ValidAlias(scope', name')
    requires AliasStreamId(scope, name) == AliasStreamId(scope', name')
    ensures scope == scope' && name == name'
  {
    ValidAliasRoundTrip(scope, name);
    ValidAliasRoundTrip(scope', name');
  }

  /** Bucket keys agree only for the same pair, whatever the names, when no scope holds a slash. */
  lemma BucketKeysInjective(scope: string, name: string, scope': string, name': string)
    requires '/' !in scope && '/' !in scope'
    requires BucketKey(scope, name) == BucketKey(scope', name')
    ensures scope == scope' && name == name'
  {
    var k := BucketKey(scope, name);
    assert k[|scope|] == '/' && k[|scope'|] == '/';
    assert k[..|scope|] == scope && k[..|scope'|] == scope';
    assert forall i :: 0 <= i < |scope| ==> k[i] == scope[i] && k[i] != '/';
    assert forall i :: 0 <= i < |scope'| ==> k[i] == scope'[i] && k[i] != '/';
    assert |scope| == |scope'|;
    assert k[|scope| + 1..] == name && k[|scope'| + 1..] == name';
  }

  /** Two valid pairs that differ share neither a stream nor a bucket key. */
  lemma PairsApart(scope: string, name: string, scope': string, name': string)
    requires ValidAlias(scope, name) && ValidAlias(scope', name') && (scope, name) != (scope', name')
    ensures AliasStreamId(scope, name) != AliasStreamId(scope', name')
    ensures BucketKey(scope, name) != BucketKey(scope', name')
  {
    if AliasStreamId(scope, name) == AliasStreamId(scope', name') {
      StreamIdsInjective(scope, name, scope', name');
    }
    ScopeHasNoSlash(scope, name);
    ScopeHasNoSlash(scope', name');
    if BucketKey(scope, name) == BucketKey(scope', name') {
      BucketKeysInjective(scope, name, scope', name');
    }
  }

  lemma ScopeHasNoSlash(scope: string, name: string)
    requires ValidAlias(scope, name)
    ensures '/' !in scope
  {
    if scope != GLOBAL_SCOPE {
      SlugsHaveNoSeparators(scope);
    }
  }
}
