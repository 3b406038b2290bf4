/** The alias aggregate (internal/controlplane/alias/decider.go). */
module Aliases {
  import opened Wrappers
  import opened Slugs

  /** An empty target that is not deleted means that no alias was ever set. */
  datatype Alias = Alias(target: string, params: map<string, string>, deleted: bool)

  const NO_ALIAS := Alias("", map[], false)

  datatype AliasCommand = Set(target: string, params: map<string, string>) | Delete

  datatype AliasEvent = AliasSet(target: string, params: map<string, string>) | AliasDeleted

  datatype AliasError = InvalidTarget | ReservedParam

  /** Unicode simple folding as far as the reserved names can tell: the long s also folds onto s. */
  function Fold(c: char): char {
    if c == '\U{017F}' then 's' else Lower(c)
  }

  function Folded(s: string): string {
    seq(|s|, i requires 0 <= i < |s| => Fold(s[i]))
  }

  predicate Reserved(param: string) {
    Folded(param) == "model" || Folded(param) == "stream"
  }

  function Decide(s: Alias, cmd: AliasCommand): Result<seq<AliasEvent>, AliasError> {
    match cmd
    case Set(target, params) =>
      if Slug(target) == "" then Err(InvalidTarget)
      else if exists k :: k in params && Reserved(k) then Err(ReservedParam)
      else Ok([AliasSet(target, params)])
    case Delete =>
      if s.target == "" || s.deleted then Ok([]) else Ok([AliasDeleted])
  }

  function Evolve(s: Alias, e: AliasEvent): Alias {
    match e
    case AliasSet(target, params) => Alias(target, params, false)
    case AliasDeleted => s.(deleted := true)
  }

  predicate IsLive(s: Alias) {
    s.target != "" && !s.deleted
  }

  /** What a live alias satisfies: a target some model could have, and no parameter the gateway reserves. */
  ghost predicate WellFormed(s: Alias) {
    IsLive(s) ==> Slug(s.target) != "" && forall k :: k in s.params ==> !Reserved(k)
  }

  lemma EmptyHasNoSlug()
    ensures Slug("") == ""
  {
    assert Squeeze("") == "";
  }

  function EvolveAll(s: Alias, es: seq<AliasEvent>): Alias {
    if es == [] then s else Evolve(EvolveAll(s, es[..|es| - 1]), es[|es| - 1])
  }

  /** Equal up to case, and up to the long s. */
  predicate SameIgnoringCase(s: string, lower: string) {
    |s| == |lower| && forall i :: 0 <= i < |s| ==>
      s[i] == lower[i] || ('A' <= s[i] <= 'Z' && s[i] as int + 32 == lower[i] as int) || (s[i] == '\U{017F}' && lower[i] == 's')
  }

  /** A reserved name is one of two, in any case. */
  lemma ReservedIff(param: string)
    ensures Reserved(param) <==> SameIgnoringCase(param, "model") || SameIgnoringCase(param, "stream")
  {
    FoldedIff(param, "model");
    FoldedIff(param, "stream");
  }

  lemma FoldedIff(s: string, lower: string)
    requires forall i :: 0 <= i < |lower| ==> 'a' <= lower[i] <= 'z' && lower[i] != 'k' && lower[i] != 'i'
    ensures Folded(s) == lower <==> SameIgnoringCase(s, lower)
  {
    if SameIgnoringCase(s, lower) {
      assert forall i :: 0 <= i < |s| ==> Folded(s)[i] == lower[i];
    }
    if Folded(s) == lower {
      assert forall i :: 0 <= i < |s| ==> Fold(s[i]) == lower[i];
    }
  }

  predicate HasReserved(params: map<string, string>) {
    exists k :: k in params && (SameIgnoringCase(k, "model") || SameIgnoringCase(k, "stream"))
  }

  /** Why a command is refused; a delete never is. */
  function Refusal(cmd: AliasCommand): Option<AliasError> {
    if cmd.Delete? then None
    else if Slug(cmd.target) == "" then Some(InvalidTarget)
    else if HasReserved(cmd.params) then Some(ReservedParam)
    else None
  }

  /** What a command asks of the alias. */
  predicate Fulfils(s: Alias, cmd: AliasCommand, s': Alias) {
    match cmd
    case Set(target, params) => s'.target == target && s'.params == params && !s'.deleted
    case Delete => !IsLive(s') && s'.target == s.target && s'.params == s.params
  }

  /** A command is refused for exactly the stated reason, and otherwise its events make the alias what it asks. */
  lemma DecisionsTakeEffect(s: Alias, cmd: AliasCommand)
    ensures var r := Decide(s, cmd);
            && (r.Err? ==> Refusal(cmd) == Some(r.error))
            && (r.Ok? ==> Refusal(cmd) == None && Fulfils(s, cmd, EvolveAll(s, r.value)))
  {
    hide Slug, Reserved, SameIgnoringCase;
    var r := Decide(s, cmd);
    if cmd.Set? {
      forall k ensures Reserved(k) <==> SameIgnoringCase(k, "model") || SameIgnoringCase(k, "stream") {
        ReservedIff(k);
      }
    }
    if r.Ok? && r.value != [] {
      assert r.value[..0] == [];
      assert EvolveAll(s, r.value) == Evolve(s, r.value[0]);
    }
  }
}
