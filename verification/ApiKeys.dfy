/** The apikey aggregate (internal/controlplane/apikey/decider.go). */
module ApiKeys {
  import opened Wrappers

  /** An empty id means that the stream has no key yet. */
  datatype ApiKey = ApiKey(
    id: string,
    org: string,
    project: string,
    name: string,
    hash: string,
    allow: seq<string>,
    rateLimitRpm: int,
    monthlyTokenBudget: int,
    disabled: bool)

  const NO_KEY := ApiKey("", "", "", "", "", [], 0, 0, false)

  datatype KeyCommand =
    | Create(id: string, org: string, project: string, name: string, hash: string,
             allow: seq<string>, rateLimitRpm: int, monthlyTokenBudget: int)
    | Rotate(newHash: string)
    | Disable
    | SetAllowlist(newAllow: seq<string>)
    | SetLimits(newRpm: int, newBudget: int)

  datatype KeyEvent =
    | Created(id: string, org: string, project: string, name: string, hash: string,
              allow: seq<string>, rateLimitRpm: int, monthlyTokenBudget: int)
    | Rotated(newHash: string, previousHash: string)
    | Disabled(currentHash: string)
    | AllowlistChanged(newAllow: seq<string>)
    | LimitsChanged(newRpm: int, newBudget: int)

  datatype KeyError = AlreadyExists | NotFound | KeyIsDisabled

  function Decide(s: ApiKey, cmd: KeyCommand): Result<seq<KeyEvent>, KeyError> {
    match cmd
    case Create(id, org, project, name, hash, allow, rpm, budget) =>
      if s.id != "" then Err(AlreadyExists)
      else Ok([Created(id, org, project, name, hash, allow, rpm, budget)])
    case Rotate(newHash) =>
      if s.id == "" then Err(NotFound)
      else if s.disabled then Err(KeyIsDisabled)
      else Ok([Rotated(newHash, s.hash)])
    case Disable =>
      if s.id == "" then Err(NotFound)
      else if s.disabled then Ok([])
      else Ok([Disabled(s.hash)])
    case SetAllowlist(allow) =>
      if s.id == "" then Err(NotFound)
      else if s.disabled then Err(KeyIsDisabled)
      else Ok([AllowlistChanged(allow)])
    case SetLimits(rpm, budget) =>
      if s.id == "" then Err(NotFound)
      else if s.disabled then Err(KeyIsDisabled)
      else Ok([LimitsChanged(rpm, budget)])
  }

  function Evolve(s: ApiKey, e: KeyEvent): ApiKey {
    match e
    case Created(id, org, project, name, hash, allow, rpm, budget) =>
      ApiKey(id, org, project, name, hash, allow, rpm, budget, false)
    case Rotated(newHash, _) => s.(hash := newHash)
    case Disabled(_) => s.(disabled := true)
    case AllowlistChanged(allow) => s.(allow := allow)
    case LimitsChanged(rpm, budget) => s.(rateLimitRpm := rpm, monthlyTokenBudget := budget)
  }

  function EvolveAll(s: ApiKey, es: seq<KeyEvent>): ApiKey {
    if es == [] then s else Evolve(EvolveAll(s, es[..|es| - 1]), es[|es| - 1])
  }

  /** Why a command is refused: what a caller can read off the key beforehand. */
  function Refusal(s: ApiKey, cmd: KeyCommand): Option<KeyError> {
    if cmd.Create? then (if s.id == "" then None else Some(AlreadyExists))
    else if s.id == "" then Some(NotFound)
    else if s.disabled && !cmd.Disable? then Some(KeyIsDisabled)
    else None
  }

  /** What a command asks of the key; what it does not mention stays. */
  predicate Fulfils(s: ApiKey, cmd: KeyCommand, s': ApiKey) {
    match cmd
    case Create(_, _, _, _, _, _, _, _) =>
      && s'.id == cmd.id && s'.org == cmd.org && s'.project == cmd.project && s'.name == cmd.name && s'.hash == cmd.hash
      && s'.allow == cmd.allow && s'.rateLimitRpm == cmd.rateLimitRpm && s'.monthlyTokenBudget == cmd.monthlyTokenBudget
      && !s'.disabled
    case Rotate(_) => s' == s.(hash := cmd.newHash)
    case Disable => s' == s.(disabled := true)
    case SetAllowlist(_) => s' == s.(allow := cmd.newAllow)
    case SetLimits(_, _) => s' == s.(rateLimitRpm := cmd.newRpm, monthlyTokenBudget := cmd.newBudget)
  }

  /** A command is refused for exactly the stated reason, and otherwise its events make the key what it asks. */
  lemma DecisionsTakeEffect(s: ApiKey, cmd: KeyCommand)
    ensures var r := Decide(s, cmd);
            && (r.Err? ==> Refusal(s, cmd) == Some(r.error))
            && (r.Ok? ==> Refusal(s, cmd) == None && Fulfils(s, cmd, EvolveAll(s, r.value)))
  {
    var r := Decide(s, cmd);
    if r.Ok? && r.value != [] {
      assert r.value[..0] == [];
      assert EvolveAll(s, r.value) == Evolve(s, r.value[0]);
    }
  }
}
