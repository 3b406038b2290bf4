/**
 What a request is told by handleWithRetry (internal/controlplane/admin.go), and what that means for its
 stream: an accepted command has made it what it asks, a refused one met a state that forbids it, and
 one that gave up lost two races.
 */
module CommandAnswers {
  import opened EventLog
  import opened Commands
  import Aliases
  import ApiKeys
  import Orgs

  /** The stream is after what the command asks of it as it was before. */
  ghost predicate Fulfilled(c: Command, before: Log, after: Log) {
    match c
    case OrgCmd(id, cmd) => Orgs.Refusal(OrgState(before, id), cmd).None? && Orgs.Fulfils(OrgState(before, id), cmd, OrgState(after, id))
    case KeyCmd(id, cmd) => ApiKeys.Refusal(KeyState(before, id), cmd).None? && ApiKeys.Fulfils(KeyState(before, id), cmd, KeyState(after, id))
    case AliasCmd(id, cmd) => Aliases.Refusal(cmd).None? && Aliases.Fulfils(AliasState(before, id), cmd, AliasState(after, id))
  }

  ghost predicate Forbidden(c: Command, log: Log) {
    match c
    case OrgCmd(id, cmd) => Orgs.Refusal(OrgState(log, id), cmd).Some?
    case KeyCmd(id, cmd) => ApiKeys.Refusal(KeyState(log, id), cmd).Some?
    case AliasCmd(id, cmd) => Aliases.Refusal(cmd).Some?
  }

  lemma OrgEvents(log: Log, id: string, cmd: Orgs.OrgCommand)
    ensures var (r, es) := (Orgs.Decide(OrgState(log, id), cmd), Emission(log, OrgCmd(id, cmd)));
            && (r.Ok? ==> OrgState(log + es, id) == Orgs.EvolveAll(OrgState(log, id), r.value))
            && (r.Err? ==> es == [])
  {
    hide Orgs.Evolve;
    var r := Orgs.Decide(OrgState(log, id), cmd);
    if r.Ok? && r.value != [] {
      assert (log + [OrgEnv(id, r.value[0])])[..|log|] == log;
      assert r.value[..0] == [] && |r.value| == 1;
    } else {
      assert log + [] == log;
    }
  }

  lemma KeyEvents(log: Log, id: string, cmd: ApiKeys.KeyCommand)
    ensures var (r, es) := (ApiKeys.Decide(KeyState(log, id), cmd), Emission(log, KeyCmd(id, cmd)));
            && (r.Ok? ==> KeyState(log + es, id) == ApiKeys.EvolveAll(KeyState(log, id), r.value))
            && (r.Err? ==> es == [])
  {
    hide ApiKeys.Evolve;
    var r := ApiKeys.Decide(KeyState(log, id), cmd);
    if r.Ok? && r.value != [] {
      assert (log + [KeyEnv(id, r.value[0])])[..|log|] == log;
      assert r.value[..0] == [] && |r.value| == 1;
    } else {
      assert log + [] == log;
    }
  }

  lemma AliasEvents(log: Log, id: string, cmd: Aliases.AliasCommand)
    ensures var (r, es) := (Aliases.Decide(AliasState(log, id), cmd), Emission(log, AliasCmd(id, cmd)));
            && (r.Ok? ==> AliasState(log + es, id) == Aliases.EvolveAll(AliasState(log, id), r.value))
            && (r.Err? ==> es == [])
  {
    hide Aliases.Evolve;
    var r := Aliases.Decide(AliasState(log, id), cmd);
    if r.Ok? && r.value != [] {
      assert (log + [AliasEnv(id, r.value[0])])[..|log|] == log;
      assert r.value[..0] == [] && |r.value| == 1;
    } else {
      assert log + [] == log;
    }
  }

  /** A command decided on a log is forbidden by it, or makes its stream what it asks. */
  lemma EmissionFulfils(log: Log, c: Command)
    ensures Agrees(log, c) ==> Fulfilled(c, log, log + Emission(log, c))
    ensures !Agrees(log, c) ==> Forbidden(c, log) && Emission(log, c) == []
  {
    hide OrgState, KeyState, AliasState, Orgs.Decide, ApiKeys.Decide, Aliases.Decide, Emission,
         Orgs.Fulfils, ApiKeys.Fulfils, Aliases.Fulfils, Orgs.Refusal, ApiKeys.Refusal, Aliases.Refusal,
         Orgs.EvolveAll, ApiKeys.EvolveAll, Aliases.EvolveAll;
    match c
    case OrgCmd(id, cmd) =>
      Orgs.DecisionsTakeEffect(OrgState(log, id), cmd);
      OrgEvents(log, id, cmd);
    case KeyCmd(id, cmd) =>
      ApiKeys.DecisionsTakeEffect(KeyState(log, id), cmd);
      KeyEvents(log, id, cmd);
    case AliasCmd(id, cmd) =>
      Aliases.DecisionsTakeEffect(AliasState(log, id), cmd);
      AliasEvents(log, id, cmd);
  }

  // ---------- Over every run ----------

  /** The verdict is true of the log. */
  ghost predicate Truthful(log: Log, a: Answer) {
    match a.verdict
    case Accepted(before, after) =>
      && a.begun <= before <= after <= |log| && after <= before + 1
      && (before < after ==> StreamOf(log[before]) == TargetOf(a.cmd))
      && Fulfilled(a.cmd, log[..before], log[..after])
    case Refused(at) => a.begun <= at <= |log| && Forbidden(a.cmd, log[..at])
    case GaveUp(at) =>
      && a.begun <= at <= |log|
      && exists i, j :: a.begun <= i < j < at && StreamOf(log[i]) == TargetOf(a.cmd) && StreamOf(log[j]) == TargetOf(a.cmd)
  }

  /** How many races a waiting request has lost. */
  ghost predicate Waits(log: Log, r: Request) {
    && r.begun <= |log|
    && var now := Version(log, TargetOf(r.cmd));
       match r
       case Loaded(c, begun, at, attempt) =>
         && begun <= at <= |log|
         && (attempt != 1 ==> Version(log[..at], TargetOf(c)) >= Version(log[..begun], TargetOf(c)) + 1)
       case Conflicted(c, begun) => now >= Version(log[..begun], TargetOf(c)) + 1
  }

  ghost predicate AnswersOk(s: State) {
    && (forall t :: t in s.answers ==> Truthful(s.log, s.answers[t]))
    && (forall t :: t in s.requests ==> Waits(s.log, s.requests[t]))
  }

  lemma {:induction false} VersionGrows(log: Log, k: nat, sid: StreamId)
    requires k <= |log|
    ensures Version(log[..k], sid) <= Version(log, sid)
  {
    if k == |log| {
      assert log[..k] == log;
    } else {
      VersionGrows(log[..|log| - 1], k, sid);
      assert log[..|log| - 1][..k] == log[..k];
    }
  }

  lemma TruthStays(log: Log, e: Envelope, a: Answer)
    requires Truthful(log, a)
    ensures Truthful(log + [e], a)
  {
    hide Fulfilled, Forbidden, StreamOf, TargetOf;
    forall k: nat | k <= |log| ensures (log + [e])[..k] == log[..k] {
    }
    if a.verdict.GaveUp? {
      var i, j :| a.begun <= i < j < a.verdict.at && StreamOf(log[i]) == TargetOf(a.cmd) && StreamOf(log[j]) == TargetOf(a.cmd);
      assert (log + [e])[i] == log[i] && (log + [e])[j] == log[j];
    }
  }

  lemma WaitsStays(log: Log, e: Envelope, r: Request)
    requires Waits(log, r)
    ensures Waits(log + [e], r)
  {
    hide Version;
    forall k: nat | k <= |log| ensures (log + [e])[..k] == log[..k] {
    }
    VersionGrows(log + [e], |log|, TargetOf(r.cmd));
    assert (log + [e])[..|log|] == log;
  }

  /** A race lost is a version that moved. */
  lemma RaceLost(log: Log, r: Request)
    requires Waits(log, r) && r.Loaded? && Version(log[..r.at], TargetOf(r.cmd)) != Version(log, TargetOf(r.cmd))
    ensures Version(log, TargetOf(r.cmd)) >= Version(log[..r.begun], TargetOf(r.cmd)) + if r.attempt == 1 then 1 else 2
  {
    VersionGrows(log, r.at, TargetOf(r.cmd));
    VersionGrows(log[..r.at], r.begun, TargetOf(r.cmd));
    assert log[..r.at][..r.begun] == log[..r.begun];
  }

  lemma AppendedIsTruthful(log: Log, c: Command, begun: nat)
    requires Emission(log, c) != [] && begun <= |log|
    ensures |Emission(log, c)| == 1
    ensures Truthful(log + Emission(log, c), Answer(c, begun, Accepted(|log|, |log| + |Emission(log, c)|)))
  {
    hide Fulfilled, Forbidden, Emission, Agrees;
    var es := Emission(log, c);
    EmissionShape(log, c);
    EmissionFulfils(log, c);
    assert (log + es)[..|log|] == log && (log + es)[..|log| + |es|] == log + es;
    assert es[0] in es;
  }

  lemma NothingAppendedIsTruthful(log: Log, c: Command, begun: nat, at: nat)
    requires at <= |log| && Emission(log[..at], c) == [] && begun <= at
    ensures Truthful(log, Answer(c, begun, if Agrees(log[..at], c) then Accepted(at, at) else Refused(at)))
  {
    hide Fulfilled, Forbidden, Emission, Agrees;
    EmissionFulfils(log[..at], c);
    assert log[..at] + [] == log[..at];
  }

  /** A version counts the envelopes of its stream. */
  lemma {:induction false} VersionMoved(log: Log, k: nat, sid: StreamId) returns (i: nat)
    requires k <= |log| && Version(log[..k], sid) < Version(log, sid)
    ensures k <= i < |log| && StreamOf(log[i]) == sid && Version(log[..i], sid) == Version(log, sid) - 1
  {
    assert log[..|log|] == log;
    var n := |log| - 1;
    if StreamOf(log[n]) == sid {
      i := n;
    } else {
      assert log[..n][..k] == log[..k];
      i := VersionMoved(log[..n], k, sid);
      assert log[..n][..i] == log[..i];
    }
  }

  lemma GaveUpIsTruthful(log: Log, c: Command, begun: nat)
    requires begun <= |log| && Version(log, TargetOf(c)) >= Version(log[..begun], TargetOf(c)) + 2
    ensures Truthful(log, Answer(c, begun, GaveUp(|log|)))
  {
    hide Version, Fulfilled, Forbidden;
    var j := VersionMoved(log, begun, TargetOf(c));
    assert log[..j][..begun] == log[..begun];
    var i := VersionMoved(log[..j], begun, TargetOf(c));
  }

  /** An append ends the request with a true answer, unless it has just lost its first race. */
  lemma AppendAnswers(s: State, ticket: nat)
    requires AnswersOk(s) && AppendStep(s, ticket) != s
    ensures var s' := AppendStep(s, ticket);
            && ticket in s.requests
            && (s'.log == s.log || exists e :: s'.log == s.log + [e])
            && (ticket in s'.requests ==> s'.log == s.log && Waits(s'.log, s'.requests[ticket]))
            && (ticket !in s'.requests ==> ticket in s'.answers && Truthful(s'.log, s'.answers[ticket]))
  {
    hide Fulfilled, Forbidden, Emission, Agrees, Version;
    var r := s.requests[ticket];
    var seen := s.log[..r.at];
    assert Waits(s.log, r);
    SameVersionSameEmission(s.log, r.at, r.cmd);
    assert s.log[..|s.log|] == s.log;
    if Emission(seen, r.cmd) == [] {
      NothingAppendedIsTruthful(s.log, r.cmd, r.begun, r.at);
    } else if Version(seen, TargetOf(r.cmd)) == Version(s.log, TargetOf(r.cmd)) {
      AppendedIsTruthful(s.log, r.cmd, r.begun);
      assert AppendStep(s, ticket).log == s.log + [Emission(s.log, r.cmd)[0]];
    } else {
      RaceLost(s.log, r);
      if r.attempt != 1 {
        GaveUpIsTruthful(s.log, r.cmd, r.begun);
      }
    }
  }

  lemma AppendKeepsAnswers(s: State, ticket: nat)
    requires AnswersOk(s)
    ensures AnswersOk(AppendStep(s, ticket))
  {
    hide Truthful, Waits;
    var s' := AppendStep(s, ticket);
    if s' != s {
      AppendAnswers(s, ticket);
      if s'.log != s.log {
        var e :| s'.log == s.log + [e];
        forall t | t in s.answers ensures Truthful(s'.log, s.answers[t]) {
          TruthStays(s.log, e, s.answers[t]);
        }
        forall t | t in s.requests ensures Waits(s'.log, s.requests[t]) {
          WaitsStays(s.log, e, s.requests[t]);
        }
      }
      OnlyItsTicket(s, ticket);
    }
  }

  lemma OnlyItsTicket(s: State, ticket: nat)
    requires AppendStep(s, ticket) != s
    ensures var s' := AppendStep(s, ticket);
            && (forall t :: t in s'.answers && t != ticket ==> t in s.answers && s'.answers[t] == s.answers[t])
            && (forall t :: t in s'.requests && t != ticket ==> t in s.requests && s'.requests[t] == s.requests[t])
            && (ticket in s'.requests ==> s'.answers == s.answers)
  {
    hide Emission, Agrees, Version;
  }

  lemma BeginOrReloadKeepsAnswers(s: State, a: Action)
    requires AnswersOk(s) && !a.Append?
    ensures AnswersOk(Step(s, a))
  {
    hide Truthful, Version;
    assert s.log[..|s.log|] == s.log;
  }

  lemma {:induction false} RunAnswers(actions: seq<Action>)
    ensures AnswersOk(Run(actions))
  {
    hide Step, AnswersOk;
    if actions == [] {
      NothingAnswered();
    } else {
      var s, a := Run(actions[..|actions| - 1]), actions[|actions| - 1];
      RunAnswers(actions[..|actions| - 1]);
      if a.Append? {
        AppendKeepsAnswers(s, a.ticket);
        StepAppends(s, a);
      } else {
        BeginOrReloadKeepsAnswers(s, a);
      }
    }
  }

  lemma NothingAnswered()
    ensures AnswersOk(START)
  {
  }

  lemma StepAppends(s: State, a: Action)
    requires a.Append?
    ensures Step(s, a) == AppendStep(s, a.ticket)
  {
  }

  /**
   However requests interleave, what a request is told is true. Accepted: a state no older than the
   request forbade nothing, and the next state of the stream is what the command asks. Refused: such
   a state forbids it. Gave up: two envelopes of its stream were appended meanwhile.
   */
  lemma AnswersAreTrue(actions: seq<Action>, ticket: nat)
    requires ticket in Run(actions).answers
    ensures Truthful(Run(actions).log, Run(actions).answers[ticket])
  {
    hide Run, Truthful;
    RunAnswers(actions);
  }

  /** A request that meets no race is answered at once, and one that has lost a race is tried again, once. */
  lemma RetriesOnce(actions: seq<Action>, ticket: nat)
    requires ticket in Run(actions).requests
    ensures var (s, tried) := (Run(actions), Run(actions + [Append(ticket)]));
            && (s.requests[ticket].Loaded? && ticket in tried.requests ==>
                  s.requests[ticket].attempt == 1 && tried.requests[ticket].Conflicted?)
            && (s.requests[ticket].Loaded? && s.requests[ticket].at == |s.log| ==>
                  ticket in tried.answers && !tried.answers[ticket].verdict.GaveUp?)
            && (s.requests[ticket].Conflicted? ==>
                  var again := Run(actions + [Reload(ticket), Append(ticket)]);
                  ticket in again.answers && !again.answers[ticket].verdict.GaveUp?)
  {
    hide Emission, Agrees;
    RunAnswers(actions);
    var s := Run(actions);
    assert Waits(s.log, s.requests[ticket]);
    assert s.log[..|s.log|] == s.log;
    assert (actions + [Append(ticket)])[..|actions|] == actions;
    var both := actions + [Reload(ticket), Append(ticket)];
    assert both[..|actions| + 1] == actions + [Reload(ticket)] && (actions + [Reload(ticket)])[..|actions|] == actions;
    assert Run(both) == AppendStep(Run(actions + [Reload(ticket)]), ticket);
  }
}
