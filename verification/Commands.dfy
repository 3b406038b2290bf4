/**
 Concurrent commands through handleWithRetry (internal/controlplane/admin.go): load, decide, append
 if the stream version still matches, else reload and try exactly once more. Any number of requests
 interleave; every log they can produce is a decider-generated one.
 */
module Commands {
  import opened Wrappers
  import opened EventLog
  import Aliases
  import ApiKeys
  import Orgs

  /**
   A request between its load (of the log's first at envelopes) and its append; begun is the length of
   the log when it came.
   */
  datatype Request = Loaded(cmd: Command, begun: nat, at: nat, attempt: nat) | Conflicted(cmd: Command, begun: nat)

  /**
   What the caller is told. Accepted takes the stream from its state after before envelopes to that
   after after envelopes; Refused and GaveUp were decided with at envelopes in the log.
   */
  datatype Verdict = Accepted(before: nat, after: nat) | Refused(at: nat) | GaveUp(at: nat)

  datatype Answer = Answer(cmd: Command, begun: nat, verdict: Verdict)

  datatype State = State(log: Log, requests: map<nat, Request>, minted: set<string>, answers: map<nat, Answer>)

  const START := State([], map[], {}, map[])

  datatype Action = Begin(ticket: nat, cmd: Command) | Append(ticket: nat) | Reload(ticket: nat)

  /** A fresh hash is non-empty and has never been handed out before. */
  predicate MayMint(s: State, c: Command) {
    Mints(c).Some? ==> Mints(c).value != "" && Mints(c).value !in s.minted
  }

  ghost function BeginStep(s: State, ticket: nat, c: Command): State {
    if ticket in s.requests || ticket in s.answers || !Issued(c) || !MayMint(s, c) then s
    else
      s.(requests := s.requests[ticket := Loaded(c, |s.log|, |s.log|, 1)],
         minted := if Mints(c).Some? then s.minted + {Mints(c).value} else s.minted)
  }

  /** The decider returns no error. */
  predicate Agrees(log: Log, c: Command) {
    match c
    case OrgCmd(id, cmd) => Orgs.Decide(OrgState(log, id), cmd).Ok?
    case KeyCmd(id, cmd) => ApiKeys.Decide(KeyState(log, id), cmd).Ok?
    case AliasCmd(id, cmd) => Aliases.Decide(AliasState(log, id), cmd).Ok?
  }

  function Answered(s: State, ticket: nat, verdict: Verdict): State
    requires ticket in s.requests
  {
    var r := s.requests[ticket];
    s.(requests := s.requests - {ticket}, answers := s.answers[ticket := Answer(r.cmd, r.begun, verdict)])
  }

  function AppendStep(s: State, ticket: nat): State {
    if ticket !in s.requests || s.requests[ticket].Conflicted? || s.requests[ticket].at > |s.log| then s
    else
      var r := s.requests[ticket];
      var seen := s.log[..r.at];
      var es := Emission(seen, r.cmd);
      if es == [] then Answered(s, ticket, if Agrees(seen, r.cmd) then Accepted(r.at, r.at) else Refused(r.at))
      else if Version(seen, TargetOf(r.cmd)) == Version(s.log, TargetOf(r.cmd)) then
        Answered(s, ticket, Accepted(|s.log|, |s.log| + |es|)).(log := s.log + es)
      else if r.attempt == 1 then
        s.(requests := s.requests[ticket := Conflicted(r.cmd, r.begun)])
      else
        Answered(s, ticket, GaveUp(|s.log|))
  }

  function ReloadStep(s: State, ticket: nat): State {
    if ticket !in s.requests || s.requests[ticket].Loaded? then s
    else s.(requests := s.requests[ticket := Loaded(s.requests[ticket].cmd, s.requests[ticket].begun, |s.log|, 2)])
  }

  ghost function Step(s: State, a: Action): State {
    match a
    case Begin(ticket, c) => BeginStep(s, ticket, c)
    case Append(ticket) => AppendStep(s, ticket)
    case Reload(ticket) => ReloadStep(s, ticket)
  }

  ghost function Run(actions: seq<Action>): State {
    if actions == [] then START else Step(Run(actions[..|actions| - 1]), actions[|actions| - 1])
  }

  // ---------- Every reachable log is valid, with fresh hashes ----------

  ghost predicate RequestOk(s: State, ticket: nat) {
    ticket in s.requests ==>
      var r := s.requests[ticket];
      && Issued(r.cmd)
      && (r.Loaded? ==> r.at <= |s.log|)
      && (Mints(r.cmd).Some? ==> Mints(r.cmd).value in s.minted && Mints(r.cmd).value != ""
                                 && forall i :: 0 <= i < |s.log| ==> Introduces(s.log[i]) != Mints(r.cmd))
  }

  ghost predicate DistinctMints(s: State, t: nat, u: nat) {
    t in s.requests && u in s.requests && t != u && Mints(s.requests[t].cmd).Some?
    ==> Mints(s.requests[t].cmd) != Mints(s.requests[u].cmd)
  }

  ghost predicate Inv(s: State) {
    && ValidLog(s.log)
    && FreshHashes(s.log)
    && (forall i :: 0 <= i < |s.log| && Introduces(s.log[i]).Some? ==> Introduces(s.log[i]).value in s.minted)
    && (forall t: nat :: RequestOk(s, t))
    && (forall t: nat, u: nat :: DistinctMints(s, t, u))
  }

  /** What a command appends introduces exactly the hash the command mints, if it appends at all. */
  lemma EmissionMints(log: Log, c: Command, e: Envelope)
    requires Emission(log, c) == [e]
    ensures Introduces(e) == Mints(c)
  {
  }

  /** Appending on an unchanged version is appending what the command means on the whole log. */
  lemma AppendAppends(s: State, ticket: nat)
    requires Inv(s) && AppendStep(s, ticket).log != s.log
    ensures ticket in s.requests
    ensures var c := s.requests[ticket].cmd;
            && AppendStep(s, ticket).log == s.log + Emission(s.log, c)
            && AppendStep(s, ticket).requests == s.requests - {ticket} && AppendStep(s, ticket).minted == s.minted
            && |Emission(s.log, c)| == 1 && Issued(c)
  {
    assert RequestOk(s, ticket);
    var r := s.requests[ticket];
    SameVersionSameEmission(s.log, r.at, r.cmd);
    EmissionShape(s.log[..r.at], r.cmd);
  }

  lemma LogGrowthKeepsInv(s: State, ticket: nat, e: Envelope, s': State)
    requires Inv(s) && ticket in s.requests
    requires Emits(s.log, s.requests[ticket].cmd, e)
    requires s'.log == s.log + [e] && s'.requests == s.requests - {ticket} && s'.minted == s.minted
    ensures Inv(s')
  {
    var c := s.requests[ticket].cmd;
    ValidExtend(s.log, c);
    EmissionMints(s.log, c, e);
    assert RequestOk(s, ticket);
    forall t: nat ensures RequestOk(s', t) {
      assert RequestOk(s, t) && DistinctMints(s, ticket, t);
    }
    forall t: nat, u: nat ensures DistinctMints(s', t, u) {
      assert DistinctMints(s, t, u);
    }
  }

  lemma AppendKeepsInv(s: State, ticket: nat)
    requires Inv(s)
    ensures Inv(AppendStep(s, ticket))
  {
    var s' := AppendStep(s, ticket);
    if s'.log != s.log {
      AppendAppends(s, ticket);
      LogGrowthKeepsInv(s, ticket, Emission(s.log, s.requests[ticket].cmd)[0], s');
    } else {
      forall t: nat ensures RequestOk(s', t) {
        assert RequestOk(s, t);
      }
      forall t: nat, u: nat ensures DistinctMints(s', t, u) {
        assert DistinctMints(s, t, u);
      }
    }
  }

  lemma StepKeepsInv(s: State, a: Action)
    requires Inv(s)
    ensures Inv(Step(s, a))
  {
    if a.Append? {
      AppendKeepsInv(s, a.ticket);
    } else {
      var s' := Step(s, a);
      forall t: nat ensures RequestOk(s', t) {
        assert RequestOk(s, t);
      }
      forall t: nat, u: nat ensures DistinctMints(s', t, u) {
        assert DistinctMints(s, t, u) && RequestOk(s, t) && RequestOk(s, u);
      }
    }
  }

  lemma {:induction false} RunInv(actions: seq<Action>)
    ensures Inv(Run(actions))
  {
    if actions != [] {
      RunInv(actions[..|actions| - 1]);
      StepKeepsInv(Run(actions[..|actions| - 1]), actions[|actions| - 1]);
    }
  }

  /** However commands interleave and retry, the log is decider-generated and its hashes are fresh. */
  lemma ConcurrentCommandsGiveValidLogs(actions: seq<Action>)
    ensures ValidLog(Run(actions).log) && FreshHashes(Run(actions).log)
  {
    RunInv(actions);
  }

  // ---------- What that means for orgs ----------

  lemma {:induction false} ValidLogKeepsOrgOk(log: Log, id: string)
    requires ValidLog(log)
    ensures Orgs.OrgOk(OrgState(log, id))
  {
    if log != [] {
      var n := |log| - 1;
      ValidPrefix(log, n);
      ValidLogKeepsOrgOk(log[..n], id);
      OrgStepDecided(log, id);
    }
  }

  /** The last envelope of a valid log, if it is the org's, was decided on the state before it. */
  lemma OrgStepDecided(log: Log, id: string)
    requires ValidLog(log) && log != []
    requires Orgs.OrgOk(OrgState(log[..|log| - 1], id))
    ensures Orgs.OrgOk(OrgState(log, id))
    ensures Orgs.ProjectsOnlyGrow(OrgState(log[..|log| - 1], id), OrgState(log, id))
  {
    var n := |log| - 1;
    var before := OrgState(log[..n], id);
    if log[n].OrgEnv? && log[n].id == id {
      assert Decided(log, n);
      var c :| Emits(log[..n], c, log[n]);
      assert Orgs.Decide(before, c.org) == Ok([log[n].org]);
      Orgs.DecideKeepsOrgOk(before, c.org, log[n].org);
    }
  }

  lemma {:induction false} ProjectsOnlyGrowAlong(log: Log, k: nat, id: string)
    requires ValidLog(log) && k <= |log|
    ensures Orgs.ProjectsOnlyGrow(OrgState(log[..k], id), OrgState(log, id))
  {
    if k == |log| {
      assert log[..k] == log;
    } else {
      var n := |log| - 1;
      ValidPrefix(log, n);
      ProjectsOnlyGrowAlong(log[..n], k, id);
      assert log[..n][..k] == log[..k];
      ValidLogKeepsOrgOk(log[..n], id);
      OrgStepDecided(log, id);
    }
  }

  /** Whatever commands interleave, an org with an id has an owner and only the three roles. */
  lemma OrgsKeepAnOwner(actions: seq<Action>, id: string)
    ensures var s := OrgState(Run(actions).log, id);
            && (s.id != "" ==> exists sub :: sub in s.members && s.members[sub] == "owner")
            && (forall sub :: sub in s.members ==> Orgs.ValidRole(s.members[sub]))
  {
    ConcurrentCommandsGiveValidLogs(actions);
    ValidLogKeepsOrgOk(Run(actions).log, id);
    var s := OrgState(Run(actions).log, id);
    if s.id != "" {
      var sub :| sub in Orgs.Owners(s);
    }
  }

  /** A project creation in a valid log finds no project of that id, and leaves one. */
  lemma CreationFindsNone(log: Log, i: nat)
    requires ValidLog(log) && i < |log| && log[i].OrgEnv? && log[i].org.ProjectCreated?
    ensures log[i].org.projectId !in OrgState(log[..i], log[i].id).projects
    ensures log[i].org.projectId in OrgState(log[..i + 1], log[i].id).projects
  {
    assert Decided(log, i);
    var c :| Emits(log[..i], c, log[i]);
    assert log[..i + 1][..i] == log[..i];
  }

  /** No project id is ever created twice in an org, not even after it was archived. */
  lemma ProjectsAreCreatedOnce(actions: seq<Action>, i: nat, j: nat)
    requires i < j < |Run(actions).log|
    requires Run(actions).log[i].OrgEnv? && Run(actions).log[i].org.ProjectCreated?
    ensures var log := Run(actions).log;
            !(log[j].OrgEnv? && log[j].id == log[i].id && log[j].org.ProjectCreated?
              && log[j].org.projectId == log[i].org.projectId)
  {
    ConcurrentCommandsGiveValidLogs(actions);
    var log := Run(actions).log;
    var id := log[i].id;
    CreationFindsNone(log, i);
    ValidPrefix(log, j);
    ProjectsOnlyGrowAlong(log[..j], i + 1, id);
    assert log[..j][..i + 1] == log[..i + 1];
    if log[j].OrgEnv? && log[j].org.ProjectCreated? {
      CreationFindsNone(log, j);
    }
  }

  /** Once archived, archived in every longer log. */
  lemma ArchivedStaysArchived(actions: seq<Action>, k: nat, id: string, p: string)
    requires k <= |Run(actions).log|
    requires p in OrgState(Run(actions).log[..k], id).projects && OrgState(Run(actions).log[..k], id).projects[p].archived
    ensures p in OrgState(Run(actions).log, id).projects && OrgState(Run(actions).log, id).projects[p].archived
  {
    ConcurrentCommandsGiveValidLogs(actions);
    ProjectsOnlyGrowAlong(Run(actions).log, k, id);
  }
}
