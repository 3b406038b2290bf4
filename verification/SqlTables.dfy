/**
 What an admin reads off the five tables once the log is applied to its end, column by column and, for
 keys and aliases, in terms of the log's events.
 */
module SqlTables {
  import opened Wrappers
  import opened AliasIds
  import opened EventLog
  import opened KeyFacts
  import opened ReadModel
  import opened SqlProjector
  import Aliases
  import AliasProjector

  lemma CaughtUpCell(log: Log, actions: seq<Action>, c: Cell)
    requires ValidLog(log) && Run(log, actions).marker == |log| && ValidCell(c)
    ensures Lookup(Run(log, actions).tables, c) == CellAt(log, c)
  {
    hide Run, Lookup, CellAt, ValidCell, ValidLog;
    CaughtUpIsFold(log, actions);
  }

  /** One row per org, with the name it has. */
  lemma OrgsShow(log: Log, actions: seq<Action>, id: string)
    requires ValidLog(log) && Run(log, actions).marker == |log|
    ensures var (orgs, s) := (Run(log, actions).tables.orgs, OrgState(log, id));
            && (id in orgs <==> s.id != "")
            && (id in orgs ==> orgs[id].id == id && orgs[id].name == s.name)
  {
    hide Run, ValidLog, OrgState;
    CaughtUpCell(log, actions, OrgCell(id));
  }

  /** Each member of an org under the role they have there. */
  lemma MembersShow(log: Log, actions: seq<Action>, org: string, sub: string)
    requires ValidLog(log) && Run(log, actions).marker == |log|
    ensures var (members, s) := (Run(log, actions).tables.members, OrgState(log, org));
            && (org in members && sub in members[org] <==> sub in s.members)
            && (org in members && sub in members[org] ==> members[org][sub] == s.members[sub])
  {
    hide Run, ValidLog, OrgState;
    CaughtUpCell(log, actions, MemberCell(org, sub));
  }

  /** Each project under its org and id, with its name, archived or not. */
  lemma ProjectsShow(log: Log, actions: seq<Action>, org: string, id: string)
    requires ValidLog(log) && Run(log, actions).marker == |log|
    ensures var projects := Run(log, actions).tables.projects;
            var s := OrgState(log, org);
            && (org in projects && id in projects[org] <==> id in s.projects)
            && (org in projects && id in projects[org] ==>
                  var row := projects[org][id];
                  && row.id == id && row.org == org
                  && row.name == s.projects[id].name && row.archived == s.projects[id].archived)
  {
    hide Run, ValidLog, OrgState;
    CaughtUpCell(log, actions, ProjectCell(org, id));
  }

  /**
   One row per key ever created, disabled or not: org, project and name as created, allowlist and limits
   as last given, and disabled iff the log disables it.
   */
  lemma KeysShow(log: Log, actions: seq<Action>, id: string)
    requires ValidLog(log) && Run(log, actions).marker == |log|
    ensures var (keys, created) := (Run(log, actions).tables.keys, Creation(log, id));
            && (id in keys <==> created.Some?)
            && (id in keys ==>
                  var row := keys[id];
                  && created.value.Created? && row.id == id
                  && row.org == created.value.org && row.project == created.value.project && row.name == created.value.name
                  && LastAllow(log, id) == Some(row.allow)
                  && LastLimits(log, id) == Some((row.rateLimitRPM, row.monthlyTokenBudget))
                  && (row.disabled <==> WasDisabled(log, id)))
  {
    hide Run, ValidLog, KeyState, Creation, LastAllow, LastLimits, WasDisabled;
    CaughtUpCell(log, actions, KeyCell(id));
    KeyShowsItsEvents(log, id);
  }

  /** One row per alias whose last event is a set, with what that set gave it. */
  lemma AliasesShow(log: Log, actions: seq<Action>, scope: string, name: string)
    requires ValidLog(log) && Run(log, actions).marker == |log| && ValidAlias(scope, name)
    ensures var (aliases, key) := (Run(log, actions).tables.aliases, scope + "/" + name);
            var last := AliasProjector.LastEvent(log, AliasStreamId(scope, name));
            && (key in aliases <==> last.Some? && last.value.AliasSet?)
            && (key in aliases ==>
                  var row := aliases[key];
                  row.scope == scope && row.name == name && last == Some(Aliases.AliasSet(row.target, row.params)))
  {
    hide Run, ValidLog, ValidAlias, AliasState, AliasStreamId, AliasProjector.LastEvent;
    assert ValidCell(AliasCell(scope, name));
    CaughtUpCell(log, actions, AliasCell(scope, name));
    AliasProjector.AliasLifeCycle(log, AliasStreamId(scope, name));
  }
}
