/** The org aggregate (internal/controlplane/org/decider.go). */
module Orgs {
  import opened Wrappers

  datatype Project = Project(id: string, name: string, archived: bool)

  /** An empty id means that the stream has no org yet. */
  datatype Org = Org(id: string, name: string, members: map<string, string>, projects: map<string, Project>)

  const NO_ORG := Org("", "", map[], map[])

  datatype OrgCommand =
    | CreateOrg(id: string, name: string, ownerSub: string)
    | RenameOrg(newName: string)
    | UpsertMember(sub: string, role: string)
    | RemoveMember(memberSub: string)
    | CreateProject(projectId: string, projectName: string)
    | ArchiveProject(archiveId: string)

  datatype OrgEvent =
    | OrgCreated(id: string, name: string, ownerSub: string)
    | OrgRenamed(newName: string)
    | MemberUpserted(sub: string, role: string)
    | MemberRemoved(memberSub: string)
    | ProjectCreated(projectId: string, projectName: string)
    | ProjectArchived(archiveId: string)

  datatype OrgError = AlreadyExists | NotFound | LastOwner | NoSuchProject | InvalidRole

  predicate ValidRole(role: string) {
    role == "owner" || role == "admin" || role == "viewer"
  }

  function Owners(s: Org): set<string> {
    set sub | sub in s.members && s.members[sub] == "owner"
  }

  method OwnerCount(s: Org) returns (n: nat)
    ensures n == |Owners(s)|
  {
    n := 0;
    var rest := s.members.Keys;
    assert Owners(s) - rest == {};
    while rest != {}
      invariant rest <= s.members.Keys
      invariant n == |Owners(s) - rest|
      decreases rest
    {
      var sub :| sub in rest;
      CountOne(s, rest, sub);
      rest := rest - {sub};
      if s.members[sub] == "owner" {
        n := n + 1;
      }
    }
    assert Owners(s) - rest == Owners(s);
  }

  lemma CountOne(s: Org, rest: set<string>, sub: string)
    requires sub in rest && rest <= s.members.Keys
    ensures |Owners(s) - (rest - {sub})| == |Owners(s) - rest| + if s.members[sub] == "owner" then 1 else 0
  {
    var before, after := Owners(s) - rest, Owners(s) - (rest - {sub});
    assert sub !in before;
    if s.members[sub] == "owner" {
      assert after == before + {sub};
    } else {
      assert after == before;
    }
  }

  function Decide(s: Org, cmd: OrgCommand): Result<seq<OrgEvent>, OrgError> {
    match cmd
    case CreateOrg(id, name, ownerSub) =>
      if s.id != "" then Err(AlreadyExists) else Ok([OrgCreated(id, name, ownerSub)])
    case RenameOrg(name) =>
      if s.id == "" then Err(NotFound) else Ok([OrgRenamed(name)])
    case UpsertMember(sub, role) =>
      if s.id == "" then Err(NotFound)
      else if !ValidRole(role) then Err(InvalidRole)
      else if sub in s.members && s.members[sub] == "owner" && role != "owner" && |Owners(s)| <= 1 then Err(LastOwner)
      else Ok([MemberUpserted(sub, role)])
    case RemoveMember(sub) =>
      if s.id == "" then Err(NotFound)
      else if sub !in s.members then Ok([])
      else if s.members[sub] == "owner" && |Owners(s)| <= 1 then Err(LastOwner)
      else Ok([MemberRemoved(sub)])
    case CreateProject(id, name) =>
      if s.id == "" then Err(NotFound)
      else if id in s.projects then Err(AlreadyExists)
      else Ok([ProjectCreated(id, name)])
    case ArchiveProject(id) =>
      if s.id == "" then Err(NotFound)
      else if id !in s.projects then Err(NoSuchProject)
      else if s.projects[id].archived then Ok([])
      else Ok([ProjectArchived(id)])
  }

  function Evolve(s: Org, e: OrgEvent): Org {
    match e
    case OrgCreated(id, name, ownerSub) => s.(id := id, name := name, members := s.members[ownerSub := "owner"])
    case OrgRenamed(name) => s.(name := name)
    case MemberUpserted(sub, role) => s.(members := s.members[sub := role])
    case MemberRemoved(sub) => s.(members := s.members - {sub})
    case ProjectCreated(id, name) => s.(projects := s.projects[id := Project(id, name, false)])
    case ProjectArchived(id) =>
      if id in s.projects then s.(projects := s.projects[id := s.projects[id].(archived := true)]) else s
  }

  /** What every org the decider can produce satisfies. */
  ghost predicate OrgOk(s: Org) {
    && (s.id != "" ==> Owners(s) != {})
    && (forall sub :: sub in s.members ==> ValidRole(s.members[sub]))
    && (forall p :: p in s.projects ==> s.projects[p].id == p)
  }

  /** Projects only ever appear or become archived. */
  ghost predicate ProjectsOnlyGrow(s: Org, s': Org) {
    forall p :: p in s.projects ==>
      p in s'.projects && s'.projects[p].name == s.projects[p].name && (s.projects[p].archived ==> s'.projects[p].archived)
  }

  lemma DecideKeepsOrgOk(s: Org, cmd: OrgCommand, e: OrgEvent)
    requires OrgOk(s) && Decide(s, cmd) == Ok([e])
    ensures OrgOk(Evolve(s, e)) && ProjectsOnlyGrow(s, Evolve(s, e))
  {
    var s' := Evolve(s, e);
    match e
    case OrgCreated(_, _, sub) => assert sub in Owners(s');
    case MemberUpserted(sub, role) => LosingOneOwner(s, s', sub);
    case MemberRemoved(sub) => LosingOneOwner(s, s', sub);
    case _ => assert Owners(s') == Owners(s);
  }

  /** An org with two owners, or keeping the one in question, still has an owner. */
  lemma LosingOneOwner(s: Org, s': Org, sub: string)
    requires Owners(s) != {} && Owners(s) - {sub} <= Owners(s')
    requires sub in Owners(s) && sub !in Owners(s') ==> |Owners(s)| > 1
    ensures Owners(s') != {}
  {
    if Owners(s) == {sub} {
      assert |Owners(s)| == 1;
    } else {
      assert Owners(s) - {sub} != {};
    }
  }

  function EvolveAll(s: Org, es: seq<OrgEvent>): Org {
    if es == [] then s else Evolve(EvolveAll(s, es[..|es| - 1]), es[|es| - 1])
  }

  /** sub is an owner and nobody else is. */
  ghost predicate OnlyOwner(s: Org, sub: string) {
    sub in s.members && s.members[sub] == "owner" &&
    forall other :: other in s.members && s.members[other] == "owner" ==> other == sub
  }

  lemma OneOwnerIff(s: Org, sub: string)
    requires sub in s.members && s.members[sub] == "owner"
    ensures |Owners(s)| <= 1 <==> OnlyOwner(s, sub)
  {
    var rest := Owners(s) - {sub};
    assert sub in Owners(s) && |Owners(s)| == |rest| + 1;
    assert forall other :: other in Owners(s) <==> other in s.members && s.members[other] == "owner";
    if rest != {} {
      var other :| other in rest;
      assert other in Owners(s) && other != sub;
    } else {
      assert Owners(s) == {sub};
    }
  }

  /** Why a command is refused: what a caller can read off the org beforehand. */
  ghost function Refusal(s: Org, cmd: OrgCommand): Option<OrgError> {
    if cmd.CreateOrg? then (if s.id == "" then None else Some(AlreadyExists))
    else if s.id == "" then Some(NotFound)
    else
      match cmd
      case UpsertMember(sub, role) =>
        if role !in {"owner", "admin", "viewer"} then Some(InvalidRole)
        else if OnlyOwner(s, sub) && role != "owner" then Some(LastOwner)
        else None
      case RemoveMember(sub) => if OnlyOwner(s, sub) then Some(LastOwner) else None
      case CreateProject(id, _) => if id in s.projects then Some(AlreadyExists) else None
      case ArchiveProject(id) => if id in s.projects then None else Some(NoSuchProject)
      case _ => None
  }

  /** Nothing but sub's own entry may have changed among the members. */
  ghost predicate SameMembersBut(s: Org, s': Org, sub: string) {
    forall other :: other != sub ==>
      (other in s'.members <==> other in s.members) && (other in s.members ==> s'.members[other] == s.members[other])
  }

  ghost predicate SameProjectsBut(s: Org, s': Org, id: string) {
    forall other :: other != id ==>
      (other in s'.projects <==> other in s.projects) && (other in s.projects ==> s'.projects[other] == s.projects[other])
  }

  /** What a command asks of the org, field by field. */
  ghost predicate Fulfils(s: Org, cmd: OrgCommand, s': Org) {
    match cmd
    case CreateOrg(_, _, _) =>
      && s' == s.(id := cmd.id, name := cmd.name, members := s'.members)
      && cmd.ownerSub in s'.members && s'.members[cmd.ownerSub] == "owner" && SameMembersBut(s, s', cmd.ownerSub)
    case RenameOrg(_) => s' == s.(name := cmd.newName)
    case UpsertMember(_, _) =>
      && s' == s.(members := s'.members)
      && cmd.sub in s'.members && s'.members[cmd.sub] == cmd.role && SameMembersBut(s, s', cmd.sub)
    case RemoveMember(_) =>
      && s' == s.(members := s'.members)
      && cmd.memberSub !in s'.members && SameMembersBut(s, s', cmd.memberSub)
    case CreateProject(_, _) =>
      && s' == s.(projects := s'.projects)
      && cmd.projectId in s'.projects && SameProjectsBut(s, s', cmd.projectId)
      && s'.projects[cmd.projectId] == Project(cmd.projectId, cmd.projectName, false)
    case ArchiveProject(_) =>
      && s' == s.(projects := s'.projects)
      && cmd.archiveId in s.projects && cmd.archiveId in s'.projects && SameProjectsBut(s, s', cmd.archiveId)
      && s'.projects[cmd.archiveId] == s.projects[cmd.archiveId].(archived := true)
  }

  /** A command is refused for exactly the stated reason, and otherwise its events make the org what it asks. */
  lemma DecisionsTakeEffect(s: Org, cmd: OrgCommand)
    ensures var r := Decide(s, cmd);
            && (r.Err? ==> Refusal(s, cmd) == Some(r.error))
            && (r.Ok? ==> Refusal(s, cmd) == None && Fulfils(s, cmd, EvolveAll(s, r.value)))
  {
    hide Owners;
    var r := Decide(s, cmd);
    if cmd.UpsertMember? && cmd.sub in s.members && s.members[cmd.sub] == "owner" {
      OneOwnerIff(s, cmd.sub);
    } else if cmd.RemoveMember? && cmd.memberSub in s.members && s.members[cmd.memberSub] == "owner" {
      OneOwnerIff(s, cmd.memberSub);
    }
    if r.Ok? && r.value != [] {
      assert r.value[..0] == [];
      assert EvolveAll(s, r.value) == Evolve(s, r.value[0]);
    }
  }
}
