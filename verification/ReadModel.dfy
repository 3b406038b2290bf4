/**
 The SQL-shaped admin read model (internal/controlplane/readmodel.go): its rows, MemReadStore's
 tables and write methods, and what each table cell ought to hold for a given log.
 */
module ReadModel {
  import opened Wrappers
  import opened AliasIds
  import opened Cpkv
  import opened EventLog
  import Aliases
  import ApiKeys

  datatype OrgRow = OrgRow(id: string, name: string)

  datatype ProjectRow = ProjectRow(id: string, org: string, name: string, archived: bool)

  /** No hash: an admin read never shows one. */
  datatype KeyRow = KeyRow(
    id: string,
    org: string,
    project: string,
    name: string,
    allow: seq<string>,
    rateLimitRPM: int,
    monthlyTokenBudget: int,
    disabled: bool)

  datatype AliasRow = AliasRow(scope: string, name: string, target: string, params: map<string, string>)

  /** members: org -> sub -> role; projects: org -> id -> row; aliases: "<scope>/<name>" -> row. */
  datatype Tables = Tables(
    orgs: map<string, OrgRow>,
    members: map<string, map<string, string>>,
    projects: map<string, map<string, ProjectRow>>,
    keys: map<string, KeyRow>,
    aliases: map<string, AliasRow>)

  const EMPTY_TABLES := Tables(map[], map[], map[], map[], map[])

  /** The calls of ReadStore that write. */
  datatype Op =
    | UpsertOrg(org: OrgRow)
    | UpsertMember(orgId: string, sub: string, role: string)
    | RemoveMember(orgId: string, sub: string)
    | UpsertProject(project: ProjectRow)
    | UpsertKey(key: KeyRow)
    | UpsertAlias(alias: AliasRow)
    | DeleteAlias(scope: string, name: string)

  function Inner<V>(m: map<string, map<string, V>>, key: string): map<string, V> {
    if key in m then m[key] else map[]
  }

  function ApplyOp(t: Tables, op: Op): Tables {
    match op
    case UpsertOrg(row) => t.(orgs := t.orgs[row.id := row])
    case UpsertMember(org, sub, role) => t.(members := t.members[org := Inner(t.members, org)[sub := role]])
    case RemoveMember(org, sub) =>
      if org in t.members then t.(members := t.members[org := t.members[org] - {sub}]) else t
    case UpsertProject(row) => t.(projects := t.projects[row.org := Inner(t.projects, row.org)[row.id := row]])
    case UpsertKey(row) => t.(keys := t.keys[row.id := row])
    case UpsertAlias(row) => t.(aliases := t.aliases[BucketKey(row.scope, row.name) := row])
    case DeleteAlias(scope, name) => t.(aliases := t.aliases - {BucketKey(scope, name)})
  }

  function ApplyOps(t: Tables, ops: seq<Op>): Tables {
    if ops == [] then t else ApplyOp(ApplyOps(t, ops[..|ops| - 1]), ops[|ops| - 1])
  }

  /** MemReadStore; a call goes as outcome says, which for a store behind a network may be badly. */
  class MemReadStore {
    var orgs: map<string, OrgRow>
    var members: map<string, map<string, string>>
    var projects: map<string, map<string, ProjectRow>>
    var keys: map<string, KeyRow>
    var aliases: map<string, AliasRow>

    ghost function Model(): Tables
      reads this
    {
      Tables(orgs, members, projects, keys, aliases)
    }

    constructor ()
      ensures Model() == EMPTY_TABLES
    {
      orgs, members, projects, keys, aliases := map[], map[], map[], map[], map[];
    }

    method UpsertOrg(row: OrgRow, outcome: KvOutcome) returns (ok: bool)
      modifies `orgs
      ensures ok == outcome.Success?
      ensures Model() == if outcome.FailedLost? then old(Model()) else ApplyOp(old(Model()), Op.UpsertOrg(row))
    {
      if !outcome.FailedLost? {
        orgs := orgs[row.id := row];
      }
      ok := outcome.Success?;
    }

    method UpsertMember(org: string, sub: string, role: string, outcome: KvOutcome) returns (ok: bool)
      modifies `members
      ensures ok == outcome.Success?
      ensures Model() == if outcome.FailedLost? then old(Model()) else ApplyOp(old(Model()), Op.UpsertMember(org, sub, role))
    {
      if !outcome.FailedLost? {
        if org !in members {
          members := members[org := map[]];
        }
        members := members[org := members[org][sub := role]];
      }
      ok := outcome.Success?;
    }

    method RemoveMember(org: string, sub: string, outcome: KvOutcome) returns (ok: bool)
      modifies `members
      ensures ok == outcome.Success?
      ensures Model() == if outcome.FailedLost? then old(Model()) else ApplyOp(old(Model()), Op.RemoveMember(org, sub))
    {
      if !outcome.FailedLost? {
        if org in members {
          members := members[org := members[org] - {sub}];
        }
      }
      ok := outcome.Success?;
    }

    method UpsertProject(row: ProjectRow, outcome: KvOutcome) returns (ok: bool)
      modifies `projects
      ensures ok == outcome.Success?
      ensures Model() == if outcome.FailedLost? then old(Model()) else ApplyOp(old(Model()), Op.UpsertProject(row))
    {
      if !outcome.FailedLost? {
        if row.org !in projects {
          projects := projects[row.org := map[]];
        }
        projects := projects[row.org := projects[row.org][row.id := row]];
      }
      ok := outcome.Success?;
    }

    method UpsertKey(row: KeyRow, outcome: KvOutcome) returns (ok: bool)
      modifies `keys
      ensures ok == outcome.Success?
      ensures Model() == if outcome.FailedLost? then old(Model()) else ApplyOp(old(Model()), Op.UpsertKey(row))
    {
      if !outcome.FailedLost? {
        keys := keys[row.id := row];
      }
      ok := outcome.Success?;
    }

    method UpsertAlias(row: AliasRow, outcome: KvOutcome) returns (ok: bool)
      modifies `aliases
      ensures ok == outcome.Success?
      ensures Model() == if outcome.FailedLost? then old(Model()) else ApplyOp(old(Model()), Op.UpsertAlias(row))
    {
      if !outcome.FailedLost? {
        aliases := aliases[BucketKey(row.scope, row.name) := row];
      }
      ok := outcome.Success?;
    }

    method DeleteAlias(scope: string, name: string, outcome: KvOutcome) returns (ok: bool)
      modifies `aliases
      ensures ok == outcome.Success?
      ensures Model() == if outcome.FailedLost? then old(Model()) else ApplyOp(old(Model()), Op.DeleteAlias(scope, name))
    {
      if !outcome.FailedLost? {
        aliases := aliases - {BucketKey(scope, name)};
      }
      ok := outcome.Success?;
    }
  }

  // ---------- Cells ----------

  /** One place a row can be. */
  datatype Cell =
    | OrgCell(id: string)
    | MemberCell(org: string, sub: string)
    | ProjectCell(org: string, id: string)
    | KeyCell(id: string)
    | AliasCell(scope: string, name: string)

  datatype Value = OrgValue(OrgRow) | RoleValue(string) | ProjectValue(ProjectRow) | KeyValue(KeyRow) | AliasValue(AliasRow)

  function Lookup(t: Tables, c: Cell): Option<Value> {
    match c
    case OrgCell(id) => if id in t.orgs then Some(OrgValue(t.orgs[id])) else None
    case MemberCell(org, sub) => if sub in Inner(t.members, org) then Some(RoleValue(t.members[org][sub])) else None
    case ProjectCell(org, id) => if id in Inner(t.projects, org) then Some(ProjectValue(t.projects[org][id])) else None
    case KeyCell(id) => if id in t.keys then Some(KeyValue(t.keys[id])) else None
    case AliasCell(scope, name) =>
      if BucketKey(scope, name) in t.aliases then Some(AliasValue(t.aliases[BucketKey(scope, name)])) else None
  }

  /** The cell a call writes, and what it puts there. */
  function CellOf(op: Op): Cell {
    match op
    case UpsertOrg(row) => OrgCell(row.id)
    case UpsertMember(org, sub, _) => MemberCell(org, sub)
    case RemoveMember(org, sub) => MemberCell(org, sub)
    case UpsertProject(row) => ProjectCell(row.org, row.id)
    case UpsertKey(row) => KeyCell(row.id)
    case UpsertAlias(row) => AliasCell(row.scope, row.name)
    case DeleteAlias(scope, name) => AliasCell(scope, name)
  }

  function ValueOf(op: Op): Option<Value> {
    match op
    case UpsertOrg(row) => Some(OrgValue(row))
    case UpsertMember(_, _, role) => Some(RoleValue(role))
    case RemoveMember(_, _) => None
    case UpsertProject(row) => Some(ProjectValue(row))
    case UpsertKey(row) => Some(KeyValue(row))
    case UpsertAlias(row) => Some(AliasValue(row))
    case DeleteAlias(_, _) => None
  }

  predicate ValidCell(c: Cell) {
    c.AliasCell? ==> ValidAlias(c.scope, c.name)
  }

  predicate WritesOrg(op: Op) {
    op.UpsertOrg? || op.UpsertMember? || op.RemoveMember?
  }

  /** A call changes its own cell and no other, not even one whose names run together the same way. */
  lemma ApplyOpAt(t: Tables, op: Op, c: Cell)
    requires ValidCell(c) && ValidCell(CellOf(op))
    ensures Lookup(ApplyOp(t, op), c) == if c == CellOf(op) then ValueOf(op) else Lookup(t, c)
  {
    hide Lookup, ApplyOp, CellOf, ValueOf, ValidCell;
    if WritesOrg(op) {
      OrgOpAt(t, op, c);
    } else if op.UpsertAlias? || op.DeleteAlias? {
      AliasOpAt(t, op, c);
    } else {
      RowOpAt(t, op, c);
    }
  }

  lemma OrgOpAt(t: Tables, op: Op, c: Cell)
    requires WritesOrg(op)
    ensures Lookup(ApplyOp(t, op), c) == if c == CellOf(op) then ValueOf(op) else Lookup(t, c)
  {
    hide BucketKey;
  }

  lemma RowOpAt(t: Tables, op: Op, c: Cell)
    requires op.UpsertProject? || op.UpsertKey?
    ensures Lookup(ApplyOp(t, op), c) == if c == CellOf(op) then ValueOf(op) else Lookup(t, c)
  {
    hide BucketKey;
  }

  lemma AliasOpAt(t: Tables, op: Op, c: Cell)
    requires ValidCell(c) && ValidCell(CellOf(op)) && (op.UpsertAlias? || op.DeleteAlias?)
    ensures Lookup(ApplyOp(t, op), c) == if c == CellOf(op) then ValueOf(op) else Lookup(t, c)
  {
    hide ValidAlias, BucketKey;
    var d := CellOf(op);
    if c.AliasCell? && c != d {
      PairsApart(c.scope, c.name, d.scope, d.name);
    }
  }

  /** What a log says a cell must hold. */
  function CellAt(log: Log, c: Cell): Option<Value> {
    match c
    case OrgCell(id) => var s := OrgState(log, id); if s.id != "" then Some(OrgValue(OrgRow(id, s.name))) else None
    case MemberCell(org, sub) =>
      var s := OrgState(log, org); if sub in s.members then Some(RoleValue(s.members[sub])) else None
    case ProjectCell(org, id) =>
      var s := OrgState(log, org);
      if id in s.projects then Some(ProjectValue(ProjectRow(id, org, s.projects[id].name, s.projects[id].archived))) else None
    case KeyCell(id) => var s := KeyState(log, id); if s.id != "" then Some(KeyValue(RowOf(id, s))) else None
    case AliasCell(scope, name) =>
      var s := AliasState(log, AliasStreamId(scope, name));
      if Aliases.IsLive(s) then Some(AliasValue(AliasRow(scope, name, s.target, s.params))) else None
  }

  function RowOf(id: string, s: ApiKeys.ApiKey): KeyRow {
    KeyRow(id, s.org, s.project, s.name, s.allow, s.rateLimitRpm, s.monthlyTokenBudget, s.disabled)
  }

  /** Two calls that leave the same of the cell they share, whatever the first one wrote. */
  predicate Overwrites(op: Op, earlier: Op) {
    op == earlier || (op.UpsertKey? && earlier.UpsertKey? && op.key.id == earlier.key.id)
    || (op.UpsertProject? && earlier.UpsertProject? && op.project.org == earlier.project.org && op.project.id == earlier.project.id)
  }

  lemma OverwriteLast(t: Tables, op: Op, earlier: Op)
    requires Overwrites(op, earlier)
    ensures ApplyOp(ApplyOp(t, earlier), op) == ApplyOp(t, op)
  {
    if op == earlier {
      OpTwice(t, op);
    } else if op.UpsertKey? {
      assert t.keys[op.key.id := earlier.key][op.key.id := op.key] == t.keys[op.key.id := op.key];
    } else {
      var (row, was) := (op.project, earlier.project);
      var inner := Inner(t.projects, row.org);
      assert inner[row.id := was][row.id := row] == inner[row.id := row];
      assert t.projects[row.org := inner[row.id := was]][row.org := inner[row.id := row]] == t.projects[row.org := inner[row.id := row]];
    }
  }

  /** Calls cut short and then made anew leave what the new ones leave. */
  lemma OpsOverwrite(t: Tables, ops: seq<Op>, again: seq<Op>, done: nat)
    requires done <= |ops| && 1 <= |ops| == |again| <= 2
    requires forall i :: 0 <= i < |ops| ==> Overwrites(again[i], ops[i])
    requires |ops| == 2 ==> ops == again && ops[0].UpsertOrg? && ops[1].UpsertMember?
    ensures ApplyOps(ApplyOps(t, ops[..done]), again) == ApplyOps(t, again)
  {
    OpsOneByOne(t, again);
    OpsOneByOne(ApplyOps(t, ops[..done]), again);
    if done > 0 {
      OpsOneByOne(t, ops[..done]);
      OverwriteLast(t, again[0], ops[0]);
      if |ops| == 2 {
        OpTwice(ApplyOp(t, ops[0]), ops[1]);
      }
    }
  }

  lemma OpsOneByOne(t: Tables, ops: seq<Op>)
    requires 1 <= |ops| <= 2
    ensures ApplyOps(t, ops) == if |ops| == 1 then ApplyOp(t, ops[0]) else ApplyOp(ApplyOp(t, ops[0]), ops[1])
  {
    hide ApplyOp;
    var first := [ops[0]];
    assert ops[..1] == first && first[..0] == [];
    assert ApplyOps(t, first) == ApplyOp(ApplyOps(t, []), ops[0]);
    assert |ops| == 1 ==> ops == first;
  }

  lemma OpTwice(t: Tables, op: Op)
    ensures ApplyOp(ApplyOp(t, op), op) == ApplyOp(t, op)
  {
    var t' := ApplyOp(t, op);
    match op
    case UpsertOrg(row) => assert t'.orgs[row.id := row] == t'.orgs;
    case UpsertMember(org, sub, role) =>
      assert t'.members[org][sub := role] == t'.members[org];
      assert t'.members[org := t'.members[org]] == t'.members;
    case RemoveMember(org, sub) =>
      if org in t.members {
        assert t'.members[org] - {sub} == t'.members[org];
        assert t'.members[org := t'.members[org]] == t'.members;
      }
    case UpsertProject(row) =>
      assert t'.projects[row.org][row.id := row] == t'.projects[row.org];
      assert t'.projects[row.org := t'.projects[row.org]] == t'.projects;
    case UpsertKey(row) => assert t'.keys[row.id := row] == t'.keys;
    case UpsertAlias(row) => assert t'.aliases[BucketKey(row.scope, row.name) := row] == t'.aliases;
    case DeleteAlias(scope, name) => assert t'.aliases - {BucketKey(scope, name)} == t'.aliases;
  }
}
