/**
 The SQL projector as the object the program runs: its store, marker, position and sticky failure are
 updated call by call. Every method computes what SqlProjector.dfy specifies; DeliveryIsSteps there
 makes each turn of Apply a stretch of a run.
 */
module SqlProjectorObject {
  import opened AliasIds
  import opened EventLog
  import opened KvProjectors
  import opened ReadModel
  import S = SqlProjector

  class SqlProjector {
    const rs: MemReadStore
    const marker: KvMarker
    var pos: nat
    var failed: bool

    ghost function Model(): S.Projector
      reads this, rs, marker
    {
      S.Projector(rs.Model(), marker.position, pos, failed)
    }

    /** A new projector at the saved marker. */
    constructor (rs: MemReadStore, marker: KvMarker)
      ensures this.rs == rs && this.marker == marker && pos == marker.position && !failed
    {
      this.rs, this.marker := rs, marker;
      pos, failed := marker.position, false;
    }

    method Apply(batch: seq<S.Loaded>) returns (ok: bool)
      modifies this, rs, marker
      ensures Model() == S.ApplyBatch(old(Model()), batch)
      ensures ok == !failed
    {
      hide S.ApplyDelivery;
      ghost var start := Model();
      if failed {
        assert batch[..0] == [];
        S.FailedBatch(start, batch, 0);
        return false;
      }
      for i := 0 to |batch|
        invariant Model() == S.ApplyBatch(start, batch[..i]) && !failed
      {
        assert batch[..i + 1][..i] == batch[..i];
        ok := ApplyNext(batch[i]);
        if !ok {
          S.FailedBatch(start, batch, i + 1);
          return;
        }
      }
      assert batch[..|batch|] == batch;
      ok := true;
    }

    /** The body of apply's loop. */
    method ApplyNext(l: S.Loaded) returns (ok: bool)
      requires !failed
      modifies this, rs, marker
      ensures Model() == S.ApplyDelivery(old(Model()), l)
      ensures ok == !failed
    {
      hide S.OpsOf;
      if l.d.position <= pos {
        return true;
      }
      match l.d.event {
        case OrgEnv(_, _) => ok := ApplyOrgEvent(l);
        case KeyEnv(_, _) => ok := ApplyApiKeyEvent(l);
        case AliasEnv(_, _) => ok := ApplyAliasEvent(l);
      }
      if !ok {
        failed := true;
        return;
      }
      pos := l.d.position;
      ok := marker.Save(pos, l.d.io.save);
      if !ok {
        failed := true;
      }
    }

    method ApplyOrgEvent(l: S.Loaded) returns (ok: bool)
      requires l.d.event.OrgEnv?
      modifies rs
      ensures EventApplied(old(rs.Model()), l, rs.Model(), ok)
    {
      hide OrgState, ApplyOp;
      var orgId, io := l.d.event.id, l.d.io;
      match l.d.event.org
      case OrgCreated(_, name, ownerSub) =>
        ok := rs.UpsertOrg(OrgRow(orgId, name), io.first);
        if !ok {
          return;
        }
        ok := rs.UpsertMember(orgId, ownerSub, "owner", io.second);

      case OrgRenamed(name) =>
        ok := rs.UpsertOrg(OrgRow(orgId, name), io.first);

      case MemberUpserted(sub, role) =>
        ok := rs.UpsertMember(orgId, sub, role, io.first);

      case MemberRemoved(sub) =>
        ok := rs.RemoveMember(orgId, sub, io.first);

      case ProjectCreated(id, name) =>
        ok := rs.UpsertProject(ProjectRow(id, orgId, name, false), io.first);

      case ProjectArchived(id) =>
        if !io.readOk {
          return false;
        }
        var state := OrgState(l.view, orgId);
        if id !in state.projects {
          return false;
        }
        var proj := state.projects[id];
        ok := rs.UpsertProject(ProjectRow(proj.id, orgId, proj.name, proj.archived), io.first);
    }

    method ApplyApiKeyEvent(l: S.Loaded) returns (ok: bool)
      requires l.d.event.KeyEnv?
      modifies rs
      ensures EventApplied(old(rs.Model()), l, rs.Model(), ok)
    {
      hide KeyState, ApplyOp;
      if !l.d.io.readOk {
        return false;
      }
      var id := l.d.event.id;
      var state := KeyState(l.view, id);
      ok := rs.UpsertKey(KeyRow(id, state.org, state.project, state.name, state.allow, state.rateLimitRpm,
                                state.monthlyTokenBudget, state.disabled), l.d.io.first);
    }

    method ApplyAliasEvent(l: S.Loaded) returns (ok: bool)
      requires l.d.event.AliasEnv?
      modifies rs
      ensures EventApplied(old(rs.Model()), l, rs.Model(), ok)
    {
      hide SplitAliasStreamId, ApplyOp;
      var split := SplitAliasStreamId(l.d.event.id);
      if split.Err? {
        return false;
      }
      var (scope, name) := split.value;
      match l.d.event.alias
      case AliasSet(target, params) => ok := rs.UpsertAlias(AliasRow(scope, name, target, params), l.d.io.first);
      case AliasDeleted => ok := rs.DeleteAlias(scope, name, l.d.io.first);
    }
  }

  /** The event's calls were made on t, as far as they went, giving t'. */
  ghost predicate EventApplied(t: Tables, l: S.Loaded, t': Tables, ok: bool) {
    var plan := S.OpsOf(l.d.event, l.view);
    if plan.Err? || (S.Loads(l.d.event) && !l.d.io.readOk) then t' == t && !ok
    else (t', ok) == S.Called(t, plan.value, l.d.io)
  }
}
