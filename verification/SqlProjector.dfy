/**
 The SQL projector (internal/controlplane/readmodel.go). Key rows and archived projects are loaded
 from the aggregate at the log's head, not at the event, and the log may grow between a load and the
 write. In every run each cell of the read model is the fold of some prefix of the log that reaches
 at least to the marker; at the end of the log that is the fold of the log itself.
 */
module SqlProjector {
  import opened Wrappers
  import opened Cpkv
  import opened AliasIds
  import opened EventLog
  import opened Projections
  import opened ReadModel
  import AliasProjector
  import Commands
  import KeysProjector
  import KeysRestart
  import Orgs

  datatype SqlError = NoSuchProject | BadAliasStream(SplitError) | LoadFailed

  /** A Runtime.Load comes before any write. */
  predicate Loads(e: Envelope) {
    e.KeyEnv? || (e.OrgEnv? && e.org.ProjectArchived?)
  }

  /** The calls one event leads to; view is the log as the load sees it. */
  function OpsOf(e: Envelope, view: Log): Result<seq<Op>, SqlError> {
    match e
    case OrgEnv(orgId, event) => (
      match event
      case OrgCreated(_, name, ownerSub) => Ok([UpsertOrg(OrgRow(orgId, name)), UpsertMember(orgId, ownerSub, "owner")])
      case OrgRenamed(name) => Ok([UpsertOrg(OrgRow(orgId, name))])
      case MemberUpserted(sub, role) => Ok([UpsertMember(orgId, sub, role)])
      case MemberRemoved(sub) => Ok([RemoveMember(orgId, sub)])
      case ProjectCreated(id, name) => Ok([UpsertProject(ProjectRow(id, orgId, name, false))])
      case ProjectArchived(id) =>
        var projects := OrgState(view, orgId).projects;
        if id !in projects then Err(NoSuchProject)
        else Ok([UpsertProject(ProjectRow(projects[id].id, orgId, projects[id].name, projects[id].archived))])
    )
    case KeyEnv(id, _) => Ok([UpsertKey(RowOf(id, KeyState(view, id)))])
    case AliasEnv(id, event) =>
      match SplitAliasStreamId(id)
      case Err(error) => Err(BadAliasStream(error))
      case Ok((scope, name)) =>
        match event
        case AliasSet(target, params) => Ok([UpsertAlias(AliasRow(scope, name, target, params))])
        case AliasDeleted => Ok([DeleteAlias(scope, name)])
  }

  // ---------- One event, loaded at some head ----------

  /** The call writes what its cell holds at some prefix that includes the event and does not pass the head. */
  ghost predicate OpFresh(log: Log, k: nat, head: nat, op: Op) {
    && ValidCell(CellOf(op))
    && exists h :: k < h <= head && h <= |log| && ValueOf(op) == CellAt(log[..h], CellOf(op))
  }

  /** The event changes no cell the calls leave out. */
  ghost predicate Covers(log: Log, k: nat, ops: seq<Op>, c: Cell)
    requires k < |log|
  {
    ValidCell(c) && (forall i :: 0 <= i < |ops| ==> CellOf(ops[i]) != c) ==> CellAt(log[..k + 1], c) == CellAt(log[..k], c)
  }

  ghost predicate OpsOk(log: Log, k: nat, head: nat, ops: seq<Op>)
    requires k < |log|
  {
    && |ops| <= 2
    && (forall i :: 0 <= i < |ops| ==> OpFresh(log, k, head, ops[i]))
    && (forall c :: Covers(log, k, ops, c))
    && (|ops| == 2 ==> ops[0].UpsertOrg? && ops[1].UpsertMember?)
  }

  lemma OrgAfter(log: Log, k: nat, id: string)
    requires k < |log|
    ensures OrgState(log[..k + 1], id) ==
            if log[k].OrgEnv? && log[k].id == id then Orgs.Evolve(OrgState(log[..k], id), log[k].org) else OrgState(log[..k], id)
  {
    assert log[..k + 1][..k] == log[..k];
  }

  /** Each org event of a valid log fits the org's state at that point. */
  lemma OrgEventDecided(log: Log, k: nat)
    requires ValidLog(log) && k < |log| && log[k].OrgEnv?
    ensures var s := OrgState(log[..k], log[k].id);
            && (log[k].org.OrgCreated? ==> s.id == "" && log[k].org.id == log[k].id && log[k].id != "")
            && (!log[k].org.OrgCreated? ==> s.id != "")
            && (log[k].org.ProjectArchived? ==> log[k].org.archiveId in s.projects)
  {
    assert Decided(log, k);
    var c :| Emits(log[..k], c, log[k]);
  }

  lemma {:induction false} OrgHasOwnId(log: Log, id: string)
    requires ValidLog(log)
    ensures OrgState(log, id) == Orgs.NO_ORG || (OrgState(log, id).id == id && id != "")
  {
    if log != [] {
      var n := |log| - 1;
      ValidPrefix(log, n);
      OrgHasOwnId(log[..n], id);
      if log[n].OrgEnv? {
        OrgEventDecided(log, n);
      }
    }
  }

  lemma OtherCells(log: Log, k: nat, c: Cell)
    requires k < |log|
    requires match c
             case OrgCell(id) => !log[k].OrgEnv? || log[k].id != id
             case MemberCell(org, _) => !log[k].OrgEnv? || log[k].id != org
             case ProjectCell(org, _) => !log[k].OrgEnv? || log[k].id != org
             case KeyCell(id) => !log[k].KeyEnv? || log[k].id != id
             case AliasCell(scope, name) => !log[k].AliasEnv? || log[k].id != AliasStreamId(scope, name)
    ensures CellAt(log[..k + 1], c) == CellAt(log[..k], c)
  {
    match c
    case OrgCell(id) => OrgAfter(log, k, id);
    case MemberCell(org, _) => OrgAfter(log, k, org);
    case ProjectCell(org, _) => OrgAfter(log, k, org);
    case KeyCell(id) => KeysProjector.StateAfter(log, k, id);
    case AliasCell(scope, name) => AliasProjector.StateAfter(log, k, AliasStreamId(scope, name));
  }

  lemma OrgOps(log: Log, k: nat, head: nat)
    requires ValidLog(log) && k < head <= |log| && log[k].OrgEnv? && !log[k].org.ProjectArchived?
    ensures OpsOf(log[k], log[..head]).Ok? && OpsOk(log, k, head, OpsOf(log[k], log[..head]).value)
  {
    hide OrgState;
    var (id, event, ops) := (log[k].id, log[k].org, OpsOf(log[k], log[..head]).value);
    OrgEventDecided(log, k);
    OrgAfter(log, k, id);
    ValidPrefix(log, k);
    OrgHasOwnId(log[..k], id);
    forall i | 0 <= i < |ops| ensures OpFresh(log, k, head, ops[i]) {
      assert ValueOf(ops[i]) == CellAt(log[..k + 1], CellOf(ops[i]));
    }
    forall c ensures Covers(log, k, ops, c) {
      OrgCovers(log, k, ops, c);
    }
  }

  lemma OrgCovers(log: Log, k: nat, ops: seq<Op>, c: Cell)
    requires ValidLog(log) && k < |log| && log[k].OrgEnv? && |ops| >= 1
    requires match log[k].org
             case OrgCreated(_, _, sub) => |ops| == 2 && CellOf(ops[0]) == OrgCell(log[k].id) && CellOf(ops[1]) == MemberCell(log[k].id, sub)
             case OrgRenamed(_) => CellOf(ops[0]) == OrgCell(log[k].id)
             case MemberUpserted(sub, _) => CellOf(ops[0]) == MemberCell(log[k].id, sub)
             case MemberRemoved(sub) => CellOf(ops[0]) == MemberCell(log[k].id, sub)
             case ProjectCreated(id, _) => CellOf(ops[0]) == ProjectCell(log[k].id, id)
             case ProjectArchived(id) => CellOf(ops[0]) == ProjectCell(log[k].id, id)
    ensures Covers(log, k, ops, c)
  {
    hide OrgState;
    OrgEventDecided(log, k);
    ValidPrefix(log, k);
    OrgHasOwnId(log[..k], log[k].id);
    OrgAfter(log, k, log[k].id);
    if (c.OrgCell? && c.id == log[k].id) || (c.MemberCell? && c.org == log[k].id) || (c.ProjectCell? && c.org == log[k].id) {
    } else {
      OtherCells(log, k, c);
    }
  }

  /** The archived project is still there at the head, under the same name, and archived. */
  lemma ArchiveOps(log: Log, k: nat, head: nat)
    requires ValidLog(log) && k < head <= |log| && log[k].OrgEnv? && log[k].org.ProjectArchived?
    ensures OpsOf(log[k], log[..head]).Ok? && OpsOk(log, k, head, OpsOf(log[k], log[..head]).value)
  {
    hide OrgState;
    var (org, id, view) := (log[k].id, log[k].org.archiveId, log[..head]);
    OrgEventDecided(log, k);
    ValidPrefix(log, head);
    Commands.ProjectsOnlyGrowAlong(view, k, org);
    assert view[..k] == log[..k];
    Commands.ValidLogKeepsOrgOk(view, org);
    var ops := OpsOf(log[k], view).value;
    assert CellOf(ops[0]) == ProjectCell(org, id);
    assert ValueOf(ops[0]) == CellAt(log[..head], CellOf(ops[0]));
    forall c ensures Covers(log, k, ops, c) {
      OrgCovers(log, k, ops, c);
    }
  }

  lemma KeyOps(log: Log, k: nat, head: nat)
    requires ValidLog(log) && k < head <= |log| && log[k].KeyEnv?
    ensures OpsOf(log[k], log[..head]).Ok? && OpsOk(log, k, head, OpsOf(log[k], log[..head]).value)
  {
    hide KeyState;
    var (id, view) := (log[k].id, log[..head]);
    KeysProjector.KeyEventDecided(log, k);
    KeysProjector.StateAfter(log, k, id);
    ValidPrefix(log, head);
    assert view[..k + 1] == log[..k + 1];
    KeysRestart.ExistsForever(view, k + 1, id);
    var ops := OpsOf(log[k], view).value;
    assert ValueOf(ops[0]) == CellAt(log[..head], CellOf(ops[0]));
    forall c ensures Covers(log, k, ops, c) {
      if c != KeyCell(id) {
        OtherCells(log, k, c);
      } else {
        assert CellOf(ops[0]) == c;
      }
    }
  }

  lemma AliasOps(log: Log, k: nat, head: nat)
    requires ValidLog(log) && k < head <= |log| && log[k].AliasEnv?
    ensures OpsOf(log[k], log[..head]).Ok? && OpsOk(log, k, head, OpsOf(log[k], log[..head]).value)
  {
    hide AliasState, SplitAliasStreamId, ValidAlias;
    var scope, name := AliasProjector.AliasEventDecided(log, k);
    AliasProjector.StateAfter(log, k, log[k].id);
    var ops := OpsOf(log[k], log[..head]).value;
    assert ValueOf(ops[0]) == CellAt(log[..k + 1], CellOf(ops[0]));
    forall c ensures Covers(log, k, ops, c) {
      if c.AliasCell? && ValidCell(c) && c != AliasCell(scope, name) {
        PairsApart(c.scope, c.name, scope, name);
        OtherCells(log, k, c);
      } else if !c.AliasCell? {
        OtherCells(log, k, c);
      } else {
        assert ValidCell(c) ==> CellOf(ops[0]) == c;
      }
    }
  }

  /** Whatever head its loads see, a valid event is never refused, and its calls are right for that head. */
  lemma EventOps(log: Log, k: nat, head: nat)
    requires ValidLog(log) && k < head <= |log|
    ensures OpsOf(log[k], log[..head]).Ok? && OpsOk(log, k, head, OpsOf(log[k], log[..head]).value)
  {
    hide OpsOf, OpsOk;
    match log[k]
    case OrgEnv(_, event) => if event.ProjectArchived? { ArchiveOps(log, k, head); } else { OrgOps(log, k, head); }
    case KeyEnv(_, _) => KeyOps(log, k, head);
    case AliasEnv(_, _) => AliasOps(log, k, head);
  }

  // ---------- Every run ----------

  datatype Process = Down | Up(pos: nat, failed: bool, job: Option<Job<Op>>)

  datatype State = State(tables: Tables, marker: nat, head: nat, process: Process)

  const START := State(EMPTY_TABLES, 0, 0, Down)

  /** A delivery is one step (with the load, which sees the head of that moment); so is each call after it. */
  datatype Action =
    | Grow
    | Start
    | Deliver(k: nat, loadOk: bool)
    | CallNext(outcome: KvOutcome)
    | SaveMarker(outcome: KvOutcome)
    | Crash

  function DeliverStep(log: Log, w: State, k: nat, loadOk: bool): State {
    if !w.process.Up? || w.process.failed || w.process.job.Some? || k >= w.head || w.head > |log| || k != w.process.pos
    then w // a duplicate (k < pos) is skipped; a position beyond the next arrives only after it
    else
      match OpsOf(log[k], log[..w.head])
      case Ok(ops) =>
        if loadOk || !Loads(log[k]) then w.(process := w.process.(job := Some(Job(k, ops, 0))))
        else w.(process := w.process.(failed := true))
      case Err(_) => w.(process := w.process.(failed := true))
  }

  function CallStep(w: State, outcome: KvOutcome): State {
    if !w.process.Up? || w.process.job.None? || w.process.job.value.done >= |w.process.job.value.ws| then w
    else
      var job := w.process.job.value;
      w.(tables := if outcome.FailedLost? then w.tables else ApplyOp(w.tables, job.ws[job.done]),
         process := if outcome.Success? then w.process.(job := Some(job.(done := job.done + 1)))
                    else w.process.(failed := true, job := None))
  }

  function SaveMarkerStep(w: State, outcome: KvOutcome): State {
    if !w.process.Up? || w.process.job.None? || w.process.job.value.done < |w.process.job.value.ws| then w
    else
      var k := w.process.job.value.k;
      w.(marker := if outcome.FailedLost? then w.marker else k + 1,
         process := Up(k + 1, !outcome.Success?, None))
  }

  function Step(log: Log, w: State, a: Action): State {
    match a
    case Grow => if w.head < |log| then w.(head := w.head + 1) else w
    case Start => if w.process.Up? then w else w.(process := Up(w.marker, false, None))
    case Deliver(k, loadOk) => DeliverStep(log, w, k, loadOk)
    case CallNext(outcome) => CallStep(w, outcome)
    case SaveMarker(outcome) => SaveMarkerStep(w, outcome)
    case Crash => w.(process := Down)
  }

  function Run(log: Log, actions: seq<Action>): State {
    if actions == [] then START else Step(log, Run(log, actions[..|actions| - 1]), actions[|actions| - 1])
  }

  /** The cell holds what some prefix of lo to head events folds to. */
  ghost predicate FreshFrom(log: Log, t: Tables, c: Cell, lo: nat, head: nat) {
    exists h :: lo <= h <= head && h <= |log| && Lookup(t, c) == CellAt(log[..h], c)
  }

  ghost predicate CellOk(log: Log, w: State, c: Cell) {
    ValidCell(c) ==> FreshFrom(log, w.tables, c, w.marker, w.head)
  }

  ghost predicate AliasKeysOk(t: Tables) {
    forall key :: key in t.aliases ==> AliasProjector.KeyOk(key)
  }

  ghost predicate JobOk(log: Log, w: State) {
    w.process.Up? ==>
      && (!w.process.failed ==> w.process.pos == w.marker)
      && (w.process.job.Some? ==>
            var job := w.process.job.value;
            && !w.process.failed && job.k == w.marker < w.head <= |log|
            && OpsOk(log, job.k, w.head, job.ws) && job.done <= |job.ws|
            && forall i :: 0 <= i < job.done ==> FreshFrom(log, w.tables, CellOf(job.ws[i]), job.k + 1, w.head))
  }

  ghost predicate Inv(log: Log, w: State) {
    && w.marker <= w.head <= |log|
    && (forall c :: CellOk(log, w, c))
    && AliasKeysOk(w.tables)
    && JobOk(log, w)
  }

  lemma OpsOkLater(log: Log, k: nat, head: nat, ops: seq<Op>)
    requires k < |log| && OpsOk(log, k, head, ops)
    ensures OpsOk(log, k, head + 1, ops)
  {
    hide CellAt, CellOf, ValueOf, ValidCell;
    forall i | 0 <= i < |ops| ensures OpFresh(log, k, head + 1, ops[i]) {
      assert OpFresh(log, k, head, ops[i]);
    }
  }

  lemma FreshLater(log: Log, t: Tables, c: Cell, lo: nat, head: nat)
    requires FreshFrom(log, t, c, lo, head)
    ensures FreshFrom(log, t, c, lo, head + 1)
  {
    hide CellAt, Lookup;
    var h :| lo <= h <= head && h <= |log| && Lookup(t, c) == CellAt(log[..h], c);
  }

  lemma GrowKeepsInv(log: Log, w: State)
    requires Inv(log, w)
    ensures Inv(log, Step(log, w, Grow))
  {
    hide FreshFrom, OpsOk, ValidCell;
    if w.head < |log| {
      var w' := w.(head := w.head + 1);
      forall c ensures CellOk(log, w', c) {
        assert CellOk(log, w, c);
        if ValidCell(c) {
          FreshLater(log, w.tables, c, w.marker, w.head);
        }
      }
      if w.process.Up? && w.process.job.Some? {
        var job := w.process.job.value;
        OpsOkLater(log, job.k, w.head, job.ws);
        forall i | 0 <= i < job.done ensures FreshFrom(log, w.tables, CellOf(job.ws[i]), job.k + 1, w.head + 1) {
          FreshLater(log, w.tables, CellOf(job.ws[i]), job.k + 1, w.head);
        }
      }
    }
  }

  lemma DeliverNeverStops(log: Log, w: State, k: nat, loadOk: bool)
    requires ValidLog(log) && Inv(log, w)
    ensures var w' := DeliverStep(log, w, k, loadOk);
            && Inv(log, w')
            && (loadOk && w'.process.Up? && w'.process.failed ==> w.process.Up? && w.process.failed)
  {
    hide OpsOf, OpsOk, FreshFrom, ValidLog, ValidCell, AliasKeysOk;
    var w' := DeliverStep(log, w, k, loadOk);
    if w' != w {
      EventOps(log, k, w.head);
      assert forall c :: CellOk(log, w, c) ==> CellOk(log, w', c);
    }
  }

  /** A call puts its cell past the event and leaves the others as they were. */
  lemma CallAt(log: Log, t: Tables, k: nat, head: nat, op: Op, c: Cell, lo: nat)
    requires OpFresh(log, k, head, op) && ValidCell(c) && lo <= k + 1
    requires c == CellOf(op) || FreshFrom(log, t, c, lo, head)
    ensures FreshFrom(log, ApplyOp(t, op), c, lo, head)
    ensures c == CellOf(op) ==> FreshFrom(log, ApplyOp(t, op), c, k + 1, head)
  {
    hide CellAt, Lookup, ApplyOp, CellOf, ValueOf, ValidCell;
    ApplyOpAt(t, op, c);
    if c == CellOf(op) {
      var h :| k < h <= head && h <= |log| && ValueOf(op) == CellAt(log[..h], CellOf(op));
    } else {
      var h :| lo <= h <= head && h <= |log| && Lookup(t, c) == CellAt(log[..h], c);
    }
  }

  lemma CallKeepsAliasKeys(t: Tables, op: Op)
    requires AliasKeysOk(t) && ValidCell(CellOf(op))
    ensures AliasKeysOk(ApplyOp(t, op))
  {
    var t' := ApplyOp(t, op);
    forall key | key in t'.aliases ensures AliasProjector.KeyOk(key) {
      assert key in t.aliases || (op.UpsertAlias? && key == BucketKey(op.alias.scope, op.alias.name));
    }
  }

  lemma CallKeepsInv(log: Log, w: State, outcome: KvOutcome)
    requires Inv(log, w)
    ensures Inv(log, CallStep(w, outcome))
  {
    hide FreshFrom, ValidCell, ApplyOp, CellOf, AliasKeysOk, OpFresh, Covers;
    var w' := CallStep(w, outcome);
    if w' != w {
      var job := w.process.job.value;
      var op := job.ws[job.done];
      assert OpFresh(log, job.k, w.head, op);
      OpFreshIsValid(log, job.k, w.head, op);
      if !outcome.FailedLost? {
        CallKeepsAliasKeys(w.tables, op);
        forall c ensures CellOk(log, w', c) {
          assert CellOk(log, w, c);
          if ValidCell(c) {
            CallAt(log, w.tables, job.k, w.head, op, c, w.marker);
          }
        }
        forall i | 0 <= i <= job.done ensures FreshFrom(log, w'.tables, CellOf(job.ws[i]), job.k + 1, w.head) {
          OpFreshIsValid(log, job.k, w.head, job.ws[i]);
          CallAt(log, w.tables, job.k, w.head, op, CellOf(job.ws[i]), job.k + 1);
        }
      } else {
        assert forall c :: CellOk(log, w, c) ==> CellOk(log, w', c);
      }
    }
  }

  lemma OpFreshIsValid(log: Log, k: nat, head: nat, op: Op)
    requires OpFresh(log, k, head, op)
    ensures ValidCell(CellOf(op))
  {
  }

  /** Once all calls are made, every cell has caught up with the event. */
  lemma MarkerCovers(log: Log, w: State, c: Cell)
    requires w.process.Up? && w.process.job.Some? && JobOk(log, w) && CellOk(log, w, c) && ValidCell(c)
    requires w.process.job.value.done == |w.process.job.value.ws|
    ensures FreshFrom(log, w.tables, c, w.marker + 1, w.head)
  {
    hide CellAt, Lookup, CellOf, ValidCell;
    var (k, ops) := (w.process.job.value.k, w.process.job.value.ws);
    if forall i :: 0 <= i < |ops| ==> CellOf(ops[i]) != c {
      assert Covers(log, k, ops, c);
      var h :| w.marker <= h <= w.head && h <= |log| && Lookup(w.tables, c) == CellAt(log[..h], c);
      assert Lookup(w.tables, c) == CellAt(log[..if h == k then k + 1 else h], c);
    }
  }

  lemma SaveMarkerKeepsInv(log: Log, w: State, outcome: KvOutcome)
    requires Inv(log, w)
    ensures Inv(log, SaveMarkerStep(w, outcome))
  {
    hide FreshFrom, ValidCell, AliasKeysOk, OpsOk;
    var w' := SaveMarkerStep(w, outcome);
    if w' != w {
      forall c ensures CellOk(log, w', c) {
        assert CellOk(log, w, c);
        if ValidCell(c) && w'.marker != w.marker {
          MarkerCovers(log, w, c);
        }
      }
    }
  }

  lemma StartInv(log: Log)
    ensures Inv(log, START)
  {
    forall c ensures CellOk(log, START, c) {
      assert log[..0] == [];
      assert Lookup(EMPTY_TABLES, c) == CellAt(log[..0], c);
    }
  }

  lemma StepKeepsInv(log: Log, w: State, a: Action)
    requires ValidLog(log) && Inv(log, w)
    ensures Inv(log, Step(log, w, a))
  {
    hide DeliverStep, CallStep, SaveMarkerStep, FreshFrom, ValidCell, AliasKeysOk, ValidLog, OpsOk;
    match a
    case Grow => GrowKeepsInv(log, w);
    case Deliver(k, loadOk) => DeliverNeverStops(log, w, k, loadOk);
    case CallNext(outcome) => CallKeepsInv(log, w, outcome);
    case SaveMarker(outcome) => SaveMarkerKeepsInv(log, w, outcome);
    case Start =>
      assert forall c :: CellOk(log, w, c) ==> CellOk(log, Step(log, w, Start), c);
    case Crash =>
      assert forall c :: CellOk(log, w, c) ==> CellOk(log, Step(log, w, Crash), c);
  }

  lemma {:induction false} RunInv(log: Log, actions: seq<Action>)
    requires ValidLog(log)
    ensures Inv(log, Run(log, actions))
  {
    hide Step, Inv, ValidLog;
    if actions == [] {
      StartInv(log);
    } else {
      RunInv(log, actions[..|actions| - 1]);
      StepKeepsInv(log, Run(log, actions[..|actions| - 1]), actions[|actions| - 1]);
    }
  }

  // ---------- The promises ----------

  /**
   At every moment of every run, whatever crashed or failed and however the log grew meanwhile, each
   cell is the fold of a prefix that includes everything the marker covers.
   */
  lemma CellsReachTheMarker(log: Log, actions: seq<Action>, c: Cell) returns (h: nat)
    requires ValidLog(log) && ValidCell(c)
    ensures var w := Run(log, actions);
            w.marker <= h <= w.head <= |log| && Lookup(w.tables, c) == CellAt(log[..h], c)
  {
    hide CellAt, Lookup, ValidCell, ValidLog;
    RunInv(log, actions);
    var w := Run(log, actions);
    assert CellOk(log, w, c);
    h :| w.marker <= h <= w.head && h <= |log| && Lookup(w.tables, c) == CellAt(log[..h], c);
  }

  /** Once the log is applied to its end, all five tables are its fold, and hold nothing else. */
  lemma CaughtUpIsFold(log: Log, actions: seq<Action>)
    requires ValidLog(log) && Run(log, actions).marker == |log|
    ensures var t := Run(log, actions).tables;
            && (forall c :: ValidCell(c) ==> Lookup(t, c) == CellAt(log, c))
            && (forall key :: key in t.aliases ==> AliasProjector.KeyOk(key))
  {
    hide CellAt, Lookup, ValidCell, ValidLog;
    RunInv(log, actions);
    forall c | ValidCell(c) ensures Lookup(Run(log, actions).tables, c) == CellAt(log, c) {
      var h := CellsReachTheMarker(log, actions, c);
      assert log[..|log|] == log;
    }
  }

  /** Only a failed call or load stops the projector. */
  lemma OnlyCallsFail(log: Log, actions: seq<Action>, k: nat)
    requires ValidLog(log)
    ensures var w := Run(log, actions);
            w.process.Up? && !w.process.failed ==> !Step(log, w, Deliver(k, true)).process.failed
  {
    RunInv(log, actions);
    DeliverNeverStops(log, Run(log, actions), k, true);
  }

  /**
   Redoing an event after a crash among its calls, its load now seeing a log that may have grown,
   leaves what doing it once at that later moment leaves: nothing of the cut attempt shows.
   */
  lemma RedoIsNoOp(log: Log, k: nat, head: nat, later: nat, t: Tables, done: nat)
    requires ValidLog(log) && k < head <= later <= |log|
    ensures OpsOf(log[k], log[..head]).Ok? && OpsOf(log[k], log[..later]).Ok?
    ensures var (ops, again) := (OpsOf(log[k], log[..head]).value, OpsOf(log[k], log[..later]).value);
            done <= |ops| ==> ApplyOps(ApplyOps(t, ops[..done]), again) == ApplyOps(t, again)
  {
    hide ApplyOps, CellOf, OpsOk;
    EventOps(log, k, head);
    EventOps(log, k, later);
    var (ops, again) := (OpsOf(log[k], log[..head]).value, OpsOf(log[k], log[..later]).value);
    if done <= |ops| {
      SameCells(log, k, head, later);
      OpsOverwrite(t, ops, again, done);
    }
  }

  /** The calls of one event go to the same cells whatever its load sees, and do the same kind of thing there. */
  lemma SameCells(log: Log, k: nat, head: nat, later: nat)
    requires ValidLog(log) && k < head <= later <= |log|
    requires OpsOf(log[k], log[..head]).Ok? && OpsOf(log[k], log[..later]).Ok?
    ensures var (ops, again) := (OpsOf(log[k], log[..head]).value, OpsOf(log[k], log[..later]).value);
            && 1 <= |ops| == |again| <= 2
            && (forall i :: 0 <= i < |ops| ==> Overwrites(again[i], ops[i]))
            && (|ops| == 2 ==> ops == again && ops[0].UpsertOrg? && ops[1].UpsertMember?)
  {
    hide OrgState, KeyState, SplitAliasStreamId;
    if log[k].OrgEnv? && log[k].org.ProjectArchived? {
      ArchivedIdStays(log, k, head);
      ArchivedIdStays(log, k, later);
    }
  }

  lemma ArchivedIdStays(log: Log, k: nat, head: nat)
    requires ValidLog(log) && k < head <= |log| && log[k].OrgEnv? && log[k].org.ProjectArchived?
    ensures var (id, projects) := (log[k].org.archiveId, OrgState(log[..head], log[k].id).projects);
            id in projects ==> projects[id].id == id
  {
    ValidPrefix(log, head);
    Commands.ValidLogKeepsOrgOk(log[..head], log[k].id);
  }

  // ---------- The apply method, and its calls as steps of a run ----------

  datatype Projector = Projector(tables: Tables, marker: nat, pos: nat, failed: bool)

  /** A delivery and the log as a load made for it sees it. */
  datatype Loaded = Loaded(d: Delivery, view: Log)

  function Called(t: Tables, ops: seq<Op>, io: Io): (Tables, bool) {
    if ops == [] then (t, true)
    else
      var t' := if io.first.FailedLost? then t else ApplyOp(t, ops[0]);
      if !io.first.Success? || |ops| == 1 then (t', io.first.Success?)
      else (if io.second.FailedLost? then t' else ApplyOp(t', ops[1]), io.second.Success?)
  }

  function Saved(p: Projector, d: Delivery): Projector {
    p.(pos := d.position, marker := if d.io.save.FailedLost? then p.marker else d.position, failed := !d.io.save.Success?)
  }

  /** One turn of apply's loop. */
  function ApplyDelivery(p: Projector, l: Loaded): Projector {
    if p.failed || l.d.position <= p.pos then p
    else if Loads(l.d.event) && !l.d.io.readOk then p.(failed := true)
    else
      match OpsOf(l.d.event, l.view)
      case Err(_) => p.(failed := true)
      case Ok(ops) =>
        var (tables, ok) := Called(p.tables, ops, l.d.io);
        if ok then Saved(p.(tables := tables), l.d) else p.(tables := tables, failed := true)
  }

  function ApplyBatch(p: Projector, batch: seq<Loaded>): Projector {
    if batch == [] then p else ApplyDelivery(ApplyBatch(p, batch[..|batch| - 1]), batch[|batch| - 1])
  }

  lemma {:induction false} FailedBatch(p: Projector, batch: seq<Loaded>, i: nat)
    requires i <= |batch| && ApplyBatch(p, batch[..i]).failed
    ensures ApplyBatch(p, batch) == ApplyBatch(p, batch[..i])
  {
    hide OpsOf, Called;
    if i < |batch| {
      var init := batch[..|batch| - 1];
      assert init[..i] == batch[..i];
      FailedBatch(p, init, i);
    } else {
      assert batch[..i] == batch;
    }
  }

  function View(w: State): Projector
    requires w.process.Up?
  {
    Projector(w.tables, w.marker, w.process.pos, w.process.failed)
  }

  lemma CallsAreSteps(w: State, io: Io)
    requires w.process.Up? && w.process.job.Some? && w.process.job.value.done == 0 && |w.process.job.value.ws| <= 2
    requires !w.process.failed
    ensures var w' := CallStep(CallStep(w, io.first), io.second);
            var job := w.process.job.value;
            var (tables, ok) := Called(w.tables, job.ws, io);
            && w'.tables == tables && w'.marker == w.marker && w'.head == w.head
            && w'.process == if ok then w.process.(job := Some(Job(job.k, job.ws, |job.ws|)))
                             else w.process.(job := None, failed := true)
  {
    hide ApplyOp;
  }

  lemma OpsAreFew(e: Envelope, view: Log)
    ensures OpsOf(e, view).Ok? ==> |OpsOf(e, view).value| <= 2
  {
    hide SplitAliasStreamId, OrgState, KeyState;
  }

  /** The next event or a duplicate, delivered when the log has grown from head to what the load sees. */
  predicate Deliverable(log: Log, pos: nat, head: nat, l: Loaded) {
    && head <= |l.view| <= |log| && l.view == log[..|l.view|]
    && 1 <= l.d.position <= |l.view| && l.d.event == log[l.d.position - 1]
    && l.d.position <= pos + 1
  }

  function Grows(n: nat): seq<Action> {
    if n == 0 then [] else Grows(n - 1) + [Grow]
  }

  function StepsOf(head: nat, l: Loaded): seq<Action>
    requires l.d.position >= 1 && head <= |l.view|
  {
    Grows(|l.view| - head) +
    [Deliver(l.d.position - 1, l.d.io.readOk), CallNext(l.d.io.first), CallNext(l.d.io.second), SaveMarker(l.d.io.save)]
  }

  function Steps(log: Log, w: State, actions: seq<Action>): State {
    if actions == [] then w else Step(log, Steps(log, w, actions[..|actions| - 1]), actions[|actions| - 1])
  }

  lemma {:induction false} StepsJoin(log: Log, w: State, first: seq<Action>, more: seq<Action>)
    ensures Steps(log, w, first + more) == Steps(log, Steps(log, w, first), more)
  {
    hide Step;
    if more == [] {
      assert first + more == first;
    } else {
      StepsJoin(log, w, first, more[..|more| - 1]);
      assert (first + more)[..|first + more| - 1] == first + more[..|more| - 1];
    }
  }

  lemma {:induction false} RunThenSteps(log: Log, actions: seq<Action>, more: seq<Action>)
    ensures Run(log, actions + more) == Steps(log, Run(log, actions), more)
  {
    hide Step;
    if more == [] {
      assert actions + more == actions;
    } else {
      RunThenSteps(log, actions, more[..|more| - 1]);
      assert (actions + more)[..|actions + more| - 1] == actions + more[..|more| - 1];
    }
  }

  lemma {:induction false} GrowsMoveHead(log: Log, w: State, n: nat)
    requires w.head + n <= |log|
    ensures Steps(log, w, Grows(n)) == w.(head := w.head + n)
  {
    if n > 0 {
      GrowsMoveHead(log, w, n - 1);
      assert Grows(n)[..|Grows(n)| - 1] == Grows(n - 1);
    }
  }

  lemma FourSteps(log: Log, w: State, a: Action, b: Action, c: Action, e: Action)
    ensures Steps(log, w, [a, b, c, e]) == Step(log, Step(log, Step(log, Step(log, w, a), b), c), e)
  {
    hide Step;
    assert [a, b, c, e][..3] == [a, b, c] && [a, b, c][..2] == [a, b] && [a, b][..1] == [a] && [a][..0] == [];
    assert Steps(log, w, [a, b, c]) == Step(log, Steps(log, w, [a, b]), c);
    assert Steps(log, w, [a, b]) == Step(log, Steps(log, w, [a]), b);
    assert Steps(log, w, [a]) == Step(log, w, a);
  }

  lemma StepsOfDelivery(log: Log, w: State, l: Loaded)
    requires l.d.position >= 1 && w.head <= |l.view| <= |log|
    ensures Steps(log, w, StepsOf(w.head, l)) ==
            SaveMarkerStep(CallStep(CallStep(DeliverStep(log, w.(head := |l.view|), l.d.position - 1, l.d.io.readOk),
                                             l.d.io.first), l.d.io.second), l.d.io.save)
  {
    hide SaveMarkerStep, CallStep, DeliverStep, Steps, Grows;
    var (a, b, c, e) := (Deliver(l.d.position - 1, l.d.io.readOk), CallNext(l.d.io.first), CallNext(l.d.io.second), SaveMarker(l.d.io.save));
    GrowsMoveHead(log, w, |l.view| - w.head);
    StepsJoin(log, w, Grows(|l.view| - w.head), [a, b, c, e]);
    FourSteps(log, w.(head := |l.view|), a, b, c, e);
  }

  /** One turn of apply's loop is growth of the log and four steps of the machine. */
  lemma DeliveryIsSteps(log: Log, w: State, l: Loaded)
    requires w.process.Up? && w.process.job.None? && Deliverable(log, w.process.pos, w.head, l)
    ensures var w' := Steps(log, w, StepsOf(w.head, l));
            w'.process.Up? && w'.process.job.None? && w'.head == |l.view| && View(w') == ApplyDelivery(View(w), l)
  {
    hide OpsOf, Called, CallStep, Steps, StepsOf;
    StepsOfDelivery(log, w, l);
    var w1 := DeliverStep(log, w.(head := |l.view|), l.d.position - 1, l.d.io.readOk);
    OpsAreFew(l.d.event, l.view);
    if w1.process.job.Some? {
      CallsAreSteps(w1, l.d.io);
    } else {
      IdleCalls(w1, l.d.io);
    }
  }

  /** How far the log has grown before the i-th element of a batch is applied. */
  function HeadBefore(head: nat, batch: seq<Loaded>, i: nat): nat
    requires i <= |batch|
  {
    if i == 0 then head else |batch[i - 1].view|
  }

  /** Every element is next in order, or a duplicate, when apply gets to it; the log may have grown meanwhile. */
  ghost predicate Orderly(log: Log, p: Projector, head: nat, batch: seq<Loaded>) {
    forall i :: 0 <= i < |batch| ==>
      Deliverable(log, ApplyBatch(p, batch[..i]).pos, HeadBefore(head, batch, i), batch[i])
  }

  /** A whole call of apply, the log growing under it, is a stretch of a run. */
  lemma {:induction false} BatchIsSteps(log: Log, w: State, batch: seq<Loaded>) returns (actions: seq<Action>)
    requires w.process.Up? && w.process.job.None? && Orderly(log, View(w), w.head, batch)
    ensures var w' := Steps(log, w, actions);
            && w'.process.Up? && w'.process.job.None? && w'.head == HeadBefore(w.head, batch, |batch|)
            && View(w') == ApplyBatch(View(w), batch)
  {
    if batch == [] {
      actions := [];
    } else {
      hide Step, ApplyDelivery, StepsOf, Deliverable, Orderly, HeadBefore;
      var init, last := batch[..|batch| - 1], batch[|batch| - 1];
      InitIsOrderly(log, View(w), w.head, batch);
      var before := BatchIsSteps(log, w, init);
      var w0 := Steps(log, w, before);
      LastIsDeliverable(log, View(w), w.head, batch);
      DeliveryIsSteps(log, w0, last);
      actions := before + StepsOf(w0.head, last);
      StepsJoin(log, w, before, StepsOf(w0.head, last));
    }
  }

  /** A call of apply at the end of a run is a longer run, so what holds of all runs holds of the object. */
  lemma BatchIsRun(log: Log, actions: seq<Action>, batch: seq<Loaded>) returns (more: seq<Action>)
    requires var w := Run(log, actions); w.process.Up? && w.process.job.None? && Orderly(log, View(w), w.head, batch)
    ensures var (w, w') := (Run(log, actions), Run(log, actions + more));
            w'.process.Up? && w'.process.job.None? && View(w') == ApplyBatch(View(w), batch)
  {
    hide Run, Steps, Orderly, ApplyBatch;
    more := BatchIsSteps(log, Run(log, actions), batch);
    RunThenSteps(log, actions, more);
  }

  const WELL := Io(true, Success, Success, Success)

  /** The events from m on, each loaded at the end of the log, with every call going well. */
  function RestOf(log: Log, m: nat): seq<Loaded>
    requires m <= |log|
  {
    seq(|log| - m, i requires 0 <= i < |log| - m => Loaded(Delivery(m + i + 1, log[m + i], WELL), log))
  }

  lemma HealthyDelivery(log: Log, p: Projector, k: nat)
    requires ValidLog(log) && k < |log| && !p.failed && p.pos == p.marker == k
    ensures var q := ApplyDelivery(p, Loaded(Delivery(k + 1, log[k], WELL), log));
            !q.failed && q.pos == q.marker == k + 1
  {
    hide OpsOf, ApplyOp;
    assert log[..|log|] == log;
    EventOps(log, k, |log|);
  }

  lemma {:induction false} HealthyBatch(log: Log, p: Projector, n: nat)
    requires ValidLog(log) && p.pos + n <= |log| && !p.failed && p.pos == p.marker
    ensures var q := ApplyBatch(p, RestOf(log, p.pos)[..n]); !q.failed && q.pos == q.marker == p.pos + n
  {
    hide ApplyDelivery, ValidLog;
    if n > 0 {
      HealthyBatch(log, p, n - 1);
      var batch := RestOf(log, p.pos)[..n];
      assert batch[..n - 1] == RestOf(log, p.pos)[..n - 1];
      HealthyDelivery(log, ApplyBatch(p, batch[..n - 1]), p.pos + n - 1);
    }
  }

  /** From wherever a run stands, with its process up and not failed, it goes on to the end of the log if its calls go well. */
  lemma CatchesUp(log: Log, actions: seq<Action>) returns (more: seq<Action>)
    requires ValidLog(log)
    requires var w := Run(log, actions); w.process.Up? && !w.process.failed && w.process.job.None?
    ensures var w := Run(log, actions + more); w.marker == |log| && w.process.Up? && !w.process.failed
  {
    hide Run, ValidLog, Step, OpsOf, ApplyDelivery;
    RunInv(log, actions);
    var w := Run(log, actions);
    var p, batch := View(w), RestOf(log, w.marker);
    forall i | 0 <= i < |batch|
      ensures Deliverable(log, ApplyBatch(p, batch[..i]).pos, HeadBefore(w.head, batch, i), batch[i])
    {
      HealthyBatch(log, p, i);
      assert log[..|log|] == log;
    }
    more := BatchIsRun(log, actions, batch);
    HealthyBatch(log, p, |batch|);
    assert batch[..|batch|] == batch;
  }

  lemma LastIsDeliverable(log: Log, p: Projector, head: nat, batch: seq<Loaded>)
    requires batch != [] && Orderly(log, p, head, batch)
    ensures var n := |batch| - 1;
            && batch[n].d.position >= 1 && HeadBefore(head, batch, n) <= |batch[n].view|
            && Deliverable(log, ApplyBatch(p, batch[..n]).pos, HeadBefore(head, batch, n), batch[n])
            && HeadBefore(head, batch, |batch|) == |batch[n].view|
  {
    hide ApplyBatch;
  }

  lemma InitIsOrderly(log: Log, p: Projector, head: nat, batch: seq<Loaded>)
    requires batch != [] && Orderly(log, p, head, batch)
    ensures var init := batch[..|batch| - 1];
            Orderly(log, p, head, init) && HeadBefore(head, init, |init|) == HeadBefore(head, batch, |init|)
  {
    hide Deliverable, ApplyBatch;
    var init := batch[..|batch| - 1];
    forall i | 0 <= i < |init|
      ensures Deliverable(log, ApplyBatch(p, init[..i]).pos, HeadBefore(head, init, i), init[i])
    {
      assert batch[..i] == init[..i];
    }
  }

  lemma IdleCalls(w: State, io: Io)
    requires w.process.Up? && w.process.job.None?
    ensures CallStep(CallStep(w, io.first), io.second) == w
  {
  }
}
