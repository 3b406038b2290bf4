/**
 Every interleaving of the ledger's actors: AddUsage calls, KEYS snapshots, month rollovers, any
 number of baseline loads in flight and one flush in flight, each KV or sink call free to fail.
 A run is any sequence of actions; an action that cannot happen in a state leaves it unchanged.
 */
module LedgerWorld {
  import opened Cpkv
  import opened Wrappers
  import opened LedgerModel

  /** A clock reading in "2006-01" form: never the empty string. */
  type Month = m: string | m != "" witness "2026-01"

  /** A baseline load: the month it read off the row, and the sink's answer once there is one. */
  datatype Load = Load(id: string, month: string, force: bool, answer: Option<int>)

  datatype Phase = Idle | Flushing(flight: Flight, applied: bool)

  /** What the history records; Pending is an entry a flush has decided to publish. */
  datatype Obs =
    | Answered(id: string, month: string, used: int)
    | Landed(id: string, month: string, used: int)
    | Accepted(id: string, tokens: int)
    | Pending(id: string, entry: BudgetEntry)

  datatype World = World(
    ledger: Ledger,
    budgets: map<string, BudgetEntry>,
    keys: KeysSnapshot,
    phase: Phase,
    loads: map<nat, Load>,
    hist: seq<Obs>)

  const START := World(EMPTY_LEDGER, map[], map[], Idle, map[], [])

  datatype Action =
    | AddUsageAct(id: string, tokens: int)
    | SnapshotAct(snap: KeysSnapshot, now: Month)
    | LoadStartAct(ticket: nat, id: string, force: bool)
    | LoadAnswerAct(ticket: nat, used: int)
    | LoadFailAct(ticket: nat)
    | LoadLandAct(ticket: nat)
    | RolloverAct(newMonth: Month)
    | FlushBeginAct(id: string)
    | KvEffectAct
    | FlushEndAct(ok: bool)

  ghost function AddUsageStep(w: World, id: string, tokens: int): World {
    if Accepts(w.ledger, id) then
      w.(ledger := AddUsage(w.ledger, id, tokens), hist := w.hist + [Accepted(id, tokens)])
    else w
  }

  ghost function SnapshotStep(w: World, snap: KeysSnapshot, now: string): World {
    w.(ledger := Reconcile(w.ledger, Fold(snap), now), keys := snap)
  }

  ghost function LoadStartStep(w: World, ticket: nat, id: string, force: bool): World {
    if ticket in w.loads || !Live(w.ledger, id) then w
    else w.(loads := w.loads[ticket := Load(id, w.ledger.entries[id].month, force, None)])
  }

  ghost function LoadAnswerStep(w: World, ticket: nat, used: int): World {
    if ticket !in w.loads || w.loads[ticket].answer.Some? then w
    else
      var load := w.loads[ticket];
      w.(loads := w.loads[ticket := load.(answer := Some(used))],
         hist := w.hist + [Answered(load.id, load.month, used)])
  }

  ghost function LoadLandStep(w: World, ticket: nat): World {
    if ticket !in w.loads || w.loads[ticket].answer.None? then w
    else
      var load := w.loads[ticket];
      var used := load.answer.value;
      var lands := Live(w.ledger, load.id) && w.ledger.entries[load.id].month == load.month;
      w.(ledger := Land(w.ledger, load.id, load.month, used, load.force),
         loads := w.loads - {ticket},
         hist := if lands then w.hist + [Landed(load.id, load.month, used)] else w.hist)
  }

  ghost function FlushBeginStep(w: World, id: string): World {
    if w.phase.Flushing? then w
    else
      var (ledger, flight) := FlushBegin(w.ledger, id);
      if flight.None? then w.(ledger := ledger)
      else
        w.(ledger := ledger,
           phase := Flushing(flight.value, false),
           hist := if flight.value.toDelete then w.hist else w.hist + [Pending(id, flight.value.entry)])
  }

  ghost function KvEffectStep(w: World): World {
    if w.phase.Idle? || w.phase.applied then w
    else w.(budgets := KvEffect(w.budgets, w.phase.flight), phase := w.phase.(applied := true))
  }

  /** A call that reports success has taken effect; one that reports failure may or may not have. */
  ghost function FlushEndStep(w: World, ok: bool): World {
    if w.phase.Idle? || (ok && !w.phase.applied) then w
    else w.(ledger := FlushEnd(w.ledger, w.phase.flight, ok), phase := Idle)
  }

  ghost function Step(w: World, a: Action): World {
    match a
    case AddUsageAct(id, tokens) => AddUsageStep(w, id, tokens)
    case SnapshotAct(snap, now) => SnapshotStep(w, snap, now)
    case LoadStartAct(ticket, id, force) => LoadStartStep(w, ticket, id, force)
    case LoadAnswerAct(ticket, used) => LoadAnswerStep(w, ticket, used)
    case LoadFailAct(ticket) => w.(loads := w.loads - {ticket})
    case LoadLandAct(ticket) => LoadLandStep(w, ticket)
    case RolloverAct(newMonth) => w.(ledger := Rollover(w.ledger, newMonth))
    case FlushBeginAct(id) => FlushBeginStep(w, id)
    case KvEffectAct => KvEffectStep(w)
    case FlushEndAct(ok) => FlushEndStep(w, ok)
  }

  ghost function Run(actions: seq<Action>): World {
    if actions == [] then START else Step(Run(actions[..|actions| - 1]), actions[|actions| - 1])
  }

  // ---------- What the history says a row's usage must be ----------

  /** Usage of id as the history has it: the last landed answer plus everything accepted since. */
  function Standing(hist: seq<Obs>, id: string): Option<(string, int)> {
    if hist == [] then None
    else
      var before := Standing(hist[..|hist| - 1], id);
      match hist[|hist| - 1]
      case Landed(i, month, used) => if i == id then Some((month, used)) else before
      case Accepted(i, tokens) =>
        if i == id && before.Some? then Some((before.value.0, before.value.1 + tokens)) else before
      case _ => before
  }

  /** Tokens AddUsage accepted for id in a stretch of history. */
  function AcceptedTotal(hist: seq<Obs>, id: string): int {
    if hist == [] then 0
    else
      var last := hist[|hist| - 1];
      AcceptedTotal(hist[..|hist| - 1], id) + (if last.Accepted? && last.id == id then last.tokens else 0)
  }

  /** At position j the sink's answer used for (id, month) landed and nothing landed for id after it. */
  ghost predicate LastLanding(hist: seq<Obs>, id: string, j: nat, month: string, used: int) {
    && j < |hist| && hist[j] == Landed(id, month, used)
    && forall k :: j < k < |hist| ==> !(hist[k].Landed? && hist[k].id == id)
  }

  lemma {:induction false} StandingIsLastLandingPlusAccepted(hist: seq<Obs>, id: string) returns (j: nat)
    requires Standing(hist, id).Some?
    ensures j < |hist| && hist[j].Landed?
    ensures LastLanding(hist, id, j, Standing(hist, id).value.0, hist[j].used)
    ensures Standing(hist, id).value.1 == hist[j].used + AcceptedTotal(hist[j + 1..], id)
  {
    var n := |hist| - 1;
    var init := hist[..n];
    if hist[n].Landed? && hist[n].id == id {
      j := n;
      assert hist[j + 1..] == [];
    } else {
      j := StandingIsLastLandingPlusAccepted(init, id);
      assert hist[j + 1..][..|hist[j + 1..]| - 1] == init[j + 1..];
    }
  }

  // ---------- The invariant ----------

  ghost predicate RowOk(l: Ledger, id: string, row: LedgerRow) {
    && row.budget > 0
    && (row.exceeded <==> row.used >= row.budget)
    && (row.toDelete ==> id in l.dirty)
  }

  /** A live, baselined row with nothing left to publish is exactly what BUDGETS holds. */
  ghost predicate Published(w: World, id: string, row: LedgerRow) {
    !row.toDelete && row.baselineLoaded && id !in w.ledger.dirty
    ==> id in w.budgets && w.budgets[id] == EntryOf(row)
  }

  /** The flight still describes the row, or the row has work left that will supersede it. */
  ghost predicate FlightOk(w: World) {
    w.phase.Flushing? ==>
      var f := w.phase.flight;
      && f.id in w.ledger.entries
      && var row := w.ledger.entries[f.id];
      && f.version <= row.version
      && (f.version == row.version ==>
            f.toDelete == row.toDelete && f.entry == EntryOf(row) && (row.toDelete || row.baselineLoaded))
      && (f.version < row.version ==> f.id in w.ledger.dirty || !row.baselineLoaded)
      && (w.phase.applied ==> f.toDelete ==> f.id !in w.budgets)
      && (w.phase.applied ==> !f.toDelete ==> f.id in w.budgets && w.budgets[f.id] == f.entry)
      && (!f.toDelete ==> Pending(f.id, f.entry) in w.hist)
  }

  /** The live ids and their budgets are the last snapshot's positive ones. */
  ghost predicate FollowsKeys(l: Ledger, keys: KeysSnapshot, id: string) {
    && (Live(l, id) <==> Want(Fold(keys), id) > 0)
    && (Live(l, id) ==> l.entries[id].budget == Want(Fold(keys), id))
  }

  ghost predicate Justified(hist: seq<Obs>, id: string, row: LedgerRow) {
    row.baselineLoaded ==> Standing(hist, id) == Some((row.month, row.used))
  }

  /** Every entry decided for publication was, at that moment, what the history stands at. */
  ghost predicate PendingJustified(hist: seq<Obs>, i: nat) {
    i < |hist| && hist[i].Pending? ==>
      Standing(hist[..i], hist[i].id) == Some((hist[i].entry.month, hist[i].entry.used))
  }

  /** Every landed baseline is an answer the sink gave earlier for that id and month. */
  ghost predicate LandingAnswered(hist: seq<Obs>, i: nat) {
    i < |hist| && hist[i].Landed? ==> Answered(hist[i].id, hist[i].month, hist[i].used) in hist[..i]
  }

  ghost predicate LoadAnswered(hist: seq<Obs>, load: Load) {
    load.answer.Some? ==> Answered(load.id, load.month, load.answer.value) in hist
  }

  /** What the invariant says of one id. */
  ghost predicate IdOk(w: World, id: string) {
    && FollowsKeys(w.ledger, w.keys, id)
    && (id in w.ledger.entries ==>
          var row := w.ledger.entries[id];
          RowOk(w.ledger, id, row) && Published(w, id, row) && Justified(w.hist, id, row))
  }

  ghost predicate Inv(w: World) {
    && (forall id :: IdOk(w, id))
    && w.ledger.dirty <= w.ledger.entries.Keys
    && w.budgets.Keys <= w.ledger.entries.Keys
    && (w.ledger.month == "" ==> w.ledger.entries == map[])
    && FlightOk(w)
    && (forall id :: id in w.budgets ==> Pending(id, w.budgets[id]) in w.hist)
    && (forall i: nat :: PendingJustified(w.hist, i))
    && (forall i: nat :: LandingAnswered(w.hist, i))
    && (forall t :: t in w.loads ==> LoadAnswered(w.hist, w.loads[t]))
  }

  lemma StartInv()
    ensures Inv(START)
  {
    assert Fold(map[]) == map[] by { IsFoldUnique(map[], Fold(map[]), map[]); }
    forall id ensures IdOk(START, id) {
    }
  }

  /** The history facts survive one more observation that is itself justified. */
  lemma HistoryGrows(hist: seq<Obs>, o: Obs)
    requires forall i: nat :: PendingJustified(hist, i)
    requires forall i: nat :: LandingAnswered(hist, i)
    requires o.Pending? ==> Standing(hist, o.id) == Some((o.entry.month, o.entry.used))
    requires o.Landed? ==> Answered(o.id, o.month, o.used) in hist
    ensures forall i: nat :: PendingJustified(hist + [o], i)
    ensures forall i: nat :: LandingAnswered(hist + [o], i)
    ensures forall id :: Standing(hist + [o], id) ==
                         match o
                         case Landed(i, m, u) => if i == id then Some((m, u)) else Standing(hist, id)
                         case Accepted(i, t) =>
                           if i == id && Standing(hist, id).Some?
                           then Some((Standing(hist, id).value.0, Standing(hist, id).value.1 + t))
                           else Standing(hist, id)
                         case _ => Standing(hist, id)
  {
    var hist' := hist + [o];
    assert hist'[..|hist|] == hist;
    forall i: nat
      ensures PendingJustified(hist', i) && LandingAnswered(hist', i)
    {
      if i < |hist| {
        assert PendingJustified(hist, i) && LandingAnswered(hist, i);
        assert hist'[..i] == hist[..i];
      }
    }
  }

  lemma AddUsageKeepsInv(w: World, id: string, tokens: int)
    requires Inv(w)
    ensures Inv(AddUsageStep(w, id, tokens))
  {
    hide Fold, Want, Standing;
    if Accepts(w.ledger, id) {
      HistoryGrows(w.hist, Accepted(id, tokens));
      forall i ensures IdOk(AddUsageStep(w, id, tokens), i) {
        assert IdOk(w, i);
      }
    }
  }

  /** What one snapshot does to the ledger's ids, rows and dirty set. */
  lemma ReconcileRows(l: Ledger, folded: map<string, int>, now: string, id: string)
    ensures var l' := Reconcile(l, folded, now);
            && (id in l'.entries <==> id in l.entries || Want(folded, id) > 0)
            && (id in l.entries ==> l'.entries[id] == ReconcileRow(l.entries[id], Want(folded, id)))
            && (id in l'.entries && id !in l.entries ==> l'.entries[id] == NewRow(Want(folded, id), l'.month))
            && (id in l'.dirty <==>
                  id in l.dirty || (id in l.entries && l'.entries[id] != l.entries[id]))
  {
  }

  lemma SnapshotKeepsId(w: World, snap: KeysSnapshot, now: Month, id: string)
    requires Inv(w)
    ensures IdOk(SnapshotStep(w, snap, now), id)
  {
    hide Fold, Standing, FlightOk;
    assert IdOk(w, id);
    ReconcileRows(w.ledger, Fold(snap), now, id);
  }

  lemma SnapshotKeepsFlight(w: World, snap: KeysSnapshot, now: Month)
    requires FlightOk(w)
    ensures FlightOk(SnapshotStep(w, snap, now))
  {
    hide Fold, Reconcile;
    if w.phase.Flushing? {
      ReconcileRows(w.ledger, Fold(snap), now, w.phase.flight.id);
    }
  }

  lemma SnapshotKeepsInv(w: World, snap: KeysSnapshot, now: Month)
    requires Inv(w)
    ensures Inv(SnapshotStep(w, snap, now))
  {
    hide Fold, IdOk, FlightOk, ReconcileRow;
    forall id ensures IdOk(SnapshotStep(w, snap, now), id) {
      SnapshotKeepsId(w, snap, now, id);
    }
    SnapshotKeepsFlight(w, snap, now);
  }

  lemma LoadStepsKeepInv(w: World, a: Action)
    requires Inv(w)
    requires a.LoadStartAct? || a.LoadAnswerAct? || a.LoadFailAct?
    ensures Inv(Step(w, a))
  {
    hide Fold, Want, Standing, RowOk, FollowsKeys;
    if a.LoadAnswerAct? && a.ticket in w.loads {
      HistoryGrows(w.hist, Answered(w.loads[a.ticket].id, w.loads[a.ticket].month, a.used));
    }
    var w' := Step(w, a);
    forall i ensures IdOk(w', i) {
      assert IdOk(w, i);
    }
    forall t | t in w'.loads ensures LoadAnswered(w'.hist, w'.loads[t]) {
      if t in w.loads {
        assert LoadAnswered(w.hist, w.loads[t]);
      }
    }
  }

  lemma LoadLandKeepsId(w: World, ticket: nat, id: string)
    requires Inv(w)
    ensures IdOk(LoadLandStep(w, ticket), id)
  {
    hide Fold, Want, Standing, FlightOk;
    assert IdOk(w, id);
    if ticket in w.loads && w.loads[ticket].answer.Some? {
      var load := w.loads[ticket];
      assert LoadAnswered(w.hist, load);
      HistoryGrows(w.hist, Landed(load.id, load.month, load.answer.value));
    }
  }

  lemma LoadLandKeepsInv(w: World, ticket: nat)
    requires Inv(w)
    ensures Inv(LoadLandStep(w, ticket))
  {
    hide Fold, Want, Standing, Published, Justified, FollowsKeys;
    var w' := LoadLandStep(w, ticket);
    forall id ensures IdOk(w', id) {
      LoadLandKeepsId(w, ticket, id);
    }
    if ticket in w.loads && w.loads[ticket].answer.Some? {
      var load := w.loads[ticket];
      assert IdOk(w, load.id) && LoadAnswered(w.hist, load);
      HistoryGrows(w.hist, Landed(load.id, load.month, load.answer.value));
      forall t | t in w'.loads ensures LoadAnswered(w'.hist, w'.loads[t]) {
        assert LoadAnswered(w.hist, w.loads[t]);
      }
    }
  }

  lemma RolloverKeepsInv(w: World, newMonth: Month)
    requires Inv(w)
    ensures Inv(Step(w, RolloverAct(newMonth)))
  {
    hide Fold, Want, Standing;
    forall i ensures IdOk(Step(w, RolloverAct(newMonth)), i) {
      assert IdOk(w, i);
    }
  }

  lemma FlushBeginKeepsId(w: World, flushed: string, id: string)
    requires Inv(w)
    ensures IdOk(FlushBeginStep(w, flushed), id)
  {
    hide Fold, Want, Standing, FlightOk;
    assert IdOk(w, id);
    assert IdOk(w, flushed);
    var w' := FlushBeginStep(w, flushed);
    if w'.hist != w.hist {
      HistoryGrows(w.hist, Pending(flushed, w'.phase.flight.entry));
    }
  }

  lemma FlushBeginKeepsInv(w: World, id: string)
    requires Inv(w)
    ensures Inv(FlushBeginStep(w, id))
  {
    hide Fold, Want, Standing, Published, FollowsKeys;
    var w' := FlushBeginStep(w, id);
    forall i ensures IdOk(w', i) {
      FlushBeginKeepsId(w, id, i);
    }
    assert IdOk(w, id);
    if w'.hist != w.hist {
      HistoryGrows(w.hist, Pending(id, w'.phase.flight.entry));
    }
    forall t | t in w'.loads ensures LoadAnswered(w'.hist, w'.loads[t]) {
      assert LoadAnswered(w.hist, w.loads[t]);
    }
  }

  lemma KvEffectKeepsInv(w: World)
    requires Inv(w)
    ensures Inv(KvEffectStep(w))
  {
    hide Fold, Want, Standing;
    forall i ensures IdOk(KvEffectStep(w), i) {
      assert IdOk(w, i);
    }
  }

  lemma FlushEndKeepsId(w: World, ok: bool, id: string)
    requires Inv(w)
    ensures IdOk(FlushEndStep(w, ok), id)
  {
    hide Fold, Want, Standing;
    assert IdOk(w, id);
  }

  lemma FlushEndKeepsInv(w: World, ok: bool)
    requires Inv(w)
    ensures Inv(FlushEndStep(w, ok))
  {
    hide Fold, IdOk;
    forall id ensures IdOk(FlushEndStep(w, ok), id) {
      FlushEndKeepsId(w, ok, id);
    }
  }

  lemma StepKeepsInv(w: World, a: Action)
    requires Inv(w)
    ensures Inv(Step(w, a))
  {
    match a
    case AddUsageAct(id, tokens) => AddUsageKeepsInv(w, id, tokens);
    case SnapshotAct(snap, now) => SnapshotKeepsInv(w, snap, now);
    case LoadStartAct(_, _, _) => LoadStepsKeepInv(w, a);
    case LoadAnswerAct(_, _) => LoadStepsKeepInv(w, a);
    case LoadFailAct(_) => LoadStepsKeepInv(w, a);
    case LoadLandAct(ticket) => LoadLandKeepsInv(w, ticket);
    case RolloverAct(newMonth) => RolloverKeepsInv(w, newMonth);
    case FlushBeginAct(id) => FlushBeginKeepsInv(w, id);
    case KvEffectAct => KvEffectKeepsInv(w);
    case FlushEndAct(ok) => FlushEndKeepsInv(w, ok);
  }

  lemma {:induction false} RunInv(actions: seq<Action>)
    ensures Inv(Run(actions))
  {
    if actions == [] {
      StartInv();
    } else {
      RunInv(actions[..|actions| - 1]);
      StepKeepsInv(Run(actions[..|actions| - 1]), actions[|actions| - 1]);
    }
  }
}
