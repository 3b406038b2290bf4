/**
 The harvester's reports fed to the ledger (Harvester.OnRow wired to AddUsage): how far a row's usage
 may stand from the sink's month-to-date total between two baselines, and when the two agree.
 */
module UsageDrift {
  import opened Sink
  import H = HarvesterModel
  import T = HarvesterTheorems
  import L = LedgerModel
  import W = LedgerWorld

  // ---------- What was stored and reported in a stretch ----------

  lemma InsertExtendsSink(s: H.State, outcome: InsertOutcome)
    ensures s.sink <= H.InsertStep(s, outcome).sink
  {
    if s.tasks != [] {
      InsertedProperties(s.sink, Dedup(H.Rows(s.tasks[0].batch)));
    }
  }

  lemma StepOnlyAppends(s: H.State, a: H.Action)
    ensures s.sink <= H.Step(s, a).sink && s.reported <= H.Step(s, a).reported
  {
    hide Inserted, Dedup, H.InsertStep, H.Rows, H.Deliveries, H.AllOwed, H.InProgressCalls, H.FirstOccurrence;
    match a
    case Insert(outcome) =>
      InsertExtendsSink(s, outcome);
      InsertReportsNothing(s, outcome);
    case _ =>
  }

  lemma InsertReportsNothing(s: H.State, outcome: InsertOutcome)
    ensures H.InsertStep(s, outcome).reported == s.reported
  {
    hide Inserted, Dedup, H.Rows;
  }

  lemma {:induction false} RunOnlyAppends(before: seq<H.Action>, more: seq<H.Action>)
    ensures H.Run(before).sink <= H.Run(before + more).sink
    ensures H.Run(before).reported <= H.Run(before + more).reported
  {
    hide H.Step;
    if more == [] {
      assert before + more == before;
    } else {
      var init := more[..|more| - 1];
      RunOnlyAppends(before, init);
      assert (before + more)[..|before + more| - 1] == before + init;
      StepOnlyAppends(H.Run(before + init), more[|more| - 1]);
    }
  }

  /** The rows more added to the sink. */
  ghost function StoredIn(before: seq<H.Action>, more: seq<H.Action>): (rows: seq<Row>)
    ensures H.Run(before + more).sink == H.Run(before).sink + rows
  {
    RunOnlyAppends(before, more);
    H.Run(before + more).sink[|H.Run(before).sink|..]
  }

  /** The rows more gave to OnRow. */
  ghost function ReportedIn(before: seq<H.Action>, more: seq<H.Action>): (rows: seq<Row>)
    ensures H.Run(before + more).reported == H.Run(before).reported + rows
  {
    RunOnlyAppends(before, more);
    H.Run(before + more).reported[|H.Run(before).reported|..]
  }

  // ---------- When what is reported is what was stored ----------

  /** Not a crash, not a commit that looks like a failure, and not a commit of a request stored before. */
  ghost predicate Faithful(s: H.State, a: H.Action) {
    && !a.Crash?
    && (a.Insert? && s.tasks != [] && s.tasks[0].stage.Inserting? ==>
          && !a.outcome.FailedAfterCommit?
          && (a.outcome.Committed? ==> Ids(H.Rows(s.tasks[0].batch)) !! Ids(s.sink)))
  }

  ghost predicate FaithfulStretch(before: seq<H.Action>, more: seq<H.Action>) {
    more != [] ==>
      var init := more[..|more| - 1];
      FaithfulStretch(before, init) && Faithful(H.Run(before + init), more[|more| - 1])
  }

  /** The rows of the batch being acked that OnRow has yet to be given. */
  function Unreported(s: H.State): seq<Row> {
    if H.Reporting(s) && s.tasks[0].stage.told <= |s.tasks[0].batch| then
      var rows := H.Rows(s.tasks[0].batch);
      var told := Dedup(rows[..s.tasks[0].stage.told]);
      if |told| <= |Dedup(rows)| then Dedup(rows)[|told|..] else []
    else []
  }

  /** New, distinct requests are stored as they come. */
  lemma {:induction false} InsertedNew(stored: seq<Row>, rows: seq<Row>)
    requires DistinctIds(rows) && Ids(rows) !! Ids(stored)
    ensures Inserted(stored, rows) == stored + rows
  {
    if rows != [] {
      var n := |rows| - 1;
      IdsOfAppend(rows[..n], rows[n]);
      assert rows[..n] + [rows[n]] == rows;
      InsertedNew(stored, rows[..n]);
      InsertedProperties(stored, rows[..n]);
      assert rows[n].reqId in Ids(rows);
      assert rows[n].reqId !in Ids(rows[..n]);
    }
  }

  lemma InsertStores(s: H.State, outcome: InsertOutcome)
    requires T.TaskOk(s) && T.ReportsOk(s) && Faithful(s, H.Insert(outcome)) && H.InsertStep(s, outcome) != s
    ensures var s' := H.InsertStep(s, outcome);
            s'.reported == s.reported && Unreported(s) == [] && s'.sink == s.sink + Unreported(s')
  {
    hide T.ReportsOk, T.TaskOk, H.Rows, Inserted, Dedup, Ids, DistinctIds;
    var rows := H.Rows(s.tasks[0].batch);
    DedupKeepsIds(rows);
    if outcome.Committed? {
      InsertedNew(s.sink, Dedup(rows));
      NothingToldYet(rows);
    }
  }

  lemma NothingToldYet(rows: seq<Row>)
    ensures Dedup(rows[..0]) == [] && Dedup(rows)[0..] == Dedup(rows)
  {
    assert rows[..0] == [];
  }

  lemma ReportDelivers(s: H.State)
    requires T.TaskOk(s) && T.ReportsOk(s) && H.ReportStep(s) != s
    ensures var s' := H.ReportStep(s);
            && s'.sink == s.sink && s.reported <= s'.reported
            && Unreported(s) == s'.reported[|s.reported|..] + Unreported(s')
  {
    hide H.FirstOccurrence, Dedup;
    var t := s.tasks[0];
    var rows := H.Rows(t.batch);
    T.ReportExtends(t.batch, t.stage.told);
    T.DedupOfPrefix(rows, t.stage.told);
    T.DedupOfPrefix(rows, t.stage.told + 1);
  }

  /** A step stores what it adds to the unreported rows, and reports what it takes from them. */
  lemma StepBalances(s: H.State, a: H.Action)
    requires T.TaskOk(s) && T.ReportsOk(s) && Faithful(s, a)
    ensures var s' := H.Step(s, a);
            && s.sink <= s'.sink && s.reported <= s'.reported
            && Unreported(s) + s'.sink[|s.sink|..] == s'.reported[|s.reported|..] + Unreported(s')
  {
    hide T.ReportsOk, T.TaskOk, Unreported, Inserted, Dedup, H.Step, H.InsertStep, H.ReportStep;
    StepOnlyAppends(s, a);
    var s' := H.Step(s, a);
    if s' != s {
      ChangesBalance(s, a);
    }
  }

  lemma ChangesBalance(s: H.State, a: H.Action)
    requires T.TaskOk(s) && T.ReportsOk(s) && Faithful(s, a) && H.Step(s, a) != s
    ensures var s' := H.Step(s, a);
            && s.sink <= s'.sink && s.reported <= s'.reported
            && Unreported(s) + s'.sink[|s.sink|..] == s'.reported[|s.reported|..] + Unreported(s')
  {
    hide T.ReportsOk, T.TaskOk, Unreported, Inserted, Dedup, H.InsertStep, H.ReportStep, H.DeliverStep,
         H.TriggerFlushStep, H.DisposeStep, H.FinishStep, H.FinalFlushStep, H.HeartbeatStep, H.CrashStep;
    match a
    case Insert(outcome) => InsertStores(s, outcome);
    case ReportNext => ReportDelivers(s);
    case _ => OthersKeepUnreported(s, a);
  }

  lemma OthersKeepUnreported(s: H.State, a: H.Action)
    requires T.TaskOk(s) && T.ReportsOk(s) && !a.Insert? && !a.ReportNext? && !a.Crash?
    ensures var s' := H.Step(s, a);
            s'.sink == s.sink && s'.reported == s.reported && Unreported(s') == Unreported(s)
  {
    hide Dedup, H.FirstOccurrence, H.Deliveries, H.AllOwed, H.InProgressCalls, T.ReportOk, T.Concat;
    if s.tasks != [] {
      var rows := H.Rows(s.tasks[0].batch);
      assert rows[..|rows|] == rows;
    }
  }

  lemma Chain(u: seq<Row>, stored: seq<Row>, reported: seq<Row>, u': seq<Row>, x: seq<Row>, y: seq<Row>, u'': seq<Row>)
    requires u + stored == reported + u' && u' + x == y + u''
    ensures u + (stored + x) == (reported + y) + u''
  {
    assert u + (stored + x) == (u + stored) + x;
    assert (reported + u') + x == reported + (u' + x);
    assert reported + (y + u'') == (reported + y) + u'';
  }

  lemma {:induction false} StretchBalances(before: seq<H.Action>, more: seq<H.Action>)
    requires FaithfulStretch(before, more)
    ensures Unreported(H.Run(before)) + StoredIn(before, more) == ReportedIn(before, more) + Unreported(H.Run(before + more))
  {
    hide H.Step, Unreported, Faithful, T.TaskOk, T.ReportsOk, T.Conserved, T.StoreOk;
    if more == [] {
      assert before + more == before;
    } else {
      var init := more[..|more| - 1];
      var s := H.Run(before + init);
      var s' := H.Step(s, more[|more| - 1]);
      StretchBalances(before, init);
      T.RunInv(before + init);
      StepBalances(s, more[|more| - 1]);
      assert (before + more)[..|before + more| - 1] == before + init;
      assert StoredIn(before, more) == StoredIn(before, init) + s'.sink[|s.sink|..];
      assert ReportedIn(before, more) == ReportedIn(before, init) + s'.reported[|s.reported|..];
      Chain(Unreported(H.Run(before)), StoredIn(before, init), ReportedIn(before, init), Unreported(s),
            s'.sink[|s.sink|..], s'.reported[|s.reported|..], Unreported(s'));
    }
  }

  // ---------- The ledger's side ----------

  /** The AddUsage calls of a run of the ledger, in order. */
  function Usages(acts: seq<W.Action>): seq<(string, int)> {
    if acts == [] then []
    else
      var last := acts[|acts| - 1];
      Usages(acts[..|acts| - 1]) + if last.AddUsageAct? then [(last.id, last.tokens)] else []
  }

  /** OnRow's wiring: one AddUsage call for each row reported. */
  function Fed(rows: seq<Row>): seq<(string, int)> {
    seq(|rows|, i requires 0 <= i < |rows| => (rows[i].keyId, rows[i].TotalTokens()))
  }

  function Total(usages: seq<(string, int)>, id: string): int {
    if usages == [] then 0
    else
      var last := usages[|usages| - 1];
      Total(usages[..|usages| - 1], id) + if last.0 == id then last.1 else 0
  }

  /** A key's tokens over all months: AddUsage does not look at a row's month. */
  function Tokens(rows: seq<Row>, id: string): int {
    if rows == [] then 0
    else
      var last := rows[|rows| - 1];
      Tokens(rows[..|rows| - 1], id) + if last.keyId == id then last.TotalTokens() else 0
  }

  lemma {:induction false} FedTotal(rows: seq<Row>, id: string)
    ensures Total(Fed(rows), id) == Tokens(rows, id)
  {
    if rows != [] {
      FedTotal(rows[..|rows| - 1], id);
      assert Fed(rows)[..|rows| - 1] == Fed(rows[..|rows| - 1]);
    }
  }

  /** No re-baseline of id lands, no new month begins, and a snapshot keeps id's budget positive. */
  ghost predicate Calm(w: W.World, a: W.Action, id: string) {
    match a
    case LoadLandAct(ticket) => ticket in w.loads ==> w.loads[ticket].id != id
    case RolloverAct(newMonth) => newMonth == w.ledger.month
    case SnapshotAct(snap, _) => L.Want(L.Fold(snap), id) > 0
    case _ => true
  }

  ghost predicate CalmStretch(acts: seq<W.Action>, since: seq<W.Action>, id: string) {
    since != [] ==>
      var init := since[..|since| - 1];
      CalmStretch(acts, init, id) && Calm(W.Run(acts + init), since[|since| - 1], id)
  }

  /** id's row is live on month, with used tokens on it; based says whether a baseline has landed there. */
  predicate Stands(l: L.Ledger, id: string, month: string, used: int, based: bool) {
    L.Live(l, id) && l.entries[id].baselineLoaded == based && l.entries[id].month == month && l.entries[id].used == used
  }

  lemma LiveIdsAreNamed(w: W.World, id: string)
    requires W.Inv(w) && L.Live(w.ledger, id)
    ensures id != "" && w.ledger.month != ""
  {
    hide W.FlightOk, W.Published, W.RowOk, W.Justified;
    assert W.IdOk(w, id);
    var fold := L.Fold(w.keys);
    var hash :| L.Contributes(w.keys, hash, id) && w.keys[hash].value.monthlyTokenBudget == fold[id];
  }

  lemma SnapshotKeepsStanding(w: W.World, snap: L.KeysSnapshot, now: W.Month, id: string, month: string, used: int, based: bool)
    requires Stands(w.ledger, id, month, used, based) && L.Want(L.Fold(snap), id) > 0
    ensures Stands(W.SnapshotStep(w, snap, now).ledger, id, month, used, based)
  {
    hide L.Fold, L.Want, L.Reconcile;
    W.ReconcileRows(w.ledger, L.Fold(snap), now, id);
  }

  /** Everything but snapshots and AddUsage: another id's row, or nothing of id's row that Stands speaks of. */
  lemma OthersKeepStanding(w: W.World, a: W.Action, id: string, month: string, used: int, based: bool)
    requires Stands(w.ledger, id, month, used, based) && Calm(w, a, id) && !a.SnapshotAct? && !a.AddUsageAct?
    ensures Stands(W.Step(w, a).ledger, id, month, used, based)
  {
    hide L.Fold, L.Want, L.Reconcile, L.KvEffect;
  }

  lemma StandingIsLive(l: L.Ledger, id: string, month: string, used: int, based: bool)
    requires Stands(l, id, month, used, based)
    ensures L.Live(l, id)
  {
  }

  lemma AddUsageStands(w: W.World, added: string, tokens: int, id: string, month: string, used: int, based: bool)
    requires Stands(w.ledger, id, month, used, based) && id != ""
    ensures Stands(W.AddUsageStep(w, added, tokens).ledger, id, month, used + (if added == id then tokens else 0), based)
  {
  }

  lemma CalmStepKeepsUsed(w: W.World, a: W.Action, id: string, month: string, used: int, based: bool)
    requires W.Inv(w) && Stands(w.ledger, id, month, used, based) && Calm(w, a, id)
    ensures Stands(W.Step(w, a).ledger, id, month, used + Total(Usages([a]), id), based)
  {
    hide W.Inv, Stands, L.Fold, L.Want, W.SnapshotStep, W.AddUsageStep, W.LoadStartStep, W.LoadAnswerStep,
         W.LoadLandStep, W.FlushBeginStep, W.KvEffectStep, W.FlushEndStep, L.Rollover;
    StandingIsLive(w.ledger, id, month, used, based);
    LiveIdsAreNamed(w, id);
    assert [a][..0] == [];
    match a
    case SnapshotAct(snap, now) => SnapshotKeepsStanding(w, snap, now, id, month, used, based);
    case AddUsageAct(added, tokens) => AddUsageStands(w, added, tokens, id, month, used, based);
    case _ => OthersKeepStanding(w, a, id, month, used, based);
  }

  lemma UsagesLast(acts: seq<W.Action>, a: W.Action, id: string)
    ensures Total(Usages(acts + [a]), id) == Total(Usages(acts), id) + Total(Usages([a]), id)
  {
    var one := if a.AddUsageAct? then [(a.id, a.tokens)] else [];
    assert (acts + [a])[..|acts|] == acts && [a][..0] == [];
    assert Usages([a]) == [] + one == one;
    if a.AddUsageAct? {
      assert (Usages(acts) + one)[..|Usages(acts)|] == Usages(acts) && one[..0] == [];
    } else {
      assert Usages(acts) + one == Usages(acts);
    }
  }

  lemma NothingUsed(id: string)
    ensures Total(Usages([]), id) == 0
  {
  }

  /** Whatever else the ledger does between two baselines, a live row, based or not, gains exactly the tokens it was fed. */
  lemma {:induction false} RowGainsItsUsage(acts: seq<W.Action>, since: seq<W.Action>, id: string, month: string, used: int, based: bool)
    requires Stands(W.Run(acts).ledger, id, month, used, based) && CalmStretch(acts, since, id)
    ensures Stands(W.Run(acts + since).ledger, id, month, used + Total(Usages(since), id), based)
  {
    hide W.Step, W.Inv, Stands, Calm, Total, Usages;
    if since == [] {
      assert acts + since == acts;
      NothingUsed(id);
    } else {
      var init, last := since[..|since| - 1], since[|since| - 1];
      RowGainsItsUsage(acts, init, id, month, used, based);
      W.RunInv(acts + init);
      CalmStepKeepsUsed(W.Run(acts + init), last, id, month, used + Total(Usages(init), id), based);
      assert (acts + since)[..|acts + since| - 1] == acts + init;
      assert since == init + [last];
      UsagesLast(init, last, id);
    }
  }

  lemma {:induction false} MonthToDateAdds(rows: seq<Row>, more: seq<Row>, id: string, month: string)
    ensures MonthToDate(rows + more, id, month) == MonthToDate(rows, id, month) + MonthToDate(more, id, month)
  {
    if more == [] {
      assert rows + more == rows;
    } else {
      MonthToDateAdds(rows, more[..|more| - 1], id, month);
      assert (rows + more)[..|rows + more| - 1] == rows + more[..|more| - 1];
    }
  }

  /**
   A row based on the sink's total before a stretch of the harvester stands, after it, above the sink's
   total by the tokens reported less those stored: what was reported again or belongs to another month
   is over, what was stored without a report is under. The ledger's other actors may interleave freely.
   */
  lemma DriftIsReportedLessStored(before: seq<H.Action>, more: seq<H.Action>, acts: seq<W.Action>, since: seq<W.Action>, id: string, month: string)
    requires Stands(W.Run(acts).ledger, id, month, MonthToDate(H.Run(before).sink, id, month), true)
    requires CalmStretch(acts, since, id) && Usages(since) == Fed(ReportedIn(before, more))
    ensures Stands(W.Run(acts + since).ledger, id, month,
                   MonthToDate(H.Run(before + more).sink, id, month)
                   + Tokens(ReportedIn(before, more), id) - MonthToDate(StoredIn(before, more), id, month),
                   true)
  {
    hide W.Run, H.Run, Stands, CalmStretch, ReportedIn, StoredIn, Usages;
    var used := MonthToDate(H.Run(before).sink, id, month);
    RowGainsItsUsage(acts, since, id, month, used, true);
    FedTotal(ReportedIn(before, more), id);
    MonthToDateAdds(H.Run(before).sink, StoredIn(before, more), id, month);
  }

  lemma {:induction false} TokensOfMonth(rows: seq<Row>, id: string, month: string)
    requires forall r :: r in rows && r.keyId == id ==> r.month == month
    ensures Tokens(rows, id) == MonthToDate(rows, id, month)
  {
    if rows != [] {
      TokensOfMonth(rows[..|rows| - 1], id, month);
      assert rows[|rows| - 1] in rows;
    }
  }

  lemma NothingAdded(stored: seq<Row>, reported: seq<Row>)
    requires [] + stored == reported + []
    ensures stored == reported
  {
    assert [] + stored == stored && reported + [] == reported;
  }

  /**
   Between two moments at which nothing is being reported, with no crash, no commit reported as a
   failure and no request stored before, OnRow was given exactly what the sink stored, in order; and a
   row fed from it is the sink's total again if the month is the row's.
   */
  lemma FaithfulUsageIsExact(before: seq<H.Action>, more: seq<H.Action>, acts: seq<W.Action>, since: seq<W.Action>, id: string, month: string)
    requires FaithfulStretch(before, more) && !H.Reporting(H.Run(before)) && !H.Reporting(H.Run(before + more))
    requires Stands(W.Run(acts).ledger, id, month, MonthToDate(H.Run(before).sink, id, month), true)
    requires CalmStretch(acts, since, id) && Usages(since) == Fed(ReportedIn(before, more))
    ensures ReportedIn(before, more) == StoredIn(before, more)
    ensures (forall r :: r in StoredIn(before, more) && r.keyId == id ==> r.month == month) ==>
              Stands(W.Run(acts + since).ledger, id, month, MonthToDate(H.Run(before + more).sink, id, month), true)
  {
    hide W.Run, H.Run, Stands, CalmStretch, ReportedIn, StoredIn, Usages, FaithfulStretch;
    StretchBalances(before, more);
    NothingAdded(StoredIn(before, more), ReportedIn(before, more));
    DriftIsReportedLessStored(before, more, acts, since, id, month);
    if forall r :: r in StoredIn(before, more) && r.keyId == id ==> r.month == month {
      TokensOfMonth(StoredIn(before, more), id, month);
    }
  }
}
