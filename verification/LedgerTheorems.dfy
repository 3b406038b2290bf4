/**
 What the ledger promises over all runs: BUDGETS agrees with every row that has nothing left to
 publish, live rows follow KEYS, published usage is exact, a quiet spell converges, and the one
 promise that fails (rows on the ledger's current month) fails exactly at stale resurrections.
 */
module LedgerTheorems {
  import opened Cpkv
  import opened Wrappers
  import opened LedgerModel
  import opened LedgerWorld

  /** After any interleaving, a live, baselined row with nothing left to publish is what BUDGETS holds. */
  lemma CleanRowsArePublished(actions: seq<Action>, id: string)
    requires Live(Run(actions).ledger, id)
    requires Run(actions).ledger.entries[id].baselineLoaded && id !in Run(actions).ledger.dirty
    ensures var w := Run(actions);
            var row := w.ledger.entries[id];
            && id in w.budgets
            && w.budgets[id] == BudgetEntry(row.used, row.budget, row.used >= row.budget, row.month)
            && row.budget > 0
  {
    RunInv(actions);
    var w := Run(actions);
    assert IdOk(w, id);
  }

  /** The live ids are exactly those the last KEYS snapshot gives a positive budget, with that budget. */
  lemma LiveRowsFollowKeys(actions: seq<Action>)
    ensures var w := Run(actions);
            && (forall id :: Live(w.ledger, id) <==>
                  exists hash :: Contributes(w.keys, hash, id) && w.keys[hash].value.monthlyTokenBudget > 0)
            && (forall id, hash :: Live(w.ledger, id) && Contributes(w.keys, hash, id) ==>
                  w.keys[hash].value.monthlyTokenBudget <= w.ledger.entries[id].budget)
            && (forall id :: Live(w.ledger, id) ==>
                  exists hash :: Contributes(w.keys, hash, id) &&
                                 w.keys[hash].value.monthlyTokenBudget == w.ledger.entries[id].budget)
  {
    RunInv(actions);
    var w := Run(actions);
    var f := Fold(w.keys);
    forall id
      ensures Live(w.ledger, id) <==>
              exists hash :: Contributes(w.keys, hash, id) && w.keys[hash].value.monthlyTokenBudget > 0
      ensures Live(w.ledger, id) ==>
              exists hash :: Contributes(w.keys, hash, id) &&
                             w.keys[hash].value.monthlyTokenBudget == w.ledger.entries[id].budget
      ensures forall hash :: Live(w.ledger, id) && Contributes(w.keys, hash, id) ==>
              w.keys[hash].value.monthlyTokenBudget <= w.ledger.entries[id].budget
    {
      assert IdOk(w, id);
      if id in f {
        var hash :| Contributes(w.keys, hash, id) && w.keys[hash].value.monthlyTokenBudget == f[id];
      }
    }
  }

  /** A row marked for deletion waits in the dirty set, and nothing is in BUDGETS without a row. */
  lemma DeletionsAreNeverForgotten(actions: seq<Action>, id: string)
    ensures var w := Run(actions);
            && (id in w.ledger.entries && w.ledger.entries[id].toDelete ==> id in w.ledger.dirty)
            && (id in w.ledger.dirty || id in w.budgets ==> id in w.ledger.entries)
  {
    RunInv(actions);
    var w := Run(actions);
    assert IdOk(w, id);
  }

  /**
   Every entry the ledger ever decides to publish counts exactly one sink answer, given for the
   entry's own month, plus the tokens accepted since that answer landed.
   */
  lemma PublishedUsageIsExact(actions: seq<Action>, i: nat) returns (j: nat)
    requires i < |Run(actions).hist| && Run(actions).hist[i].Pending?
    ensures var hist := Run(actions).hist;
            var (id, entry) := (hist[i].id, hist[i].entry);
            && j < i && hist[j].Landed?
            && LastLanding(hist[..i], id, j, entry.month, hist[j].used)
            && Answered(id, entry.month, hist[j].used) in hist[..j]
            && entry.used == hist[j].used + AcceptedTotal(hist[j + 1..i], id)
  {
    RunInv(actions);
    var hist := Run(actions).hist;
    assert PendingJustified(hist, i);
    j := StandingIsLastLandingPlusAccepted(hist[..i], hist[i].id);
    assert LandingAnswered(hist, j);
    assert hist[..i][j + 1..] == hist[j + 1..i];
  }

  /** What BUDGETS holds was decided for publication, so PublishedUsageIsExact speaks about it. */
  lemma BudgetsHoldOnlyDecidedEntries(actions: seq<Action>, id: string) returns (i: nat)
    requires id in Run(actions).budgets
    ensures i < |Run(actions).hist| && Run(actions).hist[i] == Pending(id, Run(actions).budgets[id])
  {
    RunInv(actions);
    var w := Run(actions);
    assert Pending(id, w.budgets[id]) in w.hist;
    i :| i < |w.hist| && w.hist[i] == Pending(id, w.budgets[id]);
  }

  // ---------- Rotation ----------

  /**
   A rotation writes the entry under the new hash and then deletes the old one; the watcher may
   see either intermediate snapshot, and neither changes any id's budget.
   */
  lemma {:induction false} RotationKeepsFold(snap: KeysSnapshot, oldHash: string, newHash: string)
    requires oldHash in snap && newHash !in snap
    ensures Fold(snap[newHash := snap[oldHash]]) == Fold(snap)
    ensures Fold(snap[newHash := snap[oldHash]] - {oldHash}) == Fold(snap)
  {
    var f := Fold(snap);
    var both := snap[newHash := snap[oldHash]];
    var after := both - {oldHash};
    forall id | id in f
      ensures exists h :: Contributes(both, h, id) && both[h].value.monthlyTokenBudget == f[id]
      ensures exists h :: Contributes(after, h, id) && after[h].value.monthlyTokenBudget == f[id]
    {
      var h :| Contributes(snap, h, id) && snap[h].value.monthlyTokenBudget == f[id];
      var h' := if h == oldHash then newHash else h;
      assert Contributes(both, h', id) && Contributes(after, h', id);
    }
    forall h, id | Contributes(both, h, id)
      ensures id in f && both[h].value.monthlyTokenBudget <= f[id]
    {
      assert Contributes(snap, if h == newHash then oldHash else h, id);
    }
    forall h, id | Contributes(after, h, id)
      ensures id in f && after[h].value.monthlyTokenBudget <= f[id]
    {
      assert Contributes(both, h, id);
    }
    IsFoldUnique(both, Fold(both), f);
    IsFoldUnique(after, Fold(after), f);
  }

  // ---------- Months ----------

  ghost predicate CurrentMonths(l: Ledger) {
    forall id :: Live(l, id) ==> l.entries[id].month == l.month
  }

  /** A row marked for deletion before a rollover, which skipped it, and now wanted again. */
  predicate ResurrectsStale(l: Ledger, folded: map<string, int>, id: string) {
    id in l.entries && l.entries[id].toDelete && Want(folded, id) > 0 && l.entries[id].month != l.month
  }

  /** The guard a snapshot must pass for every live row to stay on the ledger's month. */
  ghost predicate MonthSafe(w: World, a: Action) {
    a.SnapshotAct? ==> forall id :: !ResurrectsStale(w.ledger, Fold(a.snap), id)
  }

  /** A snapshot puts a row that is live after it on the ledger's month, unless it resurrects it stale. */
  lemma SnapshotMonth(l: Ledger, folded: map<string, int>, now: Month, id: string)
    requires CurrentMonths(l) && (l.month == "" ==> l.entries == map[])
    ensures var l' := Reconcile(l, folded, now);
            && (ResurrectsStale(l, folded, id) ==> Live(l', id) && l'.entries[id].month != l'.month)
            && (!ResurrectsStale(l, folded, id) && Live(l', id) ==> l'.entries[id].month == l'.month)
  {
    ReconcileRows(l, folded, now, id);
    assert Live(l, id) ==> l.entries[id].month == l.month;
  }

  lemma OtherStepsKeepMonth(w: World, a: Action, id: string)
    requires CurrentMonths(w.ledger) && (w.ledger.month == "" ==> w.ledger.entries == map[]) && !a.SnapshotAct?
    ensures var l' := Step(w, a).ledger; Live(l', id) ==> l'.entries[id].month == l'.month
  {
    assert Live(w.ledger, id) ==> w.ledger.entries[id].month == w.ledger.month;
  }

  lemma StepKeepsMonthsExactly(w: World, a: Action)
    requires Inv(w) && CurrentMonths(w.ledger)
    ensures CurrentMonths(Step(w, a).ledger) <==> MonthSafe(w, a)
  {
    hide Fold, FlightOk, IdOk, Reconcile, ResurrectsStale;
    var l, l' := w.ledger, Step(w, a).ledger;
    if a.SnapshotAct? {
      forall id
        ensures ResurrectsStale(l, Fold(a.snap), id) ==> Live(l', id) && l'.entries[id].month != l'.month
        ensures !ResurrectsStale(l, Fold(a.snap), id) && Live(l', id) ==> l'.entries[id].month == l'.month
      {
        SnapshotMonth(l, Fold(a.snap), a.now, id);
      }
    } else {
      hide Step;
      forall id | Live(l', id) ensures l'.entries[id].month == l'.month {
        OtherStepsKeepMonth(w, a, id);
      }
    }
  }

  ghost predicate AlwaysCurrent(actions: seq<Action>) {
    forall k :: 0 <= k <= |actions| ==> CurrentMonths(Run(actions[..k]).ledger)
  }

  ghost predicate AlwaysSafe(actions: seq<Action>) {
    forall k :: 0 <= k < |actions| ==> MonthSafe(Run(actions[..k]), actions[k])
  }

  /** What holds at every moment of a run holds before its last action and after it. */
  lemma AlwaysSplits(actions: seq<Action>)
    requires actions != []
    ensures var (init, last) := (actions[..|actions| - 1], actions[|actions| - 1]);
            && (AlwaysCurrent(actions) <==> AlwaysCurrent(init) && CurrentMonths(Step(Run(init), last).ledger))
            && (AlwaysSafe(actions) <==> AlwaysSafe(init) && MonthSafe(Run(init), last))
            && (AlwaysCurrent(init) ==> CurrentMonths(Run(init).ledger))
  {
    hide CurrentMonths, MonthSafe, Step;
    var n := |actions| - 1;
    var init := actions[..n];
    assert forall k :: 0 <= k <= n ==> actions[..k] == init[..k];
    assert actions[..|actions|] == actions && init[..n] == init;
    if AlwaysSafe(actions) {
      assert MonthSafe(Run(actions[..n]), actions[n]);
    }
    if AlwaysCurrent(actions) {
      assert CurrentMonths(Run(actions[..|actions|]).ledger);
    }
  }

  /** Live rows carry the ledger's month throughout a run iff no snapshot in it resurrects a stale row. */
  lemma {:induction false} MonthsStayCurrentIff(actions: seq<Action>)
    ensures AlwaysCurrent(actions) <==> AlwaysSafe(actions)
  {
    if actions == [] {
      assert CurrentMonths(START.ledger);
    } else {
      hide CurrentMonths, MonthSafe, Step, Inv, AlwaysCurrent, AlwaysSafe;
      var init := actions[..|actions| - 1];
      MonthsStayCurrentIff(init);
      AlwaysSplits(actions);
      if AlwaysCurrent(init) {
        RunInv(init);
        StepKeepsMonthsExactly(Run(init), actions[|actions| - 1]);
      }
    }
  }

  lemma FoldOfOne(hash: string, entry: KeyEntry)
    requires entry.id != ""
    ensures Fold(map[hash := Some(entry)]) == map[entry.id := entry.monthlyTokenBudget]
  {
    var snap: KeysSnapshot := map[hash := Some(entry)];
    assert Contributes(snap, hash, entry.id);
    IsFoldUnique(snap, Fold(snap), map[entry.id := entry.monthlyTokenBudget]);
  }

  /** A key comes, goes, the month turns, and the key comes back. */
  lemma LeaveAndReturn(snap: KeysSnapshot, m0: Month, m1: Month)
    ensures var actions := [SnapshotAct(snap, m0), SnapshotAct(map[], m0), RolloverAct(m1), SnapshotAct(snap, m1)];
            Run(actions).ledger ==
            Reconcile(Rollover(Reconcile(Reconcile(EMPTY_LEDGER, Fold(snap), m0), map[], m0), m1), Fold(snap), m1)
  {
    hide Fold, Reconcile, Rollover;
    assert Fold(map[]) == map[] by { IsFoldUnique(map[], Fold(map[]), map[]); }
    var (a0, a1, a2, a3) := (SnapshotAct(snap, m0), SnapshotAct(map[], m0), RolloverAct(m1), SnapshotAct(snap, m1));
    assert [a0, a1, a2, a3][..3] == [a0, a1, a2] && [a0, a1, a2][..2] == [a0, a1];
    assert [a0, a1][..1] == [a0] && [a0][..0] == [];
    assert Run([a0]) == Step(START, a0);
    assert Run([a0, a1]) == Step(Run([a0]), a1);
    assert Run([a0, a1, a2]) == Step(Run([a0, a1]), a2);
  }

  /**
   The promise does fail: a key disappears from KEYS, the month turns before the deletion is
   flushed, the key comes back; its row is live and still on the old month.
   */
  lemma StaleResurrectionHappens() returns (actions: seq<Action>)
    ensures Live(Run(actions).ledger, "k")
    ensures Run(actions).ledger.month == "2026-02"
    ensures Run(actions).ledger.entries["k"].month == "2026-01"
  {
    var entry := KeyEntry("k", "o", "p", "n", [], 0, 10);
    var snap: KeysSnapshot := map["h" := Some(entry)];
    FoldOfOne("h", entry);
    actions := [SnapshotAct(snap, "2026-01"), SnapshotAct(map[], "2026-01"), RolloverAct("2026-02"), SnapshotAct(snap, "2026-02")];
    LeaveAndReturn(snap, "2026-01", "2026-02");
    assert Run(actions).ledger == StaleLedger();
    StaleLedgerIsStale();
  }

  function StaleLedger(): Ledger {
    var l := Reconcile(Reconcile(EMPTY_LEDGER, map["k" := 10], "2026-01"), map[], "2026-01");
    Reconcile(Rollover(l, "2026-02"), map["k" := 10], "2026-02")
  }

  lemma StaleLedgerIsStale()
    ensures Live(StaleLedger(), "k")
    ensures StaleLedger().month == "2026-02" && StaleLedger().entries["k"].month == "2026-01"
  {
    var folded := map["k" := 10];
    var l0 := Reconcile(EMPTY_LEDGER, folded, "2026-01");
    assert "k" in NewIds(EMPTY_LEDGER, folded);
    assert l0.month == "2026-01" && l0.entries["k"] == NewRow(10, "2026-01");
    var l1 := Reconcile(l0, map[], "2026-01");
    assert l1.entries["k"].toDelete && l1.month == "2026-01";
    var l2 := Rollover(l1, "2026-02");
    assert l2.entries["k"].month == "2026-01" && l2.month == "2026-02";
  }

  // ---------- Convergence ----------

  /** A sink that answers every call with the given totals. */
  function Answers(total: (string, string) -> int): MonthToDate {
    (id, month) => Some(total(id, month))
  }

  /** A bucket on which every call succeeds. */
  const HEALTHY: string -> KvOutcome := _ => Success

  /** The whole BUDGETS bucket that KEYS and the sink call for, each row on the month the ledger has it on. */
  ghost function Specified(l: Ledger, keys: KeysSnapshot, total: (string, string) -> int): map<string, BudgetEntry>
    requires forall id :: FollowsKeys(l, keys, id)
  {
    map id | id in Fold(keys) && Fold(keys)[id] > 0 ::
      assert FollowsKeys(l, keys, id);
      var month := l.entries[id].month;
      BudgetEntry(total(id, month), Fold(keys)[id], total(id, month) >= Fold(keys)[id], month)
  }

  /** Every live row is baselined with the sink's total, and is dirty or already in BUDGETS. */
  ghost predicate Settling(l: Ledger, budgets: map<string, BudgetEntry>, total: (string, string) -> int) {
    && (forall id :: id in l.entries ==> RowOk(l, id, l.entries[id]))
    && (forall id :: id in l.entries && !l.entries[id].toDelete && l.entries[id].baselineLoaded ==>
          && l.entries[id].used == total(id, l.entries[id].month)
          && (id in l.dirty || (id in budgets && budgets[id] == EntryOf(l.entries[id]))))
    && l.dirty <= l.entries.Keys
    && budgets.Keys <= l.entries.Keys
  }

  lemma RebaselineSettles(w: World, total: (string, string) -> int)
    requires Inv(w)
    ensures var l := RebaselinePass(w.ledger, Answers(total));
            && Settling(l, w.budgets, total)
            && l.entries.Keys == w.ledger.entries.Keys
            && (forall id :: id in l.entries ==>
                  && l.entries[id].toDelete == w.ledger.entries[id].toDelete
                  && l.entries[id].budget == w.ledger.entries[id].budget
                  && l.entries[id].month == w.ledger.entries[id].month)
  {
    forall id | id in w.ledger.entries
      ensures RowOk(w.ledger, id, w.ledger.entries[id])
      ensures Published(w, id, w.ledger.entries[id])
    {
      assert IdOk(w, id);
    }
  }

  /** What a flush pass over everything dirty leaves of one id. */
  lemma FlushSettles(l: Ledger, budgets: map<string, BudgetEntry>, total: (string, string) -> int, id: string)
    requires Settling(l, budgets, total)
    ensures var flushed := FlushPass(l, l.dirty, HEALTHY);
            var budgets' := FlushPassBudgets(l, l.dirty, HEALTHY, budgets);
            && (id in flushed.entries <==> Live(l, id))
            && (id in flushed.entries ==> flushed.entries[id] == l.entries[id] && RowOk(l, id, l.entries[id]))
            && (id in flushed.dirty <==> id in l.dirty && Live(l, id) && !l.entries[id].baselineLoaded)
            && (id in budgets' ==> Live(l, id))
            && (Live(l, id) && l.entries[id].baselineLoaded ==>
                  && id in budgets' && budgets'[id] == EntryOf(l.entries[id])
                  && l.entries[id].used == total(id, l.entries[id].month))
  {
    if id in l.entries {
      assert RowOk(l, id, l.entries[id]);
    }
  }

  /** What the load pass after it leaves of one id. */
  lemma LoadSettles(l: Ledger, flushed: Ledger, total: (string, string) -> int, id: string)
    requires id in flushed.entries <==> Live(l, id)
    requires id in flushed.entries ==> flushed.entries[id] == l.entries[id] && RowOk(l, id, l.entries[id])
    requires id in flushed.dirty ==> Live(l, id) && !l.entries[id].baselineLoaded
    ensures var l' := LoadPass(flushed, AwaitingBaseline(l), Answers(total), true);
            && (id in l'.entries <==> Live(l, id))
            && (id in l'.entries ==>
                  && l'.entries[id] == (if l.entries[id].baselineLoaded then l.entries[id]
                                        else LandRow(l.entries[id], total(id, l.entries[id].month)))
                  && (l'.entries[id].exceeded <==> l'.entries[id].used >= l'.entries[id].budget)
                  && l'.entries[id].budget > 0)
            && (id in l'.dirty <==> Live(l, id) && !l.entries[id].baselineLoaded)
  {
  }

  /** One quiet tick: deletions are gone, every live row is baselined, only just-loaded rows are dirty. */
  lemma {:induction false} TickSettles(l: Ledger, budgets: map<string, BudgetEntry>, total: (string, string) -> int)
    requires Settling(l, budgets, total)
    ensures var l' := TickPass(l, Answers(total), HEALTHY);
            var budgets' := FlushPassBudgets(l, l.dirty, HEALTHY, budgets);
            && Settling(l', budgets', total)
            && (forall id :: id in l'.entries <==> Live(l, id))
            && (forall id :: id in l'.entries ==>
                  && !l'.entries[id].toDelete && l'.entries[id].baselineLoaded
                  && l'.entries[id].budget == l.entries[id].budget
                  && l'.entries[id].month == l.entries[id].month)
            && l'.dirty == AwaitingBaseline(l)
  {
    hide FlushPass, FlushPassBudgets, LoadPass;
    var flushed := FlushPass(l, l.dirty, HEALTHY);
    var budgets' := FlushPassBudgets(l, l.dirty, HEALTHY, budgets);
    var l' := TickPass(l, Answers(total), HEALTHY);
    forall id
      ensures id in flushed.entries <==> Live(l, id)
      ensures id in flushed.entries ==> flushed.entries[id] == l.entries[id] && RowOk(l, id, l.entries[id])
      ensures id in flushed.dirty ==> Live(l, id) && !l.entries[id].baselineLoaded
      ensures id in budgets' ==> Live(l, id)
      ensures Live(l, id) && l.entries[id].baselineLoaded ==>
                && id in budgets' && budgets'[id] == EntryOf(l.entries[id])
                && l.entries[id].used == total(id, l.entries[id].month)
    {
      FlushSettles(l, budgets, total, id);
    }
    forall id
      ensures id in l'.entries <==> Live(l, id)
      ensures id in l'.entries ==>
                && l'.entries[id] == (if l.entries[id].baselineLoaded then l.entries[id]
                                      else LandRow(l.entries[id], total(id, l.entries[id].month)))
                && (l'.entries[id].exceeded <==> l'.entries[id].used >= l'.entries[id].budget)
                && l'.entries[id].budget > 0
      ensures id in l'.dirty <==> Live(l, id) && !l.entries[id].baselineLoaded
    {
      LoadSettles(l, flushed, total, id);
    }
    assert l'.dirty == AwaitingBaseline(l);
  }

  /** One re-baseline and two flush ticks on a working sink and bucket. */
  function QuietSpell(l: Ledger, budgets: map<string, BudgetEntry>, total: (string, string) -> int)
    : (Ledger, map<string, BudgetEntry>)
  {
    var l0 := RebaselinePass(l, Answers(total));
    var (l1, b1) := (TickPass(l0, Answers(total), HEALTHY), FlushPassBudgets(l0, l0.dirty, HEALTHY, budgets));
    (TickPass(l1, Answers(total), HEALTHY), FlushPassBudgets(l1, l1.dirty, HEALTHY, b1))
  }

  /** After the spell the rows are the live ones, all baselined, none dirty. */
  lemma QuietSpellSettles(w: World, total: (string, string) -> int)
    requires Inv(w)
    ensures var (l, budgets) := QuietSpell(w.ledger, w.budgets, total);
            && Settling(l, budgets, total)
            && l.dirty == {}
            && (forall id :: id in l.entries <==> Live(w.ledger, id))
            && (forall id :: id in l.entries ==>
                  && !l.entries[id].toDelete && l.entries[id].baselineLoaded
                  && l.entries[id].budget == w.ledger.entries[id].budget
                  && l.entries[id].month == w.ledger.entries[id].month)
  {
    var l0 := RebaselinePass(w.ledger, Answers(total));
    RebaselineSettles(w, total);
    TickSettles(l0, w.budgets, total);
    var l1 := TickPass(l0, Answers(total), HEALTHY);
    var b1 := FlushPassBudgets(l0, l0.dirty, HEALTHY, w.budgets);
    assert AwaitingBaseline(l1) == {};
    TickSettles(l1, b1, total);
  }

  /**
   From any reachable state with no flush in progress, a quiet spell leaves nothing to publish and
   BUDGETS, as a whole map, exactly what KEYS and the sink call for.
   */
  lemma QuietSpellConverges(actions: seq<Action>, total: (string, string) -> int)
    requires Run(actions).phase.Idle?
    ensures forall id :: FollowsKeys(Run(actions).ledger, Run(actions).keys, id)
    ensures var w := Run(actions);
            var (l, budgets) := QuietSpell(w.ledger, w.budgets, total);
            l.dirty == {} && budgets == Specified(w.ledger, w.keys, total)
  {
    var w := Run(actions);
    assert Inv(w) by { RunInv(actions); }
    forall id ensures FollowsKeys(w.ledger, w.keys, id) {
      assert IdOk(w, id);
    }
    var (l, budgets) := QuietSpell(w.ledger, w.budgets, total);
    QuietSpellSettles(w, total);
    SettledIsSpecified(w.ledger, w.keys, l, budgets, total);
  }

  lemma SettledIsSpecified(was: Ledger, keys: KeysSnapshot, l: Ledger, budgets: map<string, BudgetEntry>, total: (string, string) -> int)
    requires forall id :: FollowsKeys(was, keys, id)
    requires Settling(l, budgets, total) && l.dirty == {}
    requires forall id :: id in l.entries <==> Live(was, id)
    requires forall id :: id in l.entries ==>
               && Live(was, id) && !l.entries[id].toDelete && l.entries[id].baselineLoaded
               && l.entries[id].budget == was.entries[id].budget
               && l.entries[id].month == was.entries[id].month
    ensures budgets == Specified(was, keys, total)
  {
    forall id
      ensures id in budgets <==> id in Specified(was, keys, total)
      ensures id in budgets ==> budgets[id] == Specified(was, keys, total)[id]
    {
      assert FollowsKeys(was, keys, id);
      if id in l.entries {
        assert RowOk(l, id, l.entries[id]);
      }
    }
  }
}
