/**
 The budget ledger as the object the program runs: its table, dirty set and month are fields that
 the methods update in place, in loops over them. Each method is proved to compute the function of
 LedgerModel.dfy that specifies it, so the results about those functions are results about these
 bodies. Where the program drops its mutex for a KV or sink call, the method takes how the call
 went as a parameter.
 */
module BudgetLedger {
  import opened Cpkv
  import opened Sink
  import M = LedgerModel

  class BudgetLedger {
    var entries: map<string, M.LedgerRow>
    var dirty: set<string>
    var month: string

    ghost function Model(): M.Ledger
      reads this
    {
      M.Ledger(entries, dirty, month)
    }

    constructor ()
      ensures Model() == M.EMPTY_LEDGER
    {
      entries, dirty, month := map[], {}, "";
    }

    method AddUsage(row: Row)
      modifies this
      ensures Model() == M.AddUsage(old(Model()), row.keyId, row.TotalTokens())
      ensures row.keyId == "" || row.keyId !in old(entries) || old(entries)[row.keyId].toDelete ==> Model() == old(Model())
      ensures row.keyId != "" && row.keyId in old(entries) && !old(entries)[row.keyId].toDelete ==>
                && entries.Keys == old(entries).Keys
                && entries[row.keyId].used == old(entries)[row.keyId].used + row.promptTokens + row.completionTokens
                && (entries[row.keyId].exceeded <==> entries[row.keyId].used >= entries[row.keyId].budget)
                && row.keyId in dirty
    {
      if row.keyId == "" || row.keyId !in entries || entries[row.keyId].toDelete {
        return;
      }
      var entry := entries[row.keyId];
      entry := entry.(used := entry.used + row.TotalTokens());
      entry := entry.(exceeded := entry.used >= entry.budget);
      entry := entry.(version := entry.version + 1);
      entries := entries[row.keyId := entry];
      dirty := dirty + {row.keyId};
    }

    /** Folds a whole KEYS snapshot by id, visiting its entries in any order, and applies it. */
    method ApplyKeysSnapshot(snap: M.KeysSnapshot, now: string)
      modifies this
      ensures Model() == M.Reconcile(old(Model()), M.Fold(snap), now)
    {
      var folded: map<string, int> := map[];
      var rest := snap.Keys;
      ghost var seen: M.KeysSnapshot := map[];
      while rest != {}
        invariant rest <= snap.Keys
        invariant seen == map hash | hash in snap && hash !in rest :: snap[hash]
        invariant M.IsFold(seen, folded)
        invariant Model() == old(Model())
        decreases rest
      {
        var hash :| hash in rest;
        rest := rest - {hash};
        var value := snap[hash];
        M.FoldStep(seen, hash, value, folded);
        if value.Some? && value.value.id != "" {
          var id, budget := value.value.id, value.value.monthlyTokenBudget;
          if id !in folded {
            folded := folded[id := budget];
          } else if budget > folded[id] {
            folded := folded[id := budget];
          }
        }
        seen := seen[hash := value];
      }
      assert seen == snap;
      M.IsFoldUnique(snap, folded, M.Fold(snap));
      ReconcileKeys(folded, now);
    }

    method ReconcileKeys(folded: map<string, int>, now: string)
      modifies this
      ensures Model() == M.Reconcile(old(Model()), folded, now)
    {
      ghost var l := Model();
      ApplyFolded(folded, now);
      ghost var mid := Model();
      MarkVanished(folded);
      VanishedAfterFold(l, folded, now, mid, Model());
    }

    /** reconcileKeys' first loop, over the fold. */
    method ApplyFolded(folded: map<string, int>, now: string)
      modifies this
      ensures AppliedFold(old(Model()), folded, folded.Keys, now, Model())
    {
      ghost var l := Model();
      var rest := folded.Keys;
      ghost var done: set<string> := {};
      while rest != {}
        invariant rest !! done && rest + done == folded.Keys
        invariant AppliedFold(l, folded, done, now, Model())
        decreases rest
      {
        var id :| id in rest;
        AppliedFoldStep(l, folded, done, now, Model(), id);
        ReconcileId(id, folded[id], now);
        rest, done := rest - {id}, done + {id};
      }
      assert done == folded.Keys;
    }

    /** reconcileKeys' second loop: every row whose id is not in the fold is marked for deletion. */
    method MarkVanished(folded: map<string, int>)
      modifies this
      ensures month == old(month) && entries.Keys == old(entries).Keys
      ensures forall id :: id in entries ==>
                entries[id] == if id in folded then old(entries)[id] else M.ReconcileRow(old(entries)[id], 0)
      ensures forall id :: id in dirty <==>
                id in old(dirty) || (id in entries && entries[id] != old(entries)[id])
    {
      ghost var l := Model();
      var keys := entries.Keys;
      while keys != {}
        invariant keys <= entries.Keys == l.entries.Keys && month == l.month
        invariant forall id :: id in entries ==>
                    entries[id] == if id in folded || id in keys then l.entries[id]
                                   else M.ReconcileRow(l.entries[id], 0)
        invariant forall id :: id in dirty <==>
                    id in l.dirty || (id in entries && entries[id] != l.entries[id])
        decreases keys
      {
        var id :| id in keys;
        keys := keys - {id};
        var row := entries[id];
        if id !in folded && !row.toDelete {
          entries := entries[id := row.(toDelete := true, version := row.version + 1)];
          dirty := dirty + {id};
        }
      }
    }

    /** The body of reconcileKeys' first loop, for one id of the fold. */
    method ReconcileId(id: string, budget: int, now: string)
      modifies this
      ensures Model() == M.ReconcileOne(old(Model()), id, budget, now)
    {
      if budget <= 0 {
        if id in entries && !entries[id].toDelete {
          entries := entries[id := entries[id].(toDelete := true, version := entries[id].version + 1)];
          dirty := dirty + {id};
        }
        return;
      }
      if id !in entries {
        if month == "" {
          month := now;
        }
        entries := entries[id := M.NewRow(budget, month)];
        return;
      }
      var row, changed := entries[id], false;
      if row.toDelete {
        row, changed := row.(toDelete := false), true;
      }
      if row.budget != budget {
        row := row.(budget := budget);
        row, changed := row.(exceeded := row.used >= row.budget), true;
      }
      if changed {
        entries := entries[id := row.(version := row.version + 1)];
        dirty := dirty + {id};
      }
    }

    /** The second half of loadBaseline: the sink answered used for (id, month). */
    method LandBaseline(id: string, month: string, used: int, forceDirty: bool)
      modifies this
      ensures Model() == M.Land(old(Model()), id, month, used, forceDirty)
    {
      if id !in entries || entries[id].toDelete || entries[id].month != month {
        return;
      }
      var row := entries[id];
      var changed := row.used != used || !row.baselineLoaded;
      row := row.(used := used);
      row := row.(exceeded := row.used >= row.budget);
      row := row.(baselineLoaded := true);
      if changed {
        row := row.(version := row.version + 1);
      }
      entries := entries[id := row];
      if changed || forceDirty {
        dirty := dirty + {id};
      }
    }

    method LoadBaseline(id: string, sink: M.MonthToDate, forceDirty: bool)
      modifies this
      ensures Model() == if M.LoadSucceeds(old(Model()), sink, id)
                         then M.Land(old(Model()), id, old(entries)[id].month, sink(id, old(entries)[id].month).value, forceDirty)
                         else old(Model())
    {
      if id !in entries || entries[id].toDelete {
        return;
      }
      var rowMonth := entries[id].month;
      var used := sink(id, rowMonth);
      if used.None? {
        return;
      }
      LandBaseline(id, rowMonth, used.value, forceDirty);
    }

    /** The worker pool's effect when nothing else runs: the loads land in any order. */
    method LoadBaselines(ids: set<string>, sink: M.MonthToDate, forceDirty: bool)
      modifies this
      ensures Model() == M.LoadPass(old(Model()), ids, sink, forceDirty)
    {
      var rest := ids;
      ghost var l, done := Model(), {};
      LoadPassOfNone(l, sink, forceDirty);
      while rest != {}
        invariant rest !! done && rest + done == ids
        invariant Model() == M.LoadPass(l, done, sink, forceDirty)
        decreases rest
      {
        var id :| id in rest;
        LoadPassStep(l, done, id, sink, forceDirty);
        LoadBaseline(id, sink, forceDirty);
        rest, done := rest - {id}, done + {id};
      }
    }

    method RebaselineAll(sink: M.MonthToDate)
      modifies this
      ensures Model() == M.RebaselinePass(old(Model()), sink)
    {
      var ids := set id | id in entries && !entries[id].toDelete && entries[id].baselineLoaded;
      LoadBaselines(ids, sink, false);
    }

    /** The locked part of checkMonthRollover; ids are the baselines it goes on to load. */
    method RollMonth(newMonth: string) returns (ids: set<string>)
      modifies this
      ensures Model() == M.Rollover(old(Model()), newMonth)
      ensures ids == if old(month) == "" || old(month) == newMonth then {}
                     else set id | id in old(entries) && !old(entries)[id].toDelete
    {
      ids := {};
      if month == "" {
        month := newMonth;
        return;
      }
      if month == newMonth {
        return;
      }
      month := newMonth;
      ghost var was := entries;
      var rest := entries.Keys;
      while rest != {}
        invariant rest <= entries.Keys == was.Keys
        invariant forall id :: id in was ==>
                    entries[id] == if id in rest then was[id] else M.RollRow(was[id], newMonth)
        invariant ids == set id | id in was && id !in rest && !was[id].toDelete
        invariant dirty == old(dirty) && month == newMonth
        decreases rest
      {
        var id :| id in rest;
        rest := rest - {id};
        var row := entries[id];
        if !row.toDelete {
          entries := entries[id := row.(month := newMonth, baselineLoaded := false, version := row.version + 1)];
          ids := ids + {id};
        }
      }
      assert entries == M.Rollover(old(Model()), newMonth).entries;
    }

    method CheckMonthRollover(newMonth: string, sink: M.MonthToDate)
      modifies this
      ensures var l := old(Model());
              var ids := if l.month == "" || l.month == newMonth then {}
                         else set id | id in l.entries && !l.entries[id].toDelete;
              Model() == M.LoadPass(M.Rollover(l, newMonth), ids, sink, true)
    {
      var ids := RollMonth(newMonth);
      LoadBaselines(ids, sink, true);
    }

    method FlushOne(id: string, kv: KvBucket<BudgetEntry>, outcome: KvOutcome)
      modifies this, kv
      ensures var (l, flight) := M.FlushBegin(old(Model()), id);
              && Model() == (if flight.None? then l else M.FlushEnd(l, flight.value, outcome.Success?))
              && kv.content == if flight.None? || outcome.FailedLost? then old(kv.content)
                               else M.KvEffect(old(kv.content), flight.value)
    {
      if id !in entries {
        dirty := dirty - {id};
        return;
      }
      var row := entries[id];
      var version := row.version;
      var toDelete := row.toDelete || row.budget <= 0;
      if !toDelete && !row.baselineLoaded {
        return;
      }
      var entry := BudgetEntry(row.used, row.budget, row.exceeded, row.month);
      if toDelete {
        var ok := kv.Delete(id, outcome);
        if !ok || id !in entries {
          return;
        }
        if entries[id].version != version || !entries[id].toDelete {
          return;
        }
        entries := entries - {id};
        dirty := dirty - {id};
        return;
      }
      var ok := kv.Put(id, entry, outcome);
      if !ok || id !in entries || entries[id].version != version {
        return;
      }
      dirty := dirty - {id};
    }

    method FlushTick(kv: KvBucket<BudgetEntry>, sink: M.MonthToDate, outcomes: string -> KvOutcome)
      modifies this, kv
      ensures Model() == M.TickPass(old(Model()), sink, outcomes)
      ensures kv.content == M.FlushPassBudgets(old(Model()), old(dirty), outcomes, old(kv.content))
    {
      hide M.FlushPass, M.FlushPassBudgets, M.FlushBegin, M.FlushEnd, M.KvEffect, M.LoadPass;
      var pending := set id | id in entries && !entries[id].baselineLoaded && !entries[id].toDelete;
      var dirtyIDs, rest := dirty, dirty;
      ghost var l, b, done := Model(), kv.content, {};
      FlushPassOfNone(l, outcomes, b);
      while rest != {}
        invariant rest !! done && rest + done == dirtyIDs
        invariant Model() == M.FlushPass(l, done, outcomes)
        invariant kv.content == M.FlushPassBudgets(l, done, outcomes, b)
        decreases rest
      {
        var id :| id in rest;
        FlushPassStep(l, done, id, outcomes);
        FlushPassBudgetsStep(l, done, id, outcomes, b);
        FlushOne(id, kv, outcomes(id));
        rest, done := rest - {id}, done + {id};
      }
      assert done == dirtyIDs && pending == M.AwaitingBaseline(l);
      LoadBaselines(pending, sink, true);
    }
  }

  /** k is l with the fold applied for ids only. */
  ghost predicate AppliedFold(l: M.Ledger, folded: map<string, int>, ids: set<string>, now: string, k: M.Ledger) {
    var added := M.NewIds(l, folded) * ids;
    && k.entries.Keys == l.entries.Keys + added
    && k.month == (if added != {} && l.month == "" then now else l.month)
    && (forall id :: id in k.entries ==>
          k.entries[id] == if id !in l.entries then M.NewRow(M.Want(folded, id), k.month)
                           else if id in ids then M.ReconcileRow(l.entries[id], M.Want(folded, id))
                           else l.entries[id])
    && (forall id :: id in k.dirty <==> id in l.dirty || (id in l.entries && k.entries[id] != l.entries[id]))
  }

  /** The two loops of reconcileKeys, one after the other, are Reconcile. */
  lemma VanishedAfterFold(l: M.Ledger, folded: map<string, int>, now: string, mid: M.Ledger, after: M.Ledger)
    requires AppliedFold(l, folded, folded.Keys, now, mid)
    requires after.month == mid.month && after.entries.Keys == mid.entries.Keys
    requires forall id :: id in after.entries ==>
               after.entries[id] == if id in folded then mid.entries[id] else M.ReconcileRow(mid.entries[id], 0)
    requires forall id :: id in after.dirty <==>
               id in mid.dirty || (id in after.entries && after.entries[id] != mid.entries[id])
    ensures after == M.Reconcile(l, folded, now)
  {
    hide M.ReconcileRow;
    var r := M.Reconcile(l, folded, now);
    assert M.NewIds(l, folded) * folded.Keys == M.NewIds(l, folded);
    assert after.entries == r.entries;
    forall id ensures id in after.dirty <==> id in r.dirty {
      VanishedDirty(l, folded, now, mid, after, id);
    }
  }

  lemma VanishedDirty(l: M.Ledger, folded: map<string, int>, now: string, mid: M.Ledger, after: M.Ledger, id: string)
    requires AppliedFold(l, folded, folded.Keys, now, mid)
    requires after.entries.Keys == mid.entries.Keys
    requires id in after.entries ==>
               after.entries[id] == if id in folded then mid.entries[id] else M.ReconcileRow(mid.entries[id], 0)
    requires id in after.dirty <==> id in mid.dirty || (id in after.entries && after.entries[id] != mid.entries[id])
    ensures id in after.dirty <==> id in M.Reconcile(l, folded, now).dirty
  {
  }

  lemma {:induction false} AppliedFoldStep(l: M.Ledger, folded: map<string, int>, ids: set<string>, now: string, k: M.Ledger, id: string)
    requires AppliedFold(l, folded, ids, now, k)
    requires id in folded && id !in ids
    ensures AppliedFold(l, folded, ids + {id}, now, M.ReconcileOne(k, id, folded[id], now))
  {
    var k' := M.ReconcileOne(k, id, folded[id], now);
    if id in M.NewIds(l, folded) {
      assert M.NewIds(l, folded) * (ids + {id}) == M.NewIds(l, folded) * ids + {id};
    } else {
      assert M.NewIds(l, folded) * (ids + {id}) == M.NewIds(l, folded) * ids;
    }
  }

  lemma LoadPassOfNone(l: M.Ledger, sink: M.MonthToDate, force: bool)
    ensures M.LoadPass(l, {}, sink, force) == l
  {
    assert M.LoadPass(l, {}, sink, force).entries == l.entries;
    assert M.LoadPass(l, {}, sink, force).dirty == l.dirty;
  }

  /** Loading one more id extends a load pass: the order of the pool's answers is immaterial. */
  lemma {:induction false} LoadPassStep(l: M.Ledger, ids: set<string>, id: string, sink: M.MonthToDate, force: bool)
    requires id !in ids
    ensures var p := M.LoadPass(l, ids, sink, force);
            M.LoadPass(l, ids + {id}, sink, force) ==
            if M.LoadSucceeds(p, sink, id)
            then M.Land(p, id, p.entries[id].month, sink(id, p.entries[id].month).value, force)
            else p
  {
    var p, q := M.LoadPass(l, ids, sink, force), M.LoadPass(l, ids + {id}, sink, force);
    var r := if M.LoadSucceeds(p, sink, id)
             then M.Land(p, id, p.entries[id].month, sink(id, p.entries[id].month).value, force)
             else p;
    assert q.entries == r.entries;
    assert q.dirty == r.dirty;
  }

  lemma FlushPassOfNone(l: M.Ledger, kv: string -> KvOutcome, b: map<string, BudgetEntry>)
    ensures M.FlushPass(l, {}, kv) == l && M.FlushPassBudgets(l, {}, kv, b) == b
  {
    assert M.FlushPass(l, {}, kv).entries == l.entries;
    assert M.FlushPass(l, {}, kv).dirty == l.dirty;
  }

  /** Flushing one more id extends a flush pass: the order of the dirty ids is immaterial. */
  lemma {:induction false} FlushPassStep(l: M.Ledger, ids: set<string>, id: string, kv: string -> KvOutcome)
    requires id !in ids
    ensures var (p, flight) := M.FlushBegin(M.FlushPass(l, ids, kv), id);
            M.FlushPass(l, ids + {id}, kv) ==
            if flight.None? then p else M.FlushEnd(p, flight.value, kv(id).Success?)
  {
    var (p, flight) := M.FlushBegin(M.FlushPass(l, ids, kv), id);
    var next := M.FlushPass(l, ids + {id}, kv);
    var r := if flight.None? then p else M.FlushEnd(p, flight.value, kv(id).Success?);
    assert next.entries == r.entries;
    assert next.dirty == r.dirty;
  }

  lemma FlushPassBudgetsStep(l: M.Ledger, ids: set<string>, id: string, kv: string -> KvOutcome, b: map<string, BudgetEntry>)
    requires id !in ids
    ensures var flight := M.FlushBegin(l, id).1;
            var pb := M.FlushPassBudgets(l, ids, kv, b);
            && M.FlushBegin(M.FlushPass(l, ids, kv), id).1 == flight
            && M.FlushPassBudgets(l, ids + {id}, kv, b) ==
            if flight.None? || kv(id).FailedLost? then pb else M.KvEffect(pb, flight.value)
  {
  }
}
