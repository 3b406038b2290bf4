/**
 A quiet spell as a stretch of a run of the ledger's state machine: one re-baseline and two flush ticks
 whose calls succeed, each load and each flush taken apart into its own actions. Convergence is thereby
 a statement about the machine the invariant speaks of.
 */
module LedgerQuiet {
  import opened LedgerModel
  import opened LedgerWorld
  import opened LedgerTheorems
  import BudgetLedger

  ghost function Steps(w: World, actions: seq<Action>): World {
    if actions == [] then w else Step(Steps(w, actions[..|actions| - 1]), actions[|actions| - 1])
  }

  lemma {:induction false} StepsJoin(w: World, first: seq<Action>, more: seq<Action>)
    ensures Steps(w, first + more) == Steps(Steps(w, first), more)
  {
    hide Step;
    if more == [] {
      assert first + more == first;
    } else {
      StepsJoin(w, first, more[..|more| - 1]);
      assert (first + more)[..|first + more| - 1] == first + more[..|more| - 1];
    }
  }

  lemma {:induction false} RunThenSteps(actions: seq<Action>, more: seq<Action>)
    ensures Run(actions + more) == Steps(Run(actions), more)
  {
    hide Step;
    if more == [] {
      assert actions + more == actions;
    } else {
      RunThenSteps(actions, more[..|more| - 1]);
      assert (actions + more)[..|actions + more| - 1] == actions + more[..|more| - 1];
    }
  }

  lemma ThreeSteps(w: World, a: Action, b: Action, c: Action)
    ensures Steps(w, [a, b, c]) == Step(Step(Step(w, a), b), c)
  {
    hide Step;
    assert [a, b, c][..2] == [a, b] && [a, b][..1] == [a] && [a][..0] == [];
    assert Steps(w, [a, b]) == Step(Steps(w, [a]), b);
    assert Steps(w, [a]) == Step(w, a);
  }

  /** The two worlds differ in their ledger and bucket only (and in what the history says of them). */
  predicate SameElse(w: World, w': World) {
    w'.keys == w.keys && w'.phase == w.phase && w'.loads == w.loads
  }

  /** Loads that are answered and flushes whose call succeeds: nothing else happens. */
  predicate Quiet(actions: seq<Action>) {
    forall a :: a in actions ==>
      a.LoadStartAct? || a.LoadAnswerAct? || a.LoadLandAct? || a.FlushBeginAct? || a.KvEffectAct? || a == FlushEndAct(true)
  }

  lemma QuietJoins(first: seq<Action>, more: seq<Action>)
    requires Quiet(first) && Quiet(more)
    ensures Quiet(first + more)
  {
  }

  // ---------- One load, one flush ----------

  lemma FreshTicket(used: set<nat>) returns (ticket: nat)
    ensures ticket !in used
  {
    ticket := 0;
    var rest := used;
    while rest != {}
      invariant forall t :: t in used && t !in rest ==> t < ticket
      decreases rest
    {
      var t :| t in rest;
      rest := rest - {t};
      ticket := if t >= ticket then t + 1 else ticket;
    }
  }

  /** What one load of a live row leaves of the ledger. */
  function Loaded(l: Ledger, id: string, total: (string, string) -> int, force: bool): Ledger {
    if Live(l, id) then Land(l, id, l.entries[id].month, total(id, l.entries[id].month), force) else l
  }

  lemma LoadIsSteps(w: World, id: string, total: (string, string) -> int, force: bool) returns (actions: seq<Action>)
    ensures Quiet(actions)
    ensures var w' := Steps(w, actions);
            SameElse(w, w') && w'.budgets == w.budgets && w'.ledger == Loaded(w.ledger, id, total, force)
  {
    if !Live(w.ledger, id) {
      actions := [];
    } else {
      var ticket := FreshTicket(w.loads.Keys);
      var used := total(id, w.ledger.entries[id].month);
      var (a, b, c) := (LoadStartAct(ticket, id, force), LoadAnswerAct(ticket, used), LoadLandAct(ticket));
      actions := [a, b, c];
      ThreeSteps(w, a, b, c);
      LoadSteps(w, ticket, id, force, used);
    }
  }

  lemma LoadSteps(w: World, ticket: nat, id: string, force: bool, used: int)
    requires ticket !in w.loads && Live(w.ledger, id)
    ensures var w' := LoadLandStep(LoadAnswerStep(LoadStartStep(w, ticket, id, force), ticket, used), ticket);
            && SameElse(w, w') && w'.budgets == w.budgets
            && w'.ledger == Land(w.ledger, id, w.ledger.entries[id].month, used, force)
  {
    hide Land;
    var w' := LoadLandStep(LoadAnswerStep(LoadStartStep(w, ticket, id, force), ticket, used), ticket);
    assert w'.loads == w.loads;
  }

  /** flushOne on a working bucket, between two flushes. */
  lemma FlushIsSteps(w: World, id: string) returns (actions: seq<Action>)
    requires w.phase.Idle?
    ensures Quiet(actions)
    ensures var (w', (l, flight)) := (Steps(w, actions), FlushBegin(w.ledger, id));
            && SameElse(w, w')
            && w'.ledger == (if flight.None? then l else FlushEnd(l, flight.value, true))
            && w'.budgets == (if flight.None? then w.budgets else KvEffect(w.budgets, flight.value))
  {
    var (a, b, c) := (FlushBeginAct(id), KvEffectAct, FlushEndAct(true));
    actions := [a, b, c];
    ThreeSteps(w, a, b, c);
    FlushSteps(w, id);
  }

  lemma FlushSteps(w: World, id: string)
    requires w.phase.Idle?
    ensures var (w', (l, flight)) := (FlushEndStep(KvEffectStep(FlushBeginStep(w, id)), true), FlushBegin(w.ledger, id));
            && SameElse(w, w')
            && w'.ledger == (if flight.None? then l else FlushEnd(l, flight.value, true))
            && w'.budgets == (if flight.None? then w.budgets else KvEffect(w.budgets, flight.value))
  {
    hide FlushEnd, KvEffect;
  }

  // ---------- Whole passes ----------

  lemma {:induction false} LoadPassIsSteps(w: World, ids: set<string>, total: (string, string) -> int, force: bool)
    returns (actions: seq<Action>)
    ensures Quiet(actions)
    ensures var w' := Steps(w, actions);
            SameElse(w, w') && w'.budgets == w.budgets && w'.ledger == LoadPass(w.ledger, ids, Answers(total), force)
    decreases ids
  {
    hide Step, Land, LandRow, LandChanges, LoadPass, SameElse;
    actions := [];
    if ids == {} {
      BudgetLedger.LoadPassOfNone(w.ledger, Answers(total), force);
      SameElseReflexive(w);
    } else {
      var id :| id in ids;
      var before := LoadPassIsSteps(w, ids - {id}, total, force);
      var w0 := Steps(w, before);
      var last := LoadIsSteps(w0, id, total, force);
      BudgetLedger.LoadPassStep(w.ledger, ids - {id}, id, Answers(total), force);
      assert ids - {id} + {id} == ids;
      StepsJoin(w, before, last);
      QuietJoins(before, last);
      SameElseTransitive(w, w0, Steps(w0, last));
      actions := before + last;
    }
  }

  lemma SameElseReflexive(w: World)
    ensures SameElse(w, w)
  {
  }

  lemma SameElseTransitive(w: World, w': World, w'': World)
    requires SameElse(w, w') && SameElse(w', w'')
    ensures SameElse(w, w'')
  {
  }

  lemma {:induction false} FlushPassIsSteps(w: World, ids: set<string>) returns (actions: seq<Action>)
    requires w.phase.Idle?
    ensures Quiet(actions)
    ensures var w' := Steps(w, actions);
            && SameElse(w, w')
            && w'.ledger == FlushPass(w.ledger, ids, HEALTHY)
            && w'.budgets == FlushPassBudgets(w.ledger, ids, HEALTHY, w.budgets)
    decreases ids
  {
    hide Step, FlushBegin, FlushEnd, KvEffect, FlushPass, FlushPassBudgets;
    actions := [];
    if ids == {} {
      BudgetLedger.FlushPassOfNone(w.ledger, HEALTHY, w.budgets);
    } else {
      var id :| id in ids;
      var before := FlushPassIsSteps(w, ids - {id});
      var w0 := Steps(w, before);
      var last := FlushIsSteps(w0, id);
      BudgetLedger.FlushPassStep(w.ledger, ids - {id}, id, HEALTHY);
      BudgetLedger.FlushPassBudgetsStep(w.ledger, ids - {id}, id, HEALTHY, w.budgets);
      assert ids - {id} + {id} == ids;
      StepsJoin(w, before, last);
      QuietJoins(before, last);
      actions := before + last;
    }
  }

  lemma TickIsSteps(w: World, total: (string, string) -> int) returns (actions: seq<Action>)
    requires w.phase.Idle?
    ensures Quiet(actions)
    ensures var w' := Steps(w, actions);
            && SameElse(w, w')
            && w'.ledger == TickPass(w.ledger, Answers(total), HEALTHY)
            && w'.budgets == FlushPassBudgets(w.ledger, w.ledger.dirty, HEALTHY, w.budgets)
  {
    hide Step, FlushPass, FlushPassBudgets, LoadPass, AwaitingBaseline;
    var flushes := FlushPassIsSteps(w, w.ledger.dirty);
    var loads := LoadPassIsSteps(Steps(w, flushes), AwaitingBaseline(w.ledger), total, true);
    StepsJoin(w, flushes, loads);
    QuietJoins(flushes, loads);
    actions := flushes + loads;
  }

  lemma SpellIsSteps(w: World, total: (string, string) -> int) returns (actions: seq<Action>)
    requires w.phase.Idle?
    ensures Quiet(actions)
    ensures var w' := Steps(w, actions);
            SameElse(w, w') && (w'.ledger, w'.budgets) == QuietSpell(w.ledger, w.budgets, total)
  {
    hide Step, TickPass, FlushPassBudgets, LoadPass, Baselined;
    var loads := LoadPassIsSteps(w, Baselined(w.ledger), total, false);
    var w0 := Steps(w, loads);
    var first := TickIsSteps(w0, total);
    var w1 := Steps(w0, first);
    var second := TickIsSteps(w1, total);
    StepsJoin(w, loads, first);
    StepsJoin(w, loads + first, second);
    QuietJoins(loads, first);
    QuietJoins(loads + first, second);
    actions := loads + first + second;
  }

  /**
   Every run that has no flush in progress can be continued, by one re-baseline and two flush ticks whose
   calls succeed, to a state with nothing to publish and BUDGETS, as a whole map, exactly what KEYS and
   the sink call for.
   */
  lemma QuietRunConverges(actions: seq<Action>, total: (string, string) -> int) returns (more: seq<Action>)
    requires Run(actions).phase.Idle?
    ensures Quiet(more)
    ensures forall id :: FollowsKeys(Run(actions).ledger, Run(actions).keys, id)
    ensures var (w, w') := (Run(actions), Run(actions + more));
            && (w'.ledger, w'.budgets) == QuietSpell(w.ledger, w.budgets, total)
            && w'.keys == w.keys && w'.phase.Idle? && w'.loads == w.loads
            && w'.ledger.dirty == {} && w'.budgets == Specified(w.ledger, w.keys, total)
  {
    hide Run, Step, QuietSpell, FollowsKeys, Specified;
    QuietSpellConverges(actions, total);
    more := SpellIsSteps(Run(actions), total);
    RunThenSteps(actions, more);
  }
}
