/** Conservation and exactly-once accounting over every run of the harvester. */
module HarvesterTheorems {
  import opened Sink
  import opened Wrappers
  import opened HarvesterModel

  function UpTo(n: nat): seq<nat> {
    if n == 0 then [] else UpTo(n - 1) + [n - 1]
  }

  lemma {:induction false} UpToHasEachOnce(n: nat, d: nat)
    ensures multiset(UpTo(n))[d] == if d < n then 1 else 0
  {
    if n > 0 {
      UpToHasEachOnce(n - 1, d);
    }
  }

  /** The deliveries Acked, Nak'd or Term'd so far, once for every such call. */
  function Disposed(calls: seq<Call>): seq<nat> {
    if calls == [] then []
    else
      var last := calls[|calls| - 1];
      Disposed(calls[..|calls| - 1]) + if last.Disposes() then [last.delivery] else []
  }

  lemma {:induction false} DisposedAppend(calls: seq<Call>, more: seq<Call>)
    ensures Disposed(calls + more) == Disposed(calls) + Disposed(more)
  {
    if more == [] {
      assert calls + more == calls;
    } else {
      DisposedAppend(calls, more[..|more| - 1]);
      assert (calls + more)[..|calls + more| - 1] == calls + more[..|more| - 1];
    }
  }

  lemma {:induction false} HeartbeatsDisposeNothing(batch: seq<Held>)
    ensures Disposed(InProgressCalls(batch)) == []
  {
    if batch != [] {
      HeartbeatsDisposeNothing(batch[..|batch| - 1]);
      assert InProgressCalls(batch)[..|batch| - 1] == InProgressCalls(batch[..|batch| - 1]);
    }
  }

  /** The deliveries 0..n, each in exactly one of four places. */
  ghost predicate Accounts(held: seq<nat>, owed: seq<nat>, disposed: seq<nat>, lost: seq<nat>, n: nat) {
    multiset(held) + multiset(owed) + multiset(disposed) + multiset(lost) == multiset(UpTo(n))
  }

  lemma AccountsDelivery(held: seq<nat>, owed: seq<nat>, disposed: seq<nat>, lost: seq<nat>, n: nat)
    requires Accounts(held, owed, disposed, lost, n)
    ensures Accounts(held + [n], owed, disposed, lost, n + 1)
    ensures Accounts(held, owed, disposed + [n], lost, n + 1)
  {
    assert UpTo(n + 1) == UpTo(n) + [n];
  }

  lemma AccountsHandOver(held: seq<nat>, disposed: seq<nat>, lost: seq<nat>, n: nat)
    requires Accounts(held, [], disposed, lost, n)
    ensures Accounts([], held, disposed, lost, n)
  {
  }

  lemma AccountsCrash(held: seq<nat>, owed: seq<nat>, disposed: seq<nat>, lost: seq<nat>, n: nat)
    requires Accounts(held, owed, disposed, lost, n)
    ensures Accounts([], [], disposed, lost + held + owed, n)
  {
  }

  lemma AccountsDisposal(held: seq<nat>, owed: seq<nat>, disposed: seq<nat>, lost: seq<nat>, n: nat)
    requires Accounts(held, owed, disposed, lost, n) && owed != []
    ensures Accounts(held, owed[1..], disposed + [owed[0]], lost, n)
  {
    assert owed == [owed[0]] + owed[1..];
  }

  /** Everything delivered is in exactly one place. */
  ghost predicate Conserved(s: State) {
    Accounts(Deliveries(s.held), AllOwed(s.tasks), Disposed(s.calls), s.lost, |s.deliveries|)
  }

  predicate ItemOk(s: State, h: Held) {
    h.delivery < |s.deliveries| && s.deliveries[h.delivery] == Some(h.row) && h.row.reqId != ""
  }

  predicate BatchOk(s: State, batch: seq<Held>) {
    forall i :: 0 <= i < |batch| ==> ItemOk(s, batch[i])
  }

  /** One flush at a time, counted by the wait group; the later stages of a shutdown have emptied what they wait for. */
  predicate TaskOk(s: State) {
    && |s.tasks| <= 1
    && (s.tasks == [] ==> s.inFlight == [] && !s.flushing)
    && s.waiting == (if s.tasks != [] && !s.tasks[0].final then 1 else 0)
    && (s.mode.FinalFlushing? <==> s.tasks != [] && s.tasks[0].final)
    && (s.mode.Drained? || s.mode.FinalFlushed? || s.mode.Returned? ==> s.tasks == [])
    && (s.mode.FinalFlushing? || s.mode.FinalFlushed? || s.mode.Returned? ==> s.held == [])
    && (s.tasks != [] ==>
          var t := s.tasks[0];
          && s.inFlight == t.batch
          && s.flushing == !t.final
          && (t.stage.Disposing? ==> t.stage.told <= t.stage.next <= |t.batch|)
          && (t.stage.Disposing? && t.stage.ok ==> Ids(Rows(t.batch)) <= Ids(s.sink)))
  }

  function Concat(lists: seq<seq<Row>>): seq<Row> {
    if lists == [] then [] else Concat(lists[..|lists| - 1]) + lists[|lists| - 1]
  }

  /** For how many messages of its i-th committed batch the OnRow decision has been made. */
  function Told(s: State, i: nat): nat
    requires i < |s.flushed|
  {
    if i in s.died then s.died[i]
    else if Reporting(s) && i == |s.flushed| - 1 then s.tasks[0].stage.told
    else |s.flushed[i]|
  }

  predicate ReportOk(s: State, i: nat) {
    i < |s.flushed| && |s.reports| == |s.flushed| ==>
      && Told(s, i) <= |s.flushed[i]| && (i in s.died ==> Told(s, i) < |s.flushed[i]|)
      && s.reports[i] == Dedup(s.flushed[i][..Told(s, i)])
  }

  /** OnRow was given the first occurrences among the messages told of, batch by batch. */
  ghost predicate ReportsOk(s: State) {
    && |s.reports| == |s.flushed|
    && s.reported == Concat(s.reports)
    && (forall i: nat :: ReportOk(s, i))
    && (forall i :: i in s.died ==> i < |s.flushed|)
    && (s.tasks != [] && s.tasks[0].stage.Disposing? && s.tasks[0].stage.ok ==>
          && s.flushed != [] && s.flushed[|s.flushed| - 1] == Rows(s.tasks[0].batch)
          && |s.flushed| - 1 !in s.died)
  }

  predicate AckStored(s: State, c: Call) {
    c.Ack? ==> c.delivery < |s.deliveries| && s.deliveries[c.delivery].Some? &&
               s.deliveries[c.delivery].value.reqId in Ids(s.sink)
  }

  predicate StoredDelivered(s: State, r: Row) {
    Some(r) in s.deliveries && r.reqId != ""
  }

  /** Everything held or in flight is a valid delivery; the sink holds acked rows, and only delivered ones, once. */
  ghost predicate StoreOk(s: State) {
    && BatchOk(s, s.held) && BatchOk(s, s.inFlight)
    && DistinctIds(s.sink)
    && (forall c :: c in s.calls ==> AckStored(s, c))
    && (forall r :: r in s.sink ==> StoredDelivered(s, r))
  }

  ghost predicate Inv(s: State) {
    Conserved(s) && TaskOk(s) && ReportsOk(s) && StoreOk(s)
  }

  // ---------- Who owes what ----------

  lemma OwedByOne(tasks: seq<Task>)
    requires |tasks| <= 1
    ensures AllOwed(tasks) == if tasks == [] then [] else Owed(tasks[0])
  {
    if tasks != [] {
      assert tasks[1..] == [];
    }
  }

  lemma StepConserves(s: State, a: Action)
    requires Conserved(s) && TaskOk(s)
    ensures Conserved(Step(s, a))
  {
    hide Accounts, AllOwed, Disposed, Deliveries, DeliverStep, TriggerFlushStep, InsertStep, DisposeStep, FinishStep, HeartbeatStep, FinalFlushStep, CrashStep;
    match a
    case Deliver(event) => DeliverConserves(s, event);
    case TriggerFlush => HandOverConserves(s, a);
    case FinalFlush => HandOverConserves(s, a);
    case DisposeNext => DisposeConserves(s);
    case ReportNext => ReportConserves(s);
    case Insert(_) => InsertOrFinishConserves(s, a);
    case Finish => InsertOrFinishConserves(s, a);
    case Heartbeat => HeartbeatConserves(s);
    case Crash => CrashConserves(s);
    case StopConsumer =>
    case Drain =>
    case Return =>
  }

  lemma DeliverConserves(s: State, event: Option<Row>)
    requires Conserved(s)
    ensures Conserved(DeliverStep(s, event))
  {
    var s', n := DeliverStep(s, event), |s.deliveries|;
    var (held, owed, disposed) := (Deliveries(s.held), AllOwed(s.tasks), Disposed(s.calls));
    AccountsDelivery(held, owed, disposed, s.lost, n);
    DeliverPlaces(s, event);
    if Invalid(event) {
      assert Accounts(held, owed, Disposed(s'.calls), s.lost, n + 1);
    } else {
      assert Accounts(Deliveries(s'.held), owed, disposed, s.lost, n + 1);
    }
    assert s'.tasks == s.tasks && s'.lost == s.lost && |s'.deliveries| == n + 1;
  }

  lemma HeartbeatConserves(s: State)
    requires Conserved(s)
    ensures Conserved(HeartbeatStep(s))
  {
    DisposedAppend(s.calls, InProgressCalls(s.held + s.inFlight));
    HeartbeatsDisposeNothing(s.held + s.inFlight);
    assert Disposed(s.calls) + [] == Disposed(s.calls);
  }

  lemma CrashConserves(s: State)
    requires Conserved(s)
    ensures Conserved(CrashStep(s))
  {
    AccountsCrash(Deliveries(s.held), AllOwed(s.tasks), Disposed(s.calls), s.lost, |s.deliveries|);
    assert Deliveries([]) == [];
  }

  lemma HandOverConserves(s: State, a: Action)
    requires Conserved(s) && TaskOk(s)
    requires a.TriggerFlush? || a.FinalFlush?
    ensures Conserved(Step(s, a))
  {
    var s' := Step(s, a);
    if s' != s {
      assert s.tasks == [];
      OwedByOne(s'.tasks);
      AccountsHandOver(Deliveries(s.held), Disposed(s.calls), s.lost, |s.deliveries|);
      assert Deliveries([]) == [];
    }
  }

  lemma DisposeConserves(s: State)
    requires Conserved(s) && TaskOk(s)
    ensures Conserved(DisposeStep(s))
  {
    if DisposeStep(s) != s {
      DisposePlaces(s);
      OwedByOne(s.tasks);
      OwedByOne(DisposeStep(s).tasks);
      AccountsDisposal(Deliveries(s.held), AllOwed(s.tasks), Disposed(s.calls), s.lost, |s.deliveries|);
    }
  }

  lemma ReportConserves(s: State)
    requires Conserved(s) && TaskOk(s)
    ensures Conserved(ReportStep(s))
  {
    hide FirstOccurrence;
    if ReportStep(s) != s {
      OwedByOne(s.tasks);
      OwedByOne(ReportStep(s).tasks);
    }
  }

  lemma InsertOrFinishConserves(s: State, a: Action)
    requires Conserved(s) && TaskOk(s)
    requires a.Insert? || a.Finish?
    ensures Conserved(Step(s, a))
  {
    var s' := Step(s, a);
    OwedByOne(s.tasks);
    OwedByOne(s'.tasks);
    if s.tasks != [] {
      assert s.tasks[0].batch[0..] == s.tasks[0].batch;
    }
  }

  /** A delivery is either terminated on the spot or joins the held batch. */
  lemma DeliverPlaces(s: State, event: Option<Row>)
    ensures var s', d := DeliverStep(s, event), |s.deliveries|;
            if Invalid(event) then Disposed(s'.calls) == Disposed(s.calls) + [d] && s'.held == s.held
            else s'.calls == s.calls && Deliveries(s'.held) == Deliveries(s.held) + [d]
  {
    DisposedAppend(s.calls, [Term(|s.deliveries|)]);
    assert Disposed([Term(|s.deliveries|)]) == [|s.deliveries|];
  }

  /** One turn of the disposal loop moves the first delivery owed to those disposed of. */
  lemma DisposePlaces(s: State)
    requires TaskOk(s) && DisposeStep(s) != s
    ensures var s' := DisposeStep(s);
            && s.tasks != [] && s.tasks[0].stage.Disposing? && s'.tasks != []
            && Owed(s.tasks[0]) != []
            && Owed(s'.tasks[0]) == Owed(s.tasks[0])[1..]
            && Disposed(s'.calls) == Disposed(s.calls) + [Owed(s.tasks[0])[0]]
  {
    var s', t := DisposeStep(s), s.tasks[0];
    var next := t.stage.next;
    var d := t.batch[next].delivery;
    var call := if t.stage.ok then Ack(d) else Nak(d);
    assert s'.calls == s.calls + [call];
    DisposedAppend(s.calls, [call]);
    assert Disposed([call]) == [d];
    OwedSuffix(t, next);
    OwedSuffix(s'.tasks[0], next + 1);
  }

  lemma OwedSuffix(t: Task, next: nat)
    requires t.stage.Disposing? && t.stage.next == next && next <= |t.batch|
    ensures Owed(t) == Deliveries(t.batch)[next..]
  {
  }

  // ---------- The single flush ----------

  lemma StepKeepsTaskOk(s: State, a: Action)
    requires TaskOk(s)
    ensures TaskOk(Step(s, a))
  {
    if a.Insert? && s.tasks != [] {
      DedupKeepsIds(Rows(s.tasks[0].batch));
      InsertedProperties(s.sink, Dedup(Rows(s.tasks[0].batch)));
    }
  }

  /** What a step that touches neither flushed nor reports must not change. */
  lemma SameReports(s: State, s': State)
    requires TaskOk(s) && ReportsOk(s)
    requires s'.flushed == s.flushed && s'.reports == s.reports && s'.reported == s.reported && s'.died == s.died
    requires s'.tasks != [] && s'.tasks[0].stage.Disposing? && s'.tasks[0].stage.ok ==>
               && s.tasks != [] && s.tasks[0].stage.Disposing? && s.tasks[0].stage.ok
               && s'.tasks[0].batch == s.tasks[0].batch && s'.tasks[0].stage.told == s.tasks[0].stage.told
    requires Reporting(s) && !Reporting(s') ==> s.tasks[0].stage.told == |s.tasks[0].batch|
    ensures ReportsOk(s')
  {
    hide Dedup, Concat;
    forall i: nat ensures ReportOk(s', i) {
      assert ReportOk(s, i);
    }
  }

  lemma ReportKeepsReports(s: State)
    requires TaskOk(s) && ReportsOk(s)
    ensures ReportsOk(ReportStep(s))
  {
    hide FirstOccurrence, Dedup, Concat;
    var s' := ReportStep(s);
    if s' != s {
      var t, last := s.tasks[0], |s.flushed| - 1;
      var i := t.stage.told;
      ReportExtends(t.batch, i);
      ConcatLast(s.reports, s'.reports[last][|s.reports[last]|..]);
      assert s'.reported == Concat(s'.reports);
      forall j: nat ensures ReportOk(s', j) {
        assert ReportOk(s, j);
      }
    }
  }

  lemma ReportExtends(batch: seq<Held>, i: nat)
    requires i < |batch|
    ensures Dedup(Rows(batch)[..i + 1]) == Dedup(Rows(batch)[..i]) + if FirstOccurrence(batch, i) then [batch[i].row] else []
  {
    var rows := Rows(batch)[..i + 1];
    assert rows[..i] == Rows(batch)[..i] == Rows(batch[..i]);
    assert rows[i] == batch[i].row;
  }

  lemma ConcatLast(lists: seq<seq<Row>>, more: seq<Row>)
    requires lists != []
    ensures Concat(lists[|lists| - 1 := lists[|lists| - 1] + more]) == Concat(lists) + more
  {
    var lists' := lists[|lists| - 1 := lists[|lists| - 1] + more];
    assert lists'[..|lists| - 1] == lists[..|lists| - 1];
  }

  lemma InsertKeepsReports(s: State, outcome: InsertOutcome)
    requires TaskOk(s) && ReportsOk(s)
    ensures ReportsOk(InsertStep(s, outcome))
  {
    hide Inserted, Concat;
    var s' := InsertStep(s, outcome);
    if s' != s {
      if outcome.Committed? {
        ConcatEmpty(s.reports);
        forall i: nat ensures ReportOk(s', i) {
          assert ReportOk(s, i);
        }
      } else {
        SameReports(s, s');
      }
    }
  }

  lemma ConcatEmpty(lists: seq<seq<Row>>)
    ensures Concat(lists + [[]]) == Concat(lists)
  {
    assert (lists + [[]])[..|lists|] == lists;
  }

  lemma CrashKeepsReports(s: State)
    requires TaskOk(s) && ReportsOk(s)
    ensures ReportsOk(CrashStep(s))
  {
    hide Dedup, Concat;
    forall i: nat ensures ReportOk(CrashStep(s), i) {
      assert ReportOk(s, i);
    }
  }

  lemma StepKeepsReports(s: State, a: Action)
    requires TaskOk(s) && ReportsOk(s)
    ensures ReportsOk(Step(s, a))
  {
    hide ReportsOk, InsertStep, ReportStep, CrashStep, FinishStep;
    match a
    case Insert(outcome) => InsertKeepsReports(s, outcome);
    case ReportNext => ReportKeepsReports(s);
    case Crash => CrashKeepsReports(s);
    case Finish => FinishKeepsReports(s);
    case _ => OtherStepsKeepReports(s, a);
  }

  lemma FinishKeepsReports(s: State)
    requires TaskOk(s) && ReportsOk(s)
    ensures ReportsOk(FinishStep(s))
  {
    hide ReportsOk, Rows;
    SameReports(s, FinishStep(s));
  }

  lemma OtherStepsKeepReports(s: State, a: Action)
    requires TaskOk(s) && ReportsOk(s)
    requires !a.Insert? && !a.ReportNext? && !a.Crash? && !a.Finish?
    ensures ReportsOk(Step(s, a))
  {
    hide ReportsOk, Dedup, Concat, Rows, Deliveries, AllOwed, InProgressCalls, FirstOccurrence;
    var s' := Step(s, a);
    assert s'.flushed == s.flushed && s'.reports == s.reports && s'.reported == s.reported && s'.died == s.died;
    SameReports(s, s');
  }

  // ---------- Stored and acked ----------

  lemma DeliverKeepsStore(s: State, event: Option<Row>)
    requires StoreOk(s)
    ensures StoreOk(DeliverStep(s, event))
  {
    var s' := DeliverStep(s, event);
    forall h | ItemOk(s, h) ensures ItemOk(s', h) {
    }
    forall c | c in s'.calls ensures AckStored(s', c) {
      assert c in s.calls ==> AckStored(s, c);
    }
    forall r | r in s'.sink ensures StoredDelivered(s', r) {
      assert StoredDelivered(s, r);
    }
  }

  lemma InsertKeepsStore(s: State, outcome: InsertOutcome)
    requires StoreOk(s) && TaskOk(s)
    ensures StoreOk(InsertStep(s, outcome))
  {
    if s.tasks != [] && s.tasks[0].stage.Inserting? {
      var s' := InsertStep(s, outcome);
      var rows := Rows(s.inFlight);
      DedupKeepsIds(rows);
      InsertedProperties(s.sink, Dedup(rows));
      forall r | r in s'.sink ensures StoredDelivered(s', r) {
        if r in s.sink {
          assert StoredDelivered(s, r);
        } else {
          assert r in rows;
          var i :| 0 <= i < |rows| && rows[i] == r;
          assert ItemOk(s, s.inFlight[i]);
        }
      }
      forall c | c in s'.calls ensures AckStored(s', c) {
        assert AckStored(s, c);
      }
    }
  }

  lemma DisposeKeepsStore(s: State)
    requires StoreOk(s) && TaskOk(s) && DisposeStep(s) != s
    ensures StoreOk(DisposeStep(s))
  {
    var s', t := DisposeStep(s), s.tasks[0];
    var i := t.stage.next;
    var d := t.batch[i].delivery;
    assert ItemOk(s, s.inFlight[i]);
    assert Rows(t.batch)[i] == t.batch[i].row;
    forall c | c in s'.calls ensures AckStored(s', c) {
      if c in s.calls {
        assert AckStored(s, c);
      } else {
        assert c == if t.stage.ok then Ack(d) else Nak(d);
      }
    }
    forall r | r in s'.sink ensures StoredDelivered(s', r) {
      assert StoredDelivered(s, r);
    }
  }

  lemma HeartbeatKeepsStore(s: State)
    requires StoreOk(s)
    ensures StoreOk(HeartbeatStep(s))
  {
    var s' := HeartbeatStep(s);
    forall c | c in s'.calls ensures AckStored(s', c) {
      assert c in s.calls ==> AckStored(s, c);
    }
  }

  lemma StepKeepsStore(s: State, a: Action)
    requires StoreOk(s) && TaskOk(s)
    ensures StoreOk(Step(s, a))
  {
    match a
    case Deliver(event) => if s.mode.Running? { DeliverKeepsStore(s, event); }
    case Insert(outcome) => InsertKeepsStore(s, outcome);
    case DisposeNext =>
      if DisposeStep(s) != s {
        DisposeKeepsStore(s);
      }
    case Heartbeat => HeartbeatKeepsStore(s);
    case _ =>
  }

  lemma {:induction false} StepKeepsInv(s: State, a: Action)
    requires Inv(s)
    ensures Inv(Step(s, a))
  {
    StepConserves(s, a);
    StepKeepsTaskOk(s, a);
    StepKeepsReports(s, a);
    StepKeepsStore(s, a);
  }

  lemma {:induction false} RunInv(actions: seq<Action>)
    ensures Inv(Run(actions))
  {
    if actions == [] {
      assert UpTo(0) == [] && Deliveries([]) == [];
    } else {
      RunInv(actions[..|actions| - 1]);
      StepKeepsInv(Run(actions[..|actions| - 1]), actions[|actions| - 1]);
    }
  }

  // ---------- The promises ----------

  /** Each delivery is held, owed by a flush, disposed of, or lost in a crash: one of these, once. */
  lemma {:induction false} EveryDeliveryIsInOnePlace(actions: seq<Action>, d: nat)
    ensures var s := Run(actions);
            multiset(Deliveries(s.held))[d] + multiset(AllOwed(s.tasks))[d] +
            multiset(Disposed(s.calls))[d] + multiset(s.lost)[d]
            == if d < |s.deliveries| then 1 else 0
  {
    RunInv(actions);
    var s := Run(actions);
    UpToHasEachOnce(|s.deliveries|, d);
    assert multiset(UpTo(|s.deliveries|))[d] ==
           (multiset(Deliveries(s.held)) + multiset(AllOwed(s.tasks)) + multiset(Disposed(s.calls)) + multiset(s.lost))[d];
  }

  // ---------- Which deliveries are terminated ----------

  /** What handleMsg may throw away: a payload that does not decode, or an event that names no request. */
  predicate Garbage(event: Option<Row>) {
    match event
    case None => true
    case Some(row) => |row.reqId| == 0
  }

  /** The deliveries of the calls that say done, or later. */
  function Settled(calls: seq<Call>): seq<nat> {
    if calls == [] then []
    else
      var last := calls[|calls| - 1];
      Settled(calls[..|calls| - 1]) + if last.Ack? || last.Nak? then [last.delivery] else []
  }

  lemma {:induction false} SettledOrTerminated(calls: seq<Call>, d: nat)
    ensures multiset(Settled(calls))[d] <= multiset(Disposed(calls))[d]
    ensures Term(d) in calls <==> multiset(Settled(calls))[d] < multiset(Disposed(calls))[d]
  {
    if calls != [] {
      var n := |calls| - 1;
      SettledOrTerminated(calls[..n], d);
      assert calls == calls[..n] + [calls[n]];
    }
  }

  ghost predicate TermsOk(s: State) {
    forall d: nat :: Term(d) in s.calls <==> d < |s.deliveries| && Garbage(s.deliveries[d])
  }

  lemma DeliverKeepsTerms(s: State, event: Option<Row>)
    requires TermsOk(s)
    ensures TermsOk(DeliverStep(s, event))
  {
    var s' := DeliverStep(s, event);
    forall d: nat ensures Term(d) in s'.calls <==> d < |s'.deliveries| && Garbage(s'.deliveries[d]) {
      assert Term(d) in s.calls <==> d < |s.deliveries| && Garbage(s.deliveries[d]);
    }
  }

  /** No other step terminates anything. */
  lemma OthersTerminateNothing(s: State, a: Action, d: nat)
    requires !a.Deliver?
    ensures Step(s, a).deliveries == s.deliveries
    ensures Term(d) in Step(s, a).calls <==> Term(d) in s.calls
  {
    hide Inserted, Dedup, Rows, Deliveries, FirstOccurrence;
  }

  lemma {:induction false} RunTerms(actions: seq<Action>)
    ensures TermsOk(Run(actions))
  {
    hide Step, DeliverStep;
    if actions != [] {
      var s, a := Run(actions[..|actions| - 1]), actions[|actions| - 1];
      RunTerms(actions[..|actions| - 1]);
      if a.Deliver? {
        DeliverKeepsTerms(s, a.event);
        assert Step(s, a) == DeliverStep(s, a.event) || Step(s, a) == s by { DeliverIsDeliverStep(s, a); }
      } else {
        forall d: nat ensures Term(d) in Step(s, a).calls <==> d < |Step(s, a).deliveries| && Garbage(Step(s, a).deliveries[d]) {
          OthersTerminateNothing(s, a, d);
        }
      }
    }
  }

  lemma DeliverIsDeliverStep(s: State, a: Action)
    requires a.Deliver?
    ensures Step(s, a) == DeliverStep(s, a.event) || Step(s, a) == s
  {
  }

  /**
   In every run exactly the garbage is terminated. Every other delivery is, once, in one of these
   places: held, owed a call by a flush, acked or nak'd, or lost in a crash.
   */
  lemma OnlyGarbageIsTerminated(actions: seq<Action>, d: nat)
    requires d < |Run(actions).deliveries|
    ensures var s := Run(actions);
            && (Term(d) in s.calls <==> s.deliveries[d].None? || s.deliveries[d].value.reqId == "")
            && multiset(Deliveries(s.held))[d] + multiset(AllOwed(s.tasks))[d] + multiset(Settled(s.calls))[d] + multiset(s.lost)[d]
               == if s.deliveries[d].None? || s.deliveries[d].value.reqId == "" then 0 else 1
  {
    hide Run;
    RunTerms(actions);
    EveryDeliveryIsInOnePlace(actions, d);
    SettledOrTerminated(Run(actions).calls, d);
  }

  /** At most one flush runs, flushing says so, and inFlight is its whole batch. */
  lemma AtMostOneFlush(actions: seq<Action>)
    ensures var s := Run(actions);
            && |s.tasks| <= 1
            && (s.flushing <==> s.tasks != [] && !s.tasks[0].final)
            && s.inFlight == if s.tasks == [] then [] else s.tasks[0].batch
  {
    RunInv(actions);
  }

  /** A heartbeat reaches every delivery that is held or that a flush still owes a call. */
  lemma HeartbeatsCoverTheUndisposed(actions: seq<Action>, d: nat)
    requires d in Deliveries(Run(actions).held) || d in AllOwed(Run(actions).tasks)
    requires Run(actions).mode.Running?
    ensures InProgress(d) in Step(Run(actions), Heartbeat).calls[|Run(actions).calls|..]
  {
    hide InProgressCalls, AllOwed, Owed, Deliveries, Run, Conserved, ReportsOk, StoreOk;
    RunInv(actions);
    var s := Run(actions);
    OwedByOne(s.tasks);
    var i := PositionOf(s.held, s.tasks, s.inFlight, d);
    HeartbeatReaches(s.calls, s.held + s.inFlight, i);
  }

  lemma HeartbeatReaches(calls: seq<Call>, batch: seq<Held>, i: nat)
    requires i < |batch|
    ensures InProgress(batch[i].delivery) in (calls + InProgressCalls(batch))[|calls|..]
  {
    assert InProgressCalls(batch)[i] == InProgress(batch[i].delivery);
    assert (calls + InProgressCalls(batch))[|calls|..] == InProgressCalls(batch);
  }

  lemma PositionOf(held: seq<Held>, tasks: seq<Task>, inFlight: seq<Held>, d: nat) returns (i: nat)
    requires |tasks| <= 1 && (tasks != [] ==> inFlight == tasks[0].batch)
    requires d in Deliveries(held) || (tasks != [] && d in Owed(tasks[0]))
    ensures i < |held + inFlight| && (held + inFlight)[i].delivery == d
  {
    if d in Deliveries(held) {
      i :| 0 <= i < |held| && Deliveries(held)[i] == d;
    } else {
      var owed := Owed(tasks[0]);
      var j :| 0 <= j < |owed| && owed[j] == d;
      i := |held| + j + |inFlight| - |owed|;
    }
  }

  /** Ack comes only after insert, and the sink never holds two rows for one request. */
  lemma AckedMeansStoredOnce(actions: seq<Action>, d: nat)
    requires Ack(d) in Run(actions).calls
    ensures var s := Run(actions);
            && d < |s.deliveries| && s.deliveries[d].Some?
            && s.deliveries[d].value.reqId in Ids(s.sink)
            && DistinctIds(s.sink)
  {
    RunInv(actions);
    assert AckStored(Run(actions), Ack(d));
  }

  /**
   At every moment, flush under way or not: OnRow was given, batch by batch, the first occurrences
   among the messages it was told of. That is all of a committed batch's first occurrences iff no
   first occurrence lies after the point the loop has reached, or at which the process died; so always
   for a batch that ran to its end.
   */
  lemma ReportsMatchFlushes(actions: seq<Action>, i: nat)
    requires i < |Run(actions).flushed|
    ensures var s := Run(actions);
            var (batch, told) := (s.flushed[i], Told(s, i));
            && |s.reports| == |s.flushed| && s.reported == Concat(s.reports)
            && told <= |batch|
            && s.reports[i] == Dedup(batch[..told]) <= Dedup(batch)
            && (s.reports[i] == Dedup(batch) <==> Ids(batch[..told]) == Ids(batch))
            && (i in s.died ==> told == s.died[i] < |batch|)
            && (i !in s.died && !(Reporting(s) && i == |s.flushed| - 1) ==> s.reports[i] == Dedup(batch))
  {
    RunInv(actions);
    var s := Run(actions);
    assert ReportOk(s, i);
    DedupOfPrefix(s.flushed[i], Told(s, i));
    assert s.flushed[i][..|s.flushed[i]|] == s.flushed[i];
  }

  /** Deduplicating a front gives a front, the whole iff no id is missing from it. */
  lemma {:induction false} DedupOfPrefix(rows: seq<Row>, n: nat)
    requires n <= |rows|
    ensures Dedup(rows[..n]) <= Dedup(rows)
    ensures Ids(rows[..n]) <= Ids(rows)
    ensures Dedup(rows[..n]) == Dedup(rows) <==> Ids(rows[..n]) == Ids(rows)
  {
    if n == |rows| {
      assert rows[..n] == rows;
    } else {
      var init, last := rows[..|rows| - 1], rows[|rows| - 1];
      DedupOfPrefix(init, n);
      assert init[..n] == rows[..n];
      assert rows == init + [last];
      IdsOfAppend(init, last);
      assert |Dedup(rows[..n])| <= |Dedup(init)| <= |Dedup(rows)|;
    }
  }

  /** The record of batch i in s' is what it was in s. */
  predicate SameRecord(s: State, s': State, i: nat) {
    && i < |s.reports| == |s.flushed| <= |s'.reports| == |s'.flushed|
    && s'.reports[i] == s.reports[i] && s'.flushed[i] == s.flushed[i]
    && i in s.died && i in s'.died && s'.died[i] == s.died[i]
  }

  lemma StepKeepsDead(s: State, a: Action, i: nat)
    requires ReportsOk(s) && i in s.died
    ensures SameRecord(s, Step(s, a), i)
  {
    hide ReportOk, Dedup, Rows, Concat, Inserted, FirstOccurrence, Deliveries, AllOwed, InProgressCalls;
  }

  /** What a crash leaves of a batch's reports is never added to. */
  lemma DeadReportsAreFinal(actions: seq<Action>, a: Action, i: nat)
    requires i in Run(actions).died
    ensures SameRecord(Run(actions), Run(actions + [a]), i)
  {
    hide Step, SameRecord, ReportsOk;
    RunInv(actions);
    assert (actions + [a])[..|actions|] == actions;
    StepKeepsDead(Run(actions), a, i);
  }

  predicate Acknowledged(s: State, id: string) {
    exists d: nat :: d < |s.deliveries| && s.deliveries[d].Some? && s.deliveries[d].value.reqId == id && Ack(d) in s.calls
  }

  /**
   However deliveries were duplicated, batched, failed, nak'd or lost: once every event has been
   acked, the sink's month-to-date total counts each event exactly once.
   */
  lemma AckedEventsAreCountedOnce(actions: seq<Action>, events: set<string>, payload: string -> Row, keyId: string, month: string)
    requires forall d :: 0 <= d < |Run(actions).deliveries| && Run(actions).deliveries[d].Some? ==>
               var row := Run(actions).deliveries[d].value;
               row == payload(row.reqId) && (row.reqId != "" ==> row.reqId in events)
    requires forall id :: id in events ==> Acknowledged(Run(actions), id)
    ensures MonthToDate(Run(actions).sink, keyId, month) == TotalOver(events, payload, keyId, month)
  {
    RunInv(actions);
    var s := Run(actions);
    forall r | r in s.sink ensures r == payload(r.reqId) && r.reqId in events {
      assert StoredDelivered(s, r);
    }
    forall id | id in events ensures id in Ids(s.sink) {
      var d: nat :| d < |s.deliveries| && s.deliveries[d].Some? && s.deliveries[d].value.reqId == id && Ack(d) in s.calls;
      assert AckStored(s, Ack(d));
    }
    forall id | id in Ids(s.sink) ensures id in events {
      var i :| 0 <= i < |s.sink| && s.sink[i].reqId == id;
      assert s.sink[i] in s.sink;
    }
    assert Ids(s.sink) == events;
    MonthToDateCountsEachRequestOnce(s.sink, payload, keyId, month);
  }

  lemma StepKeepsLost(s: State, a: Action)
    ensures |s.deliveries| <= |Step(s, a).deliveries|
    ensures !a.Crash? ==> Step(s, a).lost == s.lost
  {
    hide Inserted, Dedup, Rows, Deliveries, InProgressCalls, FirstOccurrence;
  }

  lemma {:induction false} OnlyCrashesLose(before: seq<Action>, since: seq<Action>)
    requires Crash !in since
    ensures Run(before + since).lost == Run(before).lost
    ensures |Run(before).deliveries| <= |Run(before + since).deliveries|
  {
    hide Step;
    if since == [] {
      assert before + since == before;
    } else {
      var init, last := since[..|since| - 1], since[|since| - 1];
      OnlyCrashesLose(before, init);
      assert (before + since)[..|before + since| - 1] == before + init;
      assert last in since;
      StepKeepsLost(Run(before + init), last);
    }
  }

  /**
   Whatever crashed earlier: when Run returns from a shutdown nothing is left, each delivery since the
   last crash got exactly one Ack, Nak or Term, and each older one got one too unless a crash lost it,
   which happened once.
   */
  lemma ShutdownLeavesNothing(before: seq<Action>, since: seq<Action>, d: nat)
    requires Run(before + since).mode.Returned? && Crash !in since
    ensures var s, lost := Run(before + since), Run(before).lost;
            && s.held == [] && s.inFlight == [] && s.tasks == []
            && multiset(Disposed(s.calls))[d] + multiset(lost)[d] == (if d < |s.deliveries| then 1 else 0)
            && (d >= |Run(before).deliveries| ==> d !in lost)
  {
    hide Run, Step;
    RunInv(before + since);
    OnlyCrashesLose(before, since);
    EveryDeliveryIsInOnePlace(before, d);
    EveryDeliveryIsInOnePlace(before + since, d);
  }

  // ---------- How often a request is reported ----------

  function Occurrences(rows: seq<Row>, id: string): nat {
    if rows == [] then 0
    else Occurrences(rows[..|rows| - 1], id) + if rows[|rows| - 1].reqId == id then 1 else 0
  }

  lemma {:induction false} OccurrencesAdd(rows: seq<Row>, more: seq<Row>, id: string)
    ensures Occurrences(rows + more, id) == Occurrences(rows, id) + Occurrences(more, id)
  {
    if more == [] {
      assert rows + more == rows;
    } else {
      OccurrencesAdd(rows, more[..|more| - 1], id);
      assert (rows + more)[..|rows + more| - 1] == rows + more[..|more| - 1];
    }
  }

  lemma {:induction false} DedupOccurrences(rows: seq<Row>, id: string)
    ensures Occurrences(Dedup(rows), id) == if id in Ids(rows) then 1 else 0
  {
    if rows != [] {
      var init, last := rows[..|rows| - 1], rows[|rows| - 1];
      DedupOccurrences(init, id);
      assert init + [last] == rows;
      IdsOfAppend(init, last);
      OccurrencesAdd(Dedup(init), if last.reqId in Ids(init) then [] else [last], id);
    }
  }

  /** What each committed batch was told of. */
  function ToldOf(s: State): seq<seq<Row>>
    requires forall i: nat :: i < |s.flushed| ==> Told(s, i) <= |s.flushed[i]|
  {
    seq(|s.flushed|, i requires 0 <= i < |s.flushed| => s.flushed[i][..Told(s, i)])
  }

  function Telling(told: seq<seq<Row>>, id: string): set<nat> {
    set i: nat | i < |told| && id in Ids(told[i])
  }

  lemma {:induction false} OccurrencesOfReports(told: seq<seq<Row>>, reports: seq<seq<Row>>, id: string)
    requires |told| == |reports| && forall i :: 0 <= i < |told| ==> reports[i] == Dedup(told[i])
    ensures Occurrences(Concat(reports), id) == |Telling(told, id)|
  {
    hide Dedup, Ids;
    if told != [] {
      var n := |told| - 1;
      OccurrencesOfReports(told[..n], reports[..n], id);
      OccurrencesAdd(Concat(reports[..n]), reports[n], id);
      DedupOccurrences(told[n], id);
      assert Telling(told, id) == Telling(told[..n], id) + if id in Ids(told[n]) then {n} else {};
    }
  }

  /**
   OnRow is given a request once for every committed batch told of it, so more than once exactly when
   two committed batches were, though the sink never holds more than one row for it.
   */
  lemma ReportedOncePerBatch(actions: seq<Action>, id: string)
    ensures var s := Run(actions);
            && (forall i: nat :: i < |s.flushed| ==> Told(s, i) <= |s.flushed[i]|)
            && var telling := Telling(ToldOf(s), id);
            && Occurrences(s.reported, id) == |telling|
            && (Occurrences(s.reported, id) > 1 <==> exists i, j :: i in telling && j in telling && i < j)
  {
    hide Run, Told, Ids, Conserved, TaskOk, StoreOk, Dedup, Concat;
    RunInv(actions);
    var s := Run(actions);
    forall i: nat | i < |s.flushed| ensures Told(s, i) <= |s.flushed[i]| && s.reports[i] == Dedup(s.flushed[i][..Told(s, i)]) {
      assert ReportOk(s, i);
    }
    OccurrencesOfReports(ToldOf(s), s.reports, id);
    MoreThanOne(Telling(ToldOf(s), id));
  }

  lemma MoreThanOne(indices: set<nat>)
    ensures |indices| > 1 <==> exists i, j :: i in indices && j in indices && i < j
  {
    if i :| i in indices {
      var rest := indices - {i};
      assert |indices| == |rest| + 1;
      if j :| j in rest {
        assert |rest| == |rest - {j}| + 1;
        assert i < j || j < i;
      }
    }
  }
}
