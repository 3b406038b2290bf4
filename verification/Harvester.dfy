/**
 The harvester as the object the program runs: held, inFlight and flushing are updated by its
 methods, and doFlush walks the batch twice. Each method computes what the steps of
 HarvesterModel.dfy say; FlushStepsAreDoFlush shows that the steps of one flush, taken to the end,
 are the whole of DoFlush.
 */
module Harvester {
  import opened Sink
  import opened Wrappers
  import opened HarvesterModel

  function AckOf(h: Held, ok: bool): Call {
    if ok then Ack(h.delivery) else Nak(h.delivery)
  }

  /** doFlush's calls on the first n messages of a batch. */
  function DisposalCalls(batch: seq<Held>, ok: bool, n: nat): seq<Call>
    requires n <= |batch|
  {
    seq(n, i requires 0 <= i < n => AckOf(batch[i], ok))
  }

  /** One call per message, in order: all acked if the insert succeeded, all nak'd if not. */
  predicate AllDisposed(batch: seq<Held>, ok: bool, calls: seq<Call>) {
    && |calls| == |batch|
    && (forall i :: 0 <= i < |batch| && ok ==> calls[i] == Ack(batch[i].delivery))
    && (forall i :: 0 <= i < |batch| && !ok ==> calls[i] == Nak(batch[i].delivery))
  }

  class Harvester {
    var held: seq<Held>
    var inFlight: seq<Held>
    var flushing: bool
    /** The calls made on messages and the rows given to OnRow, in order. */
    var calls: seq<Call>
    var reported: seq<Row>
    const sink: FakeSink
    const batchMaxEvents: nat

    constructor (sink: FakeSink, batchMaxEvents: nat)
      ensures held == [] && inFlight == [] && !flushing && calls == [] && reported == []
      ensures this.sink == sink && this.batchMaxEvents == batchMaxEvents
    {
      held, inFlight, flushing, calls, reported := [], [], false, [], [];
      this.sink, this.batchMaxEvents := sink, batchMaxEvents;
    }

    /** Handles delivery d; the batch is what a flush goroutine is started on, if any. */
    method HandleMsg(d: nat, event: Option<Row>) returns (batch: seq<Held>)
      modifies this
      ensures reported == old(reported)
      ensures Invalid(event) ==>
                batch == [] && calls == old(calls) + [Term(d)]
                && held == old(held) && inFlight == old(inFlight) && flushing == old(flushing)
      ensures !Invalid(event) ==>
                var now := old(held) + [Held(d, event.value)];
                && calls == old(calls)
                && if |now| >= batchMaxEvents && !old(flushing)
                   then batch == now && held == [] && inFlight == now && flushing
                   else batch == [] && held == now && inFlight == old(inFlight) && flushing == old(flushing)
    {
      batch := [];
      if event.None? || event.value.reqId == "" {
        calls := calls + [Term(d)];
        return;
      }
      held := held + [Held(d, event.value)];
      if |held| >= batchMaxEvents {
        batch := TriggerFlush();
      }
    }

    method TriggerFlush() returns (batch: seq<Held>)
      modifies this`held, this`inFlight, this`flushing
      ensures if old(held) == [] || old(flushing)
              then batch == [] && held == old(held) && inFlight == old(inFlight) && flushing == old(flushing)
              else batch == old(held) && held == [] && inFlight == batch && flushing
    {
      if |held| == 0 || flushing {
        return [];
      }
      batch := held;
      held, inFlight, flushing := [], batch, true;
    }

    method DoFlush(batch: seq<Held>, outcome: InsertOutcome)
      modifies this`calls, this`reported, sink
      ensures sink.rows == if outcome.FailedBefore? then old(sink.rows)
                           else Inserted(old(sink.rows), Dedup(Rows(batch)))
      ensures calls == old(calls) + DisposalCalls(batch, outcome.Committed?, |batch|)
      ensures AllDisposed(batch, outcome.Committed?, calls[|old(calls)|..])
      ensures reported == old(reported) + if outcome.Committed? then Dedup(Rows(batch)) else []
    {
      var rows, firstOccurrence := DedupBatch(batch);
      var ok := sink.InsertBatch(rows, outcome);
      DisposeBatch(batch, firstOccurrence, ok);
    }

    /** doFlush's first loop. */
    method DedupBatch(batch: seq<Held>) returns (rows: seq<Row>, firstOccurrence: seq<bool>)
      ensures rows == Dedup(Rows(batch))
      ensures |firstOccurrence| == |batch|
      ensures forall j :: 0 <= j < |batch| ==> firstOccurrence[j] == FirstOccurrence(batch, j)
    {
      var seen: set<string> := {};
      rows, firstOccurrence := [], [];
      for i := 0 to |batch|
        invariant seen == Ids(Rows(batch[..i])) && rows == Dedup(Rows(batch[..i]))
        invariant |firstOccurrence| == i
        invariant forall j :: 0 <= j < i ==> firstOccurrence[j] == FirstOccurrence(batch, j)
      {
        RowsOfNext(batch, i);
        IdsOfAppend(Rows(batch[..i]), batch[i].row);
        if batch[i].row.reqId in seen {
          firstOccurrence := firstOccurrence + [false];
        } else {
          seen := seen + {batch[i].row.reqId};
          firstOccurrence := firstOccurrence + [true];
          rows := rows + [batch[i].row];
        }
      }
      assert batch[..|batch|] == batch;
    }

    /** doFlush after the sink's answer: nak everything, or ack it and report first occurrences. */
    method DisposeBatch(batch: seq<Held>, firstOccurrence: seq<bool>, ok: bool)
      requires |firstOccurrence| == |batch|
      requires forall j :: 0 <= j < |batch| ==> firstOccurrence[j] == FirstOccurrence(batch, j)
      modifies this`calls, this`reported
      ensures calls == old(calls) + DisposalCalls(batch, ok, |batch|)
      ensures reported == old(reported) + if ok then Dedup(Rows(batch)) else []
    {
      for i := 0 to |batch|
        invariant calls == old(calls) + DisposalCalls(batch, ok, i)
        invariant reported == old(reported) + if ok then Dedup(Rows(batch[..i])) else []
      {
        RowsOfNext(batch, i);
        DisposalCallsNext(batch, ok, i);
        if !ok {
          calls := calls + [Nak(batch[i].delivery)];
        } else {
          calls := calls + [Ack(batch[i].delivery)];
          if firstOccurrence[i] {
            reported := reported + [batch[i].row];
          }
        }
      }
      assert batch[..|batch|] == batch;
    }

    /** The end of a flush goroutine. */
    method FlushDone()
      modifies this`inFlight, this`flushing
      ensures inFlight == [] && !flushing
    {
      inFlight, flushing := [], false;
    }

    method FinalFlush(outcome: InsertOutcome)
      modifies this`held, this`inFlight, this`calls, this`reported, sink
      ensures held == []
      ensures old(held) == [] ==>
                inFlight == old(inFlight) && calls == old(calls) && reported == old(reported) && sink.rows == old(sink.rows)
      ensures old(held) != [] ==>
                && inFlight == []
                && calls == old(calls) + DisposalCalls(old(held), outcome.Committed?, |old(held)|)
                && reported == old(reported) + (if outcome.Committed? then Dedup(Rows(old(held))) else [])
                && sink.rows == if outcome.FailedBefore? then old(sink.rows)
                                else Inserted(old(sink.rows), Dedup(Rows(old(held))))
    {
      if |held| == 0 {
        return;
      }
      var batch := held;
      held, inFlight := [], batch;
      DoFlush(batch, outcome);
      inFlight := [];
    }

    method HeartbeatHeld()
      modifies this`calls
      ensures calls == old(calls) + InProgressCalls(held + inFlight)
    {
      var snapshot := held + inFlight;
      for i := 0 to |snapshot|
        invariant calls == old(calls) + InProgressCalls(snapshot[..i])
      {
        assert InProgressCalls(snapshot[..i + 1]) == InProgressCalls(snapshot[..i]) + [InProgress(snapshot[i].delivery)];
        calls := calls + [InProgress(snapshot[i].delivery)];
      }
      assert snapshot[..|snapshot|] == snapshot;
    }
  }

  /** A delivery, and the flush it starts if the batch is full, leave what HandleMsg leaves. */
  lemma HandleMsgIsSteps(s: State, event: Option<Row>, batchMaxEvents: nat)
    ensures var delivered := DeliverStep(s, event);
            var s' := if delivered.held != s.held && |delivered.held| >= batchMaxEvents then TriggerFlushStep(delivered) else delivered;
            && s'.reported == s.reported && s'.sink == s.sink
            && (Invalid(event) ==>
                  && s'.calls == s.calls + [Term(|s.deliveries|)]
                  && s'.held == s.held && s'.inFlight == s.inFlight && s'.flushing == s.flushing && s'.tasks == s.tasks)
            && (!Invalid(event) ==>
                  var now := s.held + [Held(|s.deliveries|, event.value)];
                  && s'.calls == s.calls
                  && if |now| >= batchMaxEvents && !s.flushing
                     then s'.held == [] && s'.inFlight == now && s'.flushing && s'.tasks == s.tasks + [Task(now, false, Inserting)]
                     else s'.held == now && s'.inFlight == s.inFlight && s'.flushing == s.flushing && s'.tasks == s.tasks)
  {
  }

  lemma RowsOfNext(batch: seq<Held>, i: nat)
    requires i < |batch|
    ensures Rows(batch[..i + 1]) == Rows(batch[..i]) + [batch[i].row]
    ensures Dedup(Rows(batch[..i + 1])) ==
            Dedup(Rows(batch[..i])) + if FirstOccurrence(batch, i) then [batch[i].row] else []
  {
    assert Rows(batch[..i + 1])[..i] == Rows(batch[..i]);
  }

  lemma DisposalCallsNext(batch: seq<Held>, ok: bool, i: nat)
    requires i < |batch|
    ensures DisposalCalls(batch, ok, i + 1) == DisposalCalls(batch, ok, i) + [AckOf(batch[i], ok)]
  {
  }

  /** k turns of the disposal loop. */
  function DisposeMany(s: State, k: nat): State {
    if k == 0 then s else ReportStep(DisposeStep(DisposeMany(s, k - 1)))
  }

  /** s after k disposals of its first task's batch. */
  ghost predicate Disposed(s: State, k: nat, s': State)
    requires s.tasks != [] && s.tasks[0].stage.Disposing? && k <= |s.tasks[0].batch|
  {
    var t := s.tasks[0];
    && s'.tasks != [] && s'.tasks[0] == t.(stage := Disposing(t.stage.ok, k, if t.stage.ok then k else 0))
    && s'.tasks[1..] == s.tasks[1..] && s'.held == s.held && s'.mode == s.mode && s'.waiting == s.waiting
    && s'.sink == s.sink && (t.stage.ok ==> s'.reports != [])
    && s'.calls == s.calls + DisposalCalls(t.batch, t.stage.ok, k)
    && s'.reported == s.reported + if t.stage.ok then Dedup(Rows(t.batch[..k])) else []
  }

  lemma DisposedNext(s: State, k: nat, s': State)
    requires s.tasks != [] && s.tasks[0].stage.Disposing? && k < |s.tasks[0].batch|
    requires Disposed(s, k, s')
    ensures Disposed(s, k + 1, ReportStep(DisposeStep(s')))
  {
    hide FirstOccurrence, Dedup, Rows, DisposalCalls;
    var t, s'' := s.tasks[0], ReportStep(DisposeStep(s'));
    var report := if t.stage.ok && FirstOccurrence(t.batch, k) then [t.batch[k].row] else [];
    assert s''.reported == s'.reported + report;
    assert s''.calls == s'.calls + [AckOf(t.batch[k], t.stage.ok)];
    DisposalCallsNext(t.batch, t.stage.ok, k);
    RowsOfNext(t.batch, k);
    assert s''.calls == s.calls + DisposalCalls(t.batch, t.stage.ok, k + 1);
    assert s''.reported == s.reported + (if t.stage.ok then Dedup(Rows(t.batch[..k + 1])) else []);
  }

  lemma {:induction false} DisposeManyCalls(s: State, k: nat)
    requires s.tasks != [] && s.tasks[0].stage.Disposing? && s.tasks[0].stage.next == s.tasks[0].stage.told == 0
    requires k <= |s.tasks[0].batch| && (s.tasks[0].stage.ok ==> s.reports != [])
    ensures Disposed(s, k, DisposeMany(s, k))
  {
    if k == 0 {
      assert Rows(s.tasks[0].batch[..0]) == [];
    } else {
      DisposeManyCalls(s, k - 1);
      DisposedNext(s, k - 1, DisposeMany(s, k - 1));
    }
  }

  /** A flush's steps taken to the end leave exactly what DoFlush leaves. */
  lemma FlushStepsAreDoFlush(s: State, outcome: InsertOutcome)
    requires s.tasks != [] && s.tasks[0].stage.Inserting?
    ensures var batch := s.tasks[0].batch;
            var s' := DisposeMany(InsertStep(s, outcome), |batch|);
            && s'.sink == (if outcome.FailedBefore? then s.sink else Inserted(s.sink, Dedup(Rows(batch))))
            && s'.calls == s.calls + DisposalCalls(batch, outcome.Committed?, |batch|)
            && AllDisposed(batch, outcome.Committed?, s'.calls[|s.calls|..])
            && s'.reported == s.reported + if outcome.Committed? then Dedup(Rows(batch)) else []
  {
    var batch := s.tasks[0].batch;
    DisposeManyCalls(InsertStep(s, outcome), |batch|);
    assert batch[..|batch|] == batch;
  }

  /** After that the flush ends as FlushDone leaves it. */
  lemma FlushEnds(s: State, outcome: InsertOutcome)
    requires s.tasks != [] && s.tasks[0].stage.Inserting?
    ensures var s' := FinishStep(DisposeMany(InsertStep(s, outcome), |s.tasks[0].batch|));
            && s'.tasks == s.tasks[1..] && s'.inFlight == [] && s'.held == s.held
            && (!s.tasks[0].final ==> !s'.flushing && s'.mode == s.mode)
            && (s.tasks[0].final ==> s'.mode.FinalFlushed?)
  {
    hide Dedup, Rows, FirstOccurrence;
    DisposeManyCalls(InsertStep(s, outcome), |s.tasks[0].batch|);
  }

  /** A shutdown with no flush running comes to its end, whatever the last insert's outcome, and disposes of what is held. */
  lemma ShutdownReturns(s: State, outcome: InsertOutcome)
    requires s.mode.Running? && s.tasks == [] && s.waiting == 0
    ensures var s1 := FinalFlushStep(DrainStep(StopConsumerStep(s)));
            if s.held == [] then ReturnStep(s1).mode.Returned? && s1.calls == s.calls
            else
              && s1.tasks != [] && s1.tasks[0].stage.Inserting? && s1.tasks[0].batch == s.held
              && var s2 := DisposeMany(InsertStep(s1, outcome), |s.held|);
                 && s.calls <= s2.calls && AllDisposed(s.held, outcome.Committed?, s2.calls[|s.calls|..])
                 && ReturnStep(FinishStep(s2)).mode.Returned? && ReturnStep(FinishStep(s2)).held == []
  {
    hide Dedup, Rows, FirstOccurrence, InsertStep, FinishStep, DisposeMany, AllDisposed;
    if s.held != [] {
      var s1 := FinalFlushStep(DrainStep(StopConsumerStep(s)));
      FlushStepsAreDoFlush(s1, outcome);
      FlushEnds(s1, outcome);
    }
  }
}
