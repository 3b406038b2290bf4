/**
 The harvester's batching protocol as a state machine (internal/harvester/harvester.go): a message
 is delivered, held, handed to a flush, and disposed of by one Ack, Nak or Term. Every lock release
 and every sink or broker call is a step of its own, so a crash or another delivery may fall
 between any two.
 */
module HarvesterModel {
  import opened Sink
  import opened Wrappers

  /** A held message: the delivery it came from and its decoded row. */
  datatype Held = Held(delivery: nat, row: Row)

  datatype Call = Ack(delivery: nat) | Nak(delivery: nat) | Term(delivery: nat) | InProgress(delivery: nat)
  {
    predicate Disposes() {
      !InProgress?
    }
  }

  /** doFlush's progress: next messages acked or nak'd, and the OnRow decision made for told of them. */
  datatype Stage = Inserting | Disposing(ok: bool, next: nat, told: nat)

  /** A flush goroutine, or the shutdown's own flush (final). */
  datatype Task = Task(batch: seq<Held>, final: bool, stage: Stage)

  /** Run's shutdown, one blocking call after the other. */
  datatype Mode = Running | ConsumerStopped | Drained | FinalFlushing | FinalFlushed | Returned

  /**
   held, inFlight, flushing and waiting (the flush wait group's counter) are the object's fields. The
   rest is history: what was delivered, lost and called, every row OnRow was given, the batches whose
   insert was committed, the reports made for each of them, and for those the process died in, how
   far it had come.
   */
  datatype State = State(
    held: seq<Held>,
    inFlight: seq<Held>,
    flushing: bool,
    waiting: nat,
    tasks: seq<Task>,
    mode: Mode,
    deliveries: seq<Option<Row>>,
    lost: seq<nat>,
    calls: seq<Call>,
    reported: seq<Row>,
    flushed: seq<seq<Row>>,
    reports: seq<seq<Row>>,
    died: map<nat, nat>,
    sink: seq<Row>)

  const START := State([], [], false, 0, [], Running, [], [], [], [], [], [], map[], [])

  /** A decoded event; None is an undecodable payload. */
  datatype Action =
    | Deliver(event: Option<Row>)
    | TriggerFlush
    | Insert(outcome: InsertOutcome)
    | DisposeNext
    | ReportNext
    | Finish
    | Heartbeat
    | StopConsumer
    | Drain
    | FinalFlush
    | Return
    | Crash

  function Rows(batch: seq<Held>): seq<Row> {
    seq(|batch|, i requires 0 <= i < |batch| => batch[i].row)
  }

  function Deliveries(batch: seq<Held>): seq<nat> {
    seq(|batch|, i requires 0 <= i < |batch| => batch[i].delivery)
  }

  predicate Invalid(event: Option<Row>) {
    event.None? || event.value.reqId == ""
  }

  /** handleMsg up to its unlock: terminate garbage, hold everything else. */
  function DeliverStep(s: State, event: Option<Row>): State {
    var d := |s.deliveries|;
    var s' := s.(deliveries := s.deliveries + [event]);
    if Invalid(event) then s'.(calls := s.calls + [Term(d)])
    else s'.(held := s.held + [Held(d, event.value)])
  }

  function TriggerFlushStep(s: State): State {
    if s.held == [] || s.flushing then s
    else
      s.(held := [], inFlight := s.held, flushing := true, waiting := s.waiting + 1,
         tasks := s.tasks + [Task(s.held, false, Inserting)])
  }

  /** doFlush's sink call, made with the batch's first occurrences only. */
  function InsertStep(s: State, outcome: InsertOutcome): State {
    if s.tasks == [] || !s.tasks[0].stage.Inserting? then s
    else
      var rows := Dedup(Rows(s.tasks[0].batch));
      s.(tasks := s.tasks[0 := s.tasks[0].(stage := Disposing(outcome.Committed?, 0, 0))],
         flushed := if outcome.Committed? then s.flushed + [Rows(s.tasks[0].batch)] else s.flushed,
         reports := if outcome.Committed? then s.reports + [[]] else s.reports,
         sink := if outcome.FailedBefore? then s.sink else Inserted(s.sink, rows))
  }

  predicate FirstOccurrence(batch: seq<Held>, i: nat)
    requires i < |batch|
  {
    batch[i].row.reqId !in Ids(Rows(batch[..i]))
  }

  /** doFlush's last loop, first half of a turn: ack or nak the next message. */
  function DisposeStep(s: State): State {
    if s.tasks == [] || s.tasks[0].stage.Inserting? || s.tasks[0].stage.next >= |s.tasks[0].batch|
       || (s.tasks[0].stage.ok && s.tasks[0].stage.told != s.tasks[0].stage.next)
    then s
    else
      var t := s.tasks[0];
      var i := t.stage.next;
      var d := t.batch[i].delivery;
      s.(tasks := s.tasks[0 := t.(stage := t.stage.(next := i + 1))],
         calls := s.calls + [if t.stage.ok then Ack(d) else Nak(d)])
  }

  /** Second half of a turn, after an ack: OnRow is given a first occurrence. */
  function ReportStep(s: State): State {
    if s.tasks == [] || s.tasks[0].stage.Inserting? || !s.tasks[0].stage.ok
       || s.tasks[0].stage.told >= s.tasks[0].stage.next || s.tasks[0].stage.told >= |s.tasks[0].batch|
       || s.reports == []
    then s
    else
      var t := s.tasks[0];
      var i, last := t.stage.told, |s.reports| - 1;
      var report := if FirstOccurrence(t.batch, i) then [t.batch[i].row] else [];
      s.(tasks := s.tasks[0 := t.(stage := t.stage.(told := i + 1))],
         reported := s.reported + report,
         reports := s.reports[last := s.reports[last] + report])
  }

  /** The flush goroutine's end, or that of the final flush. */
  function FinishStep(s: State): State {
    if s.tasks == [] || s.tasks[0].stage.Inserting? || s.tasks[0].stage.next < |s.tasks[0].batch|
       || (s.tasks[0].stage.ok && s.tasks[0].stage.told < |s.tasks[0].batch|)
    then s
    else if s.tasks[0].final then s.(tasks := s.tasks[1..], inFlight := [], mode := FinalFlushed)
    else s.(tasks := s.tasks[1..], inFlight := [], flushing := false, waiting := if s.waiting > 0 then s.waiting - 1 else 0)
  }

  function InProgressCalls(batch: seq<Held>): seq<Call> {
    seq(|batch|, i requires 0 <= i < |batch| => InProgress(batch[i].delivery))
  }

  function HeartbeatStep(s: State): State {
    s.(calls := s.calls + InProgressCalls(s.held + s.inFlight))
  }

  /** Stop and Closed: no further message is handled, and Run's tickers are no longer listened to. */
  function StopConsumerStep(s: State): State {
    if s.mode.Running? then s.(mode := ConsumerStopped) else s
  }

  /** Wait returns when the wait group's counter is zero. */
  function DrainStep(s: State): State {
    if s.mode.ConsumerStopped? && s.waiting == 0 then s.(mode := Drained) else s
  }

  /** finalFlush up to its unlock: it looks at held and at nothing else. */
  function FinalFlushStep(s: State): State {
    if !s.mode.Drained? then s
    else if s.held == [] then s.(mode := FinalFlushed)
    else s.(held := [], inFlight := s.held, tasks := s.tasks + [Task(s.held, true, Inserting)], mode := FinalFlushing)
  }

  function ReturnStep(s: State): State {
    if s.mode.FinalFlushed? then s.(mode := Returned) else s
  }

  /** Undisposed deliveries a batch still owes a call. */
  function Owed(t: Task): seq<nat> {
    Deliveries(if t.stage.Inserting? then t.batch else if t.stage.next <= |t.batch| then t.batch[t.stage.next..] else [])
  }

  function AllOwed(tasks: seq<Task>): seq<nat> {
    if tasks == [] then [] else Owed(tasks[0]) + AllOwed(tasks[1..])
  }

  /** The committed batch whose messages are being acked and reported, if there is one. */
  predicate Reporting(s: State) {
    s.tasks != [] && s.tasks[0].stage.Disposing? && s.tasks[0].stage.ok && s.flushed != []
  }

  /** The process dies and a new one starts: what it held is lost to it and will be redelivered. */
  function CrashStep(s: State): State {
    s.(held := [], inFlight := [], flushing := false, waiting := 0, tasks := [], mode := Running,
       lost := s.lost + Deliveries(s.held) + AllOwed(s.tasks),
       died := if Reporting(s) && s.tasks[0].stage.told < |s.tasks[0].batch|
               then s.died[|s.flushed| - 1 := s.tasks[0].stage.told] else s.died)
  }

  function Step(s: State, a: Action): State {
    match a
    case Deliver(event) => if s.mode.Running? then DeliverStep(s, event) else s
    case TriggerFlush => if s.mode.Running? then TriggerFlushStep(s) else s
    case Insert(outcome) => InsertStep(s, outcome)
    case DisposeNext => DisposeStep(s)
    case ReportNext => ReportStep(s)
    case Finish => FinishStep(s)
    case Heartbeat => if s.mode.Running? then HeartbeatStep(s) else s
    case StopConsumer => StopConsumerStep(s)
    case Drain => DrainStep(s)
    case FinalFlush => FinalFlushStep(s)
    case Return => ReturnStep(s)
    case Crash => CrashStep(s)
  }

  function Run(actions: seq<Action>): State {
    if actions == [] then START else Step(Run(actions[..|actions| - 1]), actions[|actions| - 1])
  }
}
