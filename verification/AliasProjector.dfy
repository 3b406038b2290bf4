/**
 The ALIASES projector (internal/controlplane/kvproj.go): one write per event, under the bucket key
 its stream id parses to; and every run of it, with starts, duplicates, failing calls and crashes.
 */
module AliasProjector {
  import opened Wrappers
  import opened Cpkv
  import opened AliasIds
  import opened EventLog
  import opened Projections
  import opened Slugs
  import Aliases

  type Bucket = map<string, AliasEntry>

  datatype Write = Put(key: string, entry: AliasEntry) | Del(key: string)

  function Apply(kv: Bucket, w: Write): Bucket {
    match w
    case Put(key, entry) => kv[key := entry]
    case Del(key) => kv - {key}
  }

  function WriteOf(id: string, e: Aliases.AliasEvent): Result<Write, SplitError> {
    match SplitAliasStreamId(id)
    case Err(error) => Err(error)
    case Ok((scope, name)) =>
      match e
      case AliasSet(target, params) => Ok(Put(BucketKey(scope, name), AliasEntry(target, params)))
      case AliasDeleted => Ok(Del(BucketKey(scope, name)))
  }

  // ---------- The specification ----------

  function AliasAt(log: Log, scope: string, name: string): Option<AliasEntry> {
    var s := AliasState(log, AliasStreamId(scope, name));
    if Aliases.IsLive(s) then Some(AliasEntry(s.target, s.params)) else None
  }

  function Lookup<V>(m: map<string, V>, key: string): Option<V> {
    if key in m then Some(m[key]) else None
  }

  ghost predicate PairOk(kv: Bucket, log: Log, scope: string, name: string) {
    ValidAlias(scope, name) ==> Lookup(kv, BucketKey(scope, name)) == AliasAt(log, scope, name)
  }

  ghost predicate KeyOk(key: string) {
    exists scope, name :: ValidAlias(scope, name) && key == BucketKey(scope, name)
  }

  /** kv has exactly the live aliases of the log, each under its scope and name. */
  ghost predicate IsImage(kv: Bucket, log: Log) {
    && (forall scope, name :: PairOk(kv, log, scope, name))
    && (forall key :: key in kv ==> KeyOk(key))
  }

  lemma ImageUnique(kv: Bucket, kv': Bucket, log: Log)
    requires IsImage(kv, log) && IsImage(kv', log)
    ensures kv == kv'
  {
    forall key | key in kv || key in kv' ensures Lookup(kv, key) == Lookup(kv', key) {
      SameUnderKey(kv, kv', log, key);
    }
    assert forall key :: key in kv ==> Lookup(kv, key).Some? && Lookup(kv', key).Some?;
    assert forall key :: key in kv' ==> Lookup(kv', key).Some? && Lookup(kv, key).Some?;
  }

  lemma SameUnderKey(kv: Bucket, kv': Bucket, log: Log, key: string)
    requires IsImage(kv, log) && IsImage(kv', log) && (key in kv || key in kv')
    ensures Lookup(kv, key) == Lookup(kv', key)
  {
    assert KeyOk(key);
    var scope, name :| ValidAlias(scope, name) && key == BucketKey(scope, name);
    assert PairOk(kv, log, scope, name) && PairOk(kv', log, scope, name);
  }

  // ---------- One event ----------

  /** Each alias event of a valid log lies on the stream of a valid pair and fits its state. */
  lemma AliasEventDecided(log: Log, k: nat) returns (scope: string, name: string)
    requires ValidLog(log) && k < |log| && log[k].AliasEnv?
    ensures ValidAlias(scope, name) && log[k].id == AliasStreamId(scope, name)
    ensures SplitAliasStreamId(log[k].id) == Ok((scope, name))
    ensures log[k].alias.AliasSet? ==> log[k].alias.target != ""
  {
    hide Slug, ValidAlias, SplitAliasStreamId;
    Aliases.EmptyHasNoSlug();
    assert Decided(log, k);
    var c :| Emits(log[..k], c, log[k]);
    scope, name :| ValidAlias(scope, name) && c.id == AliasStreamId(scope, name);
    ValidAliasRoundTrip(scope, name);
  }

  lemma StateAfter(log: Log, k: nat, id: string)
    requires k < |log|
    ensures AliasState(log[..k + 1], id) ==
            if log[k].AliasEnv? && log[k].id == id then Aliases.Evolve(AliasState(log[..k], id), log[k].alias)
            else AliasState(log[..k], id)
  {
    assert log[..k + 1][..k] == log[..k];
  }

  /** A valid alias event is never refused, and its write turns the image before it into the image after it. */
  lemma EventKeepsImage(kv: Bucket, log: Log, k: nat)
    requires ValidLog(log) && k < |log| && log[k].AliasEnv?
    requires IsImage(kv, log[..k]) || IsImage(kv, log[..k + 1])
    ensures WriteOf(log[k].id, log[k].alias).Ok?
    ensures IsImage(Apply(kv, WriteOf(log[k].id, log[k].alias).value), log[..k + 1])
  {
    var scope, name := AliasEventDecided(log, k);
    var after := log[..k + 1];
    var kv' := Apply(kv, WriteOf(log[k].id, log[k].alias).value);
    forall s, n ensures PairOk(kv', after, s, n) {
      EventKeepsPair(kv, log, k, scope, name, s, n);
    }
    forall key | key in kv' ensures KeyOk(key) {
      assert key in kv || key == BucketKey(scope, name);
    }
  }

  lemma EventKeepsPair(kv: Bucket, log: Log, k: nat, scope: string, name: string, s: string, n: string)
    requires k < |log| && log[k].AliasEnv? && ValidAlias(scope, name) && log[k].id == AliasStreamId(scope, name)
    requires SplitAliasStreamId(log[k].id) == Ok((scope, name))
    requires log[k].alias.AliasSet? ==> log[k].alias.target != ""
    requires PairOk(kv, log[..k], s, n) || PairOk(kv, log[..k + 1], s, n)
    ensures PairOk(Apply(kv, WriteOf(log[k].id, log[k].alias).value), log[..k + 1], s, n)
  {
    StateAfter(log, k, AliasStreamId(s, n));
    if ValidAlias(s, n) && (s, n) != (scope, name) {
      PairsApart(s, n, scope, name);
    }
  }

  /** No stored alias is live with a target that is no model name or with a reserved parameter. */
  lemma {:induction false} StoredAliasesAreWellFormed(log: Log, id: string)
    requires ValidLog(log)
    ensures Aliases.WellFormed(AliasState(log, id))
  {
    hide Slug, Aliases.Reserved, ValidAlias, AliasStreamId;
    if log != [] {
      var n := |log| - 1;
      ValidPrefix(log, n);
      StoredAliasesAreWellFormed(log[..n], id);
      if log[n].AliasEnv? && log[n].id == id {
        assert Decided(log, n);
        var c :| Emits(log[..n], c, log[n]);
      }
    }
  }

  /** The last thing that happened to an alias. */
  function LastEvent(log: Log, id: string): Option<Aliases.AliasEvent> {
    if log == [] then None
    else
      var e := log[|log| - 1];
      if e.AliasEnv? && e.id == id then Some(e.alias) else LastEvent(log[..|log| - 1], id)
  }

  /**
   Over any decided log an alias is live iff the last thing that happened to it is a set, and then it
   is exactly as that set gave it, whatever was set or deleted before; and only a live alias is ever
   deleted.
   */
  lemma {:induction false} AliasLifeCycle(log: Log, id: string)
    requires ValidLog(log)
    ensures var (s, last) := (AliasState(log, id), LastEvent(log, id));
            && (last.None? <==> s == Aliases.NO_ALIAS)
            && (Aliases.IsLive(s) <==> last.Some? && last.value.AliasSet?)
            && (Aliases.IsLive(s) ==> last == Some(Aliases.AliasSet(s.target, s.params)))
    ensures forall k :: 0 <= k < |log| && log[k] == AliasEnv(id, Aliases.AliasDeleted) ==>
              LastEvent(log[..k], id).Some? && LastEvent(log[..k], id).value.AliasSet?
  {
    hide Slug, Aliases.Reserved, ValidAlias, AliasStreamId;
    if log != [] {
      var n := |log| - 1;
      var init := log[..n];
      ValidPrefix(log, n);
      AliasLifeCycle(init, id);
      forall k | 0 <= k < n ensures log[..k] == init[..k] && log[k] == init[k] {
      }
      if log[n].AliasEnv? && log[n].id == id {
        var scope, name := AliasEventDecided(log, n);
        assert Decided(log, n);
        var c :| Emits(log[..n], c, log[n]);
      }
    }
  }

  /** ALIASES as the fold, in terms of events: an entry iff the pair's last event is a set, and then as that set gave it. */
  lemma FoldShowsEvents(kv: Bucket, log: Log, scope: string, name: string)
    requires ValidLog(log) && IsImage(kv, log) && ValidAlias(scope, name)
    ensures var (key, last) := (scope + "/" + name, LastEvent(log, AliasStreamId(scope, name)));
            && (key in kv <==> last.Some? && last.value.AliasSet?)
            && (key in kv ==> last == Some(Aliases.AliasSet(kv[key].target, kv[key].params)))
  {
    hide ValidAlias, AliasState, AliasStreamId, LastEvent, ValidLog;
    assert PairOk(kv, log, scope, name);
    AliasLifeCycle(log, AliasStreamId(scope, name));
  }

  lemma OtherKeepsImage(kv: Bucket, log: Log, j: nat, k: nat)
    requires j <= k <= |log| && NoneBetween(log, AliasStream, j, k)
    ensures IsImage(kv, log[..j]) <==> IsImage(kv, log[..k])
  {
    forall scope, name ensures PairOk(kv, log[..j], scope, name) <==> PairOk(kv, log[..k], scope, name) {
      SameAliasesBetween(log, j, k, AliasStreamId(scope, name));
    }
  }

  lemma {:induction false} SameAliasesBetween(log: Log, j: nat, k: nat, id: string)
    requires j <= k <= |log| && NoneBetween(log, AliasStream, j, k)
    ensures AliasState(log[..k], id) == AliasState(log[..j], id)
  {
    if j < k {
      SameAliasesBetween(log, j, k - 1, id);
      StateAfter(log, k - 1, id);
      assert !OfKind(log[k - 1], AliasStream);
    }
  }

  // ---------- Every run ----------

  datatype Process = Down | Up(pos: nat, failed: bool, job: Option<Job<Write>>)

  datatype State = State(kv: Bucket, marker: nat, head: nat, process: Process)

  const START := State(map[], 0, 0, Down)

  datatype Action =
    | Grow
    | Start
    | Deliver(k: nat)
    | WriteNext(outcome: KvOutcome)
    | SaveMarker(outcome: KvOutcome)
    | Crash

  function DeliverStep(log: Log, w: State, k: nat): State {
    if !w.process.Up? || w.process.failed || w.process.job.Some? || k >= w.head || !InOrder(log, AliasStream, w.process.pos, k)
    then w // a duplicate (k < pos) is skipped
    else if !log[k].AliasEnv? then w.(process := w.process.(job := Some(Job(k, [], 0))))
    else
      match WriteOf(log[k].id, log[k].alias)
      case Ok(put) => w.(process := w.process.(job := Some(Job(k, [put], 0))))
      case Err(_) => w.(process := w.process.(failed := true))
  }

  function WriteStep(w: State, outcome: KvOutcome): State {
    if !w.process.Up? || w.process.job.None? || w.process.job.value.done >= |w.process.job.value.ws| then w
    else
      var job := w.process.job.value;
      w.(kv := if outcome.FailedLost? then w.kv else Apply(w.kv, job.ws[job.done]),
         process := if outcome.Success? then w.process.(job := Some(job.(done := job.done + 1)))
                    else w.process.(failed := true, job := None))
  }

  function SaveMarkerStep(w: State, outcome: KvOutcome): State {
    if !w.process.Up? || w.process.job.None? || w.process.job.value.done < |w.process.job.value.ws| then w
    else
      var k := w.process.job.value.k;
      w.(marker := if outcome.FailedLost? then w.marker else k + 1,
         process := Up(k + 1, !outcome.Success?, None))
  }

  function Step(log: Log, w: State, a: Action): State {
    match a
    case Grow => if w.head < |log| then w.(head := w.head + 1) else w
    case Start => if w.process.Up? then w else w.(process := Up(w.marker, false, None))
    case Deliver(k) => DeliverStep(log, w, k)
    case WriteNext(outcome) => WriteStep(w, outcome)
    case SaveMarker(outcome) => SaveMarkerStep(w, outcome)
    case Crash => w.(process := Down)
  }

  function Run(log: Log, actions: seq<Action>): State {
    if actions == [] then START else Step(log, Run(log, actions[..|actions| - 1]), actions[|actions| - 1])
  }

  /** The bucket is the image of what the marker covers, or of that and the next alias event. */
  ghost predicate BucketOk(log: Log, w: State) {
    && w.marker <= w.head <= |log|
    && var k := NextOf(log, AliasStream, w.marker);
       IsImage(w.kv, log[..w.marker]) || (k < w.head && IsImage(w.kv, log[..k + 1]))
  }

  ghost predicate ProcessOk(log: Log, w: State) {
    w.process.Up? && !w.process.failed ==> w.process.pos == w.marker
  }

  ghost predicate JobOk(log: Log, w: State) {
    w.process.Up? && w.process.job.Some? ==>
      var job := w.process.job.value;
      && !w.process.failed && job.k < w.head && job.done <= |job.ws|
      && InOrder(log, AliasStream, w.process.pos, job.k)
      && if log[job.k].AliasEnv?
         then && WriteOf(log[job.k].id, log[job.k].alias).Ok?
              && job.ws == [WriteOf(log[job.k].id, log[job.k].alias).value]
              && (job.done == 1 ==> IsImage(w.kv, log[..job.k + 1]))
         else job.ws == []
  }

  /** A failure with no failed call behind it would be a stop on a malformed stream id: there is none. */
  ghost predicate Inv(log: Log, w: State) {
    BucketOk(log, w) && ProcessOk(log, w) && JobOk(log, w)
  }

  lemma DeliverNeverStops(log: Log, w: State, k: nat)
    requires ValidLog(log) && Inv(log, w)
    ensures var w' := DeliverStep(log, w, k);
            && Inv(log, w')
            && (w'.process.Up? && w'.process.failed ==> w.process.Up? && w.process.failed)
  {
    hide IsImage;
    if k < |log| && log[k].AliasEnv? {
      var scope, name := AliasEventDecided(log, k);
    }
  }

  /** The write of the event at k, made on the image of what precedes it or a second time. */
  lemma WriteLands(log: Log, kv: Bucket, m: nat, k: nat)
    requires ValidLog(log) && InOrder(log, AliasStream, m, k) && log[k].AliasEnv?
    requires IsImage(kv, log[..m]) || IsImage(kv, log[..k + 1])
    ensures WriteOf(log[k].id, log[k].alias).Ok?
    ensures IsImage(Apply(kv, WriteOf(log[k].id, log[k].alias).value), log[..k + 1])
  {
    OtherKeepsImage(kv, log, m, k);
    EventKeepsImage(kv, log, k);
  }

  lemma WriteKeepsInv(log: Log, w: State, outcome: KvOutcome)
    requires ValidLog(log) && Inv(log, w)
    ensures Inv(log, WriteStep(w, outcome))
  {
    hide IsImage;
    var w' := WriteStep(w, outcome);
    if w' != w {
      var k := w.process.job.value.k;
      NextIs(log, AliasStream, w.marker, k);
      WriteLands(log, w.kv, w.marker, k);
      assert BucketOk(log, w');
    }
  }

  lemma SaveMarkerKeepsInv(log: Log, w: State, outcome: KvOutcome)
    requires ValidLog(log) && Inv(log, w)
    ensures Inv(log, SaveMarkerStep(w, outcome))
  {
    hide IsImage;
    var w' := SaveMarkerStep(w, outcome);
    if w' != w && w'.marker != w.marker {
      var k := w.process.job.value.k;
      if !log[k].AliasEnv? {
        MarkerSkips(log, w, k);
      }
    }
  }

  /** The marker may move past events of other aggregates: they leave nothing to write. */
  lemma MarkerSkips(log: Log, w: State, k: nat)
    requires BucketOk(log, w) && InOrder(log, AliasStream, w.marker, k) && k < w.head && !log[k].AliasEnv?
    ensures BucketOk(log, w.(marker := k + 1))
  {
    hide IsImage;
    assert NoneBetween(log, AliasStream, w.marker, k + 1);
    OtherKeepsImage(w.kv, log, w.marker, k + 1);
    NextSkips(log, AliasStream, w.marker, k + 1);
  }

  lemma StartInv(log: Log)
    ensures Inv(log, START)
  {
    assert log[..0] == [];
    forall scope, name ensures PairOk(map[], [], scope, name) {
    }
  }

  lemma {:induction false} RunInv(log: Log, actions: seq<Action>)
    requires ValidLog(log)
    ensures Inv(log, Run(log, actions))
  {
    hide IsImage, DeliverStep, WriteStep, SaveMarkerStep;
    if actions == [] {
      StartInv(log);
    } else {
      var w, a := Run(log, actions[..|actions| - 1]), actions[|actions| - 1];
      RunInv(log, actions[..|actions| - 1]);
      match a
      case Deliver(k) => DeliverNeverStops(log, w, k);
      case WriteNext(outcome) => WriteKeepsInv(log, w, outcome);
      case SaveMarker(outcome) => SaveMarkerKeepsInv(log, w, outcome);
      case _ =>
    }
  }

  /**
   At every moment of every run ALIASES is exactly the fold of what the marker covers, or of that
   and the one alias event after it; so the marker never covers an event whose write is missing.
   */
  lemma MarkerNeverAhead(log: Log, actions: seq<Action>) returns (h: nat)
    requires ValidLog(log)
    ensures var w := Run(log, actions);
            && w.marker <= h <= w.head <= |log| && IsImage(w.kv, log[..h])
            && (h == w.marker || (OfKind(log[h - 1], AliasStream) && NoneBetween(log, AliasStream, w.marker, h - 1)))
  {
    hide IsImage;
    RunInv(log, actions);
    var w := Run(log, actions);
    h := if IsImage(w.kv, log[..w.marker]) then w.marker else NextOf(log, AliasStream, w.marker) + 1;
  }

  /** Once the marker has reached the end of the log, ALIASES is the log's fold. */
  lemma CaughtUpIsFold(log: Log, actions: seq<Action>)
    requires ValidLog(log) && Run(log, actions).marker == |log|
    ensures IsImage(Run(log, actions).kv, log)
  {
    hide IsImage;
    var h := MarkerNeverAhead(log, actions);
    assert log[..|log|] == log;
  }

  /** Only a failed call stops the projector: delivering an event of a valid log never does. */
  lemma OnlyCallsFail(log: Log, actions: seq<Action>, k: nat)
    requires ValidLog(log)
    ensures var w := Run(log, actions);
            w.process.Up? && !w.process.failed ==> !Step(log, w, Deliver(k)).process.failed
  {
    RunInv(log, actions);
    DeliverNeverStops(log, Run(log, actions), k);
  }

  /** Redoing the event after the marker changes nothing where its write was already made. */
  lemma RedoIsNoOp(log: Log, kv: Bucket, k: nat)
    requires ValidLog(log) && k < |log| && log[k].AliasEnv? && IsImage(kv, log[..k])
    ensures WriteOf(log[k].id, log[k].alias).Ok?
    ensures var w := WriteOf(log[k].id, log[k].alias).value; Apply(Apply(kv, w), w) == Apply(kv, w)
  {
    EventKeepsImage(kv, log, k);
    var w := WriteOf(log[k].id, log[k].alias).value;
    EventKeepsImage(Apply(kv, w), log, k);
    ImageUnique(Apply(Apply(kv, w), w), Apply(kv, w), log[..k + 1]);
  }

  // ---------- Starting again ----------

  lemma StepOnSeen(log: Log, h: nat, w: State, a: Action)
    requires Inv(log, w) && h <= |log| && Step(log, w, a).head <= h
    ensures Step(log[..h], w, a) == Step(log, w, a)
  {
    hide WriteOf, IsImage;
    if a.Deliver? && a.k < w.head {
      assert forall j :: 0 <= j < h ==> log[..h][j] == log[j];
    }
  }

  lemma HeadGrows(log: Log, w: State, a: Action)
    ensures w.head <= Step(log, w, a).head
  {
    hide WriteOf, InOrder;
  }

  /** A run depends only on the part of the log it has seen. */
  lemma {:induction false} RunOnSeen(log: Log, h: nat, actions: seq<Action>)
    requires ValidLog(log) && Run(log, actions).head <= h <= |log|
    ensures Run(log[..h], actions) == Run(log, actions)
  {
    hide Step, Inv, ValidLog;
    if actions != [] {
      var init, last := actions[..|actions| - 1], actions[|actions| - 1];
      HeadGrows(log, Run(log, init), last);
      RunOnSeen(log, h, init);
      RunInv(log, init);
      StepOnSeen(log, h, Run(log, init), last);
    }
  }

  ghost predicate RestsAfter(log: Log, kv: Bucket, marker: nat, actions: seq<Action>) {
    var w := Run(log, actions);
    w.process.Down? && w.head == |log| && w.kv == kv && w.marker == marker
  }

  /** A bucket and a marker as some run over this log leaves them while its process is down. */
  ghost predicate Resting(log: Log, kv: Bucket, marker: nat) {
    exists actions :: RestsAfter(log, kv, marker, actions)
  }

  /** Wherever a run goes down, what it leaves is resting on the part of the log there was by then. */
  lemma DownIsResting(log: Log, actions: seq<Action>)
    requires ValidLog(log) && Run(log, actions).process.Down?
    ensures var w := Run(log, actions); w.head <= |log| && Resting(log[..w.head], w.kv, w.marker)
  {
    hide Run, IsImage;
    var w := Run(log, actions);
    RunInv(log, actions);
    RunOnSeen(log, w.head, actions);
    assert RestsAfter(log[..w.head], w.kv, w.marker, actions);
  }

  /** What rests is the fold of the marked events, or of those and the next alias event. */
  lemma RestingIsImage(log: Log, kv: Bucket, marker: nat) returns (h: nat)
    requires ValidLog(log) && Resting(log, kv, marker)
    ensures marker <= h <= |log| && IsImage(kv, log[..h])
    ensures h == marker || (OfKind(log[h - 1], AliasStream) && NoneBetween(log, AliasStream, marker, h - 1))
  {
    hide Run, IsImage;
    var actions :| RestsAfter(log, kv, marker, actions);
    h := MarkerNeverAhead(log, actions);
  }

  // ---------- The apply method, and its calls as steps of a run ----------

  datatype Projector = Projector(kv: Bucket, marker: nat, pos: nat, failed: bool)

  function Saved(p: Projector, d: Delivery): Projector {
    p.(pos := d.position, marker := if d.io.save.FailedLost? then p.marker else d.position, failed := !d.io.save.Success?)
  }

  /** One turn of apply's loop. */
  function ApplyDelivery(p: Projector, d: Delivery): Projector {
    if p.failed || d.position <= p.pos then p
    else if !d.event.AliasEnv? then Saved(p, d)
    else
      match WriteOf(d.event.id, d.event.alias)
      case Err(_) => p.(failed := true)
      case Ok(w) =>
        var kv := if d.io.first.FailedLost? then p.kv else Apply(p.kv, w);
        if d.io.first.Success? then Saved(p.(kv := kv), d) else p.(kv := kv, failed := true)
  }

  function ApplyBatch(p: Projector, batch: seq<Delivery>): Projector {
    if batch == [] then p else ApplyDelivery(ApplyBatch(p, batch[..|batch| - 1]), batch[|batch| - 1])
  }

  lemma {:induction false} FailedBatch(p: Projector, batch: seq<Delivery>, i: nat)
    requires i <= |batch| && ApplyBatch(p, batch[..i]).failed
    ensures ApplyBatch(p, batch) == ApplyBatch(p, batch[..i])
  {
    hide WriteOf;
    if i < |batch| {
      var init := batch[..|batch| - 1];
      assert init[..i] == batch[..i];
      FailedBatch(p, init, i);
    } else {
      assert batch[..i] == batch;
    }
  }

  function View(w: State): Projector
    requires w.process.Up?
  {
    Projector(w.kv, w.marker, w.process.pos, w.process.failed)
  }

  /** The delivery is of the log's event at its position, and comes in order or again. */
  predicate Deliverable(log: Log, pos: nat, head: nat, d: Delivery) {
    && 1 <= d.position <= head <= |log| && d.event == log[d.position - 1]
    && (d.position <= pos || InOrder(log, AliasStream, pos, d.position - 1))
  }

  function StepsOf(d: Delivery): seq<Action>
    requires d.position >= 1
  {
    [Deliver(d.position - 1), WriteNext(d.io.first), SaveMarker(d.io.save)]
  }

  function Steps(log: Log, w: State, actions: seq<Action>): State {
    if actions == [] then w else Step(log, Steps(log, w, actions[..|actions| - 1]), actions[|actions| - 1])
  }

  lemma {:induction false} StepsJoin(log: Log, w: State, first: seq<Action>, more: seq<Action>)
    ensures Steps(log, w, first + more) == Steps(log, Steps(log, w, first), more)
  {
    hide Step;
    if more == [] {
      assert first + more == first;
    } else {
      StepsJoin(log, w, first, more[..|more| - 1]);
      assert (first + more)[..|first + more| - 1] == first + more[..|more| - 1];
    }
  }

  lemma {:induction false} RunThenSteps(log: Log, actions: seq<Action>, more: seq<Action>)
    ensures Run(log, actions + more) == Steps(log, Run(log, actions), more)
  {
    hide Step;
    if more == [] {
      assert actions + more == actions;
    } else {
      RunThenSteps(log, actions, more[..|more| - 1]);
      assert (actions + more)[..|actions + more| - 1] == actions + more[..|more| - 1];
    }
  }

  lemma ThreeSteps(log: Log, w: State, d: Delivery)
    requires d.position >= 1
    ensures Steps(log, w, StepsOf(d)) ==
            SaveMarkerStep(WriteStep(DeliverStep(log, w, d.position - 1), d.io.first), d.io.save)
  {
    hide SaveMarkerStep, WriteStep, DeliverStep;
    var (a, b, c) := (Deliver(d.position - 1), WriteNext(d.io.first), SaveMarker(d.io.save));
    assert [a, b, c][..2] == [a, b] && [a, b][..1] == [a] && [a][..0] == [];
    assert Steps(log, w, [a, b]) == Step(log, Steps(log, w, [a]), b);
    assert Steps(log, w, [a]) == Step(log, w, a);
  }

  /** One turn of apply's loop is three steps of the machine. */
  lemma DeliveryIsSteps(log: Log, w: State, d: Delivery)
    requires w.process.Up? && w.process.job.None? && Deliverable(log, w.process.pos, w.head, d)
    ensures var w' := Steps(log, w, StepsOf(d));
            w'.process.Up? && w'.process.job.None? && w'.head == w.head && View(w') == ApplyDelivery(View(w), d)
  {
    hide WriteOf, Apply, Steps, StepsOf;
    ThreeSteps(log, w, d);
  }

  /** Every element of the batch is in order, or a duplicate, when apply gets to it. */
  ghost predicate Orderly(log: Log, p: Projector, head: nat, batch: seq<Delivery>) {
    forall i :: 0 <= i < |batch| ==> Deliverable(log, ApplyBatch(p, batch[..i]).pos, head, batch[i])
  }

  /** A whole call of apply is a stretch of a run, so what holds of all runs holds of the object. */
  lemma {:induction false} BatchIsSteps(log: Log, w: State, batch: seq<Delivery>) returns (actions: seq<Action>)
    requires w.process.Up? && w.process.job.None? && Orderly(log, View(w), w.head, batch)
    ensures var w' := Steps(log, w, actions);
            w'.process.Up? && w'.process.job.None? && w'.head == w.head && View(w') == ApplyBatch(View(w), batch)
  {
    if batch == [] {
      actions := [];
    } else {
      hide Step, ApplyDelivery, StepsOf, Deliverable;
      var init, last := batch[..|batch| - 1], batch[|batch| - 1];
      assert forall i :: 0 <= i < |init| ==> batch[..i] == init[..i];
      var before := BatchIsSteps(log, w, init);
      LastIsDeliverable(log, View(w), w.head, batch);
      DeliveryIsSteps(log, Steps(log, w, before), last);
      actions := before + StepsOf(last);
      StepsJoin(log, w, before, StepsOf(last));
    }
  }

  /** A call of apply at the end of a run is a longer run, so what holds of all runs holds of the object. */
  lemma BatchIsRun(log: Log, actions: seq<Action>, batch: seq<Delivery>) returns (more: seq<Action>)
    requires var w := Run(log, actions); w.process.Up? && w.process.job.None? && Orderly(log, View(w), w.head, batch)
    ensures var (w, w') := (Run(log, actions), Run(log, actions + more));
            w'.process.Up? && w'.process.job.None? && View(w') == ApplyBatch(View(w), batch)
  {
    hide Run, Steps, Orderly, ApplyBatch;
    more := BatchIsSteps(log, Run(log, actions), batch);
    RunThenSteps(log, actions, more);
  }

  lemma LastIsDeliverable(log: Log, p: Projector, head: nat, batch: seq<Delivery>)
    requires batch != [] && Orderly(log, p, head, batch)
    ensures batch[|batch| - 1].position >= 1
    ensures Deliverable(log, ApplyBatch(p, batch[..|batch| - 1]).pos, head, batch[|batch| - 1])
  {
  }
}
