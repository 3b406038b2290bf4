/**
 Every run of the KEYS projector over a decider-generated log: starts with a warm-up of the log so
 far, deliveries in log order with any duplicates, one step per KV or marker call, each of which may
 fail and may then have applied or not, sticky failure, and crashes anywhere. The saved marker never
 covers an event whose writes did not all complete.
 */
module KeysRuns {
  import opened Wrappers
  import opened Cpkv
  import opened EventLog
  import opened ApiKeys
  import opened KeysProjector
  import opened KeysRestart
  import opened Projections

  /** A running process: from and warm are the marker and log length it started with. */
  datatype Process =
    | Down
    | Up(hashes: HashMap, from: nat, warm: nat, pos: nat, failed: bool, job: Option<Job<Write>>)

  /** cut counts the writes of the next key event that are in the bucket already. */
  datatype State = State(kv: Bucket, marker: nat, head: nat, cut: nat, process: Process)

  const START := State(map[], 0, 0, 0, Down)

  datatype Action =
    | Grow
    | Start
    | Deliver(k: nat, readOk: bool)
    | WriteNext(outcome: KvOutcome)
    | SaveMarker(outcome: KvOutcome)
    | Crash

  /** Whether applyOne gets an entry before it writes. */
  predicate Reads(e: KeyEvent) {
    e.Rotated? || e.AllowlistChanged? || e.LimitsChanged?
  }

  function DeliverStep(log: Log, w: State, k: nat, readOk: bool): State {
    if !w.process.Up? || w.process.failed || w.process.job.Some? || k >= w.head || !InOrder(log, KeyStream, w.process.pos, k)
    then w // a duplicate (k < pos) is skipped
    else
      var e := log[k];
      if !e.KeyEnv? then w.(process := w.process.(job := Some(Job(k, [], 0))))
      else
        match Writes(w.kv, w.process.hashes, e.id, e.key)
        case Ok(ws) => if readOk || !Reads(e.key) then w.(process := w.process.(job := Some(Job(k, ws, 0)))) else w.(process := w.process.(failed := true))
        case Err(_) => w.(process := w.process.(failed := true))
  }

  function WriteStep(w: State, outcome: KvOutcome): State {
    if !w.process.Up? || w.process.job.None? || w.process.job.value.done >= |w.process.job.value.ws| then w
    else
      var job := w.process.job.value;
      var done := job.done + 1;
      w.(kv := if outcome.FailedLost? then w.kv else Apply(w.kv, job.ws[job.done]),
         cut := if outcome.FailedLost? || done < w.cut then w.cut else done,
         process := if outcome.Success? then w.process.(job := Some(job.(done := done)))
                    else w.process.(failed := true, job := None))
  }

  function SaveMarkerStep(log: Log, w: State, outcome: KvOutcome): State {
    if !w.process.Up? || w.process.job.None? || w.process.job.value.done < |w.process.job.value.ws|
       || w.process.job.value.k >= |log|
    then w
    else
      var k := w.process.job.value.k;
      var saved := !outcome.FailedLost?;
      w.(marker := if saved then k + 1 else w.marker,
         cut := if saved && log[k].KeyEnv? then 0 else w.cut,
         process := w.process.(hashes := Learn(w.process.hashes, log[k]), pos := k + 1, job := None,
                               failed := !outcome.Success?))
  }

  function Step(log: Log, w: State, a: Action): State {
    match a
    case Grow => if w.head < |log| then w.(head := w.head + 1) else w
    case Start =>
      if w.process.Up? || w.head > |log| then w
      else w.(process := Up(WarmUp(log[..w.head]), w.marker, w.head, w.marker, false, None))
    case Deliver(k, readOk) => DeliverStep(log, w, k, readOk)
    case WriteNext(outcome) => WriteStep(w, outcome)
    case SaveMarker(outcome) => SaveMarkerStep(log, w, outcome)
    case Crash => w.(process := Down)
  }

  function Run(log: Log, actions: seq<Action>): State {
    if actions == [] then START else Step(log, Run(log, actions[..|actions| - 1]), actions[|actions| - 1])
  }

  // ---------- What the bucket holds ----------

  /** The fold of the first k events as a bucket. */
  function Base(log: Log, k: nat): Bucket
    requires k <= |log|
  {
    Replay(Proj(map[], map[], false), log[..k]).kv
  }

  lemma BaseIsImage(log: Log, k: nat)
    requires ValidLog(log) && FreshHashes(log) && k <= |log|
    ensures IsImage(Base(log, k), log[..k])
  {
    ValidPrefix(log, k);
    FreshPrefix(log, k);
    ReplayFromStart(log[..k], map[]);
  }

  lemma {:induction false} BaseSkipsOthers(log: Log, j: nat, k: nat)
    requires ValidLog(log) && FreshHashes(log) && j <= k <= |log| && NoneBetween(log, KeyStream, j, k)
    ensures Base(log, k) == Base(log, j)
  {
    if j < k {
      BaseSkipsOthers(log, j, k - 1);
      assert log[..k][..k - 1] == log[..k - 1];
    }
  }

  function Due(log: Log, j: nat): seq<Write>
    requires j <= |log|
  {
    var k := NextOf(log, KeyStream, j);
    if k < |log| then DueWrites(Base(log, k), log, k) else []
  }

  /** The fold of everything before the marker, and the first cut writes of the next key event. */
  ghost predicate BucketOk(log: Log, w: State) {
    && w.marker <= w.head <= |log|
    && w.cut <= |Due(log, w.marker)|
    && w.kv == ApplyAll(Base(log, NextOf(log, KeyStream, w.marker)), Due(log, w.marker)[..w.cut])
  }

  ghost predicate MapNow(hashes: HashMap, log: Log, from: nat, warm: nat, pos: nat, id: string) {
    && from <= warm <= |log| && from <= pos <= |log|
    && if pos <= warm then MapAt(hashes, log[..warm], from, pos, id) else Knows(hashes, log[..pos], id)
  }

  ghost predicate JobOk(log: Log, w: State) {
    w.process.Up? && w.process.job.Some? ==>
      var job := w.process.job.value;
      && !w.process.failed && w.marker <= |log|
      && InOrder(log, KeyStream, w.process.pos, job.k) && job.k < w.head
      && job.done <= |job.ws|
      && (if log[job.k].KeyEnv?
          then job.ws == Due(log, w.marker) && (job.done == w.cut || (job.done == 0 && w.cut == 1))
          else job.ws == [])
  }

  ghost predicate ProcessOk(log: Log, w: State) {
    w.process.Up? && !w.process.failed ==>
      && w.process.pos == w.marker <= |log|
      && w.process.from <= w.process.warm <= w.head && w.process.from <= w.marker
      && forall id :: Exists(log[..w.marker], id) ==>
           MapNow(w.process.hashes, log, w.process.from, w.process.warm, w.marker, id)
  }

  ghost predicate Inv(log: Log, w: State)
    requires ValidLog(log) && FreshHashes(log)
  {
    BucketOk(log, w) && JobOk(log, w) && ProcessOk(log, w)
  }

  // ---------- Steps ----------

  /** What the map may say of a key about to change. */
  ghost predicate KnowsOrIsAhead(hashes: HashMap, log: Log, k: nat, id: string)
    requires k <= |log|
  {
    id in hashes && (hashes[id] == KeyState(log[..k], id).hash || IntroducedIn(log, k, |log|, hashes[id]))
  }

  /** On a bucket holding the first cut of an event's writes, the event is planned the same again or refused. */
  lemma PlanOnCut(log: Log, k: nat, kv: Bucket, cut: nat, hashes: HashMap)
    requires ValidLog(log) && FreshHashes(log) && k < |log| && log[k].KeyEnv? && IsImage(kv, log[..k])
    requires Changes(log[k], log[k].id) ==> KnowsOrIsAhead(hashes, log, k, log[k].id)
    requires cut <= |DueWrites(kv, log, k)|
    ensures var ws := DueWrites(kv, log, k);
            var plan := Writes(ApplyAll(kv, ws[..cut]), hashes, log[k].id, log[k].key);
            plan.Err? || (plan.value == ws && cut <= 1)
  {
    hide KeyState;
    var ws := DueWrites(kv, log, k);
    DueShape(log, k, kv);
    CutBucket(kv, ws, cut);
    if Changes(log[k], log[k].id) {
      PlanOfChange(log, k, kv, cut, hashes);
    } else if log[k].key.Rotated? {
      var s := KeyState(log[..k], log[k].id);
      KeyEventDecided(log, k);
      assert cut == 1 ==> s.hash in Apply(kv, ws[0]) && Apply(kv, ws[0])[s.hash] == kv[s.hash];
    } else {
      assert cut <= 1;
    }
  }

  lemma PlanOfChange(log: Log, k: nat, kv: Bucket, cut: nat, hashes: HashMap)
    requires ValidLog(log) && FreshHashes(log) && k < |log| && IsImage(kv, log[..k])
    requires Changes(log[k], log[k].id) && KnowsOrIsAhead(hashes, log, k, log[k].id)
    requires cut <= |DueWrites(kv, log, k)|
    ensures var ws := DueWrites(kv, log, k);
            var plan := Writes(ApplyAll(kv, ws[..cut]), hashes, log[k].id, log[k].key);
            plan.Err? || (plan.value == ws && cut <= 1)
  {
    hide KeyState;
    var id, ws := log[k].id, DueWrites(kv, log, k);
    var hash := KeyState(log[..k], id).hash;
    DueShape(log, k, kv);
    CutBucket(kv, ws, cut);
    KeyEventDecided(log, k);
    assert LiveKey(log[..k], id);
    if hashes[id] != hash {
      LaterHashNotStored(kv, log, k, hashes[id]);
    }
  }

  /** A process that has not failed plans the writes due next, or none at all. */
  lemma PlanIsDue(log: Log, w: State, k: nat)
    requires ValidLog(log) && FreshHashes(log) && BucketOk(log, w) && ProcessOk(log, w)
    requires w.process.Up? && !w.process.failed
    requires k < w.head && InOrder(log, KeyStream, w.marker, k) && log[k].KeyEnv?
    ensures var plan := Writes(w.kv, w.process.hashes, log[k].id, log[k].key);
            k == NextOf(log, KeyStream, w.marker) && (plan.Err? || (plan.value == Due(log, w.marker) && w.cut <= 1))
  {
    hide KeyState, Writes, Base, IsImage;
    assert k == NextOf(log, KeyStream, w.marker);
    BaseIsImage(log, k);
    KeyEventDecided(log, k);
    if Changes(log[k], log[k].id) {
      MapKnowsOrIsAhead(log, w, k, log[k].id);
    }
    PlanOnCut(log, k, Base(log, k), w.cut, w.process.hashes);
  }

  /** For a key about to change, the map holds its current hash or one introduced only later. */
  lemma MapKnowsOrIsAhead(log: Log, w: State, k: nat, id: string)
    requires ValidLog(log) && FreshHashes(log) && ProcessOk(log, w)
    requires w.process.Up? && !w.process.failed && w.marker <= w.head <= |log|
    requires k < w.head && InOrder(log, KeyStream, w.marker, k) && Exists(log[..k], id)
    ensures KnowsOrIsAhead(w.process.hashes, log, k, id)
  {
    var (hashes, from, warm, pos) := (w.process.hashes, w.process.from, w.process.warm, w.marker);
    SameKeysBetween(log, pos, k, id);
    assert MapNow(hashes, log, from, warm, pos, id);
    if pos <= warm {
      var seen := log[..warm];
      ValidPrefix(log, warm);
      assert seen[..pos] == log[..pos] && seen[..from] == log[..from];
      HashAfter(seen, pos, id);
      if RotatedIn(seen, pos, warm, id) {
        var i :| pos <= i < warm && Introduces(seen[i]) == Some(KeyState(seen, id).hash);
        assert Introduces(log[i]) == Some(KeyState(seen, id).hash);
        assert i >= k;
      }
    }
  }

  lemma {:induction false} SameKeysBetween(log: Log, j: nat, k: nat, id: string)
    requires j <= k <= |log| && NoneBetween(log, KeyStream, j, k)
    ensures KeyState(log[..k], id) == KeyState(log[..j], id)
  {
    if j < k {
      SameKeysBetween(log, j, k - 1, id);
      StateAfter(log, k - 1, id);
    }
  }

  lemma NoKeyEventsBetween(log: Log, m: nat, k: nat, kv: Bucket)
    requires m <= k <= |log| && NoneBetween(log, KeyStream, m, k) && IsImage(kv, log[..m])
    ensures IsImage(kv, log[..k])
  {
    hide KeyState;
    forall id ensures KeyState(log[..k], id) == KeyState(log[..m], id) {
      SameKeysBetween(log, m, k, id);
    }
    SameKeysSameImage(kv, log[..m], log[..k]);
  }

  lemma DeliverKeepsInv(log: Log, w: State, k: nat, readOk: bool)
    requires ValidLog(log) && FreshHashes(log) && Inv(log, w)
    ensures Inv(log, DeliverStep(log, w, k, readOk))
  {
    var w' := DeliverStep(log, w, k, readOk);
    if w' != w && log[k].KeyEnv? {
      PlanIsDue(log, w, k);
    }
  }

  lemma WriteKeepsInv(log: Log, w: State, outcome: KvOutcome)
    requires ValidLog(log) && FreshHashes(log) && Inv(log, w)
    ensures Inv(log, WriteStep(w, outcome))
  {
    hide KeyState, ValidLog, FreshHashes, IsImage, DueWrites, Learn;
    var w' := WriteStep(w, outcome);
    if w' != w {
      var job := w.process.job.value;
      var ws := Due(log, w.marker);
      var kv := Base(log, NextOf(log, KeyStream, w.marker));
      assert log[job.k].KeyEnv? && job.ws == ws;
      if job.done == w.cut {
        assert ws[..w.cut + 1][..w.cut] == ws[..w.cut];
      } else {
        assert ws[..1] == [ws[0]];
        ApplyTwo(kv, ws[0], ws[0]);
        WriteAgain(log, w, kv);
      }
    }
  }

  /** The first write of an event made a second time changes nothing. */
  lemma WriteAgain(log: Log, w: State, kv: Bucket)
    requires ValidLog(log) && FreshHashes(log) && w.marker <= |log| && Due(log, w.marker) != []
    requires kv == Base(log, NextOf(log, KeyStream, w.marker))
    ensures var put := Due(log, w.marker)[0]; Apply(Apply(kv, put), put) == Apply(kv, put)
  {
  }

  lemma SaveMarkerKeepsInv(log: Log, w: State, outcome: KvOutcome)
    requires ValidLog(log) && FreshHashes(log) && Inv(log, w)
    ensures Inv(log, SaveMarkerStep(log, w, outcome))
  {
    hide KeyState, Due;
    var w' := SaveMarkerStep(log, w, outcome);
    if w' != w {
      var k := w.process.job.value.k;
      MarkerCovers(log, w, k);
      if !w'.process.failed {
        var next := log[..k + 1];
        forall id | Exists(next, id)
          ensures MapNow(w'.process.hashes, log, w.process.from, w.process.warm, k + 1, id)
        {
          MapNowAfter(log, w, k, id);
        }
      }
    }
  }

  lemma BaseAfter(log: Log, k: nat)
    requires ValidLog(log) && FreshHashes(log) && k < |log| && log[k].KeyEnv?
    ensures ApplyAll(Base(log, k), DueWrites(Base(log, k), log, k)) == Base(log, k + 1)
  {
    hide KeyState, IsImage, Base, FreshHashes, ValidLog, ApplyAll, DueWrites;
    var kv := Base(log, k);
    BaseIsImage(log, k);
    DueIsEvent(log, k, kv);
    BaseIsImage(log, k + 1);
    ImageUnique(ApplyAll(kv, DueWrites(kv, log, k)), Base(log, k + 1), log[..k + 1]);
  }

  /** When an event's writes are done, the bucket is the fold that includes it. */
  lemma MarkerCovers(log: Log, w: State, k: nat)
    requires ValidLog(log) && FreshHashes(log) && BucketOk(log, w)
    requires k < w.head && InOrder(log, KeyStream, w.marker, k)
    requires log[k].KeyEnv? ==> w.cut == |Due(log, w.marker)|
    ensures BucketOk(log, w.(marker := k + 1, cut := if log[k].KeyEnv? then 0 else w.cut))
  {
    hide KeyState, IsImage, Base, FreshHashes, ValidLog, DueWrites;
    if log[k].KeyEnv? {
      assert k == NextOf(log, KeyStream, w.marker);
      var ws := Due(log, w.marker);
      assert ws[..|ws|] == ws;
      BaseAfter(log, k);
      BaseSkipsOthers(log, k + 1, NextOf(log, KeyStream, k + 1));
      assert Due(log, k + 1)[..0] == [];
    } else {
      assert NextOf(log, KeyStream, k + 1) == NextOf(log, KeyStream, w.marker);
    }
  }

  /** All of an event's due writes turn the fold before it into the fold after it. */
  lemma DueIsEvent(log: Log, k: nat, kv: Bucket)
    requires ValidLog(log) && FreshHashes(log) && k < |log| && log[k].KeyEnv? && IsImage(kv, log[..k])
    ensures IsImage(ApplyAll(kv, DueWrites(kv, log, k)), log[..k + 1])
  {
    var id := log[k].id;
    KeyEventDecided(log, k);
    EventKeepsImage(Proj(kv, map[id := KeyState(log[..k], id).hash], false), log, k);
  }

  lemma MapNowAfter(log: Log, w: State, k: nat, id: string)
    requires ValidLog(log) && FreshHashes(log) && ProcessOk(log, w)
    requires w.process.Up? && !w.process.failed && w.marker <= w.head <= |log|
    requires k < w.head && InOrder(log, KeyStream, w.marker, k) && Exists(log[..k + 1], id)
    ensures MapNow(Learn(w.process.hashes, log[k]), log, w.process.from, w.process.warm, k + 1, id)
  {
    var (hashes, from, warm) := (w.process.hashes, w.process.from, w.process.warm);
    MapNowSkips(log, w, k, id);
    if k < warm {
      var seen := log[..warm];
      ValidPrefix(log, warm);
      assert seen[..k] == log[..k] && seen[..k + 1] == log[..k + 1] && seen[k] == log[k];
      MapAfter(hashes, seen, from, k, id);
    } else {
      if k == warm && Exists(log[..k], id) {
        assert log[..warm][..warm] == log[..warm];
        assert MapAt(hashes, log[..warm], from, warm, id);
      }
      LearnKeepsKnowing(hashes, log, k, id);
    }
  }

  /** Events of other aggregates change nothing about what the map may say. */
  lemma MapNowSkips(log: Log, w: State, k: nat, id: string)
    requires ValidLog(log) && ProcessOk(log, w)
    requires w.process.Up? && !w.process.failed && w.marker <= w.head <= |log|
    requires k < w.head && InOrder(log, KeyStream, w.marker, k)
    ensures Exists(log[..k], id) ==> MapNow(w.process.hashes, log, w.process.from, w.process.warm, k, id)
  {
    var (hashes, from, warm, pos) := (w.process.hashes, w.process.from, w.process.warm, w.marker);
    SameKeysBetween(log, pos, k, id);
    if Exists(log[..k], id) {
      assert MapNow(hashes, log, from, warm, pos, id);
      if pos <= warm {
        var seen := log[..warm];
        assert seen[..pos] == log[..pos];
        if k <= warm {
          assert seen[..k] == log[..k];
          RotatedInSkips(seen, from, pos, k, id);
        } else {
          SameKeysBetween(log, pos, warm, id);
          HashAfterOthers(seen, from, pos, id);
        }
      }
    }
  }

  lemma RotatedInSkips(log: Log, from: nat, pos: nat, k: nat, id: string)
    requires from <= pos <= k <= |log| && NoneBetween(log, KeyStream, pos, k)
    ensures RotatedIn(log, from, pos, id) <==> RotatedIn(log, from, k, id)
  {
    if RotatedIn(log, from, pos, id) {
      var j :| from <= j < pos && Rotates(log[j], id);
      assert from <= j < k;
    }
    if RotatedIn(log, from, k, id) {
      var j :| from <= j < k && Rotates(log[j], id);
      assert j < pos;
    }
  }

  /** Past the end of what the warm-up saw, with no key event left in it, the map is right. */
  lemma HashAfterOthers(seen: Log, from: nat, pos: nat, id: string)
    requires from <= pos <= |seen| && NoneBetween(seen, KeyStream, pos, |seen|)
    ensures KeyState(seen, id) == KeyState(seen[..pos], id)
  {
    SameKeysBetween(seen, pos, |seen|, id);
    assert seen[..|seen|] == seen;
  }

  lemma StartKeepsInv(log: Log, w: State)
    requires ValidLog(log) && FreshHashes(log) && Inv(log, w)
    ensures Inv(log, Step(log, w, Start))
  {
    if w.process.Down? {
      var seen := log[..w.head];
      ValidPrefix(log, w.head);
      assert seen[..w.marker] == log[..w.marker];
      var before := log[..w.marker];
      forall id | Exists(before, id)
        ensures MapNow(WarmUp(seen), log, w.marker, w.head, w.marker, id)
      {
        ExistsForever(seen, w.marker, id);
        WarmUpKnowsFinalHash(seen, id);
      }
    }
  }

  lemma StepKeepsInv(log: Log, w: State, a: Action)
    requires ValidLog(log) && FreshHashes(log) && Inv(log, w)
    ensures Inv(log, Step(log, w, a))
  {
    hide KeyState, Due, DeliverStep, WriteStep, SaveMarkerStep;
    match a
    case Grow =>
    case Start => StartKeepsInv(log, w);
    case Deliver(k, readOk) => DeliverKeepsInv(log, w, k, readOk);
    case WriteNext(outcome) => WriteKeepsInv(log, w, outcome);
    case SaveMarker(outcome) => SaveMarkerKeepsInv(log, w, outcome);
    case Crash =>
  }

  lemma {:induction false} RunInv(log: Log, actions: seq<Action>)
    requires ValidLog(log) && FreshHashes(log)
    ensures Inv(log, Run(log, actions))
  {
    hide KeyState, Due, Step;
    if actions == [] {
      BaseSkipsOthers(log, 0, NextOf(log, KeyStream, 0));
      assert log[..0] == [] && Due(log, 0)[..0] == [];
    } else {
      RunInv(log, actions[..|actions| - 1]);
      StepKeepsInv(log, Run(log, actions[..|actions| - 1]), actions[|actions| - 1]);
    }
  }

  /**
   At every moment of every run, KEYS is the fold of what the marker covers plus some of the next
   event's writes, first ones first. So no event below the marker has a write missing.
   */
  lemma MarkerNeverAhead(log: Log, actions: seq<Action>) returns (kv: Bucket, k: nat, done: nat)
    requires ValidLog(log) && FreshHashes(log)
    ensures var w := Run(log, actions);
            && w.marker <= k <= |log| && NoneBetween(log, KeyStream, w.marker, k)
            && IsImage(kv, log[..w.marker])
            && if k == |log| then w.kv == kv
               else log[k].KeyEnv? && done <= |DueWrites(kv, log, k)| && w.kv == ApplyAll(kv, DueWrites(kv, log, k)[..done])
  {
    RunInv(log, actions);
    var w := Run(log, actions);
    k, done := NextOf(log, KeyStream, w.marker), w.cut;
    kv := Base(log, k);
    BaseSkipsOthers(log, w.marker, k);
    BaseIsImage(log, w.marker);
    assert Due(log, w.marker)[..0] == [];
  }

  // ---------- The apply method, and its calls as steps of a run ----------

  datatype Projector = Projector(kv: Bucket, hashes: HashMap, marker: nat, pos: nat, failed: bool)

  /** Up to two writes, the second only after the first succeeded. */
  function Wrote(kv: Bucket, ws: seq<Write>, io: Io): (Bucket, bool) {
    if ws == [] then (kv, true)
    else
      var kv' := if io.first.FailedLost? then kv else Apply(kv, ws[0]);
      if !io.first.Success? || |ws| == 1 then (kv', io.first.Success?)
      else (if io.second.FailedLost? then kv' else Apply(kv', ws[1]), io.second.Success?)
  }

  function Saved(p: Projector, d: Delivery): Projector {
    p.(pos := d.position, marker := if d.io.save.FailedLost? then p.marker else d.position, failed := !d.io.save.Success?)
  }

  /** One turn of apply's loop. */
  function ApplyDelivery(p: Projector, d: Delivery): Projector {
    if p.failed || d.position <= p.pos then p
    else if !d.event.KeyEnv? then Saved(p, d)
    else
      match Writes(p.kv, p.hashes, d.event.id, d.event.key)
      case Err(_) => p.(failed := true)
      case Ok(ws) =>
        if Reads(d.event.key) && !d.io.readOk then p.(failed := true)
        else
          var (kv, ok) := Wrote(p.kv, ws, d.io);
          if ok then Saved(p.(kv := kv, hashes := Learn(p.hashes, d.event)), d) else p.(kv := kv, failed := true)
  }

  function ApplyBatch(p: Projector, batch: seq<Delivery>): Projector {
    if batch == [] then p else ApplyDelivery(ApplyBatch(p, batch[..|batch| - 1]), batch[|batch| - 1])
  }

  lemma {:induction false} FailedBatch(p: Projector, batch: seq<Delivery>, i: nat)
    requires i <= |batch| && ApplyBatch(p, batch[..i]).failed
    ensures ApplyBatch(p, batch) == ApplyBatch(p, batch[..i])
  {
    if i < |batch| {
      var init := batch[..|batch| - 1];
      assert init[..i] == batch[..i];
      FailedBatch(p, init, i);
    } else {
      assert batch[..i] == batch;
    }
  }

  function View(w: State): Projector
    requires w.process.Up?
  {
    Projector(w.kv, w.process.hashes, w.marker, w.process.pos, w.process.failed)
  }

  /** The delivery is of the log's event at its position, and comes in order or again. */
  predicate Deliverable(log: Log, pos: nat, head: nat, d: Delivery) {
    && 1 <= d.position <= head <= |log| && d.event == log[d.position - 1]
    && (d.position <= pos || InOrder(log, KeyStream, pos, d.position - 1))
  }

  function StepsOf(d: Delivery): seq<Action>
    requires d.position >= 1
  {
    [Deliver(d.position - 1, d.io.readOk), WriteNext(d.io.first), WriteNext(d.io.second), SaveMarker(d.io.save)]
  }

  function Steps(log: Log, w: State, actions: seq<Action>): State {
    if actions == [] then w else Step(log, Steps(log, w, actions[..|actions| - 1]), actions[|actions| - 1])
  }

  lemma {:induction false} RunThenSteps(log: Log, actions: seq<Action>, more: seq<Action>)
    ensures Run(log, actions + more) == Steps(log, Run(log, actions), more)
  {
    hide Step;
    if more == [] {
      assert actions + more == actions;
    } else {
      RunThenSteps(log, actions, more[..|more| - 1]);
      assert (actions + more)[..|actions + more| - 1] == actions + more[..|more| - 1];
    }
  }

  lemma FourSteps(log: Log, w: State, d: Delivery)
    requires d.position >= 1
    ensures Steps(log, w, StepsOf(d)) ==
            SaveMarkerStep(log, WriteStep(WriteStep(DeliverStep(log, w, d.position - 1, d.io.readOk), d.io.first), d.io.second), d.io.save)
  {
    hide SaveMarkerStep, WriteStep, DeliverStep;
    var (a, b, c, e) := (Deliver(d.position - 1, d.io.readOk), WriteNext(d.io.first), WriteNext(d.io.second), SaveMarker(d.io.save));
    assert [a, b, c, e][..3] == [a, b, c] && [a, b, c][..2] == [a, b] && [a, b][..1] == [a] && [a][..0] == [];
    assert Steps(log, w, [a, b, c]) == Step(log, Steps(log, w, [a, b]), c);
    assert Steps(log, w, [a, b]) == Step(log, Steps(log, w, [a]), b);
    assert Steps(log, w, [a]) == Step(log, w, a);
  }

  /** Once delivered and not refused, at most two write steps make exactly the calls of Wrote. */
  lemma WritesAreSteps(w: State, io: Io)
    requires w.process.Up? && w.process.job.Some? && w.process.job.value.done == 0 && |w.process.job.value.ws| <= 2
    requires !w.process.failed
    ensures var w' := WriteStep(WriteStep(w, io.first), io.second);
            var job := w.process.job.value;
            var (kv, ok) := Wrote(w.kv, job.ws, io);
            && w'.kv == kv && w'.marker == w.marker && w'.head == w.head
            && w'.process == if ok then w.process.(job := Some(Job(job.k, job.ws, |job.ws|)))
                             else w.process.(job := None, failed := true)
  {
  }

  lemma WritesAreFew(kv: Bucket, hashes: HashMap, e: Envelope)
    ensures e.KeyEnv? && Writes(kv, hashes, e.id, e.key).Ok? ==> |Writes(kv, hashes, e.id, e.key).value| <= 2
  {
  }

  lemma IdleStepsDoNothing(log: Log, w: State, io: Io)
    requires w.process.Up? && w.process.job.None?
    ensures SaveMarkerStep(log, WriteStep(WriteStep(w, io.first), io.second), io.save) == w
  {
  }

  lemma SavingIsSaved(log: Log, w: State, d: Delivery)
    requires w.process.Up? && w.process.job.Some? && !w.process.failed && 1 <= d.position <= |log| && d.event == log[d.position - 1]
    requires var job := w.process.job.value; job.k == d.position - 1 && job.done == |job.ws|
    ensures var w' := SaveMarkerStep(log, w, d.io.save);
            && w'.process.Up? && w'.process.job.None? && w'.head == w.head
            && View(w') == Saved(View(w).(hashes := Learn(w.process.hashes, d.event)), d)
  {
    hide Learn;
  }

  /** One turn of apply's loop is four steps of the machine. */
  lemma DeliveryIsSteps(log: Log, w: State, d: Delivery)
    requires w.process.Up? && w.process.job.None? && Deliverable(log, w.process.pos, w.head, d)
    ensures var w' := Steps(log, w, StepsOf(d));
            w'.process.Up? && w'.process.job.None? && w'.head == w.head && View(w') == ApplyDelivery(View(w), d)
  {
    FourSteps(log, w, d);
    hide Wrote, WriteStep, SaveMarkerStep, Steps, StepsOf, Writes, Reads;
    var w1 := DeliverStep(log, w, d.position - 1, d.io.readOk);
    if w1.process.job.None? {
      IdleStepsDoNothing(log, w1, d.io);
    } else {
      WroteNothing(w.kv, d.io);
      WritesAreFew(w.kv, w.process.hashes, d.event);
      WritesAreSteps(w1, d.io);
      var w2 := WriteStep(WriteStep(w1, d.io.first), d.io.second);
      if w2.process.job.None? {
        assert SaveMarkerStep(log, w2, d.io.save) == w2 by { SavingNothing(log, w2, d.io.save); }
      } else {
        SavingIsSaved(log, w2, d);
      }
    }
  }

  lemma SavingNothing(log: Log, w: State, outcome: KvOutcome)
    requires w.process.Up? && w.process.job.None?
    ensures SaveMarkerStep(log, w, outcome) == w
  {
  }

  lemma WroteNothing(kv: Bucket, io: Io)
    ensures Wrote(kv, [], io) == (kv, true)
  {
  }

  /** Every element of the batch is in order, or a duplicate, when apply gets to it. */
  ghost predicate Orderly(log: Log, p: Projector, head: nat, batch: seq<Delivery>) {
    forall i :: 0 <= i < |batch| ==> Deliverable(log, ApplyBatch(p, batch[..i]).pos, head, batch[i])
  }

  /** A whole call of apply is a stretch of a run, so what holds of all runs holds of the object. */
  lemma {:induction false} BatchIsSteps(log: Log, w: State, batch: seq<Delivery>) returns (actions: seq<Action>)
    requires w.process.Up? && w.process.job.None? && Orderly(log, View(w), w.head, batch)
    ensures var w' := Steps(log, w, actions);
            w'.process.Up? && w'.process.job.None? && w'.head == w.head && View(w') == ApplyBatch(View(w), batch)
  {
    if batch == [] {
      actions := [];
    } else {
      hide Step, ApplyDelivery, StepsOf, Deliverable;
      var init, last := batch[..|batch| - 1], batch[|batch| - 1];
      assert forall i :: 0 <= i < |init| ==> batch[..i] == init[..i];
      var before := BatchIsSteps(log, w, init);
      var w0 := Steps(log, w, before);
      LastIsDeliverable(log, View(w), w.head, batch);
      DeliveryIsSteps(log, w0, last);
      actions := before + StepsOf(last);
      StepsJoin(log, w, before, StepsOf(last));
    }
  }

  /** A call of apply at the end of a run is a longer run, so what holds of all runs holds of the object. */
  lemma BatchIsRun(log: Log, actions: seq<Action>, batch: seq<Delivery>) returns (more: seq<Action>)
    requires var w := Run(log, actions); w.process.Up? && w.process.job.None? && Orderly(log, View(w), w.head, batch)
    ensures var (w, w') := (Run(log, actions), Run(log, actions + more));
            w'.process.Up? && w'.process.job.None? && View(w') == ApplyBatch(View(w), batch)
  {
    hide Run, Steps, Orderly, ApplyBatch;
    more := BatchIsSteps(log, Run(log, actions), batch);
    RunThenSteps(log, actions, more);
  }

  lemma LastIsDeliverable(log: Log, p: Projector, head: nat, batch: seq<Delivery>)
    requires batch != [] && Orderly(log, p, head, batch)
    ensures batch[|batch| - 1].position >= 1
    ensures Deliverable(log, ApplyBatch(p, batch[..|batch| - 1]).pos, head, batch[|batch| - 1])
  {
  }

  lemma {:induction false} StepsJoin(log: Log, w: State, first: seq<Action>, more: seq<Action>)
    ensures Steps(log, w, first + more) == Steps(log, Steps(log, w, first), more)
  {
    hide Step;
    if more == [] {
      assert first + more == first;
    } else {
      StepsJoin(log, w, first, more[..|more| - 1]);
      assert (first + more)[..|first + more| - 1] == first + more[..|more| - 1];
    }
  }
}
