/**
 What the client of a response stream can rely on: with one attempt over a channel that may drop but
 not reorder, with any number of attempts over one that does not drop, and, exactly, with both.
 */
module FrameTheorems {
  import opened Wrappers
  import opened Wire
  import opened Relay
  import opened Worker

  // ---------- What the listener accepts ----------

  /** The frames Next hands on (or turns into an error), if its context never ends. */
  function Accepted(s: State): seq<Message>
    decreases |s.ch|
  {
    if s.done || s.ch == [] || s.ch[0].None? || s.ch[0].value.seqNo != s.next then []
    else
      var m := s.ch[0].value;
      [m] + Accepted(State(s.ch[1..], s.next + 1, m.Terminal()))
  }

  /** They are the front of the channel, numbered on from next, and only the last can be terminal. */
  lemma {:induction false} AcceptedIsFront(s: State)
    ensures var a := Accepted(s);
            && |a| <= |s.ch|
            && (forall i :: 0 <= i < |a| ==> s.ch[i] == Some(a[i]) && a[i].seqNo == s.next + i)
            && (forall i :: 0 <= i < |a| && a[i].Terminal() ==> i == |a| - 1)
            && (forall i :: 0 <= i < |a| && (a[i].kind.Done? || a[i].kind.Result? || a[i].kind.Error?) ==> i == |a| - 1)
    decreases |s.ch|
  {
    if !(s.done || s.ch == [] || s.ch[0].None? || s.ch[0].value.seqNo != s.next) {
      AcceptedIsFront(State(s.ch[1..], s.next + 1, s.ch[0].value.Terminal()));
    }
  }

  function Datas(effects: seq<Effect>): seq<string> {
    if effects == [] then []
    else (if effects[0].Data? then [effects[0].payload] else []) + Datas(effects[1..])
  }

  predicate Reports(effects: seq<Effect>) {
    exists i :: 0 <= i < |effects| && effects[i].ErrorData?
  }

  /** A [DONE] with no error event anywhere: what the client takes for a complete answer. */
  predicate EndsCleanly(effects: seq<Effect>) {
    DoneMark in effects && !Reports(effects)
  }

  lemma EffectsFront(front: seq<Effect>, rest: seq<Effect>)
    requires forall i :: 0 <= i < |front| ==> front[i].Head? || front[i].Data?
    ensures DoneMark in front + rest <==> DoneMark in rest
    ensures Reports(front + rest) <==> Reports(rest)
  {
    if Reports(front + rest) {
      var i :| 0 <= i < |front + rest| && (front + rest)[i].ErrorData?;
      assert rest[i - |front|].ErrorData?;
    }
    if Reports(rest) {
      var i :| 0 <= i < |rest| && rest[i].ErrorData?;
      assert (front + rest)[|front| + i].ErrorData?;
    }
  }

  lemma ChunksFront(m: Message, rest: seq<Message>)
    ensures Chunks([m] + rest) == (if m.kind.Chunk? then [m.payload] else []) + Chunks(rest)
  {
    ChunksAppend([m], rest);
    assert [m][..0] == [];
  }

  /** The stream shows a prefix of the accepted chunks, and ends cleanly only after all of them and a terminal frame. */
  ghost predicate Faithful(s: State, effects: seq<Effect>) {
    var a := Accepted(s);
    && Datas(effects) <= Chunks(a)
    && (EndsCleanly(effects) ==>
          && Datas(effects) == Chunks(a)
          && (s.done || (a != [] && (a[|a| - 1].kind.Done? || a[|a| - 1].kind.Result?))))
  }

  lemma {:induction false} StreamIsFaithful(s: State, client: Client, i: nat, wroteHeader: bool)
    ensures Faithful(s, StreamOut(s, client, i, wroteHeader))
    decreases if s.done then 0 else 1 + |s.ch|
  {
    var (s', got) := NextResult(s, client.ended(i));
    if got.Frame? {
      var m := got.message;
      var header := m.kind.Chunk? || wroteHeader;
      StreamIsFaithful(s', client, i + 1, header);
      var rest := StreamOut(s', client, i + 1, header);
      FrameIsFaithful(s, s', m, wroteHeader, rest);
      assert [] + rest == rest;
    } else {
      EndIsFaithful(s, got, client.gone, wroteHeader);
    }
  }

  /** What is written last, by what Next returned. */
  function Ending(got: Got, gone: bool, wroteHeader: bool): seq<Effect>
    requires !got.Frame?
  {
    match got
    case Eof => Header(wroteHeader) + [DoneMark]
    case Remote(error) =>
      if wroteHeader then [ErrorData(error), DoneMark] else [ErrorBody(error.httpStatus, error.code, error.message)]
    case Broken =>
      [CleanUp] + if gone || wroteHeader then [] else [ErrorBody(504, "timeout", "no response from worker")]
  }

  lemma {:induction false} NoData(effects: seq<Effect>)
    requires forall e :: e in effects ==> !e.Data?
    ensures Datas(effects) == []
  {
    if effects != [] {
      NoData(effects[1..]);
    }
  }

  lemma EndIsFaithful(s: State, got: Got, gone: bool, wroteHeader: bool)
    requires !got.Frame? && (got.Eof? ==> s.done)
    ensures Faithful(s, Ending(got, gone, wroteHeader))
  {
    var effects := Ending(got, gone, wroteHeader);
    NoData(effects);
    if got.Remote? && wroteHeader {
      assert effects[0].ErrorData?;
      assert Reports(effects);
    }
  }

  lemma FrameIsFaithful(s: State, s': State, m: Message, wroteHeader: bool, rest: seq<Effect>)
    requires !s.done && s.ch != [] && s.ch[0] == Some(m) && m.seqNo == s.next && !m.kind.Error?
    requires s' == State(s.ch[1..], s.next + 1, m.Terminal()) && Faithful(s', rest)
    ensures Faithful(s, (if m.kind.Chunk? then Header(wroteHeader) + [Data(m.payload)] else []) + rest)
  {
    var front := if m.kind.Chunk? then Header(wroteHeader) + [Data(m.payload)] else [];
    EffectsFront(front, rest);
    ChunksFront(m, Accepted(s'));
    assert Accepted(s) == [m] + Accepted(s');
    DatasFront(m, wroteHeader, rest);
    if s'.done {
      assert Accepted(s') == [];
    }
  }

  lemma DatasFront(m: Message, wroteHeader: bool, rest: seq<Effect>)
    ensures var front := if m.kind.Chunk? then Header(wroteHeader) + [Data(m.payload)] else [];
            Datas(front + rest) == (if m.kind.Chunk? then [m.payload] else []) + Datas(rest)
  {
    if m.kind.Chunk? {
      var data := [Data(m.payload)] + rest;
      assert data[1..] == rest;
      if wroteHeader {
        assert Header(wroteHeader) + [Data(m.payload)] + rest == data;
      } else {
        var all := Header(wroteHeader) + [Data(m.payload)] + rest;
        assert all[1..] == data;
      }
    } else {
      assert [] + rest == rest;
    }
  }

  // ---------- One attempt, frames may be lost ----------

  /** Entry i of the channel is the at[i]-th frame, or it arrived unreadable. */
  ghost predicate Places(ch: seq<Raw>, frames: seq<Message>, at: seq<nat>) {
    && |at| == |ch|
    && (forall i :: 0 <= i < |ch| ==> at[i] < |frames| && (ch[i].None? || ch[i] == Some(frames[at[i]])))
    && (forall i, j :: 0 <= i < j < |ch| ==> at[i] < at[j])
  }

  /** Frames may be dropped but not reordered or repeated. */
  ghost predicate LossyOf(ch: seq<Raw>, frames: seq<Message>) {
    exists at :: Places(ch, frames, at)
  }

  lemma AcceptedOfLossy(ch: seq<Raw>, frames: seq<Message>)
    requires WellFramed(frames) && LossyOf(ch, frames)
    ensures Accepted(State(ch, 0, false)) <= frames
  {
    var a := Accepted(State(ch, 0, false));
    AcceptedIsFront(State(ch, 0, false));
    var at :| Places(ch, frames, at);
    forall i | 0 <= i < |a| ensures i < |frames| && a[i] == frames[i] {
      assert ch[i] == Some(frames[at[i]]);
    }
    if a != [] {
      var n := |a| - 1;
      assert ch[n] == Some(frames[at[n]]);
      assert at[n] == n;
    }
  }

  /**
   A streaming attempt over a channel that drops: the client is shown a prefix of the chunks sent,
   and a clean [DONE] means that it was shown all of them.
   */
  lemma {:induction false} LossNeverCorrupts(ch: seq<Raw>, frames: seq<Message>, client: Client)
    requires WellFramed(frames) && LossyOf(ch, frames)
    ensures var out := StreamOut(State(ch, 0, false), client, 0, false);
            && Datas(out) <= Chunks(frames)
            && (EndsCleanly(out) ==> Datas(out) == Chunks(frames) && frames != [] && !frames[|frames| - 1].kind.Error?)
  {
    hide Datas, Chunks, EndsCleanly, StreamOut;
    var s := State(ch, 0, false);
    StreamIsFaithful(s, client, 0, false);
    AcceptedOfLossy(ch, frames);
    CleanMeansWhole(s, frames, StreamOut(s, client, 0, false));
  }

  /** If what is accepted starts the frames, faithful effects show a prefix of their chunks, all of them when clean. */
  lemma CleanMeansWhole(s: State, frames: seq<Message>, out: seq<Effect>)
    requires !s.done && WellFramed(frames) && Accepted(s) <= frames && Faithful(s, out)
    ensures Datas(out) <= Chunks(frames)
    ensures EndsCleanly(out) ==> Datas(out) == Chunks(frames) && frames != [] && !frames[|frames| - 1].kind.Error?
  {
    hide Datas, Chunks, EndsCleanly;
    var a := Accepted(s);
    ChunksOfPrefix(frames, |a|);
    assert frames[..|a|] == a;
    if EndsCleanly(out) {
      assert frames[|a| - 1].Terminal();
      assert a == frames;
    }
  }

  /** From the engine to the client, across the worker, the lossy leg and the gateway. */
  lemma CleanStreamIsTheEnginesAnswer(r: Request, call: Call, ch: seq<Raw>, client: Client)
    requires Streaming(r) && !r.expired && LossyOf(ch, FramesOf(r, call))
    ensures var out := StreamOut(State(ch, 0, false), client, 0, false);
            && Datas(out) <= call.chunks
            && (EndsCleanly(out) ==> call.end.Finished? && Datas(out) == call.chunks)
  {
    hide Datas, Chunks, EndsCleanly, StreamOut, FramesOf;
    FramesAreWellFramed(r, call);
    LossNeverCorrupts(ch, FramesOf(r, call), client);
    if EndsCleanly(StreamOut(State(ch, 0, false), client, 0, false)) {
      CleanNeedsTerminal(r, call, ch, client);
    }
  }

  /** A clean end was caused by a done frame, and only a finished call publishes one. */
  lemma CleanNeedsTerminal(r: Request, call: Call, ch: seq<Raw>, client: Client)
    requires !r.expired && LossyOf(ch, FramesOf(r, call))
    requires EndsCleanly(StreamOut(State(ch, 0, false), client, 0, false))
    ensures call.end.Finished?
  {
    hide Datas, Chunks, EndsCleanly, StreamOut, FramesOf, UsageOf;
    var s := State(ch, 0, false);
    FramesAreWellFramed(r, call);
    StreamIsFaithful(s, client, 0, false);
    AcceptedOfLossy(ch, FramesOf(r, call));
    var a := Accepted(s);
    assert a[|a| - 1] == FramesOf(r, call)[|a| - 1];
    assert a[|a| - 1] in FramesOf(r, call);
    FramesMatchUsage(r, call);
  }

  /** The non-streaming rendering: a result body is the payload of an accepted result frame. */
  lemma {:induction false} ResultIsAccepted(s: State, client: Client, i: nat, payload: string)
    requires ResultBody(payload) in ResultOut(s, client, i)
    ensures exists m :: m in Accepted(s) && m.kind.Result? && m.payload == payload
    decreases if s.done then 0 else 1 + |s.ch|
  {
    var (s', got) := NextResult(s, client.ended(i));
    var m := s.ch[0].value;
    assert Accepted(s) == [m] + Accepted(s');
    if m.kind.Result? {
      assert m in Accepted(s);
    } else {
      ResultIsAccepted(s', client, i + 1, payload);
    }
  }

  /** A chat or embed client that gets a result body gets the engine's response to that very call. */
  lemma ResultIsTheEnginesAnswer(r: Request, call: Call, ch: seq<Raw>, client: Client, payload: string)
    requires !r.expired && LossyOf(ch, FramesOf(r, call))
    requires ResultBody(payload) in ResultOut(State(ch, 0, false), client, 0)
    ensures call.end == Finished(payload)
  {
    hide ResultOut, TerminalError, Chunks;
    FramesAreWellFramed(r, call);
    AcceptedOfLossy(ch, FramesOf(r, call));
    ResultIsAccepted(State(ch, 0, false), client, 0, payload);
    var m :| m in Accepted(State(ch, 0, false)) && m.kind.Result? && m.payload == payload;
    assert m in FramesOf(r, call);
  }

  // ---------- Any number of attempts, frames may be lost ----------

  /** What arrives, and from which delivery attempt. */
  datatype Tagged = Tagged(attempt: nat, raw: Raw)

  function OfAttempt(sent: seq<Tagged>, a: nat): seq<Raw> {
    if sent == [] then []
    else OfAttempt(sent[..|sent| - 1], a) + if sent[|sent| - 1].attempt == a then [sent[|sent| - 1].raw] else []
  }

  function Channel(sent: seq<Tagged>): seq<Raw> {
    seq(|sent|, i requires 0 <= i < |sent| => sent[i].raw)
  }

  /** What the listener accepts of it all. */
  function AcceptedOf(sent: seq<Tagged>): seq<Message> {
    Accepted(State(Channel(sent), 0, false))
  }

  /** Each attempt numbers its own frames, and some of them arrive, in order; how attempts interleave is free. */
  ghost predicate Lossy(sent: seq<Tagged>, attempts: nat -> seq<Message>) {
    forall a: nat :: WellFramed(attempts(a)) && LossyOf(OfAttempt(sent, a), attempts(a))
  }

  /** The first k arrivals are frames 0, ..., k - 1 of one attempt, and the next is frame k of another one. */
  predicate SpliceAt(sent: seq<Tagged>, k: nat) {
    && 0 < k < |sent|
    && (forall i :: 0 <= i < k ==>
          && sent[i].attempt == sent[0].attempt
          && sent[i].raw.Some? && sent[i].raw.value.seqNo == i && !sent[i].raw.value.Terminal())
    && sent[k].attempt != sent[0].attempt
    && sent[k].raw.Some? && sent[k].raw.value.seqNo == k
  }

  predicate Spliced(sent: seq<Tagged>) {
    exists k :: 0 < k < |sent| && SpliceAt(sent, k)
  }

  /** Everything accepted came from one attempt. */
  predicate FromOneAttempt(sent: seq<Tagged>) {
    forall i :: 0 <= i < |AcceptedOf(sent)| && i < |sent| ==> sent[i].attempt == sent[0].attempt
  }

  /** A stretch numbered on from next with no terminal frame is accepted, and so is the frame after it if its number fits. */
  lemma {:induction false} NumberedIsAccepted(s: State, n: nat)
    requires !s.done && n < |s.ch|
    requires forall i :: 0 <= i <= n ==> s.ch[i].Some? && s.ch[i].value.seqNo == s.next + i
    requires forall i :: 0 <= i < n ==> !s.ch[i].value.Terminal()
    ensures |Accepted(s)| > n
    decreases n
  {
    if n > 0 {
      NumberedIsAccepted(State(s.ch[1..], s.next + 1, false), n - 1);
    }
  }

  /** The first accepted frame of another attempt, if there is one, is a splice. */
  lemma {:induction false} FirstOfAnother(sent: seq<Tagged>, n: nat)
    requires n < |AcceptedOf(sent)| <= |sent| && sent[n].attempt != sent[0].attempt
    ensures Spliced(sent)
    decreases n
  {
    AcceptedIsFront(State(Channel(sent), 0, false));
    if i: nat :| i < n && sent[i].attempt != sent[0].attempt {
      FirstOfAnother(sent, i);
    } else {
      forall i | 0 <= i <= n ensures sent[i].raw == Some(AcceptedOf(sent)[i]) {
        assert Channel(sent)[i] == sent[i].raw;
      }
      assert SpliceAt(sent, n);
    }
  }

  /** Exactly when the listener accepts frames of more than one attempt, whatever was lost. */
  lemma OneAttemptIff(sent: seq<Tagged>)
    ensures FromOneAttempt(sent) <==> !Spliced(sent)
  {
    var s := State(Channel(sent), 0, false);
    AcceptedIsFront(s);
    if Spliced(sent) {
      var k :| 0 < k < |sent| && SpliceAt(sent, k);
      NumberedIsAccepted(s, k);
      assert sent[k].attempt != sent[0].attempt;
    }
    if !FromOneAttempt(sent) {
      var i :| 0 <= i < |AcceptedOf(sent)| && i < |sent| && sent[i].attempt != sent[0].attempt;
      FirstOfAnother(sent, i);
    }
  }

  // ---------- What each arrival is ----------

  /** An arrival's place among those of its attempt is how many of them came before it. */
  lemma {:induction false} ArrivalPlace(sent: seq<Tagged>, i: nat)
    requires i < |sent|
    ensures var (a, p) := (sent[i].attempt, |OfAttempt(sent[..i], sent[i].attempt)|);
            p < |OfAttempt(sent, a)| && OfAttempt(sent, a)[p] == sent[i].raw
  {
    if i == |sent| - 1 {
      assert sent[..i] == sent[..|sent| - 1];
    } else {
      ArrivalPlace(sent[..|sent| - 1], i);
      assert sent[..|sent| - 1][..i] == sent[..i];
    }
  }

  /** A readable arrival is the frame of its attempt that its number says. */
  lemma ArrivalIsItsFrame(sent: seq<Tagged>, attempts: nat -> seq<Message>, i: nat)
    requires Lossy(sent, attempts) && i < |sent| && sent[i].raw.Some?
    ensures var (m, frames) := (sent[i].raw.value, attempts(sent[i].attempt));
            m.seqNo < |frames| && frames[m.seqNo] == m
  {
    var a := sent[i].attempt;
    ArrivalPlace(sent, i);
    assert WellFramed(attempts(a)) && LossyOf(OfAttempt(sent, a), attempts(a));
    var at :| Places(OfAttempt(sent, a), attempts(a), at);
  }

  lemma {:induction false} NoneOfAttempt(sent: seq<Tagged>, a: nat)
    requires forall i :: 0 <= i < |sent| ==> sent[i].attempt != a
    ensures OfAttempt(sent, a) == []
  {
    if sent != [] {
      NoneOfAttempt(sent[..|sent| - 1], a);
    }
  }

  /** At a splice the second attempt has lost its first k frames for good. */
  lemma SpliceNeedsLoss(sent: seq<Tagged>, attempts: nat -> seq<Message>, k: nat, i: nat)
    requires Lossy(sent, attempts) && SpliceAt(sent, k)
    requires i < |sent| && sent[i].attempt == sent[k].attempt && sent[i].raw.Some?
    ensures k < |attempts(sent[k].attempt)| && sent[k].raw.value == attempts(sent[k].attempt)[k]
    ensures sent[i].raw.value.seqNo >= k
  {
    var a := sent[k].attempt;
    ArrivalIsItsFrame(sent, attempts, k);
    ArrivalIsItsFrame(sent, attempts, i);
    NoneOfAttempt(sent[..k], a);
    ArrivalPlace(sent, k);
    ArrivalPlace(sent, i);
    assert WellFramed(attempts(a)) && LossyOf(OfAttempt(sent, a), attempts(a));
    var at :| Places(OfAttempt(sent, a), attempts(a), at);
    var p := |OfAttempt(sent[..i], a)|;
    assert p > 0 ==> at[0] < at[p];
  }

  // ---------- What the client sees ----------

  lemma AcceptedOfOne(sent: seq<Tagged>, attempts: nat -> seq<Message>) returns (a: nat)
    requires Lossy(sent, attempts) && FromOneAttempt(sent)
    ensures AcceptedOf(sent) <= attempts(a) && WellFramed(attempts(a))
  {
    hide LossyOf, WellFramed;
    AcceptedIsFront(State(Channel(sent), 0, false));
    var accepted := AcceptedOf(sent);
    a := if sent == [] then 0 else sent[0].attempt;
    assert WellFramed(attempts(a)) && LossyOf(OfAttempt(sent, a), attempts(a));
    forall i | 0 <= i < |accepted| ensures i < |attempts(a)| && accepted[i] == attempts(a)[i] {
      assert Channel(sent)[i] == sent[i].raw;
      ArrivalIsItsFrame(sent, attempts, i);
    }
    if accepted != [] {
      var n := |accepted| - 1;
      assert Channel(sent)[n] == sent[n].raw;
      ArrivalIsItsFrame(sent, attempts, n);
    }
  }

  /**
   With any losses and any number of attempts, and no splice: the client is shown chunks of one
   attempt only, from its first on, and a clean [DONE] only after all of them.
   */
  lemma UnsplicedShowsOneAnswer(sent: seq<Tagged>, attempts: nat -> seq<Message>, client: Client) returns (a: nat)
    requires Lossy(sent, attempts) && !Spliced(sent)
    ensures AcceptedOf(sent) <= attempts(a)
    ensures var out := StreamOut(State(Channel(sent), 0, false), client, 0, false);
            && Datas(out) <= Chunks(attempts(a))
            && (EndsCleanly(out) ==>
                  Datas(out) == Chunks(attempts(a)) && attempts(a) != [] && !attempts(a)[|attempts(a)| - 1].kind.Error?)
  {
    hide Datas, Chunks, EndsCleanly, StreamOut, Spliced, Lossy;
    OneAttemptIff(sent);
    a := AcceptedOfOne(sent, attempts);
    var s := State(Channel(sent), 0, false);
    StreamIsFaithful(s, client, 0, false);
    CleanMeansWhole(s, attempts(a), StreamOut(s, client, 0, false));
  }

  /** A client whose context lasts is shown every accepted chunk, so at a splice those of both attempts. */
  lemma {:induction false} LastingClientSeesAll(s: State, client: Client, i: nat, wroteHeader: bool)
    requires forall j: nat :: !client.ended(j)
    ensures Datas(StreamOut(s, client, i, wroteHeader)) == Chunks(Accepted(s))
    decreases if s.done then 0 else 1 + |s.ch|
  {
    var (s', got) := NextResult(s, client.ended(i));
    if got.Frame? {
      var m := got.message;
      var header := m.kind.Chunk? || wroteHeader;
      var rest := StreamOut(s', client, i + 1, header);
      LastingClientSeesAll(s', client, i + 1, header);
      DatasFront(m, wroteHeader, rest);
      ChunksFront(m, Accepted(s'));
      assert [] + rest == rest;
    } else {
      NoData(Ending(got, client.gone, wroteHeader));
      if got.Remote? {
        ChunksFront(s.ch[0].value, []);
        assert [s.ch[0].value] + [] == [s.ch[0].value] && Accepted(s) == [s.ch[0].value];
      }
    }
  }

  // ---------- Nothing lost ----------

  /** Frame after frame, though some may be unreadable. */
  predicate Arrives(got: seq<Raw>, frames: seq<Message>) {
    |got| <= |frames| && forall i :: 0 <= i < |got| ==> got[i].None? || got[i] == Some(frames[i])
  }

  /** Each attempt's frames arrive in order with none missing. */
  ghost predicate Lossless(sent: seq<Tagged>, attempts: nat -> seq<Message>) {
    forall a: nat :: WellFramed(attempts(a)) && Arrives(OfAttempt(sent, a), attempts(a))
  }

  lemma LosslessIsLossy(sent: seq<Tagged>, attempts: nat -> seq<Message>)
    requires Lossless(sent, attempts)
    ensures Lossy(sent, attempts)
  {
    forall a: nat ensures WellFramed(attempts(a)) && LossyOf(OfAttempt(sent, a), attempts(a)) {
      assert WellFramed(attempts(a)) && Arrives(OfAttempt(sent, a), attempts(a));
      var at := seq(|OfAttempt(sent, a)|, i => i);
      assert Places(OfAttempt(sent, a), attempts(a), at);
    }
  }

  /** Without loss an attempt's first arrival is its frame 0. */
  lemma FirstArrivalIsZero(sent: seq<Tagged>, attempts: nat -> seq<Message>, k: nat)
    requires Lossless(sent, attempts) && k < |sent| && sent[k].raw.Some?
    requires forall i :: 0 <= i < k ==> sent[i].attempt != sent[k].attempt
    ensures sent[k].raw.value.seqNo == 0
  {
    var a := sent[k].attempt;
    NoneOfAttempt(sent[..k], a);
    ArrivalPlace(sent, k);
    assert WellFramed(attempts(a)) && Arrives(OfAttempt(sent, a), attempts(a));
  }

  /** So no attempt ever continues another one. */
  lemma LosslessNeverSplices(sent: seq<Tagged>, attempts: nat -> seq<Message>)
    requires Lossless(sent, attempts)
    ensures !Spliced(sent)
  {
    forall k | 0 < k < |sent| ensures !SpliceAt(sent, k) {
      if sent[k].raw.Some? && forall i :: 0 <= i < k ==> sent[i].attempt != sent[k].attempt {
        FirstArrivalIsZero(sent, attempts, k);
      }
    }
  }

  /** Whatever attempts interleave, what is accepted is the beginning of one of them. */
  lemma AttemptsAreNeverSpliced(sent: seq<Tagged>, attempts: nat -> seq<Message>) returns (a: nat)
    requires Lossless(sent, attempts)
    ensures AcceptedOf(sent) <= attempts(a)
  {
    hide Lossless, Lossy, FromOneAttempt, Spliced;
    LosslessIsLossy(sent, attempts);
    LosslessNeverSplices(sent, attempts);
    OneAttemptIff(sent);
    a := AcceptedOfOne(sent, attempts);
  }

  /** So a redelivered request shows the client chunks of one attempt only, and all of them if it ends cleanly. */
  lemma RedeliveryNeverMixesAnswers(sent: seq<Tagged>, attempts: nat -> seq<Message>, client: Client) returns (a: nat)
    requires Lossless(sent, attempts)
    ensures var out := StreamOut(State(Channel(sent), 0, false), client, 0, false);
            && Datas(out) <= Chunks(attempts(a))
            && (EndsCleanly(out) ==> Datas(out) == Chunks(attempts(a)))
  {
    hide Lossless, Lossy, Spliced, Datas, Chunks, EndsCleanly, StreamOut;
    LosslessIsLossy(sent, attempts);
    LosslessNeverSplices(sent, attempts);
    a := UnsplicedShowsOneAnswer(sent, attempts, client);
  }

  // ---------- Both faults together ----------

  const CHAT := Request("r", "chat", Some(true), false)

  function TwoChunks(first: string, second: string, usage: Usage): Call {
    Call([first, second], usage, Finished(""))
  }

  /** The two attempts at one request; the engine answers each anew. */
  function TwoAttempts(usage: Usage): nat -> seq<Message> {
    a => FramesOf(CHAT, if a == 1 then TwoChunks("c", "d", usage) else TwoChunks("a", "b", usage))
  }

  /** Frames 1 and 2 of the first attempt and frame 0 of the second are lost. */
  function SplicedArrivals(usage: Usage): seq<Tagged> {
    [Tagged(0, Some(Message(Chunk, 0, "a", None, None))),
     Tagged(1, Some(Message(Chunk, 1, "d", None, None))),
     Tagged(1, Some(Message(Done, 2, "", None, Some(usage))))]
  }

  lemma TwoAttemptsFrames(usage: Usage, a: nat)
    ensures var f := TwoAttempts(usage)(a);
            f == [Message(Chunk, 0, if a == 1 then "c" else "a", None, None),
                  Message(Chunk, 1, if a == 1 then "d" else "b", None, None),
                  Message(Done, 2, "", None, Some(usage))]
  {
    assert "chat"[0] != "embed"[0];
    var call := if a == 1 then TwoChunks("c", "d", usage) else TwoChunks("a", "b", usage);
    assert Streaming(CHAT) && |call.chunks| == 2;
    assert FramesOf(CHAT, call) == ChunkFrames(call.chunks) + [Message(Done, 2, "", None, Some(usage))];
  }

  lemma ArrivalsOf(usage: Usage, a: nat)
    ensures var sent := SplicedArrivals(usage);
            OfAttempt(sent, a) == if a == 0 then [sent[0].raw] else if a == 1 then [sent[1].raw, sent[2].raw] else []
  {
    var sent := SplicedArrivals(usage);
    var (one, two) := ([sent[0]], [sent[0], sent[1]]);
    assert sent[..2] == two && two[..1] == one && one[..0] == [];
    assert OfAttempt(one, a) == if a == 0 then [sent[0].raw] else [];
    assert OfAttempt(two, a) == OfAttempt(one, a) + if a == 1 then [sent[1].raw] else [];
    assert OfAttempt(sent, a) == OfAttempt(two, a) + if a == 1 then [sent[2].raw] else [];
  }

  lemma SplicedArrivalsAreLossy(usage: Usage)
    ensures Lossy(SplicedArrivals(usage), TwoAttempts(usage))
  {
    hide OfAttempt, FramesOf;
    var sent := SplicedArrivals(usage);
    forall a: nat ensures WellFramed(TwoAttempts(usage)(a)) && LossyOf(OfAttempt(sent, a), TwoAttempts(usage)(a)) {
      TwoAttemptsFrames(usage, a);
      ArrivalsOf(usage, a);
      assert Places(OfAttempt(sent, a), TwoAttempts(usage)(a), if a == 0 then [0] else if a == 1 then [1, 2] else []);
    }
  }

  /** The condition is met by two runs of the worker: the client is shown one chunk of each and a clean [DONE]. */
  lemma LossAndRedeliveryCanSplice(usage: Usage, client: Client)
    requires forall i: nat :: !client.ended(i)
    ensures var sent := SplicedArrivals(usage);
            && Lossy(sent, TwoAttempts(usage)) && SpliceAt(sent, 1)
            && StreamOut(State(Channel(sent), 0, false), client, 0, false) == [Head, Data("a"), Data("d"), DoneMark]
  {
    hide Lossy;
    SplicedArrivalsAreLossy(usage);
    var sent := SplicedArrivals(usage);
    var ch := Channel(sent);
    var (s1, s2, s3) := (State(ch[1..], 1, false), State(ch[2..], 2, false), State(ch[3..], 3, true));
    assert ch[1..][1..] == ch[2..] && ch[2..][1..] == ch[3..];
    assert StreamOut(s3, client, 3, true) == [DoneMark];
    assert StreamOut(s2, client, 2, true) == [DoneMark];
    assert StreamOut(s1, client, 1, true) == [Data("d"), DoneMark];
  }
}
