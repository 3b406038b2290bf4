/**
 Exactly what a client is answered: in closed form for any channel, and, with nothing lost, in terms of
 how the engine's call ended.
 */
module FrameAnswers {
  import opened Wrappers
  import opened Wire
  import opened Relay
  import opened Worker
  import opened FrameTheorems

  /** The chunks as data events, after a header if there is none yet. */
  function Shown(wroteHeader: bool, chunks: seq<string>): seq<Effect> {
    (if wroteHeader || chunks == [] then [] else [Head]) + seq(|chunks|, i requires 0 <= i < |chunks| => Data(chunks[i]))
  }

  lemma ShownFront(wroteHeader: bool, chunk: string, chunks: seq<string>)
    ensures Shown(wroteHeader, [chunk] + chunks) ==
            (if wroteHeader then [] else [Head]) + [Data(chunk)] + Shown(true, chunks)
  {
  }

  /** The error a frame tells of; a frame without one stands for an unknown failure. */
  function ErrorIn(m: Message): WireError {
    if m.error.Some? then m.error.value else WireError("unknown", "worker error", 502)
  }

  /** How a stream ends for a client that waits, by the last frame accepted; header says that something was shown. */
  function StreamEnd(done: bool, accepted: seq<Message>, gone: bool, header: bool): seq<Effect> {
    if done || (accepted != [] && (accepted[|accepted| - 1].kind.Done? || accepted[|accepted| - 1].kind.Result?)) then
      (if header then [] else [Head]) + [DoneMark]
    else if accepted != [] && accepted[|accepted| - 1].kind.Error? then
      var e := ErrorIn(accepted[|accepted| - 1]);
      if header then [ErrorData(e), DoneMark] else [ErrorBody(e.httpStatus, e.code, e.message)]
    else
      [CleanUp] + if gone || header then [] else [ErrorBody(504, "timeout", "no response from worker")]
  }

  lemma AcceptedNext(s: State)
    requires !s.done && s.ch != [] && s.ch[0].Some? && s.ch[0].value.seqNo == s.next
    ensures var m := s.ch[0].value; Accepted(s) == [m] + Accepted(State(s.ch[1..], s.next + 1, m.Terminal()))
    ensures s.ch[0].value.Terminal() ==> Accepted(s) == [s.ch[0].value]
  {
  }

  lemma NothingShown(wroteHeader: bool)
    ensures Shown(wroteHeader, []) == []
  {
  }

  lemma StopOutcome(s: State, gone: bool, wroteHeader: bool)
    requires !NextResult(s, false).1.Frame?
    ensures Chunks(Accepted(s)) == []
    ensures Ending(NextResult(s, false).1, gone, wroteHeader) == StreamEnd(s.done, Accepted(s), gone, wroteHeader)
  {
    var got := NextResult(s, false).1;
    if got.Remote? {
      AcceptedNext(s);
      NoChunk(s.ch[0].value);
    }
  }

  /** A frame that does not end the leg leaves the end to the frames after it. */
  lemma EndAfter(s: State, s': State, m: Message, gone: bool, header: bool)
    requires !s.done && s.ch != [] && s.ch[0] == Some(m) && m.seqNo == s.next && !m.kind.Error?
    requires s' == State(s.ch[1..], s.next + 1, m.Terminal())
    ensures Accepted(s) == [m] + Accepted(s')
    ensures Chunks(Accepted(s)) == (if m.kind.Chunk? then [m.payload] else []) + Chunks(Accepted(s'))
    ensures StreamEnd(s.done, Accepted(s), gone, header) == StreamEnd(s'.done, Accepted(s'), gone, header)
  {
    hide Chunks;
    AcceptedNext(s);
    ChunksFront(m, Accepted(s'));
    if s'.done {
      assert Accepted(s') == [];
    }
  }

  /** Whatever the channel holds, a client that waits is shown every accepted chunk and then that end. */
  lemma {:induction false} StreamOutcome(s: State, client: Client, i: nat, wroteHeader: bool)
    requires forall j: nat :: !client.ended(j)
    ensures var (a, shown) := (Accepted(s), Chunks(Accepted(s)));
            StreamOut(s, client, i, wroteHeader)
            == Shown(wroteHeader, shown) + StreamEnd(s.done, a, client.gone, wroteHeader || shown != [])
    decreases if s.done then 0 else 1 + |s.ch|
  {
    hide Shown, StreamEnd, Chunks, Accepted;
    var (s', got) := NextResult(s, client.ended(i));
    if got.Frame? {
      var m := got.message;
      var header := m.kind.Chunk? || wroteHeader;
      StreamOutcome(s', client, i + 1, header);
      var rest := Chunks(Accepted(s'));
      EndAfter(s, s', m, client.gone, header || rest != []);
      if m.kind.Chunk? {
        ShownFront(wroteHeader, m.payload, rest);
      } else {
        assert [] + rest == rest;
      }
    } else {
      StopOutcome(s, client.gone, wroteHeader);
      NothingShown(wroteHeader);
    }
  }

  /** The same for a client whose context ends at the n-th of the accepted frames: the chunks so far, and no [DONE]. */
  lemma {:induction false} StreamCutOff(s: State, client: Client, i: nat, wroteHeader: bool, n: nat)
    requires !s.done && n <= |Accepted(s)| && (forall j :: 0 <= j < n ==> !Accepted(s)[j].Terminal())
    requires (forall j: nat :: i <= j < i + n ==> !client.ended(j)) && client.ended(i + n)
    ensures var shown := Chunks(Accepted(s)[..n]);
            StreamOut(s, client, i, wroteHeader)
            == Shown(wroteHeader, shown) + [CleanUp] +
               (if client.gone || wroteHeader || shown != [] then [] else [ErrorBody(504, "timeout", "no response from worker")])
    decreases n
  {
    hide Shown, Chunks;
    if n == 0 {
      NoChunks();
      assert Accepted(s)[..0] == [];
      NothingShown(wroteHeader);
    } else {
      var m := s.ch[0].value;
      var s' := State(s.ch[1..], s.next + 1, m.Terminal());
      var header := m.kind.Chunk? || wroteHeader;
      AcceptedNext(s);
      assert Accepted(s)[0] == m && !m.Terminal();
      assert forall j :: 0 <= j < n - 1 ==> Accepted(s')[j] == Accepted(s)[j + 1];
      StreamCutOff(s', client, i + 1, header, n - 1);
      var rest := Accepted(s')[..n - 1];
      assert Accepted(s)[..n] == [m] + rest;
      ChunksFront(m, rest);
      if m.kind.Chunk? {
        ShownFront(wroteHeader, m.payload, Chunks(rest));
      } else {
        assert [] + Chunks(rest) == Chunks(rest);
      }
    }
  }

  lemma NoChunks()
    ensures Chunks([]) == []
  {
  }

  // ---------- A result ----------

  /** What a client that waits for one body gets, by the last frame accepted. */
  function ResultEnd(done: bool, accepted: seq<Message>, gone: bool): seq<Effect> {
    if accepted != [] && accepted[|accepted| - 1].kind.Result? then [ResultBody(accepted[|accepted| - 1].payload)]
    else if accepted != [] && accepted[|accepted| - 1].kind.Error? then
      var e := ErrorIn(accepted[|accepted| - 1]);
      [ErrorBody(e.httpStatus, e.code, e.message)]
    else if done || (accepted != [] && accepted[|accepted| - 1].kind.Done?) then
      [ErrorBody(502, "protocol_error", "stream ended without a result")]
    else
      [CleanUp] + if gone then [] else [ErrorBody(504, "timeout", "no response from worker")]
  }

  /** Whatever the channel holds: a result that is accepted is the body, whatever else its frame carries. */
  lemma {:induction false} ResultOutcome(s: State, client: Client, i: nat)
    requires forall j: nat :: !client.ended(j)
    ensures ResultOut(s, client, i) == ResultEnd(s.done, Accepted(s), client.gone)
    decreases if s.done then 0 else 1 + |s.ch|
  {
    var (s', got) := NextResult(s, client.ended(i));
    if got.Frame? || got.Remote? {
      AcceptedNext(s);
    }
    if got.Frame? && !got.message.kind.Result? {
      ResultOutcome(s', client, i + 1);
      if s'.done {
        assert Accepted(s') == [];
      }
    }
  }

  // ---------- Nothing lost ----------

  function Sent(frames: seq<Message>): seq<Raw> {
    seq(|frames|, i requires 0 <= i < |frames| => Some(frames[i]))
  }

  lemma {:induction false} AllAccepted(frames: seq<Message>, next: nat)
    requires forall i :: 0 <= i < |frames| ==> frames[i].seqNo == next + i
    requires forall i :: 0 <= i < |frames| && frames[i].Terminal() ==> i == |frames| - 1
    ensures Accepted(State(Sent(frames), next, false)) == frames
  {
    if frames != [] {
      var s := State(Sent(frames), next, false);
      AcceptedNext(s);
      assert Sent(frames)[1..] == Sent(frames[1..]);
      if frames[0].Terminal() {
        assert frames == [frames[0]];
      } else {
        AllAccepted(frames[1..], next + 1);
        assert frames == [frames[0]] + frames[1..];
      }
    }
  }

  /** The error a call that failed or panicked is answered with. */
  predicate Tells(e: WireError, end: End) {
    match end
    case Failed(Unsupported(message), _) => e.code == "unsupported_kind" && e.message == message && e.httpStatus == 400
    case Failed(Coded(code, message, httpStatus), _) => e.code == code && e.message == message && e.httpStatus == httpStatus
    case Failed(Plain(message), _) => e.code == "worker_error" && e.message == message && e.httpStatus == 502
    case Panicked(reason) => e.code == "worker_panic" && e.message == "worker panicked: " + reason && e.httpStatus == 500
    case Finished(_) => false
  }

  /** The engine was stopped before it could answer, so the worker sends no last frame. */
  predicate Stopped(end: End) {
    end.Failed? && !end.cause.Alive?
  }

  lemma LastFrame(r: Request, call: Call)
    requires !r.expired
    ensures var frames := FramesOf(r, call);
            && WellFramed(frames)
            && Chunks(frames) == (if r.kind != "embed" && r.stream == Some(true) then call.chunks else [])
            && (Stopped(call.end) ==> frames == [] || frames[|frames| - 1].kind.Chunk?)
            && (!Stopped(call.end) ==>
                  && frames != []
                  && var last := frames[|frames| - 1];
                     match call.end
                     case Finished(response) =>
                       if r.kind != "embed" && r.stream == Some(true) then last.kind.Done?
                       else last.kind.Result? && last.payload == response
                     case _ => last.kind.Error? && last.error.Some? && Tells(last.error.value, call.end))
  {
    hide Chunks;
    FramesAreWellFramed(r, call);
    var chunks := if Streaming(r) then call.chunks else [];
    assert FramesOf(r, call) == ChunkFrames(chunks) + TerminalFrame(Streaming(r), call, |chunks|);
  }

  /**
   A streaming request with nothing lost and a client that waits: all the engine's chunks, then [DONE]
   iff the engine finished, its error iff it failed or panicked, and neither iff it was stopped.
   */
  lemma StreamAnswer(r: Request, call: Call, client: Client)
    requires !r.expired && r.kind != "embed" && r.stream == Some(true) && forall j: nat :: !client.ended(j)
    ensures var out := StreamOut(State(Sent(FramesOf(r, call)), 0, false), client, 0, false);
            var header := call.chunks != [];
            && (call.end.Finished? ==> out == (if header then [] else [Head]) + Shown(false, call.chunks) + [DoneMark])
            && (!call.end.Finished? && !Stopped(call.end) ==>
                  exists e :: Tells(e, call.end) &&
                    out == Shown(false, call.chunks) +
                           if header then [ErrorData(e), DoneMark] else [ErrorBody(e.httpStatus, e.code, e.message)])
            && (Stopped(call.end) ==>
                  out == Shown(false, call.chunks) + [CleanUp] +
                         if client.gone || header then [] else [ErrorBody(504, "timeout", "no response from worker")])
            && (EndsCleanly(out) <==> call.end.Finished?)
  {
    hide Chunks, StreamOut, FramesOf, Shown, Accepted, EndsCleanly, Tells;
    var frames := FramesOf(r, call);
    LastFrame(r, call);
    AllAccepted(frames, 0);
    var s := State(Sent(frames), 0, false);
    StreamOutcome(s, client, 0, false);
    var end := StreamEnd(false, frames, client.gone, call.chunks != []);
    ShownIsFront(call.chunks);
    CleanIffDone(Shown(false, call.chunks), end);
    EndIsClean(frames, client.gone, call.chunks != []);
    if call.chunks == [] {
      NothingShown(false);
      assert [Head] + [] + [DoneMark] == [Head] + [DoneMark];
    }
  }

  lemma ShownIsFront(chunks: seq<string>)
    ensures forall i :: 0 <= i < |Shown(false, chunks)| ==> Shown(false, chunks)[i].Head? || Shown(false, chunks)[i].Data?
  {
  }

  /** What comes before it does not make an end clean or unclean. */
  lemma CleanIffDone(front: seq<Effect>, end: seq<Effect>)
    requires forall i :: 0 <= i < |front| ==> front[i].Head? || front[i].Data?
    ensures EndsCleanly(front + end) <==> DoneMark in end && forall e :: e in end ==> !e.ErrorData?
  {
    EffectsFront(front, end);
    if Reports(end) {
      var i :| 0 <= i < |end| && end[i].ErrorData?;
      assert end[i] in end;
    }
    if e :| e in end && e.ErrorData? {
      var i :| 0 <= i < |end| && end[i] == e;
      assert Reports(end);
    }
  }

  lemma EndIsClean(frames: seq<Message>, gone: bool, header: bool)
    ensures var end := StreamEnd(false, frames, gone, header);
            (DoneMark in end && forall e :: e in end ==> !e.ErrorData?) <==>
            frames != [] && (frames[|frames| - 1].kind.Done? || frames[|frames| - 1].kind.Result?)
  {
    var end := StreamEnd(false, frames, gone, header);
    assert end[0] in end && end[|end| - 1] in end;
  }

  /**
   Any other request with nothing lost and a client that waits: exactly one body, the engine's response
   iff it finished, its error iff it failed or panicked, and a time-out iff it was stopped.
   */
  lemma ResultAnswer(r: Request, call: Call, client: Client)
    requires !r.expired && (r.kind == "embed" || r.stream != Some(true)) && forall j: nat :: !client.ended(j)
    ensures var out := ResultOut(State(Sent(FramesOf(r, call)), 0, false), client, 0);
            && (call.end.Finished? ==> out == [ResultBody(call.end.response)])
            && (!call.end.Finished? && !Stopped(call.end) ==>
                  exists e :: Tells(e, call.end) && out == [ErrorBody(e.httpStatus, e.code, e.message)])
            && (Stopped(call.end) ==>
                  out == [CleanUp] + if client.gone then [] else [ErrorBody(504, "timeout", "no response from worker")])
  {
    hide Chunks, ResultOut, FramesOf, Accepted, Tells;
    var frames := FramesOf(r, call);
    LastFrame(r, call);
    AllAccepted(frames, 0);
    ResultOutcome(State(Sent(frames), 0, false), client, 0);
  }
}
