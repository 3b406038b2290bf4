/**
 The worker's handling of one delivered request (internal/worker/worker.go): frames numbered as they
 are published, one terminal outcome, one ack and one usage event whatever happens.
 */
module Worker {
  import opened Wrappers
  import opened Wire

  /** ibengine.Error carries its own code; ErrUnsupported has a fixed one; anything else is a worker error. */
  datatype EngineError = Unsupported(message: string) | Coded(code: string, message: string, httpStatus: int) | Plain(message: string)

  function TerminalError(e: EngineError): WireError {
    match e
    case Unsupported(message) => WireError("unsupported_kind", message, 400)
    case Coded(code, message, httpStatus) => WireError(code, message, httpStatus)
    case Plain(message) => WireError("worker_error", message, 502)
  }

  /** Why the request's context ended, if it did. */
  datatype Cause = Alive | ClientCanceled | DeadlineExceeded | Shutdown

  /** How an engine call ends; a panic may come after any number of chunks. */
  datatype End = Finished(response: string) | Failed(error: EngineError, cause: Cause) | Panicked(reason: string)

  /** One engine call: the chunks it emits before it ends, and the usage it returns. */
  datatype Call = Call(chunks: seq<string>, usage: Usage, end: End)

  /**
   Where handle itself panics, if it does, once the engine has returned: before the terminal frame is
   published (or, if there is none, before the ack), between frame and ack, between ack and usage
   event, or after the event.
   */
  datatype Point = BeforeFrame | BeforeAck | BeforeMeter | AfterMeter

  datatype Panic = Panic(point: Point, reason: string)

  /** A delivered message; expired says that its deadline passed before pickup. */
  datatype Request = Request(reqId: string, kind: string, stream: Option<bool>, expired: bool)

  predicate Streaming(r: Request) {
    r.kind != "embed" && r.stream == Some(true)
  }

  function ChunkFrames(chunks: seq<string>): seq<Message> {
    seq(|chunks|, i requires 0 <= i < |chunks| => Message(Chunk, i, chunks[i], None, None))
  }

  /** The terminal frame numbered n; a canceled request gets none. */
  function TerminalFrame(streaming: bool, call: Call, n: nat): seq<Message> {
    match call.end
    case Finished(response) =>
      if streaming then [Message(Done, n, "", None, Some(call.usage))]
      else [Message(Result, n, response, None, Some(call.usage))]
    case Failed(error, cause) =>
      if cause.Alive? then [Message(Error, n, "", Some(TerminalError(error)), None)] else []
    case Panicked(reason) => [Message(Error, n, "", Some(PanicError(reason)), None)]
  }

  /** Everything one delivery publishes: an expired one nothing, a non-streaming call no chunks. */
  function FramesOf(r: Request, call: Call): seq<Message> {
    if r.expired then []
    else
      var chunks := if Streaming(r) then call.chunks else [];
      ChunkFrames(chunks) + TerminalFrame(Streaming(r), call, |chunks|)
  }

  function UsageOf(r: Request, call: Call): UsageEvent {
    if r.expired then UsageEvent(r.reqId, "canceled", "", NO_USAGE, false)
    else
      match call.end
      case Finished(_) => UsageEvent(r.reqId, "ok", "", call.usage, Streaming(r) && call.usage == NO_USAGE)
      case Failed(error, Alive) => UsageEvent(r.reqId, "error", TerminalError(error).code, call.usage, true)
      case Failed(_, Shutdown) => UsageEvent(r.reqId, "canceled", "worker_shutdown", call.usage, true)
      case Failed(_, _) => UsageEvent(r.reqId, "canceled", "", call.usage, true)
      case Panicked(_) => UsageEvent(r.reqId, "error", "worker_panic", NO_USAGE, true)
  }

  function PanicError(reason: string): WireError {
    WireError("worker_panic", "worker panicked: " + reason, 500)
  }

  /** The recovery publishes one more frame, acks and meters, whatever has been done already. */
  function FramesWith(r: Request, call: Call, panic: Option<Panic>): seq<Message> {
    var frames := FramesOf(r, call);
    if panic.None? || r.expired || call.end.Panicked? then frames
    else
      var chunks := if Streaming(r) then call.chunks else [];
      var before := if panic.value.point.BeforeFrame? then ChunkFrames(chunks) else frames;
      before + [Message(Error, |before|, "", Some(PanicError(panic.value.reason)), None)]
  }

  function UsagesWith(r: Request, call: Call, panic: Option<Panic>): seq<UsageEvent> {
    var recovered := UsageEvent(r.reqId, "error", "worker_panic", NO_USAGE, true);
    if panic.None? || r.expired || call.end.Panicked? then [UsageOf(r, call)]
    else if panic.value.point.AfterMeter? then [UsageOf(r, call), recovered]
    else [recovered]
  }

  function AcksWith(r: Request, call: Call, panic: Option<Panic>): nat {
    if panic.None? || r.expired || call.end.Panicked? || panic.value.point.BeforeFrame? || panic.value.point.BeforeAck? then 1
    else 2
  }

  /** What leaves the worker for one message: response frames, acks, and usage events. */
  class Attempt {
    const request: Request
    var nextSeq: nat
    var published: seq<Message>
    var acks: nat
    var usages: seq<UsageEvent>

    constructor (request: Request)
      ensures this.request == request && nextSeq == 0 && published == [] && acks == 0 && usages == []
    {
      this.request := request;
      nextSeq, published, acks, usages := 0, [], 0, [];
    }

    method Publish(kind: Kind, payload: string, error: Option<WireError>, usage: Option<Usage>)
      modifies `nextSeq, `published
      ensures nextSeq == old(nextSeq) + 1
      ensures published == old(published) + [Message(kind, old(nextSeq), payload, error, usage)]
    {
      published := published + [Message(kind, nextSeq, payload, error, usage)];
      nextSeq := nextSeq + 1;
    }

    method Ack()
      modifies `acks
      ensures acks == old(acks) + 1
    {
      acks := acks + 1;
    }

    method Meter(usage: Usage, status: string, errorCode: string, estimated: bool)
      modifies `usages
      ensures usages == old(usages) + [UsageEvent(request.reqId, status, errorCode, usage, estimated)]
    {
      usages := usages + [UsageEvent(request.reqId, status, errorCode, usage, estimated)];
    }

    /** The deferred recovery. */
    method Recover(reason: string)
      modifies this
      ensures nextSeq == old(nextSeq) + 1
      ensures published == old(published) + [Message(Error, old(nextSeq), "", Some(PanicError(reason)), None)]
      ensures acks == old(acks) + 1
      ensures usages == old(usages) + [UsageEvent(request.reqId, "error", "worker_panic", NO_USAGE, true)]
    {
      Publish(Error, "", Some(WireError("worker_panic", "worker panicked: " + reason, 500)), None);
      Ack();
      Meter(NO_USAGE, "error", "worker_panic", true);
    }

    /** The frames, acks and usage events of one message, the engine's call and handle's own panic given. */
    method Handle(call: Call, panic: Option<Panic>)
      requires nextSeq == 0 && published == [] && acks == 0 && usages == []
      modifies this
      ensures published == FramesWith(request, call, panic)
      ensures acks == AcksWith(request, call, panic) && usages == UsagesWith(request, call, panic)
    {
      if request.expired {
        Ack();
        Meter(NO_USAGE, "canceled", "", false);
        return;
      }
      var streaming := request.kind != "embed" && request.stream == Some(true);
      if streaming {
        StreamChunks(call.chunks);
      } else {
        assert ChunkFrames([]) == [];
      }
      if call.end.Panicked? {
        Recover(call.end.reason);
        return;
      }
      if panic.Some? && panic.value.point.BeforeFrame? {
        Recover(panic.value.reason);
        return;
      }
      PublishTerminal(call, streaming);
      if panic.Some? && panic.value.point.BeforeAck? {
        Recover(panic.value.reason);
        return;
      }
      Ack();
      if panic.Some? && panic.value.point.BeforeMeter? {
        Recover(panic.value.reason);
        return;
      }
      MeterOutcome(call, streaming);
      if panic.Some? {
        Recover(panic.value.reason);
      }
    }

    method StreamChunks(chunks: seq<string>)
      requires nextSeq == 0 && published == []
      modifies `nextSeq, `published
      ensures nextSeq == |chunks| && published == ChunkFrames(chunks)
    {
      for i := 0 to |chunks|
        invariant nextSeq == i && published == ChunkFrames(chunks[..i])
      {
        Publish(Chunk, chunks[i], None, None);
        assert ChunkFrames(chunks[..i + 1]) == ChunkFrames(chunks[..i]) + [Message(Chunk, i, chunks[i], None, None)];
      }
      assert chunks[..|chunks|] == chunks;
    }

    /** The frame, if any, of the terminal switch. */
    method PublishTerminal(call: Call, streaming: bool)
      requires !call.end.Panicked?
      modifies `nextSeq, `published
      ensures published == old(published) + TerminalFrame(streaming, call, old(nextSeq))
      ensures nextSeq == old(nextSeq) + |TerminalFrame(streaming, call, old(nextSeq))|
    {
      if call.end.Finished? {
        if streaming {
          Publish(Done, "", None, Some(call.usage));
        } else {
          Publish(Result, call.end.response, None, Some(call.usage));
        }
      } else if call.end.cause.Alive? {
        Publish(Error, "", Some(TerminalError(call.end.error)), None);
      }
    }

    /** The usage event of the terminal switch. */
    method MeterOutcome(call: Call, streaming: bool)
      requires !call.end.Panicked? && !request.expired && streaming == Streaming(request)
      modifies `usages
      ensures usages == old(usages) + [UsageOf(request, call)]
    {
      if call.end.Finished? {
        Meter(call.usage, "ok", "", streaming && call.usage == NO_USAGE);
        return;
      }
      match call.end.cause
      case ClientCanceled => Meter(call.usage, "canceled", "", true);
      case DeadlineExceeded => Meter(call.usage, "canceled", "", true);
      case Shutdown => Meter(call.usage, "canceled", "worker_shutdown", true);
      case Alive => Meter(call.usage, "error", TerminalError(call.end.error).code, true);
    }
  }

  /** handle panics of itself after the engine has returned. */
  predicate PanicsAt(r: Request, call: Call, panic: Option<Panic>, points: set<Point>) {
    panic.Some? && !r.expired && !call.end.Panicked? && panic.value.point in points
  }

  /**
   One ack exactly when handle does not panic after its ack, one usage event exactly when it does not
   panic after that event, and well-framed frames exactly when it does not panic after a terminal one.
   */
  lemma ExactlyOnceIff(r: Request, call: Call, panic: Option<Panic>)
    ensures AcksWith(r, call, panic) == 1 <==> !PanicsAt(r, call, panic, {BeforeMeter, AfterMeter})
    ensures |UsagesWith(r, call, panic)| == 1 <==> !PanicsAt(r, call, panic, {AfterMeter})
    ensures WellFramed(FramesWith(r, call, panic)) <==>
            !(PanicsAt(r, call, panic, {BeforeAck, BeforeMeter, AfterMeter}) && TerminalFrame(Streaming(r), call, 0) != [])
  {
    hide Chunks;
    FramesAreWellFramed(r, call);
    var chunks := if Streaming(r) then call.chunks else [];
    var (frames, all) := (FramesOf(r, call), FramesWith(r, call, panic));
    if PanicsAt(r, call, panic, {BeforeAck, BeforeMeter, AfterMeter}) && TerminalFrame(Streaming(r), call, 0) != [] {
      TerminalFrameIsLast(Streaming(r), call, |chunks|);
      assert all[|chunks|] == frames[|chunks|] && all[|chunks|].Terminal() && |all| == |chunks| + 2;
    }
  }

  /** On every outcome the frames are numbered from 0, a terminal one is last, and the chunks are the engine's. */
  lemma FramesAreWellFramed(r: Request, call: Call)
    ensures WellFramed(FramesOf(r, call))
    ensures Streaming(r) && !r.expired ==> Chunks(FramesOf(r, call)) == call.chunks
    ensures !Streaming(r) || r.expired ==> Chunks(FramesOf(r, call)) == [] && |FramesOf(r, call)| <= 1
    ensures r.expired ==> FramesOf(r, call) == []
  {
    hide Chunks, TerminalFrame;
    var chunks := if Streaming(r) then call.chunks else [];
    ChunksOfChunkFrames(chunks);
    TerminalFrameIsLast(Streaming(r), call, |chunks|);
    ChunksAppend(ChunkFrames(chunks), TerminalFrame(Streaming(r), call, |chunks|));
    ChunksOfChunkFrames([]);
    assert ChunkFrames([]) == [];
  }

  lemma TerminalFrameIsLast(streaming: bool, call: Call, n: nat)
    ensures var t := TerminalFrame(streaming, call, n);
            |t| <= 1 && Chunks(t) == [] && forall i :: 0 <= i < |t| ==> t[i].seqNo == n && t[i].Terminal()
  {
    hide TerminalError;
    var t := TerminalFrame(streaming, call, n);
    assert t != [] ==> t[..0] == [];
  }

  lemma {:induction false} ChunksOfChunkFrames(chunks: seq<string>)
    ensures Chunks(ChunkFrames(chunks)) == chunks
  {
    if chunks != [] {
      var init := chunks[..|chunks| - 1];
      ChunksOfChunkFrames(init);
      assert ChunkFrames(chunks)[..|chunks| - 1] == ChunkFrames(init);
    }
  }

  /** A done or result frame goes out exactly when the engine finished, an error frame exactly when the event says error, and with its code. */
  lemma {:induction false} FramesMatchUsage(r: Request, call: Call)
    requires !r.expired
    ensures call.end.Finished? <==> UsageOf(r, call).status == "ok"
    ensures call.end.Finished? <==> exists m :: m in FramesOf(r, call) && (m.kind.Done? || m.kind.Result?)
    ensures UsageOf(r, call).status == "error" <==> exists m :: m in FramesOf(r, call) && m.kind.Error?
    ensures forall m :: m in FramesOf(r, call) && m.kind.Error? ==>
              m.error.Some? && m.error.value.code == UsageOf(r, call).errorCode
  {
    var chunks := if Streaming(r) then call.chunks else [];
    var terminal := TerminalFrame(Streaming(r), call, |chunks|);
    assert forall m :: m in ChunkFrames(chunks) ==> m.kind.Chunk?;
    assert forall m :: m in FramesOf(r, call) <==> m in ChunkFrames(chunks) || m in terminal;
    if terminal != [] {
      assert terminal[0] in FramesOf(r, call);
    }
    assert "ok" != "error" && "canceled" != "ok" && "canceled"[0] != "error"[0];
  }

  /** The code a failed call is known by: the engine's own, or one of two fixed ones. */
  predicate IsCodeOf(code: string, e: EngineError) {
    match e
    case Unsupported(_) => code == "unsupported_kind"
    case Coded(own, _, _) => code == own
    case Plain(_) => code == "worker_error"
  }

  /**
   What is billed: the engine's usage unless there is none; exact only for an expired request or a
   finished engine that, if it streamed, did report usage; and the status and code by how it ended.
   */
  lemma {:induction false} UsageIsBilled(r: Request, call: Call)
    ensures var u := UsageOf(r, call);
            && u.reqId == r.reqId
            && u.usage == (if r.expired || call.end.Panicked? then NO_USAGE else call.usage)
            && (u.estimated <==>
                  !r.expired && (!call.end.Finished? || (r.kind != "embed" && r.stream == Some(true) && call.usage == NO_USAGE)))
            && (u.status == "canceled" <==> r.expired || (call.end.Failed? && !call.end.cause.Alive?))
            && (u.status == "ok" <==> !r.expired && call.end.Finished?)
            && (u.status in {"ok", "canceled", "error"})
            && (u.status == "error" ==> if call.end.Failed? then IsCodeOf(u.errorCode, call.end.error) else u.errorCode == "worker_panic")
            && (u.status == "canceled" ==>
                  u.errorCode == if !r.expired && call.end.Failed? && call.end.cause.Shutdown? then "worker_shutdown" else "")
            && (u.status == "ok" ==> u.errorCode == "")
  {
    assert "canceled"[0] != "error"[0] && "canceled"[0] != "ok"[0] && "ok"[0] != "error"[0];
  }

  /** A panic of handle itself is told last, on the frames and on the meter, after what was done before it. */
  lemma PanicIsTold(r: Request, call: Call, panic: Option<Panic>)
    requires panic.Some? && !r.expired && !call.end.Panicked?
    ensures var (frames, usages) := (FramesWith(r, call, panic), UsagesWith(r, call, panic));
            && frames != [] && usages != []
            && (var (n, last) := (|frames| - 1, frames[|frames| - 1]);
                && frames[..n] <= FramesOf(r, call)
                && Chunks(frames) == Chunks(FramesOf(r, call))
                && last.kind.Error? && last.seqNo == n && last.usage.None?
                && last.error == Some(WireError("worker_panic", "worker panicked: " + panic.value.reason, 500)))
            && usages[|usages| - 1] == UsageEvent(r.reqId, "error", "worker_panic", NO_USAGE, true)
            && (|usages| > 1 ==> usages == [UsageOf(r, call), usages[|usages| - 1]])
  {
    hide Chunks, TerminalFrame;
    var chunks := if Streaming(r) then call.chunks else [];
    var (frames, sent, terminal) := (FramesWith(r, call, panic), FramesOf(r, call), TerminalFrame(Streaming(r), call, |chunks|));
    var last := frames[|frames| - 1];
    var before := frames[..|frames| - 1];
    assert before == ChunkFrames(chunks) || before == sent;
    TerminalFrameIsLast(Streaming(r), call, |chunks|);
    ChunksAppend(ChunkFrames(chunks), terminal);
    ChunksAppend(before, [last]);
    NoChunk(last);
    assert frames == before + [last];
  }

  lemma NoChunk(m: Message)
    requires !m.kind.Chunk?
    ensures Chunks([m]) == []
  {
    assert [m][..0] == [];
  }
}
