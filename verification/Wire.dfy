/** The response frames and usage records on the wire (internal/wire/types.go). */
module Wire {
  import opened Wrappers

  datatype Kind = Chunk | Done | Result | Error | Other(name: string)

  datatype WireError = WireError(code: string, message: string, httpStatus: int)

  datatype Usage = Usage(promptTokens: int, completionTokens: int, cachedTokens: int)

  const NO_USAGE := Usage(0, 0, 0)

  datatype Message = Message(kind: Kind, seqNo: nat, payload: string, error: Option<WireError>, usage: Option<Usage>)
  {
    predicate Terminal() {
      kind.Done? || kind.Result? || kind.Error?
    }
  }

  /** What a subscriber reads: None does not unmarshal. */
  type Raw = Option<Message>

  datatype UsageEvent = UsageEvent(reqId: string, status: string, errorCode: string, usage: Usage, estimated: bool)

  /** Frames numbered 0, 1, 2, ..., a terminal one only in the last place. */
  ghost predicate WellFramed(frames: seq<Message>) {
    && (forall i :: 0 <= i < |frames| ==> frames[i].seqNo == i)
    && (forall i :: 0 <= i < |frames| && frames[i].Terminal() ==> i == |frames| - 1)
  }

  /** The payloads of the chunk frames, in order. */
  function Chunks(frames: seq<Message>): seq<string> {
    if frames == [] then []
    else Chunks(frames[..|frames| - 1]) + if frames[|frames| - 1].kind.Chunk? then [frames[|frames| - 1].payload] else []
  }

  lemma {:induction false} ChunksOfPrefix(frames: seq<Message>, n: nat)
    requires n <= |frames|
    ensures Chunks(frames[..n]) <= Chunks(frames)
  {
    if n == |frames| {
      assert frames[..n] == frames;
    } else {
      var init := frames[..|frames| - 1];
      ChunksOfPrefix(init, n);
      assert init[..n] == frames[..n];
    }
  }

  lemma {:induction false} ChunksAppend(frames: seq<Message>, more: seq<Message>)
    ensures Chunks(frames + more) == Chunks(frames) + Chunks(more)
  {
    if more == [] {
      assert frames + more == frames;
    } else {
      ChunksAppend(frames, more[..|more| - 1]);
      assert (frames + more)[..|frames + more| - 1] == frames + more[..|more| - 1];
    }
  }
}
