/**
 The gateway's side of the response leg: the listener that detects gaps (internal/relay/relay.go) and
 the two loops that render what it returns (streamOut and resultOut in internal/gateway/gateway.go).
 */
module Relay {
  import opened Wrappers
  import opened Wire

  /** What Next returns: a frame, io.EOF, a worker's error, or a failure of the leg itself. */
  datatype Got = Frame(message: Message) | Eof | Remote(error: WireError) | Broken

  /** The subscription's channel, the next expected number, and the terminal latch. */
  datatype State = State(ch: seq<Raw>, next: nat, done: bool)

  const UNKNOWN_ERROR := WireError("unknown", "worker error", 502)

  /** Next waits for a message or for its context; ended says that the context wins. An empty channel leaves only the context. */
  function NextResult(s: State, ended: bool): (State, Got) {
    if s.done then (s, Eof)
    else if ended || s.ch == [] then (s, Broken)
    else
      var s' := s.(ch := s.ch[1..]);
      match s.ch[0]
      case None => (s', Broken)
      case Some(m) =>
        if m.seqNo != s.next then (s', Broken)
        else
          var s'' := s'.(next := s.next + 1, done := m.Terminal());
          if m.kind.Error? then (s'', Remote(if m.error.Some? then m.error.value else UNKNOWN_ERROR))
          else (s'', Frame(m))
  }

  class Listener {
    var ch: seq<Raw>
    var next: nat
    var done: bool

    ghost function Model(): State
      reads this
    {
      State(ch, next, done)
    }

    /** Listening starts before the request is published. */
    constructor (ch: seq<Raw>)
      ensures Model() == State(ch, 0, false)
    {
      this.ch, next, done := ch, 0, false;
    }

    method Next(ended: bool) returns (got: Got)
      modifies this
      ensures (Model(), got) == NextResult(old(Model()), ended)
    {
      if done {
        return Eof;
      }
      if ended || ch == [] {
        return Broken;
      }
      var raw := ch[0];
      ch := ch[1..];
      if raw.None? {
        return Broken;
      }
      var m := raw.value;
      if m.seqNo != next {
        return Broken;
      }
      next := next + 1;
      match m.kind
      case Error =>
        done := true;
        got := Remote(if m.error.None? then UNKNOWN_ERROR else m.error.value);
      case Done =>
        done := true;
        got := Frame(m);
      case Result =>
        done := true;
        got := Frame(m);
      case _ =>
        got := Frame(m);
    }
  }

  /** What the handler does for the client: headers, SSE events, a JSON error or result, or the cancel clean-up. */
  datatype Effect =
    | Head
    | Data(payload: string)
    | ErrorData(error: WireError)
    | DoneMark
    | ErrorBody(httpStatus: int, code: string, message: string)
    | ResultBody(payload: string)
    | CleanUp

  function Header(wroteHeader: bool): seq<Effect> {
    if wroteHeader then [] else [Head]
  }

  /** ended(i) says that the context is over at the i-th call of Next, gone that the client has hung up by then. */
  datatype Client = Client(ended: nat -> bool, gone: bool)

  function StreamOut(s: State, client: Client, i: nat, wroteHeader: bool): seq<Effect>
    decreases if s.done then 0 else 1 + |s.ch|
  {
    var (s', got) := NextResult(s, client.ended(i));
    match got
    case Eof => Header(wroteHeader) + [DoneMark]
    case Remote(error) =>
      if wroteHeader then [ErrorData(error), DoneMark] else [ErrorBody(error.httpStatus, error.code, error.message)]
    case Broken =>
      [CleanUp] + if client.gone || wroteHeader then [] else [ErrorBody(504, "timeout", "no response from worker")]
    case Frame(m) =>
      if m.kind.Chunk? then Header(wroteHeader) + [Data(m.payload)] + StreamOut(s', client, i + 1, true)
      else StreamOut(s', client, i + 1, wroteHeader)
  }

  function ResultOut(s: State, client: Client, i: nat): seq<Effect>
    decreases if s.done then 0 else 1 + |s.ch|
  {
    var (s', got) := NextResult(s, client.ended(i));
    match got
    case Eof => [ErrorBody(502, "protocol_error", "stream ended without a result")]
    case Remote(error) => [ErrorBody(error.httpStatus, error.code, error.message)]
    case Broken => [CleanUp] + if client.gone then [] else [ErrorBody(504, "timeout", "no response from worker")]
    case Frame(m) => if m.kind.Result? then [ResultBody(m.payload)] else ResultOut(s', client, i + 1)
  }

  /** A frame either latches done or shortens the channel. */
  lemma NextShrinks(s: State, ended: bool)
    ensures var (s', got) := NextResult(s, ended);
            got.Frame? ==> !s.done && |s'.ch| == |s.ch| - 1
  {
  }

  class Response {
    var effects: seq<Effect>

    constructor ()
      ensures effects == []
    {
      effects := [];
    }

    method WriteHead(wroteHeader: bool)
      modifies this
      ensures effects == old(effects) + Header(wroteHeader)
    {
      if !wroteHeader {
        effects := effects + [Head];
      }
    }

    method RenderStream(l: Listener, client: Client)
      modifies this, l
      ensures effects == old(effects) + StreamOut(old(l.Model()), client, 0, false)
    {
      hide NextResult;
      var wroteHeader, i := false, 0;
      ghost var all := effects + StreamOut(l.Model(), client, 0, false);
      while true
        invariant all == effects + StreamOut(l.Model(), client, i, wroteHeader)
        decreases if l.done then 0 else 1 + |l.ch|
      {
        NextShrinks(l.Model(), client.ended(i));
        var got := l.Next(client.ended(i));
        match got {
          case Eof =>
            WriteHead(wroteHeader);
            effects := effects + [DoneMark];
            return;
          case Remote(error) =>
            if !wroteHeader {
              effects := effects + [ErrorBody(error.httpStatus, error.code, error.message)];
              return;
            }
            effects := effects + [ErrorData(error)];
            effects := effects + [DoneMark];
            return;
          case Broken =>
            effects := effects + [CleanUp];
            if !client.gone && !wroteHeader {
              effects := effects + [ErrorBody(504, "timeout", "no response from worker")];
            }
            return;
          case Frame(m) =>
            if m.kind.Chunk? {
              WriteHead(wroteHeader);
              wroteHeader := true;
              effects := effects + [Data(m.payload)];
            }
        }
        i := i + 1;
      }
    }

    method RenderResult(l: Listener, client: Client)
      modifies this, l
      ensures effects == old(effects) + ResultOut(old(l.Model()), client, 0)
    {
      hide NextResult;
      var i := 0;
      ghost var all := effects + ResultOut(l.Model(), client, 0);
      while true
        invariant all == effects + ResultOut(l.Model(), client, i)
        decreases if l.done then 0 else 1 + |l.ch|
      {
        NextShrinks(l.Model(), client.ended(i));
        var got := l.Next(client.ended(i));
        match got {
          case Remote(error) =>
            effects := effects + [ErrorBody(error.httpStatus, error.code, error.message)];
            return;
          case Eof =>
            effects := effects + [ErrorBody(502, "protocol_error", "stream ended without a result")];
            return;
          case Broken =>
            effects := effects + [CleanUp];
            if !client.gone {
              effects := effects + [ErrorBody(504, "timeout", "no response from worker")];
            }
            return;
          case Frame(m) =>
            if m.kind.Result? {
              effects := effects + [ResultBody(m.payload)];
              return;
            }
        }
        i := i + 1;
      }
    }
  }
}
