/**
  The request-direction stamper: an incremental HTTP/1.1 head parser and printer that
  replaces the attribution headers of every request on a connection.

  A byte is carried as the Latin-1 character with its code, which is how the program itself
  reads a head.
  */
module RequestStamp {
  import opened Search
  import opened Text

  type Bytes = string
  /** A UTF-16 code unit of a JavaScript string. */
  type CodeUnit = u: int | 0 <= u < 0x1_0000

  const CRLF: Bytes := "\r\n"
  const BLANK_LINE: Bytes := "\r\n\r\n"
  const MAX_HEAD: nat := 256 * 1024

  datatype StampContext = StampContext(taskId: seq<CodeUnit>, orgId: seq<CodeUnit>)
  /** What the n-th head of the connection finds when it reads the runner's current context. */
  type Contexts = nat -> Option<StampContext>

  // ---------------------------------------------------------------- header lines

  /** Writing a string as Latin-1 keeps the low byte of every code unit. */
  function Latin1(units: seq<CodeUnit>): (r: Bytes)
    ensures |r| == |units|
    ensures forall i :: 0 <= i < |units| ==> r[i] < '\U{100}' && (units[i] - r[i] as int) % 256 == 0
  {
    seq(|units|, i requires 0 <= i < |units| => (units[i] % 256) as char)
  }

  function HeaderName(line: Bytes): Bytes {
    var colon := IndexOf(line, ":");
    Lower(Trim(if colon < 0 then line else line[..colon]))
  }

  /** Everything after the colon; the whole line when there is none. */
  function HeaderValue(line: Bytes): Bytes {
    line[IndexOf(line, ":") + 1..]
  }

  predicate IsDigit(c: char) { '0' <= c <= '9' }

  function DigitPrefix(s: string): string {
    if s != "" && IsDigit(s[0]) then [s[0]] + DigitPrefix(s[1..]) else ""
  }

  function DecimalValue(digits: string): nat
    requires forall i :: 0 <= i < |digits| ==> IsDigit(digits[i])
  {
    if digits == "" then 0
    else
      var last := digits[|digits| - 1];
      assert IsDigit(last);
      DecimalValue(digits[..|digits| - 1]) * 10 + (last as int - '0' as int)
  }

  function Power(base: nat, exponent: nat): nat {
    if exponent == 0 then 1 else base * Power(base, exponent - 1)
  }

  lemma DigitPrefixIsDigits(s: string)
    ensures forall i :: 0 <= i < |DigitPrefix(s)| ==> IsDigit(DigitPrefix(s)[i])
  {
  }

  /** `parseInt(s, 10)` restricted to the finite, non-negative results the framer accepts. */
  function ParseLength(s: string): Option<nat> {
    var negative := s != "" && s[0] == '-';
    var digits := DigitPrefix(if s != "" && (s[0] == '-' || s[0] == '+') then s[1..] else s);
    DigitPrefixIsDigits(if s != "" && (s[0] == '-' || s[0] == '+') then s[1..] else s);
    if digits == "" then None
    else
      var n := DecimalValue(digits);
      // From 2^1024 - 2^970 on, a decimal literal rounds to Infinity.
      if (negative && n > 0) || n + Power(2, 970) >= Power(2, 1024) then None else Some(n)
  }

  function LengthValue(line: Bytes): Option<nat> {
    ParseLength(Trim(HeaderValue(line)))
  }

  /** What a header line means to the framer. */
  datatype HeaderKind = Attribution | Length(value: Option<nat>) | ChunkedCoding | Other

  function Kind(line: Bytes): HeaderKind {
    var name := HeaderName(line);
    if name == "x-tasca-task-id" || name == "x-tasca-org-id" then Attribution
    else if name == "content-length" then Length(LengthValue(line))
    else if name == "transfer-encoding" && IndexOf(Lower(HeaderValue(line)), "chunked") >= 0 then ChunkedCoding
    else Other
  }

  function Method(requestLine: Bytes): Bytes {
    Upper(Split(requestLine, " ")[0])
  }

  const BODYLESS: set<string> := {"GET", "HEAD", "DELETE", "OPTIONS", "TRACE", "CONNECT"}

  // ---------------------------------------------------------------- framing and stamping

  /** The header lines that are not attribution, in order. */
  function Kept(headers: seq<Bytes>): seq<Bytes> {
    if headers == [] then []
    else
      var last := headers[|headers| - 1];
      Kept(headers[..|headers| - 1]) + (if Kind(last).Attribution? then [] else [last])
  }

  /** The length of the last Content-Length line. */
  function LastLength(headers: seq<Bytes>): Option<nat> {
    if headers == [] then None
    else
      var kind := Kind(headers[|headers| - 1]);
      if kind.Length? then kind.value else LastLength(headers[..|headers| - 1])
  }

  predicate Malformed(headers: seq<Bytes>) {
    exists h :: h in headers && Kind(h) == Length(None)
  }

  predicate Chunked(headers: seq<Bytes>) {
    exists h :: h in headers && Kind(h).ChunkedCoding?
  }

  /** The body length of a request with these head lines, or None when it cannot be framed. */
  function Framing(lines: seq<Bytes>): Option<nat>
    requires |lines| > 0
  {
    if Malformed(lines[1..]) || Chunked(lines[1..]) then None
    else if LastLength(lines[1..]).Some? then LastLength(lines[1..])
    else if Method(lines[0]) in BODYLESS then Some(0)
    else None
  }

  lemma NoHeaders()
    ensures Kept([]) == [] && LastLength([]) == None && !Malformed([]) && !Chunked([])
  {
  }

  lemma OneMoreHeader(headers: seq<Bytes>, i: nat)
    requires i < |headers|
    ensures Kept(headers[..i + 1]) == Kept(headers[..i]) + (if Kind(headers[i]).Attribution? then [] else [headers[i]])
    ensures LastLength(headers[..i + 1])
         == if Kind(headers[i]).Length? then Kind(headers[i]).value else LastLength(headers[..i])
    ensures Malformed(headers[..i + 1]) <==> Malformed(headers[..i]) || Kind(headers[i]) == Length(None)
    ensures Chunked(headers[..i + 1]) <==> Chunked(headers[..i]) || Kind(headers[i]).ChunkedCoding?
    ensures Kind(headers[i]) == Length(None) ==> Malformed(headers)
  {
    assert headers[i] in headers;
    var more := headers[..i + 1];
    assert more[..i] == headers[..i] && more[i] == headers[i];
    assert forall h :: h in more <==> h in headers[..i] || h == headers[i];
  }

  function AttributionLines(ctx: Option<StampContext>): seq<Bytes> {
    match ctx
    case None => []
    case Some(c) => ["X-Tasca-Task-Id: " + Latin1(c.taskId), "X-Tasca-Org-Id: " + Latin1(c.orgId)]
  }

  function Stamped(lines: seq<Bytes>, ctx: Option<StampContext>): (r: seq<Bytes>)
    requires |lines| > 0
    ensures |r| > 0
  {
    [lines[0]] + Kept(lines[1..]) + AttributionLines(ctx)
  }

  function PrintHead(lines: seq<Bytes>): Bytes
    requires |lines| > 0
  {
    Join(lines, CRLF) + BLANK_LINE
  }

  datatype Framed = Framed(head: Bytes, contentLength: nat)

  method FrameAndStamp(headRegion: Bytes, ctx: Option<StampContext>) returns (r: Option<Framed>)
    ensures var lines := Split(headRegion, CRLF);
            r == match Framing(lines)
                 case None => None
                 case Some(n) => Some(Framed(PrintHead(Stamped(lines, ctx)), n))
  {
    hide Kind, Malformed, Chunked, Method, Latin1, Split, Join;
    var lines := Split(headRegion, CRLF);
    ghost var headers := lines[1..];
    NoHeaders();
    var contentLength: Option<nat> := None;
    var chunked := false;
    var kept := [lines[0]];
    var i := 1;
    while i < |lines|
      invariant 1 <= i <= |lines|
      invariant kept == [lines[0]] + Kept(headers[..i - 1])
      invariant contentLength == LastLength(headers[..i - 1])
      invariant chunked == Chunked(headers[..i - 1])
      invariant !Malformed(headers[..i - 1])
    {
      var line := lines[i];
      OneMoreHeader(headers, i - 1);
      i := i + 1;
      match Kind(line) {
        case Attribution =>
          continue;
        case Length(n) =>
          if n.None? {
            return None;
          }
          contentLength := n;
        case ChunkedCoding =>
          chunked := true;
        case Other =>
      }
      kept := kept + [line];
    }
    assert headers[..i - 1] == headers;
    if chunked {
      return None;
    }
    var bodyLen: nat;
    if contentLength.Some? {
      bodyLen := contentLength.value;
    } else if Method(lines[0]) in BODYLESS {
      bodyLen := 0;
    } else {
      return None;
    }
    if ctx.Some? {
      kept := kept + ["X-Tasca-Task-Id: " + Latin1(ctx.value.taskId)];
      kept := kept + ["X-Tasca-Org-Id: " + Latin1(ctx.value.orgId)];
    }
    assert kept == Stamped(lines, ctx);
    r := Some(Framed(Join(kept, CRLF) + BLANK_LINE, bodyLen));
  }

  // ---------------------------------------------------------------- the whole-stream specification

  datatype Phase = Head(buffered: Bytes) | Body(remaining: nat) | Raw
  /** Where a connection stands, and how many heads it has stamped. */
  datatype State = State(phase: Phase, served: nat)
  datatype Outcome = Outcome(emitted: Bytes, state: State) {
    function After(prefix: Bytes): Outcome { this.(emitted := prefix + emitted) }
  }

  /** A stream that starts at a request head: frame, stamp, copy the body, repeat. */
  function AtHead(s: Bytes, ctxs: Contexts, n: nat): Outcome
    decreases |s|, 0
  {
    var i := IndexOf(s, BLANK_LINE);
    if i < 0 then
      if |s| > MAX_HEAD then Outcome(s, State(Raw, n)) else Outcome("", State(Head(s), n))
    else
      var lines := Split(s[..i], CRLF);
      match Framing(lines)
      case None => Outcome(s, State(Raw, n))
      case Some(length) => AtBody(s[i + 4..], length, ctxs, n + 1).After(PrintHead(Stamped(lines, ctxs(n))))
  }

  /** A stream that starts inside a body with `k` bytes to go. */
  function AtBody(s: Bytes, k: nat, ctxs: Contexts, n: nat): Outcome
    decreases |s|, 1
  {
    if |s| < k || s == "" then Outcome(s, State(Body(k - |s|), n))
    else if |s| == k then Outcome(s, State(Head(""), n))
    else AtHead(s[k..], ctxs, n).After(s[..k])
  }

  /** One more chunk, from wherever the connection stands. */
  function Resume(st: State, chunk: Bytes, ctxs: Contexts): Outcome {
    if chunk == "" then Outcome("", st)
    else
      match st.phase
      case Head(buffered) => AtHead(buffered + chunk, ctxs, st.served)
      case Body(remaining) => AtBody(chunk, remaining, ctxs, st.served)
      case Raw => Outcome(chunk, st)
  }

  lemma AfterAfter(o: Outcome, a: Bytes, b: Bytes)
    ensures o.After(b).After(a) == o.After(a + b)
    ensures o.After("") == o
  {
    assert a + b + o.emitted == a + (b + o.emitted);
  }

  /** Copying the part of a chunk that belongs to the body. */
  lemma ResumeBody(k: nat, buf: Bytes, ctxs: Contexts, n: nat)
    requires buf != ""
    ensures var m := if k < |buf| then k else |buf|;
            var next := if k == m then Head("") else Body(k - m);
            Resume(State(Body(k), n), buf, ctxs) == Resume(State(next, n), buf[m..], ctxs).After(buf[..m])
  {
    if k < |buf| {
      assert "" + buf[k..] == buf[k..];
    } else {
      assert buf[..|buf|] == buf && buf + "" == buf;
    }
  }

  /** A head that completes. */
  lemma ResumeHead(s: Bytes, ctxs: Contexts, n: nat)
    requires IndexOf(s, BLANK_LINE) >= 0
    ensures var i := IndexOf(s, BLANK_LINE);
            var lines := Split(s[..i], CRLF);
            Framing(lines).Some? ==>
              AtHead(s, ctxs, n)
              == Resume(State(Body(Framing(lines).value), n + 1), s[i + 4..], ctxs).After(PrintHead(Stamped(lines, ctxs(n))))
  {
  }

  const START: State := State(Head(""), 0)

  // ---------------------------------------------------------------- the transform

  datatype Mode = HeadMode | BodyMode | RawMode

  class RequestStamper {
    const contexts: Contexts
    var state: Mode
    var head: Bytes
    var bodyRemaining: nat
    var served: nat
    /** Everything pushed downstream so far. */
    var pushed: Bytes
    /** The reasons the fallback callback has been given. */
    var fallbacks: seq<string>

    ghost predicate Valid()
      reads this
    {
      && (state == HeadMode ==> IndexOf(head, BLANK_LINE) < 0)
      && (state != HeadMode ==> head == "")
      && |head| <= MAX_HEAD
      && |fallbacks| <= 1
      && (fallbacks != [] <==> state == RawMode)
    }

    ghost function Current(): State
      reads this
    {
      State(match state case HeadMode => Head(head) case BodyMode => Body(bodyRemaining) case RawMode => Raw, served)
    }

    constructor (getContext: Contexts)
      ensures Valid() && Current() == START && pushed == "" && contexts == getContext
    {
      contexts := getContext;
      state, head, bodyRemaining, served := HeadMode, "", 0, 0;
      pushed, fallbacks := "", [];
    }

    method Fallback(reason: string)
      requires state == HeadMode && fallbacks == []
      modifies this
      ensures pushed == old(pushed) + old(head) && head == "" && state == RawMode
      ensures fallbacks == [reason] && served == old(served) && bodyRemaining == old(bodyRemaining)
    {
      pushed := pushed + head;
      head := "";
      state := RawMode;
      fallbacks := fallbacks + [reason];
    }

    /** One turn of the loop: the bytes pushed, the bytes left to handle, and the state they are left to. */
    ghost predicate Turned(was: State, buf: Bytes, piece: Bytes, rest: Bytes)
      reads this
    {
      Resume(was, buf, contexts) == Resume(Current(), rest, contexts).After(piece)
    }

    method TakeBody(buf: Bytes) returns (rest: Bytes, ghost piece: Bytes)
      requires Valid() && state == BodyMode && buf != ""
      modifies this
      ensures Valid() && fallbacks == old(fallbacks)
      ensures pushed == old(pushed) + piece && Turned(old(Current()), buf, piece, rest)
      ensures |rest| < |buf| || (rest == buf && state != BodyMode)
    {
      ResumeBody(bodyRemaining, buf, contexts, served);
      if bodyRemaining <= 0 {
        state := HeadMode;
        head := "";
        return buf, buf[..0];
      }
      var n := if bodyRemaining < |buf| then bodyRemaining else |buf|;
      pushed := pushed + buf[..n];
      bodyRemaining := bodyRemaining - n;
      rest, piece := buf[n..], buf[..n];
      if bodyRemaining == 0 {
        state := HeadMode;
        head := "";
      }
    }

    method TakeHead(buf: Bytes) returns (rest: Bytes, ghost piece: Bytes)
      requires Valid() && state == HeadMode && buf != ""
      modifies this
      ensures Valid() && old(fallbacks) <= fallbacks
      ensures pushed == old(pushed) + piece && Turned(old(Current()), buf, piece, rest)
      ensures |rest| < |buf|
    {
      hide AtBody, Kind, Framing, Stamped, PrintHead;
      IndexOfExtended(head, buf, BLANK_LINE);
      head := head + buf;
      ghost var whole := head;
      var idx := IndexOf(head, BLANK_LINE);
      if idx == -1 {
        if |head| > MAX_HEAD {
          Fallback("oversized-head");
          return "", whole;
        }
        return "", "";
      }
      var framed := FrameAndStamp(head[..idx], contexts(served));
      if framed.None? {
        Fallback("unframable-request (chunked body or missing content-length)");
        return "", whole;
      }
      ResumeHead(head, contexts, served);
      rest, piece := head[idx + 4..], framed.value.head;
      pushed := pushed + framed.value.head;
      bodyRemaining := framed.value.contentLength;
      state := BodyMode;
      head := "";
      served := served + 1;
    }

    /** Whatever the chunk, the buffered head stays bounded, the callback fires at most once, and the
        bytes pushed are the ones the whole-stream specification asks for. */
    method Transform(chunk: Bytes)
      requires Valid()
      modifies this
      ensures Valid()
      ensures pushed == old(pushed) + Resume(old(Current()), chunk, contexts).emitted
      ensures Current() == Resume(old(Current()), chunk, contexts).state
      ensures old(fallbacks) <= fallbacks
    {
      hide AtHead, AtBody, Kind, Framing;
      var buf := chunk;
      ghost var goal := Resume(Current(), chunk, contexts);
      ghost var sofar, piece := "", "";
      AfterAfter(goal, "", "");
      while |buf| > 0
        invariant Valid() && old(fallbacks) <= fallbacks
        invariant pushed == old(pushed) + sofar
        invariant goal == Resume(Current(), buf, contexts).After(sofar)
        decreases |buf|, state == BodyMode
      {
        if state == RawMode {
          pushed := pushed + buf;
          sofar := sofar + buf;
          break;
        }
        if state == BodyMode {
          buf, piece := TakeBody(buf);
        } else {
          buf, piece := TakeHead(buf);
        }
        AfterAfter(Resume(Current(), buf, contexts), sofar, piece);
        sofar := sofar + piece;
      }
    }
  }
}
