/**
  The usage tee: a side parser that extracts the token usage of a streamed (SSE) or plain JSON
  response while every byte is passed on.

  Text is taken after decoding, so a cut inside a multi-byte character is outside the model.
  */
module UsageTee {
  import opened Search
  import opened Text

  const MAX_JSON: nat := 1048576

  /** The parts of a parsed JSON value that the extractor looks at. An absent, falsy or ill-typed part is
      None (strings: ""). */
  datatype Counts = Counts(input: Option<real>, output: Option<real>)
  datatype Opening = Opening(id: string, model: string, counts: Counts)
  datatype Event = Event(kind: string, message: Option<Opening>, id: string, model: string, usage: Option<Counts>)
  /** What `JSON.parse` gives: an exception, the value null, or any other value. */
  datatype Json = Invalid | Null | Value(event: Event)

  /** id, model ("" while unknown) and the token counts seen so far. */
  datatype Usage = Usage(id: string, model: string, input: real, output: real)

  const NO_USAGE: Usage := Usage("", "", 0.0, 0.0)

  function Counted(u: Usage, counts: Counts): Usage {
    u.(input := if counts.input.Some? then counts.input.value else u.input,
       output := if counts.output.Some? then counts.output.value else u.output)
  }

  function Named(u: Usage, id: string, model: string): Usage {
    u.(id := if id != "" then id else u.id, model := if model != "" then model else u.model)
  }

  function Absorb(u: Usage, e: Event): Usage {
    if e.kind == "message_start" && e.message.Some? then
      Counted(Named(u, e.message.value.id, e.message.value.model), e.message.value.counts)
    else if e.kind == "message_delta" && e.usage.Some? && e.usage.value.output.Some? then
      u.(output := e.usage.value.output.value)
    else if e.id != "" && e.usage.Some? then
      Counted(Named(u, e.id, e.model), e.usage.value)
    else u
  }

  // ---------------------------------------------------------------- data lines

  predicate IsLineTerminator(c: char) { c in "\n\r\U{2028}\U{2029}" }

  predicate OneLine(s: string) { forall i :: 0 <= i < |s| ==> !IsLineTerminator(s[i]) }

  /** The capture of `/^data:\s?(.*)$/`: one white-space character is skipped if there is one, and the
      rest must not contain a line terminator. */
  function DataPayload(line: string): Option<string> {
    if |line| < 5 || line[..5] != "data:" then None
    else
      var rest := line[5..];
      if rest != "" && IsSpace(rest[0]) && OneLine(rest[1..]) then Some(rest[1..])
      else if OneLine(rest) then Some(rest)
      else None
  }

  /** The lines of an event up to the first one whose payload is the JSON value null. */
  function AbsorbLines(u: Usage, lines: seq<string>, parse: string -> Json): Usage
    decreases |lines|
  {
    if lines == [] then u
    else
      match DataPayload(lines[0])
      case None => AbsorbLines(u, lines[1..], parse)
      case Some(payload) =>
        match parse(payload)
        case Invalid => AbsorbLines(u, lines[1..], parse)
        case Null => u
        case Value(e) => AbsorbLines(Absorb(u, e), lines[1..], parse)
  }

  /** Reading a property of null throws: such a line ends the call it is met in. */
  predicate Throws(line: string, parse: string -> Json) {
    DataPayload(line).Some? && parse(DataPayload(line).value).Null?
  }

  predicate Poisoned(event: string, parse: string -> Json) {
    exists line :: line in Split(event, "\n") && Throws(line, parse)
  }

  function AbsorbEvent(u: Usage, event: string, parse: string -> Json): Usage {
    AbsorbLines(u, Split(event, "\n"), parse)
  }

  // ---------------------------------------------------------------- specifications

  const GAP: string := "\n\n"

  datatype Sse = Sse(usage: Usage, buf: string)

  /** What a feed does to its buffer: whole events in order, stopping after one that throws. */
  function Drain(u: Usage, buf: string, parse: string -> Json): Sse
    decreases |buf|
  {
    var i := IndexOf(buf, GAP);
    if i < 0 then Sse(u, buf)
    else
      var next := AbsorbEvent(u, buf[..i], parse);
      if Poisoned(buf[..i], parse) then Sse(next, buf[i + 2..]) else Drain(next, buf[i + 2..], parse)
  }

  /** What the whole text means: every complete event is absorbed, and what follows the last blank line
      is left over. */
  function Whole(u: Usage, text: string, parse: string -> Json): Sse
    decreases |text|
  {
    var i := IndexOf(text, GAP);
    if i < 0 then Sse(u, text) else Whole(AbsorbEvent(u, text[..i], parse), text[i + 2..], parse)
  }

  class UsageExtractor {
    const sse: bool
    const parse: string -> Json
    var buf: string
    var usage: Usage

    constructor (isEventStream: bool, parser: string -> Json)
      ensures buf == "" && usage == NO_USAGE && sse == isEventStream && parse == parser
    {
      sse, parse := isEventStream, parser;
      buf, usage := "", NO_USAGE;
    }

    method TryAbsorb(json: string) returns (threw: bool)
      modifies this`usage
      ensures threw <==> parse(json).Null?
      ensures usage == if parse(json).Value? then Absorb(old(usage), parse(json).event) else old(usage)
      ensures !parse(json).Value? ==> usage == old(usage)
    {
      match parse(json)
      case Invalid => return false;
      case Null => return true;
      case Value(e) =>
        if e.kind == "message_start" && e.message.Some? {
          var message := e.message.value;
          if message.id != "" { usage := usage.(id := message.id); }
          if message.model != "" { usage := usage.(model := message.model); }
          if message.counts.input.Some? { usage := usage.(input := message.counts.input.value); }
          if message.counts.output.Some? { usage := usage.(output := message.counts.output.value); }
        } else if e.kind == "message_delta" && e.usage.Some? && e.usage.value.output.Some? {
          usage := usage.(output := e.usage.value.output.value);
        } else if e.id != "" && e.usage.Some? {
          usage := usage.(id := e.id);
          if e.model != "" { usage := usage.(model := e.model); }
          if e.usage.value.input.Some? { usage := usage.(input := e.usage.value.input.value); }
          if e.usage.value.output.Some? { usage := usage.(output := e.usage.value.output.value); }
        }
        return false;
    }

    method AbsorbOne(event: string) returns (threw: bool)
      modifies this`usage
      ensures usage == AbsorbEvent(old(usage), event, parse)
      ensures threw <==> Poisoned(event, parse)
    {
      hide Split, Absorb, DataPayload;
      var lines := Split(event, "\n");
      for k := 0 to |lines|
        invariant AbsorbLines(usage, lines[k..], parse) == AbsorbEvent(old(usage), event, parse)
        invariant forall j :: 0 <= j < k ==> !Throws(lines[j], parse)
      {
        assert lines[k..][0] == lines[k] && lines[k..][1..] == lines[k + 1..];
        var m := DataPayload(lines[k]);
        if m.Some? {
          threw := TryAbsorb(m.value);
          if threw {
            assert lines[k] in lines && Throws(lines[k], parse);
            return;
          }
        }
      }
      threw := false;
    }

    /** One chunk. `threw` says that the call ended in an exception, with the state as it then stood. */
    method Feed(chunk: string) returns (threw: bool)
      modifies this`buf, this`usage
      ensures sse ==> Sse(usage, buf) == Drain(old(usage), old(buf) + chunk, parse)
      ensures !sse ==> usage == old(usage) && !threw
      ensures !sse ==> buf == if |old(buf)| < MAX_JSON then old(buf) + chunk else old(buf)
    {
      threw := false;
      if sse {
        hide AbsorbEvent, Poisoned;
        buf := buf + chunk;
        var idx := IndexOf(buf, GAP);
        while idx != -1
          invariant idx == IndexOf(buf, GAP)
          invariant Drain(usage, buf, parse) == Drain(old(usage), old(buf) + chunk, parse)
          decreases |buf|
        {
          var event := buf[..idx];
          buf := buf[idx + 2..];
          threw := AbsorbOne(event);
          if threw {
            return;
          }
          idx := IndexOf(buf, GAP);
        }
      } else if |buf| < MAX_JSON {
        buf := buf + chunk;
      }
    }

    /** The usage, once both the id and the model are known. */
    method Result() returns (r: Option<Usage>, threw: bool)
      modifies this`usage
      ensures threw <==> !sse && buf != "" && parse(buf).Null?
      ensures usage == if !sse && buf != "" && parse(buf).Value? then Absorb(old(usage), parse(buf).event) else old(usage)
      ensures !threw ==> r == if usage.id != "" && usage.model != "" then Some(usage) else None
    {
      r, threw := None, false;
      if !sse && buf != "" {
        threw := TryAbsorb(buf);
        if threw {
          return;
        }
      }
      if usage.id != "" && usage.model != "" {
        r := Some(usage);
      }
    }
  }

  /** Usage is known once both the id and the model are. */
  function Known(u: Usage): seq<Usage> { if u.id != "" && u.model != "" then [u] else [] }

  /** What the callback is given for a response that arrives in these chunks. */
  function Reports(chunks: seq<string>, isEventStream: bool, parse: string -> Json): seq<Usage> {
    if isEventStream then Known(RunSse(Sse(NO_USAGE, ""), chunks, parse).usage)
    else
      var body := RunJson("", chunks);
      Known(if body != "" && parse(body).Value? then Absorb(NO_USAGE, parse(body).event) else NO_USAGE)
  }

  /** The pass-through around the extractor: exceptions of the parser never reach the stream. */
  method Tee(chunks: seq<string>, isEventStream: bool, parse: string -> Json)
      returns (pushed: string, reported: seq<Usage>)
    ensures pushed == Flatten(chunks)
    ensures |reported| <= 1
    ensures reported == Reports(chunks, isEventStream, parse)
  {
    hide Drain, Absorb;
    var extractor := new UsageExtractor(isEventStream, parse);
    pushed, reported := "", [];
    ghost var goal := RunSse(Sse(NO_USAGE, ""), chunks, parse);
    for i := 0 to |chunks|
      invariant extractor.sse == isEventStream && extractor.parse == parse && fresh(extractor)
      invariant pushed + Flatten(chunks[i..]) == Flatten(chunks)
      invariant isEventStream ==> RunSse(Sse(extractor.usage, extractor.buf), chunks[i..], parse) == goal
      invariant !isEventStream ==>
                  extractor.usage == NO_USAGE && RunJson(extractor.buf, chunks[i..]) == RunJson("", chunks)
    {
      assert chunks[i..][1..] == chunks[i + 1..];
      var _ := extractor.Feed(chunks[i]);
      pushed := pushed + chunks[i];
    }
    var u, threw := extractor.Result();
    if !threw && u.Some? {
      reported := [u.value];
    }
  }

  // ---------------------------------------------------------------- chunk invariance of the SSE path

  function RunSse(st: Sse, chunks: seq<string>, parse: string -> Json): Sse
    decreases |chunks|
  {
    if chunks == [] then st else RunSse(Drain(st.usage, st.buf + chunks[0], parse), chunks[1..], parse)
  }

  /** No event before the last complete one throws. */
  ghost predicate QuietUntilLast(text: string, parse: string -> Json)
    decreases |text|
  {
    var i := IndexOf(text, GAP);
    i >= 0 && IndexOf(text[i + 2..], GAP) >= 0 ==>
      !Poisoned(text[..i], parse) && QuietUntilLast(text[i + 2..], parse)
  }

  lemma CutGap(a: string, b: string, i: nat)
    requires i == IndexOf(a, GAP)
    ensures IndexOf(a + b, GAP) == i && (a + b)[..i] == a[..i] && (a + b)[i + 2..] == a[i + 2..] + b
  {
    IndexOfExtended(a, b, GAP);
  }

  /** The whole-text meaning may be taken in two steps, the second from the leftover of the first. */
  lemma {:induction false} WholeInTwo(u: Usage, a: string, b: string, parse: string -> Json)
    ensures var first := Whole(u, a, parse); Whole(u, a + b, parse) == Whole(first.usage, first.buf + b, parse)
    decreases |a|
  {
    hide AbsorbEvent;
    var i := IndexOf(a, GAP);
    if i >= 0 {
      CutGap(a, b, i);
      WholeInTwo(AbsorbEvent(u, a[..i], parse), a[i + 2..], b, parse);
    }
  }

  /** On quiet text a feed does what the whole-text meaning asks for. */
  lemma {:induction false} DrainIsWhole(u: Usage, text: string, parse: string -> Json)
    requires QuietUntilLast(text, parse)
    ensures Drain(u, text, parse) == Whole(u, text, parse)
    decreases |text|
  {
    hide AbsorbEvent, Poisoned;
    var i := IndexOf(text, GAP);
    if i >= 0 && IndexOf(text[i + 2..], GAP) >= 0 {
      DrainIsWhole(AbsorbEvent(u, text[..i], parse), text[i + 2..], parse);
    }
  }

  lemma {:induction false} QuietInTwo(u: Usage, a: string, b: string, parse: string -> Json)
    requires QuietUntilLast(a + b, parse)
    ensures QuietUntilLast(a, parse)
    ensures QuietUntilLast(Whole(u, a, parse).buf + b, parse)
    decreases |a|
  {
    hide AbsorbEvent, Poisoned;
    var i := IndexOf(a, GAP);
    if i >= 0 {
      CutGap(a, b, i);
      var rest := a[i + 2..];
      QuietRest(a + b, i, parse);
      IndexOfExtended(rest, b, GAP);
      QuietInTwo(AbsorbEvent(u, a[..i], parse), rest, b, parse);
    }
  }

  lemma QuietRest(text: string, i: nat, parse: string -> Json)
    requires i == IndexOf(text, GAP) && QuietUntilLast(text, parse)
    ensures QuietUntilLast(text[i + 2..], parse)
  {
    hide Poisoned;
  }

  /** The leftover of the whole-text meaning contains no blank line. */
  lemma {:induction false} LeftoverHasNoGap(u: Usage, text: string, parse: string -> Json)
    ensures !Contains(Whole(u, text, parse).buf, GAP)
    decreases |text|
  {
    hide AbsorbEvent;
    var i := IndexOf(text, GAP);
    if i >= 0 {
      LeftoverHasNoGap(AbsorbEvent(u, text[..i], parse), text[i + 2..], parse);
    }
  }

  lemma {:induction false} QuietRun(u: Usage, buf: string, chunks: seq<string>, parse: string -> Json)
    requires QuietUntilLast(buf + Flatten(chunks), parse) && !Contains(buf, GAP)
    ensures RunSse(Sse(u, buf), chunks, parse) == Whole(u, buf + Flatten(chunks), parse)
    decreases |chunks|
  {
    hide AbsorbEvent, Poisoned, QuietUntilLast, Drain;
    if chunks == [] {
      assert buf + "" == buf;
    } else {
      var a, b := buf + chunks[0], Flatten(chunks[1..]);
      assert buf + Flatten(chunks) == a + b;
      QuietInTwo(u, a, b, parse);
      DrainIsWhole(u, a, parse);
      WholeInTwo(u, a, b, parse);
      LeftoverHasNoGap(u, a, parse);
      var next := Whole(u, a, parse);
      QuietRun(next.usage, next.buf, chunks[1..], parse);
    }
  }

  /** A feed that meets a throwing event before the last one leaves complete events in its buffer. */
  lemma {:induction false} LoudDrain(u: Usage, text: string, parse: string -> Json)
    requires !QuietUntilLast(text, parse)
    ensures Contains(Drain(u, text, parse).buf, GAP)
    decreases |text|
  {
    hide AbsorbEvent, Poisoned;
    var i := IndexOf(text, GAP);
    var rest := text[i + 2..];
    if Poisoned(text[..i], parse) {
      assert OccursAt(rest, GAP, IndexOf(rest, GAP));
    } else {
      LoudDrain(AbsorbEvent(u, text[..i], parse), rest, parse);
    }
  }

  /** Chunk invariance of the SSE path, with its exact condition: every way of cutting the text gives the
      fold over all complete events and their leftover, if and only if no event before the last complete
      one has a data line whose payload is the JSON value null. */
  lemma SseChunkInvariance(text: string, parse: string -> Json)
    ensures (forall chunks :: Flatten(chunks) == text ==>
               RunSse(Sse(NO_USAGE, ""), chunks, parse) == Whole(NO_USAGE, text, parse))
       <==> QuietUntilLast(text, parse)
  {
    hide Whole, QuietUntilLast, Drain;
    assert "" + text == text;
    if QuietUntilLast(text, parse) {
      forall chunks | Flatten(chunks) == text
        ensures RunSse(Sse(NO_USAGE, ""), chunks, parse) == Whole(NO_USAGE, text, parse)
      {
        QuietRun(NO_USAGE, "", chunks, parse);
      }
    } else {
      LoudDrain(NO_USAGE, text, parse);
      LeftoverHasNoGap(NO_USAGE, text, parse);
      FlattenFew(text, "");
      FewFeeds(NO_USAGE, text, "", parse);
    }
  }

  lemma FewFeeds(u: Usage, a: string, b: string, parse: string -> Json)
    ensures var first := Drain(u, a, parse);
            && RunSse(Sse(u, ""), [a], parse) == first
            && RunSse(Sse(u, ""), [a, b], parse) == Drain(first.usage, first.buf + b, parse)
  {
    hide Drain;
    FlattenFew(a, b);
    FlattenFew(b, b);
    assert "" + a == a;
    var first := Drain(u, a, parse);
    assert RunSse(Sse(u, ""), [a, b], parse) == RunSse(first, [b], parse);
  }

  /** A complete non-streaming message, as one data line. */
  const MESSAGE: string := "{\"id\":\"m\",\"model\":\"c\",\"usage\":{}}"

  lemma MessageIsPlain()
    ensures OneLine(MESSAGE) && !IsSpace(MESSAGE[0]) && OneLine("null") && !IsSpace("null"[0])
  {
  }

  /** A text on which the chunking decides what is reported: behind a null event, one chunk reports nothing and
      two chunks report the message. */
  lemma NullEventSplitsOutcome(parse: string -> Json)
    requires parse("null") == Null && parse(MESSAGE) == Value(Event("", None, "m", "c", Some(Counts(None, None))))
    ensures var first, second := "data:null\n\n", "data:" + MESSAGE + GAP;
            && Flatten([first + second]) == Flatten([first, second])
            && Reports([first + second], true, parse) == []
            && Reports([first, second], true, parse) == [Usage("m", "c", 0.0, 0.0)]
  {
    hide Split, AbsorbEvent, Poisoned, DataPayload, IndexOf, IndexFrom, Drain, RunSse, Whole, OneLine, IsSpace;
    var first, second := "data:null\n\n", "data:" + MESSAGE + GAP;
    MessageIsPlain();
    assert first == "data:" + "null" + GAP + "" && second == "data:" + MESSAGE + GAP + "";
    assert first + second == "data:" + "null" + GAP + second;
    DrainEvent(NO_USAGE, "null", second, parse);
    DrainEvent(NO_USAGE, "null", "", parse);
    DrainEvent(NO_USAGE, MESSAGE, "", parse);
    FewFeeds(NO_USAGE, first + second, "", parse);
    FewFeeds(NO_USAGE, first, second, parse);
    FlattenFew(first, second);
    FlattenFew(first + second, "");
    assert "" + second == second;
  }

  lemma NoGap()
    ensures IndexOf("", GAP) < 0
  {
  }

  lemma EventEnds(event: string, rest: string)
    requires '\n' !in event
    ensures IndexOf(event + GAP + rest, GAP) == |event|
    ensures (event + GAP + rest)[..|event|] == event && (event + GAP + rest)[|event| + 2..] == rest
  {
    var text := event + GAP + rest;
    forall j | OccursAt(text, GAP, j) ensures |event| <= j {
      GapPosition(event, rest, j);
    }
    assert text[|event|..|event| + 2] == GAP;
    FirstOccurrence(text, GAP, |event|);
  }

  lemma GapPosition(event: string, rest: string, j: int)
    requires OccursAt(event + GAP + rest, GAP, j)
    ensures |event| <= j || '\n' in event
  {
    var text := event + GAP + rest;
    assert text[j..j + 2][0] == text[j] == '\n';
    if j < |event| {
      assert text[j] == event[j];
    }
  }

  lemma SingleLine(u: Usage, event: string, parse: string -> Json)
    requires '\n' !in event
    ensures Poisoned(event, parse) <==> Throws(event, parse)
    ensures AbsorbEvent(u, event, parse) == AbsorbLines(u, [event], parse)
  {
    AbsentSeparator(event, '\n');
    assert Split(event, "\n") == [event];
    assert event in [event];
  }

  lemma LastLine(u: Usage, line: string, payload: string, parse: string -> Json)
    requires DataPayload(line) == Some(payload)
    ensures AbsorbLines(u, [line], parse) == if parse(payload).Value? then Absorb(u, parse(payload).event) else u
  {
    hide Absorb, DataPayload;
    assert |[line][1..]| == 0;
  }

  lemma PlainPayload(payload: string)
    requires OneLine(payload) && payload != "" && !IsSpace(payload[0])
    ensures DataPayload("data:" + payload) == Some(payload)
  {
    var event := "data:" + payload;
    assert event[5..] == payload && event[..5] == "data:";
  }

  lemma OneEvent(u: Usage, payload: string, rest: string, parse: string -> Json)
    requires OneLine(payload) && payload != "" && !IsSpace(payload[0])
    ensures var event := "data:" + payload; var text := event + GAP + rest;
            && IndexOf(text, GAP) == |event| && text[..|event|] == event && text[|event| + 2..] == rest
            && (Poisoned(event, parse) <==> parse(payload).Null?)
            && AbsorbEvent(u, event, parse)
               == if parse(payload).Value? then Absorb(u, parse(payload).event) else u
  {
    hide Absorb, Split, DataPayload, IndexOf, IndexFrom, AbsorbEvent, AbsorbLines, Poisoned;
    var event := "data:" + payload;
    assert '\n' !in event;
    EventEnds(event, rest);
    SingleLine(u, event, parse);
    PlainPayload(payload);
    LastLine(u, event, payload, parse);
  }

  /** One feed whose first event has a single, plain data line. */
  lemma DrainEvent(u: Usage, payload: string, rest: string, parse: string -> Json)
    requires OneLine(payload) && payload != "" && !IsSpace(payload[0])
    ensures var text := "data:" + payload + GAP + rest;
            && (parse(payload).Null? ==> Drain(u, text, parse) == Sse(u, rest))
            && (parse(payload).Value? && rest == "" ==>
                  Drain(u, text, parse) == Sse(Absorb(u, parse(payload).event), ""))
  {
    hide Absorb, Split, DataPayload, IndexOf, IndexFrom, AbsorbEvent, Poisoned;
    OneEvent(u, payload, rest, parse);
    NoGap();
  }

  // ---------------------------------------------------------------- the JSON path

  function RunJson(buf: string, chunks: seq<string>): string
    decreases |chunks|
  {
    if chunks == [] then buf
    else RunJson(if |buf| < MAX_JSON then buf + chunks[0] else buf, chunks[1..])
  }

  lemma {:induction false} JsonRun(buf: string, chunks: seq<string>)
    requires |buf + Flatten(chunks)| <= MAX_JSON
    ensures RunJson(buf, chunks) == buf + Flatten(chunks)
    decreases |chunks|
  {
    if chunks != [] {
      assert buf + Flatten(chunks) == buf + chunks[0] + Flatten(chunks[1..]);
      if |buf| < MAX_JSON {
        JsonRun(buf + chunks[0], chunks[1..]);
      } else {
        assert chunks[0] == "" && buf + "" == buf;
        JsonRun(buf, chunks[1..]);
      }
    }
  }

  /** A plain JSON body is collected whole for every chunking if and only if it is within the cap. */
  lemma JsonChunkInvariance(text: string)
    ensures (forall chunks :: Flatten(chunks) == text ==> RunJson("", chunks) == text) <==> |text| <= MAX_JSON
  {
    if |text| <= MAX_JSON {
      forall chunks | Flatten(chunks) == text ensures RunJson("", chunks) == text {
        JsonRun("", chunks);
      }
    } else {
      var a, b := text[..MAX_JSON], text[MAX_JSON..];
      FlattenFew(a, b);
      FlattenFew(b, b);
      assert a + b == text && "" + a == a;
      assert RunJson("", [a, b]) == RunJson(a, [b]) == a;
    }
  }

  // ---------------------------------------------------------------- what is metered

  /** One event of a streamed message: its name and the payload of its one data line. */
  datatype Sent = Sent(name: string, payload: string)

  predicate Sendable(e: Sent) { OneLine(e.name) && OneLine(e.payload) }

  function Lines(e: Sent): string { "event: " + e.name + "\n" + ("data: " + e.payload) }

  function Wire(events: seq<Sent>): string {
    if events == [] then "" else Lines(events[0]) + GAP + Wire(events[1..])
  }

  /** Event k states a total of output tokens, and no later one does. */
  ghost predicate LastTotal(events: seq<Sent>, k: nat, parse: string -> Json, total: real) {
    k < |events| && States(events[k], parse, total) && forall j: nat, t: real :: k < j < |events| ==> !States(events[j], parse, t)
  }

  predicate States(e: Sent, parse: string -> Json, total: real) {
    var j := parse(e.payload);
    j.Value? && j.event.kind == "message_delta" && j.event.usage.Some? && j.event.usage.value.output == Some(total)
  }

  /** What follows the opening of a message: not JSON, or a value that is no opening and has no id of its own. */
  predicate Follows(e: Sent, parse: string -> Json) {
    var j := parse(e.payload);
    Sendable(e) && (j.Invalid? || (j.Value? && j.event.kind != "message_start" && j.event.id == ""))
  }

  lemma NameLineIgnored(name: string)
    ensures DataPayload("event: " + name) == None
  {
    assert ("event: " + name)[0] == 'e';
  }

  lemma DataLineRead(payload: string)
    requires OneLine(payload)
    ensures DataPayload("data: " + payload) == Some(payload)
  {
    var line := "data: " + payload;
    assert line[..5] == "data:" && line[5..] == " " + payload && line[5..][1..] == payload;
  }

  lemma TwoLines(e: Sent)
    requires Sendable(e)
    ensures Split(Lines(e), "\n") == ["event: " + e.name, "data: " + e.payload]
  {
    var first, second := "event: " + e.name, "data: " + e.payload;
    assert '\n' !in first && '\n' !in second;
    SingletonUnbordered('\n');
    AbsentSeparator(first, '\n');
    AbsentSeparator(second, '\n');
    IndexOfSeparator(first, "\n", second);
    assert Lines(e)[..|first|] == first && Lines(e)[|first| + 1..] == second;
    assert Split(second, "\n") == [second];
  }

  lemma GapAfterLines(e: Sent, rest: string)
    requires Sendable(e)
    ensures var text := Lines(e) + GAP + rest;
            IndexOf(text, GAP) == |Lines(e)| && text[..|Lines(e)|] == Lines(e) && text[|Lines(e)| + 2..] == rest
  {
    hide IndexOf, IndexFrom;
    var lines, head := Lines(e), "event: " + e.name;
    var text := lines + GAP + rest;
    assert lines[|head| + 1] == 'd';
    forall j | 0 <= j < |lines| ensures text[j] == lines[j] && (lines[j] == '\n' ==> j == |head|) {
      if j < |head| {
        assert lines[j] == head[j];
      } else if j > |head| {
        assert lines[j] == ("data: " + e.payload)[j - |head| - 1];
      }
    }
    forall j | OccursAt(text, GAP, j) ensures |lines| <= j {
      assert text[j] == text[j..j + 2][0] == '\n' && text[j + 1] == text[j..j + 2][1] == '\n';
    }
    assert text[|lines|..|lines| + 2] == GAP;
    FirstOccurrence(text, GAP, |lines|);
  }

  lemma SentAbsorbed(u: Usage, e: Sent, parse: string -> Json)
    requires Sendable(e) && !parse(e.payload).Null?
    ensures !Poisoned(Lines(e), parse)
    ensures AbsorbEvent(u, Lines(e), parse) == if parse(e.payload).Value? then Absorb(u, parse(e.payload).event) else u
  {
    hide Split, Absorb, DataPayload, Lines;
    TwoLines(e);
    NameLineIgnored(e.name);
    DataLineRead(e.payload);
    var lines := ["event: " + e.name, "data: " + e.payload];
    assert lines[1..] == ["data: " + e.payload];
    LastLine(u, "data: " + e.payload, e.payload, parse);
  }

  lemma {:induction false} WireFollows(u: Usage, events: seq<Sent>, parse: string -> Json)
    requires forall k :: 0 <= k < |events| ==> Follows(events[k], parse)
    ensures QuietUntilLast(Wire(events), parse)
    ensures var w := Whole(u, Wire(events), parse);
            && w.buf == "" && w.usage.id == u.id && w.usage.model == u.model && w.usage.input == u.input
            && (forall k: nat, total: real :: LastTotal(events, k, parse, total) ==> w.usage.output == total)
            && ((forall k: nat, total: real :: k < |events| ==> !States(events[k], parse, total)) ==> w.usage.output == u.output)
    decreases |events|
  {
    hide AbsorbEvent, Poisoned, Lines, Sendable;
    NoGap();
    if events != [] {
      var e, rest := events[0], events[1..];
      assert Follows(e, parse);
      GapAfterLines(e, Wire(rest));
      SentAbsorbed(u, e, parse);
      var next := AbsorbEvent(u, Lines(e), parse);
      WireFollows(next, rest, parse);
      var w := Whole(u, Wire(events), parse);
      assert w == Whole(next, Wire(rest), parse);
      forall k: nat, total: real | LastTotal(events, k, parse, total) ensures w.usage.output == total {
        if k > 0 {
          assert LastTotal(rest, k - 1, parse, total);
        } else {
          assert forall j: nat, t: real :: j < |rest| ==> rest[j] == events[j + 1] && !States(rest[j], parse, t);
        }
      }
      if forall k: nat, total: real :: k < |events| ==> !States(events[k], parse, total) {
        assert forall j: nat, t: real :: j < |rest| ==> rest[j] == events[j + 1] && !States(rest[j], parse, t);
        assert !States(e, parse, next.output);
      }
    }
  }

  /** What is metered for a streamed message, however the stream is cut: the id, the model and the input tokens of
      its opening, and the last total of output tokens that an event states - that of the opening if none does. */
  lemma StreamedMessage(chunks: seq<string>, opening: Sent, more: seq<Sent>, m: Opening, parse: string -> Json)
    requires Sendable(opening) && parse(opening.payload).Value?
    requires parse(opening.payload).event.kind == "message_start" && parse(opening.payload).event.message == Some(m)
    requires m.id != "" && m.model != ""
    requires forall k :: 0 <= k < |more| ==> Follows(more[k], parse)
    requires Flatten(chunks) == Wire([opening] + more)
    ensures var reported := Reports(chunks, true, parse);
            && |reported| == 1
            && reported[0].id == m.id && reported[0].model == m.model
            && reported[0].input == (if m.counts.input.Some? then m.counts.input.value else 0.0)
            && (forall k: nat, total: real :: LastTotal(more, k, parse, total) ==> reported[0].output == total)
            && ((forall k: nat, total: real :: k < |more| ==> !States(more[k], parse, total)) ==>
                  reported[0].output == if m.counts.output.Some? then m.counts.output.value else 0.0)
  {
    hide AbsorbEvent, Poisoned, Lines, Sendable, Drain, RunSse, LastTotal, States, Follows;
    assert ([opening] + more)[1..] == more;
    var text, rest := Wire([opening] + more), Wire(more);
    GapAfterLines(opening, rest);
    SentAbsorbed(NO_USAGE, opening, parse);
    var next := AbsorbEvent(NO_USAGE, Lines(opening), parse);
    WireFollows(next, more, parse);
    assert QuietUntilLast(text, parse);
    NoGap();
    assert "" + text == text;
    QuietRun(NO_USAGE, "", chunks, parse);
  }

  /** What is metered for a plain JSON message within the cap, however it is cut. */
  lemma PlainMessage(chunks: seq<string>, m: Event, parse: string -> Json)
    requires var body := Flatten(chunks); 0 < |body| <= 1048576 && parse(body) == Value(m)
    requires m.kind != "message_start" && m.kind != "message_delta" && m.id != "" && m.usage.Some?
    ensures Reports(chunks, false, parse) ==
            if m.model == "" then []
            else [Usage(m.id, m.model, if m.usage.value.input.Some? then m.usage.value.input.value else 0.0,
                        if m.usage.value.output.Some? then m.usage.value.output.value else 0.0)]
  {
    hide RunJson;
    assert "" + Flatten(chunks) == Flatten(chunks);
    JsonRun("", chunks);
  }
}
