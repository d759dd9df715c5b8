/**
  The stamped stream read back: an independent reading of a connection as a list of requests, what
  stamping does to that list, and when reading the stamped bytes gives exactly the stamped list.
  */
module RequestReframing {
  import opened Search
  import opened Text
  import opened RequestStamp
  import opened RequestStampStream

  /** A request: its head lines, the body length they declare, and the body bytes present. */
  datatype RequestParts = Request(lines: seq<Bytes>, length: nat, body: Bytes)
  type Request = r: RequestParts | |r.lines| > 0 witness Request([""], 0, "")
  /** The requests of a stream, and the bytes after them that are not a framable request. */
  datatype Parsed = Parsed(requests: seq<Request>, rest: Bytes)

  function Parse(s: Bytes): Parsed
    decreases |s|
  {
    var i := IndexOf(s, BLANK_LINE);
    if i < 0 || Framing(Split(s[..i], CRLF)).None? then Parsed([], s)
    else
      var lines := Split(s[..i], CRLF);
      var length := Framing(lines).value;
      var after := s[i + 4..];
      if |after| <= length then Parsed([Request(lines, length, after)], "")
      else
        var more := Parse(after[length..]);
        Parsed([Request(lines, length, after[..length])] + more.requests, more.rest)
  }

  function Print(requests: seq<Request>): Bytes
  {
    if requests == [] then ""
    else PrintHead(requests[0].lines) + requests[0].body + Print(requests[1..])
  }

  ghost predicate WellFormedHead(lines: seq<Bytes>) {
    && |lines| > 0
    && (forall k :: 0 <= k < |lines| ==> !Contains(lines[k], CRLF))
    && (forall k :: 1 <= k < |lines| ==> lines[k] != "")
  }

  /** No framable request starts here. */
  predicate Stuck(s: Bytes) {
    IndexOf(s, BLANK_LINE) < 0 || Framing(Split(s[..IndexOf(s, BLANK_LINE)], CRLF)).None?
  }

  ghost predicate WellFormed(p: Parsed)
    decreases |p.requests|
  {
    if p.requests == [] then Stuck(p.rest)
    else
      var r := p.requests[0];
      && WellFormedHead(r.lines)
      && Framing(r.lines) == Some(r.length)
      && |r.body| <= r.length
      && (|r.body| < r.length ==> p == Parsed([r], ""))
      && WellFormed(Parsed(p.requests[1..], p.rest))
  }

  // ---------------------------------------------------------------- where the blank line can be

  /** A region cut before the first blank line has no empty header line. */
  lemma {:induction false} NoEmptyLine(region: Bytes)
    requires forall j :: OccursAt(region + BLANK_LINE, BLANK_LINE, j) ==> |region| <= j
    ensures forall k :: 1 <= k < |Split(region, CRLF)| ==> Split(region, CRLF)[k] != ""
    decreases |region|
  {
    var i := IndexOf(region, CRLF);
    if i >= 0 {
      var tail := region[i + 2..];
      var whole := region + BLANK_LINE;
      forall j | OccursAt(tail + BLANK_LINE, BLANK_LINE, j) ensures |tail| <= j {
        assert whole == region[..i + 2] + (tail + BLANK_LINE);
        OccursInSuffix(region[..i + 2], tail + BLANK_LINE, BLANK_LINE, i + 2 + j);
      }
      NoEmptyLine(tail);
      FirstLineNotEmpty(region, i);
    }
  }

  lemma FirstLineNotEmpty(region: Bytes, i: nat)
    requires i == IndexOf(region, CRLF)
    requires forall j :: OccursAt(region + BLANK_LINE, BLANK_LINE, j) ==> |region| <= j
    ensures Split(region[i + 2..], CRLF)[0] != ""
  {
    var tail := region[i + 2..];
    var whole := region + BLANK_LINE;
    assert region[i..i + 2] == CRLF;
    assert region[i] == '\r' && region[i + 1] == '\n';
    if tail == "" || IndexOf(tail, CRLF) == 0 {
      assert tail != "" ==> tail[0..2] == CRLF && tail[0] == '\r' && tail[1] == '\n';
      assert whole[i + 2] == '\r' && whole[i + 3] == '\n';
      assert whole[i..i + 4] == BLANK_LINE;
      assert OccursAt(whole, BLANK_LINE, i);
    }
  }

  lemma TwoBreaks(l: Bytes, rest: Bytes)
    ensures l + BLANK_LINE + rest == l + CRLF + (CRLF + rest)
  {
    assert BLANK_LINE == CRLF + CRLF;
  }

  /** In the printed head the blank line is found at the end of the last line. */
  lemma {:induction false} BlankLineAtEnd(lines: seq<Bytes>, rest: Bytes)
    requires WellFormedHead(lines)
    ensures IndexOf(PrintHead(lines) + rest, BLANK_LINE) == |Join(lines, CRLF)|
    decreases |lines|
  {
    hide Split, IndexOf, IndexFrom;
    var s := PrintHead(lines) + rest;
    var l := lines[0];
    if |lines| == 1 {
      assert s == l + BLANK_LINE + rest;
      TwoBreaks(l, rest);
      assert l == lines[0] && !Contains(l, CRLF);
      forall j | OccursAt(s, BLANK_LINE, j) ensures |l| <= j { BeforeBlank(l, CRLF + rest, j); }
      assert s[|l|..|l| + 4] == BLANK_LINE;
      FirstOccurrence(s, BLANK_LINE, |l|);
    } else {
      var tail := PrintHead(lines[1..]) + rest;
      var n := |Join(lines[1..], CRLF)|;
      BlankLineAtEnd(lines[1..], rest);
      assert s == (l + CRLF) + tail;
      FirstBytes(lines[1..], rest);
      assert OccursAt(tail, BLANK_LINE, n);
      OccursInSuffix(l + CRLF, tail, BLANK_LINE, |l| + 2 + n);
      forall j | OccursAt(s, BLANK_LINE, j) ensures |l| + 2 + n <= j {
        assert s == l + CRLF + tail;
        BeforeBlank(l, tail, j);
        if j >= |l| + 2 {
          OccursInSuffix(l + CRLF, tail, BLANK_LINE, j);
        }
      }
      FirstOccurrence(s, BLANK_LINE, |l| + 2 + n);
    }
  }

  /** A printed head whose first line is not empty does not start with a line break. */
  lemma FirstBytes(lines: seq<Bytes>, rest: Bytes)
    requires |lines| > 0 && lines[0] != "" && !Contains(lines[0], CRLF)
    ensures var tail := PrintHead(lines) + rest; |tail| >= 2 && !(tail[0] == '\r' && tail[1] == '\n')
  {
    var l := lines[0];
    var tail := PrintHead(lines) + rest;
    assert l <= Join(lines, CRLF) <= tail;
    if |l| >= 2 {
      assert l[0..2] == CRLF ==> OccursAt(l, CRLF, 0);
    } else if |lines| == 1 {
      assert tail[1] == '\r';
    } else {
      assert tail[1] == '\r';
    }
  }

  lemma BreakInside(l: Bytes, tail: Bytes, j: int)
    requires OccursAt(l + CRLF + tail, BLANK_LINE, j) && j + 1 < |l|
    ensures Contains(l, CRLF)
  {
    var s := l + CRLF + tail;
    assert s[j..j + 4] == BLANK_LINE;
    assert s[j] == '\r' && s[j + 1] == '\n';
    assert l[j..j + 2] == CRLF;
    assert OccursAt(l, CRLF, j);
  }

  /** A blank line does not start inside a line, nor (when the next line is not empty) right after it. */
  lemma BeforeBlank(l: Bytes, tail: Bytes, j: int)
    requires !Contains(l, CRLF) && OccursAt(l + CRLF + tail, BLANK_LINE, j)
    ensures |l| <= j
    ensures |tail| >= 2 && !(tail[0] == '\r' && tail[1] == '\n') ==> j >= |l| + 2
  {
    var s := l + CRLF + tail;
    assert s[j..j + 4] == BLANK_LINE;
    assert s[j] == '\r' && s[j + 1] == '\n' && s[j + 2] == '\r' && s[j + 3] == '\n';
    assert s[|l|] == '\r' && s[|l| + 1] == '\n';
    if j + 1 < |l| {
      BreakInside(l, tail, j);
    }
    if j == |l| && |tail| >= 2 {
      assert s[j + 2] == tail[0] && s[j + 3] == tail[1];
    }
  }

  lemma CrlfUnbordered()
    ensures Unbordered(CRLF)
  {
    assert CRLF[1..] == "\n" && CRLF[..1] == "\r";
  }

  // ---------------------------------------------------------------- reading and printing are inverse

  /** A head line reading of a region is well formed. */
  lemma RegionWellFormed(s: Bytes)
    requires IndexOf(s, BLANK_LINE) >= 0
    ensures WellFormedHead(Split(s[..IndexOf(s, BLANK_LINE)], CRLF))
  {
    hide Split, Framing;
    var i := IndexOf(s, BLANK_LINE);
    var region := s[..i];
    PiecesAreFree(region, CRLF);
    CutAt(s, BLANK_LINE, i);
    forall j | OccursAt(region + BLANK_LINE, BLANK_LINE, j) ensures i <= j {
      OccursInPrefix(region + BLANK_LINE, s[i + 4..], BLANK_LINE, j);
    }
    NoEmptyLine(region);
  }

  lemma ParseStep(s: Bytes)
    requires !Stuck(s)
    ensures var i := IndexOf(s, BLANK_LINE);
            var lines := Split(s[..i], CRLF);
            var length := Framing(lines).value;
            var after := s[i + 4..];
            if |after| <= length then Parse(s) == Parsed([Request(lines, length, after)], "")
            else
              var more := Parse(after[length..]);
              Parse(s) == Parsed([Request(lines, length, after[..length])] + more.requests, more.rest)
  {
  }

  lemma PrintCons(r: Request, more: seq<Request>)
    ensures Print([r] + more) == PrintHead(r.lines) + r.body + Print(more)
  {
    assert ([r] + more)[1..] == more;
  }

  lemma WellFormedCons(r: Request, more: Parsed)
    requires WellFormedHead(r.lines) && Framing(r.lines) == Some(r.length)
    requires |r.body| == r.length || (|r.body| < r.length && more == Parsed([], ""))
    requires WellFormed(more)
    ensures WellFormed(Parsed([r] + more.requests, more.rest))
  {
    hide WellFormedHead, Framing, Stuck;
    assert ([r] + more.requests)[1..] == more.requests;
  }

  lemma NothingParsed(s: Bytes)
    requires Stuck(s)
    ensures Parse(s) == Parsed([], s) && WellFormed(Parsed([], s)) && Print([]) == ""
  {
  }

  lemma NothingIsStuck()
    ensures Stuck("") && Parse("") == Parsed([], "") && WellFormed(Parsed([], "")) && Print([]) == ""
  {
  }

  lemma Regroup(a: Bytes, b: Bytes, c: Bytes, d: Bytes)
    ensures a + b + c + d == a + (b + (c + d))
  {
  }

  /** Every reading is well formed and loses nothing. */
  lemma {:induction false} ParseIsLossless(s: Bytes)
    ensures WellFormed(Parse(s))
    ensures Print(Parse(s).requests) + Parse(s).rest == s
    decreases |s|
  {
    hide WellFormedHead, Framing, Split, PrintHead, Parse, WellFormed, Print;
    if Stuck(s) {
      NothingParsed(s);
      assert "" + s == s;
    } else {
      ParseStep(s);
      RegionWellFormed(s);
      HeadOfRegion(s);
      NothingIsStuck();
      var i := IndexOf(s, BLANK_LINE);
      var lines := Split(s[..i], CRLF);
      var length := Framing(lines).value;
      var after := s[i + 4..];
      if |after| <= length {
        var r := Request(lines, length, after);
        WellFormedCons(r, Parsed([], ""));
        PrintCons(r, []);
        assert [r] + [] == [r];
        assert Print([r]) + "" == PrintHead(lines) + after + "" + "" == s;
      } else {
        var rest := after[length..];
        ParseIsLossless(rest);
        var r := Request(lines, length, after[..length]);
        var more := Parse(rest);
        WellFormedCons(r, more);
        PrintCons(r, more.requests);
        Regroup(PrintHead(lines), r.body, Print(more.requests), more.rest);
        assert after == r.body + rest;
      }
    }
  }

  lemma HeadOfRegion(s: Bytes)
    requires IndexOf(s, BLANK_LINE) >= 0
    ensures var i := IndexOf(s, BLANK_LINE); s == PrintHead(Split(s[..i], CRLF)) + s[i + 4..]
  {
    hide Split, Join;
    var i := IndexOf(s, BLANK_LINE);
    JoinOfSplit(s[..i], CRLF);
    CutAt(s, BLANK_LINE, i);
  }

  /** Reading back what was printed. */
  lemma {:induction false} ParseOfPrint(p: Parsed)
    requires WellFormed(p)
    ensures Parse(Print(p.requests) + p.rest) == p
    decreases |p.requests|
  {
    if p.requests == [] {
      assert "" + p.rest == p.rest;
    } else {
      hide WellFormedHead, Framing, Split, PrintHead, Parse;
      var r := p.requests[0];
      var more := Parsed(p.requests[1..], p.rest);
      assert p.requests == [r] + more.requests;
      ParseOfPrint(more);
      ReadBackFirst(r, more);
    }
  }

  lemma ReadBackFirst(r: Request, more: Parsed)
    requires WellFormedHead(r.lines) && Framing(r.lines) == Some(r.length)
    requires |r.body| == r.length || (|r.body| < r.length && more == Parsed([], ""))
    requires Parse(Print(more.requests) + more.rest) == more
    ensures Parse(Print([r] + more.requests) + more.rest) == Parsed([r] + more.requests, more.rest)
  {
    hide WellFormedHead, Framing, Split, PrintHead, Parse, Print;
    var tail := Print(more.requests) + more.rest;
    var after := r.body + tail;
    var s := Print([r] + more.requests) + more.rest;
    PrintCons(r, more.requests);
    assert s == PrintHead(r.lines) + after;
    HeadReadBack(r.lines, after);
    ParseStep(s);
    NothingIsStuck();
    if tail == "" {
      assert after == r.body && [r] + [] == [r];
    } else if |r.body| == r.length {
      assert after[..r.length] == r.body && after[r.length..] == tail;
    }
  }

  lemma HeadReadBack(lines: seq<Bytes>, rest: Bytes)
    requires WellFormedHead(lines)
    ensures var s := PrintHead(lines) + rest; var i := IndexOf(s, BLANK_LINE);
            i >= 0 && Split(s[..i], CRLF) == lines && s[i + 4..] == rest
  {
    hide Split, IndexFrom;
    var s := PrintHead(lines) + rest;
    BlankLineAtEnd(lines, rest);
    CrlfUnbordered();
    SplitOfJoin(lines, CRLF);
    assert s[..|Join(lines, CRLF)|] == Join(lines, CRLF);
  }

  // ---------------------------------------------------------------- what stamping does to the reading

  /** The requests as stamped, the n-th head of the connection first. */
  function Restamp(requests: seq<Request>, ctxs: Contexts, n: nat): (r: seq<Request>)
    ensures |r| == |requests|
  {
    if requests == [] then []
    else
      var r := requests[0];
      [Request(Stamped(r.lines, ctxs(n)), r.length, r.body)] + Restamp(requests[1..], ctxs, n + 1)
  }

  /** Whether what follows the requests is given up on, rather than still being collected. */
  predicate GivenUpOn(rest: Bytes) {
    IndexOf(rest, BLANK_LINE) >= 0 || |rest| > MAX_HEAD
  }

  /** What the stamper emits is the print of the stamped requests, and the tail it gives up on. */
  lemma {:induction false} EmitsTheStampedRequests(s: Bytes, ctxs: Contexts, n: nat)
    ensures var p := Parse(s);
            && AtHead(s, ctxs, n).emitted
               == Print(Restamp(p.requests, ctxs, n)) + (if GivenUpOn(p.rest) then p.rest else "")
            && (AtHead(s, ctxs, n).state.phase.Raw? <==> GivenUpOn(p.rest))
    decreases |s|
  {
    hide Framing, Split, PrintHead, Parse, Print, Stamped, AtBody, Restamp, AtHead;
    if Stuck(s) {
      NothingParsed(s);
      RestampNothing(ctxs, n);
      StuckHead(s, ctxs, n);
      assert "" + s == s;
    } else {
      ParseStep(s);
      assert s[..|s|] == s;
      HeadStep(s, |s|, ctxs, n);
      NothingIsStuck();
      var i := IndexOf(s, BLANK_LINE);
      var lines := Split(s[..i], CRLF);
      var length := Framing(lines).value;
      var after := s[i + 4..];
      assert after == s[i + 4..|s|];
      var printed := PrintHead(Stamped(lines, ctxs(n)));
      if |after| <= length {
        var r: Request := Request(lines, length, after);
        RestampCons(r, [], ctxs, n);
        RestampNothing(ctxs, n + 1);
        var r': Request := Request(Stamped(lines, ctxs(n)), length, after);
        PrintCons(r', []);
        assert [r] + [] == [r] && [r'] + [] == [r'];
        BodyEnds(after, length, ctxs, n + 1);
        assert Print([r']) + "" == printed + after;
      } else {
        var rest := after[length..];
        EmitsTheStampedRequests(rest, ctxs, n + 1);
        var r: Request := Request(lines, length, after[..length]);
        var more := Parse(rest);
        RestampCons(r, more.requests, ctxs, n);
        var r': Request := Request(Stamped(lines, ctxs(n)), length, after[..length]);
        PrintCons(r', Restamp(more.requests, ctxs, n + 1));
        BodyContinues(after, length, ctxs, n + 1);
        var tail := if GivenUpOn(more.rest) then more.rest else "";
        Regroup(printed, r.body, Print(Restamp(more.requests, ctxs, n + 1)), tail);
      }
    }
  }

  lemma StuckHead(s: Bytes, ctxs: Contexts, n: nat)
    requires Stuck(s)
    ensures AtHead(s, ctxs, n).emitted == if GivenUpOn(s) then s else ""
    ensures AtHead(s, ctxs, n).state.phase.Raw? <==> GivenUpOn(s)
  {
  }

  lemma BodyEnds(s: Bytes, k: nat, ctxs: Contexts, n: nat)
    requires |s| <= k
    ensures AtBody(s, k, ctxs, n).emitted == s && !AtBody(s, k, ctxs, n).state.phase.Raw?
    ensures !GivenUpOn("")
  {
  }

  lemma BodyContinues(s: Bytes, k: nat, ctxs: Contexts, n: nat)
    requires k < |s|
    ensures AtBody(s, k, ctxs, n) == AtHead(s[k..], ctxs, n).After(s[..k])
  {
  }

  lemma RestampNothing(ctxs: Contexts, n: nat)
    ensures Restamp([], ctxs, n) == []
  {
  }

  lemma RestampCons(r: Request, more: seq<Request>, ctxs: Contexts, n: nat)
    ensures Restamp([r] + more, ctxs, n)
         == [Request(Stamped(r.lines, ctxs(n)), r.length, r.body)] + Restamp(more, ctxs, n + 1)
  {
    hide Stamped;
    assert ([r] + more)[1..] == more;
  }

  // ---------------------------------------------------------------- one head

  /** The context values contain no line break once written as Latin-1. */
  ghost predicate Safe(ctx: Option<StampContext>) {
    ctx.Some? ==> !Contains(Latin1(ctx.value.taskId), CRLF) && !Contains(Latin1(ctx.value.orgId), CRLF)
  }

  const TASK_NAME: Bytes := "X-Tasca-Task-Id"
  const ORG_NAME: Bytes := "X-Tasca-Org-Id"

  lemma LowerTaskName()
    ensures Lower(TASK_NAME) == "x-tasca-task-id" && Lower(ORG_NAME) == "x-tasca-org-id"
  {
    var t, o := Lower(TASK_NAME), Lower(ORG_NAME);
    assert |t| == 15 && |o| == 14;
    assert t[..8] == "x-tasca-" && t[8..] == "task-id" && t == t[..8] + t[8..];
    assert o[..8] == "x-tasca-" && o[8..] == "org-id" && o == o[..8] + o[8..];
  }

  /** A line the stamper writes is recognised as attribution when it is read again. */
  lemma StampIsAttribution(name: Bytes, value: Bytes)
    requires name == TASK_NAME || name == ORG_NAME
    ensures Kind(name + ": " + value) == Attribution
    ensures Contains(name + ": " + value, CRLF) <==> Contains(value, CRLF)
  {
    hide Lower, HeaderValue, LengthValue, Trim, IndexOf, Contains;
    NamedSo(name, " " + value);
    assert name + ": " + value == name + ":" + (" " + value);
    TrimKeeps(name);
    LowerTaskName();
    BreakAfterPrefix(name + ": ", value);
  }

  lemma NamedSo(name: Bytes, rest: Bytes)
    requires ':' !in name
    ensures HeaderName(name + ":" + rest) == Lower(Trim(name))
  {
    hide Lower, Trim, IndexOf, IndexFrom;
    var line := name + ":" + rest;
    SingletonUnbordered(':');
    AbsentSeparator(name, ':');
    IndexOfSeparator(name, ":", rest);
    assert line[..|name|] == name;
  }

  lemma BreakAfterPrefix(prefix: Bytes, value: Bytes)
    requires '\r' !in prefix
    ensures Contains(prefix + value, CRLF) <==> Contains(value, CRLF)
  {
    forall j ensures OccursAt(value, CRLF, j) <==> OccursAt(prefix + value, CRLF, |prefix| + j) {
      if 0 <= j { OccursInSuffix(prefix, value, CRLF, |prefix| + j); }
      else if 0 <= |prefix| + j && |prefix| + j + 2 <= |prefix + value| {
        assert (prefix + value)[|prefix| + j] in prefix;
        assert (prefix + value)[|prefix| + j..|prefix| + j + 2][0] != '\r';
      }
    }
    forall i | OccursAt(prefix + value, CRLF, i) ensures OccursAt(value, CRLF, i - |prefix|) {
    }
  }

  /** The attribution lines among the headers, in order: what `Kept` leaves out. */
  function Attributions(headers: seq<Bytes>): seq<Bytes> {
    if headers == [] then []
    else
      var last := headers[|headers| - 1];
      Attributions(headers[..|headers| - 1]) + (if Kind(last).Attribution? then [last] else [])
  }

  lemma {:induction false} KeptMembers(headers: seq<Bytes>)
    ensures forall h :: h in Kept(headers) <==> h in headers && !Kind(h).Attribution?
  {
    hide Kind;
    if headers != [] {
      var n := |headers| - 1;
      KeptMembers(headers[..n]);
      assert headers == headers[..n] + [headers[n]];
    }
  }

  lemma {:induction false} KeptLength(headers: seq<Bytes>)
    ensures LastLength(Kept(headers)) == LastLength(headers)
  {
    hide Kind;
    if headers != [] {
      var init, last := headers[..|headers| - 1], headers[|headers| - 1];
      KeptLength(init);
      if !Kind(last).Attribution? {
        assert (Kept(init) + [last])[..|Kept(init)|] == Kept(init);
      } else {
        assert Kept(init) + [] == Kept(init);
      }
    }
  }

  lemma {:induction false} KeptTwice(headers: seq<Bytes>)
    ensures Kept(Kept(headers)) == Kept(headers) && Attributions(Kept(headers)) == []
  {
    hide Kind;
    if headers != [] {
      var init, last := headers[..|headers| - 1], headers[|headers| - 1];
      KeptTwice(init);
      if !Kind(last).Attribution? {
        assert (Kept(init) + [last])[..|Kept(init)|] == Kept(init);
      } else {
        assert Kept(init) + [] == Kept(init);
      }
    }
  }

  /** Adding attribution lines changes nothing the framer looks at. */
  lemma {:induction false} AddedAttribution(headers: seq<Bytes>, added: seq<Bytes>)
    requires forall h :: h in added ==> Kind(h).Attribution?
    ensures Kept(headers + added) == Kept(headers)
    ensures LastLength(headers + added) == LastLength(headers)
    ensures Attributions(headers + added) == Attributions(headers) + added
    decreases |added|
  {
    hide Kind, Kept, LastLength, Attributions;
    if added == [] {
      assert headers + added == headers && Attributions(headers) + added == Attributions(headers);
    } else {
      var init, last := added[..|added| - 1], added[|added| - 1];
      AddedAttribution(headers, init);
      assert last in added;
      AddedLast(headers + init, last);
      assert headers + added == headers + init + [last];
      assert Attributions(headers) + added == Attributions(headers) + init + [last];
    }
  }

  lemma AddedLast(headers: seq<Bytes>, last: Bytes)
    requires Kind(last).Attribution?
    ensures Kept(headers + [last]) == Kept(headers)
    ensures LastLength(headers + [last]) == LastLength(headers)
    ensures Attributions(headers + [last]) == Attributions(headers) + [last]
  {
    hide Kind;
    assert (headers + [last])[..|headers|] == headers;
  }

  lemma StampsAreAttribution(ctx: Option<StampContext>)
    ensures forall h :: h in AttributionLines(ctx) ==> Kind(h).Attribution?
    ensures Safe(ctx) <==> forall h :: h in AttributionLines(ctx) ==> !Contains(h, CRLF)
  {
    hide Kind, Latin1;
    if ctx.Some? {
      var t, o := Latin1(ctx.value.taskId), Latin1(ctx.value.orgId);
      StampIsAttribution(TASK_NAME, t);
      StampIsAttribution(ORG_NAME, o);
      assert "X-Tasca-Task-Id: " + t == TASK_NAME + ": " + t;
      assert "X-Tasca-Org-Id: " + o == ORG_NAME + ": " + o;
      var h := AttributionLines(ctx);
      assert h[0] in h && h[1] in h;
    }
  }

  lemma SameProblems(a: seq<Bytes>, b: seq<Bytes>)
    requires forall h :: !Kind(h).Attribution? ==> (h in a <==> h in b)
    ensures Malformed(a) <==> Malformed(b)
    ensures Chunked(a) <==> Chunked(b)
  {
    hide Kind;
  }

  /** After stamping: the request line and every other header keep their bytes and order, and the
      attribution lines are exactly the runner's, once each. */
  lemma StampedHead(lines: seq<Bytes>, ctx: Option<StampContext>)
    requires |lines| > 0
    ensures var stamped := Stamped(lines, ctx);
            && stamped[0] == lines[0]
            && Kept(stamped[1..]) == Kept(lines[1..])
            && Attributions(stamped[1..]) == AttributionLines(ctx)
            && Framing(stamped) == Framing(lines)
            && Stamped(stamped, ctx) == stamped
  {
    hide Kind, AttributionLines, Method, Kept, Attributions, LastLength, Malformed, Chunked;
    var headers := lines[1..];
    var kept, added := Kept(headers), AttributionLines(ctx);
    var stamped := Stamped(lines, ctx);
    assert stamped[1..] == kept + added;
    KeptMembers(headers);
    KeptLength(headers);
    KeptTwice(headers);
    StampsAreAttribution(ctx);
    AddedAttribution(kept, added);
    assert forall h :: h in stamped[1..] <==> h in kept || h in added;
    SameProblems(headers, stamped[1..]);
    assert [] + added == added;
  }

  lemma StampedWellFormed(lines: seq<Bytes>, ctx: Option<StampContext>)
    requires WellFormedHead(lines) && Safe(ctx)
    ensures WellFormedHead(Stamped(lines, ctx))
  {
    hide Kind, Kept;
    KeptMembers(lines[1..]);
    StampsAreAttribution(ctx);
    var stamped := Stamped(lines, ctx);
    forall k | 1 <= k < |stamped| ensures stamped[k] != "" && !Contains(stamped[k], CRLF) {
      var kept := Kept(lines[1..]);
      if k - 1 < |kept| {
        assert stamped[k] == kept[k - 1] && kept[k - 1] in lines[1..];
      } else {
        assert stamped[k] == AttributionLines(ctx)[k - 1 - |kept|];
        assert stamped[k] in AttributionLines(ctx);
      }
    }
  }

  lemma UnsafeIsBroken(lines: seq<Bytes>, ctx: Option<StampContext>)
    requires |lines| > 0 && WellFormedHead(Stamped(lines, ctx))
    ensures Safe(ctx)
  {
    hide Kind, Kept;
    StampsAreAttribution(ctx);
    var stamped, added := Stamped(lines, ctx), AttributionLines(ctx);
    forall h | h in added ensures !Contains(h, CRLF) {
      var j :| 0 <= j < |added| && added[j] == h;
      assert stamped[|stamped| - |added| + j] == h;
    }
  }

  // ---------------------------------------------------------------- whole connections

  /** The contexts read by the heads n, n + 1, ..., n + count - 1. */
  ghost predicate SafeRun(ctxs: Contexts, n: nat, count: nat) {
    forall i: nat :: n <= i < n + count ==> Safe(ctxs(i))
  }

  lemma {:induction false} RestampedWellFormed(p: Parsed, rest: Bytes, ctxs: Contexts, n: nat)
    requires WellFormed(p) && (rest == p.rest || rest == "")
    requires SafeRun(ctxs, n, |p.requests|)
    ensures WellFormed(Parsed(Restamp(p.requests, ctxs, n), rest))
    decreases |p.requests|
  {
    hide WellFormedHead, Framing, Stamped, Safe, Stuck;
    if p.requests == [] {
      NothingIsStuck();
    } else {
      var r := p.requests[0];
      var more := Parsed(p.requests[1..], p.rest);
      RestampedWellFormed(more, rest, ctxs, n + 1);
      StampedWellFormed(r.lines, ctxs(n));
      StampedHead(r.lines, ctxs(n));
      var r': Request := Request(Stamped(r.lines, ctxs(n)), r.length, r.body);
      if |r.body| < r.length {
        assert p == Parsed([r], "");
        assert more.requests == [];
        RestampNothing(ctxs, n + 1);
      }
      WellFormedCons(r', Parsed(Restamp(more.requests, ctxs, n + 1), rest));
    }
  }

  lemma {:induction false} RestampTwice(requests: seq<Request>, ctxs: Contexts, n: nat)
    ensures Restamp(Restamp(requests, ctxs, n), ctxs, n) == Restamp(requests, ctxs, n)
  {
    hide Stamped, Framing;
    if requests != [] {
      StampedHead(requests[0].lines, ctxs(n));
      RestampTwice(requests[1..], ctxs, n + 1);
    }
  }

  lemma {:induction false} ReadSafe(requests: seq<Request>, rest: Bytes, ctxs: Contexts, n: nat)
    requires WellFormed(Parsed(Restamp(requests, ctxs, n), rest))
    ensures SafeRun(ctxs, n, |requests|)
  {
    hide WellFormedHead, Framing, Stamped, Safe, Stuck;
    if requests != [] {
      var stamped := Restamp(requests, ctxs, n);
      assert stamped[1..] == Restamp(requests[1..], ctxs, n + 1);
      UnsafeIsBroken(requests[0].lines, ctxs(n));
      ReadSafe(requests[1..], rest, ctxs, n + 1);
    }
  }

  /** Re-framing, with its exact condition: reading the stamped stream gives the stamped requests, one
      for one and with the same bodies, if and only if no context value stamped on this stream writes a
      line break. */
  lemma Reframing(s: Bytes, ctxs: Contexts, n: nat)
    ensures Parse(AtHead(s, ctxs, n).emitted).requests == Restamp(Parse(s).requests, ctxs, n)
       <==> SafeRun(ctxs, n, |Parse(s).requests|)
  {
    hide *;
    var p := Parse(s);
    var emitted := AtHead(s, ctxs, n).emitted;
    if SafeRun(ctxs, n, |p.requests|) {
      var _ := ReadBack(s, ctxs, n);
    }
    if Parse(emitted).requests == Restamp(p.requests, ctxs, n) {
      ParseIsLossless(emitted);
      ReadSafe(p.requests, Parse(emitted).rest, ctxs, n);
    }
  }

  /** What is read back, in full. */
  lemma ReadBack(s: Bytes, ctxs: Contexts, n: nat) returns (rest: Bytes)
    requires SafeRun(ctxs, n, |Parse(s).requests|)
    ensures rest == if GivenUpOn(Parse(s).rest) then Parse(s).rest else ""
    ensures Parse(AtHead(s, ctxs, n).emitted) == Parsed(Restamp(Parse(s).requests, ctxs, n), rest)
  {
    hide *;
    var p := Parse(s);
    rest := if GivenUpOn(p.rest) then p.rest else "";
    EmitsTheStampedRequests(s, ctxs, n);
    ParseIsLossless(s);
    RestampedWellFormed(p, rest, ctxs, n);
    ParseOfPrint(Parsed(Restamp(p.requests, ctxs, n), rest));
  }

  /** Stamping a stamped connection with the same contexts changes nothing. */
  lemma Idempotence(s: Bytes, ctxs: Contexts, n: nat)
    requires SafeRun(ctxs, n, |Parse(s).requests|)
    ensures AtHead(AtHead(s, ctxs, n).emitted, ctxs, n).emitted == AtHead(s, ctxs, n).emitted
  {
    hide *;
    var rest := ReadBack(s, ctxs, n);
    EmitsTheStampedRequests(s, ctxs, n);
    EmitsTheStampedRequests(AtHead(s, ctxs, n).emitted, ctxs, n);
    RestampTwice(Parse(s).requests, ctxs, n);
    NothingGivenUp();
  }

  /** Two stampers in a row, however the stream and then the stamped stream are cut: where the heads fit both
      times, the second one changes nothing. */
  lemma StampingTwice(chunks: seq<Bytes>, again: seq<Bytes>, ctxs: Contexts)
    requires Flatten(again) == Run(START, chunks, ctxs).emitted
    requires HeadsFit(Flatten(chunks)) && HeadsFit(Flatten(again))
    requires SafeRun(ctxs, 0, |Parse(Flatten(chunks)).requests|)
    ensures Run(START, again, ctxs).emitted == Flatten(again)
  {
    hide *;
    ChunkInvariance(Flatten(chunks), ctxs);
    ChunkInvariance(Flatten(again), ctxs);
    assert Flatten(chunks) <= Flatten(chunks) && Flatten(again) <= Flatten(again);
    Idempotence(Flatten(chunks), ctxs, 0);
  }

  lemma NothingGivenUp()
    ensures !GivenUpOn("")
  {
  }
}
