/**
  What the stamper does over a whole connection: exactly when its output does not depend on how
  the stream is cut into chunks, and that a connection it gives up on is passed on unchanged.
  */
module RequestStampStream {
  import opened Search
  import opened Text
  import opened RequestStamp

  /** Every complete head that can be framed leaves room for all but its last byte in the buffer. */
  ghost predicate HeadsFit(s: Bytes)
    decreases |s|
  {
    var i := IndexOf(s, BLANK_LINE);
    i >= 0 ==>
      var framing := Framing(Split(s[..i], CRLF));
      framing.Some? ==>
        && i + 3 <= MAX_HEAD
        && (framing.value < |s| - (i + 4) ==> HeadsFit(s[i + 4..][framing.value..]))
  }

  ghost predicate BodyFits(s: Bytes, k: nat) {
    k < |s| ==> HeadsFit(s[k..])
  }

  ghost predicate FitsFrom(st: State, s: Bytes) {
    match st.phase
    case Head(buffered) => HeadsFit(buffered + s)
    case Body(remaining) => BodyFits(s, remaining)
    case Raw => true
  }

  /** `t` arrives after an outcome. */
  function Then(o: Outcome, t: Bytes, ctxs: Contexts): Outcome {
    Resume(o.state, t, ctxs).After(o.emitted)
  }

  lemma ThenAfter(o: Outcome, t: Bytes, ctxs: Contexts, prefix: Bytes)
    ensures Then(o.After(prefix), t, ctxs) == Then(o, t, ctxs).After(prefix)
  {
    AfterAfter(Resume(o.state, t, ctxs), prefix, o.emitted);
  }

  // ---------------------------------------------------------------- one cut

  /** A stream may be cut at `|s|` unless the part before the cut was already given up as oversized. */
  lemma {:induction false} CutHead(s: Bytes, t: Bytes, ctxs: Contexts, n: nat)
    requires HeadsFit(s + t) || !AtHead(s, ctxs, n).state.phase.Raw?
    ensures AtHead(s + t, ctxs, n) == Then(AtHead(s, ctxs, n), t, ctxs)
    ensures HeadsFit(s + t) ==> FitsFrom(AtHead(s, ctxs, n).state, t)
    decreases |s|, 0
  {
    hide Framing, Stamped, PrintHead, Split;
    IndexOfExtended(s, t, BLANK_LINE);
    var i := IndexOf(s, BLANK_LINE);
    if i < 0 {
      if t == "" { assert s + t == s; }
    } else {
      assert (s + t)[..i] == s[..i] && (s + t)[i + 4..] == s[i + 4..] + t;
      var lines := Split(s[..i], CRLF);
      if Framing(lines).Some? {
        var k := Framing(lines).value;
        CutBody(s[i + 4..], k, t, ctxs, n + 1);
        ThenAfter(AtBody(s[i + 4..], k, ctxs, n + 1), t, ctxs, PrintHead(Stamped(lines, ctxs(n))));
      }
    }
  }

  lemma NothingToFit()
    ensures HeadsFit("")
  {
  }

  lemma {:induction false} CutBody(s: Bytes, k: nat, t: Bytes, ctxs: Contexts, n: nat)
    requires BodyFits(s + t, k) || !AtBody(s, k, ctxs, n).state.phase.Raw?
    ensures AtBody(s + t, k, ctxs, n) == Then(AtBody(s, k, ctxs, n), t, ctxs)
    ensures BodyFits(s + t, k) ==> FitsFrom(AtBody(s, k, ctxs, n).state, t)
    decreases |s|, 1
  {
    hide AtHead, HeadsFit;
    if t == "" { assert s + t == s; }
    if |s| < k || s == "" {
      if k - |s| < |t| {
        assert (s + t)[k..] == t[k - |s|..] && (s + t)[..k] == s + t[..k - |s|];
      }
    } else if |s| == k {
      assert (s + t)[k..] == t && (s + t)[..k] == s;
      assert "" + t == t;
      NothingToFit();
    } else {
      assert (s + t)[k..] == s[k..] + t && (s + t)[..k] == s[..k];
      CutHead(s[k..], t, ctxs, n);
      ThenAfter(AtHead(s[k..], ctxs, n), t, ctxs, s[..k]);
    }
  }

  lemma CutChunk(st: State, a: Bytes, b: Bytes, ctxs: Contexts)
    requires FitsFrom(st, a + b) || !Resume(st, a, ctxs).state.phase.Raw? || st.phase.Raw?
    ensures Resume(st, a + b, ctxs) == Then(Resume(st, a, ctxs), b, ctxs)
    ensures FitsFrom(st, a + b) ==> FitsFrom(Resume(st, a, ctxs).state, b)
  {
    hide AtHead, AtBody, HeadsFit;
    if a == "" {
      assert a + b == b;
      AfterAfter(Resume(st, b, ctxs), "", "");
    } else {
      match st.phase
      case Head(h) =>
        assert h + (a + b) == (h + a) + b;
        CutHead(h + a, b, ctxs, st.served);
      case Body(k) => CutBody(a, k, b, ctxs, st.served);
      case Raw =>
    }
  }

  // ---------------------------------------------------------------- whole runs

  function Run(st: State, chunks: seq<Bytes>, ctxs: Contexts): Outcome
    decreases |chunks|
  {
    if chunks == [] then Outcome("", st)
    else
      var first := Resume(st, chunks[0], ctxs);
      Run(first.state, chunks[1..], ctxs).After(first.emitted)
  }

  /** The stamper object, fed one chunk after the other, is the fold of the specification. */
  method Pipe(chunks: seq<Bytes>, getContext: Contexts) returns (pushed: Bytes, fallbacks: seq<string>)
    ensures pushed == Run(START, chunks, getContext).emitted
    ensures |fallbacks| <= 1
    ensures fallbacks != [] <==> Run(START, chunks, getContext).state.phase.Raw?
  {
    hide Resume;
    var stamper := new RequestStamper(getContext);
    ghost var goal := Run(START, chunks, getContext);
    AfterAfter(goal, "", "");
    for i := 0 to |chunks|
      invariant stamper.Valid() && stamper.contexts == getContext && fresh(stamper)
      invariant goal == Run(stamper.Current(), chunks[i..], getContext).After(stamper.pushed)
    {
      ghost var first := Resume(stamper.Current(), chunks[i], getContext);
      assert chunks[i..][1..] == chunks[i + 1..];
      AfterAfter(Run(first.state, chunks[i + 1..], getContext), stamper.pushed, first.emitted);
      stamper.Transform(chunks[i]);
    }
    pushed, fallbacks := stamper.pushed, stamper.fallbacks;
    assert goal == Outcome("", stamper.Current()).After(pushed);
    assert pushed + "" == pushed;
  }

  lemma {:induction false} FittingRun(st: State, chunks: seq<Bytes>, ctxs: Contexts)
    requires FitsFrom(st, Flatten(chunks))
    decreases |chunks|
    ensures Run(st, chunks, ctxs) == Resume(st, Flatten(chunks), ctxs)
  {
    hide Resume, HeadsFit;
    if chunks != [] {
      CutChunk(st, chunks[0], Flatten(chunks[1..]), ctxs);
      FittingRun(Resume(st, chunks[0], ctxs).state, chunks[1..], ctxs);
    } else {
      assert Resume(st, "", ctxs) == Outcome("", st) by { EmptyChunk(st, ctxs); }
    }
  }

  lemma EmptyChunk(st: State, ctxs: Contexts)
    ensures Resume(st, "", ctxs) == Outcome("", st)
  {
  }

  lemma FromStart(s: Bytes, ctxs: Contexts)
    ensures Resume(START, s, ctxs) == AtHead(s, ctxs, 0)
    ensures FitsFrom(START, s) <==> HeadsFit(s)
  {
    assert "" + s == s;
  }

  lemma {:induction false} PrefixFits(p: Bytes, t: Bytes)
    requires HeadsFit(p + t)
    ensures HeadsFit(p)
    decreases |p|
  {
    hide Framing, Split;
    IndexOfExtended(p, t, BLANK_LINE);
    var i := IndexOf(p, BLANK_LINE);
    if i >= 0 {
      assert (p + t)[..i] == p[..i];
      var framing := Framing(Split(p[..i], CRLF));
      if framing.Some? && framing.value < |p| - (i + 4) {
        assert (p + t)[i + 4..][framing.value..] == p[i + 4..][framing.value..] + t;
        PrefixFits(p[i + 4..][framing.value..], t);
      }
    }
  }

  /** Where the delimiter is found in a prefix of the stream. */
  lemma CutAround(s: Bytes, i: nat, cut: nat)
    requires i == IndexOf(s, BLANK_LINE) && cut <= |s|
    ensures cut < i + 4 ==> IndexOf(s[..cut], BLANK_LINE) < 0
    ensures cut >= i + 4 ==> IndexOf(s[..cut], BLANK_LINE) == i && s[..cut][..i] == s[..i]
  {
    assert s == s[..cut] + s[cut..];
    IndexOfExtended(s[..cut], s[cut..], BLANK_LINE);
    if cut >= i + 4 {
      assert s[..cut][i..i + 4] == s[i..i + 4];
    }
  }

  /** The specification on a prefix that contains a whole first head. */
  lemma HeadStep(s: Bytes, cut: nat, ctxs: Contexts, n: nat)
    requires IndexOf(s, BLANK_LINE) >= 0 && IndexOf(s, BLANK_LINE) + 4 <= cut <= |s|
    requires Framing(Split(s[..IndexOf(s, BLANK_LINE)], CRLF)).Some?
    ensures var i := IndexOf(s, BLANK_LINE);
            var lines := Split(s[..i], CRLF);
            AtHead(s[..cut], ctxs, n)
            == AtBody(s[i + 4..cut], Framing(lines).value, ctxs, n + 1).After(PrintHead(Stamped(lines, ctxs(n))))
  {
    hide Framing, Stamped, PrintHead, Split;
    var i := IndexOf(s, BLANK_LINE);
    CutAround(s, i, cut);
    assert s[..cut][i + 4..] == s[i + 4..cut];
  }

  lemma EmptyHead(ctxs: Contexts, n: nat)
    ensures AtHead("", ctxs, n) == Outcome("", State(Head(""), n))
  {
  }

  /** A whole body, and what follows it. */
  lemma BodyStep(body: Bytes, k: nat, ctxs: Contexts, n: nat)
    requires k <= |body|
    ensures var (o, next) := (AtBody(body, k, ctxs, n), AtHead(body[k..], ctxs, n));
            && o.emitted == body[..k] + next.emitted
            && (if k < |body| then o.state == next.state else o.state.phase in {Head(""), Body(0)})
  {
    hide AtHead;
    EmptyHead(ctxs, n);
    if k == |body| {
      assert body[k..] == "" && body[..k] == body && body + "" == body;
    }
  }

  /** ... and the whole first body. */
  lemma RequestStep(s: Bytes, k: nat, cut: nat, ctxs: Contexts, n: nat)
    requires IndexOf(s, BLANK_LINE) >= 0
    requires Framing(Split(s[..IndexOf(s, BLANK_LINE)], CRLF)) == Some(k)
    requires IndexOf(s, BLANK_LINE) + 4 + k <= cut <= |s|
    ensures var i := IndexOf(s, BLANK_LINE);
            var first := PrintHead(Stamped(Split(s[..i], CRLF), ctxs(n))) + s[i + 4..i + 4 + k];
            var next := AtHead(s[i + 4 + k..cut], ctxs, n + 1);
            && AtHead(s[..cut], ctxs, n).emitted == first + next.emitted
            && (cut > i + 4 + k ==> AtHead(s[..cut], ctxs, n).state == next.state)
            && (cut == i + 4 + k ==> AtHead(s[..cut], ctxs, n).state.phase in {Head(""), Body(0)})
  {
    hide AtHead, AtBody, Framing, Stamped, PrintHead, Split, IndexOf;
    var i := IndexOf(s, BLANK_LINE);
    var head := PrintHead(Stamped(Split(s[..i], CRLF), ctxs(n)));
    HeadStep(s, cut, ctxs, n);
    var body := s[i + 4..cut];
    BodyStep(body, k, ctxs, n + 1);
    assert body[k..] == s[i + 4 + k..cut] && body[..k] == s[i + 4..i + 4 + k];
    var next := AtHead(body[k..], ctxs, n + 1);
    assert head + (body[..k] + next.emitted) == (head + body[..k]) + next.emitted;
  }

  /** A framable head that does not fit is given up one byte early, but framed when it comes whole. */
  lemma {:induction false} MisfitCut(s: Bytes, ctxs: Contexts, n: nat) returns (cut: nat)
    requires !HeadsFit(s)
    ensures cut < |s|
    ensures AtHead(s[..cut], ctxs, n).state.phase.Raw? && !AtHead(s[..cut + 1], ctxs, n).state.phase.Raw?
    decreases |s|
  {
    hide AtHead, Framing, Stamped, PrintHead, Split;
    var i := IndexOf(s, BLANK_LINE);
    var k := Framing(Split(s[..i], CRLF)).value;
    if i + 3 > MAX_HEAD {
      cut := i + 3;
      CutAround(s, i, cut);
      OversizedHead(s[..cut], ctxs, n);
      HeadStep(s, cut + 1, ctxs, n);
      assert s[i + 4..cut + 1] == "";
    } else {
      var rest := s[i + 4..][k..];
      var inner := MisfitCut(rest, ctxs, n + 1);
      cut := i + 4 + k + inner;
      assert rest[..inner] == s[i + 4 + k..cut] && rest[..inner + 1] == s[i + 4 + k..cut + 1];
      EmptyHead(ctxs, n + 1);
      RequestStep(s, k, cut, ctxs, n);
      RequestStep(s, k, cut + 1, ctxs, n);
    }
  }

  lemma OversizedHead(s: Bytes, ctxs: Contexts, n: nat)
    requires IndexOf(s, BLANK_LINE) < 0
    ensures AtHead(s, ctxs, n).state.phase == if |s| > MAX_HEAD then Raw else Head(s)
    ensures AtHead(s, ctxs, n).emitted == if |s| > MAX_HEAD then s else ""
  {
  }

  /** Chunk invariance, with its exact condition: on every prefix of the stream and for every way of
      cutting it, the run ends where the whole-stream specification ends, if and only if every
      complete framable head fits the buffer. */
  lemma ChunkInvariance(s: Bytes, ctxs: Contexts)
    ensures (forall chunks :: Flatten(chunks) <= s ==> Run(START, chunks, ctxs) == AtHead(Flatten(chunks), ctxs, 0))
       <==> HeadsFit(s)
  {
    hide AtHead, HeadsFit, Resume;
    if HeadsFit(s) {
      forall chunks | Flatten(chunks) <= s
        ensures Run(START, chunks, ctxs) == AtHead(Flatten(chunks), ctxs, 0)
      {
        var p := Flatten(chunks);
        assert s == p + s[|p|..];
        PrefixFits(p, s[|p|..]);
        FromStart(p, ctxs);
        FittingRun(START, chunks, ctxs);
      }
    } else {
      var cut := MisfitCut(s, ctxs, 0);
      var chunks := TwoChunks(s, cut, ctxs);
      assert Flatten(chunks) <= s;
    }
  }

  /** The chunking that shows it: everything but the last byte of the head, then that byte. */
  lemma TwoChunks(s: Bytes, cut: nat, ctxs: Contexts) returns (chunks: seq<Bytes>)
    requires cut < |s|
    requires AtHead(s[..cut], ctxs, 0).state.phase.Raw? && !AtHead(s[..cut + 1], ctxs, 0).state.phase.Raw?
    ensures Flatten(chunks) <= s && Run(START, chunks, ctxs) != AtHead(Flatten(chunks), ctxs, 0)
  {
    hide AtHead, Resume;
    var a, b := s[..cut], s[cut..cut + 1];
    chunks := [a, b];
    FlattenFew(a, b);
    assert Flatten(chunks) == a + b == s[..cut + 1];
    FromStart(a, ctxs);
    var first := Resume(START, a, ctxs);
    RawRun(first.state, [b], ctxs);
  }

  // ---------------------------------------------------------------- fail-safe

  /** From the moment it is raw, a connection is passed on unchanged. */
  lemma {:induction false} RawRun(st: State, chunks: seq<Bytes>, ctxs: Contexts)
    requires st.phase.Raw?
    ensures Run(st, chunks, ctxs) == Outcome(Flatten(chunks), st)
  {
    if chunks != [] {
      RawRun(st, chunks[1..], ctxs);
    }
  }

  /** Where the specification stops stamping: `k` is the first byte of the head it gave up on. */
  lemma {:induction false} RawTail(s: Bytes, ctxs: Contexts, n: nat) returns (k: nat)
    requires AtHead(s, ctxs, n).state.phase.Raw?
    ensures k <= |s| && AtHead(s, ctxs, n).emitted == AtHead(s[..k], ctxs, n).emitted + s[k..]
    ensures AtHead(s[..k], ctxs, n).state.phase in {Head(""), Body(0)}
    ensures IndexOf(s[k..], BLANK_LINE) < 0 || Framing(Split(s[k..][..IndexOf(s[k..], BLANK_LINE)], CRLF)).None?
    decreases |s|
  {
    hide AtHead, Framing, Stamped, PrintHead, Split;
    var i := IndexOf(s, BLANK_LINE);
    if i < 0 || Framing(Split(s[..i], CRLF)).None? {
      k := 0;
      GivenUp(s, ctxs, n);
      EmptyHead(ctxs, n);
      assert s[0..] == s && s[..0] == "" && "" + s == s;
    } else {
      var length := Framing(Split(s[..i], CRLF)).value;
      RawBeyond(s, ctxs, n, length);
      var rest := s[i + 4 + length..];
      var inner := RawTail(rest, ctxs, n + 1);
      k := i + 4 + length + inner;
      assert s[k..] == rest[inner..];
      TailStep(s, ctxs, n, length, inner);
    }
  }

  /** A stream that goes raw behind its first request goes on behind its body. */
  lemma RawBeyond(s: Bytes, ctxs: Contexts, n: nat, length: nat)
    requires IndexOf(s, BLANK_LINE) >= 0 && Framing(Split(s[..IndexOf(s, BLANK_LINE)], CRLF)) == Some(length)
    requires AtHead(s, ctxs, n).state.phase.Raw?
    ensures var at := IndexOf(s, BLANK_LINE) + 4 + length;
            at < |s| && AtHead(s[at..], ctxs, n + 1).state.phase.Raw?
  {
    hide Framing, Stamped, PrintHead, Split, AtHead;
    var i := IndexOf(s, BLANK_LINE);
    assert s[..|s|] == s;
    HeadStep(s, |s|, ctxs, n);
    if length < |s| - (i + 4) {
      RequestStep(s, length, |s|, ctxs, n);
      assert s[i + 4 + length..|s|] == s[i + 4 + length..];
    }
  }

  lemma TailStep(s: Bytes, ctxs: Contexts, n: nat, length: nat, inner: nat)
    requires IndexOf(s, BLANK_LINE) >= 0 && Framing(Split(s[..IndexOf(s, BLANK_LINE)], CRLF)) == Some(length)
    requires var at := IndexOf(s, BLANK_LINE) + 4 + length;
             at + inner <= |s|
             && AtHead(s[at..], ctxs, n + 1).emitted == AtHead(s[at..][..inner], ctxs, n + 1).emitted + s[at..][inner..]
             && AtHead(s[at..][..inner], ctxs, n + 1).state.phase in {Head(""), Body(0)}
    ensures var k := IndexOf(s, BLANK_LINE) + 4 + length + inner;
            && AtHead(s, ctxs, n).emitted == AtHead(s[..k], ctxs, n).emitted + s[k..]
            && AtHead(s[..k], ctxs, n).state.phase in {Head(""), Body(0)}
  {
    hide Framing, Stamped, PrintHead, Split, AtHead, IndexOf;
    var i := IndexOf(s, BLANK_LINE);
    var at := i + 4 + length;
    var k := at + inner;
    var first := PrintHead(Stamped(Split(s[..i], CRLF), ctxs(n))) + s[i + 4..at];
    RequestStep(s, length, |s|, ctxs, n);
    RequestStep(s, length, k, ctxs, n);
    assert s[..|s|] == s && s[at..|s|] == s[at..] && s[at..k] == s[at..][..inner] && s[k..] == s[at..][inner..];
    var head := AtHead(s[at..k], ctxs, n + 1).emitted;
    assert first + (head + s[k..]) == (first + head) + s[k..];
  }

  lemma GivenUp(s: Bytes, ctxs: Contexts, n: nat)
    requires AtHead(s, ctxs, n).state.phase.Raw?
    requires IndexOf(s, BLANK_LINE) < 0 || Framing(Split(s[..IndexOf(s, BLANK_LINE)], CRLF)).None?
    ensures AtHead(s, ctxs, n) == Outcome(s, State(Raw, n))
  {
  }

  /** Fail-safe, for every run and with no condition on the chunks: a connection that ends raw has been
      stamped up to the first byte of some head and copied byte for byte from there on. */
  lemma {:induction false} FailSafe(chunks: seq<Bytes>, ctxs: Contexts) returns (k: nat)
    requires Run(START, chunks, ctxs).state.phase.Raw?
    ensures var s := Flatten(chunks);
            && k <= |s|
            && AtHead(s[..k], ctxs, 0).state.phase in {Head(""), Body(0)}
            && Run(START, chunks, ctxs).emitted == AtHead(s[..k], ctxs, 0).emitted + s[k..]
  {
    hide AtHead, Resume, Framing, Split;
    var m := FirstRaw(START, chunks, ctxs);
    var seen := Flatten(chunks[..m]);
    FromStart(seen, ctxs);
    k := RawTail(seen, ctxs, 0);
    FlattenCut(chunks, m);
    assert Flatten(chunks)[..k] == seen[..k];
    assert Flatten(chunks)[k..] == seen[k..] + Flatten(chunks[m..]);
    assert AtHead(seen[..k], ctxs, 0).emitted + (seen[k..] + Flatten(chunks[m..]))
        == (AtHead(seen[..k], ctxs, 0).emitted + seen[k..]) + Flatten(chunks[m..]);
  }

  lemma {:induction false} FlattenCut(chunks: seq<Bytes>, m: nat)
    requires m <= |chunks|
    ensures Flatten(chunks) == Flatten(chunks[..m]) + Flatten(chunks[m..])
  {
    if m == 0 {
      assert chunks[0..] == chunks;
    } else {
      FlattenCut(chunks[1..], m - 1);
      assert chunks[..m][1..] == chunks[1..][..m - 1] && chunks[1..][m - 1..] == chunks[m..];
    }
  }

  lemma TakeOneMore(chunks: seq<Bytes>, m: nat)
    requires 0 < m <= |chunks|
    ensures Flatten(chunks[..m]) == chunks[0] + Flatten(chunks[1..][..m - 1])
    ensures chunks[m..] == chunks[1..][m - 1..]
  {
    assert chunks[..m][1..] == chunks[1..][..m - 1];
  }

  lemma OneChunk(chunks: seq<Bytes>)
    requires chunks != []
    ensures Flatten(chunks[..1]) == chunks[0]
  {
    TakeOneMore(chunks, 1);
    assert chunks[1..][..0] == [] && chunks[0] + "" == chunks[0];
  }

  lemma RunFirst(st: State, chunks: seq<Bytes>, ctxs: Contexts)
    requires chunks != []
    ensures var first := Resume(st, chunks[0], ctxs); Run(st, chunks, ctxs) == Run(first.state, chunks[1..], ctxs).After(first.emitted)
  {
    hide Resume;
  }

  /** On the first m chunks the run goes raw as the specification does, and the rest is copied. */
  ghost predicate GoesRaw(st: State, chunks: seq<Bytes>, ctxs: Contexts, m: nat) {
    && m <= |chunks|
    && Resume(st, Flatten(chunks[..m]), ctxs).state.phase.Raw?
    && Run(st, chunks, ctxs).emitted == Resume(st, Flatten(chunks[..m]), ctxs).emitted + Flatten(chunks[m..])
  }

  lemma RawAlready(st: State, chunks: seq<Bytes>, ctxs: Contexts)
    requires st.phase.Raw?
    ensures GoesRaw(st, chunks, ctxs, 0)
  {
    hide AtHead, AtBody;
    RawRun(st, chunks, ctxs);
    EmptyChunk(st, ctxs);
    assert chunks[0..] == chunks && Flatten(chunks[..0]) == "";
  }

  lemma RawHere(st: State, chunks: seq<Bytes>, ctxs: Contexts)
    requires chunks != [] && Resume(st, chunks[0], ctxs).state.phase.Raw?
    ensures GoesRaw(st, chunks, ctxs, 1)
  {
    hide Resume, Run;
    RunFirst(st, chunks, ctxs);
    RawRun(Resume(st, chunks[0], ctxs).state, chunks[1..], ctxs);
    OneChunk(chunks);
  }

  lemma RawLater(st: State, chunks: seq<Bytes>, ctxs: Contexts, inner: nat)
    requires chunks != [] && !Resume(st, chunks[0], ctxs).state.phase.Raw?
    requires GoesRaw(Resume(st, chunks[0], ctxs).state, chunks[1..], ctxs, inner)
    ensures GoesRaw(st, chunks, ctxs, inner + 1)
  {
    hide Resume, Run, Flatten, FitsFrom;
    var first, later := Resume(st, chunks[0], ctxs), Flatten(chunks[1..][..inner]);
    RunFirst(st, chunks, ctxs);
    TakeOneMore(chunks, inner + 1);
    CutChunk(st, chunks[0], later, ctxs);
    var rest := Flatten(chunks[inner + 1..]);
    assert first.emitted + (Resume(first.state, later, ctxs).emitted + rest)
        == (first.emitted + Resume(first.state, later, ctxs).emitted) + rest;
  }

  /** Up to the chunk on which it goes raw, a run is the whole-stream specification. */
  lemma {:induction false} FirstRaw(st: State, chunks: seq<Bytes>, ctxs: Contexts) returns (m: nat)
    requires Run(st, chunks, ctxs).state.phase.Raw?
    decreases |chunks|
    ensures GoesRaw(st, chunks, ctxs, m)
  {
    hide Resume, GoesRaw;
    if st.phase.Raw? {
      m := 0;
      RawAlready(st, chunks, ctxs);
    } else {
      var first := Resume(st, chunks[0], ctxs);
      if first.state.phase.Raw? {
        m := 1;
        RawHere(st, chunks, ctxs);
      } else {
        var inner := FirstRaw(first.state, chunks[1..], ctxs);
        m := inner + 1;
        RawLater(st, chunks, ctxs, inner);
      }
    }
  }
}
