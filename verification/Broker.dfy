/**
  The token broker: one connection as a state machine over data, idle and mint events, and the minter behind it.
  Text is taken after decoding, one character for each UTF-16 unit.
  */
module Broker {
  import opened Search
  import opened Text

  const MAX_REQUEST: nat := 4096

  datatype RepoToken = RepoToken(token: string, expiresAt: int)
  /** A mint resolves with a token, rejects, or resolves with nothing usable. */
  datatype MintResult = Minted(token: RepoToken) | MintThrows | MintsNothing

  datatype Response = TokenResponse(token: RepoToken) | ErrorResponse(error: string)

  /** What `JSON.parse(line).repoRef` gives. */
  datatype Parsed = ParseThrows | NotAString | Ref(value: string)

  // ---------------------------------------------------------------- repo refs

  predicate IsNameChar(c: char) {
    'A' <= c <= 'Z' || 'a' <= c <= 'z' || '0' <= c <= '9' || c in "._-"
  }

  predicate IsName(s: string) { s != "" && forall i :: 0 <= i < |s| ==> IsNameChar(s[i]) }

  /** REPO_REF_RE and the ban on "..". */
  predicate ValidRepoRef(s: string) {
    var i := IndexOf(s, "/");
    i >= 0 && IsName(s[..i]) && IsName(s[i + 1..]) && IndexOf(s, "..") < 0
  }

  lemma NameHasNoSlash(s: string)
    requires forall i :: 0 <= i < |s| ==> IsNameChar(s[i])
    ensures !Contains(s, "/")
  {
    forall i ensures !OccursAt(s, "/", i) {
      if 0 <= i < |s| {
        assert s[i..i + 1] == [s[i]];
      }
    }
  }

  /** The letters, the digits and three more characters. */
  lemma NameCharacters(c: char)
    ensures IsNameChar(c) <==> c in CAPITALS || c in SMALL || c in "0123456789" || c in "._-"
  {
    hide CAPITALS, SMALL;
    CapitalRange(c);
    SmallRange(c);
    DigitRange(c);
  }

  /** A valid ref is owner/repo in exactly one way, and its first slash is where it divides. */
  lemma ValidRefDivides(s: string, owner: string, repo: string)
    ensures ValidRepoRef(s) && s == owner + "/" + repo && IsName(owner) ==>
              owner == s[..IndexOf(s, "/")] && repo == s[IndexOf(s, "/") + 1..] && IsName(repo)
    ensures s == owner + "/" + repo && IsName(owner) && IsName(repo) && !Contains(s, "..") ==> ValidRepoRef(s)
  {
    hide IsNameChar, IndexOf;
    if s == owner + "/" + repo && IsName(owner) {
      NameHasNoSlash(owner);
      SingletonUnbordered('/');
      IndexOfSeparator(owner, "/", repo);
      assert s[..|owner|] == owner && s[|owner| + 1..] == repo;
    }
  }

  /** The other direction: what the test accepts has that shape. */
  lemma ValidRefShape(s: string)
    requires ValidRepoRef(s)
    ensures var i := IndexOf(s, "/");
            && s == s[..i] + "/" + s[i + 1..] && IsName(s[..i]) && IsName(s[i + 1..])
            && !Contains(s, "..") && !Contains(s[i + 1..], "/") && s[i + 1..] != ".."
  {
    hide IsNameChar;
    var i := IndexOf(s, "/");
    CutAt(s, "/", i);
    NameHasNoSlash(s[i + 1..]);
    DotsShow(s, i + 1);
  }

  lemma DotsShow(s: string, i: nat)
    requires i <= |s|
    ensures s[i..] == ".." ==> OccursAt(s, "..", i)
  {
    if s[i..] == ".." {
      assert s[i..i + 2] == s[i..];
    }
  }

  // ---------------------------------------------------------------- the minter

  /** A call to the scoped minting function. */
  datatype Scope = Scope(installation: string, repositories: seq<string>)

  /** The scope of the mint for a ref; None is a throw. `resolve` is the installation lookup. */
  function ScopeFor(ref: string, resolve: string -> Option<string>): Option<Scope> {
    var slash := IndexOf(ref, "/");
    if !ValidRepoRef(ref) then None
    else
      var installation := resolve(ref[..slash]);
      if installation.None? then None else Some(Scope(installation.value, [ref[slash + 1..]]))
  }

  method MakeScope(ref: string, resolve: string -> Option<string>) returns (scope: Option<Scope>)
    ensures scope == ScopeFor(ref, resolve)
    ensures scope.Some? <==> exists owner, repo :: Recomposes(owner, repo, ref) && IndexOf(ref, "..") < 0 && resolve(owner).Some?
  {
    ScopeExists(ref, resolve);
    if !ValidRepoRef(ref) {
      return None;
    }
    var slash := IndexOf(ref, "/");
    var owner, repo := ref[..slash], ref[slash + 1..];
    var installation := resolve(owner);
    if installation.None? {
      return None;
    }
    scope := Some(Scope(installation.value, [repo]));
  }

  lemma ScopeExists(ref: string, resolve: string -> Option<string>)
    ensures ScopeFor(ref, resolve).Some? <==>
            exists owner, repo :: Recomposes(owner, repo, ref) && IndexOf(ref, "..") < 0 && resolve(owner).Some?
  {
    hide IsName, IndexOf;
    if ScopeFor(ref, resolve).Some? {
      ValidRefShape(ref);
      assert Recomposes(ref[..IndexOf(ref, "/")], ref[IndexOf(ref, "/") + 1..], ref);
    }
    forall owner, repo | Recomposes(owner, repo, ref) && IndexOf(ref, "..") < 0 && resolve(owner).Some?
      ensures ScopeFor(ref, resolve).Some?
    {
      ValidRefDivides(ref, owner, repo);
    }
  }

  /** Any mint is scoped to one repository, whose owner has the installation. */
  lemma ScopeIsOneRepo(ref: string, resolve: string -> Option<string>)
    ensures ScopeFor(ref, resolve).Some? ==> ScopedTo(ScopeFor(ref, resolve).value, ref, resolve)
  {
    hide IsName, IndexOf;
    if ScopeFor(ref, resolve).Some? {
      ValidRefShape(ref);
      assert Recomposes(ref[..IndexOf(ref, "/")], ref[IndexOf(ref, "/") + 1..], ref);
    }
  }

  predicate Recomposes(owner: string, repo: string, ref: string) {
    owner + "/" + repo == ref && IsName(owner) && IsName(repo)
  }

  /** One repository, which with the owner of the installation recomposes to the ref. */
  ghost predicate ScopedTo(scope: Scope, ref: string, resolve: string -> Option<string>) {
    exists owner, repo ::
      Recomposes(owner, repo, ref) && resolve(owner) == Some(scope.installation) && scope.repositories == [repo]
  }

  // ---------------------------------------------------------------- the connection

  datatype Event = Data(chunk: string) | Idle | MintDone(result: MintResult)

  /** `minting` is the ref of a mint that has not answered; `mints` and `sent` are all mint calls and all
      responses so far. */
  datatype Conn = Conn(buf: string, settled: bool, dispatched: bool, minting: Option<string>, mints: seq<string>, sent: seq<Response>)

  const OPENED: Conn := Conn("", false, false, None, [], [])

  function Respond(c: Conn, r: Response): Conn {
    if c.settled then c else c.(settled := true, sent := c.sent + [r])
  }

  /** handleLine up to its await. */
  function HandleLine(c: Conn, line: string, parse: string -> Parsed): Conn {
    if c.settled then c
    else
      match parse(line)
      case ParseThrows => Respond(c, ErrorResponse("invalid request"))
      case NotAString => Respond(c, ErrorResponse("invalid repoRef"))
      case Ref(ref) =>
        if ValidRepoRef(ref) then c.(minting := Some(ref), mints := c.mints + [ref])
        else Respond(c, ErrorResponse("invalid repoRef"))
  }

  function Next(c: Conn, e: Event, parse: string -> Parsed): Conn {
    match e
    case Data(chunk) =>
      if c.dispatched then c
      else
        var d := c.(buf := c.buf + chunk);
        var nl := IndexOf(d.buf, "\n");
        if |d.buf| > MAX_REQUEST then Respond(d, ErrorResponse("request too large"))
        else if nl < 0 then d
        else HandleLine(d.(dispatched := true), d.buf[..nl], parse)
    case Idle => Respond(c, ErrorResponse("timeout"))
    case MintDone(result) =>
      if c.minting.None? then c
      else
        var d := c.(minting := None);
        Respond(d, match result
                   case Minted(token) => TokenResponse(token)
                   case MintThrows => ErrorResponse("mint failed")
                   case MintsNothing => ErrorResponse("internal error"))
  }

  function Run(c: Conn, events: seq<Event>, parse: string -> Parsed): Conn
    decreases |events|
  {
    if events == [] then c else Run(Next(c, events[0], parse), events[1..], parse)
  }

  class BrokerConnection {
    const parse: string -> Parsed
    var buf: string
    var settled: bool
    var dispatched: bool
    var minting: Option<string>
    ghost var mints: seq<string>
    ghost var sent: seq<Response>

    ghost function State(): Conn
      reads this
    {
      Conn(buf, settled, dispatched, minting, mints, sent)
    }

    constructor (parse: string -> Parsed)
      ensures State() == OPENED && this.parse == parse
    {
      this.parse := parse;
      buf, settled, dispatched, minting := "", false, false, None;
      mints, sent := [], [];
    }

    method Answer(r: Response)
      modifies `settled, `sent
      ensures State() == Respond(old(State()), r)
    {
      if settled {
        return;
      }
      settled := true;
      sent := sent + [r];
    }

    method OnData(chunk: string)
      modifies this
      ensures State() == Next(old(State()), Data(chunk), parse)
    {
      if dispatched {
        return;
      }
      buf := buf + chunk;
      if |buf| > MAX_REQUEST {
        Answer(ErrorResponse("request too large"));
        return;
      }
      var nl := IndexOf(buf, "\n");
      if nl == -1 {
        return;
      }
      dispatched := true;
      Dispatch(buf[..nl]);
    }

    method Dispatch(line: string)
      modifies this
      ensures State() == HandleLine(old(State()), line, parse)
    {
      if settled {
        return;
      }
      var ref := parse(line);
      if ref.ParseThrows? {
        Answer(ErrorResponse("invalid request"));
      } else if ref.NotAString? || !ValidRepoRef(ref.value) {
        Answer(ErrorResponse("invalid repoRef"));
      } else {
        minting := Some(ref.value);
        mints := mints + [ref.value];
      }
    }

    method OnIdle()
      modifies this
      ensures State() == Next(old(State()), Idle, parse)
    {
      Answer(ErrorResponse("timeout"));
    }

    method OnMintDone(result: MintResult)
      requires minting.Some?
      modifies this
      ensures State() == Next(old(State()), MintDone(result), parse)
    {
      minting := None;
      match result
      case Minted(token) => Answer(TokenResponse(token));
      case MintThrows => Answer(ErrorResponse("mint failed"));
      case MintsNothing => Answer(ErrorResponse("internal error"));
    }
  }

  // ---------------------------------------------------------------- at most one mint, at most one response

  /** The text of all data events. */
  function Received(events: seq<Event>): string
    decreases |events|
  {
    if events == [] then "" else (if events[0].Data? then events[0].chunk else "") + Received(events[1..])
  }

  /** The first line of a text that has one. */
  function FirstLine(text: string): Option<string> {
    var nl := IndexOf(text, "\n");
    if nl < 0 then None else Some(text[..nl])
  }

  /** One mint at most, only of the validated ref of the first line; one response at most, and a token only from
      a mint. */
  ghost predicate Honest(c: Conn, text: string, parse: string -> Parsed) {
    && (c.settled <==> |c.sent| == 1) && |c.sent| <= 1
    && (if c.dispatched then c.buf <= text && FirstLine(c.buf).Some? && |c.buf| <= MAX_REQUEST else c.buf == text)
    && (c.mints == [] || (c.dispatched && MintedFor(c.mints, text, parse)))
    && (c.minting.Some? ==> c.mints == [c.minting.value])
    && (|c.sent| == 1 && c.sent[0].TokenResponse? ==> |c.mints| == 1)
    && (!c.dispatched ==> c.minting.None?)
  }

  ghost predicate MintedFor(mints: seq<string>, text: string, parse: string -> Parsed) {
    && FirstLine(text).Some? && parse(FirstLine(text).value).Ref?
    && mints == [parse(FirstLine(text).value).value] && ValidRepoRef(mints[0])
  }

  lemma FirstLineStays(a: string, b: string)
    ensures FirstLine(a).Some? ==> FirstLine(a + b) == FirstLine(a)
  {
    IndexOfExtended(a, b, "\n");
    var nl := IndexOf(a, "\n");
    if nl >= 0 {
      assert (a + b)[..nl] == a[..nl];
    }
  }

  lemma HonestStep(c: Conn, text: string, e: Event, parse: string -> Parsed)
    requires Honest(c, text, parse)
    ensures Honest(Next(c, e, parse), text + (if e.Data? then e.chunk else ""), parse)
  {
    hide IndexOf, ValidRepoRef;
    var more := if e.Data? then e.chunk else "";
    FirstLineStays(text, more);
    if c.dispatched {
      FirstLineStays(c.buf, text[|c.buf|..]);
      assert c.buf + text[|c.buf|..] == text;
    }
  }

  lemma HonestRun(c: Conn, text: string, events: seq<Event>, parse: string -> Parsed)
    requires Honest(c, text, parse)
    ensures Honest(Run(c, events, parse), text + Received(events), parse)
    decreases |events|
  {
    hide Next, Honest;
    if events == [] {
      assert text + Received(events) == text;
    } else {
      var more := if events[0].Data? then events[0].chunk else "";
      HonestStep(c, text, events[0], parse);
      HonestRun(Next(c, events[0], parse), text + more, events[1..], parse);
      assert text + more + Received(events[1..]) == text + Received(events);
    }
  }

  /**
    Exactly one mint. Whatever data, idle timeouts and mint answers a connection sees, in any order: it mints at
    most once and responds at most once, it mints only for the valid ref parsed from the first line of all the
    text received, and a token response implies that mint.
   */
  lemma OneMint(events: seq<Event>, parse: string -> Parsed)
    ensures var c := Run(OPENED, events, parse);
            && |c.mints| <= 1 && |c.sent| <= 1
            && (c.mints != [] ==> MintedFor(c.mints, Received(events), parse))
            && (c.sent != [] && c.sent[0].TokenResponse? ==> c.mints != [] && MintDone(Minted(c.sent[0].token)) in events)
  {
    TokenCame(OPENED, events, parse);
    hide Run, FirstLine, Received;
    assert Honest(OPENED, "", parse);
    HonestRun(OPENED, "", events, parse);
    assert "" + Received(events) == Received(events);
  }

  // ---------------------------------------------------------------- chunking

  function Chunks(chunks: seq<string>): seq<Event> {
    if chunks == [] then [] else [Data(chunks[0])] + Chunks(chunks[1..])
  }

  /** What has been done about the text, whatever is left in the buffer. */
  function Outcome(c: Conn): Conn { c.(buf := "") }

  /** What the connection makes of a text that arrives at once. */
  function AtOnce(text: string, parse: string -> Parsed): Conn { Next(OPENED, Data(text), parse) }

  /** The line is complete within the limit, or the text stays within it. */
  predicate Robust(text: string) { |text| <= MAX_REQUEST || IndexOf(text, "\n") < 0 || IndexOf(text, "\n") >= MAX_REQUEST }

  ghost predicate ChunkingIrrelevant(text: string, parse: string -> Parsed) {
    forall chunks :: Flatten(chunks) == text ==> Outcome(Run(OPENED, Chunks(chunks), parse)) == Outcome(AtOnce(text, parse))
  }

  /** Having received `text` in some chunks, of a longer text `whole`: nothing has happened that the whole text
      at once would not do. */
  ghost predicate InStep(c: Conn, text: string, parse: string -> Parsed) {
    Outcome(c) == Outcome(AtOnce(text, parse)) && (!c.dispatched ==> c.buf == text)
  }

  lemma MoreOfTheSame(c: Conn, text: string, chunk: string, rest: string, parse: string -> Parsed)
    requires InStep(c, text, parse) && Robust(text + chunk + rest)
    ensures InStep(Next(c, Data(chunk), parse), text + chunk, parse)
  {
    hide IndexOf, ValidRepoRef;
    IndexOfExtended(text, chunk, "\n");
    IndexOfExtended(text + chunk, rest, "\n");
    FirstLineStays(text, chunk);
    assert "" + text == text && "" + (text + chunk) == text + chunk;
  }

  lemma StaysInStep(c: Conn, text: string, chunks: seq<string>, parse: string -> Parsed)
    requires InStep(c, text, parse) && Robust(text + Flatten(chunks))
    ensures InStep(Run(c, Chunks(chunks), parse), text + Flatten(chunks), parse)
    decreases |chunks|
  {
    hide Next, InStep, Robust;
    if chunks == [] {
      assert text + Flatten(chunks) == text;
    } else {
      assert text + Flatten(chunks) == text + chunks[0] + Flatten(chunks[1..]);
      MoreOfTheSame(c, text, chunks[0], Flatten(chunks[1..]), parse);
      StaysInStep(Next(c, Data(chunks[0]), parse), text + chunks[0], chunks[1..], parse);
      assert Chunks(chunks)[1..] == Chunks(chunks[1..]);
    }
  }

  lemma FirstChunk(chunk: string, parse: string -> Parsed)
    ensures Next(OPENED, Data(chunk), parse).dispatched <==> |chunk| <= MAX_REQUEST && IndexOf(chunk, "\n") >= 0
  {
    hide IndexOf, ValidRepoRef;
    assert "" + chunk == chunk;
  }

  /** A short line and then too much: cut after the line it is served, uncut it is refused. */
  lemma CutMatters(text: string, parse: string -> Parsed)
    requires !Robust(text)
    ensures !ChunkingIrrelevant(text, parse)
  {
    hide Next, IndexOf;
    var nl := IndexOf(text, "\n");
    var first, second := text[..nl + 1], text[nl + 1..];
    FlattenFew(first, second);
    assert Flatten([first, second]) == text;
    assert first[nl..nl + 1] == text[nl..nl + 1];
    assert OccursAt(first, "\n", nl);
    FirstChunk(first, parse);
    FirstChunk(text, parse);
    assert Chunks([first, second]) == [Data(first), Data(second)] by {
      assert Chunks([second]) == [Data(second)];
    }
    StaysDispatched(Next(OPENED, Data(first), parse), [Data(first), Data(second)][1..], parse);
  }

  lemma StaysDispatched(c: Conn, events: seq<Event>, parse: string -> Parsed)
    requires c.dispatched
    ensures Run(c, events, parse).dispatched
    decreases |events|
  {
    hide IndexOf, ValidRepoRef;
    if events != [] {
      StaysDispatched(Next(c, events[0], parse), events[1..], parse);
    }
  }

  /** How a text is cut makes no difference exactly when it stays within the limit or has no line that ends
      within it. */
  lemma LineIsChunkIndependent(text: string, parse: string -> Parsed)
    ensures ChunkingIrrelevant(text, parse) <==> Robust(text)
  {
    hide Next, Robust;
    if Robust(text) {
      forall chunks | Flatten(chunks) == text
        ensures Outcome(Run(OPENED, Chunks(chunks), parse)) == Outcome(AtOnce(text, parse))
      {
        assert "" + Flatten(chunks) == text;
        assert InStep(OPENED, "", parse) by {
          NothingYet(parse);
        }
        StaysInStep(OPENED, "", chunks, parse);
      }
    } else {
      CutMatters(text, parse);
    }
  }

  lemma NothingYet(parse: string -> Parsed)
    ensures InStep(OPENED, "", parse)
  {
    assert IndexOf("", "\n") == -1;
  }

  // ---------------------------------------------------------------- what is answered

  lemma AtOnceIs(text: string, parse: string -> Parsed)
    ensures var c := AtOnce(text, parse);
            && (|text| > 4096 ==> c.sent == [ErrorResponse("request too large")] && c.mints == [] && !c.dispatched)
            && (|text| <= 4096 && '\n' !in text ==> c.sent == [] && c.mints == [] && !c.dispatched && !c.settled)
  {
    hide ValidRepoRef;
    assert "" + text == text;
    if '\n' !in text {
      AbsentSeparator(text, '\n');
    }
  }

  lemma AtOnceLine(line: string, rest: string, parse: string -> Parsed)
    requires '\n' !in line && |line| + 1 + |rest| <= 4096
    ensures var c := AtOnce(line + "\n" + rest, parse);
            && (parse(line).ParseThrows? ==> c.sent == [ErrorResponse("invalid request")] && c.mints == [])
            && (parse(line).NotAString? || (parse(line).Ref? && !ValidRepoRef(parse(line).value)) ==>
                  c.sent == [ErrorResponse("invalid repoRef")] && c.mints == [])
            && (parse(line).Ref? && ValidRepoRef(parse(line).value) ==>
                  c.sent == [] && !c.settled && c.mints == [parse(line).value] && c.minting == Some(parse(line).value))
  {
    hide ValidRepoRef, IndexOf;
    var text := line + "\n" + rest;
    assert "" + text == text;
    SingletonUnbordered('\n');
    AbsentSeparator(line, '\n');
    IndexOfSeparator(line, "\n", rest);
    assert text[..|line|] == line;
  }

  /** The answer to a request that arrives in any chunks: none while its line has not ended, a refusal when it is too
      long, and for a line within the limit what its ref deserves - an error, or a mint whose result decides. */
  lemma Answered(chunks: seq<string>, line: string, rest: string, parse: string -> Parsed, result: MintResult)
    requires Flatten(chunks) == line + rest && '\n' !in line
    requires rest == "" || (rest[0] == '\n' && (|line + rest| <= 4096 || |line| >= 4096))
    ensures var c := Run(OPENED, Chunks(chunks), parse);
            var (idle, done) := (Next(c, Idle, parse), Next(c, MintDone(result), parse));
            if |line + rest| > 4096 then
              c.sent == [ErrorResponse("request too large")] && c.mints == []
            else if rest == "" then
              c.sent == [] && c.mints == [] && idle.sent == [ErrorResponse("timeout")] && done == c
            else if parse(line).ParseThrows? then
              c.sent == [ErrorResponse("invalid request")] && c.mints == []
            else if parse(line).NotAString? || !ValidRepoRef(parse(line).value) then
              c.sent == [ErrorResponse("invalid repoRef")] && c.mints == []
            else
              && c.sent == [] && c.mints == [parse(line).value]
              && idle.sent == [ErrorResponse("timeout")]
              && done.sent == [match result
                               case Minted(token) => TokenResponse(token)
                               case MintThrows => ErrorResponse("mint failed")
                               case MintsNothing => ErrorResponse("internal error")]
  {
    hide ValidRepoRef, IndexOf, Run, AtOnce;
    var text := line + rest;
    if rest == "" {
      assert text == line;
      AbsentSeparator(line, '\n');
      NoNewline(line);
      AtOnceIs(line, parse);
    } else {
      assert rest == "\n" + rest[1..];
      assert text == line + "\n" + rest[1..];
      SingletonUnbordered('\n');
      AbsentSeparator(line, '\n');
      IndexOfSeparator(line, "\n", rest[1..]);
      if |text| <= 4096 {
        AtOnceLine(line, rest[1..], parse);
      } else {
        AtOnceIs(text, parse);
      }
    }
    LineIsChunkIndependent(text, parse);
    assert Outcome(Run(OPENED, Chunks(chunks), parse)) == Outcome(AtOnce(text, parse));
    if rest == "" {
      NothingMinting(line, parse);
    }
  }

  lemma NoNewline(text: string)
    requires !Contains(text, "\n")
    ensures IndexOf(text, "\n") < 0
  {
  }

  lemma NothingMinting(text: string, parse: string -> Parsed)
    requires '\n' !in text
    ensures AtOnce(text, parse).minting.None?
  {
    assert "" + text == text;
    AbsentSeparator(text, '\n');
  }

  /** What one event can send: a token only in answer to the mint that is under way. */
  lemma SentBy(c: Conn, e: Event, parse: string -> Parsed)
    ensures var sent := Next(c, e, parse).sent;
            || sent == c.sent
            || (|sent| == |c.sent| + 1
                && (sent[|c.sent|].TokenResponse? ==> c.minting.Some? && e == MintDone(Minted(sent[|c.sent|].token))))
  {
    hide IndexOf, ValidRepoRef;
  }

  /** A token that is sent is one the mint was answered with. */
  lemma {:induction false} TokenCame(c: Conn, events: seq<Event>, parse: string -> Parsed)
    requires c.sent == []
    ensures var sent := Run(c, events, parse).sent;
            sent != [] && sent[0].TokenResponse? ==> MintDone(Minted(sent[0].token)) in events
    decreases |events|
  {
    hide Next;
    if events != [] {
      var next := Next(c, events[0], parse);
      SentBy(c, events[0], parse);
      assert forall e :: e in events[1..] ==> e in events;
      if next.sent == [] {
        TokenCame(next, events[1..], parse);
      } else {
        SentStays(next, events[1..], parse);
        assert events[0] in events;
      }
    }
  }

  lemma {:induction false} SentStays(c: Conn, events: seq<Event>, parse: string -> Parsed)
    ensures c.sent <= Run(c, events, parse).sent
    decreases |events|
  {
    hide Next;
    if events != [] {
      MintsGrow(c, events[0], parse);
      SentStays(Next(c, events[0], parse), events[1..], parse);
    }
  }

  // ---------------------------------------------------------------- from the wire to GitHub

  /** What happens to a connection whose mint is the minter: GitHub's answer arrives in place of the mint's. */
  datatype Wire = Chunk(text: string) | Expires | GitHubAnswers(result: MintResult)

  /** The connection, and the scopes the minter has asked GitHub for. */
  datatype Wired = Wired(conn: Conn, scopes: seq<Scope>)

  /** A mint without a scope rejects, whatever GitHub would say. */
  function EventOf(c: Conn, w: Wire, resolve: string -> Option<string>): Event {
    match w
    case Chunk(text) => Data(text)
    case Expires => Idle
    case GitHubAnswers(result) =>
      MintDone(if c.minting.Some? && ScopeFor(c.minting.value, resolve).None? then MintThrows else result)
  }

  /** The scopes asked for by a list of mint calls. */
  function Scopes(mints: seq<string>, resolve: string -> Option<string>): seq<Scope> {
    if mints == [] then []
    else
      var scope := ScopeFor(mints[|mints| - 1], resolve);
      Scopes(mints[..|mints| - 1], resolve) + (if scope.Some? then [scope.value] else [])
  }

  function StepWired(w: Wired, e: Wire, parse: string -> Parsed, resolve: string -> Option<string>): Wired {
    var conn := Next(w.conn, EventOf(w.conn, e, resolve), parse);
    Wired(conn, if |w.conn.mints| < |conn.mints| then w.scopes + Scopes(conn.mints[|w.conn.mints|..], resolve) else w.scopes)
  }

  function RunWired(w: Wired, events: seq<Wire>, parse: string -> Parsed, resolve: string -> Option<string>): Wired
    decreases |events|
  {
    if events == [] then w else RunWired(StepWired(w, events[0], parse, resolve), events[1..], parse, resolve)
  }

  function Texts(events: seq<Wire>): string {
    if events == [] then "" else (if events[0].Chunk? then events[0].text else "") + Texts(events[1..])
  }

  /** Besides honesty: the scopes are those of the mints, and a token has one behind it. */
  ghost predicate Backed(w: Wired, text: string, parse: string -> Parsed, resolve: string -> Option<string>) {
    && Honest(w.conn, text, parse)
    && w.scopes == Scopes(w.conn.mints, resolve)
    && (w.conn.sent != [] && w.conn.sent[0].TokenResponse? ==> w.conn.mints != [] && ScopeFor(w.conn.mints[0], resolve).Some?)
  }

  lemma FewScopes(ref: string, resolve: string -> Option<string>)
    ensures Scopes([ref], resolve) == if ScopeFor(ref, resolve).Some? then [ScopeFor(ref, resolve).value] else []
  {
    hide ScopeFor;
    assert [ref][..0] == [];
  }

  lemma BackedStep(w: Wired, text: string, e: Wire, parse: string -> Parsed, resolve: string -> Option<string>)
    requires Backed(w, text, parse, resolve)
    ensures Backed(StepWired(w, e, parse, resolve), text + (if e.Chunk? then e.text else ""), parse, resolve)
  {
    hide Next, IndexOf, ValidRepoRef, ScopeFor, Honest, Scopes;
    var event := EventOf(w.conn, e, resolve);
    var conn := Next(w.conn, event, parse);
    HonestStep(w.conn, text, event, parse);
    HonestCounts(w.conn, text, parse);
    HonestCounts(conn, text + (if e.Chunk? then e.text else ""), parse);
    MintsGrow(w.conn, event, parse);
    SentBy(w.conn, event, parse);
    NoScopes(resolve);
    if |w.conn.mints| < |conn.mints| {
      assert w.conn.mints == [] && conn.mints[0..] == conn.mints;
    } else {
      assert conn.mints == w.conn.mints;
    }
    if conn.sent != w.conn.sent {
      assert w.conn.sent == [];
    }
  }

  lemma NoScopes(resolve: string -> Option<string>)
    ensures Scopes([], resolve) == [] && forall scopes: seq<Scope> :: [] + scopes == scopes
  {
  }

  lemma HonestCounts(c: Conn, text: string, parse: string -> Parsed)
    requires Honest(c, text, parse)
    ensures |c.mints| <= 1 && |c.sent| <= 1 && (c.settled <==> |c.sent| == 1) && (c.minting.Some? ==> c.mints == [c.minting.value])
  {
  }

  lemma MintsGrow(c: Conn, e: Event, parse: string -> Parsed)
    ensures c.mints <= Next(c, e, parse).mints && c.sent <= Next(c, e, parse).sent
  {
    hide IndexOf, ValidRepoRef;
  }

  lemma {:induction false} BackedRun(w: Wired, text: string, events: seq<Wire>, parse: string -> Parsed, resolve: string -> Option<string>)
    requires Backed(w, text, parse, resolve)
    ensures Backed(RunWired(w, events, parse, resolve), text + Texts(events), parse, resolve)
    decreases |events|
  {
    hide StepWired, Backed, Honest;
    if events == [] {
      assert text + "" == text;
    } else {
      var more := if events[0].Chunk? then events[0].text else "";
      BackedStep(w, text, events[0], parse, resolve);
      BackedRun(StepWired(w, events[0], parse, resolve), text + more, events[1..], parse, resolve);
      assert text + more + Texts(events[1..]) == text + (more + Texts(events[1..]));
    }
  }

  lemma {:induction false} WiredTokenCame(w: Wired, events: seq<Wire>, parse: string -> Parsed, resolve: string -> Option<string>)
    requires w.conn.sent == []
    ensures var sent := RunWired(w, events, parse, resolve).conn.sent;
            sent != [] && sent[0].TokenResponse? ==> GitHubAnswers(Minted(sent[0].token)) in events
    decreases |events|
  {
    hide Next, ScopeFor, Scopes;
    if events != [] {
      SentBy(w.conn, EventOf(w.conn, events[0], resolve), parse);
      var next := StepWired(w, events[0], parse, resolve);
      assert forall e :: e in events[1..] ==> e in events;
      if next.conn.sent == [] {
        WiredTokenCame(next, events[1..], parse, resolve);
      } else {
        WiredSentStays(next, events[1..], parse, resolve);
        assert events[0] in events;
      }
    }
  }

  lemma {:induction false} WiredSentStays(w: Wired, events: seq<Wire>, parse: string -> Parsed, resolve: string -> Option<string>)
    ensures w.conn.sent <= RunWired(w, events, parse, resolve).conn.sent
    decreases |events|
  {
    hide Next, Scopes;
    if events != [] {
      MintsGrow(w.conn, EventOf(w.conn, events[0], resolve), parse);
      WiredSentStays(StepWired(w, events[0], parse, resolve), events[1..], parse, resolve);
    }
  }

  /**
    From the wire to GitHub. Whatever arrives, in whatever chunks and order: GitHub is asked for at most one token; a
    token that is sent out was asked for with the installation of an owner and one repository of that owner, and
    owner/repository is the ref in the first line of all the text received.
   */
  lemma TokenIsScoped(events: seq<Wire>, parse: string -> Parsed, resolve: string -> Option<string>)
    ensures var w := RunWired(Wired(OPENED, []), events, parse, resolve);
            && |w.scopes| <= 1
            && (w.conn.sent != [] && w.conn.sent[0].TokenResponse? ==>
                  && GitHubAnswers(Minted(w.conn.sent[0].token)) in events
                  && exists owner, repo, installation ::
                    && FirstLine(Texts(events)).Some?
                    && parse(FirstLine(Texts(events)).value) == Ref(owner + "/" + repo)
                    && IsName(owner) && IsName(repo) && resolve(owner) == Some(installation)
                    && w.scopes == [Scope(installation, [repo])])
  {
    hide RunWired, FirstLine, Texts, IndexOf, ScopeFor, IsName;
    assert Backed(Wired(OPENED, []), "", parse, resolve);
    BackedRun(Wired(OPENED, []), "", events, parse, resolve);
    WiredTokenCame(Wired(OPENED, []), events, parse, resolve);
    assert "" + Texts(events) == Texts(events);
    var w := RunWired(Wired(OPENED, []), events, parse, resolve);
    if w.conn.mints != [] {
      var ref := w.conn.mints[0];
      assert w.conn.mints == [ref];
      FewScopes(ref, resolve);
      ScopeIsOneRepo(ref, resolve);
    }
  }
}
