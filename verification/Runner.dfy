/**
  The runner's claim loop and execute function, with every call that can fail answered by a script, and a
  log of the effects. The discipline of tokens, worktrees, attribution and pull requests is an automaton that
  must accept the log.
  */
module RunnerLoop {
  import opened Search
  import opened Text
  import opened Dispatch

  type Token = string
  type Worktree = string

  datatype Event =
    | Minted(token: Token)
    | ContextSet
    | Prepared(worktree: Worktree)
    | Spawned
    | Killed
    | PublishWon
    | PrCalled(ok: bool)
    | TornDown(worktree: Worktree)
    | Wrote(write: Write)
    | ContextCleared
    | Revoked(token: Token)

  // ---------------------------------------------------------------- the discipline

  /** What is live: the scoped token, the worktree, the attribution, the won row and the opened pull request. */
  datatype Life = Life(token: Option<Token>, worktree: Option<Worktree>, attributed: bool, published: bool, prOpen: bool)

  const RESTING: Life := Life(None, None, false, false, false)

  /** The next state, or None when the event breaks the discipline. */
  function Observe(l: Life, e: Event): Option<Life> {
    match e
    case Minted(t) => if l.token.None? then Some(l.(token := Some(t))) else None
    case ContextSet => if l.token.Some? && !l.attributed then Some(l.(attributed := true)) else None
    case Prepared(w) => if l.token.Some? && l.worktree.None? then Some(l.(worktree := Some(w))) else None
    case Spawned => if l.worktree.Some? && !l.published then Some(l) else None
    case Killed => if l.worktree.Some? && !l.published then Some(l) else None
    case PublishWon => if l.worktree.Some? && !l.published then Some(l.(published := true)) else None
    case PrCalled(ok) => if l.worktree.Some? && l.published && !l.prOpen then Some(l.(prOpen := ok)) else None
    case TornDown(w) => if l.worktree == Some(w) then Some(l.(worktree := None)) else None
    case Wrote(w) => if l.worktree.None? && (w == Complete ==> l.prOpen) then Some(l) else None
    case ContextCleared => if l.worktree.None? then Some(l.(attributed := false)) else None
    case Revoked(t) =>
      if l.token == Some(t) && l.worktree.None? && !l.attributed
      then Some(l.(token := None, published := false, prOpen := false)) else None
  }

  function Scan(l: Life, log: seq<Event>): Option<Life>
    decreases |log|
  {
    if log == [] then Some(l)
    else
      match Observe(l, log[0])
      case None => None
      case Some(next) => Scan(next, log[1..])
  }

  lemma {:induction false} ScanSplit(l: Life, a: seq<Event>, b: seq<Event>)
    ensures Scan(l, a + b) == (match Scan(l, a) case None => None case Some(m) => Scan(m, b))
    decreases |a|
  {
    if a == [] {
      assert a + b == b;
    } else {
      assert (a + b)[1..] == a[1..] + b;
      if Observe(l, a[0]).Some? {
        ScanSplit(Observe(l, a[0]).value, a[1..], b);
      }
    }
  }

  lemma ScanOne(l: Life, log: seq<Event>, e: Event)
    ensures Scan(l, log + [e]) == (match Scan(l, log) case None => None case Some(m) => Observe(m, e))
  {
    ScanSplit(l, log, [e]);
    assert |[e][1..]| == 0;
  }

  function Writes(log: seq<Event>): seq<Write> {
    if log == [] then []
    else
      var last := log[|log| - 1];
      Writes(log[..|log| - 1]) + (if last.Wrote? then [last.write] else [])
  }

  function Tokens(log: seq<Event>, minted: bool): seq<Token> {
    if log == [] then []
    else
      var last := log[|log| - 1];
      Tokens(log[..|log| - 1], minted)
      + (if minted && last.Minted? then [last.token] else if !minted && last.Revoked? then [last.token] else [])
  }

  function Worktrees(log: seq<Event>, prepared: bool): seq<Worktree> {
    if log == [] then []
    else
      var last := log[|log| - 1];
      Worktrees(log[..|log| - 1], prepared)
      + (if prepared && last.Prepared? then [last.worktree] else if !prepared && last.TornDown? then [last.worktree] else [])
  }

  /** What acceptance means: the tokens minted are the tokens revoked, one revoke each and in order, but for
      the one still live. */
  lemma {:induction false} TokenDiscipline(log: seq<Event>)
    requires Scan(RESTING, log).Some?
    ensures var l := Scan(RESTING, log).value;
            Tokens(log, true) == Tokens(log, false) + (if l.token.Some? then [l.token.value] else [])
  {
    hide Worktrees;
    if log != [] {
      var init, last := log[..|log| - 1], log[|log| - 1];
      assert log == init + [last];
      ScanOne(RESTING, init, last);
      TokenDiscipline(init);
      hide Scan;
    }
  }

  /** Likewise every prepared worktree is torn down exactly once. */
  lemma {:induction false} WorktreeDiscipline(log: seq<Event>)
    requires Scan(RESTING, log).Some?
    ensures var l := Scan(RESTING, log).value;
            Worktrees(log, true) == Worktrees(log, false) + (if l.worktree.Some? then [l.worktree.value] else [])
  {
    hide Tokens;
    if log != [] {
      var init, last := log[..|log| - 1], log[|log| - 1];
      assert log == init + [last];
      ScanOne(RESTING, init, last);
      WorktreeDiscipline(init);
      hide Scan;
    }
  }

  // ---------------------------------------------------------------- scripts

  datatype AgentEvent = Exit(code: int) | TransportError(benign: bool) | Abort | Timeout

  /** Whether an event lets the run go on (clean exit, or EIO / EPIPE on teardown) or rejects it. */
  predicate Resolves(e: AgentEvent) {
    (e.Exit? && e.code == 0) || (e.TransportError? && e.benign)
  }

  predicate Kills(e: AgentEvent) { e.Abort? || e.Timeout? }

  /** What the calls made for one job answer. None: the call throws. `setThrows` and `clearThrows` are throws of
      setUsageContext when it is given the ids and when it is given null. */
  datatype Script = Script(
    repoRefOk: bool,
    hasIds: bool,
    setThrows: bool,
    clearThrows: bool,
    mint: Option<Token>,
    prepare: Option<Worktree>,
    abortedBefore: bool,
    spawnThrows: bool,
    agent: seq<AgentEvent>,
    abortedMeanwhile: bool,
    commit: Option<bool>,
    publish: Option<bool>,
    prOpens: bool,
    writeThrows: bool)

  datatype Claim = NoJob | ClaimThrows | Job(script: Script)

  datatype Outcome = Ok | Interrupted | NotOk(retry: bool) | Threw

  /** The event that settles the agent run; the timer fires if nothing else does. */
  function Deciding(agent: seq<AgentEvent>): AgentEvent {
    if agent == [] then Timeout else agent[0]
  }

  /** How the agent run ends. */
  function RunsClean(x: Script): bool {
    !x.abortedBefore && !x.spawnThrows && Resolves(Deciding(x.agent))
  }

  function WasAborted(x: Script): bool {
    x.abortedBefore || x.abortedMeanwhile || (!x.spawnThrows && Deciding(x.agent).Abort?)
  }

  /** The agent's first event was a clean exit or a benign teardown error, it left commits, and the row was won. */
  predicate PrCalledIn(x: Script) {
    && !x.abortedBefore && !x.spawnThrows
    && x.agent != [] && x.agent[0] in {Exit(0), TransportError(true)}
    && x.commit == Some(true) && x.publish == Some(true)
  }

  /** Whether a trace wins the row and calls openPr, and with which outcome. */
  ghost predicate PublishesIf(trace: seq<Event>, published: bool, ok: bool) {
    && (PublishWon in trace <==> published)
    && forall b :: PrCalled(b) in trace <==> published && b == ok
  }

  /** What the execution of a job does beside publishing: with which worktree, and whether the agent is started and
      killed; tokens and attribution are not its business. */
  ghost predicate Does(x: Script, trace: seq<Event>, tree: Option<Worktree>, starts: bool) {
    && (Spawned in trace <==> starts && !x.abortedBefore && !x.spawnThrows)
    && (Killed in trace <==> starts && !x.abortedBefore && !x.spawnThrows && (x.agent == [] || x.agent[0] in {Abort, Timeout}))
    && (forall w :: (Prepared(w) in trace <==> tree == Some(w)) && (TornDown(w) in trace <==> tree == Some(w)))
    && (forall t :: Minted(t) !in trace && Revoked(t) !in trace)
    && ContextSet !in trace && ContextCleared !in trace
  }

  /** What a workable job does beside publishing and writing, and in which order: the token is minted first; the
      attribution is set next, before the worktree and the agent, if there are ids; at the end the attribution is
      cleared and then the token revoked, unless the clearing throws. */
  ghost predicate Effects(x: Script, trace: seq<Event>) {
    && (Spawned in trace <==> IsReady(x) && !x.abortedBefore && !x.spawnThrows)
    && (Killed in trace <==> IsReady(x) && !x.abortedBefore && !x.spawnThrows && (x.agent == [] || x.agent[0] in {Abort, Timeout}))
    && (forall w :: (Prepared(w) in trace <==> IsReady(x) && x.prepare == Some(w))
                    && (TornDown(w) in trace <==> IsReady(x) && x.prepare == Some(w)))
    && (forall t :: (Minted(t) in trace <==> x.mint == Some(t)) && (Revoked(t) in trace <==> x.mint == Some(t) && !x.clearThrows))
    && (ContextSet in trace <==> x.mint.Some? && x.hasIds && !x.setThrows)
    && (ContextCleared in trace <==> !x.clearThrows)
    && InOrder(x, trace)
  }

  predicate InOrder(x: Script, trace: seq<Event>) {
    && (x.mint.Some? ==> |trace| > 0 && trace[0] == Minted(x.mint.value))
    && (x.mint.Some? && x.hasIds && !x.setThrows ==> |trace| > 1 && trace[1] == ContextSet)
    && (!x.clearThrows && x.mint.None? ==> |trace| > 0 && trace[|trace| - 1] == ContextCleared)
    && (!x.clearThrows && x.mint.Some? ==>
          |trace| > 1 && trace[|trace| - 2] == ContextCleared && trace[|trace| - 1] == Revoked(x.mint.value))
  }

  /** A workable job whose token and worktree are there. */
  predicate IsReady(x: Script) {
    x.repoRefOk && x.mint.Some? && !(x.hasIds && x.setThrows) && x.prepare.Some?
  }

  /** What execute reports, from the answers alone. */
  function Verdict(x: Script): Outcome {
    if x.prepare.None? then NotOk(true)
    else if !RunsClean(x) then (if WasAborted(x) then Interrupted else NotOk(true))
    else if x.commit.None? then Threw
    else if !x.commit.value then NotOk(false)
    else if x.publish.None? then Threw
    else if !x.publish.value then Interrupted
    else if x.prOpens then Ok
    else Threw
  }

  /** The job is over before execute is called. */
  predicate NotExecuted(x: Script) { x.mint.None? || (x.hasIds && x.setThrows) }

  /** Whether the attribution was set. */
  predicate Attributed(x: Script) { x.mint.Some? && x.hasIds && !x.setThrows }

  /** A throw that clears nothing skips the revoke as well: the token lives on. */
  predicate Leaks(c: Claim) { c.Job? && c.script.repoRefOk && c.script.mint.Some? && c.script.clearThrows }

  /** What is live when a turn of the loop is over. */
  function LeftOver(c: Claim): Life {
    if !Leaks(c) then RESTING
    else
      var x := c.script;
      var executed := !NotExecuted(x);
      Life(x.mint, None, Attributed(x), executed && x.prepare.Some? && PrCalledIn(x), executed && Verdict(x).Ok?)
  }

  /** No queue call made for this job throws. */
  predicate QueueAnswers(x: Script) {
    !x.writeThrows && x.publish.Some?
  }

  /** The terminal or release writes a job gets, in order. */
  function ExpectedWrites(x: Script): seq<Write> {
    if !x.repoRefOk then [Fail]
    else if NotExecuted(x) || Verdict(x).Threw? then [Release]
    else
      match Verdict(x)
      case Interrupted => []
      case Ok => if x.writeThrows then [Complete, Release] else [Complete]
      case NotOk(retry) =>
        var w := if retry then Release else Fail;
        if x.writeThrows then [w, Release] else [w]
      case Threw => [Release]
  }

  // ---------------------------------------------------------------- the code

  class Runner {
    var log: seq<Event>

    constructor ()
      ensures log == []
    {
      log := [];
    }

    /** The first event settles the run, and only the first: a kill happens at most once, for an abort or a
        timeout that came first. */
    method SpawnAndAwait(x: Script) returns (resolved: bool)
      modifies this
      ensures resolved == RunsClean(x)
      ensures log == old(log)
                     + (if x.abortedBefore || x.spawnThrows then []
                        else if Kills(Deciding(x.agent)) then [Spawned, Killed] else [Spawned])
      ensures resolved <==> !x.abortedBefore && !x.spawnThrows && x.agent != [] && x.agent[0] in {Exit(0), TransportError(true)}
      ensures Killed in log && Killed !in old(log) <==>
                && Killed !in old(log) && !x.abortedBefore && !x.spawnThrows
                && (x.agent == [] || x.agent[0] in {Abort, Timeout})
    {
      if x.abortedBefore {
        return false;
      }
      if x.spawnThrows {
        return false;
      }
      log := log + [Spawned];
      var settled := false;
      resolved := false;
      var events := x.agent + [Timeout];
      for i := 0 to |events|
        invariant settled <==> i > 0
        invariant settled ==> resolved == Resolves(events[0])
        invariant log == old(log) + [Spawned] + (if settled && Kills(events[0]) then [Killed] else [])
      {
        // finish(): everything after the first event is ignored.
        if !settled {
          settled := true;
          if Kills(events[i]) {
            log := log + [Killed];
          }
          resolved := Resolves(events[i]);
        }
      }
    }

    /** From the prepared worktree to the outcome, before teardown. */
    method Work(x: Script, ghost token: Token, ghost tree: Worktree) returns (outcome: Outcome, ghost trace: seq<Event>)
      requires x.prepare.Some?
      modifies this
      ensures outcome == Verdict(x)
      ensures log == old(log) + trace && Writes(trace) == []
      ensures forall attributed :: Scan(Life(Some(token), Some(tree), attributed, false, false), trace)
                           == Some(Life(Some(token), Some(tree), attributed, PrCalledIn(x), outcome.Ok?))
      ensures PublishesIf(trace, PrCalledIn(x), x.prOpens)
      ensures Does(x, trace, None, true)
    {
      ghost var spawned := if x.abortedBefore || x.spawnThrows then []
                           else if Kills(Deciding(x.agent)) then [Spawned, Killed] else [Spawned];
      hide Scan, Writes, PublishesIf, Does;
      SpawnDoes(x, spawned);
      SpawnTrace(spawned, token, tree);
      SpawnPublishes(spawned, PrCalledIn(x), x.prOpens);
      var resolved := SpawnAndAwait(x);
      trace := spawned;
      if !resolved {
        if WasAborted(x) {
          return Interrupted, trace;
        }
        return NotOk(true), trace;
      }
      if x.commit.None? {
        return Threw, trace;
      }
      if !x.commit.value {
        return NotOk(false), trace;
      }
      if x.publish.None? {
        return Threw, trace;
      }
      if !x.publish.value {
        return Interrupted, trace;
      }
      log := log + [PublishWon];
      log := log + [PrCalled(x.prOpens)];
      PublishTrace(spawned, token, tree, x.prOpens);
      trace := spawned + [PublishWon] + [PrCalled(x.prOpens)];
      if !x.prOpens {
        return Threw, trace;
      }
      outcome := Ok;
    }

    /** Whatever happens once a worktree exists, it is torn down exactly once. */
    method Execute(x: Script, ghost token: Token) returns (outcome: Outcome, ghost trace: seq<Event>)
      modifies this
      ensures outcome == Verdict(x)
      ensures log == old(log) + trace && Writes(trace) == []
      ensures forall attributed :: Scan(Life(Some(token), None, attributed, false, false), trace)
                           == Some(Life(Some(token), None, attributed, x.prepare.Some? && PrCalledIn(x), outcome.Ok?))
      ensures PublishesIf(trace, x.prepare.Some? && PrCalledIn(x), x.prOpens)
      ensures Does(x, trace, x.prepare, x.prepare.Some?)
    {
      trace := [];
      hide Scan, Writes, PublishesIf, PrCalledIn, Verdict, Does;
      NothingPublished(x.prOpens);
      NothingDone(x);
      NothingScanned();
      if x.prepare.None? {
        NotPrepared(x);
        return NotOk(true), trace;
      }
      var worktree := x.prepare.value;
      log := log + [Prepared(worktree)];
      ghost var inner;
      outcome, inner := Work(x, token, worktree);
      log := log + [TornDown(worktree)];
      trace := [Prepared(worktree)] + inner + [TornDown(worktree)];
      TreeTrace(inner, token, worktree, PrCalledIn(x), outcome.Ok?);
      TreePublishes(inner, worktree, PrCalledIn(x), x.prOpens);
      TreeDoes(x, inner, worktree);
    }

    /** The write an outcome calls for; one that throws is left to the catch, and so is a thrown outcome. */
    method Report(x: Script, outcome: Outcome) returns (caught: bool, ghost writes: seq<Event>)
      modifies this
      ensures log == old(log) + writes
      ensures caught == (outcome.Threw? || (!outcome.Interrupted? && x.writeThrows))
      ensures writes == match outcome
                        case Ok => [Wrote(Complete)]
                        case NotOk(retry) => [Wrote(if retry then Release else Fail)]
                        case _ => []
    {
      writes := [];
      match outcome {
        case Ok =>
          log := log + [Wrote(Complete)];
          return x.writeThrows, [Wrote(Complete)];
        case Interrupted =>
          return false, [];
        case NotOk(retry) =>
          log := log + [Wrote(if retry then Release else Fail)];
          return x.writeThrows, [Wrote(if retry then Release else Fail)];
        case Threw =>
          return true, [];
      }
    }

    /** A workable job: mint, execute, report, and - thrown or not - clear the attribution and revoke. */
    method RunJob(x: Script) returns (threw: bool, ghost trace: seq<Event>)
      requires x.repoRefOk
      modifies this
      ensures log == old(log) + trace && threw == x.clearThrows
      ensures Scan(RESTING, trace) == Some(LeftOver(Job(x))) && Writes(trace) == ExpectedWrites(x)
      ensures PublishesIf(trace, IsReady(x) && PrCalledIn(x), x.prOpens)
      ensures Effects(x, trace)
    {
      hide Scan, Writes, PrCalledIn, Verdict, ExpectedWrites, WriteEvents, LeftOver, PublishesIf, Does, Effects;
      NothingPublished(x.prOpens);
      NothingDone(x);
      ghost var head, body, writes: seq<Event> := [], [], [];
      NoWrites();
      var caught := x.mint.None?;
      if x.mint.Some? {
        log := log + [Minted(x.mint.value)];
        head := [Minted(x.mint.value)];
        if x.hasIds && !x.setThrows {
          log := log + [ContextSet];
          head := head + [ContextSet];
        }
        assert log == old(log) + head;
        if x.hasIds && x.setThrows {
          caught := true;
        } else {
          var outcome;
          outcome, body := Execute(x, x.mint.value);
          head := head + body;
          assert log == old(log) + head;
          caught, writes := Report(x, outcome);
        }
      }
      assert head == HeadTrace(x, body);
      assert log == old(log) + head + writes;
      if caught {
        log := log + [Wrote(Release)];
        writes := writes + [Wrote(Release)];
      }
      assert log == old(log) + head + writes;
      AsExpected(x, writes);
      trace := JobTrace(x, body);
      JobTraceIsDisciplined(x, body);
      JobPublishes(x, body);
      JobEffects(x, body);
      Concatenated(old(log), head, writes, x, body);
      if x.clearThrows {
        return true, trace;
      }
      log := log + [ContextCleared];
      if x.mint.Some? {
        log := log + [Revoked(x.mint.value)];
      }
      threw := false;
    }

    /** One turn of the claim loop. However the calls answer, the log it adds is disciplined, from rest to rest but
        for a token that a throw of the clearing call leaves behind; the queue gets exactly the writes the answers
        call for; and nothing is thrown but a failed claim, a failed write for an unworkable payload, and that. */
    method RunOnce(c: Claim) returns (processed: bool, threw: bool, ghost trace: seq<Event>)
      modifies this
      ensures log == old(log) + trace
      ensures Scan(RESTING, trace) == Some(LeftOver(c))
      ensures processed <==> c.Job? && !threw
      ensures threw <==> c.ClaimThrows? || (c.Job? && if c.script.repoRefOk then c.script.clearThrows else c.script.writeThrows)
      ensures c.Job? ==> Writes(trace) == ExpectedWrites(c.script)
      ensures !c.Job? ==> trace == []
      ensures c.Job? && c.script.repoRefOk ==> Effects(c.script, trace)
      ensures c.Job? && !c.script.repoRefOk ==> trace == [Wrote(Fail)]
      ensures PublishWon in trace <==> c.Job? && IsReady(c.script) && PrCalledIn(c.script)
      ensures PublishWon in trace ==>
                && !c.script.abortedBefore && !c.script.spawnThrows
                && c.script.agent != [] && c.script.agent[0] in {Exit(0), TransportError(true)}
      ensures forall ok :: PrCalled(ok) in trace <==>
                c.Job? && IsReady(c.script) && PrCalledIn(c.script) && ok == c.script.prOpens
    {
      hide Effects;
      trace, threw := [], false;
      if c.ClaimThrows? {
        return false, true, trace;
      }
      if c.NoJob? {
        return false, false, trace;
      }
      if !c.script.repoRefOk {
        log := log + [Wrote(Fail)];
        trace := [Wrote(Fail)];
        ShortTraces();
        return !c.script.writeThrows, c.script.writeThrows, trace;
      }
      threw, trace := RunJob(c.script);
      processed := !threw;
    }

    /** The loop, over any sequence of answers: every turn adds its own disciplined trace. */
    method Loop(claims: seq<Claim>) returns (ghost traces: seq<seq<Event>>)
      modifies this
      ensures log == old(log) + Flatten(traces)
      ensures |traces| == |claims| && forall i :: 0 <= i < |claims| ==> TurnTrace(claims[i], traces[i])
    {
      hide Scan, Writes, ExpectedWrites, LeftOver, Flatten;
      traces := [];
      FlattenNothing();
      assert log + [] == log;
      for i := 0 to |claims|
        invariant log == old(log) + Flatten(traces)
        invariant |traces| == i && forall k :: 0 <= k < i ==> TurnTrace(claims[k], traces[k])
      {
        var _, _, trace := RunOnce(claims[i]);
        NoWrites();
        assert TurnTrace(claims[i], trace);
        FlattenSnoc(traces, trace);
        assert old(log) + (Flatten(traces) + trace) == (old(log) + Flatten(traces)) + trace;
        traces := traces + [trace];
      }
    }
  }

  /** What one turn adds to the log. */
  ghost predicate TurnTrace(c: Claim, trace: seq<Event>) {
    Scan(RESTING, trace) == Some(LeftOver(c)) && Writes(trace) == (if c.Job? then ExpectedWrites(c.script) else [])
  }

  lemma FlattenNothing()
    ensures Flatten<Event>([]) == []
  {
  }

  lemma NoWrites()
    ensures Writes([]) == []
  {
  }

  function LeakedBy(c: Claim): seq<Token> { if Leaks(c) then [c.script.mint.value] else [] }

  /** The tokens that throws of the clearing call leave behind. */
  function Leaked(claims: seq<Claim>): seq<Token>
    decreases |claims|
  {
    if claims == [] then [] else LeakedBy(claims[0]) + Leaked(claims[1..])
  }

  function AllWrites(claims: seq<Claim>): seq<Write>
    decreases |claims|
  {
    if claims == [] then []
    else (if claims[0].Job? then ExpectedWrites(claims[0].script) else []) + AllWrites(claims[1..])
  }

  predicate NoLeak(claims: seq<Claim>) { forall i :: 0 <= i < |claims| ==> !Leaks(claims[i]) }

  lemma {:induction false} LeakedCount(claims: seq<Claim>)
    ensures Leaked(claims) == [] <==> NoLeak(claims)
    decreases |claims|
  {
    if claims != [] {
      LeakedCount(claims[1..]);
      assert NoLeak(claims) <==> !Leaks(claims[0]) && NoLeak(claims[1..]) by {
        assert forall i :: 0 <= i < |claims[1..]| ==> claims[1..][i] == claims[i + 1];
        assert forall i :: 0 < i < |claims| ==> claims[i] == claims[1..][i - 1];
      }
    }
  }

  lemma TurnDiscipline(c: Claim, trace: seq<Event>)
    requires TurnTrace(c, trace)
    ensures Tokens(trace, true) == Tokens(trace, false) + LeakedBy(c)
    ensures Worktrees(trace, true) == Worktrees(trace, false)
  {
    hide Scan, Tokens, Worktrees, Writes;
    TokenDiscipline(trace);
    WorktreeDiscipline(trace);
  }

  lemma {:induction false} TokensSplit(a: seq<Event>, b: seq<Event>, minted: bool)
    ensures Tokens(a + b, minted) == Tokens(a, minted) + Tokens(b, minted)
    decreases |b|
  {
    if b == [] {
      assert a + b == a;
    } else {
      assert (a + b)[..|a + b| - 1] == a + b[..|b| - 1];
      TokensSplit(a, b[..|b| - 1], minted);
    }
  }

  lemma {:induction false} WorktreesSplit(a: seq<Event>, b: seq<Event>, prepared: bool)
    ensures Worktrees(a + b, prepared) == Worktrees(a, prepared) + Worktrees(b, prepared)
    decreases |b|
  {
    if b == [] {
      assert a + b == a;
    } else {
      assert (a + b)[..|a + b| - 1] == a + b[..|b| - 1];
      WorktreesSplit(a, b[..|b| - 1], prepared);
    }
  }

  ghost predicate Accounted(claims: seq<Claim>, log: seq<Event>) {
    && multiset(Tokens(log, true)) == multiset(Tokens(log, false)) + multiset(Leaked(claims))
    && (Leaked(claims) == [] ==> Tokens(log, true) == Tokens(log, false))
    && Worktrees(log, true) == Worktrees(log, false)
    && Writes(log) == AllWrites(claims)
    && (Leaked(claims) == [] ==> Scan(RESTING, log) == Some(RESTING))
  }

  /** The log of a run, from what each turn adds. */
  lemma {:induction false} LogOf(claims: seq<Claim>, traces: seq<seq<Event>>)
    requires |traces| == |claims| && forall i :: 0 <= i < |claims| ==> TurnTrace(claims[i], traces[i])
    ensures Accounted(claims, Flatten(traces))
    decreases |claims|
  {
    if claims == [] {
      EmptyLog();
    } else {
      hide Accounted, TurnTrace;
      LogOf(claims[1..], traces[1..]);
      OneMoreTurn(claims, traces[0], Flatten(traces[1..]));
    }
  }

  lemma OneMoreTurn(claims: seq<Claim>, trace: seq<Event>, rest: seq<Event>)
    requires claims != [] && TurnTrace(claims[0], trace) && Accounted(claims[1..], rest)
    ensures Accounted(claims, trace + rest)
  {
    hide Tokens, Worktrees, Writes, Scan, ExpectedWrites, LeftOver, Leaks, LeakedBy;
    var c := claims[0];
    TurnDiscipline(c, trace);
    TokensSplit(trace, rest, true);
    TokensSplit(trace, rest, false);
    WorktreesSplit(trace, rest, true);
    WorktreesSplit(trace, rest, false);
    WritesSplit(trace, rest);
    ScanSplit(RESTING, trace, rest);
    TurnRests(c, trace);
    assert Leaked(claims) == LeakedBy(c) + Leaked(claims[1..]);
    hide Leaked, AllWrites;
  }

  lemma EmptyLog()
    ensures Flatten<Event>([]) == [] && Tokens([], true) == [] && Tokens([], false) == []
    ensures Worktrees([], true) == [] && Worktrees([], false) == [] && Writes([]) == [] && Scan(RESTING, []) == Some(RESTING)
  {
  }

  lemma TurnRests(c: Claim, trace: seq<Event>)
    requires TurnTrace(c, trace)
    ensures LeakedBy(c) == [] ==> Scan(RESTING, trace) == Some(RESTING)
  {
  }

  /** A whole run of the loop from its start: what is minted is revoked, one revoke for each token, but for the
      tokens a throw of the clearing call leaves behind; if there is no such throw, in order, and at the end
      nothing is live. Every worktree is torn down, whatever throws. */
  method RunLoop(claims: seq<Claim>) returns (log: seq<Event>)
    ensures multiset(Tokens(log, true)) == multiset(Tokens(log, false)) + multiset(Leaked(claims))
    ensures Tokens(log, true) == Tokens(log, false) <==> NoLeak(claims)
    ensures NoLeak(claims) ==> Scan(RESTING, log) == Some(RESTING)
    ensures Worktrees(log, true) == Worktrees(log, false)
    ensures Writes(log) == AllWrites(claims)
  {
    var runner := new Runner();
    ghost var traces := runner.Loop(claims);
    log := runner.log;
    assert [] + Flatten(traces) == Flatten(traces);
    LogOf(claims, traces);
    LeakedCount(claims);
    hide Scan, Writes, AllWrites, Tokens, Worktrees, Leaked;
    assert |multiset(Tokens(log, true))| == |Tokens(log, true)| && |multiset(Tokens(log, false))| == |Tokens(log, false)|;
    assert |multiset(Leaked(claims))| == |Leaked(claims)|;
  }

  /** When no queue call throws, a job gets exactly one terminal or release write - none when its outcome is
      `cancelled` - and `complete` is that write only when the pull request was opened. */
  lemma OneWritePerJob(x: Script)
    requires QueueAnswers(x)
    ensures var cancelled := x.repoRefOk && !NotExecuted(x) && Verdict(x).Interrupted?;
            |ExpectedWrites(x)| == if cancelled then 0 else 1
    ensures Complete in ExpectedWrites(x) ==> PrCalledIn(x) && x.prOpens
  {
  }

  /** The writes of a job, case by case, in terms of what its calls answered: `complete` only behind an opened pull
      request of an agent that came to a clean end; `fail` for an unworkable payload or an agent that left nothing;
      no write at all for an interrupted or overtaken job; and a release for everything else, an agent that exits
      with an error among it. */
  lemma WritesMean(x: Script)
    ensures var writes := ExpectedWrites(x);
            var clean := !x.abortedBefore && !x.spawnThrows && x.agent != [] && x.agent[0] in {Exit(0), TransportError(true)};
            var aborted := x.abortedBefore || x.abortedMeanwhile || (!x.spawnThrows && x.agent != [] && x.agent[0] == Abort);
            && (Complete in writes <==> IsReady(x) && clean && x.commit == Some(true) && x.publish == Some(true) && x.prOpens)
            && (Fail in writes <==> !x.repoRefOk || (IsReady(x) && clean && x.commit == Some(false)))
            && (writes == [] <==>
                  IsReady(x) && ((!clean && aborted) || (clean && x.commit == Some(true) && x.publish == Some(false))))
            && (!x.writeThrows ==> |writes| <= 1)
            && ((Complete in writes ==> writes[0] == Complete) && (Fail in writes ==> writes[0] == Fail))
            && |writes| <= 2 && (|writes| == 2 ==> writes[1] == Release)
  {
  }

  /** An agent that fails is never published: its job is released for another try. */
  lemma FailedAgentIsReleased(x: Script)
    requires IsReady(x) && !x.abortedBefore && !x.abortedMeanwhile && !x.spawnThrows && x.agent != []
    requires (x.agent[0].Exit? && x.agent[0].code != 0) || x.agent[0] == TransportError(false) || x.agent[0] == Timeout
    ensures !PrCalledIn(x) && Release in ExpectedWrites(x) && (!x.writeThrows ==> ExpectedWrites(x) == [Release])
  {
  }

  lemma NothingScanned()
    ensures Writes([]) == [] && forall l :: Scan(l, []) == Some(l)
  {
  }

  lemma NotPrepared(x: Script)
    requires x.prepare.None?
    ensures Verdict(x) == NotOk(true)
  {
  }

  lemma NothingPublished(ok: bool)
    ensures PublishesIf([], false, ok)
  {
  }

  lemma SpawnPublishes(spawned: seq<Event>, published: bool, ok: bool)
    requires spawned in {[], [Spawned], [Spawned, Killed]}
    ensures PublishesIf(if published then spawned + [PublishWon] + [PrCalled(ok)] else spawned, published, ok)
  {
  }

  lemma TreePublishes(inner: seq<Event>, tree: Worktree, published: bool, ok: bool)
    requires PublishesIf(inner, published, ok)
    ensures PublishesIf([Prepared(tree)] + inner + [TornDown(tree)], published, ok)
  {
  }

  /** A publication is in the trace of a job exactly when it is in that of its execution. */
  lemma JobPublishes(x: Script, body: seq<Event>)
    requires x.repoRefOk && PublishesIf(body, IsReady(x) && PrCalledIn(x), x.prOpens)
    ensures PublishesIf(JobTrace(x, body), IsReady(x) && PrCalledIn(x), x.prOpens)
  {
    hide ExpectedWrites, PrCalledIn;
    assert forall e: Event :: e in WriteEvents(ExpectedWrites(x)) ==> e.Wrote?;
  }

  lemma NothingDone(x: Script)
    ensures Does(x, [], None, false)
  {
  }

  lemma SpawnDoes(x: Script, spawned: seq<Event>)
    requires spawned == if x.abortedBefore || x.spawnThrows then []
                        else if Kills(Deciding(x.agent)) then [Spawned, Killed] else [Spawned]
    ensures Does(x, spawned, None, true)
    ensures forall ok :: Does(x, spawned + [PublishWon] + [PrCalled(ok)], None, true)
  {
  }

  lemma TreeDoes(x: Script, inner: seq<Event>, tree: Worktree)
    requires Does(x, inner, None, true)
    ensures Does(x, [Prepared(tree)] + inner + [TornDown(tree)], Some(tree), true)
  {
  }

  lemma InFour(e: Event, a: seq<Event>, b: seq<Event>, c: seq<Event>, d: seq<Event>)
    ensures e in a + b + c + d <==> e in a || e in b || e in c || e in d
  {
  }

  /** The token and the attribution are handled around the execution, the rest within it. */
  lemma JobEffects(x: Script, body: seq<Event>)
    requires x.repoRefOk && Does(x, body, if IsReady(x) then x.prepare else None, IsReady(x))
    ensures Effects(x, JobTrace(x, body))
  {
    hide ExpectedWrites, Does, WriteEvents, IsReady, InOrder, JobTrace, Before, After;
    var trace, writes := JobTrace(x, body), WriteEvents(ExpectedWrites(x));
    var head, tail := Before(x), After(x);
    var inner := if x.mint.None? then [] else body;
    BodyDoes(x, body);
    OnlyWrites(ExpectedWrites(x));
    NotReady(x);
    JobInOrder(x, body);
    Around(x);
    JobParts(x, body);
    InFour(Spawned, head, inner, writes, tail);
    InFour(Killed, head, inner, writes, tail);
    InFour(ContextSet, head, inner, writes, tail);
    InFour(ContextCleared, head, inner, writes, tail);
    forall w ensures (Prepared(w) in trace <==> Prepared(w) in inner) && (TornDown(w) in trace <==> TornDown(w) in inner) {
      InFour(Prepared(w), head, inner, writes, tail);
      InFour(TornDown(w), head, inner, writes, tail);
    }
    forall t ensures (Minted(t) in trace <==> Minted(t) in head) && (Revoked(t) in trace <==> Revoked(t) in tail) {
      InFour(Minted(t), head, inner, writes, tail);
      InFour(Revoked(t), head, inner, writes, tail);
    }
  }

  lemma JobParts(x: Script, body: seq<Event>)
    ensures JobTrace(x, body) == Before(x) + (if x.mint.None? then [] else body) + WriteEvents(ExpectedWrites(x)) + After(x)
  {
    hide ExpectedWrites, WriteEvents;
  }

  lemma Around(x: Script)
    ensures forall t :: (Minted(t) in Before(x) <==> x.mint == Some(t)) && Minted(t) !in After(x)
    ensures forall t :: (Revoked(t) in After(x) <==> x.mint == Some(t) && !x.clearThrows) && Revoked(t) !in Before(x)
    ensures ContextSet in Before(x) <==> x.mint.Some? && x.hasIds && !x.setThrows
    ensures ContextCleared in After(x) <==> !x.clearThrows
    ensures ContextSet !in After(x) && ContextCleared !in Before(x)
    ensures forall e :: e in [Spawned, Killed] || e.Prepared? || e.TornDown? ==> e !in Before(x) && e !in After(x)
  {
  }

  function Before(x: Script): seq<Event> {
    if x.mint.None? then [] else [Minted(x.mint.value)] + (if Attributed(x) then [ContextSet] else [])
  }

  function After(x: Script): seq<Event> {
    if x.clearThrows then [] else [ContextCleared] + (if x.mint.None? then [] else [Revoked(x.mint.value)])
  }

  lemma JobInOrder(x: Script, body: seq<Event>)
    ensures InOrder(x, JobTrace(x, body))
  {
    hide WriteEvents, ExpectedWrites;
  }

  lemma NotReady(x: Script)
    ensures x.mint.None? ==> !IsReady(x)
  {
  }

  lemma OnlyWrites(writes: seq<Write>)
    ensures forall e: Event :: e in WriteEvents(writes) ==> e.Wrote?
  {
  }

  lemma BodyDoes(x: Script, body: seq<Event>)
    requires Does(x, body, if IsReady(x) then x.prepare else None, IsReady(x))
    ensures Spawned in body <==> IsReady(x) && !x.abortedBefore && !x.spawnThrows
    ensures Killed in body <==> IsReady(x) && !x.abortedBefore && !x.spawnThrows && (x.agent == [] || x.agent[0] in {Abort, Timeout})
    ensures forall w :: (Prepared(w) in body <==> IsReady(x) && x.prepare == Some(w)) && (TornDown(w) in body <==> IsReady(x) && x.prepare == Some(w))
    ensures forall t :: Minted(t) !in body && Revoked(t) !in body
    ensures ContextSet !in body && ContextCleared !in body
  {
  }

  // ---------------------------------------------------------------- traces

  function HeadTrace(x: Script, body: seq<Event>): seq<Event> {
    if x.mint.None? then [] else [Minted(x.mint.value)] + (if Attributed(x) then [ContextSet] else []) + body
  }

  function JobTrace(x: Script, body: seq<Event>): seq<Event> {
    HeadTrace(x, body)
    + WriteEvents(ExpectedWrites(x))
    + (if x.clearThrows then [] else [ContextCleared] + (if x.mint.None? then [] else [Revoked(x.mint.value)]))
  }

  lemma AsExpected(x: Script, writes: seq<Event>)
    requires x.repoRefOk
    requires var caught := NotExecuted(x) || Verdict(x).Threw? || (!Verdict(x).Interrupted? && x.writeThrows);
             var first := if NotExecuted(x) then [] else match Verdict(x)
                          case Ok => [Wrote(Complete)]
                          case NotOk(retry) => [Wrote(if retry then Release else Fail)]
                          case _ => [];
             writes == first + (if caught then [Wrote(Release)] else [])
    ensures writes == WriteEvents(ExpectedWrites(x))
  {
    hide Verdict;
  }

  lemma Concatenated(before: seq<Event>, head: seq<Event>, writes: seq<Event>, x: Script, body: seq<Event>)
    requires head == HeadTrace(x, body) && writes == WriteEvents(ExpectedWrites(x))
    ensures var tail := if x.clearThrows then [] else [ContextCleared] + (if x.mint.None? then [] else [Revoked(x.mint.value)]);
            before + head + writes + tail == before + JobTrace(x, body)
    ensures x.clearThrows ==> before + head + writes == before + JobTrace(x, body)
    ensures !x.clearThrows ==>
              before + head + writes + [ContextCleared] + (if x.mint.None? then [] else [Revoked(x.mint.value)])
              == before + JobTrace(x, body)
  {
    hide ExpectedWrites, WriteEvents, HeadTrace;
  }

  function WriteEvents(writes: seq<Write>): seq<Event> {
    seq(|writes|, i requires 0 <= i < |writes| => Wrote(writes[i]))
  }

  lemma {:induction false} WritesSplit(a: seq<Event>, b: seq<Event>)
    ensures Writes(a + b) == Writes(a) + Writes(b)
    decreases |b|
  {
    if b == [] {
      assert a + b == a;
    } else {
      assert (a + b)[..|a + b| - 1] == a + b[..|b| - 1];
      WritesSplit(a, b[..|b| - 1]);
    }
  }

  lemma WriteOne(e: Event)
    ensures Writes([e]) == if e.Wrote? then [e.write] else []
  {
    assert [e][..0] == [];
  }

  lemma ShortTraces()
    ensures Scan(RESTING, [Wrote(Fail)]) == Some(RESTING) && Writes([Wrote(Fail)]) == [Fail]
  {
    WriteOne(Wrote(Fail));
  }

  lemma SpawnTrace(spawned: seq<Event>, token: Token, tree: Worktree)
    requires spawned in {[], [Spawned], [Spawned, Killed]}
    ensures Writes(spawned) == []
    ensures forall attributed :: var l := Life(Some(token), Some(tree), attributed, false, false); Scan(l, spawned) == Some(l)
  {
    assert |[Spawned][1..]| == 0 && [Spawned, Killed][1..] == [Killed] && |[Killed][1..]| == 0;
    assert [Spawned, Killed] == [Spawned] + [Killed];
    WritesSplit([Spawned], [Killed]);
    WriteOne(Spawned);
    WriteOne(Killed);
  }

  lemma PublishTrace(spawned: seq<Event>, token: Token, tree: Worktree, ok: bool)
    requires Writes(spawned) == []
    requires forall attributed :: var l := Life(Some(token), Some(tree), attributed, false, false); Scan(l, spawned) == Some(l)
    ensures var trace := spawned + [PublishWon] + [PrCalled(ok)];
            && Writes(trace) == []
            && forall attributed :: Scan(Life(Some(token), Some(tree), attributed, false, false), trace)
                            == Some(Life(Some(token), Some(tree), attributed, true, ok))
  {
    WritesSplit(spawned, [PublishWon]);
    WritesSplit(spawned + [PublishWon], [PrCalled(ok)]);
    WriteOne(PublishWon);
    WriteOne(PrCalled(ok));
    forall attributed: bool ensures Scan(Life(Some(token), Some(tree), attributed, false, false), spawned + [PublishWon] + [PrCalled(ok)])
                            == Some(Life(Some(token), Some(tree), attributed, true, ok))
    {
      ScanOne(Life(Some(token), Some(tree), attributed, false, false), spawned, PublishWon);
      ScanOne(Life(Some(token), Some(tree), attributed, false, false), spawned + [PublishWon], PrCalled(ok));
    }
  }

  lemma TreeTrace(inner: seq<Event>, token: Token, tree: Worktree, published: bool, prOpen: bool)
    requires Writes(inner) == []
    requires forall attributed :: Scan(Life(Some(token), Some(tree), attributed, false, false), inner)
                          == Some(Life(Some(token), Some(tree), attributed, published, prOpen))
    ensures var trace := [Prepared(tree)] + inner + [TornDown(tree)];
            && Writes(trace) == []
            && forall attributed :: Scan(Life(Some(token), None, attributed, false, false), trace)
                            == Some(Life(Some(token), None, attributed, published, prOpen))
  {
    var head := [Prepared(tree)] + inner;
    WritesSplit([Prepared(tree)], inner);
    WritesSplit(head, [TornDown(tree)]);
    WriteOne(Prepared(tree));
    WriteOne(TornDown(tree));
    forall attributed: bool ensures Scan(Life(Some(token), None, attributed, false, false), head + [TornDown(tree)])
                            == Some(Life(Some(token), None, attributed, published, prOpen))
    {
      var l := Life(Some(token), None, attributed, false, false);
      assert head[1..] == inner;
      ScanOne(l, head, TornDown(tree));
    }
  }

  lemma {:induction false} WriteEventsScan(l: Life, writes: seq<Write>)
    requires l.worktree.None? && (Complete in writes ==> l.prOpen)
    ensures Scan(l, WriteEvents(writes)) == Some(l) && Writes(WriteEvents(writes)) == writes
  {
    var events := WriteEvents(writes);
    if writes != [] {
      var init, last := writes[..|writes| - 1], writes[|writes| - 1];
      WriteEventsScan(l, init);
      assert events == WriteEvents(init) + [Wrote(last)];
      ScanOne(l, WriteEvents(init), Wrote(last));
      assert writes == init + [last] && last in writes;
    }
  }

  /** Where a job stands before its last write: its token, its attribution, and what execute has done. */
  function BeforeWrites(x: Script): Life {
    if x.mint.None? then RESTING
    else if NotExecuted(x) then Life(x.mint, None, false, false, false)
    else Life(x.mint, None, Attributed(x), x.prepare.Some? && PrCalledIn(x), Verdict(x).Ok?)
  }

  lemma JobTraceIsDisciplined(x: Script, body: seq<Event>)
    requires x.repoRefOk && Writes(body) == [] && (NotExecuted(x) ==> body == [])
    requires !NotExecuted(x) ==>
               forall attributed :: Scan(Life(x.mint, None, attributed, false, false), body)
                            == Some(Life(x.mint, None, attributed, x.prepare.Some? && PrCalledIn(x), Verdict(x).Ok?))
    ensures Scan(RESTING, JobTrace(x, body)) == Some(LeftOver(Job(x)))
    ensures Writes(JobTrace(x, body)) == ExpectedWrites(x)
  {
    hide Scan, Writes, PrCalledIn, WriteEvents, ExpectedWrites, Verdict, HeadTrace, BeforeWrites, LeftOver;
    var mid := HeadTrace(x, body) + WriteEvents(ExpectedWrites(x));
    WrittenScan(x, body);
    TailScan(x);
    if x.clearThrows {
      assert JobTrace(x, body) == mid + [];
      assert mid + [] == mid;
    } else {
      var tail := [ContextCleared] + (if x.mint.None? then [] else [Revoked(x.mint.value)]);
      assert JobTrace(x, body) == mid + tail;
      ScanSplit(RESTING, mid, tail);
      WritesSplit(mid, tail);
    }
  }

  lemma WrittenScan(x: Script, body: seq<Event>)
    requires x.repoRefOk && Writes(body) == [] && (NotExecuted(x) ==> body == [])
    requires !NotExecuted(x) ==>
               forall attributed :: Scan(Life(x.mint, None, attributed, false, false), body)
                            == Some(Life(x.mint, None, attributed, x.prepare.Some? && PrCalledIn(x), Verdict(x).Ok?))
    ensures var mid := HeadTrace(x, body) + WriteEvents(ExpectedWrites(x));
            Scan(RESTING, mid) == Some(BeforeWrites(x)) && Writes(mid) == ExpectedWrites(x)
  {
    hide Scan, Writes, PrCalledIn, WriteEvents, HeadTrace;
    HeadScan(x, body);
    CompletesOpen(x);
    WriteEventsScan(BeforeWrites(x), ExpectedWrites(x));
    ScanSplit(RESTING, HeadTrace(x, body), WriteEvents(ExpectedWrites(x)));
    WritesSplit(HeadTrace(x, body), WriteEvents(ExpectedWrites(x)));
    hide ExpectedWrites, Verdict, BeforeWrites;
  }

  lemma CompletesOpen(x: Script)
    requires x.repoRefOk
    ensures BeforeWrites(x).worktree.None? && (Complete in ExpectedWrites(x) ==> BeforeWrites(x).prOpen)
  {
    hide PrCalledIn;
  }

  /** The end of a job: the attribution goes, then the token - or both stay. */
  lemma TailScan(x: Script)
    requires x.repoRefOk
    ensures var tail := [ContextCleared] + (if x.mint.None? then [] else [Revoked(x.mint.value)]);
            && Writes(tail) == []
            && (if x.clearThrows then BeforeWrites(x) == LeftOver(Job(x)) else Scan(BeforeWrites(x), tail) == Some(LeftOver(Job(x))))
  {
    hide PrCalledIn, Verdict;
    WriteOne(ContextCleared);
    assert |[ContextCleared][1..]| == 0;
    if x.mint.Some? {
      var revoke := Revoked(x.mint.value);
      WriteOne(revoke);
      WritesSplit([ContextCleared], [revoke]);
      ScanOne(BeforeWrites(x), [ContextCleared], revoke);
    } else {
      assert [ContextCleared] + [] == [ContextCleared];
    }
  }

  lemma HeadScan(x: Script, body: seq<Event>)
    requires Writes(body) == [] && (NotExecuted(x) ==> body == [])
    requires !NotExecuted(x) ==>
               forall attributed :: Scan(Life(x.mint, None, attributed, false, false), body)
                            == Some(Life(x.mint, None, attributed, x.prepare.Some? && PrCalledIn(x), Verdict(x).Ok?))
    ensures Scan(RESTING, HeadTrace(x, body)) == Some(BeforeWrites(x)) && Writes(HeadTrace(x, body)) == []
  {
    hide PrCalledIn, Verdict;
    if x.mint.Some? {
      var first := [Minted(x.mint.value)];
      var start := first + (if Attributed(x) then [ContextSet] else []);
      assert |first[1..]| == 0;
      assert Scan(RESTING, first) == Some(Life(x.mint, None, false, false, false));
      ScanOne(RESTING, first, ContextSet);
      WriteOne(Minted(x.mint.value));
      WriteOne(ContextSet);
      WritesSplit(first, [ContextSet]);
      assert !Attributed(x) ==> start == first;
      ScanSplit(RESTING, start, body);
      WritesSplit(start, body);
      if NotExecuted(x) {
        assert start + body == start;
      }
    }
  }
}
