/**
  The cancel/publish protocol: one dispatch job, the fenced queue statements that act on its row, any
  number of runners somewhere in their run of it, an operator, and a sweeper of expired leases.

  Time is left out: a lease may be found expired whenever the row is held.
  */
module Dispatch {
  import opened Text

  type Fence = nat
  type RunnerId = nat

  datatype Status = Queued | Claimed | Publishing | Done | Failed | Cancelled
  datatype Row = Row(status: Status, epoch: Fence, attempts: nat)

  // ---------------------------------------------------------------- queue statements

  predicate Held(row: Option<Row>, fence: Fence) {
    row.Some? && row.value.epoch == fence && row.value.status in {Claimed, Publishing}
  }

  /** UPDATE ... SET status = 'publishing' WHERE claim_epoch = fence AND status = 'claimed'. */
  predicate CanPublish(row: Option<Row>, fence: Fence) {
    row.Some? && row.value.epoch == fence && row.value.status == Claimed
  }

  datatype Write = Complete | Fail | Release

  function WrittenStatus(w: Write): Status {
    match w case Complete => Done case Fail => Failed case Release => Queued
  }

  /** complete / fail / release: fenced, from claimed or publishing. */
  function FencedWrite(row: Option<Row>, fence: Fence, w: Write): Option<Row> {
    if Held(row, fence) then Some(row.value.(status := WrittenStatus(w))) else row
  }

  datatype CancelResult = Removed | Signalled | TooLate

  function CancelOutcome(row: Option<Row>): CancelResult {
    if row.None? then TooLate
    else match row.value.status case Queued => Removed case Claimed => Signalled case _ => TooLate
  }

  /** requestCancel: queued or claimed becomes cancelled, anything else is left alone. */
  function RequestCancelled(row: Option<Row>): Option<Row> {
    if CancelOutcome(row).TooLate? then row else Some(row.value.(status := Cancelled))
  }

  /** sweepExpired / reclaimExpired on a row whose lease has expired. */
  function Swept(row: Option<Row>, maxAttempts: nat): Option<Row> {
    if row.Some? && row.value.status in {Claimed, Publishing}
    then Some(row.value.(status := if row.value.attempts >= maxAttempts then Failed else Queued))
    else row
  }

  // ---------------------------------------------------------------- runners

  /** Where a runner is with the job it claimed under a fence. */
  datatype Point =
    | Idle
    | Working(fence: Fence, aborted: bool)
    | Opening(fence: Fence)
    | Writing(fence: Fence, write: Write, inCatch: bool)

  /** `won`: fences under which the row went claimed -> publishing. `prs`, `threw`: fences under which openPr was
      called, by outcome: a pull request, or nothing. `gaveUp`: fences whose runner reported a cancelled outcome and wrote nothing.
      `requeued`: whether the row ever went back to queued from publishing. */
  datatype System = System(
    row: Option<Row>,
    runners: map<RunnerId, Point>,
    won: set<Fence>,
    prs: set<Fence>,
    threw: set<Fence>,
    gaveUp: set<Fence>,
    requeued: bool)

  datatype Action =
    | Claim(r: RunnerId)
    | Heartbeat(r: RunnerId)
    | AgentFails(r: RunnerId)
    | Refuses(r: RunnerId, retry: bool)
    | Throws(r: RunnerId)
    | BeginPublish(r: RunnerId, replyLost: bool)
    | OpenPr(r: RunnerId, ok: bool)
    | WriteBack(r: RunnerId, applied: bool, replied: bool)
    | Crash(r: RunnerId)
    | RequestCancel
    | CancelQueued
    | Sweep(maxAttempts: nat)
    | Reap

  function PointOf(s: System, r: RunnerId): Point {
    if r in s.runners then s.runners[r] else Idle
  }

  function To(s: System, r: RunnerId, p: Point): System {
    s.(runners := s.runners[r := p])
  }

  /** A new row, remembering a return from publishing to queued. */
  function WithRow(s: System, row: Option<Row>): System {
    s.(row := row,
       requeued := s.requeued || (s.row.Some? && s.row.value.status == Publishing && row.Some? && row.value.status == Queued))
  }

  /** One event. An event that is not possible where the runner is changes nothing. */
  function Next(s: System, a: Action): System {
    match a
    case Claim(r) =>
      if PointOf(s, r) == Idle && s.row.Some? && s.row.value.status == Queued then
        var row := s.row.value;
        To(s.(row := Some(Row(Claimed, row.epoch + 1, row.attempts + 1))), r, Working(row.epoch + 1, false))
      else s
    case Heartbeat(r) =>
      // renewLease; a lost claim aborts the agent.
      if PointOf(s, r).Working? && !Held(s.row, PointOf(s, r).fence) then To(s, r, PointOf(s, r).(aborted := true)) else s
    case AgentFails(r) =>
      // The agent run rejects: reported as cancelled when the run was aborted, else to be retried.
      if !PointOf(s, r).Working? then s
      else if PointOf(s, r).aborted then To(s.(gaveUp := s.gaveUp + {PointOf(s, r).fence}), r, Idle)
      else To(s, r, Writing(PointOf(s, r).fence, Release, false))
    case Refuses(r, retry) =>
      // No worktree (to be retried), or no committed changes (terminal).
      if PointOf(s, r).Working? then To(s, r, Writing(PointOf(s, r).fence, if retry then Release else Fail, false)) else s
    case Throws(r) =>
      if PointOf(s, r).Working? then To(s, r, Writing(PointOf(s, r).fence, Release, true)) else s
    case BeginPublish(r, replyLost) =>
      if !PointOf(s, r).Working? then s
      else
        var fence := PointOf(s, r).fence;
        if !CanPublish(s.row, fence) then
          if replyLost then To(s, r, Writing(fence, Release, true)) else To(s.(gaveUp := s.gaveUp + {fence}), r, Idle)
        else
          var s' := s.(row := Some(s.row.value.(status := Publishing)), won := s.won + {fence});
          if replyLost then To(s', r, Writing(fence, Release, true)) else To(s', r, Opening(fence))
    case OpenPr(r, ok) =>
      if !PointOf(s, r).Opening? then s
      else
        var fence := PointOf(s, r).fence;
        if ok then To(s.(prs := s.prs + {fence}), r, Writing(fence, Complete, false))
        else To(s.(threw := s.threw + {fence}), r, Writing(fence, Release, true))
    case WriteBack(r, applied, replied) =>
      // A write whose call throws leads to a release in the catch, whose own failure is swallowed.
      if !PointOf(s, r).Writing? then s
      else
        var p := PointOf(s, r);
        var s' := if applied then WithRow(s, FencedWrite(s.row, p.fence, p.write)) else s;
        To(s', r, if (applied && replied) || p.inCatch then Idle else Writing(p.fence, Release, true))
    case Crash(r) => To(s, r, Idle)
    case RequestCancel => s.(row := RequestCancelled(s.row))
    case CancelQueued => if s.row.Some? && s.row.value.status == Queued then s.(row := None) else s
    case Sweep(max) => WithRow(s, Swept(s.row, max))
    case Reap => if s.row.Some? && s.row.value.status in {Done, Failed, Cancelled} then s.(row := None) else s
  }

  function Run(s: System, actions: seq<Action>): System
    decreases |actions|
  {
    if actions == [] then s else Run(Next(s, actions[0]), actions[1..])
  }

  // ---------------------------------------------------------------- the row, event by event

  /** The transitions of the row. Only a claim raises the fence and the attempts; a runner's write counts only while
      the row is held under its own fence, and completes, fails or requeues the job; a sweep fails a job that has had
      its attempts and requeues any other one. */
  lemma RowAfter(s: System, a: Action)
    ensures var was, row := s.row, Next(s, a).row;
            if was.None? then row == None
            else
              var (status, epoch, attempts) := (was.value.status, was.value.epoch, was.value.attempts);
              match a
              case Claim(r) => row == if PointOf(s, r) == Idle && status == Queued then Some(Row(Claimed, epoch + 1, attempts + 1)) else was
              case BeginPublish(r, _) =>
                row == if PointOf(s, r).Working? && PointOf(s, r).fence == epoch && status == Claimed then Some(Row(Publishing, epoch, attempts)) else was
              case WriteBack(r, applied, _) =>
                if applied && PointOf(s, r).Writing? && PointOf(s, r).fence == epoch && (status == Claimed || status == Publishing) then
                  && (PointOf(s, r).write == Complete ==> row == Some(Row(Done, epoch, attempts)))
                  && (PointOf(s, r).write == Fail ==> row == Some(Row(Failed, epoch, attempts)))
                  && (PointOf(s, r).write == Release ==> row == Some(Row(Queued, epoch, attempts)))
                else row == was
              case RequestCancel =>
                && CancelOutcome(was) == (if status == Queued then Removed else if status == Claimed then Signalled else TooLate)
                && row == if status == Queued || status == Claimed then Some(Row(Cancelled, epoch, attempts)) else was
              case CancelQueued => row == if status == Queued then None else was
              case Sweep(max) =>
                row == if status != Claimed && status != Publishing then was
                       else if attempts < max then Some(Row(Queued, epoch, attempts)) else Some(Row(Failed, epoch, attempts))
              case Reap => row == if status == Done || status == Failed || status == Cancelled then None else was
              case _ => row == was
  {
    hide PointOf;
  }

  /** The row of a job that has ended - done, failed or cancelled - never changes again before it is reaped; in
      particular it is never claimed again. */
  lemma {:induction false} EndedStays(s: System, actions: seq<Action>)
    requires s.row.None? || s.row.value.status in {Done, Failed, Cancelled}
    ensures Run(s, actions).row == s.row || Run(s, actions).row == None
    decreases |actions|
  {
    hide Next;
    if actions != [] {
      RowAfter(s, actions[0]);
      EndedStays(Next(s, actions[0]), actions[1..]);
    }
  }

  /** Every claim is counted: the attempts that the cap is compared with are the fences given out. A job fails over
      at a sweep only when the row has been claimed as often as the cap says. */
  lemma {:induction false} AttemptsAreClaims(actions: seq<Action>, s: System)
    requires s.row.Some? ==> s.row.value.attempts == s.row.value.epoch
    ensures Run(s, actions).row.Some? ==> Run(s, actions).row.value.attempts == Run(s, actions).row.value.epoch
    decreases |actions|
  {
    hide Next;
    if actions != [] {
      RowAfter(s, actions[0]);
      AttemptsAreClaims(actions[1..], Next(s, actions[0]));
    }
  }

  /** The writes of a claim that has been superseded change nothing, in any continuation. */
  lemma {:induction false} StaleWritesAreFenced(s: System, actions: seq<Action>, r: RunnerId, applied: bool, replied: bool)
    requires PointOf(s, r).Writing? && (s.row.None? || PointOf(s, r).fence < s.row.value.epoch)
    requires forall a :: a in actions ==> Actor(a) != Some(r)
    ensures var later := Run(s, actions); Next(later, WriteBack(r, applied, replied)).row == later.row
    decreases |actions|
  {
    hide Next;
    if actions == [] {
      RowAfter(s, WriteBack(r, applied, replied));
    } else {
      var a, s' := actions[0], Next(s, actions[0]);
      assert a in actions;
      RowAfter(s, a);
      OnlyActorMoves(s, a);
      assert forall b :: b in actions[1..] ==> b in actions;
      StaleWritesAreFenced(s', actions[1..], r, applied, replied);
    }
  }

  /** What a runner goes on to write: complete behind an opened pull request, fail when there is nothing to publish,
      release whenever the job should be tried again; nothing at all when it was cancelled. */
  lemma RunnerAfter(s: System, a: Action, r: RunnerId)
    requires Actor(a) == Some(r)
    ensures var was, now := PointOf(s, r), PointOf(Next(s, a), r);
            match a
            case Claim(_) =>
              if was == Idle && s.row.Some? && s.row.value.status == Queued then now == Working(s.row.value.epoch + 1, false) else now == was
            case Heartbeat(_) =>
              if was.Working? && !(s.row.Some? && s.row.value.epoch == was.fence && s.row.value.status in {Claimed, Publishing})
              then now == Working(was.fence, true) else now == was
            case AgentFails(_) =>
              if !was.Working? then now == was
              else if was.aborted then now == Idle && was.fence in Next(s, a).gaveUp
              else now == Writing(was.fence, Release, false)
            case Refuses(_, retry) =>
              if !was.Working? then now == was else now == Writing(was.fence, if retry then Release else Fail, false)
            case Throws(_) => if !was.Working? then now == was else now == Writing(was.fence, Release, true)
            case BeginPublish(_, replyLost) =>
              if !was.Working? then now == was
              else if replyLost then now == Writing(was.fence, Release, true)
              else if s.row.Some? && s.row.value.epoch == was.fence && s.row.value.status == Claimed
              then now == Opening(was.fence) && was.fence in Next(s, a).won
              else now == Idle && was.fence in Next(s, a).gaveUp
            case OpenPr(_, ok) =>
              if !was.Opening? then now == was
              else if ok then now == Writing(was.fence, Complete, false) && was.fence in Next(s, a).prs
              else now == Writing(was.fence, Release, true) && Next(s, a).prs == s.prs
            case WriteBack(_, applied, replied) =>
              if !was.Writing? then now == was
              else if was.inCatch || (applied && replied) then now == Idle
              else now == Writing(was.fence, Release, true)
            case Crash(_) => now == Idle
            case _ => true
  {
  }

  /** A freshly enqueued job. */
  const ENQUEUED: System := System(Some(Row(Queued, 0, 0)), map[], {}, {}, {}, {}, false)

  ghost predicate Reachable(s: System) {
    exists actions :: s == Run(ENQUEUED, actions)
  }

  // ---------------------------------------------------------------- what every event keeps

  /** The claim under this fence is gone, and cannot come back. */
  predicate Lost(row: Option<Row>, fence: Fence) {
    row.None? || row.value.epoch > fence || (row.value.epoch == fence && row.value.status !in {Claimed, Publishing})
  }

  predicate HasFence(p: Point) { !p.Idle? }

  ghost predicate Inv(s: System) {
    && RowInv(s)
    && (forall r :: r in s.runners ==> PointInv(s, s.runners[r]))
    && (forall q, r :: q in s.runners && r in s.runners && q != r && HasFence(s.runners[q]) && HasFence(s.runners[r]) ==>
          s.runners[q].fence != s.runners[r].fence)
  }

  /** The last fence given out, whatever became of the row. */
  ghost predicate RowInv(s: System) {
    && s.prs <= s.won && s.threw <= s.won && s.prs !! s.threw
    && (s.row.Some? ==>
          var row := s.row.value;
          && (forall f :: f in s.won ==> 0 < f <= row.epoch)
          && (row.status == Claimed ==> row.epoch !in s.won)
          && (row.status == Publishing ==> row.epoch in s.won)
          && (row.status == Done ==> row.epoch in s.prs)
          && (row.status in {Claimed, Publishing, Done} ==> row.epoch > 0))
    && (forall f :: f in s.gaveUp ==> Lost(s.row, f))
    && (!s.requeued && s.row.Some? && s.row.value.status !in {Publishing, Done, Failed} ==> s.won == {})
    && (!s.requeued && s.row.Some? && s.row.value.status == Publishing ==> s.won == {s.row.value.epoch})
  }

  ghost predicate PointInv(s: System, p: Point) {
    && (HasFence(p) && s.row.Some? ==> p.fence <= s.row.value.epoch)
    && (p.Working? ==> p.fence !in s.won && (p.aborted ==> Lost(s.row, p.fence)))
    && (p.Opening? ==> p.fence in s.won && p.fence !in s.prs && p.fence !in s.threw)
    && (p.Writing? && p.write == Complete ==> p.fence in s.prs)
  }

  /** What one event may do to the row, the histories and the other runners. */
  lemma Frame(s: System, a: Action)
    requires Inv(s)
    ensures var s' := Next(s, a);
            && (s'.row.Some? ==> s.row.Some? && s'.row.value.epoch >= s.row.value.epoch)
            && (s'.row.Some? && s'.row.value.epoch == s.row.value.epoch && s'.row.value.status in {Claimed, Publishing} ==>
                  s.row.value.status in {Claimed, Publishing})
            && s.won <= s'.won && s.prs <= s'.prs && s.threw <= s'.threw && s.gaveUp <= s'.gaveUp
            && (forall f :: f in s'.won && f !in s.won ==> s.row.Some? && f == s.row.value.epoch)
  {
    hide PointInv, RowInv;
  }

  /** An event that a runner takes part in changes no other runner; the rest change none. */
  function Actor(a: Action): Option<RunnerId> {
    match a
    case Claim(r) => Some(r)
    case Heartbeat(r) => Some(r)
    case AgentFails(r) => Some(r)
    case Refuses(r, _) => Some(r)
    case Throws(r) => Some(r)
    case BeginPublish(r, _) => Some(r)
    case OpenPr(r, _) => Some(r)
    case WriteBack(r, _, _) => Some(r)
    case Crash(r) => Some(r)
    case _ => None
  }

  lemma OnlyActorMoves(s: System, a: Action)
    ensures forall r :: r in s.runners && Some(r) != Actor(a) ==> r in Next(s, a).runners && Next(s, a).runners[r] == s.runners[r]
    ensures forall r :: r in Next(s, a).runners && r !in s.runners ==> Some(r) == Actor(a)
    ensures var s' := Next(s, a);
            forall r :: r in s'.runners && HasFence(s'.runners[r]) && Some(r) == Actor(a) ==>
              || (r in s.runners && HasFence(s.runners[r]) && s'.runners[r].fence == s.runners[r].fence)
              || (s.row.Some? && s'.runners[r].fence == s.row.value.epoch + 1)
  {
  }

  lemma RowInvKept(s: System, a: Action)
    requires Inv(s)
    ensures RowInv(Next(s, a))
  {
    hide RowInv, PointInv;
    if Actor(a).Some? && Actor(a).value in s.runners {
      assert PointInv(s, s.runners[Actor(a).value]);
    }
    ActorRow(s, a);
  }

  /** Only the acting runner's own point matters to the row. */
  lemma ActorRow(s: System, a: Action)
    requires RowInv(s)
    requires Actor(a).Some? && Actor(a).value in s.runners ==> PointInv(s, s.runners[Actor(a).value])
    ensures RowInv(Next(s, a))
  {
  }

  lemma ActorPoint(s: System, a: Action, r: RunnerId)
    requires RowInv(s) && Some(r) == Actor(a) && r in Next(s, a).runners
    requires r in s.runners ==> PointInv(s, s.runners[r])
    ensures PointInv(Next(s, a), Next(s, a).runners[r])
  {
  }

  /** A runner's knowledge survives any event of another runner, of the operator or of the sweeper. */
  lemma OtherPoint(s: System, s': System, p: Point)
    requires PointInv(s, p) && RowInv(s)
    requires s'.row.Some? ==> s.row.Some? && s'.row.value.epoch >= s.row.value.epoch
    requires s'.row.Some? && s'.row.value.epoch == s.row.value.epoch && s'.row.value.status in {Claimed, Publishing} ==>
               s.row.value.status in {Claimed, Publishing}
    requires HasFence(p) ==> (p.fence in s'.won <==> p.fence in s.won) && (p.fence in s'.prs <==> p.fence in s.prs)
                             && (p.fence in s'.threw <==> p.fence in s.threw)
    ensures PointInv(s', p)
  {
    hide RowInv;
  }

  /** The histories only grow by the fence of the acting runner. */
  lemma HistoryOf(s: System, a: Action, f: Fence)
    requires Actor(a).Some? && Actor(a).value in s.runners && HasFence(s.runners[Actor(a).value]) ==>
               f != s.runners[Actor(a).value].fence
    ensures var s' := Next(s, a);
            (f in s'.won <==> f in s.won) && (f in s'.prs <==> f in s.prs) && (f in s'.threw <==> f in s.threw)
  {
  }

  lemma InvKept(s: System, a: Action)
    requires Inv(s)
    ensures Inv(Next(s, a))
  {
    hide Next, RowInv, PointInv;
    var s' := Next(s, a);
    RowInvKept(s, a);
    OnlyActorMoves(s, a);
    Frame(s, a);
    forall r | r in s'.runners ensures PointInv(s', s'.runners[r]) {
      if Some(r) == Actor(a) {
        ActorPoint(s, a, r);
      } else {
        if HasFence(s.runners[r]) { HistoryOf(s, a, s.runners[r].fence); }
        OtherPoint(s, s', s.runners[r]);
      }
    }
    FencesBelow(s);
  }

  lemma FencesBelow(s: System)
    requires Inv(s)
    ensures forall r :: r in s.runners && HasFence(s.runners[r]) && s.row.Some? ==> s.runners[r].fence <= s.row.value.epoch
  {
    forall r | r in s.runners && HasFence(s.runners[r]) && s.row.Some? ensures s.runners[r].fence <= s.row.value.epoch {
      assert PointInv(s, s.runners[r]);
    }
  }

  lemma {:induction false} RunInv(s: System, actions: seq<Action>)
    requires Inv(s)
    ensures Inv(Run(s, actions))
    decreases |actions|
  {
    hide Inv, Next;
    if actions != [] {
      InvKept(s, actions[0]);
      RunInv(Next(s, actions[0]), actions[1..]);
    }
  }

  lemma ReachableInv(s: System)
    requires Reachable(s)
    ensures Inv(s)
  {
    hide Next;
    var actions :| s == Run(ENQUEUED, actions);
    assert Inv(ENQUEUED);
    RunInv(ENQUEUED, actions);
  }

  // ---------------------------------------------------------------- cancel xor publish

  /** A pull request is opened only under a fence that won claimed -> publishing, a job is done only when one
      was opened under its last fence, and a runner that reported `cancelled` without writing anything left
      no row held in its name. */
  lemma PublishIsFenced(s: System)
    requires Reachable(s)
    ensures s.prs <= s.won
    ensures s.row.Some? && s.row.value.status == Done ==> s.row.value.epoch in s.prs
    ensures forall f :: f in s.gaveUp ==> !Held(s.row, f)
  {
    hide PointInv;
    ReachableInv(s);
  }

  predicate Over(row: Option<Row>) { row.None? || row.value.status == Cancelled }

  /** A cancelled job stays cancelled, and no fence wins any more. */
  lemma OverStays(s: System, a: Action)
    requires Over(s.row)
    ensures Over(Next(s, a).row) && Next(s, a).won == s.won
  {
  }

  lemma {:induction false} OverRun(s: System, actions: seq<Action>)
    requires Over(s.row)
    ensures Over(Run(s, actions).row) && Run(s, actions).won == s.won
    decreases |actions|
  {
    hide Next;
    if actions != [] {
      OverStays(s, actions[0]);
      OverRun(Next(s, actions[0]), actions[1..]);
    }
  }

  /** The hinge, per claim: if the operator's cancel finds the job claimed, the runner holding that claim
      never publishes under it, whatever follows; if it finds the job publishing, it changes nothing. */
  lemma CancelXorPublish(s: System, actions: seq<Action>)
    requires Reachable(s) && s.row.Some?
    ensures CancelOutcome(s.row).Signalled? ==>
              var later := Run(Next(s, RequestCancel), actions);
              s.row.value.epoch !in later.won && s.row.value.epoch !in later.prs
    ensures s.row.value.status == Publishing ==> CancelOutcome(s.row).TooLate? && Next(s, RequestCancel) == s
  {
    hide PointInv;
    ReachableInv(s);
    if CancelOutcome(s.row).Signalled? {
      var cancelled := Next(s, RequestCancel);
      InvKept(s, RequestCancel);
      RunInv(cancelled, actions);
      OverRun(cancelled, actions);
    }
  }

  /** Whether some runner is between winning the row and the outcome of openPr. */
  ghost predicate PrInFlight(s: System) {
    exists r :: r in s.runners && s.runners[r].Opening?
  }

  lemma NoPrStays(s: System, a: Action)
    requires Over(s.row) && s.prs == {} && !PrInFlight(s)
    ensures Over(Next(s, a).row) && Next(s, a).prs == {} && !PrInFlight(Next(s, a))
  {
  }

  lemma {:induction false} NoPrRun(s: System, actions: seq<Action>)
    requires Over(s.row) && s.prs == {} && !PrInFlight(s)
    ensures Run(s, actions).prs == {}
    decreases |actions|
  {
    hide Next, PrInFlight;
    if actions != [] {
      NoPrStays(s, actions[0]);
      NoPrRun(Next(s, actions[0]), actions[1..]);
    }
  }

  /** When a cancelled job is free of pull requests for good: exactly when none has been opened and no runner
      is in the middle of opening one. */
  lemma CleanCancel(s: System)
    requires Over(s.row)
    ensures (forall actions :: Run(s, actions).prs == {}) <==> s.prs == {} && !PrInFlight(s)
  {
    hide Next;
    if s.prs == {} && !PrInFlight(s) {
      forall actions ensures Run(s, actions).prs == {} { NoPrRun(s, actions); }
    } else if s.prs != {} {
      assert Run(s, []) == s;
    } else {
      var r :| r in s.runners && s.runners[r].Opening?;
      OpenOne(s, r);
      assert Run(s, [OpenPr(r, true)]) == Run(Next(s, OpenPr(r, true)), []);
    }
  }

  lemma OpenOne(s: System, r: RunnerId)
    requires r in s.runners && s.runners[r].Opening?
    ensures Next(s, OpenPr(r, true)).prs != {}
  {
    assert s.runners[r].fence in Next(s, OpenPr(r, true)).prs;
  }

  /** A guard the operator can check on the row: a job on its first claim, and likewise any job that never
      went back from publishing to queued, has no pull request when it is cancelled and never gets one. */
  lemma CancelBeforeRequeueIsClean(s: System, actions: seq<Action>)
    requires Reachable(s) && !CancelOutcome(s.row).TooLate?
    requires !s.requeued || (s.row.value.status == Claimed && s.row.value.epoch == 1) || s.row.value.epoch == 0
    ensures Run(Next(s, RequestCancel), actions).prs == {}
  {
    ReachableInv(s);
    NothingWon(s);
    var cancelled := Next(s, RequestCancel);
    NobodyOpening(s);
    NoPrRun(cancelled, actions);
  }

  lemma NothingWon(s: System)
    requires Inv(s) && !CancelOutcome(s.row).TooLate?
    requires !s.requeued || (s.row.value.status == Claimed && s.row.value.epoch == 1) || s.row.value.epoch == 0
    ensures s.won == {}
  {
    hide PointInv;
  }

  lemma NobodyOpening(s: System)
    requires Inv(s) && s.won == {}
    ensures s.prs == {} && !PrInFlight(s)
  {
    forall r | r in s.runners ensures !s.runners[r].Opening? {
      assert PointInv(s, s.runners[r]);
    }
  }

  /** Without that guard the job-level promise fails: a pull request is opened, the lease expires before the
      job is completed, the sweeper requeues it, and the cancel then reports the job removed from the queue. */
  lemma CancelledWithPr()
    ensures var s := Run(ENQUEUED, [Claim(0), BeginPublish(0, false), OpenPr(0, true), Sweep(3)]);
            && s.prs == {1} && CancelOutcome(s.row) == Removed
            && Next(s, RequestCancel).row.Some? && Next(s, RequestCancel).row.value.status == Cancelled
  {
    hide Next;
    FirstClaim();
    FirstPublish();
    FirstPr();
    Requeued(OPENED_PR, 3);
    RunFour(ENQUEUED, Claim(0), BeginPublish(0, false), OpenPr(0, true), Sweep(3));
  }

  const CLAIMED: System := System(Some(Row(Claimed, 1, 1)), map[0 := Working(1, false)], {}, {}, {}, {}, false)
  const PUBLISHING: System := System(Some(Row(Publishing, 1, 1)), map[0 := Opening(1)], {1}, {}, {}, {}, false)
  const OPENED_PR: System := System(Some(Row(Publishing, 1, 1)), map[0 := Writing(1, Complete, false)], {1}, {1}, {}, {}, false)

  lemma FirstClaim()
    ensures Next(ENQUEUED, Claim(0)) == CLAIMED
  {
  }

  lemma FirstPublish()
    ensures Next(CLAIMED, BeginPublish(0, false)) == PUBLISHING
  {
  }

  lemma FirstPr()
    ensures Next(PUBLISHING, OpenPr(0, true)) == OPENED_PR
  {
  }

  /** An expired lease with attempts left: the row goes back to the queue, and a cancel then removes it. */
  lemma Requeued(s: System, maxAttempts: nat)
    requires s.row.Some? && s.row.value.status in {Claimed, Publishing} && s.row.value.attempts < maxAttempts
    ensures var s' := Next(s, Sweep(maxAttempts));
            && s'.row == Some(s.row.value.(status := Queued)) && s'.runners == s.runners && s'.prs == s.prs
            && CancelOutcome(s'.row) == Removed
            && Next(s', RequestCancel).row == Some(s.row.value.(status := Cancelled))
  {
  }

  lemma RunFour(s: System, a: Action, b: Action, c: Action, d: Action)
    ensures Run(s, [a, b, c, d]) == Next(Next(Next(Next(s, a), b), c), d)
  {
    hide Next;
    assert [a, b, c, d][1..] == [b, c, d] && [b, c, d][1..] == [c, d] && [c, d][1..] == [d];
    assert Run(Next(Next(s, a), b), [c, d]) == Run(Next(Next(Next(s, a), b), c), [d]);
    assert Run(Next(Next(Next(s, a), b), c), [d]) == Next(Next(Next(Next(s, a), b), c), d);
  }

  // ---------------------------------------------------------------- what the row tells the operator

  lemma ReachableNext(s: System, a: Action)
    requires Reachable(s)
    ensures Reachable(Next(s, a))
  {
    hide Next;
    var actions :| s == Run(ENQUEUED, actions);
    RunSnoc(ENQUEUED, actions, a);
    assert Next(s, a) == Run(ENQUEUED, actions + [a]);
  }

  lemma {:induction false} RunSnoc(s: System, actions: seq<Action>, a: Action)
    ensures Run(s, actions + [a]) == Next(Run(s, actions), a)
    decreases |actions|
  {
    hide Next;
    if actions == [] {
      assert actions + [a] == [a] && |[a][1..]| == 0;
    } else {
      assert (actions + [a])[1..] == actions[1..] + [a];
      RunSnoc(Next(s, actions[0]), actions[1..], a);
    }
  }

  /** A queued row that has been claimed before may have a pull request behind it. */
  lemma {:induction false} QueuedWithPr(epoch: nat) returns (s: System)
    requires epoch > 0
    ensures Reachable(s) && s.row == Some(Row(Queued, epoch, epoch)) && 1 in s.prs && PointOf(s, 0) == Idle
  {
    hide Next, Reachable;
    if epoch == 1 {
      FirstClaim();
      FirstPublish();
      FirstPr();
      StartReachable();
      ReachableNext(ENQUEUED, Claim(0));
      ReachableNext(CLAIMED, BeginPublish(0, false));
      ReachableNext(PUBLISHING, OpenPr(0, true));
      s := CrashAndSweep(OPENED_PR);
    } else {
      var before := QueuedWithPr(epoch - 1);
      ReachableNext(before, Claim(0));
      ClaimKeepsPrs(before);
      s := CrashAndSweep(Next(before, Claim(0)));
    }
  }

  lemma StartReachable()
    ensures Reachable(ENQUEUED)
  {
    assert Run(ENQUEUED, []) == ENQUEUED;
  }

  lemma CrashAndSweep(s: System) returns (s': System)
    requires Reachable(s) && s.row.Some? && s.row.value.status in {Claimed, Publishing}
    ensures Reachable(s') && s'.row == Some(s.row.value.(status := Queued)) && s'.prs == s.prs && PointOf(s', 0) == Idle
  {
    hide Next, Reachable;
    var crashed := Next(s, Crash(0));
    CrashKeeps(s);
    ReachableNext(s, Crash(0));
    Requeued(crashed, s.row.value.attempts + 1);
    ReachableNext(crashed, Sweep(s.row.value.attempts + 1));
    s' := Next(crashed, Sweep(s.row.value.attempts + 1));
  }

  lemma CrashKeeps(s: System)
    ensures Next(s, Crash(0)).row == s.row && Next(s, Crash(0)).prs == s.prs && PointOf(Next(s, Crash(0)), 0) == Idle
  {
  }

  ghost predicate CancelsClean(row: Row) {
    forall s, actions :: Reachable(s) && s.row == Some(row) ==> Run(Next(s, RequestCancel), actions).prs == {}
  }

  /** What the operator can tell from the row alone: cancelling a queued or claimed job leaves no pull request
      behind, then or ever, exactly when the job has never been claimed or is on its first claim. */
  lemma CleanByRow(row: Row)
    requires row.status in {Queued, Claimed} && row.attempts == row.epoch && (row.status == Claimed ==> row.epoch > 0)
    ensures CancelsClean(row) <==> row.epoch == 0 || (row.status == Claimed && row.epoch == 1)
  {
    hide Next, Reachable;
    if row.epoch == 0 || (row.status == Claimed && row.epoch == 1) {
      forall s, actions | Reachable(s) && s.row == Some(row) ensures Run(Next(s, RequestCancel), actions).prs == {} {
        CancelBeforeRequeueIsClean(s, actions);
      }
    } else if row.status == Queued {
      var s := QueuedWithPr(row.epoch);
      PrsStay(s);
      assert Run(Next(s, RequestCancel), []).prs != {};
    } else {
      var before := QueuedWithPr(row.epoch - 1);
      ReachableNext(before, Claim(0));
      ClaimKeepsPrs(before);
      var s := Next(before, Claim(0));
      PrsStay(s);
      assert Run(Next(s, RequestCancel), []).prs != {};
    }
  }

  lemma PrsStay(s: System)
    ensures Next(s, RequestCancel).prs == s.prs
  {
  }

  lemma ClaimKeepsPrs(s: System)
    requires s.row.Some? && s.row.value.status == Queued && PointOf(s, 0) == Idle
    ensures Next(s, Claim(0)).prs == s.prs
    ensures Next(s, Claim(0)).row == Some(Row(Claimed, s.row.value.epoch + 1, s.row.value.attempts + 1))
  {
  }
}
