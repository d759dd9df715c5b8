/** Session lifetime: the sliding refresh of the `me` endpoint, the absolute cap, and the expiry sweep. */
module Sessions {
  import opened Text
  import opened Accounts
  import opened AuthRepo

  const SESSION_TTL: real := 604800.0
  const SESSION_REFRESH_AFTER: real := 86400.0
  const SIX_DAYS: real := 518400.0

  /** The three moments of one call of the `me` endpoint: its read, its own look at the clock, and its touch. */
  datatype Visit = Visit(read: real, clock: real, touch: real)

  /** What one call of the `me` endpoint does to its session, if nothing comes between. */
  function Met(s: Session, v: Visit): Session {
    if Live(s, v.read) && v.clock - s.lastSeen > SESSION_REFRESH_AFTER then Touched(s, SESSION_TTL, v.touch) else s
  }

  datatype CookieChange = Keep | Clear | Reissue
  datatype MeReply = MeReply(user: Option<Profile>, provider: Option<string>, cookie: CookieChange)

  class AuthHandler {
    const repo: PgAuthRepository

    constructor (repo: PgAuthRepository)
      ensures this.repo == repo
    {
      this.repo := repo;
    }

    /** `sid` is the session cookie; a missing and an empty one are the same. */
    method HandleMe(sid: Option<Token>, v: Visit) returns (reply: MeReply)
      requires repo.Valid()
      modifies repo`sessions
      ensures repo.Valid()
      ensures sid.None? || sid.value == "" ==> reply == MeReply(None, None, Keep) && repo.sessions == old(repo.sessions)
      ensures sid.Some? && sid.value != "" ==>
                var id, rows := sid.value, old(repo.sessions);
                if !(id in rows && rows[id].expires > v.read && rows[id].created + 2592000.0 > v.read)
                then reply == MeReply(None, None, Clear) && repo.sessions == rows
                else
                  var was := rows[id];
                  && reply.user == Some(repo.db.users[was.user])
                  && (exists a: Account :: IsIdentity(repo.db, a, was.user) && reply.provider == Some(a.0))
                  && if v.clock - was.lastSeen <= 86400.0 then reply.cookie == Keep && repo.sessions == rows
                     else
                       var (slid, cap) := (v.touch + 604800.0, was.created + 2592000.0);
                       && reply.cookie == Reissue
                       && repo.sessions == rows[id := Session(was.user, was.created, if slid < cap then slid else cap, v.touch)]
      ensures sid.Some? && sid.value != "" && Visible(old(repo.Contents()), sid.value, v.read).Some? ==>
                repo.sessions == old(repo.sessions)[sid.value := Met(old(repo.sessions)[sid.value], v)]
    {
      hide Intact, IsIdentity;
      if sid.None? || sid.value == "" {
        return MeReply(None, None, Keep);
      }
      var session, user, provider := repo.GetSession(sid.value, v.read);
      if session.None? {
        return MeReply(None, None, Clear);
      }
      reply := MeReply(user, provider, Keep);
      if v.clock - session.value.lastSeen > SESSION_REFRESH_AFTER {
        repo.TouchSession(sid.value, SESSION_TTL, v.touch);
        reply := MeReply(user, provider, Reissue);
      }
    }

    method HandleLogout(sid: Option<Token>)
      requires repo.Valid()
      modifies repo`sessions
      ensures repo.Valid()
      ensures forall t: Token, now: real :: Visible(repo.Contents(), t, now)
                == if sid == Some(t) && t != "" then None else Visible(old(repo.Contents()), t, now)
    {
      if sid.Some? && sid.value != "" {
        repo.DeleteSession(sid.value);
      }
    }
  }

  // ---------------------------------------------------------------- lifetime

  /** expires_at as a function of the two other times. */
  predicate Sliding(s: Session) {
    s.expires == Min(s.lastSeen + SESSION_TTL, s.created + SESSION_ABSOLUTE_MAX)
  }

  /** The calls of one user, one after another, each read less than d after the one before. */
  predicate Spaced(prev: Visit, visits: seq<Visit>, d: real)
    decreases |visits|
  {
    visits == []
    || var v := visits[0];
       && 0.0 <= v.read - prev.read < d && prev.touch <= v.read
       && v.read <= v.clock && v.read <= v.touch
       && Spaced(v, visits[1..], d)
  }

  /** Every call before the absolute cap finds the session live. */
  predicate StaysIn(s: Session, visits: seq<Visit>)
    decreases |visits|
  {
    visits == []
    || var v := visits[0];
       (v.read < s.created + SESSION_ABSOLUTE_MAX ==> Live(s, v.read)) && StaysIn(Met(s, v), visits[1..])
  }

  /** A user who logs in at `start` and makes these calls is signed in at each of them before the cap. */
  predicate StaysSignedIn(user: UserId, start: real, visits: seq<Visit>) {
    StaysIn(NewSession(user, SESSION_TTL, start), visits)
  }

  function Login(start: real): Visit { Visit(start, start, start) }

  /** `prev` is the last call, or the login. */
  lemma ActiveStaysIn(s: Session, prev: Visit, visits: seq<Visit>, d: real)
    requires d <= SIX_DAYS && Spaced(prev, visits, d) && Sliding(s)
    requires prev.read - s.lastSeen <= SESSION_REFRESH_AFTER || prev.read >= s.created + SESSION_ABSOLUTE_MAX
    ensures StaysIn(s, visits)
    decreases |visits|
  {
    if visits != [] {
      ActiveStaysIn(Met(s, visits[0]), visits[0], visits[1..], d);
    }
  }

  /** Calls less than d apart keep every user signed in up to the cap exactly when d is at most six days:
      the seven days run from the last refresh, which may lie a day before the last call. */
  lemma SixDaysExactly(d: real)
    ensures d <= 6.0 * 86400.0 <==>
            forall user, start, visits :: Spaced(Login(start), visits, d) ==> StaysSignedIn(user, start, visits)
  {
    if d <= SIX_DAYS {
      forall user, start, visits | Spaced(Login(start), visits, d) ensures StaysSignedIn(user, start, visits) {
        ActiveStaysIn(NewSession(user, SESSION_TTL, start), Login(start), visits, d);
      }
    } else {
      var s, first, second := NewSession("u", SESSION_TTL, 0.0), Login(SESSION_REFRESH_AFTER), Login(SESSION_TTL);
      var visits := [first, second];
      assert Spaced(first, visits[1..], d) by {
        assert visits[1..] == [second] && |[second][1..]| == 0;
      }
      assert Spaced(Login(0.0), visits, d);
      assert Met(s, first) == s && !Live(s, second.read);
      assert !StaysIn(s, visits[1..]) by {
        assert visits[1..][0] == second;
      }
      assert !StaysSignedIn("u", 0.0, visits);
    }
  }

  // ---------------------------------------------------------------- whole runs of the repository

  type Timeline = seq<(real, Op)>

  function Run(s: Store, timeline: Timeline): Store
    decreases |timeline|
  {
    if timeline == [] then s else Run(Apply(s, timeline[0].1, timeline[0].0).0, timeline[1..])
  }

  /** The answers, in order; a sweep answers nobody. */
  function Replies(s: Store, timeline: Timeline): seq<Reply>
    decreases |timeline|
  {
    if timeline == [] then []
    else
      var (s', reply) := Apply(s, timeline[0].1, timeline[0].0);
      (if timeline[0].1.Sweep? then [] else [reply]) + Replies(s', timeline[1..])
  }

  predicate SlidingOp(op: Op) {
    match op
    case CreateSession(_, _, ttl) => ttl == SESSION_TTL
    case Touch(_, ttl) => ttl == SESSION_TTL
    case _ => true
  }

  predicate AllSliding(s: Store) { forall k :: k in s.sessions ==> Sliding(s.sessions[k]) }

  /** With the one time-to-live that callers use, every session row of every run obeys the invariant. */
  lemma {:induction false} SlidingRun(s: Store, timeline: Timeline)
    requires AllSliding(s) && forall i :: 0 <= i < |timeline| ==> SlidingOp(timeline[i].1)
    ensures AllSliding(Run(s, timeline))
    decreases |timeline|
  {
    if timeline != [] {
      SlidingRun(Apply(s, timeline[0].1, timeline[0].0).0, timeline[1..]);
    }
  }

  predicate Created(s: Store, id: Token, created: real) { id in s.sessions ==> s.sessions[id].created == created }

  /** No sequence of touches, of any length and at any times, shows a session at or past its cap. */
  lemma {:induction false} CapIsAbsolute(s: Store, timeline: Timeline, id: Token, created: real, now: real)
    requires Created(s, id, created)
    requires forall i :: 0 <= i < |timeline| ==> !(timeline[i].1.CreateSession? && timeline[i].1.id == id)
    ensures now >= created + 30.0 * 86400.0 ==> Visible(Run(s, timeline), id, now).None?
    decreases |timeline|
  {
    if timeline != [] {
      var op := timeline[0].1;
      assert !(op.CreateSession? && op.id == id);
      CapIsAbsolute(Apply(s, op, timeline[0].0).0, timeline[1..], id, created, now);
    }
  }

  // ---------------------------------------------------------------- the sweep

  function NoSweeps(timeline: Timeline): Timeline {
    if timeline == [] then []
    else (if timeline[0].1.Sweep? then [] else [timeline[0]]) + NoSweeps(timeline[1..])
  }

  predicate Ordered(timeline: Timeline, now: real) {
    timeline == [] || (now <= timeline[0].0 && Ordered(timeline[1..], timeline[0].0))
  }

  /** Random tokens do not repeat. */
  predicate FreshTokens(timeline: Timeline, issued: set<Token>)
    decreases |timeline|
  {
    timeline == []
    || match timeline[0].1
       case CreateState(k, _) => k !in issued && FreshTokens(timeline[1..], issued + {k})
       case CreateSession(k, _, _) => k !in issued && FreshTokens(timeline[1..], issued + {k})
       case _ => FreshTokens(timeline[1..], issued)
  }

  /** The touch gives new life to a session that had already expired. */
  predicate Revives(s: Store, id: Token, ttl: real, now: real) {
    id in s.sessions && s.sessions[id].expires <= now && Touched(s.sessions[id], ttl, now).expires > now
  }

  /** No touch of the run, taken without its sweeps, revives a session. */
  predicate Careful(s: Store, timeline: Timeline)
    decreases |timeline|
  {
    timeline == []
    || var (t, op) := timeline[0];
       if op.Sweep? then Careful(s, timeline[1..])
       else !(op.Touch? && Revives(s, op.id, op.ttl, t)) && Careful(Apply(s, op, t).0, timeline[1..])
  }

  /** `b` lacks only rows of `a` that have expired. */
  ghost predicate Trails(a: Store, b: Store, now: real) {
    && (forall k :: k in b.states ==> k in a.states && a.states[k] == b.states[k])
    && (forall k :: k in a.states && k !in b.states ==> a.states[k].expires <= now)
    && (forall k :: k in b.sessions ==> k in a.sessions && a.sessions[k] == b.sessions[k])
    && (forall k :: k in a.sessions && k !in b.sessions ==> a.sessions[k].expires <= now)
  }

  lemma SweepTrails(a: Store, b: Store, now: real, t: real)
    requires Trails(a, b, now) && now <= t
    ensures Trails(a, Apply(b, Sweep, t).0, t)
  {
  }

  ghost predicate Unused(op: Op, s: Store) {
    match op
    case CreateState(k, _) => k !in s.states
    case CreateSession(k, _, _) => k !in s.sessions
    case _ => true
  }

  lemma StepTrails(a: Store, b: Store, now: real, t: real, op: Op)
    requires Trails(a, b, now) && now <= t && !op.Sweep? && Unused(op, a)
    requires !(op.Touch? && Revives(a, op.id, op.ttl, t))
    ensures Apply(a, op, t).1 == Apply(b, op, t).1
    ensures Trails(Apply(a, op, t).0, Apply(b, op, t).0, t)
  {
  }

  /** Sweeping is invisible: wherever deleteExpired runs, and however often, no answer changes. */
  lemma {:induction false} SweepInvisible(a: Store, b: Store, timeline: Timeline, now: real, issued: set<Token>)
    requires Trails(a, b, now) && Ordered(timeline, now) && Careful(a, timeline)
    requires a.states.Keys + a.sessions.Keys <= issued && FreshTokens(timeline, issued)
    ensures Replies(b, timeline) == Replies(a, NoSweeps(timeline))
    decreases |timeline|
  {
    hide Trails, Revives;
    if timeline != [] {
      var (t, op) := timeline[0];
      if op.Sweep? {
        SweepTrails(a, b, now, t);
        SweepInvisible(a, Apply(b, op, t).0, timeline[1..], t, issued);
        assert NoSweeps(timeline) == NoSweeps(timeline[1..]);
        assert Replies(b, timeline) == Replies(Apply(b, op, t).0, timeline[1..]);
      } else {
        StepTrails(a, b, now, t, op);
        var used := if op.CreateState? then {op.state} else if op.CreateSession? then {op.id} else {};
        assert FreshTokens(timeline[1..], issued + used) by {
          assert issued + {} == issued;
        }
        SweepInvisible(Apply(a, op, t).0, Apply(b, op, t).0, timeline[1..], t, issued + used);
        assert NoSweeps(timeline)[1..] == NoSweeps(timeline[1..]);
      }
    }
  }

  /** touchSession has no liveness test of its own. A sweep just before a touch is seen by some later read
      exactly when the touch revives a dead session. */
  lemma RevivalIsVisible(s: Store, id: Token, ttl: real, now: real)
    ensures Revives(s, id, ttl, now) <==>
            exists later :: later >= now &&
              Visible(Apply(Apply(s, Sweep, now).0, Touch(id, ttl), now).0, id, later)
              != Visible(Apply(s, Touch(id, ttl), now).0, id, later)
  {
    var swept, kept := Apply(Apply(s, Sweep, now).0, Touch(id, ttl), now).0, Apply(s, Touch(id, ttl), now).0;
    if Revives(s, id, ttl, now) {
      assert Visible(swept, id, now).None? && Visible(kept, id, now).Some?;
    } else {
      forall later | later >= now ensures Visible(swept, id, later) == Visible(kept, id, later) {
      }
    }
  }

  // ---------------------------------------------------------------- the traffic of the handlers

  type Pid = nat

  /** A call of `me` that has read its session and is going to touch it: what it read, when other calls last
      touched the session since, and whether the session was logged out since. */
  datatype Read = Read(id: Token, expires: real, born: real, moved: Option<real>, gone: bool)

  datatype Traffic = Traffic(store: Store, pending: map<Pid, Read>)

  /** The statements of the handlers and the sweep. A call of `me` reads (and looks at its clock), and later
      touches; anything may happen between. */
  datatype Event =
    | Begin(state: Token, row: OAuthState)
    | Callback(state: Token)
    | LoggedIn(id: Token, user: UserId)
    | Logout(id: Token)
    | Sweeps
    | MeReads(pid: Pid, id: Token, clock: real)
    | MeTouches(pid: Pid)

  /** The statement of an event; None where the call is not there yet or already past it. */
  function OpOf(t: Traffic, e: Event): Option<Op> {
    match e
    case Begin(state, row) => Some(CreateState(state, row))
    case Callback(state) => Some(Consume(state))
    case LoggedIn(id, user) => Some(CreateSession(id, user, SESSION_TTL))
    case Logout(id) => Some(Delete(id))
    case Sweeps => Some(Sweep)
    case MeReads(pid, id, _) => if pid in t.pending then None else Some(Get(id))
    case MeTouches(pid) => if pid in t.pending then Some(Touch(t.pending[pid].id, SESSION_TTL)) else None
  }

  function Marked(pending: map<Pid, Read>, id: Token, f: Read -> Read): map<Pid, Read> {
    map p | p in pending :: if pending[p].id == id then f(pending[p]) else pending[p]
  }

  function ReadsAfter(t: Traffic, e: Event, now: real): map<Pid, Read> {
    match e
    case Logout(id) => Marked(t.pending, id, (r: Read) => r.(gone := true))
    case MeReads(pid, id, clock) =>
      var s := Visible(t.store, id, now);
      if pid !in t.pending && s.Some? && clock - s.value.lastSeen > SESSION_REFRESH_AFTER
      then t.pending[pid := Read(id, s.value.expires, s.value.created, None, false)]
      else t.pending
    case MeTouches(pid) =>
      if pid in t.pending then Marked(t.pending - {pid}, t.pending[pid].id, (r: Read) => r.(moved := Some(now))) else t.pending
    case _ => t.pending
  }

  function Step(t: Traffic, e: Event, now: real): Traffic {
    var op := OpOf(t, e);
    Traffic(if op.Some? then Apply(t.store, op.value, now).0 else t.store, ReadsAfter(t, e, now))
  }

  /** The repository operations of the events, with their times. */
  function Ops(t: Traffic, events: seq<(real, Event)>): Timeline
    decreases |events|
  {
    if events == [] then []
    else
      var (now, e) := events[0];
      var op := OpOf(t, e);
      (if op.Some? then [(now, op.value)] else []) + Ops(Step(t, e, now), events[1..])
  }

  /** The touch comes at or after the expiry its call has read - or the one that another call has set since -
      and before the cap, of a session that was not logged out. */
  predicate Late(r: Read, now: real) {
    && !r.gone
    && (if r.moved.None? then r.expires else r.moved.value + SESSION_TTL) <= now < r.born + SESSION_ABSOLUTE_MAX
  }

  predicate Timely(t: Traffic, events: seq<(real, Event)>)
    decreases |events|
  {
    events == []
    || var (now, e) := events[0];
       && !(e.MeTouches? && e.pid in t.pending && Late(t.pending[e.pid], now))
       && Timely(Step(t, e, now), events[1..])
  }

  /** What a pending touch knows of the tables as they would be without any sweep. */
  predicate Known(a: Store, r: Read) {
    if r.gone then r.id !in a.sessions
    else
      && r.id in a.sessions && a.sessions[r.id].created == r.born
      && a.sessions[r.id].expires
         == if r.moved.None? then r.expires else Min(r.moved.value + SESSION_TTL, r.born + SESSION_ABSOLUTE_MAX)
  }

  ghost predicate AllKnown(a: Store, pending: map<Pid, Read>) {
    forall p :: p in pending ==> Known(a, pending[p])
  }

  predicate AllIssued(pending: map<Pid, Read>, issued: set<Token>) {
    forall p :: p in pending ==> pending[p].id in issued
  }

  lemma LateRevives(a: Store, r: Read, now: real)
    requires Known(a, r)
    ensures Late(r, now) <==> Revives(a, r.id, SESSION_TTL, now)
  {
  }

  /** Statements that write no session a pending touch knows. */
  lemma OtherKnown(a: Store, op: Op, now: real, pending: map<Pid, Read>, issued: set<Token>)
    requires AllKnown(a, pending) && AllIssued(pending, issued)
    requires op.CreateState? || op.Consume? || op.Get? || (op.CreateSession? && op.id !in issued)
    ensures AllKnown(Apply(a, op, now).0, pending)
  {
  }

  lemma LogoutKnown(a: Store, t: Traffic, id: Token, now: real)
    requires AllKnown(a, t.pending)
    ensures AllKnown(Apply(a, Delete(id), now).0, ReadsAfter(t, Logout(id), now))
  {
  }

  lemma TouchKnown(a: Store, t: Traffic, pid: Pid, now: real)
    requires AllKnown(a, t.pending) && pid in t.pending
    ensures AllKnown(Apply(a, Touch(t.pending[pid].id, SESSION_TTL), now).0, ReadsAfter(t, MeTouches(pid), now))
  {
  }

  lemma ReadKnown(a: Store, t: Traffic, e: Event, was: real, now: real)
    requires Trails(a, t.store, was) && AllKnown(a, t.pending) && e.MeReads?
    ensures AllKnown(a, ReadsAfter(t, e, now))
    ensures a.sessions.Keys >= t.store.sessions.Keys
  {
  }

  lemma StepKnown(a: Store, t: Traffic, e: Event, was: real, now: real, issued: set<Token>)
    requires Trails(a, t.store, was) && AllKnown(a, t.pending) && AllIssued(t.pending, issued) && a.sessions.Keys <= issued
    requires OpOf(t, e).Some? && !e.Sweeps? && (e.LoggedIn? ==> e.id !in issued)
    ensures AllKnown(Apply(a, OpOf(t, e).value, now).0, ReadsAfter(t, e, now))
    ensures AllIssued(ReadsAfter(t, e, now), issued)
  {
    StepIssued(a, t, e, was, now, issued);
    hide Trails, Known, AllKnown, AllIssued;
    match e
    case Logout(id) => LogoutKnown(a, t, id, now);
    case MeReads(_, _, _) => ReadKnown(a, t, e, was, now);
    case MeTouches(pid) => TouchKnown(a, t, pid, now);
    case Begin(state, row) => OtherKnown(a, CreateState(state, row), now, t.pending, issued);
    case Callback(state) => OtherKnown(a, Consume(state), now, t.pending, issued);
    case LoggedIn(id, user) => OtherKnown(a, CreateSession(id, user, SESSION_TTL), now, t.pending, issued);
    case Sweeps =>
  }

  lemma StepIssued(a: Store, t: Traffic, e: Event, was: real, now: real, issued: set<Token>)
    requires Trails(a, t.store, was) && AllIssued(t.pending, issued) && a.sessions.Keys <= issued
    ensures AllIssued(ReadsAfter(t, e, now), issued)
  {
  }

  /** The handlers' traffic is careful exactly when no touch of it is late. `a` is what the tables would be
      without the sweeps among the events. */
  lemma {:induction false} CarefulExactly(a: Store, t: Traffic, events: seq<(real, Event)>, now: real, issued: set<Token>)
    requires Trails(a, t.store, now) && AllKnown(a, t.pending) && AllIssued(t.pending, issued)
    requires a.states.Keys + a.sessions.Keys <= issued
    requires Ordered(Ops(t, events), now) && FreshTokens(Ops(t, events), issued)
    ensures Careful(a, Ops(t, events)) <==> Timely(t, events)
    decreases |events|
  {
    hide Trails, Known, Revives, Late, Apply, ReadsAfter;
    if events != [] {
      var (at, e) := events[0];
      var rest := Ops(Step(t, e, at), events[1..]);
      var op := OpOf(t, e);
      if op.None? {
        NoOpStays(t, e, at);
        assert Ops(t, events) == rest;
        CarefulExactly(a, t, events[1..], now, issued);
      } else {
        var timeline := Ops(t, events);
        assert timeline == [(at, op.value)] + rest && timeline[1..] == rest;
        if e.Sweeps? {
          SweepTrails(a, t.store, now, at);
          ReadsStay(t, e, at);
          CarefulExactly(a, Step(t, e, at), events[1..], at, issued);
        } else {
          if e.MeTouches? {
            LateRevives(a, t.pending[e.pid], at);
          }
          if !(op.value.Touch? && Revives(a, op.value.id, op.value.ttl, at)) {
            StepTrails(a, t.store, now, at, op.value);
            StepKnown(a, t, e, now, at, issued);
            var used := if op.value.CreateState? then {op.value.state} else if op.value.CreateSession? then {op.value.id} else {};
            TokensGrow(a, op.value, at, issued, used, rest);
            CarefulExactly(Apply(a, op.value, at).0, Step(t, e, at), events[1..], at, issued + used);
          }
        }
      }
    }
  }

  lemma NoOpStays(t: Traffic, e: Event, now: real)
    requires OpOf(t, e).None?
    ensures Step(t, e, now) == t
  {
  }

  lemma ReadsStay(t: Traffic, e: Event, now: real)
    requires e.Sweeps?
    ensures ReadsAfter(t, e, now) == t.pending
  {
  }

  lemma TokensGrow(a: Store, op: Op, now: real, issued: set<Token>, used: set<Token>, rest: Timeline)
    requires a.states.Keys + a.sessions.Keys <= issued
    requires used == if op.CreateState? then {op.state} else if op.CreateSession? then {op.id} else {}
    requires FreshTokens([(now, op)] + rest, issued)
    ensures var s := Apply(a, op, now).0; s.states.Keys + s.sessions.Keys <= issued + used
    ensures FreshTokens(rest, issued + used)
  {
    assert ([(now, op)] + rest)[1..] == rest && issued + {} == issued;
  }

  /** For the handlers, then: sweeps at any moments, also between the read and the touch of a call, change no
      answer unless some touch is late. */
  lemma SweepUnseenByHandlers(s: Store, events: seq<(real, Event)>, now: real)
    requires var ops := Ops(Traffic(s, map[]), events);
             Ordered(ops, now) && FreshTokens(ops, s.states.Keys + s.sessions.Keys)
    requires Timely(Traffic(s, map[]), events)
    ensures var ops := Ops(Traffic(s, map[]), events);
            Replies(s, ops) == Replies(s, NoSweeps(ops))
  {
    hide Ops, Timely, Ordered, FreshTokens, Careful, Replies, NoSweeps;
    var issued := s.states.Keys + s.sessions.Keys;
    CarefulExactly(s, Traffic(s, map[]), events, now, issued);
    SweepInvisible(s, s, Ops(Traffic(s, map[]), events), now, issued);
  }

  const EMPTY: Store := Store(map[], map[])

  /** A login, a call of `me` that reads a second before the expiry and touches at the expiry, and a second call. */
  function LateVisit(user: UserId, sweep: bool): seq<(real, Event)> {
    var middle := if sweep then [(604800.0, Sweeps)] else [];
    [(0.0, LoggedIn("s", user)), (604799.0, MeReads(0, "s", 604799.0))] + middle
    + [(604800.0, MeTouches(0)), (604800.0, MeReads(1, "s", 604800.0))]
  }

  /** The statements of those events. */
  function LateTimeline(user: UserId, sweep: bool): Timeline {
    var middle := if sweep then [(604800.0, Sweep)] else [];
    [(0.0, CreateSession("s", user, SESSION_TTL)), (604799.0, Get("s"))] + middle
    + [(604800.0, Touch("s", SESSION_TTL)), (604800.0, Get("s"))]
  }

  lemma OneEvent(t: Traffic, now: real, e: Event, rest: seq<(real, Event)>)
    ensures var op := OpOf(t, e);
            Ops(t, [(now, e)] + rest) == (if op.Some? then [(now, op.value)] else []) + Ops(Step(t, e, now), rest)
    ensures Timely(t, [(now, e)] + rest) <==>
            !(e.MeTouches? && e.pid in t.pending && Late(t.pending[e.pid], now)) && Timely(Step(t, e, now), rest)
  {
    hide OpOf, Step, Late;
    assert ([(now, e)] + rest)[1..] == rest;
  }

  lemma OneReply(s: Store, now: real, op: Op, rest: Timeline)
    ensures var (s', reply) := Apply(s, op, now);
            Replies(s, [(now, op)] + rest) == (if op.Sweep? then [] else [reply]) + Replies(s', rest)
  {
    hide Apply;
    assert ([(now, op)] + rest)[1..] == rest;
  }

  /** The session of that user at login, and slid by the late touch. */
  function AtLogin(user: UserId): Session { Session(user, 0.0, 604800.0, 0.0) }

  function Slid(user: UserId): Session { Session(user, 0.0, 1209600.0, 604800.0) }

  lemma LateOps(user: UserId, sweep: bool)
    ensures Ops(Traffic(EMPTY, map[]), LateVisit(user, sweep)) == LateTimeline(user, sweep)
    ensures !sweep ==> !Timely(Traffic(EMPTY, map[]), LateVisit(user, sweep))
  {
    hide Ops, Timely;
    var read := Read("s", 604800.0, 0.0, None, false);
    var store := Store(map[], map["s" := AtLogin(user)]);
    var t0, t1, t2 := Traffic(EMPTY, map[]), Traffic(store, map[]), Traffic(store, map[0 := read]);
    var last := [(604800.0, MeReads(1, "s", 604800.0))];
    var touch := [(604800.0, MeTouches(0))] + last;
    var middle := (if sweep then [(604800.0, Sweeps)] else []) + touch;
    OneEvent(t0, 0.0, LoggedIn("s", user), [(604799.0, MeReads(0, "s", 604799.0))] + middle);
    assert Step(t0, LoggedIn("s", user), 0.0) == t1;
    OneEvent(t1, 604799.0, MeReads(0, "s", 604799.0), middle);
    assert Step(t1, MeReads(0, "s", 604799.0), 604799.0) == t2;
    OneEvent(t2, 604800.0, Sweeps, touch);
    var t3 := if sweep then Step(t2, Sweeps, 604800.0) else t2;
    assert t3.pending == map[0 := read];
    assert if sweep then middle == [(604800.0, Sweeps)] + touch else middle == touch;
    assert Ops(t2, middle) == (if sweep then [(604800.0, Sweep)] else []) + Ops(t3, touch);
    assert Timely(t2, middle) ==> Timely(t3, touch);
    assert Late(read, 604800.0);
    OneEvent(t3, 604800.0, MeTouches(0), last);
    var t4 := Step(t3, MeTouches(0), 604800.0);
    assert 1 !in t4.pending;
    OneEvent(t4, 604800.0, MeReads(1, "s", 604800.0), []);
    assert last == [(604800.0, MeReads(1, "s", 604800.0))] + [];
    NothingLeft(Step(t4, MeReads(1, "s", 604800.0), 604800.0));
    assert LateVisit(user, sweep) == [(0.0, LoggedIn("s", user))] + ([(604799.0, MeReads(0, "s", 604799.0))] + middle);
  }

  lemma NothingLeft(t: Traffic)
    ensures Ops(t, []) == [] && Timely(t, [])
  {
  }

  lemma LateReplies(user: UserId, sweep: bool)
    ensures Replies(EMPTY, LateTimeline(user, sweep))
            == [Nothing, GotSession(Some(AtLogin(user))), Nothing, GotSession(if sweep then None else Some(Slid(user)))]
  {
    hide Replies;
    var store := Store(map[], map["s" := AtLogin(user)]);
    var last := [(604800.0, Get("s"))];
    var touch := [(604800.0, Touch("s", SESSION_TTL))] + last;
    var middle := (if sweep then [(604800.0, Sweep)] else []) + touch;
    OneReply(EMPTY, 0.0, CreateSession("s", user, SESSION_TTL), [(604799.0, Get("s"))] + middle);
    assert Apply(EMPTY, CreateSession("s", user, SESSION_TTL), 0.0).0 == store;
    OneReply(store, 604799.0, Get("s"), middle);
    OneReply(store, 604800.0, Sweep, touch);
    var swept := if sweep then EMPTY else store;
    assert sweep ==> Apply(store, Sweep, 604800.0).0 == EMPTY;
    assert if sweep then middle == [(604800.0, Sweep)] + touch else middle == touch;
    assert Replies(store, middle) == Replies(swept, touch);
    OneReply(swept, 604800.0, Touch("s", SESSION_TTL), last);
    var touched := Apply(swept, Touch("s", SESSION_TTL), 604800.0).0;
    assert touched == if sweep then EMPTY else Store(map[], map["s" := Slid(user)]);
    OneReply(touched, 604800.0, Get("s"), []);
    assert last == [(604800.0, Get("s"))] + [];
    NoReplies(touched);
    assert LateTimeline(user, sweep)
           == [(0.0, CreateSession("s", user, SESSION_TTL))] + ([(604799.0, Get("s"))] + middle);
  }

  lemma NoReplies(s: Store)
    ensures Replies(s, []) == []
  {
  }

  /** The handlers themselves can revive a session: a call reads a second before the expiry and touches at it.
      The next call finds the session, unless a sweep came between the read and the touch. */
  lemma LateTouchRevives(user: UserId)
    ensures forall sweep ::
              Replies(EMPTY, Ops(Traffic(EMPTY, map[]), LateVisit(user, sweep)))
              == [Nothing, GotSession(Some(AtLogin(user))), Nothing, GotSession(if sweep then None else Some(Slid(user)))]
    ensures !Timely(Traffic(EMPTY, map[]), LateVisit(user, false))
  {
    hide Replies, Ops, Timely;
    forall sweep: bool
      ensures Replies(EMPTY, Ops(Traffic(EMPTY, map[]), LateVisit(user, sweep)))
              == [Nothing, GotSession(Some(AtLogin(user))), Nothing, GotSession(if sweep then None else Some(Slid(user)))]
    {
      LateOps(user, sweep);
      LateReplies(user, sweep);
    }
    LateOps(user, false);
  }
}
