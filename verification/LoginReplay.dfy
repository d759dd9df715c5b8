/** Any number of logins in flight at once: begins, callbacks, replays and sweeps, interleaved statement by statement. */
module LoginReplay {
  import opened Text
  import AuthRepo
  import opened LoginFlow

  type Token = AuthRepo.Token
  type OAuthState = AuthRepo.OAuthState
  type Provider = AuthRepo.Provider
  type UserId = string
  type Pid = nat

  /** Where a callback is; a consumed state is remembered with the time of its consumption. */
  datatype Point =
    | Arrived
    | Consumed(at: real)
    | Cleared(at: real, user: UserId)
    | Finished(result: LoginResult)

  datatype Proc = Proc(provider: Provider, callback: Callback, point: Point)
  datatype Grant = Grant(pid: Pid, at: real, user: UserId)

  /** `states` is the table; `issued` and `minted` remember every state ever issued and every session ever minted. */
  datatype System = System(states: map<Token, OAuthState>, issued: map<Token, OAuthState>, procs: map<Pid, Proc>, minted: map<Token, Grant>)

  /** What the provider, the user tables and the login hook make of a callback that holds its state. */
  datatype World = Passes(user: UserId) | Fails(result: LoginResult)

  datatype Action =
    | Begin(state: Token, row: OAuthState)
    | Arrive(pid: Pid, provider: Provider, callback: Callback)
    | Consume(pid: Pid, now: real)
    | Work(pid: Pid, world: World)
    | Mint(pid: Pid, token: Token)
    | SweepStates(now: real)

  function At(s: System, pid: Pid, point: Point): System
    requires pid in s.procs
  {
    s.(procs := s.procs[pid := s.procs[pid].(point := point)])
  }

  function Next(s: System, a: Action): System {
    match a
    case Begin(state, row) =>
      if state in s.issued then s else s.(states := s.states[state := row], issued := s.issued[state := row])
    case Arrive(pid, provider, callback) =>
      if pid in s.procs then s else s.(procs := s.procs[pid := Proc(provider, callback, Arrived)])
    case Consume(pid, now) =>
      if pid !in s.procs || !s.procs[pid].point.Arrived? then s
      else
        var p := s.procs[pid];
        var row := AuthRepo.Consumable(AuthRepo.Store(s.states, map[]), p.callback.state, now);
        if Gate(p.callback).Some? then At(s, pid, Finished(Refused(Gate(p.callback).value)))
        else if row.None? then At(s, pid, Finished(Refused(StateMismatch)))
        else
          var burnt := s.(states := s.states - {p.callback.state});
          At(burnt, pid, if row.value.provider == p.provider then Consumed(now) else Finished(Refused(StateMismatch)))
    case Work(pid, world) =>
      if pid !in s.procs || !s.procs[pid].point.Consumed? || (world.Fails? && world.result.Ok?) then s
      else At(s, pid, if world.Passes? then Cleared(s.procs[pid].point.at, world.user) else Finished(world.result))
    case Mint(pid, token) =>
      if pid !in s.procs || !s.procs[pid].point.Cleared? || token in s.minted then s
      else
        var p := s.procs[pid].point;
        At(s.(minted := s.minted[token := Grant(pid, p.at, p.user)]), pid, Finished(Ok(token)))
    case SweepStates(now) => s.(states := s.states - AuthRepo.ExpiredStates(AuthRepo.Store(s.states, map[]), now))
  }

  function Run(s: System, actions: seq<Action>): System
    decreases |actions|
  {
    if actions == [] then s else Run(Next(s, actions[0]), actions[1..])
  }

  /** This callback has had its state: it passed every check, at that time, and the state is gone. */
  predicate Had(s: System, p: Proc, at: real) {
    && p.callback.code != "" && p.callback.error == ""
    && p.callback.state == p.callback.cookie
    && p.callback.state in s.issued && p.callback.state !in s.states
    && s.issued[p.callback.state].provider == p.provider
    && at < s.issued[p.callback.state].expires
  }

  predicate Holds(p: Proc) { p.point.Consumed? || p.point.Cleared? || (p.point.Finished? && p.point.result.Ok?) }

  ghost predicate ProcSound(s: System, pid: Pid)
    requires pid in s.procs
  {
    var p := s.procs[pid];
    && (p.point.Consumed? || p.point.Cleared? ==> Had(s, p, p.point.at))
    && (p.point.Finished? && p.point.result.Ok? ==>
          && p.point.result.session in s.minted && s.minted[p.point.result.session].pid == pid
          && Had(s, p, s.minted[p.point.result.session].at))
  }

  ghost predicate Subtable(s: System) {
    forall k :: k in s.states ==> k in s.issued && s.states[k] == s.issued[k]
  }

  ghost predicate Inv(s: System) {
    && Subtable(s)
    && (forall pid :: pid in s.procs ==> ProcSound(s, pid))
    && (forall p, q :: p in s.procs && q in s.procs && p != q && Holds(s.procs[p]) && Holds(s.procs[q]) ==>
          s.procs[p].callback.state != s.procs[q].callback.state)
    && (forall t :: t in s.minted ==> MintedBy(s, t))
  }

  ghost predicate MintedBy(s: System, t: Token)
    requires t in s.minted
  {
    s.minted[t].pid in s.procs && s.procs[s.minted[t].pid].point == Finished(Ok(t))
  }

  /** What a step may do: states are issued once and never come back, callbacks and grants stay. */
  ghost predicate Extends(s: System, s': System) {
    && (forall k :: k in s.issued ==> k in s'.issued && s'.issued[k] == s.issued[k] && (k !in s.states ==> k !in s'.states))
    && Subtable(s')
    && (forall t :: t in s.minted ==> t in s'.minted && s'.minted[t] == s.minted[t])
  }

  function Actor(a: Action): Option<Pid> {
    match a
    case Begin(_, _) => None
    case SweepStates(_) => None
    case Arrive(pid, _, _) => Some(pid)
    case Consume(pid, _) => Some(pid)
    case Work(pid, _) => Some(pid)
    case Mint(pid, _) => Some(pid)
  }

  lemma StepExtends(s: System, a: Action)
    requires Subtable(s)
    ensures Extends(s, Next(s, a))
  {
    hide Next, Extends;
    match a
    case Begin(state, row) => BeginExtends(s, state, row);
    case Consume(pid, now) => ConsumeExtends(s, pid, now);
    case _ => OtherExtends(s, a);
  }

  lemma BeginExtends(s: System, state: Token, row: OAuthState)
    requires Subtable(s)
    ensures Extends(s, Next(s, Begin(state, row)))
  {
  }

  lemma ConsumeExtends(s: System, pid: Pid, now: real)
    requires Subtable(s)
    ensures Extends(s, Next(s, Consume(pid, now)))
  {
    hide Gate, AuthRepo.Consumable;
  }

  lemma OtherExtends(s: System, a: Action)
    requires Subtable(s) && !a.Begin? && !a.Consume?
    ensures Extends(s, Next(s, a))
  {
  }

  lemma StepActs(s: System, a: Action)
    ensures forall p :: p in s.procs && Actor(a) != Some(p) ==> p in Next(s, a).procs && Next(s, a).procs[p] == s.procs[p]
    ensures forall p :: p in Next(s, a).procs && p !in s.procs ==> Actor(a) == Some(p)
    ensures forall t :: t in Next(s, a).minted && t !in s.minted ==> a.Mint? && a.token == t && a.pid in Next(s, a).procs
  {
    hide Gate, AuthRepo.Consumable, AuthRepo.ExpiredStates;
  }

  lemma OtherSound(s: System, s': System, pid: Pid)
    requires Extends(s, s') && pid in s.procs && pid in s'.procs && s'.procs[pid] == s.procs[pid] && ProcSound(s, pid)
    ensures ProcSound(s', pid)
  {
  }

  /** The acting callback stays sound; it comes to hold a state only by taking it out of the table. */
  lemma ActorSound(s: System, a: Action)
    requires Inv(s) && Actor(a).Some? && Actor(a).value in Next(s, a).procs
    ensures var pid := Actor(a).value;
            && ProcSound(Next(s, a), pid)
            && (pid in s.procs ==> Next(s, a).procs[pid].callback == s.procs[pid].callback)
            && (Holds(Next(s, a).procs[pid]) ==>
                  pid in s.procs && (Holds(s.procs[pid]) || s.procs[pid].callback.state in s.states))
    ensures a.Mint? && a.token in Next(s, a).minted && a.token !in s.minted ==> MintedBy(Next(s, a), a.token)
  {
    if Actor(a).value in s.procs {
      OneSound(s, Actor(a).value);
    }
    match a
    case Consume(pid, now) => ConsumerSound(s, pid, now);
    case _ => hide Had, Gate; WorkerSound(s, a);
  }

  lemma OneSound(s: System, pid: Pid)
    requires Inv(s) && pid in s.procs
    ensures ProcSound(s, pid)
    ensures Subtable(s)
  {
  }

  lemma ConsumerSound(s: System, pid: Pid, now: real)
    requires pid in s.procs ==> ProcSound(s, pid)
    requires Subtable(s)
    ensures var s' := Next(s, Consume(pid, now));
            pid in s.procs ==>
              && ProcSound(s', pid) && s'.procs[pid].callback == s.procs[pid].callback
              && (Holds(s'.procs[pid]) ==> Holds(s.procs[pid]) || s.procs[pid].callback.state in s.states)
  {
  }

  lemma WorkerSound(s: System, a: Action)
    requires !a.Consume? && Actor(a).Some? && Actor(a).value in Next(s, a).procs
    requires Actor(a).value in s.procs ==> ProcSound(s, Actor(a).value)
    ensures var pid := Actor(a).value;
            && ProcSound(Next(s, a), pid)
            && (pid in s.procs ==> Next(s, a).procs[pid].callback == s.procs[pid].callback)
            && (Holds(Next(s, a).procs[pid]) ==> pid in s.procs && Holds(s.procs[pid]))
    ensures a.Mint? && a.token in Next(s, a).minted && a.token !in s.minted ==> MintedBy(Next(s, a), a.token)
  {
    hide Gate;
  }

  lemma HolderTookIt(s: System, q: Pid)
    requires Inv(s) && q in s.procs && Holds(s.procs[q])
    ensures s.procs[q].callback.state in s.issued && s.procs[q].callback.state !in s.states
  {
    assert ProcSound(s, q);
  }

  lemma InvKept(s: System, a: Action)
    requires Inv(s)
    ensures Inv(Next(s, a))
  {
    hide Next, ProcSound, Holds;
    var s' := Next(s, a);
    StepExtends(s, a);
    StepActs(s, a);
    forall p | p in s'.procs ensures ProcSound(s', p) {
      if Actor(a) == Some(p) {
        ActorSound(s, a);
      } else {
        OtherSound(s, s', p);
      }
    }
    forall p, q | p in s'.procs && q in s'.procs && p != q && Holds(s'.procs[p]) && Holds(s'.procs[q])
      ensures s'.procs[p].callback.state != s'.procs[q].callback.state
    {
      if Actor(a) == Some(p) || Actor(a) == Some(q) {
        ActorSound(s, a);
        var other := if Actor(a) == Some(p) then q else p;
        HolderTookIt(s, other);
      }
    }
    forall t | t in s'.minted ensures MintedBy(s', t) {
      if t in s.minted {
        assert MintedBy(s, t);
        MintedStays(s, a, t);
      } else {
        ActorSound(s, a);
      }
    }
  }

  lemma MintedStays(s: System, a: Action, t: Token)
    requires t in s.minted && MintedBy(s, t)
    ensures t in Next(s, a).minted && MintedBy(Next(s, a), t)
  {
    hide Gate;
  }

  lemma RunInv(s: System, actions: seq<Action>)
    requires Inv(s)
    ensures Inv(Run(s, actions))
    decreases |actions|
  {
    hide Next, Inv;
    if actions != [] {
      InvKept(s, actions[0]);
      RunInv(Next(s, actions[0]), actions[1..]);
    }
  }

  /** The state a session was minted for. */
  function StateOf(s: System, t: Token): Token
    requires t in s.minted && s.minted[t].pid in s.procs
  {
    s.procs[s.minted[t].pid].callback.state
  }

  lemma MintedCount(s: System)
    requires Inv(s)
    ensures |s.minted| <= |s.issued|
  {
    hide Had, Holds, Gate, ProcSound;
    forall t | t in s.minted ensures MintedBy(s, t) && StateOf(s, t) in s.issued {
      MintedIsSound(s, t);
    }
    forall t, u | t in s.minted && u in s.minted && t != u ensures StateOf(s, t) != StateOf(s, u) {
      StatesDiffer(s, t, u);
    }
    var used := map t | t in s.minted :: StateOf(s, t);
    ImageSize(used, used.Keys);
    assert used.Keys == s.minted.Keys;
    SubsetSize(set t | t in used.Keys :: used[t], s.issued.Keys);
  }

  lemma MintedIsSound(s: System, t: Token)
    requires Inv(s) && t in s.minted
    ensures MintedBy(s, t) && Had(s, s.procs[s.minted[t].pid], s.minted[t].at)
  {
    assert MintedBy(s, t);
    assert ProcSound(s, s.minted[t].pid);
  }

  lemma StatesDiffer(s: System, t: Token, u: Token)
    requires Inv(s) && t in s.minted && u in s.minted && t != u
    ensures MintedBy(s, t) && MintedBy(s, u)
    ensures s.minted[t].pid != s.minted[u].pid && StateOf(s, t) != StateOf(s, u)
  {
    hide Had, ProcSound;
    assert MintedBy(s, t) && MintedBy(s, u);
  }

  /** An injective map has as many values as keys. */
  lemma ImageSize(m: map<Token, Token>, keys: set<Token>)
    requires keys <= m.Keys
    requires forall t, u :: t in m && u in m && m[t] == m[u] ==> t == u
    ensures |set t | t in keys :: m[t]| == |keys|
    decreases |keys|
  {
    if keys != {} {
      var t :| t in keys;
      ImageSize(m, keys - {t});
      assert (set u | u in keys :: m[u]) == (set u | u in keys - {t} :: m[u]) + {m[t]};
    }
  }

  lemma SubsetSize(a: set<Token>, b: set<Token>)
    requires a <= b
    ensures |a| <= |b|
  {
    assert b == a + (b - a);
  }

  /**
    Login is replay-safe. In every interleaving of begins, callbacks, replays and sweeps, each session was
    minted by a callback with a code and no error, whose query and cookie carried one and the same state,
    issued for the same provider and consumed before it expired; no two sessions share a state, and there are
    never more sessions than states issued.
   */
  lemma LoginIsReplaySafe(actions: seq<Action>)
    ensures var s := Run(System(map[], map[], map[], map[]), actions);
            && (forall t :: t in s.minted ==>
                  && MintedBy(s, t)
                  && Had(s, s.procs[s.minted[t].pid], s.minted[t].at))
            && (forall t, u :: t in s.minted && u in s.minted && t != u ==>
                  && s.minted[t].pid != s.minted[u].pid && StateOf(s, t) != StateOf(s, u))
            && |s.minted| <= |s.issued|
  {
    hide Run, Had, Gate;
    var s := Run(System(map[], map[], map[], map[]), actions);
    RunInv(System(map[], map[], map[], map[]), actions);
    forall t | t in s.minted ensures MintedBy(s, t) && Had(s, s.procs[s.minted[t].pid], s.minted[t].at) {
      MintedIsSound(s, t);
    }
    forall t, u | t in s.minted && u in s.minted && t != u
      ensures s.minted[t].pid != s.minted[u].pid && StateOf(s, t) != StateOf(s, u)
    {
      StatesDiffer(s, t, u);
    }
    MintedCount(s);
  }
}
