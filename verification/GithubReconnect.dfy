/** A run in which a completed connect leaves the account unresolved: connect, uninstall, connect again. */
module GithubReconnect {
  import opened Text
  import Membership
  import opened GithubConnect

  ghost function Play(s: System, actions: seq<Action>): System
    decreases |actions|
  {
    if actions == [] then s else Play(Next(s, actions[0]), actions[1..])
  }

  lemma {:induction false} PlaySnoc(s: System, actions: seq<Action>, a: Action)
    ensures Play(s, actions + [a]) == Next(Play(s, actions), a)
    decreases |actions|
  {
    hide Next;
    if actions == [] {
      assert actions + [a] == [a] && |[a][1..]| == 0;
    } else {
      assert (actions + [a])[1..] == actions[1..] + [a];
      PlaySnoc(Next(s, actions[0]), actions[1..], a);
    }
  }

  lemma {:induction false} PlayBoth(s: System, first: seq<Action>, second: seq<Action>)
    ensures Play(s, first + second) == Play(Play(s, first), second)
    decreases |first|
  {
    hide Next;
    if first == [] {
      assert first + second == second;
    } else {
      assert (first + second)[1..] == first[1..] + second;
      PlayBoth(Next(s, first[0]), first[1..], second);
    }
  }

  lemma {:induction false} RunIsPlay(db: Db, actions: seq<Action>, n: nat)
    requires n <= |actions|
    ensures Run(db, actions, n) == Play(System(db, db.nonces, map[]), actions[..n])
  {
    hide Next;
    if n > 0 {
      RunIsPlay(db, actions, n - 1);
      assert actions[..n] == actions[..n - 1] + [actions[n - 1]];
      PlaySnoc(System(db, db.nonces, map[]), actions[..n - 1], actions[n - 1]);
    } else {
      assert actions[..0] == [];
    }
  }

  lemma PlayFour(s: System, a: Action, b: Action)
    ensures Play(s, [a, b, b, b]) == Next(Next(Next(Next(s, a), b), b), b)
  {
    hide Next;
    PlaySnoc(s, [], a);
    PlaySnoc(s, [a], b);
    PlaySnoc(s, [a, b], b);
    PlaySnoc(s, [a, b, b], b);
    assert [] + [a] == [a] && [a] + [b] == [a, b] && [a, b] + [b] == [a, b, b] && [a, b, b] + [b] == [a, b, b, b];
  }

  lemma PlayFive(s: System, a: Action, b: Action)
    ensures Play(s, [a, b, b, b, b]) == Next(Next(Next(Next(Next(s, a), b), b), b), b)
  {
    hide Next;
    PlayFour(s, a, b);
    PlaySnoc(s, [a, b, b, b], b);
    assert [a, b, b, b] + [b] == [a, b, b, b, b];
  }

  /** A begin, and a callback with its nonce. */
  function Begins(p: Pid, u: UserId, k: Token): seq<Action> {
    var step := Step(p, 0.0, k, None);
    [Arrive(p, u, Connect), step, step, step]
  }

  function Returns(p: Pid, u: UserId, k: Token, a: Account): seq<Action> {
    var step := Step(p, 0.0, "", Some(a));
    [Arrive(p, u, Callback("i", k)), step, step, step, step]
  }

  function With(s: System, p: Pid, proc: Proc): System { s.(procs := s.procs[p := proc]) }

  lemma WithTwice(s: System, p: Pid, first: Proc, second: Proc)
    ensures With(With(s, p, first), p, second) == With(s, p, second)
  {
    assert s.procs[p := first][p := second] == s.procs[p := second];
  }

  /** One statement of a begin. */
  lemma BeginStep(s: System, p: Pid, u: UserId, org: OrgId, k: Token)
    requires IsActive(s.db, u, org) && IsAdmin(s.db, u, org) && k !in s.issued
    ensures var step := Step(p, 0.0, k, None);
            var n := Nonce(u, org, STATE_TTL);
            var after := s.(db := s.db.(nonces := s.db.nonces[k := n]), issued := s.issued[k := n]);
            && Next(With(s, p, Proc(u, Connect, Arrived)), step) == With(s, p, Proc(u, Connect, OrgRead(org)))
            && Next(With(s, p, Proc(u, Connect, OrgRead(org))), step) == With(s, p, Proc(u, Connect, RoleRead(org)))
            && Next(With(s, p, Proc(u, Connect, RoleRead(org))), step) == With(after, p, Proc(u, Connect, Finished(Redirected(k))))
  {
    hide StepCallback;
    var n := Nonce(u, org, STATE_TTL);
    var after := s.(db := s.db.(nonces := s.db.nonces[k := n]), issued := s.issued[k := n]);
    WithTwice(s, p, Proc(u, Connect, Arrived), Proc(u, Connect, OrgRead(org)));
    WithTwice(s, p, Proc(u, Connect, OrgRead(org)), Proc(u, Connect, RoleRead(org)));
    WithTwice(after, p, Proc(u, Connect, RoleRead(org)), Proc(u, Connect, Finished(Redirected(k))));
  }

  lemma BeginPlayed(s: System, p: Pid, u: UserId, org: OrgId, k: Token)
    requires p !in s.procs && IsActive(s.db, u, org) && IsAdmin(s.db, u, org) && k !in s.issued
    ensures var n := Nonce(u, org, STATE_TTL);
            var after := s.(db := s.db.(nonces := s.db.nonces[k := n]), issued := s.issued[k := n]);
            Play(s, Begins(p, u, k)) == With(after, p, Proc(u, Connect, Finished(Redirected(k))))
  {
    hide IsActive, IsAdmin, Play;
    PlayFour(s, Arrive(p, u, Connect), Step(p, 0.0, k, None));
    assert Next(s, Arrive(p, u, Connect)) == With(s, p, Proc(u, Connect, Arrived));
    hide Next;
    BeginStep(s, p, u, org, k);
  }

  /** Nobody else has the account. */
  ghost predicate Free(db: Db, org: OrgId, a: Account) { forall o :: (o, a) in db.rows ==> o == org }

  lemma TakeStep(s: System, p: Pid, u: UserId, org: OrgId, k: Token, a: Account)
    requires k in s.db.nonces && s.db.nonces[k] == Nonce(u, org, STATE_TTL) && k != ""
    ensures var taken := s.(db := s.db.(nonces := s.db.nonces - {k}));
            Next(With(s, p, Proc(u, Callback("i", k), Arrived)), Step(p, 0.0, "", Some(a)))
            == With(taken, p, Proc(u, Callback("i", k), Took(org)))
  {
    var taken := s.(db := s.db.(nonces := s.db.nonces - {k}));
    WithTwice(taken, p, Proc(u, Callback("i", k), Arrived), Proc(u, Callback("i", k), Took(org)));
  }

  lemma GuardStep(s: System, p: Pid, u: UserId, org: OrgId, k: Token, a: Account)
    requires Free(s.db, org, a)
    ensures var (request, step) := (Callback("i", k), Step(p, 0.0, "", Some(a)));
            && Next(With(s, p, Proc(u, request, Took(org))), step) == With(s, p, Proc(u, request, Resolved(org, a)))
            && Next(With(s, p, Proc(u, request, Resolved(org, a))), step) == With(s, p, Proc(u, request, Guarded(org, a)))
  {
    var request := Callback("i", k);
    WithTwice(s, p, Proc(u, request, Took(org)), Proc(u, request, Resolved(org, a)));
    WithTwice(s, p, Proc(u, request, Resolved(org, a)), Proc(u, request, Guarded(org, a)));
  }

  lemma BindStep(s: System, p: Pid, u: UserId, org: OrgId, k: Token, a: Account)
    requires Free(s.db, org, a)
    ensures var (request, step) := (Callback("i", k), Step(p, 0.0, "", Some(a)));
            var row := Connection("i", (org, a) in s.db.rows && s.db.rows[(org, a)].revoked);
            var bound := s.(db := s.db.(rows := s.db.rows[(org, a) := row]));
            Next(With(s, p, Proc(u, request, Guarded(org, a))), step) == With(bound, p, Proc(u, request, Finished(Connected(org, a))))
  {
    var request := Callback("i", k);
    var row := Connection("i", (org, a) in s.db.rows && s.db.rows[(org, a)].revoked);
    var bound := s.(db := s.db.(rows := s.db.rows[(org, a) := row]));
    WithTwice(bound, p, Proc(u, request, Guarded(org, a)), Proc(u, request, Finished(Connected(org, a))));
  }

  lemma ReturnPlayed(s: System, p: Pid, u: UserId, org: OrgId, k: Token, a: Account)
    requires p !in s.procs && k in s.db.nonces && s.db.nonces[k] == Nonce(u, org, STATE_TTL) && k != "" && Free(s.db, org, a)
    ensures var row := Connection("i", (org, a) in s.db.rows && s.db.rows[(org, a)].revoked);
            var bound := s.(db := s.db.(nonces := s.db.nonces - {k}, rows := s.db.rows[(org, a) := row]));
            Play(s, Returns(p, u, k, a)) == With(bound, p, Proc(u, Callback("i", k), Finished(Connected(org, a))))
  {
    hide Play;
    PlayFive(s, Arrive(p, u, Callback("i", k)), Step(p, 0.0, "", Some(a)));
    assert Next(s, Arrive(p, u, Callback("i", k))) == With(s, p, Proc(u, Callback("i", k), Arrived));
    hide Next;
    var taken := s.(db := s.db.(nonces := s.db.nonces - {k}));
    TakeStep(s, p, u, org, k, a);
    GuardStep(taken, p, u, org, k, a);
    BindStep(taken, p, u, org, k, a);
  }

  /** One whole connect, from a quiet state. */
  lemma ConnectPlayed(s: System, p: Pid, u: UserId, org: OrgId, k: Token, a: Account)
    requires p !in s.procs && p + 1 !in s.procs && k !in s.issued && k !in s.db.nonces && k != ""
    requires IsActive(s.db, u, org) && IsAdmin(s.db, u, org) && Free(s.db, org, a)
    ensures var s' := Play(s, Begins(p, u, k) + Returns(p + 1, u, k, a));
            && Replied(s', p + 1, Connected(org, a))
            && s'.procs.Keys == s.procs.Keys + {p, p + 1} && (forall q :: q in s.procs ==> s'.procs[q] == s.procs[q])
            && s'.issued.Keys == s.issued.Keys + {k}
            && s'.db == s.db.(rows := s.db.rows[(org, a) := Connection("i", (org, a) in s.db.rows && s.db.rows[(org, a)].revoked)])
  {
    hide Play, Next, IsActive, IsAdmin;
    PlayBoth(s, Begins(p, u, k), Returns(p + 1, u, k, a));
    BeginPlayed(s, p, u, org, k);
    var begun := Play(s, Begins(p, u, k));
    ReturnPlayed(begun, p + 1, u, org, k, a);
    assert s.db.nonces[k := Nonce(u, org, STATE_TTL)] - {k} == s.db.nonces;
  }

  function Reconnects(u: UserId, a: Account): seq<Action> {
    (Begins(0, u, "k") + Returns(1, u, "k", a)) + ([Uninstall(a)] + (Begins(2, u, "l") + Returns(3, u, "l", a)))
  }

  lemma Uninstalled(s: System, a: Account, org: OrgId, i: string)
    requires s.db.rows == map[(org, a) := Connection(i, false)]
    ensures Next(s, Uninstall(a)) == s.(db := s.db.(rows := map[(org, a) := Connection(i, true)]))
  {
    assert Next(s, Uninstall(a)).db.rows == map[(org, a) := Connection(i, true)];
  }

  lemma OneUninstall(s: System, a: Account, rest: seq<Action>)
    ensures Play(s, [Uninstall(a)] + rest) == Play(Next(s, Uninstall(a)), rest)
  {
    hide Next;
    assert ([Uninstall(a)] + rest)[1..] == rest;
  }

  /** Both connects complete, by the same admin of the same org, and yet the account does not resolve; the webhook
      makes it resolve. */
  lemma ReconnectDoesNotResolve(u: UserId, org: OrgId, a: Account)
    ensures var db := Db(map[], map[], map[u := org], map[(u, org) := Membership.Admin]);
            var s := Run(db, Reconnects(u, a), |Reconnects(u, a)|);
            && Replied(s, 1, Connected(org, a)) && Replied(s, 3, Connected(org, a))
            && !ResolvesTo(s.db, a, org) && ResolvesTo(Next(s, Confirm(a, "i")).db, a, org)
  {
    hide Play, Next, Run, Begins, Returns;
    var db := Db(map[], map[], map[u := org], map[(u, org) := Membership.Admin]);
    var actions := Reconnects(u, a);
    var s0 := System(db, map[], map[]);
    RunIsPlay(db, actions, |actions|);
    assert actions[..|actions|] == actions;
    var first, rest := Begins(0, u, "k") + Returns(1, u, "k", a), Begins(2, u, "l") + Returns(3, u, "l", a);
    PlayBoth(s0, first, [Uninstall(a)] + rest);
    ConnectPlayed(s0, 0, u, org, "k", a);
    var s1 := Play(s0, first);
    assert s1.db.rows == map[(org, a) := Connection("i", false)];
    OneUninstall(s1, a, rest);
    Uninstalled(s1, a, org, "i");
    var s2 := Next(s1, Uninstall(a));
    ConnectPlayed(s2, 2, u, org, "l", a);
    RowStep(Play(s2, rest), Confirm(a, "i"), org, a);
  }
}
