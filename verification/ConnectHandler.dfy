/** The connect handler over its tables, one request at a time: what it does is one undisturbed run of the concurrent system. */
module ConnectHandler {
  import opened Text
  import Membership
  import opened GithubConnect

  /** One request and enough steps to finish it, with nothing in between. */
  function Script(user: UserId, request: Request, now: real, token: Token, found: Option<Account>): seq<Action> {
    var step := Step(0, now, token, found);
    [Arrive(0, user, request), step, step, step, step]
  }

  ghost predicate RunsAlone(db: Db, actions: seq<Action>, db': Db, reply: Reply) {
    var s := Run(db, actions, |actions|);
    s.db == db' && 0 in s.procs && s.procs[0].point == Finished(reply)
  }

  class GithubConnectHandler {
    var nonces: map<Token, Nonce>
    var rows: map<(OrgId, Account), Connection>
    var active: map<UserId, OrgId>
    var roles: map<(UserId, OrgId), Membership.Role>

    ghost function Tables(): Db
      reads this
    {
      Db(nonces, rows, active, roles)
    }

    constructor ()
      ensures Tables() == Db(map[], map[], map[], map[])
    {
      nonces, rows, active, roles := map[], map[], map[], map[];
    }

    method Issue(user: UserId, org: OrgId, state: Token, now: real)
      modifies `nonces
      ensures nonces == old(nonces)[state := Nonce(user, org, now + 600.0)]
    {
      nonces := nonces[state := Nonce(user, org, now + STATE_TTL)];
    }

    /** Single use: what is returned is gone. */
    method Consume(state: Token, now: real) returns (row: Option<Nonce>)
      modifies `nonces
      ensures row == if state in old(nonces) && old(nonces)[state].expires > now then Some(old(nonces)[state]) else None
      ensures nonces == if row.Some? then old(nonces) - {state} else old(nonces)
    {
      row := None;
      if state in nonces && nonces[state].expires > now {
        row := Some(nonces[state]);
        nonces := nonces - {state};
      }
    }

    method DeleteExpired(now: real) returns (removed: nat)
      modifies `nonces
      ensures forall k :: k in nonces <==> k in old(nonces) && old(nonces)[k].expires > now
      ensures forall k :: k in nonces ==> nonces[k] == old(nonces)[k]
      ensures removed == |old(nonces)| - |nonces|
      ensures Next(System(old(Tables()), old(nonces), map[]), SweepNonces(now)).db == Tables()
    {
      hide Next;
      var gone := set k | k in nonces && nonces[k].expires <= now;
      SweepTakes(Tables(), gone, now);
      removed := |gone|;
      nonces := nonces - gone;
    }

    method GetOrgForConnection(a: Account) returns (org: Option<OrgId>)
      ensures org.Some? ==> (org.value, a) in rows && !rows[(org.value, a)].revoked
      ensures org.None? ==> forall o :: (o, a) in rows ==> rows[(o, a)].revoked
    {
      org := None;
      if exists k | k in rows :: k.1 == a && !rows[k].revoked {
        var k :| k in rows && k.1 == a && !rows[k].revoked;
        org := Some(k.0);
      }
    }

    /** False: the partial unique index refuses the row. */
    method UpsertGitHubInstallation(org: OrgId, a: Account, installation: string) returns (ok: bool)
      modifies `rows
      ensures ok <==> (org, a) in old(rows) || forall o :: o != org ==> (o, a) !in old(rows)
      ensures rows == if !ok then old(rows)
                      else old(rows)[(org, a) := Connection(installation, (org, a) in old(rows) && old(rows)[(org, a)].revoked)]
    {
      ok := true;
      if (org, a) in rows {
        rows := rows[(org, a) := rows[(org, a)].(installation := installation)];
      } else if exists k | k in rows :: k.0 != org && k.1 == a {
        assert !(forall o :: o != org ==> (o, a) !in rows) by {
          ghost var k :| k in rows && k.0 != org && k.1 == a;
          assert (k.0, a) in rows;
        }
        ok := false;
      } else {
        assert forall o :: o != org ==> (o, a) !in rows by {
          assert forall k :: k in rows ==> k.0 == org || k.1 != a;
        }
        rows := rows[(org, a) := Connection(installation, false)];
      }
    }

    method HandleBegin(user: UserId, token: Token, now: real) returns (reply: Reply)
      requires token !in nonces
      modifies `nonces
      ensures RunsAlone(old(Tables()), Script(user, Connect, now, token, None), Tables(), reply)
      ensures reply ==
              if user !in active then NoOrg
              else if (user, active[user]) in roles && roles[(user, active[user])] in {Membership.Owner, Membership.Admin} then Redirected(token)
              else Forbidden
      ensures nonces == if reply.Redirected? then old(nonces)[token := Nonce(user, active[user], now + 600.0)] else old(nonces)
    {
      ghost var db := Tables();
      BeginAlone(db, user, now, token);
      if user !in active {
        return NoOrg;
      }
      var org := active[user];
      if (user, org) !in roles || roles[(user, org)].Member? {
        return Forbidden;
      }
      Issue(user, org, token, now);
      reply := Redirected(token);
    }

    method HandleCallback(user: UserId, installation: string, state: Token, found: Option<Account>, now: real) returns (reply: Reply)
      requires OneOrgEach(Tables())
      modifies `nonces, `rows
      ensures RunsAlone(old(Tables()), Script(user, Callback(installation, state), now, "", found), Tables(), reply)
      ensures reply == MissingParams <==> installation == "" || state == ""
      ensures reply == BadState <==>
                installation != "" && state != "" && !(state in old(nonces) && old(nonces)[state].expires > now)
      ensures reply == MissingParams || reply == BadState ==> nonces == old(nonces)
      ensures !(reply == MissingParams || reply == BadState) ==>
                && state in old(nonces) && nonces == old(nonces) - {state}
                && var org := old(nonces)[state].org;
                   && (reply == SessionMismatch <==> old(nonces)[state].user != user)
                   && (reply == Internal <==> old(nonces)[state].user == user && found.None?)
                   && (reply == AlreadyConnected <==>
                         old(nonces)[state].user == user && found.Some? && exists o :: o != org && (o, found.value) in old(rows))
                   && (reply.Connected? <==>
                         old(nonces)[state].user == user && found.Some? && forall o :: o != org ==> (o, found.value) !in old(rows))
                   && (reply.Connected? ==>
                         && reply == Connected(org, found.value)
                         && rows == old(rows)[(org, found.value) :=
                              Connection(installation, (org, found.value) in old(rows) && old(rows)[(org, found.value)].revoked)])
      ensures !reply.Connected? ==> rows == old(rows)
    {
      ghost var db := Tables();
      CallbackAlone(db, user, installation, state, now, found);
      if installation == "" || state == "" {
        return MissingParams;
      }
      var consumed := Consume(state, now);
      if consumed.None? {
        return BadState;
      }
      if consumed.value.user != user {
        return SessionMismatch;
      }
      if found.None? {
        return Internal;
      }
      var existing := GetOrgForConnection(found.value);
      ExistingOrg(Tables(), found.value, consumed.value.org, existing);
      if existing.Some? && existing.value != consumed.value.org {
        return AlreadyConnected;
      }
      var ok := UpsertGitHubInstallation(consumed.value.org, found.value, installation);
      reply := if ok then Connected(consumed.value.org, found.value) else AlreadyConnected;
    }
  }

  /** With one row for each account, comparing the one org found says whether any other has the account. */
  lemma ExistingOrg(db: Db, a: Account, org: OrgId, existing: Option<OrgId>)
    requires OneOrgEach(db)
    requires existing.Some? ==> ResolvesTo(db, a, existing.value)
    requires existing.None? ==> forall o :: !ResolvesTo(db, a, o)
    ensures ResolvesElsewhere(db, a, org) <==> existing.Some? && existing.value != org
  {
  }

  lemma SweepTakes(db: Db, gone: set<Token>, now: real)
    requires gone == set k | k in db.nonces && db.nonces[k].expires <= now
    ensures Next(System(db, db.nonces, map[]), SweepNonces(now)).db == db.(nonces := db.nonces - gone)
    ensures |db.nonces - gone| == |db.nonces| - |gone|
  {
    hide StepBegin, StepCallback, Marked;
    assert db.nonces - gone == map k | k in db.nonces && db.nonces[k].expires > now :: db.nonces[k];
    assert (db.nonces - gone).Keys == db.nonces.Keys - gone;
  }

  function One(db: Db, issued: map<Token, Nonce>, user: UserId, request: Request, point: Point): System {
    System(db, issued, map[0 := Proc(user, request, point)])
  }

  lemma RunFrom(db: Db, actions: seq<Action>, s1: System)
    requires |actions| == 5 && s1 == Next(System(db, db.nonces, map[]), actions[0])
    ensures Run(db, actions, 5) == Next(Next(Next(Next(s1, actions[1]), actions[2]), actions[3]), actions[4])
  {
    hide Next;
    assert Run(db, actions, 2) == Next(Run(db, actions, 1), actions[1]);
    assert Run(db, actions, 3) == Next(Run(db, actions, 2), actions[2]);
    assert Run(db, actions, 4) == Next(Run(db, actions, 3), actions[3]);
  }

  lemma BeginAlone(db: Db, user: UserId, now: real, token: Token)
    requires token !in db.nonces
    ensures var actions := Script(user, Connect, now, token, None);
            if user !in db.active then RunsAlone(db, actions, db, NoOrg)
            else if !IsAdmin(db, user, db.active[user]) then RunsAlone(db, actions, db, Forbidden)
            else RunsAlone(db, actions, db.(nonces := db.nonces[token := Nonce(user, db.active[user], now + STATE_TTL)]), Redirected(token))
  {
    hide IsAdmin, Run, StepCallback;
    var actions := Script(user, Connect, now, token, None);
    var step := actions[1];
    var s1 := One(db, db.nonces, user, Connect, Arrived);
    RunFrom(db, actions, s1);
    if user in db.active {
      var org := db.active[user];
      assert Next(s1, step).procs == One(db, db.nonces, user, Connect, OrgRead(org)).procs;
      if IsAdmin(db, user, org) {
        assert Next(One(db, db.nonces, user, Connect, OrgRead(org)), step).procs == One(db, db.nonces, user, Connect, RoleRead(org)).procs;
      }
    }
  }

  lemma CallbackAlone(db: Db, user: UserId, installation: string, state: Token, now: real, found: Option<Account>)
    requires OneOrgEach(db)
    ensures var actions := Script(user, Callback(installation, state), now, "", found);
            var rest := db.(nonces := db.nonces - {state});
            if installation == "" || state == "" then RunsAlone(db, actions, db, MissingParams)
            else if state !in db.nonces || db.nonces[state].expires <= now then RunsAlone(db, actions, db, BadState)
            else if db.nonces[state].user != user then RunsAlone(db, actions, rest, SessionMismatch)
            else if found.None? then RunsAlone(db, actions, rest, Internal)
            else
              var org, a := db.nonces[state].org, found.value;
              if ResolvesElsewhere(db, a, org) || ((org, a) !in db.rows && TakenByOther(db, org, a)) then RunsAlone(db, actions, rest, AlreadyConnected)
              else
                var row := Connection(installation, (org, a) in db.rows && db.rows[(org, a)].revoked);
                RunsAlone(db, actions, rest.(rows := db.rows[(org, a) := row]), Connected(org, a))
  {
    hide Run, Next, OneOrgEach, ResolvesElsewhere, TakenByOther;
    var request := Callback(installation, state);
    var actions := Script(user, request, now, "", found);
    AloneTakes(db, user, request, now, found);
    RunFrom(db, actions, One(db, db.nonces, user, request, Arrived));
    if state in db.nonces {
      var rest, org := db.(nonces := db.nonces - {state}), db.nonces[state].org;
      AloneGuards(rest, db.nonces, user, request, org, now, found);
      if found.Some? {
        AloneBinds(rest, db.nonces, user, request, org, found.value, actions[1]);
        SameRows(db, rest, found.value, org);
      }
    }
  }

  /** The first two steps of a callback, and a finished one. */
  lemma AloneTakes(db: Db, user: UserId, request: Request, now: real, found: Option<Account>)
    requires request.Callback?
    ensures var step := Step(0, now, "", found);
            var state := request.state;
            var rest := db.(nonces := db.nonces - {state});
            var s := One(db, db.nonces, user, request, Arrived);
            && Next(System(db, db.nonces, map[]), Arrive(0, user, request)) == s
            && Next(s, step) ==
               if request.installation == "" || state == "" then One(db, db.nonces, user, request, Finished(MissingParams))
               else if state !in db.nonces || db.nonces[state].expires <= now then One(db, db.nonces, user, request, Finished(BadState))
               else if db.nonces[state].user != user then One(rest, db.nonces, user, request, Finished(SessionMismatch))
               else One(rest, db.nonces, user, request, Took(db.nonces[state].org))
    ensures forall d: Db, r :: Next(One(d, db.nonces, user, request, Finished(r)), Step(0, now, "", found))
                               == One(d, db.nonces, user, request, Finished(r))
  {
    hide ResolvesElsewhere, TakenByOther;
    var s := One(db, db.nonces, user, request, Arrived);
    assert Next(System(db, db.nonces, map[]), Arrive(0, user, request)).procs == s.procs;
    var s' := Next(s, Step(0, now, "", found));
    assert s'.procs == map[0 := s'.procs[0]];
  }

  /** The lookup and the guard. */
  lemma AloneGuards(db: Db, issued: map<Token, Nonce>, user: UserId, request: Request, org: OrgId, now: real, found: Option<Account>)
    requires request.Callback?
    ensures var step := Step(0, now, "", found);
            && Next(One(db, issued, user, request, Took(org)), step)
               == One(db, issued, user, request, if found.Some? then Resolved(org, found.value) else Finished(Internal))
            && (found.Some? ==>
                  Next(One(db, issued, user, request, Resolved(org, found.value)), step)
                  == One(db, issued, user, request,
                         if ResolvesElsewhere(db, found.value, org) then Finished(AlreadyConnected) else Guarded(org, found.value)))
  {
    hide ResolvesElsewhere, TakenByOther;
    var step := Step(0, now, "", found);
    var took := One(db, issued, user, request, Took(org));
    assert Next(took, step).procs == map[0 := Next(took, step).procs[0]];
    if found.Some? {
      var resolved := One(db, issued, user, request, Resolved(org, found.value));
      assert Next(resolved, step).procs == map[0 := Next(resolved, step).procs[0]];
    }
  }

  /** The upsert. */
  lemma AloneBinds(db: Db, issued: map<Token, Nonce>, user: UserId, request: Request, org: OrgId, a: Account, step: Action)
    requires request.Callback? && step.Step? && step.pid == 0
    ensures Next(One(db, issued, user, request, Guarded(org, a)), step)
            == if (org, a) !in db.rows && TakenByOther(db, org, a) then One(db, issued, user, request, Finished(AlreadyConnected))
               else
                 var row := Connection(request.installation, (org, a) in db.rows && db.rows[(org, a)].revoked);
                 One(db.(rows := db.rows[(org, a) := row]), issued, user, request, Finished(Connected(org, a)))
  {
    hide ResolvesElsewhere, TakenByOther;
    var guarded := One(db, issued, user, request, Guarded(org, a));
    assert Next(guarded, step).procs == map[0 := Next(guarded, step).procs[0]];
  }

  lemma SameRows(db: Db, rest: Db, a: Account, org: OrgId)
    requires rest.rows == db.rows
    ensures ResolvesElsewhere(db, a, org) == ResolvesElsewhere(rest, a, org)
    ensures TakenByOther(db, org, a) == TakenByOther(rest, org, a)
  {
    if ResolvesElsewhere(db, a, org) {
      var o :| o != org && ResolvesTo(db, a, o);
      assert ResolvesTo(rest, a, o);
    }
    if ResolvesElsewhere(rest, a, org) {
      var o :| o != org && ResolvesTo(rest, a, o);
      assert ResolvesTo(db, a, o);
    }
  }
}
