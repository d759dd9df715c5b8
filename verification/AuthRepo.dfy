/**
  The auth repository: users and identities, single-use login states, and sessions with a sliding expiry under
  an absolute cap. `now` is the clock of the database, in seconds; random tokens and ids are parameters.
  */
module AuthRepo {
  import opened Text
  import opened Accounts

  const SESSION_ABSOLUTE_MAX: real := 2592000.0

  type Token = string
  datatype Provider = Github | Google

  datatype OAuthState = OAuthState(provider: Provider, verifier: string, nonce: string, expires: real)
  datatype Session = Session(user: UserId, created: real, expires: real, lastSeen: real)

  /** auth_oauth_state and auth_session. */
  datatype Store = Store(states: map<Token, OAuthState>, sessions: map<Token, Session>)

  // ---------------------------------------------------------------- find-or-create, alone

  /** What one login does to the tables when nothing else runs. */
  ghost function Upsert(db: Db, input: Input, newId: UserId): (Db, Result) {
    var key := EmailKey(input.profile);
    if input.account in db.identities then
      var u := db.identities[input.account];
      if TakenByOther(db, key, u) then (db, UniqueViolation)
      else (Db(db.users[u := input.profile], db.identities), Returned(u))
    else if Taken(db, key) then (db, EmailTaken)
    else if newId in db.users then (db, UniqueViolation)
    else (Db(db.users[newId := input.profile], db.identities[input.account := newId]), Returned(newId))
  }

  /** No user has two identities: an identity is only ever made together with its user. */
  ghost predicate OneIdentityEach(db: Db) {
    forall a: Account, b: Account :: a in db.identities && b in db.identities && db.identities[a] == db.identities[b] ==> a == b
  }

  ghost predicate Intact(db: Db) { EmailsUnique(db) && IdentitiesLinked(db) && Anchored(db) && OneIdentityEach(db) }

  /** The e-mail belongs to somebody other than the account's own user. */
  ghost predicate Foreign(db: Db, input: Input) {
    exists v :: OwnedBy(db, EmailKey(input.profile), v) && !IsIdentity(db, input.account, v)
  }

  /** One login keeps the tables intact and every identity where it was; it is refused, with nothing written,
      exactly when the e-mail is somebody else's. */
  lemma UpsertKeeps(db: Db, input: Input, newId: UserId)
    requires Intact(db) && newId !in db.users
    ensures var (db', r) := Upsert(db, input, newId);
            && Intact(db')
            && (forall a: Account, u :: IsIdentity(db, a, u) ==> IsIdentity(db', a, u))
            && (r.Returned? <==> !Foreign(db, input))
            && (if r.Returned? then IsIdentity(db', input.account, r.user) && OwnedBy(db', EmailKey(input.profile), r.user) else db' == db)
            && (forall v :: v in db'.users && !(r.Returned? && v == r.user) ==> v in db.users && db'.users[v] == db.users[v])
  {
    hide EmailKey, OneIdentityEach;
    var (db', r) := Upsert(db, input, newId);
    UpsertIdentities(db, input, newId);
    if r.Returned? {
      assert IsIdentity(db', input.account, r.user);
      forall v | v in db'.users ensures HasIdentity(db', v) {
        if v != r.user {
          assert HasIdentity(db, v);
          var a: Account :| IsIdentity(db, a, v);
          assert IsIdentity(db', a, v);
        }
      }
      forall v, w | v in db'.users && w in db'.users && EmailKey(db'.users[v]) == EmailKey(db'.users[w]) ensures v == w {
        assert v != r.user ==> OwnedBy(db, EmailKey(db'.users[v]), v);
        assert w != r.user ==> OwnedBy(db, EmailKey(db'.users[w]), w);
      }
    }
  }

  /** The same on the rows: who has the e-mail in any case, and which row and link are written. */
  lemma UpsertWrites(db: Db, input: Input, newId: UserId)
    requires Intact(db) && newId !in db.users
    ensures var (db', r) := Upsert(db, input, newId);
            && (Foreign(db, input) <==>
                  exists v :: v in db.users && Lower(db.users[v].email) == Lower(input.profile.email)
                              && !(input.account in db.identities && db.identities[input.account] == v))
            && (r.Returned? ==>
                  && r.user == (if input.account in db.identities then db.identities[input.account] else newId)
                  && db'.users == db.users[r.user := input.profile]
                  && db'.identities == db.identities[input.account := r.user])
  {
    hide Lower;
    if Foreign(db, input) {
      var v :| OwnedBy(db, EmailKey(input.profile), v) && !IsIdentity(db, input.account, v);
      assert v in db.users;
    }
    if v :| v in db.users && Lower(db.users[v].email) == Lower(input.profile.email)
            && !(input.account in db.identities && db.identities[input.account] == v) {
      assert OwnedBy(db, EmailKey(input.profile), v) && !IsIdentity(db, input.account, v);
    }
    if input.account in db.identities {
      assert db.identities == db.identities[input.account := db.identities[input.account]];
    }
  }

  /** Case protects nobody: a login is refused, and nothing is written, when a user other than the account's own has
      the e-mail in any case; when no other user has it in any case, the login succeeds. */
  lemma RefusedInAnyCase(db: Db, input: Input, newId: UserId)
    requires Intact(db) && newId !in db.users
    requires Ascii(input.profile.email) && forall u :: u in db.users ==> Ascii(db.users[u].email)
    ensures var (db', r) := Upsert(db, input, newId);
            if exists v :: v in db.users && SameUpToCase(db.users[v].email, input.profile.email)
                           && !(input.account in db.identities && db.identities[input.account] == v)
            then !r.Returned? && db' == db
            else r.Returned?
  {
    hide Upsert, Lower, SameUpToCase, Intact, Foreign;
    UpsertKeeps(db, input, newId);
    UpsertWrites(db, input, newId);
    forall v | v in db.users ensures Lower(db.users[v].email) == Lower(input.profile.email)
                                     <==> SameUpToCase(db.users[v].email, input.profile.email)
    {
      LowerSame(db.users[v].email, input.profile.email);
    }
  }

  lemma UpsertIdentities(db: Db, input: Input, newId: UserId)
    requires OneIdentityEach(db) && IdentitiesLinked(db) && newId !in db.users
    ensures OneIdentityEach(Upsert(db, input, newId).0)
  {
    hide EmailKey, Taken, TakenByOther;
  }

  /** Logins one after another, each with the id it would give to a new user. */
  ghost function Logins(db: Db, calls: seq<(Input, UserId)>): (Db, seq<Result>)
    decreases |calls|
  {
    if calls == [] then (db, [])
    else
      var (db', r) := Upsert(db, calls[0].0, calls[0].1);
      var rest := Logins(db', calls[1..]);
      (rest.0, [r] + rest.1)
  }

  ghost predicate FreshIds(db: Db, calls: seq<(Input, UserId)>)
    decreases |calls|
  {
    calls == [] || (calls[0].1 !in db.users && FreshIds(Upsert(db, calls[0].0, calls[0].1).0, calls[1..]))
  }

  /** Over any serial run, with any e-mails, an account stays with the one user it got first. */
  lemma {:induction false} SerialLogins(db: Db, calls: seq<(Input, UserId)>)
    requires Intact(db) && FreshIds(db, calls)
    ensures var (db', rs) := Logins(db, calls);
            && Intact(db') && |rs| == |calls|
            && (forall a: Account, u :: IsIdentity(db, a, u) ==> IsIdentity(db', a, u))
            && (forall i :: 0 <= i < |rs| && rs[i].Returned? ==> IsIdentity(db', calls[i].0.account, rs[i].user))
    decreases |calls|
  {
    hide Upsert, Intact;
    if calls != [] {
      UpsertKeeps(db, calls[0].0, calls[0].1);
      SerialLogins(Upsert(db, calls[0].0, calls[0].1).0, calls[1..]);
    }
  }

  /** Alone, the statement-by-statement login of the concurrent system is this function. */
  lemma SoloLogin(db: Db, input: Input, newId: UserId)
    requires Intact(db) && newId !in db.users
    ensures var (db', r) := Upsert(db, input, newId);
            Accounts.Run(System(db, map[]), [Start(0, input), Step(0, newId), Step(0, newId), Step(0, newId)])
            == System(db', map[0 := Proc(input, Finished(r))])
  {
    hide Next;
    var s := System(db, map[]);
    var s1 := System(db, map[0 := Proc(input, Begin)]);
    SoloSteps(db, input, newId);
    RunTwo(s, [Start(0, input), Step(0, newId), Step(0, newId), Step(0, newId)]);
    var s2 := Next(s1, Step(0, newId));
    RunTwo(s2, [Step(0, newId), Step(0, newId)]);
    assert [Start(0, input), Step(0, newId), Step(0, newId), Step(0, newId)][2..] == [Step(0, newId), Step(0, newId)];
    assert |[Step(0, newId), Step(0, newId)][2..]| == 0;
  }

  lemma SoloSteps(db: Db, input: Input, newId: UserId)
    requires Intact(db) && newId !in db.users
    ensures var s1 := System(db, map[0 := Proc(input, Begin)]);
            && Next(System(db, map[]), Start(0, input)) == s1
            && Next(Next(Next(s1, Step(0, newId)), Step(0, newId)), Step(0, newId))
               == System(Upsert(db, input, newId).0, map[0 := Proc(input, Finished(Upsert(db, input, newId).1))])
  {
    hide EmailKey, Taken, TakenByOther, OneIdentityEach, Anchored, EmailsUnique;
    var s1 := System(db, map[0 := Proc(input, Begin)]);
    assert Next(System(db, map[]), Start(0, input)).procs == s1.procs;
    if input.account in db.identities {
      assert Next(s1, Step(0, newId)).procs == map[0 := Proc(input, Known(db.identities[input.account]))];
    } else {
      var s2 := System(db, map[0 := Proc(input, Unknown)]);
      assert Next(s1, Step(0, newId)).procs == s2.procs;
      assert Next(s2, Step(0, newId)).procs
             == map[0 := Proc(input, if Taken(db, EmailKey(input.profile)) then Collided else UserPending(newId))];
    }
  }

  // ---------------------------------------------------------------- states and sessions

  function Min(a: real, b: real): real { if a <= b then a else b }

  predicate Live(s: Session, now: real) { s.expires > now && s.created + SESSION_ABSOLUTE_MAX > now }

  function NewSession(user: UserId, ttl: real, now: real): Session { Session(user, now, now + ttl, now) }

  function Touched(s: Session, ttl: real, now: real): Session {
    s.(lastSeen := now, expires := Min(now + ttl, s.created + SESSION_ABSOLUTE_MAX))
  }

  datatype Op =
    | CreateState(state: Token, row: OAuthState)
    | Consume(state: Token)
    | CreateSession(id: Token, user: UserId, ttl: real)
    | Get(id: Token)
    | Touch(id: Token, ttl: real)
    | Delete(id: Token)
    | Sweep

  datatype Reply = Nothing | Failed | ConsumedState(found: Option<OAuthState>) | GotSession(session: Option<Session>)

  function Consumable(s: Store, state: Token, now: real): Option<OAuthState> {
    if state in s.states && s.states[state].expires > now then Some(s.states[state]) else None
  }

  function Visible(s: Store, id: Token, now: real): Option<Session> {
    if id in s.sessions && Live(s.sessions[id], now) then Some(s.sessions[id]) else None
  }

  function ExpiredStates(s: Store, now: real): set<Token> { set k | k in s.states && s.states[k].expires <= now }
  function ExpiredSessions(s: Store, now: real): set<Token> { set k | k in s.sessions && s.sessions[k].expires <= now }

  function Apply(s: Store, op: Op, now: real): (Store, Reply) {
    match op
    case CreateState(state, row) => if state in s.states then (s, Failed) else (s.(states := s.states[state := row]), Nothing)
    case Consume(state) =>
      if Consumable(s, state, now).Some? then (s.(states := s.states - {state}), ConsumedState(Consumable(s, state, now)))
      else (s, ConsumedState(None))
    case CreateSession(id, user, ttl) =>
      if id in s.sessions then (s, Failed) else (s.(sessions := s.sessions[id := NewSession(user, ttl, now)]), Nothing)
    case Get(id) => (s, GotSession(Visible(s, id, now)))
    case Touch(id, ttl) =>
      (if id in s.sessions then s.(sessions := s.sessions[id := Touched(s.sessions[id], ttl, now)]) else s, Nothing)
    case Delete(id) => (s.(sessions := s.sessions - {id}), Nothing)
    case Sweep => (Store(s.states - ExpiredStates(s, now), s.sessions - ExpiredSessions(s, now)), Nothing)
  }

  // ---------------------------------------------------------------- the repository

  class PgAuthRepository {
    var db: Db
    var states: map<Token, OAuthState>
    var sessions: map<Token, Session>

    ghost predicate Valid()
      reads this
    {
      Intact(db) && forall k :: k in sessions ==> sessions[k].user in db.users
    }

    ghost function Contents(): Store
      reads this
    {
      Store(states, sessions)
    }

    constructor ()
      ensures Valid() && db == Db(map[], map[]) && Contents() == Store(map[], map[])
    {
      db, states, sessions := Db(map[], map[]), map[], map[];
    }

    /** Find-or-create. (Alone, the second lookup after a collision finds nothing; Accounts has the races.) */
    method UpsertUserFromProvider(input: Input, newId: UserId) returns (r: Result)
      requires Valid() && newId !in db.users
      modifies `db
      ensures Valid() && (db, r) == Upsert(old(db), input, newId)
      ensures r.Returned? <==>
                forall v :: v in old(db).users && Lower(old(db).users[v].email) == Lower(input.profile.email) ==>
                  input.account in old(db).identities && old(db).identities[input.account] == v
      ensures !r.Returned? ==> db == old(db)
      ensures r.Returned? ==>
                && r.user == (if input.account in old(db).identities then old(db).identities[input.account] else newId)
                && db.users == old(db).users[r.user := input.profile]
                && db.identities == old(db).identities[input.account := r.user]
    {
      ghost var before := db;
      UpsertKeeps(db, input, newId);
      UpsertWrites(db, input, newId);
      if input.account in db.identities {
        r := RefreshUser(db.identities[input.account], input);
      } else {
        var key := EmailKey(input.profile);
        if exists u | u in db.users :: EmailKey(db.users[u]) == key {
          assert Taken(db, key);
          r := EmailTaken;
        } else {
          assert !Taken(db, key);
          db := Db(db.users[newId := input.profile], db.identities[input.account := newId]);
          r := Returned(newId);
        }
      }
      assert (db, r) == Upsert(before, input, newId);
    }

    method RefreshUser(u: UserId, input: Input) returns (r: Result)
      modifies `db
      ensures if TakenByOther(old(db), EmailKey(input.profile), u) then db == old(db) && r == UniqueViolation
              else db == Db(old(db).users[u := input.profile], old(db).identities) && r == Returned(u)
    {
      var key := EmailKey(input.profile);
      if exists v | v in db.users :: v != u && EmailKey(db.users[v]) == key {
        ghost var v :| v in db.users && v != u && EmailKey(db.users[v]) == key;
        assert OwnedBy(db, key, v);
        r := UniqueViolation;
      } else {
        assert forall v :: v != u ==> !OwnedBy(db, key, v);
        db := Db(db.users[u := input.profile], db.identities);
        r := Returned(u);
      }
    }

    method CreateOAuthState(provider: Provider, verifier: string, nonce: string, ttl: real, state: Token, now: real)
      requires Valid() && state !in states
      modifies `states
      ensures Valid()
      ensures Contents() == Apply(old(Contents()), CreateState(state, OAuthState(provider, verifier, nonce, now + ttl)), now).0
      ensures states == old(states)[state := OAuthState(provider, verifier, nonce, now + ttl)]
    {
      states := states[state := OAuthState(provider, verifier, nonce, now + ttl)];
    }

    method ConsumeOAuthState(state: Token, now: real) returns (row: Option<OAuthState>)
      requires Valid()
      modifies `states
      ensures Valid()
      ensures (Contents(), ConsumedState(row)) == Apply(old(Contents()), Consume(state), now)
      ensures if state in old(states) && old(states)[state].expires > now
              then row == Some(old(states)[state]) && states == old(states) - {state}
              else row == None && states == old(states)
    {
      row := None;
      if state in states && states[state].expires > now {
        row := Some(states[state]);
        states := states - {state};
      }
    }

    /** The reference to app_user is enforced. */
    method CreateSession(user: UserId, ttl: real, id: Token, now: real) returns (ok: bool)
      requires Valid() && id !in sessions
      modifies `sessions
      ensures Valid() && (ok <==> user in db.users)
      ensures Contents() == if ok then Apply(old(Contents()), Op.CreateSession(id, user, ttl), now).0 else old(Contents())
      ensures sessions == if ok then old(sessions)[id := Session(user, now, now + ttl, now)] else old(sessions)
    {
      ok := user in db.users;
      if ok {
        sessions := sessions[id := Session(user, now, now + ttl, now)];
      }
    }

    /** The provider is that of the most recently linked identity of the user - of the only one there is. */
    method GetSession(id: Token, now: real) returns (found: Option<Session>, user: Option<Profile>, provider: Option<string>)
      requires Valid()
      ensures GotSession(found) == Apply(Contents(), Get(id), now).1
      ensures found == if id in sessions && sessions[id].expires > now && sessions[id].created + 2592000.0 > now
                       then Some(sessions[id]) else None
      ensures user == if found.Some? then Some(db.users[sessions[id].user]) else None
      ensures provider.Some? <==> found.Some?
      ensures found.Some? ==>
                forall a: Account :: IsIdentity(db, a, found.value.user) ==> provider == Some(a.0)
      ensures found.Some? ==> exists a: Account :: IsIdentity(db, a, found.value.user) && provider == Some(a.0)
    {
      found, user, provider := None, None, None;
      if id in sessions && sessions[id].expires > now && sessions[id].created + SESSION_ABSOLUTE_MAX > now {
        found, user := Some(sessions[id]), Some(db.users[sessions[id].user]);
        assert HasIdentity(db, sessions[id].user);
        ghost var linked: Account :| IsIdentity(db, linked, sessions[id].user);
        assert linked in db.identities.Keys;
        var a :| a in db.identities.Keys && db.identities[a] == sessions[id].user;
        provider := Some(a.0);
        assert IsIdentity(db, a, sessions[id].user);
      }
    }

    method TouchSession(id: Token, ttl: real, now: real)
      requires Valid()
      modifies `sessions
      ensures Valid() && Contents() == Apply(old(Contents()), Touch(id, ttl), now).0
      ensures id !in old(sessions) ==> sessions == old(sessions)
      ensures id in old(sessions) ==>
                && var (was, t) := (old(sessions)[id], now + ttl);
                && sessions == old(sessions)[id := sessions[id]]
                && sessions[id].user == was.user && sessions[id].created == was.created && sessions[id].lastSeen == now
                && sessions[id].expires <= t && sessions[id].expires <= was.created + 2592000.0
                && (sessions[id].expires == t || sessions[id].expires == was.created + 2592000.0)
    {
      if id in sessions {
        var s := sessions[id];
        var slid, cap := now + ttl, s.created + SESSION_ABSOLUTE_MAX;
        sessions := sessions[id := Session(s.user, s.created, if slid <= cap then slid else cap, now)];
      }
    }

    method DeleteSession(id: Token)
      requires Valid()
      modifies `sessions
      ensures Valid() && Contents() == Apply(old(Contents()), Delete(id), 0.0).0
      ensures sessions == old(sessions) - {id}
    {
      sessions := sessions - {id};
    }

    method DeleteExpired(now: real) returns (removed: nat)
      requires Valid()
      modifies `sessions, `states
      ensures Valid() && Contents() == Apply(old(Contents()), Sweep, now).0
      ensures forall k :: k in sessions <==> k in old(sessions) && old(sessions)[k].expires > now
      ensures forall k :: k in sessions ==> sessions[k] == old(sessions)[k]
      ensures forall k :: k in states <==> k in old(states) && old(states)[k].expires > now
      ensures forall k :: k in states ==> states[k] == old(states)[k]
      ensures removed == |old(states)| - |states| + |old(sessions)| - |sessions|
    {
      hide Intact;
      var s := set k | k in sessions && sessions[k].expires <= now;
      var o := set k | k in states && states[k].expires <= now;
      assert s == ExpiredSessions(Contents(), now) && o == ExpiredStates(Contents(), now);
      RemovedCount(sessions, s);
      RemovedCount(states, o);
      sessions, states := sessions - s, states - o;
      removed := |s| + |o|;
    }
  }

  lemma RemovedCount<V>(m: map<Token, V>, gone: set<Token>)
    requires gone <= m.Keys
    ensures |m - gone| == |m| - |gone|
  {
    assert (m - gone).Keys == m.Keys - gone;
  }
}
