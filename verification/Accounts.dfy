/**
  Find-or-create of a user for a provider account, as a concurrent system: every statement of the login
  transaction is a step, an uncommitted insert reserves its e-mail in the unique index, and an insert that
  meets a reservation waits for that transaction to end.
  */
module Accounts {
  import opened Text

  type UserId = string
  type Pid = nat
  /** (provider, provider_user_id). */
  type Account = (string, string)

  datatype Profile = Profile(email: string, emailVerified: bool, displayName: Option<string>, avatarUrl: Option<string>)
  datatype Input = Input(account: Account, profile: Profile)

  /** app_user and auth_identity. */
  datatype Db = Db(users: map<UserId, Profile>, identities: map<Account, UserId>)

  /** The key of the unique index on lower(email). */
  function EmailKey(p: Profile): string { Lower(p.email) }

  datatype Result = Returned(user: UserId) | EmailTaken | UniqueViolation | Crashed

  datatype Point =
    | Begin
    | Known(user: UserId)
    | Unknown
    | UserPending(user: UserId)
    | Collided
    | Finished(result: Result)

  datatype Proc = Proc(input: Input, point: Point)
  datatype System = System(db: Db, procs: map<Pid, Proc>)
  /** `newId` is the random id a step may use for a new user. */
  datatype Action = Start(pid: Pid, input: Input) | Step(pid: Pid, newId: UserId) | Crash(pid: Pid)

  ghost predicate OwnedBy(db: Db, key: string, u: UserId) {
    u in db.users && EmailKey(db.users[u]) == key
  }

  ghost predicate Taken(db: Db, key: string) {
    exists u :: OwnedBy(db, key, u)
  }

  ghost predicate TakenByOther(db: Db, key: string, u: UserId) {
    exists v :: v != u && OwnedBy(db, key, v)
  }

  /** Some other transaction holds the e-mail uncommitted. */
  ghost predicate ReservedByOther(s: System, key: string, pid: Pid) {
    exists p :: p in s.procs && p != pid && s.procs[p].point.UserPending? && EmailKey(s.procs[p].input.profile) == key
  }

  ghost predicate IdInUse(s: System, u: UserId) {
    u in s.db.users || exists p :: p in s.procs && s.procs[p].point == UserPending(u)
  }

  function At(s: System, pid: Pid, point: Point): System
    requires pid in s.procs
  {
    s.(procs := s.procs[pid := s.procs[pid].(point := point)])
  }

  ghost function Next(s: System, a: Action): System {
    match a
    case Start(pid, input) => if pid in s.procs then s else s.(procs := s.procs[pid := Proc(input, Begin)])
    case Crash(pid) =>
      if pid in s.procs && !s.procs[pid].point.Finished? then At(s, pid, Finished(Crashed)) else s
    case Step(pid, newId) =>
      if pid !in s.procs then s
      else
        var input := s.procs[pid].input;
        var key := EmailKey(input.profile);
        match s.procs[pid].point
        case Begin =>
          // SELECT the user of this identity.
          At(s, pid, if input.account in s.db.identities then Known(s.db.identities[input.account]) else Unknown)
        case Known(u) =>
          // Refresh the profile and commit; waits for a reservation of the new e-mail.
          if ReservedByOther(s, key, pid) then s
          else if TakenByOther(s.db, key, u) then At(s, pid, Finished(UniqueViolation))
          else if u in s.db.users then
            At(s.(db := s.db.(users := s.db.users[u := input.profile])), pid, Finished(Returned(u)))
          else s
        case Unknown =>
          // INSERT INTO app_user ... ON CONFLICT (lower(email)) DO NOTHING.
          if ReservedByOther(s, key, pid) || IdInUse(s, newId) then s
          else if Taken(s.db, key) then At(s, pid, Collided)
          else At(s, pid, UserPending(newId))
        case UserPending(u) =>
          // INSERT INTO auth_identity ... ON CONFLICT DO NOTHING, then commit both rows.
          var identities := if input.account in s.db.identities then s.db.identities else s.db.identities[input.account := u];
          At(s.(db := Db(s.db.users[u := input.profile], identities)), pid, Finished(Returned(u)))
        case Collided =>
          // SELECT again: adopt the winner, or refuse.
          At(s, pid, if input.account in s.db.identities then Known(s.db.identities[input.account]) else Finished(EmailTaken))
        case Finished(_) => s
  }

  ghost function Run(s: System, actions: seq<Action>): System
    decreases |actions|
  {
    if actions == [] then s else Run(Next(s, actions[0]), actions[1..])
  }

  // ---------------------------------------------------------------- what every run keeps

  ghost predicate EmailsUnique(db: Db) {
    forall u, v :: u in db.users && v in db.users && EmailKey(db.users[u]) == EmailKey(db.users[v]) ==> u == v
  }

  ghost predicate IdentitiesLinked(db: Db) {
    forall a :: a in db.identities ==> db.identities[a] in db.users
  }

  /** A pending user holds its id and its e-mail alone. */
  ghost predicate Reserved(s: System, p: Pid)
    requires p in s.procs
  {
    s.procs[p].point.UserPending? ==>
      && s.procs[p].point.user !in s.db.users
      && !Taken(s.db, EmailKey(s.procs[p].input.profile))
      && !ReservedByOther(s, EmailKey(s.procs[p].input.profile), p)
      && (forall q :: q in s.procs && q != p ==> s.procs[q].point != s.procs[p].point)
  }

  ghost predicate Resolved(db: Db, p: Proc) {
    match p.point
    case Known(u) => p.input.account in db.identities && db.identities[p.input.account] == u
    case _ => true
  }

  ghost predicate Inv(s: System) {
    && EmailsUnique(s.db) && IdentitiesLinked(s.db)
    && (forall p :: p in s.procs ==> Reserved(s, p) && Resolved(s.db, s.procs[p]))
  }

  /** What a step may do to the tables: nothing, or write one profile whose e-mail nobody else has or
      reserves, linking the account if it had no identity. */
  ghost predicate Wrote(s: System, s': System, pid: Pid, u: UserId) {
    && pid in s.procs
    && var input := s.procs[pid].input;
    && s'.db.users == s.db.users[u := input.profile]
    && !TakenByOther(s.db, EmailKey(input.profile), u)
    && !ReservedByOther(s, EmailKey(input.profile), pid)
    && ((s.procs[pid].point == Known(u) && s'.db.identities == s.db.identities)
        || (s.procs[pid].point == UserPending(u) && (if input.account in s.db.identities then s'.db.identities == s.db.identities
                                                     else s'.db.identities == s.db.identities[input.account := u])))
    && s'.procs == s.procs[pid := Proc(input, Finished(Returned(u)))]
  }

  lemma StepCases(s: System, a: Action)
    requires Inv(s)
    ensures var s' := Next(s, a);
            || s'.db == s.db
            || (a.Step? && a.pid in s.procs && (s.procs[a.pid].point.Known? || s.procs[a.pid].point.UserPending?)
                && Wrote(s, s', a.pid, s.procs[a.pid].point.user))
    ensures forall p :: p in s.procs ==> p in Next(s, a).procs && Next(s, a).procs[p].input == s.procs[p].input
    ensures forall p :: p in s.procs && p != a.pid ==> Next(s, a).procs[p] == s.procs[p]
    ensures forall p :: p in Next(s, a).procs && p !in s.procs ==> p == a.pid && Next(s, a).procs[p].point == Begin
    ensures forall x :: x in s.db.identities ==> x in Next(s, a).db.identities && Next(s, a).db.identities[x] == s.db.identities[x]
  {
    hide EmailKey, EmailsUnique, IdentitiesLinked, Taken, ReservedByOther, IdInUse;
    if a.pid in s.procs {
      var p := s.procs[a.pid];
      assert Reserved(s, a.pid) && Resolved(s.db, p);
      if p.point.UserPending? {
        NotTakenByOther(s.db, EmailKey(p.input.profile), p.point.user);
      }
    }
  }

  lemma NotTakenByOther(db: Db, key: string, u: UserId)
    ensures !Taken(db, key) ==> !TakenByOther(db, key, u)
  {
  }

  lemma DbKept(s: System, s': System, pid: Pid, u: UserId)
    requires EmailsUnique(s.db) && IdentitiesLinked(s.db) && Wrote(s, s', pid, u)
    ensures EmailsUnique(s'.db) && IdentitiesLinked(s'.db)
  {
    hide EmailKey;
    forall v, w | v in s'.db.users && w in s'.db.users && EmailKey(s'.db.users[v]) == EmailKey(s'.db.users[w]) ensures v == w {
      assert v != u ==> (OwnedBy(s.db, EmailKey(s'.db.users[v]), v));
      assert w != u ==> (OwnedBy(s.db, EmailKey(s'.db.users[w]), w));
    }
  }

  lemma OtherReserved(s: System, s': System, pid: Pid, u: UserId, p: Pid)
    requires Wrote(s, s', pid, u) && p in s.procs && p != pid && Reserved(s, p) && Inv(s)
    ensures p in s'.procs && Reserved(s', p)
  {
    hide EmailKey, EmailsUnique, IdentitiesLinked;
    var proc := s.procs[p];
    if proc.point.UserPending? {
      var key := EmailKey(proc.input.profile);
      assert key != EmailKey(s.procs[pid].input.profile);
      forall v ensures !OwnedBy(s'.db, key, v) {
        assert v != u && OwnedBy(s'.db, key, v) ==> OwnedBy(s.db, key, v);
      }
      if s.procs[pid].point.Known? {
        KnownUser(s, pid);
      }
    }
  }

  lemma KnownUser(s: System, pid: Pid)
    requires Inv(s) && pid in s.procs && s.procs[pid].point.Known?
    ensures s.procs[pid].point.user in s.db.users
  {
    assert Resolved(s.db, s.procs[pid]);
  }

  /** A step that leaves the tables alone may only make one new, exclusive reservation. */
  lemma QuietReserved(s: System, a: Action, p: Pid)
    requires Inv(s) && p in Next(s, a).procs && Next(s, a).db == s.db
    ensures Reserved(Next(s, a), p)
  {
    hide EmailKey, EmailsUnique, IdentitiesLinked, Taken, TakenByOther;
    if p in s.procs {
      assert Reserved(s, p);
    }
    if a.pid in s.procs {
      assert Reserved(s, a.pid);
    }
  }

  lemma ResolvedKept(s: System, a: Action, p: Pid)
    requires Inv(s) && p in Next(s, a).procs
    ensures Resolved(Next(s, a).db, Next(s, a).procs[p])
  {
    hide EmailKey, EmailsUnique, IdentitiesLinked, Taken, TakenByOther, ReservedByOther, IdInUse, Reserved;
    StepCases(s, a);
    if p in s.procs {
      assert Resolved(s.db, s.procs[p]);
    }
  }

  lemma InvKept(s: System, a: Action)
    requires Inv(s)
    ensures Inv(Next(s, a))
  {
    hide Next, Reserved, Resolved, EmailsUnique, IdentitiesLinked;
    var s' := Next(s, a);
    StepCases(s, a);
    forall p | p in s'.procs ensures Reserved(s', p) && Resolved(s'.db, s'.procs[p]) {
      ResolvedKept(s, a, p);
      if s'.db == s.db {
        QuietReserved(s, a, p);
      } else if p != a.pid {
        OtherReserved(s, s', a.pid, s.procs[a.pid].point.user, p);
      } else {
        DoneReserved(s', p);
      }
    }
    if s'.db != s.db {
      DbKept(s, s', a.pid, s.procs[a.pid].point.user);
    }
  }

  lemma DoneReserved(s: System, p: Pid)
    requires p in s.procs && s.procs[p].point.Finished?
    ensures Reserved(s, p)
  {
  }

  lemma RunInv(s: System, actions: seq<Action>)
    requires Inv(s)
    ensures Inv(Run(s, actions))
    decreases |actions|
  {
    hide Next, Inv;
    if actions != [] {
      InvKept(s, actions[0]);
      RunInv(Next(s, actions[0]), actions[1..]);
    }
  }

  // ---------------------------------------------------------------- one e-mail for each account

  /** No app_user without an identity. */
  ghost predicate Anchored(db: Db) {
    forall u :: u in db.users ==> HasIdentity(db, u)
  }

  ghost predicate HasIdentity(db: Db, u: UserId) {
    exists a: Account :: IsIdentity(db, a, u)
  }

  predicate IsIdentity(db: Db, a: Account, u: UserId) { a in db.identities && db.identities[a] == u }

  /** Users carry the e-mail key that the provider states for their account. */
  ghost predicate KeysMatch(db: Db, emailOf: Account -> string) {
    forall a: Account :: a in db.identities && db.identities[a] in db.users ==>
      EmailKey(db.users[db.identities[a]]) == emailOf(a)
  }

  /** What a process may have come to believe, and what its answer says of the tables. */
  ghost predicate Sound(db: Db, p: Proc, emailOf: Account -> string) {
    && EmailKey(p.input.profile) == emailOf(p.input.account)
    && match p.point
       case Collided => Taken(db, emailOf(p.input.account))
       case Finished(Returned(u)) => IsIdentity(db, p.input.account, u)
       case Finished(EmailTaken) => SharedEmail(db, p.input.account, emailOf)
       case Finished(UniqueViolation) => false
       case _ => true
  }

  /** Another account already holds the e-mail. */
  ghost predicate SharedEmail(db: Db, a: Account, emailOf: Account -> string) {
    exists b: Account :: b != a && b in db.identities && emailOf(b) == emailOf(a)
  }

  ghost predicate OneEmail(s: System, emailOf: Account -> string) {
    && Inv(s) && Anchored(s.db) && KeysMatch(s.db, emailOf)
    && forall p :: p in s.procs ==> Sound(s.db, s.procs[p], emailOf)
  }

  ghost predicate Consistent(a: Action, emailOf: Account -> string) {
    a.Start? ==> EmailKey(a.input.profile) == emailOf(a.input.account)
  }

  /** With one e-mail per account, whoever is about to commit a new user is the first of its account. */
  lemma PendingIsFirst(s: System, p: Pid, emailOf: Account -> string)
    requires OneEmail(s, emailOf) && p in s.procs && s.procs[p].point.UserPending?
    ensures s.procs[p].input.account !in s.db.identities
  {
    hide EmailKey, EmailsUnique, Resolved;
    var a := s.procs[p].input.account;
    assert Sound(s.db, s.procs[p], emailOf) && Reserved(s, p);
    LinkedIsTaken(s.db, a, emailOf);
  }

  lemma LinkedIsTaken(db: Db, a: Account, emailOf: Account -> string)
    requires IdentitiesLinked(db) && KeysMatch(db, emailOf)
    ensures a in db.identities ==> Taken(db, emailOf(a))
  {
    if a in db.identities {
      assert OwnedBy(db, emailOf(a), db.identities[a]);
    }
  }

  /** The e-mail of a known account is its own: the refresh meets no other owner. */
  lemma KnownIsOwner(s: System, p: Pid, emailOf: Account -> string)
    requires OneEmail(s, emailOf) && p in s.procs && s.procs[p].point.Known?
    ensures !TakenByOther(s.db, EmailKey(s.procs[p].input.profile), s.procs[p].point.user)
    ensures OwnedBy(s.db, EmailKey(s.procs[p].input.profile), s.procs[p].point.user)
  {
    hide EmailKey;
    KnownUser(s, p);
    assert Sound(s.db, s.procs[p], emailOf) && Resolved(s.db, s.procs[p]);
  }

  /** A colliding login of an unlinked account met the user of another account. */
  lemma CollidedIsShared(s: System, p: Pid, emailOf: Account -> string)
    requires OneEmail(s, emailOf) && p in s.procs && s.procs[p].point.Collided?
    requires s.procs[p].input.account !in s.db.identities
    ensures SharedEmail(s.db, s.procs[p].input.account, emailOf)
  {
    hide EmailKey, Resolved;
    var key := emailOf(s.procs[p].input.account);
    assert Sound(s.db, s.procs[p], emailOf);
    var u :| OwnedBy(s.db, key, u);
    assert HasIdentity(s.db, u);
    var b: Account :| IsIdentity(s.db, b, u);
    assert emailOf(b) == key;
  }

  lemma TablesStep(s: System, a: Action, emailOf: Account -> string)
    requires OneEmail(s, emailOf)
    ensures Anchored(Next(s, a).db) && KeysMatch(Next(s, a).db, emailOf)
    ensures forall key :: Taken(s.db, key) ==> Taken(Next(s, a).db, key)
    ensures forall x: Account, u :: IsIdentity(s.db, x, u) ==> IsIdentity(Next(s, a).db, x, u)
  {
    hide Next, EmailKey, EmailsUnique, Reserved, Resolved, Taken, TakenByOther, ReservedByOther, Sound;
    var s' := Next(s, a);
    StepCases(s, a);
    if s'.db != s.db {
      CommitTables(s, s', a.pid, s.procs[a.pid].point.user, emailOf);
    }
  }

  lemma CommitTables(s: System, s': System, pid: Pid, u: UserId, emailOf: Account -> string)
    requires OneEmail(s, emailOf) && Wrote(s, s', pid, u)
    ensures Anchored(s'.db) && KeysMatch(s'.db, emailOf)
    ensures forall key :: Taken(s.db, key) ==> Taken(s'.db, key)
  {
    hide EmailKey, EmailsUnique, TakenByOther, ReservedByOther, SharedEmail;
    var a := s.procs[pid].input.account;
    assert Sound(s.db, s.procs[pid], emailOf) && Reserved(s, pid) && Resolved(s.db, s.procs[pid]);
    if s.procs[pid].point.Known? {
      KnownIsOwner(s, pid, emailOf);
    } else {
      PendingIsFirst(s, pid, emailOf);
    }
    forall v | v in s'.db.users ensures HasIdentity(s'.db, v) {
      if v == u {
        assert IsIdentity(s'.db, a, u);
      } else {
        assert HasIdentity(s.db, v);
        var b: Account :| IsIdentity(s.db, b, v);
        assert IsIdentity(s'.db, b, v);
      }
    }
    forall key | Taken(s.db, key) ensures Taken(s'.db, key) {
      var v :| OwnedBy(s.db, key, v);
      assert OwnedBy(s'.db, key, v);
    }
  }

  lemma SoundStep(s: System, a: Action, emailOf: Account -> string, p: Pid)
    requires OneEmail(s, emailOf) && Consistent(a, emailOf) && p in Next(s, a).procs
    ensures Sound(Next(s, a).db, Next(s, a).procs[p], emailOf)
  {
    hide EmailKey, EmailsUnique, Reserved, Resolved, Taken, TakenByOther, ReservedByOther, IdInUse, KeysMatch, Anchored, SharedEmail, Inv;
    var s' := Next(s, a);
    TablesStep(s, a, emailOf);
    SharedKept(s.db, s'.db, emailOf);
    if p in s.procs {
      assert Sound(s.db, s.procs[p], emailOf);
      if a.Step? && a.pid == p {
        match s.procs[p].point
        case Known(u) => KnownIsOwner(s, p, emailOf); assert Inv(s); FinishedKnown(s, p);
        case UserPending(u) => PendingIsFirst(s, p, emailOf);
        case Collided =>
          if s.procs[p].input.account !in s.db.identities {
            CollidedIsShared(s, p, emailOf);
          }
        case _ =>
      }
    }
  }

  lemma FinishedKnown(s: System, p: Pid)
    requires Inv(s) && p in s.procs && s.procs[p].point.Known?
    ensures IsIdentity(s.db, s.procs[p].input.account, s.procs[p].point.user)
  {
    assert Resolved(s.db, s.procs[p]);
  }

  lemma SharedKept(db: Db, db': Db, emailOf: Account -> string)
    requires forall x: Account, u :: IsIdentity(db, x, u) ==> IsIdentity(db', x, u)
    ensures forall a: Account :: SharedEmail(db, a, emailOf) ==> SharedEmail(db', a, emailOf)
  {
    forall a: Account | SharedEmail(db, a, emailOf) ensures SharedEmail(db', a, emailOf) {
      var b: Account :| b != a && b in db.identities && emailOf(b) == emailOf(a);
      assert IsIdentity(db, b, db.identities[b]);
      assert IsIdentity(db', b, db.identities[b]);
    }
  }

  lemma OneEmailRun(s: System, actions: seq<Action>, emailOf: Account -> string)
    requires OneEmail(s, emailOf)
    requires forall i :: 0 <= i < |actions| ==> Consistent(actions[i], emailOf)
    ensures OneEmail(Run(s, actions), emailOf)
    decreases |actions|
  {
    hide Next, Sound, Inv, Anchored, KeysMatch, EmailKey;
    if actions != [] {
      InvKept(s, actions[0]);
      TablesStep(s, actions[0], emailOf);
      forall p | p in Next(s, actions[0]).procs ensures Sound(Next(s, actions[0]).db, Next(s, actions[0]).procs[p], emailOf) {
        SoundStep(s, actions[0], emailOf, p);
      }
      OneEmailRun(Next(s, actions[0]), actions[1..], emailOf);
    }
  }

  ghost predicate WellFormed(db: Db, emailOf: Account -> string) {
    EmailsUnique(db) && IdentitiesLinked(db) && Anchored(db) && KeysMatch(db, emailOf)
  }

  /** What process p learned in state s, when it has finished and did not crash. */
  ghost predicate Answered(s: System, p: Pid, r: Result) {
    p in s.procs && s.procs[p].point == Finished(r)
  }

  /**
    First logins converge. Any number of logins of any accounts, interleaved and crashing anywhere: as long as
    the provider states one e-mail for each account, no user is ever left without an identity; all logins of an
    account that succeed return the same user, the only one with that e-mail; no unique violation surfaces; and
    a refusal means that another account holds the e-mail.
   */
  lemma FirstLoginsConverge(db: Db, actions: seq<Action>, emailOf: Account -> string)
    requires WellFormed(db, emailOf)
    requires forall i :: 0 <= i < |actions| ==> Consistent(actions[i], emailOf)
    ensures var s := Run(System(db, map[]), actions);
            && WellFormed(s.db, emailOf)
            && (forall p, u :: Answered(s, p, Returned(u)) ==>
                  && IsIdentity(s.db, s.procs[p].input.account, u)
                  && forall v :: OwnedBy(s.db, emailOf(s.procs[p].input.account), v) <==> v == u)
            && (forall p :: !Answered(s, p, UniqueViolation))
            && (forall p :: Answered(s, p, EmailTaken) ==> SharedEmail(s.db, s.procs[p].input.account, emailOf))
  {
    hide Next, EmailKey, SharedEmail, Anchored, Reserved, Resolved;
    OneEmailRun(System(db, map[]), actions, emailOf);
    var s := Run(System(db, map[]), actions);
    forall p, u | Answered(s, p, Returned(u))
      ensures IsIdentity(s.db, s.procs[p].input.account, u)
      ensures forall v :: OwnedBy(s.db, emailOf(s.procs[p].input.account), v) <==> v == u
    {
      assert Sound(s.db, s.procs[p], emailOf);
    }
    forall p ensures !Answered(s, p, UniqueViolation) {
      if p in s.procs {
        SoundIsNoViolation(s.db, s.procs[p], emailOf);
      }
    }
    forall p | Answered(s, p, EmailTaken) ensures SharedEmail(s.db, s.procs[p].input.account, emailOf) {
      assert Sound(s.db, s.procs[p], emailOf);
    }
  }

  lemma SoundIsNoViolation(db: Db, p: Proc, emailOf: Account -> string)
    requires Sound(db, p, emailOf)
    ensures p.point != Finished(UniqueViolation)
  {
  }

  /** When no two accounts share an e-mail, every login that ends without a crash succeeds. */
  lemma DistinctEmailsAllSucceed(db: Db, actions: seq<Action>, emailOf: Account -> string, p: Pid)
    requires WellFormed(db, emailOf)
    requires forall i :: 0 <= i < |actions| ==> Consistent(actions[i], emailOf)
    requires forall a: Account, b: Account :: emailOf(a) == emailOf(b) ==> a == b
    ensures var s := Run(System(db, map[]), actions);
            p in s.procs && s.procs[p].point.Finished? && s.procs[p].point.result != Crashed ==> s.procs[p].point.result.Returned?
  {
    hide Run, WellFormed;
    FirstLoginsConverge(db, actions, emailOf);
    var s := Run(System(db, map[]), actions);
    assert !Answered(s, p, UniqueViolation);
    if p in s.procs {
      assert !SharedEmail(s.db, s.procs[p].input.account, emailOf);
      assert !Answered(s, p, EmailTaken);
    }
  }

  /** Nobody waits for ever: a login that has not finished can step, or waits for one that finishes at its next step. */
  lemma NoDeadlock(s: System, p: Pid, newId: UserId)
    requires Inv(s) && p in s.procs && !s.procs[p].point.Finished? && !IdInUse(s, newId)
    ensures || Next(s, Step(p, newId)) != s
            || exists q :: q in s.procs && q != p && s.procs[q].point.UserPending? && FinishesNext(s, q, newId)
  {
    hide EmailKey, EmailsUnique, IdentitiesLinked, Taken, TakenByOther;
    var key := EmailKey(s.procs[p].input.profile);
    if s.procs[p].point.Known? {
      KnownUser(s, p);
    }
    if ReservedByOther(s, key, p) {
      var q :| q in s.procs && q != p && s.procs[q].point.UserPending? && EmailKey(s.procs[q].input.profile) == key;
      assert FinishesNext(s, q, newId);
    } else {
      assert Next(s, Step(p, newId)).procs[p] != s.procs[p];
    }
  }

  ghost predicate FinishesNext(s: System, q: Pid, newId: UserId) {
    q in Next(s, Step(q, newId)).procs && Next(s, Step(q, newId)).procs[q].point.Finished?
  }

  // ---------------------------------------------------------------- two e-mails of one account

  /** A step leaves a user without an identity exactly when it commits a new user for an account that someone
      else linked in the meantime: only then does the second ON CONFLICT of the transaction drop its row. */
  lemma OrphansExactly(s: System, a: Action)
    requires Inv(s) && Anchored(s.db)
    ensures Anchored(Next(s, a).db) <==>
            !(a.Step? && a.pid in s.procs && s.procs[a.pid].point.UserPending? && s.procs[a.pid].input.account in s.db.identities)
  {
    hide Next, EmailKey, EmailsUnique, Taken, TakenByOther, ReservedByOther;
    var s' := Next(s, a);
    StepCases(s, a);
    if s'.db != s.db {
      var u := s.procs[a.pid].point.user;
      CommitAnchors(s, s', a.pid, u);
    } else {
      NoCommit(s, a);
    }
  }

  lemma CommitAnchors(s: System, s': System, pid: Pid, u: UserId)
    requires Inv(s) && Anchored(s.db) && Wrote(s, s', pid, u)
    ensures Anchored(s'.db) <==> !(s.procs[pid].point.UserPending? && s.procs[pid].input.account in s.db.identities)
  {
    hide EmailKey, EmailsUnique, Taken, TakenByOther, ReservedByOther;
    assert Reserved(s, pid) && Resolved(s.db, s.procs[pid]);
    forall v | v in s'.db.users && v != u ensures HasIdentity(s'.db, v) {
      assert HasIdentity(s.db, v);
      var b: Account :| IsIdentity(s.db, b, v);
      assert IsIdentity(s'.db, b, v);
    }
    if s.procs[pid].point.UserPending? && s.procs[pid].input.account in s.db.identities {
      assert !HasIdentity(s'.db, u);
    } else {
      assert IsIdentity(s'.db, s.procs[pid].input.account, u);
    }
  }

  lemma NoCommit(s: System, a: Action)
    requires Inv(s) && Next(s, a).db == s.db
    ensures !(a.Step? && a.pid in s.procs && s.procs[a.pid].point.UserPending?)
  {
    hide EmailKey, EmailsUnique, Taken, TakenByOther, ReservedByOther;
    if a.pid in s.procs {
      assert Reserved(s, a.pid);
    }
  }

  /** The step commits a new user for an account that has been linked in the meantime. */
  ghost predicate Orphans(s: System, a: Action) {
    a.Step? && a.pid in s.procs && s.procs[a.pid].point.UserPending? && s.procs[a.pid].input.account in s.db.identities
  }

  ghost predicate NoOrphanStep(s: System, actions: seq<Action>)
    decreases |actions|
  {
    actions == [] || (!Orphans(s, actions[0]) && NoOrphanStep(Next(s, actions[0]), actions[1..]))
  }

  /** A user without an identity never gets one: an identity is only linked to a user made with it. */
  lemma StaysOrphaned(s: System, a: Action)
    requires Inv(s) && !Anchored(s.db)
    ensures !Anchored(Next(s, a).db)
  {
    hide Next, EmailKey, EmailsUnique, Taken, TakenByOther, ReservedByOther;
    var u :| u in s.db.users && !HasIdentity(s.db, u);
    var s' := Next(s, a);
    StepCases(s, a);
    if s'.db != s.db {
      assert Reserved(s, a.pid) && Resolved(s.db, s.procs[a.pid]);
      forall b: Account ensures !IsIdentity(s'.db, b, u) {
        assert !IsIdentity(s.db, b, u);
      }
      assert u in s'.db.users && !HasIdentity(s'.db, u);
    }
  }

  lemma {:induction false} OrphanedRun(s: System, actions: seq<Action>)
    requires Inv(s) && !Anchored(s.db)
    ensures !Anchored(Run(s, actions).db)
    decreases |actions|
  {
    hide Next, Inv, Anchored;
    if actions != [] {
      InvKept(s, actions[0]);
      StaysOrphaned(s, actions[0]);
      OrphanedRun(Next(s, actions[0]), actions[1..]);
    }
  }

  /** A run, with any e-mails, ends with every user anchored if and only if it has no such step. */
  lemma {:induction false} OrphanFreeExactly(s: System, actions: seq<Action>)
    requires Inv(s) && Anchored(s.db)
    ensures Anchored(Run(s, actions).db) <==> NoOrphanStep(s, actions)
    decreases |actions|
  {
    hide Next, Inv, Anchored;
    if actions != [] {
      InvKept(s, actions[0]);
      OrphansExactly(s, actions[0]);
      if Orphans(s, actions[0]) {
        OrphanedRun(Next(s, actions[0]), actions[1..]);
      } else {
        OrphanFreeExactly(Next(s, actions[0]), actions[1..]);
      }
    }
  }

  /** Both logins of one account, stepped in turns. */
  function TwoLogins(first: Input, second: Input): seq<Action> {
    [Start(0, first), Start(1, second), Step(0, "u"), Step(1, "v"), Step(0, "u"), Step(1, "v"), Step(0, "u"), Step(1, "v")]
  }

  /** One account, two e-mails, two first logins at once: the second leaves a user behind that no login will
      ever return. */
  lemma TwoEmailsOrphan(account: Account, first: Profile, second: Profile)
    requires EmailKey(first) != EmailKey(second)
    ensures var s := Run(System(Db(map[], map[]), map[]), TwoLogins(Input(account, first), Input(account, second)));
            && Answered(s, 0, Returned("u")) && Answered(s, 1, Returned("v"))
            && s.db == Db(map["u" := first, "v" := second], map[account := "u"])
            && !HasIdentity(s.db, "v")
  {
    hide Next, EmailKey;
    var i, j := Input(account, first), Input(account, second);
    var s0, actions := System(Db(map[], map[]), map[]), TwoLogins(i, j);
    BothStart(i, j);
    BothReserve(i, j);
    BothCommit(i, j);
    RunTwo(s0, actions);
    RunTwo(Both(i, Begin, j, Begin), actions[2..]);
    RunTwo(Both(i, Unknown, j, Unknown), actions[4..]);
    RunTwo(Both(i, UserPending("u"), j, UserPending("v")), actions[6..]);
    assert actions[2..][2..] == actions[4..] && actions[4..][2..] == actions[6..] && |actions[6..][2..]| == 0;
  }

  /** Two logins in flight, nothing committed. */
  function Both(i: Input, p: Point, j: Input, q: Point): System {
    System(Db(map[], map[]), map[0 := Proc(i, p), 1 := Proc(j, q)])
  }

  lemma BothStart(i: Input, j: Input)
    ensures Next(Next(System(Db(map[], map[]), map[]), Start(0, i)), Start(1, j)) == Both(i, Begin, j, Begin)
    ensures Next(Next(Both(i, Begin, j, Begin), Step(0, "u")), Step(1, "v")) == Both(i, Unknown, j, Unknown)
  {
    hide EmailKey, Taken, ReservedByOther, IdInUse, TakenByOther;
  }

  lemma BothReserve(i: Input, j: Input)
    requires EmailKey(i.profile) != EmailKey(j.profile)
    ensures Next(Next(Both(i, Unknown, j, Unknown), Step(0, "u")), Step(1, "v"))
            == Both(i, UserPending("u"), j, UserPending("v"))
  {
    hide EmailKey;
    var s := Both(i, Unknown, j, Unknown);
    assert Next(s, Step(0, "u")) == Both(i, UserPending("u"), j, Unknown);
    assert Next(Both(i, UserPending("u"), j, Unknown), Step(1, "v")).procs == Both(i, UserPending("u"), j, UserPending("v")).procs;
  }

  lemma BothCommit(i: Input, j: Input)
    requires i.account == j.account
    ensures Next(Next(Both(i, UserPending("u"), j, UserPending("v")), Step(0, "u")), Step(1, "v"))
            == System(Db(map["u" := i.profile, "v" := j.profile], map[i.account := "u"]),
                      map[0 := Proc(i, Finished(Returned("u"))), 1 := Proc(j, Finished(Returned("v")))])
  {
    hide EmailKey, Taken, ReservedByOther, IdInUse, TakenByOther;
  }

  lemma RunTwo(s: System, actions: seq<Action>)
    requires |actions| >= 2
    ensures Run(s, actions) == Run(Next(Next(s, actions[0]), actions[1]), actions[2..])
  {
    hide Next;
    assert actions[1..][0] == actions[1] && actions[1..][1..] == actions[2..];
  }
}
