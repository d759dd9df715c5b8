/**
  Connecting a GitHub account to an org: begins and callbacks of any users, statement by statement, together
  with webhooks, nonce sweeps, and org switches and role changes made elsewhere at any moment.
  */
module GithubConnect {
  import opened Text
  import Membership

  type Pid = nat
  type Token = string
  type UserId = string
  type OrgId = string
  type Account = string

  const STATE_TTL: real := 600.0

  datatype Nonce = Nonce(user: UserId, org: OrgId, expires: real)
  datatype Connection = Connection(installation: string, revoked: bool)

  /** github_install_state, the GitHub rows of platform_connection, and what the membership queries answer. */
  datatype Db = Db(nonces: map<Token, Nonce>,
                   rows: map<(OrgId, Account), Connection>,
                   active: map<UserId, OrgId>,
                   roles: map<(UserId, OrgId), Membership.Role>)

  datatype Request = Connect | Callback(installation: string, state: Token)

  datatype Reply =
    | NoOrg
    | Forbidden
    | Redirected(state: Token)
    | MissingParams
    | BadState
    | SessionMismatch
    | AlreadyConnected
    | Connected(org: OrgId, account: Account)
    | Internal

  datatype Point =
    | Arrived
    | OrgRead(org: OrgId)
    | RoleRead(org: OrgId)
    | Took(org: OrgId)
    | Resolved(org: OrgId, account: Account)
    | Guarded(org: OrgId, account: Account)
    | Finished(reply: Reply)

  datatype Proc = Proc(user: UserId, request: Request, point: Point)

  /** `issued` remembers every nonce ever issued. */
  datatype System = System(db: Db, issued: map<Token, Nonce>, procs: map<Pid, Proc>)

  /** A step carries the clock, the random token and GitHub's answer (None: the lookup fails), for whichever
      statement uses them. */
  datatype Action =
    | Arrive(pid: Pid, user: UserId, request: Request)
    | Step(pid: Pid, now: real, token: Token, found: Option<Account>)
    | Crash(pid: Pid)
    | Elsewhere(active: map<UserId, OrgId>, roles: map<(UserId, OrgId), Membership.Role>)
    | Confirm(account: Account, installation: string)
    | Uninstall(account: Account)
    | SweepNonces(now: real)

  /** The partial unique index: another org has a row for this account, revoked or not. */
  ghost predicate TakenByOther(db: Db, org: OrgId, a: Account) {
    exists o :: o != org && (o, a) in db.rows
  }

  /** getOrgForConnection: a revoked row does not resolve. */
  ghost predicate ResolvesTo(db: Db, a: Account, org: OrgId) {
    (org, a) in db.rows && !db.rows[(org, a)].revoked
  }

  ghost predicate ResolvesElsewhere(db: Db, a: Account, org: OrgId) {
    exists o :: o != org && ResolvesTo(db, a, o)
  }

  predicate IsAdmin(db: Db, u: UserId, org: OrgId) { (u, org) in db.roles && !db.roles[(u, org)].Member? }

  predicate IsActive(db: Db, u: UserId, org: OrgId) { u in db.active && db.active[u] == org }

  function At(s: System, pid: Pid, point: Point): System
    requires pid in s.procs
  {
    s.(procs := s.procs[pid := s.procs[pid].(point := point)])
  }

  function Marked(rows: map<(OrgId, Account), Connection>, a: Account, f: Connection -> Connection): map<(OrgId, Account), Connection> {
    map k | k in rows :: if k.1 == a then f(rows[k]) else rows[k]
  }

  ghost function StepBegin(s: System, pid: Pid, now: real, token: Token): System
    requires pid in s.procs
  {
    var p := s.procs[pid];
    match p.point
    case Arrived => At(s, pid, if p.user in s.db.active then OrgRead(s.db.active[p.user]) else Finished(NoOrg))
    case OrgRead(org) => At(s, pid, if IsAdmin(s.db, p.user, org) then RoleRead(org) else Finished(Forbidden))
    case RoleRead(org) =>
      if token in s.issued then s
      else
        var n := Nonce(p.user, org, now + STATE_TTL);
        At(s.(db := s.db.(nonces := s.db.nonces[token := n]), issued := s.issued[token := n]), pid, Finished(Redirected(token)))
    case _ => s
  }

  ghost function StepCallback(s: System, pid: Pid, now: real, account: Option<Account>): System
    requires pid in s.procs && s.procs[pid].request.Callback?
  {
    var p := s.procs[pid];
    var state := p.request.state;
    match p.point
    case Arrived =>
      if p.request.installation == "" || state == "" then At(s, pid, Finished(MissingParams))
      else if state !in s.db.nonces || s.db.nonces[state].expires <= now then At(s, pid, Finished(BadState))
      else
        var n := s.db.nonces[state];
        At(s.(db := s.db.(nonces := s.db.nonces - {state})), pid,
           if n.user != p.user then Finished(SessionMismatch) else Took(n.org))
    case Took(org) => At(s, pid, if account.Some? then Resolved(org, account.value) else Finished(Internal))
    case Resolved(org, a) =>
      At(s, pid, if ResolvesElsewhere(s.db, a, org) then Finished(AlreadyConnected) else Guarded(org, a))
    case Guarded(org, a) =>
      // INSERT ... ON CONFLICT (org_id, platform, workspace_id) DO UPDATE: health is left alone.
      if (org, a) in s.db.rows then
        var row := s.db.rows[(org, a)].(installation := p.request.installation);
        At(s.(db := s.db.(rows := s.db.rows[(org, a) := row])), pid, Finished(Connected(org, a)))
      else if TakenByOther(s.db, org, a) then At(s, pid, Finished(AlreadyConnected))
      else
        var row := Connection(p.request.installation, false);
        At(s.(db := s.db.(rows := s.db.rows[(org, a) := row])), pid, Finished(Connected(org, a)))
    case _ => s
  }

  ghost function Next(s: System, a: Action): System {
    match a
    case Arrive(pid, user, request) =>
      if pid in s.procs then s else s.(procs := s.procs[pid := Proc(user, request, Arrived)])
    case Step(pid, now, token, account) =>
      if pid !in s.procs then s
      else if s.procs[pid].request.Connect? then StepBegin(s, pid, now, token)
      else StepCallback(s, pid, now, account)
    case Crash(pid) =>
      if pid in s.procs && !s.procs[pid].point.Finished? then At(s, pid, Finished(Internal)) else s
    case Elsewhere(active, roles) => s.(db := s.db.(active := active, roles := roles))
    case Confirm(account, installation) =>
      s.(db := s.db.(rows := Marked(s.db.rows, account, c => Connection(installation, false))))
    case Uninstall(account) =>
      s.(db := s.db.(rows := Marked(s.db.rows, account, (c: Connection) => c.(revoked := true))))
    case SweepNonces(now) =>
      s.(db := s.db.(nonces := map k | k in s.db.nonces && s.db.nonces[k].expires > now :: s.db.nonces[k]))
  }

  /** The state after the first n actions. */
  ghost function Run(db: Db, actions: seq<Action>, n: nat): System
    requires n <= |actions|
  {
    if n == 0 then System(db, db.nonces, map[]) else Next(Run(db, actions, n - 1), actions[n - 1])
  }

  // ---------------------------------------------------------------- invariants

  ghost predicate OneOrgEach(db: Db) {
    forall o, p, a :: (o, a) in db.rows && (p, a) in db.rows ==> o == p
  }

  /** The org of a callback that has had its nonce. */
  function OrgOf(point: Point): Option<OrgId> {
    match point
    case Took(org) => Some(org)
    case Resolved(org, _) => Some(org)
    case Guarded(org, _) => Some(org)
    case Finished(Connected(org, _)) => Some(org)
    case _ => None
  }

  predicate Holds(p: Proc) { p.request.Callback? && OrgOf(p.point).Some? }

  ghost predicate Entitled(s: System, p: Proc) {
    Holds(p) ==>
      && p.request.state in s.issued && p.request.state !in s.db.nonces
      && s.issued[p.request.state].user == p.user
      && s.issued[p.request.state].org == OrgOf(p.point).value
      && (p.point.Finished? ==> (p.point.reply.org, p.point.reply.account) in s.db.rows)
  }

  ghost predicate Subtable(s: System) {
    forall k :: k in s.db.nonces ==> k in s.issued && s.issued[k] == s.db.nonces[k]
  }

  ghost predicate NoSharedNonce(s: System) {
    forall p, q :: p in s.procs && q in s.procs && p != q && Holds(s.procs[p]) && Holds(s.procs[q]) ==>
      s.procs[p].request.state != s.procs[q].request.state
  }

  ghost predicate Inv(s: System) {
    && OneOrgEach(s.db) && Subtable(s) && NoSharedNonce(s)
    && forall p :: p in s.procs ==> Entitled(s, s.procs[p])
  }

  /** What every step respects. */
  ghost predicate Extends(s: System, s': System) {
    && (forall k :: k in s.issued ==> k in s'.issued && s'.issued[k] == s.issued[k] && (k !in s.db.nonces ==> k !in s'.db.nonces))
    && (forall k :: k in s.db.rows ==> k in s'.db.rows)
    && Subtable(s')
  }

  lemma BeginMoves(s: System, pid: Pid, now: real, token: Token)
    requires pid in s.procs
    ensures var (s', n) := (StepBegin(s, pid, now, token), Nonce(s.procs[pid].user, "", now + STATE_TTL));
            && s'.db.rows == s.db.rows
            && ((s'.issued == s.issued && s'.db.nonces == s.db.nonces)
                || exists org :: token !in s.issued && s'.issued == s.issued[token := n.(org := org)]
                                 && s'.db.nonces == s.db.nonces[token := n.(org := org)])
  {
    hide IsAdmin;
    if s.procs[pid].point.RoleRead? && token !in s.issued {
      var n := Nonce(s.procs[pid].user, s.procs[pid].point.org, now + STATE_TTL);
      assert StepBegin(s, pid, now, token).issued == s.issued[token := n];
    }
  }

  lemma BeginExtends(s: System, pid: Pid, now: real, token: Token)
    requires Subtable(s) && pid in s.procs
    ensures Extends(s, StepBegin(s, pid, now, token)) && StepBegin(s, pid, now, token).db.rows == s.db.rows
  {
    hide StepBegin;
    BeginMoves(s, pid, now, token);
  }

  lemma CallbackMoves(s: System, pid: Pid, now: real, account: Option<Account>)
    requires pid in s.procs && s.procs[pid].request.Callback?
    ensures var s' := StepCallback(s, pid, now, account);
            && s'.issued == s.issued
            && (s'.db.nonces == s.db.nonces || s'.db.nonces == s.db.nonces - {s.procs[pid].request.state})
            && (forall k :: k in s.db.rows ==> k in s'.db.rows)
  {
    hide ResolvesElsewhere, TakenByOther;
  }

  lemma CallbackExtends(s: System, pid: Pid, now: real, account: Option<Account>)
    requires Subtable(s) && pid in s.procs && s.procs[pid].request.Callback?
    ensures Extends(s, StepCallback(s, pid, now, account))
  {
    hide StepCallback;
    CallbackMoves(s, pid, now, account);
  }

  lemma CallbackUnique(s: System, pid: Pid, now: real, account: Option<Account>)
    requires pid in s.procs && s.procs[pid].request.Callback? && OneOrgEach(s.db)
    ensures OneOrgEach(StepCallback(s, pid, now, account).db)
  {
    hide ResolvesElsewhere;
  }

  lemma StepExtends(s: System, a: Action)
    requires Subtable(s) && OneOrgEach(s.db)
    ensures Extends(s, Next(s, a)) && OneOrgEach(Next(s, a).db)
  {
    hide StepBegin, StepCallback;
    match a
    case Step(pid, now, token, account) =>
      if pid in s.procs {
        if s.procs[pid].request.Connect? {
          BeginExtends(s, pid, now, token);
        } else {
          CallbackExtends(s, pid, now, account);
          CallbackUnique(s, pid, now, account);
        }
      }
    case _ =>
  }

  ghost predicate Acts(a: Action, p: Pid) { (a.Arrive? || a.Step? || a.Crash?) && a.pid == p }

  /** A statement of one process moves that process only. */
  ghost predicate OnlyMoves(s: System, s': System, pid: Pid) {
    && s'.procs.Keys == s.procs.Keys
    && forall p :: p in s.procs && p != pid ==> s'.procs[p] == s.procs[p]
  }

  lemma BeginActs(s: System, pid: Pid, now: real, token: Token)
    requires pid in s.procs
    ensures OnlyMoves(s, StepBegin(s, pid, now, token), pid)
  {
    hide IsAdmin;
  }

  lemma CallbackActs(s: System, pid: Pid, now: real, account: Option<Account>)
    requires pid in s.procs && s.procs[pid].request.Callback?
    ensures OnlyMoves(s, StepCallback(s, pid, now, account), pid)
  {
    hide ResolvesElsewhere, TakenByOther;
  }

  lemma StepActs(s: System, a: Action)
    ensures forall p :: p in s.procs ==> p in Next(s, a).procs && (!Acts(a, p) ==> Next(s, a).procs[p] == s.procs[p])
    ensures forall p :: p in Next(s, a).procs && p !in s.procs ==> Acts(a, p)
  {
    hide StepBegin, StepCallback, Marked;
    if a.Step? && a.pid in s.procs {
      if s.procs[a.pid].request.Connect? {
        BeginActs(s, a.pid, a.now, a.token);
      } else {
        CallbackActs(s, a.pid, a.now, a.found);
      }
    }
  }

  lemma OtherEntitled(s: System, s': System, p: Proc)
    requires Extends(s, s') && Entitled(s, p)
    ensures Entitled(s', p)
  {
  }

  /** The acting process stays entitled, and comes to hold a nonce only by taking it out of the table. */
  lemma ActorEntitled(s: System, a: Action, p: Pid)
    requires Inv(s) && Acts(a, p) && p in Next(s, a).procs
    ensures Entitled(Next(s, a), Next(s, a).procs[p])
    ensures Holds(Next(s, a).procs[p]) ==>
              && p in s.procs && Next(s, a).procs[p].request == s.procs[p].request
              && (Holds(s.procs[p]) || s.procs[p].request.state in s.db.nonces)
  {
    hide ResolvesElsewhere, TakenByOther, IsAdmin, OneOrgEach, NoSharedNonce, StepCallback;
    if p in s.procs {
      assert Entitled(s, s.procs[p]);
      if a.Step? && s.procs[p].request.Callback? {
        CallbackEntitled(s, p, a.now, a.found);
      }
    }
  }

  lemma CallbackEntitled(s: System, p: Pid, now: real, account: Option<Account>)
    requires p in s.procs && s.procs[p].request.Callback? && Subtable(s) && Entitled(s, s.procs[p])
    ensures var s' := StepCallback(s, p, now, account);
            && p in s'.procs && Entitled(s', s'.procs[p])
            && s'.procs[p].request == s.procs[p].request
            && (Holds(s'.procs[p]) ==> Holds(s.procs[p]) || s.procs[p].request.state in s.db.nonces)
  {
    hide ResolvesElsewhere, TakenByOther;
  }

  lemma InvKept(s: System, a: Action)
    requires Inv(s)
    ensures Inv(Next(s, a))
  {
    hide Next, OneOrgEach, Entitled, OrgOf, Extends;
    var s' := Next(s, a);
    StepExtends(s, a);
    ExtendsSubtable(s, s');
    StepActs(s, a);
    forall p | p in s'.procs ensures Entitled(s', s'.procs[p]) {
      if Acts(a, p) {
        ActorEntitled(s, a, p);
      } else {
        OtherEntitled(s, s', s'.procs[p]);
      }
    }
    forall p, q | p in s'.procs && q in s'.procs && p != q && Holds(s'.procs[p]) && Holds(s'.procs[q])
      ensures s'.procs[p].request.state != s'.procs[q].request.state
    {
      if Acts(a, p) || Acts(a, q) {
        var (actor, other) := if Acts(a, p) then (p, q) else (q, p);
        ActorEntitled(s, a, actor);
        HolderTookIt(s, other);
      }
    }
  }

  lemma ExtendsSubtable(s: System, s': System)
    requires Extends(s, s')
    ensures Subtable(s')
  {
  }

  lemma HolderTookIt(s: System, q: Pid)
    requires Inv(s) && q in s.procs && Holds(s.procs[q])
    ensures s.procs[q].request.Callback? && s.procs[q].request.state !in s.db.nonces
  {
    assert Entitled(s, s.procs[q]);
  }

  lemma RunInv(db: Db, actions: seq<Action>, n: nat)
    requires OneOrgEach(db) && n <= |actions|
    ensures Inv(Run(db, actions, n))
  {
    hide Next;
    if n > 0 {
      hide Inv;
      RunInv(db, actions, n - 1);
      InvKept(Run(db, actions, n - 1), actions[n - 1]);
    }
  }

  // ---------------------------------------------------------------- bound for ever

  lemma BoundForever(db: Db, actions: seq<Action>, m: nat, n: nat, a: Account, org: OrgId)
    requires OneOrgEach(db) && m <= n <= |actions| && (org, a) in Run(db, actions, m).db.rows
    ensures forall o :: (o, a) in Run(db, actions, n).db.rows <==> o == org
    decreases n
  {
    hide Next;
    RunInv(db, actions, n);
    if m < n {
      BoundForever(db, actions, m, n - 1, a, org);
      RunInv(db, actions, n - 1);
      StepExtends(Run(db, actions, n - 1), actions[n - 1]);
    }
  }

  // ---------------------------------------------------------------- where the org comes from

  predicate Steps(a: Action, p: Pid) { a.Step? && a.pid == p }

  /** Step i: the begin p of user u reads its active org. */
  ghost predicate ReadsOrg(db: Db, actions: seq<Action>, i: nat, p: Pid, u: UserId, org: OrgId) {
    && i < |actions| && Steps(actions[i], p)
    && p in Run(db, actions, i).procs && Run(db, actions, i).procs[p] == Proc(u, Connect, Arrived)
    && u in Run(db, actions, i).db.active && Run(db, actions, i).db.active[u] == org
  }

  /** Step j: the same begin reads the role of u in that org, and it is admin or owner. */
  ghost predicate ReadsRole(db: Db, actions: seq<Action>, j: nat, p: Pid, u: UserId, org: OrgId) {
    && j < |actions| && Steps(actions[j], p)
    && p in Run(db, actions, j).procs && Run(db, actions, j).procs[p] == Proc(u, Connect, OrgRead(org))
    && (u, org) in Run(db, actions, j).db.roles
    && Run(db, actions, j).db.roles[(u, org)] in {Membership.Owner, Membership.Admin}
  }

  /** Step m: the same begin issues nonce k. */
  ghost predicate Issues(db: Db, actions: seq<Action>, m: nat, p: Pid, u: UserId, org: OrgId, k: Token) {
    && m < |actions| && Steps(actions[m], p)
    && p in Run(db, actions, m).procs && Run(db, actions, m).procs[p] == Proc(u, Connect, RoleRead(org))
    && k !in Run(db, actions, m).issued
    && k in Run(db, actions, m + 1).issued && Run(db, actions, m + 1).issued[k].user == u && Run(db, actions, m + 1).issued[k].org == org
  }

  ghost predicate OrgWasRead(db: Db, actions: seq<Action>, n: nat, p: Pid, u: UserId, org: OrgId) {
    exists i: nat :: i < n && ReadsOrg(db, actions, i, p, u, org)
  }

  ghost predicate RoleWasRead(db: Db, actions: seq<Action>, n: nat, p: Pid, u: UserId, org: OrgId) {
    exists i: nat, j: nat :: i < j < n && ReadsOrg(db, actions, i, p, u, org) && ReadsRole(db, actions, j, p, u, org)
  }

  /** One begin of this user read the org as its active org, then its own role in it, then issued the nonce. */
  ghost predicate Begun(db: Db, actions: seq<Action>, n: nat, u: UserId, org: OrgId, k: Token) {
    exists p, m: nat :: m < n && RoleWasRead(db, actions, m, p, u, org) && Issues(db, actions, m, p, u, org, k)
  }

  ghost predicate Sourced(db: Db, actions: seq<Action>, n: nat, p: Pid, proc: Proc) {
    proc.request.Connect? ==>
      match proc.point
      case OrgRead(org) => OrgWasRead(db, actions, n, p, proc.user, org)
      case RoleRead(org) => RoleWasRead(db, actions, n, p, proc.user, org)
      case _ => true
  }

  ghost predicate NoncesBegun(db: Db, actions: seq<Action>, n: nat, s: System) {
    forall k :: k in s.issued ==> k in db.nonces || Begun(db, actions, n, s.issued[k].user, s.issued[k].org, k)
  }

  /** What was read before step n was read before step n + 1, and so was what step n reads. */
  lemma Later(db: Db, actions: seq<Action>, n: nat, p: Pid, u: UserId, org: OrgId)
    ensures OrgWasRead(db, actions, n, p, u, org) ==> OrgWasRead(db, actions, n + 1, p, u, org)
    ensures ReadsOrg(db, actions, n, p, u, org) ==> OrgWasRead(db, actions, n + 1, p, u, org)
    ensures RoleWasRead(db, actions, n, p, u, org) ==> RoleWasRead(db, actions, n + 1, p, u, org)
    ensures OrgWasRead(db, actions, n, p, u, org) && ReadsRole(db, actions, n, p, u, org) ==>
              RoleWasRead(db, actions, n + 1, p, u, org)
  {
    hide ReadsOrg, ReadsRole;
    if OrgWasRead(db, actions, n, p, u, org) {
      var i: nat :| i < n && ReadsOrg(db, actions, i, p, u, org);
      assert i < n + 1 && ReadsOrg(db, actions, i, p, u, org);
    }
    if RoleWasRead(db, actions, n, p, u, org) {
      var i: nat, j: nat :| i < j < n && ReadsOrg(db, actions, i, p, u, org) && ReadsRole(db, actions, j, p, u, org);
      assert i < j < n + 1;
    }
  }

  lemma LaterBegun(db: Db, actions: seq<Action>, n: nat, u: UserId, org: OrgId, k: Token)
    ensures Begun(db, actions, n, u, org, k) ==> Begun(db, actions, n + 1, u, org, k)
  {
    hide RoleWasRead, Issues;
    if Begun(db, actions, n, u, org, k) {
      var p, m: nat :| m < n && RoleWasRead(db, actions, m, p, u, org) && Issues(db, actions, m, p, u, org, k);
      assert m < n + 1 && RoleWasRead(db, actions, m, p, u, org);
    }
  }

  lemma OneSourced(db: Db, actions: seq<Action>, n: nat, p: Pid)
    requires n < |actions| && p in Run(db, actions, n + 1).procs
    requires p in Run(db, actions, n).procs ==> Sourced(db, actions, n, p, Run(db, actions, n).procs[p])
    ensures Sourced(db, actions, n + 1, p, Run(db, actions, n + 1).procs[p])
  {
    hide OrgWasRead, RoleWasRead, StepCallback, Marked;
    var s := Run(db, actions, n);
    StepActs(s, actions[n]);
    if p in s.procs && s.procs[p].request.Callback? {
      RequestKept(s, actions[n], p);
    } else if p in s.procs {
      var user, point := s.procs[p].user, s.procs[p].point;
      if user in s.db.active {
        Later(db, actions, n, p, user, s.db.active[user]);
      }
      if point.OrgRead? || point.RoleRead? {
        Later(db, actions, n, p, user, point.org);
      }
    }
  }

  lemma RequestKept(s: System, a: Action, p: Pid)
    requires p in s.procs
    ensures p in Next(s, a).procs && Next(s, a).procs[p].request == s.procs[p].request
  {
    hide ResolvesElsewhere, TakenByOther, IsAdmin, Marked;
  }

  /** A nonce comes from a begin that has read an org and its role. */
  lemma IssuedBy(s: System, a: Action, k: Token)
    requires k in Next(s, a).issued && k !in s.issued
    ensures a.Step? && a.pid in s.procs
    ensures s.procs[a.pid] == Proc(Next(s, a).issued[k].user, Connect, RoleRead(Next(s, a).issued[k].org))
  {
    hide IsAdmin, ResolvesElsewhere, TakenByOther, Marked;
  }

  lemma NewNonce(db: Db, actions: seq<Action>, n: nat, k: Token)
    requires n < |actions| && k in Run(db, actions, n + 1).issued && k !in Run(db, actions, n).issued
    requires forall p :: p in Run(db, actions, n).procs ==> Sourced(db, actions, n, p, Run(db, actions, n).procs[p])
    ensures var nonce := Run(db, actions, n + 1).issued[k]; Begun(db, actions, n + 1, nonce.user, nonce.org, k)
  {
    hide Next, OrgWasRead, RoleWasRead;
    var s := Run(db, actions, n);
    IssuedBy(s, actions[n], k);
    var nonce, p := Run(db, actions, n + 1).issued[k], actions[n].pid;
    assert Sourced(db, actions, n, p, s.procs[p]);
    assert RoleWasRead(db, actions, n, p, nonce.user, nonce.org) && Issues(db, actions, n, p, nonce.user, nonce.org, k);
  }

  lemma RunSourced(db: Db, actions: seq<Action>, n: nat)
    requires OneOrgEach(db) && n <= |actions|
    ensures forall p :: p in Run(db, actions, n).procs ==> Sourced(db, actions, n, p, Run(db, actions, n).procs[p])
    ensures NoncesBegun(db, actions, n, Run(db, actions, n))
  {
    hide Next, OrgWasRead, RoleWasRead, Begun;
    if n > 0 {
      var s, s' := Run(db, actions, n - 1), Run(db, actions, n);
      RunSourced(db, actions, n - 1);
      RunInv(db, actions, n - 1);
      StepExtends(s, actions[n - 1]);
      forall p | p in s'.procs ensures Sourced(db, actions, n, p, s'.procs[p]) {
        OneSourced(db, actions, n - 1, p);
      }
      forall k | k in s'.issued ensures k in db.nonces || Begun(db, actions, n, s'.issued[k].user, s'.issued[k].org, k) {
        if k in s.issued {
          LaterBegun(db, actions, n - 1, s'.issued[k].user, s'.issued[k].org, k);
        } else {
          NewNonce(db, actions, n - 1, k);
        }
      }
    }
  }

  // ---------------------------------------------------------------- main results

  ghost predicate Bound(s: System, p: Pid, org: OrgId, a: Account) {
    p in s.procs && s.procs[p].request.Callback? && s.procs[p].point == Finished(Connected(org, a))
  }

  ghost predicate Explained(db: Db, s: System, key: (OrgId, Account)) {
    key in db.rows || exists p :: Bound(s, p, key.0, key.1)
  }

  lemma RowsExplained(db: Db, actions: seq<Action>, n: nat)
    requires OneOrgEach(db) && n <= |actions|
    ensures forall key: (OrgId, Account) :: key in Run(db, actions, n).db.rows ==> Explained(db, Run(db, actions, n), key)
  {
    hide Next;
    if n > 0 {
      var s, a := Run(db, actions, n - 1), actions[n - 1];
      RowsExplained(db, actions, n - 1);
      forall key: (OrgId, Account) | key in Next(s, a).db.rows ensures Explained(db, Next(s, a), key) {
        if key !in s.db.rows {
          StepExplains(s, a, key);
        } else if key !in db.rows {
          var p :| Bound(s, p, key.0, key.1);
          BoundStays(s, a, p, key.0, key.1);
        }
      }
    }
  }

  lemma StepExplains(s: System, a: Action, key: (OrgId, Account))
    requires key in Next(s, a).db.rows && key !in s.db.rows
    ensures a.Step? && Bound(Next(s, a), a.pid, key.0, key.1)
  {
    hide IsAdmin, ResolvesElsewhere, TakenByOther;
  }

  lemma BoundStays(s: System, a: Action, p: Pid, org: OrgId, acct: Account)
    requires Bound(s, p, org, acct)
    ensures Bound(Next(s, a), p, org, acct)
  {
    hide IsAdmin, ResolvesElsewhere, TakenByOther, Marked;
  }

  /**
    Account binding. Over every interleaving of begins, callbacks and replays of any users, webhooks, sweeps,
    org switches and role changes: an account has at most one org; every binding was made by a callback of the
    very user its nonce was issued to, to the org of that nonce; the begin that issued the nonce had itself read
    that org as the user's active org, and then the user's role in it as admin; and no nonce has been used for
    two bindings.
   */
  lemma AccountBinding(db: Db, actions: seq<Action>)
    requires OneOrgEach(db)
    ensures var s := Run(db, actions, |actions|);
            && OneOrgEach(s.db)
            && (forall key: (OrgId, Account) :: key in s.db.rows ==> Explained(db, s, key))
            && (forall p, org, a :: Bound(s, p, org, a) ==>
                  && s.procs[p].request.state in s.issued
                  && s.issued[s.procs[p].request.state].user == s.procs[p].user
                  && s.issued[s.procs[p].request.state].org == org
                  && (org, a) in s.db.rows)
            && (forall k :: k in s.issued ==>
                  k in db.nonces || Begun(db, actions, |actions|, s.issued[k].user, s.issued[k].org, k))
            && (forall p, q, org, a, o, b :: Bound(s, p, org, a) && Bound(s, q, o, b) && p != q ==>
                  s.procs[p].request.state != s.procs[q].request.state)
  {
    hide Run, Begun, Explained, OneOrgEach;
    var s := Run(db, actions, |actions|);
    RunInv(db, actions, |actions|);
    RowsExplained(db, actions, |actions|);
    RunSourced(db, actions, |actions|);
    forall p, org, a | Bound(s, p, org, a)
      ensures s.procs[p].request.state in s.issued && (org, a) in s.db.rows
      ensures s.issued[s.procs[p].request.state].user == s.procs[p].user && s.issued[s.procs[p].request.state].org == org
    {
      assert Entitled(s, s.procs[p]);
    }
    forall p, q, org, a, o, b | Bound(s, p, org, a) && Bound(s, q, o, b) && p != q
      ensures s.procs[p].request.state != s.procs[q].request.state
    {
      assert Holds(s.procs[p]) && Holds(s.procs[q]);
    }
  }

  // ---------------------------------------------------------------- races

  ghost predicate AtGuard(s: System, p: Pid, org: OrgId, a: Account) {
    p in s.procs && s.procs[p].request.Callback? && s.procs[p].point == Guarded(org, a)
  }

  /** What can become of a callback that has passed the read guard. */
  ghost predicate PastGuard(s: System, p: Pid, org: OrgId, a: Account) {
    && p in s.procs && s.procs[p].request.Callback?
    && match s.procs[p].point
       case Guarded(o, b) => o == org && b == a
       case Finished(Connected(o, b)) => o == org && b == a && (org, a) in s.db.rows
       case Finished(AlreadyConnected) => TakenByOther(s.db, org, a)
       case Finished(Internal) => true
       case _ => false
  }

  lemma GuardStep(s: System, x: Action, p: Pid, org: OrgId, a: Account)
    requires PastGuard(s, p, org, a) && Inv(s)
    ensures PastGuard(Next(s, x), p, org, a)
  {
    StepExtends(s, x);
    RowsStay(s, Next(s, x), org, a);
    if Steps(x, p) {
      hide ResolvesElsewhere, TakenByOther, StepBegin;
    } else {
      hide Next, Inv;
      OthersPoint(s, x, p);
    }
  }

  lemma RowsStay(s: System, s': System, org: OrgId, a: Account)
    requires Extends(s, s')
    ensures (org, a) in s.db.rows ==> (org, a) in s'.db.rows
    ensures TakenByOther(s.db, org, a) ==> TakenByOther(s'.db, org, a)
  {
    if TakenByOther(s.db, org, a) {
      var o :| o != org && (o, a) in s.db.rows;
      assert (o, a) in s'.db.rows;
    }
  }

  lemma OthersPoint(s: System, x: Action, p: Pid)
    requires p in s.procs && !Steps(x, p)
    ensures p in Next(s, x).procs && Next(s, x).procs[p].request == s.procs[p].request
    ensures Next(s, x).procs[p].point == s.procs[p].point || Next(s, x).procs[p].point == Finished(Internal)
    ensures s.procs[p].point.Finished? ==> Next(s, x).procs[p].point == s.procs[p].point
  {
    hide StepBegin, StepCallback, Marked;
    StepActs(s, x);
  }

  lemma GuardRun(db: Db, actions: seq<Action>, m: nat, n: nat, p: Pid, org: OrgId, a: Account)
    requires OneOrgEach(db) && m <= n <= |actions| && AtGuard(Run(db, actions, m), p, org, a)
    ensures PastGuard(Run(db, actions, n), p, org, a)
    decreases n
  {
    hide Next, Inv, PastGuard;
    if m < n {
      GuardRun(db, actions, m, n - 1, p, org, a);
      RunInv(db, actions, n - 1);
      GuardStep(Run(db, actions, n - 1), actions[n - 1], p, org, a);
    } else {
      AtGuardIsPast(Run(db, actions, m), p, org, a);
    }
  }

  lemma AtGuardIsPast(s: System, p: Pid, org: OrgId, a: Account)
    requires AtGuard(s, p, org, a)
    ensures PastGuard(s, p, org, a)
  {
  }

  ghost predicate Ended(s: System, p: Pid) { p in s.procs && s.procs[p].point.Finished? }

  ghost predicate Replied(s: System, p: Pid, r: Reply) { p in s.procs && s.procs[p].point == Finished(r) }

  /** The read guard races, the index decides. However many callbacks for one account have passed the guard at step
      m, and whatever follows: one that runs to its end is connected or turned away by the org that then has the
      account; and where one is connected, none of another org ever is. */
  lemma RaceHasOneWinner(db: Db, actions: seq<Action>, m: nat, n: nat, a: Account)
    requires OneOrgEach(db) && m <= n <= |actions|
    ensures var was, s := Run(db, actions, m), Run(db, actions, n);
            && (forall p, org :: AtGuard(was, p, org, a) && Ended(s, p) && !Replied(s, p, Internal) ==>
                  exists o :: (o, a) in s.db.rows && Replied(s, p, if o == org then Connected(org, a) else AlreadyConnected))
            && (forall p, q, org, other ::
                  AtGuard(was, p, org, a) && AtGuard(was, q, other, a) && org != other && Replied(s, p, Connected(org, a)) ==>
                    !Ended(s, q) || Replied(s, q, AlreadyConnected) || Replied(s, q, Internal))
  {
    hide Run, Inv;
    RunInv(db, actions, n);
    var s := Run(db, actions, n);
    RunUnique(db, actions, n);
    forall p, org | AtGuard(Run(db, actions, m), p, org, a) ensures PastGuard(s, p, org, a) {
      GuardRun(db, actions, m, n, p, org, a);
    }
  }

  lemma RunUnique(db: Db, actions: seq<Action>, n: nat)
    requires OneOrgEach(db) && n <= |actions|
    ensures OneOrgEach(Run(db, actions, n).db)
  {
    RunInv(db, actions, n);
  }

  // ---------------------------------------------------------------- when a bound account resolves

  /** What one event does to a row: it appears healthy, an uninstall revokes it, a confirmation heals it and renews its
      installation, connecting it again renews the installation, and nothing else touches either. */
  lemma RowStep(s: System, x: Action, org: OrgId, a: Account)
    ensures var (key, s') := ((org, a), Next(s, x));
            && (key in s.db.rows ==>
                  && key in s'.db.rows
                  && s'.db.rows[key].revoked ==
                     (if x.Uninstall? && x.account == a then true
                      else if x.Confirm? && x.account == a then false
                      else s.db.rows[key].revoked)
                  && s'.db.rows[key].installation ==
                     (if x.Confirm? && x.account == a then x.installation
                      else if x.Step? && AtGuard(s, x.pid, org, a) then s.procs[x.pid].request.installation
                      else s.db.rows[key].installation))
            && (key !in s.db.rows && key in s'.db.rows ==> !s'.db.rows[key].revoked)
  {
    hide ResolvesElsewhere, TakenByOther, StepBegin, StepCallback, Marked;
    match x
    case Step(pid, now, token, found) =>
      if pid in s.procs {
        if s.procs[pid].request.Connect? {
          BeginMoves(s, pid, now, token);
        } else {
          BindStep(s, pid, now, found, org, a);
        }
      }
    case Confirm(account, installation) => MarkedRow(s.db.rows, account, c => Connection(installation, false), (org, a));
    case Uninstall(account) => MarkedRow(s.db.rows, account, (c: Connection) => c.(revoked := true), (org, a));
    case _ =>
  }

  lemma MarkedRow(rows: map<(OrgId, Account), Connection>, a: Account, f: Connection -> Connection, key: (OrgId, Account))
    ensures key in Marked(rows, a, f) <==> key in rows
    ensures key in rows ==> Marked(rows, a, f)[key] == if key.1 == a then f(rows[key]) else rows[key]
  {
  }

  lemma BindStep(s: System, pid: Pid, now: real, found: Option<Account>, org: OrgId, a: Account)
    requires pid in s.procs && s.procs[pid].request.Callback?
    ensures var (key, s') := ((org, a), StepCallback(s, pid, now, found));
            && (key in s.db.rows ==>
                  key in s'.db.rows
                  && s'.db.rows[key] == if AtGuard(s, pid, org, a) then s.db.rows[key].(installation := s.procs[pid].request.installation)
                                        else s.db.rows[key])
            && (key !in s.db.rows && key in s'.db.rows ==> !s'.db.rows[key].revoked)
  {
    hide ResolvesElsewhere, TakenByOther;
  }

  /** At step m the row of this org and account came to be, or was confirmed. */
  ghost predicate Healed(db: Db, actions: seq<Action>, m: nat, org: OrgId, a: Account)
    requires m <= |actions|
  {
    if m == 0 then ResolvesTo(db, a, org)
    else
      && (org, a) in Run(db, actions, m).db.rows
      && ((org, a) !in Run(db, actions, m - 1).db.rows || (actions[m - 1].Confirm? && actions[m - 1].account == a))
  }

  predicate NoUninstall(actions: seq<Action>, m: nat, n: nat, a: Account)
    requires n <= |actions|
  {
    forall i :: m <= i < n ==> !(actions[i].Uninstall? && actions[i].account == a)
  }

  /** In every run, an account resolves to an org at step n if and only if no uninstall has happened since the row
      came to be or was last confirmed. Connecting again heals nothing. */
  lemma {:induction false} ResolvesExactly(db: Db, actions: seq<Action>, n: nat, org: OrgId, a: Account)
    requires n <= |actions|
    ensures ResolvesTo(Run(db, actions, n).db, a, org) <==>
            exists m: nat :: m <= n && Healed(db, actions, m, org, a) && NoUninstall(actions, m, n, a)
  {
    hide Next;
    if n > 0 {
      ResolvesExactly(db, actions, n - 1, org, a);
      RowStep(Run(db, actions, n - 1), actions[n - 1], org, a);
      if ResolvesTo(Run(db, actions, n).db, a, org) {
        if (org, a) !in Run(db, actions, n - 1).db.rows || (actions[n - 1].Confirm? && actions[n - 1].account == a) {
          assert Healed(db, actions, n, org, a) && NoUninstall(actions, n, n, a);
        } else {
          var m: nat :| m <= n - 1 && Healed(db, actions, m, org, a) && NoUninstall(actions, m, n - 1, a);
          assert NoUninstall(actions, m, n, a);
        }
      }
      if m: nat :| m <= n && Healed(db, actions, m, org, a) && NoUninstall(actions, m, n, a) {
        if m < n {
          assert NoUninstall(actions, m, n - 1, a);
        }
      }
    } else {
      assert ResolvesTo(db, a, org) ==> Healed(db, actions, 0, org, a) && NoUninstall(actions, 0, 0, a);
    }
  }
}
