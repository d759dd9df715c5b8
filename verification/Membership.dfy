/**
  Org membership as a concurrent system: the tables, the statements of every membership call as
  separate atomic steps, the per-org advisory lock held to commit, and any number of calls in flight.

  A transaction's writes become visible when it commits. An autocommitted `INSERT ... SELECT ... ON
  CONFLICT` is two steps: its snapshot, then the insert with its conflict check.
  */
module Membership {
  import opened Text

  type UserId = string
  type OrgId = string
  type Pid = nat

  datatype Role = Owner | Admin | Member
  datatype Row = Row(role: Role, since: int)
  type Key = (UserId, OrgId)

  /** app_user, organization, org_membership and user_active_org. */
  datatype Db = Db(users: set<UserId>, orgs: set<OrgId>, members: map<Key, Row>, active: map<UserId, OrgId>)

  datatype Call =
    | EnsurePersonal(user: UserId)
    | EnsureInstance(user: UserId, org: OrgId)
    | CreateOrg(user: UserId, org: OrgId)
    | SetActive(user: UserId, org: OrgId)
    | AddMember(org: OrgId, found: Option<UserId>, role: Role)
    | SetRole(org: OrgId, user: UserId, role: Role)
    | Remove(org: OrgId, user: UserId)

  datatype Result =
    | Done
    | Returned(org: OrgId)
    | NotFound
    | LastOwner
    | AlreadyMember
    | ForeignKeyViolation
    | UniqueViolation
    | NoOrg
    | Crashed

  /** How far a call has come, with what it has read so far. */
  datatype Point =
    | Begin
    | OrgSnapshot(none: bool)
    | OrgReady
    | MemberSnapshot(none: bool)
    | MemberReady
    | ActiveSnapshot(first: Option<OrgId>)
    | ActiveReady
    | OrgMade
    | OwnerMade
    | Locked
    | RoleChosen(role: Role)
    | RoleRead(role: Role)
    | Counted(owners: nat)
    | Written
    | Finished(result: Result)

  datatype Proc = Proc(call: Call, point: Point)
  datatype System = System(db: Db, locks: map<OrgId, Pid>, procs: map<Pid, Proc>)

  /** One event of a run: a call starts, a call executes its next statement (a row it inserts is stamped
      `at`), or its process dies and the transaction is rolled back. A step that has to wait does nothing. */
  datatype Action = Start(pid: Pid, call: Call) | Step(pid: Pid, at: int) | Crash(pid: Pid)

  // ---------------------------------------------------------------- queries

  function PersonalOrg(u: UserId): OrgId { "org_u_" + u }

  predicate LexLeq(a: string, b: string) {
    a == "" || (b != "" && (a[0] < b[0] || (a[0] == b[0] && LexLeq(a[1..], b[1..]))))
  }

  /** ORDER BY created_at, org_id among the memberships of one user. */
  predicate Before(db: Db, u: UserId, a: OrgId, b: OrgId)
    requires (u, a) in db.members && (u, b) in db.members
  {
    var x, y := db.members[(u, a)].since, db.members[(u, b)].since;
    x < y || (x == y && LexLeq(a, b))
  }

  ghost function OrgsOf(db: Db, u: UserId): (orgs: set<OrgId>)
    ensures forall o :: o in orgs <==> (u, o) in db.members
  {
    set k | k in db.members && k.0 == u :: k.1
  }

  ghost predicate HasOrg(db: Db, u: UserId) {
    exists o :: (u, o) in db.members
  }

  ghost predicate IsFirst(db: Db, u: UserId, o: OrgId, among: set<OrgId>)
    requires forall o' :: o' in among ==> (u, o') in db.members
  {
    o in among && forall o' :: o' in among ==> Before(db, u, o, o')
  }

  /** The first of some memberships in that order. */
  ghost function First(db: Db, u: UserId, among: set<OrgId>): (o: OrgId)
    requires among != {} && forall o' :: o' in among ==> (u, o') in db.members
    ensures IsFirst(db, u, o, among)
  {
    FirstExists(db, u, among);
    var o :| IsFirst(db, u, o, among);
    o
  }

  ghost function FirstOrg(db: Db, u: UserId): Option<OrgId> {
    if OrgsOf(db, u) == {} then None else Some(First(db, u, OrgsOf(db, u)))
  }

  /** COALESCE(the active org if it is still a membership, the first membership). */
  ghost function GetActiveOrg(db: Db, u: UserId): Option<OrgId> {
    if u in db.active && (u, db.active[u]) in db.members then Some(db.active[u]) else FirstOrg(db, u)
  }

  ghost function OwnerRows(db: Db, o: OrgId): set<Key> {
    set k | k in db.members && k.1 == o && db.members[k].role == Owner
  }

  ghost function RowsOf(db: Db, o: OrgId): set<Key> {
    set k | k in db.members && k.1 == o
  }

  lemma NoRowsIs(db: Db, o: OrgId)
    ensures RowsOf(db, o) == {} <==> forall u :: (u, o) !in db.members
  {
    if k :| k in RowsOf(db, o) {
      assert (k.0, o) in db.members;
    }
    assert forall u :: (u, o) in db.members ==> (u, o) in RowsOf(db, o);
  }

  lemma {:induction false} LexTotal(a: string, b: string)
    ensures LexLeq(a, b) || LexLeq(b, a)
    ensures LexLeq(a, b) && LexLeq(b, a) ==> a == b
  {
    if a != "" && b != "" && a[0] == b[0] {
      LexTotal(a[1..], b[1..]);
      assert a == [a[0]] + a[1..] && b == [b[0]] + b[1..];
    }
  }

  lemma {:induction false} LexTransitive(a: string, b: string, c: string)
    requires LexLeq(a, b) && LexLeq(b, c)
    ensures LexLeq(a, c)
  {
    if a != "" && a[0] == b[0] == c[0] {
      LexTransitive(a[1..], b[1..], c[1..]);
    }
  }

  /** The order of two texts said at one place: one begins with the other, or they first differ there. */
  ghost predicate NoLater(a: string, b: string) {
    a <= b || exists k :: 0 <= k < |a| && k < |b| && a[..k] == b[..k] && a[k] < b[k]
  }

  lemma {:induction false} LexMeans(a: string, b: string)
    ensures LexLeq(a, b) <==> NoLater(a, b)
  {
    if a != "" && b != "" && a[0] == b[0] {
      LexMeans(a[1..], b[1..]);
      assert a <= b <==> a[1..] <= b[1..];
      forall k | 0 < k < |a| && k < |b| ensures a[..k] == b[..k] <==> a[1..][..k - 1] == b[1..][..k - 1] {
        assert a[..k] == [a[0]] + a[1..][..k - 1] && b[..k] == [b[0]] + b[1..][..k - 1];
      }
      if NoLater(a[1..], b[1..]) && !(a <= b) {
        var k :| 0 <= k < |a| - 1 && k < |b| - 1 && a[1..][..k] == b[1..][..k] && a[1..][k] < b[1..][k];
        assert a[..k + 1] == b[..k + 1] && a[k + 1] < b[k + 1];
      }
      if NoLater(a, b) && !(a <= b) {
        var k :| 0 <= k < |a| && k < |b| && a[..k] == b[..k] && a[k] < b[k];
        assert a[1..][..k - 1] == b[1..][..k - 1] && a[1..][k - 1] < b[1..][k - 1];
      }
    } else if a != "" && b != "" {
      assert a[..0] == b[..0];
      assert forall k :: 0 < k < |a| && k < |b| && a[..k] == b[..k] ==> a[..k][0] == a[0] && b[..k][0] == b[0];
    }
  }

  lemma BeforeMeans(db: Db, u: UserId, a: OrgId, b: OrgId)
    requires (u, a) in db.members && (u, b) in db.members
    ensures Before(db, u, a, b) <==>
            || db.members[(u, a)].since < db.members[(u, b)].since
            || (db.members[(u, a)].since == db.members[(u, b)].since && NoLater(a, b))
  {
    LexMeans(a, b);
  }

  /** The first membership, on the rows: none was joined earlier, and of those joined at the same time none has an
      earlier name. */
  lemma FirstOrgMeans(db: Db, u: UserId)
    ensures match FirstOrg(db, u)
            case None => forall o :: (u, o) !in db.members
            case Some(first) =>
              && (u, first) in db.members
              && forall o :: (u, o) in db.members ==>
                   || db.members[(u, first)].since < db.members[(u, o)].since
                   || (db.members[(u, first)].since == db.members[(u, o)].since && NoLater(first, o))
  {
    hide First, Before;
    var first := FirstOrg(db, u);
    if first.None? {
      assert forall o :: (u, o) in db.members ==> o in OrgsOf(db, u);
    } else {
      assert IsFirst(db, u, first.value, OrgsOf(db, u));
      forall o | (u, o) in db.members
        ensures db.members[(u, first.value)].since < db.members[(u, o)].since
                || (db.members[(u, first.value)].since == db.members[(u, o)].since && NoLater(first.value, o))
      {
        assert o in OrgsOf(db, u);
        BeforeMeans(db, u, first.value, o);
      }
    }
  }

  lemma {:induction false} FirstExists(db: Db, u: UserId, among: set<OrgId>)
    requires among != {} && forall o' :: o' in among ==> (u, o') in db.members
    ensures exists o :: IsFirst(db, u, o, among)
    decreases among
  {
    var x :| x in among;
    var others := among - {x};
    LexTotal(x, x);
    if others == {} {
      assert among == {x};
      assert IsFirst(db, u, x, among);
    } else {
      FirstExists(db, u, others);
      var y :| IsFirst(db, u, y, others);
      LexTotal(x, y);
      var least := if Before(db, u, x, y) then x else y;
      forall o | o in among ensures Before(db, u, least, o) {
        if o != x && Before(db, u, x, y) {
          assert Before(db, u, y, o);
          if db.members[(u, x)].since == db.members[(u, y)].since == db.members[(u, o)].since {
            LexTransitive(x, y, o);
          }
        }
      }
      assert IsFirst(db, u, least, among);
    }
  }

  // ---------------------------------------------------------------- statements

  /** INSERT INTO org_membership ... ON CONFLICT DO NOTHING. */
  function Enrolled(db: Db, u: UserId, o: OrgId, role: Role, at: int): Db {
    if (u, o) in db.members then db else db.(members := db.members[(u, o) := Row(role, at)])
  }

  predicate ForeignKeysHold(db: Db, u: UserId, o: OrgId) {
    u in db.users && o in db.orgs
  }

  function WithDefaultActive(db: Db, u: UserId, o: OrgId): Db {
    if u in db.active then db else db.(active := db.active[u := o])
  }

  /** DELETE of the membership, then of the active selection if it pointed at this org. */
  function Removed(db: Db, u: UserId, o: OrgId): Db {
    db.(members := db.members - {(u, o)},
        active := if u in db.active && db.active[u] == o then db.active - {u} else db.active)
  }

  function RoleChanged(db: Db, u: UserId, o: OrgId, role: Role): Db {
    if (u, o) in db.members then db.(members := db.members[(u, o) := db.members[(u, o)].(role := role)]) else db
  }

  // ---------------------------------------------------------------- steps

  predicate TakesLock(call: Call) {
    call.EnsureInstance? || call.SetRole? || call.Remove?
  }

  predicate InsideLock(point: Point) {
    point.Locked? || point.RoleChosen? || point.RoleRead? || point.Counted? || point.Written?
  }

  predicate Holding(p: Proc) {
    TakesLock(p.call) && InsideLock(p.point)
  }

  function At(s: System, pid: Pid, point: Point): System
    requires pid in s.procs
  {
    s.(procs := s.procs[pid := s.procs[pid].(point := point)])
  }

  /** The transaction ends, with or without its writes: the lock goes with it. */
  function End(s: System, pid: Pid, result: Result): System
    requires pid in s.procs
  {
    At(if Holding(s.procs[pid]) then s.(locks := s.locks - {s.procs[pid].call.org}) else s, pid, Finished(result))
  }

  ghost function Next(s: System, a: Action): System {
    match a
    case Start(pid, call) =>
      if pid in s.procs then s else s.(procs := s.procs[pid := Proc(call, Begin)])
    case Crash(pid) =>
      if pid in s.procs && !s.procs[pid].point.Finished? then End(s, pid, Crashed) else s
    case Step(pid, at) =>
      if pid !in s.procs || s.procs[pid].point.Finished? then s
      else
        match s.procs[pid].call
        case EnsurePersonal(u) => StepPersonal(s, pid, u, at)
        case EnsureInstance(u, o) => StepInstance(s, pid, u, o, at)
        case CreateOrg(u, o) => StepCreate(s, pid, u, o, at)
        case SetActive(u, o) =>
          if ForeignKeysHold(s.db, u, o)
          then End(s.(db := s.db.(active := s.db.active[u := o])), pid, Done)
          else End(s, pid, ForeignKeyViolation)
        case AddMember(o, found, role) => StepAdd(s, pid, o, found, role, at)
        case SetRole(o, u, role) => StepSetRole(s, pid, o, u, role)
        case Remove(o, u) => StepRemove(s, pid, o, u)
  }

  ghost function StepPersonal(s: System, pid: Pid, u: UserId, at: int): System
    requires pid in s.procs
  {
    var db := s.db;
    var home := PersonalOrg(u);
    match s.procs[pid].point
    case Begin => At(s, pid, OrgSnapshot(u in db.users && !HasOrg(db, u)))
    case OrgSnapshot(none) =>
      At(if none then s.(db := db.(orgs := db.orgs + {home})) else s, pid, OrgReady)
    case OrgReady => At(s, pid, MemberSnapshot(!HasOrg(db, u)))
    case MemberSnapshot(none) =>
      if none && (u, home) !in db.members && !ForeignKeysHold(db, u, home) then End(s, pid, ForeignKeyViolation)
      else At(if none then s.(db := Enrolled(db, u, home, Owner, at)) else s, pid, MemberReady)
    case MemberReady => At(s, pid, ActiveSnapshot(FirstOrg(db, u)))
    case ActiveSnapshot(first) =>
      At(if first.Some? then s.(db := WithDefaultActive(db, u, first.value)) else s, pid, ActiveReady)
    case ActiveReady =>
      if GetActiveOrg(db, u).Some? then End(s, pid, Returned(GetActiveOrg(db, u).value)) else End(s, pid, NoOrg)
    case _ => s
  }

  function Lock(s: System, pid: Pid, o: OrgId): System
    requires pid in s.procs
  {
    if o in s.locks then s else At(s.(locks := s.locks[o := pid]), pid, Locked)
  }

  ghost function StepInstance(s: System, pid: Pid, u: UserId, o: OrgId, at: int): System
    requires pid in s.procs
  {
    match s.procs[pid].point
    case Begin => Lock(s, pid, o)
    case Locked => At(s, pid, RoleChosen(if RowsOf(s.db, o) == {} then Owner else Member))
    case RoleChosen(role) =>
      if (u, o) !in s.db.members && !ForeignKeysHold(s.db, u, o) then End(s, pid, ForeignKeyViolation)
      else End(s.(db := WithDefaultActive(Enrolled(s.db, u, o, role, at), u, o)), pid, Done)
    case _ => s
  }

  ghost function StepCreate(s: System, pid: Pid, u: UserId, o: OrgId, at: int): System
    requires pid in s.procs
  {
    var db := s.db;
    match s.procs[pid].point
    case Begin =>
      if o in db.orgs then End(s, pid, UniqueViolation) else At(s.(db := db.(orgs := db.orgs + {o})), pid, OrgMade)
    case OrgMade =>
      if (u, o) in db.members then End(s, pid, UniqueViolation)
      else if !ForeignKeysHold(db, u, o) then End(s, pid, ForeignKeyViolation)
      else At(s.(db := Enrolled(db, u, o, Owner, at)), pid, OwnerMade)
    case OwnerMade => End(s.(db := db.(active := db.active[u := o])), pid, Returned(o))
    case _ => s
  }

  /** Adding by email, and equally the enrolment made by accepting an invite. */
  ghost function StepAdd(s: System, pid: Pid, o: OrgId, found: Option<UserId>, role: Role, at: int): System
    requires pid in s.procs
  {
    match found
    case None => End(s, pid, NotFound)
    case Some(u) =>
      if (u, o) in s.db.members then End(s, pid, AlreadyMember)
      else if !ForeignKeysHold(s.db, u, o) then End(s, pid, ForeignKeyViolation)
      else End(s.(db := Enrolled(s.db, u, o, role, at)), pid, Done)
  }

  ghost function StepSetRole(s: System, pid: Pid, o: OrgId, u: UserId, role: Role): System
    requires pid in s.procs
  {
    match s.procs[pid].point
    case Begin => Lock(s, pid, o)
    case Locked =>
      if (u, o) in s.db.members then At(s, pid, RoleRead(s.db.members[(u, o)].role)) else End(s, pid, NotFound)
    case RoleRead(was) =>
      if was == Owner && role != Owner then At(s, pid, Counted(|OwnerRows(s.db, o)|)) else At(s, pid, Written)
    case Counted(owners) => if owners <= 1 then End(s, pid, LastOwner) else At(s, pid, Written)
    case Written => End(s.(db := RoleChanged(s.db, u, o, role)), pid, Done)
    case _ => s
  }

  ghost function StepRemove(s: System, pid: Pid, o: OrgId, u: UserId): System
    requires pid in s.procs
  {
    match s.procs[pid].point
    case Begin => Lock(s, pid, o)
    case Locked =>
      if (u, o) in s.db.members then At(s, pid, RoleRead(s.db.members[(u, o)].role)) else End(s, pid, NotFound)
    case RoleRead(was) =>
      if was == Owner then At(s, pid, Counted(|OwnerRows(s.db, o)|)) else At(s, pid, Written)
    case Counted(owners) => if owners <= 1 then End(s, pid, LastOwner) else At(s, pid, Written)
    case Written => End(s.(db := Removed(s.db, u, o)), pid, Done)
    case _ => s
  }

  /** Every interleaving is some list of actions. */
  ghost function Run(s: System, actions: seq<Action>): System
    decreases |actions|
  {
    if actions == [] then s else Run(Next(s, actions[0]), actions[1..])
  }

  /** Tables as they may stand before the first call. */
  ghost predicate Initial(s: System) {
    && s.procs == map[] && s.locks == map[]
    && forall k :: k in s.db.members ==> ForeignKeysHold(s.db, k.0, k.1)
  }
}
