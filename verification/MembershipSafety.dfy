/** What every interleaving of membership calls keeps. */
module MembershipSafety {
  import opened Text
  import opened Membership

  // ---------------------------------------------------------------- foreign keys and locks

  /** Every membership row points at an existing user and org. */
  ghost predicate Linked(db: Db) {
    forall k :: k in db.members ==> ForeignKeysHold(db, k.0, k.1)
  }

  /** A call inside its locked section holds the lock of its org. */
  ghost predicate LocksHeld(s: System) {
    forall p :: p in s.procs && Holding(s.procs[p]) ==> s.procs[p].call.org in s.locks && s.locks[s.procs[p].call.org] == p
  }

  predicate Demotes(call: Call) {
    call.Remove? || (call.SetRole? && call.role != Owner)
  }

  /** What a member-management call knows about the live table while it holds the lock: the row it read is
      still that row, and the live owner count is at least the count it read. */
  ghost predicate Informed(db: Db, p: Proc) {
    (p.call.SetRole? || p.call.Remove?) ==>
      var key := (p.call.user, p.call.org);
      match p.point
      case RoleRead(role) => key in db.members && db.members[key].role == role
      case Counted(owners) => key in db.members && owners <= |OwnerRows(db, p.call.org)|
      case Written =>
        key in db.members
        && (Demotes(p.call) && db.members[key].role == Owner ==> 2 <= |OwnerRows(db, p.call.org)|)
      case _ => true
  }

  ghost predicate Inv(s: System) {
    && Linked(s.db)
    && LocksHeld(s)
    && forall p :: p in s.procs ==> Informed(s.db, s.procs[p])
  }

  /** Rows stay as they are, except that new ones may appear. */
  ghost predicate Grows(db: Db, db': Db) {
    forall k: Key :: k in db.members ==> k in db'.members && db'.members[k] == db.members[k]
  }

  /** Only rows of one org may change. */
  ghost predicate Confined(db: Db, db': Db, o: OrgId) {
    forall k: Key :: k.1 != o ==> (k in db.members <==> k in db'.members) && (k in db.members ==> db'.members[k] == db.members[k])
  }

  lemma OwnersGrow(db: Db, db': Db, o: OrgId)
    requires Grows(db, db')
    ensures OwnerRows(db, o) <= OwnerRows(db', o)
    ensures |OwnerRows(db, o)| <= |OwnerRows(db', o)|
  {
    SubsetCard(OwnerRows(db, o), OwnerRows(db', o));
  }

  lemma {:induction false} SubsetCard<T>(a: set<T>, b: set<T>)
    requires a <= b
    ensures |a| <= |b|
    decreases a
  {
    if a != {} {
      var x :| x in a;
      SubsetCard(a - {x}, b - {x});
    }
  }

  lemma OwnersConfined(db: Db, db': Db, o: OrgId, other: OrgId)
    requires Confined(db, db', o) && other != o
    ensures OwnerRows(db', other) == OwnerRows(db, other)
  {
  }

  /** The commit of a member-management call: the only step that changes or deletes a row. */
  predicate Commits(s: System, a: Action) {
    a.Step? && a.pid in s.procs && s.procs[a.pid].point.Written?
    && (s.procs[a.pid].call.SetRole? || s.procs[a.pid].call.Remove?)
  }

  /** What any step of `pid` may do to the tables: add linked rows, or as the lock holder of an org at commit
      change the rows of that org. */
  ghost predicate DbMoves(db: Db, db': Db, committing: Option<OrgId>) {
    && db'.users == db.users && db.orgs <= db'.orgs
    && (Linked(db) ==> Linked(db'))
    && (if committing.None? then Grows(db, db') else Confined(db, db', committing.value))
  }

  /** What any step of `pid` does to the process table and the locks: it moves its own point, and takes or
      gives back the lock of its own org as it enters or leaves the locked section. */
  ghost predicate ProcMoves(s: System, s': System, pid: Pid) {
    s' == s ||
    (&& pid in s.procs && pid in s'.procs
     && s'.procs[pid].call == s.procs[pid].call
     && s'.procs == s.procs[pid := s'.procs[pid]]
     && (|| (s'.locks == s.locks && (Holding(s'.procs[pid]) ==> Holding(s.procs[pid])))
         || (TakesLock(s.procs[pid].call) && s.procs[pid].call.org !in s.locks
             && s'.locks == s.locks[s.procs[pid].call.org := pid])
         || (Holding(s.procs[pid]) && s'.locks == s.locks - {s.procs[pid].call.org} && !Holding(s'.procs[pid]))))
  }

  ghost function Committing(s: System, a: Action): Option<OrgId> {
    if Commits(s, a) then Some(s.procs[a.pid].call.org) else None
  }

  lemma EnrolledMoves(db: Db, u: UserId, o: OrgId, role: Role, at: int)
    requires (u, o) in db.members || ForeignKeysHold(db, u, o)
    ensures DbMoves(db, Enrolled(db, u, o, role, at), None)
    ensures DbMoves(db, WithDefaultActive(Enrolled(db, u, o, role, at), u, o), None)
  {
  }

  lemma CommitMoves(db: Db, u: UserId, o: OrgId, role: Role)
    ensures DbMoves(db, RoleChanged(db, u, o, role), Some(o))
    ensures DbMoves(db, Removed(db, u, o), Some(o))
  {
  }

  lemma OtherMoves(db: Db, orgs: set<OrgId>, active: map<UserId, OrgId>)
    requires db.orgs <= orgs
    ensures DbMoves(db, db, None) && DbMoves(db, db.(orgs := orgs), None) && DbMoves(db, db.(active := active), None)
  {
  }

  lemma PersonalMoves(s: System, pid: Pid, u: UserId, at: int)
    requires pid in s.procs && s.procs[pid].call == EnsurePersonal(u)
    ensures ProcMoves(s, StepPersonal(s, pid, u, at), pid)
    ensures DbMoves(s.db, StepPersonal(s, pid, u, at).db, None)
  {
    hide FirstOrg, GetActiveOrg, PersonalOrg, HasOrg, DbMoves, Enrolled;
    var home := PersonalOrg(u);
    OtherMoves(s.db, s.db.orgs + {home}, s.db.active);
    match s.procs[pid].point {
      case MemberSnapshot(none) =>
        if (u, home) in s.db.members || ForeignKeysHold(s.db, u, home) {
          EnrolledMoves(s.db, u, home, Owner, at);
        }
      case ActiveSnapshot(first) =>
        if first.Some? {
          OtherMoves(s.db, s.db.orgs, WithDefaultActive(s.db, u, first.value).active);
        }
      case _ =>
    }
  }

  lemma InstanceMoves(s: System, pid: Pid, u: UserId, o: OrgId, at: int)
    requires pid in s.procs && s.procs[pid].call == EnsureInstance(u, o)
    ensures ProcMoves(s, StepInstance(s, pid, u, o, at), pid)
    ensures DbMoves(s.db, StepInstance(s, pid, u, o, at).db, None)
  {
    hide RowsOf, DbMoves, Enrolled, WithDefaultActive;
    OtherMoves(s.db, s.db.orgs, s.db.active);
    match s.procs[pid].point {
      case RoleChosen(role) =>
        if (u, o) in s.db.members || ForeignKeysHold(s.db, u, o) {
          EnrolledMoves(s.db, u, o, role, at);
        }
      case _ =>
    }
  }

  lemma CreateMoves(s: System, pid: Pid, u: UserId, o: OrgId, at: int)
    requires pid in s.procs && s.procs[pid].call == CreateOrg(u, o)
    ensures ProcMoves(s, StepCreate(s, pid, u, o, at), pid)
    ensures DbMoves(s.db, StepCreate(s, pid, u, o, at).db, None)
  {
    hide DbMoves, Enrolled;
    OtherMoves(s.db, s.db.orgs + {o}, s.db.active);
    OtherMoves(s.db, s.db.orgs, s.db.active[u := o]);
    if ForeignKeysHold(s.db, u, o) {
      EnrolledMoves(s.db, u, o, Owner, at);
    }
  }

  lemma AddMoves(s: System, pid: Pid, o: OrgId, found: Option<UserId>, role: Role, at: int)
    requires pid in s.procs && s.procs[pid].call == AddMember(o, found, role)
    ensures ProcMoves(s, StepAdd(s, pid, o, found, role, at), pid)
    ensures DbMoves(s.db, StepAdd(s, pid, o, found, role, at).db, None)
  {
    hide DbMoves, Enrolled;
    OtherMoves(s.db, s.db.orgs, s.db.active);
    if found.Some? && ForeignKeysHold(s.db, found.value, o) {
      EnrolledMoves(s.db, found.value, o, role, at);
    }
  }

  lemma PointMoves(s: System, pid: Pid, db: Db, point: Point, result: Result)
    requires pid in s.procs
    ensures (InsideLock(point) ==> InsideLock(s.procs[pid].point)) && s.db == db ==> ProcMoves(s, At(s, pid, point), pid)
    ensures ProcMoves(s, End(s.(db := db), pid, result), pid)
    ensures s.db == db ==> ProcMoves(s, End(s, pid, result), pid)
    ensures End(s.(db := db), pid, result).db == db && At(s, pid, point).db == s.db && End(s, pid, result).db == s.db
  {
  }

  lemma LockMoves(s: System, pid: Pid, o: OrgId)
    requires pid in s.procs && TakesLock(s.procs[pid].call) && s.procs[pid].call.org == o
    ensures ProcMoves(s, Lock(s, pid, o), pid) && Lock(s, pid, o).db == s.db
    ensures ProcMoves(s, s, pid)
  {
  }

  lemma SetRoleMoves(s: System, pid: Pid, o: OrgId, u: UserId, role: Role)
    requires pid in s.procs && s.procs[pid].call == SetRole(o, u, role)
    ensures ProcMoves(s, StepSetRole(s, pid, o, u, role), pid)
    ensures DbMoves(s.db, StepSetRole(s, pid, o, u, role).db, Committing(s, Step(pid, 0)))
  {
    hide OwnerRows, DbMoves, RoleChanged, ProcMoves, At, End, Lock;
    OtherMoves(s.db, s.db.orgs, s.db.active);
    CommitMoves(s.db, u, o, role);
    LockMoves(s, pid, o);
    PointMoves(s, pid, s.db, Written, NotFound);
    match s.procs[pid].point {
      case Locked => if (u, o) in s.db.members { PointMoves(s, pid, s.db, RoleRead(s.db.members[(u, o)].role), NotFound); }
      case RoleRead(_) => PointMoves(s, pid, s.db, Counted(|OwnerRows(s.db, o)|), NotFound);
      case Counted(_) => PointMoves(s, pid, s.db, Written, LastOwner);
      case Written => PointMoves(s, pid, RoleChanged(s.db, u, o, role), Written, Done);
      case _ =>
    }
  }

  lemma RemoveMoves(s: System, pid: Pid, o: OrgId, u: UserId)
    requires pid in s.procs && s.procs[pid].call == Remove(o, u)
    ensures ProcMoves(s, StepRemove(s, pid, o, u), pid)
    ensures DbMoves(s.db, StepRemove(s, pid, o, u).db, Committing(s, Step(pid, 0)))
  {
    hide OwnerRows, DbMoves, Removed, ProcMoves, At, End, Lock;
    OtherMoves(s.db, s.db.orgs, s.db.active);
    CommitMoves(s.db, u, o, Member);
    LockMoves(s, pid, o);
    PointMoves(s, pid, s.db, Written, NotFound);
    match s.procs[pid].point {
      case Locked => if (u, o) in s.db.members { PointMoves(s, pid, s.db, RoleRead(s.db.members[(u, o)].role), NotFound); }
      case RoleRead(_) => PointMoves(s, pid, s.db, Counted(|OwnerRows(s.db, o)|), NotFound);
      case Counted(_) => PointMoves(s, pid, s.db, Written, LastOwner);
      case Written => PointMoves(s, pid, Removed(s.db, u, o), Written, Done);
      case _ =>
    }
  }

  lemma Moves(s: System, a: Action)
    ensures DbMoves(s.db, Next(s, a).db, Committing(s, a))
    ensures if a.Start? && a.pid !in s.procs then Next(s, a) == s.(procs := s.procs[a.pid := Proc(a.call, Begin)])
            else ProcMoves(s, Next(s, a), a.pid)
  {
    hide DbMoves, StepPersonal, StepInstance, StepCreate, StepAdd, StepSetRole, StepRemove;
    OtherMoves(s.db, s.db.orgs, s.db.active);
    if a.Step? && a.pid in s.procs {
      match s.procs[a.pid].call
      case EnsurePersonal(u) => PersonalMoves(s, a.pid, u, a.at);
      case EnsureInstance(u, o) => InstanceMoves(s, a.pid, u, o, a.at);
      case CreateOrg(u, o) => CreateMoves(s, a.pid, u, o, a.at);
      case SetActive(u, o) => OtherMoves(s.db, s.db.orgs, s.db.active[u := o]);
      case AddMember(o, found, role) => AddMoves(s, a.pid, o, found, role, a.at);
      case SetRole(o, u, role) => SetRoleMoves(s, a.pid, o, u, role);
      case Remove(o, u) => RemoveMoves(s, a.pid, o, u);
    }
  }

  lemma LocksKept(s: System, a: Action)
    requires LocksHeld(s)
    ensures LocksHeld(Next(s, a))
  {
    hide Next, DbMoves;
    Moves(s, a);
  }

  /** The step of a call leaves that call informed. */
  lemma ActorInformed(s: System, a: Action)
    requires Inv(s) && a.pid in s.procs
    ensures a.pid in Next(s, a).procs && Informed(Next(s, a).db, Next(s, a).procs[a.pid])
  {
    hide Informed;
    var p := s.procs[a.pid];
    Moves(s, a);
    assert Informed(s.db, p);
    if !(p.call.SetRole? || p.call.Remove?) {
      NotManaging(Next(s, a).db, Next(s, a).procs[a.pid]);
    } else {
      ManagerInformed(s, a);
    }
  }

  lemma NotManaging(db: Db, p: Proc)
    requires !(p.call.SetRole? || p.call.Remove?)
    ensures Informed(db, p)
  {
  }

  lemma ManagerInformed(s: System, a: Action)
    requires a.pid in s.procs && Informed(s.db, s.procs[a.pid])
    requires s.procs[a.pid].call.SetRole? || s.procs[a.pid].call.Remove?
    ensures Informed(Next(s, a).db, Next(s, a).procs[a.pid])
  {
    hide FirstOrg, GetActiveOrg, OwnerRows, RowsOf, PersonalOrg, StepPersonal, StepInstance, StepCreate, StepAdd;
  }

  lemma OthersInformed(s: System, a: Action, p: Pid)
    requires Inv(s) && p in s.procs && p != a.pid
    ensures Informed(Next(s, a).db, s.procs[p])
  {
    hide Next, OwnerRows;
    var proc := s.procs[p];
    Moves(s, a);
    if proc.call.SetRole? || proc.call.Remove? {
      var o := proc.call.org;
      if Commits(s, a) {
        assert Holding(s.procs[a.pid]);
        if Holding(proc) {
          assert s.procs[a.pid].call.org != o;
          OwnersConfined(s.db, Next(s, a).db, s.procs[a.pid].call.org, o);
        }
      } else {
        OwnersGrow(s.db, Next(s, a).db, o);
      }
    }
  }

  lemma InvKept(s: System, a: Action)
    requires Inv(s)
    ensures Inv(Next(s, a))
  {
    hide Next, Informed, Linked, Grows, Confined;
    LocksKept(s, a);
    Moves(s, a);
    var s' := Next(s, a);
    forall p | p in s'.procs ensures Informed(s'.db, s'.procs[p]) {
      if p != a.pid {
        OthersInformed(s, a, p);
      } else if p in s.procs {
        ActorInformed(s, a);
      } else {
        BeginInformed(s'.db, s'.procs[p]);
      }
    }
  }

  lemma BeginInformed(db: Db, p: Proc)
    requires p.point == Begin
    ensures Informed(db, p)
  {
  }

  // ---------------------------------------------------------------- the last owner

  /** One statement of any call never removes the last owner of any org. */
  lemma StepKeepsOwner(s: System, a: Action, o: OrgId)
    requires Inv(s) && OwnerRows(s.db, o) != {}
    ensures OwnerRows(Next(s, a).db, o) != {}
  {
    hide Next;
    Moves(s, a);
    if !Commits(s, a) {
      OwnersGrow(s.db, Next(s, a).db, o);
    } else if s.procs[a.pid].call.org != o {
      OwnersConfined(s.db, Next(s, a).db, s.procs[a.pid].call.org, o);
    } else {
      CommitKeepsOwner(s, a, o);
    }
  }

  lemma CommitKeepsOwner(s: System, a: Action, o: OrgId)
    requires Inv(s) && OwnerRows(s.db, o) != {}
    requires Commits(s, a) && s.procs[a.pid].call.org == o
    ensures OwnerRows(Next(s, a).db, o) != {}
  {
    hide LocksHeld, Linked;
    var call := s.procs[a.pid].call;
    var key := (call.user, o);
    var owners := OwnerRows(s.db, o);
    assert Informed(s.db, s.procs[a.pid]);
    if Demotes(call) && key in owners {
      AnotherElement(owners, key);
      var other :| other in owners && other != key;
      assert other in OwnerRows(Next(s, a).db, o);
    } else {
      var other :| other in owners;
      assert other in OwnerRows(Next(s, a).db, o);
    }
  }

  lemma AnotherElement<T>(a: set<T>, x: T)
    requires 2 <= |a|
    ensures exists y :: y in a && y != x
  {
    if forall y :: y in a ==> y == x {
      SubsetCard(a, {x});
    }
  }

  lemma InitialInv(s: System)
    requires Initial(s)
    ensures Inv(s)
  {
  }

  ghost predicate Reachable(s: System) {
    exists init, actions :: Initial(init) && s == Run(init, actions)
  }

  lemma {:induction false} RunInv(s: System, actions: seq<Action>)
    requires Inv(s)
    ensures Inv(Run(s, actions))
    decreases |actions|
  {
    hide Inv, Next;
    if actions != [] {
      InvKept(s, actions[0]);
      RunInv(Next(s, actions[0]), actions[1..]);
    }
  }

  lemma {:induction false} RunKeepsOwner(s: System, actions: seq<Action>, o: OrgId)
    requires Inv(s) && OwnerRows(s.db, o) != {}
    ensures OwnerRows(Run(s, actions).db, o) != {}
    decreases |actions|
  {
    hide Inv, Next;
    if actions != [] {
      InvKept(s, actions[0]);
      StepKeepsOwner(s, actions[0], o);
      RunKeepsOwner(Next(s, actions[0]), actions[1..], o);
    }
  }

  /** From any reachable state, an org that has an owner has one for ever, whatever is interleaved. */
  lemma LastOwnerNeverLost(s: System, actions: seq<Action>, o: OrgId)
    requires Reachable(s) && exists u :: (u, o) in s.db.members && s.db.members[(u, o)].role == Owner
    ensures var later := Run(s, actions).db; exists u :: (u, o) in later.members && later.members[(u, o)].role == Owner
  {
    hide Inv, Run, Next, OwnerRows;
    OwnerRowsAre(s.db, o);
    OwnerRowsAre(Run(s, actions).db, o);
    var init, before :| Initial(init) && s == Run(init, before);
    InitialInv(init);
    RunInv(init, before);
    RunKeepsOwner(s, actions, o);
  }

  lemma OwnerRowsAre(db: Db, o: OrgId)
    ensures OwnerRows(db, o) != {} <==> exists u :: (u, o) in db.members && db.members[(u, o)].role == Owner
  {
    if k :| k in OwnerRows(db, o) {
      assert (k.0, o) in db.members && db.members[(k.0, o)].role == Owner;
    }
    if u :| (u, o) in db.members && db.members[(u, o)].role == Owner {
      assert (u, o) in OwnerRows(db, o);
    }
  }
}
