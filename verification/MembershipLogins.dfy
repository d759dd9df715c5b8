/** Login hooks under races: a first login converges, and an instance org gets one owner. */
module MembershipLogins {
  import opened Text
  import opened Membership
  import opened MembershipSafety

  // ---------------------------------------------------------------- first login converges

  /** The calls that write rows of this user. */
  predicate Touches(call: Call, u: UserId) {
    match call
    case EnsurePersonal(v) => v == u
    case EnsureInstance(v, _) => v == u
    case CreateOrg(v, _) => v == u
    case SetActive(v, _) => v == u
    case AddMember(_, found, _) => found == Some(u)
    case SetRole(_, v, _) => v == u
    case Remove(_, v) => v == u
  }

  /** Any calls by anybody, but for this user nothing except first logins. */
  ghost predicate OnlyFirstLogins(actions: seq<Action>, u: UserId) {
    forall i :: 0 <= i < |actions| && actions[i].Start? && Touches(actions[i].call, u) ==> actions[i].call == EnsurePersonal(u)
  }

  /** The user has at most the personal org, owned; a selection from before the runs may be left over. */
  ghost predicate AtMostHome(db: Db, u: UserId, before: set<OrgId>) {
    && u in db.users
    && (forall k: Key :: k in db.members && k.0 == u ==> k.1 == PersonalOrg(u) && db.members[k].role == Owner)
    && (u in db.active ==> db.active[u] in before + {PersonalOrg(u)})
  }

  predicate AtHome(db: Db, u: UserId) {
    (u, PersonalOrg(u)) in db.members
  }

  /** What a first login has established when it stands at a point. */
  ghost predicate OnTheWay(db: Db, u: UserId, p: Point) {
    match p
    case OrgSnapshot(none) => none || AtHome(db, u)
    case OrgReady => PersonalOrg(u) in db.orgs
    case MemberSnapshot(none) => PersonalOrg(u) in db.orgs && (none || AtHome(db, u))
    case MemberReady => AtHome(db, u)
    case ActiveSnapshot(first) => AtHome(db, u) && first == Some(PersonalOrg(u))
    case ActiveReady => AtHome(db, u) && u in db.active
    case Finished(result) =>
      result != Crashed ==> result == Returned(PersonalOrg(u)) && AtHome(db, u) && u in db.active
    case _ => true
  }

  ghost predicate Converging(s: System, u: UserId, before: set<OrgId>) {
    && Inv(s)
    && AtMostHome(s.db, u, before)
    && (forall p :: p in s.procs && Touches(s.procs[p].call, u) ==> s.procs[p].call == EnsurePersonal(u))
    && (forall p :: p in s.procs && s.procs[p].call == EnsurePersonal(u) ==> OnTheWay(s.db, u, s.procs[p].point))
  }

  lemma HomeIsAll(db: Db, u: UserId, before: set<OrgId>)
    requires AtMostHome(db, u, before)
    ensures HasOrg(db, u) <==> AtHome(db, u)
    ensures AtHome(db, u) ==> FirstOrg(db, u) == Some(PersonalOrg(u))
    ensures AtHome(db, u) ==> GetActiveOrg(db, u) == Some(PersonalOrg(u))
  {
    if AtHome(db, u) {
      assert OrgsOf(db, u) == {PersonalOrg(u)};
    }
  }

  /** Nothing about this user's rows is lost. */
  ghost predicate KeepsUser(db: Db, db': Db, u: UserId) {
    && (AtHome(db, u) ==> AtHome(db', u))
    && (u in db.active ==> u in db'.active)
    && db.orgs <= db'.orgs
  }

  lemma PointKept(db: Db, db': Db, u: UserId, p: Point)
    requires OnTheWay(db, u, p) && KeepsUser(db, db', u)
    ensures OnTheWay(db', u, p)
  {
  }

  /** The rows of a user that only calls about that user may change. */
  ghost predicate SameUser(db: Db, db': Db, u: UserId) {
    && (forall o: OrgId :: (u, o) in db.members <==> (u, o) in db'.members)
    && (forall o: OrgId :: (u, o) in db.members ==> db'.members[(u, o)] == db.members[(u, o)])
    && (u in db.active <==> u in db'.active) && (u in db.active ==> db'.active[u] == db.active[u])
    && db'.users == db.users && db.orgs <= db'.orgs
  }

  /** Writing the rows of one user leaves the rows of another. */
  lemma WritesLeaveUser(db: Db, v: UserId, o: OrgId, role: Role, at: int, u: UserId)
    requires v != u
    ensures SameUser(db, Enrolled(db, v, o, role, at), u)
    ensures SameUser(db, WithDefaultActive(db, v, o), u)
    ensures SameUser(db, WithDefaultActive(Enrolled(db, v, o, role, at), v, o), u)
    ensures SameUser(db, RoleChanged(db, v, o, role), u)
    ensures SameUser(db, Removed(db, v, o), u)
    ensures SameUser(db, db.(active := db.active[v := o]), u)
  {
  }

  lemma NewOrgLeavesUser(db: Db, o: OrgId, u: UserId)
    ensures SameUser(db, db, u) && SameUser(db, db.(orgs := db.orgs + {o}), u)
  {
  }

  lemma OthersLeaveUser(s: System, a: Action, u: UserId)
    requires a.Step? && a.pid in s.procs ==> !Touches(s.procs[a.pid].call, u)
    ensures SameUser(s.db, Next(s, a).db, u)
  {
    hide FirstOrg, GetActiveOrg, OwnerRows, RowsOf, PersonalOrg, HasOrg, SameUser, Enrolled, RoleChanged, Removed, WithDefaultActive;
    NewOrgLeavesUser(s.db, "", u);
    if a.Step? && a.pid in s.procs {
      var point := s.procs[a.pid].point;
      match s.procs[a.pid].call
      case EnsurePersonal(v) =>
        NewOrgLeavesUser(s.db, PersonalOrg(v), u);
        WritesLeaveUser(s.db, v, PersonalOrg(v), Owner, a.at, u);
        if point.ActiveSnapshot? && point.first.Some? {
          WritesLeaveUser(s.db, v, point.first.value, Owner, a.at, u);
        }
      case EnsureInstance(v, o) =>
        if point.RoleChosen? { WritesLeaveUser(s.db, v, o, point.role, a.at, u); }
      case CreateOrg(v, o) =>
        NewOrgLeavesUser(s.db, o, u);
        WritesLeaveUser(s.db, v, o, Owner, a.at, u);
      case SetActive(v, o) => WritesLeaveUser(s.db, v, o, Owner, a.at, u);
      case AddMember(o, found, role) =>
        if found.Some? { WritesLeaveUser(s.db, found.value, o, role, a.at, u); }
      case SetRole(o, v, role) => WritesLeaveUser(s.db, v, o, role, a.at, u);
      case Remove(o, v) => WritesLeaveUser(s.db, v, o, Owner, a.at, u);
    }
  }

  lemma StillAtMostHome(db: Db, db': Db, u: UserId, before: set<OrgId>)
    requires AtMostHome(db, u, before) && SameUser(db, db', u)
    ensures AtMostHome(db', u, before) && KeepsUser(db, db', u)
  {
    forall k: Key | k in db'.members && k.0 == u ensures k.1 == PersonalOrg(u) && db'.members[k].role == Owner {
      assert (u, k.1) in db.members;
    }
  }

  /** One statement of a first login: where it leaves the login, and the tables. */
  lemma LoginStep(s: System, pid: Pid, u: UserId, at: int, before: set<OrgId>)
    requires Inv(s) && AtMostHome(s.db, u, before)
    requires pid in s.procs && s.procs[pid].call == EnsurePersonal(u) && OnTheWay(s.db, u, s.procs[pid].point)
    ensures var s' := StepPersonal(s, pid, u, at);
            !s.procs[pid].point.Finished? ==>
              AtMostHome(s'.db, u, before) && KeepsUser(s.db, s'.db, u) && pid in s'.procs && OnTheWay(s'.db, u, s'.procs[pid].point)
  {
    LoginPoint(s, pid, u, at, before);
    LoginTables(s, pid, u, at, before);
    hide StepPersonal, AtMostHome, KeepsUser, OnTheWay, Inv;
  }

  lemma LoginPoint(s: System, pid: Pid, u: UserId, at: int, before: set<OrgId>)
    requires Inv(s) && AtMostHome(s.db, u, before)
    requires pid in s.procs && s.procs[pid].call == EnsurePersonal(u) && OnTheWay(s.db, u, s.procs[pid].point)
    ensures var s' := StepPersonal(s, pid, u, at);
            !s.procs[pid].point.Finished? ==> pid in s'.procs && OnTheWay(s'.db, u, s'.procs[pid].point)
  {
    HomeIsAll(s.db, u, before);
    assert AtHome(s.db, u) ==> PersonalOrg(u) in s.db.orgs by { HomeIsLinked(s, u); }
    assert u in s.db.users;
    hide FirstOrg, GetActiveOrg, PersonalOrg, HasOrg, Inv, AtMostHome;
  }

  /** What a first login may write to the tables of its user. */
  ghost predicate HomeWrites(db: Db, db': Db, u: UserId) {
    && db'.users == db.users
    && (db'.members == db.members || exists row: Row :: row.role == Owner && (u, PersonalOrg(u)) !in db.members
                                                       && db'.members == db.members[(u, PersonalOrg(u)) := row])
    && (db'.active == db.active || (u !in db.active && db'.active == db.active[u := PersonalOrg(u)]))
    && db.orgs <= db'.orgs
  }

  lemma LoginWrites(s: System, pid: Pid, u: UserId, at: int)
    requires pid in s.procs && s.procs[pid].call == EnsurePersonal(u) && OnTheWay(s.db, u, s.procs[pid].point)
    ensures HomeWrites(s.db, StepPersonal(s, pid, u, at).db, u)
  {
    hide FirstOrg, GetActiveOrg, PersonalOrg, HasOrg;
    match s.procs[pid].point
    case MemberSnapshot(none) =>
      if none && (u, PersonalOrg(u)) !in s.db.members && ForeignKeysHold(s.db, u, PersonalOrg(u)) {
        assert StepPersonal(s, pid, u, at).db.members == s.db.members[(u, PersonalOrg(u)) := Row(Owner, at)];
      }
    case _ =>
  }

  lemma HomeStays(db: Db, db': Db, u: UserId, before: set<OrgId>)
    requires AtMostHome(db, u, before) && HomeWrites(db, db', u)
    ensures AtMostHome(db', u, before) && KeepsUser(db, db', u)
  {
    hide PersonalOrg;
  }

  lemma LoginTables(s: System, pid: Pid, u: UserId, at: int, before: set<OrgId>)
    requires AtMostHome(s.db, u, before)
    requires pid in s.procs && s.procs[pid].call == EnsurePersonal(u) && OnTheWay(s.db, u, s.procs[pid].point)
    ensures var s' := StepPersonal(s, pid, u, at); AtMostHome(s'.db, u, before) && KeepsUser(s.db, s'.db, u)
  {
    LoginWrites(s, pid, u, at);
    HomeStays(s.db, StepPersonal(s, pid, u, at).db, u, before);
  }

  lemma HomeIsLinked(s: System, u: UserId)
    requires Inv(s)
    ensures AtHome(s.db, u) ==> PersonalOrg(u) in s.db.orgs
  {
  }

  lemma ConvergingKept(s: System, a: Action, u: UserId, before: set<OrgId>)
    requires Converging(s, u, before)
    requires a.Start? && Touches(a.call, u) ==> a.call == EnsurePersonal(u)
    ensures Converging(Next(s, a), u, before)
  {
    hide Inv, OnTheWay, AtMostHome, KeepsUser, SameUser, StepPersonal, StepInstance, StepCreate, StepAdd, StepSetRole, StepRemove, DbMoves;
    InvKept(s, a);
    Moves(s, a);
    var s' := Next(s, a);
    if a.Step? && a.pid in s.procs && Touches(s.procs[a.pid].call, u) {
      LoginStep(s, a.pid, u, a.at, before);
      SameKept(s.db, u);
    } else {
      OthersLeaveUser(s, a, u);
      StillAtMostHome(s.db, s'.db, u, before);
    }
    forall p | p in s'.procs && s'.procs[p].call == EnsurePersonal(u) ensures OnTheWay(s'.db, u, s'.procs[p].point) {
      if p in s.procs {
        if p != a.pid || s'.procs[p] == s.procs[p] {
          PointKept(s.db, s'.db, u, s.procs[p].point);
        } else if a.Crash? {
          CrashedIsFine(s'.db, u);
        }
      } else {
        BeginIsFine(s'.db, u);
      }
    }
  }

  lemma SameKept(db: Db, u: UserId)
    ensures KeepsUser(db, db, u)
  {
  }

  lemma CrashedIsFine(db: Db, u: UserId)
    ensures OnTheWay(db, u, Finished(Crashed))
  {
  }

  lemma BeginIsFine(db: Db, u: UserId)
    ensures OnTheWay(db, u, Begin)
  {
  }

  lemma {:induction false} ConvergingRun(s: System, actions: seq<Action>, u: UserId, before: set<OrgId>)
    requires Converging(s, u, before) && OnlyFirstLogins(actions, u)
    ensures Converging(Run(s, actions), u, before)
    decreases |actions|
  {
    hide Converging, Next;
    if actions != [] {
      ConvergingKept(s, actions[0], u, before);
      ConvergingRun(Next(s, actions[0]), actions[1..], u, before);
    }
  }

  /** First-login convergence: an existing user without memberships logs in any number of times at once,
      among any calls about other users. No call ends in an error (a killed process apart); every call that
      ends returns the personal org; and from the first return on, the user has that one membership, owns it
      and acts in it - through the active selection itself unless a stale one was there before. */
  lemma FirstLoginConverges(s: System, actions: seq<Action>, u: UserId)
    requires Initial(s) && u in s.db.users && !HasOrg(s.db, u)
    requires OnlyFirstLogins(actions, u)
    ensures var s' := Run(s, actions);
            && (forall p :: p in s'.procs && s'.procs[p].call == EnsurePersonal(u) && s'.procs[p].point.Finished? ==>
                  s'.procs[p].point.result in {Crashed, Returned(PersonalOrg(u))})
            && ((exists p :: p in s'.procs && s'.procs[p] == Proc(EnsurePersonal(u), Finished(Returned(PersonalOrg(u))))) ==>
                  && OrgsOf(s'.db, u) == {PersonalOrg(u)} && PersonalOrg(u) in s'.db.orgs
                  && s'.db.members[(u, PersonalOrg(u))].role == Owner
                  && GetActiveOrg(s'.db, u) == Some(PersonalOrg(u))
                  && u in s'.db.active && (u !in s.db.active ==> s'.db.active[u] == PersonalOrg(u)))
  {
    hide Next, Run, FirstOrg, GetActiveOrg, Converging, HasOrg, OrgsOf, Initial;
    var before := if u in s.db.active then {s.db.active[u]} else {};
    LoginsBegin(s, u, before);
    ConvergingRun(s, actions, u, before);
    LoginsEnd(Run(s, actions), u, before);
  }

  lemma LoginsBegin(s: System, u: UserId, before: set<OrgId>)
    requires Initial(s) && u in s.db.users && !HasOrg(s.db, u)
    requires before == if u in s.db.active then {s.db.active[u]} else {}
    ensures Converging(s, u, before)
  {
    InitialInv(s);
    hide Inv;
    forall o: OrgId ensures (u, o) !in s.db.members {
    }
  }

  /** What the invariant says of the answers, and of the tables once a login has returned. */
  lemma LoginsEnd(s: System, u: UserId, before: set<OrgId>)
    requires Converging(s, u, before)
    ensures forall p :: p in s.procs && s.procs[p].call == EnsurePersonal(u) && s.procs[p].point.Finished? ==>
              s.procs[p].point.result in {Crashed, Returned(PersonalOrg(u))}
    ensures (exists p :: p in s.procs && s.procs[p] == Proc(EnsurePersonal(u), Finished(Returned(PersonalOrg(u))))) ==>
              && OrgsOf(s.db, u) == {PersonalOrg(u)} && PersonalOrg(u) in s.db.orgs
              && s.db.members[(u, PersonalOrg(u))].role == Owner
              && GetActiveOrg(s.db, u) == Some(PersonalOrg(u))
              && u in s.db.active && s.db.active[u] in before + {PersonalOrg(u)}
  {
    hide Informed, LocksHeld, PersonalOrg, First, GetActiveOrg;
    HomeIsAll(s.db, u, before);
    if p :| p in s.procs && s.procs[p] == Proc(EnsurePersonal(u), Finished(Returned(PersonalOrg(u)))) {
      assert OnTheWay(s.db, u, s.procs[p].point);
      assert ForeignKeysHold(s.db, u, PersonalOrg(u));
      assert OrgsOf(s.db, u) == {PersonalOrg(u)};
    }
  }

  // ---------------------------------------------------------------- one owner of the instance

  /** For this org, nothing but login enrolments (any call about other orgs is allowed). */
  ghost predicate OnlyEnrolments(actions: seq<Action>, o: OrgId) {
    forall i :: 0 <= i < |actions| && actions[i].Start? && Writes(actions[i].call, o) ==>
      actions[i].call.EnsureInstance?
  }

  /** The calls that may write membership rows of this org. */
  predicate Writes(call: Call, o: OrgId) {
    match call
    case EnsurePersonal(u) => PersonalOrg(u) == o
    case EnsureInstance(_, p) => p == o
    case CreateOrg(_, p) => p == o
    case SetActive(_, _) => false
    case AddMember(p, _, _) => p == o
    case SetRole(p, _, _) => p == o
    case Remove(p, _) => p == o
  }

  ghost predicate NoAdmin(db: Db, o: OrgId) { forall u :: (u, o) in db.members ==> db.members[(u, o)].role != Admin }

  /** One owner as soon as there is a row, and an enrolment that chose a role chose it for the table as it is. */
  ghost predicate OneOwner(s: System, o: OrgId) {
    && Inv(s)
    && (forall p :: p in s.procs && Writes(s.procs[p].call, o) ==> s.procs[p].call.EnsureInstance?)
    && (RowsOf(s.db, o) != {} ==> |OwnerRows(s.db, o)| == 1)
    && NoAdmin(s.db, o)
    && (forall p :: p in s.procs && s.procs[p].call.EnsureInstance? && s.procs[p].call.org == o && s.procs[p].point.RoleChosen? ==>
          s.procs[p].point.role == if RowsOf(s.db, o) == {} then Owner else Member)
  }

  ghost predicate SameOrg(db: Db, db': Db, o: OrgId) {
    && (forall u: UserId :: (u, o) in db.members <==> (u, o) in db'.members)
    && (forall u: UserId :: (u, o) in db.members ==> db'.members[(u, o)] == db.members[(u, o)])
  }

  lemma SameOrgRows(db: Db, db': Db, o: OrgId)
    requires SameOrg(db, db', o)
    ensures RowsOf(db', o) == RowsOf(db, o) && OwnerRows(db', o) == OwnerRows(db, o)
    ensures NoAdmin(db, o) ==> NoAdmin(db', o)
  {
    forall k: Key | k.1 == o ensures (k in db.members <==> k in db'.members) && (k in db.members ==> db'.members[k] == db.members[k]) {
      assert k == (k.0, o);
    }
  }

  /** Writing rows of one org, or no rows, leaves the rows of another. */
  lemma WritesLeaveOrg(db: Db, u: UserId, p: OrgId, role: Role, at: int, o: OrgId)
    ensures p != o ==> SameOrg(db, Enrolled(db, u, p, role, at), o)
    ensures p != o ==> SameOrg(db, WithDefaultActive(Enrolled(db, u, p, role, at), u, p), o)
    ensures p != o ==> SameOrg(db, RoleChanged(db, u, p, role), o) && SameOrg(db, Removed(db, u, p), o)
    ensures SameOrg(db, WithDefaultActive(db, u, p), o)
    ensures SameOrg(db, db, o) && SameOrg(db, db.(active := db.active[u := p]), o)
    ensures SameOrg(db, db.(orgs := db.orgs + {p}), o)
  {
  }

  lemma OthersLeaveOrg(s: System, a: Action, o: OrgId)
    requires a.Step? && a.pid in s.procs ==> !Writes(s.procs[a.pid].call, o)
    ensures SameOrg(s.db, Next(s, a).db, o)
  {
    hide FirstOrg, GetActiveOrg, OwnerRows, RowsOf, PersonalOrg, HasOrg, SameOrg, Enrolled, RoleChanged, Removed, WithDefaultActive;
    WritesLeaveOrg(s.db, "", "", Owner, 0, o);
    if a.Step? && a.pid in s.procs {
      var point := s.procs[a.pid].point;
      match s.procs[a.pid].call
      case EnsurePersonal(v) =>
        WritesLeaveOrg(s.db, v, PersonalOrg(v), Owner, a.at, o);
        if point.ActiveSnapshot? && point.first.Some? {
          WritesLeaveOrg(s.db, v, point.first.value, Owner, a.at, o);
        }
      case EnsureInstance(v, p) =>
        if point.RoleChosen? { WritesLeaveOrg(s.db, v, p, point.role, a.at, o); }
      case CreateOrg(v, p) => WritesLeaveOrg(s.db, v, p, Owner, a.at, o);
      case SetActive(v, p) => WritesLeaveOrg(s.db, v, p, Owner, a.at, o);
      case AddMember(p, found, role) =>
        if found.Some? { WritesLeaveOrg(s.db, found.value, p, role, a.at, o); }
      case SetRole(p, v, role) => WritesLeaveOrg(s.db, v, p, role, a.at, o);
      case Remove(p, v) => WritesLeaveOrg(s.db, v, p, Owner, a.at, o);
    }
  }

  lemma FirstEnrolment(db: Db, u: UserId, o: OrgId, role: Role, at: int)
    requires RowsOf(db, o) != {} ==> |OwnerRows(db, o)| == 1
    requires role == if RowsOf(db, o) == {} then Owner else Member
    ensures var db' := Enrolled(db, u, o, role, at);
            RowsOf(db', o) != {} && |OwnerRows(db', o)| == 1 && (NoAdmin(db, o) ==> NoAdmin(db', o))
  {
    var db' := Enrolled(db, u, o, role, at);
    assert (u, o) in RowsOf(db', o);
    if (u, o) !in db.members {
      if RowsOf(db, o) == {} {
        assert forall k: Key :: k in db.members && k.1 == o ==> k in RowsOf(db, o);
        assert OwnerRows(db', o) == {(u, o)};
      } else {
        assert OwnerRows(db', o) == OwnerRows(db, o);
      }
    } else {
      assert (u, o) in RowsOf(db, o);
    }
  }

  /** The step that commits an enrolment. */
  predicate Enrols(s: System, a: Action, o: OrgId) {
    a.Step? && a.pid in s.procs && s.procs[a.pid].point.RoleChosen?
    && s.procs[a.pid].call.EnsureInstance? && s.procs[a.pid].call.org == o
  }

  lemma EnrolStep(s: System, a: Action, o: OrgId)
    requires OneOwner(s, o) && a.Step? && a.pid in s.procs
    requires s.procs[a.pid].call.EnsureInstance? && s.procs[a.pid].call.org == o
    ensures var s' := Next(s, a);
            && (RowsOf(s'.db, o) != {} ==> |OwnerRows(s'.db, o)| == 1)
            && NoAdmin(s'.db, o)
            && (!Enrols(s, a, o) ==> SameOrg(s.db, s'.db, o))
            && (a.pid in s'.procs && s'.procs[a.pid].point.RoleChosen? ==>
                  s'.procs[a.pid].point.role == if RowsOf(s'.db, o) == {} then Owner else Member)
  {
    hide FirstOrg, GetActiveOrg, OwnerRows, RowsOf, PersonalOrg, HasOrg, StepPersonal, StepCreate, StepAdd, StepSetRole, StepRemove, Inv, Enrolled, NoAdmin;
    var u := s.procs[a.pid].call.user;
    if Enrols(s, a, o) {
      FirstEnrolment(s.db, u, o, s.procs[a.pid].point.role, a.at);
      ActiveLeavesRows(Enrolled(s.db, u, o, s.procs[a.pid].point.role, a.at), u, o);
    }
  }

  lemma ActiveLeavesRows(db: Db, u: UserId, o: OrgId)
    ensures RowsOf(WithDefaultActive(db, u, o), o) == RowsOf(db, o)
    ensures OwnerRows(WithDefaultActive(db, u, o), o) == OwnerRows(db, o)
    ensures NoAdmin(db, o) ==> NoAdmin(WithDefaultActive(db, u, o), o)
  {
  }

  /** An event other than a statement leaves a call where it is, or ends it. */
  lemma CrashEnds(s: System, a: Action)
    requires !a.Step? && a.pid in s.procs
    ensures a.pid in Next(s, a).procs
    ensures Next(s, a).procs[a.pid] == s.procs[a.pid] || Next(s, a).procs[a.pid].point == Finished(Crashed)
  {
  }

  lemma OneOwnerKept(s: System, a: Action, o: OrgId)
    requires OneOwner(s, o)
    requires a.Start? && Writes(a.call, o) ==> a.call.EnsureInstance?
    ensures OneOwner(Next(s, a), o)
  {
    hide Next, OwnerRows, RowsOf, DbMoves, SameOrg, Linked, Informed, NoAdmin;
    InvKept(s, a);
    Moves(s, a);
    var s' := Next(s, a);
    if a.Step? && a.pid in s.procs && Writes(s.procs[a.pid].call, o) {
      EnrolStep(s, a, o);
      if !Enrols(s, a, o) { SameOrgRows(s.db, s'.db, o); }
    } else {
      OthersLeaveOrg(s, a, o);
      SameOrgRows(s.db, s'.db, o);
    }
    forall p | p in s'.procs && s'.procs[p].call.EnsureInstance? && s'.procs[p].call.org == o && s'.procs[p].point.RoleChosen?
      ensures s'.procs[p].point.role == if RowsOf(s'.db, o) == {} then Owner else Member
    {
      assert p in s.procs;
      if p == a.pid && s'.procs[p] != s.procs[p] {
        if !a.Step? { CrashEnds(s, a); }
      } else {
        assert Holding(s.procs[p]);
        assert Enrols(s, a, o) ==> Holding(s.procs[a.pid]);
      }
    }
  }

  lemma {:induction false} OneOwnerRun(s: System, actions: seq<Action>, o: OrgId)
    requires OneOwner(s, o) && OnlyEnrolments(actions, o)
    ensures OneOwner(Run(s, actions), o)
    decreases |actions|
  {
    hide OneOwner, Next;
    if actions != [] {
      OneOwnerKept(s, actions[0], o);
      OneOwnerRun(Next(s, actions[0]), actions[1..], o);
    }
  }

  lemma OneOwnerIs(db: Db, o: OrgId)
    requires |OwnerRows(db, o)| == 1 && NoAdmin(db, o)
    ensures exists u :: (u, o) in db.members && db.members[(u, o)].role == Owner
                        && forall v :: (v, o) in db.members && v != u ==> db.members[(v, o)].role == Member
  {
    var k :| k in OwnerRows(db, o);
    assert OwnerRows(db, o) == OwnerRows(db, o) - {k} + {k};
    forall v | (v, o) in db.members && v != k.0 ensures db.members[(v, o)].role == Member {
      assert (v, o) in OwnerRows(db, o) <==> db.members[(v, o)].role == Owner;
    }
    assert (k.0, o) in db.members;
  }

  /** Any interleaving of login enrolments into an empty org, by any users, leaves exactly one owner as soon
      as it has a member. */
  lemma InstanceHasOneOwner(s: System, actions: seq<Action>, o: OrgId)
    requires Initial(s) && (forall u :: (u, o) !in s.db.members) && OnlyEnrolments(actions, o)
    ensures var rows := Run(s, actions).db.members;
            (exists u :: (u, o) in rows) ==>
              exists u :: (u, o) in rows && rows[(u, o)].role == Owner
                          && forall v :: (v, o) in rows && v != u ==> rows[(v, o)].role == Member
  {
    hide Next;
    InitialInv(s);
    NoRowsIs(s.db, o);
    OneOwnerRun(s, actions, o);
    NoRowsIs(Run(s, actions).db, o);
    if exists u :: (u, o) in Run(s, actions).db.members {
      OneOwnerIs(Run(s, actions).db, o);
    }
  }
}
