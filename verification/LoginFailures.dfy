/** When exactly a first login ends in a foreign key violation, among any other calls, about the same user included. */
module LoginFailures {
  import opened Text
  import opened Membership
  import opened MembershipSafety
  import opened MembershipTenant

  /** The state after the first n actions. */
  ghost function State(s: System, actions: seq<Action>, n: nat): System
    requires n <= |actions|
  {
    Run(s, actions[..n])
  }

  lemma StateNext(s: System, actions: seq<Action>, n: nat)
    requires n < |actions|
    ensures State(s, actions, n + 1) == Next(State(s, actions, n), actions[n])
  {
    hide Next;
    assert actions[..n + 1] == actions[..n] + [actions[n]];
    RunInTwo(s, actions[..n], [actions[n]]);
    RunOne(State(s, actions, n), actions[n], []);
    assert [actions[n]] + [] == [actions[n]];
  }

  lemma StateInv(s: System, actions: seq<Action>, n: nat)
    requires Initial(s) && n <= |actions|
    ensures Inv(State(s, actions, n))
  {
    hide Next, Inv;
    InitialInv(s);
    RunInv(s, actions[..n]);
  }

  /** Users do not change and orgs are never deleted. */
  lemma StateGrows(s: System, actions: seq<Action>, m: nat, n: nat)
    requires m <= n <= |actions|
    ensures State(s, actions, n).db.users == State(s, actions, m).db.users
    ensures State(s, actions, m).db.orgs <= State(s, actions, n).db.orgs
    decreases n
  {
    hide Next, Run;
    if m < n {
      StateGrows(s, actions, m, n - 1);
      StateNext(s, actions, n - 1);
      Moves(State(s, actions, n - 1), actions[n - 1]);
    }
  }

  // ---------------------------------------------------------------- one login's own steps

  predicate IsLogin(s: System, p: Pid, u: UserId) { p in s.procs && s.procs[p].call == EnsurePersonal(u) }

  predicate Steps(a: Action, p: Pid) { a.Step? && a.pid == p }

  /** Where the next statement of a login takes it. */
  ghost function PointAfter(db: Db, point: Point, u: UserId): Point {
    match point
    case Begin => OrgSnapshot(u in db.users && !HasOrg(db, u))
    case OrgSnapshot(_) => OrgReady
    case OrgReady => MemberSnapshot(!HasOrg(db, u))
    case MemberSnapshot(none) =>
      if none && (u, PersonalOrg(u)) !in db.members && !ForeignKeysHold(db, u, PersonalOrg(u)) then Finished(ForeignKeyViolation)
      else MemberReady
    case MemberReady => ActiveSnapshot(FirstOrg(db, u))
    case ActiveSnapshot(_) => ActiveReady
    case ActiveReady => Finished(if GetActiveOrg(db, u).Some? then Returned(GetActiveOrg(db, u).value) else NoOrg)
    case _ => point
  }

  lemma LoginMoves(s: System, a: Action, p: Pid, u: UserId)
    requires IsLogin(s, p, u)
    ensures var s' := Next(s, a);
            && IsLogin(s', p, u)
            && (Steps(a, p) ==> s'.procs[p].point == PointAfter(s.db, s.procs[p].point, u))
            && (!Steps(a, p) ==>
                  s'.procs[p] == s.procs[p] || (!s.procs[p].point.Finished? && s'.procs[p].point == Finished(Crashed)))
            && (Steps(a, p) && s.procs[p].point == OrgSnapshot(true) ==> PersonalOrg(u) in s'.db.orgs)
  {
    hide HasOrg, FirstOrg, GetActiveOrg, PersonalOrg, ForeignKeysHold, Enrolled, WithDefaultActive, RowsOf, OwnerRows;
    if !Steps(a, p) && a.pid != p {
      hide Next, DbMoves;
      Moves(s, a);
    }
  }

  lemma LoginStarts(s: System, a: Action, p: Pid, u: UserId)
    requires !IsLogin(s, p, u) && IsLogin(Next(s, a), p, u)
    ensures Next(s, a).procs[p].point == Begin
  {
    hide Next, DbMoves;
    Moves(s, a);
  }

  // ---------------------------------------------------------------- what a login saw

  /** Step i of the run is the first statement of the login, and finds a membership. */
  ghost predicate SawMembership(s: System, actions: seq<Action>, p: Pid, u: UserId, i: nat) {
    && i < |actions| && Steps(actions[i], p) && IsLogin(State(s, actions, i), p, u)
    && State(s, actions, i).procs[p].point == Begin && HasOrg(State(s, actions, i).db, u)
  }

  /** Step j is the snapshot of the membership insert, and finds none. */
  ghost predicate SawNone(s: System, actions: seq<Action>, p: Pid, u: UserId, j: nat) {
    && j < |actions| && Steps(actions[j], p) && IsLogin(State(s, actions, j), p, u)
    && State(s, actions, j).procs[p].point == OrgReady && !HasOrg(State(s, actions, j).db, u)
  }

  /** Step k is the insert of that membership, and the personal org does not exist. */
  ghost predicate InsertsHomeless(s: System, actions: seq<Action>, p: Pid, u: UserId, k: nat) {
    && k < |actions| && Steps(actions[k], p) && IsLogin(State(s, actions, k), p, u)
    && State(s, actions, k).procs[p].point.MemberSnapshot? && PersonalOrg(u) !in State(s, actions, k).db.orgs
  }

  ghost predicate Stranded(s: System, actions: seq<Action>, p: Pid, u: UserId) {
    exists i: nat, j: nat, k: nat ::
      i < j < k && SawMembership(s, actions, p, u, i) && SawNone(s, actions, p, u, j) && InsertsHomeless(s, actions, p, u, k)
  }

  ghost predicate SawBefore(s: System, actions: seq<Action>, p: Pid, u: UserId, n: nat) {
    exists i: nat :: i < n && SawMembership(s, actions, p, u, i)
  }

  ghost predicate Housed(s: System, actions: seq<Action>, n: nat, u: UserId)
    requires n <= |actions|
  {
    PersonalOrg(u) in State(s, actions, n).db.orgs
  }

  /** What the point of a login tells of its past. */
  ghost predicate Story(s: System, actions: seq<Action>, n: nat, p: Pid, u: UserId)
    requires n <= |actions|
  {
    IsLogin(State(s, actions, n), p, u) ==>
      match State(s, actions, n).procs[p].point
      case OrgSnapshot(none) => none || SawBefore(s, actions, p, u, n)
      case OrgReady => Housed(s, actions, n, u) || SawBefore(s, actions, p, u, n)
      case MemberSnapshot(none) =>
        none ==> Housed(s, actions, n, u) || exists j: nat :: j < n && SawNone(s, actions, p, u, j) && SawBefore(s, actions, p, u, j)
      case Finished(ForeignKeyViolation) => Stranded(s, actions, p, u)
      case _ => true
  }

  lemma SawGrows(s: System, actions: seq<Action>, p: Pid, u: UserId, m: nat, n: nat)
    requires m <= n
    ensures SawBefore(s, actions, p, u, m) ==> SawBefore(s, actions, p, u, n)
  {
    if SawBefore(s, actions, p, u, m) {
      var i: nat :| i < m && SawMembership(s, actions, p, u, i);
      assert i < n && SawMembership(s, actions, p, u, i);
    }
  }

  lemma NextStory(s: System, actions: seq<Action>, n: nat, p: Pid, u: UserId)
    requires Initial(s) && u in s.db.users && n < |actions| && Story(s, actions, n, p, u)
    requires IsLogin(State(s, actions, n), p, u)
    ensures Story(s, actions, n + 1, p, u)
  {
    hide Next, Run, HasOrg, FirstOrg, GetActiveOrg, PersonalOrg;
    var now := State(s, actions, n);
    StateNext(s, actions, n);
    StateGrows(s, actions, n, n + 1);
    StateGrows(s, actions, 0, n);
    assert actions[..0] == [];
    assert State(s, actions, 0) == s by { RunNothing(s); }
    LoginMoves(now, actions[n], p, u);
    SawGrows(s, actions, p, u, n, n + 1);
    if Steps(actions[n], p) {
      match now.procs[p].point
      case Begin => SeesMembership(s, actions, n, p, u);
      case OrgReady => SeesNone(s, actions, n, p, u);
      case MemberSnapshot(none) => Strands(s, actions, n, p, u);
      case _ =>
    }
  }

  lemma RunNothing(s: System)
    ensures Run(s, []) == s
  {
  }

  lemma SeesMembership(s: System, actions: seq<Action>, n: nat, p: Pid, u: UserId)
    requires n < |actions| && Steps(actions[n], p) && IsLogin(State(s, actions, n), p, u)
    requires State(s, actions, n).procs[p].point == Begin
    ensures HasOrg(State(s, actions, n).db, u) ==> SawBefore(s, actions, p, u, n + 1)
  {
    if HasOrg(State(s, actions, n).db, u) {
      assert SawMembership(s, actions, p, u, n);
    }
  }

  lemma SeesNone(s: System, actions: seq<Action>, n: nat, p: Pid, u: UserId)
    requires n < |actions| && Steps(actions[n], p) && IsLogin(State(s, actions, n), p, u)
    requires State(s, actions, n).procs[p].point == OrgReady
    ensures !HasOrg(State(s, actions, n).db, u) && SawBefore(s, actions, p, u, n) ==>
              exists j: nat :: j < n + 1 && SawNone(s, actions, p, u, j) && SawBefore(s, actions, p, u, j)
  {
    if !HasOrg(State(s, actions, n).db, u) && SawBefore(s, actions, p, u, n) {
      assert SawNone(s, actions, p, u, n);
    }
  }

  /** The insert fails only for a missing org, which a login that created it does not meet. */
  lemma Strands(s: System, actions: seq<Action>, n: nat, p: Pid, u: UserId)
    requires n < |actions| && Steps(actions[n], p) && IsLogin(State(s, actions, n), p, u) && Story(s, actions, n, p, u)
    requires State(s, actions, n).procs[p].point.MemberSnapshot? && u in State(s, actions, n).db.users
    ensures PointAfter(State(s, actions, n).db, State(s, actions, n).procs[p].point, u) == Finished(ForeignKeyViolation) ==>
              Stranded(s, actions, p, u)
  {
    hide Run, HasOrg, FirstOrg, GetActiveOrg, PersonalOrg;
    if PointAfter(State(s, actions, n).db, State(s, actions, n).procs[p].point, u) == Finished(ForeignKeyViolation) {
      assert InsertsHomeless(s, actions, p, u, n);
      var j: nat :| j < n && SawNone(s, actions, p, u, j) && SawBefore(s, actions, p, u, j);
      var i: nat :| i < j && SawMembership(s, actions, p, u, i);
    }
  }

  lemma {:induction false} RunStory(s: System, actions: seq<Action>, n: nat, p: Pid, u: UserId)
    requires Initial(s) && u in s.db.users && n <= |actions|
    ensures Story(s, actions, n, p, u)
  {
    hide Next, HasOrg;
    if n == 0 {
      assert actions[..0] == [];
    } else {
      RunStory(s, actions, n - 1, p, u);
      if IsLogin(State(s, actions, n - 1), p, u) {
        NextStory(s, actions, n - 1, p, u);
      } else if IsLogin(State(s, actions, n), p, u) {
        StateNext(s, actions, n - 1);
        LoginStarts(State(s, actions, n - 1), actions[n - 1], p, u);
      }
    }
  }

  // ---------------------------------------------------------------- the other direction

  /** A login whose snapshot found no membership is about to insert one, or is past it. */
  predicate Committed(point: Point) {
    point == MemberSnapshot(true) || point.MemberReady? || point.ActiveSnapshot? || point.ActiveReady? || point.Finished?
  }

  lemma {:induction false} StaysCommitted(s: System, actions: seq<Action>, p: Pid, u: UserId, j: nat, n: nat)
    requires SawNone(s, actions, p, u, j) && j < n <= |actions|
    ensures IsLogin(State(s, actions, n), p, u) && Committed(State(s, actions, n).procs[p].point)
    decreases n
  {
    hide Next, Run, HasOrg, FirstOrg, GetActiveOrg, PersonalOrg, ForeignKeysHold;
    if n == j + 1 {
      StateNext(s, actions, j);
      LoginMoves(State(s, actions, j), actions[j], p, u);
    } else {
      StaysCommitted(s, actions, p, u, j, n - 1);
      StateNext(s, actions, n - 1);
      LoginMoves(State(s, actions, n - 1), actions[n - 1], p, u);
    }
  }

  lemma {:induction false} StaysFinished(s: System, actions: seq<Action>, p: Pid, u: UserId, m: nat, n: nat, result: Result)
    requires m <= n <= |actions| && IsLogin(State(s, actions, m), p, u)
    requires State(s, actions, m).procs[p].point == Finished(result)
    ensures IsLogin(State(s, actions, n), p, u) && State(s, actions, n).procs[p].point == Finished(result)
    decreases n
  {
    hide Next, Run, HasOrg, FirstOrg, GetActiveOrg, PersonalOrg, ForeignKeysHold;
    if m < n {
      StaysFinished(s, actions, p, u, m, n - 1, result);
      StateNext(s, actions, n - 1);
      LoginMoves(State(s, actions, n - 1), actions[n - 1], p, u);
    }
  }

  lemma StrandedFails(s: System, actions: seq<Action>, p: Pid, u: UserId, j: nat, k: nat)
    requires Initial(s) && j < k && SawNone(s, actions, p, u, j) && InsertsHomeless(s, actions, p, u, k)
    ensures IsLogin(State(s, actions, |actions|), p, u)
    ensures State(s, actions, |actions|).procs[p].point == Finished(ForeignKeyViolation)
  {
    hide Next, Run, HasOrg, FirstOrg, GetActiveOrg, PersonalOrg;
    var now := State(s, actions, k);
    StaysCommitted(s, actions, p, u, j, k);
    StateInv(s, actions, k);
    assert (u, PersonalOrg(u)) !in now.db.members;
    StateNext(s, actions, k);
    LoginMoves(now, actions[k], p, u);
    StaysFinished(s, actions, p, u, k + 1, |actions|, ForeignKeyViolation);
  }

  // ---------------------------------------------------------------- main results

  /**
    When a first login fails. In every run, with any calls of anybody and crashes anywhere, a login of an existing
    user ends in a foreign key violation if and only if its first snapshot saw a membership, its second one saw
    none, and the personal org did not exist when it inserted the row.
   */
  lemma LoginFailsExactly(s: System, actions: seq<Action>, p: Pid, u: UserId)
    requires Initial(s) && u in s.db.users && IsLogin(Run(s, actions), p, u)
    ensures Run(s, actions).procs[p].point == Finished(ForeignKeyViolation) <==> Stranded(s, actions, p, u)
  {
    hide Next, Run, HasOrg, FirstOrg, GetActiveOrg, PersonalOrg, SawMembership, SawNone, InsertsHomeless, SawBefore;
    assert actions[..|actions|] == actions;
    RunStory(s, actions, |actions|, p, u);
    if Stranded(s, actions, p, u) {
      var i: nat, j: nat, k: nat :|
        i < j < k && SawMembership(s, actions, p, u, i) && SawNone(s, actions, p, u, j) && InsertsHomeless(s, actions, p, u, k);
      StrandedFails(s, actions, p, u, j, k);
    }
  }

  /** No call of the run removes this user from an org. */
  ghost predicate NoRemoval(actions: seq<Action>, u: UserId) {
    forall i :: 0 <= i < |actions| && actions[i].Start? && actions[i].call.Remove? ==> actions[i].call.user != u
  }

  ghost predicate NobodyRemoves(s: System, u: UserId) {
    forall p :: p in s.procs && s.procs[p].call.Remove? ==> s.procs[p].call.user != u
  }

  /** What a commit writes. */
  lemma CommitWrites(s: System, a: Action)
    requires Commits(s, a)
    ensures var call := s.procs[a.pid].call;
            Next(s, a).db == if call.SetRole? then RoleChanged(s.db, call.user, call.org, call.role) else Removed(s.db, call.user, call.org)
  {
  }

  lemma MembershipStays(s: System, a: Action, u: UserId)
    requires NobodyRemoves(s, u) && HasOrg(s.db, u)
    ensures HasOrg(Next(s, a).db, u)
  {
    hide Next;
    var o :| (u, o) in s.db.members;
    Moves(s, a);
    if Commits(s, a) {
      CommitWrites(s, a);
    }
    assert (u, o) in Next(s, a).db.members;
  }

  lemma {:induction false} NobodyComes(s: System, actions: seq<Action>, u: UserId, n: nat)
    requires Initial(s) && NoRemoval(actions, u) && n <= |actions|
    ensures NobodyRemoves(State(s, actions, n), u)
  {
    hide Next, DbMoves;
    if n == 0 {
      assert actions[..0] == [];
    } else {
      NobodyComes(s, actions, u, n - 1);
      StateNext(s, actions, n - 1);
      Moves(State(s, actions, n - 1), actions[n - 1]);
    }
  }

  lemma {:induction false} MembershipLasts(s: System, actions: seq<Action>, u: UserId, i: nat, j: nat)
    requires Initial(s) && NoRemoval(actions, u) && i <= j <= |actions| && HasOrg(State(s, actions, i).db, u)
    ensures HasOrg(State(s, actions, j).db, u)
    decreases j
  {
    hide Next, Run, HasOrg;
    if i < j {
      MembershipLasts(s, actions, u, i, j - 1);
      NobodyComes(s, actions, u, j - 1);
      StateNext(s, actions, j - 1);
      MembershipStays(State(s, actions, j - 1), actions[j - 1], u);
    }
  }

  /** What a caller can check beforehand: no login of an existing user fails when the personal org is already
      there, or when nobody removes the user from an org in the meantime - whatever else is called about that user. */
  lemma LoginSucceeds(s: System, actions: seq<Action>, p: Pid, u: UserId)
    requires Initial(s) && u in s.db.users && IsLogin(Run(s, actions), p, u)
    requires PersonalOrg(u) in s.db.orgs || NoRemoval(actions, u)
    ensures Run(s, actions).procs[p].point != Finished(ForeignKeyViolation)
  {
    hide Next, Run, HasOrg, FirstOrg, GetActiveOrg, PersonalOrg;
    LoginFailsExactly(s, actions, p, u);
    forall i: nat, j: nat, k: nat |
      i < j < k && SawMembership(s, actions, p, u, i) && SawNone(s, actions, p, u, j) && InsertsHomeless(s, actions, p, u, k)
      ensures false
    {
      StateGrows(s, actions, 0, k);
      assert actions[..0] == [];
      RunNothing(s);
      if NoRemoval(actions, u) {
        MembershipLasts(s, actions, u, i, j);
      }
    }
  }
}
