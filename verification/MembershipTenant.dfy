/** The one tenant that client and server agree on, and the race that first-login convergence excludes. */
module MembershipTenant {
  import opened Text
  import opened Membership
  import opened MembershipSafety

  // ---------------------------------------------------------------- the org switcher

  datatype Summary = Summary(id: OrgId, role: Role, active: bool)

  /** The memberships of a user that join an existing org, in the order of the listing. */
  ghost function Ordered(db: Db, u: UserId, among: set<OrgId>): (r: seq<OrgId>)
    requires forall o :: o in among ==> (u, o) in db.members
    ensures forall o :: o in r <==> o in among
    decreases among
  {
    if among == {} then []
    else
      var o := First(db, u, among);
      [o] + Ordered(db, u, among - {o})
  }

  ghost function ListOrgs(db: Db, u: UserId): seq<Summary> {
    var joined := set o | o in OrgsOf(db, u) && o in db.orgs;
    var order := Ordered(db, u, joined);
    seq(|order|, i requires 0 <= i < |order| =>
      assert order[i] in order;
      Summary(order[i], db.members[(u, order[i])].role, u in db.active && db.active[u] == order[i]))
  }

  /** `orgs.find((o) => o.active)`. */
  function FindActive(orgs: seq<Summary>): Option<Summary> {
    if orgs == [] then None else if orgs[0].active then Some(orgs[0]) else FindActive(orgs[1..])
  }

  /** The org the client works in: the one flagged active, else the first. */
  function ClientOrg(orgs: seq<Summary>): Option<Summary> {
    if FindActive(orgs).Some? then FindActive(orgs) else if orgs == [] then None else Some(orgs[0])
  }

  function ClientCanManage(orgs: seq<Summary>): bool {
    ClientOrg(orgs).Some? && (ClientOrg(orgs).value.role == Admin || ClientOrg(orgs).value.role == Owner)
  }

  function Rank(role: Role): nat {
    match role case Member => 1 case Admin => 2 case Owner => 3
  }

  predicate AtLeast(role: Role, min: Role) { Rank(role) >= Rank(min) }

  lemma {:induction false} FindActiveFinds(orgs: seq<Summary>)
    ensures FindActive(orgs).Some? ==> FindActive(orgs).value in orgs && FindActive(orgs).value.active
    ensures FindActive(orgs).None? ==> forall o :: o in orgs ==> !o.active
  {
    if orgs != [] {
      FindActiveFinds(orgs[1..]);
      assert forall o :: o in orgs <==> o == orgs[0] || o in orgs[1..];
    }
  }

  /** An entry that tells the truth about one membership. */
  predicate Lists(db: Db, u: UserId, x: Summary) {
    && (u, x.id) in db.members
    && x.role == db.members[(u, x.id)].role
    && (x.active <==> u in db.active && db.active[u] == x.id)
  }

  lemma ListedOrgs(db: Db, u: UserId)
    requires Linked(db)
    ensures var list := ListOrgs(db, u);
            && (forall x :: x in list ==> Lists(db, u, x))
            && (forall o :: (u, o) in db.members ==> exists x :: x in list && x.id == o)
            && (if OrgsOf(db, u) == {} then list == [] else list != [] && Some(list[0].id) == FirstOrg(db, u))
  {
    hide First;
    var joined := set o | o in OrgsOf(db, u) && o in db.orgs;
    assert joined == OrgsOf(db, u);
    var order := Ordered(db, u, joined);
    var list := ListOrgs(db, u);
    assert |list| == |order|;
    forall x | x in list ensures Lists(db, u, x) {
      var i :| 0 <= i < |list| && list[i] == x;
      assert order[i] in order;
    }
    forall o | (u, o) in db.members ensures exists x :: x in list && x.id == o {
      assert o in order;
      var i :| 0 <= i < |order| && order[i] == o;
      assert list[i] in list && list[i].id == o;
    }
  }

  lemma {:induction false} OrderedInOrder(db: Db, u: UserId, among: set<OrgId>, i: nat, j: nat)
    requires forall o :: o in among ==> (u, o) in db.members
    requires i < j < |Ordered(db, u, among)|
    ensures var r := Ordered(db, u, among);
            r[i] != r[j] && r[i] in among && r[j] in among && Before(db, u, r[i], r[j])
    decreases among
  {
    hide First, Before;
    var o := First(db, u, among);
    var rest := among - {o};
    assert Ordered(db, u, among) == [o] + Ordered(db, u, rest);
    if i > 0 {
      OrderedInOrder(db, u, rest, i - 1, j - 1);
    } else {
      assert Ordered(db, u, rest)[j - 1] in rest;
    }
  }

  /** The listing has every membership of an existing org once, the earliest first, and those joined at the same time
      in the order of their names. */
  lemma ListedInOrder(db: Db, u: UserId)
    ensures var list := ListOrgs(db, u);
            && (forall o :: o in db.orgs && (u, o) in db.members <==> exists i :: 0 <= i < |list| && list[i].id == o)
            && forall i, j :: 0 <= i < j < |list| ==>
                 var x, y := list[i].id, list[j].id;
                 && x != y && (u, x) in db.members && (u, y) in db.members
                 && (|| db.members[(u, x)].since < db.members[(u, y)].since
                     || (db.members[(u, x)].since == db.members[(u, y)].since && NoLater(x, y)))
  {
    hide First, Before;
    var joined := set o | o in OrgsOf(db, u) && o in db.orgs;
    var order := Ordered(db, u, joined);
    var list := ListOrgs(db, u);
    assert |list| == |order| && forall i :: 0 <= i < |list| ==> list[i].id == order[i];
    forall i, j | 0 <= i < j < |list|
      ensures var x, y := list[i].id, list[j].id;
              && x != y && (u, x) in db.members && (u, y) in db.members
              && (|| db.members[(u, x)].since < db.members[(u, y)].since
                  || (db.members[(u, x)].since == db.members[(u, y)].since && NoLater(x, y)))
    {
      var x, y := order[i], order[j];
      OrderedInOrder(db, u, joined, i, j);
      BeforeMeans(db, u, x, y);
      assert list[i].id == x && list[j].id == y;
    }
    forall o ensures o in db.orgs && (u, o) in db.members <==> exists i :: 0 <= i < |list| && list[i].id == o {
      assert o in joined <==> o in db.orgs && (u, o) in db.members;
      assert o in order <==> o in joined;
      if i :| 0 <= i < |list| && list[i].id == o {
        assert order[i] == o;
      }
      if o in order {
        var i :| 0 <= i < |order| && order[i] == o;
        assert list[i].id == o;
      }
    }
  }

  /** Client and server agree on the tenant, for every state the tables can be in - a stale active selection
      included: the client's org is the server's active org, it is a current membership, there is none
      exactly when there is no membership, and the client's admin gate is the server's role gate. */
  lemma TenantAgreement(db: Db, u: UserId)
    requires Linked(db)
    ensures var client, server := ClientOrg(ListOrgs(db, u)), GetActiveOrg(db, u);
            && (client.Some? <==> server.Some?)
            && (server.Some? <==> HasOrg(db, u))
            && (client.Some? ==>
                  && client.value.id == server.value && (u, server.value) in db.members
                  && (ClientCanManage(ListOrgs(db, u)) <==> AtLeast(db.members[(u, server.value)].role, Admin))
                  && (ClientCanManage(ListOrgs(db, u)) <==> db.members[(u, server.value)].role in {Owner, Admin}))
  {
    hide ListOrgs;
    var list := ListOrgs(db, u);
    ListedOrgs(db, u);
    FindActiveFinds(list);
    assert OrgsOf(db, u) != {} ==> First(db, u, OrgsOf(db, u)) in OrgsOf(db, u);
    if u in db.active && (u, db.active[u]) in db.members {
      var x :| x in list && x.id == db.active[u];
      assert x.active;
    }
    if list != [] {
      assert list[0] in list;
    }
    assert OrgsOf(db, u) != {} <==> HasOrg(db, u);
  }

  /** ... in particular in every reachable state. */
  lemma TenantAgreementReachable(s: System, u: UserId)
    requires Reachable(s)
    ensures var client, server := ClientOrg(ListOrgs(s.db, u)), GetActiveOrg(s.db, u);
            (client.Some? <==> server.Some?) && (client.Some? ==> client.value.id == server.value)
  {
    hide GetActiveOrg, ListOrgs, ClientOrg, ClientCanManage, Next;
    var init, before :| Initial(init) && s == Run(init, before);
    InitialInv(init);
    RunInv(init, before);
    TenantAgreement(s.db, u);
  }

  // ---------------------------------------------------------------- a removal in the middle of a first login

  /** Why convergence excludes removals of the same user: the org is skipped because a membership is seen,
      the membership is removed, and the insert then violates the org foreign key. */
  lemma RemovalBreaksLogin(u: UserId, team: OrgId)
    requires team != PersonalOrg(u)
    ensures var db := Db({u}, {team}, map[(u, team) := Row(Member, 0)], map[]);
            var login, remove := EnsurePersonal(u), Remove(team, u);
            var actions := [Start(0, login), Step(0, 0), Step(0, 0), Start(1, remove), Step(1, 0), Step(1, 0), Step(1, 0),
                            Step(1, 0), Step(0, 0), Step(0, 0)];
            var s := System(db, map[], map[]);
            && Initial(s)
            && 0 in Run(s, actions).procs
            && Run(s, actions).procs[0].point == Finished(ForeignKeyViolation)
  {
    hide Run, Next, PersonalOrg;
    var db := Db({u}, {team}, map[(u, team) := Row(Member, 0)], map[]);
    var login, remove := EnsurePersonal(u), Remove(team, u);
    var first := [Start(0, login), Step(0, 0), Step(0, 0)];
    var second := [Start(1, remove), Step(1, 0), Step(1, 0), Step(1, 0), Step(1, 0)];
    var third := [Step(0, 0), Step(0, 0)];
    var s := System(db, map[], map[]);
    var s1 := s.(procs := map[0 := Proc(login, OrgReady)]);
    LoginSkipsOrg(s, u, team);
    RunInTwo(s, first, second + third);
    var s2 := s1.(db := db.(members := map[]), procs := map[0 := Proc(login, OrgReady), 1 := Proc(remove, Finished(Done))]);
    MemberRemoved(s1, u, team);
    RunInTwo(s1, second, third);
    LoginFails(s2, u);
    assert first + (second + third) == [Start(0, login), Step(0, 0), Step(0, 0), Start(1, remove), Step(1, 0), Step(1, 0), Step(1, 0),
                            Step(1, 0), Step(0, 0), Step(0, 0)];
  }

  lemma {:induction false} RunInTwo(s: System, a: seq<Action>, b: seq<Action>)
    ensures Run(s, a + b) == Run(Run(s, a), b)
    decreases |a|
  {
    hide Next;
    if a == [] {
      assert a + b == b;
    } else {
      assert (a + b)[1..] == a[1..] + b;
      RunInTwo(Next(s, a[0]), a[1..], b);
    }
  }

  lemma RunOne(s: System, a: Action, rest: seq<Action>)
    ensures Run(s, [a] + rest) == Run(Next(s, a), rest)
    ensures Run(Next(s, a), []) == Next(s, a)
  {
    hide Next;
    assert ([a] + rest)[1..] == rest;
  }

  lemma LoginSkipsOrg(s: System, u: UserId, team: OrgId)
    requires s.db == Db({u}, {team}, map[(u, team) := Row(Member, 0)], map[]) && s.locks == map[] && s.procs == map[]
    ensures Run(s, [Start(0, EnsurePersonal(u)), Step(0, 0), Step(0, 0)]) == s.(procs := map[0 := Proc(EnsurePersonal(u), OrgReady)])
  {
    hide Run, FirstOrg, GetActiveOrg, StepInstance, StepCreate, StepAdd, StepSetRole, StepRemove, PersonalOrg;
    assert (u, team) in s.db.members;
    var start, step := Start(0, EnsurePersonal(u)), Step(0, 0);
    var s1, s2 := Next(s, start), Next(Next(s, start), step);
    RunOne(s, start, [step, step]);
    RunOne(s1, step, [step]);
    RunOne(s2, step, []);
    assert [start] + [step, step] == [start, step, step] && [step] + [step] == [step, step] && [step] + [] == [step];
    assert s1.procs == map[0 := Proc(EnsurePersonal(u), Begin)];
    assert s2.procs == map[0 := Proc(EnsurePersonal(u), OrgSnapshot(false))];
    assert Next(s2, step).procs == map[0 := Proc(EnsurePersonal(u), OrgReady)];
  }

  lemma RunFive(s: System, a: Action, b: Action)
    ensures Run(s, [a, b, b, b, b]) == Next(Next(Next(Next(Next(s, a), b), b), b), b)
  {
    hide Run, Next;
    var s1 := Next(s, a);
    RunOne(s, a, [b, b, b, b]);
    RunOne(s1, b, [b, b, b]);
    RunOne(Next(s1, b), b, [b, b]);
    RunOne(Next(Next(s1, b), b), b, [b]);
    RunOne(Next(Next(Next(s1, b), b), b), b, []);
    assert [a] + [b, b, b, b] == [a, b, b, b, b];
    assert [b] + [b, b, b] == [b, b, b, b] && [b] + [b, b] == [b, b, b];
    assert [b] + [b] == [b, b] && [b] + [] == [b];
  }

  /** A plain member is removed: lock, read, delete, commit. */
  lemma RemoveStep(s: System, u: UserId, team: OrgId)
    requires 1 in s.procs && s.procs[1].call == Remove(team, u)
    ensures var s', point := Next(s, Step(1, 0)), s.procs[1].point;
            && (point == Begin && team !in s.locks ==> s' == At(s.(locks := s.locks[team := 1]), 1, Locked))
            && (point == Locked && (u, team) in s.db.members ==> s' == At(s, 1, RoleRead(s.db.members[(u, team)].role)))
            && (point == RoleRead(Member) ==> s' == At(s, 1, Written))
            && (point == Written ==>
                  s' == s.(db := Removed(s.db, u, team), locks := s.locks - {team},
                           procs := s.procs[1 := Proc(Remove(team, u), Finished(Done))]))
  {
    hide OwnerRows, Removed;
  }

  lemma MemberRemoved(s: System, u: UserId, team: OrgId)
    requires s.db == Db({u}, {team}, map[(u, team) := Row(Member, 0)], map[]) && s.locks == map[]
    requires s.procs == map[0 := Proc(EnsurePersonal(u), OrgReady)]
    ensures var remove := Remove(team, u);
            Run(s, [Start(1, remove), Step(1, 0), Step(1, 0), Step(1, 0), Step(1, 0)])
            == s.(db := s.db.(members := map[]), procs := s.procs[1 := Proc(remove, Finished(Done))])
  {
    hide Run, Next, At;
    var remove := Remove(team, u);
    var start, step := Start(1, remove), Step(1, 0);
    var s1 := s.(procs := s.procs[1 := Proc(remove, Begin)]);
    Started(s, 1, remove);
    var s1' := s1.(locks := s1.locks[team := 1]);
    AtPoint(s1', 1, Locked, Proc(remove, Finished(Done)));
    var s2 := At(s1', 1, Locked);
    AtPoint(s2, 1, RoleRead(Member), Proc(remove, Finished(Done)));
    var s3 := At(s2, 1, RoleRead(Member));
    AtPoint(s3, 1, Written, Proc(remove, Finished(Done)));
    var s4 := At(s3, 1, Written);
    RemoveStep(s1, u, team);
    RemoveStep(s2, u, team);
    RemoveStep(s3, u, team);
    RemoveStep(s4, u, team);
    RunFive(s, start, step);
    assert s1'.locks - {team} == map[];
    assert Removed(s.db, u, team) == s.db.(members := map[]);
  }

  lemma Started(s: System, pid: Pid, call: Call)
    requires pid !in s.procs
    ensures Next(s, Start(pid, call)) == s.(procs := s.procs[pid := Proc(call, Begin)])
  {
  }

  lemma AtPoint(s: System, pid: Pid, point: Point, later: Proc)
    requires pid in s.procs
    ensures At(s, pid, point).db == s.db && At(s, pid, point).locks == s.locks
    ensures pid in At(s, pid, point).procs && At(s, pid, point).procs[pid] == Proc(s.procs[pid].call, point)
    ensures At(s, pid, point).procs[pid := later] == s.procs[pid := later]
  {
  }

  lemma LoginFails(s: System, u: UserId)
    requires s.db.members == map[] && PersonalOrg(u) !in s.db.orgs
    requires 0 in s.procs && s.procs[0] == Proc(EnsurePersonal(u), OrgReady)
    ensures var s' := Run(s, [Step(0, 0), Step(0, 0)]); 0 in s'.procs && s'.procs[0].point == Finished(ForeignKeyViolation)
  {
    hide Run, FirstOrg, GetActiveOrg, StepInstance, StepCreate, StepAdd, StepSetRole, StepRemove, PersonalOrg;
    var step := Step(0, 0);
    var s1 := Next(s, step);
    RunOne(s, step, [step]);
    RunOne(s1, step, []);
    assert [step] + [step] == [step, step] && [step] + [] == [step];
    assert s1.procs[0].point == MemberSnapshot(true);
  }
}
