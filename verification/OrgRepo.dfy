/**
  The membership repository over its tables, one call at a time. Every method is proved to do what the
  concurrent system does with that call when nothing else runs.
  */
module OrgRepo {
  import opened Text
  import opened Membership

  /** A call and enough steps to finish it. */
  function Script(call: Call, at: int): seq<Action> { [Start(0, call)] + Repeat(at, 7) }

  function Repeat(at: int, n: nat): seq<Action> {
    if n == 0 then [] else [Step(0, at)] + Repeat(at, n - 1)
  }

  function One(db: Db, locks: map<OrgId, Pid>, call: Call, point: Point): System {
    System(db, locks, map[0 := Proc(call, point)])
  }

  ghost predicate RunsAlone(db: Db, call: Call, at: int, db': Db, result: Result) {
    Run(System(db, map[], map[]), Script(call, at)) == One(db', map[], call, Finished(result))
  }

  /** The unique index on lower(email). */
  ghost predicate EmailsUnique(emails: map<UserId, string>) {
    forall u, v :: u in emails && v in emails && Lower(emails[u]) == Lower(emails[v]) ==> u == v
  }

  predicate HasEmail(emails: map<UserId, string>, u: UserId, email: string) {
    u in emails && Lower(emails[u]) == Lower(email)
  }

  class PgOrgMembershipRepo {
    var emails: map<UserId, string>
    var orgs: set<OrgId>
    var members: map<Key, Row>
    var active: map<UserId, OrgId>

    ghost function Tables(): Db
      reads this
    {
      Db(emails.Keys, orgs, members, active)
    }

    constructor (emails: map<UserId, string>)
      ensures Tables() == Db(emails.Keys, {}, map[], map[]) && this.emails == emails
    {
      this.emails, orgs, members, active := emails, {}, map[], map[];
    }

    /** COALESCE(active org that is a membership, first membership). */
    method GetActiveOrg(u: UserId) returns (org: Option<OrgId>)
      ensures org == Membership.GetActiveOrg(Tables(), u)
      ensures org.None? <==> forall o :: (u, o) !in members
      ensures org.Some? ==> (u, org.value) in members
      ensures u in active && (u, active[u]) in members ==> org == Some(active[u])
      ensures org.Some? && !(u in active && (u, active[u]) in members) ==>
                forall o :: (u, o) in members ==>
                  || members[(u, org.value)].since < members[(u, o)].since
                  || (members[(u, org.value)].since == members[(u, o)].since && NoLater(org.value, o))
    {
      if u in active && (u, active[u]) in members {
        return Some(active[u]);
      }
      org := FirstMembership(u);
    }

    /** ORDER BY created_at, org_id LIMIT 1. */
    method FirstMembership(u: UserId) returns (org: Option<OrgId>)
      ensures org == FirstOrg(Tables(), u)
      ensures org.None? <==> forall o :: (u, o) !in members
      ensures org.Some? ==> (u, org.value) in members
      ensures org.Some? ==>
                forall o :: (u, o) in members ==>
                  || members[(u, org.value)].since < members[(u, o)].since
                  || (members[(u, org.value)].since == members[(u, o)].since && NoLater(org.value, o))
    {
      ghost var db := Tables();
      FirstOrgMeans(db, u);
      var mine := set k | k in members && k.0 == u :: k.1;
      assert mine == OrgsOf(db, u);
      if mine == {} {
        return None;
      }
      var least :| least in mine;
      var rest := mine - {least};
      LexTotal(least, least);
      while rest != {}
        invariant rest <= mine && least in mine - rest
        invariant forall o :: o in mine - rest ==> Before(db, u, least, o)
        decreases |rest|
      {
        var o :| o in rest;
        rest := rest - {o};
        LexTotal(o, least);
        LexTotal(o, o);
        if members[(u, o)].since < members[(u, least)].since
           || (members[(u, o)].since == members[(u, least)].since && LexLeq(o, least)) {
          BeforeTransitive(db, u, o, least);
          least := o;
        }
      }
      FirstIs(db, u, mine, least);
      org := Some(least);
    }

    /** The two inserts of a first login. */
    method Provision(u: UserId, at: int) returns (ok: bool)
      modifies `orgs, `members
      ensures Tables() == Provisioned(old(Tables()), u, at)
      ensures ok <==> HasOrg(Tables(), u)
    {
      ghost var db := Tables();
      NoOrgIs(db, u);
      var home := PersonalOrg(u);
      if u in emails && !exists k | k in members :: k.0 == u {
        orgs := orgs + {home};
      }
      ok := true;
      if !exists k | k in members :: k.0 == u {
        if u !in emails || home !in orgs {
          return false;
        }
        members := members[(u, home) := Row(Owner, at)];
        assert (u, home) in Tables().members;
      }
    }

    method DefaultActive(u: UserId)
      modifies `active
      ensures Tables() == Defaulted(old(Tables()), u)
    {
      var first := FirstMembership(u);
      if first.Some? && u !in active {
        active := active[u := first.value];
      }
    }

    method EnsurePersonalOrg(u: UserId, at: int) returns (result: Result)
      modifies `orgs, `members, `active
      ensures RunsAlone(old(Tables()), EnsurePersonal(u), at, Tables(), result)
      ensures (exists o :: (u, o) in old(members)) ==> members == old(members) && orgs == old(orgs) && result.Returned?
      ensures (forall o :: (u, o) !in old(members)) && u in emails ==>
                && result.Returned?
                && orgs == old(orgs) + {"org_u_" + u}
                && members == old(members)[(u, "org_u_" + u) := Row(Owner, at)]
      ensures (forall o :: (u, o) !in old(members)) && u !in emails ==>
                result == ForeignKeyViolation && orgs == old(orgs) && members == old(members) && active == old(active)
      ensures result.Returned? ==> Membership.GetActiveOrg(Tables(), u) == Some(result.org) && (u, result.org) in members
      ensures result.Returned? ==> active == if u in old(active) then old(active) else old(active)[u := result.org]
      ensures result.Returned? && !(u in old(active) && (u, old(active)[u]) in members) ==>
                forall o :: (u, o) in members ==>
                  || members[(u, result.org)].since < members[(u, o)].since
                  || (members[(u, result.org)].since == members[(u, o)].since && NoLater(result.org, o))
    {
      hide RunsAlone;
      PersonalAlone(Tables(), u, at);
      ProvisionedIs(Tables(), u, at);
      var ok := Provision(u, at);
      if !ok {
        return ForeignKeyViolation;
      }
      ActiveIsMember(Defaulted(Tables(), u), Tables(), u);
      FirstOrgMeans(Tables(), u);
      DefaultActive(u);
      var org := GetActiveOrg(u);
      result := if org.Some? then Returned(org.value) else NoOrg;
    }

    method EnsureInstanceMembership(u: UserId, o: OrgId, at: int) returns (result: Result)
      modifies `members, `active
      ensures RunsAlone(old(Tables()), EnsureInstance(u, o), at, Tables(), result)
      ensures result == Done || result == ForeignKeyViolation
      ensures (u, o) in old(members) ==> result == Done && members == old(members)
      ensures (u, o) !in old(members) ==> (result == Done <==> u in emails && o in orgs)
      ensures (u, o) !in old(members) && result == Done ==>
                && (u, o) in members
                && members == old(members)[(u, o) := members[(u, o)]]
                && members[(u, o)].since == at
                && members[(u, o)].role == if forall v :: (v, o) !in old(members) then Owner else Member
      ensures active == if result == Done && u !in old(active) then old(active)[u := o] else old(active)
    {
      ghost var db := Tables();
      InstanceAlone(db, u, o, at);
      NoRowsIs(db, o);
      var rows := set k | k in members && k.1 == o;
      assert rows == RowsOf(db, o);
      if (u, o) !in members {
        if u !in emails || o !in orgs {
          return ForeignKeyViolation;
        }
        members := members[(u, o) := Row(if rows == {} then Owner else Member, at)];
      }
      if u !in active {
        active := active[u := o];
      }
      result := Done;
    }

    method CreateOrg(u: UserId, o: OrgId, at: int) returns (result: Result)
      modifies `orgs, `members, `active
      ensures RunsAlone(old(Tables()), Call.CreateOrg(u, o), at, Tables(), result)
      ensures result ==
              if o in old(orgs) || (u, o) in old(members) then UniqueViolation
              else if u !in emails then ForeignKeyViolation else Returned(o)
      ensures orgs == old(orgs) + {o}
      ensures result.Returned? ==> members == old(members)[(u, o) := Row(Owner, at)] && active == old(active)[u := o]
      ensures !result.Returned? ==> members == old(members) && active == old(active)
    {
      ghost var db := Tables();
      CreateAlone(db, u, o, at);
      if o in orgs {
        return UniqueViolation;
      }
      orgs := orgs + {o};
      if (u, o) in members {
        return UniqueViolation;
      }
      if u !in emails {
        return ForeignKeyViolation;
      }
      members := members[(u, o) := Row(Owner, at)];
      active := active[u := o];
      result := Returned(o);
    }

    method SetActiveOrg(u: UserId, o: OrgId, at: int) returns (result: Result)
      modifies `active
      ensures RunsAlone(old(Tables()), SetActive(u, o), at, Tables(), result)
      ensures result == (if u in emails && o in orgs then Done else ForeignKeyViolation)
      ensures active == if result == Done then old(active)[u := o] else old(active)
      ensures result == Done && (u, o) in members ==> Membership.GetActiveOrg(Tables(), u) == Some(o)
    {
      ShortAlone(Tables(), SetActive(u, o), at);
      if u !in emails || o !in orgs {
        return ForeignKeyViolation;
      }
      active := active[u := o];
      result := Done;
    }

    /** The user with that e-mail, whatever its case. */
    method FindUser(email: string) returns (found: Option<UserId>)
      requires EmailsUnique(emails)
      ensures found.None? ==> forall u :: !HasEmail(emails, u, email)
      ensures found.Some? ==> forall u :: HasEmail(emails, u, email) <==> u == found.value
    {
      found := None;
      if exists u | u in emails :: Lower(emails[u]) == Lower(email) {
        var u :| u in emails && Lower(emails[u]) == Lower(email);
        found := Some(u);
      }
    }

    method AddMemberByEmail(o: OrgId, email: string, role: Role, at: int) returns (result: Result, ghost found: Option<UserId>)
      requires EmailsUnique(emails)
      modifies `members
      ensures forall u :: HasEmail(emails, u, email) <==> found == Some(u)
      ensures RunsAlone(old(Tables()), AddMember(o, found, role), at, Tables(), result)
      ensures result == NotFound <==> forall u :: !HasEmail(emails, u, email)
      ensures result == AlreadyMember <==> exists u :: HasEmail(emails, u, email) && (u, o) in old(members)
      ensures forall u :: result == Done && HasEmail(emails, u, email) ==> members == old(members)[(u, o) := Row(role, at)]
      ensures result == ForeignKeyViolation <==>
                o !in orgs && exists u :: HasEmail(emails, u, email) && (u, o) !in old(members)
      ensures result != Done ==> members == old(members)
    {
      var user := FindUser(email);
      found := user;
      ShortAlone(Tables(), AddMember(o, user, role), at);
      if user.None? {
        return NotFound, found;
      }
      assert HasEmail(emails, user.value, email);
      if (user.value, o) in members {
        return AlreadyMember, found;
      }
      if o !in orgs {
        return ForeignKeyViolation, found;
      }
      members := members[(user.value, o) := Row(role, at)];
      result := Done;
    }

    method OwnerCount(o: OrgId) returns (n: nat)
      ensures n == |OwnerRows(Tables(), o)|
    {
      var rows := set k | k in members && k.1 == o && members[k].role == Owner;
      assert rows == OwnerRows(Tables(), o);
      n := |rows|;
    }

    method SetMemberRole(o: OrgId, u: UserId, role: Role, at: int) returns (result: Result)
      modifies `members
      ensures RunsAlone(old(Tables()), SetRole(o, u, role), at, Tables(), result)
      ensures result == LastOwner <==>
                && (u, o) in old(members) && old(members)[(u, o)].role == Owner && role != Owner
                && forall v :: (v, o) in old(members) && old(members)[(v, o)].role == Owner ==> v == u
      ensures result == NotFound <==> (u, o) !in old(members)
      ensures members == if result == Done then old(members)[(u, o) := old(members)[(u, o)].(role := role)] else old(members)
      ensures (exists v :: (v, o) in old(members) && old(members)[(v, o)].role == Owner) ==>
              (exists v :: (v, o) in members && members[(v, o)].role == Owner)
    {
      ghost var db := Tables();
      SetRoleAlone(db, o, u, role, at);
      OnlyOwner(db, o, u);
      if (u, o) !in members {
        return NotFound;
      }
      if members[(u, o)].role == Owner && role != Owner {
        var owners := OwnerCount(o);
        if owners <= 1 {
          return LastOwner;
        }
      }
      members := members[(u, o) := members[(u, o)].(role := role)];
      result := Done;
      OwnerStays(db, Tables(), o, u);
    }

    method RemoveMember(o: OrgId, u: UserId, at: int) returns (result: Result)
      modifies `members, `active
      ensures RunsAlone(old(Tables()), Remove(o, u), at, Tables(), result)
      ensures result == LastOwner <==>
                && (u, o) in old(members) && old(members)[(u, o)].role == Owner
                && forall v :: (v, o) in old(members) && old(members)[(v, o)].role == Owner ==> v == u
      ensures result == NotFound <==> (u, o) !in old(members)
      ensures members == (if result == Done then old(members) - {(u, o)} else old(members))
      ensures active == if result == Done && u in old(active) && old(active)[u] == o then old(active) - {u} else old(active)
      ensures (exists v :: (v, o) in old(members) && old(members)[(v, o)].role == Owner) ==>
              (exists v :: (v, o) in members && members[(v, o)].role == Owner)
    {
      ghost var db := Tables();
      RemoveAlone(db, o, u, at);
      OnlyOwner(db, o, u);
      if (u, o) !in members {
        return NotFound;
      }
      if members[(u, o)].role == Owner {
        var owners := OwnerCount(o);
        if owners <= 1 {
          return LastOwner;
        }
      }
      members := members - {(u, o)};
      if u in active && active[u] == o {
        active := active - {u};
      }
      result := Done;
      OwnerStays(db, Tables(), o, u);
    }
  }

  // ---------------------------------------------------------------- the queries

  lemma BeforeTransitive(db: Db, u: UserId, a: OrgId, b: OrgId)
    requires (u, a) in db.members && (u, b) in db.members && Before(db, u, a, b)
    ensures forall c :: (u, c) in db.members && Before(db, u, b, c) ==> Before(db, u, a, c)
  {
    forall c | (u, c) in db.members && Before(db, u, b, c) ensures Before(db, u, a, c) {
      if db.members[(u, a)].since == db.members[(u, b)].since == db.members[(u, c)].since {
        LexTransitive(a, b, c);
      }
    }
  }

  lemma FirstIs(db: Db, u: UserId, among: set<OrgId>, o: OrgId)
    requires forall o' :: o' in among ==> (u, o') in db.members
    requires among != {} && IsFirst(db, u, o, among)
    ensures First(db, u, among) == o
  {
    var f := First(db, u, among);
    assert IsFirst(db, u, f, among);
    LexTotal(f, o);
  }

  lemma NoOrgIs(db: Db, u: UserId)
    ensures HasOrg(db, u) <==> exists k :: k in db.members && k.0 == u
  {
    if HasOrg(db, u) {
      var o :| (u, o) in db.members;
      assert (u, o).0 == u;
    }
    forall k | k in db.members && k.0 == u ensures HasOrg(db, u) {
      assert (u, k.1) in db.members;
    }
  }

  lemma OnlyOwner(db: Db, o: OrgId, u: UserId)
    ensures (u, o) in db.members && db.members[(u, o)].role == Owner ==>
              && (|OwnerRows(db, o)| <= 1 <==> OwnerRows(db, o) == {(u, o)})
              && (|OwnerRows(db, o)| <= 1 <==> forall v :: (v, o) in db.members && db.members[(v, o)].role == Owner ==> v == u)
  {
    var owners := OwnerRows(db, o);
    if (u, o) in owners {
      assert owners == owners - {(u, o)} + {(u, o)};
      if owners == {(u, o)} {
        assert forall v :: (v, o) in db.members && db.members[(v, o)].role == Owner ==> (v, o) in owners;
      } else {
        var k :| k in owners && k != (u, o);
        assert (k.0, o) in db.members && db.members[(k.0, o)].role == Owner && k.0 != u;
      }
    }
  }

  /** Whatever becomes of one member, the other owners stay. */
  lemma OwnerStays(db: Db, db': Db, o: OrgId, u: UserId)
    requires forall k: Key :: k != (u, o) && k in db.members ==> k in db'.members && db'.members[k] == db.members[k]
    requires OwnerRows(db, o) != {(u, o)} || ((u, o) in db'.members && db'.members[(u, o)].role == Owner)
    ensures OwnerRows(db, o) != {} ==> OwnerRows(db', o) != {}
  {
    if k :| k in OwnerRows(db, o) && k != (u, o) {
      assert k in OwnerRows(db', o);
    } else if OwnerRows(db, o) != {} {
      assert OwnerRows(db, o) == {(u, o)};
      assert (u, o) in OwnerRows(db', o);
    }
  }

  // ---------------------------------------------------------------- calls that run alone

  lemma OneStep(s: System, at: int, n: nat)
    requires n > 0
    ensures Run(s, Repeat(at, n)) == Run(Next(s, Step(0, at)), Repeat(at, n - 1))
  {
    assert Repeat(at, n)[1..] == Repeat(at, n - 1);
  }

  lemma {:induction false} RestsFinished(db: Db, call: Call, result: Result, at: int, n: nat)
    ensures Run(One(db, map[], call, Finished(result)), Repeat(at, n)) == One(db, map[], call, Finished(result))
  {
    if n > 0 {
      OneStep(One(db, map[], call, Finished(result)), at, n);
      RestsFinished(db, call, result, at, n - 1);
    }
  }

  lemma Starts(db: Db, call: Call, at: int)
    ensures Run(System(db, map[], map[]), Script(call, at)) == Run(One(db, map[], call, Begin), Repeat(at, 7))
  {
    assert Script(call, at)[1..] == Repeat(at, 7);
    assert Next(System(db, map[], map[]), Start(0, call)) == One(db, map[], call, Begin);
  }

  lemma ShortAlone(db: Db, call: Call, at: int)
    requires call.SetActive? || call.AddMember?
    ensures match call
            case SetActive(u, o) =>
              if ForeignKeysHold(db, u, o) then RunsAlone(db, call, at, db.(active := db.active[u := o]), Done)
              else RunsAlone(db, call, at, db, ForeignKeyViolation)
            case AddMember(o, None, role) => RunsAlone(db, call, at, db, NotFound)
            case AddMember(o, Some(u), role) =>
              if (u, o) in db.members then RunsAlone(db, call, at, db, AlreadyMember)
              else if !ForeignKeysHold(db, u, o) then RunsAlone(db, call, at, db, ForeignKeyViolation)
              else RunsAlone(db, call, at, Enrolled(db, u, o, role, at), Done)
            case _ => true
  {
    hide Run;
    Starts(db, call, at);
    OneStep(One(db, map[], call, Begin), at, 7);
    var s := Next(One(db, map[], call, Begin), Step(0, at));
    assert s.procs == map[0 := s.procs[0]];
    RestsFinished(s.db, call, s.procs[0].point.result, at, 6);
  }

  lemma CreateAlone(db: Db, u: UserId, o: OrgId, at: int)
    ensures var call := Call.CreateOrg(u, o);
            var made := db.(orgs := db.orgs + {o});
            if o in db.orgs then RunsAlone(db, call, at, db, UniqueViolation)
            else if (u, o) in db.members then RunsAlone(db, call, at, made, UniqueViolation)
            else if u !in db.users then RunsAlone(db, call, at, made, ForeignKeyViolation)
            else RunsAlone(db, call, at, Db(db.users, made.orgs, db.members[(u, o) := Row(Owner, at)], db.active[u := o]), Returned(o))
  {
    hide Run;
    var call := Call.CreateOrg(u, o);
    var s := One(db, map[], call, Begin);
    Starts(db, call, at);
    OneStep(s, at, 7);
    if o in db.orgs {
      RestsFinished(db, call, UniqueViolation, at, 6);
      assert Next(s, Step(0, at)).procs == map[0 := Proc(call, Finished(UniqueViolation))];
    } else {
      var made := db.(orgs := db.orgs + {o});
      var s1 := One(made, map[], call, OrgMade);
      assert Next(s, Step(0, at)).procs == s1.procs;
      CreateTail(made, u, o, at);
    }
  }

  lemma CreateTail(made: Db, u: UserId, o: OrgId, at: int)
    requires o in made.orgs
    ensures var call := Call.CreateOrg(u, o);
            Run(One(made, map[], call, OrgMade), Repeat(at, 6)) ==
            if (u, o) in made.members then One(made, map[], call, Finished(UniqueViolation))
            else if u !in made.users then One(made, map[], call, Finished(ForeignKeyViolation))
            else One(made.(members := made.members[(u, o) := Row(Owner, at)], active := made.active[u := o]), map[], call, Finished(Returned(o)))
  {
    hide Run;
    var call := Call.CreateOrg(u, o);
    var s := One(made, map[], call, OrgMade);
    OneStep(s, at, 6);
    var s1 := Next(s, Step(0, at));
    assert s1.procs == map[0 := s1.procs[0]];
    if s1.procs[0].point.Finished? {
      RestsFinished(made, call, s1.procs[0].point.result, at, 5);
    } else {
      OneStep(s1, at, 5);
      var s2 := Next(s1, Step(0, at));
      assert s2.procs == map[0 := s2.procs[0]];
      RestsFinished(s2.db, call, Returned(o), at, 4);
    }
  }

  lemma InstanceSteps(db: Db, u: UserId, o: OrgId, at: int, role: Role)
    ensures var (call, locks, step) := (EnsureInstance(u, o), map[o := 0], Step(0, at));
            && Next(One(db, map[], call, Begin), step) == One(db, locks, call, Locked)
            && Next(One(db, locks, call, Locked), step)
               == One(db, locks, call, RoleChosen(if RowsOf(db, o) == {} then Owner else Member))
  {
    hide WithDefaultActive, Enrolled, RowsOf, ForeignKeysHold;
    var call, locks, step := EnsureInstance(u, o), map[o := 0], Step(0, at);
    assert Next(One(db, map[], call, Begin), step).procs == map[0 := Proc(call, Locked)];
  }

  lemma InstanceEnrols(db: Db, u: UserId, o: OrgId, at: int, role: Role)
    ensures var call := EnsureInstance(u, o);
            Next(One(db, map[o := 0], call, RoleChosen(role)), Step(0, at)) ==
            if (u, o) !in db.members && !ForeignKeysHold(db, u, o) then One(db, map[], call, Finished(ForeignKeyViolation))
            else One(WithDefaultActive(Enrolled(db, u, o, role, at), u, o), map[], call, Finished(Done))
  {
    hide WithDefaultActive, Enrolled, RowsOf, ForeignKeysHold;
    var s := Next(One(db, map[o := 0], EnsureInstance(u, o), RoleChosen(role)), Step(0, at));
    assert s.procs == map[0 := s.procs[0]] && s.locks == map[];
  }

  lemma InstanceAlone(db: Db, u: UserId, o: OrgId, at: int)
    ensures var call := EnsureInstance(u, o);
            var role := if RowsOf(db, o) == {} then Owner else Member;
            if (u, o) !in db.members && !ForeignKeysHold(db, u, o) then RunsAlone(db, call, at, db, ForeignKeyViolation)
            else RunsAlone(db, call, at, WithDefaultActive(Enrolled(db, u, o, role, at), u, o), Done)
  {
    hide Run, Next, WithDefaultActive, Enrolled, RowsOf, ForeignKeysHold;
    var call, locks := EnsureInstance(u, o), map[o := 0];
    var role := if RowsOf(db, o) == {} then Owner else Member;
    Starts(db, call, at);
    InstanceSteps(db, u, o, at, role);
    InstanceEnrols(db, u, o, at, role);
    OneStep(One(db, map[], call, Begin), at, 7);
    OneStep(One(db, locks, call, Locked), at, 6);
    OneStep(One(db, locks, call, RoleChosen(role)), at, 5);
    RestsFinished(db, call, ForeignKeyViolation, at, 4);
    RestsFinished(WithDefaultActive(Enrolled(db, u, o, role, at), u, o), call, Done, at, 4);
  }

  /** The locked part of a role change and of a removal, up to the decision. */
  lemma LockedStart(db: Db, call: Call, at: int)
    requires call.SetRole? || call.Remove?
    ensures var (locks, step) := (map[call.org := 0], Step(0, at));
            && Next(One(db, map[], call, Begin), step) == One(db, locks, call, Locked)
            && Next(One(db, locks, call, Locked), step) ==
               if (call.user, call.org) in db.members then One(db, locks, call, RoleRead(db.members[(call.user, call.org)].role))
               else One(db, map[], call, Finished(NotFound))
  {
    hide OwnerRows, RoleChanged, Removed;
    var locks, step := map[call.org := 0], Step(0, at);
    assert Next(One(db, map[], call, Begin), step).procs == map[0 := Proc(call, Locked)];
    var s := Next(One(db, locks, call, Locked), step);
    assert s.procs == map[0 := s.procs[0]];
    assert s.locks == if (call.user, call.org) in db.members then locks else map[];
  }

  lemma LockedDecision(db: Db, call: Call, at: int, owners: nat)
    requires call.SetRole? || call.Remove?
    ensures Next(One(db, map[call.org := 0], call, Counted(owners)), Step(0, at))
            == if owners <= 1 then One(db, map[], call, Finished(LastOwner)) else One(db, map[call.org := 0], call, Written)
  {
    hide OwnerRows, RoleChanged, Removed;
    var s := Next(One(db, map[call.org := 0], call, Counted(owners)), Step(0, at));
    assert s.procs == map[0 := s.procs[0]];
    assert owners <= 1 ==> s.locks == map[];
  }

  /** Whether the last owner is at stake. */
  predicate Counts(call: Call, was: Role) {
    was == Owner && (call.Remove? || (call.SetRole? && call.role != Owner))
  }

  function Wrote(db: Db, call: Call): Db
    requires call.SetRole? || call.Remove?
  {
    if call.SetRole? then RoleChanged(db, call.user, call.org, call.role) else Removed(db, call.user, call.org)
  }

  lemma LockedCount(db: Db, call: Call, at: int, was: Role)
    requires call.SetRole? || call.Remove?
    ensures Next(One(db, map[call.org := 0], call, RoleRead(was)), Step(0, at))
            == One(db, map[call.org := 0], call, if Counts(call, was) then Counted(|OwnerRows(db, call.org)|) else Written)
  {
    hide OwnerRows, RoleChanged, Removed;
    var s := Next(One(db, map[call.org := 0], call, RoleRead(was)), Step(0, at));
    assert s.procs == map[0 := s.procs[0]];
  }

  lemma LockedEnd(db: Db, call: Call, at: int)
    requires call.SetRole? || call.Remove?
    ensures Next(One(db, map[call.org := 0], call, Written), Step(0, at)) == One(Wrote(db, call), map[], call, Finished(Done))
  {
    hide OwnerRows, RoleChanged, Removed;
    var s := Next(One(db, map[call.org := 0], call, Written), Step(0, at));
    assert s.procs == map[0 := s.procs[0]] && s.locks == map[];
  }

  lemma LockedAlone(db: Db, call: Call, at: int)
    requires call.SetRole? || call.Remove?
    ensures var key := (call.user, call.org);
            if key !in db.members then RunsAlone(db, call, at, db, NotFound)
            else if Counts(call, db.members[key].role) && |OwnerRows(db, call.org)| <= 1 then RunsAlone(db, call, at, db, LastOwner)
            else RunsAlone(db, call, at, Wrote(db, call), Done)
  {
    hide Next, Run, Counts, Wrote, OwnerRows;
    var key, locks := (call.user, call.org), map[call.org := 0];
    Starts(db, call, at);
    LockedStart(db, call, at);
    OneStep(One(db, map[], call, Begin), at, 7);
    OneStep(One(db, locks, call, Locked), at, 6);
    if key !in db.members {
      RestsFinished(db, call, NotFound, at, 5);
    } else {
      var was := db.members[key].role;
      LockedCount(db, call, at, was);
      LockedDecision(db, call, at, |OwnerRows(db, call.org)|);
      LockedEnd(db, call, at);
      OneStep(One(db, locks, call, RoleRead(was)), at, 5);
      var owners := |OwnerRows(db, call.org)|;
      OneStep(One(db, locks, call, Counted(owners)), at, 4);
      OneStep(One(db, locks, call, Written), at, 4);
      OneStep(One(db, locks, call, Written), at, 3);
      RestsFinished(db, call, LastOwner, at, 3);
      RestsFinished(Wrote(db, call), call, Done, at, 3);
      RestsFinished(Wrote(db, call), call, Done, at, 2);
    }
  }

  lemma SetRoleAlone(db: Db, o: OrgId, u: UserId, role: Role, at: int)
    ensures var call := SetRole(o, u, role);
            if (u, o) !in db.members then RunsAlone(db, call, at, db, NotFound)
            else if db.members[(u, o)].role == Owner && role != Owner && |OwnerRows(db, o)| <= 1 then RunsAlone(db, call, at, db, LastOwner)
            else RunsAlone(db, call, at, db.(members := db.members[(u, o) := db.members[(u, o)].(role := role)]), Done)
  {
    hide RunsAlone, OwnerRows;
    LockedAlone(db, SetRole(o, u, role), at);
  }

  lemma RemoveAlone(db: Db, o: OrgId, u: UserId, at: int)
    ensures var call := Remove(o, u);
            if (u, o) !in db.members then RunsAlone(db, call, at, db, NotFound)
            else if db.members[(u, o)].role == Owner && |OwnerRows(db, o)| <= 1 then RunsAlone(db, call, at, db, LastOwner)
            else RunsAlone(db, call, at, Removed(db, u, o), Done)
  {
    hide RunsAlone, OwnerRows;
    LockedAlone(db, Remove(o, u), at);
  }

  /** The tables after the inserts of a first login; an existing member gets neither. */
  ghost function Provisioned(db: Db, u: UserId, at: int): Db {
    if HasOrg(db, u) || !ForeignKeysHold(Housed(db, u), u, PersonalOrg(u)) then Housed(db, u)
    else Enrolled(Housed(db, u), u, PersonalOrg(u), Owner, at)
  }

  ghost function Defaulted(db: Db, u: UserId): Db {
    if FirstOrg(db, u).Some? then WithDefaultActive(db, u, FirstOrg(db, u).value) else db
  }

  lemma ProvisionedIs(db: Db, u: UserId, at: int)
    ensures var db1 := Provisioned(db, u, at);
            && (HasOrg(db, u) ==> db1 == db)
            && (!HasOrg(db, u) && u in db.users ==> HasOrg(db1, u) && db1.members == db.members[(u, PersonalOrg(u)) := Row(Owner, at)])
  {
    if !HasOrg(db, u) && u in db.users {
      assert (u, PersonalOrg(u)) !in db.members;
      assert (u, PersonalOrg(u)) in Provisioned(db, u, at).members;
    }
  }

  /** A user with a membership acts in one of them. */
  lemma ActiveIsMember(db: Db, before: Db, u: UserId)
    requires db.members == before.members && HasOrg(before, u)
    ensures Membership.GetActiveOrg(db, u).Some? && (u, Membership.GetActiveOrg(db, u).value) in db.members
  {
    var o :| (u, o) in before.members;
    assert o in OrgsOf(db, u);
  }

  lemma PersonalAlone(db: Db, u: UserId, at: int)
    ensures var call := EnsurePersonal(u);
            var db1 := Provisioned(db, u, at);
            if !HasOrg(db1, u) then RunsAlone(db, call, at, db1, ForeignKeyViolation)
            else
              var db2 := Defaulted(db1, u);
              RunsAlone(db, call, at, db2,
                        if Membership.GetActiveOrg(db2, u).Some? then Returned(Membership.GetActiveOrg(db2, u).value) else NoOrg)
  {
    hide Run;
    var call, step := EnsurePersonal(u), Step(0, at);
    Starts(db, call, at);
    PersonalInserts(db, u, at);
    var db1 := Provisioned(db, u, at);
    if !HasOrg(db1, u) {
      RestsFinished(db1, call, ForeignKeyViolation, at, 3);
    } else {
      PersonalDefaults(db1, u, at);
      var db2 := Defaulted(db1, u);
      var active := Membership.GetActiveOrg(db2, u);
      RestsFinished(db2, call, if active.Some? then Returned(active.value) else NoOrg, at, 0);
    }
  }

  /** The organization row of a user without one. */
  ghost function Housed(db: Db, u: UserId): Db {
    if u in db.users && !HasOrg(db, u) then db.(orgs := db.orgs + {PersonalOrg(u)}) else db
  }

  lemma PersonalSnapshots(db: Db, u: UserId, at: int)
    ensures var (call, step) := (EnsurePersonal(u), Step(0, at));
            && Next(One(db, map[], call, Begin), step) == One(db, map[], call, OrgSnapshot(u in db.users && !HasOrg(db, u)))
            && Next(One(db, map[], call, OrgReady), step) == One(db, map[], call, MemberSnapshot(!HasOrg(db, u)))
  {
    hide FirstOrg, HasOrg;
    var call, step := EnsurePersonal(u), Step(0, at);
    var s, t := Next(One(db, map[], call, Begin), step), Next(One(db, map[], call, OrgReady), step);
    assert s.procs == map[0 := s.procs[0]] && t.procs == map[0 := t.procs[0]];
  }

  lemma PersonalHouses(db: Db, u: UserId, at: int)
    ensures var call := EnsurePersonal(u);
            Next(One(db, map[], call, OrgSnapshot(u in db.users && !HasOrg(db, u))), Step(0, at)) == One(Housed(db, u), map[], call, OrgReady)
  {
    hide FirstOrg, HasOrg;
    var s := Next(One(db, map[], EnsurePersonal(u), OrgSnapshot(u in db.users && !HasOrg(db, u))), Step(0, at));
    assert s.procs == map[0 := s.procs[0]];
  }

  lemma PersonalInserts(db: Db, u: UserId, at: int)
    ensures var call := EnsurePersonal(u);
            var db1 := Provisioned(db, u, at);
            Run(One(db, map[], call, Begin), Repeat(at, 7)) ==
            Run(One(db1, map[], call, if HasOrg(db1, u) then MemberReady else Finished(ForeignKeyViolation)), Repeat(at, 3))
  {
    hide Run, Next, FirstOrg, HasOrg, Provisioned, Housed;
    var call, none, housed := EnsurePersonal(u), !HasOrg(db, u), Housed(db, u);
    PersonalSnapshots(db, u, at);
    PersonalHouses(db, u, at);
    SameMembers(db, housed, u);
    PersonalSnapshots(housed, u, at);
    PersonalEnrols(db, u, at);
    OneStep(One(db, map[], call, Begin), at, 7);
    OneStep(One(db, map[], call, OrgSnapshot(u in db.users && none)), at, 6);
    OneStep(One(housed, map[], call, OrgReady), at, 5);
    OneStep(One(housed, map[], call, MemberSnapshot(none)), at, 4);
  }

  lemma SameMembers(db: Db, housed: Db, u: UserId)
    requires housed == Housed(db, u)
    ensures HasOrg(housed, u) == HasOrg(db, u)
  {
    if HasOrg(db, u) {
      var o :| (u, o) in db.members;
      assert (u, o) in housed.members;
    }
    if HasOrg(housed, u) {
      var o :| (u, o) in housed.members;
      assert (u, o) in db.members;
    }
  }

  lemma PersonalEnrols(db: Db, u: UserId, at: int)
    ensures var call := EnsurePersonal(u);
            var db1 := Provisioned(db, u, at);
            Next(One(Housed(db, u), map[], call, MemberSnapshot(!HasOrg(db, u))), Step(0, at))
            == One(db1, map[], call, if HasOrg(db1, u) then MemberReady else Finished(ForeignKeyViolation))
  {
    hide FirstOrg;
    var housed, call := Housed(db, u), EnsurePersonal(u);
    var db1 := Provisioned(db, u, at);
    SameMembers(db, housed, u);
    var s := Next(One(housed, map[], call, MemberSnapshot(!HasOrg(db, u))), Step(0, at));
    assert s.procs == map[0 := s.procs[0]];
    if !HasOrg(db, u) {
      assert (u, PersonalOrg(u)) !in db.members;
      if ForeignKeysHold(housed, u, PersonalOrg(u)) {
        assert (u, PersonalOrg(u)) in db1.members;
      }
    }
  }

  lemma PersonalActivates(db: Db, u: UserId, at: int)
    ensures var (call, step) := (EnsurePersonal(u), Step(0, at));
            && Next(One(db, map[], call, MemberReady), step) == One(db, map[], call, ActiveSnapshot(FirstOrg(db, u)))
            && Next(One(db, map[], call, ActiveSnapshot(FirstOrg(db, u))), step) == One(Defaulted(db, u), map[], call, ActiveReady)
  {
    hide FirstOrg, HasOrg;
    var call, step := EnsurePersonal(u), Step(0, at);
    var s, t := Next(One(db, map[], call, MemberReady), step), Next(One(db, map[], call, ActiveSnapshot(FirstOrg(db, u))), step);
    assert s.procs == map[0 := s.procs[0]] && t.procs == map[0 := t.procs[0]];
  }

  lemma PersonalAnswers(db: Db, u: UserId, at: int)
    ensures var (call, active) := (EnsurePersonal(u), Membership.GetActiveOrg(db, u));
            Next(One(db, map[], call, ActiveReady), Step(0, at))
            == One(db, map[], call, Finished(if active.Some? then Returned(active.value) else NoOrg))
  {
    hide FirstOrg, HasOrg;
    var s := Next(One(db, map[], EnsurePersonal(u), ActiveReady), Step(0, at));
    assert s.procs == map[0 := s.procs[0]];
  }

  lemma PersonalDefaults(db1: Db, u: UserId, at: int)
    ensures var call := EnsurePersonal(u);
            var db2 := Defaulted(db1, u);
            var active := Membership.GetActiveOrg(db2, u);
            Run(One(db1, map[], call, MemberReady), Repeat(at, 3)) ==
            Run(One(db2, map[], call, Finished(if active.Some? then Returned(active.value) else NoOrg)), Repeat(at, 0))
  {
    hide Run, Next, FirstOrg, Defaulted, Membership.GetActiveOrg;
    var call := EnsurePersonal(u);
    PersonalActivates(db1, u, at);
    PersonalAnswers(Defaulted(db1, u), u, at);
    OneStep(One(db1, map[], call, MemberReady), at, 3);
    OneStep(One(db1, map[], call, ActiveSnapshot(FirstOrg(db1, u))), at, 2);
    OneStep(One(Defaulted(db1, u), map[], call, ActiveReady), at, 1);
  }
}
