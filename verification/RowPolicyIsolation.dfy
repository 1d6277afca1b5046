/** What the row-policy statements guarantee: at every crash point, and when the pass has finished. */
module RowPolicyIsolation {
  import opened Wrappers
  import opened RowPolicies

  // ---- Well-formed policy states ----

  /** `blanket` are the logins allowed a policy that filters nothing: the service identities. */
  ghost predicate PolicyOk(p: Plan, blanket: set<string>, k: PolicyKey, q: Policy) {
    && (k.0 == DENY ==> q == Policy(Zero, Everyone))
    && (k.0 == SHARED ==> q == Policy(One, Everyone))
    && match q.filter {
         case Zero => true
         case One =>
           || (q.target.Everyone? && k.1 in p.shared && k.1 !in p.tenant)
           || (q.target.Named? && forall g :: g in q.target.grantees ==> g.User? && g.name in blanket)
         case OrganizationIs(id) =>
           q.target.Named? && forall g :: g in q.target.grantees ==> g == Role(RoleName(id))
       }
  }

  ghost predicate WellFormed(p: Plan, blanket: set<string>, s: Server) {
    forall k :: k in s.policies ==> PolicyOk(p, blanket, k, s.policies[k])
  }

  ghost predicate Denied(s: Server, table: string) {
    (DENY, table) in s.policies
  }

  /** Everything `who` can read of a table that carries the catch-all deny. */
  ghost predicate Isolated(p: Plan, s: Server, who: Session, row: Row) {
    Sees(s, who, row) ==>
      || (row.table in p.shared && row.table !in p.tenant)
      || (row.organization.Some? && RoleName(row.organization.value) in Active(s, who))
  }

  lemma DeniedIsIsolated(p: Plan, blanket: set<string>, s: Server, who: Session, row: Row)
    requires WellFormed(p, blanket, s) && who.user !in blanket && Denied(s, row.table)
    ensures Isolated(p, s, who, row)
  {
    assert AppliesTo(s, who, (DENY, row.table), row);
    if Sees(s, who, row) {
      var k :| AppliesTo(s, who, k, row) && Matches(s.policies[k].filter, row);
      assert PolicyOk(p, blanket, k, s.policies[k]);
    }
  }

  // ---- Every statement keeps a well-formed state ----

  /** A statement of the baseline or of one organization's pass, for logins that are not named like a role. */
  ghost predicate Benign(p: Plan, users: set<string>, q: Statement) {
    match q
    case CreatePolicyIfNotExists(policy, table, filter, to) =>
      || (policy == DENY && filter == Zero && to == ToAll)
      || (policy == SHARED && filter == One && to == ToAll && table in p.shared && table !in p.tenant)
    case DropPolicyIfExists(policy, _) => policy != DENY
    case CreatePolicy(policy, _, filter, to) =>
      && policy != DENY && policy != SHARED
      && (|| (filter == One && to == ToName(p.service) && p.service in users)
          || (filter.OrganizationIs? && to == ToName(RoleName(filter.id)) && RoleName(filter.id) !in users))
    case DropRoleIfExists(_) => false
    case _ => true
  }

  lemma BenignStep(p: Plan, blanket: set<string>, s: Server, q: Statement)
    requires WellFormed(p, blanket, s) && p.service in blanket && Benign(p, s.users, q) && Exec(s, q).Some?
    ensures var z := Exec(s, q).value;
            WellFormed(p, blanket, z) && z.users == s.users && forall o :: Denied(s, o) ==> Denied(z, o)
  {
    assert DENY != SHARED by { FamiliesDiffer(""); }
  }

  ghost predicate AllBenign(p: Plan, users: set<string>, qs: seq<Statement>) {
    forall i :: 0 <= i < |qs| ==> Benign(p, users, qs[i])
  }

  lemma {:induction false} BenignRun(p: Plan, blanket: set<string>, s: Server, qs: seq<Statement>)
    requires WellFormed(p, blanket, s) && p.service in blanket && AllBenign(p, s.users, qs) && ExecAll(s, qs).Some?
    ensures var z := ExecAll(s, qs).value;
            WellFormed(p, blanket, z) && z.users == s.users && forall o :: Denied(s, o) ==> Denied(z, o)
    decreases |qs|
  {
    if qs != [] {
      BenignStep(p, blanket, s, qs[0]);
      BenignRun(p, blanket, Exec(s, qs[0]).value, qs[1..]);
    }
  }

  // ---- The generated lists are benign ----

  lemma {:induction false} SharedObjectsMembers(all: seq<string>, shared: set<string>, o: string)
    ensures o in SharedObjects(all, shared) <==> o in all && o in shared
  {
    if all != [] { SharedObjectsMembers(all[1..], shared, o); }
  }

  lemma {:induction false} ReplaceAllBenign(
    p: Plan, users: set<string>, policy: string, tables: seq<string>, filter: Filter, grantee: string)
    requires policy != DENY && policy != SHARED
    requires (filter == One && grantee == p.service && p.service in users) ||
             (filter.OrganizationIs? && grantee == RoleName(filter.id) && RoleName(filter.id) !in users)
    ensures AllBenign(p, users, ReplaceAll(policy, tables, filter, grantee))
  {
    if tables != [] { ReplaceAllBenign(p, users, policy, tables[1..], filter, grantee); }
  }

  /** What the guards of the pass establish before anything is applied, apart from the reader's policies. */
  ghost predicate Guarded(p: Plan, s: Server) {
    && p.service in s.users
    && (p.reader.Some? ==> p.reader.value in s.users && p.reader.value != p.service)
    && (forall o :: o in p.shared ==> o !in p.tenant)
    && (forall o :: o in p.tenant ==> o in p.all)
  }

  /** No login bears the name of one of these organizations' roles. */
  ghost predicate NoLoginNamedLikeRole(users: set<string>, organizations: seq<string>) {
    forall o :: o in organizations ==> RoleName(o) !in users
  }

  lemma BaselineBenign(p: Plan, s: Server)
    requires Guarded(p, s)
    ensures AllBenign(p, s.users, BaselineDdl(p))
  {
    FamiliesDiffer("");
    var shared := SharedObjectAllowDdl(p.all, p.shared);
    forall i | 0 <= i < |shared|
      ensures Benign(p, s.users, shared[i])
    {
      SharedObjectsMembers(p.all, p.shared, shared[i].table);
    }
    ReplaceAllBenign(p, s.users, INGEST, p.all, One, p.service);
  }

  lemma OrganizationBenign(p: Plan, users: set<string>, organization: string)
    requires RoleName(organization) !in users
    ensures AllBenign(p, users, OrganizationDdl(p, organization))
  {
    FamiliesDiffer(organization);
    ReplaceAllBenign(p, users, IsoName(organization), p.tenant, OrganizationIs(organization), RoleName(organization));
  }

  lemma {:induction false} OrganizationsBenign(p: Plan, users: set<string>, organizations: seq<string>)
    requires NoLoginNamedLikeRole(users, organizations)
    ensures AllBenign(p, users, OrganizationsDdl(p, organizations))
  {
    if organizations != [] {
      OrganizationBenign(p, users, organizations[0]);
      OrganizationsBenign(p, users, organizations[1..]);
    }
  }

  // ---- What each group of statements does, in closed form ----

  ghost function KeysOf(policy: string, tables: seq<string>): set<PolicyKey> {
    set o | o in tables :: (policy, o)
  }

  /** Every `(policy, table)` entry set to `q`. */
  ghost function Overlay(
    ps: map<PolicyKey, Policy>, policy: string, tables: seq<string>, q: Policy): map<PolicyKey, Policy> {
    ps + map k | k in KeysOf(policy, tables) :: q
  }

  /** The missing `(policy, table)` entries set to `q`. */
  ghost function Underlay(
    ps: map<PolicyKey, Policy>, policy: string, tables: seq<string>, q: Policy): map<PolicyKey, Policy> {
    (map k | k in KeysOf(policy, tables) :: q) + ps
  }

  lemma OverlayCons(ps: map<PolicyKey, Policy>, policy: string, tables: seq<string>, q: Policy)
    requires tables != []
    ensures Overlay(ps[(policy, tables[0]) := q], policy, tables[1..], q) == Overlay(ps, policy, tables, q)
  {
    assert KeysOf(policy, tables)
        == KeysOf(policy, tables[1..]) + {(policy, tables[0])} by { KeysCons(policy, tables); }
  }

  lemma UnderlayCons(ps: map<PolicyKey, Policy>, policy: string, tables: seq<string>, q: Policy)
    requires tables != []
    ensures var key := (policy, tables[0]);
            Underlay(if key in ps then ps else ps[key := q], policy, tables[1..], q) == Underlay(ps, policy, tables, q)
  {
    assert KeysOf(policy, tables)
        == KeysOf(policy, tables[1..]) + {(policy, tables[0])} by { KeysCons(policy, tables); }
  }

  lemma KeysCons(policy: string, tables: seq<string>)
    requires tables != []
    ensures KeysOf(policy, tables) == KeysOf(policy, tables[1..]) + {(policy, tables[0])}
  {
    forall k | k in KeysOf(policy, tables)
      ensures k in KeysOf(policy, tables[1..]) + {(policy, tables[0])}
    {
      assert k.1 in tables;
      assert tables == [tables[0]] + tables[1..];
    }
  }

  lemma {:induction false} ReplaceAllRuns(
    s: Server, policy: string, tables: seq<string>, filter: Filter, grantee: string)
    requires Resolve(s, grantee).Some?
    ensures ExecAll(s, ReplaceAll(policy, tables, filter, grantee)) ==
            Some(s.(policies := Overlay(s.policies, policy, tables,
                Policy(filter, Named({Resolve(s, grantee).value})))))
    decreases |tables|
  {
    var q := Policy(filter, Named({Resolve(s, grantee).value}));
    if tables == [] {
      assert Overlay(s.policies, policy, tables, q) == s.policies;
    } else {
      var a := ReplaceRowPolicy(policy, tables[0], filter, grantee);
      var key := (policy, tables[0]);
      var s1 := s.(policies := s.policies - {key});
      var s2 := s1.(policies := s1.policies[key := q]);
      ExecTwo(s, a[0], a[1]);
      assert s1.policies[key := q] == s.policies[key := q];
      ExecConcat(s, a, ReplaceAll(policy, tables[1..], filter, grantee));
      ReplaceAllRuns(s2, policy, tables[1..], filter, grantee);
      OverlayCons(s.policies, policy, tables, q);
    }
  }

  lemma {:induction false} CreateMissingRuns(
    s: Server, policy: string, tables: seq<string>, filter: Filter, qs: seq<Statement>)
    requires |qs| == |tables|
    requires forall i :: 0 <= i < |qs| ==> qs[i] == CreatePolicyIfNotExists(policy, tables[i], filter, ToAll)
    ensures ExecAll(s, qs) == Some(s.(policies := Underlay(s.policies, policy, tables, Policy(filter, Everyone))))
    decreases |tables|
  {
    var q := Policy(filter, Everyone);
    if tables == [] {
      assert Underlay(s.policies, policy, tables, q) == s.policies;
    } else {
      var key := (policy, tables[0]);
      var s1 := if key in s.policies then s else s.(policies := s.policies[key := q]);
      assert Exec(s, qs[0]) == Some(s1);
      CreateMissingRuns(s1, policy, tables[1..], filter, qs[1..]);
      UnderlayCons(s.policies, policy, tables, q);
    }
  }

  // The three policy groups of the baseline, and the reader's default roles.

  ghost function WithDeny(p: Plan, s: Server): Server {
    s.(policies := Underlay(s.policies, DENY, p.all, Policy(Zero, Everyone)))
  }

  ghost function WithShared(p: Plan, s: Server): Server {
    s.(policies := Underlay(s.policies, SHARED, SharedObjects(p.all, p.shared), Policy(One, Everyone)))
  }

  ghost function WithIngest(p: Plan, s: Server): Server {
    s.(policies := Overlay(s.policies, INGEST, p.all, Policy(One, Named({User(p.service)}))))
  }

  ghost function WithNoDefaultRole(p: Plan, s: Server): Server {
    s.(defaultRoleNone := s.defaultRoleNone + if p.reader.Some? then {p.reader.value} else {})
  }

  ghost function AfterBaseline(p: Plan, s: Server): Server {
    WithNoDefaultRole(p, WithIngest(p, WithShared(p, WithDeny(p, s))))
  }

  lemma DenyRuns(p: Plan, s: Server)
    ensures ExecAll(s, CatchAllDenyDdl(p.all)) == Some(WithDeny(p, s))
  {
    CreateMissingRuns(s, DENY, p.all, Zero, CatchAllDenyDdl(p.all));
  }

  lemma SharedRuns(p: Plan, s: Server)
    ensures ExecAll(s, SharedObjectAllowDdl(p.all, p.shared)) == Some(WithShared(p, s))
  {
    CreateMissingRuns(s, SHARED, SharedObjects(p.all, p.shared), One, SharedObjectAllowDdl(p.all, p.shared));
  }

  lemma IngestRuns(p: Plan, s: Server)
    requires p.service in s.users
    ensures ExecAll(s, IngestIdentityDdl(p.service, p.all)) == Some(WithIngest(p, s))
  {
    ReplaceAllRuns(s, INGEST, p.all, One, p.service);
  }

  lemma NoDefaultRoleRuns(p: Plan, s: Server)
    requires p.reader.Some? ==> p.reader.value in s.users
    ensures ExecAll(s, if p.reader.Some? then [DefaultRoleNone(p.reader.value)] else [])
        == Some(WithNoDefaultRole(p, s))
  {
    if p.reader.Some? { ExecOne(s, DefaultRoleNone(p.reader.value)); }
    else { assert s.defaultRoleNone + {} == s.defaultRoleNone; }
  }

  lemma BaselineRuns(p: Plan, s: Server)
    requires Guarded(p, s)
    ensures ExecAll(s, BaselineDdl(p)) == Some(AfterBaseline(p, s))
  {
    var a, b, c := CatchAllDenyDdl(p.all), SharedObjectAllowDdl(p.all, p.shared), IngestIdentityDdl(p.service, p.all);
    var d: seq<Statement> := if p.reader.Some? then [DefaultRoleNone(p.reader.value)] else [];
    var s1 := WithDeny(p, s);
    var s2 := WithShared(p, s1);
    var s3 := WithIngest(p, s2);
    DenyRuns(p, s);
    SharedRuns(p, s1);
    IngestRuns(p, s2);
    NoDefaultRoleRuns(p, s3);
    ExecThen(s, a, s1, b, s2);
    ExecThen(s, a + b, s2, c, s3);
    ExecThen(s, a + b + c, s3, d, WithNoDefaultRole(p, s3));
  }

  ghost function WithRole(s: Server, role: string): Server {
    s.(roles := s.roles + {role}, selectGrants := s.selectGrants + {Role(role)})
  }

  ghost function WithIso(p: Plan, s: Server, organization: string): Server {
    s.(policies := Overlay(s.policies, IsoName(organization), p.tenant,
                           Policy(OrganizationIs(organization), Named({Role(RoleName(organization))}))))
  }

  ghost function WithGrant(p: Plan, s: Server, organization: string): Server {
    if p.reader.None? then s
    else s.(roleGrants := s.roleGrants + {(RoleName(organization), p.reader.value)},
            defaultRoleNone := s.defaultRoleNone + {p.reader.value})
  }

  ghost function AfterOrganization(p: Plan, s: Server, organization: string): Server {
    WithGrant(p, WithIso(p, WithRole(s, RoleName(organization)), organization), organization)
  }

  lemma RoleRuns(s: Server, role: string)
    requires role !in s.users
    ensures ExecAll(s, [CreateRoleIfNotExists(role), GrantSelect(role)]) == Some(WithRole(s, role))
  {
    ExecTwo(s, CreateRoleIfNotExists(role), GrantSelect(role));
  }

  lemma GrantRuns(p: Plan, s: Server, organization: string)
    requires RoleName(organization) in s.roles && (p.reader.Some? ==> p.reader.value in s.users)
    ensures ExecAll(s, if p.reader.Some? then ReadIdentityRoleGrantDdl(organization, p.reader.value) else [])
            == Some(WithGrant(p, s, organization))
  {
    if p.reader.Some? {
      var user := p.reader.value;
      ExecTwo(s, GrantRole(RoleName(organization), user), DefaultRoleNone(user));
      assert s.defaultRoleNone - {user} + {user} == s.defaultRoleNone + {user};
    }
  }

  lemma OrganizationRuns(p: Plan, s: Server, organization: string)
    requires Guarded(p, s) && RoleName(organization) !in s.users
    ensures ExecAll(s, OrganizationDdl(p, organization)) == Some(AfterOrganization(p, s, organization))
  {
    var role := RoleName(organization);
    var a := [CreateRoleIfNotExists(role), GrantSelect(role)];
    var b := ReplaceAll(IsoName(organization), p.tenant, OrganizationIs(organization), role);
    var c: seq<Statement> := if p.reader.Some? then ReadIdentityRoleGrantDdl(organization, p.reader.value) else [];
    var s1 := WithRole(s, role);
    var s2 := WithIso(p, s1, organization);
    RoleRuns(s, role);
    ReplaceAllRuns(s1, IsoName(organization), p.tenant, OrganizationIs(organization), role);
    GrantRuns(p, s2, organization);
    ExecThen(s, a, s1, b, s2);
    ExecThen(s, a + b, s2, c, WithGrant(p, s2, organization));
  }

  ghost function AfterOrganizations(p: Plan, s: Server, organizations: seq<string>): Server
    decreases |organizations|
  {
    if organizations == [] then s
    else AfterOrganizations(p, AfterOrganization(p, s, organizations[0]), organizations[1..])
  }

  lemma {:induction false} OrganizationsRun(p: Plan, s: Server, organizations: seq<string>)
    requires Guarded(p, s) && NoLoginNamedLikeRole(s.users, organizations)
    ensures ExecAll(s, OrganizationsDdl(p, organizations)) == Some(AfterOrganizations(p, s, organizations))
    decreases |organizations|
  {
    if organizations != [] {
      var s1 := AfterOrganization(p, s, organizations[0]);
      OrganizationRuns(p, s, organizations[0]);
      OrganizationsRun(p, s1, organizations[1..]);
      ExecConcat(s, OrganizationDdl(p, organizations[0]), OrganizationsDdl(p, organizations[1..]));
    }
  }

  /** The pass of one organization runs whatever its role's name resolves to, and leaves the guards as they are. */
  lemma OrganizationNeverFails(p: Plan, s: Server, organization: string)
    requires Guarded(p, s)
    ensures var r := ExecAll(s, OrganizationDdl(p, organization)); r.Some? && Guarded(p, r.value)
  {
    var role := RoleName(organization);
    var a := [CreateRoleIfNotExists(role), GrantSelect(role)];
    var b := ReplaceAll(IsoName(organization), p.tenant, OrganizationIs(organization), role);
    var c: seq<Statement> := if p.reader.Some? then ReadIdentityRoleGrantDdl(organization, p.reader.value) else [];
    ExecTwo(s, a[0], a[1]);
    var s1 := ExecAll(s, a).value;
    ReplaceAllRuns(s1, IsoName(organization), p.tenant, OrganizationIs(organization), role);
    var s2 := ExecAll(s1, b).value;
    GrantRuns(p, s2, organization);
    ExecThen(s, a, s1, b, s2);
    ExecThen(s, a + b, s2, c, WithGrant(p, s2, organization));
  }

  lemma {:induction false} OrganizationsNeverFail(p: Plan, s: Server, organizations: seq<string>)
    requires Guarded(p, s)
    ensures ExecAll(s, OrganizationsDdl(p, organizations)).Some?
    decreases |organizations|
  {
    if organizations != [] {
      OrganizationNeverFails(p, s, organizations[0]);
      OrganizationsNeverFail(p, ExecAll(s, OrganizationDdl(p, organizations[0])).value, organizations[1..]);
      ExecConcat(s, OrganizationDdl(p, organizations[0]), OrganizationsDdl(p, organizations[1..]));
    }
  }

  /**
   No statement of the whole pass fails: every grantee exists when a `TO` or a `GRANT` names it. What the pass
   leaves is the closed form as long as no login is named like one of the roles.
   */
  lemma ReprovisionNeverFails(p: Plan, s: Server, organizations: seq<string>)
    requires Guarded(p, s)
    ensures ExecAll(s, ReprovisionDdl(p, organizations)).Some?
    ensures NoLoginNamedLikeRole(s.users, organizations) ==>
              ExecAll(s, ReprovisionDdl(p, organizations))
                  == Some(AfterOrganizations(p, AfterBaseline(p, s), organizations))
  {
    BaselineRuns(p, s);
    OrganizationsNeverFail(p, AfterBaseline(p, s), organizations);
    ExecConcat(s, BaselineDdl(p), OrganizationsDdl(p, organizations));
    if NoLoginNamedLikeRole(s.users, organizations) { OrganizationsRun(p, AfterBaseline(p, s), organizations); }
  }

  lemma PrefixBenign(p: Plan, s: Server, organizations: seq<string>, k: nat)
    requires Guarded(p, s) && NoLoginNamedLikeRole(s.users, organizations)
    requires k <= |ReprovisionDdl(p, organizations)|
    ensures AllBenign(p, s.users, ReprovisionDdl(p, organizations)[..k])
  {
    BaselineBenign(p, s);
    OrganizationsBenign(p, s.users, organizations);
    hide Benign, BaselineDdl, OrganizationsDdl, Guarded;
  }

  /**
   Isolation at every crash point: after any prefix of the pass, nothing has failed, and on a table that
   carries the deny a login without a blanket policy reads only the rows of its active organizations.
   */
  lemma IsolationAtEveryCrashPoint(
    p: Plan, blanket: set<string>, s: Server, organizations: seq<string>, k: nat, who: Session, row: Row)
    requires WellFormed(p, blanket, s) && p.service in blanket && who.user !in blanket
    requires Guarded(p, s) && NoLoginNamedLikeRole(s.users, organizations)
    requires k <= |ReprovisionDdl(p, organizations)|
    ensures ExecAll(s, ReprovisionDdl(p, organizations)[..k]).Some?
    ensures var z := ExecAll(s, ReprovisionDdl(p, organizations)[..k]).value;
            && WellFormed(p, blanket, z)
            && (Denied(s, row.table) ==> Denied(z, row.table))
            && (Denied(z, row.table) ==> Isolated(p, z, who, row))
  {
    var qs := ReprovisionDdl(p, organizations);
    hide *;
    ReprovisionNeverFails(p, s, organizations);
    ExecPrefix(s, qs, k);
    PrefixBenign(p, s, organizations, k);
    BenignRun(p, blanket, s, qs[..k]);
    var z := ExecAll(s, qs[..k]).value;
    if Denied(z, row.table) { DeniedIsIsolated(p, blanket, z, who, row); }
  }

  // ---- What the finished pass establishes ----

  /** Only `iso_` policies of these organizations, on tenant tables, may be wrong. */
  ghost predicate Repairable(p: Plan, blanket: set<string>, s: Server, organizations: seq<string>) {
    forall k :: k in s.policies ==>
      PolicyOk(p, blanket, k, s.policies[k]) || exists o :: o in organizations && k in KeysOf(IsoName(o), p.tenant)
  }

  ghost predicate Holds(s: Server, policy: string, tables: seq<string>, q: Policy) {
    forall t :: t in tables ==> (policy, t) in s.policies && s.policies[(policy, t)] == q
  }

  function IsoPolicy(organization: string): Policy {
    Policy(OrganizationIs(organization), Named({Role(RoleName(organization))}))
  }

  ghost predicate BaselineSettled(p: Plan, s: Server) {
    && Holds(s, DENY, p.all, Policy(Zero, Everyone))
    && Holds(s, SHARED, SharedObjects(p.all, p.shared), Policy(One, Everyone))
    && Holds(s, INGEST, p.all, Policy(One, Named({User(p.service)})))
    && (p.reader.Some? ==> p.reader.value in s.defaultRoleNone)
  }

  ghost predicate OrganizationSettled(p: Plan, s: Server, organization: string) {
    && RoleName(organization) in s.roles && Role(RoleName(organization)) in s.selectGrants
    && Holds(s, IsoName(organization), p.tenant, IsoPolicy(organization))
    && (p.reader.Some? ==> (RoleName(organization), p.reader.value) in s.roleGrants)
  }

  ghost predicate Settled(p: Plan, s: Server, organizations: seq<string>) {
    BaselineSettled(p, s) && forall o :: o in organizations ==> OrganizationSettled(p, s, o)
  }

  lemma UnderlayHolds(ps: map<PolicyKey, Policy>, policy: string, tables: seq<string>, q: Policy, t: string)
    requires t in tables && ((policy, t) in ps ==> ps[(policy, t)] == q)
    ensures var z := Underlay(ps, policy, tables, q); (policy, t) in z && z[(policy, t)] == q
  {
    assert (policy, t) in KeysOf(policy, tables);
  }

  lemma OverlayHolds(ps: map<PolicyKey, Policy>, policy: string, tables: seq<string>, q: Policy, t: string)
    requires t in tables
    ensures var z := Overlay(ps, policy, tables, q); (policy, t) in z && z[(policy, t)] == q
  {
    assert (policy, t) in KeysOf(policy, tables);
  }

  lemma DenySettles(p: Plan, blanket: set<string>, s: Server, organizations: seq<string>)
    requires Repairable(p, blanket, s, organizations)
    ensures Repairable(p, blanket, WithDeny(p, s), organizations)
    ensures Holds(WithDeny(p, s), DENY, p.all, Policy(Zero, Everyone))
  {
    FamiliesDiffer("");
    forall t | t in p.all
      ensures (DENY, t) in WithDeny(p, s).policies && WithDeny(p, s).policies[(DENY, t)] == Policy(Zero, Everyone)
    {
      NotIso(DENY, t, p, organizations);
      UnderlayHolds(s.policies, DENY, p.all, Policy(Zero, Everyone), t);
    }
  }

  lemma NotIso(policy: string, t: string, p: Plan, organizations: seq<string>)
    requires policy == DENY || policy == SHARED || policy == INGEST
    ensures !exists o :: o in organizations && (policy, t) in KeysOf(IsoName(o), p.tenant)
  {
    forall o | o in organizations && (policy, t) in KeysOf(IsoName(o), p.tenant)
      ensures false
    {
      FamiliesDiffer(o);
    }
  }

  lemma SharedSettles(p: Plan, blanket: set<string>, s: Server, organizations: seq<string>)
    requires Repairable(p, blanket, s, organizations) && forall o :: o in p.shared ==> o !in p.tenant
    ensures Repairable(p, blanket, WithShared(p, s), organizations)
    ensures Holds(WithShared(p, s), SHARED, SharedObjects(p.all, p.shared), Policy(One, Everyone))
  {
    FamiliesDiffer("");
    var tables := SharedObjects(p.all, p.shared);
    forall t | t in tables
      ensures (SHARED, t) in WithShared(p, s).policies
          && WithShared(p, s).policies[(SHARED, t)] == Policy(One, Everyone)
    {
      NotIso(SHARED, t, p, organizations);
      UnderlayHolds(s.policies, SHARED, tables, Policy(One, Everyone), t);
    }
    forall k | k in WithShared(p, s).policies && k !in s.policies
      ensures PolicyOk(p, blanket, k, WithShared(p, s).policies[k])
    {
      SharedObjectsMembers(p.all, p.shared, k.1);
    }
  }

  lemma IngestSettles(p: Plan, blanket: set<string>, s: Server, organizations: seq<string>)
    requires Repairable(p, blanket, s, organizations) && p.service in blanket
    ensures Repairable(p, blanket, WithIngest(p, s), organizations)
    ensures Holds(WithIngest(p, s), INGEST, p.all, Policy(One, Named({User(p.service)})))
  {
    FamiliesDiffer("");
    forall t | t in p.all
      ensures (INGEST, t) in WithIngest(p, s).policies &&
              WithIngest(p, s).policies[(INGEST, t)] == Policy(One, Named({User(p.service)}))
    {
      OverlayHolds(s.policies, INGEST, p.all, Policy(One, Named({User(p.service)})), t);
    }
  }

  /** Writing one policy family leaves another as it was. */
  lemma HoldsUnderOverlay(
    s: Server, z: Server, policy: string, tables: seq<string>, q: Policy, other: string, others: seq<string>,
    r: Policy)
    requires Holds(s, policy, tables, q)
    requires z.policies == Overlay(s.policies, other, others, r) || z.policies == Underlay(s.policies, other, others, r)
    requires policy != other || q == r
    ensures Holds(z, policy, tables, q)
  {
  }

  lemma BaselineEstablishes(p: Plan, blanket: set<string>, s: Server, organizations: seq<string>)
    requires Repairable(p, blanket, s, organizations) && p.service in blanket && Guarded(p, s)
    ensures Repairable(p, blanket, AfterBaseline(p, s), organizations) && BaselineSettled(p, AfterBaseline(p, s))
  {
    FamiliesDiffer("");
    var s1 := WithDeny(p, s);
    var s2 := WithShared(p, s1);
    var s3 := WithIngest(p, s2);
    var deny, shared, ingest := Policy(Zero, Everyone), Policy(One, Everyone), Policy(One, Named({User(p.service)}));
    DenySettles(p, blanket, s, organizations);
    SharedSettles(p, blanket, s1, organizations);
    IngestSettles(p, blanket, s2, organizations);
    HoldsUnderOverlay(s1, s2, DENY, p.all, deny, SHARED, SharedObjects(p.all, p.shared), shared);
    HoldsUnderOverlay(s2, s3, DENY, p.all, deny, INGEST, p.all, ingest);
    HoldsUnderOverlay(s2, s3, SHARED, SharedObjects(p.all, p.shared), shared, INGEST, p.all, ingest);
  }

  lemma IsoRepairs(p: Plan, blanket: set<string>, s: Server, organizations: seq<string>)
    requires organizations != [] && Repairable(p, blanket, s, organizations)
    ensures Repairable(p, blanket, AfterOrganization(p, s, organizations[0]), organizations[1..])
    ensures OrganizationSettled(p, AfterOrganization(p, s, organizations[0]), organizations[0])
  {
    var o := organizations[0];
    var z := AfterOrganization(p, s, o);
    FamiliesDiffer(o);
    forall t | t in p.tenant
      ensures (IsoName(o), t) in z.policies && z.policies[(IsoName(o), t)] == IsoPolicy(o)
    {
      OverlayHolds(s.policies, IsoName(o), p.tenant, IsoPolicy(o), t);
    }
    forall k | k in z.policies && !PolicyOk(p, blanket, k, z.policies[k])
      ensures exists x :: x in organizations[1..] && k in KeysOf(IsoName(x), p.tenant)
    {
      assert k !in KeysOf(IsoName(o), p.tenant);
      var x :| x in organizations && k in KeysOf(IsoName(x), p.tenant);
      assert organizations == [o] + organizations[1..];
    }
  }

  lemma OrganizationKeeps(p: Plan, s: Server, organization: string, other: string)
    requires OrganizationSettled(p, s, other)
    ensures OrganizationSettled(p, AfterOrganization(p, s, organization), other)
  {
    var z := AfterOrganization(p, s, organization);
    if organization != other {
      assert IsoName(organization)[8..] == organization && IsoName(other)[8..] == other;
    }
    HoldsUnderOverlay(s, z, IsoName(other), p.tenant, IsoPolicy(other), IsoName(organization), p.tenant,
        IsoPolicy(organization));
  }

  lemma OrganizationKeepsBaseline(p: Plan, s: Server, organization: string)
    requires BaselineSettled(p, s)
    ensures BaselineSettled(p, AfterOrganization(p, s, organization))
  {
    var z := AfterOrganization(p, s, organization);
    FamiliesDiffer(organization);
    var iso := IsoName(organization);
    HoldsUnderOverlay(s, z, DENY, p.all, Policy(Zero, Everyone), iso, p.tenant, IsoPolicy(organization));
    HoldsUnderOverlay(s, z, SHARED, SharedObjects(p.all, p.shared), Policy(One, Everyone), iso, p.tenant,
        IsoPolicy(organization));
    HoldsUnderOverlay(s, z, INGEST, p.all, Policy(One, Named({User(p.service)})), iso, p.tenant,
        IsoPolicy(organization));
  }

  lemma {:induction false} OrganizationsEstablish(
    p: Plan, blanket: set<string>, s: Server, done: seq<string>, organizations: seq<string>)
    requires Repairable(p, blanket, s, organizations) && Settled(p, s, done)
    ensures WellFormed(p, blanket, AfterOrganizations(p, s, organizations))
    ensures Settled(p, AfterOrganizations(p, s, organizations), done + organizations)
    ensures AfterOrganizations(p, s, organizations).users == s.users
    decreases |organizations|
  {
    if organizations == [] {
      assert done + organizations == done;
    } else {
      var o := organizations[0];
      var z := AfterOrganization(p, s, o);
      IsoRepairs(p, blanket, s, organizations);
      OrganizationKeepsBaseline(p, s, o);
      forall x | x in done ensures OrganizationSettled(p, z, x) { OrganizationKeeps(p, s, o, x); }
      OrganizationsEstablish(p, blanket, z, done + [o], organizations[1..]);
      assert done + [o] + organizations[1..] == done + organizations;
    }
  }

  /** The state the whole pass ends in. */
  ghost function Provisioned(p: Plan, s: Server, organizations: seq<string>): Server {
    AfterOrganizations(p, AfterBaseline(p, s), organizations)
  }

  /** Provisioning repairs every stale `iso_` predicate and settles every policy, role, grant and default role. */
  lemma ProvisioningRepairs(p: Plan, blanket: set<string>, s: Server, organizations: seq<string>)
    requires Repairable(p, blanket, s, organizations) && p.service in blanket && Guarded(p, s)
    ensures var z := Provisioned(p, s, organizations);
            WellFormed(p, blanket, z) && Settled(p, z, organizations) && z.users == s.users
  {
    BaselineEstablishes(p, blanket, s, organizations);
    OrganizationsEstablish(p, blanket, AfterBaseline(p, s), [], organizations);
    assert [] + organizations == organizations;
  }

  // ---- Running it again ----

  lemma SettledUnderlay(s: Server, policy: string, tables: seq<string>, q: Policy)
    requires Holds(s, policy, tables, q)
    ensures Underlay(s.policies, policy, tables, q) == s.policies
    ensures Overlay(s.policies, policy, tables, q) == s.policies
  {
  }

  lemma SettledBaseline(p: Plan, s: Server)
    requires BaselineSettled(p, s)
    ensures AfterBaseline(p, s) == s
  {
    SettledUnderlay(s, DENY, p.all, Policy(Zero, Everyone));
    SettledUnderlay(s, SHARED, SharedObjects(p.all, p.shared), Policy(One, Everyone));
    SettledUnderlay(s, INGEST, p.all, Policy(One, Named({User(p.service)})));
    if p.reader.Some? { assert s.defaultRoleNone + {p.reader.value} == s.defaultRoleNone; }
    else { assert s.defaultRoleNone + {} == s.defaultRoleNone; }
  }

  lemma SettledOrganization(p: Plan, s: Server, organization: string)
    requires BaselineSettled(p, s) && OrganizationSettled(p, s, organization)
    ensures AfterOrganization(p, s, organization) == s
  {
    var role := RoleName(organization);
    SettledUnderlay(s, IsoName(organization), p.tenant, IsoPolicy(organization));
    assert s.roles + {role} == s.roles && s.selectGrants + {Role(role)} == s.selectGrants;
    if p.reader.Some? {
      assert s.roleGrants + {(role, p.reader.value)} == s.roleGrants;
      assert s.defaultRoleNone + {p.reader.value} == s.defaultRoleNone;
    }
  }

  lemma {:induction false} SettledOrganizations(p: Plan, s: Server, organizations: seq<string>)
    requires Settled(p, s, organizations)
    ensures AfterOrganizations(p, s, organizations) == s
    decreases |organizations|
  {
    if organizations != [] {
      SettledOrganization(p, s, organizations[0]);
      SettledOrganizations(p, s, organizations[1..]);
    }
  }

  /** A second run executes completely and changes nothing at all. */
  lemma SecondRunChangesNothing(p: Plan, blanket: set<string>, s: Server, organizations: seq<string>)
    requires Repairable(p, blanket, s, organizations) && p.service in blanket
    requires Guarded(p, s) && NoLoginNamedLikeRole(s.users, organizations)
    ensures ExecAll(s, ReprovisionDdl(p, organizations)) == Some(Provisioned(p, s, organizations))
    ensures ExecAll(Provisioned(p, s, organizations), ReprovisionDdl(p, organizations))
        == Some(Provisioned(p, s, organizations))
  {
    var z := Provisioned(p, s, organizations);
    ReprovisionNeverFails(p, s, organizations);
    ProvisioningRepairs(p, blanket, s, organizations);
    ReprovisionNeverFails(p, z, organizations);
    SettledBaseline(p, z);
    SettledOrganizations(p, z, organizations);
  }

  // ---- Exact visibility ----

  lemma GuardedReaderIsNotBlanket(p: Plan, blanket: set<string>, s: Server, organizations: seq<string>, user: string)
    requires Repairable(p, blanket, s, organizations) && NoPermissivePolicy(s, user)
    ensures Repairable(p, blanket - {user}, s, organizations)
  {
  }

  lemma SeesOwnRows(p: Plan, s: Server, who: Session, organization: string, row: Row)
    requires OrganizationSettled(p, s, organization) && row.table in p.tenant && row.organization == Some(organization)
    requires RoleName(organization) in Active(s, who)
    ensures Sees(s, who, row)
  {
    var k := (IsoName(organization), row.table);
    assert AppliesTo(s, who, k, row) && Matches(s.policies[k].filter, row);
  }

  lemma ServiceSeesAll(p: Plan, s: Server, row: Row, role: Option<string>)
    requires BaselineSettled(p, s) && row.table in p.all
    ensures Sees(s, Session(p.service, role), row)
  {
    var k := (INGEST, row.table);
    assert AppliesTo(s, Session(p.service, role), k, row) && Matches(s.policies[k].filter, row);
  }

  lemma ForeignRow(organization: string, row: Row)
    requires row.organization.Some? && row.organization.value != organization
    ensures RoleName(row.organization.value) != RoleName(organization)
  {
    assert RoleName(organization)[4..] == organization;
    assert RoleName(row.organization.value)[4..] == row.organization.value;
  }

  /**
   After provisioning, the guarded reader sees exactly the rows of the one organization whose role its query
   activates and none without a role, and the service identity sees everything, whatever role it asks for.
   */
  lemma ProvisionedVisibility(
    p: Plan, blanket: set<string>, s: Server, organizations: seq<string>, organization: string, row: Row,
    role: Option<string>)
    requires Repairable(p, blanket, s, organizations) && p.service in blanket && Guarded(p, s)
    requires p.reader.Some? && NoPermissivePolicy(s, p.reader.value)
    requires organization in organizations && row.table in p.tenant
    ensures var z := Provisioned(p, s, organizations);
            && (Sees(z, Session(p.reader.value, Some(RoleName(organization))), row)
                <==> row.organization == Some(organization))
            && (RoleName(organization), p.reader.value) in z.roleGrants
            && !Sees(z, Session(p.reader.value, None), row)
            && Sees(z, Session(p.service, role), row)
    ensures NoLoginNamedLikeRole(s.users, organizations) ==>
              ExecAll(s, ReprovisionDdl(p, organizations)) == Some(Provisioned(p, s, organizations))
  {
    var reader := p.reader.value;
    var narrow := blanket - {reader};
    var z := Provisioned(p, s, organizations);
    GuardedReaderIsNotBlanket(p, blanket, s, organizations, reader);
    ProvisioningRepairs(p, narrow, s, organizations);
    var scoped := Session(reader, Some(RoleName(organization)));
    DeniedIsIsolated(p, narrow, z, scoped, row);
    DeniedIsIsolated(p, narrow, z, Session(reader, None), row);
    if row.organization == Some(organization) {
      SeesOwnRows(p, z, scoped, organization, row);
    } else if row.organization.Some? {
      ForeignRow(organization, row);
    }
    ServiceSeesAll(p, z, row, role);
    ReprovisionNeverFails(p, s, organizations);
  }

  /** What the pass is for: the reader sees one organization at a time, and the service identity sees everything. */
  ghost predicate ShowsExactly(p: Plan, s: Server, organizations: seq<string>) {
    && (p.reader.Some? ==>
          && (forall o, row: Row :: o in organizations && row.table in p.tenant ==>
                (Sees(s, Session(p.reader.value, Some(RoleName(o))), row) <==> row.organization == Some(o)))
          && (forall o :: o in organizations ==> (RoleName(o), p.reader.value) in s.roleGrants)
          && (forall row: Row :: row.table in p.tenant ==> !Sees(s, Session(p.reader.value, None), row)))
    && (forall role, row: Row :: row.table in p.tenant ==> Sees(s, Session(p.service, role), row))
  }

  lemma NothingWithoutRole(p: Plan, blanket: set<string>, s: Server, organizations: seq<string>, row: Row)
    requires Repairable(p, blanket, s, organizations) && p.service in blanket && Guarded(p, s)
    requires p.reader.Some? && NoPermissivePolicy(s, p.reader.value) && row.table in p.tenant
    ensures !Sees(Provisioned(p, s, organizations), Session(p.reader.value, None), row)
  {
    var reader := p.reader.value;
    GuardedReaderIsNotBlanket(p, blanket, s, organizations, reader);
    ProvisioningRepairs(p, blanket - {reader}, s, organizations);
    DeniedIsIsolated(p, blanket - {reader}, Provisioned(p, s, organizations), Session(reader, None), row);
  }

  lemma ServiceReadsOn(p: Plan, blanket: set<string>, s: Server, organizations: seq<string>)
    requires Repairable(p, blanket, s, organizations) && p.service in blanket && Guarded(p, s)
    ensures var z := Provisioned(p, s, organizations);
            forall role, row: Row :: row.table in p.tenant ==> Sees(z, Session(p.service, role), row)
  {
    var z := Provisioned(p, s, organizations);
    ProvisioningRepairs(p, blanket, s, organizations);
    forall role, row: Row | row.table in p.tenant ensures Sees(z, Session(p.service, role), row) {
      ServiceSeesAll(p, z, row, role);
    }
  }

  lemma ProvisionedShows(p: Plan, blanket: set<string>, s: Server, organizations: seq<string>)
    requires Repairable(p, blanket, s, organizations) && p.service in blanket && Guarded(p, s)
    requires p.reader.Some? ==> NoPermissivePolicy(s, p.reader.value)
    ensures ShowsExactly(p, Provisioned(p, s, organizations), organizations)
  {
    var z := Provisioned(p, s, organizations);
    hide Sees, Repairable, Guarded, NoPermissivePolicy, Provisioned;
    ServiceReadsOn(p, blanket, s, organizations);
    if p.reader.Some? {
      forall row: Row | row.table in p.tenant ensures !Sees(z, Session(p.reader.value, None), row) {
        NothingWithoutRole(p, blanket, s, organizations, row);
      }
      forall o, row: Row | o in organizations && row.table in p.tenant
        ensures Sees(z, Session(p.reader.value, Some(RoleName(o))), row) <==> row.organization == Some(o)
      {
        ProvisionedVisibility(p, blanket, s, organizations, o, row, None);
      }
      forall o | o in organizations ensures (RoleName(o), p.reader.value) in z.roleGrants {
        ReaderHoldsRole(p, blanket, s, organizations, o);
      }
    }
  }

  lemma ReaderHoldsRole(p: Plan, blanket: set<string>, s: Server, organizations: seq<string>, organization: string)
    requires Repairable(p, blanket, s, organizations) && p.service in blanket && Guarded(p, s)
    requires p.reader.Some? && organization in organizations
    ensures (RoleName(organization), p.reader.value) in Provisioned(p, s, organizations).roleGrants
  {
    ProvisioningRepairs(p, blanket, s, organizations);
  }

  /** Of a pass that may stop anywhere: a reader that held no permissive policy is isolated at every crash point. */
  lemma ReaderIsolatedAtEveryCrashPoint(
    p: Plan, blanket: set<string>, s: Server, organizations: seq<string>, k: nat, role: Option<string>, row: Row)
    requires WellFormed(p, blanket, s) && p.service in blanket && Guarded(p, s)
    requires NoLoginNamedLikeRole(s.users, organizations)
    requires p.reader.Some? && NoPermissivePolicy(s, p.reader.value)
    requires k <= |ReprovisionDdl(p, organizations)| && ExecAll(s, ReprovisionDdl(p, organizations)[..k]).Some?
    ensures var z := ExecAll(s, ReprovisionDdl(p, organizations)[..k]).value;
            Denied(z, row.table) ==> Isolated(p, z, Session(p.reader.value, role), row)
  {
    assert WellFormed(p, blanket - {p.reader.value}, s);
    assert p.service in blanket - {p.reader.value};
    hide WellFormed, Guarded, ReprovisionDdl, ExecAll;
    IsolationAtEveryCrashPoint(p, blanket - {p.reader.value}, s, organizations, k, Session(p.reader.value, role), row);
  }

  /** The predicate policy reaches the organization's role exactly when no login bears the role's name. */
  lemma IsoPolicyReachesRoleExactly(s: Server, organization: string, table: string)
    requires RoleName(organization) in s.roles
    ensures var z := ExecAll(s,
        ReplaceRowPolicy(IsoName(organization), table, OrganizationIs(organization), RoleName(organization)));
            && z.Some? && (IsoName(organization), table) in z.value.policies
            && (z.value.policies[(IsoName(organization), table)] == IsoPolicy(organization)
                <==> RoleName(organization) !in s.users)
  {
    var q := ReplaceRowPolicy(IsoName(organization), table, OrganizationIs(organization), RoleName(organization));
    ExecTwo(s, q[0], q[1]);
  }

  // ---- Removing an organization ----

  /** No policy applies to nobody. */
  ghost predicate NoneDangling(s: Server) {
    forall k :: k in s.policies ==> s.policies[k].target != Named({})
  }

  /** Only this organization's own policies, on these tables, name its role. */
  ghost predicate RoleUsedOnlyByIso(s: Server, organization: string, tables: seq<string>) {
    forall k ::
      (k in s.policies && s.policies[k].target.Named?
       && Role(RoleName(organization)) in s.policies[k].target.grantees) ==>
        k in KeysOf(IsoName(organization), tables)
  }

  lemma {:induction false} DropPoliciesRun(s: Server, organization: string, tables: seq<string>, qs: seq<Statement>)
    requires |qs| == |tables|
    requires forall i :: 0 <= i < |qs| ==> qs[i] == DropPolicyIfExists(IsoName(organization), tables[i])
    ensures ExecAll(s, qs) == Some(s.(policies := s.policies - KeysOf(IsoName(organization), tables)))
    decreases |tables|
  {
    var iso := IsoName(organization);
    if tables == [] {
      assert s.policies - KeysOf(iso, tables) == s.policies;
    } else {
      var s1 := s.(policies := s.policies - {(iso, tables[0])});
      DropPoliciesRun(s1, organization, tables[1..], qs[1..]);
      KeysCons(iso, tables);
      assert s.policies - KeysOf(iso, tables) == s1.policies - KeysOf(iso, tables[1..]);
    }
  }

  /** What is left once an organization was removed. */
  ghost function Removed(s: Server, organization: string, tables: seq<string>): Server {
    var s1 := s.(policies := s.policies - KeysOf(IsoName(organization), tables));
    if RoleName(organization) in s.roles then DropRole(s1, RoleName(organization)) else s1
  }

  lemma DropRuns(s: Server, organization: string, tables: seq<string>)
    ensures ExecAll(s, OrganizationPolicyDropDdl(organization, tables)) == Some(Removed(s, organization, tables))
  {
    var a := OrganizationPolicyDropDdl(organization, tables)[..|tables|];
    var b := [DropRoleIfExists(RoleName(organization))];
    DropPoliciesRun(s, organization, tables, a);
    var s1 := s.(policies := s.policies - KeysOf(IsoName(organization), tables));
    ExecOne(s1, b[0]);
    ExecThen(s, a, s1, b, Removed(s, organization, tables));
    assert OrganizationPolicyDropDdl(organization, tables) == a + b;
  }

  /** Policies first, role last: at no interruption point does a policy apply to nobody. */
  lemma DropLeavesNothingDangling(s: Server, organization: string, tables: seq<string>, k: nat)
    requires NoneDangling(s) && RoleUsedOnlyByIso(s, organization, tables)
    requires k <= |tables| + 1
    ensures var z := ExecAll(s, OrganizationPolicyDropDdl(organization, tables)[..k]); z.Some? && NoneDangling(z.value)
  {
    var qs := OrganizationPolicyDropDdl(organization, tables);
    if k <= |tables| {
      DropPoliciesRun(s, organization, tables[..k], qs[..k]);
    } else {
      assert qs[..k] == qs;
      DropRuns(s, organization, tables);
      var z := Removed(s, organization, tables);
      forall q | q in z.policies
        ensures z.policies[q].target != Named({})
      {
        assert q in s.policies && q !in KeysOf(IsoName(organization), tables);
        var t := s.policies[q].target;
        if t.Named? { assert t.grantees - {Role(RoleName(organization))} == t.grantees; }
      }
    }
  }

  /** The other order: dropping the role first leaves a dangling policy exactly when one is granted to it alone. */
  lemma RoleFirstDanglesExactly(s: Server, role: string)
    requires NoneDangling(s) && role in s.roles
    ensures NoneDangling(DropRole(s, role)) <==>
            forall k :: k in s.policies ==> s.policies[k].target != Named({Role(role)})
  {
    var z := DropRole(s, role);
    forall k | k in s.policies
      ensures z.policies[k].target == Named({}) <==> s.policies[k].target == Named({Role(role)})
    {
      var t := s.policies[k].target;
      if t.Named? && t.grantees - {Role(role)} == {} {
        assert t.grantees <= {Role(role)} && t.grantees != {};
        assert t.grantees == {Role(role)};
      }
    }
    assert z.policies.Keys == s.policies.Keys;
  }

  /** Nothing on the server mentions the organization, and the reader activates nothing by default. */
  ghost predicate Unknown(p: Plan, s: Server, organization: string) {
    var role := RoleName(organization);
    && role !in s.roles && Role(role) !in s.selectGrants
    && (forall g :: g in s.roleGrants ==> g.0 != role)
    && (forall k :: k in s.policies ==> k !in KeysOf(IsoName(organization), p.tenant))
    && (forall k :: k in s.policies && s.policies[k].target.Named? ==> Role(role) !in s.policies[k].target.grantees)
    && (p.reader.Some? ==> p.reader.value in s.defaultRoleNone)
  }

  lemma RemovedRestores(p: Plan, s: Server, organization: string)
    requires Unknown(p, s, organization)
    ensures Removed(AfterOrganization(p, s, organization), organization, p.tenant) == s
  {
    var role := RoleName(organization);
    var x := Removed(AfterOrganization(p, s, organization), organization, p.tenant);
    assert x.roles == s.roles;
    assert x.selectGrants == s.selectGrants;
    assert x.roleGrants == s.roleGrants;
    assert x.defaultRoleNone == s.defaultRoleNone;
    forall k | k in s.policies
      ensures WithoutRole(s.policies[k].target, role) == s.policies[k].target
    {
      var t := s.policies[k].target;
      if t.Named? { assert t.grantees - {Role(role)} == t.grantees; }
    }
    assert x.policies == s.policies;
  }

  /** Removing an organization undoes its provisioning: the server is exactly what it was before. */
  lemma RemovalUndoesProvisioning(p: Plan, s: Server, organization: string)
    requires Guarded(p, s) && RoleName(organization) !in s.users && Unknown(p, s, organization)
    ensures ExecAll(s, OrganizationDdl(p, organization) + OrganizationPolicyDropDdl(organization, p.tenant)) == Some(s)
  {
    hide *;
    var z := AfterOrganization(p, s, organization);
    OrganizationRuns(p, s, organization);
    DropRuns(z, organization, p.tenant);
    RemovedRestores(p, s, organization);
    ExecThen(s, OrganizationDdl(p, organization), z, OrganizationPolicyDropDdl(organization, p.tenant), s);
  }
}
