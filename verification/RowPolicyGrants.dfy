/** Roles and grants at every crash point of the provisioning programs (packages/db/src/ch-provisioning.ts). */
module RowPolicyGrants {
  import opened Wrappers
  import opened RowPolicies
  import opened RowPolicyIsolation

  /** Every login, role and grant of `s` is still there in `z`. */
  ghost predicate Keeps(s: Server, z: Server) {
    s.users == z.users && s.roles <= z.roles && s.roleGrants <= z.roleGrants && s.selectGrants <= z.selectGrants
  }

  lemma {:induction false} KeepsRun(s: Server, qs: seq<Statement>)
    requires ExecAll(s, qs).Some? && forall i :: 0 <= i < |qs| ==> !qs[i].DropRoleIfExists?
    ensures Keeps(s, ExecAll(s, qs).value)
    decreases |qs|
  {
    if qs != [] {
      assert !qs[0].DropRoleIfExists?;
      KeepsStep(s, qs[0]);
      hide Exec;
      KeepsRun(Exec(s, qs[0]).value, qs[1..]);
    }
  }

  lemma KeepsStep(s: Server, q: Statement)
    requires !q.DropRoleIfExists? && Exec(s, q).Some?
    ensures Keeps(s, Exec(s, q).value)
  {
  }

  /** Running the pass again takes nothing away: at every crash point the roles and grants that were held are held. */
  lemma NothingIsTakenAway(p: Plan, s: Server, organizations: seq<string>, k: nat)
    requires Guarded(p, s) && NoLoginNamedLikeRole(s.users, organizations)
    requires k <= |ReprovisionDdl(p, organizations)| && ExecAll(s, ReprovisionDdl(p, organizations)[..k]).Some?
    ensures Keeps(s, ExecAll(s, ReprovisionDdl(p, organizations)[..k]).value)
  {
    PrefixBenign(p, s, organizations, k);
    hide ReprovisionDdl, Guarded, NoLoginNamedLikeRole, ExecAll;
    KeepsRun(s, ReprovisionDdl(p, organizations)[..k]);
  }

  // ---- The reader is granted last ----

  predicate GrantsNobody(q: Statement) {
    !q.GrantRole? && !q.DropRoleIfExists?
  }

  lemma {:induction false} NoGrantRun(s: Server, qs: seq<Statement>)
    requires ExecAll(s, qs).Some? && forall i :: 0 <= i < |qs| ==> GrantsNobody(qs[i])
    ensures ExecAll(s, qs).value.roleGrants == s.roleGrants
    decreases |qs|
  {
    if qs != [] {
      assert GrantsNobody(qs[0]);
      NoGrantRun(Exec(s, qs[0]).value, qs[1..]);
    }
  }

  lemma {:induction false} ReplaceGrantsNobody(policy: string, tables: seq<string>, filter: Filter, grantee: string)
    ensures forall i :: 0 <= i < |ReplaceAll(policy, tables, filter, grantee)| ==>
              GrantsNobody(ReplaceAll(policy, tables, filter, grantee)[i])
  {
    if tables != [] { ReplaceGrantsNobody(policy, tables[1..], filter, grantee); }
  }

  lemma {:induction false} GrantsKeepPolicies(s: Server, qs: seq<Statement>)
    requires ExecAll(s, qs).Some? && forall i :: 0 <= i < |qs| ==> qs[i].GrantRole? || qs[i].DefaultRoleNone?
    ensures ExecAll(s, qs).value.policies == s.policies
    decreases |qs|
  {
    if qs != [] {
      assert qs[0].GrantRole? || qs[0].DefaultRoleNone?;
      GrantsKeepPolicies(Exec(s, qs[0]).value, qs[1..]);
    }
  }

  lemma PoliciesStand(p: Plan, s: Server, organization: string)
    requires RoleName(organization) !in s.users
    ensures var z := ExecAll(s, OrganizationPolicyDdl(organization, p.tenant));
            z.Some? && Holds(z.value, IsoName(organization), p.tenant, IsoPolicy(organization))
  {
    var role := RoleName(organization);
    var a := [CreateRoleIfNotExists(role), GrantSelect(role)];
    var b := ReplaceAll(IsoName(organization), p.tenant, OrganizationIs(organization), role);
    var s1, q := WithRole(s, role), IsoPolicy(organization);
    RoleRuns(s, role);
    ReplaceAllRuns(s1, IsoName(organization), p.tenant, OrganizationIs(organization), role);
    ExecThen(s, a, s1, b, s1.(policies := Overlay(s1.policies, IsoName(organization), p.tenant, q)));
    hide ExecAll;
    forall t | t in p.tenant
      ensures var ps := Overlay(s1.policies, IsoName(organization), p.tenant, q);
              (IsoName(organization), t) in ps && ps[(IsoName(organization), t)] == q
    {
      OverlayHolds(s1.policies, IsoName(organization), p.tenant, q, t);
    }
  }

  /**
   Role, then policies, then the grant to the reader: wherever the pass of one organization stops, a reader that has
   come to hold the organization's role finds every one of its predicate policies in place.
   */
  lemma GrantComesLast(p: Plan, s: Server, organization: string, k: nat)
    requires RoleName(organization) !in s.users && p.reader.Some?
    requires k <= |OrganizationDdl(p, organization)| && ExecAll(s, OrganizationDdl(p, organization)[..k]).Some?
    ensures var z := ExecAll(s, OrganizationDdl(p, organization)[..k]).value;
            (RoleName(organization), p.reader.value) in z.roleGrants - s.roleGrants ==>
              Holds(z, IsoName(organization), p.tenant, IsoPolicy(organization))
  {
    var a := OrganizationPolicyDdl(organization, p.tenant);
    var c := ReadIdentityRoleGrantDdl(organization, p.reader.value);
    var qs := OrganizationDdl(p, organization);
    assert qs == a + c;
    PoliciesStand(p, s, organization);
    PolicyDdlGrantsNobody(p, organization);
    assert forall i :: 0 <= i < |c| ==> c[i].GrantRole? || c[i].DefaultRoleNone?;
    hide ExecAll, OrganizationPolicyDdl, ReadIdentityRoleGrantDdl, Holds, OrganizationDdl;
    if k <= |a| {
      assert qs[..k] == a[..k];
      NoGrantRun(s, a[..k]);
    } else {
      assert qs[..k] == a + c[..k - |a|];
      ExecConcat(s, a, c[..k - |a|]);
      GrantsKeepPolicies(ExecAll(s, a).value, c[..k - |a|]);
      SamePolicies(ExecAll(s, a).value, ExecAll(s, qs[..k]).value, IsoName(organization), p.tenant,
                   IsoPolicy(organization));
    }
  }

  lemma PolicyDdlGrantsNobody(p: Plan, organization: string)
    ensures var a := OrganizationPolicyDdl(organization, p.tenant);
            forall i :: 0 <= i < |a| ==> GrantsNobody(a[i])
  {
    ReplaceGrantsNobody(IsoName(organization), p.tenant, OrganizationIs(organization), RoleName(organization));
    hide ReplaceAll;
  }

  lemma SamePolicies(s: Server, z: Server, policy: string, tables: seq<string>, q: Policy)
    requires s.policies == z.policies && Holds(s, policy, tables, q)
    ensures Holds(z, policy, tables, q)
  {
  }
}
