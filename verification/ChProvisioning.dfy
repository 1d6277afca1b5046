/** The provisioning passes as programs that change the server one statement at a time. */
module ChProvisioning {
  import opened Wrappers
  import opened RowPolicies
  import opened RowPolicyIsolation

  datatype Refusal =
    | MissingTenantTables | SharedCarriesTenantColumn | UnsafeName | SameIdentity
    | ServiceMissing | ReaderMissing | ReaderHasPermissivePolicy | RolesMissing
    | StatementFailed | DefaultRolesActive

  /** A server behind a connection that carries `linkLeft` more statements before it drops. */
  class ClickHouse {
    var server: Server
    var linkLeft: nat

    constructor (s: Server, link: nat)
      ensures server == s && linkLeft == link
    {
      server, linkLeft := s, link;
    }

    method Execute(q: Statement) returns (ok: bool)
      modifies this
      ensures ok <==> old(linkLeft) > 0 && Exec(old(server), q).Some?
      ensures server == if ok then Exec(old(server), q).value else old(server)
      ensures linkLeft == if old(linkLeft) > 0 then old(linkLeft) - 1 else 0
    {
      if linkLeft == 0 { return false; }
      linkLeft := linkLeft - 1;
      var r := Exec(server, q);
      ok := r.Some?;
      if ok { server := r.value; }
    }

    /** Runs the list in order and stops at the first failure. */
    method RunAll(qs: seq<Statement>) returns (done: nat)
      modifies this
      ensures done <= |qs|
      ensures ExecAll(old(server), qs[..done]) == Some(server)
      ensures done == |qs| ==> linkLeft == old(linkLeft) - |qs|
      ensures old(linkLeft) >= |qs| && ExecAll(old(server), qs).Some? ==> done == |qs|
    {
      done := 0;
      while done < |qs|
        invariant done <= |qs|
        invariant ExecAll(old(server), qs[..done]) == Some(server)
        invariant linkLeft == old(linkLeft) - done
      {
        RunsOneMore(old(server), qs, done);
        var ok := Execute(qs[done]);
        if !ok { return; }
        done := done + 1;
      }
    }
  }

  lemma RunsOneMore(s: Server, qs: seq<Statement>, k: nat)
    requires k < |qs| && ExecAll(s, qs[..k]).Some?
    ensures ExecAll(s, qs[..k + 1]) == Exec(ExecAll(s, qs[..k]).value, qs[k])
    ensures ExecAll(s, qs).Some? ==> Exec(ExecAll(s, qs[..k]).value, qs[k]).Some?
  {
    ExecConcat(s, qs[..k], [qs[k]]);
    ExecOne(ExecAll(s, qs[..k]).value, qs[k]);
    assert qs[..k] + [qs[k]] == qs[..k + 1];
    if ExecAll(s, qs).Some? { ExecPrefix(s, qs, k + 1); }
  }

  /** The first guard of the baseline that fails; all of them run before any statement. */
  function BaselineRefusal(p: Plan, known: set<string>, s: Server): Option<Refusal> {
    if exists t :: t in known && t !in p.tenant then Some(MissingTenantTables)
    else if exists t :: t in p.shared && t in p.tenant then Some(SharedCarriesTenantColumn)
    else if !Acceptable(p.service) || !AllQuotable(p.all) || (p.reader.Some? && !Acceptable(p.reader.value))
        then Some(UnsafeName)
    else if p.reader == Some(p.service) then Some(SameIdentity)
    else if p.service !in s.users then Some(ServiceMissing)
    else if p.reader.Some? && p.reader.value !in s.users then Some(ReaderMissing)
    else if p.reader.Some? && !NoPermissivePolicy(s, p.reader.value) then Some(ReaderHasPermissivePolicy)
    else None
  }

  /** What has to hold before anything may be applied. */
  ghost predicate SafeToStart(p: Plan, known: set<string>, s: Server) {
    && known <= (set t | t in p.tenant) && (forall t :: t in p.shared ==> t !in p.tenant)
    && Acceptable(p.service) && AllQuotable(p.all) && p.service in s.users
    && (p.reader.Some? ==>
          && Acceptable(p.reader.value) && p.reader.value in s.users && p.reader.value != p.service
          && NoPermissivePolicy(s, p.reader.value))
  }

  /** The guards together let a pass through exactly when it is safe; a reader is refused for a policy at fault. */
  lemma GuardsAreExact(p: Plan, known: set<string>, s: Server)
    ensures BaselineRefusal(p, known, s).None? <==> SafeToStart(p, known, s)
    ensures BaselineRefusal(p, known, s) == Some(ReaderHasPermissivePolicy) ==>
              && p.reader.Some? && p.reader.value != p.service && p.service in s.users && p.reader.value in s.users
              && exists k, g :: k in s.policies && s.policies[k].target.Named? && g in s.policies[k].target.grantees
                  && g.name == p.reader.value && !s.policies[k].filter.OrganizationIs?
    ensures SafeToStart(p, known, s) && p.reader.Some? ==>
              forall k, g ::
                (k in s.policies && s.policies[k].target.Named? && g in s.policies[k].target.grantees
                 && g.name == p.reader.value) ==> s.policies[k].filter.OrganizationIs?
  {
    hide Acceptable, AllQuotable;
  }

  /** A pass that may start has a reader that the isolation theorems apply to. */
  lemma SafeIsGuarded(p: Plan, known: set<string>, s: Server)
    requires SafeToStart(p, known, s) && Coherent(p)
    ensures Guarded(p, s) && (p.reader.Some? ==> NoPermissivePolicy(s, p.reader.value))
  {
    hide Acceptable, AllQuotable, NoPermissivePolicy;
  }

  /** `fetchPolicyObjects` reads tenant tables and all tables of one database. */
  predicate Coherent(p: Plan) {
    forall t :: t in p.tenant ==> t in p.all
  }

  /** The server is where some prefix of the program leaves it. */
  ghost predicate AtCrashPoint(was: Server, program: seq<Statement>, done: nat, s: Server) {
    done <= |program| && ExecAll(was, program[..done]) == Some(s)
  }

  /** A crash point of a longer program: everything of `a` ran, and `k` statements of `b`. */
  lemma CrashPointThen(was: Server, a: seq<Statement>, m: Server, b: seq<Statement>, k: nat, z: Server)
    requires ExecAll(was, a) == Some(m) && AtCrashPoint(m, b, k, z)
    ensures AtCrashPoint(was, a + b, |a| + k, z)
  {
    ExecThen(was, a, m, b[..k], z);
    assert (a + b)[..|a| + k] == a + b[..k];
  }

  /** A crash point of the beginning of a program is one of the whole program. */
  lemma CrashPointOfMore(was: Server, a: seq<Statement>, b: seq<Statement>, k: nat, z: Server)
    requires AtCrashPoint(was, a, k, z)
    ensures AtCrashPoint(was, a + b, k, z)
  {
    assert (a + b)[..k] == a[..k];
  }

  /** One list of a longer program, of which `before` has already run since the server was `was`. */
  method RunStage(
    c: ClickHouse, qs: seq<Statement>,
    ghost was: Server, ghost total: nat, ghost before: seq<Statement>, ghost rest: seq<Statement>)
    returns (ok: bool, ghost done: nat)
    requires ExecAll(was, before) == Some(c.server) && c.linkLeft == total - |before|
    modifies c
    ensures AtCrashPoint(was, before + qs + rest, done, c.server)
    ensures ok ==>
        done == |before + qs| && ExecAll(was, before + qs) == Some(c.server) && c.linkLeft == total - |before + qs|
    ensures !ok ==> done < |before + qs|
    ensures total >= |before + qs + rest| && ExecAll(was, before + qs + rest).Some? ==> ok
  {
    ghost var m := c.server;
    ExecConcat(was, before, qs);
    ExecConcat(was, before + qs, rest);
    var n := c.RunAll(qs);
    done := |before| + n;
    CrashPointThen(was, before, m, qs, n, c.server);
    CrashPointOfMore(was, before + qs, rest, done, c.server);
    ok := n == |qs|;
    if ok { assert (before + qs)[..done] == before + qs; }
  }

  /** The whole pass leaves the server at a crash point of its program, and untouched when a guard refuses. */
  method ApplyRowPolicyBaseline(
    c: ClickHouse, p: Plan, known: set<string>) returns (r: Option<Refusal>, ghost done: nat)
    modifies c
    ensures AtCrashPoint(old(c.server), BaselineDdl(p), done, c.server)
    ensures BaselineRefusal(p, known, old(c.server)).Some? ==>
        r == BaselineRefusal(p, known, old(c.server)) && done == 0
    ensures BaselineRefusal(p, known, old(c.server)).None? ==>
        r == if done < |BaselineDdl(p)| then Some(StatementFailed) else None
    ensures BaselineRefusal(p, known, old(c.server)).None? && Coherent(p) && old(c.linkLeft) >= |BaselineDdl(p)| ==>
        r.None?
    ensures r.None? ==> c.linkLeft == old(c.linkLeft) - |BaselineDdl(p)|
    ensures r.None? ==> SafeToStart(p, known, old(c.server))
    ensures !SafeToStart(p, known, old(c.server)) ==> r.Some? && done == 0 && c.server == old(c.server)
  {
    done := 0;
    GuardsAreExact(p, known, c.server);
    hide SafeToStart, NoPermissivePolicy, Acceptable, AllQuotable;
    r := BaselineRefusal(p, known, c.server);
    if r.Some? { return; }
    ghost var was, total := c.server, c.linkLeft;
    var q1, q2, q3 := CatchAllDenyDdl(p.all), SharedObjectAllowDdl(p.all, p.shared),
        IngestIdentityDdl(p.service, p.all);
    var q4: seq<Statement> := if p.reader.Some? then [DefaultRoleNone(p.reader.value)] else [];
    if Coherent(p) { BaselineRuns(p, was); }
    Regroup(q1, q2, q3, q4);
    var ok;
    ok, done := RunStage(c, q1, was, total, [], q2 + q3 + q4);
    if !ok { return Some(StatementFailed), done; }
    ok, done := RunStage(c, q2, was, total, q1, q3 + q4);
    if !ok { return Some(StatementFailed), done; }
    ok, done := RunStage(c, q3, was, total, q1 + q2, q4);
    if !ok { return Some(StatementFailed), done; }
    ok, done := RunStage(c, q4, was, total, q1 + q2 + q3, []);
    if !ok { r := Some(StatementFailed); }
  }

  lemma Regroup(a: seq<Statement>, b: seq<Statement>, c: seq<Statement>, d: seq<Statement>)
    ensures [] + a == a && a + (b + c + d) == a + b + c + d
    ensures a + b + (c + d) == a + b + c + d
    ensures a + b + c + d + [] == a + b + c + d
  {
  }

  predicate AllAcceptable(organizations: seq<string>) {
    forall i :: 0 <= i < |organizations| ==> Acceptable(organizations[i])
  }

  /** The per-organization loop, after a baseline that took the server from `was` to where it is. */
  method ProvisionEach(
    c: ClickHouse, p: Plan, organizations: seq<string>, ghost was: Server, ghost total: nat,
        ghost baseline: seq<Statement>)
    returns (r: Option<Refusal>, ghost done: nat)
    requires ExecAll(was, baseline) == Some(c.server) && c.linkLeft == total - |baseline|
    modifies c
    ensures AtCrashPoint(was, baseline + OrganizationsDdl(p, organizations), done, c.server)
    ensures r.None? ==> done == |baseline + OrganizationsDdl(p, organizations)| && AllAcceptable(organizations)
    ensures AllAcceptable(organizations) && ExecAll(was, baseline + OrganizationsDdl(p, organizations)).Some? ==>
              total >= |baseline + OrganizationsDdl(p, organizations)| ==> r.None?
  {
    hide ExecAll, OrganizationDdl, Acceptable;
    ghost var before := baseline;
    ghost var program := baseline + OrganizationsDdl(p, organizations);
    assert organizations[0..] == organizations;
    var i := 0;
    while i < |organizations|
      invariant 0 <= i <= |organizations|
      invariant ExecAll(was, before) == Some(c.server) && c.linkLeft == total - |before|
      invariant program == before + OrganizationsDdl(p, organizations[i..])
      invariant AllAcceptable(organizations[..i])
    {
      if !Acceptable(organizations[i]) {
        assert program[..|before|] == before;
        return Some(UnsafeName), |before|;
      }
      var qs := OrganizationDdl(p, organizations[i]);
      ghost var rest := OrganizationsDdl(p, organizations[i + 1..]);
      assert organizations[i..][1..] == organizations[i + 1..];
      assert program == before + qs + rest;
      var ok;
      ok, done := RunStage(c, qs, was, total, before, rest);
      if !ok { return Some(StatementFailed), done; }
      before := before + qs;
      i := i + 1;
    }
    assert program == before && program[..|before|] == before;
    assert organizations[..i] == organizations;
    return None, |before|;
  }

  /**
   The re-provisioning entry point. Wherever it stops, the server is at a crash point of the one program the
   isolation theorem is about; it succeeds exactly when every guard passes, every organization id is
   acceptable and the connection lasts. Nothing is assumed of the reader's own policies: where the pass applied
   anything the reader stays isolated, and where it succeeded the reader sees exactly one organization at a time.
   `blanket` are the logins that may hold a permissive policy.
   */
  method ReprovisionOrganizations(
    c: ClickHouse, p: Plan, known: set<string>, organizations: seq<string>, ghost blanket: set<string>)
    returns (r: Option<Refusal>, ghost done: nat)
    requires Coherent(p)
    modifies c
    ensures r.None? ==> SafeToStart(p, known, old(c.server))
    ensures !SafeToStart(p, known, old(c.server)) ==> r.Some? && done == 0 && c.server == old(c.server)
    ensures (r.None? && NoLoginNamedLikeRole(old(c.server).users, organizations)
             && Repairable(p, blanket, old(c.server), organizations) && p.service in blanket) ==>
              ShowsExactly(p, c.server, organizations)
    ensures (done > 0 && NoLoginNamedLikeRole(old(c.server).users, organizations)
             && WellFormed(p, blanket, old(c.server)) && p.service in blanket) ==>
              ReaderIsolated(p, c.server)
    ensures AtCrashPoint(old(c.server), ReprovisionDdl(p, organizations), done, c.server)
    ensures BaselineRefusal(p, known, old(c.server)).Some? ==>
        r == BaselineRefusal(p, known, old(c.server)) && done == 0
    ensures r.None? ==> done == |ReprovisionDdl(p, organizations)| && AllAcceptable(organizations)
    ensures BaselineRefusal(p, known, old(c.server)).None? && AllAcceptable(organizations) ==>
              old(c.linkLeft) >= |ReprovisionDdl(p, organizations)| ==> r.None?
  {
    ghost var was, total := c.server, c.linkLeft;
    r, done := ApplyRowPolicyBaseline(c, p, known);
    ghost var before := BaselineDdl(p);
    ghost var program := ReprovisionDdl(p, organizations);
    if r.Some? {
      CrashPointOfMore(was, before, OrganizationsDdl(p, organizations), done, c.server);
      StoppedIsIsolated(p, known, blanket, was, organizations, done, c.server);
      return;
    }
    assert before[..done] == before;
    SafeIsGuarded(p, known, was);
    ReprovisionNeverFails(p, was, organizations);
    r, done := ProvisionEach(c, p, organizations, was, total, before);
    StoppedIsIsolated(p, known, blanket, was, organizations, done, c.server);
    FinishedShows(p, known, blanket, was, organizations, done, c.server);
  }

  /** On every table that carries the deny, the reader reads only shared rows and those of its active role. */
  ghost predicate ReaderIsolated(p: Plan, s: Server) {
    forall role, row: Row :: p.reader.Some? && Denied(s, row.table) ==>
      Isolated(p, s, Session(p.reader.value, role), row)
  }

  lemma StoppedIsIsolated(
    p: Plan, known: set<string>, blanket: set<string>, was: Server, organizations: seq<string>, done: nat, z: Server)
    requires Coherent(p) && AtCrashPoint(was, ReprovisionDdl(p, organizations), done, z)
    ensures (SafeToStart(p, known, was) && NoLoginNamedLikeRole(was.users, organizations)
             && WellFormed(p, blanket, was) && p.service in blanket) ==>
              ReaderIsolated(p, z)
  {
    if SafeToStart(p, known, was) && NoLoginNamedLikeRole(was.users, organizations)
        && WellFormed(p, blanket, was) && p.service in blanket
    {
      SafeIsGuarded(p, known, was);
      hide SafeToStart, NoLoginNamedLikeRole, WellFormed, Guarded, Isolated, NoPermissivePolicy, Denied, ExecAll;
      forall role, row: Row | p.reader.Some? && Denied(z, row.table)
        ensures Isolated(p, z, Session(p.reader.value, role), row)
      {
        ReaderIsolatedAtEveryCrashPoint(p, blanket, was, organizations, done, role, row);
      }
    }
  }

  lemma FinishedShows(
    p: Plan, known: set<string>, blanket: set<string>, was: Server, organizations: seq<string>, done: nat, z: Server)
    requires Coherent(p) && SafeToStart(p, known, was)
    requires AtCrashPoint(was, ReprovisionDdl(p, organizations), done, z)
    ensures (done == |ReprovisionDdl(p, organizations)| && NoLoginNamedLikeRole(was.users, organizations)
             && Repairable(p, blanket, was, organizations) && p.service in blanket) ==>
              ShowsExactly(p, z, organizations)
  {
    SafeIsGuarded(p, known, was);
    hide SafeToStart, NoLoginNamedLikeRole, Repairable, Guarded, ShowsExactly, NoPermissivePolicy, ExecAll;
    if NoLoginNamedLikeRole(was.users, organizations) && Repairable(p, blanket, was, organizations)
        && p.service in blanket
    {
      ReprovisionNeverFails(p, was, organizations);
      ProvisionedShows(p, blanket, was, organizations);
      var qs := ReprovisionDdl(p, organizations);
      assert qs[..|qs|] == qs;
    }
  }

  // ---- Granting the roles to a reader that was created later ----

  datatype RetrofitReport = RetrofitReport(
    readIdentity: Option<string>,
    granted: seq<string>,
    alreadyHeld: seq<string>,
    defaultRoleReasserted: bool,
    defaultRolesAll: Option<int>,
    unpolicied: seq<(string, seq<string>)>,
    statements: nat)

  function RetrofitRefusal(p: Plan, known: set<string>, s: Server, organizations: seq<string>): Option<Refusal>
    requires p.reader.Some?
  {
    if !AllAcceptable(organizations) || !Acceptable(p.reader.value) then Some(UnsafeName)
    else if p.reader.value == p.service then Some(SameIdentity)
    else if p.reader.value !in s.users then Some(ReaderMissing)
    else if !NoPermissivePolicy(s, p.reader.value) then Some(ReaderHasPermissivePolicy)
    else if exists o :: o in organizations && RoleName(o) !in s.roles then Some(RolesMissing)
    else if organizations != [] && exists t :: t in known && t !in p.tenant then Some(MissingTenantTables)
    else None
  }

  /** What has to hold before anything may be granted. */
  ghost predicate SafeToGrant(p: Plan, known: set<string>, s: Server, organizations: seq<string>)
    requires p.reader.Some?
  {
    && AllAcceptable(organizations) && Acceptable(p.reader.value)
    && p.reader.value != p.service && p.reader.value in s.users && NoPermissivePolicy(s, p.reader.value)
    && (forall o :: o in organizations ==> RoleName(o) in s.roles)
    && (organizations != [] ==> known <= (set t | t in p.tenant))
  }

  lemma RetrofitGuardsAreExact(p: Plan, known: set<string>, s: Server, organizations: seq<string>)
    requires p.reader.Some?
    ensures RetrofitRefusal(p, known, s, organizations).None? <==> SafeToGrant(p, known, s, organizations)
  {
    hide Acceptable, AllAcceptable, NoPermissivePolicy, RoleName;
  }

  /** The predicate policies that the organization has are its own. */
  ghost predicate IsoTrue(s: Server, organization: string, tenant: seq<string>) {
    forall t :: t in tenant && (IsoName(organization), t) in s.policies ==>
      s.policies[(IsoName(organization), t)] == IsoPolicy(organization)
  }

  /** The whole baseline ran at some time, and no policy is foreign to it. */
  ghost predicate BaselineInPlace(p: Plan, blanket: set<string>, s: Server) {
    WellFormed(p, blanket, s) && forall t :: t in p.tenant ==> Denied(s, t)
  }

  /** Of an organization without a gap the reader then sees exactly the rows, and nothing without a role. */
  lemma GrantedShows(
    p: Plan, blanket: set<string>, was: Server, z: Server, organizations: seq<string>, o: string, row: Row)
    requires p.reader.Some? && z == Granted(was, p.reader.value, organizations)
    requires BaselineInPlace(p, blanket, was) && NoPermissivePolicy(was, p.reader.value) && row.table in p.tenant
    ensures !Sees(z, Session(p.reader.value, None), row)
    ensures Gaps(was, o, p.tenant) == [] && IsoTrue(was, o, p.tenant) ==>
              (Sees(z, Session(p.reader.value, Some(RoleName(o))), row) <==> row.organization == Some(o))
  {
    var reader := p.reader.value;
    assert WellFormed(p, blanket - {reader}, z);
    var none, scoped := Session(reader, None), Session(reader, Some(RoleName(o)));
    DeniedIsIsolated(p, blanket - {reader}, z, none, row);
    DeniedIsIsolated(p, blanket - {reader}, z, scoped, row);
    GapsMembers(was, o, p.tenant, row.table);
    hide WellFormed, NoPermissivePolicy, Gaps;
    var k := (IsoName(o), row.table);
    if row.organization == Some(o) {
      if k in was.policies && IsoTrue(was, o, p.tenant) {
        assert AppliesTo(z, scoped, k, row) && Matches(z.policies[k].filter, row);
      }
    } else if row.organization.Some? {
      ForeignRow(o, row);
    }
  }

  /** The organizations whose role the login holds (or does not), in the order given. */
  function Holding(s: Server, user: string, organizations: seq<string>, held: bool): seq<string> {
    if organizations == [] then []
    else (if ((RoleName(organizations[0]), user) in s.roleGrants) == held then [organizations[0]] else []) +
         Holding(s, user, organizations[1..], held)
  }

  lemma {:induction false} HoldingMembers(s: Server, user: string, organizations: seq<string>, held: bool, o: string)
    ensures o in Holding(s, user, organizations, held) <==>
            o in organizations && ((RoleName(o), user) in s.roleGrants) == held
  {
    if organizations != [] { HoldingMembers(s, user, organizations[1..], held, o); }
  }

  /** The tenant tables on which the organization has no predicate policy. */
  function Gaps(s: Server, organization: string, tenant: seq<string>): seq<string> {
    if tenant == [] then []
    else
      var first := if (IsoName(organization), tenant[0]) in s.policies then [] else [tenant[0]];
      first + Gaps(s, organization, tenant[1..])
  }

  lemma {:induction false} GapsMembers(s: Server, organization: string, tenant: seq<string>, t: string)
    ensures t in Gaps(s, organization, tenant) <==> t in tenant && (IsoName(organization), t) !in s.policies
  {
    if tenant != [] { GapsMembers(s, organization, tenant[1..], t); }
  }

  /** The organizations with a gap, each once, as the insertion order of a map of ids leaves them. */
  method FindUnpolicied(
    s: Server, tenant: seq<string>, organizations: seq<string>) returns (gaps: seq<(string, seq<string>)>)
    ensures forall g :: g in gaps ==> g.0 in organizations && g.1 == Gaps(s, g.0, tenant) != []
    ensures forall o :: o in organizations && Gaps(s, o, tenant) != [] ==> (o, Gaps(s, o, tenant)) in gaps
    ensures forall i, j :: 0 <= i < j < |gaps| ==> gaps[i].0 != gaps[j].0
  {
    gaps := [];
    for i := 0 to |organizations|
      invariant forall g :: g in gaps ==> g.0 in organizations[..i] && g.1 == Gaps(s, g.0, tenant) != []
      invariant forall o :: o in organizations[..i] && Gaps(s, o, tenant) != [] ==> (o, Gaps(s, o, tenant)) in gaps
      invariant forall i, j :: 0 <= i < j < |gaps| ==> gaps[i].0 != gaps[j].0
    {
      var tables := Gaps(s, organizations[i], tenant);
      assert organizations[..i + 1] == organizations[..i] + [organizations[i]];
      if organizations[i] !in organizations[..i] && tables != [] {
        gaps := gaps + [(organizations[i], tables)];
      }
    }
  }

  ghost function Granted(s: Server, user: string, organizations: seq<string>): Server {
    s.(roleGrants := s.roleGrants + (set o | o in organizations :: (RoleName(o), user)),
       defaultRoleNone := s.defaultRoleNone + {user})
  }

  /** Nothing but grants to, and default roles of, one login differ. */
  ghost predicate OnlyGrantsTo(was: Server, s: Server, user: string) {
    && s.policies == was.policies && s.users == was.users && s.roles == was.roles && s.selectGrants == was.selectGrants
    && was.roleGrants <= s.roleGrants && (forall g :: g in s.roleGrants - was.roleGrants ==> g.1 == user)
  }

  lemma GrantOne(s: Server, user: string, organization: string)
    requires RoleName(organization) in s.roles && user in s.users
    ensures ExecAll(s, ReadIdentityRoleGrantDdl(organization, user)) == Some(Granted(s, user, [organization]))
  {
    ExecTwo(s, GrantRole(RoleName(organization), user), DefaultRoleNone(user));
    assert s.defaultRoleNone - {user} + {user} == s.defaultRoleNone + {user};
    assert (set o | o in [organization] :: (RoleName(o), user)) == {(RoleName(organization), user)};
  }

  lemma GrantPrefix(s: Server, user: string, organization: string, k: nat)
    requires RoleName(organization) in s.roles && user in s.users && k <= 2
    ensures var z := ExecAll(s, ReadIdentityRoleGrantDdl(organization, user)[..k]);
            z.Some? && OnlyGrantsTo(s, z.value, user)
  {
    var qs := ReadIdentityRoleGrantDdl(organization, user);
    if k == 0 { assert qs[..k] == []; }
    else if k == 1 { assert qs[..k] == [qs[0]]; ExecOne(s, qs[0]); }
    else { assert qs[..k] == qs; GrantOne(s, user, organization); }
  }

  /** The grants, one organization at a time; `was` is where the pass began. */
  method GrantEach(c: ClickHouse, reader: string, granted: seq<string>) returns (ok: bool, statements: nat)
    requires reader in c.server.users
    requires forall o :: o in granted ==> RoleName(o) in c.server.roles
    modifies c
    ensures OnlyGrantsTo(old(c.server), c.server, reader)
    ensures ok ==> c.server.roleGrants == old(c.server).roleGrants + set o | o in granted :: (RoleName(o), reader)
    ensures ok ==> c.server.defaultRoleNone + {reader} == old(c.server).defaultRoleNone + {reader}
    ensures ok ==> statements == 2 * |granted| && c.linkLeft == old(c.linkLeft) - statements
    ensures old(c.linkLeft) >= 2 * |granted| ==> ok
  {
    ghost var was := c.server;
    statements := 0;
    var i := 0;
    while i < |granted|
      invariant i <= |granted| && statements == 2 * i
      invariant OnlyGrantsTo(was, c.server, reader)
      invariant c.server.roleGrants == was.roleGrants + set o | o in granted[..i] :: (RoleName(o), reader)
      invariant c.server.defaultRoleNone + {reader} == was.defaultRoleNone + {reader}
      invariant c.linkLeft == old(c.linkLeft) - statements
    {
      var qs := ReadIdentityRoleGrantDdl(granted[i], reader);
      ghost var m := c.server;
      GrantOne(m, reader, granted[i]);
      var n := c.RunAll(qs);
      GrantPrefix(m, reader, granted[i], n);
      if n < |qs| { return false, statements + n; }
      assert qs[..n] == qs;
      assert granted[..i + 1] == granted[..i] + [granted[i]];
      statements := statements + n;
      i := i + 1;
    }
    assert granted[..i] == granted;
    ok := true;
  }

  const NO_READER: RetrofitReport := RetrofitReport(None, [], [], false, None, [], 0)

  /**
   The retrofit pass: a refusal leaves the server untouched; otherwise no policy changes, the reader ends up
   holding every organization's role with none active by default, and the report names exactly the
   organizations that were missing a grant and those still missing a predicate policy. `readBack` is what the
   server reports of the reader's default roles afterwards: anything but 0 is an error, with the grants applied.
   With the baseline in place, the reader then sees exactly the rows of any one organization that is not reported.
   */
  method RetrofitReadIdentityGrants(
    c: ClickHouse, p: Plan, known: set<string>, organizations: seq<string>, readBack: Option<int>,
    ghost blanket: set<string>)
    returns (r: Result<RetrofitReport, Refusal>)
    modifies c
    ensures p.reader.Some? && r.Ok? ==> SafeToGrant(p, known, old(c.server), organizations)
    ensures p.reader.Some? && !SafeToGrant(p, known, old(c.server), organizations) ==>
              r.Err? && c.server == old(c.server)
    ensures p.reader.Some? && r.Ok? && BaselineInPlace(p, blanket, old(c.server)) ==>
              && (forall row: Row :: row.table in p.tenant ==> !Sees(c.server, Session(p.reader.value, None), row))
              && (forall o, row: Row ::
                    (o in organizations && row.table in p.tenant && IsoTrue(old(c.server), o, p.tenant)
                     && forall g :: g in r.value.unpolicied ==> g.0 != o) ==>
                      (Sees(c.server, Session(p.reader.value, Some(RoleName(o))), row) <==>
                       row.organization == Some(o)))
    ensures p.reader.None? ==> r == Ok(NO_READER) && c.server == old(c.server)
    ensures p.reader.Some? ==> OnlyGrantsTo(old(c.server), c.server, p.reader.value)
    ensures p.reader.Some? && RetrofitRefusal(p, known, old(c.server), organizations).Some? ==>
              r == Err(RetrofitRefusal(p, known, old(c.server), organizations).value) && c.server == old(c.server)
    ensures p.reader.Some? && RetrofitRefusal(p, known, old(c.server), organizations).None? ==>
              || r == Err(StatementFailed)
              || (c.server == Granted(old(c.server), p.reader.value, organizations)
                  && if readBack == Some(0) then r.Ok? else r == Err(DefaultRolesActive))
    ensures p.reader.Some? && RetrofitRefusal(p, known, old(c.server), organizations).None? ==>
              old(c.linkLeft) > 2 * |organizations| ==> r != Err(StatementFailed)
    ensures p.reader.Some? && r.Ok? ==>
              && r.value.readIdentity == p.reader
              && r.value.granted == Holding(old(c.server), p.reader.value, organizations, false)
              && r.value.alreadyHeld == Holding(old(c.server), p.reader.value, organizations, true)
              && r.value.defaultRoleReasserted && r.value.defaultRolesAll == Some(0)
              && r.value.statements == 2 * |r.value.granted| + 1
              && (forall o :: o in organizations ==>
                    ((exists g :: g in r.value.unpolicied && g.0 == o) <==> Gaps(old(c.server), o, p.tenant) != []))
  {
    if p.reader.None? { return Ok(NO_READER); }
    var reader := p.reader.value;
    RetrofitGuardsAreExact(p, known, c.server, organizations);
    var refusal := RetrofitRefusal(p, known, c.server, organizations);
    if refusal.Some? { return Err(refusal.value); }
    ghost var was := c.server;
    var unpolicied := FindUnpolicied(c.server, p.tenant, organizations);
    var granted := Holding(c.server, reader, organizations, false);
    var alreadyHeld := Holding(c.server, reader, organizations, true);
    HoldingBound(was, reader, organizations, false);
    forall o | o in granted ensures RoleName(o) in was.roles { HoldingMembers(was, reader, organizations, false, o); }
    var ok, statements := GrantEach(c, reader, granted);
    if !ok { return Err(StatementFailed); }
    ok := c.Execute(DefaultRoleNone(reader));
    if !ok { return Err(StatementFailed); }
    AllGranted(was, reader, organizations);
    if readBack != Some(0) { return Err(DefaultRolesActive); }
    if BaselineInPlace(p, blanket, was) {
      forall row: Row | row.table in p.tenant ensures !Sees(c.server, Session(reader, None), row) {
        GrantedShows(p, blanket, was, c.server, organizations, "", row);
      }
      forall o, row: Row | row.table in p.tenant && Gaps(was, o, p.tenant) == [] && IsoTrue(was, o, p.tenant)
        ensures Sees(c.server, Session(reader, Some(RoleName(o))), row) <==> row.organization == Some(o)
      {
        GrantedShows(p, blanket, was, c.server, organizations, o, row);
      }
    }
    return Ok(RetrofitReport(Some(reader), granted, alreadyHeld, true, readBack, unpolicied, statements + 1));
  }

  lemma {:induction false} HoldingBound(s: Server, user: string, organizations: seq<string>, held: bool)
    ensures |Holding(s, user, organizations, held)| <= |organizations|
  {
    if organizations != [] { HoldingBound(s, user, organizations[1..], held); }
  }

  lemma AllGranted(s: Server, user: string, organizations: seq<string>)
    ensures s.roleGrants + (set o | o in Holding(s, user, organizations, false) :: (RoleName(o), user))
            == s.roleGrants + (set o | o in organizations :: (RoleName(o), user))
  {
    forall o | o in organizations + Holding(s, user, organizations, false)
      ensures o in Holding(s, user, organizations, false) <==>
              o in organizations && (RoleName(o), user) !in s.roleGrants
    {
      HoldingMembers(s, user, organizations, false, o);
    }
  }
}
