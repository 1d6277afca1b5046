/**
 The row-policy statements of the ClickHouse provisioning package, over a model of the server they run on.

 Statements are values rather than SQL text. A grantee is resolved when the statement runs, a login before
 a role, and an unknown one makes the statement fail. Row policies are permissive: those that apply to an
 identity combine with OR, and an identity to which none applies sees every row.
 */
module RowPolicies {
  import opened Strings
  import opened Wrappers

  datatype Grantee = User(name: string) | Role(name: string)
  datatype Filter = Zero | One | OrganizationIs(id: string)
  datatype Target = Everyone | Named(grantees: set<Grantee>)
  datatype Policy = Policy(filter: Filter, target: Target)

  /** A policy is identified by its short name and its table. */
  type PolicyKey = (string, string)

  datatype Server = Server(
    users: set<string>,
    roles: set<string>,
    policies: map<PolicyKey, Policy>,
    roleGrants: set<(string, string)>,
    selectGrants: set<Grantee>,
    defaultRoleNone: set<string>)

  datatype To = ToAll | ToName(name: string)

  datatype Statement =
    | CreatePolicyIfNotExists(policy: string, table: string, filter: Filter, to: To)
    | DropPolicyIfExists(policy: string, table: string)
    | CreatePolicy(policy: string, table: string, filter: Filter, to: To)
    | CreateRoleIfNotExists(role: string)
    | DropRoleIfExists(role: string)
    | GrantSelect(role: string)
    | GrantRole(role: string, user: string)
    | DefaultRoleNone(user: string)

  // ---- The server ----

  function Resolve(s: Server, name: string): Option<Grantee> {
    if name in s.users then Some(User(name))
    else if name in s.roles then Some(Role(name))
    else None
  }

  function ResolveTarget(s: Server, to: To): Option<Target> {
    match to
    case ToAll => Some(Everyone)
    case ToName(name) =>
      var g := Resolve(s, name);
      if g.Some? then Some(Named({g.value})) else None
  }

  function WithoutRole(t: Target, role: string): Target {
    if t.Named? then Named(t.grantees - {Role(role)}) else t
  }

  function DropRole(s: Server, role: string): Server {
    s.(roles := s.roles - {role},
       policies := (map k | k in s.policies :: Policy(s.policies[k].filter, WithoutRole(s.policies[k].target, role))),
       roleGrants := (set g | g in s.roleGrants && g.0 != role),
       selectGrants := s.selectGrants - {Role(role)})
  }

  /** A grant may join the login's default roles, so only `DEFAULT ROLE NONE` afterwards settles that. */
  function Exec(s: Server, q: Statement): Option<Server> {
    match q
    case CreatePolicyIfNotExists(policy, table, filter, to) =>
      var t := ResolveTarget(s, to);
      if t.None? then None
      else if (policy, table) in s.policies then Some(s)
      else Some(s.(policies := s.policies[(policy, table) := Policy(filter, t.value)]))
    case DropPolicyIfExists(policy, table) =>
      Some(s.(policies := s.policies - {(policy, table)}))
    case CreatePolicy(policy, table, filter, to) =>
      var t := ResolveTarget(s, to);
      if t.None? || (policy, table) in s.policies then None
      else Some(s.(policies := s.policies[(policy, table) := Policy(filter, t.value)]))
    case CreateRoleIfNotExists(role) => Some(s.(roles := s.roles + {role}))
    case DropRoleIfExists(role) => Some(if role in s.roles then DropRole(s, role) else s)
    case GrantSelect(role) =>
      var g := Resolve(s, role);
      if g.None? then None else Some(s.(selectGrants := s.selectGrants + {g.value}))
    case GrantRole(role, user) =>
      if role !in s.roles || user !in s.users then None
      else Some(s.(roleGrants := s.roleGrants + {(role, user)}, defaultRoleNone := s.defaultRoleNone - {user}))
    case DefaultRoleNone(user) =>
      if user !in s.users then None else Some(s.(defaultRoleNone := s.defaultRoleNone + {user}))
  }

  function ExecAll(s: Server, qs: seq<Statement>): Option<Server>
    decreases |qs|
  {
    if qs == [] then Some(s)
    else
      var r := Exec(s, qs[0]);
      if r.None? then None else ExecAll(r.value, qs[1..])
  }

  lemma {:induction false} ExecConcat(s: Server, a: seq<Statement>, b: seq<Statement>)
    ensures ExecAll(s, a + b) == var r := ExecAll(s, a); if r.None? then None else ExecAll(r.value, b)
    decreases |a|
  {
    if a == [] {
      assert a + b == b;
    } else {
      assert (a + b)[1..] == a[1..] + b;
      var r := Exec(s, a[0]);
      if r.Some? { ExecConcat(r.value, a[1..], b); }
    }
  }

  /** Two programs in a row. */
  lemma ExecThen(s: Server, a: seq<Statement>, m: Server, b: seq<Statement>, z: Server)
    requires ExecAll(s, a) == Some(m) && ExecAll(m, b) == Some(z)
    ensures ExecAll(s, a + b) == Some(z)
  {
    ExecConcat(s, a, b);
  }

  lemma ExecOne(s: Server, a: Statement)
    ensures ExecAll(s, [a]) == Exec(s, a)
  {
    assert [a][1..] == [];
  }

  lemma ExecTwo(s: Server, a: Statement, b: Statement)
    ensures ExecAll(s, [a, b]) == var r := Exec(s, a); if r.None? then None else Exec(r.value, b)
  {
    assert [a, b][1..] == [b];
    if Exec(s, a).Some? { ExecOne(Exec(s, a).value, b); }
  }

  lemma ExecPrefix(s: Server, qs: seq<Statement>, k: nat)
    requires k <= |qs| && ExecAll(s, qs).Some?
    ensures ExecAll(s, qs[..k]).Some?
  {
    ExecConcat(s, qs[..k], qs[k..]);
    assert qs[..k] + qs[k..] == qs;
  }

  // ---- Who sees what ----

  /** A query: who runs it, and the role it asks for. */
  datatype Session = Session(user: string, role: Option<string>)

  datatype Row = Row(table: string, organization: Option<string>)

  ghost function Active(s: Server, who: Session): set<string> {
    if who.role.Some? then {who.role.value}
    else if who.user in s.defaultRoleNone then {}
    else set g | g in s.roleGrants && g.1 == who.user :: g.0
  }

  ghost predicate Applies(s: Server, who: Session, p: Policy) {
    match p.target
    case Everyone => true
    case Named(gs) => User(who.user) in gs || exists r :: r in Active(s, who) && Role(r) in gs
  }

  predicate Matches(f: Filter, row: Row) {
    match f
    case Zero => false
    case One => true
    case OrganizationIs(id) => row.organization == Some(id)
  }

  ghost predicate AppliesTo(s: Server, who: Session, k: PolicyKey, row: Row) {
    k in s.policies && k.1 == row.table && Applies(s, who, s.policies[k])
  }

  ghost predicate Sees(s: Server, who: Session, row: Row) {
    || (forall k :: !AppliesTo(s, who, k, row))
    || (exists k :: AppliesTo(s, who, k, row) && Matches(s.policies[k].filter, row))
  }

  // ---- Names ----

  predicate SafeChar(c: char) {
    'A' <= c <= 'Z' || 'a' <= c <= 'z' || '0' <= c <= '9' || c == '_' || c == '-'
  }

  predicate SafeId(v: string) {
    v != [] && forall i :: 0 <= i < |v| ==> SafeChar(v[i])
  }

  predicate GranteeKeyword(v: string) {
    Lower(v) == "all" || Lower(v) == "none" || Lower(v) == "current_user"
  }

  predicate Acceptable(v: string) {
    SafeId(v) && !GranteeKeyword(v)
  }

  predicate Quotable(v: string) {
    v != [] && forall i :: 0 <= i < |v| ==> v[i] != '`' && v[i] != '\\'
  }

  predicate AllQuotable(tables: seq<string>) {
    forall i :: 0 <= i < |tables| ==> Quotable(tables[i])
  }

  function RoleName(organization: string): string {
    "org_" + organization
  }

  function RoleNameFor(organization: string): Option<string> {
    if Acceptable(organization) then Some(RoleName(organization)) else None
  }

  function IsoName(organization: string): string {
    "iso_" + RoleName(organization)
  }

  const DENY := "deny_uncovered"
  const SHARED := "shared_all"
  const INGEST := "ingest_all"

  /** Two organizations never share a role, nor a policy name. */
  lemma RoleNamesAreInjective(a: string, b: string)
    requires RoleNameFor(a).Some? && RoleNameFor(b).Some? && a != b
    ensures RoleNameFor(a) != RoleNameFor(b) && IsoName(a) != IsoName(b)
  {
    assert RoleName(a)[4..] == a && RoleName(b)[4..] == b;
    assert IsoName(a)[4..] == RoleName(a) && IsoName(b)[4..] == RoleName(b);
  }

  lemma FamiliesDiffer(organization: string)
    ensures IsoName(organization) != DENY && IsoName(organization) != SHARED && IsoName(organization) != INGEST
    ensures DENY != SHARED && DENY != INGEST && SHARED != INGEST
  {
    assert IsoName(organization)[1] == 's' && DENY[1] == 'e' && SHARED[1] == 'h' && INGEST[1] == 'n';
  }

  // ---- The statement lists ----

  function CatchAllDenyDdl(tables: seq<string>): seq<Statement> {
    seq(|tables|, i requires 0 <= i < |tables| => CreatePolicyIfNotExists(DENY, tables[i], Zero, ToAll))
  }

  function SharedObjects(all: seq<string>, shared: set<string>): seq<string> {
    if all == [] then []
    else (if all[0] in shared then [all[0]] else []) + SharedObjects(all[1..], shared)
  }

  function SharedObjectAllowDdl(all: seq<string>, shared: set<string>): seq<Statement> {
    var tables := SharedObjects(all, shared);
    seq(|tables|, i requires 0 <= i < |tables| => CreatePolicyIfNotExists(SHARED, tables[i], One, ToAll))
  }

  function ReplaceRowPolicy(policy: string, table: string, filter: Filter, grantee: string): seq<Statement> {
    [DropPolicyIfExists(policy, table), CreatePolicy(policy, table, filter, ToName(grantee))]
  }

  function ReplaceAll(policy: string, tables: seq<string>, filter: Filter, grantee: string): seq<Statement> {
    if tables == [] then []
    else ReplaceRowPolicy(policy, tables[0], filter, grantee) + ReplaceAll(policy, tables[1..], filter, grantee)
  }

  function IngestIdentityDdl(user: string, tables: seq<string>): seq<Statement> {
    ReplaceAll(INGEST, tables, One, user)
  }

  function OrganizationPolicyDdl(organization: string, tenant: seq<string>): seq<Statement> {
    [CreateRoleIfNotExists(RoleName(organization)), GrantSelect(RoleName(organization))] +
    ReplaceAll(IsoName(organization), tenant, OrganizationIs(organization), RoleName(organization))
  }

  function ReadIdentityRoleGrantDdl(organization: string, user: string): seq<Statement> {
    [GrantRole(RoleName(organization), user), DefaultRoleNone(user)]
  }

  function OrganizationPolicyDropDdl(organization: string, tables: seq<string>): seq<Statement> {
    seq(|tables|, i requires 0 <= i < |tables| => DropPolicyIfExists(IsoName(organization), tables[i])) +
    [DropRoleIfExists(RoleName(organization))]
  }

  /** One provisioning configuration: the coverage sets read off the server and the two identities. */
  datatype Plan = Plan(
    all: seq<string>,
    tenant: seq<string>,
    shared: set<string>,
    service: string,
    reader: Option<string>)

  function BaselineDdl(p: Plan): seq<Statement> {
    CatchAllDenyDdl(p.all) + SharedObjectAllowDdl(p.all, p.shared) + IngestIdentityDdl(p.service, p.all) +
    (if p.reader.Some? then [DefaultRoleNone(p.reader.value)] else [])
  }

  function OrganizationDdl(p: Plan, organization: string): seq<Statement> {
    OrganizationPolicyDdl(organization, p.tenant) +
    (if p.reader.Some? then ReadIdentityRoleGrantDdl(organization, p.reader.value) else [])
  }

  function OrganizationsDdl(p: Plan, organizations: seq<string>): seq<Statement> {
    if organizations == [] then []
    else OrganizationDdl(p, organizations[0]) + OrganizationsDdl(p, organizations[1..])
  }

  function ReprovisionDdl(p: Plan, organizations: seq<string>): seq<Statement> {
    BaselineDdl(p) + OrganizationsDdl(p, organizations)
  }

  /** The permissive-policy guard: every policy naming the login is a tenant predicate. */
  predicate NoPermissivePolicy(s: Server, user: string) {
    forall k :: k in s.policies && s.policies[k].target.Named? ==>
      forall g :: g in s.policies[k].target.grantees && g.name == user ==> s.policies[k].filter.OrganizationIs?
  }
}
