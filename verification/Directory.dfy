/**
 The authority tables of the host: principals, groups, memberships, verified
 claim mappings, project grants, host roles and resource owners, together with
 every administrative transaction that rewrites them.

 A transaction is a function from the tables to a `Change`, or `None` when the
 original raises and the transaction rolls back.
 */
module Directories {
  import opened Options

  type Pid = nat
  type Gid = nat

  datatype Scope =
    | MachineView | TerminalView | TerminalControl | FilesRead | FilesWrite
    | GitRead | GitWrite | DesktopView | DesktopControl | NetworkManage
    | AgentView | AgentRun | AgentControl | AiSettings | HostAdmin

  const SCOPES: set<Scope> := {
    MachineView, TerminalView, TerminalControl, FilesRead, FilesWrite,
    GitRead, GitWrite, DesktopView, DesktopControl, NetworkManage,
    AgentView, AgentRun, AgentControl, AiSettings, HostAdmin }
  const VIEWER: set<Scope> := {MachineView, TerminalView, FilesRead, GitRead, AgentView}
  const OPERATOR: set<Scope> := SCOPES - {HostAdmin, NetworkManage, AiSettings, DesktopView, DesktopControl}
  const EXECUTION: set<Scope> := {TerminalControl, AgentRun}
  const LOCAL_ISSUER := "termx:local"
  const LOCAL_PASSWORD := "local-password"

  datatype Role = Viewer | Operator | Admin | Owner

  function RoleScopes(role: Role): set<Scope> {
    match role
    case Viewer => VIEWER
    case Operator => OPERATOR
    case Admin => SCOPES
    case Owner => SCOPES
  }

  function Rank(role: Role): nat {
    match role
    case Viewer => 0
    case Operator => 1
    case Admin => 2
    case Owner => 3
  }

  datatype Principal = Principal(scopes: set<Scope>, version: nat, enabled: bool)
  datatype Group = Group(role: Role, trusted: bool, revision: nat)
  datatype Source = Administrator | Issuer(name: string)
  datatype Membership = Membership(principal: Pid, group: Gid, source: Source)
  datatype RoleGrant = RoleGrant(role: Role, trusted: bool)
  datatype ProjectGrant = ProjectGrant(scopes: set<Scope>, expires: Option<real>)
  datatype GroupProject = GroupProject(group: Gid, project: string)
  datatype MemberProject = MemberProject(principal: Pid, project: string)
  datatype Claim = Claim(issuer: string, value: string)
  datatype Subject = Subject(issuer: string, subject: string)
  datatype Resource = Resource(kind: string, id: string)
  /** `project` is empty for a resource that belongs to no project. */
  datatype Holder = Holder(principal: Pid, project: string)

  datatype Directory = Directory(
    principals: map<Pid, Principal>,
    groups: map<Gid, Group>,
    memberships: map<Membership, Option<real>>,
    mappings: map<Claim, Gid>,
    groupProjects: map<GroupProject, ProjectGrant>,
    hostRoles: map<Pid, RoleGrant>,
    memberProjects: map<MemberProject, ProjectGrant>,
    owners: map<Resource, Holder>,
    identities: map<Subject, Pid>,
    recovery: map<nat, bool>,
    disabledMethods: set<string>)

  // ---------------------------------------------------------------- reading

  /** An expiry column that is NULL never passes; otherwise it must lie ahead. */
  predicate Current(expires: Option<real>, now: real) {
    expires.None? || now < expires.value
  }

  function MinExpiry(a: Option<real>, b: Option<real>): Option<real> {
    if a.None? then b
    else if b.None? then a
    else Some(if a.value <= b.value then a.value else b.value)
  }

  function MemberGroups(d: Directory, p: Pid, now: real): set<Gid> {
    set m | m in d.memberships && m.principal == p && m.group in d.groups && Current(d.memberships[m], now)
      :: m.group
  }

  /** Account scopes together with the scopes of every current group's role. */
  function EffectiveScopes(d: Directory, p: Pid, now: real): set<Scope> {
    (if p in d.principals then d.principals[p].scopes else {})
    + (set g, s | g in MemberGroups(d, p, now) && g in d.groups && s in RoleScopes(d.groups[g].role) :: s)
  }

  /** The membership is the principal's, current, and of a group whose role has the scope. */
  predicate Confers(d: Directory, p: Pid, m: Membership, s: Scope, now: real) {
    && m in d.memberships && m.principal == p && (d.memberships[m].Some? ==> now < d.memberships[m].value)
    && m.group in d.groups && s in RoleScopes(d.groups[m.group].role)
  }

  /** A scope of the account, or of the role of a group it belongs to now. */
  ghost predicate Holds(d: Directory, p: Pid, s: Scope, now: real) {
    (p in d.principals && s in d.principals[p].scopes) || exists m: Membership :: Confers(d, p, m, s, now)
  }

  lemma ScopesExactly(d: Directory, p: Pid, now: real)
    ensures forall s :: s in EffectiveScopes(d, p, now) <==> Holds(d, p, s, now)
  {
    forall s
      ensures s in EffectiveScopes(d, p, now) <==> Holds(d, p, s, now)
    {
      if g :| g in MemberGroups(d, p, now) && g in d.groups && s in RoleScopes(d.groups[g].role) {
        var m :| m in d.memberships && m.principal == p && m.group == g && Current(d.memberships[m], now);
        assert Confers(d, p, m, s, now);
      }
      if m :| Confers(d, p, m, s, now) { assert m.group in MemberGroups(d, p, now); }
    }
  }

  /** Each role has the scopes of the one below; who may view changes nothing, and only administrators administer. */
  lemma RolesAreNested()
    ensures RoleScopes(Viewer) < RoleScopes(Operator) < RoleScopes(Admin) == RoleScopes(Owner)
    ensures forall s: Scope :: s in RoleScopes(Admin)
    ensures forall s: Scope :: s in RoleScopes(Viewer) <==>
      s == MachineView || s == TerminalView || s == FilesRead || s == GitRead || s == AgentView
    ensures forall s: Scope :: s !in RoleScopes(Operator) <==>
      s == HostAdmin || s == NetworkManage || s == AiSettings || s == DesktopView || s == DesktopControl
  {
    assert TerminalControl in OPERATOR && TerminalControl !in VIEWER && HostAdmin in SCOPES;
    forall s: Scope ensures s in SCOPES { EveryScope(s); }
  }

  lemma EveryScope(s: Scope)
    ensures s in SCOPES
  {
    match s
    case MachineView =>
    case TerminalView =>
    case TerminalControl =>
    case FilesRead =>
    case FilesWrite =>
    case GitRead =>
    case GitWrite =>
    case DesktopView =>
    case DesktopControl =>
    case NetworkManage =>
    case AgentView =>
    case AgentRun =>
    case AgentControl =>
    case AiSettings =>
    case HostAdmin =>
  }

  function RoleGrants(d: Directory, p: Pid, now: real): set<RoleGrant> {
    (if p in d.hostRoles then {d.hostRoles[p]} else {})
    + (set g | g in MemberGroups(d, p, now) && g in d.groups :: RoleGrant(d.groups[g].role, d.groups[g].trusted))
  }

  /** The highest-ranked candidate role, trusted when any candidate is. */
  function HostRole(d: Directory, p: Pid, now: real): Option<RoleGrant> {
    HighestRole(RoleGrants(d, p, now))
  }

  function HighestRole(all: set<RoleGrant>): Option<RoleGrant> {
    if all == {} then None
    else
      var trusted := exists g :: g in all && g.trusted;
      if exists g :: g in all && g.role == Owner then Some(RoleGrant(Owner, trusted))
      else if exists g :: g in all && g.role == Admin then Some(RoleGrant(Admin, trusted))
      else if exists g :: g in all && g.role == Operator then Some(RoleGrant(Operator, trusted))
      else Some(RoleGrant(Viewer, trusted))
  }

  lemma HighestRoleIsHighest(all: set<RoleGrant>)
    ensures HighestRole(all).None? <==> all == {}
    ensures HighestRole(all).Some? ==>
      var best := HighestRole(all).value;
      && (forall g :: g in all ==> Rank(g.role) <= Rank(best.role))
      && (exists g :: g in all && g.role == best.role)
      && (best.trusted <==> exists g :: g in all && g.trusted)
  {
    if all != {} {
      var g :| g in all;
      assert exists h :: h in all && h.role == g.role;
    }
  }

  datatype GrantRow = GrantRow(project: string, scopes: set<Scope>, expires: Option<real>)
  datatype Grant = Grant(scopes: set<Scope>, expires: Option<real>)

  function OwnRows(d: Directory, p: Pid): set<GrantRow> {
    set k | k in d.memberProjects && k.principal == p
      :: GrantRow(k.project, d.memberProjects[k].scopes, d.memberProjects[k].expires)
  }

  function GroupRows(d: Directory, p: Pid, now: real): set<GrantRow> {
    set m, k | m in d.memberships && k in d.groupProjects && m.group == k.group && m.principal == p
                 && Current(d.memberships[m], now) && Current(d.groupProjects[k].expires, now)
      :: GrantRow(k.project, d.groupProjects[k].scopes, MinExpiry(d.groupProjects[k].expires, d.memberships[m]))
  }

  function GrantRows(d: Directory, p: Pid, now: real): set<GrantRow> {
    OwnRows(d, p) + GroupRows(d, p, now)
  }

  // ------------------------------------------------- folding the grant rows

  function Absorb(grants: map<string, Grant>, row: GrantRow, now: real): map<string, Grant> {
    if row.expires.Some? && row.expires.value <= now then grants
    else
      var cur := if row.project in grants then grants[row.project] else Grant({}, None);
      var expires :=
        if row.expires.None? then cur.expires
        // A stored expiry of zero counts as none.
        else if cur.expires.Some? && cur.expires.value != 0.0 && cur.expires.value <= row.expires.value then cur.expires
        else row.expires;
      grants[row.project := Grant(cur.scopes + row.scopes, expires)]
  }

  function FoldGrants(rows: seq<GrantRow>, now: real): map<string, Grant> {
    if rows == [] then map[]
    else Absorb(FoldGrants(rows[..|rows| - 1], now), rows[|rows| - 1], now)
  }

  method CollectGrants(rows: seq<GrantRow>, now: real) returns (grants: map<string, Grant>)
    ensures grants == FoldGrants(rows, now)
  {
    grants := map[];
    for i := 0 to |rows|
      invariant grants == FoldGrants(rows[..i], now)
    {
      assert rows[..i + 1][..i] == rows[..i];
      var row := rows[i];
      if row.expires.Some? && row.expires.value <= now {
        continue;
      }
      var cur := if row.project in grants then grants[row.project] else Grant({}, None);
      var expires := cur.expires;
      if row.expires.Some? {
        var standing := if cur.expires.Some? && cur.expires.value != 0.0 then cur.expires.value else row.expires.value;
        expires := Some(if standing <= row.expires.value then standing else row.expires.value);
      }
      grants := grants[row.project := Grant(cur.scopes + row.scopes, expires)];
    }
    assert rows[..|rows|] == rows;
  }

  predicate Counts(row: GrantRow, project: string, now: real) {
    row.project == project && Current(row.expires, now)
  }

  /** `g` is what the rows counting for `project` amount to, in whatever order. */
  ghost predicate Sums(rows: set<GrantRow>, project: string, now: real, g: Option<Grant>) {
    && (g.Some? <==> exists r :: r in rows && Counts(r, project, now))
    && (g.Some? ==>
          && (forall s :: s in g.value.scopes <==> exists r :: r in rows && Counts(r, project, now) && s in r.scopes)
          && (g.value.expires.None? ==> forall r :: r in rows && Counts(r, project, now) ==> r.expires.None?)
          && (g.value.expires.Some? ==>
                && (exists r :: r in rows && Counts(r, project, now) && r.expires == g.value.expires)
                && (forall r :: r in rows && Counts(r, project, now) && r.expires.Some? ==>
                      g.value.expires.value <= r.expires.value)))
  }

  function Lookup(grants: map<string, Grant>, project: string): Option<Grant> {
    if project in grants then Some(grants[project]) else None
  }

  function Elements(rows: seq<GrantRow>): set<GrantRow> {
    set r | r in rows
  }

  /** The dictionary fold computes the unordered summary of its rows. */
  lemma {:induction false} FoldSums(rows: seq<GrantRow>, project: string, now: real)
    requires now >= 0.0
    ensures Sums(Elements(rows), project, now, Lookup(FoldGrants(rows, now), project))
  {
    if rows == [] {
    } else {
      var init, last := rows[..|rows| - 1], rows[|rows| - 1];
      FoldSums(init, project, now);
      assert rows == init + [last];
      assert Elements(rows) == Elements(init) + {last};
      var before := Lookup(FoldGrants(init, now), project);
      var after := Lookup(FoldGrants(rows, now), project);
      if Counts(last, project, now) {
        assert last in Elements(rows);
        if before.Some? {
          assert after.value.scopes == before.value.scopes + last.scopes;
        }
      }
    }
  }

  lemma SumUnique(rows: set<GrantRow>, project: string, now: real, a: Option<Grant>, b: Option<Grant>)
    requires Sums(rows, project, now, a) && Sums(rows, project, now, b)
    ensures a == b
  {
    if a.Some? {
      assert b.Some?;
      assert a.value.scopes == b.value.scopes;
      if a.value.expires.Some? {
        var r :| r in rows && Counts(r, project, now) && r.expires == a.value.expires;
        assert b.value.expires.Some?;
        assert b.value.expires.value <= r.expires.value;
      }
    }
  }

  /** Order and repetition of the rows never matter. */
  lemma FoldOrderIndependent(a: seq<GrantRow>, b: seq<GrantRow>, now: real)
    requires now >= 0.0 && Elements(a) == Elements(b)
    ensures FoldGrants(a, now) == FoldGrants(b, now)
  {
    var fa, fb := FoldGrants(a, now), FoldGrants(b, now);
    forall project: string
      ensures Lookup(fa, project) == Lookup(fb, project)
    {
      FoldSums(a, project, now);
      FoldSums(b, project, now);
      SumUnique(Elements(a), project, now, Lookup(fa, project), Lookup(fb, project));
    }
    assert forall project :: project in fa <==> Lookup(fa, project).Some?;
    assert forall project :: project in fb <==> Lookup(fb, project).Some?;
    assert forall project :: project in fa ==> fa[project] == Lookup(fa, project).value;
    assert forall project :: project in fb ==> fb[project] == Lookup(fb, project).value;
  }

  lemma {:induction false} Enumerable(rows: set<GrantRow>)
    ensures exists order :: Elements(order) == rows
    decreases rows
  {
    if rows == {} {
      assert Elements([]) == rows;
    } else {
      var r :| r in rows;
      Enumerable(rows - {r});
      var rest :| Elements(rest) == rows - {r};
      assert Elements(rest + [r]) == Elements(rest) + {r};
    }
  }

  ghost function AnyOrder(rows: set<GrantRow>): (order: seq<GrantRow>)
    ensures Elements(order) == rows
  {
    Enumerable(rows);
    var order :| Elements(order) == rows;
    order
  }

  /** All the grants a principal holds, read off the tables alone. */
  ghost function Rights(d: Directory, p: Pid, now: real): map<string, Grant> {
    FoldGrants(AnyOrder(GrantRows(d, p, now)), now)
  }

  ghost function GrantOf(d: Directory, p: Pid, project: string, now: real): Option<Grant> {
    Lookup(Rights(d, p, now), project)
  }

  lemma GrantSums(d: Directory, p: Pid, project: string, now: real)
    requires now >= 0.0
    ensures Sums(GrantRows(d, p, now), project, now, GrantOf(d, p, project, now))
  {
    FoldSums(AnyOrder(GrantRows(d, p, now)), project, now);
  }

  /** Whichever order the database returns the rows in, folding them gives the same rights. */
  lemma FoldIsRights(d: Directory, p: Pid, rows: seq<GrantRow>, now: real)
    requires now >= 0.0 && Elements(rows) == GrantRows(d, p, now)
    ensures FoldGrants(rows, now) == Rights(d, p, now)
  {
    FoldOrderIndependent(rows, AnyOrder(GrantRows(d, p, now)), now);
  }

  ghost predicate CountsIn(d: Directory, p: Pid, project: string, now: real, row: GrantRow) {
    row in GrantRows(d, p, now) && Counts(row, project, now)
  }

  /** A row that counts later already counts now: joins only lose rows as time passes. */
  lemma CountingShrinks(d: Directory, p: Pid, project: string, now: real, later: real, row: GrantRow)
    requires now <= later && CountsIn(d, p, project, later, row)
    ensures CountsIn(d, p, project, now, row)
  {
    if row !in OwnRows(d, p) {
      var m, k :| m in d.memberships && k in d.groupProjects && m.group == k.group && m.principal == p
        && Current(d.memberships[m], later) && Current(d.groupProjects[k].expires, later)
        && row == GrantRow(k.project, d.groupProjects[k].scopes, MinExpiry(d.groupProjects[k].expires, d.memberships[m]));
      assert row in GroupRows(d, p, now);
    }
  }

  /** A row whose own expiry lies beyond `later` counts at `later` as well. */
  lemma CountingLasts(d: Directory, p: Pid, project: string, now: real, later: real, row: GrantRow)
    requires now <= later && CountsIn(d, p, project, now, row) && Current(row.expires, later)
    ensures CountsIn(d, p, project, later, row)
  {
    if row !in OwnRows(d, p) {
      var m, k :| m in d.memberships && k in d.groupProjects && m.group == k.group && m.principal == p
        && Current(d.memberships[m], now) && Current(d.groupProjects[k].expires, now)
        && row == GrantRow(k.project, d.groupProjects[k].scopes, MinExpiry(d.groupProjects[k].expires, d.memberships[m]));
      assert Current(d.memberships[m], later) && Current(d.groupProjects[k].expires, later);
      assert row in GroupRows(d, p, later);
    }
  }

  /** With no intervening write a reported grant stands unchanged until the expiry it reports, and an absent one stays absent. */
  lemma GrantStableUntilExpiry(d: Directory, p: Pid, project: string, now: real, later: real)
    requires 0.0 <= now <= later
    ensures GrantOf(d, p, project, now).None? ==> GrantOf(d, p, project, later).None?
    ensures GrantOf(d, p, project, now).Some? && Current(GrantOf(d, p, project, now).value.expires, later) ==>
              GrantOf(d, p, project, later) == GrantOf(d, p, project, now)
  {
    GrantSums(d, p, project, now);
    GrantSums(d, p, project, later);
    var g := GrantOf(d, p, project, now);
    var rows, rows' := GrantRows(d, p, now), GrantRows(d, p, later);
    forall r | r in rows' && Counts(r, project, later)
      ensures r in rows && Counts(r, project, now)
    {
      assert CountsIn(d, p, project, later, r);
      CountingShrinks(d, p, project, now, later, r);
    }
    if g.Some? && Current(g.value.expires, later) {
      forall r | r in rows && Counts(r, project, now)
        ensures r in rows' && Counts(r, project, later)
      {
        assert CountsIn(d, p, project, now, r);
        CountingLasts(d, p, project, now, later, r);
      }
      assert Sums(rows', project, later, g);
      SumUnique(rows', project, later, g, GrantOf(d, p, project, later));
    }
  }
}
