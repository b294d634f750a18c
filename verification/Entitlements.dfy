/**
 Who may do what, read off single rows: some role row gives the action, some row
 trusts, some grant row covers the project. No role is ranked and no grant is
 summed here.
 */
module Entitlements {
  import opened Options
  import opened Directories
  import opened Administration
  import opened Sessions
  import opened SessionLaws

  // -------------------------------------------------------------- host roles

  predicate Member(d: Directory, p: Pid, m: Membership, now: real) {
    m in d.memberships && m.principal == p && (d.memberships[m].Some? ==> now < d.memberships[m].value)
  }

  /** The principal's own host role, or the role of a group it belongs to now. */
  ghost predicate Candidate(d: Directory, p: Pid, now: real, g: RoleGrant) {
    || (p in d.hostRoles && d.hostRoles[p] == g)
    || exists m: Membership :: Member(d, p, m, now) && m.group in d.groups
                               && g == RoleGrant(d.groups[m.group].role, d.groups[m.group].trusted)
  }

  lemma CandidatesExactly(d: Directory, p: Pid, now: real)
    ensures forall g :: g in RoleGrants(d, p, now) <==> Candidate(d, p, now, g)
  {
    forall g
      ensures g in RoleGrants(d, p, now) <==> Candidate(d, p, now, g)
    {
      if g in RoleGrants(d, p, now) && !(p in d.hostRoles && d.hostRoles[p] == g) {
        var group :| group in MemberGroups(d, p, now) && group in d.groups && RoleGrant(d.groups[group].role, d.groups[group].trusted) == g;
        var m :| m in d.memberships && m.principal == p && m.group == group && Current(d.memberships[m], now);
        assert Member(d, p, m, now);
      }
      if m: Membership :| Member(d, p, m, now) && m.group in d.groups && g == RoleGrant(d.groups[m.group].role, d.groups[m.group].trusted) {
        assert m.group in MemberGroups(d, p, now);
      }
    }
  }

  ghost predicate Rules(d: Directory, p: Pid, now: real) {
    exists g :: Candidate(d, p, now, g) && (g.role == Owner || g.role == Admin)
  }

  ghost predicate RoleGives(d: Directory, p: Pid, now: real, action: Scope) {
    exists g :: Candidate(d, p, now, g) && action in RoleScopes(g.role)
  }

  ghost predicate Trusted(d: Directory, p: Pid, now: real) {
    exists g :: Candidate(d, p, now, g) && g.trusted
  }

  /** What higher roles give too is given by the highest exactly when by any. */
  lemma HighestGives(all: set<RoleGrant>, gives: Role -> bool)
    requires forall low, high :: Rank(low) <= Rank(high) && gives(low) ==> gives(high)
    ensures var best := HighestRole(all);
      best.Some? && gives(best.value.role) <==> exists g :: g in all && gives(g.role)
  {
    HighestRoleIsHighest(all);
  }

  lemma HigherGivesMore(action: Scope, low: Role, high: Role)
    requires Rank(low) <= Rank(high) && action in RoleScopes(low)
    ensures action in RoleScopes(high)
  {
    RolesAreNested();
  }

  /** The highest role gives what any candidate gives, because roles are nested. */
  lemma GivesExactly(d: Directory, p: Pid, now: real, action: Scope)
    ensures var best := HostRole(d, p, now); best.Some? && action in RoleScopes(best.value.role) <==> RoleGives(d, p, now, action)
  {
    CandidatesExactly(d, p, now);
    var gives := (r: Role) => action in RoleScopes(r);
    forall low, high | Rank(low) <= Rank(high) && gives(low) ensures gives(high) { HigherGivesMore(action, low, high); }
    HighestGives(RoleGrants(d, p, now), gives);
  }

  lemma RulesExactly(d: Directory, p: Pid, now: real)
    ensures var best := HostRole(d, p, now);
      && (best.Some? && (best.value.role == Owner || best.value.role == Admin) <==> Rules(d, p, now))
      && (best.Some? && best.value.trusted <==> Trusted(d, p, now))
  {
    CandidatesExactly(d, p, now);
    HighestGives(RoleGrants(d, p, now), (r: Role) => r == Owner || r == Admin);
    HighestRoleIsHighest(RoleGrants(d, p, now));
  }

  // ------------------------------------------------------------- project rights

  predicate Standing(expires: Option<real>, now: real) { expires.Some? ==> now < expires.value }

  predicate OwnGrant(d: Directory, p: Pid, project: string, s: Scope, now: real) {
    var k := MemberProject(p, project);
    k in d.memberProjects && Standing(d.memberProjects[k].expires, now) && s in d.memberProjects[k].scopes
  }

  predicate GroupGrant(d: Directory, g: Gid, project: string, s: Scope, now: real) {
    var k := GroupProject(g, project);
    k in d.groupProjects && Standing(d.groupProjects[k].expires, now) && s in d.groupProjects[k].scopes
  }

  /** One grant in force, its own or a group's, covers the project. */
  ghost predicate Covers(d: Directory, p: Pid, project: string, s: Scope, now: real) {
    OwnGrant(d, p, project, s, now) || exists m: Membership :: Member(d, p, m, now) && GroupGrant(d, m.group, project, s, now)
  }

  lemma OwnRowCounts(d: Directory, p: Pid, project: string, s: Scope, now: real)
    requires OwnGrant(d, p, project, s, now)
    ensures MayOn(d, p, project, s, now)
  {
    var k := MemberProject(p, project);
    var r := GrantRow(k.project, d.memberProjects[k].scopes, d.memberProjects[k].expires);
    assert r in OwnRows(d, p);
    assert CountsIn(d, p, project, now, r);
  }

  lemma GroupRowCounts(d: Directory, p: Pid, m: Membership, project: string, s: Scope, now: real)
    requires Member(d, p, m, now) && GroupGrant(d, m.group, project, s, now)
    ensures MayOn(d, p, project, s, now)
  {
    var k := GroupProject(m.group, project);
    var r := GrantRow(k.project, d.groupProjects[k].scopes, MinExpiry(d.groupProjects[k].expires, d.memberships[m]));
    assert r in GroupRows(d, p, now);
    assert CountsIn(d, p, project, now, r);
  }

  lemma CountingCovers(d: Directory, p: Pid, project: string, s: Scope, now: real, r: GrantRow)
    requires CountsIn(d, p, project, now, r) && s in r.scopes
    ensures Covers(d, p, project, s, now)
  {
    if r in OwnRows(d, p) {
      var k :| k in d.memberProjects && k.principal == p && r == GrantRow(k.project, d.memberProjects[k].scopes, d.memberProjects[k].expires);
      assert k == MemberProject(p, project);
    } else {
      var m, k :| m in d.memberships && k in d.groupProjects && m.group == k.group && m.principal == p
        && Current(d.memberships[m], now) && Current(d.groupProjects[k].expires, now)
        && r == GrantRow(k.project, d.groupProjects[k].scopes, MinExpiry(d.groupProjects[k].expires, d.memberships[m]));
      assert k == GroupProject(m.group, project);
      assert Member(d, p, m, now) && GroupGrant(d, m.group, project, s, now);
    }
  }

  /** The summed grant of a project gives exactly what some row gives. */
  lemma CoversExactly(d: Directory, p: Pid, project: string, s: Scope, now: real)
    requires now >= 0.0
    ensures var g := GrantOf(d, p, project, now);
      g.Some? && Current(g.value.expires, now) && s in g.value.scopes <==> Covers(d, p, project, s, now)
  {
    GrantSums(d, p, project, now);
    MayOnIsGrant(d, p, project, s, now);
    if OwnGrant(d, p, project, s, now) { OwnRowCounts(d, p, project, s, now); }
    else if m: Membership :| Member(d, p, m, now) && GroupGrant(d, m.group, project, s, now) { GroupRowCounts(d, p, m, project, s, now); }
    if MayOn(d, p, project, s, now) {
      var r :| CountsIn(d, p, project, now, r) && s in r.scopes;
      CountingCovers(d, p, project, s, now, r);
    }
  }
}
