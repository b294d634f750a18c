/**
 What each administrative transaction does, said of rows alone: when it is
 refused, which rows it writes, whose version it raises and whose sessions it ends.
 */
module AdministrationLaws {
  import opened Options
  import opened Directories
  import opened Administration

  predicate Ahead(expires: Option<real>, now: real) { expires.Some? ==> now < expires.value }

  predicate Enabled(d: Directory, p: Pid) { p in d.principals && d.principals[p].enabled }

  predicate IsOwner(d: Directory, p: Pid) { p in d.hostRoles && d.hostRoles[p].role == Owner }

  /** Principals keep their rows, but for the versions of these. */
  ghost predicate Outdates(d: Directory, d': Directory, ps: set<Pid>) {
    && d'.principals.Keys == d.principals.Keys
    && forall p :: p in d.principals ==>
         d'.principals[p] == d.principals[p].(version := d.principals[p].version + (if p in ps then 1 else 0))
  }

  ghost predicate Belongs(d: Directory, p: Pid, g: Gid) {
    exists m :: m in d.memberships && m.principal == p && m.group == g
  }

  /** A verified claim of this issuer selects the group. */
  ghost predicate Claimed(d: Directory, issuer: string, claims: seq<string>, g: Gid) {
    exists c: string :: c in claims && Claim(issuer, c) in d.mappings && d.mappings[Claim(issuer, c)] == g
  }

  ghost predicate Vouched(d: Directory, p: Pid, issuer: string, g: Gid, now: real) {
    var m := Membership(p, g, Issuer(issuer));
    m in d.memberships && Ahead(d.memberships[m], now)
  }

  // -------------------------------------------------------------- refusals

  ghost predicate AccountsAllow(d: Directory, now: real, op: Operation) {
    match op
    case CreatePrincipal(p, _) => p !in d.principals
    case MapIdentity(subject, p) => p in d.principals && subject !in d.identities
    case SetRole(p, role, _) =>
      && p in d.principals && (IsOwner(d, p) ==> role == Owner)
      && (role == Owner ==> forall q :: IsOwner(d, q) ==> q == p)
    case GrantProject(p, project, scopes, expires) =>
      project != "" && HostAdmin !in scopes && Ahead(expires, now) && Enabled(d, p)
    case RecoverOwner(code, owner) =>
      && code in d.recovery && !d.recovery[code] && IsOwner(d, owner)
      && exists s: Subject :: s in d.identities && s.issuer == "termx:local" && d.identities[s] == owner
    case _ => true
  }

  ghost predicate GroupsAllow(d: Directory, now: real, op: Operation) {
    match op
    case CreateGroup(g, role, _) => role != Owner && g !in d.groups
    case SaveGroup(g, revision, role, _) => role != Owner && g in d.groups && d.groups[g].revision == revision
    case SetMember(g, p, _, expires) => Ahead(expires, now) && g in d.groups && Enabled(d, p)
    case SetMapping(g, claim, _) =>
      0 < |claim.value| <= 256 && g in d.groups && (claim in d.mappings ==> d.mappings[claim] == g)
    case GrantGroup(g, project, scopes, expires) =>
      project != "" && HostAdmin !in scopes && Ahead(expires, now) && g in d.groups
    case SyncClaims(_, _, claims, ttl) =>
      |claims| <= 128 && (forall c :: c in claims ==> c != "" && |c| <= 256) && 60 <= ttl <= 86400
    case _ => true
  }

  ghost predicate Admissible(d: Directory, now: real, op: Operation) {
    if GroupOperation(op) then GroupsAllow(d, now, op) else AccountsAllow(d, now, op)
  }

  // --------------------------------------------------------------- effects

  /** One account row changes, or is made, and nothing else. */
  predicate AccountWritten(d: Directory, p: Pid, row: Principal, d': Directory) {
    d' == d.(principals := d.principals[p := row])
  }

  predicate ScopesWritten(d: Directory, p: Pid, scopes: set<Scope>, d': Directory) {
    if p in d.principals then AccountWritten(d, p, Principal(scopes, d.principals[p].version + 1, d.principals[p].enabled), d')
    else d' == d
  }

  predicate SwitchedOff(d: Directory, p: Pid, d': Directory) {
    if p in d.principals then AccountWritten(d, p, Principal(d.principals[p].scopes, d.principals[p].version, false), d') else d' == d
  }

  /** The account gets the role's scopes; owners and administrators are always trusted. */
  predicate RoleWritten(d: Directory, p: Pid, role: Role, trusted: bool, d': Directory) {
    && p in d.principals
    && d' == d.(principals := d.principals[p := Principal(RoleScopes(role), d.principals[p].version + 1, d.principals[p].enabled)],
                hostRoles := d.hostRoles[p := RoleGrant(role, trusted || role == Owner || role == Admin)])
  }

  /** The owner is let in again, and the code is spent. */
  predicate OwnerRecovered(d: Directory, code: nat, owner: Pid, d': Directory) {
    && d' == d.(principals := d'.principals, recovery := d.recovery[code := true], disabledMethods := d.disabledMethods - {"local-password"})
    && d'.principals == if owner in d.principals then d.principals[owner := Principal(SCOPES, d.principals[owner].version + 1, true)]
                        else d.principals
  }

  ghost predicate ProjectsWritten(d: Directory, p: Pid, rows: map<MemberProject, ProjectGrant>, d': Directory) {
    d' == d.(principals := d'.principals, memberProjects := rows) && Outdates(d, d', {p})
  }

  /** Everyone who belongs to the group is outdated and signed out. */
  ghost predicate Unsettles(d: Directory, d': Directory, g: Gid, revoked: set<Pid>) {
    Outdates(d, d', revoked) && forall p :: p in revoked <==> Belongs(d, p, g)
  }

  ghost predicate GroupWritten(d: Directory, g: Gid, row: Group, d': Directory, revoked: set<Pid>) {
    d' == d.(principals := d'.principals, groups := d.groups[g := row]) && Unsettles(d, d', g, revoked)
  }

  /** No scopes at all takes the group's grant away. */
  ghost predicate GroupGrantWritten(d: Directory, g: Gid, project: string, scopes: set<Scope>, expires: Option<real>, d': Directory, revoked: set<Pid>) {
    && d' == d.(principals := d'.principals,
                groupProjects := if scopes == {} then d.groupProjects - {GroupProject(g, project)}
                                 else d.groupProjects[GroupProject(g, project) := ProjectGrant(scopes, expires)])
    && Unsettles(d, d', g, revoked)
  }

  ghost predicate MemberAdded(d: Directory, g: Gid, p: Pid, expires: Option<real>, d': Directory) {
    && d' == d.(principals := d'.principals, memberships := d.memberships[Membership(p, g, Administrator) := expires])
    && Outdates(d, d', {p})
  }

  /** Whoever vouched for the membership. */
  ghost predicate MemberRemoved(d: Directory, g: Gid, p: Pid, d': Directory) {
    && d' == d.(principals := d'.principals, memberships := d'.memberships) && Outdates(d, d', {p})
    && forall m: Membership ::
         && (m in d'.memberships <==> m in d.memberships && !(m.principal == p && m.group == g))
         && (m in d'.memberships ==> d'.memberships[m] == d.memberships[m])
  }

  /** The mapping goes with every membership its issuer vouched for. */
  ghost predicate MappingRemoved(d: Directory, g: Gid, claim: Claim, d': Directory, revoked: set<Pid>) {
    && d' == d.(principals := d'.principals, mappings := d.mappings - {claim}, memberships := d'.memberships)
    && Outdates(d, d', revoked) && (forall p: Pid :: p in revoked <==> Membership(p, g, Issuer(claim.issuer)) in d.memberships)
    && forall m: Membership ::
         && (m in d'.memberships <==> m in d.memberships && !(m.group == g && m.source == Issuer(claim.issuer)))
         && (m in d'.memberships ==> d'.memberships[m] == d.memberships[m])
  }

  /** The memberships an issuer vouches for are exactly those its verified claims select; all others are as before. */
  ghost predicate Selected(d: Directory, p: Pid, issuer: string, claims: seq<string>, until: real, rows: map<Membership, Option<real>>) {
    && (forall g: Gid :: Membership(p, g, Issuer(issuer)) in rows <==> Claimed(d, issuer, claims, g))
    && (forall g: Gid :: Claimed(d, issuer, claims, g) ==> rows[Membership(p, g, Issuer(issuer))] == Some(until))
    && (forall m: Membership :: m.principal != p || m.source != Issuer(issuer) ==>
          (m in rows <==> m in d.memberships) && (m in d.memberships ==> rows[m] == d.memberships[m]))
  }

  ghost predicate ClaimsMove(d: Directory, now: real, p: Pid, issuer: string, claims: seq<string>) {
    exists g: Gid :: Vouched(d, p, issuer, g, now) != Claimed(d, issuer, claims, g)
  }

  ghost predicate ClaimsWritten(d: Directory, now: real, p: Pid, issuer: string, claims: seq<string>, ttl: int, d': Directory, revoked: set<Pid>) {
    && d' == d.(principals := d'.principals, memberships := d'.memberships) && Outdates(d, d', revoked)
    && Selected(d, p, issuer, claims, now + ttl as real, d'.memberships)
    && revoked == if ClaimsMove(d, now, p, issuer, claims) then {p} else {}
  }

  ghost predicate AccountEffect(d: Directory, op: Operation, d': Directory, revoked: set<Pid>)
    requires !GroupOperation(op)
  {
    match op
    case CreatePrincipal(p, scopes) => AccountWritten(d, p, Principal(scopes, 1, true), d') && revoked == {}
    case MapIdentity(subject, p) => d' == d.(identities := d.identities[subject := p]) && revoked == {}
    case SetScopes(p, scopes) => ScopesWritten(d, p, scopes, d') && revoked == {}
    case Disable(p) => SwitchedOff(d, p, d') && revoked == {p}
    case SetRole(p, role, trusted) => RoleWritten(d, p, role, trusted, d') && revoked == {}
    case GrantProject(p, project, scopes, expires) =>
      ProjectsWritten(d, p, d.memberProjects[MemberProject(p, project) := ProjectGrant(scopes, expires)], d') && revoked == {}
    case RevokeProject(p, project) => ProjectsWritten(d, p, d.memberProjects - {MemberProject(p, project)}, d') && revoked == {}
    case NewRecoveryCode(code) => d' == d.(recovery := map[code := false]) && revoked == {}
    case RecoverOwner(code, owner) => OwnerRecovered(d, code, owner, d') && revoked == {owner}
  }

  ghost predicate GroupEffect(d: Directory, now: real, op: Operation, d': Directory, revoked: set<Pid>)
    requires GroupOperation(op)
  {
    match op
    case CreateGroup(g, role, trusted) => d' == d.(groups := d.groups[g := Group(role, trusted, 1)]) && revoked == {}
    case SaveGroup(g, revision, role, trusted) => GroupWritten(d, g, Group(role, trusted, revision + 1), d', revoked)
    case SetMember(g, p, present, expires) =>
      (if present then MemberAdded(d, g, p, expires, d') else MemberRemoved(d, g, p, d')) && revoked == {p}
    case SetMapping(g, claim, present) =>
      if present then d' == d.(mappings := d.mappings[claim := g]) && revoked == {} else MappingRemoved(d, g, claim, d', revoked)
    case GrantGroup(g, project, scopes, expires) => GroupGrantWritten(d, g, project, scopes, expires, d', revoked)
    case SyncClaims(p, issuer, claims, ttl) => ClaimsWritten(d, now, p, issuer, claims, ttl, d', revoked)
  }

  ghost predicate OperationLaw(d: Directory, now: real, op: Operation, c: Option<Change>) {
    && (c.Some? <==> Admissible(d, now, op))
    && (c.Some? ==> if GroupOperation(op) then GroupEffect(d, now, op, c.value.dir, c.value.revoked)
                    else AccountEffect(d, op, c.value.dir, c.value.revoked))
  }

  // ---------------------------------------------------------------- proofs

  lemma BumpOutdates(d: Directory, ps: set<Pid>)
    ensures Outdates(d, Bump(d, ps), ps) && Bump(d, ps) == d.(principals := Bump(d, ps).principals)
  {
  }

  lemma MembersBelong(d: Directory, g: Gid)
    ensures forall p :: p in MembersOf(d, g) <==> Belongs(d, p, g)
  {
  }

  lemma SetRoleLawful(d: Directory, now: real, op: Operation)
    requires op.SetRole?
    ensures OperationLaw(d, now, op, Apply(d, now, op))
  {
    if q :| q in d.hostRoles && q != op.p && d.hostRoles[q].role == Owner { assert IsOwner(d, q); }
  }

  lemma RecoverLawful(d: Directory, now: real, op: Operation)
    requires op.RecoverOwner? || op.NewRecoveryCode?
    ensures OperationLaw(d, now, op, Apply(d, now, op))
  {
  }

  lemma ProjectLawful(d: Directory, now: real, op: Operation)
    requires op.GrantProject? || op.RevokeProject?
    ensures OperationLaw(d, now, op, Apply(d, now, op))
  {
  }

  lemma AccountLawful(d: Directory, now: real, op: Operation)
    requires op.CreatePrincipal? || op.MapIdentity? || op.SetScopes? || op.Disable?
    ensures OperationLaw(d, now, op, Apply(d, now, op))
  {
  }

  lemma GroupLawful(d: Directory, now: real, op: Operation)
    requires op.CreateGroup? || op.SaveGroup?
    ensures OperationLaw(d, now, op, Apply(d, now, op))
  {
    MembersBelong(d, op.g);
  }

  lemma GrantLawful(d: Directory, now: real, op: Operation)
    requires op.GrantGroup?
    ensures OperationLaw(d, now, op, Apply(d, now, op))
  {
    MembersBelong(d, op.g);
  }

  lemma MemberLawful(d: Directory, now: real, op: Operation)
    requires op.SetMember?
    ensures OperationLaw(d, now, op, Apply(d, now, op))
  {
  }

  lemma MappingLawful(d: Directory, now: real, op: Operation)
    requires op.SetMapping?
    ensures OperationLaw(d, now, op, Apply(d, now, op))
  {
    var ids := set m | m in d.memberships && m.group == op.g && m.source == Issuer(op.claim.issuer) :: m.principal;
    assert forall p :: p in ids <==> Membership(p, op.g, Issuer(op.claim.issuer)) in d.memberships;
  }

  lemma MappedExactly(d: Directory, issuer: string, claims: seq<string>)
    ensures forall g :: g in MappedGroups(d, issuer, claims) <==> Claimed(d, issuer, claims, g)
  {
    forall g
      ensures g in MappedGroups(d, issuer, claims) <==> Claimed(d, issuer, claims, g)
    {
      if c :| c in d.mappings && c.issuer == issuer && c.value in claims && d.mappings[c] == g { assert c == Claim(issuer, c.value); }
    }
  }

  lemma ResourcedExactly(d: Directory, p: Pid, source: Source, ids: set<Gid>, until: real, m: Membership)
    ensures var rows := Resourced(d, p, source, ids, until);
      if m.principal == p && m.source == source
      then (m in rows <==> m.group in ids) && (m in rows ==> rows[m] == Some(until))
      else (m in rows <==> m in d.memberships) && (m in rows ==> rows[m] == d.memberships[m])
  {
  }

  lemma SourcedExactly(d: Directory, p: Pid, issuer: string, now: real)
    ensures forall g :: g in SourcedGroups(d, p, Issuer(issuer), now) <==> Vouched(d, p, issuer, g, now)
  {
    forall g
      ensures g in SourcedGroups(d, p, Issuer(issuer), now) <==> Vouched(d, p, issuer, g, now)
    {
      if m :| m in d.memberships && m.principal == p && m.source == Issuer(issuer) && m.group == g && Current(d.memberships[m], now) {
        assert m == Membership(p, g, Issuer(issuer));
      }
    }
  }

  lemma ResourcedSelects(d: Directory, p: Pid, issuer: string, claims: seq<string>, until: real)
    ensures Selected(d, p, issuer, claims, until, Resourced(d, p, Issuer(issuer), MappedGroups(d, issuer, claims), until))
  {
    MappedExactly(d, issuer, claims);
    forall m: Membership
      ensures var rows := Resourced(d, p, Issuer(issuer), MappedGroups(d, issuer, claims), until);
        if m.principal == p && m.source == Issuer(issuer)
        then (m in rows <==> Claimed(d, issuer, claims, m.group)) && (m in rows ==> rows[m] == Some(until))
        else (m in rows <==> m in d.memberships) && (m in rows ==> rows[m] == d.memberships[m])
    {
      ResourcedExactly(d, p, Issuer(issuer), MappedGroups(d, issuer, claims), until, m);
    }
  }

  lemma MovesExactly(d: Directory, now: real, p: Pid, issuer: string, claims: seq<string>)
    ensures ClaimsMove(d, now, p, issuer, claims) <==> SourcedGroups(d, p, Issuer(issuer), now) != MappedGroups(d, issuer, claims)
  {
    MappedExactly(d, issuer, claims);
    SourcedExactly(d, p, issuer, now);
    var before, after := SourcedGroups(d, p, Issuer(issuer), now), MappedGroups(d, issuer, claims);
    if before != after {
      var g :| (g in before) != (g in after);
      assert Vouched(d, p, issuer, g, now) != Claimed(d, issuer, claims, g);
    }
  }

  lemma SyncLawful(d: Directory, now: real, p: Pid, issuer: string, claims: seq<string>, ttl: int)
    requires ValidClaims(claims, ttl)
    ensures var c := SyncClaimsTx(d, now, p, issuer, claims, ttl).value;
      ClaimsWritten(d, now, p, issuer, claims, ttl, c.dir, c.revoked)
  {
    ResourcedSelects(d, p, issuer, claims, now + ttl as real);
    MovesExactly(d, now, p, issuer, claims);
  }

  /** Every administrative transaction, on any tables and at any time. */
  lemma OperationLawful(d: Directory, now: real, op: Operation)
    ensures OperationLaw(d, now, op, Apply(d, now, op))
  {
    match op
    case SyncClaims(p, issuer, claims, ttl) => if ValidClaims(claims, ttl) { SyncLawful(d, now, p, issuer, claims, ttl); }
    case SetMember(_, _, _, _) => MemberLawful(d, now, op);
    case SetMapping(_, _, _) => MappingLawful(d, now, op);
    case CreateGroup(_, _, _) => GroupLawful(d, now, op);
    case SaveGroup(_, _, _, _) => GroupLawful(d, now, op);
    case GrantGroup(_, _, _, _) => GrantLawful(d, now, op);
    case SetRole(_, _, _) => SetRoleLawful(d, now, op);
    case RecoverOwner(_, _) => RecoverLawful(d, now, op);
    case NewRecoveryCode(_) => RecoverLawful(d, now, op);
    case GrantProject(_, _, _, _) => ProjectLawful(d, now, op);
    case RevokeProject(_, _) => ProjectLawful(d, now, op);
    case _ => AccountLawful(d, now, op);
  }

  /** The membership is not one this issuer vouches for. */
  predicate ConfersOtherwise(d: Directory, p: Pid, issuer: string, m: Membership, s: Scope, now: real) {
    Confers(d, p, m, s, now) && m.source != Issuer(issuer)
  }

  predicate GroupGives(d: Directory, g: Gid, s: Scope) { g in d.groups && s in RoleScopes(d.groups[g].role) }

  lemma SelectedConfer(d: Directory, d': Directory, p: Pid, issuer: string, claims: seq<string>, until: real, s: Scope, now: real)
    requires Selected(d, p, issuer, claims, until, d'.memberships) && d'.groups == d.groups && now < until
    ensures (exists m :: Confers(d', p, m, s, now)) <==>
            (exists m :: ConfersOtherwise(d, p, issuer, m, s, now)) || exists g: Gid :: Claimed(d, issuer, claims, g) && GroupGives(d, g, s)
  {
    if m :| ConfersOtherwise(d, p, issuer, m, s, now) { assert Confers(d', p, m, s, now); }
    if g: Gid :| Claimed(d, issuer, claims, g) && GroupGives(d, g, s) {
      assert Confers(d', p, Membership(p, g, Issuer(issuer)), s, now);
    }
    if m :| Confers(d', p, m, s, now) {
      assert GroupGives(d, m.group, s);
      if m.source == Issuer(issuer) { assert m == Membership(p, m.group, Issuer(issuer)); }
      else { assert ConfersOtherwise(d, p, issuer, m, s, now); }
    }
  }

  lemma ScopesUnder(d: Directory, d': Directory, p: Pid, issuer: string, claims: seq<string>, until: real, s: Scope, now: real)
    requires Selected(d, p, issuer, claims, until, d'.memberships) && d'.groups == d.groups && now < until
    requires p in d.principals <==> p in d'.principals
    requires p in d.principals ==> d'.principals[p].scopes == d.principals[p].scopes
    ensures s in EffectiveScopes(d', p, now) <==> Entitled(d, p, issuer, claims, s, now)
  {
    SelectedConfer(d, d', p, issuer, claims, until, s, now);
    ScopesExactly(d', p, now);
  }

  ghost predicate Entitled(d: Directory, p: Pid, issuer: string, claims: seq<string>, s: Scope, now: real) {
    || (p in d.principals && s in d.principals[p].scopes)
    || (exists m :: ConfersOtherwise(d, p, issuer, m, s, now))
    || (exists g: Gid :: Claimed(d, issuer, claims, g) && GroupGives(d, g, s))
  }

  /**
   After verified claims are synchronized the principal has exactly the scopes of
   its account, of the groups it belongs to by another authority, and of the groups
   those very claims are mapped to.
   */
  lemma SyncedScopes(d: Directory, now: real, p: Pid, issuer: string, claims: seq<string>, ttl: int, d': Directory, revoked: set<Pid>, s: Scope)
    requires ttl > 0 && ClaimsWritten(d, now, p, issuer, claims, ttl, d', revoked)
    ensures s in EffectiveScopes(d', p, now) <==> Entitled(d, p, issuer, claims, s, now)
  {
    ScopesUnder(d, d', p, issuer, claims, now + ttl as real, s, now);
  }
}
