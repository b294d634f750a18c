/**
 The administrative transactions on the authority tables, and the fence they
 share: no scopes, role or project rights change under an unchanged policy
 version, and an account switched off or on has its sessions revoked.
 */
module Administration {
  import opened Options
  import opened Directories

  /** A committed transaction: the new tables and the principals whose sessions it revokes. */
  datatype Change = Change(dir: Directory, revoked: set<Pid>)

  datatype Operation =
    | CreatePrincipal(p: Pid, scopes: set<Scope>)
    | MapIdentity(subject: Subject, p: Pid)
    | SetScopes(p: Pid, scopes: set<Scope>)
    | Disable(p: Pid)
    | SetRole(p: Pid, role: Role, trusted: bool)
    | GrantProject(p: Pid, project: string, scopes: set<Scope>, expires: Option<real>)
    | RevokeProject(p: Pid, project: string)
    | NewRecoveryCode(code: nat)
    | RecoverOwner(code: nat, owner: Pid)
    | CreateGroup(g: Gid, role: Role, trusted: bool)
    | SaveGroup(g: Gid, revision: nat, role: Role, trusted: bool)
    | SetMember(g: Gid, p: Pid, present: bool, expires: Option<real>)
    | SetMapping(g: Gid, claim: Claim, present: bool)
    | GrantGroup(g: Gid, project: string, scopes: set<Scope>, expires: Option<real>)
    | SyncClaims(p: Pid, issuer: string, claims: seq<string>, ttl: int)

  // ------------------------------------------------------------ principals

  function Bump(d: Directory, ps: set<Pid>): Directory {
    d.(principals := map p | p in d.principals ::
           if p in ps then d.principals[p].(version := d.principals[p].version + 1) else d.principals[p])
  }

  function WithPrincipal(d: Directory, p: Pid, row: Principal): Directory {
    d.(principals := d.principals[p := row])
  }

  function CreatePrincipalTx(d: Directory, p: Pid, scopes: set<Scope>): Option<Change> {
    if p in d.principals then None else Some(Change(WithPrincipal(d, p, Principal(scopes, 1, true)), {}))
  }

  function MapIdentityTx(d: Directory, subject: Subject, p: Pid): Option<Change> {
    if p !in d.principals || subject in d.identities then None
    else Some(Change(d.(identities := d.identities[subject := p]), {}))
  }

  function SetScopesTx(d: Directory, p: Pid, scopes: set<Scope>): Option<Change> {
    if p !in d.principals then Some(Change(d, {}))
    else Some(Change(WithPrincipal(d, p, d.principals[p].(scopes := scopes, version := d.principals[p].version + 1)), {}))
  }

  function DisableTx(d: Directory, p: Pid): Option<Change> {
    if p !in d.principals then Some(Change(d, {p}))
    else Some(Change(WithPrincipal(d, p, d.principals[p].(enabled := false)), {p}))
  }

  function SetRoleTx(d: Directory, p: Pid, role: Role, trusted: bool): Option<Change> {
    if p !in d.principals then None
    else if p in d.hostRoles && d.hostRoles[p].role == Owner && role != Owner then None
    else if role == Owner && exists q :: q in d.hostRoles && q != p && d.hostRoles[q].role == Owner then None
    else
      var d1 := d.(hostRoles := d.hostRoles[p := RoleGrant(role, trusted || role == Owner || role == Admin)]);
      Some(Change(WithPrincipal(d1, p, d.principals[p].(scopes := RoleScopes(role), version := d.principals[p].version + 1)), {}))
  }

  function GrantProjectTx(d: Directory, now: real, p: Pid, project: string, scopes: set<Scope>, expires: Option<real>): Option<Change> {
    if project == "" || HostAdmin in scopes || !Current(expires, now) then None
    else if p !in d.principals || !d.principals[p].enabled then None
    else
      var d1 := d.(memberProjects := d.memberProjects[MemberProject(p, project) := ProjectGrant(scopes, expires)]);
      Some(Change(Bump(d1, {p}), {}))
  }

  function RevokeProjectTx(d: Directory, p: Pid, project: string): Option<Change> {
    Some(Change(Bump(d.(memberProjects := d.memberProjects - {MemberProject(p, project)}), {p}), {}))
  }

  function NewRecoveryCodeTx(d: Directory, code: nat): Option<Change> {
    Some(Change(d.(recovery := map[code := false]), {}))
  }

  /** The row the join of host roles and local identities may return. */
  predicate LocalOwner(d: Directory, p: Pid) {
    && p in d.hostRoles && d.hostRoles[p].role == Owner
    && exists s :: s in d.identities && s.issuer == LOCAL_ISSUER && d.identities[s] == p
  }

  function RecoverOwnerTx(d: Directory, code: nat, owner: Pid): Option<Change> {
    if code !in d.recovery || d.recovery[code] then None
    else if !LocalOwner(d, owner) then None
    else
      var d1 := d.(recovery := d.recovery[code := true], disabledMethods := d.disabledMethods - {LOCAL_PASSWORD});
      var d2 := if owner in d.principals
                then WithPrincipal(d1, owner, Principal(SCOPES, d.principals[owner].version + 1, true)) else d1;
      Some(Change(d2, {owner}))
  }

  // ---------------------------------------------------------------- groups

  function MembersOf(d: Directory, g: Gid): set<Pid> {
    set m | m in d.memberships && m.group == g :: m.principal
  }

  predicate GroupRole(role: Role) { role != Owner }

  function CreateGroupTx(d: Directory, g: Gid, role: Role, trusted: bool): Option<Change> {
    if !GroupRole(role) || g in d.groups then None
    else Some(Change(d.(groups := d.groups[g := Group(role, trusted, 1)]), {}))
  }

  function SaveGroupTx(d: Directory, g: Gid, revision: nat, role: Role, trusted: bool): Option<Change> {
    if !GroupRole(role) || g !in d.groups || d.groups[g].revision != revision then None
    else
      var members := MembersOf(d, g);
      Some(Change(Bump(d.(groups := d.groups[g := Group(role, trusted, revision + 1)]), members), members))
  }

  function SetMemberTx(d: Directory, now: real, g: Gid, p: Pid, present: bool, expires: Option<real>): Option<Change> {
    if !Current(expires, now) || g !in d.groups then None
    else if p !in d.principals || !d.principals[p].enabled then None
    else
      var rows := if present then d.memberships[Membership(p, g, Administrator) := expires]
                  else map m | m in d.memberships && !(m.principal == p && m.group == g) :: d.memberships[m];
      Some(Change(Bump(d.(memberships := rows), {p}), {p}))
  }

  /** Whether the issuer is configured is asked before. */
  function SetMappingTx(d: Directory, g: Gid, claim: Claim, present: bool): Option<Change> {
    if claim.value == "" || |claim.value| > 256 || g !in d.groups then None
    else if claim in d.mappings && d.mappings[claim] != g then None
    else if present then Some(Change(d.(mappings := d.mappings[claim := g]), {}))
    else
      var source := Issuer(claim.issuer);
      var ids := set m | m in d.memberships && m.group == g && m.source == source :: m.principal;
      var rows := map m | m in d.memberships && !(m.group == g && m.source == source) :: d.memberships[m];
      Some(Change(Bump(d.(mappings := d.mappings - {claim}, memberships := rows), ids), ids))
  }

  function GrantGroupTx(d: Directory, now: real, g: Gid, project: string, scopes: set<Scope>, expires: Option<real>): Option<Change> {
    if project == "" || HostAdmin in scopes || !Current(expires, now) || g !in d.groups then None
    else
      var key := GroupProject(g, project);
      var rows := if scopes != {} then d.groupProjects[key := ProjectGrant(scopes, expires)] else d.groupProjects - {key};
      var members := MembersOf(d, g);
      Some(Change(Bump(d.(groupProjects := rows), members), members))
  }

  predicate ValidClaims(claims: seq<string>, ttl: int) {
    |claims| <= 128 && (forall c :: c in claims ==> 0 < |c| <= 256) && 60 <= ttl <= 86400
  }

  function MappedGroups(d: Directory, issuer: string, claims: seq<string>): set<Gid> {
    set c | c in d.mappings && c.issuer == issuer && c.value in claims :: d.mappings[c]
  }

  function SourcedGroups(d: Directory, p: Pid, source: Source, now: real): set<Gid> {
    set m | m in d.memberships && m.principal == p && m.source == source && Current(d.memberships[m], now) :: m.group
  }

  /** Drops every membership of `p` from `source` and enrols it in `ids` until the given time. */
  function Resourced(d: Directory, p: Pid, source: Source, ids: set<Gid>, until: real): map<Membership, Option<real>> {
    (map m | m in d.memberships && !(m.principal == p && m.source == source) :: d.memberships[m])
    + (map g | g in ids :: Membership(p, g, source) := Some(until))
  }

  /** Replaces every membership one issuer vouched for by what its verified claims map to now. */
  function SyncClaimsTx(d: Directory, now: real, p: Pid, issuer: string, claims: seq<string>, ttl: int): Option<Change> {
    if !ValidClaims(claims, ttl) then None
    else
      var source := Issuer(issuer);
      var ids := MappedGroups(d, issuer, claims);
      var changed := if SourcedGroups(d, p, source, now) != ids then {p} else {};
      Some(Change(Bump(d.(memberships := Resourced(d, p, source, ids, now + ttl as real)), changed), changed))
  }

  function Apply(d: Directory, now: real, op: Operation): Option<Change> {
    match op
    case CreatePrincipal(p, scopes) => CreatePrincipalTx(d, p, scopes)
    case MapIdentity(subject, p) => MapIdentityTx(d, subject, p)
    case SetScopes(p, scopes) => SetScopesTx(d, p, scopes)
    case Disable(p) => DisableTx(d, p)
    case SetRole(p, role, trusted) => SetRoleTx(d, p, role, trusted)
    case GrantProject(p, project, scopes, expires) => GrantProjectTx(d, now, p, project, scopes, expires)
    case RevokeProject(p, project) => RevokeProjectTx(d, p, project)
    case NewRecoveryCode(code) => NewRecoveryCodeTx(d, code)
    case RecoverOwner(code, owner) => RecoverOwnerTx(d, code, owner)
    case CreateGroup(g, role, trusted) => CreateGroupTx(d, g, role, trusted)
    case SaveGroup(g, revision, role, trusted) => SaveGroupTx(d, g, revision, role, trusted)
    case SetMember(g, p, present, expires) => SetMemberTx(d, now, g, p, present, expires)
    case SetMapping(g, claim, present) => SetMappingTx(d, g, claim, present)
    case GrantGroup(g, project, scopes, expires) => GrantGroupTx(d, now, g, project, scopes, expires)
    case SyncClaims(p, issuer, claims, ttl) => SyncClaimsTx(d, now, p, issuer, claims, ttl)
  }

  // ------------------------------------------------------------- the fence

  /** Membership rows, claim mappings and group grants only ever name existing groups. */
  ghost predicate Referential(d: Directory) {
    && (forall m :: m in d.memberships ==> m.group in d.groups)
    && (forall c :: c in d.mappings ==> d.mappings[c] in d.groups)
    && (forall k :: k in d.groupProjects ==> k.group in d.groups)
  }

  ghost predicate MayOn(d: Directory, p: Pid, project: string, s: Scope, now: real) {
    exists r :: CountsIn(d, p, project, now, r) && s in r.scopes
  }

  lemma MayOnIsGrant(d: Directory, p: Pid, project: string, s: Scope, now: real)
    requires now >= 0.0
    ensures MayOn(d, p, project, s, now) <==>
            GrantOf(d, p, project, now).Some? && s in GrantOf(d, p, project, now).value.scopes
  {
    GrantSums(d, p, project, now);
    if MayOn(d, p, project, s, now) {
      var r :| CountsIn(d, p, project, now, r) && s in r.scopes;
      assert r in GrantRows(d, p, now) && Counts(r, project, now);
    }
    assert forall r :: r in GrantRows(d, p, now) && Counts(r, project, now) ==> CountsIn(d, p, project, now, r);
  }

  /** Two states give `p` the same scopes, the same host role and the same project rights. */
  ghost predicate SameAuthority(d: Directory, d': Directory, p: Pid, now: real) {
    && EffectiveScopes(d, p, now) == EffectiveScopes(d', p, now)
    && HostRole(d, p, now) == HostRole(d', p, now)
    && forall project, s :: MayOn(d, p, project, s, now) <==> MayOn(d', p, project, s, now)
  }

  /** Every group row of `d` reappears in `d'` with the same project and scopes. */
  ghost predicate RowsCarry(d: Directory, d': Directory, p: Pid, now: real) {
    forall r :: r in GroupRows(d, p, now) ==>
      exists r' :: r' in GroupRows(d', p, now) && r'.project == r.project && r'.scopes == r.scopes
  }

  lemma GroupRowCurrent(d: Directory, p: Pid, now: real, r: GrantRow)
    requires r in GroupRows(d, p, now)
    ensures Current(r.expires, now)
  {
  }

  lemma MayOnCarries(d: Directory, d': Directory, p: Pid, project: string, s: Scope, now: real)
    requires OwnRows(d, p) == OwnRows(d', p) && RowsCarry(d, d', p, now)
    requires MayOn(d, p, project, s, now)
    ensures MayOn(d', p, project, s, now)
  {
    var r :| CountsIn(d, p, project, now, r) && s in r.scopes;
    if r in OwnRows(d, p) {
      assert CountsIn(d', p, project, now, r);
    } else {
      var r' :| r' in GroupRows(d', p, now) && r'.project == r.project && r'.scopes == r.scopes;
      GroupRowCurrent(d', p, now, r');
      assert CountsIn(d', p, project, now, r');
    }
  }

  /** What authority depends on: if these parts agree, so does the authority. */
  lemma AuthorityFrame(d: Directory, d': Directory, p: Pid, now: real)
    requires p in d.principals && p in d'.principals && d.principals[p].scopes == d'.principals[p].scopes
    requires p in d.hostRoles <==> p in d'.hostRoles
    requires p in d.hostRoles ==> d.hostRoles[p] == d'.hostRoles[p]
    requires OwnRows(d, p) == OwnRows(d', p)
    requires MemberGroups(d, p, now) == MemberGroups(d', p, now)
    requires forall g :: g in MemberGroups(d, p, now) && g in d.groups && g in d'.groups ==>
               d.groups[g].role == d'.groups[g].role && d.groups[g].trusted == d'.groups[g].trusted
    requires RowsCarry(d, d', p, now) && RowsCarry(d', d, p, now)
    ensures SameAuthority(d, d', p, now)
  {
    var groups := MemberGroups(d, p, now);
    assert forall g :: g in groups ==> g in d.groups && g in d'.groups;
    assert RoleGrants(d, p, now) == RoleGrants(d', p, now);
    SameRole(d, d', p, now);
    forall s
      ensures s in EffectiveScopes(d, p, now) <==> s in EffectiveScopes(d', p, now)
    {
    }
    forall project, s
      ensures MayOn(d, p, project, s, now) <==> MayOn(d', p, project, s, now)
    {
      if MayOn(d, p, project, s, now) { MayOnCarries(d, d', p, project, s, now); }
      if MayOn(d', p, project, s, now) { MayOnCarries(d', d, p, project, s, now); }
    }
  }

  lemma SameRole(d: Directory, d': Directory, p: Pid, now: real)
    requires RoleGrants(d, p, now) == RoleGrants(d', p, now)
    ensures HostRole(d, p, now) == HostRole(d', p, now)
  {
  }

  /** Versions only rise, and an unchanged version certifies unchanged authority. */
  ghost predicate Fenced(d: Directory, d': Directory, now: real) {
    forall p :: p in d.principals ==>
      && p in d'.principals
      && d.principals[p].version <= d'.principals[p].version
      && (d.principals[p].version == d'.principals[p].version ==> SameAuthority(d, d', p, now))
  }

  /** Authority that comes from groups never moves under a live session. */
  ghost predicate RevokesChanged(d: Directory, c: Change, now: real) {
    forall p :: p in d.principals && p in c.dir.principals && !SameAuthority(d, c.dir, p, now) ==> p in c.revoked
  }

  predicate GroupOperation(op: Operation) {
    op.CreateGroup? || op.SaveGroup? || op.SetMember? || op.SetMapping? || op.GrantGroup? || op.SyncClaims?
  }

  lemma RowsCarrySame(d: Directory, d': Directory, p: Pid, now: real)
    requires GroupRows(d, p, now) == GroupRows(d', p, now)
    ensures RowsCarry(d, d', p, now)
  {
  }

  /** The principal's role, scopes and own grants, its membership rows and its groups' rows are all left alone. */
  ghost predicate Untouched(d: Directory, d': Directory, p: Pid) {
    && d'.hostRoles == d.hostRoles && d'.memberProjects == d.memberProjects
    && p in d.principals && p in d'.principals && d.principals[p].scopes == d'.principals[p].scopes
    && (forall m: Membership :: m.principal == p ==> (m in d.memberships <==> m in d'.memberships))
    && (forall m :: m in d.memberships && m.principal == p ==>
          && d.memberships[m] == d'.memberships[m]
          && m.group in d.groups && m.group in d'.groups
          && d.groups[m.group].role == d'.groups[m.group].role
          && d.groups[m.group].trusted == d'.groups[m.group].trusted)
    && (forall m, k: GroupProject :: m in d.memberships && m.principal == p && k.group == m.group ==>
          && (k in d.groupProjects <==> k in d'.groupProjects)
          && (k in d.groupProjects ==> d.groupProjects[k] == d'.groupProjects[k]))
  }

  lemma UntouchedFrame(d: Directory, d': Directory, p: Pid, now: real)
    requires Untouched(d, d', p)
    ensures SameAuthority(d, d', p, now)
  {
    assert OwnRows(d, p) == OwnRows(d', p);
    assert MemberGroups(d, p, now) == MemberGroups(d', p, now);
    assert GroupRows(d, p, now) == GroupRows(d', p, now);
    RowsCarrySame(d, d', p, now);
    RowsCarrySame(d', d, p, now);
    AuthorityFrame(d, d', p, now);
  }

  /** What every committed transaction guarantees; the last clause is for those on groups. */
  ghost predicate Sound(d: Directory, c: Option<Change>, now: real, onGroups: bool) {
    c.Some? ==>
      && Referential(c.value.dir)
      && Fenced(d, c.value.dir, now)
      && (onGroups ==> RevokesChanged(d, c.value, now))
  }

  /** No group table changes, and no account but `target`. */
  ghost predicate OnlyAccount(d: Directory, d': Directory, target: Pid) {
    && d'.(principals := d.principals, hostRoles := d.hostRoles, memberProjects := d.memberProjects,
           identities := d.identities, recovery := d.recovery, disabledMethods := d.disabledMethods) == d
    && (forall p :: p in d.principals && p != target ==>
          && p in d'.principals && d'.principals[p] == d.principals[p]
          && (p in d.hostRoles <==> p in d'.hostRoles)
          && (p in d.hostRoles ==> d.hostRoles[p] == d'.hostRoles[p]))
    && (forall k :: k in d.memberProjects && k.principal != target ==>
          k in d'.memberProjects && d.memberProjects[k] == d'.memberProjects[k])
    && (forall k :: k in d'.memberProjects && k.principal != target ==> k in d.memberProjects)
  }

  /** The account either gets a later version or keeps its scopes, role and grants. */
  ghost predicate Versioned(d: Directory, d': Directory, p: Pid) {
    p in d.principals ==>
      && p in d'.principals
      && (d.principals[p].version < d'.principals[p].version ||
          (&& d.principals[p].version == d'.principals[p].version
           && d.principals[p].scopes == d'.principals[p].scopes
           && d.hostRoles == d'.hostRoles && d.memberProjects == d'.memberProjects))
  }

  lemma AccountSame(d: Directory, d': Directory, now: real, target: Pid, p: Pid)
    requires OnlyAccount(d, d', target) && Versioned(d, d', target)
    requires p in d.principals && d.principals[p].version == d'.principals[p].version
    ensures SameAuthority(d, d', p, now)
  {
    assert OwnRows(d, p) == OwnRows(d', p);
    assert MemberGroups(d, p, now) == MemberGroups(d', p, now);
    assert GroupRows(d, p, now) == GroupRows(d', p, now);
    RowsCarrySame(d, d', p, now);
    RowsCarrySame(d', d, p, now);
    AuthorityFrame(d, d', p, now);
  }

  lemma AccountSound(d: Directory, c: Change, now: real, target: Pid)
    requires Referential(d)
    requires OnlyAccount(d, c.dir, target) && Versioned(d, c.dir, target)
    ensures Sound(d, Some(c), now, false)
  {
    forall p | p in d.principals && d.principals[p].version == c.dir.principals[p].version
      ensures SameAuthority(d, c.dir, p, now)
    {
      AccountSame(d, c.dir, now, target, p);
    }
  }

  lemma SetScopesSound(d: Directory, now: real, p: Pid, scopes: set<Scope>)
    requires Referential(d)
    ensures Sound(d, SetScopesTx(d, p, scopes), now, false)
  {
    var c := SetScopesTx(d, p, scopes);
    if c.Some? { AccountSound(d, c.value, now, p); }
  }

  lemma DisableSound(d: Directory, now: real, p: Pid)
    requires Referential(d)
    ensures Sound(d, DisableTx(d, p), now, false)
  {
    var c := DisableTx(d, p);
    if c.Some? { AccountSound(d, c.value, now, p); }
  }

  lemma CreatePrincipalSound(d: Directory, now: real, p: Pid, scopes: set<Scope>)
    requires Referential(d)
    ensures Sound(d, CreatePrincipalTx(d, p, scopes), now, false)
  {
    var c := CreatePrincipalTx(d, p, scopes);
    if c.Some? { AccountSound(d, c.value, now, p); }
  }

  lemma MapIdentitySound(d: Directory, now: real, subject: Subject, p: Pid)
    requires Referential(d)
    ensures Sound(d, MapIdentityTx(d, subject, p), now, false)
  {
    var c := MapIdentityTx(d, subject, p);
    if c.Some? { AccountSound(d, c.value, now, p); }
  }

  lemma NewRecoveryCodeSound(d: Directory, now: real, code: nat)
    requires Referential(d)
    ensures Sound(d, NewRecoveryCodeTx(d, code), now, false)
  {
    var c := NewRecoveryCodeTx(d, code);
    if c.Some? { AccountSound(d, c.value, now, 0); }
  }

  lemma RecoverOwnerSound(d: Directory, now: real, code: nat, owner: Pid)
    requires Referential(d)
    ensures Sound(d, RecoverOwnerTx(d, code, owner), now, false)
  {
    var c := RecoverOwnerTx(d, code, owner);
    if c.Some? { AccountSound(d, c.value, now, owner); }
  }

  lemma SetRoleSound(d: Directory, now: real, p: Pid, role: Role, trusted: bool)
    requires Referential(d)
    ensures Sound(d, SetRoleTx(d, p, role, trusted), now, false)
  {
    var c := SetRoleTx(d, p, role, trusted);
    if c.Some? { AccountSound(d, c.value, now, p); }
  }

  lemma GrantProjectSound(d: Directory, now: real, p: Pid, project: string, scopes: set<Scope>, expires: Option<real>)
    requires Referential(d)
    ensures Sound(d, GrantProjectTx(d, now, p, project, scopes, expires), now, false)
  {
    var c := GrantProjectTx(d, now, p, project, scopes, expires);
    if c.Some? { AccountSound(d, c.value, now, p); }
  }

  lemma RevokeProjectSound(d: Directory, now: real, p: Pid, project: string)
    requires Referential(d)
    ensures Sound(d, RevokeProjectTx(d, p, project), now, false)
  {
    var c := RevokeProjectTx(d, p, project);
    if c.Some? { AccountSound(d, c.value, now, p); }
  }

  /** Group transactions bump and revoke the same set; authority outside it must not move. */
  lemma BumpedSound(d: Directory, c: Change, now: real)
    requires Referential(c.dir)
    requires c.dir.principals == Bump(d, c.revoked).principals
    requires forall p :: p in d.principals && p !in c.revoked ==> SameAuthority(d, c.dir, p, now)
    ensures Sound(d, Some(c), now, true)
  {
  }

  lemma GroupSound(d: Directory, c: Change, now: real)
    requires Referential(c.dir)
    requires c.dir.principals == Bump(d, c.revoked).principals
    requires forall p :: p in d.principals && p !in c.revoked ==> Untouched(d, c.dir, p)
    ensures Sound(d, Some(c), now, true)
  {
    forall p | p in d.principals && p !in c.revoked
      ensures SameAuthority(d, c.dir, p, now)
    {
      UntouchedFrame(d, c.dir, p, now);
    }
    BumpedSound(d, c, now);
  }

  lemma CreateGroupSound(d: Directory, now: real, g: Gid, role: Role, trusted: bool)
    requires Referential(d)
    ensures Sound(d, CreateGroupTx(d, g, role, trusted), now, true)
  {
    var c := CreateGroupTx(d, g, role, trusted);
    if c.Some? {
      forall q | q in d.principals && q !in c.value.revoked
        ensures Untouched(d, c.value.dir, q)
      {
      }
      GroupSound(d, c.value, now);
    }
  }

  lemma SaveGroupSound(d: Directory, now: real, g: Gid, revision: nat, role: Role, trusted: bool)
    requires Referential(d)
    ensures Sound(d, SaveGroupTx(d, g, revision, role, trusted), now, true)
  {
    var c := SaveGroupTx(d, g, revision, role, trusted);
    if c.Some? {
      forall q | q in d.principals && q !in c.value.revoked
        ensures Untouched(d, c.value.dir, q)
      {
      }
      GroupSound(d, c.value, now);
    }
  }

  lemma SetMemberSound(d: Directory, now: real, g: Gid, p: Pid, present: bool, expires: Option<real>)
    requires Referential(d)
    ensures Sound(d, SetMemberTx(d, now, g, p, present, expires), now, true)
  {
    var c := SetMemberTx(d, now, g, p, present, expires);
    if c.Some? {
      forall q | q in d.principals && q !in c.value.revoked
        ensures Untouched(d, c.value.dir, q)
      {
      }
      GroupSound(d, c.value, now);
    }
  }

  lemma SetMappingSound(d: Directory, now: real, g: Gid, claim: Claim, present: bool)
    requires Referential(d)
    ensures Sound(d, SetMappingTx(d, g, claim, present), now, true)
  {
    var c := SetMappingTx(d, g, claim, present);
    if c.Some? {
      forall q | q in d.principals && q !in c.value.revoked
        ensures Untouched(d, c.value.dir, q)
      {
      }
      GroupSound(d, c.value, now);
    }
  }

  lemma GrantGroupSound(d: Directory, now: real, g: Gid, project: string, scopes: set<Scope>, expires: Option<real>)
    requires Referential(d)
    ensures Sound(d, GrantGroupTx(d, now, g, project, scopes, expires), now, true)
  {
    var c := GrantGroupTx(d, now, g, project, scopes, expires);
    if c.Some? {
      forall q | q in d.principals && q !in c.value.revoked
        ensures Untouched(d, c.value.dir, q)
      {
      }
      GroupSound(d, c.value, now);
    }
  }

  /** Renewing exactly the groups an issuer already vouched for changes no group of the principal. */
  lemma RenewalKeepsGroups(d: Directory, d': Directory, p: Pid, source: Source, until: real, now: real)
    requires now < until
    requires d'.memberships == Resourced(d, p, source, SourcedGroups(d, p, source, now), until)
    requires d'.groups == d.groups
    ensures MemberGroups(d, p, now) == MemberGroups(d', p, now)
  {
    var ids := SourcedGroups(d, p, source, now);
    forall g
      ensures g in MemberGroups(d, p, now) <==> g in MemberGroups(d', p, now)
    {
      if g in MemberGroups(d, p, now) {
        var m :| m in d.memberships && m.principal == p && m.group == g && Current(d.memberships[m], now);
        assert m.source == source ==> g in ids && m == Membership(p, g, source);
        assert m in d'.memberships && Current(d'.memberships[m], now);
      }
      if g in MemberGroups(d', p, now) {
        var m :| m in d'.memberships && m.principal == p && m.group == g && Current(d'.memberships[m], now);
        if m.source == source {
          assert g in ids;
        } else {
          assert m in d.memberships;
        }
      }
    }
  }

  lemma RenewalCarries(d: Directory, d': Directory, p: Pid, source: Source, until: real, now: real)
    requires now < until
    requires d'.memberships == Resourced(d, p, source, SourcedGroups(d, p, source, now), until)
    requires d'.groupProjects == d.groupProjects
    ensures RowsCarry(d, d', p, now) && RowsCarry(d', d, p, now)
  {
    var ids := SourcedGroups(d, p, source, now);
    forall r | r in GroupRows(d, p, now)
      ensures exists r' :: r' in GroupRows(d', p, now) && r'.project == r.project && r'.scopes == r.scopes
    {
      var m, k :| m in d.memberships && k in d.groupProjects && m.group == k.group && m.principal == p
        && Current(d.memberships[m], now) && Current(d.groupProjects[k].expires, now)
        && r == GrantRow(k.project, d.groupProjects[k].scopes, MinExpiry(d.groupProjects[k].expires, d.memberships[m]));
      assert m.source == source ==> m.group in ids && m == Membership(p, m.group, source);
      assert m in d'.memberships && Current(d'.memberships[m], now);
      var r' := GrantRow(k.project, d'.groupProjects[k].scopes, MinExpiry(d'.groupProjects[k].expires, d'.memberships[m]));
      assert r' in GroupRows(d', p, now);
    }
    forall r | r in GroupRows(d', p, now)
      ensures exists r' :: r' in GroupRows(d, p, now) && r'.project == r.project && r'.scopes == r.scopes
    {
      var m, k :| m in d'.memberships && k in d'.groupProjects && m.group == k.group && m.principal == p
        && Current(d'.memberships[m], now) && Current(d'.groupProjects[k].expires, now)
        && r == GrantRow(k.project, d'.groupProjects[k].scopes, MinExpiry(d'.groupProjects[k].expires, d'.memberships[m]));
      if m.source == source {
        assert m.group in ids;
      }
      assert m in d.memberships && Current(d.memberships[m], now);
      var r' := GrantRow(k.project, d.groupProjects[k].scopes, MinExpiry(d.groupProjects[k].expires, d.memberships[m]));
      assert r' in GroupRows(d, p, now);
    }
  }

  lemma RenewalSame(d: Directory, d': Directory, p: Pid, source: Source, until: real, now: real)
    requires now < until && p in d.principals
    requires d' == d.(memberships := Resourced(d, p, source, SourcedGroups(d, p, source, now), until))
    ensures SameAuthority(d, d', p, now)
  {
    assert OwnRows(d, p) == OwnRows(d', p);
    RenewalKeepsGroups(d, d', p, source, until, now);
    RenewalCarries(d, d', p, source, until, now);
    AuthorityFrame(d, d', p, now);
  }

  lemma SyncReferential(d: Directory, p: Pid, issuer: string, claims: seq<string>, until: real)
    requires Referential(d)
    ensures Referential(d.(memberships := Resourced(d, p, Issuer(issuer), MappedGroups(d, issuer, claims), until)))
  {
    assert forall g :: g in MappedGroups(d, issuer, claims) ==> g in d.groups;
  }

  lemma SyncOthers(d: Directory, p: Pid, source: Source, ids: set<Gid>, until: real, bumped: set<Pid>, q: Pid, now: real)
    requires Referential(d)
    requires q in d.principals && q != p && bumped <= {p}
    ensures SameAuthority(d, Bump(d.(memberships := Resourced(d, p, source, ids, until)), bumped), q, now)
  {
    UntouchedFrame(d, Bump(d.(memberships := Resourced(d, p, source, ids, until)), bumped), q, now);
  }

  lemma SyncRenewed(d: Directory, p: Pid, source: Source, until: real, now: real)
    requires now < until && p in d.principals
    ensures SameAuthority(d, Bump(d.(memberships := Resourced(d, p, source, SourcedGroups(d, p, source, now), until)), {}), p, now)
  {
    var d1 := d.(memberships := Resourced(d, p, source, SourcedGroups(d, p, source, now), until));
    assert Bump(d1, {}).principals == d1.principals;
    RenewalSame(d, d1, p, source, until, now);
  }

  lemma SyncClaimsSound(d: Directory, now: real, p: Pid, issuer: string, claims: seq<string>, ttl: int)
    requires Referential(d)
    ensures Sound(d, SyncClaimsTx(d, now, p, issuer, claims, ttl), now, true)
  {
    if SyncClaimsTx(d, now, p, issuer, claims, ttl).Some? {
      var c := SyncClaimsTx(d, now, p, issuer, claims, ttl).value;
      var source, until, ids := Issuer(issuer), now + ttl as real, MappedGroups(d, issuer, claims);
      assert c.dir == Bump(d.(memberships := Resourced(d, p, source, ids, until)), c.revoked);
      SyncReferential(d, p, issuer, claims, until);
      forall q | q in d.principals && q !in c.revoked
        ensures SameAuthority(d, c.dir, q, now)
      {
        if q == p {
          assert c.revoked == {} && ids == SourcedGroups(d, p, source, now);
          SyncRenewed(d, p, source, until, now);
        } else {
          SyncOthers(d, p, source, ids, until, c.revoked, q, now);
        }
      }
      BumpedSound(d, c, now);
    }
  }

  /**
   Every administrative transaction, on any tables and at any time: references
   stay intact, versions never fall, an unchanged version means unchanged
   authority, and a group transaction revokes the sessions of everyone whose
   authority it moved.
   */
  lemma OperationSound(d: Directory, now: real, op: Operation)
    requires Referential(d)
    ensures Sound(d, Apply(d, now, op), now, GroupOperation(op))
    ensures Switching(d, Apply(d, now, op))
  {
    OperationFenced(d, now, op);
    OperationSwitches(d, now, op);
  }

  /** No account is removed, and one that is switched off or on has its sessions revoked. */
  ghost predicate SwitchesRevoke(d: Directory, c: Change) {
    forall p :: p in d.principals ==>
      p in c.dir.principals && (c.dir.principals[p].enabled != d.principals[p].enabled ==> p in c.revoked)
  }

  lemma OneRowSwitches(d: Directory, c: Change, p: Pid, row: Principal)
    requires c.dir.principals == d.principals[p := row]
    requires p in d.principals && row.enabled != d.principals[p].enabled ==> p in c.revoked
    ensures SwitchesRevoke(d, c)
  {
  }

  lemma BumpSwitchesNone(d: Directory, c: Change, bumped: set<Pid>)
    requires c.dir.principals == Bump(d, bumped).principals || c.dir.principals == d.principals
    ensures SwitchesRevoke(d, c)
  {
  }

  ghost predicate Switching(d: Directory, c: Option<Change>) { c.Some? ==> SwitchesRevoke(d, c.value) }

  lemma CreateSwitches(d: Directory, p: Pid, scopes: set<Scope>)
    ensures Switching(d, CreatePrincipalTx(d, p, scopes))
  {
    var c := CreatePrincipalTx(d, p, scopes);
    if c.Some? { if p in c.value.dir.principals { OneRowSwitches(d, c.value, p, c.value.dir.principals[p]); } }
  }

  lemma ScopesSwitches(d: Directory, p: Pid, scopes: set<Scope>)
    ensures Switching(d, SetScopesTx(d, p, scopes))
  {
    var c := SetScopesTx(d, p, scopes);
    if c.Some? { if p in c.value.dir.principals { OneRowSwitches(d, c.value, p, c.value.dir.principals[p]); } }
  }

  lemma DisableSwitches(d: Directory, p: Pid)
    ensures Switching(d, DisableTx(d, p))
  {
    var c := DisableTx(d, p);
    if c.Some? { if p in c.value.dir.principals { OneRowSwitches(d, c.value, p, c.value.dir.principals[p]); } }
  }

  lemma RoleSwitches(d: Directory, p: Pid, role: Role, trusted: bool)
    ensures Switching(d, SetRoleTx(d, p, role, trusted))
  {
    var c := SetRoleTx(d, p, role, trusted);
    if c.Some? { if p in c.value.dir.principals { OneRowSwitches(d, c.value, p, c.value.dir.principals[p]); } }
  }

  lemma RecoverSwitches(d: Directory, code: nat, p: Pid)
    ensures Switching(d, RecoverOwnerTx(d, code, p))
  {
    var c := RecoverOwnerTx(d, code, p);
    if c.Some? { if p in c.value.dir.principals { OneRowSwitches(d, c.value, p, c.value.dir.principals[p]); } }
  }

  lemma GrantProjectSwitches(d: Directory, now: real, p: Pid, project: string, scopes: set<Scope>, expires: Option<real>)
    ensures Switching(d, GrantProjectTx(d, now, p, project, scopes, expires))
  {
    var c := GrantProjectTx(d, now, p, project, scopes, expires);
    if c.Some? { BumpSwitchesNone(d, c.value, {p}); }
  }

  lemma RevokeProjectSwitches(d: Directory, p: Pid, project: string)
    ensures Switching(d, RevokeProjectTx(d, p, project))
  {
    var c := RevokeProjectTx(d, p, project);
    if c.Some? { BumpSwitchesNone(d, c.value, {p}); }
  }

  lemma SaveGroupSwitches(d: Directory, g: Gid, revision: nat, role: Role, trusted: bool)
    ensures Switching(d, SaveGroupTx(d, g, revision, role, trusted))
  {
    var c := SaveGroupTx(d, g, revision, role, trusted);
    if c.Some? { BumpSwitchesNone(d, c.value, c.value.revoked); }
  }

  lemma MemberSwitches(d: Directory, now: real, g: Gid, p: Pid, present: bool, expires: Option<real>)
    ensures Switching(d, SetMemberTx(d, now, g, p, present, expires))
  {
    var c := SetMemberTx(d, now, g, p, present, expires);
    if c.Some? { BumpSwitchesNone(d, c.value, c.value.revoked); }
  }

  lemma MappingSwitches(d: Directory, g: Gid, claim: Claim, present: bool)
    ensures Switching(d, SetMappingTx(d, g, claim, present))
  {
    var c := SetMappingTx(d, g, claim, present);
    if c.Some? { BumpSwitchesNone(d, c.value, c.value.revoked); }
  }

  lemma GrantGroupSwitches(d: Directory, now: real, g: Gid, project: string, scopes: set<Scope>, expires: Option<real>)
    ensures Switching(d, GrantGroupTx(d, now, g, project, scopes, expires))
  {
    var c := GrantGroupTx(d, now, g, project, scopes, expires);
    if c.Some? { BumpSwitchesNone(d, c.value, c.value.revoked); }
  }

  lemma SyncSwitches(d: Directory, now: real, p: Pid, issuer: string, claims: seq<string>, ttl: int)
    ensures Switching(d, SyncClaimsTx(d, now, p, issuer, claims, ttl))
  {
    var c := SyncClaimsTx(d, now, p, issuer, claims, ttl);
    if c.Some? { BumpSwitchesNone(d, c.value, c.value.revoked); }
  }

  lemma OperationSwitches(d: Directory, now: real, op: Operation)
    ensures Switching(d, Apply(d, now, op))
  {
    match op
    case CreatePrincipal(p, scopes) => CreateSwitches(d, p, scopes);
    case MapIdentity(_, _) =>
    case SetScopes(p, scopes) => ScopesSwitches(d, p, scopes);
    case Disable(p) => DisableSwitches(d, p);
    case SetRole(p, role, trusted) => RoleSwitches(d, p, role, trusted);
    case GrantProject(p, project, scopes, expires) => GrantProjectSwitches(d, now, p, project, scopes, expires);
    case RevokeProject(p, project) => RevokeProjectSwitches(d, p, project);
    case NewRecoveryCode(_) =>
    case RecoverOwner(code, owner) => RecoverSwitches(d, code, owner);
    case CreateGroup(_, _, _) =>
    case SaveGroup(g, revision, role, trusted) => SaveGroupSwitches(d, g, revision, role, trusted);
    case SetMember(g, p, present, expires) => MemberSwitches(d, now, g, p, present, expires);
    case SetMapping(g, claim, present) => MappingSwitches(d, g, claim, present);
    case GrantGroup(g, project, scopes, expires) => GrantGroupSwitches(d, now, g, project, scopes, expires);
    case SyncClaims(p, issuer, claims, ttl) => SyncSwitches(d, now, p, issuer, claims, ttl);
  }

  lemma OperationFenced(d: Directory, now: real, op: Operation)
    requires Referential(d)
    ensures Sound(d, Apply(d, now, op), now, GroupOperation(op))
  {
    match op
    case CreatePrincipal(p, scopes) => CreatePrincipalSound(d, now, p, scopes);
    case MapIdentity(subject, p) => MapIdentitySound(d, now, subject, p);
    case SetScopes(p, scopes) => SetScopesSound(d, now, p, scopes);
    case Disable(p) => DisableSound(d, now, p);
    case SetRole(p, role, trusted) => SetRoleSound(d, now, p, role, trusted);
    case GrantProject(p, project, scopes, expires) => GrantProjectSound(d, now, p, project, scopes, expires);
    case RevokeProject(p, project) => RevokeProjectSound(d, now, p, project);
    case NewRecoveryCode(code) => NewRecoveryCodeSound(d, now, code);
    case RecoverOwner(code, owner) => RecoverOwnerSound(d, now, code, owner);
    case CreateGroup(g, role, trusted) => CreateGroupSound(d, now, g, role, trusted);
    case SaveGroup(g, revision, role, trusted) => SaveGroupSound(d, now, g, revision, role, trusted);
    case SetMember(g, p, present, expires) => SetMemberSound(d, now, g, p, present, expires);
    case SetMapping(g, claim, present) => SetMappingSound(d, now, g, claim, present);
    case GrantGroup(g, project, scopes, expires) => GrantGroupSound(d, now, g, project, scopes, expires);
    case SyncClaims(p, issuer, claims, ttl) => SyncClaimsSound(d, now, p, issuer, claims, ttl);
  }
}
