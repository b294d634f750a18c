/**
 Live authorization: the decision for one resource, the decision for a whole
 collection at once, and the decision for a presented credential, with the
 theorems that all three agree.
 */
module Authorization {
  import opened Options
  import opened Directories
  import opened Sessions
  import SessionLaws
  import Entitlements

  /** A principal as callers hold it: whom it names, through which session, and whether as an enrolled job. */
  datatype Caller = Caller(id: Pid, session: Option<Sid>, execution: bool)

  function CurrentPrincipal(db: Database, caller: Caller): Option<Live> {
    if caller.session.Some? then
      var live := LivePrincipal(db, caller.session.value, caller.execution);
      if live.Some? && live.value.id == caller.id then live else None
    else if caller.id in db.dir.principals && db.dir.principals[caller.id].enabled then
      Some(Live(caller.id, EffectiveScopes(db.dir, caller.id, db.clock), db.dir.principals[caller.id].version))
    else None
  }

  /** Empty strings stand for absent arguments; SQL never matches an absent key. */
  function OwnerOf(d: Directory, kind: string, id: string): Option<Holder> {
    if kind != "" && id != "" && Resource(kind, id) in d.owners then Some(d.owners[Resource(kind, id)]) else None
  }

  predicate Administers(role: Option<RoleGrant>) {
    role.Some? && (role.value.role == Owner || role.value.role == Admin)
  }

  ghost predicate OnProject(d: Directory, p: Pid, project: string, action: Scope, now: real)
  {
    var g := GrantOf(d, p, project, now);
    g.Some? && Current(g.value.expires, now) && action in g.value.scopes
  }

  /** The part of a decision that concerns the resource or project named. */
  ghost predicate TargetAllowed(db: Database, p: Pid, action: Scope, project: string, kind: string, id: string) {
    if kind != "" || id != "" then
      var owner := OwnerOf(db.dir, kind, id);
      && owner.Some? && owner.value.principal == p
      && (project != "" ==> project == owner.value.project)
      && (owner.value.project == "" || OnProject(db.dir, p, owner.value.project, action, db.clock))
    else if project != "" then OnProject(db.dir, p, project, action, db.clock)
    else action == MachineView
  }

  predicate RoleAllows(role: Option<RoleGrant>, action: Scope) {
    role.Some? && action in RoleScopes(role.value.role) && (action in EXECUTION ==> role.value.trusted)
  }

  /** What the service decides for one action on one project or resource. */
  ghost predicate Permits(db: Database, caller: Caller, action: Scope, project: string, kind: string, id: string) {
    var live := CurrentPrincipal(db, caller);
    live.Some? && action in live.value.scopes &&
    var role := HostRole(db.dir, live.value.id, db.clock);
    Administers(role)
    || (RoleAllows(role, action) && TargetAllowed(db, live.value.id, action, project, kind, id))
  }

  // ------------------------------------------------------- row by row

  /** The caller is who it says, and is still entitled to act as such: a locked session only for an enrolled job. */
  predicate Authentic(db: Database, caller: Caller) {
    if caller.session.Some? then
      var sid := caller.session.value;
      && SessionLaws.Standing(db, sid) && db.sessions[sid].principal == caller.id
      && (db.sessions[sid].locked ==> caller.execution)
    else caller.id in db.dir.principals && db.dir.principals[caller.id].enabled
  }

  ghost predicate Commands(db: Database, caller: Caller, action: Scope) {
    Authentic(db, caller) &&
    if caller.session.Some? then SessionLaws.Wields(db, caller.session.value, action) else Holds(db.dir, caller.id, action, db.clock)
  }

  /** The resource, if one is named, is the caller's and in the project named; its project, or the project named, is granted. */
  ghost predicate Reaches(db: Database, p: Pid, action: Scope, project: string, kind: string, id: string) {
    if kind == "" && id == "" then
      if project == "" then action == MachineView else Entitlements.Covers(db.dir, p, project, action, db.clock)
    else
      && kind != "" && id != "" && Resource(kind, id) in db.dir.owners
      && var owner := db.dir.owners[Resource(kind, id)];
      && owner.principal == p && (project == "" || project == owner.project)
      && (owner.project != "" ==> Entitlements.Covers(db.dir, p, owner.project, action, db.clock))
  }

  /** Owners and administrators may do what they command; others need a role that gives it, trust to execute, and the target. */
  ghost predicate MayDo(db: Database, caller: Caller, action: Scope, project: string, kind: string, id: string) {
    && Commands(db, caller, action)
    && (Entitlements.Rules(db.dir, caller.id, db.clock) ||
        (RoleSuffices(db.dir, caller.id, db.clock, action) && Reaches(db, caller.id, action, project, kind, id)))
  }

  lemma CommandsExactly(db: Database, caller: Caller, action: Scope)
    ensures var live := CurrentPrincipal(db, caller);
      && (live.Some? <==> Authentic(db, caller)) && (live.Some? ==> live.value.id == caller.id)
      && (live.Some? && action in live.value.scopes <==> Commands(db, caller, action))
  {
    if caller.session.Some? { SessionLaws.LiveExactly(db, caller.session.value, caller.execution); }
    else { ScopesExactly(db.dir, caller.id, db.clock); }
  }

  lemma ReachesExactly(db: Database, p: Pid, action: Scope, project: string, kind: string, id: string)
    requires db.clock >= 0.0
    ensures TargetAllowed(db, p, action, project, kind, id) <==> Reaches(db, p, action, project, kind, id)
  {
    Entitlements.CoversExactly(db.dir, p, project, action, db.clock);
    var owner := OwnerOf(db.dir, kind, id);
    if owner.Some? { Entitlements.CoversExactly(db.dir, p, owner.value.project, action, db.clock); }
  }

  ghost predicate RoleSuffices(d: Directory, p: Pid, now: real, action: Scope) {
    && Entitlements.RoleGives(d, p, now, action)
    && (action == TerminalControl || action == AgentRun ==> Entitlements.Trusted(d, p, now))
  }

  lemma RoleSufficesExactly(d: Directory, p: Pid, now: real, action: Scope)
    ensures Administers(HostRole(d, p, now)) <==> Entitlements.Rules(d, p, now)
    ensures RoleAllows(HostRole(d, p, now), action) <==> RoleSuffices(d, p, now, action)
  {
    Entitlements.RulesExactly(d, p, now);
    Entitlements.GivesExactly(d, p, now, action);
  }

  /** What the service decides, by ranking roles and summing grants, is what single rows entitle to. */
  lemma PermitsExactly(db: Database, caller: Caller, action: Scope, project: string, kind: string, id: string)
    requires db.clock >= 0.0
    ensures Permits(db, caller, action, project, kind, id) <==> MayDo(db, caller, action, project, kind, id)
  {
    CommandsExactly(db, caller, action);
    RoleSufficesExactly(db.dir, caller.id, db.clock, action);
    ReachesExactly(db, caller.id, action, project, kind, id);
  }

  // -------------------------------------------------------- reading the tables

  /** The rows of the grant query, in whatever order the database returns them. */
  method ReadGrantRows(d: Directory, p: Pid, now: real) returns (rows: seq<GrantRow>)
    ensures Elements(rows) == GrantRows(d, p, now)
  {
    rows := [];
    var pending := GrantRows(d, p, now);
    while pending != {}
      invariant Elements(rows) + pending == GrantRows(d, p, now)
      decreases pending
    {
      var row :| row in pending;
      assert Elements(rows + [row]) == Elements(rows) + {row};
      rows := rows + [row];
      pending := pending - {row};
    }
  }

  method Grants(d: Directory, p: Pid, now: real) returns (grants: map<string, Grant>)
    requires now >= 0.0
    ensures grants == Rights(d, p, now)
  {
    var rows := ReadGrantRows(d, p, now);
    grants := CollectGrants(rows, now);
    FoldIsRights(d, p, rows, now);
  }

  method CheckTarget(db: Database, p: Pid, action: Scope, project: string, kind: string, id: string) returns (allowed: bool)
    requires db.clock >= 0.0
    ensures allowed == TargetAllowed(db, p, action, project, kind, id)
  {
    var target := project;
    if kind != "" || id != "" {
      var owner := OwnerOf(db.dir, kind, id);
      if owner.None? || owner.value.principal != p || (project != "" && project != owner.value.project) {
        return false;
      }
      target := owner.value.project;
      if target == "" {
        return true;
      }
    }
    if target != "" {
      var grants := Grants(db.dir, p, db.clock);
      var grant := Lookup(grants, target);
      return grant.Some? && (grant.value.expires.None? || grant.value.expires.value > db.clock) && action in grant.value.scopes;
    }
    return action == MachineView;
  }

  method RequirePrincipal(db: Database, caller: Caller, action: Scope, project: string, kind: string, id: string)
    returns (permitted: bool)
    requires db.clock >= 0.0
    ensures permitted == Permits(db, caller, action, project, kind, id)
    ensures permitted <==> MayDo(db, caller, action, project, kind, id)
  {
    PermitsExactly(db, caller, action, project, kind, id);
    var live := CurrentPrincipal(db, caller);
    if live.None? || action !in live.value.scopes {
      return false;
    }
    var role := HostRole(db.dir, live.value.id, db.clock);
    if role.Some? && (role.value.role == Owner || role.value.role == Admin) {
      return true;
    }
    if role.None? || action !in RoleScopes(role.value.role) {
      return false;
    }
    if action in EXECUTION && !role.value.trusted {
      return false;
    }
    permitted := CheckTarget(db, live.value.id, action, project, kind, id);
  }

  // ------------------------------------------------------------ a credential

  /**
   The decision for a presented token. `initialized` and `setupOwner` are the
   metadata row and the first local identity that let the setup owner be adopted.
   */
  ghost predicate Evaluates(db: Database, initialized: bool, setupOwner: Option<Pid>, token: AccessToken,
                            action: Scope, project: string, kind: string, id: string)
  {
    var session := Resolve(db, token, false);
    session.Some? && action in session.value.live.scopes &&
    var p := session.value.live.id;
    var row := HostRole(db.dir, p, db.clock);
    var adopted := row.None? && !initialized && setupOwner == Some(p);
    if adopted || Administers(row) then true
    else if row.None? || action !in RoleScopes(row.value.role) then false
    else if action in EXECUTION && !row.value.trusted then false
    else if (kind == "") != (id == "") then false
    else if kind != "" then
      var owner := OwnerOf(db.dir, kind, id);
      if owner.None? || owner.value.principal != p then false
      else if project != "" && owner.value.project != project then false
      else if owner.value.project == "" then true
      else OnProject(db.dir, p, owner.value.project, action, db.clock)
    else if project != "" then OnProject(db.dir, p, project, action, db.clock)
    else action == MachineView
  }

  /** Except for adopting the setup owner once, a token is allowed exactly what its session's principal is. */
  lemma EvaluateAgreesWithRequire(db: Database, initialized: bool, setupOwner: Option<Pid>, token: AccessToken,
                                  action: Scope, project: string, kind: string, id: string)
    ensures var session := Resolve(db, token, false);
      session.Some? ==>
        var p := session.value.live.id;
        var adopted := HostRole(db.dir, p, db.clock).None? && !initialized && setupOwner == Some(p);
        Evaluates(db, initialized, setupOwner, token, action, project, kind, id) <==>
          Permits(db, Caller(p, Some(token.sid), false), action, project, kind, id)
          || (adopted && action in session.value.live.scopes)
  {
  }

  // ------------------------------------------------------------ a collection

  datatype Row = Row(id: string, project: string)
  datatype Snapshot =
    | Authority(resources: seq<Row>, expires: Option<real>, administrator: bool)
    | Forbidden
    | Invalid

  predicate ValidCollection(action: Scope, kind: string, ids: set<string>) {
    && action in VIEWER
    && 0 < |kind| <= 64 && |ids| <= 5000
    && forall id :: id in ids ==> 0 < |id| <= 256
  }

  function Ids(ids: seq<string>): set<string> {
    set id | id in ids
  }

  method Distinct(ids: seq<string>) returns (unique: seq<string>)
    ensures Ids(unique) == Ids(ids) && |unique| == |Ids(ids)|
    ensures forall i, j :: 0 <= i < j < |unique| ==> unique[i] != unique[j]
  {
    unique := [];
    for k := 0 to |ids|
      invariant Ids(unique) == Ids(ids[..k]) && |unique| == |Ids(unique)|
      invariant forall i, j :: 0 <= i < j < |unique| ==> unique[i] != unique[j]
    {
      assert ids[..k + 1] == ids[..k] + [ids[k]];
      assert Ids(ids[..k + 1]) == Ids(ids[..k]) + {ids[k]};
      if ids[k] !in unique {
        assert Ids(unique + [ids[k]]) == Ids(unique) + {ids[k]};
        unique := unique + [ids[k]];
      } else {
        assert ids[k] in Ids(unique);
      }
    }
    assert ids[..|ids|] == ids;
  }

  /** The ownership rows of one chunk of identifiers, each at most once, in any order. */
  method ReadOwned(d: Directory, kind: string, p: Pid, chunk: seq<string>) returns (rows: seq<Row>)
    requires kind != ""
    requires forall i, j :: 0 <= i < j < |chunk| ==> chunk[i] != chunk[j]
    requires forall id :: id in chunk ==> id != ""
    ensures forall r :: r in rows <==> r.id in chunk && OwnerOf(d, kind, r.id) == Some(Holder(p, r.project))
    ensures forall i, j :: 0 <= i < j < |rows| ==> rows[i].id != rows[j].id
  {
    rows := [];
    for k := 0 to |chunk|
      invariant forall r :: r in rows <==> r.id in chunk[..k] && OwnerOf(d, kind, r.id) == Some(Holder(p, r.project))
      invariant forall i, j :: 0 <= i < j < |rows| ==> rows[i].id != rows[j].id
    {
      assert chunk[..k + 1] == chunk[..k] + [chunk[k]];
      var owner := OwnerOf(d, kind, chunk[k]);
      if owner.Some? && owner.value.principal == p {
        var row := Row(chunk[k], owner.value.project);
        assert forall r :: r in rows + [row] <==> r in rows || r == row;
        rows := rows + [row];
      }
    }
    assert chunk[..|chunk|] == chunk;
  }

  /** Whether the row's project lets the action through. */
  ghost predicate RowAllowed(d: Directory, p: Pid, action: Scope, now: real, row: Row)
  {
    row.project == "" || OnProject(d, p, row.project, action, now)
  }

  ghost predicate Selected(d: Directory, kind: string, p: Pid, action: Scope, now: real, ids: seq<string>, row: Row)
  {
    row.id in ids && OwnerOf(d, kind, row.id) == Some(Holder(p, row.project)) && RowAllowed(d, p, action, now, row)
  }

  ghost predicate Ends(d: Directory, p: Pid, now: real, row: Row, expires: Option<real>) {
    row.project != "" && GrantOf(d, p, row.project, now).Some? && GrantOf(d, p, row.project, now).value.expires == expires
  }

  /** `expires` is the earliest expiry among the grants of the listed rows. */
  ghost predicate Earliest(d: Directory, p: Pid, now: real, rows: seq<Row>, expires: Option<real>)
  {
    && (forall r, e: Option<real> :: r in rows && e.Some? && Ends(d, p, now, r, e) ==> expires.Some? && expires.value <= e.value)
    && (expires.Some? ==> exists r :: r in rows && Ends(d, p, now, r, expires))
  }

  lemma EarliestExtends(d: Directory, p: Pid, now: real, rows: seq<Row>, expires: Option<real>, row: Row)
    requires Earliest(d, p, now, rows, expires)
    requires row.project != "" ==> GrantOf(d, p, row.project, now).Some?
    ensures var own := if row.project != "" then GrantOf(d, p, row.project, now).value.expires else None;
      Earliest(d, p, now, rows + [row], MinExpiry(expires, own))
  {
    var own := if row.project != "" then GrantOf(d, p, row.project, now).value.expires else None;
    assert forall r :: r in rows + [row] <==> r in rows || r == row;
    assert own.Some? ==> Ends(d, p, now, row, own);
  }

  method FilterChunk(d: Directory, p: Pid, action: Scope, now: real, grants: map<string, Grant>, rows: seq<Row>,
                     before: seq<Row>, soonest: Option<real>)
    returns (allowed: seq<Row>, expires: Option<real>)
    requires now >= 0.0
    requires grants == Rights(d, p, now)
    requires Earliest(d, p, now, before, soonest)
    ensures forall r :: r in allowed <==> r in before || (r in rows && RowAllowed(d, p, action, now, r))
    ensures Earliest(d, p, now, allowed, expires)
  {
    allowed, expires := before, soonest;
    for k := 0 to |rows|
      invariant forall r :: r in allowed <==> r in before || (r in rows[..k] && RowAllowed(d, p, action, now, r))
      invariant Earliest(d, p, now, allowed, expires)
    {
      assert rows[..k + 1] == rows[..k] + [rows[k]];
      var row := rows[k];
      var grant := Lookup(grants, row.project);
      if row.project != "" && (grant.None? || (grant.value.expires.Some? && grant.value.expires.value <= now) || action !in grant.value.scopes) {
        continue;
      }
      EarliestExtends(d, p, now, allowed, expires, row);
      allowed := allowed + [row];
      if row.project != "" && grant.value.expires.Some? {
        expires := MinExpiry(expires, grant.value.expires);
      }
    }
    assert rows[..|rows|] == rows;
  }

  predicate Lists(resources: seq<Row>, id: string) {
    exists r :: r in resources && r.id == id
  }

  /** The collection decision admits exactly the asked-for identifiers that are permitted one at a time. */
  ghost predicate Decides(db: Database, caller: Caller, action: Scope, kind: string, ids: seq<string>, snapshot: Snapshot)
  {
    match snapshot
    case Authority(resources, _, _) =>
      forall id :: Lists(resources, id) <==> id in ids && Permits(db, caller, action, "", kind, id)
    case Forbidden => forall id :: id in ids ==> !Permits(db, caller, action, "", kind, id)
    case Invalid => true
  }

  /** Who is asking: nobody entitled, an administrator, or a member whose rows must be looked up. */
  datatype Gate = Closed | Open | ByRow

  function CollectionGate(db: Database, caller: Caller, action: Scope): Gate {
    var live := CurrentPrincipal(db, caller.(execution := false));
    if live.None? || action !in live.value.scopes then Closed
    else
      var role := HostRole(db.dir, caller.id, db.clock);
      if role.None? || action !in RoleScopes(role.value.role) then Closed
      else if Administers(role) then Open
      else ByRow
  }

  method OpenGate(db: Database, caller: Caller, action: Scope) returns (gate: Gate)
    ensures gate == CollectionGate(db, caller, action)
  {
    var p := caller.id;
    if caller.session.Some? {
      var current := LivePrincipal(db, caller.session.value, false);
      if current.None? || current.value.id != p || action !in current.value.scopes {
        return Closed;
      }
    }
    if p !in db.dir.principals || !db.dir.principals[p].enabled || action !in EffectiveScopes(db.dir, p, db.clock) {
      return Closed;
    }
    var role := HostRole(db.dir, p, db.clock);
    if role.None? || action !in RoleScopes(role.value.role) {
      return Closed;
    }
    return if role.value.role == Owner || role.value.role == Admin then Open else ByRow;
  }

  /** The chunked walk over the ownership table. */
  method CollectOwned(db: Database, p: Pid, action: Scope, kind: string, identifiers: seq<string>)
    returns (allowed: seq<Row>, expires: Option<real>)
    requires db.clock >= 0.0 && kind != ""
    requires forall i, j :: 0 <= i < j < |identifiers| ==> identifiers[i] != identifiers[j]
    requires forall id :: id in identifiers ==> id != ""
    ensures forall r :: r in allowed <==> Selected(db.dir, kind, p, action, db.clock, identifiers, r)
    ensures Earliest(db.dir, p, db.clock, allowed, expires)
  {
    var grants := Grants(db.dir, p, db.clock);
    allowed, expires := [], None;
    var offset := 0;
    while offset < |identifiers|
      invariant 0 <= offset
      invariant forall r :: r in allowed <==>
        Selected(db.dir, kind, p, action, db.clock, identifiers[..if offset < |identifiers| then offset else |identifiers|], r)
      invariant Earliest(db.dir, p, db.clock, allowed, expires)
    {
      var next := if offset + 500 < |identifiers| then offset + 500 else |identifiers|;
      var chunk := identifiers[offset..next];
      assert forall id :: id in chunk ==> id in identifiers;
      assert forall i :: 0 <= i < |chunk| ==> chunk[i] == identifiers[offset + i];
      var rows := ReadOwned(db.dir, kind, p, chunk);
      assert identifiers[..next] == identifiers[..offset] + chunk;
      allowed, expires := FilterChunk(db.dir, p, action, db.clock, grants, rows, allowed, expires);
      offset := offset + 500;
    }
    assert identifiers[..|identifiers|] == identifiers;
  }

  method CheckCollection(action: Scope, kind: string, identifiers: seq<string>) returns (valid: bool)
    requires |identifiers| == |Ids(identifiers)|
    ensures valid == ValidCollection(action, kind, Ids(identifiers))
  {
    if action !in VIEWER || kind == "" || |kind| > 64 || |identifiers| > 5000 {
      return false;
    }
    for i := 0 to |identifiers|
      invariant forall j :: 0 <= j < i ==> 0 < |identifiers[j]| <= 256
    {
      if identifiers[i] == "" || |identifiers[i]| > 256 {
        assert identifiers[i] in Ids(identifiers);
        return false;
      }
    }
    return true;
  }

  method ResourceSnapshot(db: Database, caller: Caller, action: Scope, kind: string, ids: seq<string>) returns (snapshot: Snapshot)
    requires db.clock >= 0.0
    ensures snapshot.Invalid? <==> !ValidCollection(action, kind, Ids(ids))
    ensures !HiddenByLock(db, caller) ==> Decides(db, caller, action, kind, ids, snapshot)
    ensures HiddenByLock(db, caller) ==> !snapshot.Authority?
    ensures snapshot.Authority? && !snapshot.administrator ==>
      Earliest(db.dir, caller.id, db.clock, snapshot.resources, snapshot.expires)
  {
    var identifiers := Distinct(ids);
    var valid := CheckCollection(action, kind, identifiers);
    if !valid {
      return Invalid;
    }
    var gate := OpenGate(db, caller, action);
    GateDecides(db, gate, caller, action, kind);
    if gate.Closed? {
      ClosedDecides(db, caller, action, kind, ids);
      return Forbidden;
    }
    if gate.Open? {
      var all := seq(|identifiers|, i requires 0 <= i < |identifiers| => Row(identifiers[i], ""));
      ListsAll(all, identifiers, ids);
      OpenDecides(db, caller, action, kind, ids, all);
      return Authority(all, None, true);
    }
    assert forall id :: id in identifiers ==> id in Ids(identifiers);
    var allowed, expires := CollectOwned(db, caller.id, action, kind, identifiers);
    snapshot := Authority(allowed, expires, false);
    RowsDecide(db, caller, action, kind);
    BulkIsPointwise(db, caller, action, kind, ids, identifiers, snapshot);
  }

  lemma ClosedDecides(db: Database, caller: Caller, action: Scope, kind: string, ids: seq<string>)
    requires !HiddenByLock(db, caller) ==> forall id: string :: GateAgrees(db, Closed, caller, action, kind, id)
    ensures !HiddenByLock(db, caller) ==> Decides(db, caller, action, kind, ids, Forbidden)
  {
    assert forall id: string :: GateAgrees(db, Closed, caller, action, kind, id) ==> !Permits(db, caller, action, "", kind, id);
  }

  lemma OpenDecides(db: Database, caller: Caller, action: Scope, kind: string, ids: seq<string>, all: seq<Row>)
    requires !HiddenByLock(db, caller) && forall id: string :: GateAgrees(db, Open, caller, action, kind, id)
    requires forall id :: Lists(all, id) <==> id in ids
    ensures Decides(db, caller, action, kind, ids, Authority(all, None, true))
  {
    assert forall id: string :: GateAgrees(db, Open, caller, action, kind, id) ==> Permits(db, caller, action, "", kind, id);
  }

  lemma RowsDecide(db: Database, caller: Caller, action: Scope, kind: string)
    requires forall id: string :: GateAgrees(db, ByRow, caller, action, kind, id)
    ensures forall id :: Permits(db, caller, action, "", kind, id) <==> TargetAllowed(db, caller.id, action, "", kind, id)
  {
    forall id: string ensures Permits(db, caller, action, "", kind, id) <==> TargetAllowed(db, caller.id, action, "", kind, id) {
      assert GateAgrees(db, ByRow, caller, action, kind, id);
    }
  }

  /** An enrolled job whose session is locked: it may still act, but no collection is shown to it. */
  predicate HiddenByLock(db: Database, caller: Caller) {
    && caller.execution && caller.session.Some?
    && caller.session.value in db.sessions && db.sessions[caller.session.value].locked
  }

  lemma HiddenGate(db: Database, caller: Caller, action: Scope)
    requires HiddenByLock(db, caller)
    ensures CollectionGate(db, caller, action).Closed?
  {
  }

  ghost predicate GateAgrees(db: Database, gate: Gate, caller: Caller, action: Scope, kind: string, id: string) {
    match gate
    case Closed => !Permits(db, caller, action, "", kind, id)
    case Open => Permits(db, caller, action, "", kind, id)
    case ByRow => Permits(db, caller, action, "", kind, id) <==> TargetAllowed(db, caller.id, action, "", kind, id)
  }

  lemma SeenGate(db: Database, caller: Caller, action: Scope, kind: string, id: string)
    requires action in VIEWER && !HiddenByLock(db, caller)
    ensures GateAgrees(db, CollectionGate(db, caller, action), caller, action, kind, id)
  {
    assert action !in EXECUTION;
  }

  lemma GateDecides(db: Database, gate: Gate, caller: Caller, action: Scope, kind: string)
    requires action in VIEWER && gate == CollectionGate(db, caller, action)
    ensures HiddenByLock(db, caller) ==> gate.Closed?
    ensures !HiddenByLock(db, caller) ==> forall id: string :: GateAgrees(db, gate, caller, action, kind, id)
  {
    if HiddenByLock(db, caller) {
      HiddenGate(db, caller, action);
    } else {
      forall id: string ensures GateAgrees(db, gate, caller, action, kind, id) { SeenGate(db, caller, action, kind, id); }
    }
  }

  lemma ListsAll(all: seq<Row>, identifiers: seq<string>, ids: seq<string>)
    requires Ids(identifiers) == Ids(ids) && |all| == |identifiers|
    requires forall i :: 0 <= i < |all| ==> all[i] == Row(identifiers[i], "")
    ensures forall id :: Lists(all, id) <==> id in ids
  {
    forall id
      ensures Lists(all, id) <==> id in ids
    {
      assert id in ids <==> id in Ids(identifiers);
      if id in identifiers {
        var i :| 0 <= i < |identifiers| && identifiers[i] == id;
        assert all[i] in all;
      }
    }
  }

  lemma BulkIsPointwise(db: Database, caller: Caller, action: Scope, kind: string, ids: seq<string>, identifiers: seq<string>, snapshot: Snapshot)
    requires kind != "" && Ids(identifiers) == Ids(ids)
    requires forall id :: Permits(db, caller, action, "", kind, id) <==> TargetAllowed(db, caller.id, action, "", kind, id)
    requires snapshot.Authority?
    requires forall r :: r in snapshot.resources <==> Selected(db.dir, kind, caller.id, action, db.clock, identifiers, r)
    ensures Decides(db, caller, action, kind, ids, snapshot)
  {
    forall id
      ensures Lists(snapshot.resources, id) <==> id in ids && TargetAllowed(db, caller.id, action, "", kind, id)
    {
      assert id in ids <==> id in Ids(identifiers);
      assert id in Ids(identifiers) <==> id in identifiers;
      if Lists(snapshot.resources, id) {
        var r :| r in snapshot.resources && r.id == id;
        assert Selected(db.dir, kind, caller.id, action, db.clock, identifiers, r);
      }
      if id in ids && TargetAllowed(db, caller.id, action, "", kind, id) {
        var r := Row(id, OwnerOf(db.dir, kind, id).value.project);
        assert Selected(db.dir, kind, caller.id, action, db.clock, identifiers, r);
        assert r in snapshot.resources;
      }
    }
  }

  /** What a project grant allows now it still allows, with no intervening write, until the expiry reported with it. */
  lemma AllowedUntilExpiry(d: Directory, p: Pid, project: string, action: Scope, now: real, later: real)
    requires 0.0 <= now <= later
    requires GrantOf(d, p, project, now).Some? && Current(GrantOf(d, p, project, now).value.expires, later)
    ensures OnProject(d, p, project, action, now) <==> OnProject(d, p, project, action, later)
  {
    GrantStableUntilExpiry(d, p, project, now, later);
  }
}
