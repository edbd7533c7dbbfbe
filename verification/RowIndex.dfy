/** The rule table as the check and plan loops see it: rows, the query over their
    dimensions, and the existence test made before any rule is looked at
    (internal/ruletable/index, internal/ruletable/check.go). */
module RowIndex {
  import opened Common
  import opened Conditions
  import opened Check
  import opened Runtimes
  import opened PlanNodes
  import opened Plan
  import opened PlanCheck

  /** The routing dimensions of a row and what it binds them to. The row of a
      policy without rules has no action. */
  datatype Row = Row(originFqn: string, kind: Kind, scope: string, version: string, resource: string, role: string,
                     action: string, principal: string, binding: Binding)

  /** `matches` is the index's literal-or-glob match and `isGlob` tells the two apart.
      `sanitized` is the other form of a resource kind, "" when there is none.
      `roleDenies` are the bindings made up for role policies (version, resource, scope,
      action, roles). */
  datatype Index = Index(
    rows: seq<Row>,
    matches: (string, string) -> bool,
    isGlob: string -> bool,
    sanitized: string -> string,
    roleDenies: (string, string, string, string, seq<string>) -> seq<Binding>)

  /** Literals match the resource kind as written or sanitized, and so do the globs of
      principal policies; other globs match it as written only. */
  predicate MatchesResource(idx: Index, kind: Kind, pattern: string, resource: string) {
    || idx.matches(pattern, resource)
    || (&& idx.sanitized(resource) != "" && (kind == Principal || !idx.isGlob(pattern))
        && idx.matches(pattern, idx.sanitized(resource)))
  }

  ghost predicate RowMatches(idx: Index, r: Row, version: string, resource: string, scope: string, action: string,
                             roles: seq<string>, kind: Kind, principal: string)
  {
    && r.kind == kind && r.scope == scope && r.version == version
    && MatchesResource(idx, kind, r.resource, resource)
    && r.action != "" && idx.matches(r.action, action)
    && (exists role | role in roles :: idx.matches(r.role, role))
    && (principal != "" ==> r.principal == principal)
  }

  ghost function Select(idx: Index, rows: seq<Row>, version: string, resource: string, scope: string, action: string,
                        roles: seq<string>, kind: Kind, principal: string): seq<Binding>
  {
    if rows == [] then []
    else
      var rest := Select(idx, rows[1..], version, resource, scope, action, roles, kind, principal);
      if RowMatches(idx, rows[0], version, resource, scope, action, roles, kind, principal)
          then [rows[0].binding] + rest else rest
  }

  /** Denials made up for role policies come first. */
  ghost function Query(idx: Index, version: string, resource: string, scope: string, action: string, roles: seq<string>,
                       kind: Kind, principal: string): seq<Binding>
  {
    (if kind == Resource then idx.roleDenies(version, resource, scope, action, roles) else [])
    + Select(idx, idx.rows, version, resource, scope, action, roles, kind, principal)
  }

  datatype Request = Request(
    principal: string, principalVersion: string, principalScopes: seq<string>,
    resource: string, resourceVersion: string, resourceScopes: seq<string>,
    roles: seq<string>, parents: string -> seq<string>, rolesAndParents: set<string>)

  ghost predicate ScopedPrincipalExists(idx: Index, version: string, scopes: seq<string>) {
    exists r | r in idx.rows :: r.kind == Principal && r.version == version && r.scope in scopes
  }

  ghost predicate ScopedResourceExists(idx: Index, version: string, resource: string, scopes: seq<string>) {
    exists r | r in idx.rows ::
        r.kind == Resource && r.version == version && MatchesResource(idx, Resource, r.resource, resource)
        && r.scope in scopes
  }

  /** What the index answers for one principal, resource and version. */
  ghost function Answers(idx: Index, version: string, resource: string, principal: string,
                         parents: string -> seq<string>): (Kind, string, string, string) -> seq<Binding>
  {
    (kind, role, scope, action) =>
        Query(idx, version, resource, scope, action, parents(role), kind, if kind == Principal then principal else "")
  }

  /** The existence test made before any rule is looked at. */
  ghost predicate PoliciesExist(idx: Index, q: Request) {
    || ScopedPrincipalExists(idx, q.principalVersion, q.principalScopes)
    || ScopedResourceExists(idx, q.resourceVersion, q.resource, q.resourceScopes)
  }

  /** Both policy kinds are queried under the version of the resource; the
      existence of principal policies is looked up under that of the principal. */
  ghost function RequestEnv(idx: Index, q: Request, cel: Cel, permissions: map<string, Permission>,
                            derivedRoles: map<string, map<string, DerivedRole>>): Env
  {
    Env(cel, q.principalScopes, q.resourceScopes, q.roles, q.rolesAndParents,
        Answers(idx, q.resourceVersion, q.resource, q.principal, q.parents),
        permissions, derivedRoles, PoliciesExist(idx, q), NO_ROLES)
  }

  /** What the rule table guarantees about its rows. */
  ghost predicate ValidIndex(idx: Index, permissions: map<string, Permission>) {
    && (forall x :: idx.matches("*", x))
    && (forall r | r in idx.rows :: r.binding.effect == Allow ==> r.scope in permissions)
    && (forall r | r in idx.rows && r.kind == Principal :: r.role == "*" && !r.binding.fromRolePolicy)
    && (forall version, resource, scope, action, roles,
        b | b in idx.roleDenies(version, resource, scope, action, roles) :: b.effect != Allow)
  }

  ghost predicate ValidRequest(q: Request) {
    forall role :: role in q.parents(role)
  }

  lemma {:induction false} SelectMembers(idx: Index, rows: seq<Row>, version: string, resource: string, scope: string,
                                         action: string, roles: seq<string>, kind: Kind, principal: string, b: Binding)
    ensures b in Select(idx, rows, version, resource, scope, action, roles, kind, principal) <==>
            exists r | r in rows ::
                r.binding == b && RowMatches(idx, r, version, resource, scope, action, roles, kind, principal)
  {
    if rows != [] {
      assert rows == [rows[0]] + rows[1..];
      SelectMembers(idx, rows[1..], version, resource, scope, action, roles, kind, principal, b);
    }
  }

  lemma EnvQuery(idx: Index, q: Request, cel: Cel, permissions: map<string, Permission>,
                 derivedRoles: map<string, map<string, DerivedRole>>,
                 kind: Kind, role: string, scope: string, action: string)
    ensures RequestEnv(idx, q, cel, permissions, derivedRoles).query(kind, role, scope, action) ==
            (if kind == Resource then idx.roleDenies(q.resourceVersion, q.resource, scope, action, q.parents(role))
             else [])
            + Select(idx, idx.rows, q.resourceVersion, q.resource, scope, action, q.parents(role), kind,
                     if kind == Principal then q.principal else "")
  {
  }

  lemma Dimensions(idx: Index, r: Row, q: Request, kind: Kind, role: string, scope: string, action: string)
    ensures RowMatches(idx, r, q.resourceVersion, q.resource, scope, action, q.parents(role), kind,
                       if kind == Principal then q.principal else "") <==>
            && r.kind == kind && r.scope == scope && r.version == q.resourceVersion
            && (|| idx.matches(r.resource, q.resource)
                || (&& idx.sanitized(q.resource) != "" && idx.matches(r.resource, idx.sanitized(q.resource))
                    && (kind == Principal || !idx.isGlob(r.resource))))
            && r.action != "" && idx.matches(r.action, action)
            && (exists parent | parent in q.parents(role) :: idx.matches(r.role, parent))
            && (kind == Principal && q.principal != "" ==> r.principal == q.principal)
  {
  }

  /** What a request is answered: the denials made up for role policies, and the bindings
      of exactly the rows of the kind, scope and version whose resource, action and role
      patterns match and, in principal policies, whose principal it is. */
  lemma QueryExactly(idx: Index, q: Request, cel: Cel, permissions: map<string, Permission>,
                     derivedRoles: map<string, map<string, DerivedRole>>,
                     kind: Kind, role: string, scope: string, action: string, b: Binding)
    ensures b in RequestEnv(idx, q, cel, permissions, derivedRoles).query(kind, role, scope, action) <==>
            || (kind == Resource && b in idx.roleDenies(q.resourceVersion, q.resource, scope, action, q.parents(role)))
            || exists r | r in idx.rows ::
                 && r.binding == b && r.kind == kind && r.scope == scope && r.version == q.resourceVersion
                 && (|| idx.matches(r.resource, q.resource)
                     || (&& idx.sanitized(q.resource) != "" && idx.matches(r.resource, idx.sanitized(q.resource))
                         && (kind == Principal || !idx.isGlob(r.resource))))
                 && r.action != "" && idx.matches(r.action, action)
                 && (exists parent | parent in q.parents(role) :: idx.matches(r.role, parent))
                 && (kind == Principal && q.principal != "" ==> r.principal == q.principal)
  {
    hide *;
    EnvQuery(idx, q, cel, permissions, derivedRoles, kind, role, scope, action);
    var principal := if kind == Principal then q.principal else "";
    SelectMembers(idx, idx.rows, q.resourceVersion, q.resource, scope, action, q.parents(role), kind, principal, b);
    forall r { Dimensions(idx, r, q, kind, role, scope, action); }
  }

  /** The existence test finds principal policies of any principal and for any resource,
      and resource policies for the resource, in the scopes of the two chains. */
  lemma ExistenceExactly(idx: Index, q: Request, cel: Cel, permissions: map<string, Permission>,
                         derivedRoles: map<string, map<string, DerivedRole>>)
    ensures RequestEnv(idx, q, cel, permissions, derivedRoles).policiesExist <==>
            exists r | r in idx.rows ::
              || (r.kind == Principal && r.version == q.principalVersion && r.scope in q.principalScopes)
              || (&& r.kind == Resource && r.version == q.resourceVersion && r.scope in q.resourceScopes
                  && (|| idx.matches(r.resource, q.resource)
                      || (&& idx.sanitized(q.resource) != "" && idx.matches(r.resource, idx.sanitized(q.resource))
                          && !idx.isGlob(r.resource))))
  {
  }

  /** A binding returned by a query is a role-policy denial or comes from a row. */
  lemma RowOf(idx: Index, q: Request, cel: Cel, permissions: map<string, Permission>,
              derivedRoles: map<string, map<string, DerivedRole>>,
              kind: Kind, role: string, scope: string, action: string, b: Binding)
    requires b in RequestEnv(idx, q, cel, permissions, derivedRoles).query(kind, role, scope, action)
    ensures || (kind == Resource && b in idx.roleDenies(q.resourceVersion, q.resource, scope, action, q.parents(role)))
            || exists r | r in idx.rows ::
                 r.binding == b && r.kind == kind && r.scope == scope && r.version == q.resourceVersion &&
                 MatchesResource(idx, kind, r.resource, q.resource) && r.action != ""
  {
    SelectMembers(idx, idx.rows, q.resourceVersion, q.resource, scope, action, q.parents(role), kind,
        if kind == Principal then q.principal else "", b);
  }

  lemma EnvWellFormed(idx: Index, q: Request, cel: Cel, permissions: map<string, Permission>,
                      derivedRoles: map<string, map<string, DerivedRole>>)
    requires ValidIndex(idx, permissions)
    ensures forall action :: WellFormed(RequestEnv(idx, q, cel, permissions, derivedRoles), action)
  {
    var e := RequestEnv(idx, q, cel, permissions, derivedRoles);
    forall kind, role, scope, action, b | b in e.query(kind, role, scope, action)
      ensures (b.effect == Allow ==> scope in permissions) && (kind == Principal ==> !b.fromRolePolicy)
    {
      RowOf(idx, q, cel, permissions, derivedRoles, kind, role, scope, action, b);
    }
  }

  lemma {:induction false} SelectRoleAgnostic(idx: Index, rows: seq<Row>, version: string, resource: string,
                                              scope: string, action: string, roles: seq<string>, roles': seq<string>,
                                              principal: string)
    requires forall x :: idx.matches("*", x)
    requires forall r | r in rows && r.kind == Principal :: r.role == "*"
    requires roles != [] && roles' != []
    ensures Select(idx, rows, version, resource, scope, action, roles, Principal, principal) ==
            Select(idx, rows, version, resource, scope, action, roles', Principal, principal)
  {
    if rows != [] {
      SelectRoleAgnostic(idx, rows[1..], version, resource, scope, action, roles, roles', principal);
      assert rows[0] in rows;
      assert roles[0] in roles && roles'[0] in roles';
    }
  }

  lemma EnvRoleAgnostic(idx: Index, q: Request, cel: Cel, permissions: map<string, Permission>,
                        derivedRoles: map<string, map<string, DerivedRole>>)
    requires ValidIndex(idx, permissions) && ValidRequest(q)
    ensures PrincipalRowsRoleAgnostic(RequestEnv(idx, q, cel, permissions, derivedRoles))
  {
    var e := RequestEnv(idx, q, cel, permissions, derivedRoles);
    forall role, role', scope, action
        ensures e.query(Principal, role, scope, action) == e.query(Principal, role', scope, action) {
      assert role in q.parents(role) && role' in q.parents(role');
      SelectRoleAgnostic(idx, idx.rows, q.resourceVersion, q.resource, scope, action, q.parents(role), q.parents(role'),
          q.principal);
      assert e.query(Principal, role, scope, action) ==
          Query(idx, q.resourceVersion, q.resource, scope, action, q.parents(role), Principal, q.principal);
      assert e.query(Principal, role', scope, action) ==
          Query(idx, q.resourceVersion, q.resource, scope, action, q.parents(role'), Principal, q.principal);
    }
  }

  lemma {:induction false} ScanNeedsRow(g: Cel, bs: seq<Binding>, rt: Runtime, hasAllow: bool)
    requires ScanBindings(g, bs, rt, hasAllow) == Scanned(true)
    ensures hasAllow || exists b | b in bs :: b.effect == Allow
  {
    hide Evaluate;
    if bs != [] {
      var carried := hasAllow || (Evaluate(g, bs[0], rt) == Sat && bs[0].effect == Allow);
      ScanNeedsRow(g, bs[1..], rt, carried);
      assert bs[0] in bs;
    }
  }

  /** Failures and strict mode included: a chain that allows has an ALLOW row. */
  lemma {:induction false} ChainNeedsRow(e: Env, kind: Kind, role: string, action: string, i: nat, hasAllow: bool)
    returns (j: nat, b: Binding)
    requires i <= |e.Scopes(kind)| && ChainVerdict(e, kind, role, action, i, hasAllow) == VAllow && !hasAllow
    ensures j < |e.Scopes(kind)| && b in e.query(kind, role, e.Scopes(kind)[j], action) && b.effect == Allow
    decreases |e.Scopes(kind)| - i
  {
    var bs := e.query(kind, role, e.Scopes(kind)[i], action);
    var rt := RuntimeFor(e, kind, i).value;
    if ScanBindings(e.cel, bs, rt, false) == Scanned(true) {
      ScanNeedsRow(e.cel, bs, rt, false);
      j := i;
      b :| b in bs && b.effect == Allow;
    } else {
      j, b := ChainNeedsRow(e, kind, role, action, i + 1, false);
    }
  }

  lemma AllowingRow(e: Env, action: string) returns (kind: Kind, role: string, i: nat, b: Binding)
    requires LoopsAllow(e, action)
    ensures i < |e.Scopes(kind)| && b in e.query(kind, role, e.Scopes(kind)[i], action) && b.effect == Allow
  {
    if KindVerdict(e, Principal, action) == VAllow {
      kind, role := Principal, e.roles[0];
    } else {
      kind := Resource;
      role :| role in e.roles && RoleVerdict(e, Resource, role, action) == VAllow;
    }
    i, b := ChainNeedsRow(e, kind, role, action, 0, false);
  }

  /** An ALLOW needs a row, and with one version for both policy kinds that row
      passes the existence test. */
  lemma AllowNeedsPolicies(idx: Index, q: Request, cel: Cel, permissions: map<string, Permission>,
                           derivedRoles: map<string, map<string, DerivedRole>>, action: string)
    requires ValidIndex(idx, permissions) && q.principalVersion == q.resourceVersion
    requires LoopsAllow(RequestEnv(idx, q, cel, permissions, derivedRoles), action)
    ensures PoliciesExist(idx, q)
  {
    hide *;
    var kind, role, i, b := AllowingRow(RequestEnv(idx, q, cel, permissions, derivedRoles), action);
    RowMakesPoliciesExist(idx, q, cel, permissions, derivedRoles, kind, role, action, i, b);
  }

  lemma RowMakesPoliciesExist(idx: Index, q: Request, cel: Cel, permissions: map<string, Permission>,
                              derivedRoles: map<string, map<string, DerivedRole>>,
                              kind: Kind, role: string, action: string, i: nat, b: Binding)
    requires ValidIndex(idx, permissions) && q.principalVersion == q.resourceVersion
    requires var e := RequestEnv(idx, q, cel, permissions, derivedRoles);
             i < |e.Scopes(kind)| && b in e.query(kind, role, e.Scopes(kind)[i], action) && b.effect == Allow
    ensures PoliciesExist(idx, q)
  {
    var e := RequestEnv(idx, q, cel, permissions, derivedRoles);
    RowOf(idx, q, cel, permissions, derivedRoles, kind, role, e.Scopes(kind)[i], action, b);
    hide Query, Select, RowMatches;
  }

  /** Plan soundness for a table: a resource that satisfies the plan is allowed
      exactly when the existence test lets the request through, and it always does
      when principal and resource policies are looked up under one version. */
  lemma TablePlanSound(idx: Index, q: Request, cel: Cel, permissions: map<string, Permission>,
                       derivedRoles: map<string, map<string, DerivedRole>>,
                       res: Residual, rho: Valuation, action: string)
    requires ValidIndex(idx, permissions)
    requires var e := RequestEnv(idx, q, cel, permissions, derivedRoles);
             Valuates(e, res, rho, action) && Unchained(e) && !BareDeny(e, res, action)
    ensures var e := RequestEnv(idx, q, cel, permissions, derivedRoles);
            Eval(rho, PlanNode(e, res, action)) ==>
              && (Decide(e, action) == Ok(Allow) <==> e.policiesExist)
              && (q.principalVersion == q.resourceVersion ==> e.policiesExist)
  {
    var e := RequestEnv(idx, q, cel, permissions, derivedRoles);
    EnvWellFormed(idx, q, cel, permissions, derivedRoles);
    ValuatedRunsAreErrorFree(e, res, rho, action);
    PlanSound(e, res, rho, action);
    hide RequestEnv, Valuates, PlanNode, ValidIndex;
    if Eval(rho, PlanNode(e, res, action)) && q.principalVersion == q.resourceVersion {
      AllowNeedsPolicies(idx, q, cel, permissions, derivedRoles, action);
    }
  }

  // ---- two versions ---------------------------------------------------------------------

  /** A principal policy of version "v2" that allows everything. */
  const VIEW: Binding := Binding(Allow, None, None, None, None, false, NO_KEY)

  ghost function OneRowIndex(): Index {
    Index([Row("", Principal, "", "v2", "doc", "*", "view", "alice", VIEW)], (p, x) => p == "*"
        || p == x, p => p == "*", x => "", (v, r, s, a, rs) => [])
  }

  ghost function MixedVersions(): Request {
    Request("alice", "v1", [""], "doc", "v2", [], ["user"], r => [r], {"user"})
  }

  ghost function MixedEnv(cel: Cel): Env {
    RequestEnv(OneRowIndex(), MixedVersions(), cel, map["" := OverrideParent], map[])
  }

  lemma MixedAnswer(cel: Cel)
    ensures MixedEnv(cel).query(Principal, "user", "", "view") == [VIEW]
  {
    var idx := OneRowIndex();
    var r := idx.rows[0];
    assert "user" in ["user"];
    assert RowMatches(idx, r, "v2", "doc", "", "view", ["user"], Principal, "alice");
    assert Select(idx, [r][1..], "v2", "doc", "", "view", ["user"], Principal, "alice") == [];
  }

  lemma MixedRows(cel: Cel)
    ensures forall kind, role, scope, action, b | b in MixedEnv(cel).query(kind, role, scope, action) :: b == VIEW
  {
    hide Query, RowMatches, Select, PoliciesExist;
    forall kind, role, scope, action, b | b in MixedEnv(cel).query(kind, role, scope, action) ensures b == VIEW {
      RowOf(OneRowIndex(), MixedVersions(), cel, map["" := OverrideParent], map[], kind, role, scope, action, b);
    }
  }

  /** A single unconditional ALLOW row of a principal policy is planned as such. */
  lemma UnconditionalPlan(e: Env, res: Residual, action: string)
    requires e.roles == ["user"] && e.principalScopes == [""] && e.resourceScopes == []
    requires e.query(Principal, "user", "", action) == [VIEW] && e.Permission("") == Some(OverrideParent)
    ensures PlanNode(e, res, action) == Const(true) && !BareDeny(e, res, action)
  {
    assert [VIEW][1..] == [];
    assert AddBindings(res, map[], [VIEW], NO_NODES) == ScopeNodes(Some(Const(true)), None, None);
    var st := StepScope(START, NodesAt(e, res, Principal, "user", action, 0), Some(OverrideParent));
    assert FoldScopes(e, res, Principal, "user", action, 0, START) ==
        FoldScopes(e, res, Principal, "user", action, 1, st);
    assert RolesFor(e, Principal) == ["user"];
    SingleRole(e, res, Principal, "user", action);
    SingleRole(e, res, Resource, "user", action);
  }

  /** With different versions the plan can be ALWAYS_ALLOWED where `check` stops at
      the existence test and denies. */
  lemma MixedVersionsDisagree(cel: Cel, res: Residual, rho: Valuation)
    ensures var e := MixedEnv(cel);
            && ValidIndex(OneRowIndex(), e.permissions) && Valuates(e, res, rho, "view") && Unchained(e)
                && !BareDeny(e, res, "view")
            && ToFilter(PlanNode(e, res, "view")) == AlwaysAllowed
            && Decide(e, "view") == Ok(Deny)
  {
    hide *;
    var e := MixedEnv(cel);
    MixedAnswer(cel);
    MixedRows(cel);
    MixedFields(cel);
    OneRowValid();
    MixedGate(cel);
    ConstTrueFilter(e, res);
    UnconditionalPlan(e, res, "view");
    UnconditionalValuation(e, res, rho, "view");
    GateClosed(e, "view");
  }

  lemma ConstTrueFilter(e: Env, res: Residual)
    ensures PlanNode(e, res, "view") == Const(true) ==> ToFilter(PlanNode(e, res, "view")) == AlwaysAllowed
  {
    hide PlanNode;
  }

  lemma GateClosed(e: Env, action: string)
    ensures !e.policiesExist ==> Decide(e, action) == Ok(Deny)
  {
  }

  lemma MixedFields(cel: Cel)
    ensures var e := MixedEnv(cel);
            && e.roles == ["user"] && e.principalScopes == [""] && e.resourceScopes == []
            && e.Permission("") == Some(OverrideParent)
                && e.permissions == map["" := OverrideParent] && e.leftover == NO_ROLES
  {
    hide PoliciesExist, Answers;
  }

  lemma MixedGate(cel: Cel)
    ensures MixedEnv(cel).policiesExist == PoliciesExist(OneRowIndex(), MixedVersions())
  {
    hide PoliciesExist;
  }

  lemma OneRowValid()
    ensures ValidIndex(OneRowIndex(), map["" := OverrideParent]) && !PoliciesExist(OneRowIndex(), MixedVersions())
  {
    var r := Row("", Principal, "", "v2", "doc", "*", "view", "alice", VIEW);
    assert forall x | x in OneRowIndex().rows :: x == r;
  }

  lemma UnconditionalValuation(e: Env, res: Residual, rho: Valuation, action: string)
    requires e.resourceScopes == [] && e.leftover == NO_ROLES
    requires forall kind, role, scope, action, b | b in e.query(kind, role, scope, action) :: b == VIEW
    ensures Valuates(e, res, rho, action) && Unchained(e)
  {
    forall list ensures BindingAgrees(e.cel, res, rho, list, VIEW) {
    }
  }
}
