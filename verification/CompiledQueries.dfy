/** From policies to answers (internal/ruletable/ruletable.go, internal/ruletable/index):
    for a table compiled from policies, a satisfied row that a request is answered acts
    exactly where a rule of a policy of that scope, version, resource and principal does. */
module CompiledQueries {
  import opened Common
  import opened Conditions
  import opened Check
  import opened RowIndex
  import opened PolicyRows

  /** The table has all rows of the policies and no others. */
  ghost predicate TableOf(idx: Index, ps: Policies) {
    CompiledFrom(idx, ps) && forall row | RowOfPolicies(ps, row) :: row in idx.rows
  }

  /** Variables evaluate, so no row of any policy aborts the request. */
  ghost predicate AllParamsEvaluate(g: Cel, rt: Runtime, ps: Policies) {
    && (forall p | p in ps.resources :: ParamsEvaluate(g, rt, p))
    && (forall p | p in ps.principals :: ParamVars(g, Some(p.params), rt).Ok?)
  }

  /** The resource pattern of a policy fits the resource kind of the request. */
  ghost predicate Fits(idx: Index, kind: Kind, pattern: string, resource: string) {
    || idx.matches(pattern, resource)
    || (&& idx.sanitized(resource) != "" && idx.matches(pattern, idx.sanitized(resource))
        && (kind == Principal || !idx.isGlob(pattern)))
  }

  function TargetOf(idx: Index, q: Request, role: string, action: string): Target {
    Target(idx.matches, action, set parent | parent in q.parents(role))
  }

  /** The row is looked up for the request. */
  ghost predicate LookedUp(idx: Index, q: Request, kind: Kind, role: string, scope: string, action: string, r: Row) {
    && r.kind == kind && r.scope == scope && r.version == q.resourceVersion && Fits(idx, kind, r.resource, q.resource)
    && (kind == Principal && q.principal != "" ==> r.principal == q.principal)
    && Hits(TargetOf(idx, q, role, action), r)
  }

  ghost predicate NoRoleDenies(idx: Index) {
    forall version, resource, scope, action, roles :: idx.roleDenies(version, resource, scope, action, roles) == []
  }

  lemma QueryOfRows(idx: Index, q: Request, cel: Cel, permissions: map<string, Permission>,
                    derivedRoles: map<string, map<string, DerivedRole>>,
                    kind: Kind, role: string, scope: string, action: string, b: Binding)
    requires NoRoleDenies(idx)
    ensures b in RequestEnv(idx, q, cel, permissions, derivedRoles).query(kind, role, scope, action) <==>
            exists r | r in idx.rows :: r.binding == b && LookedUp(idx, q, kind, role, scope, action, r)
  {
    hide RequestEnv;
    QueryExactly(idx, q, cel, permissions, derivedRoles, kind, role, scope, action, b);
    forall r: Row
      ensures Hits(TargetOf(idx, q, role, action), r) <==>
              && r.action != "" && idx.matches(r.action, action)
              && exists parent | parent in q.parents(role) :: idx.matches(r.role, parent)
    {
      HitsByParent(idx, q, role, action, r);
    }
    hide Hits, TargetOf;
  }

  lemma HitsByParent(idx: Index, q: Request, role: string, action: string, r: Row)
    ensures Hits(TargetOf(idx, q, role, action), r) <==>
            && r.action != "" && idx.matches(r.action, action)
            && exists parent | parent in q.parents(role) :: idx.matches(r.role, parent)
  {
    var t := TargetOf(idx, q, role, action);
    if parent :| parent in q.parents(role) && idx.matches(r.role, parent) {
      assert parent in t.roles;
    }
  }

  /** The row is looked up for the request and acts. */
  ghost predicate RowFires(idx: Index, q: Request, cel: Cel, rt: Runtime, kind: Kind, role: string, scope: string,
                           action: string, effect: Effect, r: Row)
  {
    && r in idx.rows && LookedUp(idx, q, kind, role, scope, action, r)
    && RowActs(cel, rt, TargetOf(idx, q, role, action), r, effect)
  }

  lemma RowFiresBySat(idx: Index, q: Request, cel: Cel, rt: Runtime, kind: Kind, role: string, scope: string,
                      action: string, effect: Effect, r: Row)
    ensures RowFires(idx, q, cel, rt, kind, role, scope, action, effect, r) <==>
            && r in idx.rows && LookedUp(idx, q, kind, role, scope, action, r)
            && r.binding.effect == effect && Evaluate(cel, r.binding, rt) == Sat
  {
    hide Evaluate, Fits;
  }

  lemma EnvCel(idx: Index, q: Request, cel: Cel, permissions: map<string, Permission>,
               derivedRoles: map<string, map<string, DerivedRole>>)
    ensures RequestEnv(idx, q, cel, permissions, derivedRoles).cel == cel
  {
  }

  lemma FiringRow(e: Env, kind: Kind, role: string, action: string, i: nat, effect: Effect)
    requires i < |e.Scopes(kind)| && RuntimeFor(e, kind, i).Ok?
    ensures Fires(e, kind, role, action, i, effect) <==>
            exists b | b in e.query(kind, role, e.Scopes(kind)[i], action) ::
              b.effect == effect && Evaluate(e.cel, b, RuntimeFor(e, kind, i).value) == Sat
  {
    hide Evaluate, RuntimeFor;
  }

  /** A satisfied row of the i-th scope has the effect exactly when there is a row to look
      up that acts. */
  lemma FiresByRow(idx: Index, q: Request, cel: Cel, permissions: map<string, Permission>,
                   derivedRoles: map<string, map<string, DerivedRole>>,
                   kind: Kind, role: string, action: string, i: nat, effect: Effect)
    requires NoRoleDenies(idx)
    requires var e := RequestEnv(idx, q, cel, permissions, derivedRoles);
             i < |e.Scopes(kind)| && RuntimeFor(e, kind, i).Ok?
    ensures var e := RequestEnv(idx, q, cel, permissions, derivedRoles);
            Fires(e, kind, role, action, i, effect) <==>
            exists r ::
              RowFires(idx, q, cel, RuntimeFor(e, kind, i).value, kind, role, e.Scopes(kind)[i], action, effect, r)
  {
    hide *;
    var e := RequestEnv(idx, q, cel, permissions, derivedRoles);
    var scope, rt := e.Scopes(kind)[i], RuntimeFor(e, kind, i).value;
    EnvCel(idx, q, cel, permissions, derivedRoles);
    FiringRow(e, kind, role, action, i, effect);
    if Fires(e, kind, role, action, i, effect) {
      var b :| b in e.query(kind, role, scope, action) && b.effect == effect && Evaluate(cel, b, rt) == Sat;
      QueryOfRows(idx, q, cel, permissions, derivedRoles, kind, role, scope, action, b);
      var r :| r in idx.rows && r.binding == b && LookedUp(idx, q, kind, role, scope, action, r);
      RowFiresBySat(idx, q, cel, rt, kind, role, scope, action, effect, r);
    }
    if r :| RowFires(idx, q, cel, rt, kind, role, scope, action, effect, r) {
      RowFiresBySat(idx, q, cel, rt, kind, role, scope, action, effect, r);
      QueryOfRows(idx, q, cel, permissions, derivedRoles, kind, role, scope, action, r.binding);
    }
  }

  /** A resource policy of the scope that is about the request has a rule that acts. */
  ghost predicate PolicyActs(idx: Index, q: Request, cel: Cel, rt: Runtime, ps: Policies, role: string, scope: string,
                             action: string, effect: Effect)
  {
    exists p | p in ps.resources ::
      && p.scope == scope && p.version == q.resourceVersion && Fits(idx, Resource, p.resource, q.resource)
      && exists i | 0 <= i < |p.rules| :: RuleActs(cel, rt, p, p.rules[i], TargetOf(idx, q, role, action), effect)
  }

  /** A principal policy of the scope, of the principal, has a rule for the resource that
      acts. */
  ghost predicate PrincipalPolicyActs(idx: Index, q: Request, cel: Cel, rt: Runtime, ps: Policies, role: string,
                                      scope: string, action: string, effect: Effect)
  {
    exists p | p in ps.principals ::
      && p.scope == scope && p.version == q.resourceVersion && (q.principal != "" ==> p.principal == q.principal)
      && exists resource | resource in p.rules :: Fits(idx, Principal, p.sanitized(resource), q.resource)
           && exists rule | rule in p.rules[resource] ::
                ActionRuleActs(cel, rt, p, rule, TargetOf(idx, q, role, action), effect)
  }

  // ---- resource policies ------------------------------------------------------------------

  lemma RuleOfFiringRow(idx: Index, q: Request, cel: Cel, rt: Runtime, ps: Policies, role: string, scope: string,
                        action: string, effect: Effect, r: Row)
    requires TableOf(idx, ps) && AllParamsEvaluate(cel, rt, ps) && effect != NoEffect
    requires RowFires(idx, q, cel, rt, Resource, role, scope, action, effect, r)
    ensures PolicyActs(idx, q, cel, rt, ps, role, scope, action, effect)
  {
    var t := TargetOf(idx, q, role, action);
    PolicyOfRow(ps, r);
    var k :| 0 <= k < |ps.resources| && RowOfResourcePolicy(ps.resources[k], r);
    var p := ps.resources[k];
    assert p in ps.resources;
    ResourceRouting(p, r);
    hide RowOfRule, RuleActs, Evaluate, Fits, ParamsEvaluate, TargetOf, Hits;
    if p.rules == [] {
      NoActionNoHit(t, r);
      assert false;
    } else {
      var i :| 0 <= i < |p.rules| && RowOfRule(p, p.rules[i], r);
      RuleRowsMeaning(cel, rt, p, p.rules[i], t, effect);
    }
  }

  lemma NoActionNoHit(t: Target, r: Row)
    requires r.action == ""
    ensures !Hits(t, r)
  {
  }

  /** Rows of the resource kind come from resource policies, the others from principal
      policies. */
  lemma PolicyOfRow(ps: Policies, r: Row)
    requires RowOfPolicies(ps, r)
    ensures r.kind == Resource ==> exists k | 0 <= k < |ps.resources| :: RowOfResourcePolicy(ps.resources[k], r)
    ensures r.kind == Principal ==> exists k | 0 <= k < |ps.principals| :: RowOfPrincipalPolicy(ps.principals[k], r)
  {
    hide RowOfResourcePolicy, RowOfPrincipalPolicy;
    if k :| 0 <= k < |ps.resources| && RowOfResourcePolicy(ps.resources[k], r) {
      ResourceRouting(ps.resources[k], r);
    }
    if k :| 0 <= k < |ps.principals| && RowOfPrincipalPolicy(ps.principals[k], r) {
      PrincipalRouting(ps.principals[k], r);
    }
  }

  lemma FiringRowOfRule(idx: Index, q: Request, cel: Cel, rt: Runtime, ps: Policies, role: string, scope: string,
                        action: string, effect: Effect)
    requires TableOf(idx, ps) && AllParamsEvaluate(cel, rt, ps) && effect != NoEffect
    requires PolicyActs(idx, q, cel, rt, ps, role, scope, action, effect)
    ensures exists r :: RowFires(idx, q, cel, rt, Resource, role, scope, action, effect, r)
  {
    var t := TargetOf(idx, q, role, action);
    hide RowOfRule, RuleActs, Evaluate, Fits, ParamsEvaluate, TargetOf;
    var p :| p in ps.resources && p.scope == scope && p.version == q.resourceVersion
        && Fits(idx, Resource, p.resource, q.resource)
        && exists i | 0 <= i < |p.rules| :: RuleActs(cel, rt, p, p.rules[i], t, effect);
    var i :| 0 <= i < |p.rules| && RuleActs(cel, rt, p, p.rules[i], t, effect);
    RuleRowsMeaning(cel, rt, p, p.rules[i], t, effect);
    var r :| RowOfRule(p, p.rules[i], r) && RowActs(cel, rt, t, r, effect);
    assert RowOfResourcePolicy(p, r);
    var k :| 0 <= k < |ps.resources| && ps.resources[k] == p;
    assert RowOfPolicies(ps, r);
    ResourceRouting(p, r);
    assert RowFires(idx, q, cel, rt, Resource, role, scope, action, effect, r);
  }

  // ---- principal policies ------------------------------------------------------------------

  /** The request names a role, and "*" is a pattern for every role. */
  ghost predicate AnyRole(idx: Index, q: Request, role: string) {
    role in q.parents(role) && idx.matches("*", role)
  }

  lemma AnyRoleTarget(idx: Index, q: Request, role: string, action: string)
    requires AnyRole(idx, q, role)
    ensures var t := TargetOf(idx, q, role, action); exists r | r in t.roles :: t.matches("*", r)
  {
    assert role in TargetOf(idx, q, role, action).roles;
  }

  lemma RuleOfPrincipalFiring(idx: Index, q: Request, cel: Cel, rt: Runtime, ps: Policies, role: string, scope: string,
                              action: string, effect: Effect, r: Row)
    requires TableOf(idx, ps) && AllParamsEvaluate(cel, rt, ps) && effect != NoEffect && AnyRole(idx, q, role)
    requires RowFires(idx, q, cel, rt, Principal, role, scope, action, effect, r)
    ensures PrincipalPolicyActs(idx, q, cel, rt, ps, role, scope, action, effect)
  {
    var t := TargetOf(idx, q, role, action);
    AnyRoleTarget(idx, q, role, action);
    PolicyOfRow(ps, r);
    var k :| 0 <= k < |ps.principals| && RowOfPrincipalPolicy(ps.principals[k], r);
    var p := ps.principals[k];
    assert p in ps.principals;
    PrincipalRouting(p, r);
    hide RowOfPrincipalPolicy, ActionRuleActs, Evaluate, Fits, ParamVars, TargetOf, Hits, WrittenFor;
    if p.rules == map[] {
      NoActionNoHit(t, r);
      assert false;
    } else {
      var rule := RuleOfPrincipalRow(cel, rt, p, r, t, effect);
    }
  }

  lemma PrincipalRuleFires(idx: Index, q: Request, cel: Cel, rt: Runtime, ps: Policies, role: string, action: string,
                           effect: Effect, p: PrincipalPolicy, resource: string, rule: ActionRule)
    requires TableOf(idx, ps) && AllParamsEvaluate(cel, rt, ps) && effect != NoEffect && AnyRole(idx, q, role)
    requires p in ps.principals && p.version == q.resourceVersion && (q.principal != "" ==> p.principal == q.principal)
    requires resource in p.rules && Fits(idx, Principal, p.sanitized(resource), q.resource)
    requires rule in p.rules[resource] && ActionRuleActs(cel, rt, p, rule, TargetOf(idx, q, role, action), effect)
    ensures exists r :: RowFires(idx, q, cel, rt, Principal, role, p.scope, action, effect, r)
  {
    var t := TargetOf(idx, q, role, action);
    AnyRoleTarget(idx, q, role, action);
    hide RowOfPrincipalPolicy, ActionRuleActs, Evaluate, Fits, ParamVars, TargetOf, WrittenFor;
    var r := RowOfActionRule(cel, rt, p, resource, rule, t, effect);
    var k :| 0 <= k < |ps.principals| && ps.principals[k] == p;
    assert RowOfPolicies(ps, r);
    PrincipalRouting(p, r);
    assert RowFires(idx, q, cel, rt, Principal, role, p.scope, action, effect, r);
  }

  lemma PrincipalFiringOfRule(idx: Index, q: Request, cel: Cel, rt: Runtime, ps: Policies, role: string, scope: string,
                              action: string, effect: Effect)
    requires TableOf(idx, ps) && AllParamsEvaluate(cel, rt, ps) && effect != NoEffect && AnyRole(idx, q, role)
    requires PrincipalPolicyActs(idx, q, cel, rt, ps, role, scope, action, effect)
    ensures exists r :: RowFires(idx, q, cel, rt, Principal, role, scope, action, effect, r)
  {
    hide TableOf, AllParamsEvaluate, AnyRole, ActionRuleActs, Fits, TargetOf, RowFires;
    var t := TargetOf(idx, q, role, action);
    var p :| p in ps.principals && p.scope == scope && p.version == q.resourceVersion
        && (q.principal != "" ==> p.principal == q.principal)
        && exists resource | resource in p.rules :: Fits(idx, Principal, p.sanitized(resource), q.resource)
             && exists rule | rule in p.rules[resource] :: ActionRuleActs(cel, rt, p, rule, t, effect);
    var resource :| resource in p.rules && Fits(idx, Principal, p.sanitized(resource), q.resource)
        && exists rule | rule in p.rules[resource] :: ActionRuleActs(cel, rt, p, rule, t, effect);
    var rule :| rule in p.rules[resource] && ActionRuleActs(cel, rt, p, rule, t, effect);
    PrincipalRuleFires(idx, q, cel, rt, ps, role, action, effect, p, resource, rule);
  }

  // ---- the loops ----------------------------------------------------------------------------

  /** For a table compiled from policies, a scope of a request's chain allows or denies an
      action for a role exactly when a rule of a policy of that scope does: a resource
      policy for the resource, or a policy of the principal. */
  lemma FiresWherePoliciesDo(idx: Index, q: Request, cel: Cel, permissions: map<string, Permission>,
                             derivedRoles: map<string, map<string, DerivedRole>>, ps: Policies,
                             kind: Kind, role: string, action: string, i: nat, effect: Effect)
    requires TableOf(idx, ps) && effect != NoEffect && AnyRole(idx, q, role)
    requires var e := RequestEnv(idx, q, cel, permissions, derivedRoles);
             && i < |e.Scopes(kind)| && RuntimeFor(e, kind, i).Ok?
             && AllParamsEvaluate(cel, RuntimeFor(e, kind, i).value, ps)
    ensures var e := RequestEnv(idx, q, cel, permissions, derivedRoles);
            var scope, rt := e.Scopes(kind)[i], RuntimeFor(e, kind, i).value;
            Fires(e, kind, role, action, i, effect) <==>
            if kind == Resource then PolicyActs(idx, q, cel, rt, ps, role, scope, action, effect)
            else PrincipalPolicyActs(idx, q, cel, rt, ps, role, scope, action, effect)
  {
    hide *;
    var e := RequestEnv(idx, q, cel, permissions, derivedRoles);
    var scope, rt := e.Scopes(kind)[i], RuntimeFor(e, kind, i).value;
    TableParts(idx, ps);
    FiresByRow(idx, q, cel, permissions, derivedRoles, kind, role, action, i, effect);
    if r :| RowFires(idx, q, cel, rt, kind, role, scope, action, effect, r) {
      if kind == Resource {
        RuleOfFiringRow(idx, q, cel, rt, ps, role, scope, action, effect, r);
      } else {
        RuleOfPrincipalFiring(idx, q, cel, rt, ps, role, scope, action, effect, r);
      }
    }
    if kind == Resource {
      if PolicyActs(idx, q, cel, rt, ps, role, scope, action, effect) {
        FiringRowOfRule(idx, q, cel, rt, ps, role, scope, action, effect);
      }
    } else if PrincipalPolicyActs(idx, q, cel, rt, ps, role, scope, action, effect) {
      PrincipalFiringOfRule(idx, q, cel, rt, ps, role, scope, action, effect);
    }
  }

  lemma TableParts(idx: Index, ps: Policies)
    requires TableOf(idx, ps)
    ensures NoRoleDenies(idx)
  {
  }

  /** A rule of a policy of the i-th scope acts. */
  ghost predicate Acts(idx: Index, q: Request, e: Env, ps: Policies, kind: Kind, role: string, action: string, i: nat,
                       effect: Effect)
    requires i < |e.Scopes(kind)| && RuntimeFor(e, kind, i).Ok?
  {
    var scope, rt := e.Scopes(kind)[i], RuntimeFor(e, kind, i).value;
    if kind == Resource then PolicyActs(idx, q, e.cel, rt, ps, role, scope, action, effect)
    else PrincipalPolicyActs(idx, q, e.cel, rt, ps, role, scope, action, effect)
  }

  ghost predicate ChainRuns(e: Env, ps: Policies, kind: Kind) {
    forall i | 0 <= i < |e.Scopes(kind)| ::
      RuntimeFor(e, kind, i).Ok? && AllParamsEvaluate(e.cel, RuntimeFor(e, kind, i).value, ps)
  }

  /** A rule of the i-th scope denies, or allows and need not ask. */
  ghost predicate Decides(idx: Index, q: Request, e: Env, ps: Policies, kind: Kind, role: string, action: string,
                          i: nat)
    requires i < |e.Scopes(kind)| && RuntimeFor(e, kind, i).Ok?
  {
    || Acts(idx, q, e, ps, kind, role, action, i, Deny)
    || (Acts(idx, q, e, ps, kind, role, action, i, Allow) && e.Permission(e.Scopes(kind)[i]) == Some(OverrideParent))
  }

  /** The k-th scope is the most specific one that decides. */
  ghost predicate DecidesFirst(idx: Index, q: Request, e: Env, ps: Policies, kind: Kind, role: string, action: string,
                               k: nat)
    requires k < |e.Scopes(kind)| && ChainRuns(e, ps, kind)
  {
    && Decides(idx, q, e, ps, kind, role, action, k)
    && forall j | 0 <= j < k :: !Decides(idx, q, e, ps, kind, role, action, j)
  }

  /** What a role is allowed, from the policies alone: in error-free runs its verdict is
      ALLOW exactly when a rule of the most specific scope that decides allows, and no rule
      of that scope denies. */
  lemma VerdictFromPolicies(idx: Index, q: Request, cel: Cel, permissions: map<string, Permission>,
                            derivedRoles: map<string, map<string, DerivedRole>>, ps: Policies,
                            kind: Kind, role: string, action: string)
    requires TableOf(idx, ps) && AnyRole(idx, q, role)
    requires var e := RequestEnv(idx, q, cel, permissions, derivedRoles);
             ErrorFree(e, action) && AllowScopesRecorded(e, action) && role in e.roles && ChainRuns(e, ps, kind)
    ensures var e := RequestEnv(idx, q, cel, permissions, derivedRoles);
            RoleVerdict(e, kind, role, action) == VAllow <==>
            exists k | 0 <= k < |e.Scopes(kind)| ::
              DecidesFirst(idx, q, e, ps, kind, role, action, k) && !Acts(idx, q, e, ps, kind, role, action, k, Deny)
  {
    var e := RequestEnv(idx, q, cel, permissions, derivedRoles);
    EnvCel(idx, q, cel, permissions, derivedRoles);
    hide RequestEnv, TableOf, AllParamsEvaluate, PolicyActs, PrincipalPolicyActs, RuntimeFor, Fires, ErrorFree,
      AllowScopesRecorded, ChainVerdict, AnyRole;
    forall i, effect | 0 <= i < |e.Scopes(kind)| && effect != NoEffect
      ensures Acts(idx, q, e, ps, kind, role, action, i, effect) <==> Fires(e, kind, role, action, i, effect)
    {
      FiresWherePoliciesDo(idx, q, cel, permissions, derivedRoles, ps, kind, role, action, i, effect);
    }
    hide Acts;
    ChainClosedForm(e, kind, role, action, 0);
    forall i | 0 <= i < |e.Scopes(kind)|
      ensures Decides(idx, q, e, ps, kind, role, action, i) <==> Decisive(e, kind, role, action, i)
    {
    }
    hide Decides, Decisive;
    forall k | 0 <= k < |e.Scopes(kind)|
      ensures DecidesFirst(idx, q, e, ps, kind, role, action, k) <==> FirstDecisive(e, kind, role, action, k)
      ensures Acts(idx, q, e, ps, kind, role, action, k, Deny) <==> Denies(e, kind, role, action, k)
    {
      assert Acts(idx, q, e, ps, kind, role, action, k, Deny) <==> Fires(e, kind, role, action, k, Deny);
    }
    hide DecidesFirst, FirstDecisive, Denies;
  }
}
