/** The query plan against the decision procedure: a resource that satisfies the
    plan is allowed, and where nothing is lost on the way, exactly those are. */
module PlanCheck {
  import opened Common
  import opened Conditions
  import opened Check
  import opened Runtimes
  import opened PlanNodes
  import opened Plan

  // ---- a concrete resource ---------------------------------------------------------

  /** The runtime object that a list of derived roles stands for. */
  function Denoted(rho: Valuation, list: RoleList): Runtime {
    Roles(set n | n in list && Eval(rho, list[n]))
  }

  /** The condition evaluates without errors under the variables and the runtime
      object, and each residual has under rho the truth of the expression it stands for. */
  ghost predicate Total(g: Cel, res: Residual, rho: Valuation, list: RoleList, p: Option<Params>, vars: Vars,
                        rt: Runtime, c: Condition)
  {
    && Supported(c)
    && forall src | Mentions(c, src) ::
         var o := g.sem(src, ParamConstants(p), vars, rt);
         o.Val? && (Eval(rho, res(list, p, src)) <==> o == Val(Bool(true)))
  }

  /** A condition of a row, under the runtime object that the list stands for. */
  ghost predicate ResidualsAgree(g: Cel, res: Residual, rho: Valuation, list: RoleList, p: Option<Params>,
                                 c: Option<Condition>)
  {
    var vars := ParamVars(g, p, Denoted(rho, list));
    vars.Ok? && (c.Some? ==> Total(g, res, rho, list, p, vars.value, Denoted(rho, list), c.value))
  }

  ghost predicate BindingAgrees(g: Cel, res: Residual, rho: Valuation, list: RoleList, b: Binding) {
    && ResidualsAgree(g, res, rho, list, b.params, b.condition)
    && ResidualsAgree(g, res, rho, list, b.derivedRoleParams, b.derivedRoleCondition)
  }

  /** The condition of a derived role, which the planner evaluates under no derived
      roles at all. */
  ghost predicate RoleAgrees(g: Cel, res: Residual, rho: Valuation, dr: DerivedRole) {
    var vars := RunVariables(g.sem, g.strict, dr.params.constants, dr.params.variables, NO_ROLES, map[]);
    vars.Ok? && (dr.condition.Some? ==>
        Total(g, res, rho, map[], Some(dr.params), vars.value, NO_ROLES, dr.condition.value))
  }

  /** rho is the valuation of the resource that e checks: every condition is total
      there and the partial evaluator got it right, each condition seeing the derived
      roles that the planner shows it. */
  ghost predicate Valuates(e: Env, res: Residual, rho: Valuation, action: string) {
    && (forall scope, n | scope in e.resourceScopes && n in RolesOf(e.derivedRoles, e.rolesAndParents, scope) ::
          RoleAgrees(e.cel, res, rho, RolesOf(e.derivedRoles, e.rolesAndParents, scope)[n]))
    && forall kind: Kind, role: string, i: nat, b: Binding |
         role in e.roles && i < |e.Scopes(kind)| && b in e.query(kind, role, e.Scopes(kind)[i], action) ::
         BindingAgrees(e.cel, res, rho, ListFor(e, res, kind, e.Scopes(kind)[i]), b)
  }

  /** Tables as the rule table builds them: only resource bindings come from role
      policies, and a scope with an ALLOW row has recorded permissions. */
  ghost predicate WellFormed(e: Env, action: string) {
    && AllowScopesRecorded(e, action)
    && forall role, scope, b | role in e.roles && scope in e.principalScopes
        && b in e.query(Principal, role, scope, action) :: !b.fromRolePolicy
  }

  // ---- bindings --------------------------------------------------------------------

  lemma TotalMeaning(g: Cel, res: Residual, rho: Valuation, list: RoleList, p: Option<Params>, vars: Vars, rt: Runtime,
                     c: Condition)
    requires Total(g, res, rho, list, p, vars, rt, c)
    ensures Satisfies(Context(g.sem, g.strict, ParamConstants(p), vars, rt), c) ==
            FromBool(Eval(rho, OptConditionNode(res, list, p, Some(c))))
  {
    var cx := Context(g.sem, g.strict, ParamConstants(p), vars, rt);
    var truth := (src: string) => Eval(rho, res(list, p, src));
    forall src | Mentions(c, src) ensures ExprTruth(cx, src) == FromBool(truth(src)) {
    }
    TotalEvaluation(cx, c, truth);
    ConditionMeaning(rho, src => res(list, p, src), truth, c);
  }

  lemma ConditionAgrees(g: Cel, res: Residual, rho: Valuation, list: RoleList, p: Option<Params>, c: Option<Condition>)
    requires ResidualsAgree(g, res, rho, list, p, c)
    ensures var rt := Denoted(rho, list);
            ConditionTruth(g, c, p, ParamVars(g, p, rt).value, rt) ==
                FromBool(Eval(rho, OptConditionNode(res, list, p, c)))
  {
    if c.Some? {
      TotalMeaning(g, res, rho, list, p, ParamVars(g, p, Denoted(rho, list)).value, Denoted(rho, list), c.value);
    }
  }

  lemma EvaluationAgrees(g: Cel, res: Residual, rho: Valuation, list: RoleList, b: Binding)
    requires BindingAgrees(g, res, rho, list, b)
    ensures Evaluate(g, b, Denoted(rho, list)) == if Eval(rho, BindingNode(res, list, b)) then Sat else Unsat
  {
    assert b.condition.None? ==> OptConditionNode(res, list, b.params, b.condition) == Const(true);
    hide ConditionTruth, ParamVars, OptConditionNode, Denoted, Total;
    ConditionAgrees(g, res, rho, list, b.params, b.condition);
    ConditionAgrees(g, res, rho, list, b.derivedRoleParams, b.derivedRoleCondition);
    var node := OptConditionNode(res, list, b.params, b.condition);
    var drNode := OptConditionNode(res, list, b.derivedRoleParams, b.derivedRoleCondition);
    PairMeaning(rho, node, drNode);
    hide Eval;
  }

  lemma PairMeaning(rho: Valuation, a: Node, b: Node)
    ensures Eval(rho, And([a, b])) == (Eval(rho, a) && Eval(rho, b))
  {
    var ns := [a, b];
    assert ns[0] == a && ns[1] == b;
  }

  /** The list of a scope stands for the runtime object of its own derived roles. */
  lemma ListDenotes(e: Env, res: Residual, rho: Valuation, action: string, scope: string)
    requires Valuates(e, res, rho, action) && scope in e.resourceScopes
    ensures OwnRuntime(e, scope) == Ok(Denoted(rho, ListFor(e, res, Resource, scope)))
  {
    var drs := RolesOf(e.derivedRoles, e.rolesAndParents, scope);
    var list := ListFor(e, res, Resource, scope);
    forall n | n in drs ensures RoleResult(e.cel, drs[n], NO_ROLES) == Ok(FromBool(Eval(rho, list[n]))) {
      RoleMeaningAlone(e.cel, res, rho, drs[n]);
    }
    hide RoleResult, RoleNode, Valuates;
    assert forall n | n in drs ::
        RoleResult(e.cel, drs[n], NO_ROLES) != Error && RoleResult(e.cel, drs[n], NO_ROLES) != Ok(Failed);
    var inEffect, shown :=
        set n | n in drs && RoleResult(e.cel, drs[n], NO_ROLES) == Ok(True), set n | n in list && Eval(rho, list[n]);
    assert inEffect == shown;
  }

  lemma RoleMeaningAlone(g: Cel, res: Residual, rho: Valuation, dr: DerivedRole)
    requires RoleAgrees(g, res, rho, dr)
    ensures RoleResult(g, dr, NO_ROLES) == Ok(FromBool(Eval(rho, RoleNode(res, dr))))
  {
    if dr.condition.Some? {
      var vars := RunVariables(g.sem, g.strict, dr.params.constants, dr.params.variables, NO_ROLES, map[]).value;
      TotalMeaning(g, res, rho, map[], Some(dr.params), vars, NO_ROLES, dr.condition.value);
    }
  }

  /** Where runtime objects do not depend on the scope before, the planner shows the
      conditions of a scope the derived roles that `check` shows them. */
  lemma PlannedRuntime(e: Env, res: Residual, rho: Valuation, action: string, kind: Kind, i: nat)
    requires Valuates(e, res, rho, action) && Unchained(e) && i < |e.Scopes(kind)|
    ensures RuntimeFor(e, kind, i) == Ok(Denoted(rho, ListFor(e, res, kind, e.Scopes(kind)[i])))
  {
    if kind == Resource {
      ListDenotes(e, res, rho, action, e.resourceScopes[i]);
    } else {
      assert Denoted(rho, map[]) == NO_ROLES;
    }
  }

  lemma ValuatedRunsAreErrorFree(e: Env, res: Residual, rho: Valuation, action: string)
    requires Valuates(e, res, rho, action) && Unchained(e)
    ensures ErrorFree(e, action)
  {
    hide Denoted, ListFor, RuntimeAt, Evaluate;
    forall i | 0 <= i < |e.resourceScopes| ensures RuntimeAt(e, i).Ok? {
      PlannedRuntime(e, res, rho, action, Resource, i);
    }
    forall kind: Kind, role: string, i: nat, b: Binding |
      role in e.roles && i < |e.Scopes(kind)| && b in e.query(kind, role, e.Scopes(kind)[i], action)
      ensures BindingDecided(e, kind, i, b)
    {
      PlannedRuntime(e, res, rho, action, kind, i);
      EvaluationAgrees(e.cel, res, rho, ListFor(e, res, kind, e.Scopes(kind)[i]), b);
    }
  }

  // ---- scopes ------------------------------------------------------------------------

  lemma {:induction false} AddBindingsMeaning(res: Residual, rho: Valuation, list: RoleList, bs: seq<Binding>,
                                              acc: ScopeNodes)
    ensures var r := AddBindings(res, list, bs, acc);
            && (EvalOpt(rho, r.allow) <==>
                EvalOpt(rho, acc.allow)
                || exists b | b in bs :: b.effect == Allow && Eval(rho, BindingNode(res, list, b)))
            && (EvalOpt(rho, r.deny) || EvalOpt(rho, r.denyRolePolicy) <==>
                EvalOpt(rho, acc.deny) || EvalOpt(rho, acc.denyRolePolicy)
                    || exists b | b in bs :: b.effect == Deny && Eval(rho, BindingNode(res, list, b)))
            && (r.allow.Some? <==> acc.allow.Some? || exists b | b in bs :: b.effect == Allow)
            && ((forall b | b in bs :: !b.fromRolePolicy) ==> r.denyRolePolicy == acc.denyRolePolicy)
  {
    hide BindingNode;
    if bs != [] {
      var b := bs[0];
      var n := BindingNode(res, list, b);
      assert bs == [b] + bs[1..];
      assert b in bs;
      AddMeaning(rho, acc.allow, Some(n));
      AddMeaning(rho, acc.deny, Some(n));
      AddMeaning(rho, acc.denyRolePolicy, Some(n));
      AddBindingsMeaning(res, rho, list, bs[1..], AddBinding(acc, b, n));
    }
  }

  /** The nodes of a scope say under rho what its rows do to the resource. */
  lemma NodesMeaning(e: Env, res: Residual, rho: Valuation, kind: Kind, role: string, action: string, i: nat)
    requires Valuates(e, res, rho, action) && Unchained(e) && WellFormed(e, action) && role in e.roles
    requires i < |e.Scopes(kind)|
    ensures var s := NodesAt(e, res, kind, role, action, i);
            && (EvalOpt(rho, s.allow) <==> Fires(e, kind, role, action, i, Allow))
            && (EvalOpt(rho, s.deny) || EvalOpt(rho, s.denyRolePolicy) <==> Denies(e, kind, role, action, i))
            && (s.allow.Some? ==> e.Permission(e.Scopes(kind)[i]).Some?)
            && (kind == Principal ==> s.denyRolePolicy.None?)
  {
    hide BindingNode, Evaluate, AddBindings;
    var scope := e.Scopes(kind)[i];
    var bs := e.query(kind, role, scope, action);
    var list := ListFor(e, res, kind, scope);
    AddBindingsMeaning(res, rho, list, bs, NO_NODES);
    PlannedRuntime(e, res, rho, action, kind, i);
    forall b | b in bs
      ensures Evaluate(e.cel, b, RuntimeFor(e, kind, i).value) == Sat <==> Eval(rho, BindingNode(res, list, b))
    {
      EvaluationAgrees(e.cel, res, rho, list, b);
    }
  }

  lemma GateMeaning(rho: Valuation, childOverrideAllow: Option<Node>, deny: Option<Node>)
    ensures EvalOpt(rho, GateByChildOverrideAllow(childOverrideAllow, deny)) <==>
            EvalOpt(rho, deny) && !EvalOpt(rho, childOverrideAllow)
    ensures deny.None? ==> GateByChildOverrideAllow(childOverrideAllow, deny).None?
  {
    if deny.Some? && childOverrideAllow.Some? {
      AndTwoMeaning(rho, Invert(childOverrideAllow.value), deny.value);
    }
  }

  lemma StepScopeMeaning(rho: Valuation, st: RoleState, s: ScopeNodes, permission: Option<Permission>)
    ensures var st' := StepScope(st, s, permission);
            var gated := !EvalOpt(rho, st.childOverrideAllow);
            && (EvalOpt(rho, st'.deny) <==> EvalOpt(rho, st.deny) || (EvalOpt(rho, s.deny) && gated))
            && (EvalOpt(rho, st'.denyRolePolicy) <==>
                EvalOpt(rho, st.denyRolePolicy) || (EvalOpt(rho, s.denyRolePolicy) && gated))
            && (EvalOpt(rho, st'.childOverrideAllow) <==>
                EvalOpt(rho, st.childOverrideAllow) || (permission == Some(OverrideParent) && EvalOpt(rho, s.allow)))
            && (EvalOpt(rho, st'.allow) <==>
                if s.allow.None? then EvalOpt(rho, st.allow)
                else if st.allow.Some? && st.pendingAllow then EvalOpt(rho, st.allow) && EvalOpt(rho, s.allow)
                else EvalOpt(rho, st.allow) || EvalOpt(rho, s.allow))
            && (st.denyRolePolicy.None? && s.denyRolePolicy.None? ==> st'.denyRolePolicy.None?)
  {
    GateMeaning(rho, st.childOverrideAllow, s.deny);
    GateMeaning(rho, st.childOverrideAllow, s.denyRolePolicy);
    AddMeaning(rho, st.deny, GateByChildOverrideAllow(st.childOverrideAllow, s.deny));
    AddMeaning(rho, st.denyRolePolicy, GateByChildOverrideAllow(st.childOverrideAllow, s.denyRolePolicy));
    AddMeaning(rho, st.childOverrideAllow, s.allow);
    hide MkAnd, GateByChildOverrideAllow;
    if st.allow.Some? && s.allow.Some? {
      AddMeaning(rho, st.allow, s.allow);
      AndTwoMeaning(rho, st.allow.value, s.allow.value);
    }
  }

  // ---- the walk over scopes, in step with the check loop -----------------------------------

  /** How far the check loop has come: still open, or decided by a scope already
      passed. */
  datatype Phase = Open | Granted | Refused

  ghost predicate Tracks(e: Env, rho: Valuation, kind: Kind, role: string, action: string, i: nat, st: RoleState,
                         ph: Phase)
    requires i <= |e.Scopes(kind)|
  {
    var denied := EvalOpt(rho, st.deny) || EvalOpt(rho, st.denyRolePolicy);
    && (kind == Principal ==> st.denyRolePolicy.None?)
    && match ph
       case Open =>
         && !EvalOpt(rho, st.childOverrideAllow) && !denied && (EvalOpt(rho, st.allow) ==> st.pendingAllow)
         && ChainVerdict(e, kind, role, action, i, false) == RoleVerdict(e, kind, role, action)
       case Granted => RoleVerdict(e, kind, role, action) == VAllow && EvalOpt(rho, st.childOverrideAllow) && !denied
       case Refused => RoleVerdict(e, kind, role, action) == VDeny && denied
  }

  /** Nothing has been lost: the allow node is true where the loop has granted. */
  predicate Exactly(rho: Valuation, st: RoleState, ph: Phase) {
    && !st.pendingAllow
    && (ph == Open ==> !EvalOpt(rho, st.allow))
    && (ph == Granted ==> EvalOpt(rho, st.allow))
  }

  ghost predicate NoConsent(e: Env, kind: Kind) {
    forall scope | scope in e.Scopes(kind) :: e.Permission(scope) != Some(RequireParentalConsent)
  }

  lemma StepTracks(e: Env, res: Residual, rho: Valuation, kind: Kind, role: string, action: string, i: nat,
                   st: RoleState, ph: Phase) returns (ph': Phase)
    requires Valuates(e, res, rho, action) && Unchained(e) && WellFormed(e, action) && role in e.roles
    requires i < |e.Scopes(kind)|
    requires Tracks(e, rho, kind, role, action, i, st, ph)
    ensures var st' := StepScope(st, NodesAt(e, res, kind, role, action, i), e.Permission(e.Scopes(kind)[i]));
            && Tracks(e, rho, kind, role, action, i + 1, st', ph')
            && (Exactly(rho, st, ph) && NoConsent(e, kind) ==> Exactly(rho, st', ph'))
  {
    var s := NodesAt(e, res, kind, role, action, i);
    ValuatedRunsAreErrorFree(e, res, rho, action);
    NodesMeaning(e, res, rho, kind, role, action, i);
    var permission := e.Permission(e.Scopes(kind)[i]);
    assert permission.Some? ==> permission.value.OverrideParent? || permission.value.RequireParentalConsent?;
    StepScopeMeaning(rho, st, s, permission);
    StepMeaning(e, kind, role, action, i);
    hide Valuates, Unchained, WellFormed, ErrorFree, Fires, NodesAt, ChainVerdict, EvalOpt;
    ph' := ph;
    if ph == Open {
      if Denies(e, kind, role, action, i) {
        ph' := Refused;
      } else if Grants(e, kind, role, action, i) {
        ph' := Granted;
      }
    }
  }

  lemma {:induction false} FoldTracks(e: Env, res: Residual, rho: Valuation, kind: Kind, role: string, action: string,
                                      i: nat, st: RoleState, ph: Phase) returns (ph': Phase)
    requires Valuates(e, res, rho, action) && Unchained(e) && WellFormed(e, action) && role in e.roles
    requires i <= |e.Scopes(kind)|
    requires Tracks(e, rho, kind, role, action, i, st, ph)
    ensures var st' := FoldScopes(e, res, kind, role, action, i, st);
            && Tracks(e, rho, kind, role, action, |e.Scopes(kind)|, st', ph')
            && (Exactly(rho, st, ph) && NoConsent(e, kind) ==> Exactly(rho, st', ph'))
    decreases |e.Scopes(kind)| - i
  {
    hide Valuates, Unchained, WellFormed, NodesAt, StepScope;
    if i == |e.Scopes(kind)| || IsConst(st.childOverrideAllow, true) {
      ph' := ph;
    } else {
      var next := StepTracks(e, res, rho, kind, role, action, i, st, ph);
      ph' := FoldTracks(e, res, rho, kind, role, action, i + 1,
                        StepScope(st, NodesAt(e, res, kind, role, action, i), e.Permission(e.Scopes(kind)[i])), next);
    }
  }

  // ---- roles ---------------------------------------------------------------------------------

  /** What one role's nodes say about its verdict. */
  ghost predicate RoleSound(rho: Valuation, kind: Kind, r: RoleNodes, v: Verdict) {
    && (EvalOpt(rho, r.allow) && !EvalOpt(rho, r.deny) ==> v == VAllow)
    && (r.settled ==> r.deny.None? && EvalOpt(rho, r.allow))
    && (kind == Principal && v == VDeny ==> EvalOpt(rho, r.deny))
  }

  ghost predicate RoleExact(rho: Valuation, r: RoleNodes, v: Verdict) {
    && (v == VAllow ==> EvalOpt(rho, r.allow) && !EvalOpt(rho, r.deny))
    && (v == VNoMatch ==> !EvalOpt(rho, r.allow) && !EvalOpt(rho, r.deny))
  }

  /** What becomes of the accumulated nodes at the end of the walk. */
  lemma FinishMeaning(rho: Valuation, kind: Kind, st: RoleState)
    ensures var r := FinishRole(kind, st);
            var denied := EvalOpt(rho, st.deny) || EvalOpt(rho, st.denyRolePolicy);
            && (!denied ==>
                !EvalOpt(rho, r.deny) && (EvalOpt(rho, r.allow) <==> EvalOpt(rho, st.allow) && !st.pendingAllow))
            && (denied ==> !EvalOpt(rho, r.allow) || EvalOpt(rho, r.deny))
            && (denied && kind == Principal && st.denyRolePolicy.None? ==> EvalOpt(rho, r.deny))
            && (r.settled ==> r.deny.None? && EvalOpt(rho, r.allow))
  {
    if st.allow.Some? && st.denyRolePolicy.Some? {
      AndTwoMeaning(rho, st.allow.value, Invert(st.denyRolePolicy.value));
    }
    hide MkAnd;
  }

  lemma RoleMeaning(e: Env, res: Residual, rho: Valuation, kind: Kind, role: string, action: string)
    requires Valuates(e, res, rho, action) && Unchained(e) && WellFormed(e, action) && role in e.roles
    ensures var r := NodesOfRole(e, res, kind, role, action);
            var v := RoleVerdict(e, kind, role, action);
            RoleSound(rho, kind, r, v) && (NoConsent(e, kind) ==> RoleExact(rho, r, v))
  {
    var ph := FoldTracks(e, res, rho, kind, role, action, 0, START, Open);
    FinishMeaning(rho, kind, FoldScopes(e, res, kind, role, action, 0, START));
    hide Valuates, Unchained, WellFormed, FoldScopes, FinishRole, EvalOpt, ChainVerdict;
  }

  lemma {:induction false} RolesSound(e: Env, res: Residual, rho: Valuation, roles: seq<string>, action: string,
                                      acc: KindNodes, allowed: bool)
    requires Valuates(e, res, rho, action) && Unchained(e) && WellFormed(e, action)
             && forall r | r in roles :: r in e.roles
    requires EvalOpt(rho, acc.allow) && !EvalOpt(rho, acc.deny) ==> allowed
    ensures var k := FoldRoles(e, res, Resource, roles, action, acc);
            EvalOpt(rho, k.allow) && !EvalOpt(rho, k.deny) ==>
                allowed || exists r | r in roles :: RoleVerdict(e, Resource, r, action) == VAllow
  {
    hide Valuates, Unchained, WellFormed, NodesOfRole, RoleVerdict, EvalOpt;
    if roles != [] {
      assert roles[0] in roles;
      RoleMeaning(e, res, rho, Resource, roles[0], action);
      var r := NodesOfRole(e, res, Resource, roles[0], action);
      if !r.settled {
        AddMeaning(rho, acc.allow, r.allow);
        AddMeaning(rho, acc.deny, r.deny);
        RolesSound(e, res, rho, roles[1..], action, KindNodes(AddNode(acc.allow, r.allow), AddNode(acc.deny, r.deny)),
                   allowed || RoleVerdict(e, Resource, roles[0], action) == VAllow);
      } else {
        assert !EvalOpt(rho, r.deny) by {
          assert r.deny == None;
          NoneIsFalse(rho);
        }
      }
    }
  }

  lemma NoneIsFalse(rho: Valuation)
    ensures !EvalOpt(rho, None)
  {
  }

  /** Without consent scopes, resource policies that leave no allow node allow
      nothing. */
  lemma {:induction false} NoAllowNode(e: Env, res: Residual, rho: Valuation, roles: seq<string>, action: string,
                                       acc: KindNodes)
    requires Valuates(e, res, rho, action) && Unchained(e) && WellFormed(e, action) && NoConsent(e, Resource)
             && forall r | r in roles :: r in e.roles
    ensures FoldRoles(e, res, Resource, roles, action, acc).allow.None? ==>
              acc.allow.None? && forall r | r in roles :: RoleVerdict(e, Resource, r, action) != VAllow
  {
    hide Valuates, Unchained, WellFormed, NodesOfRole, RoleVerdict;
    if roles != [] {
      assert roles == [roles[0]] + roles[1..];
      RoleMeaning(e, res, rho, Resource, roles[0], action);
      var r := NodesOfRole(e, res, Resource, roles[0], action);
      NoAllowNode(e, res, rho, roles[1..], action, KindNodes(AddNode(acc.allow, r.allow), AddNode(acc.deny, r.deny)));
    }
  }

  /** With a single role, the nodes of the kind are the nodes of the role. */
  lemma SingleRole(e: Env, res: Residual, kind: Kind, role: string, action: string)
    ensures var r := NodesOfRole(e, res, kind, role, action);
            FoldRoles(e, res, kind, [role], action, KindNodes(None, None)) ==
                if r.settled then KindNodes(r.allow, None) else KindNodes(r.allow, r.deny)
  {
    hide NodesOfRole;
    var r := NodesOfRole(e, res, kind, role, action);
    var k := KindNodes(r.allow, r.deny);
    assert [role][1..] == [];
    assert FoldRoles(e, res, kind, [], action, k) == k;
  }

  // ---- the whole plan ------------------------------------------------------------------------

  lemma CombineMeaning(rho: Valuation, root: Option<Node>, k: KindNodes)
    ensures EvalOpt(rho, Combine(root, k)) <==>
            && !EvalOpt(rho, k.deny)
            && (EvalOpt(rho, k.allow) || EvalOpt(rho, root) || (root.None? && k.allow.None? && k.deny.Some?))
    ensures Combine(root, k).None? <==> root.None? && k.allow.None? && k.deny.None?
  {
    if k.allow.Some? && root.Some? {
      AddMeaning(rho, k.allow, root);
    }
    var allowed := AddNode(if k.allow.None? then root else k.allow, if k.allow.None? then None else root);
    AddMeaning(rho, if k.allow.None? then root else k.allow, if k.allow.None? then None else root);
    if k.deny.Some? && allowed.Some? {
      AndTwoMeaning(rho, Invert(k.deny.value), allowed.value);
    }
  }

  lemma AssembleMeaning(rho: Valuation, resource: KindNodes, principal: KindNodes)
    ensures Eval(rho, Assemble(resource, principal)) <==>
            && (resource.allow.Some? || principal.allow.Some?)
            && !EvalOpt(rho, principal.deny)
            && (|| EvalOpt(rho, principal.allow)
                || (!EvalOpt(rho, resource.deny)
                    && (EvalOpt(rho, resource.allow) || (resource.allow.None? && resource.deny.Some?))))
  {
    CombineMeaning(rho, None, resource);
    CombineMeaning(rho, Combine(None, resource), principal);
  }

  /** The resource policies leave a deny node without an allow node while the
      principal policies leave an allow node: then the negated deny is planned as
      if it were an ALLOW. */
  predicate BareDeny(e: Env, res: Residual, action: string) {
    var resource := NodesOfKind(e, res, Resource, action);
    resource.allow.None? && resource.deny.Some? && NodesOfKind(e, res, Principal, action).allow.Some?
  }

  lemma PrincipalMeaning(e: Env, res: Residual, rho: Valuation, action: string)
    requires Valuates(e, res, rho, action) && Unchained(e) && WellFormed(e, action)
    ensures var k := NodesOfKind(e, res, Principal, action);
            var v := KindVerdict(e, Principal, action);
            && (EvalOpt(rho, k.allow) && !EvalOpt(rho, k.deny) ==> v == VAllow)
            && (v == VDeny ==> EvalOpt(rho, k.deny))
            && (NoConsent(e, Principal) && v == VAllow ==> EvalOpt(rho, k.allow) && !EvalOpt(rho, k.deny))
            && (NoConsent(e, Principal) && v == VNoMatch ==> !EvalOpt(rho, k.allow) && !EvalOpt(rho, k.deny))
  {
    hide Valuates, Unchained, WellFormed, NodesOfRole, RoleVerdict;
    if e.roles != [] {
      assert RolesFor(e, Principal) == [e.roles[0]];
      RoleMeaning(e, res, rho, Principal, e.roles[0], action);
      SingleRole(e, res, Principal, e.roles[0], action);
    }
  }

  /** Soundness: a resource that satisfies the plan is allowed, for any number of
      roles and any mix of scope permissions. */
  lemma PlanSound(e: Env, res: Residual, rho: Valuation, action: string)
    requires Valuates(e, res, rho, action) && Unchained(e) && WellFormed(e, action)
    requires !BareDeny(e, res, action)
    ensures Eval(rho, PlanNode(e, res, action)) ==> LoopsAllow(e, action)
    ensures Eval(rho, PlanNode(e, res, action)) && e.policiesExist ==> Decide(e, action) == Ok(Allow)
  {
    ValuatedRunsAreErrorFree(e, res, rho, action);
    DecideClosedForm(e, action);
    RolesSound(e, res, rho, e.roles, action, KindNodes(None, None), false);
    PrincipalMeaning(e, res, rho, action);
    var resource, principal := NodesOfKind(e, res, Resource, action), NodesOfKind(e, res, Principal, action);
    AssembleMeaning(rho, resource, principal);
    PrincipalSettles(e, action);
  }

  lemma PrincipalSettles(e: Env, action: string)
    requires ErrorFree(e, action) && AllowScopesRecorded(e, action)
    ensures var v := KindVerdict(e, Principal, action);
            v == VAllow || v == VDeny || v == VNoMatch
  {
    if e.roles != [] {
      ChainClosedForm(e, Principal, e.roles[0], action, 0);
    }
  }

  /** Whatever the permissions of the scopes: a plan that lets through a resource
      that `check` does not allow has a bare deny, and no DENY condition and no
      principal ALLOW holds. */
  lemma PlanUnsoundOnlyIf(e: Env, res: Residual, rho: Valuation, action: string)
    requires Valuates(e, res, rho, action) && Unchained(e) && WellFormed(e, action) && e.policiesExist
    requires Eval(rho, PlanNode(e, res, action)) && Decide(e, action) != Ok(Allow)
    ensures BareDeny(e, res, action)
    ensures !EvalOpt(rho, NodesOfKind(e, res, Resource, action).deny)
    ensures !EvalOpt(rho, NodesOfKind(e, res, Principal, action).deny)
    ensures !EvalOpt(rho, NodesOfKind(e, res, Principal, action).allow)
  {
    ValuatedRunsAreErrorFree(e, res, rho, action);
    DecideClosedForm(e, action);
    PrincipalMeaning(e, res, rho, action);
    PrincipalSettles(e, action);
    AssembleMeaning(rho, NodesOfKind(e, res, Resource, action), NodesOfKind(e, res, Principal, action));
    if !BareDeny(e, res, action) {
      PlanSound(e, res, rho, action);
    }
  }

  /** Where no scope requires parental consent, the plan lets through a resource
      that `check` denies exactly when a bare deny is planned, none of the DENY
      conditions holds and no principal ALLOW does. */
  lemma PlanUnsoundExactly(e: Env, res: Residual, rho: Valuation, action: string)
    requires Valuates(e, res, rho, action) && Unchained(e) && WellFormed(e, action) && e.policiesExist
    requires NoConsent(e, Principal) && NoConsent(e, Resource)
    ensures (Eval(rho, PlanNode(e, res, action)) && Decide(e, action) != Ok(Allow)) <==>
            && BareDeny(e, res, action)
            && !EvalOpt(rho, NodesOfKind(e, res, Resource, action).deny)
            && !EvalOpt(rho, NodesOfKind(e, res, Principal, action).deny)
            && !EvalOpt(rho, NodesOfKind(e, res, Principal, action).allow)
  {
    ValuatedRunsAreErrorFree(e, res, rho, action);
    DecideClosedForm(e, action);
    NoAllowNode(e, res, rho, e.roles, action, KindNodes(None, None));
    PrincipalMeaning(e, res, rho, action);
    PrincipalSettles(e, action);
    AssembleMeaning(rho, NodesOfKind(e, res, Resource, action), NodesOfKind(e, res, Principal, action));
    if Eval(rho, PlanNode(e, res, action)) && Decide(e, action) != Ok(Allow) {
      PlanUnsoundOnlyIf(e, res, rho, action);
    }
  }

  lemma {:induction false} RolesComplete(e: Env, res: Residual, rho: Valuation, roles: seq<string>, action: string,
                                         acc: KindNodes)
    requires Valuates(e, res, rho, action) && Unchained(e) && WellFormed(e, action) && NoConsent(e, Resource)
             && forall r | r in roles :: r in e.roles
    requires EvalOpt(rho, acc.allow) || exists r | r in roles :: RoleVerdict(e, Resource, r, action) == VAllow
    ensures EvalOpt(rho, FoldRoles(e, res, Resource, roles, action, acc).allow)
  {
    hide Valuates, Unchained, WellFormed, NodesOfRole, RoleVerdict, EvalOpt;
    if roles != [] {
      assert roles == [roles[0]] + roles[1..];
      RoleMeaning(e, res, rho, Resource, roles[0], action);
      var r := NodesOfRole(e, res, Resource, roles[0], action);
      if !r.settled {
        AddMeaning(rho, acc.allow, r.allow);
        RolesComplete(e, res, rho, roles[1..], action,
            KindNodes(AddNode(acc.allow, r.allow), AddNode(acc.deny, r.deny)));
      }
    }
  }

  /** With several roles the plan can miss a resource that `check` allows: exactly
      when a role allows it while the deny node of the resource policies, which
      joins the denials of all roles, holds. */
  lemma PlanMissesExactly(e: Env, res: Residual, rho: Valuation, action: string)
    requires Valuates(e, res, rho, action) && Unchained(e) && WellFormed(e, action) && e.policiesExist
    requires NoConsent(e, Principal) && NoConsent(e, Resource)
    ensures (Decide(e, action) == Ok(Allow) && !Eval(rho, PlanNode(e, res, action))) <==>
            && KindVerdict(e, Principal, action) == VNoMatch
            && (exists r | r in e.roles :: RoleVerdict(e, Resource, r, action) == VAllow)
            && EvalOpt(rho, NodesOfKind(e, res, Resource, action).deny)
  {
    ValuatedRunsAreErrorFree(e, res, rho, action);
    DecideClosedForm(e, action);
    PrincipalMeaning(e, res, rho, action);
    AssembleMeaning(rho, NodesOfKind(e, res, Resource, action), NodesOfKind(e, res, Principal, action));
    if exists r | r in e.roles :: RoleVerdict(e, Resource, r, action) == VAllow {
      RolesComplete(e, res, rho, e.roles, action, KindNodes(None, None));
    }
  }

  /** Exactness: for a principal with one role and no scope that requires parental
      consent, the plan is true of exactly the resources that `check` allows. */
  lemma PlanExact(e: Env, res: Residual, rho: Valuation, action: string)
    requires Valuates(e, res, rho, action) && Unchained(e) && WellFormed(e, action) && e.policiesExist
    requires NoConsent(e, Principal) && NoConsent(e, Resource) && |e.roles| == 1
    requires !BareDeny(e, res, action)
    ensures Eval(rho, PlanNode(e, res, action)) <==> Decide(e, action) == Ok(Allow)
  {
    PlanSound(e, res, rho, action);
    ValuatedRunsAreErrorFree(e, res, rho, action);
    DecideClosedForm(e, action);
    PrincipalMeaning(e, res, rho, action);
    AssembleMeaning(rho, NodesOfKind(e, res, Resource, action), NodesOfKind(e, res, Principal, action));
    assert e.roles == [e.roles[0]];
    SingleRole(e, res, Resource, e.roles[0], action);
    RoleMeaning(e, res, rho, Resource, e.roles[0], action);
  }
}
