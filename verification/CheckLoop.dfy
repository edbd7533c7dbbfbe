/** `check` as it runs (internal/ruletable/check.go): a batch of actions, nested
    loops with labelled breaks, and three caches shared by the whole batch. */
module CheckLoop {
  import opened Common
  import opened Conditions
  import opened Check
  import opened Runtimes

  /** `vars` and `conds` are varCache and conditionCache, `derived` is
      processedScopedDerivedRoles, `rt` the runtime object of the evaluation
      context, which outlives the scope that set it. */
  datatype Caches = Caches(vars: map<nat, Vars>, conds: map<EvalKey, bool>, derived: map<string, Runtime>, rt: Runtime)

  const EMPTY: Caches := Caches(map[], map[], map[], NO_ROLES)

  // ---- when caching is sound ----------------------------------------------------

  /** b can be returned for the i-th scope of a chain. */
  ghost predicate At(e: Env, kind: Kind, i: nat, b: Binding) {
    i < |e.Scopes(kind)| && exists role, action :: b in e.query(kind, role, e.Scopes(kind)[i], action)
  }

  ghost predicate RuleParams(e: Env, p: Params) {
    exists kind, i, b :: At(e, kind, i, b) && (b.params == Some(p) || b.derivedRoleParams == Some(p))
  }

  /** dr is a derived role that the request can meet. */
  ghost predicate Applicable(e: Env, dr: DerivedRole) {
    exists scope, n ::
        n in RolesOf(e.derivedRoles, e.rolesAndParents, scope)
        && RolesOf(e.derivedRoles, e.rolesAndParents, scope)[n] == dr
  }

  ghost predicate SameConditions(b: Binding, b': Binding) {
    && b.condition == b'.condition && b.params == b'.params
    && b.derivedRoleCondition == b'.derivedRoleCondition && b.derivedRoleParams == b'.derivedRoleParams
  }

  ghost predicate RuntimeFreeBinding(e: Env, b: Binding) {
    && (b.condition.Some? ==> RuntimeFreeCondition(e.cel.sem, b.condition.value))
    && (b.derivedRoleCondition.Some? ==> RuntimeFreeCondition(e.cel.sem, b.derivedRoleCondition.value))
  }

  /** Equal evaluation keys mean equal conditions, evaluated at the same scope or
      not reading the runtime object. */
  ghost predicate EvalKeysSound(e: Env) {
    forall kind, i, b, kind', i', b' | At(e, kind, i, b) && At(e, kind', i', b') && b.key == b'.key ::
      SameConditions(b, b') && ((kind == kind' && i == i') || RuntimeFreeBinding(e, b))
  }

  /** Equal variable keys mean equal variables (the content hashes do not
      collide), and no variable reads the runtime object. */
  ghost predicate VarKeysSound(e: Env) {
    && (forall p, p' | RuleParams(e, p) && RuleParams(e, p') && p.key == p'.key :: p == p')
    && (forall dr, dr' | Applicable(e, dr) && Applicable(e, dr') && dr.varCacheKey == dr'.varCacheKey ::
        dr.params == dr'.params)
    && (forall p, dr | RuleParams(e, p) && Applicable(e, dr) :: p.key != dr.varCacheKey)
    && (forall p | RuleParams(e, p) :: RuntimeFreeParams(e.cel.sem, p))
    && (forall dr | Applicable(e, dr) :: RuntimeFreeParams(e.cel.sem, dr.params))
  }

  ghost predicate Transparent(e: Env) {
    EvalKeysSound(e) && VarKeysSound(e) && NoRepeats(e.resourceScopes)
  }

  /** No condition of a principal policy reads the runtime object. */
  ghost predicate PrincipalsBlind(e: Env) {
    forall i, b | At(e, Principal, i, b) :: RuntimeFreeBinding(e, b)
  }

  // ---- what the caches hold -------------------------------------------------------

  function ProgramVars(e: Env, p: Params): Result<Vars> {
    ParamVars(e.cel, Some(p), NO_ROLES)
  }

  function DerivedVars(e: Env, p: Params): Result<Vars> {
    RunVariables(e.cel.sem, e.cel.strict, p.constants, p.variables, NO_ROLES, map[])
  }

  ghost predicate VarsOk(e: Env, vars: map<nat, Vars>) {
    && (forall p | RuleParams(e, p) && p.key in vars :: ProgramVars(e, p) == Ok(vars[p.key]))
    && (forall dr | Applicable(e, dr) && dr.varCacheKey in vars ::
        DerivedVars(e, dr.params) == Ok(vars[dr.varCacheKey]))
  }

  /** The truth that an evaluation of b at the i-th scope yields. */
  ghost predicate Cached(e: Env, kind: Kind, i: nat, b: Binding, sat: bool)
    requires i < |e.Scopes(kind)|
  {
    var rt := RuntimeFor(e, kind, i);
    rt.Ok? ==>
      var vars := ParamVars(e.cel, b.params, rt.value);
      vars.Ok? ==> Verified(e.cel, b, vars.value, rt.value) == Ok(FromBool(sat))
  }

  ghost predicate CondsOk(e: Env, conds: map<EvalKey, bool>) {
    forall kind, i, b | At(e, kind, i, b) && b.key in conds :: Cached(e, kind, i, b, conds[b.key])
  }

  ghost predicate DerivedOk(e: Env, c: Caches) {
    && (forall i | 0 <= i < |e.resourceScopes| && e.resourceScopes[i] in c.derived ::
          RuntimeAt(e, i) == Ok(c.derived[e.resourceScopes[i]]))
    && ((c.derived == map[] && c.rt == NO_ROLES) || (e.resourceScopes != [] && e.resourceScopes[0] in c.derived))
  }

  ghost predicate CachesOk(e: Env, c: Caches) {
    VarsOk(e, c.vars) && CondsOk(e, c.conds) && DerivedOk(e, c)
  }

  /** Everything the loops rely on when caching is sound. */
  ghost predicate Good(e: Env, c: Caches) {
    Transparent(e) && CachesOk(e, c)
  }

  /** k is the key of a row that is looked up for the action. */
  ghost predicate Queried(e: Env, action: string, k: EvalKey) {
    exists kind: Kind, role: string, i: nat, b: Binding ::
      i < |e.Scopes(kind)| && b in e.query(kind, role, e.Scopes(kind)[i], action) && b.key == k
  }

  /** What is new in the condition cache are rows of the action. */
  ghost predicate AddsFrom(e: Env, action: string, c: Caches, c': Caches) {
    forall k | k in c'.conds && k !in c.conds :: Queried(e, action, k)
  }

  // ---- variables --------------------------------------------------------------------

  lemma ProgramVarsAt(e: Env, p: Params, rt: Runtime)
    requires RuntimeFreeParams(e.cel.sem, p)
    ensures ParamVars(e.cel, Some(p), rt) == ProgramVars(e, p)
  {
    ProgramsRuntimeIrrelevant(e.cel.sem, p.constants, p.variables, rt, NO_ROLES, map[]);
  }

  method RuleVariables(e: Env, p: Params, c: Caches) returns (r: Result<Vars>, c': Caches)
    ensures Good(e, c) && RuleParams(e, p) ==> r == ProgramVars(e, p) && Good(e, c')
    ensures c' == c.(vars := c'.vars)
  {
    c' := c;
    if p.key in c.vars {
      r := Ok(c.vars[p.key]);
    } else {
      r := EvaluatePrograms(e.cel.sem, p.constants, p.variables, c.rt);
      if r.Ok? {
        c' := c.(vars := c.vars[p.key := r.value]);
      }
      if Good(e, c) && RuleParams(e, p) {
        ProgramVarsAt(e, p, c.rt);
        if r.Ok? {
          assert VarsOk(e, c'.vars);
        }
      }
    }
  }

  method RoleVariables(e: Env, dr: DerivedRole, c: Caches) returns (r: Result<Vars>, c': Caches)
    ensures Good(e, c) && Applicable(e, dr) ==> r == DerivedVars(e, dr.params) && Good(e, c')
    ensures c' == c.(vars := c'.vars)
  {
    c' := c;
    if dr.varCacheKey in c.vars {
      r := Ok(c.vars[dr.varCacheKey]);
    } else {
      r := EvaluateVariables(e.cel.sem, e.cel.strict, dr.params.constants, dr.params.variables, c.rt);
      if r.Ok? {
        c' := c.(vars := c.vars[dr.varCacheKey := r.value]);
      }
      if Good(e, c) && Applicable(e, dr) {
        RememberRoleVars(e, c, dr, r);
      }
    }
  }

  lemma RememberRoleVars(e: Env, c: Caches, dr: DerivedRole, r: Result<Vars>)
    requires Good(e, c) && Applicable(e, dr)
    requires r == RunVariables(e.cel.sem, e.cel.strict, dr.params.constants, dr.params.variables, c.rt, map[])
    ensures r == DerivedVars(e, dr.params)
    ensures r.Ok? ==> Good(e, c.(vars := c.vars[dr.varCacheKey := r.value]))
  {
    hide RunVariables, RunPrograms, Cached;
    VariablesRuntimeIrrelevant(e.cel.sem, e.cel.strict, dr.params.constants, dr.params.variables, c.rt, NO_ROLES,
        map[]);
  }

  // ---- derived roles ------------------------------------------------------------------

  /** names are exactly the taken ones whose role evaluates to t. */
  ghost predicate Settled(g: Cel, drs: map<string, DerivedRole>, taken: set<string>, rt: Runtime, t: Truth,
                          names: set<string>)
  {
    && names <= taken <= drs.Keys
    && forall n | n in taken :: n in names <==> RoleResult(g, drs[n], rt) == Ok(t)
  }

  method EvaluateRole(e: Env, dr: DerivedRole, c: Caches) returns (r: Result<Truth>, c': Caches)
    ensures Good(e, c) && Applicable(e, dr) ==> r == RoleResult(e.cel, dr, c.rt) && Good(e, c')
    ensures c' == c.(vars := c'.vars)
  {
    var vars;
    vars, c' := RoleVariables(e, dr, c);
    r := if vars.Error? then Error
         else Ok(SatisfiesOpt(Context(e.cel.sem, e.cel.strict, dr.params.constants, vars.value, c.rt), dr.condition));
    if Good(e, c) && Applicable(e, dr) {
      VariablesRuntimeIrrelevant(e.cel.sem, e.cel.strict, dr.params.constants, dr.params.variables, c.rt, NO_ROLES,
          map[]);
    }
  }

  /** The derived roles of a scope, taken in any order, as the Go map gives them. */
  method DerivedRolesOf(e: Env, drs: map<string, DerivedRole>, c: Caches) returns (r: Result<Runtime>, c': Caches)
    ensures Good(e, c) && (forall n | n in drs :: Applicable(e, drs[n])) ==>
              r == RuntimeOf(e.cel, drs, c.rt) && Good(e, c')
    ensures c' == c.(vars := c'.vars)
  {
    hide Good, Applicable, RoleResult;
    ghost var good := Good(e, c) && forall n | n in drs :: Applicable(e, drs[n]);
    var names := drs.Keys;
    ghost var taken: set<string> := {};
    var roles: set<string> := {};
    var failed: set<string> := {};
    c' := c;
    while names != {}
      invariant taken + names == drs.Keys
      invariant c' == c.(vars := c'.vars)
      invariant good ==> Good(e, c')
      invariant good ==> forall n | n in taken :: RoleResult(e.cel, drs[n], c.rt).Ok?
      invariant good ==> Settled(e.cel, drs, taken, c.rt, True, roles)
      invariant good ==> Settled(e.cel, drs, taken, c.rt, Failed, failed)
      decreases names
    {
      var name :| name in names;
      var t;
      t, c' := EvaluateRole(e, drs[name], c');
      names, taken := names - {name}, taken + {name};
      if t.Error? {
        r := Error;
        return;
      }
      if t.value == Failed {
        failed := failed + {name};
      } else if t.value == True {
        roles := roles + {name};
      }
    }
    r := Ok(if e.cel.strict && failed != {} then Unavailable else Roles(roles));
    if good {
      assert taken == drs.Keys;
      DerivedRolesResult(e.cel, drs, c.rt, roles, failed);
    }
  }

  lemma DerivedRolesResult(g: Cel, drs: map<string, DerivedRole>, rt: Runtime, roles: set<string>, failed: set<string>)
    requires forall n | n in drs :: RoleResult(g, drs[n], rt).Ok?
    requires Settled(g, drs, drs.Keys, rt, True, roles) && Settled(g, drs, drs.Keys, rt, Failed, failed)
    ensures RuntimeOf(g, drs, rt) == Ok(if g.strict && failed != {} then Unavailable else Roles(roles))
  {
    assert roles == set n | n in drs && RoleResult(g, drs[n], rt) == Ok(True);
    if n :| n in drs && RoleResult(g, drs[n], rt) == Ok(Failed) {
      assert n in failed;
    }
    if failed != {} {
      var n :| n in failed;
      assert n in drs;
    }
  }

  /** The runtime object of the evaluation context is that of the scope before. */
  ghost predicate EnteredUpTo(e: Env, i: nat, c: Caches)
    requires i <= |e.resourceScopes|
  {
    i > 0 ==> RuntimeAt(e, i - 1) == Ok(c.rt) && e.resourceScopes[0] in c.derived
  }

  /** Enter the i-th resource scope: its derived roles are decided once and then
      remembered, and the evaluation context is switched to them. */
  method EnterScope(e: Env, i: nat, c: Caches) returns (ok: bool, c': Caches)
    requires i < |e.resourceScopes|
    ensures Good(e, c) && EnteredUpTo(e, i, c) ==>
              && Good(e, c')
              && (if ok then EnteredUpTo(e, i + 1, c') else RuntimeAt(e, i) == Error)
    ensures c'.conds == c.conds && (!ok ==> c'.rt == c.rt)
  {
    var scope := e.resourceScopes[i];
    hide Good, EnteredUpTo, Applicable, RuntimeOf, RuntimeAt;
    ghost var good := Good(e, c) && EnteredUpTo(e, i, c);
    c' := c;
    ok := true;
    if scope in c.derived {
      c' := c.(rt := c.derived[scope]);
      if good {
        RecallRoles(e, i, c);
      }
    } else {
      var rt;
      var drs := RolesOf(e.derivedRoles, e.rolesAndParents, scope);
      ApplicableRoles(e, i);
      rt, c' := DerivedRolesOf(e, drs, c);
      if good {
        RememberRoles(e, i, c, c', rt);
      }
      if rt.Error? {
        ok := false;
      } else {
        c' := c'.(derived := c'.derived[scope := rt.value], rt := rt.value);
      }
    }
  }

  lemma ApplicableRoles(e: Env, i: nat)
    requires i < |e.resourceScopes|
    ensures var drs := RolesOf(e.derivedRoles, e.rolesAndParents, e.resourceScopes[i]);
            forall n | n in drs :: Applicable(e, drs[n])
  {
  }

  lemma RecallRoles(e: Env, i: nat, c: Caches)
    requires i < |e.resourceScopes| && Good(e, c) && e.resourceScopes[i] in c.derived
    ensures var c' := c.(rt := c.derived[e.resourceScopes[i]]); Good(e, c') && EnteredUpTo(e, i + 1, c')
  {
    hide VarsOk, CondsOk, Transparent, RuntimeAt;
  }

  lemma RememberRoles(e: Env, i: nat, c: Caches, c': Caches, rt: Result<Runtime>)
    requires i < |e.resourceScopes| && Good(e, c) && Good(e, c') && EnteredUpTo(e, i, c) && c' == c.(vars := c'.vars)
    requires e.resourceScopes[i] !in c.derived
    requires rt == RuntimeOf(e.cel, RolesOf(e.derivedRoles, e.rolesAndParents, e.resourceScopes[i]), c.rt)
    ensures rt == RuntimeAt(e, i)
    ensures rt.Ok? ==> var c'' := c'.(derived := c'.derived[e.resourceScopes[i] := rt.value], rt := rt.value);
                       Good(e, c'') && EnteredUpTo(e, i + 1, c'')
  {
    hide VarsOk, CondsOk, Transparent, RuntimeOf, RolesOf;
    DistinctScopes(e, i);
    if i > 0 {
      assert RuntimeAt(e, i - 1) == Ok(c.rt);
    } else {
      assert c.derived == map[];
    }
  }

  lemma DistinctScopes(e: Env, i: nat)
    requires i < |e.resourceScopes| && Transparent(e)
    ensures forall j | 0 <= j < |e.resourceScopes| && e.resourceScopes[j] == e.resourceScopes[i] :: j == i
  {
  }

  // ---- one binding ------------------------------------------------------------------------

  lemma TruthAnywhere(g: Cel, c: Option<Condition>, p: Option<Params>, vars: Vars, rt: Runtime, rt': Runtime)
    requires c.Some? ==> RuntimeFreeCondition(g.sem, c.value)
    ensures ConditionTruth(g, c, p, vars, rt) == ConditionTruth(g, c, p, vars, rt')
  {
    if c.Some? {
      RuntimeIrrelevant(Context(g.sem, g.strict, ParamConstants(p), vars, rt), c.value, rt');
    }
  }

  lemma VarsAnywhere(e: Env, kind: Kind, i: nat, b: Binding, rt: Runtime, rt': Runtime)
    requires VarKeysSound(e) && At(e, kind, i, b)
    ensures ParamVars(e.cel, b.params, rt) == ParamVars(e.cel, b.params, rt')
    ensures ParamVars(e.cel, b.derivedRoleParams, rt) == ParamVars(e.cel, b.derivedRoleParams, rt')
  {
    if b.params.Some? {
      assert RuleParams(e, b.params.value);
      ProgramVarsAt(e, b.params.value, rt);
      ProgramVarsAt(e, b.params.value, rt');
    }
    if b.derivedRoleParams.Some? {
      assert RuleParams(e, b.derivedRoleParams.value);
      ProgramVarsAt(e, b.derivedRoleParams.value, rt);
      ProgramVarsAt(e, b.derivedRoleParams.value, rt');
    }
  }

  lemma VerifiedAnywhere(e: Env, kind: Kind, i: nat, b: Binding, vars: Vars, rt: Runtime, rt': Runtime)
    requires VarKeysSound(e) && At(e, kind, i, b) && RuntimeFreeBinding(e, b)
    ensures Verified(e.cel, b, vars, rt) == Verified(e.cel, b, vars, rt')
  {
    VarsAnywhere(e, kind, i, b, rt, rt');
    TruthAnywhere(e.cel, b.condition, b.params, vars, rt, rt');
    var drVars := ParamVars(e.cel, b.derivedRoleParams, rt);
    if drVars.Ok? {
      TruthAnywhere(e.cel, b.derivedRoleCondition, b.derivedRoleParams, drVars.value, rt, rt');
    }
  }

  /** rt serves for evaluating b at the i-th scope: it is the scope's own runtime
      object, or b does not read it. */
  ghost predicate Serves(e: Env, kind: Kind, i: nat, b: Binding, rt: Runtime) {
    && At(e, kind, i, b)
    && RuntimeFor(e, kind, i).Ok?
    && (RuntimeFor(e, kind, i).value == rt || RuntimeFreeBinding(e, b))
  }

  lemma ServedEvaluation(e: Env, kind: Kind, i: nat, b: Binding, vars: Vars, rt: Runtime)
    requires Transparent(e) && Serves(e, kind, i, b, rt)
    ensures var rt' := RuntimeFor(e, kind, i).value;
            && ParamVars(e.cel, b.params, rt) == ParamVars(e.cel, b.params, rt')
            && Verified(e.cel, b, vars, rt) == Verified(e.cel, b, vars, rt')
  {
    var rt' := RuntimeFor(e, kind, i).value;
    VarsAnywhere(e, kind, i, b, rt, rt');
    if rt != rt' {
      VerifiedAnywhere(e, kind, i, b, vars, rt, rt');
    }
  }

  /** A truth stored under the key of one binding is the truth of every binding
      that can be looked up under that key. */
  lemma Remember(e: Env, c: Caches, kind: Kind, i: nat, b: Binding, vars: Vars, rt: Runtime, sat: bool)
    requires Good(e, c) && Serves(e, kind, i, b, rt)
    requires ParamVars(e.cel, b.params, rt) == Ok(vars)
    requires Verified(e.cel, b, vars, rt) == Ok(FromBool(sat))
    ensures Good(e, c.(conds := c.conds[b.key := sat]))
  {
    hide Verified, ParamVars;
    var conds := c.conds[b.key := sat];
    forall kind', i', b' | At(e, kind', i', b') && b'.key in conds ensures Cached(e, kind', i', b', conds[b'.key]) {
      if b'.key == b.key {
        CachedElsewhere(e, kind, i, b, vars, rt, sat, kind', i', b');
      } else {
        assert Cached(e, kind', i', b', c.conds[b'.key]);
      }
    }
  }

  lemma Recall(e: Env, c: Caches, kind: Kind, i: nat, b: Binding, vars: Vars, rt: Runtime)
    requires Good(e, c) && Serves(e, kind, i, b, rt)
    requires ParamVars(e.cel, b.params, rt) == Ok(vars) && b.key in c.conds
    ensures Verified(e.cel, b, vars, rt) == Ok(FromBool(c.conds[b.key]))
  {
    ServedEvaluation(e, kind, i, b, vars, rt);
    assert Cached(e, kind, i, b, c.conds[b.key]);
  }

  lemma CachedElsewhere(e: Env, kind: Kind, i: nat, b: Binding, vars: Vars, rt: Runtime, sat: bool, kind': Kind,
                        i': nat, b': Binding)
    requires Transparent(e) && Serves(e, kind, i, b, rt)
    requires ParamVars(e.cel, b.params, rt) == Ok(vars)
    requires Verified(e.cel, b, vars, rt) == Ok(FromBool(sat))
    requires At(e, kind', i', b') && b'.key == b.key
    ensures Cached(e, kind', i', b', sat)
  {
    assert SameConditions(b, b');
    var rt' := RuntimeFor(e, kind', i');
    if rt'.Ok? {
      VarsAnywhere(e, kind, i, b, rt, rt'.value);
      if RuntimeFreeBinding(e, b) {
        VerifiedAnywhere(e, kind, i, b, vars, rt, rt'.value);
      } else {
        assert kind == kind' && i == i';
      }
    }
  }

  method CachedVariables(e: Env, p: Option<Params>, c: Caches) returns (r: Result<Vars>, c': Caches)
    ensures Good(e, c) && (p.Some? ==> RuleParams(e, p.value)) ==>
              r == ParamVars(e.cel, p, c.rt) && Good(e, c')
    ensures c' == c.(vars := c'.vars)
  {
    if p.None? {
      r, c' := Ok(map[]), c;
    } else {
      r, c' := RuleVariables(e, p.value, c);
      if Good(e, c) && RuleParams(e, p.value) {
        ProgramVarsAt(e, p.value, c.rt);
      }
    }
  }

  method EvaluateBinding(e: Env, ghost kind: Kind, ghost i: nat, b: Binding, c: Caches)
    returns (o: BindingOutcome, c': Caches)
    ensures Good(e, c) && Serves(e, kind, i, b, c.rt) ==>
            o == Evaluate(e.cel, b, RuntimeFor(e, kind, i).value) && Good(e, c')
    ensures c'.rt == c.rt && c'.derived == c.derived && c'.conds.Keys <= c.conds.Keys + {b.key}
  {
    ghost var good := Good(e, c) && Serves(e, kind, i, b, c.rt);
    assert good ==> (b.params.Some? ==> RuleParams(e, b.params.value));
    assert good ==> (b.derivedRoleParams.Some? ==> RuleParams(e, b.derivedRoleParams.value));
    hide Good, RuleParams;
    var vars;
    vars, c' := CachedVariables(e, b.params, c);
    if vars.Error? {
      assert good ==> Evaluate(e.cel, b, c.rt) == Abort;
      o := Abort;
    } else {
      o, c' := EvaluateConditions(e, kind, i, b, vars.value, c');
    }
    if good {
      ServedAbort(e, c, kind, i, b);
    }
  }

  lemma ServedAbort(e: Env, c: Caches, kind: Kind, i: nat, b: Binding)
    requires Good(e, c) && Serves(e, kind, i, b, c.rt)
    ensures Evaluate(e.cel, b, RuntimeFor(e, kind, i).value) == Evaluate(e.cel, b, c.rt)
  {
    var vars := ParamVars(e.cel, b.params, c.rt);
    ServedEvaluation(e, kind, i, b, if vars.Ok? then vars.value else map[], c.rt);
  }

  /** A fresh evaluation: the derived role's condition first, then the rule's own. */
  method FreshTruth(e: Env, b: Binding, vars: Vars, c: Caches) returns (t: Result<Truth>, c': Caches)
    ensures Good(e, c) && (b.derivedRoleParams.Some? ==> RuleParams(e, b.derivedRoleParams.value)) ==>
              t == Verified(e.cel, b, vars, c.rt) && Good(e, c')
    ensures c' == c.(vars := c'.vars)
  {
    hide Good, RuleParams, ConditionTruth, ParamVars;
    c' := c;
    if b.derivedRoleCondition.Some? {
      var drVars;
      drVars, c' := CachedVariables(e, b.derivedRoleParams, c);
      if drVars.Error? {
        t := Error;
        return;
      }
      var dr := ConditionTruth(e.cel, b.derivedRoleCondition, b.derivedRoleParams, drVars.value, c.rt);
      if dr != True {
        t := Ok(dr);
        return;
      }
    }
    t := Ok(ConditionTruth(e.cel, b.condition, b.params, vars, c.rt));
  }

  /** The cached or fresh evaluation of a binding whose variables are known. */
  method EvaluateConditions(e: Env, ghost kind: Kind, ghost i: nat, b: Binding, vars: Vars, c: Caches)
    returns (o: BindingOutcome, c': Caches)
    ensures Good(e, c) && Serves(e, kind, i, b, c.rt) && ParamVars(e.cel, b.params, c.rt) == Ok(vars) ==>
              o == Evaluate(e.cel, b, c.rt) && Good(e, c')
    ensures c'.rt == c.rt && c'.derived == c.derived && c'.conds.Keys <= c.conds.Keys + {b.key}
  {
    ghost var good := Good(e, c) && Serves(e, kind, i, b, c.rt) && ParamVars(e.cel, b.params, c.rt) == Ok(vars);
    assert good ==> (b.derivedRoleParams.Some? ==> RuleParams(e, b.derivedRoleParams.value));
    hide Good, Serves, RuleParams, Verified, ParamVars;
    c' := c;
    var t: Result<Truth>;
    if b.key in c.conds {
      t := Ok(FromBool(c.conds[b.key]));
      if good {
        Recall(e, c, kind, i, b, vars, c.rt);
      }
    } else {
      t, c' := FreshTruth(e, b, vars, c);
      if t.Ok? && t.value != Failed {
        if good {
          Remember(e, c', kind, i, b, vars, c.rt, t.value == True);
        }
        c' := c'.(conds := c'.conds[b.key := t.value == True]);
      }
    }
    match t {
      case Error => o := Abort;
      case Ok(True) => o := Sat;
      case Ok(False) => o := Unsat;
      case Ok(Failed) => o := if e.cel.strict then Reject else Unsat;
    }
  }

  // ---- scopes, roles, policy kinds, actions ---------------------------------------------------

  lemma ServesRow(e: Env, c: Caches, kind: Kind, i: nat, role: string, action: string, b: Binding)
    requires Good(e, c) && i < |e.Scopes(kind)|
    requires b in e.query(kind, role, e.Scopes(kind)[i], action)
    requires RuntimeFor(e, kind, i) == Ok(c.rt)
    ensures Serves(e, kind, i, b, c.rt)
  {
    assert At(e, kind, i, b);
  }

  /** The runtime object fits the i-th scope of the chain. */
  ghost predicate Fits(e: Env, kind: Kind, i: nat, c: Caches)
    requires i < |e.Scopes(kind)|
  {
    if kind == Resource then EnteredUpTo(e, i + 1, c) else c.rt == e.leftover
  }

  method ScanScope(e: Env, kind: Kind, i: nat, role: string, action: string, hasAllow: bool, c: Caches)
    returns (s: Scan, c': Caches)
    requires i < |e.Scopes(kind)|
    ensures Good(e, c) && Fits(e, kind, i, c) ==>
              && Good(e, c')
              && s == ScanBindings(e.cel, e.query(kind, role, e.Scopes(kind)[i], action), RuntimeFor(e, kind, i).value,
                  hasAllow)
    ensures c'.rt == c.rt && c'.derived == c.derived && AddsFrom(e, action, c, c')
  {
    var bindings := e.query(kind, role, e.Scopes(kind)[i], action);
    ghost var good := Good(e, c) && Fits(e, kind, i, c);
    ghost var rt := if good then RuntimeFor(e, kind, i).value else NO_ROLES;
    hide Good, Serves;
    var allowed := hasAllow;
    c' := c;
    for j := 0 to |bindings|
      invariant good ==> Good(e, c')
      invariant c'.rt == c.rt && c'.derived == c.derived && AddsFrom(e, action, c, c')
      invariant good ==> ScanBindings(e.cel, bindings[j..], rt, allowed) == ScanBindings(e.cel, bindings, rt, hasAllow)
    {
      assert bindings[j..][1..] == bindings[j + 1..];
      if good {
        ServesRow(e, c', kind, i, role, action, bindings[j]);
      }
      var o;
      assert Queried(e, action, bindings[j].key);
      o, c' := EvaluateBinding(e, kind, i, bindings[j], c');
      match o {
        case Abort =>
          s := Aborted;
          return;
        case Reject =>
          s := Rejected;
          return;
        case Unsat =>
        case Sat =>
          if bindings[j].effect == Allow {
            allowed := true;
          }
          if bindings[j].effect == Deny {
            s := Denied;
            return;
          }
      }
    }
    s := Scanned(allowed);
  }

  /** The runtime object that the scope loop of one role leaves behind: that of the last
      scope it entered. */
  function ChainLeaves(e: Env, role: string, action: string, i: nat, hasAllow: bool, rt: Runtime): Runtime
    requires i <= |e.resourceScopes|
    decreases |e.resourceScopes| - i
  {
    if i == |e.resourceScopes| || RuntimeAt(e, i).Error? then rt
    else
      var own := RuntimeAt(e, i).value;
      match ScanBindings(e.cel, e.query(Resource, role, e.resourceScopes[i], action), own, hasAllow)
      case Scanned(allowed) =>
        if !allowed || e.Permission(e.resourceScopes[i]) == Some(RequireParentalConsent)
        then ChainLeaves(e, role, action, i + 1, false, own)
        else if e.Permission(e.resourceScopes[i]).None? then ChainLeaves(e, role, action, i + 1, true, own)
        else own
      case _ => own
  }

  function RolesLeave(e: Env, roles: seq<string>, action: string, rt: Runtime): Runtime {
    if roles == [] then rt
    else
      var v, left := RoleVerdict(e, Resource, roles[0], action), ChainLeaves(e, roles[0], action, 0, false, rt);
      if v == VAllow || v == VReject || v == VError then left else RolesLeave(e, roles[1..], action, left)
  }

  /** The runtime object that an action leaves behind; principal policies that decide
      leave what they found. */
  function Leaves(e: Env, action: string): Runtime {
    if KindVerdict(e, Principal, action) == VNoMatch then RolesLeave(e, e.roles, action, e.leftover) else e.leftover
  }

  /** One role and one policy kind: scopes from the most specific outwards. */
  method CheckRole(e: Env, kind: Kind, role: string, action: string, c: Caches) returns (v: Verdict, c': Caches)
    ensures Good(e, c) && (kind == Principal ==> c.rt == e.leftover) ==>
              && Good(e, c') && v == RoleVerdict(e, kind, role, action)
              && c'.rt == if kind == Principal then c.rt else ChainLeaves(e, role, action, 0, false, c.rt)
    ensures AddsFrom(e, action, c, c')
  {
    hide Good;
    ghost var good := Good(e, c) && (kind == Principal ==> c.rt == e.leftover);
    var scopes := e.Scopes(kind);
    var hasAllow := false;
    v := VNoMatch;
    c' := c;
    for i := 0 to |scopes|
      invariant good ==> Good(e, c')
      invariant good && kind == Resource ==> EnteredUpTo(e, i, c')
      invariant v == VNoMatch && (kind == Principal ==> c'.rt == c.rt) && AddsFrom(e, action, c, c')
      invariant good ==> ChainVerdict(e, kind, role, action, i, hasAllow) == RoleVerdict(e, kind, role, action)
      invariant good && kind == Resource ==>
                  ChainLeaves(e, role, action, i, hasAllow, c'.rt) == ChainLeaves(e, role, action, 0, false, c.rt)
    {
      if kind == Resource {
        var ok;
        ok, c' := EnterScope(e, i, c');
        if !ok {
          v := VError;
          return;
        }
      }
      var s;
      s, c' := ScanScope(e, kind, i, role, action, hasAllow, c');
      match s {
        case Aborted => v := VError; return;
        case Rejected => v := VReject; return;
        case Denied => v := VDeny; return;
        case Scanned(allowed) => hasAllow := allowed;
      }
      if hasAllow {
        match e.Permission(scopes[i]) {
          case Some(RequireParentalConsent) => hasAllow := false;
          case Some(OverrideParent) => v := VAllow; return;
          case None =>
        }
      }
    }
  }

  /** One action: principal policies, then resource policies role by role. */
  method CheckAction(e: Env, action: string, c: Caches) returns (r: Result<Effect>, c': Caches)
    requires e.policiesExist
    ensures Good(e, c) && c.rt == e.leftover ==>
              Good(e, c') && r == Decide(e, action) && c'.rt == Leaves(e, action)
    ensures AddsFrom(e, action, c, c')
  {
    hide Good, RoleVerdict, ChainLeaves;
    ghost var good := Good(e, c) && c.rt == e.leftover;
    c' := c;
    var effect := VNoMatch;
    if e.roles != [] {
      effect, c' := CheckRole(e, Principal, e.roles[0], action, c');
    }
    if effect == VNoMatch {
      ghost var entered := c'.rt;
      label roles: for j := 0 to |e.roles|
        invariant good ==> Good(e, c')
        invariant effect == VNoMatch || effect == VDeny
        invariant AddsFrom(e, action, c, c')
        invariant good ==> RolesVerdict(e, e.roles[j..], action, effect) == RolesVerdict(e, e.roles, action, VNoMatch)
        invariant good ==> RolesLeave(e, e.roles[j..], action, c'.rt) == RolesLeave(e, e.roles, action, entered)
      {
        assert e.roles[j..][1..] == e.roles[j + 1..];
        var v;
        v, c' := CheckRole(e, Resource, e.roles[j], action, c');
        if effect == VNoMatch {
          effect := v;
        }
        if v == VAllow || v == VReject || v == VError {
          effect := v;
          break roles;
        }
      }
    }
    match effect {
      case VAllow => r := Ok(Allow);
      case VError => r := Error;
      case _ => r := Ok(Deny);
    }
  }

  /** DENY always takes precedence. */
  function SetEffect(effects: map<string, Effect>, action: string, effect: Effect): map<string, Effect> {
    if effect == Deny || action !in effects || effects[action] != Deny then effects[action := effect] else effects
  }

  /** The whole batch gets what its actions get alone. */
  ghost predicate Pointwise(e: Env, actions: seq<string>, r: Result<map<string, Effect>>) {
    if r.Error? then exists a | a in actions :: Decide(e, a) == Error
    else r.value.Keys == (set a | a in actions) && forall a | a in actions :: Decide(e, a) == Ok(r.value[a])
  }

  /** Principal policies have no rows for the action. */
  ghost predicate PrincipalsSilent(e: Env, action: string) {
    forall role, scope :: e.query(Principal, role, scope, action) == []
  }

  /** The second of two actions, decided with what the first has left behind. An action
      asked for twice is denied if it is denied once. */
  ghost predicate SecondSeesFirst(e: Env, a: string, b: string, r: Result<map<string, Effect>>) {
    var first, second := Decide(e, a), Decide(e.(leftover := Leaves(e, a)), b);
    if first.Error? || second.Error? then r.Error?
    else
      && r.Ok? && r.value.Keys == {a, b}
      && if a == b then r.value[a] == if first == Ok(Deny) || second == Ok(Deny) then Deny else second.value
         else r.value[a] == first.value && r.value[b] == second.value
  }

  // ---- what one action leaves to the next --------------------------------------------------

  lemma AtAnyway(e: Env, rt: Runtime)
    ensures forall kind, i, b :: At(e.(leftover := rt), kind, i, b) <==> At(e, kind, i, b)
    ensures forall p :: RuleParams(e.(leftover := rt), p) <==> RuleParams(e, p)
    ensures forall dr :: Applicable(e.(leftover := rt), dr) <==> Applicable(e, dr)
  {
    var e' := e.(leftover := rt);
    forall kind, i, b ensures At(e', kind, i, b) <==> At(e, kind, i, b) {
    }
    hide At;
    forall p ensures RuleParams(e', p) <==> RuleParams(e, p) {
    }
  }

  lemma TransparentAnyway(e: Env, rt: Runtime)
    requires Transparent(e)
    ensures Transparent(e.(leftover := rt)) && (PrincipalsBlind(e) ==> PrincipalsBlind(e.(leftover := rt)))
  {
    AtAnyway(e, rt);
    hide At, RuleParams, Applicable;
  }

  /** A cached truth does not depend on the leftover where the row does not. */
  lemma CachedAnyway(e: Env, rt: Runtime, kind: Kind, i: nat, b: Binding, sat: bool)
    requires Transparent(e) && At(e, kind, i, b) && (kind == Resource || RuntimeFreeBinding(e, b))
    requires Cached(e, kind, i, b, sat)
    ensures Cached(e.(leftover := rt), kind, i, b, sat)
  {
    var e' := e.(leftover := rt);
    if kind == Resource {
      SameRuntime(e, e', i);
    } else {
      var vars := ParamVars(e.cel, b.params, e.leftover);
      VarsAnywhere(e, kind, i, b, e.leftover, rt);
      if vars.Ok? {
        VerifiedAnywhere(e, kind, i, b, vars.value, e.leftover, rt);
      }
    }
  }

  /** The caches stay good for another leftover, where the cached principal rows do not
      read it. */
  lemma GoodAnyway(e: Env, rt: Runtime, c: Caches)
    requires Good(e, c)
    requires forall i, b | At(e, Principal, i, b) && b.key in c.conds :: RuntimeFreeBinding(e, b)
    ensures Good(e.(leftover := rt), c)
  {
    var e' := e.(leftover := rt);
    TransparentAnyway(e, rt);
    AtAnyway(e, rt);
    hide At, RuleParams, Applicable, Transparent, Cached, RuntimeFreeBinding, RuntimeAt;
    assert VarsOk(e', c.vars);
    forall kind, i, b | At(e', kind, i, b) && b.key in c.conds ensures Cached(e', kind, i, b, c.conds[b.key]) {
      CachedAnyway(e, rt, kind, i, b, c.conds[b.key]);
    }
    forall i | 0 <= i < |e.resourceScopes| ensures RuntimeAt(e', i) == RuntimeAt(e, i) {
      SameRuntime(e, e', i);
    }
  }

  /** So it is after an action for which principal policies are silent. */
  lemma SilentLeavesGood(e: Env, action: string, c: Caches, rt: Runtime)
    requires Good(e, c) && PrincipalsSilent(e, action) && AddsFrom(e, action, EMPTY, c)
    ensures Good(e.(leftover := rt), c)
  {
    hide RuntimeFreeBinding, CachesOk;
    forall i, b | At(e, Principal, i, b) && b.key in c.conds ensures RuntimeFreeBinding(e, b) {
      assert Queried(e, action, b.key);
      var kind: Kind, role: string, i': nat, b': Binding :|
        i' < |e.Scopes(kind)| && b' in e.query(kind, role, e.Scopes(kind)[i'], action) && b'.key == b.key;
      assert At(e, kind, i', b') && kind == Resource;
    }
    GoodAnyway(e, rt, c);
  }

  lemma {:induction false} BlindScan(e: Env, i: nat, bs: seq<Binding>, rt: Runtime, rt': Runtime, hasAllow: bool)
    requires Transparent(e) && PrincipalsBlind(e) && forall b | b in bs :: At(e, Principal, i, b)
    ensures ScanBindings(e.cel, bs, rt, hasAllow) == ScanBindings(e.cel, bs, rt', hasAllow)
  {
    hide Transparent, PrincipalsBlind, At, Evaluate;
    if bs != [] {
      BlindEvaluation(e, i, bs[0], rt, rt');
      BlindScan(e, i, bs[1..], rt, rt', false);
      BlindScan(e, i, bs[1..], rt, rt', true);
    }
  }

  lemma BlindEvaluation(e: Env, i: nat, b: Binding, rt: Runtime, rt': Runtime)
    requires Transparent(e) && PrincipalsBlind(e) && At(e, Principal, i, b)
    ensures Evaluate(e.cel, b, rt) == Evaluate(e.cel, b, rt')
  {
    var vars := ParamVars(e.cel, b.params, rt);
    VarsAnywhere(e, Principal, i, b, rt, rt');
    if vars.Ok? {
      VerifiedAnywhere(e, Principal, i, b, vars.value, rt, rt');
    }
  }

  lemma {:induction false} SameChainAnyway(e: Env, rt: Runtime, kind: Kind, role: string, action: string, i: nat,
                                           hasAllow: bool)
    requires Transparent(e) && PrincipalsBlind(e) && i <= |e.Scopes(kind)|
    ensures ChainVerdict(e.(leftover := rt), kind, role, action, i, hasAllow) ==
            ChainVerdict(e, kind, role, action, i, hasAllow)
    decreases |e.Scopes(kind)| - i
  {
    hide Transparent, PrincipalsBlind, RuntimeAt, ScanBindings, Continue;
    if i < |e.Scopes(kind)| {
      var bs := e.query(kind, role, e.Scopes(kind)[i], action);
      if kind == Resource {
        SameRuntime(e, e.(leftover := rt), i);
      } else {
        BlindScan(e, i, bs, e.leftover, rt, hasAllow);
      }
      SameChainAnyway(e, rt, kind, role, action, i + 1, false);
      SameChainAnyway(e, rt, kind, role, action, i + 1, true);
    }
  }

  lemma {:induction false} SameRolesAnyway(e: Env, rt: Runtime, roles: seq<string>, action: string, soFar: Verdict)
    requires Transparent(e) && PrincipalsBlind(e)
    ensures RolesVerdict(e.(leftover := rt), roles, action, soFar) == RolesVerdict(e, roles, action, soFar)
  {
    hide Transparent, PrincipalsBlind, ChainVerdict;
    if roles != [] {
      SameChainAnyway(e, rt, Resource, roles[0], action, 0, false);
      var v := RoleVerdict(e, Resource, roles[0], action);
      SameRolesAnyway(e, rt, roles[1..], action, if soFar == VNoMatch then v else soFar);
    }
  }

  /** Where no principal policy reads the runtime object, leftovers do not show. */
  lemma BlindDecision(e: Env, rt: Runtime, action: string)
    requires Transparent(e) && PrincipalsBlind(e)
    ensures Decide(e.(leftover := rt), action) == Decide(e, action)
  {
    hide Transparent, PrincipalsBlind, ChainVerdict;
    SameRolesAnyway(e, rt, e.roles, action, VNoMatch);
    if e.roles != [] {
      SameChainAnyway(e, rt, Principal, e.roles[0], action, 0, false);
    }
  }

  lemma BlindLeavesGood(e: Env, rt: Runtime, c: Caches)
    requires Good(e, c) && PrincipalsBlind(e)
    ensures Good(e.(leftover := rt), c) && PrincipalsBlind(e.(leftover := rt))
  {
    hide CachesOk, RuntimeFreeBinding;
    TransparentAnyway(e, rt);
    GoodAnyway(e, rt, c);
  }

  /** The batch is one of which every action stands alone. */
  ghost predicate StandAlone(e: Env, actions: seq<string>) {
    Transparent(e) && (PrincipalsBlind(e) || |actions| <= 1)
  }

  /** The first of two actions leaves no truths of principal rows behind. */
  ghost predicate SilentPair(e: Env, actions: seq<string>) {
    Transparent(e) && |actions| == 2 && PrincipalsSilent(e, actions[0])
  }

  /** The effects of the first j actions and the caches they leave. */
  ghost predicate Proceeds(e: Env, actions: seq<string>, j: nat, effects: map<string, Effect>, c: Caches)
    requires j <= |actions|
  {
    && effects.Keys == (set a | a in actions[..j])
    && (j == 0 ==> c == EMPTY)
    && (StandAlone(e, actions) ==>
          && (j == 0 || PrincipalsBlind(e) ==> Good(e.(leftover := c.rt), c))
          && forall a | a in actions[..j] :: Decide(e, a) == Ok(effects[a]))
    && (SilentPair(e, actions) && j == 0 ==> Good(e, c))
    && (SilentPair(e, actions) && j == 1 ==>
          && Good(e.(leftover := c.rt), c) && c.rt == Leaves(e, actions[0])
          && Decide(e, actions[0]) == Ok(effects[actions[0]]))
    && (SilentPair(e, actions) && j == 2 ==> SecondSeesFirst(e, actions[0], actions[1], Ok(effects)))
  }

  /** One action on from there. */
  ghost predicate Took(e: Env, action: string, c: Caches, effect: Result<Effect>, c': Caches) {
    && (Good(e, c) && c.rt == e.leftover ==> Good(e, c') && effect == Decide(e, action) && c'.rt == Leaves(e, action))
    && AddsFrom(e, action, c, c')
  }

  lemma AloneProceeds(e: Env, actions: seq<string>, j: nat, effects: map<string, Effect>, c: Caches, effect: Effect,
                      c': Caches)
    requires e.leftover == NO_ROLES && j < |actions| && Proceeds(e, actions, j, effects, c) && StandAlone(e, actions)
    requires Took(e.(leftover := c.rt), actions[j], c, Ok(effect), c')
    ensures Decide(e, actions[j]) == Ok(effect)
    ensures PrincipalsBlind(e) ==> Good(e.(leftover := c'.rt), c')
    ensures var effects' := SetEffect(effects, actions[j], effect);
            forall a | a in actions[..j + 1] :: a in effects' && Decide(e, a) == Ok(effects'[a])
  {
    AloneDecides(e, actions, j, effects, c, Ok(effect), c');
    EffectsGrow(e, actions, j, effects, effect);
    hide Good, Transparent, Decide, Leaves, PrincipalsBlind, PrincipalsSilent, AddsFrom, SetEffect, Took, Proceeds;
    if PrincipalsBlind(e) {
      GoodTransparent(e.(leftover := c.rt), c);
      TransparentAnyway(e, c.rt);
      BlindLeavesGood(e.(leftover := c.rt), c'.rt, c');
    }
  }

  lemma EffectsGrow(e: Env, actions: seq<string>, j: nat, effects: map<string, Effect>, effect: Effect)
    requires j < |actions| && (forall a | a in actions[..j] :: a in effects && Decide(e, a) == Ok(effects[a]))
    requires effects.Keys == (set a | a in actions[..j]) && Decide(e, actions[j]) == Ok(effect)
    ensures var effects' := SetEffect(effects, actions[j], effect);
            forall a | a in actions[..j + 1] :: a in effects' && Decide(e, a) == Ok(effects'[a])
  {
    hide Decide;
    assert actions[..j + 1] == actions[..j] + [actions[j]];
  }

  lemma GoodTransparent(e: Env, c: Caches)
    requires Good(e, c)
    ensures Transparent(e)
  {
  }

  lemma AloneDecides(e: Env, actions: seq<string>, j: nat, effects: map<string, Effect>, c: Caches,
                     effect: Result<Effect>, c': Caches)
    requires e.leftover == NO_ROLES && j < |actions| && Proceeds(e, actions, j, effects, c) && StandAlone(e, actions)
    requires Took(e.(leftover := c.rt), actions[j], c, effect, c')
    ensures Good(e.(leftover := c.rt), c') && Decide(e, actions[j]) == effect
  {
    hide Good, Transparent, Decide, Leaves, PrincipalsBlind, PrincipalsSilent, AddsFrom;
    if j == 0 {
      assert e.(leftover := c.rt) == e;
    } else {
      BlindDecision(e, c.rt, actions[j]);
    }
  }

  lemma PairProceeds(e: Env, actions: seq<string>, j: nat, effects: map<string, Effect>, c: Caches,
                     effect: Result<Effect>, c': Caches)
    requires e.leftover == NO_ROLES && j < |actions| && Proceeds(e, actions, j, effects, c) && SilentPair(e, actions)
    requires Took(e.(leftover := c.rt), actions[j], c, effect, c')
    ensures j == 0 ==>
            Good(e.(leftover := c'.rt), c') && c'.rt == Leaves(e, actions[0]) && Decide(e, actions[0]) == effect
    ensures j == 1 ==> Decide(e.(leftover := Leaves(e, actions[0])), actions[1]) == effect
  {
    hide Good, Transparent, Decide, Leaves, PrincipalsBlind, PrincipalsSilent, AddsFrom;
    if j == 0 {
      assert e.(leftover := c.rt) == e;
      SilentLeavesGood(e, actions[0], c', c'.rt);
    }
  }

  lemma BatchProceeds(e: Env, actions: seq<string>, j: nat, effects: map<string, Effect>, c: Caches, effect: Effect,
                      c': Caches)
    requires e.leftover == NO_ROLES && j < |actions| && Proceeds(e, actions, j, effects, c)
    requires Took(e.(leftover := c.rt), actions[j], c, Ok(effect), c')
    ensures Proceeds(e, actions, j + 1, SetEffect(effects, actions[j], effect), c')
  {
    hide Good, Transparent, Decide, Leaves, PrincipalsBlind, PrincipalsSilent, AddsFrom, Took;
    assert actions[..j + 1] == actions[..j] + [actions[j]];
    if StandAlone(e, actions) {
      AloneProceeds(e, actions, j, effects, c, effect, c');
    }
    if SilentPair(e, actions) {
      PairProceeds(e, actions, j, effects, c, Ok(effect), c');
      if j == 1 {
        assert actions[..1] == [actions[0]];
        assert effects == map[actions[0] := effects[actions[0]]];
      }
    }
  }

  lemma BatchFails(e: Env, actions: seq<string>, j: nat, effects: map<string, Effect>, c: Caches, c': Caches)
    requires e.leftover == NO_ROLES && j < |actions| && Proceeds(e, actions, j, effects, c)
    requires Took(e.(leftover := c.rt), actions[j], c, Error, c')
    ensures StandAlone(e, actions) ==> Pointwise(e, actions, Error)
    ensures SilentPair(e, actions) ==> SecondSeesFirst(e, actions[0], actions[1], Error)
  {
    hide Good, Transparent, Decide, Leaves, PrincipalsBlind, PrincipalsSilent, AddsFrom, Took;
    if StandAlone(e, actions) {
      AloneDecides(e, actions, j, effects, c, Error, c');
      assert actions[j] in actions;
    }
    if SilentPair(e, actions) {
      PairProceeds(e, actions, j, effects, c, Error, c');
    }
  }

  /** A batch of actions with all caches. Where no principal policy reads the runtime
      object, and for a single action in any case, every action gets the effect it would
      get alone and without caches, and the batch fails exactly when some action would.
      Otherwise an action sees the effective derived roles that the one before it left. */
  method CheckActions(e: Env, actions: seq<string>) returns (r: Result<map<string, Effect>>)
    requires e.leftover == NO_ROLES
    ensures StandAlone(e, actions) ==> Pointwise(e, actions, r)
    ensures SilentPair(e, actions) && e.policiesExist ==> SecondSeesFirst(e, actions[0], actions[1], r)
  {
    if !e.policiesExist {
      r := Ok(map a | a in actions :: Deny);
      return;
    }
    var effects: map<string, Effect> := map[];
    var c := EMPTY;
    assert Transparent(e) ==> Good(e, c);
    assert e.(leftover := c.rt) == e;
    hide Good, Transparent, Decide, Leaves, PrincipalsBlind, PrincipalsSilent, AddsFrom;
    for j := 0 to |actions|
      invariant Proceeds(e, actions, j, effects, c)
    {
      var effect, c' := CheckAction(e.(leftover := c.rt), actions[j], c);
      assert Took(e.(leftover := c.rt), actions[j], c, effect, c');
      if effect.Error? {
        BatchFails(e, actions, j, effects, c, c');
        r := Error;
        return;
      }
      BatchProceeds(e, actions, j, effects, c, effect.value, c');
      effects := SetEffect(effects, actions[j], effect.value);
      c := c';
    }
    assert actions[..|actions|] == actions;
    r := Ok(effects);
  }
}
