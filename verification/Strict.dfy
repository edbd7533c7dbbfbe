/** Strict evaluation against lenient evaluation: strict mode may turn a decision
    into DENY and changes nothing else. */
module Strict {
  import opened Common
  import opened Conditions
  import opened Check

  // ---- less is known in strict mode ---------------------------------------------

  ghost predicate SubVars(vars: Vars, vars': Vars) {
    forall x | x in vars :: x in vars' && vars'[x] == vars[x]
  }

  predicate SubRuntime(rt: Runtime, rt': Runtime) {
    rt == Unavailable || rt == rt'
  }

  /** Taking variables away, or making the runtime object unavailable, leaves the
      outcome of the expression alone or turns it into a CEL error. Presence tests
      such as has(V.x) are what breaks this. */
  ghost predicate MonotoneExpr(sem: Semantics, src: string) {
    forall constants: Vars, vars: Vars, vars': Vars, rt: Runtime, rt': Runtime |
      SubVars(vars, vars') && SubRuntime(rt, rt') ::
      sem(src, constants, vars, rt) == CelError || sem(src, constants, vars, rt) == sem(src, constants, vars', rt')
  }

  ghost predicate MonotoneCondition(sem: Semantics, c: Condition)
    decreases c
  {
    match c
    case Expr(src) => MonotoneExpr(sem, src)
    case AllOf(cs) => forall i | 0 <= i < |cs| :: MonotoneCondition(sem, cs[i])
    case AnyOf(cs) => forall i | 0 <= i < |cs| :: MonotoneCondition(sem, cs[i])
    case NoneOf(cs) => forall i | 0 <= i < |cs| :: MonotoneCondition(sem, cs[i])
    case Unsupported => true
  }

  ghost predicate MonotoneOpt(sem: Semantics, c: Option<Condition>) {
    c.Some? ==> MonotoneCondition(sem, c.value)
  }

  /** Variable lists are compiled from maps, so that no name occurs twice. */
  ghost predicate MonotoneVariables(sem: Semantics, vs: seq<Variable>) {
    && DistinctNames(vs)
    && (forall i | 0 <= i < |vs| :: MonotoneExpr(sem, vs[i].src))
  }

  ghost predicate MonotoneParams(sem: Semantics, p: Option<Params>) {
    p.Some? ==> MonotoneVariables(sem, p.value.variables)
  }

  ghost predicate MonotoneBinding(sem: Semantics, b: Binding) {
    && MonotoneParams(sem, b.params) && MonotoneParams(sem, b.derivedRoleParams)
    && MonotoneOpt(sem, b.condition) && MonotoneOpt(sem, b.derivedRoleCondition)
  }

  ghost predicate MonotoneRole(sem: Semantics, dr: DerivedRole) {
    MonotoneVariables(sem, dr.params.variables) && MonotoneOpt(sem, dr.condition)
  }

  /** No expression that the request can meet in resource policies and derived roles
      tests for the presence of a variable. */
  ghost predicate PresenceFree(e: Env, action: string) {
    && (forall role, scope, b | role in e.roles && scope in e.resourceScopes
        && b in e.query(Resource, role, scope, action) ::
          MonotoneBinding(e.cel.sem, b))
    && (forall scope, n | scope in e.resourceScopes && scope in e.derivedRoles && n in e.derivedRoles[scope] ::
          MonotoneRole(e.cel.sem, e.derivedRoles[scope][n]))
  }

  // ---- conditions ----------------------------------------------------------------

  /** Every expression of the condition is a CEL error in the first context or has the
      same outcome in both. */
  ghost predicate Steady(s: Context, l: Context, c: Condition)
    decreases c
  {
    match c
    case Expr(src) =>
      var o := s.sem(src, s.constants, s.vars, s.rt);
      o == CelError || o == l.sem(src, l.constants, l.vars, l.rt)
    case AllOf(cs) => forall i | 0 <= i < |cs| :: Steady(s, l, cs[i])
    case AnyOf(cs) => forall i | 0 <= i < |cs| :: Steady(s, l, cs[i])
    case NoneOf(cs) => forall i | 0 <= i < |cs| :: Steady(s, l, cs[i])
    case Unsupported => true
  }

  lemma {:induction false} SameContextSteady(s: Context, l: Context, c: Condition)
    requires s.sem == l.sem && s.constants == l.constants && s.vars == l.vars && s.rt == l.rt
    ensures Steady(s, l, c)
    decreases c
  {
    match c
    case AllOf(cs) => forall i | 0 <= i < |cs| ensures Steady(s, l, cs[i]) { SameContextSteady(s, l, cs[i]); }
    case AnyOf(cs) => forall i | 0 <= i < |cs| ensures Steady(s, l, cs[i]) { SameContextSteady(s, l, cs[i]); }
    case NoneOf(cs) => forall i | 0 <= i < |cs| ensures Steady(s, l, cs[i]) { SameContextSteady(s, l, cs[i]); }
    case _ =>
  }

  lemma {:induction false} MonotoneSteady(s: Context, l: Context, c: Condition)
    requires s.sem == l.sem && s.constants == l.constants && SubVars(s.vars, l.vars) && SubRuntime(s.rt, l.rt)
    requires MonotoneCondition(s.sem, c)
    ensures Steady(s, l, c)
    decreases c
  {
    match c
    case Expr(src) => assert MonotoneExpr(s.sem, src);
    case AllOf(cs) => forall i | 0 <= i < |cs| ensures Steady(s, l, cs[i]) { MonotoneSteady(s, l, cs[i]); }
    case AnyOf(cs) => forall i | 0 <= i < |cs| ensures Steady(s, l, cs[i]) { MonotoneSteady(s, l, cs[i]); }
    case NoneOf(cs) => forall i | 0 <= i < |cs| ensures Steady(s, l, cs[i]) { MonotoneSteady(s, l, cs[i]); }
    case Unsupported =>
  }

  /** By induction on the condition tree: the strict truth is a failure or the
      lenient truth. */
  lemma {:induction false} StrictTruth(s: Context, l: Context, c: Condition)
    requires Steady(s, l, c) && s.strict && !l.strict
    ensures Satisfies(s, c) == Failed || Satisfies(s, c) == Satisfies(l, c)
    decreases c, 1
  {
    match c
    case Expr(src) =>
    case AllOf(cs) => StrictTruthList(s, l, cs);
    case AnyOf(cs) => StrictTruthList(s, l, cs);
    case NoneOf(cs) => StrictTruthList(s, l, cs);
    case Unsupported =>
  }

  lemma {:induction false} StrictTruthList(s: Context, l: Context, cs: seq<Condition>)
    requires (forall i | 0 <= i < |cs| :: Steady(s, l, cs[i])) && s.strict && !l.strict
    ensures EveryOf(s, cs) == Failed || EveryOf(s, cs) == EveryOf(l, cs)
    ensures SomeOf(s, cs) == Failed || SomeOf(s, cs) == SomeOf(l, cs)
    decreases cs, 0
  {
    if cs != [] {
      StrictTruth(s, l, cs[0]);
      StrictTruthList(s, l, cs[1..]);
    }
  }

  // ---- variables -----------------------------------------------------------------

  lemma {:induction false} StrictPrograms(sem: Semantics, constants: Vars, vs: seq<Variable>, rt: Runtime, rt': Runtime,
                                          acc: Vars, acc': Vars)
    requires MonotoneVariables(sem, vs) && SubVars(acc, acc') && SubRuntime(rt, rt')
    requires forall i | 0 <= i < |vs| :: vs[i].name !in acc
    ensures var s := RunPrograms(sem, constants, vs, rt, acc);
            var l := RunPrograms(sem, constants, vs, rt', acc');
            l.Ok? ==> s.Ok? && SubVars(s.value, l.value)
  {
    if vs != [] {
      var o, o' := sem(vs[0].src, constants, acc, rt), sem(vs[0].src, constants, acc', rt');
      assert MonotoneExpr(sem, vs[0].src);
      assert o == CelError || o == o';
      var next := if o.Val? then acc[vs[0].name := o.v] else acc;
      var next' := if o'.Val? then acc'[vs[0].name := o'.v] else acc';
      StrictPrograms(sem, constants, vs[1..], rt, rt', next, next');
    }
  }

  lemma {:induction false} StrictVariables(sem: Semantics, constants: Vars, vs: seq<Variable>, rt: Runtime,
                                           rt': Runtime, acc: Vars, acc': Vars)
    requires MonotoneVariables(sem, vs) && SubVars(acc, acc') && SubRuntime(rt, rt')
    requires forall i | 0 <= i < |vs| :: vs[i].name !in acc
    ensures var s := RunVariables(sem, true, constants, vs, rt, acc);
            var l := RunVariables(sem, false, constants, vs, rt', acc');
            l.Ok? ==> s.Ok? && SubVars(s.value, l.value)
  {
    if vs != [] {
      var o, o' := sem(vs[0].src, constants, acc, rt), sem(vs[0].src, constants, acc', rt');
      assert MonotoneExpr(sem, vs[0].src);
      assert o == CelError || o == o';
      var next := if o.Val? then acc[vs[0].name := o.v] else acc;
      var next' := if o'.Val? then acc'[vs[0].name := o'.v] else acc'[vs[0].name := Null];
      StrictVariables(sem, constants, vs[1..], rt, rt', next, next');
    }
  }

  // ---- derived roles ---------------------------------------------------------------

  ghost predicate Refines(s: Cel, l: Cel) {
    s.sem == l.sem && s.strict && !l.strict
  }

  lemma StrictRole(s: Cel, l: Cel, dr: DerivedRole, rt: Runtime, rt': Runtime)
    requires Refines(s, l) && SubRuntime(rt, rt') && MonotoneRole(s.sem, dr)
    ensures var r, r' := RoleResult(s, dr, rt), RoleResult(l, dr, rt');
            r'.Ok? ==> r.Ok? && (r.value == Failed || r == r')
  {
    StrictVariables(s.sem, dr.params.constants, dr.params.variables, rt, rt', map[], map[]);
    var vars := RunVariables(s.sem, true, dr.params.constants, dr.params.variables, rt, map[]);
    var vars' := RunVariables(l.sem, false, dr.params.constants, dr.params.variables, rt', map[]);
    if vars'.Ok? && dr.condition.Some? {
      var cx := Context(s.sem, true, dr.params.constants, vars.value, rt);
      var cx' := Context(l.sem, false, dr.params.constants, vars'.value, rt');
      MonotoneSteady(cx, cx', dr.condition.value);
      StrictTruth(cx, cx', dr.condition.value);
    }
  }

  lemma StrictRuntime(s: Cel, l: Cel, drs: map<string, DerivedRole>, rt: Runtime, rt': Runtime)
    requires Refines(s, l) && SubRuntime(rt, rt')
    requires forall n | n in drs :: MonotoneRole(s.sem, drs[n])
    ensures var r, r' := RuntimeOf(s, drs, rt), RuntimeOf(l, drs, rt');
            r'.Ok? ==> r.Ok? && SubRuntime(r.value, r'.value)
  {
    hide RoleResult;
    forall n | n in drs
      ensures RoleResult(l, drs[n], rt').Ok? ==> RoleResult(s, drs[n], rt).Ok?
      ensures RoleResult(l, drs[n], rt').Ok? ==>
              RoleResult(s, drs[n], rt) == Ok(Failed) || RoleResult(s, drs[n], rt) == RoleResult(l, drs[n], rt')
    {
      StrictRole(s, l, drs[n], rt, rt');
    }
    if RuntimeOf(l, drs, rt').Ok? && !(exists n | n in drs :: RoleResult(s, drs[n], rt) == Ok(Failed)) {
      assert (set n | n in drs && RoleResult(s, drs[n], rt) == Ok(True)) ==
          (set n | n in drs && RoleResult(l, drs[n], rt') == Ok(True));
    }
  }

  /** The same request in strict and in lenient mode. */
  ghost predicate StrictOf(s: Env, l: Env) {
    s == l.(cel := s.cel) && Refines(s.cel, l.cel)
  }

  lemma {:induction false} StrictRuntimeAt(s: Env, l: Env, action: string, i: nat)
    requires StrictOf(s, l) && PresenceFree(l, action) && i < |l.resourceScopes|
    ensures RuntimeAt(l, i).Ok? ==> RuntimeAt(s, i).Ok? && SubRuntime(RuntimeAt(s, i).value, RuntimeAt(l, i).value)
  {
    if i > 0 {
      StrictRuntimeAt(s, l, action, i - 1);
    }
    var before, before' := if i == 0 then Ok(NO_ROLES) else RuntimeAt(s, i - 1), if i == 0 then Ok(NO_ROLES)
        else RuntimeAt(l, i - 1);
    if before'.Ok? {
      StrictRuntime(s.cel, l.cel, RolesOf(l.derivedRoles, l.rolesAndParents, l.resourceScopes[i]), before.value,
          before'.value);
    }
  }

  /** At every resource scope strict mode has the runtime object of lenient mode, or it
      has none and no row of the scope can tell that from the lenient one. */
  ghost predicate RuntimesRefine(s: Env, l: Env, action: string) {
    && |s.resourceScopes| == |l.resourceScopes|
    && forall i | 0 <= i < |l.resourceScopes| && RuntimeAt(l, i).Ok? ::
         || RuntimeAt(s, i) == RuntimeAt(l, i)
         || (RuntimeAt(s, i) == Ok(Unavailable) && RowsMonotone(l, action, i))
  }

  ghost predicate RowsMonotone(e: Env, action: string, i: nat)
    requires i < |e.resourceScopes|
  {
    forall role, b | role in e.roles && b in e.query(Resource, role, e.resourceScopes[i], action) ::
        MonotoneBinding(e.cel.sem, b)
  }

  /** So it is where nothing tests for presence. */
  lemma PresenceFreeRefines(s: Env, l: Env, action: string)
    requires StrictOf(s, l) && PresenceFree(l, action)
    ensures RuntimesRefine(s, l, action)
  {
    hide RuntimeAt, MonotoneBinding;
    forall i | 0 <= i < |l.resourceScopes| && RuntimeAt(l, i).Ok?
      ensures RuntimeAt(s, i) == RuntimeAt(l, i) || (RuntimeAt(s, i) == Ok(Unavailable) && RowsMonotone(l, action, i))
    {
      StrictRuntimeAt(s, l, action, i);
    }
  }

  // ---- bindings and scopes -----------------------------------------------------------

  /** What the two modes may see of the runtime object when they evaluate a binding. */
  ghost predicate Comparable(sem: Semantics, b: Binding, rt: Runtime, rt': Runtime) {
    rt == rt' || (rt == Unavailable && MonotoneBinding(sem, b))
  }

  lemma StrictParams(s: Cel, l: Cel, p: Option<Params>, rt: Runtime, rt': Runtime)
    requires Refines(s, l) && SubRuntime(rt, rt') && MonotoneParams(s.sem, p)
    ensures ParamVars(l, p, rt').Ok? ==>
            ParamVars(s, p, rt).Ok? && SubVars(ParamVars(s, p, rt).value, ParamVars(l, p, rt').value)
  {
    if p.Some? {
      StrictPrograms(s.sem, p.value.constants, p.value.variables, rt, rt', map[], map[]);
    }
  }

  lemma StrictCondition(s: Cel, l: Cel, c: Option<Condition>, p: Option<Params>, vars: Vars, vars': Vars, rt: Runtime,
                        rt': Runtime)
    requires Refines(s, l)
    requires (vars == vars' && rt == rt') || (SubRuntime(rt, rt') && SubVars(vars, vars') && MonotoneOpt(s.sem, c))
    ensures ConditionTruth(s, c, p, vars, rt) == Failed
            || ConditionTruth(s, c, p, vars, rt) == ConditionTruth(l, c, p, vars', rt')
  {
    if c.Some? {
      var cx, cx' := Context(s.sem, true, ParamConstants(p), vars, rt),
          Context(l.sem, false, ParamConstants(p), vars', rt');
      if vars == vars' && rt == rt' {
        SameContextSteady(cx, cx', c.value);
      } else {
        MonotoneSteady(cx, cx', c.value);
      }
      StrictTruth(cx, cx', c.value);
    }
  }

  lemma StrictBinding(s: Cel, l: Cel, b: Binding, rt: Runtime, rt': Runtime)
    requires Refines(s, l) && Comparable(s.sem, b, rt, rt')
    ensures Evaluate(l, b, rt') == Abort || Evaluate(s, b, rt) == Reject || Evaluate(s, b, rt) == Evaluate(l, b, rt')
  {
    if rt == rt' {
      assert ParamVars(s, b.params, rt) == ParamVars(l, b.params, rt')
          && ParamVars(s, b.derivedRoleParams, rt) == ParamVars(l, b.derivedRoleParams, rt');
    } else {
      StrictParams(s, l, b.params, rt, rt');
      StrictParams(s, l, b.derivedRoleParams, rt, rt');
    }
    hide ConditionTruth, ParamVars;
    var vars, vars' := ParamVars(s, b.params, rt), ParamVars(l, b.params, rt');
    if vars'.Ok? {
      StrictCondition(s, l, b.condition, b.params, vars.value, vars'.value, rt, rt');
      var dr, dr' := ParamVars(s, b.derivedRoleParams, rt), ParamVars(l, b.derivedRoleParams, rt');
      if dr'.Ok? {
        StrictCondition(s, l, b.derivedRoleCondition, b.derivedRoleParams, dr.value, dr'.value, rt, rt');
      }
    }
  }

  lemma {:induction false} StrictScan(s: Cel, l: Cel, bs: seq<Binding>, rt: Runtime, rt': Runtime, hasAllow: bool)
    requires Refines(s, l) && forall b | b in bs :: Comparable(s.sem, b, rt, rt')
    ensures var r, r' := ScanBindings(s, bs, rt, hasAllow), ScanBindings(l, bs, rt', hasAllow);
            r' == Aborted || r == Rejected || r == r'
  {
    hide Evaluate, Comparable;
    if bs != [] {
      StrictBinding(s, l, bs[0], rt, rt');
      StrictScan(s, l, bs[1..], rt, rt', hasAllow);
      StrictScan(s, l, bs[1..], rt, rt', hasAllow || bs[0].effect == Allow);
    }
  }

  /** v is the strict verdict, v' the lenient one. */
  predicate Stricter(v: Verdict, v': Verdict) {
    v' == VError || v == VReject || v == v'
  }

  lemma RowsComparable(s: Env, l: Env, kind: Kind, role: string, action: string, i: nat)
    requires StrictOf(s, l) && RuntimesRefine(s, l, action) && role in l.roles && i < |l.Scopes(kind)|
    requires RuntimeFor(l, kind, i).Ok?
    ensures RuntimeFor(s, kind, i).Ok?
    ensures forall b | b in l.query(kind, role, l.Scopes(kind)[i], action) ::
              Comparable(s.cel.sem, b, RuntimeFor(s, kind, i).value, RuntimeFor(l, kind, i).value)
  {
    hide RuntimeAt, MonotoneBinding;
  }

  lemma {:induction false} StrictChain(s: Env, l: Env, kind: Kind, role: string, action: string, i: nat, hasAllow: bool)
    requires StrictOf(s, l) && RuntimesRefine(s, l, action) && i <= |l.Scopes(kind)| && role in l.roles
    ensures Stricter(ChainVerdict(s, kind, role, action, i, hasAllow), ChainVerdict(l, kind, role, action, i, hasAllow))
    decreases |l.Scopes(kind)| - i
  {
    hide ScanBindings, RuntimeAt, RuntimesRefine, Comparable;
    if i < |l.Scopes(kind)| {
      var rt, rt' := RuntimeFor(s, kind, i), RuntimeFor(l, kind, i);
      if rt'.Ok? {
        RowsComparable(s, l, kind, role, action, i);
        StrictScan(s.cel, l.cel, l.query(kind, role, l.Scopes(kind)[i], action), rt.value, rt'.value, hasAllow);
        StrictChain(s, l, kind, role, action, i + 1, false);
        StrictChain(s, l, kind, role, action, i + 1, true);
      }
    }
  }

  lemma {:induction false} StrictRoles(s: Env, l: Env, roles: seq<string>, action: string, soFar: Verdict)
    requires StrictOf(s, l) && RuntimesRefine(s, l, action) && forall r | r in roles :: r in l.roles
    ensures Stricter(RolesVerdict(s, roles, action, soFar), RolesVerdict(l, roles, action, soFar))
  {
    if roles != [] {
      StrictChain(s, l, Resource, roles[0], action, 0, false);
      var v := RoleVerdict(l, Resource, roles[0], action);
      StrictRoles(s, l, roles[1..], action, if soFar == VNoMatch then v else soFar);
    }
  }

  /** For every table and request: where lenient mode decides, strict mode decides
      too, and its effect is DENY or the lenient effect. */
  lemma StrictRefinesLenient(s: Env, l: Env, action: string)
    requires StrictOf(s, l) && RuntimesRefine(s, l, action)
    ensures Decide(l, action).Ok? ==> Decide(s, action) == Ok(Deny) || Decide(s, action) == Decide(l, action)
  {
    hide RuntimesRefine, ChainVerdict;
    StrictRoles(s, l, l.roles, action, VNoMatch);
    if l.roles != [] {
      StrictChain(s, l, Principal, l.roles[0], action, 0, false);
    }
  }
}
