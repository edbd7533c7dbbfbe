/** Where the conditions of the laws fail, the laws do: for every request there are rows
    that break them. Each is followed by a request it applies to. */
module Counterexamples {
  import opened Common
  import opened Conditions
  import opened Check
  import opened Runtimes
  import opened Strict
  import C = Consent
  import opened PlanNodes
  import opened Plan
  import opened PlanCheck
  import opened SingleRow
  import opened RoleReadings

  const NO_PARAMS := Params(0, map[], [])

  /** One resource scope, with one derived role that applies to everyone, and no rows. */
  function RoleEnv(cel: Cel, n: string, dr: DerivedRole): Env {
    Env(cel, [], [""], ["user"], {"user"}, (kind, role, scope, action) => [], map["" := OverrideParent],
        map["" := map[n := dr]], true, NO_ROLES)
  }

  // ---- strict mode ------------------------------------------------------------------------

  /** Wherever strict mode has another runtime object than lenient mode, and an
      expression holds of the one and not of the other, the row that allows if it holds
      makes strict mode allow what lenient mode does not. */
  lemma StrictWidens(s: Env, l: Env, i: nat, src: string, action: string)
    requires StrictOf(s, l) && NoRepeats(l.resourceScopes) && i < |l.resourceScopes| && l.roles != [] && l.policiesExist
    requires l.Permission(l.resourceScopes[i]) == Some(OverrideParent)
    requires RuntimeAt(s, i).Ok? && s.cel.sem(src, map[], map[], RuntimeAt(s, i).value) == Val(Bool(true))
    requires RuntimeAt(l, i).Ok? ==> l.cel.sem(src, map[], map[], RuntimeAt(l, i).value) != Val(Bool(true))
    ensures var b, scope := If(Allow, src), l.resourceScopes[i];
            && StrictOf(OnlyRow(s, scope, b), OnlyRow(l, scope, b))
            && Decide(OnlyRow(s, scope, b), action) == Ok(Allow) && Decide(OnlyRow(l, scope, b), action) != Ok(Allow)
  {
    RowUnder(s, i, src, action);
    RowUnder(l, i, src, action);
    hide Conclusion;
  }

  /** The decision for the row that allows if the expression holds. */
  lemma RowUnder(e: Env, i: nat, src: string, action: string)
    requires NoRepeats(e.resourceScopes) && i < |e.resourceScopes| && e.roles != []
    requires e.Permission(e.resourceScopes[i]) == Some(OverrideParent)
    ensures Conclusion(OnlyRow(e, e.resourceScopes[i], If(Allow, src)), action) == VAllow <==>
            RuntimeAt(e, i).Ok? && e.cel.sem(src, map[], map[], RuntimeAt(e, i).value) == Val(Bool(true))
  {
    var d := OnlyRow(e, e.resourceScopes[i], If(Allow, src));
    OnlyRowHasOnly(e, i, If(Allow, src), action);
    SameRuntime(e, d, i);
    hide HasOnly, RuntimeAt, Evaluate, Conclusion;
    RowDecides(d, action, i, If(Allow, src));
    if RuntimeAt(e, i).Ok? {
      IfHolds(e.cel, src, RuntimeAt(e, i).value);
    }
  }

  /** In particular when a derived role is in effect in one mode only. */
  lemma RoleFlipWidens(sem: Semantics, n: string, dr: DerivedRole, src: string, t: bool, action: string)
    requires "*" in dr.parentRoles
    requires RoleResult(Cel(sem, true), dr, NO_ROLES) == Ok(FromBool(t))
    requires RoleResult(Cel(sem, false), dr, NO_ROLES) == Ok(FromBool(!t))
    requires sem(src, map[], map[], Roles(if t then {n} else {})) == Val(Bool(true))
    requires sem(src, map[], map[], Roles(if t then {} else {n})) != Val(Bool(true))
    ensures Decide(OnlyRow(RoleEnv(Cel(sem, true), n, dr), "", If(Allow, src)), action) == Ok(Allow)
    ensures Decide(OnlyRow(RoleEnv(Cel(sem, false), n, dr), "", If(Allow, src)), action) != Ok(Allow)
  {
    var s, l := RoleEnv(Cel(sem, true), n, dr), RoleEnv(Cel(sem, false), n, dr);
    OneRole(s, "", n, dr, NO_ROLES, t);
    OneRole(l, "", n, dr, NO_ROLES, !t);
    assert RuntimeAt(s, 0) == Ok(Roles(if t then {n} else {})) && RuntimeAt(l, 0) == Ok(Roles(if t then {} else {n}));
    hide RuntimeAt, Decide, RoleResult;
    StrictWidens(s, l, 0, src, action);
  }

  /** A derived role whose condition is decided differently without a variable and with
      null in its place, when the variable fails to evaluate. */
  lemma PresenceFlips(sem: Semantics, constants: Vars, x: string, definition: string, test: string, t: bool)
    requires sem(definition, constants, map[], NO_ROLES) == CelError
    requires sem(test, constants, map[], NO_ROLES) == Val(Bool(t))
    requires sem(test, constants, map[x := Null], NO_ROLES) == Val(Bool(!t))
    ensures var dr := OneVariable(constants, x, definition, test);
            RoleResult(Cel(sem, true), dr, NO_ROLES) == Ok(FromBool(t))
                && RoleResult(Cel(sem, false), dr, NO_ROLES) == Ok(FromBool(!t))
  {
    var vs := [Variable(x, definition)];
    assert vs[1..] == [];
    assert RunVariables(sem, true, constants, vs, NO_ROLES, map[]) == Ok(map[]);
    assert RunVariables(sem, false, constants, vs, NO_ROLES, map[]) == Ok(map[x := Null]);
  }

  /** For every language with a presence test of either polarity, and an expression that
      tells whether the derived role is in effect: strict mode allows what lenient mode
      does not. */
  lemma PresenceTestWidens(sem: Semantics, constants: Vars, x: string, definition: string, test: string, n: string,
                           src: string, t: bool, action: string)
    requires sem(definition, constants, map[], NO_ROLES) == CelError
    requires sem(test, constants, map[], NO_ROLES) == Val(Bool(t))
    requires sem(test, constants, map[x := Null], NO_ROLES) == Val(Bool(!t))
    requires sem(src, map[], map[], Roles(if t then {n} else {})) == Val(Bool(true))
    requires sem(src, map[], map[], Roles(if t then {} else {n})) != Val(Bool(true))
    ensures !MonotoneExpr(sem, test)
    ensures var dr := OneVariable(constants, x, definition, test);
            && Decide(OnlyRow(RoleEnv(Cel(sem, true), n, dr), "", If(Allow, src)), action) == Ok(Allow)
            && Decide(OnlyRow(RoleEnv(Cel(sem, false), n, dr), "", If(Allow, src)), action) != Ok(Allow)
  {
    assert SubVars(map[], map[x := Null]);
    var dr := OneVariable(constants, x, definition, test);
    PresenceFlips(sem, constants, x, definition, test, t);
    hide Decide, RoleResult, MonotoneExpr;
    RoleFlipWidens(sem, n, dr, src, t, action);
  }

  /** "bad" is a CEL error, "has" tests for the variable x and "off" for the absence of
      the derived role. */
  function Presence(src: string, constants: Vars, vars: Vars, rt: Runtime): Outcome {
    if src == "bad" then CelError
    else if src == "has" then Val(Bool("x" in vars))
    else if src == "off" then (if rt.Roles? then Val(Bool("dr" !in rt.names)) else CelError)
    else Val(Null)
  }

  /** Of these, "has" is the one expression that is not monotone. */
  lemma PresenceExample()
    ensures MonotoneExpr(Presence, "bad") && MonotoneExpr(Presence, "off") && !MonotoneExpr(Presence, "has")
    ensures var dr := OneVariable(map[], "x", "bad", "has");
            && Decide(OnlyRow(RoleEnv(Cel(Presence, true), "dr", dr), "", If(Allow, "off")), "view") == Ok(Allow)
            && Decide(OnlyRow(RoleEnv(Cel(Presence, false), "dr", dr), "", If(Allow, "off")), "view") != Ok(Allow)
  {
    hide Decide;
    PresenceTestWidens(Presence, map[], "x", "bad", "has", "dr", "off", false, "view");
  }

  // ---- parental consent -------------------------------------------------------------------

  /** Wherever the runtime object is not handed over, and an expression holds of the new
      one and not of the old one, the row of the next scope that allows if it holds turns
      from silence to ALLOW. */
  lemma HandOverWidens(e: Env, k: nat, scope: string, src: string, action: string)
    requires k < |e.resourceScopes| && NoRepeats(e.resourceScopes) && scope !in e.resourceScopes && e.roles != []
    requires e.Permission(e.resourceScopes[k]) == Some(OverrideParent)
    requires RuntimeAt(e, k).Ok? ==> e.cel.sem(src, map[], map[], RuntimeAt(e, k).value) != Val(Bool(true))
    requires var e' := C.WithScope(e, Resource, k, scope);
             RuntimeAt(e', k + 1).Ok? && e.cel.sem(src, map[], map[], RuntimeAt(e', k + 1).value) == Val(Bool(true))
    ensures !C.HandsOver(e, k, scope)
    ensures var d := OnlyRow(e, e.resourceScopes[k], If(Allow, src));
            Conclusion(d, action) != VAllow && Conclusion(C.WithScope(d, Resource, k, scope), action) == VAllow
  {
    var e' := C.WithScope(e, Resource, k, scope);
    var d := OnlyRow(e, e.resourceScopes[k], If(Allow, src));
    assert NoRepeats(e'.resourceScopes) && e'.resourceScopes[k + 1] == e.resourceScopes[k];
    assert C.WithScope(d, Resource, k, scope) == OnlyRow(e', e.resourceScopes[k], If(Allow, src));
    hide RuntimeAt, Conclusion, NoRepeats;
    RowUnder(e, k, src, action);
    RowUnder(e', k + 1, src, action);
  }

  /** "seen" holds when the derived role x is in effect, "on" when dr is. */
  function Reading(src: string, constants: Vars, vars: Vars, rt: Runtime): Outcome {
    if src == "seen" then Val(Bool(rt.Roles? && "x" in rt.names))
    else Val(Bool(rt.Roles? && "dr" in rt.names))
  }

  /** The derived role dr of scope "a" reads the runtime object; scope "b" has x. */
  function ReadingEnv(): Env {
    Env(Cel(Reading, false), [], ["a"], ["user"], {"user"}, (kind, role, scope, action) => [],
        map["a" := OverrideParent, "b" := RequireParentalConsent],
        map["a" := map["dr" := DerivedRole({"*"}, Some(Expr("seen")), NO_PARAMS, 1)],
            "b" := map["x" := DerivedRole({"*"}, None, NO_PARAMS, 2)]], true, NO_ROLES)
  }

  lemma ReadingRuntimes()
    ensures RuntimeAt(ReadingEnv(), 0) == Ok(NO_ROLES)
    ensures var e' := C.WithScope(ReadingEnv(), Resource, 0, "b");
            RuntimeAt(e', 0) == Ok(Roles({"x"})) && RuntimeAt(e', 1) == Ok(Roles({"dr"}))
  {
    var e := ReadingEnv();
    var e' := C.WithScope(e, Resource, 0, "b");
    var dr, x := e.derivedRoles["a"]["dr"], e.derivedRoles["b"]["x"];
    assert RoleResult(e.cel, dr, NO_ROLES) == Ok(False);
    assert RoleResult(e.cel, x, NO_ROLES) == Ok(True);
    assert RoleResult(e.cel, dr, Roles({"x"})) == Ok(True);
    assert e'.resourceScopes == ["b", "a"];
    hide RoleResult, RuntimeOf;
    OneRole(e, "a", "dr", dr, NO_ROLES, false);
    OneRole(e', "b", "x", x, NO_ROLES, true);
    OneRole(e', "a", "dr", dr, Roles({"x"}), true);
    assert RuntimeAt(e', 0) == Ok(Roles({"x"}));
  }

  lemma HandOverExample()
    ensures var d := OnlyRow(ReadingEnv(), "a", If(Allow, "on"));
            Conclusion(d, "view") != VAllow && Conclusion(C.WithScope(d, Resource, 0, "b"), "view") == VAllow
  {
    ReadingRuntimes();
    hide RuntimeAt, Conclusion;
    HandOverWidens(ReadingEnv(), 0, "b", "on", "view");
  }

  /** "bad" is a CEL error, everything else holds. */
  function Failing(src: string, constants: Vars, vars: Vars, rt: Runtime): Outcome {
    if src == "bad" then CelError else Val(Bool(true))
  }

  /** In strict mode the first role is rejected and the second would allow. */
  function CutOffEnv(): Env {
    Env(Cel(Failing, true), [], ["a"], ["first", "second"], {"first", "second"},
        (kind, role, scope, action) =>
          if kind == Resource && scope == "a" then (if role == "first" then [If(Allow, "bad")] else [If(Allow, "fine")])
              else [],
        map["a" := OverrideParent, "b" := RequireParentalConsent], map[], true, NO_ROLES)
  }

  lemma OneScopeVerdict(e: Env, role: string, action: string, b: Binding)
    requires |e.resourceScopes| == 1 && e.query(Resource, role, e.resourceScopes[0], action) == [b] && b.effect == Allow
    requires RuntimeAt(e, 0) == Ok(NO_ROLES) && e.Permission(e.resourceScopes[0]) == Some(OverrideParent)
    ensures RoleVerdict(e, Resource, role, action) ==
            match Evaluate(e.cel, b, NO_ROLES) case Sat => VAllow case Unsat => VNoMatch case Reject =>
                VReject case Abort => VError
  {
    hide Evaluate, RuntimeAt;
    assert [b][1..] == [];
    assert ScanBindings(e.cel, [b], NO_ROLES, false) ==
           match Evaluate(e.cel, b, NO_ROLES) case Sat => Scanned(true) case Unsat => Scanned(false) case Reject =>
               Rejected case Abort => Aborted;
    assert ChainVerdict(e, Resource, role, action, 1, false) == VNoMatch;
  }

  /** A role that is cut off, and what an inserted consent scope makes of it. */
  lemma CutOffExample()
    ensures C.CutOff(CutOffEnv(), "view") && Decide(CutOffEnv(), "view") == Ok(Deny)
    ensures Decide(C.WithScope(C.WithDenials(CutOffEnv(), "b", "view"), Resource, 0, "b"), "view") == Ok(Allow)
  {
    var e := CutOffEnv();
    assert RuntimeAt(e, 0) == Ok(NO_ROLES) by { NoDerivedRoles(e, 0); }
    assert Evaluate(e.cel, If(Allow, "bad"), NO_ROLES) == Reject && Evaluate(e.cel, If(Allow, "fine"), NO_ROLES) == Sat;
    hide Evaluate, RuntimeAt, RoleVerdict;
    OneScopeVerdict(e, "first", "view", If(Allow, "bad"));
    OneScopeVerdict(e, "second", "view", If(Allow, "fine"));
    assert e.roles[0] == "first" && e.roles[1] == "second";
    assert C.CutOff(e, "view");
    assert KindVerdict(e, Resource, "view") == VReject;
    NoPrincipalScopes(e, "view");
    hide C.CutOff;
    C.CutOffWidens(e, "b", "view");
  }

  lemma NoPrincipalScopes(e: Env, action: string)
    requires e.principalScopes == []
    ensures KindVerdict(e, Principal, action) == VNoMatch
  {
  }

  // ---- the plan ----------------------------------------------------------------------------

  /** Wherever a scope has another runtime object than its own derived roles make, and an
      expression holds of the latter and not of the former, the row of the scope that
      allows if it holds is planned to be satisfied and does not make `check` allow ... */
  lemma ChainedPlanUnsound(e: Env, i: nat, src: string, res: Residual, rho: Valuation, action: string)
    requires NoRepeats(e.resourceScopes) && i < |e.resourceScopes| && e.roles != []
    requires e.Permission(e.resourceScopes[i]) == Some(OverrideParent)
    requires var own := OwnRuntime(e, e.resourceScopes[i]);
             own.Ok? && e.cel.sem(src, map[], map[], own.value) == Val(Bool(true))
    requires RuntimeAt(e, i).Ok? ==> e.cel.sem(src, map[], map[], RuntimeAt(e, i).value) != Val(Bool(true))
    requires Valuates(OnlyRow(e, e.resourceScopes[i], If(Allow, src)), res, rho, action)
    ensures !Unchained(e)
    ensures var d := OnlyRow(e, e.resourceScopes[i], If(Allow, src));
            Eval(rho, PlanNode(d, res, action)) && Decide(d, action) != Ok(Allow)
  {
    RowUnder(e, i, src, action);
    RowPlannedUnder(e, i, src, res, rho, action);
    hide Conclusion, Valuates, PlanNode, RuntimeAt, OwnRuntime, NoRepeats;
  }

  /** ... and the other way round the plan misses what `check` allows. */
  lemma ChainedPlanMisses(e: Env, i: nat, src: string, res: Residual, rho: Valuation, action: string)
    requires NoRepeats(e.resourceScopes) && i < |e.resourceScopes| && e.roles != []
    requires e.Permission(e.resourceScopes[i]) == Some(OverrideParent)
    requires e.policiesExist && RuntimeAt(e, i).Ok?
    requires e.cel.sem(src, map[], map[], RuntimeAt(e, i).value) == Val(Bool(true))
    requires var own := OwnRuntime(e, e.resourceScopes[i]);
             own.Ok? && e.cel.sem(src, map[], map[], own.value) == Val(Bool(false))
    requires Valuates(OnlyRow(e, e.resourceScopes[i], If(Allow, src)), res, rho, action)
    ensures var d := OnlyRow(e, e.resourceScopes[i], If(Allow, src));
            !Eval(rho, PlanNode(d, res, action)) && Decide(d, action) == Ok(Allow)
  {
    RowUnder(e, i, src, action);
    RowPlannedUnder(e, i, src, res, rho, action);
    hide Conclusion, Valuates, PlanNode, RuntimeAt, OwnRuntime, NoRepeats;
  }

  lemma RowPlannedUnder(e: Env, i: nat, src: string, res: Residual, rho: Valuation, action: string)
    requires NoRepeats(e.resourceScopes) && i < |e.resourceScopes| && e.roles != []
    requires e.Permission(e.resourceScopes[i]) == Some(OverrideParent)
    requires OwnRuntime(e, e.resourceScopes[i]).Ok?
    requires Valuates(OnlyRow(e, e.resourceScopes[i], If(Allow, src)), res, rho, action)
    ensures Eval(rho, PlanNode(OnlyRow(e, e.resourceScopes[i], If(Allow, src)), res, action)) <==>
            e.cel.sem(src, map[], map[], OwnRuntime(e, e.resourceScopes[i]).value) == Val(Bool(true))
  {
    var scope, b := e.resourceScopes[i], If(Allow, src);
    var d := OnlyRow(e, scope, b);
    var list := ListFor(d, res, Resource, scope);
    OnlyRowHasOnly(e, i, b, action);
    RowIsPlanned(d, res, action, i, b);
    ListDenotes(d, res, rho, action, scope);
    assert OwnRuntime(d, scope) == OwnRuntime(e, scope);
    assert BindingAgrees(d.cel, res, rho, list, b) by {
      assert e.roles[0] in d.roles && b in d.query(Resource, e.roles[0], d.Scopes(Resource)[i], action);
    }
    hide Valuates, BindingAgrees, PlanNode, ListFor, BindingNode, HasOnly, Denoted, OwnRuntime;
    EvaluationAgrees(d.cel, res, rho, list, b);
    IfHolds(d.cel, src, Denoted(rho, list));
  }

  /** "none" holds when x is not in effect, "on" when dr is. */
  function Chaining(src: string, constants: Vars, vars: Vars, rt: Runtime): Outcome {
    if src == "none" then Val(Bool(!(rt.Roles? && "x" in rt.names)))
    else Val(Bool(rt.Roles? && "dr" in rt.names))
  }

  /** Scope "a" has the derived role x; the root has dr, which needs x not to be in
      effect. */
  function ChainingEnv(): Env {
    Env(Cel(Chaining, false), [], ["a", ""], ["user"], {"user"}, (kind, role, scope, action) => [],
        map["a" := OverrideParent, "" := OverrideParent],
        map["a" := map["x" := DerivedRole({"*"}, None, NO_PARAMS, 1)],
            "" := map["dr" := DerivedRole({"*"}, Some(Expr("none")), NO_PARAMS, 2)]], true, NO_ROLES)
  }

  /** What a partial evaluator makes of the two expressions: both are known. */
  function ChainingResidual(list: RoleList, p: Option<Params>, src: string): Node {
    if src == "none" then Const("x" !in list) else Const("dr" in list)
  }

  const NEVER: Valuation := (id: nat) => false

  lemma ChainingRuntimes()
    ensures RuntimeAt(ChainingEnv(), 1) == Ok(NO_ROLES) && OwnRuntime(ChainingEnv(), "") == Ok(Roles({"dr"}))
  {
    var e := ChainingEnv();
    var x, dr := e.derivedRoles["a"]["x"], e.derivedRoles[""]["dr"];
    assert RoleResult(e.cel, x, NO_ROLES) == Ok(True);
    assert RoleResult(e.cel, dr, NO_ROLES) == Ok(True) && RoleResult(e.cel, dr, Roles({"x"})) == Ok(False);
    hide RoleResult, RuntimeOf;
    OneRole(e, "a", "x", x, NO_ROLES, true);
    OneRole(e, "", "dr", dr, NO_ROLES, true);
    OneRole(e, "", "dr", dr, Roles({"x"}), false);
    assert RuntimeAt(e, 0) == Ok(Roles({"x"}));
  }

  lemma OnlyRole(e: Env, scope: string, n: string, dr: DerivedRole)
    requires scope in e.derivedRoles && e.derivedRoles[scope] == map[n := dr] && "*" in dr.parentRoles
    ensures RolesOf(e.derivedRoles, e.rolesAndParents, scope) == map[n := dr]
  {
    assert RoleApplies(dr, e.rolesAndParents);
  }

  lemma NodeOfRole(res: Residual, dr: DerivedRole)
    ensures dr.condition.None? ==> RoleNode(res, dr) == Const(true)
    ensures dr.condition.Some? && dr.condition.value.Expr? ==>
              RoleNode(res, dr) == res(map[], Some(dr.params), dr.condition.value.src)
  {
  }

  lemma ChainingLists()
    ensures var d := OnlyRow(ChainingEnv(), "", If(Allow, "on"));
            ListFor(d, ChainingResidual, Resource, "") == map["dr" := Const(true)]
                && ListFor(d, ChainingResidual, Resource, "a") == map["x" := Const(true)]
  {
    var d := OnlyRow(ChainingEnv(), "", If(Allow, "on"));
    OnlyRole(d, "", "dr", d.derivedRoles[""]["dr"]);
    OnlyRole(d, "a", "x", d.derivedRoles["a"]["x"]);
    hide RolesOf;
    NodeOfRole(ChainingResidual, d.derivedRoles[""]["dr"]);
    NodeOfRole(ChainingResidual, d.derivedRoles["a"]["x"]);
    assert ChainingResidual(map[], Some(NO_PARAMS), "none") == Const(true);
  }

  lemma ChainingRolesAgree()
    ensures var e := ChainingEnv();
            && RoleAgrees(e.cel, ChainingResidual, NEVER, e.derivedRoles[""]["dr"])
            && RoleAgrees(e.cel, ChainingResidual, NEVER, e.derivedRoles["a"]["x"])
  {
  }

  lemma ChainingRowAgrees()
    ensures BindingAgrees(ChainingEnv().cel, ChainingResidual, NEVER, map["dr" := Const(true)], If(Allow, "on"))
  {
    assert Denoted(NEVER, map["dr" := Const(true)]) == Roles({"dr"});
  }

  lemma ChainingValuates()
    ensures Valuates(OnlyRow(ChainingEnv(), "", If(Allow, "on")), ChainingResidual, NEVER, "view")
  {
    hide RoleAgrees, BindingAgrees, ListFor;
    ChainingLists();
    ChainingRolesAgree();
    ChainingRowAgrees();
  }

  lemma ChainedPlanExample()
    ensures var d := OnlyRow(ChainingEnv(), "", If(Allow, "on"));
            Eval(NEVER, PlanNode(d, ChainingResidual, "view")) && Decide(d, "view") != Ok(Allow)
  {
    ChainingRuntimes();
    ChainingValuates();
    hide RuntimeAt, OwnRuntime, Valuates, PlanNode, Decide;
    ChainedPlanUnsound(ChainingEnv(), 1, "on", ChainingResidual, NEVER, "view");
  }
}
