/** The two readings of a derived role (internal/ruletable/check.go): whether it is an
    effective derived role of a scope, and whether its condition holds for the rules that
    name it. The first is decided with null for variables that fail in lenient mode and
    under the effective derived roles of the scope before, the second with those variables
    unset and under the scope's own. */
module RoleReadings {
  import opened Common
  import opened Conditions
  import opened Check
  import opened Runtimes
  import opened PolicyRows
  import Variables

  /** No variable of the list is a CEL error when they are evaluated in order. */
  ghost predicate Undisturbed(sem: Semantics, constants: Vars, vs: seq<Variable>, rt: Runtime, acc: Vars) {
    vs == [] ||
    match sem(vs[0].src, constants, acc, rt)
    case Val(v) => Undisturbed(sem, constants, vs[1..], rt, acc[vs[0].name := v])
    case CelError => false
    case HardError => true
  }

  lemma {:induction false} UndisturbedVariables(sem: Semantics, strict: bool, constants: Vars, vs: seq<Variable>,
                                                rt: Runtime, acc: Vars)
    requires Undisturbed(sem, constants, vs, rt, acc)
    ensures RunVariables(sem, strict, constants, vs, rt, acc) == RunPrograms(sem, constants, vs, rt, acc)
  {
    if vs != [] {
      match sem(vs[0].src, constants, acc, rt)
      case Val(v) => UndisturbedVariables(sem, strict, constants, vs[1..], rt, acc[vs[0].name := v]);
      case HardError =>
    }
  }

  /** What the rules make of the derived role: an error where its variables fail hard. */
  function RuleReading(g: Cel, dr: DerivedRole, rt: Runtime): Result<Truth> {
    if ParamVars(g, Some(dr.params), rt).Error? then Error else Ok(RuleTruth(g, rt, dr.params, dr.condition))
  }

  /** In strict mode, and in lenient mode where no variable is a CEL error, the two
      readings coincide under one runtime object. */
  lemma ReadingsCoincide(g: Cel, dr: DerivedRole, rt: Runtime)
    requires g.strict || Undisturbed(g.sem, dr.params.constants, dr.params.variables, rt, map[])
    ensures RoleResult(g, dr, rt) == RuleReading(g, dr, rt)
  {
    if g.strict {
      Variables.ProgramsAreStrict(g.sem, dr.params.constants, dr.params.variables, rt, map[]);
    } else {
      UndisturbedVariables(g.sem, false, dr.params.constants, dr.params.variables, rt, map[]);
    }
  }

  /** They do under two runtime objects when the role does not read it. */
  lemma ReadingsCoincideAcross(g: Cel, dr: DerivedRole, rt: Runtime, rt': Runtime)
    requires g.strict || Undisturbed(g.sem, dr.params.constants, dr.params.variables, rt, map[])
    requires RuntimeFreeRole(g, dr)
    ensures RoleResult(g, dr, rt) == RuleReading(g, dr, rt')
  {
    ReadingsCoincide(g, dr, rt);
    ProgramsRuntimeIrrelevant(g.sem, dr.params.constants, dr.params.variables, rt, rt', map[]);
    var vars := ParamVars(g, Some(dr.params), rt);
    if vars.Ok? && dr.condition.Some? {
      RuntimeIrrelevant(Context(g.sem, g.strict, dr.params.constants, vars.value, rt), dr.condition.value, rt');
    }
  }

  // ---- when they do not ---------------------------------------------------------------------

  /** A derived role with one variable and one expression. */
  function OneVariable(constants: Vars, x: string, definition: string, test: string): DerivedRole {
    DerivedRole({"*"}, Some(Expr(test)), Params(0, constants, [Variable(x, definition)]), 1)
  }

  /** For every variable that is a CEL error, and every expression with one truth while
      it is unset and another while it is null, the readings differ in lenient mode. */
  lemma FailingVariableDivides(sem: Semantics, constants: Vars, x: string, definition: string, test: string,
                               rt: Runtime)
    requires sem(definition, constants, map[], rt) == CelError
    requires ExprTruth(Context(sem, false, constants, map[], rt),
             test) != ExprTruth(Context(sem, false, constants, map[x := Null], rt), test)
    ensures var g, dr := Cel(sem, false), OneVariable(constants, x, definition, test);
            && RoleResult(g, dr, rt) == Ok(ExprTruth(Context(sem, false, constants, map[x := Null], rt), test))
            && RuleReading(g, dr, rt) == Ok(ExprTruth(Context(sem, false, constants, map[], rt), test))
            && RoleResult(g, dr, rt) != RuleReading(g, dr, rt)
  {
    var vs := [Variable(x, definition)];
    assert vs[1..] == [];
    assert RunVariables(sem, false, constants, vs, rt, map[]) == Ok(map[x := Null]);
    assert RunPrograms(sem, constants, vs, rt, map[]) == Ok(map[]);
  }

  /** For every expression that tells two runtime objects apart they differ in either
      mode. */
  lemma RuntimeDivides(g: Cel, test: string, rt: Runtime, rt': Runtime)
    requires ExprTruth(Context(g.sem, g.strict, map[], map[], rt),
             test) != ExprTruth(Context(g.sem, g.strict, map[], map[], rt'), test)
    ensures var dr := DerivedRole({"*"}, Some(Expr(test)), Params(0, map[], []), 1);
            RoleResult(g, dr, rt) != RuleReading(g, dr, rt')
  {
    hide ExprTruth;
    assert RunVariables(g.sem, g.strict, map[], [], rt, map[]) == Ok(map[]);
    assert RunPrograms(g.sem, map[], [], rt', map[]) == Ok(map[]);
  }

  /** "missing" is a CEL error; "isNull" compares x with null, which is one too while x
      is unset. */
  function Nulls(src: string, constants: Vars, vars: Vars, rt: Runtime): Outcome {
    if src == "missing" || "x" !in vars then CelError else Val(Bool(vars["x"] == Null))
  }

  /** A role that is reported as effective while the rules that name it do not apply. */
  lemma EffectiveButUnused()
    ensures var g, dr := Cel(Nulls, false), OneVariable(map[], "x", "missing", "isNull");
            RoleResult(g, dr, NO_ROLES) == Ok(True) && RuleTruth(g, NO_ROLES, dr.params, dr.condition) != True
  {
    FailingVariableDivides(Nulls, map[], "x", "missing", "isNull", NO_ROLES);
  }
}
