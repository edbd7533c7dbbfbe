/** Condition trees and the variables they read (internal/ruletable/check.go).

    A CEL expression is its source text. What the CEL library makes of it is a
    parameter of the model: a function from the source text and everything an
    evaluation can see to an outcome. The request being checked is part of that
    function. */
module Conditions {
  import opened Common

  datatype Value = Bool(b: bool) | Null | Opaque(id: int)

  /** CelError is a CEL runtime error (a missing attribute, a type mismatch).
      HardError is any other failure: the program did not compile, the context
      was cancelled. */
  datatype Outcome = Val(v: Value) | CelError | HardError

  /** The `runtime` object: the effective derived roles, or an error object when
      some derived role could not be decided in strict mode. */
  datatype Runtime = Roles(names: set<string>) | Unavailable

  type Vars = map<string, Value>

  /** source text, constants, variables, runtime object */
  type Semantics = (string, Vars, Vars, Runtime) -> Outcome

  const NO_ROLES: Runtime := Roles({})

  datatype Variable = Variable(name: string, src: string)

  /** `key` is the content hash under which evaluated variables are cached. */
  datatype Params = Params(key: nat, constants: Vars, variables: seq<Variable>)

  datatype Condition =
    | Expr(src: string)
    | AllOf(all: seq<Condition>)
    | AnyOf(any: seq<Condition>)
    | NoneOf(none: seq<Condition>)
    | Unsupported

  /** Failed is a non-nil error from SatisfiesCondition. */
  datatype Truth = True | False | Failed

  function FromBool(b: bool): Truth {
    if b then True else False
  }

  /** Everything a condition is evaluated against. */
  datatype Context = Context(sem: Semantics, strict: bool, constants: Vars, vars: Vars, rt: Runtime)

  function ExprTruth(cx: Context, src: string): Truth {
    match cx.sem(src, cx.constants, cx.vars, cx.rt)
    case Val(Bool(b)) => FromBool(b)
    case Val(_) => False
    case CelError => if cx.strict then Failed else False
    case HardError => Failed
  }

  function Satisfies(cx: Context, c: Condition): Truth
    decreases c, 1
  {
    match c
    case Expr(src) => ExprTruth(cx, src)
    case AllOf(cs) => EveryOf(cx, cs)
    case AnyOf(cs) => SomeOf(cx, cs)
    case NoneOf(cs) =>
      (match SomeOf(cx, cs)
       case True => False
       case False => True
       case Failed => Failed)
    case Unsupported => Failed
  }

  function EveryOf(cx: Context, cs: seq<Condition>): Truth
    decreases cs, 0
  {
    if cs == [] then True
    else
      var t := Satisfies(cx, cs[0]);
      if t == True then EveryOf(cx, cs[1..]) else t
  }

  function SomeOf(cx: Context, cs: seq<Condition>): Truth
    decreases cs, 0
  {
    if cs == [] then False
    else
      var t := Satisfies(cx, cs[0]);
      if t == False then SomeOf(cx, cs[1..]) else t
  }

  /** A missing condition is satisfied. */
  function SatisfiesOpt(cx: Context, c: Option<Condition>): Truth {
    if c.None? then True else Satisfies(cx, c.value)
  }

  // ---- plain boolean meaning ------------------------------------------------

  predicate Holds(c: Condition, truth: string -> bool)
    decreases c
  {
    match c
    case Expr(src) => truth(src)
    case AllOf(cs) => forall i | 0 <= i < |cs| :: Holds(cs[i], truth)
    case AnyOf(cs) => exists i | 0 <= i < |cs| :: Holds(cs[i], truth)
    case NoneOf(cs) => forall i | 0 <= i < |cs| :: !Holds(cs[i], truth)
    case Unsupported => false
  }

  /** No unknown operator occurs in the condition. */
  predicate Supported(c: Condition)
    decreases c
  {
    match c
    case Expr(_) => true
    case AllOf(cs) => forall i | 0 <= i < |cs| :: Supported(cs[i])
    case AnyOf(cs) => forall i | 0 <= i < |cs| :: Supported(cs[i])
    case NoneOf(cs) => forall i | 0 <= i < |cs| :: Supported(cs[i])
    case Unsupported => false
  }

  /** The expression occurs in the condition. */
  ghost predicate Mentions(c: Condition, src: string)
    decreases c
  {
    match c
    case Expr(s) => s == src
    case AllOf(cs) => exists i | 0 <= i < |cs| :: Mentions(cs[i], src)
    case AnyOf(cs) => exists i | 0 <= i < |cs| :: Mentions(cs[i], src)
    case NoneOf(cs) => exists i | 0 <= i < |cs| :: Mentions(cs[i], src)
    case Unsupported => false
  }

  ghost predicate MentionsAny(cs: seq<Condition>, src: string) {
    exists i | 0 <= i < |cs| :: Mentions(cs[i], src)
  }

  /** Where no expression fails, the short-circuiting evaluation is exactly the
      boolean reading of the tree. */
  lemma {:induction false} TotalEvaluation(cx: Context, c: Condition, truth: string -> bool)
    requires Supported(c)
    requires forall src | Mentions(c, src) :: ExprTruth(cx, src) == FromBool(truth(src))
    ensures Satisfies(cx, c) == FromBool(Holds(c, truth))
    decreases c, 1
  {
    match c
    case Expr(src) => assert Mentions(c, src);
    case AllOf(cs) => TotalList(cx, cs, truth);
    case AnyOf(cs) => TotalList(cx, cs, truth);
    case NoneOf(cs) => TotalList(cx, cs, truth);
  }

  lemma {:induction false} TotalList(cx: Context, cs: seq<Condition>, truth: string -> bool)
    requires forall i | 0 <= i < |cs| :: Supported(cs[i])
    requires forall src | MentionsAny(cs, src) :: ExprTruth(cx, src) == FromBool(truth(src))
    ensures EveryOf(cx, cs) == FromBool(forall i | 0 <= i < |cs| :: Holds(cs[i], truth))
    ensures SomeOf(cx, cs) == FromBool(exists i | 0 <= i < |cs| :: Holds(cs[i], truth))
    decreases cs, 0
  {
    if cs != [] {
      var rest := cs[1..];
      assert forall i | 0 <= i < |rest| :: rest[i] == cs[i + 1];
      assert forall src | MentionsAny(rest, src) :: MentionsAny(cs, src);
      assert forall src | Mentions(cs[0], src) :: MentionsAny(cs, src);
      TotalEvaluation(cx, cs[0], truth);
      TotalList(cx, rest, truth);
      assert forall i | 0 < i < |cs| :: cs[i] == rest[i - 1];
    }
  }

  /** The k-th operand is the first whose truth is not t. */
  ghost predicate Settles(cx: Context, cs: seq<Condition>, k: nat, t: Truth) {
    k < |cs| && Satisfies(cx, cs[k]) != t && forall i | 0 <= i < k :: Satisfies(cx, cs[i]) == t
  }

  lemma {:induction false} ListSettled(cx: Context, cs: seq<Condition>, k: nat)
    ensures Settles(cx, cs, k, True) ==> EveryOf(cx, cs) == Satisfies(cx, cs[k])
    ensures Settles(cx, cs, k, False) ==> SomeOf(cx, cs) == Satisfies(cx, cs[k])
    ensures (forall i | 0 <= i < |cs| :: Satisfies(cx, cs[i]) == True) ==> EveryOf(cx, cs) == True
    ensures (forall i | 0 <= i < |cs| :: Satisfies(cx, cs[i]) == False) ==> SomeOf(cx, cs) == False
    decreases cs
  {
    if cs != [] {
      var rest := cs[1..];
      assert forall i | 0 <= i < |rest| :: rest[i] == cs[i + 1];
      ListSettled(cx, rest, if k == 0 then 0 else k - 1);
    }
  }

  /** An all-list has the truth of its first operand that is not true, failures
      included, and is true when there is none; in strict and in lenient mode. */
  lemma AllOfFirst(cx: Context, cs: seq<Condition>)
    ensures (forall i | 0 <= i < |cs| :: Satisfies(cx, cs[i]) == True) ==> Satisfies(cx, AllOf(cs)) == True
    ensures forall k | 0 <= k < |cs| && Satisfies(cx, cs[k]) != True
                       && (forall i | 0 <= i < k :: Satisfies(cx, cs[i]) == True) ::
              Satisfies(cx, AllOf(cs)) == Satisfies(cx, cs[k])
  {
    ListSettled(cx, cs, 0);
    forall k | 0 <= k < |cs| && Satisfies(cx, cs[k]) != True && (forall i | 0 <= i < k :: Satisfies(cx, cs[i]) == True)
      ensures Satisfies(cx, AllOf(cs)) == Satisfies(cx, cs[k])
    {
      ListSettled(cx, cs, k);
    }
  }

  /** An any-list has the truth of its first operand that is not false, failures
      included, and is false when there is none. */
  lemma AnyOfFirst(cx: Context, cs: seq<Condition>)
    ensures (forall i | 0 <= i < |cs| :: Satisfies(cx, cs[i]) == False) ==> Satisfies(cx, AnyOf(cs)) == False
    ensures forall k | 0 <= k < |cs| && Satisfies(cx, cs[k]) != False
                       && (forall i | 0 <= i < k :: Satisfies(cx, cs[i]) == False) ::
              Satisfies(cx, AnyOf(cs)) == Satisfies(cx, cs[k])
  {
    ListSettled(cx, cs, 0);
    forall k | 0 <= k < |cs| && Satisfies(cx, cs[k]) != False
               && (forall i | 0 <= i < k :: Satisfies(cx, cs[i]) == False)
      ensures Satisfies(cx, AnyOf(cs)) == Satisfies(cx, cs[k])
    {
      ListSettled(cx, cs, k);
    }
  }

  /** A none-list is true when all its operands are false; otherwise its first operand
      that is not false makes it false, or fails it. */
  lemma NoneOfFirst(cx: Context, cs: seq<Condition>)
    ensures (forall i | 0 <= i < |cs| :: Satisfies(cx, cs[i]) == False) ==> Satisfies(cx, NoneOf(cs)) == True
    ensures forall k | 0 <= k < |cs| && Satisfies(cx, cs[k]) != False
                       && (forall i | 0 <= i < k :: Satisfies(cx, cs[i]) == False) ::
              Satisfies(cx, NoneOf(cs)) == if Satisfies(cx, cs[k]) == True then False else Failed
  {
    ListSettled(cx, cs, 0);
    forall k | 0 <= k < |cs| && Satisfies(cx, cs[k]) != False
               && (forall i | 0 <= i < k :: Satisfies(cx, cs[i]) == False)
      ensures Satisfies(cx, NoneOf(cs)) == if Satisfies(cx, cs[k]) == True then False else Failed
    {
      ListSettled(cx, cs, k);
    }
  }

  /** In lenient mode, where nothing fails hard, a condition never fails: an expression
      counts as true exactly when it is the boolean true, and CEL errors and other values
      as false. */
  lemma LenientReading(cx: Context, c: Condition)
    requires !cx.strict && Supported(c)
    requires forall src | Mentions(c, src) :: cx.sem(src, cx.constants, cx.vars, cx.rt) != HardError
    ensures Satisfies(cx, c) ==
            FromBool(Holds(c, src => cx.sem(src, cx.constants, cx.vars, cx.rt) == Val(Bool(true))))
  {
    TotalEvaluation(cx, c, src => cx.sem(src, cx.constants, cx.vars, cx.rt) == Val(Bool(true)));
  }

  /** In strict mode the same holds where there is no CEL error either; an expression
      that is one fails the condition made of it. */
  lemma StrictReading(cx: Context, c: Condition)
    requires cx.strict && Supported(c)
    ensures (forall src | Mentions(c, src) :: cx.sem(src, cx.constants, cx.vars, cx.rt).Val?) ==>
              Satisfies(cx, c) ==
              FromBool(Holds(c, src => cx.sem(src, cx.constants, cx.vars, cx.rt) == Val(Bool(true))))
    ensures c.Expr? && !cx.sem(c.src, cx.constants, cx.vars, cx.rt).Val? ==> Satisfies(cx, c) == Failed
  {
    if forall src | Mentions(c, src) :: cx.sem(src, cx.constants, cx.vars, cx.rt).Val? {
      TotalEvaluation(cx, c, src => cx.sem(src, cx.constants, cx.vars, cx.rt) == Val(Bool(true)));
    }
  }

  /** A hard failure fails its condition in either mode, and so does an operator that is
      not known. */
  lemma HardFailureFails(cx: Context, src: string)
    ensures cx.sem(src, cx.constants, cx.vars, cx.rt) == HardError ==> Satisfies(cx, Expr(src)) == Failed
    ensures Satisfies(cx, Unsupported) == Failed
  {
  }

  // ---- variables ------------------------------------------------------------

  /** Variables of a rule: a CEL error leaves the variable unset. */
  function RunPrograms(sem: Semantics, constants: Vars, vs: seq<Variable>, rt: Runtime, acc: Vars): Result<Vars> {
    if vs == [] then Ok(acc)
    else
      match sem(vs[0].src, constants, acc, rt)
      case Val(v) => RunPrograms(sem, constants, vs[1..], rt, acc[vs[0].name := v])
      case CelError => RunPrograms(sem, constants, vs[1..], rt, acc)
      case HardError => Error
  }

  ghost predicate DistinctNames(vs: seq<Variable>) {
    forall i, j | 0 <= i < j < |vs| :: vs[i].name != vs[j].name
  }

  /** Variables of a derived role: a CEL error leaves the variable unset in strict
      mode and binds it to null otherwise. */
  function RunVariables(sem: Semantics, strict: bool, constants: Vars, vs: seq<Variable>, rt: Runtime,
                        acc: Vars): Result<Vars>
  {
    if vs == [] then Ok(acc)
    else
      match sem(vs[0].src, constants, acc, rt)
      case Val(v) => RunVariables(sem, strict, constants, vs[1..], rt, acc[vs[0].name := v])
      case CelError =>
        RunVariables(sem, strict, constants, vs[1..], rt, if strict then acc else acc[vs[0].name := Null])
      case HardError => Error
  }

  /** The evaluation loop: a hard failure is remembered and the loop goes on. */
  method EvaluatePrograms(sem: Semantics, constants: Vars, programs: seq<Variable>, rt: Runtime)
    returns (r: Result<Vars>)
    ensures r == RunPrograms(sem, constants, programs, rt, map[])
  {
    var evalVars: Vars := map[];
    var failed := false;
    for i := 0 to |programs|
      invariant failed ==> RunPrograms(sem, constants, programs, rt, map[]) == Error
      invariant !failed ==>
                RunPrograms(sem, constants, programs[i..], rt, evalVars) ==
                RunPrograms(sem, constants, programs, rt, map[])
    {
      assert programs[i..][1..] == programs[i + 1..];
      match sem(programs[i].src, constants, evalVars, rt) {
        case Val(v) => evalVars := evalVars[programs[i].name := v];
        case CelError =>
        case HardError => failed := true;
      }
    }
    r := if failed then Error else Ok(evalVars);
  }

  method EvaluateVariables(sem: Semantics, strict: bool, constants: Vars, vars: seq<Variable>, rt: Runtime)
    returns (r: Result<Vars>)
    ensures r == RunVariables(sem, strict, constants, vars, rt, map[])
  {
    var evalVars: Vars := map[];
    var failed := false;
    for i := 0 to |vars|
      invariant failed ==> RunVariables(sem, strict, constants, vars, rt, map[]) == Error
      invariant !failed ==>
                RunVariables(sem, strict, constants, vars[i..], rt, evalVars) ==
                RunVariables(sem, strict, constants, vars, rt, map[])
    {
      assert vars[i..][1..] == vars[i + 1..];
      match sem(vars[i].src, constants, evalVars, rt) {
        case Val(v) => evalVars := evalVars[vars[i].name := v];
        case CelError => evalVars := if strict then evalVars else evalVars[vars[i].name := Null];
        case HardError => failed := true;
      }
    }
    r := if failed then Error else Ok(evalVars);
  }

  // ---- expressions that do not read the runtime object ------------------------

  ghost predicate RuntimeFree(sem: Semantics, src: string) {
    forall constants: Vars, vars: Vars, rt: Runtime, rt': Runtime ::
      sem(src, constants, vars, rt) == sem(src, constants, vars, rt')
  }

  ghost predicate RuntimeFreeCondition(sem: Semantics, c: Condition)
    decreases c
  {
    match c
    case Expr(src) => RuntimeFree(sem, src)
    case AllOf(cs) => forall i | 0 <= i < |cs| :: RuntimeFreeCondition(sem, cs[i])
    case AnyOf(cs) => forall i | 0 <= i < |cs| :: RuntimeFreeCondition(sem, cs[i])
    case NoneOf(cs) => forall i | 0 <= i < |cs| :: RuntimeFreeCondition(sem, cs[i])
    case Unsupported => true
  }

  ghost predicate RuntimeFreeParams(sem: Semantics, p: Params) {
    forall i | 0 <= i < |p.variables| :: RuntimeFree(sem, p.variables[i].src)
  }

  /** A condition that never reads `runtime` evaluates the same under every
      runtime object. */
  lemma {:induction false} RuntimeIrrelevant(cx: Context, c: Condition, rt: Runtime)
    requires RuntimeFreeCondition(cx.sem, c)
    ensures Satisfies(cx.(rt := rt), c) == Satisfies(cx, c)
    decreases c, 1
  {
    match c
    case Expr(_) =>
    case AllOf(cs) => RuntimeIrrelevantList(cx, cs, rt);
    case AnyOf(cs) => RuntimeIrrelevantList(cx, cs, rt);
    case NoneOf(cs) => RuntimeIrrelevantList(cx, cs, rt);
    case Unsupported =>
  }

  lemma {:induction false} RuntimeIrrelevantList(cx: Context, cs: seq<Condition>, rt: Runtime)
    requires forall i | 0 <= i < |cs| :: RuntimeFreeCondition(cx.sem, cs[i])
    ensures EveryOf(cx.(rt := rt), cs) == EveryOf(cx, cs)
    ensures SomeOf(cx.(rt := rt), cs) == SomeOf(cx, cs)
    decreases cs, 0
  {
    if cs != [] {
      RuntimeIrrelevant(cx, cs[0], rt);
      RuntimeIrrelevantList(cx, cs[1..], rt);
    }
  }

  lemma {:induction false} ProgramsRuntimeIrrelevant(sem: Semantics, constants: Vars, vs: seq<Variable>, rt: Runtime,
                                                     rt': Runtime, acc: Vars)
    requires forall i | 0 <= i < |vs| :: RuntimeFree(sem, vs[i].src)
    ensures RunPrograms(sem, constants, vs, rt, acc) == RunPrograms(sem, constants, vs, rt', acc)
  {
    if vs != [] {
      assert RuntimeFree(sem, vs[0].src);
      match sem(vs[0].src, constants, acc, rt)
      case Val(v) => ProgramsRuntimeIrrelevant(sem, constants, vs[1..], rt, rt', acc[vs[0].name := v]);
      case CelError => ProgramsRuntimeIrrelevant(sem, constants, vs[1..], rt, rt', acc);
      case HardError =>
    }
  }

  lemma {:induction false} VariablesRuntimeIrrelevant(sem: Semantics, strict: bool, constants: Vars, vs: seq<Variable>,
                                                      rt: Runtime, rt': Runtime, acc: Vars)
    requires forall i | 0 <= i < |vs| :: RuntimeFree(sem, vs[i].src)
    ensures RunVariables(sem, strict, constants, vs, rt, acc) == RunVariables(sem, strict, constants, vs, rt', acc)
  {
    if vs != [] {
      assert RuntimeFree(sem, vs[0].src);
      match sem(vs[0].src, constants, acc, rt)
      case Val(v) => VariablesRuntimeIrrelevant(sem, strict, constants, vs[1..], rt, rt', acc[vs[0].name := v]);
      case CelError =>
        VariablesRuntimeIrrelevant(sem, strict, constants, vs[1..], rt, rt', if strict then acc
            else acc[vs[0].name := Null]);
      case HardError =>
    }
  }
}
