/** The effective derived roles that one action of a batch leaves to the next
    (internal/ruletable/check.go): a principal policy that reads them decides one way for
    an action alone and another way behind other actions. */
module Leftovers {
  import opened Common
  import opened Conditions
  import opened Check
  import opened Runtimes
  import opened CheckLoop
  import opened SingleRow

  /** The same request against a table whose only row is one of a principal policy, in
      the most specific scope and for one action. */
  function OnlyPrincipalRow(e: Env, action: string, b: Binding): Env
    requires e.principalScopes != []
  {
    e.(query := (kind, role, scope, a) => if kind == Principal && scope == e.principalScopes[0] && a == action then [b]
        else [])
  }

  // ---- chains without rows ----------------------------------------------------------------

  ghost predicate NoRowsFrom(e: Env, kind: Kind, role: string, action: string, i: nat) {
    forall j | i <= j < |e.Scopes(kind)| :: e.query(kind, role, e.Scopes(kind)[j], action) == []
  }

  lemma {:induction false} EmptyChain(e: Env, kind: Kind, role: string, action: string, i: nat)
    requires i <= |e.Scopes(kind)| && NoRowsFrom(e, kind, role, action, i)
    ensures ChainVerdict(e, kind, role, action, i, false) == VNoMatch
            || ChainVerdict(e, kind, role, action, i, false) == VError
    ensures kind == Principal || (forall j | 0 <= j < |e.resourceScopes| :: RuntimeAt(e, j).Ok?) ==>
              ChainVerdict(e, kind, role, action, i, false) == VNoMatch
    decreases |e.Scopes(kind)| - i
  {
    hide RuntimeAt;
    if i < |e.Scopes(kind)| {
      EmptyChain(e, kind, role, action, i + 1);
    }
  }

  lemma {:induction false} EmptyChainLeaves(e: Env, role: string, action: string, i: nat, rt: Runtime)
    requires i <= |e.resourceScopes| && NoRowsFrom(e, Resource, role, action, i)
    requires forall j | 0 <= j < |e.resourceScopes| :: RuntimeAt(e, j).Ok?
    ensures ChainLeaves(e, role, action, i, false, rt) ==
            if i == |e.resourceScopes| then rt else RuntimeAt(e, |e.resourceScopes| - 1).value
    decreases |e.resourceScopes| - i
  {
    hide RuntimeAt;
    if i < |e.resourceScopes| {
      assert e.query(Resource, role, e.Scopes(Resource)[i], action) == [];
      EmptyChainLeaves(e, role, action, i + 1, RuntimeAt(e, i).value);
    }
  }

  /** No resource policy has rows for the action. */
  ghost predicate ResourcesSilent(e: Env, action: string) {
    forall role, scope :: e.query(Resource, role, scope, action) == []
  }

  lemma {:induction false} EmptyRoles(e: Env, roles: seq<string>, action: string, rt: Runtime)
    requires ResourcesSilent(e, action) && e.resourceScopes != []
    requires forall j | 0 <= j < |e.resourceScopes| :: RuntimeAt(e, j).Ok?
    ensures RolesVerdict(e, roles, action, VNoMatch) == VNoMatch
    ensures RolesLeave(e, roles, action, rt) == if roles == [] then rt else RuntimeAt(e, |e.resourceScopes| - 1).value
  {
    hide RuntimeAt, ChainVerdict, ChainLeaves;
    if roles != [] {
      EmptyChain(e, Resource, roles[0], action, 0);
      EmptyChainLeaves(e, roles[0], action, 0, rt);
      EmptyRoles(e, roles[1..], action, ChainLeaves(e, roles[0], action, 0, false, rt));
    }
  }

  lemma LastRuntime(e: Env)
    requires e.resourceScopes != [] && RuntimeAt(e, |e.resourceScopes| - 1).Ok?
    ensures forall j | 0 <= j < |e.resourceScopes| :: RuntimeAt(e, j).Ok?
  {
    forall j | 0 <= j < |e.resourceScopes| ensures RuntimeAt(e, j).Ok? {
      RuntimesInFront(e, |e.resourceScopes| - 1, j);
    }
  }

  // ---- one principal row ---------------------------------------------------------------------

  /** The principal row decides under the leftover. */
  lemma PrincipalRowDecides(e: Env, action: string, src: string)
    requires e.principalScopes != [] && NoRepeats(e.principalScopes) && e.roles != [] && ResourcesSilent(e, action)
    requires e.Permission(e.principalScopes[0]) == Some(OverrideParent)
    requires forall scope ::
             e.query(Principal, e.roles[0], scope, action) ==
             if scope == e.principalScopes[0] then [If(Allow, src)] else []
    ensures Conclusion(e, action) == VAllow <==> e.cel.sem(src, map[], map[], e.leftover) == Val(Bool(true))
  {
    var b, role := If(Allow, src), e.roles[0];
    IfHolds(e.cel, src, e.leftover);
    EmptyChain(e, Principal, role, action, 1);
    forall r ensures RoleVerdict(e, Resource, r, action) != VAllow {
      EmptyChain(e, Resource, r, action, 0);
    }
    hide Evaluate, RuntimeAt;
    NoRoleAllows(e, e.roles, action, VNoMatch);
    assert [b][1..] == [];
    assert ScanBindings(e.cel, [b], e.leftover, false) ==
           match Evaluate(e.cel, b, e.leftover)
           case Sat => Scanned(true) case Unsat => Scanned(false) case Reject => Rejected case Abort => Aborted;
    hide ScanBindings, RolesVerdict;
  }

  /** The caches are as good for that table as for the one before. */
  lemma OneRowTransparent(e: Env, action: string, src: string)
    requires Transparent(e) && e.principalScopes != [] && NoRepeats(e.principalScopes)
    ensures Transparent(OnlyPrincipalRow(e, action, If(Allow, src)))
  {
    var d := OnlyPrincipalRow(e, action, If(Allow, src));
    forall kind, i, b | At(d, kind, i, b) ensures kind == Principal && i == 0 && b == If(Allow, src) {
    }
    forall p ensures !RuleParams(d, p) {
    }
    forall dr ensures Applicable(d, dr) <==> Applicable(e, dr) {
    }
    hide At, RuleParams, Applicable;
  }

  /** Wherever the resource scopes end with a runtime object of which an expression holds
      that does not hold of no effective derived roles, the principal row that allows if
      it holds allows an action behind another one that it does not allow alone. */
  lemma LeftoverWidens(e: Env, a: string, b: string, src: string)
    requires e.principalScopes != [] && NoRepeats(e.principalScopes) && e.roles != [] && e.resourceScopes != []
    requires e.policiesExist
    requires e.Permission(e.principalScopes[0]) == Some(OverrideParent) && e.leftover == NO_ROLES && a != b
    requires e.cel.sem(src, map[], map[], NO_ROLES) != Val(Bool(true))
    requires var rt := RuntimeAt(e, |e.resourceScopes| - 1);
             rt.Ok? && e.cel.sem(src, map[], map[], rt.value) == Val(Bool(true))
    ensures var d := OnlyPrincipalRow(e, b, If(Allow, src));
            && PrincipalsSilent(d, a) && Decide(d, a) == Ok(Deny) && Decide(d, b) != Ok(Allow)
            && Decide(d.(leftover := Leaves(d, a)), b) == Ok(Allow)
  {
    var d := OnlyPrincipalRow(e, b, If(Allow, src));
    var last := |e.resourceScopes| - 1;
    SameRuntime(e, d, last);
    LastRuntime(d);
    hide RuntimeAt;
    EmptyRoles(d, d.roles, a, NO_ROLES);
    EmptyChain(d, Principal, d.roles[0], a, 0);
    var d' := d.(leftover := Leaves(d, a));
    assert Leaves(d, a) == RuntimeAt(d, last).value;
    hide RolesVerdict, RolesLeave, Conclusion;
    PrincipalRowDecides(d, b, src);
    PrincipalRowDecides(d', b, src);
    assert Conclusion(d, a) == VNoMatch by {
      NothingDecides(d, a);
    }
  }

  lemma NothingDecides(e: Env, action: string)
    requires KindVerdict(e, Principal, action) == VNoMatch && RolesVerdict(e, e.roles, action, VNoMatch) == VNoMatch
    ensures Conclusion(e, action) == VNoMatch
  {
  }

  /** The batch of the two actions. */
  method LeftoverBatch(e: Env, a: string, b: string, src: string) returns (r: Result<map<string, Effect>>)
    requires e.principalScopes != [] && NoRepeats(e.principalScopes) && e.roles != [] && e.resourceScopes != []
    requires e.policiesExist
    requires e.Permission(e.principalScopes[0]) == Some(OverrideParent) && e.leftover == NO_ROLES && a != b
    requires Transparent(e)
    requires e.cel.sem(src, map[], map[], NO_ROLES) != Val(Bool(true))
    requires var rt := RuntimeAt(e, |e.resourceScopes| - 1);
             rt.Ok? && e.cel.sem(src, map[], map[], rt.value) == Val(Bool(true))
    ensures r == Ok(map[a := Deny, b := Allow])
    ensures Decide(OnlyPrincipalRow(e, b, If(Allow, src)), b) != Ok(Allow)
  {
    LeftoverWidens(e, a, b, src);
    OneRowTransparent(e, b, src);
    hide Transparent, Decide, Leaves, PrincipalsSilent, RuntimeAt;
    var actions := [a, b];
    r := CheckActions(OnlyPrincipalRow(e, b, If(Allow, src)), actions);
    assert r.Ok? && r.value == map[a := Deny, b := Allow];
  }

  /** "on" holds when the derived role dr is in effect. */
  function Effective(src: string, constants: Vars, vars: Vars, rt: Runtime): Outcome {
    Val(Bool(rt.Roles? && "dr" in rt.names))
  }

  /** The resource's policy has the derived role dr, which everyone has. */
  function LeftoverEnv(): Env {
    Env(Cel(Effective, false), [""], [""], ["user"], {"user"}, (kind, role, scope, action) => [],
        map["" := OverrideParent],
        map["" := map["dr" := DerivedRole({"*"}, None, Params(0, map[], []), 1)]], true, NO_ROLES)
  }

  /** A table without rows and with one derived role that has no variables. */
  lemma NoRowsTransparent(e: Env, dr: DerivedRole)
    requires forall kind: Kind, role, scope, action :: e.query(kind, role, scope, action) == []
    requires (forall x | Applicable(e, x) :: x == dr) && dr.params.variables == [] && NoRepeats(e.resourceScopes)
    ensures Transparent(e)
  {
    forall kind, i, b ensures !At(e, kind, i, b) {
    }
    hide At, Applicable;
  }

  lemma OnlyDerivedRole()
    ensures forall x | Applicable(LeftoverEnv(), x) :: x == DerivedRole({"*"}, None, Params(0, map[], []), 1)
  {
  }

  lemma LeftoverEnvRuntime()
    ensures RuntimeAt(LeftoverEnv(), 0) == Ok(Roles({"dr"}))
  {
    var e := LeftoverEnv();
    var dr := e.derivedRoles[""]["dr"];
    assert RoleResult(e.cel, dr, NO_ROLES) == Ok(True);
    OneRole(e, "", "dr", dr, NO_ROLES, true);
  }

  /** The second action is denied alone and allowed behind the first. */
  method LeftoverExample() returns (r: Result<map<string, Effect>>)
    ensures r == Ok(map["first" := Deny, "second" := Allow])
    ensures Decide(OnlyPrincipalRow(LeftoverEnv(), "second", If(Allow, "on")), "second") != Ok(Allow)
  {
    hide Transparent, RuntimeAt, Decide, Applicable;
    OnlyDerivedRole();
    NoRowsTransparent(LeftoverEnv(), DerivedRole({"*"}, None, Params(0, map[], []), 1));
    LeftoverEnvRuntime();
    r := LeftoverBatch(LeftoverEnv(), "first", "second", "on");
  }
}
