/** The runtime objects of a scope chain (internal/ruletable/check.go): when they do
    not depend on the scope before. */
module Runtimes {
  import opened Common
  import opened Conditions
  import opened Check

  /** No derived role looks at the effective derived roles. */
  ghost predicate DerivedRolesRuntimeFree(e: Env) {
    forall scope, n | scope in e.derivedRoles && n in e.derivedRoles[scope] ::
        RuntimeFreeRole(e.cel, e.derivedRoles[scope][n])
  }

  ghost predicate RuntimeFreeRole(g: Cel, dr: DerivedRole) {
    RuntimeFreeParams(g.sem, dr.params) && (dr.condition.Some? ==> RuntimeFreeCondition(g.sem, dr.condition.value))
  }

  lemma RoleResultStable(g: Cel, dr: DerivedRole, rt: Runtime, rt': Runtime)
    requires RuntimeFreeRole(g, dr)
    ensures RoleResult(g, dr, rt') == RoleResult(g, dr, rt)
  {
    VariablesRuntimeIrrelevant(g.sem, g.strict, dr.params.constants, dr.params.variables, rt, rt', map[]);
    var vars := RunVariables(g.sem, g.strict, dr.params.constants, dr.params.variables, rt, map[]);
    if vars.Ok? && dr.condition.Some? {
      RuntimeIrrelevant(Context(g.sem, g.strict, dr.params.constants, vars.value, rt), dr.condition.value, rt');
    }
  }

  lemma RuntimeStable(g: Cel, drs: map<string, DerivedRole>, rt: Runtime, rt': Runtime)
    requires forall n | n in drs :: RuntimeFreeRole(g, drs[n])
    ensures RuntimeOf(g, drs, rt') == RuntimeOf(g, drs, rt)
  {
    forall n | n in drs ensures RoleResult(g, drs[n], rt') == RoleResult(g, drs[n], rt) {
      RoleResultStable(g, drs[n], rt, rt');
    }
    assert (set n | n in drs && RoleResult(g, drs[n], rt') == Ok(True)) ==
        (set n | n in drs && RoleResult(g, drs[n], rt) == Ok(True));
  }

  /** The runtime object that the derived roles of a scope make on their own. */
  function OwnRuntime(e: Env, scope: string): Result<Runtime> {
    RuntimeOf(e.cel, RolesOf(e.derivedRoles, e.rolesAndParents, scope), NO_ROLES)
  }

  /** Every resource scope has the runtime object of its own derived roles, whatever
      scopes come before it, and principal policies see none. */
  ghost predicate Unchained(e: Env) {
    && e.leftover == NO_ROLES
    && forall i | 0 <= i < |e.resourceScopes| :: RuntimeAt(e, i) == OwnRuntime(e, e.resourceScopes[i])
  }

  lemma {:induction false} RuntimeFreeAt(e: Env, i: nat)
    requires DerivedRolesRuntimeFree(e) && i < |e.resourceScopes|
    requires forall j | 0 <= j < |e.resourceScopes| :: OwnRuntime(e, e.resourceScopes[j]).Ok?
    ensures RuntimeAt(e, i) == OwnRuntime(e, e.resourceScopes[i])
  {
    if i > 0 {
      RuntimeFreeAt(e, i - 1);
      RuntimeStable(e.cel, RolesOf(e.derivedRoles, e.rolesAndParents, e.resourceScopes[i]), NO_ROLES,
          RuntimeAt(e, i - 1).value);
    }
  }

  /** So it is when no derived role reads the runtime object and none fails. */
  lemma RuntimeFreeUnchained(e: Env)
    requires DerivedRolesRuntimeFree(e) && e.leftover == NO_ROLES
    requires forall j | 0 <= j < |e.resourceScopes| :: OwnRuntime(e, e.resourceScopes[j]).Ok?
    ensures Unchained(e)
  {
    forall i | 0 <= i < |e.resourceScopes| ensures RuntimeAt(e, i) == OwnRuntime(e, e.resourceScopes[i]) {
      RuntimeFreeAt(e, i);
    }
  }

  /** Rows, principal scopes and leftovers do not matter to runtime objects. */
  lemma {:induction false} SameRuntime(e: Env, e': Env, i: nat)
    requires e' == e.(query := e'.query, policiesExist := e'.policiesExist, principalScopes := e'.principalScopes,
             leftover := e'.leftover)
    requires i < |e.resourceScopes|
    ensures RuntimeAt(e', i) == RuntimeAt(e, i)
  {
    if i > 0 {
      SameRuntime(e, e', i - 1);
    }
  }

  lemma NoRoles(g: Cel, rt: Runtime)
    ensures RuntimeOf(g, map[], rt) == Ok(NO_ROLES)
  {
    var r := RuntimeOf(g, map[], rt);
    assert r.Ok? && r.value.Roles?;
    assert r.value.names == {};
  }

  /** A chain without derived roles has no effective derived roles anywhere. */
  lemma {:induction false} NoDerivedRoles(e: Env, i: nat)
    requires e.derivedRoles == map[] && i < |e.resourceScopes|
    ensures RuntimeAt(e, i) == Ok(NO_ROLES)
  {
    if i > 0 {
      NoDerivedRoles(e, i - 1);
    }
    NoRoles(e.cel, NO_ROLES);
  }

  /** The runtime object of a scope with one derived role that applies to everyone. */
  lemma OneRole(e: Env, scope: string, n: string, dr: DerivedRole, rt: Runtime, t: bool)
    requires scope in e.derivedRoles && e.derivedRoles[scope] == map[n := dr] && "*" in dr.parentRoles
    requires RoleResult(e.cel, dr, rt) == Ok(FromBool(t))
    ensures RuntimeOf(e.cel, RolesOf(e.derivedRoles, e.rolesAndParents, scope), rt) == Ok(Roles(if t then {n} else {}))
  {
    hide RoleResult;
    var drs := RolesOf(e.derivedRoles, e.rolesAndParents, scope);
    assert drs == map[n := dr];
    var names := set m | m in drs && RoleResult(e.cel, drs[m], rt) == Ok(True);
    assert names == if t then {n} else {};
  }

  /** Which derived roles are effective at a scope: those of the scope that have the
      parent role "*" or one of the principal's roles or their parents, and whose condition
      holds under the effective derived roles of the scope before. */
  lemma EffectiveExactly(e: Env, i: nat, n: string)
    requires i < |e.resourceScopes| && RuntimeAt(e, i).Ok? && RuntimeAt(e, i).value.Roles?
    ensures var scope := e.resourceScopes[i];
            var before := if i == 0 then NO_ROLES else RuntimeAt(e, i - 1).value;
            n in RuntimeAt(e, i).value.names <==>
            && scope in e.derivedRoles && n in e.derivedRoles[scope]
            && (|| "*" in e.derivedRoles[scope][n].parentRoles
                || exists r | r in e.rolesAndParents :: r in e.derivedRoles[scope][n].parentRoles)
            && RoleResult(e.cel, e.derivedRoles[scope][n], before) == Ok(True)
  {
    hide RoleResult;
    var scope := e.resourceScopes[i];
    if scope in e.derivedRoles && n in e.derivedRoles[scope] {
      var dr := e.derivedRoles[scope][n];
      if r :| r in e.rolesAndParents && r in dr.parentRoles {
        assert r in dr.parentRoles * e.rolesAndParents;
      }
      if dr.parentRoles * e.rolesAndParents != {} {
        var r :| r in dr.parentRoles * e.rolesAndParents;
      }
    }
  }
}
