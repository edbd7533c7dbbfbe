/** The decision procedure of internal/ruletable/check.go for one action, with
    no caches: what `check` decides when every cache is transparent. Errors and
    strict mode are part of it. */
module Check {
  import opened Common
  import opened Conditions

  datatype Kind = Principal | Resource

  /** NoEffect is the unspecified effect of rows that only emit output. */
  datatype Effect = Allow | Deny | NoEffect

  datatype Permission = OverrideParent | RequireParentalConsent

  /** The structured evaluation key of a row; the all-empty key belongs to rows
      without a condition. */
  datatype EvalKey = EvalKey(prefix: string, resource: string, principal: string, role: string,
                             derivedRole: string, version: string, scope: string, ruleName: string, ruleId: nat)

  const NO_KEY: EvalKey := EvalKey("", "", "", "", "", "", "", "", 0)

  datatype Binding = Binding(
    effect: Effect,
    condition: Option<Condition>,
    params: Option<Params>,
    derivedRoleCondition: Option<Condition>,
    derivedRoleParams: Option<Params>,
    fromRolePolicy: bool,
    key: EvalKey)

  /** `varCacheKey` is the content hash of the whole role, under which its evaluated
      variables are cached; the parameters have a key of their own, for rows. */
  datatype DerivedRole = DerivedRole(parentRoles: set<string>, condition: Option<Condition>, params: Params,
      varCacheKey: nat)

  /** How expressions are evaluated for a request. */
  datatype Cel = Cel(sem: Semantics, strict: bool)

  /** One request against one table: the two scope chains (most specific first),
      the principal's roles, and what the table answers. `query` is given the
      policy kind, a role of the principal, a scope and an action. `leftover` is the
      runtime object that principal policies see: no effective derived roles, unless an
      earlier action of the same batch has left some. */
  datatype Env = Env(
    cel: Cel,
    principalScopes: seq<string>,
    resourceScopes: seq<string>,
    roles: seq<string>,
    rolesAndParents: set<string>,
    query: (Kind, string, string, string) -> seq<Binding>,
    permissions: map<string, Permission>,
    derivedRoles: map<string, map<string, DerivedRole>>,
    policiesExist: bool,
    leftover: Runtime)
  {
    function Scopes(kind: Kind): seq<string> {
      if kind == Principal then principalScopes else resourceScopes
    }

    function Permission(scope: string): Option<Permission> {
      if scope in permissions then Some(permissions[scope]) else None
    }
  }

  // ---- effective derived roles ----------------------------------------------

  predicate RoleApplies(dr: DerivedRole, roles: set<string>) {
    "*" in dr.parentRoles || dr.parentRoles * roles != {}
  }

  /** The derived roles of a scope that the principal's roles can activate. */
  function RolesOf(derivedRoles: map<string, map<string, DerivedRole>>, roles: set<string>, scope: string)
    : map<string, DerivedRole>
  {
    if scope in derivedRoles
    then map n | n in derivedRoles[scope] && RoleApplies(derivedRoles[scope][n], roles) :: derivedRoles[scope][n]
    else map[]
  }

  /** Whether the derived role is an effective derived role; an Error where a variable
      of the role failed for good. */
  function RoleResult(g: Cel, dr: DerivedRole, rt: Runtime): Result<Truth> {
    var vars := RunVariables(g.sem, g.strict, dr.params.constants, dr.params.variables, rt, map[]);
    if vars.Error? then Error
    else Ok(SatisfiesOpt(Context(g.sem, g.strict, dr.params.constants, vars.value, rt), dr.condition))
  }

  /** The runtime object made of a scope's derived roles. Strict mode poisons it
      as soon as one derived role could not be decided. */
  function RuntimeOf(g: Cel, drs: map<string, DerivedRole>, rt: Runtime): Result<Runtime> {
    if exists n | n in drs :: RoleResult(g, drs[n], rt) == Error then Error
    else if g.strict && exists n | n in drs :: RoleResult(g, drs[n], rt) == Ok(Failed) then Ok(Unavailable)
    else Ok(Roles(set n | n in drs && RoleResult(g, drs[n], rt) == Ok(True)))
  }

  /** The runtime object in force at the i-th resource scope: each scope's
      derived roles are decided under the runtime object of the scope before. */
  function RuntimeAt(e: Env, i: nat): Result<Runtime>
    requires i < |e.resourceScopes|
  {
    var before := if i == 0 then Ok(NO_ROLES) else RuntimeAt(e, i - 1);
    if before.Error? then Error
        else RuntimeOf(e.cel, RolesOf(e.derivedRoles, e.rolesAndParents, e.resourceScopes[i]), before.value)
  }

  function RuntimeFor(e: Env, kind: Kind, i: nat): Result<Runtime>
    requires i < |e.Scopes(kind)|
  {
    if kind == Principal then Ok(e.leftover) else RuntimeAt(e, i)
  }

  // ---- one binding ------------------------------------------------------------

  /** Abort ends the whole request with an error; Reject denies the action (a
      failed condition in strict mode). A failed condition in lenient mode just
      skips the binding. */
  datatype BindingOutcome = Sat | Unsat | Reject | Abort

  function ParamVars(g: Cel, p: Option<Params>, rt: Runtime): Result<Vars> {
    if p.None? then Ok(map[])
    else RunPrograms(g.sem, p.value.constants, p.value.variables, rt, map[])
  }

  function ParamConstants(p: Option<Params>): Vars {
    if p.None? then map[] else p.value.constants
  }

  function ConditionTruth(g: Cel, c: Option<Condition>, p: Option<Params>, vars: Vars, rt: Runtime): Truth {
    SatisfiesOpt(Context(g.sem, g.strict, ParamConstants(p), vars, rt), c)
  }

  /** The value an evaluation leaves in the condition cache, and Failed or an
      Error where it leaves none. */
  function Verified(g: Cel, b: Binding, vars: Vars, rt: Runtime): Result<Truth> {
    if b.derivedRoleCondition.None? then Ok(ConditionTruth(g, b.condition, b.params, vars, rt))
    else
      var drVars := ParamVars(g, b.derivedRoleParams, rt);
      if drVars.Error? then Error
      else
        var dr := ConditionTruth(g, b.derivedRoleCondition, b.derivedRoleParams, drVars.value, rt);
        if dr != True then Ok(dr)
        else Ok(ConditionTruth(g, b.condition, b.params, vars, rt))
  }

  function Evaluate(g: Cel, b: Binding, rt: Runtime): BindingOutcome {
    var vars := ParamVars(g, b.params, rt);
    if vars.Error? then Abort
    else
      match Verified(g, b, vars.value, rt)
      case Error => Abort
      case Ok(True) => Sat
      case Ok(False) => Unsat
      case Ok(Failed) => if g.strict then Reject else Unsat
  }

  // ---- one scope, one role, one policy kind -----------------------------------

  datatype Scan = Denied | Rejected | Aborted | Scanned(hasAllow: bool)

  function ScanBindings(g: Cel, bs: seq<Binding>, rt: Runtime, hasAllow: bool): Scan {
    if bs == [] then Scanned(hasAllow)
    else
      match Evaluate(g, bs[0], rt)
      case Abort => Aborted
      case Reject => Rejected
      case Unsat => ScanBindings(g, bs[1..], rt, hasAllow)
      case Sat =>
        if bs[0].effect == Deny then Denied
        else ScanBindings(g, bs[1..], rt, hasAllow || bs[0].effect == Allow)
  }

  /** What one role, one policy kind or the whole procedure concludes. Rejection
      and Failure are the strict-mode denial and the error return. */
  datatype Verdict = VAllow | VDeny | VNoMatch | VReject | VError

  /** From a scanned scope to the verdict, given what the scopes above it say
      without and with an ALLOW carried over. */
  function Continue(scan: Scan, permission: Option<Permission>, quiet: Verdict, carried: Verdict): Verdict {
    match scan
    case Denied => VDeny
    case Rejected => VReject
    case Aborted => VError
    case Scanned(hasAllow) =>
      if !hasAllow then quiet
      else
        match permission
        case Some(RequireParentalConsent) => quiet
        case Some(OverrideParent) => VAllow
        case None => carried
  }

  function ChainVerdict(e: Env, kind: Kind, role: string, action: string, i: nat, hasAllow: bool): Verdict
    requires i <= |e.Scopes(kind)|
    decreases |e.Scopes(kind)| - i
  {
    if i == |e.Scopes(kind)| then VNoMatch
    else
      var rt := RuntimeFor(e, kind, i);
      if rt.Error? then VError
      else Continue(
        ScanBindings(e.cel, e.query(kind, role, e.Scopes(kind)[i], action), rt.value, hasAllow),
        e.Permission(e.Scopes(kind)[i]),
        ChainVerdict(e, kind, role, action, i + 1, false),
        ChainVerdict(e, kind, role, action, i + 1, true))
  }

  function RoleVerdict(e: Env, kind: Kind, role: string, action: string): Verdict {
    ChainVerdict(e, kind, role, action, 0, false)
  }

  /** Resource policies: roles in order, the first ALLOW wins, a DENY is kept. */
  function RolesVerdict(e: Env, roles: seq<string>, action: string, soFar: Verdict): Verdict {
    if roles == [] then soFar
    else
      var v := RoleVerdict(e, Resource, roles[0], action);
      if v == VAllow || v == VReject || v == VError then v
      else RolesVerdict(e, roles[1..], action, if soFar == VNoMatch then v else soFar)
  }

  /** Principal policies are role agnostic: only the first role is looked at. */
  function KindVerdict(e: Env, kind: Kind, action: string): Verdict {
    if kind == Resource then RolesVerdict(e, e.roles, action, VNoMatch)
    else if e.roles == [] then VNoMatch
    else RoleVerdict(e, Principal, e.roles[0], action)
  }

  /** Principal policies first, resource policies where those are silent. */
  function Conclusion(e: Env, action: string): Verdict {
    var p := KindVerdict(e, Principal, action);
    if p == VNoMatch then KindVerdict(e, Resource, action) else p
  }

  function Decide(e: Env, action: string): Result<Effect> {
    if !e.policiesExist then Ok(Deny)
    else
      match Conclusion(e, action)
      case VAllow => Ok(Allow)
      case VError => Error
      case _ => Ok(Deny)
  }

  // ---- error-free runs --------------------------------------------------------

  /** No evaluation that the request can reach for the action fails. */
  ghost predicate ErrorFree(e: Env, action: string) {
    && (forall i | 0 <= i < |e.resourceScopes| :: RuntimeAt(e, i).Ok?)
    && (forall kind: Kind, role: string, i: nat, b: Binding |
          role in e.roles && i < |e.Scopes(kind)| && b in e.query(kind, role, e.Scopes(kind)[i], action) ::
          BindingDecided(e, kind, i, b))
  }

  ghost predicate BindingDecided(e: Env, kind: Kind, i: nat, b: Binding)
    requires i < |e.Scopes(kind)|
  {
    var rt := RuntimeFor(e, kind, i);
    rt.Ok? && (Evaluate(e.cel, b, rt.value) == Sat || Evaluate(e.cel, b, rt.value) == Unsat)
  }

  /** Every scope of a chain that holds an ALLOW row has recorded permissions. */
  ghost predicate AllowScopesRecorded(e: Env, action: string) {
    forall kind: Kind, role: string, i: nat, b: Binding |
      role in e.roles && i < |e.Scopes(kind)| && b in e.query(kind, role, e.Scopes(kind)[i], action)
          && b.effect == Allow ::
      e.Scopes(kind)[i] in e.permissions
  }

  /** Some satisfied row of the i-th scope has the given effect. */
  ghost predicate Fires(e: Env, kind: Kind, role: string, action: string, i: nat, effect: Effect)
    requires i < |e.Scopes(kind)|
  {
    var rt := RuntimeFor(e, kind, i);
    rt.Ok? && exists b | b in e.query(kind, role, e.Scopes(kind)[i], action) ::
      b.effect == effect && Evaluate(e.cel, b, rt.value) == Sat
  }

  ghost predicate Denies(e: Env, kind: Kind, role: string, action: string, i: nat)
    requires i < |e.Scopes(kind)|
  {
    Fires(e, kind, role, action, i, Deny)
  }

  ghost predicate Grants(e: Env, kind: Kind, role: string, action: string, i: nat)
    requires i < |e.Scopes(kind)|
  {
    Fires(e, kind, role, action, i, Allow) && e.Permission(e.Scopes(kind)[i]) == Some(OverrideParent)
  }

  ghost predicate Decisive(e: Env, kind: Kind, role: string, action: string, i: nat)
    requires i < |e.Scopes(kind)|
  {
    Denies(e, kind, role, action, i) || Grants(e, kind, role, action, i)
  }

  /** The i-th scope is the most specific one that decides. */
  ghost predicate FirstDecisive(e: Env, kind: Kind, role: string, action: string, i: nat)
    requires i < |e.Scopes(kind)|
  {
    && Decisive(e, kind, role, action, i)
    && forall j | 0 <= j < i :: !Decisive(e, kind, role, action, j)
  }

  /** A scope scan does not depend on the order of its bindings: DENY beats
      everything, and an ALLOW is remembered. */
  lemma {:induction false} ScanMeaning(g: Cel, bs: seq<Binding>, rt: Runtime, hasAllow: bool)
    requires forall b | b in bs :: Evaluate(g, b, rt) == Sat || Evaluate(g, b, rt) == Unsat
    ensures ScanBindings(g, bs, rt, hasAllow) ==
            if exists b | b in bs :: b.effect == Deny && Evaluate(g, b, rt) == Sat then Denied
            else Scanned(hasAllow || exists b | b in bs :: b.effect == Allow && Evaluate(g, b, rt) == Sat)
  {
    if bs != [] {
      assert bs == [bs[0]] + bs[1..];
      assert bs[0] in bs;
      if Evaluate(g, bs[0], rt) == Unsat {
        ScanMeaning(g, bs[1..], rt, hasAllow);
      } else if bs[0].effect != Deny {
        ScanMeaning(g, bs[1..], rt, hasAllow || bs[0].effect == Allow);
      }
    }
  }

  lemma StepMeaning(e: Env, kind: Kind, role: string, action: string, i: nat)
    requires ErrorFree(e, action) && AllowScopesRecorded(e, action)
    requires role in e.roles && i < |e.Scopes(kind)|
    ensures ChainVerdict(e, kind, role, action, i, false) ==
            if Denies(e, kind, role, action, i) then VDeny
            else if Grants(e, kind, role, action, i) then VAllow
            else ChainVerdict(e, kind, role, action, i + 1, false)
  {
    var scope := e.Scopes(kind)[i];
    var bs := e.query(kind, role, scope, action);
    var rt := RuntimeFor(e, kind, i);
    assert rt.Ok?;
    forall b | b in bs ensures Evaluate(e.cel, b, rt.value) == Sat || Evaluate(e.cel, b, rt.value) == Unsat {
      assert BindingDecided(e, kind, i, b);
    }
    ScanMeaning(e.cel, bs, rt.value, false);
  }

  /** The labelled-break loop over scopes returns what the most specific decisive
      scope says, DENY beating ALLOW there; consent scopes never decide an ALLOW. */
  lemma {:induction false} ChainClosedForm(e: Env, kind: Kind, role: string, action: string, i: nat)
    requires ErrorFree(e, action) && AllowScopesRecorded(e, action)
    requires role in e.roles && i <= |e.Scopes(kind)|
    requires forall j | 0 <= j < i :: !Decisive(e, kind, role, action, j)
    ensures var v := ChainVerdict(e, kind, role, action, i, false);
            && (v == VAllow || v == VDeny || v == VNoMatch)
            && (v == VAllow <==> exists k | 0 <= k < |e.Scopes(kind)| ::
                  FirstDecisive(e, kind, role, action, k) && !Denies(e, kind, role, action, k))
            && (v == VDeny <==> exists k | 0 <= k < |e.Scopes(kind)| ::
                  FirstDecisive(e, kind, role, action, k) && Denies(e, kind, role, action, k))
    decreases |e.Scopes(kind)| - i
  {
    hide ErrorFree, AllowScopesRecorded, Fires, ChainVerdict, Denies, Grants;
    if i == |e.Scopes(kind)| {
      ChainEnd(e, kind, role, action);
    } else {
      StepMeaning(e, kind, role, action, i);
      if Decisive(e, kind, role, action, i) {
        assert FirstDecisive(e, kind, role, action, i);
      } else {
        ChainClosedForm(e, kind, role, action, i + 1);
      }
    }
  }

  lemma ChainEnd(e: Env, kind: Kind, role: string, action: string)
    ensures ChainVerdict(e, kind, role, action, |e.Scopes(kind)|, false) == VNoMatch
  {
  }

  lemma {:induction false} RolesClosedForm(e: Env, roles: seq<string>, action: string, soFar: Verdict)
    requires ErrorFree(e, action) && AllowScopesRecorded(e, action)
    requires (soFar == VDeny || soFar == VNoMatch) && forall r | r in roles :: r in e.roles
    ensures RolesVerdict(e, roles, action, soFar) ==
            if exists r | r in roles :: RoleVerdict(e, Resource, r, action) == VAllow then VAllow
            else if soFar == VDeny || exists r | r in roles :: RoleVerdict(e, Resource, r, action) == VDeny then VDeny
            else VNoMatch
  {
    if roles != [] {
      assert roles == [roles[0]] + roles[1..];
      assert roles[0] in roles;
      ChainClosedForm(e, Resource, roles[0], action, 0);
      var v := RoleVerdict(e, Resource, roles[0], action);
      if v != VAllow {
        RolesClosedForm(e, roles[1..], action, if soFar == VNoMatch then v else soFar);
      }
    }
  }

  /** The principal verdict is ALLOW, or it is NO_MATCH and some role's verdict is
      ALLOW. */
  predicate LoopsAllow(e: Env, action: string) {
    || KindVerdict(e, Principal, action) == VAllow
    || (&& KindVerdict(e, Principal, action) == VNoMatch
        && exists r | r in e.roles :: RoleVerdict(e, Resource, r, action) == VAllow)
  }

  /** The closed form of `check`: ALLOW exactly when there is a policy to look at
      and the principal verdict is ALLOW, or it is NO_MATCH and some role's
      verdict is ALLOW. */
  lemma DecideClosedForm(e: Env, action: string)
    requires ErrorFree(e, action) && AllowScopesRecorded(e, action)
    ensures Decide(e, action) == Ok(Allow) || Decide(e, action) == Ok(Deny)
    ensures Decide(e, action) == Ok(Allow) <==> e.policiesExist && LoopsAllow(e, action)
  {
    RolesClosedForm(e, e.roles, action, VNoMatch);
    if e.roles != [] {
      ChainClosedForm(e, Principal, e.roles[0], action, 0);
    }
  }

  // ---- reordering -------------------------------------------------------------

  /** The same request with its roles and the rows of every query reordered. */
  ghost predicate Reordered(e: Env, e': Env) {
    && e' == e.(roles := e'.roles, query := e'.query)
    && multiset(e'.roles) == multiset(e.roles)
    && forall kind: Kind, role: string, scope: string, action: string ::
         multiset(e'.query(kind, role, scope, action)) == multiset(e.query(kind, role, scope, action))
  }

  /** Principal rows carry the role "*", so no role changes what a query of
      principal policies returns. */
  ghost predicate PrincipalRowsRoleAgnostic(e: Env) {
    forall role: string, role': string, scope: string, action: string ::
      multiset(e.query(Principal, role, scope, action)) == multiset(e.query(Principal, role', scope, action))
  }

  lemma MultisetMembers<T>(s: seq<T>, s': seq<T>)
    requires multiset(s) == multiset(s')
    ensures forall x :: x in s <==> x in s'
  {
    forall x ensures x in s <==> x in s' {
      assert x in s <==> x in multiset(s);
      assert x in s' <==> x in multiset(s');
    }
  }

  lemma {:induction false} RuntimeUnaffected(e: Env, e': Env, i: nat)
    requires e' == e.(roles := e'.roles, query := e'.query)
    requires i < |e.resourceScopes|
    ensures RuntimeAt(e', i) == RuntimeAt(e, i)
  {
    if i > 0 {
      RuntimeUnaffected(e, e', i - 1);
    }
  }

  lemma FiresUnaffected(e: Env, e': Env, kind: Kind, role: string, role': string, action: string, i: nat,
                        effect: Effect)
    requires e' == e.(roles := e'.roles, query := e'.query)
    requires i < |e.Scopes(kind)|
    requires multiset(e'.query(kind, role', e.Scopes(kind)[i], action)) ==
             multiset(e.query(kind, role, e.Scopes(kind)[i], action))
    ensures Fires(e', kind, role', action, i, effect) == Fires(e, kind, role, action, i, effect)
  {
    if kind == Resource {
      RuntimeUnaffected(e, e', i);
    }
    MultisetMembers(e'.query(kind, role', e.Scopes(kind)[i], action), e.query(kind, role, e.Scopes(kind)[i], action));
  }

  lemma ErrorFreeUnaffected(e: Env, e': Env, action: string)
    requires Reordered(e, e') && ErrorFree(e, action) && AllowScopesRecorded(e, action)
    ensures ErrorFree(e', action) && AllowScopesRecorded(e', action)
  {
    forall i | 0 <= i < |e.resourceScopes| ensures RuntimeAt(e', i) == RuntimeAt(e, i) {
      RuntimeUnaffected(e, e', i);
    }
    MultisetMembers(e.roles, e'.roles);
    forall kind: Kind, role: string, i: nat, b: Binding |
      role in e'.roles && i < |e'.Scopes(kind)| && b in e'.query(kind, role, e'.Scopes(kind)[i], action)
      ensures BindingDecided(e', kind, i, b) && (b.effect == Allow ==> e'.Scopes(kind)[i] in e'.permissions)
    {
      MultisetMembers(e'.query(kind, role, e.Scopes(kind)[i], action), e.query(kind, role, e.Scopes(kind)[i], action));
      assert b in e.query(kind, role, e.Scopes(kind)[i], action);
      assert BindingDecided(e, kind, i, b);
    }
  }

  lemma ChainUnaffected(e: Env, e': Env, kind: Kind, role: string, role': string, action: string)
    requires ErrorFree(e, action) && AllowScopesRecorded(e, action) && ErrorFree(e', action)
    requires AllowScopesRecorded(e', action)
    requires e' == e.(roles := e'.roles, query := e'.query) && role in e.roles && role' in e'.roles
    requires forall scope ::
             multiset(e'.query(kind, role', scope, action)) == multiset(e.query(kind, role, scope, action))
    ensures RoleVerdict(e', kind, role', action) == RoleVerdict(e, kind, role, action)
  {
    forall i | 0 <= i < |e.Scopes(kind)|
      ensures Denies(e', kind, role', action, i) == Denies(e, kind, role, action, i)
      ensures Grants(e', kind, role', action, i) == Grants(e, kind, role, action, i)
    {
      FiresUnaffected(e, e', kind, role, role', action, i, Deny);
      FiresUnaffected(e, e', kind, role, role', action, i, Allow);
    }
    SameStepsSameVerdict(e, e', kind, role, role', action, 0);
  }

  lemma {:induction false} SameStepsSameVerdict(e: Env, e': Env, kind: Kind, role: string, role': string,
                                                action: string, i: nat)
    requires ErrorFree(e, action) && AllowScopesRecorded(e, action) && ErrorFree(e', action)
    requires AllowScopesRecorded(e', action)
    requires e'.Scopes(kind) == e.Scopes(kind) && role in e.roles && role' in e'.roles
    requires i <= |e.Scopes(kind)|
    requires forall j | 0 <= j < |e.Scopes(kind)| ::
               && Denies(e', kind, role', action, j) == Denies(e, kind, role, action, j)
               && Grants(e', kind, role', action, j) == Grants(e, kind, role, action, j)
    ensures ChainVerdict(e', kind, role', action, i, false) == ChainVerdict(e, kind, role, action, i, false)
    decreases |e.Scopes(kind)| - i
  {
    if i < |e.Scopes(kind)| {
      SameStepsSameVerdict(e, e', kind, role, role', action, i + 1);
      StepMeaning(e, kind, role, action, i);
      StepMeaning(e', kind, role', action, i);
    }
  }

  /** Neither the order of the principal's roles nor the order of the rows inside
      a query changes the effect. */
  lemma OrderIrrelevant(e: Env, e': Env, action: string)
    requires ErrorFree(e, action) && AllowScopesRecorded(e, action) && PrincipalRowsRoleAgnostic(e)
    requires Reordered(e, e')
    ensures Decide(e', action) == Decide(e, action)
  {
    ErrorFreeUnaffected(e, e', action);
    DecideClosedForm(e, action);
    DecideClosedForm(e', action);
    MultisetMembers(e.roles, e'.roles);
    forall r | r in e.roles ensures RoleVerdict(e', Resource, r, action) == RoleVerdict(e, Resource, r, action) {
      ChainUnaffected(e, e', Resource, r, r, action);
    }
    if e.roles != [] {
      assert e.roles[0] in e'.roles;
      forall scope ensures multiset(e'.query(Principal, e'.roles[0], scope, action)) ==
          multiset(e.query(Principal, e.roles[0], scope, action)) {
        assert multiset(e.query(Principal, e'.roles[0], scope, action)) ==
            multiset(e.query(Principal, e.roles[0], scope, action));
      }
      ChainUnaffected(e, e', Principal, e.roles[0], e'.roles[0], action);
    } else {
      assert |multiset(e'.roles)| == 0;
    }
  }
}
