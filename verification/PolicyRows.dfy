/** Compilation of policies into rule table rows (internal/ruletable/ruletable.go):
    what a row means in terms of the rule it comes from, and why equal evaluation
    keys are safe to share a cached truth. */
module PolicyRows {
  import opened Common
  import opened Conditions
  import opened Check
  import opened CheckLoop
  import opened RowIndex

  const RESOURCE_PREFIX := "cerbos.resource"
  const PRINCIPAL_PREFIX := "cerbos.principal"
  const DERIVED_ROLES_PREFIX := "cerbos.derived_roles"

  datatype Rule = Rule(name: string, actions: set<string>, roles: set<string>, derivedRoles: set<string>,
                       condition: Option<Condition>, effect: Effect)

  /** `permissions` is None when the policy leaves them unspecified; `resource` is
      the sanitized resource name. */
  datatype ResourcePolicy = ResourcePolicy(
    fqn: string, resource: string, version: string, scope: string, permissions: Option<Permission>,
    rules: seq<Rule>, derivedRoles: map<string, DerivedRole>, params: Params)

  datatype ActionRule = ActionRule(name: string, action: string, condition: Option<Condition>, effect: Effect)

  /** Rules by resource, as written; `sanitized` maps each to the name its rows
      are indexed under. */
  datatype PrincipalPolicy = PrincipalPolicy(
    fqn: string, principal: string, version: string, scope: string, permissions: Option<Permission>,
    rules: map<string, seq<ActionRule>>, sanitized: string -> string, params: Params)

  // ---- rows ----------------------------------------------------------------------

  /** In a scope that requires parental consent a conditional ALLOW becomes a DENY
      of the negated condition. */
  function Rewritten(permissions: Option<Permission>, b: Binding): Binding {
    if permissions == Some(RequireParentalConsent) && b.effect == Allow && b.condition.Some?
    then b.(condition := Some(NoneOf([b.condition.value])), effect := Deny)
    else b
  }

  function RoleRow(p: ResourcePolicy, rule: Rule, action: string, role: string): Row {
    Row(p.fqn, Resource, p.scope, p.version, p.resource, role, action, "",
        Rewritten(p.permissions,
                  Binding(rule.effect, rule.condition, Some(p.params), None, None, false,
                          EvalKey(RESOURCE_PREFIX, p.resource, "", "", "", p.version, p.scope, rule.name, 0))))
  }

  function DerivedRow(p: ResourcePolicy, rule: Rule, action: string, derivedRole: string, parentRole: string): Row
    requires derivedRole in p.derivedRoles
  {
    var dr := p.derivedRoles[derivedRole];
    Row(p.fqn, Resource, p.scope, p.version, p.resource, parentRole, action, "",
        Rewritten(p.permissions,
                  Binding(rule.effect, rule.condition, Some(p.params), dr.condition, Some(dr.params), false,
                          EvalKey(DERIVED_ROLES_PREFIX, p.resource, "", "", derivedRole, p.version, p.scope,
                              rule.name, 0))))
  }

  /** The row of a policy without rules: it makes the policy exist and matches no
      action. */
  function NoopRow(kind: Kind, fqn: string, resource: string, version: string, scope: string, principal: string): Row {
    Row(fqn, kind, scope, version, resource, "", "", principal,
        Binding(NoEffect, None, Some(Params(0, map[], [])), None, None, false, NO_KEY))
  }

  function PrincipalRow(p: PrincipalPolicy, resource: string, rule: ActionRule): Row {
    Row(p.fqn, Principal, p.scope, p.version, p.sanitized(resource), "*", rule.action, p.principal,
        Rewritten(p.permissions,
                  Binding(rule.effect, rule.condition, Some(p.params), None, None, false,
                          EvalKey(PRINCIPAL_PREFIX, resource, p.principal, "", "", p.version, p.scope, rule.name, 0))))
  }

  /** The rows of one rule. */
  ghost predicate RowOfRule(p: ResourcePolicy, rule: Rule, row: Row) {
    || (exists a, r :: a in rule.actions && r in rule.roles && row == RoleRow(p, rule, a, r))
    || (exists a, d, r ::
        a in rule.actions && d in rule.derivedRoles && d in p.derivedRoles && r in p.derivedRoles[d].parentRoles
                          && row == DerivedRow(p, rule, a, d, r))
  }

  // ---- the loops -------------------------------------------------------------------

  lemma Appended(rows: seq<Row>, more: seq<Row>)
    requires NoRepeats(rows) && NoRepeats(more) && forall row | row in rows :: row !in more
    ensures NoRepeats(rows + more) && forall row :: row in rows + more <==> row in rows || row in more
  {
    var all := rows + more;
    forall i, j | 0 <= i < j < |all| ensures all[i] != all[j] {
      if i < |rows| <= j {
        assert all[i] in rows && all[j] == more[j - |rows|] && all[j] in more;
      }
    }
  }

  lemma {:induction false} CopiesOf(rows: seq<Row>, row: Row)
    requires NoRepeats(rows)
    ensures multiset(rows)[row] == if row in rows then 1 else 0
  {
    if rows != [] {
      assert rows == [rows[0]] + rows[1..];
      CopiesOf(rows[1..], row);
    }
  }

  method RoleRows(p: ResourcePolicy, rule: Rule, action: string) returns (rows: seq<Row>)
    ensures NoRepeats(rows) && forall row :: row in rows <==>
            exists r :: r in rule.roles && row == RoleRow(p, rule, action, r)
  {
    rows := [];
    var left := rule.roles;
    while left != {}
      invariant left <= rule.roles && NoRepeats(rows)
      invariant forall row :: row in rows <==>
                exists r :: r in rule.roles && r !in left && row == RoleRow(p, rule, action, r)
      decreases left
    {
      var r :| r in left;
      Appended(rows, [RoleRow(p, rule, action, r)]);
      left := left - {r};
      rows := rows + [RoleRow(p, rule, action, r)];
    }
  }

  method ParentRows(p: ResourcePolicy, rule: Rule, action: string, derivedRole: string) returns (rows: seq<Row>)
    requires derivedRole in p.derivedRoles
    ensures NoRepeats(rows)
    ensures forall row :: row in rows <==>
              exists r ::
                  r in p.derivedRoles[derivedRole].parentRoles && row == DerivedRow(p, rule, action, derivedRole, r)
  {
    rows := [];
    var left := p.derivedRoles[derivedRole].parentRoles;
    while left != {}
      invariant left <= p.derivedRoles[derivedRole].parentRoles && NoRepeats(rows)
      invariant forall row :: row in rows <==>
                  exists r ::
                      r in p.derivedRoles[derivedRole].parentRoles && r !in left
                      && row == DerivedRow(p, rule, action, derivedRole, r)
      decreases left
    {
      var r :| r in left;
      Appended(rows, [DerivedRow(p, rule, action, derivedRole, r)]);
      left := left - {r};
      rows := rows + [DerivedRow(p, rule, action, derivedRole, r)];
    }
  }

  /** Which action, derived role and parent role a row was made for can be read off
      it. */
  lemma DerivedRowDistinct(p: ResourcePolicy, rule: Rule, a: string, d: string, r: string, a': string, d': string,
                           r': string)
    requires d in p.derivedRoles && d' in p.derivedRoles
    requires DerivedRow(p, rule, a, d, r) == DerivedRow(p, rule, a', d', r')
    ensures a == a' && d == d' && r == r'
  {
  }

  lemma RoleRowDistinct(p: ResourcePolicy, rule: Rule, a: string, r: string, a': string, r': string)
    ensures RoleRow(p, rule, a, r) == RoleRow(p, rule, a', r') ==> a == a' && r == r'
    ensures forall d | d in p.derivedRoles :: RoleRow(p, rule, a, r) != DerivedRow(p, rule, a', d, r')
  {
    assert |RESOURCE_PREFIX| != |DERIVED_ROLES_PREFIX|;
  }

  method DerivedRows(p: ResourcePolicy, rule: Rule, action: string) returns (rows: seq<Row>)
    ensures NoRepeats(rows)
    ensures forall row :: row in rows <==>
              exists d, r ::
                  d in rule.derivedRoles && d in p.derivedRoles && r in p.derivedRoles[d].parentRoles
                  && row == DerivedRow(p, rule, action, d, r)
  {
    hide DerivedRow;
    rows := [];
    var left := rule.derivedRoles;
    while left != {}
      invariant left <= rule.derivedRoles && NoRepeats(rows)
      invariant forall row :: row in rows <==>
                  exists d, r ::
                      d in rule.derivedRoles && d !in left && d in p.derivedRoles && r in p.derivedRoles[d].parentRoles
                      && row == DerivedRow(p, rule, action, d, r)
      decreases left
    {
      var d :| d in left;
      if d in p.derivedRoles {
        var more := ParentRows(p, rule, action, d);
        forall row | row in rows ensures row !in more {
          var d', r' :| d' in rule.derivedRoles && d' !in left && d' in p.derivedRoles
              && r' in p.derivedRoles[d'].parentRoles && row == DerivedRow(p, rule, action, d', r');
          if row in more {
            var r :| r in p.derivedRoles[d].parentRoles && row == DerivedRow(p, rule, action, d, r);
            DerivedRowDistinct(p, rule, action, d', r', action, d, r);
          }
        }
        Appended(rows, more);
        rows := rows + more;
      }
      left := left - {d};
    }
  }

  /** The rows that one action of a rule has. */
  ghost predicate RowOfAction(p: ResourcePolicy, rule: Rule, a: string, row: Row) {
    || (exists r :: r in rule.roles && row == RoleRow(p, rule, a, r))
    || (exists d, r ::
        d in rule.derivedRoles && d in p.derivedRoles && r in p.derivedRoles[d].parentRoles
        && row == DerivedRow(p, rule, a, d, r))
  }

  lemma ActionOfRow(p: ResourcePolicy, rule: Rule, a: string, row: Row)
    requires RowOfAction(p, rule, a, row)
    ensures row.action == a
  {
  }

  method ActionRows(p: ResourcePolicy, rule: Rule, action: string) returns (rows: seq<Row>)
    ensures NoRepeats(rows) && forall row :: row in rows <==> RowOfAction(p, rule, action, row)
  {
    hide RoleRow, DerivedRow;
    var plain := RoleRows(p, rule, action);
    var derived := DerivedRows(p, rule, action);
    forall row | row in plain ensures row !in derived {
      var r' :| r' in rule.roles && row == RoleRow(p, rule, action, r');
      if row in derived {
        var d, r :| d in rule.derivedRoles && d in p.derivedRoles && r in p.derivedRoles[d].parentRoles
            && row == DerivedRow(p, rule, action, d, r);
        RoleRowDistinct(p, rule, action, r', action, r);
      }
    }
    Appended(plain, derived);
    rows := plain + derived;
  }

  /** Each row of a rule, once. */
  method RuleRows(p: ResourcePolicy, rule: Rule) returns (rows: seq<Row>)
    ensures NoRepeats(rows) && forall row :: row in rows <==> RowOfRule(p, rule, row)
  {
    RuleByAction(p, rule);
    hide RowOfRule, RowOfAction;
    rows := [];
    var left := rule.actions;
    while left != {}
      invariant left <= rule.actions && NoRepeats(rows)
      invariant forall row :: row in rows <==>
                exists a :: a in rule.actions && a !in left && RowOfAction(p, rule, a, row)
      decreases left
    {
      var a :| a in left;
      var more := ActionRows(p, rule, a);
      forall row | row in rows ensures row !in more {
        var a' :| a' in rule.actions && a' !in left && RowOfAction(p, rule, a', row);
        ActionOfRow(p, rule, a', row);
        if row in more {
          ActionOfRow(p, rule, a, row);
        }
      }
      Appended(rows, more);
      rows := rows + more;
      left := left - {a};
    }
  }

  lemma RuleByAction(p: ResourcePolicy, rule: Rule)
    ensures forall row :: RowOfRule(p, rule, row) <==> exists a :: a in rule.actions && RowOfAction(p, rule, a, row)
  {
    hide RoleRow, DerivedRow;
  }

  /** All rows of a resource policy, and nothing else. */
  ghost predicate RowOfResourcePolicy(p: ResourcePolicy, row: Row) {
    if p.rules == [] then row == NoopRow(Resource, p.fqn, p.resource, p.version, p.scope, "")
    else exists i | 0 <= i < |p.rules| :: RowOfRule(p, p.rules[i], row)
  }

  /** How many of the first n rules have the row. */
  ghost function RulesWith(p: ResourcePolicy, row: Row, n: nat): nat
    requires n <= |p.rules|
  {
    if n == 0 then 0 else RulesWith(p, row, n - 1) + if RowOfRule(p, p.rules[n - 1], row) then 1 else 0
  }

  /** Exactly the rows of the policy, each once for every rule that has it. */
  method AddResourcePolicy(p: ResourcePolicy) returns (rows: seq<Row>)
    ensures forall row :: row in rows <==> RowOfResourcePolicy(p, row)
    ensures p.rules == [] ==> |rows| == 1
    ensures p.rules != [] ==> forall row :: multiset(rows)[row] == RulesWith(p, row, |p.rules|)
  {
    hide RowOfRule, NoopRow;
    rows := [];
    if |p.rules| == 0 {
      rows := [NoopRow(Resource, p.fqn, p.resource, p.version, p.scope, "")];
    }
    for i := 0 to |p.rules|
      invariant p.rules != [] ==> forall row :: row in rows <==> exists j | 0 <= j < i :: RowOfRule(p, p.rules[j], row)
      invariant p.rules != [] ==> forall row :: multiset(rows)[row] == RulesWith(p, row, i)
      invariant p.rules == [] ==> rows == [NoopRow(Resource, p.fqn, p.resource, p.version, p.scope, "")]
    {
      var more := RuleRows(p, p.rules[i]);
      forall row ensures multiset(rows + more)[row] == RulesWith(p, row, i + 1) {
        CopiesOf(more, row);
      }
      rows := rows + more;
    }
  }

  ghost predicate RowOfPrincipalPolicy(p: PrincipalPolicy, row: Row) {
    if p.rules == map[] then row == NoopRow(Principal, p.fqn, "", p.version, p.scope, p.principal)
    else exists resource, i | resource in p.rules && 0 <= i < |p.rules[resource]| ::
        row == PrincipalRow(p, resource, p.rules[resource][i])
  }

  /** The rows of the rules for one resource, in order. */
  function RowsFor(p: PrincipalPolicy, resource: string): seq<Row>
    requires resource in p.rules
  {
    seq(|p.rules[resource]|, i requires 0 <= i < |p.rules[resource]| => PrincipalRow(p, resource, p.rules[resource][i]))
  }

  method ResourceRuleRows(p: PrincipalPolicy, resource: string) returns (rows: seq<Row>)
    requires resource in p.rules
    ensures rows == RowsFor(p, resource)
  {
    hide PrincipalRow;
    var rules := p.rules[resource];
    rows := [];
    for i := 0 to |rules|
      invariant rows == RowsFor(p, resource)[..i]
    {
      rows := rows + [PrincipalRow(p, resource, rules[i])];
    }
  }

  /** Which resource a row of a principal policy was written for. */
  function WrittenFor(row: Row): string {
    row.binding.key.resource
  }

  lemma RowsForResource(p: PrincipalPolicy, resource: string)
    requires resource in p.rules
    ensures forall row | row in RowsFor(p, resource) :: WrittenFor(row) == resource
  {
  }

  ghost predicate ByResource(p: PrincipalPolicy, rows: seq<Row>, left: set<string>) {
    forall row :: multiset(rows)[row] ==
      if WrittenFor(row) in p.rules && WrittenFor(row) !in left then multiset(RowsFor(p, WrittenFor(row)))[row] else 0
  }

  lemma ResourceAdded(p: PrincipalPolicy, rows: seq<Row>, left: set<string>, resource: string)
    requires ByResource(p, rows, left) && resource in left && resource in p.rules
    ensures ByResource(p, rows + RowsFor(p, resource), left - {resource})
  {
    RowsForResource(p, resource);
    hide RowsFor, WrittenFor;
    var more := RowsFor(p, resource);
    forall row ensures multiset(rows + more)[row] ==
        if WrittenFor(row) in p.rules
            && WrittenFor(row) !in left - {resource} then multiset(RowsFor(p, WrittenFor(row)))[row] else 0 {
      assert multiset(rows + more)[row] == multiset(rows)[row] + multiset(more)[row];
      assert multiset(more)[row] > 0 ==> row in more;
    }
  }

  lemma RowsForMembers(p: PrincipalPolicy, resource: string, row: Row)
    requires resource in p.rules
    ensures row in RowsFor(p, resource) <==>
            exists i | 0 <= i < |p.rules[resource]| :: row == PrincipalRow(p, resource, p.rules[resource][i])
  {
    hide PrincipalRow;
    var list := RowsFor(p, resource);
    assert forall i | 0 <= i < |list| :: list[i] == PrincipalRow(p, resource, p.rules[resource][i]);
    if i :| 0 <= i < |p.rules[resource]| && row == PrincipalRow(p, resource, p.rules[resource][i]) {
      assert list[i] == row;
    }
  }

  lemma MembersByResource(p: PrincipalPolicy, rows: seq<Row>)
    requires ByResource(p, rows, {}) && p.rules != map[]
    ensures forall row :: row in rows <==> RowOfPrincipalPolicy(p, row)
  {
    hide RowsFor, PrincipalRow, WrittenFor;
    forall row ensures row in rows <==> RowOfPrincipalPolicy(p, row) {
      var resource := WrittenFor(row);
      assert row in rows <==> multiset(rows)[row] > 0;
      if resource in p.rules {
        assert row in RowsFor(p, resource) <==> multiset(RowsFor(p, resource))[row] > 0;
        RowsForMembers(p, resource, row);
      }
      if other, i :| other in p.rules && 0 <= i < |p.rules[other]| && row == PrincipalRow(p, other, p.rules[other][i]) {
        RowsForMembers(p, other, row);
        RowsForResource(p, other);
      }
    }
  }

  /** Exactly the rows of the policy, each once for every rule for its resource that
      has it. */
  method AddPrincipalPolicy(p: PrincipalPolicy) returns (rows: seq<Row>)
    ensures forall row :: row in rows <==> RowOfPrincipalPolicy(p, row)
    ensures p.rules == map[] ==> |rows| == 1
    ensures p.rules != map[] ==> ByResource(p, rows, {})
  {
    hide PrincipalRow, NoopRow, RowsFor, ByResource;
    if p.rules == map[] {
      rows := [NoopRow(Principal, p.fqn, "", p.version, p.scope, p.principal)];
      return;
    }
    rows := [];
    var left := p.rules.Keys;
    NoResource(p);
    while left != {}
      invariant left <= p.rules.Keys && ByResource(p, rows, left)
      decreases left
    {
      var resource :| resource in left;
      var more := ResourceRuleRows(p, resource);
      ResourceAdded(p, rows, left, resource);
      left := left - {resource};
      rows := rows + more;
    }
    MembersByResource(p, rows);
  }

  lemma NoResource(p: PrincipalPolicy)
    ensures ByResource(p, [], p.rules.Keys)
  {
  }

  // ---- what the rows mean ------------------------------------------------------------

  /** A request's action and roles, and how the index matches them. */
  datatype Target = Target(matches: (string, string) -> bool, action: string, roles: set<string>)

  ghost predicate Hits(t: Target, row: Row) {
    row.action != "" && t.matches(row.action, t.action) && exists r | r in t.roles :: t.matches(row.role, r)
  }

  /** The truth of a rule's own condition, and of a derived role's. */
  function RuleTruth(g: Cel, rt: Runtime, params: Params, condition: Option<Condition>): Truth {
    var vars := ParamVars(g, Some(params), rt);
    if vars.Error? then Failed else ConditionTruth(g, condition, Some(params), vars.value, rt)
  }

  /** The rule is about the request: its action matches, and so does one of its
      roles or one of its derived roles whose condition holds. That is decided with the
      programs of rules and under the scope's own runtime object, and so is not always
      whether the role is an effective derived role. */
  ghost predicate Applies(g: Cel, rt: Runtime, p: ResourcePolicy, rule: Rule, t: Target) {
    && (exists a | a in rule.actions :: a != "" && t.matches(a, t.action))
    && (|| (exists r, s | r in rule.roles && s in t.roles :: t.matches(r, s))
        || (exists d, r, s | d in rule.derivedRoles && d in p.derivedRoles && r in p.derivedRoles[d].parentRoles
            && s in t.roles ::
              t.matches(r, s) && RuleTruth(g, rt, p.derivedRoles[d].params, p.derivedRoles[d].condition) == True))
  }

  /** What an applicable rule does in its scope. */
  function RuleEffect(g: Cel, rt: Runtime, permissions: Option<Permission>, params: Params, effect: Effect,
                      condition: Option<Condition>): Effect
  {
    var truth := RuleTruth(g, rt, params, condition);
    if permissions == Some(RequireParentalConsent) && effect == Allow && condition.Some?
    then if truth == False then Deny else NoEffect
    else if truth == True then effect else NoEffect
  }

  /** Variables evaluate, so no row of the policy aborts the request. */
  ghost predicate ParamsEvaluate(g: Cel, rt: Runtime, p: ResourcePolicy) {
    && ParamVars(g, Some(p.params), rt).Ok?
    && forall d | d in p.derivedRoles :: ParamVars(g, Some(p.derivedRoles[d].params), rt).Ok?
  }

  lemma NegationMeaning(cx: Context, c: Condition)
    ensures Satisfies(cx, NoneOf([c])) ==
            match Satisfies(cx, c) { case True => False case False => True case Failed => Failed }
  {
    assert [c][1..] == [];
    assert SomeOf(cx, [c]) == Satisfies(cx, c);
  }

  lemma RewrittenMeaning(g: Cel, rt: Runtime, permissions: Option<Permission>, params: Params, b: Binding)
    requires b.params == Some(params) && ParamVars(g, b.params, rt).Ok?
    requires b.derivedRoleCondition.Some? ==> ParamVars(g, b.derivedRoleParams, rt).Ok?
    ensures var row := Rewritten(permissions, b);
            var inForce := b.derivedRoleCondition.None? ||
                           ConditionTruth(g, b.derivedRoleCondition, b.derivedRoleParams,
                               ParamVars(g, b.derivedRoleParams, rt).value, rt) == True;
            (Evaluate(g, row, rt) == Sat && row.effect != NoEffect) <==>
            (inForce && RuleEffect(g, rt, permissions, params, b.effect, b.condition) != NoEffect)
    ensures var row := Rewritten(permissions, b);
            Evaluate(g, row, rt) == Sat ==> row.effect == RuleEffect(g, rt, permissions, params, b.effect, b.condition)
  {
    hide ParamVars;
    if b.condition.Some? {
      NegationMeaning(Context(g.sem, g.strict, params.constants, ParamVars(g, b.params, rt).value, rt),
          b.condition.value);
    }
  }

  /** Some satisfied row hits the target with the given effect. */
  ghost predicate RowActs(g: Cel, rt: Runtime, t: Target, row: Row, effect: Effect) {
    Hits(t, row) && row.binding.effect == effect && Evaluate(g, row.binding, rt) == Sat
  }

  ghost predicate RuleActs(g: Cel, rt: Runtime, p: ResourcePolicy, rule: Rule, t: Target, effect: Effect) {
    Applies(g, rt, p, rule, t) && RuleEffect(g, rt, p.permissions, p.params, rule.effect, rule.condition) == effect
  }

  lemma RoleRowActs(g: Cel, rt: Runtime, p: ResourcePolicy, rule: Rule, a: string, r: string, t: Target, effect: Effect)
    requires ParamsEvaluate(g, rt, p) && effect != NoEffect
    ensures RowActs(g, rt, t, RoleRow(p, rule, a, r), effect) <==>
            && a != "" && t.matches(a, t.action) && (exists s | s in t.roles :: t.matches(r, s))
            && RuleEffect(g, rt, p.permissions, p.params, rule.effect, rule.condition) == effect
  {
    RewrittenMeaning(g, rt, p.permissions, p.params,
                     Binding(rule.effect, rule.condition, Some(p.params), None, None, false,
                             EvalKey(RESOURCE_PREFIX, p.resource, "", "", "", p.version, p.scope, rule.name, 0)));
    hide Evaluate, RuleEffect;
  }

  lemma DerivedRowActs(g: Cel, rt: Runtime, p: ResourcePolicy, rule: Rule, a: string, d: string, r: string, t: Target,
                       effect: Effect)
    requires ParamsEvaluate(g, rt, p) && effect != NoEffect && d in p.derivedRoles
    ensures RowActs(g, rt, t, DerivedRow(p, rule, a, d, r), effect) <==>
            && a != "" && t.matches(a, t.action) && (exists s | s in t.roles :: t.matches(r, s))
            && RuleTruth(g, rt, p.derivedRoles[d].params, p.derivedRoles[d].condition) == True
            && RuleEffect(g, rt, p.permissions, p.params, rule.effect, rule.condition) == effect
  {
    var dr := p.derivedRoles[d];
    RewrittenMeaning(g, rt, p.permissions, p.params,
                     Binding(rule.effect, rule.condition, Some(p.params), dr.condition, Some(dr.params), false,
                             EvalKey(DERIVED_ROLES_PREFIX, p.resource, "", "", d, p.version, p.scope, rule.name, 0)));
    hide Evaluate, RuleEffect;
  }

  lemma RuleRowsMeaning(g: Cel, rt: Runtime, p: ResourcePolicy, rule: Rule, t: Target, effect: Effect)
    requires ParamsEvaluate(g, rt, p) && effect != NoEffect
    ensures (exists row :: RowOfRule(p, rule, row) && RowActs(g, rt, t, row, effect)) <==>
            RuleActs(g, rt, p, rule, t, effect)
  {
    hide RowActs, RuleEffect, RuleTruth, RoleRow, DerivedRow, ParamsEvaluate;
    if row :| RowOfRule(p, rule, row) && RowActs(g, rt, t, row, effect) {
      if a, r :| a in rule.actions && r in rule.roles && row == RoleRow(p, rule, a, r) {
        RoleRowActs(g, rt, p, rule, a, r, t, effect);
      } else {
        var a, d, r :| a in rule.actions && d in rule.derivedRoles && d in p.derivedRoles
            && r in p.derivedRoles[d].parentRoles
                       && row == DerivedRow(p, rule, a, d, r);
        DerivedRowActs(g, rt, p, rule, a, d, r, t, effect);
      }
    }
    if RuleActs(g, rt, p, rule, t, effect) {
      var a :| a in rule.actions && a != "" && t.matches(a, t.action);
      if r, s :| r in rule.roles && s in t.roles && t.matches(r, s) {
        RoleRowActs(g, rt, p, rule, a, r, t, effect);
        assert RowOfRule(p, rule, RoleRow(p, rule, a, r));
      } else {
        var d, r, s :| d in rule.derivedRoles && d in p.derivedRoles && r in p.derivedRoles[d].parentRoles
            && s in t.roles &&
                       t.matches(r, s) && RuleTruth(g, rt, p.derivedRoles[d].params,
                           p.derivedRoles[d].condition) == True;
        DerivedRowActs(g, rt, p, rule, a, d, r, t, effect);
        assert RowOfRule(p, rule, DerivedRow(p, rule, a, d, r));
      }
    }
  }

  /** Row compilation preserves meaning: for any action and roles, the satisfied
      rows of a resource policy allow, and deny, exactly where its rules do; in a
      consent scope a conditional ALLOW rule denies exactly when it applies and
      its own condition is false. */
  lemma CompilationPreservesMeaning(g: Cel, rt: Runtime, p: ResourcePolicy, rows: seq<Row>, t: Target, effect: Effect)
    requires forall row :: row in rows <==> RowOfResourcePolicy(p, row)
    requires ParamsEvaluate(g, rt, p) && effect != NoEffect
    ensures (exists row | row in rows :: RowActs(g, rt, t, row, effect)) <==>
            (exists i | 0 <= i < |p.rules| :: RuleActs(g, rt, p, p.rules[i], t, effect))
  {
    assert p.rules == [] ==> !Hits(t, NoopRow(Resource, p.fqn, p.resource, p.version, p.scope, ""));
    hide RowOfRule, Evaluate, Hits, RuleActs, ParamsEvaluate, NoopRow;
    forall i | 0 <= i < |p.rules|
      ensures (exists row :: RowOfRule(p, p.rules[i], row) && RowActs(g, rt, t, row, effect)) <==>
              RuleActs(g, rt, p, p.rules[i], t, effect)
    {
      RuleRowsMeaning(g, rt, p, p.rules[i], t, effect);
    }
    hide RowActs;
    if row :| row in rows && RowActs(g, rt, t, row, effect) {
      if p.rules != [] {
        var i :| 0 <= i < |p.rules| && RowOfRule(p, p.rules[i], row);
        assert RuleActs(g, rt, p, p.rules[i], t, effect);
      }
    }
    if i :| 0 <= i < |p.rules| && RuleActs(g, rt, p, p.rules[i], t, effect) {
      var row :| RowOfRule(p, p.rules[i], row) && RowActs(g, rt, t, row, effect);
      assert row in rows;
    }
  }

  /** A rule of a principal policy acts on an action: its pattern matches, and its
      effect in the scope is the given one. */
  ghost predicate ActionRuleActs(g: Cel, rt: Runtime, p: PrincipalPolicy, rule: ActionRule, t: Target, effect: Effect) {
    && rule.action != "" && t.matches(rule.action, t.action)
    && RuleEffect(g, rt, p.permissions, p.params, rule.effect, rule.condition) == effect
  }

  lemma PrincipalRowActs(g: Cel, rt: Runtime, p: PrincipalPolicy, resource: string, rule: ActionRule, t: Target,
                         effect: Effect)
    requires ParamVars(g, Some(p.params), rt).Ok? && effect != NoEffect
    requires exists r | r in t.roles :: t.matches("*", r)
    ensures RowActs(g, rt, t, PrincipalRow(p, resource, rule), effect) <==> ActionRuleActs(g, rt, p, rule, t, effect)
  {
    RewrittenMeaning(g, rt, p.permissions, p.params,
                     Binding(rule.effect, rule.condition, Some(p.params), None, None, false,
                             EvalKey(PRINCIPAL_PREFIX, resource, p.principal, "", "", p.version, p.scope, rule.name,
                                     0)));
    hide Evaluate, RuleEffect;
  }

  lemma RuleOfPrincipalRow(g: Cel, rt: Runtime, p: PrincipalPolicy, row: Row, t: Target, effect: Effect)
    returns (rule: ActionRule)
    requires p.rules != map[] && RowOfPrincipalPolicy(p, row) && RowActs(g, rt, t, row, effect)
    requires ParamVars(g, Some(p.params), rt).Ok? && effect != NoEffect
    requires exists r | r in t.roles :: t.matches("*", r)
    ensures WrittenFor(row) in p.rules && rule in p.rules[WrittenFor(row)] && ActionRuleActs(g, rt, p, rule, t, effect)
  {
    hide RowActs, ActionRuleActs, PrincipalRow, WrittenFor, ParamVars;
    var resource, i :| resource in p.rules && 0 <= i < |p.rules[resource]|
        && row == PrincipalRow(p, resource, p.rules[resource][i]);
    rule := p.rules[resource][i];
    WrittenForResource(p, resource, rule);
    PrincipalRowActs(g, rt, p, resource, rule, t, effect);
  }

  lemma RowOfActionRule(g: Cel, rt: Runtime, p: PrincipalPolicy, resource: string, rule: ActionRule, t: Target,
                        effect: Effect) returns (row: Row)
    requires resource in p.rules && rule in p.rules[resource] && ActionRuleActs(g, rt, p, rule, t, effect)
    requires ParamVars(g, Some(p.params), rt).Ok? && effect != NoEffect
    requires exists r | r in t.roles :: t.matches("*", r)
    ensures RowOfPrincipalPolicy(p, row) && WrittenFor(row) == resource && RowActs(g, rt, t, row, effect)
  {
    hide RowActs, ActionRuleActs, PrincipalRow, WrittenFor, ParamVars;
    var i :| 0 <= i < |p.rules[resource]| && p.rules[resource][i] == rule;
    row := PrincipalRow(p, resource, rule);
    assert row == PrincipalRow(p, resource, p.rules[resource][i]);
    WrittenForResource(p, resource, rule);
    PrincipalRowActs(g, rt, p, resource, rule, t, effect);
  }

  /** The same for principal policies: the satisfied rows made for a resource allow, and
      deny, exactly where the rules for that resource do. */
  lemma PrincipalCompilationPreservesMeaning(g: Cel, rt: Runtime, p: PrincipalPolicy, rows: seq<Row>, resource: string,
                                             t: Target, effect: Effect)
    requires p.rules != map[] && forall row :: row in rows <==> RowOfPrincipalPolicy(p, row)
    requires ParamVars(g, Some(p.params), rt).Ok? && effect != NoEffect
    requires exists r | r in t.roles :: t.matches("*", r)
    ensures (exists row | row in rows :: WrittenFor(row) == resource && RowActs(g, rt, t, row, effect)) <==>
            && resource in p.rules
            && exists rule | rule in p.rules[resource] :: ActionRuleActs(g, rt, p, rule, t, effect)
  {
    hide RowActs, ActionRuleActs, RowOfPrincipalPolicy, WrittenFor, ParamVars;
    if row :| row in rows && WrittenFor(row) == resource && RowActs(g, rt, t, row, effect) {
      var rule := RuleOfPrincipalRow(g, rt, p, row, t, effect);
    }
    if resource in p.rules {
      if rule :| rule in p.rules[resource] && ActionRuleActs(g, rt, p, rule, t, effect) {
        var row := RowOfActionRule(g, rt, p, resource, rule, t, effect);
        assert row in rows;
      }
    }
  }

  lemma WrittenForResource(p: PrincipalPolicy, resource: string, rule: ActionRule)
    ensures WrittenFor(PrincipalRow(p, resource, rule)) == resource
  {
  }

  // ---- where the rows are looked up ------------------------------------------------------

  /** The rows of a resource policy are looked up under its kind, scope, version and
      resource, for any principal. */
  lemma ResourceRouting(p: ResourcePolicy, row: Row)
    requires RowOfResourcePolicy(p, row)
    ensures row.originFqn == p.fqn && row.kind == Resource && row.scope == p.scope && row.version == p.version
    ensures row.resource == p.resource && row.principal == "" && (p.rules == [] ==> row.action == "")
    ensures !row.binding.fromRolePolicy
  {
  }

  /** The rows of a principal policy are looked up under its kind, scope, version and
      principal, for every role, and under the sanitized name of their resource. */
  lemma PrincipalRouting(p: PrincipalPolicy, row: Row)
    requires RowOfPrincipalPolicy(p, row)
    ensures row.originFqn == p.fqn && row.kind == Principal && row.scope == p.scope && row.version == p.version
    ensures row.principal == p.principal && !row.binding.fromRolePolicy
    ensures if p.rules == map[] then row.action == "" && row.resource == ""
            else row.role == "*" && WrittenFor(row) in p.rules && row.resource == p.sanitized(WrittenFor(row))
  {
  }

  // ---- evaluation keys ---------------------------------------------------------------

  datatype Policies = Policies(resources: seq<ResourcePolicy>, principals: seq<PrincipalPolicy>)

  /** Policies have distinct fully-qualified names, and rule names are distinct
      within a resource policy and within a resource of a principal policy. */
  ghost predicate NamesDistinct(ps: Policies) {
    && (forall i, j | 0 <= i < j < |ps.resources| ::
          var p, p' := ps.resources[i], ps.resources[j];
              (p.resource, p.version, p.scope) != (p'.resource, p'.version, p'.scope))
    && (forall i, j | 0 <= i < j < |ps.principals| ::
          var p, p' := ps.principals[i], ps.principals[j];
              (p.principal, p.version, p.scope) != (p'.principal, p'.version, p'.scope))
    && (forall i | 0 <= i < |ps.resources| :: RuleNamesDistinct(ps.resources[i]))
    && (forall i | 0 <= i < |ps.principals| :: ActionNamesDistinct(ps.principals[i]))
  }

  ghost predicate RuleNamesDistinct(p: ResourcePolicy) {
    forall j, k | 0 <= j < k < |p.rules| :: p.rules[j].name != p.rules[k].name
  }

  ghost predicate ActionNamesDistinct(p: PrincipalPolicy) {
    forall resource, j, k | resource in p.rules && 0 <= j < k < |p.rules[resource]| ::
        p.rules[resource][j].name != p.rules[resource][k].name
  }

  ghost predicate RowOfPolicies(ps: Policies, row: Row) {
    || (exists i | 0 <= i < |ps.resources| :: RowOfResourcePolicy(ps.resources[i], row))
    || (exists i | 0 <= i < |ps.principals| :: RowOfPrincipalPolicy(ps.principals[i], row))
  }

  /** Where a row with an action comes from. */
  datatype Origin = FromRole(p: ResourcePolicy, rule: Rule) | FromDerivedRole(p: ResourcePolicy, rule: Rule,
      derivedRole: string)
                  | FromPrincipal(pp: PrincipalPolicy, resource: string, actionRule: ActionRule)

  ghost predicate Originates(ps: Policies, row: Row, o: Origin) {
    match o
    case FromRole(p, rule) => p in ps.resources && rule in p.rules && exists a, r :: row == RoleRow(p, rule, a, r)
    case FromDerivedRole(p, rule, d) =>
      p in ps.resources && rule in p.rules && d in p.derivedRoles && exists a, r :: row == DerivedRow(p, rule, a, d, r)
    case FromPrincipal(p, resource, rule) =>
      p in ps.principals && resource in p.rules && rule in p.rules[resource] && row == PrincipalRow(p, resource, rule)
  }

  lemma OriginOf(ps: Policies, row: Row) returns (o: Origin)
    requires RowOfPolicies(ps, row) && row.action != ""
    ensures Originates(ps, row, o)
  {
    if i :| 0 <= i < |ps.resources| && RowOfResourcePolicy(ps.resources[i], row) {
      var p := ps.resources[i];
      assert p.rules != [];
      var j :| 0 <= j < |p.rules| && RowOfRule(p, p.rules[j], row);
      var rule := p.rules[j];
      if a, r :| a in rule.actions && r in rule.roles && row == RoleRow(p, rule, a, r) {
        o := FromRole(p, rule);
      } else {
        var a, d, r :| a in rule.actions && d in rule.derivedRoles && d in p.derivedRoles
            && r in p.derivedRoles[d].parentRoles && row == DerivedRow(p, rule, a, d, r);
        o := FromDerivedRole(p, rule, d);
      }
    } else {
      var i :| 0 <= i < |ps.principals| && RowOfPrincipalPolicy(ps.principals[i], row);
      var p := ps.principals[i];
      var resource, j :| resource in p.rules && 0 <= j < |p.rules[resource]|
          && row == PrincipalRow(p, resource, p.rules[resource][j]);
      o := FromPrincipal(p, resource, p.rules[resource][j]);
    }
  }

  lemma RowOfOrigin(ps: Policies, row: Row, o: Origin)
    requires Originates(ps, row, o)
    ensures match o
            case FromRole(p, rule) =>
              && row.kind == Resource && row.scope == p.scope
              && row.binding == RoleRow(p, rule, "", "").binding
              && row.binding.key == EvalKey(RESOURCE_PREFIX, p.resource, "", "", "", p.version, p.scope, rule.name, 0)
            case FromDerivedRole(p, rule, d) =>
              && row.kind == Resource && row.scope == p.scope && d in p.derivedRoles
              && row.binding == DerivedRow(p, rule, "", d, "").binding
              && row.binding.key ==
                  EvalKey(DERIVED_ROLES_PREFIX, p.resource, "", "", d, p.version, p.scope, rule.name, 0)
            case FromPrincipal(p, resource, rule) =>
              && row.kind == Principal && row.scope == p.scope
              && row.binding.key ==
                  EvalKey(PRINCIPAL_PREFIX, resource, p.principal, "", "", p.version, p.scope, rule.name, 0)
  {
  }

  lemma PrefixesDiffer()
    ensures RESOURCE_PREFIX != PRINCIPAL_PREFIX && RESOURCE_PREFIX != DERIVED_ROLES_PREFIX
    ensures PRINCIPAL_PREFIX != DERIVED_ROLES_PREFIX
  {
    assert RESOURCE_PREFIX[7] == 'r' && PRINCIPAL_PREFIX[7] == 'p' && DERIVED_ROLES_PREFIX[7] == 'd';
  }

  /** Equal evaluation keys come from the same rule of the same policy, through the
      same derived role if any: same conditions, same scope, same policy kind. */
  lemma EqualKeysEqualConditions(ps: Policies, row: Row, row': Row)
    requires NamesDistinct(ps)
    requires RowOfPolicies(ps, row) && RowOfPolicies(ps, row') && row.action != "" && row'.action != ""
    requires row.binding.key == row'.binding.key
    ensures SameConditions(row.binding, row'.binding) && row.kind == row'.kind && row.scope == row'.scope
  {
    PrefixesDiffer();
    var o := OriginOf(ps, row);
    var o' := OriginOf(ps, row');
    RowOfOrigin(ps, row, o);
    RowOfOrigin(ps, row', o');
    SameOrigin(ps, row, row', o, o');
  }

  lemma SameOrigin(ps: Policies, row: Row, row': Row, o: Origin, o': Origin)
    requires NamesDistinct(ps) && Originates(ps, row, o) && Originates(ps, row', o')
    requires row.binding.key == row'.binding.key
    ensures o == o'
  {
    PrefixesDiffer();
    RowOfOrigin(ps, row, o);
    RowOfOrigin(ps, row', o');
  }

  // ---- caching over compiled tables ------------------------------------------------------

  /** No condition of a principal policy reads the effective derived roles. */
  ghost predicate PrincipalsRuntimeFree(ps: Policies, cel: Cel) {
    forall p, resource, rule | p in ps.principals && resource in p.rules && rule in p.rules[resource] ::
      rule.condition.Some? ==> RuntimeFreeCondition(cel.sem, rule.condition.value)
  }

  /** A table made of resource and principal policies only. */
  ghost predicate CompiledFrom(idx: Index, ps: Policies) {
    && (forall row | row in idx.rows :: RowOfPolicies(ps, row))
    && (forall version, resource, scope, action, roles :: idx.roleDenies(version, resource, scope, action, roles) == [])
  }

  lemma RowAt(idx: Index, q: Request, cel: Cel, permissions: map<string, Permission>,
              derivedRoles: map<string, map<string, DerivedRole>>,
              ps: Policies, kind: Kind, i: nat, b: Binding) returns (row: Row)
    requires CompiledFrom(idx, ps)
    requires At(RequestEnv(idx, q, cel, permissions, derivedRoles), kind, i, b)
    ensures RowOfPolicies(ps, row) && row.action != "" && row.binding == b && row.kind == kind
    ensures i < |RequestEnv(idx, q, cel, permissions, derivedRoles).Scopes(kind)|
    ensures row.scope == RequestEnv(idx, q, cel, permissions, derivedRoles).Scopes(kind)[i]
  {
    hide RequestEnv, RowOfPolicies;
    var e := RequestEnv(idx, q, cel, permissions, derivedRoles);
    var role, action :| b in e.query(kind, role, e.Scopes(kind)[i], action);
    RowOf(idx, q, cel, permissions, derivedRoles, kind, role, e.Scopes(kind)[i], action, b);
    row :| row in idx.rows && row.binding == b && row.kind == kind && row.scope == e.Scopes(kind)[i]
        && row.action != "";
  }

  lemma PrincipalRowRuntimeFree(ps: Policies, e: Env, row: Row)
    requires PrincipalsRuntimeFree(ps, e.cel)
    requires RowOfPolicies(ps, row) && row.action != "" && row.kind == Principal
    ensures RuntimeFreeBinding(e, row.binding)
  {
    var o := OriginOf(ps, row);
    RowOfOrigin(ps, row, o);
  }

  // ---- variables of compiled tables ---------------------------------------------------------

  ghost predicate RoleOfPolicies(ps: Policies, dr: DerivedRole) {
    exists p, n :: p in ps.resources && n in p.derivedRoles && p.derivedRoles[n] == dr
  }

  ghost predicate ParamsOfPolicies(ps: Policies, x: Params) {
    || (exists p :: p in ps.resources && p.params == x)
    || (exists p :: p in ps.principals && p.params == x)
    || (exists dr :: RoleOfPolicies(ps, dr) && dr.params == x)
  }

  /** The content hashes of parameters and of derived roles do not collide. */
  ghost predicate HashesDistinct(ps: Policies) {
    && (forall x, x' | ParamsOfPolicies(ps, x) && ParamsOfPolicies(ps, x') && x.key == x'.key :: x == x')
    && (forall dr, dr' | RoleOfPolicies(ps, dr) && RoleOfPolicies(ps, dr') && dr.varCacheKey == dr'.varCacheKey ::
        dr == dr')
    && (forall x, dr | ParamsOfPolicies(ps, x) && RoleOfPolicies(ps, dr) :: x.key != dr.varCacheKey)
  }

  ghost predicate VariablesRuntimeFree(ps: Policies, cel: Cel) {
    forall x | ParamsOfPolicies(ps, x) :: RuntimeFreeParams(cel.sem, x)
  }

  /** The derived roles that `check` finds by scope for a resource and version. */
  ghost function TableRoles(ps: Policies, resource: string, version: string): map<string, map<string, DerivedRole>>
    requires NamesDistinct(ps)
  {
    map i | 0 <= i < |ps.resources| && ps.resources[i].resource == resource && ps.resources[i].version == version ::
      ps.resources[i].scope := ps.resources[i].derivedRoles
  }

  /** They are those of the policy that is written for the resource, version and scope. */
  lemma TableRolesExactly(ps: Policies, resource: string, version: string, scope: string)
    requires NamesDistinct(ps)
    ensures scope in TableRoles(ps, resource, version) <==>
            exists p | p in ps.resources :: p.resource == resource && p.version == version && p.scope == scope
    ensures forall p | p in ps.resources && p.resource == resource && p.version == version && p.scope == scope ::
              scope in TableRoles(ps, resource, version) && TableRoles(ps, resource, version)[scope] == p.derivedRoles
  {
    hide RuleNamesDistinct, ActionNamesDistinct;
    var roles := TableRoles(ps, resource, version);
    if scope in roles {
      var i :| 0 <= i < |ps.resources| && ps.resources[i].resource == resource && ps.resources[i].version == version
               && ps.resources[i].scope == scope;
      assert ps.resources[i] in ps.resources;
    }
    forall p | p in ps.resources && p.resource == resource && p.version == version && p.scope == scope
      ensures scope in roles && roles[scope] == p.derivedRoles
    {
      var i :| 0 <= i < |ps.resources| && ps.resources[i] == p;
    }
  }

  lemma RowParams(ps: Policies, row: Row)
    requires RowOfPolicies(ps, row) && row.action != ""
    ensures row.binding.params.Some? ==> ParamsOfPolicies(ps, row.binding.params.value)
    ensures row.binding.derivedRoleParams.Some? ==> ParamsOfPolicies(ps, row.binding.derivedRoleParams.value)
  {
    var o := OriginOf(ps, row);
    RowOfOrigin(ps, row, o);
    if o.FromDerivedRole? {
      assert RoleOfPolicies(ps, o.p.derivedRoles[o.derivedRole]);
    }
  }

  lemma ApplicableFromPolicies(ps: Policies, resource: string, version: string, e: Env, dr: DerivedRole)
    requires NamesDistinct(ps) && e.derivedRoles == TableRoles(ps, resource, version) && Applicable(e, dr)
    ensures RoleOfPolicies(ps, dr) && ParamsOfPolicies(ps, dr.params)
  {
    var scope, n :| n in RolesOf(e.derivedRoles, e.rolesAndParents, scope)
        && RolesOf(e.derivedRoles, e.rolesAndParents, scope)[n] == dr;
    var i :| 0 <= i < |ps.resources| && ps.resources[i].scope == scope
        && e.derivedRoles[scope] == ps.resources[i].derivedRoles;
    assert ps.resources[i] in ps.resources;
  }

  lemma RuleParamsFromPolicies(idx: Index, q: Request, cel: Cel, permissions: map<string, Permission>,
                               derivedRoles: map<string, map<string, DerivedRole>>,
                               ps: Policies, x: Params)
    requires CompiledFrom(idx, ps) && RuleParams(RequestEnv(idx, q, cel, permissions, derivedRoles), x)
    ensures ParamsOfPolicies(ps, x)
  {
    hide RequestEnv, CompiledFrom, RowOfPolicies, At, ParamsOfPolicies;
    var e := RequestEnv(idx, q, cel, permissions, derivedRoles);
    var kind, i, b :| At(e, kind, i, b) && (b.params == Some(x) || b.derivedRoleParams == Some(x));
    var row := RowAt(idx, q, cel, permissions, derivedRoles, ps, kind, i, b);
    RowParams(ps, row);
  }

  lemma CompiledVariableKeys(idx: Index, q: Request, cel: Cel, permissions: map<string, Permission>, resource: string,
                             ps: Policies)
    requires NamesDistinct(ps) && CompiledFrom(idx, ps) && HashesDistinct(ps) && VariablesRuntimeFree(ps, cel)
    ensures VarKeysSound(RequestEnv(idx, q, cel, permissions, TableRoles(ps, resource, q.resourceVersion)))
  {
    var roles := TableRoles(ps, resource, q.resourceVersion);
    var e := RequestEnv(idx, q, cel, permissions, roles);
    assert e.derivedRoles == roles && e.cel == cel;
    hide RequestEnv, TableRoles, NamesDistinct, CompiledFrom, ParamsOfPolicies, RoleOfPolicies, RuleParams, Applicable,
        RuntimeFreeParams;
    forall x | RuleParams(e, x) ensures ParamsOfPolicies(ps, x) {
      RuleParamsFromPolicies(idx, q, cel, permissions, roles, ps, x);
    }
    forall dr | Applicable(e, dr) ensures RoleOfPolicies(ps, dr) && ParamsOfPolicies(ps, dr.params) {
      ApplicableFromPolicies(ps, resource, q.resourceVersion, e, dr);
    }
  }

  lemma CompiledPrincipalsBlind(idx: Index, q: Request, cel: Cel, permissions: map<string, Permission>,
                                derivedRoles: map<string, map<string, DerivedRole>>, ps: Policies)
    requires CompiledFrom(idx, ps) && PrincipalsRuntimeFree(ps, cel)
    ensures PrincipalsBlind(RequestEnv(idx, q, cel, permissions, derivedRoles))
  {
    var e := RequestEnv(idx, q, cel, permissions, derivedRoles);
    assert e.cel == cel;
    hide At, RequestEnv, RowOfPolicies, CompiledFrom, RuntimeFreeBinding, PrincipalsRuntimeFree;
    forall i, b | At(e, Principal, i, b) ensures RuntimeFreeBinding(e, b) {
      var row := RowAt(idx, q, cel, permissions, derivedRoles, ps, Principal, i, b);
      PrincipalRowRuntimeFree(ps, e, row);
    }
  }

  lemma CompiledKeysSound(idx: Index, q: Request, cel: Cel, permissions: map<string, Permission>,
                          derivedRoles: map<string, map<string, DerivedRole>>, ps: Policies)
    requires NamesDistinct(ps) && CompiledFrom(idx, ps) && NoRepeats(q.principalScopes) && NoRepeats(q.resourceScopes)
    ensures EvalKeysSound(RequestEnv(idx, q, cel, permissions, derivedRoles))
  {
    var e := RequestEnv(idx, q, cel, permissions, derivedRoles);
    assert NoRepeats(e.principalScopes) && NoRepeats(e.resourceScopes);
    hide At, RequestEnv, RowOfPolicies, NamesDistinct, CompiledFrom, RuntimeFreeBinding;
    forall kind, i, b, kind', i', b' | At(e, kind, i, b) && At(e, kind', i', b') && b.key == b'.key
      ensures SameConditions(b, b') && kind == kind' && i == i'
    {
      var row := RowAt(idx, q, cel, permissions, derivedRoles, ps, kind, i, b);
      var row' := RowAt(idx, q, cel, permissions, derivedRoles, ps, kind', i', b');
      EqualKeysEqualConditions(ps, row, row');
    }
  }

  /** For tables compiled from resource and principal policies with distinct rule
      names, with the derived roles of those policies, where no variable and no
      principal condition reads the effective derived roles and content hashes do not
      collide, all caches of `check` are transparent. */
  lemma CompiledTablesAreTransparent(idx: Index, q: Request, cel: Cel, permissions: map<string, Permission>,
                                     resource: string, ps: Policies)
    requires NamesDistinct(ps) && CompiledFrom(idx, ps) && HashesDistinct(ps)
    requires PrincipalsRuntimeFree(ps, cel) && VariablesRuntimeFree(ps, cel)
    requires NoRepeats(q.principalScopes) && NoRepeats(q.resourceScopes)
    ensures var e := RequestEnv(idx, q, cel, permissions, TableRoles(ps, resource, q.resourceVersion));
            Transparent(e) && PrincipalsBlind(e) && e.leftover == NO_ROLES
  {
    var derivedRoles := TableRoles(ps, resource, q.resourceVersion);
    var e := RequestEnv(idx, q, cel, permissions, derivedRoles);
    assert NoRepeats(e.resourceScopes) && e.leftover == NO_ROLES;
    hide VarKeysSound, EvalKeysSound, RequestEnv, NamesDistinct, CompiledFrom, PrincipalsRuntimeFree, PrincipalsBlind,
        TableRoles,
      HashesDistinct, VariablesRuntimeFree;
    CompiledKeysSound(idx, q, cel, permissions, derivedRoles, ps);
    CompiledVariableKeys(idx, q, cel, permissions, resource, ps);
    CompiledPrincipalsBlind(idx, q, cel, permissions, derivedRoles, ps);
  }
}
