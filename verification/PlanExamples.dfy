/** Small tables on which the query plan and `check` differ: rows with one expression
    each, over a resource of which the planner knows nothing. */
module PlanExamples {
  import opened Common
  import opened Conditions
  import opened Check
  import opened Runtimes
  import opened PlanNodes
  import opened Plan
  import opened PlanCheck
  import opened PlanConsent
  import opened SingleRow

  /** Expressions that hold or do not hold of the resource. */
  function Facts(holds: set<string>): Semantics {
    (src, constants, vars, rt) => Val(Bool(src in holds))
  }

  /** No expression is known to the planner. */
  function Unknown(list: RoleList, p: Option<Params>, src: string): Node {
    Atom(if src == "p" then 0 else 1)
  }

  function FactsValuation(holds: set<string>): Valuation {
    (id: nat) => (if id == 0 then "p" else "q") in holds
  }

  /** A request against a table without derived roles. */
  function Plain(holds: set<string>, roles: seq<string>, scopes: seq<string>, permissions: map<string, Permission>,
                 query: (Kind, string, string, string) -> seq<Binding>): Env {
    Env(Cel(Facts(holds), false), scopes, scopes, roles, {}, query, permissions, map[], true, NO_ROLES)
  }

  /** Every row allows or denies if "p" or "q" holds, and every scope has recorded
      permissions. */
  ghost predicate PlainRows(e: Env, action: string) {
    && (forall scope | scope in e.principalScopes || scope in e.resourceScopes :: scope in e.permissions)
    && forall kind: Kind, role, scope, b | b in e.query(kind, role, scope, action) ::
         b == If(b.effect, "p") || b == If(b.effect, "q")
  }

  lemma PlainUnchained(e: Env)
    requires e.derivedRoles == map[] && e.leftover == NO_ROLES
    ensures Unchained(e)
  {
    forall i | 0 <= i < |e.resourceScopes| ensures RuntimeAt(e, i) == OwnRuntime(e, e.resourceScopes[i]) {
      NoDerivedRoles(e, i);
      NoRoles(e.cel, NO_ROLES);
      assert RolesOf(e.derivedRoles, e.rolesAndParents, e.resourceScopes[i]) == map[];
    }
  }

  lemma PlainValuates(holds: set<string>, roles: seq<string>, scopes: seq<string>, permissions: map<string, Permission>,
                      query: (Kind, string, string, string) -> seq<Binding>, action: string)
    requires PlainRows(Plain(holds, roles, scopes, permissions, query), action)
    ensures var e := Plain(holds, roles, scopes, permissions, query);
            Valuates(e, Unknown, FactsValuation(holds), action) && Unchained(e) && WellFormed(e, action)
  {
    var e := Plain(holds, roles, scopes, permissions, query);
    PlainUnchained(e);
    forall kind: Kind, role: string, i: nat, b: Binding | role in e.roles && i < |e.Scopes(kind)|
        && b in e.query(kind, role, e.Scopes(kind)[i], action)
      ensures BindingAgrees(e.cel, Unknown, FactsValuation(holds), ListFor(e, Unknown, kind, e.Scopes(kind)[i]), b)
    {
      var src := if b == If(b.effect, "p") then "p" else "q";
      assert b == If(b.effect, src);
    }
    hide BindingAgrees, If;
  }

  /** The node of a scope with one row. */
  lemma RowNode(e: Env, kind: Kind, role: string, action: string, i: nat, effect: Effect, src: string)
    requires i < |e.Scopes(kind)| && e.query(kind, role, e.Scopes(kind)[i], action) == [If(effect, src)]
    requires effect != NoEffect
    ensures var n := Some(Unknown(map[], None, src));
            NodesAt(e, Unknown, kind, role, action, i) ==
                if effect == Allow then ScopeNodes(n, None, None) else ScopeNodes(None, n, None)
  {
    var b, list := If(effect, src), ListFor(e, Unknown, kind, e.Scopes(kind)[i]);
    assert BindingNode(Unknown, list, b) == Unknown(map[], None, src);
    assert [b][1..] == [];
    assert AddBindings(Unknown, list, [], AddBinding(NO_NODES, b, BindingNode(Unknown, list, b))) ==
        AddBinding(NO_NODES, b, BindingNode(Unknown, list, b));
  }

  /** The nodes of a role in a chain of one scope with one row. */
  lemma RoleOfRow(e: Env, kind: Kind, role: string, action: string, effect: Effect, src: string)
    requires |e.Scopes(kind)| == 1 && e.query(kind, role, e.Scopes(kind)[0], action) == [If(effect, src)]
    requires effect != NoEffect
    requires e.Permission(e.Scopes(kind)[0]) == Some(OverrideParent)
    ensures var n := Some(Unknown(map[], None, src));
            NodesOfRole(e, Unknown, kind, role, action) ==
                if effect == Allow then RoleNodes(n, None, false) else RoleNodes(None, n, false)
  {
    RowNode(e, kind, role, action, 0, effect, src);
    hide NodesAt;
    var st := StepScope(START, NodesAt(e, Unknown, kind, role, action, 0), Some(OverrideParent));
    assert FoldScopes(e, Unknown, kind, role, action, 0, START) ==
        FoldScopes(e, Unknown, kind, role, action, 1, st) == st;
  }

  // ---- a bare deny -----------------------------------------------------------------------

  /** The principal's policy allows if p; the resource's policy only denies, if q. */
  function BareDenyEnv(): Env {
    Plain({}, ["user"], [""], map["" := OverrideParent],
          (kind, role, scope, action) => [if kind == Principal then If(Allow, "p") else If(Deny, "q")])
  }

  lemma BareDenyPlain()
    ensures Valuates(BareDenyEnv(), Unknown, FactsValuation({}), "view") && Unchained(BareDenyEnv())
    ensures WellFormed(BareDenyEnv(), "view")
    ensures NoConsent(BareDenyEnv(), Principal) && NoConsent(BareDenyEnv(), Resource)
  {
    var e := BareDenyEnv();
    hide Valuates, Unchained, WellFormed;
    PlainValuates({}, ["user"], [""], e.permissions, e.query, "view");
  }

  /** A plan can let through a resource that `check` denies: one of which neither
      expression holds. */
  lemma BareDenyAllows()
    ensures BareDeny(BareDenyEnv(), Unknown, "view")
    ensures Eval(FactsValuation({}), PlanNode(BareDenyEnv(), Unknown, "view"))
    ensures Decide(BareDenyEnv(), "view") != Ok(Allow)
  {
    var e := BareDenyEnv();
    BareDenyPlain();
    RoleOfRow(e, Principal, "user", "view", Allow, "p");
    RoleOfRow(e, Resource, "user", "view", Deny, "q");
    assert RolesFor(e, Principal) == ["user"];
    SingleRole(e, Unknown, Principal, "user", "view");
    SingleRole(e, Unknown, Resource, "user", "view");
    hide NodesOfRole, FoldRoles, Valuates, Unchained, WellFormed, PlanNode, Decide, NoConsent;
    PlanUnsoundExactly(e, Unknown, FactsValuation({}), "view");
  }

  // ---- two roles ---------------------------------------------------------------------------

  /** The role a is denied if p, the role b allowed if q. */
  function TwoRolesEnv(): Env {
    Plain({"p", "q"}, ["a", "b"], [""], map["" := OverrideParent],
          (kind, role, scope, action) => if kind == Principal then []
              else [if role == "a" then If(Deny, "p") else If(Allow, "q")])
  }

  lemma TwoRolesPlain()
    ensures Valuates(TwoRolesEnv(), Unknown, FactsValuation({"p", "q"}), "view") && Unchained(TwoRolesEnv())
    ensures WellFormed(TwoRolesEnv(), "view")
    ensures NoConsent(TwoRolesEnv(), Principal) && NoConsent(TwoRolesEnv(), Resource)
  {
    var e := TwoRolesEnv();
    hide Valuates, Unchained, WellFormed;
    forall kind: Kind, role, scope, b | b in e.query(kind, role, scope, "view")
        ensures b == If(b.effect, "p") || b == If(b.effect, "q") {
      assert e.query(kind, role, scope, "view") ==
          if kind == Principal then [] else [if role == "a" then If(Deny, "p") else If(Allow, "q")];
    }
    PlainValuates({"p", "q"}, ["a", "b"], [""], e.permissions, e.query, "view");
  }

  lemma TwoRolesNodes()
    ensures NodesOfKind(TwoRolesEnv(), Unknown, Resource, "view") == KindNodes(Some(Atom(1)), Some(Atom(0)))
  {
    var e := TwoRolesEnv();
    RoleOfRow(e, Resource, "a", "view", Deny, "p");
    RoleOfRow(e, Resource, "b", "view", Allow, "q");
    hide NodesOfRole;
    assert ["a", "b"][1..] == ["b"] && ["b"][1..] == [];
    var k := KindNodes(Some(Atom(1)), Some(Atom(0)));
    assert FoldRoles(e, Unknown, Resource, [], "view", k) == k;
    assert FoldRoles(e, Unknown, Resource, ["b"], "view", KindNodes(None, Some(Atom(0)))) == k;
  }

  lemma OneRowScan(g: Cel, src: string, rt: Runtime)
    requires Evaluate(g, If(Allow, src), rt) == Sat
    ensures ScanBindings(g, [If(Allow, src)], rt, false) == Scanned(true)
  {
    hide Evaluate;
    assert [If(Allow, src)][1..] == [];
    assert ScanBindings(g, [], rt, true) == Scanned(true);
  }

  lemma TwoRolesVerdicts()
    ensures KindVerdict(TwoRolesEnv(), Principal, "view") == VNoMatch
    ensures RoleVerdict(TwoRolesEnv(), Resource, "b", "view") == VAllow
  {
    var e := TwoRolesEnv();
    NoDerivedRoles(e, 0);
    IfHolds(e.cel, "q", NO_ROLES);
    hide Evaluate;
    OneRowScan(e.cel, "q", NO_ROLES);
  }

  /** The denial of one role hides a resource that another role is allowed to use. */
  lemma RoleDenialHides()
    ensures Decide(TwoRolesEnv(), "view") == Ok(Allow)
    ensures !Eval(FactsValuation({"p", "q"}), PlanNode(TwoRolesEnv(), Unknown, "view"))
  {
    var e := TwoRolesEnv();
    TwoRolesPlain();
    TwoRolesNodes();
    TwoRolesVerdicts();
    hide NodesOfKind, Valuates, Unchained, WellFormed, PlanNode, Decide, NoConsent, KindVerdict, RoleVerdict;
    assert "b" in e.roles;
    PlanMissesExactly(e, Unknown, FactsValuation({"p", "q"}), "view");
  }

  // ---- parental consent --------------------------------------------------------------------

  /** The scope "a" overrides its parent and allows if p; the root requires consent and
      allows if q. */
  function ConsentEnv(): Env {
    Plain({"p"}, ["user"], ["a", ""], map["a" := OverrideParent, "" := RequireParentalConsent],
          (kind, role, scope, action) => if kind == Principal then []
              else [if scope == "a" then If(Allow, "p") else If(Allow, "q")])
  }

  lemma ConsentPlain()
    ensures Valuates(ConsentEnv(), Unknown, FactsValuation({"p"}), "view") && Unchained(ConsentEnv())
    ensures WellFormed(ConsentEnv(), "view")
  {
    var e := ConsentEnv();
    hide Valuates, Unchained, WellFormed;
    forall kind: Kind, role, scope, b | b in e.query(kind, role, scope, "view")
        ensures b == If(b.effect, "p") || b == If(b.effect, "q") {
      assert e.query(kind, role, scope, "view") ==
          if kind == Principal then [] else [if scope == "a" then If(Allow, "p") else If(Allow, "q")];
    }
    PlainValuates({"p"}, ["user"], ["a", ""], e.permissions, e.query, "view");
  }

  /** The plan waits for a consent that `check` does not ask for. */
  lemma ConsentHides()
    ensures Decide(ConsentEnv(), "view") == Ok(Allow)
    ensures !Eval(FactsValuation({"p"}), PlanNode(ConsentEnv(), Unknown, "view"))
  {
    var e := ConsentEnv();
    ConsentPlain();
    ConsentVerdicts();
    ConsentNotKept();
    ConsentNodes();
    hide NodesOfKind, Valuates, Unchained, WellFormed, PlanNode, Decide, KindVerdict, RoleVerdict, AllowKept;
    assert "user" in e.roles;
    PlanMissesWithConsent(e, Unknown, FactsValuation({"p"}), "view");
  }

  lemma ConsentVerdicts()
    ensures KindVerdict(ConsentEnv(), Principal, "view") == VNoMatch
    ensures RoleVerdict(ConsentEnv(), Resource, "user", "view") == VAllow
  {
    var e := ConsentEnv();
    NoDerivedRoles(e, 0);
    IfHolds(e.cel, "p", NO_ROLES);
    OneRowScan(e.cel, "p", NO_ROLES);
    hide Evaluate;
    assert ChainVerdict(e, Principal, "user", "view", 2, false) == VNoMatch;
    assert ChainVerdict(e, Principal, "user", "view", 1, false) == VNoMatch;
  }

  lemma ConsentNotKept()
    ensures !AllowKept(ConsentEnv(), Unknown, Resource, "user", "view")
  {
    var e := ConsentEnv();
    RowNode(e, Resource, "user", "view", 0, Allow, "p");
    RowNode(e, Resource, "user", "view", 1, Allow, "q");
    hide NodesAt;
    var st := StepScope(START, NodesAt(e, Unknown, Resource, "user", "view", 0), Some(OverrideParent));
    var st' := StepScope(st, NodesAt(e, Unknown, Resource, "user", "view", 1), Some(RequireParentalConsent));
    assert Walked(e, Unknown, Resource, "user", "view", 0, START) == Walked(e, Unknown, Resource, "user", "view", 1, st)
        == Walked(e, Unknown, Resource, "user", "view", 2, st') == 2;
    assert If(Allow, "q") in e.query(Resource, "user", e.resourceScopes[1], "view");
    assert Offers(e, Resource, "user", "view", 1) && AsksParent(e, Resource, 1);
  }

  lemma ConsentNodes()
    ensures NodesOfKind(ConsentEnv(), Unknown, Resource, "view") == KindNodes(None, None)
  {
    var e := ConsentEnv();
    RowNode(e, Resource, "user", "view", 0, Allow, "p");
    RowNode(e, Resource, "user", "view", 1, Allow, "q");
    hide NodesAt;
    var st := StepScope(START, NodesAt(e, Unknown, Resource, "user", "view", 0), Some(OverrideParent));
    var st' := StepScope(st, NodesAt(e, Unknown, Resource, "user", "view", 1), Some(RequireParentalConsent));
    assert FoldScopes(e, Unknown, Resource, "user", "view", 0, START) ==
        FoldScopes(e, Unknown, Resource, "user", "view", 1, st)
        == FoldScopes(e, Unknown, Resource, "user", "view", 2, st') == st';
    SingleRole(e, Unknown, Resource, "user", "view");
  }
}
