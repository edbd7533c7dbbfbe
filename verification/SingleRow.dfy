/** Requests whose only row is one conditional ALLOW of a resource policy: what `check`
    decides and what is planned for them. They show that the conditions of the consent,
    plan and strict-mode laws are needed, for every request. */
module SingleRow {
  import opened Common
  import opened Conditions
  import opened Check
  import opened Runtimes
  import opened PlanNodes
  import opened Plan
  import opened PlanCheck

  function If(effect: Effect, src: string): Binding {
    Binding(effect, Some(Expr(src)), None, None, None, false, NO_KEY)
  }

  /** The same request against a table with one row, in a resource scope and for every
      role and action. */
  function OnlyRow(e: Env, scope: string, b: Binding): Env {
    e.(query := (kind, role, s, action) => if kind == Resource && s == scope then [b] else [])
  }

  /** The i-th resource scope has the row b for the action and there is no other row. */
  ghost predicate HasOnly(e: Env, action: string, i: nat, b: Binding) {
    && i < |e.resourceScopes|
    && (forall role, j | 0 <= j < |e.resourceScopes| ::
        e.query(Resource, role, e.resourceScopes[j], action) == if j == i then [b] else [])
    && (forall role, scope :: e.query(Principal, role, scope, action) == [])
  }

  lemma OnlyRowHasOnly(e: Env, i: nat, b: Binding, action: string)
    requires NoRepeats(e.resourceScopes) && i < |e.resourceScopes|
    ensures HasOnly(OnlyRow(e, e.resourceScopes[i], b), action, i, b)
  {
  }

  // ---- check --------------------------------------------------------------------------------

  lemma {:induction false} Behind(e: Env, role: string, action: string, i: nat, b: Binding, j: nat)
    requires HasOnly(e, action, i, b) && i < j <= |e.resourceScopes|
    ensures ChainVerdict(e, Resource, role, action, j, false) != VAllow
    decreases |e.resourceScopes| - j
  {
    if j < |e.resourceScopes| {
      Behind(e, role, action, i, b, j + 1);
    }
  }

  lemma {:induction false} InFront(e: Env, role: string, action: string, i: nat, b: Binding, j: nat)
    requires HasOnly(e, action, i, b) && j <= i
    ensures RuntimeAt(e, i).Ok? ==>
            ChainVerdict(e, Resource, role, action, j, false) == ChainVerdict(e, Resource, role, action, i, false)
    ensures RuntimeAt(e, i).Error? ==> ChainVerdict(e, Resource, role, action, j, false) == VError
    decreases i - j
  {
    hide RuntimeOf;
    if j < i {
      InFront(e, role, action, i, b, j + 1);
      RuntimesInFront(e, i, j);
    }
  }

  /** A runtime object needs those in front of it. */
  lemma {:induction false} RuntimesInFront(e: Env, i: nat, j: nat)
    requires j <= i < |e.resourceScopes|
    ensures RuntimeAt(e, i).Ok? ==> RuntimeAt(e, j).Ok?
  {
    hide RuntimeOf;
    if j < i {
      RuntimesInFront(e, i - 1, j);
    }
  }

  lemma RowDecidesRole(e: Env, role: string, action: string, i: nat, b: Binding)
    requires HasOnly(e, action, i, b) && b.effect == Allow && e.Permission(e.resourceScopes[i]) == Some(OverrideParent)
    ensures RoleVerdict(e, Resource, role, action) == VAllow <==>
            RuntimeAt(e, i).Ok? && Evaluate(e.cel, b, RuntimeAt(e, i).value) == Sat
  {
    hide RuntimeAt, Evaluate;
    InFront(e, role, action, i, b, 0);
    Behind(e, role, action, i, b, i + 1);
    if RuntimeAt(e, i).Ok? {
      assert [b][1..] == [];
      assert e.query(Resource, role, e.resourceScopes[i], action) == [b];
      var rt := RuntimeAt(e, i).value;
      assert ScanBindings(e.cel, [b], rt, false) ==
             match Evaluate(e.cel, b, rt) case Sat => Scanned(true) case Unsat => Scanned(false) case Reject =>
                 Rejected case Abort => Aborted;
    }
  }

  lemma {:induction false} NoRoleAllows(e: Env, roles: seq<string>, action: string, soFar: Verdict)
    requires soFar != VAllow && forall r :: RoleVerdict(e, Resource, r, action) != VAllow
    ensures RolesVerdict(e, roles, action, soFar) != VAllow
  {
    hide RoleVerdict;
    if roles != [] {
      var v := RoleVerdict(e, Resource, roles[0], action);
      NoRoleAllows(e, roles[1..], action, if soFar == VNoMatch then v else soFar);
    }
  }

  lemma {:induction false} NoPrincipalRows(e: Env, role: string, action: string, j: nat)
    requires (forall scope :: e.query(Principal, role, scope, action) == []) && j <= |e.principalScopes|
    ensures ChainVerdict(e, Principal, role, action, j, false) == VNoMatch
    decreases |e.principalScopes| - j
  {
    if j < |e.principalScopes| {
      NoPrincipalRows(e, role, action, j + 1);
    }
  }

  /** The row alone decides: ALLOW exactly when it is satisfied under the runtime object
      of its scope. */
  lemma RowDecides(e: Env, action: string, i: nat, b: Binding)
    requires HasOnly(e, action, i, b) && b.effect == Allow
    requires e.Permission(e.resourceScopes[i]) == Some(OverrideParent) && e.roles != []
    ensures Conclusion(e, action) == VAllow <==> RuntimeAt(e, i).Ok? && Evaluate(e.cel, b, RuntimeAt(e, i).value) == Sat
  {
    forall r ensures RoleVerdict(e, Resource, r, action) == VAllow <==>
        RuntimeAt(e, i).Ok? && Evaluate(e.cel, b, RuntimeAt(e, i).value) == Sat {
      RowDecidesRole(e, r, action, i, b);
    }
    NoPrincipalRows(e, e.roles[0], action, 0);
    assert KindVerdict(e, Principal, action) == VNoMatch;
    hide RoleVerdict, RuntimeAt, Evaluate, HasOnly;
    if !(RuntimeAt(e, i).Ok? && Evaluate(e.cel, b, RuntimeAt(e, i).value) == Sat) {
      NoRoleAllows(e, e.roles, action, VNoMatch);
    }
  }

  lemma IfHolds(g: Cel, src: string, rt: Runtime)
    ensures Evaluate(g, If(Allow, src), rt) == Sat <==> g.sem(src, map[], map[], rt) == Val(Bool(true))
  {
  }

  // ---- plan ----------------------------------------------------------------------------------

  lemma {:induction false} NothingToFold(e: Env, res: Residual, kind: Kind, role: string, action: string, j: nat,
                                         k: nat, st: RoleState)
    requires j <= k <= |e.Scopes(kind)| && forall h | j <= h < k :: e.query(kind, role, e.Scopes(kind)[h], action) == []
    requires !IsConst(st.childOverrideAllow, true) || k == |e.Scopes(kind)|
    ensures FoldScopes(e, res, kind, role, action, j, st) == FoldScopes(e, res, kind, role, action, k, st)
    decreases k - j
  {
    if j < k && !IsConst(st.childOverrideAllow, true) {
      assert NodesAt(e, res, kind, role, action, j) == NO_NODES;
      assert StepScope(st, NO_NODES, e.Permission(e.Scopes(kind)[j])) == st;
      NothingToFold(e, res, kind, role, action, j + 1, k, st);
    }
  }

  lemma RoleOfOnlyRow(e: Env, res: Residual, role: string, action: string, i: nat, b: Binding)
    requires HasOnly(e, action, i, b) && b.effect == Allow && e.Permission(e.resourceScopes[i]) == Some(OverrideParent)
    ensures var n := BindingNode(res, ListFor(e, res, Resource, e.resourceScopes[i]), b);
            NodesOfRole(e, res, Resource, role, action) == RoleNodes(Some(n), None, n == Const(true))
  {
    var n := BindingNode(res, ListFor(e, res, Resource, e.resourceScopes[i]), b);
    NothingToFold(e, res, Resource, role, action, 0, i, START);
    assert [b][1..] == [];
    assert e.query(Resource, role, e.resourceScopes[i], action) == [b];
    assert NodesAt(e, res, Resource, role, action, i) == ScopeNodes(Some(n), None, None) by {
      hide BindingNode, ListFor;
      assert AddBindings(res, ListFor(e, res, Resource, e.resourceScopes[i]), [b], NO_NODES) ==
          AddBinding(NO_NODES, b, n);
    }
    hide BindingNode, NodesAt;
    var st := RoleState(Some(n), None, None, false, Some(n));
    assert StepScope(START, ScopeNodes(Some(n), None, None), Some(OverrideParent)) == st;
    NothingToFold(e, res, Resource, role, action, i + 1, |e.resourceScopes|, st);
    assert FoldScopes(e, res, Resource, role, action, 0, START) == st;
    hide FoldScopes;
  }

  lemma SameNode(n: Node)
    ensures AddNode(Some(n), Some(n)) == Some(n)
  {
    var ns := [n, n];
    assert ns[..1] == [n] && [n][..0] == [];
    assert Dedup([n]) == [n];
    assert Dedup(ns) == [n];
  }

  lemma {:induction false} RolesOfOnlyRow(e: Env, res: Residual, roles: seq<string>, action: string, n: Node,
                                          acc: KindNodes)
    requires forall r :: NodesOfRole(e, res, Resource, r, action) == RoleNodes(Some(n), None, n == Const(true))
    requires acc == KindNodes(Some(n), None) || (acc == KindNodes(None, None) && roles != [])
    ensures FoldRoles(e, res, Resource, roles, action, acc) == KindNodes(Some(n), None)
  {
    hide NodesOfRole;
    SameNode(n);
    if roles != [] && n != Const(true) {
      assert NodesOfRole(e, res, Resource, roles[0], action) == RoleNodes(Some(n), None, false);
      RolesOfOnlyRow(e, res, roles[1..], action, n, KindNodes(Some(n), None));
    }
  }

  lemma NoPrincipalNodes(e: Env, res: Residual, action: string)
    requires forall role, scope :: e.query(Principal, role, scope, action) == []
    ensures NodesOfKind(e, res, Principal, action) == KindNodes(None, None)
  {
    if e.roles != [] {
      NothingToFold(e, res, Principal, e.roles[0], action, 0, |e.principalScopes|, START);
      assert RolesFor(e, Principal) == [e.roles[0]];
      SingleRole(e, res, Principal, e.roles[0], action);
    }
  }

  /** What is planned is the condition of the row, under the list of its scope. */
  lemma RowIsPlanned(e: Env, res: Residual, action: string, i: nat, b: Binding)
    requires HasOnly(e, action, i, b) && b.effect == Allow
    requires e.Permission(e.resourceScopes[i]) == Some(OverrideParent) && e.roles != []
    ensures PlanNode(e, res, action) == BindingNode(res, ListFor(e, res, Resource, e.resourceScopes[i]), b)
  {
    hide BindingNode, ListFor;
    var n := BindingNode(res, ListFor(e, res, Resource, e.resourceScopes[i]), b);
    forall r ensures NodesOfRole(e, res, Resource, r, action) == RoleNodes(Some(n), None, n == Const(true)) {
      RoleOfOnlyRow(e, res, r, action, i, b);
    }
    hide NodesOfRole;
    RolesOfOnlyRow(e, res, e.roles, action, n, KindNodes(None, None));
    NoPrincipalNodes(e, res, action);
  }
}
