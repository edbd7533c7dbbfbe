/** The query planner of internal/ruletable/plan.go: the decision procedure run
    symbolically, over a resource that is not known yet. A nil node is None. */
module Plan {
  import opened Common
  import opened Conditions
  import opened Check
  import opened PlanNodes

  /** The derived roles that an expression can see, each with the node of its
      condition. */
  type RoleList = map<string, Node>

  /** What is left of an expression when the known part of the request, the list of
      derived roles and the variables it is read under are filled in. */
  type Residual = (RoleList, Option<Params>, string) -> Node

  // ---- bindings of one scope -----------------------------------------------------

  function OptConditionNode(res: Residual, list: RoleList, p: Option<Params>, c: Option<Condition>): Node {
    if c.None? then Const(true) else ConditionNode(src => res(list, p, src), c.value)
  }

  function BindingNode(res: Residual, list: RoleList, b: Binding): Node {
    var node := OptConditionNode(res, list, b.params, b.condition);
    if b.derivedRoleCondition.None? then node
    else
      var drNode := OptConditionNode(res, list, b.derivedRoleParams, b.derivedRoleCondition);
      if b.condition.None? then drNode else And([node, drNode])
  }

  datatype ScopeNodes = ScopeNodes(allow: Option<Node>, deny: Option<Node>, denyRolePolicy: Option<Node>)

  const NO_NODES: ScopeNodes := ScopeNodes(None, None, None)

  function AddBinding(acc: ScopeNodes, b: Binding, n: Node): ScopeNodes {
    match b.effect
    case Allow => acc.(allow := AddNode(acc.allow, Some(n)))
    case Deny =>
      if n == Const(false) then acc
      else if b.fromRolePolicy then acc.(denyRolePolicy := AddNode(acc.denyRolePolicy, Some(n)))
      else acc.(deny := AddNode(acc.deny, Some(n)))
    case NoEffect => acc
  }

  function AddBindings(res: Residual, list: RoleList, bs: seq<Binding>, acc: ScopeNodes): ScopeNodes {
    if bs == [] then acc
    else AddBindings(res, list, bs[1..], AddBinding(acc, bs[0], BindingNode(res, list, bs[0])))
  }

  // ---- scopes of one role ----------------------------------------------------------

  datatype RoleState = RoleState(allow: Option<Node>, deny: Option<Node>, denyRolePolicy: Option<Node>,
                                 pendingAllow: bool, childOverrideAllow: Option<Node>)

  const START: RoleState := RoleState(None, None, None, false, None)

  /** A parent DENY fires only where no child OVERRIDE_PARENT scope has allowed. */
  function GateByChildOverrideAllow(childOverrideAllow: Option<Node>, deny: Option<Node>): Option<Node> {
    if deny.None? || childOverrideAllow.None? then deny
    else
      var inv := Invert(childOverrideAllow.value);
      if IsConst(deny, true) then Some(inv) else MkAnd([inv, deny.value])
  }

  function StepScope(st: RoleState, s: ScopeNodes, permission: Option<Permission>): RoleState {
    var deny := AddNode(st.deny, GateByChildOverrideAllow(st.childOverrideAllow, s.deny));
    var denyRolePolicy := AddNode(st.denyRolePolicy, GateByChildOverrideAllow(st.childOverrideAllow, s.denyRolePolicy));
    if s.allow.None? then st.(deny := deny, denyRolePolicy := denyRolePolicy)
    else
      var consent := permission == Some(RequireParentalConsent);
      var joined := st.allow.Some? && st.pendingAllow;
      RoleState(
        if st.allow.None? then s.allow
        else if joined then MkAnd([st.allow.value, s.allow.value])
        else MkOr([st.allow.value, s.allow.value]),
        deny,
        denyRolePolicy,
        consent || (st.pendingAllow && !joined),
        if permission == Some(OverrideParent) then AddNode(st.childOverrideAllow, s.allow) else st.childOverrideAllow)
  }

  /** The node of a derived role's condition, which itself sees no derived roles. */
  function RoleNode(res: Residual, dr: DerivedRole): Node {
    OptConditionNode(res, map[], Some(dr.params), dr.condition)
  }

  /** The derived roles that the conditions of a scope see: none in principal
      policies, else those of the scope that the principal's roles can activate. */
  function ListFor(e: Env, res: Residual, kind: Kind, scope: string): RoleList {
    if kind == Principal then map[]
    else
      var drs := RolesOf(e.derivedRoles, e.rolesAndParents, scope);
      map n | n in drs :: RoleNode(res, drs[n])
  }

  function NodesAt(e: Env, res: Residual, kind: Kind, role: string, action: string, i: nat): ScopeNodes
    requires i < |e.Scopes(kind)|
  {
    var scope := e.Scopes(kind)[i];
    AddBindings(res, ListFor(e, res, kind, scope), e.query(kind, role, scope, action), NO_NODES)
  }

  /** Scopes from the i-th outwards; an unconditional ALLOW of an OVERRIDE_PARENT
      scope ends the walk. */
  function FoldScopes(e: Env, res: Residual, kind: Kind, role: string, action: string, i: nat, st: RoleState): RoleState
    requires i <= |e.Scopes(kind)|
    decreases |e.Scopes(kind)| - i
  {
    if i == |e.Scopes(kind)| || IsConst(st.childOverrideAllow, true) then st
    else
      FoldScopes(e, res, kind, role, action, i + 1,
                 StepScope(st, NodesAt(e, res, kind, role, action, i), e.Permission(e.Scopes(kind)[i])))
  }

  // ---- roles of one policy kind ------------------------------------------------------

  /** `settled` marks an unconditional ALLOW that ends the loop over roles. */
  datatype RoleNodes = RoleNodes(allow: Option<Node>, deny: Option<Node>, settled: bool)

  function FinishRole(kind: Kind, st: RoleState): RoleNodes {
    var allow := if st.pendingAllow then None else st.allow;
    var constTrue := IsConst(st.deny, true) || IsConst(st.denyRolePolicy, true);
    if constTrue && kind == Resource then RoleNodes(Some(Const(false)), None, false)
    else if !constTrue && st.deny.None? && st.denyRolePolicy.None?
        && IsConst(allow, true) then RoleNodes(allow, None, true)
    else
      RoleNodes(
        if st.denyRolePolicy.Some? && allow.Some? then MkAnd([allow.value, Invert(st.denyRolePolicy.value)]) else allow,
        st.deny,
        false)
  }

  datatype KindNodes = KindNodes(allow: Option<Node>, deny: Option<Node>)

  function NodesOfRole(e: Env, res: Residual, kind: Kind, role: string, action: string): RoleNodes {
    FinishRole(kind, FoldScopes(e, res, kind, role, action, 0, START))
  }

  function FoldRoles(e: Env, res: Residual, kind: Kind, roles: seq<string>, action: string, acc: KindNodes): KindNodes {
    if roles == [] then acc
    else
      var r := NodesOfRole(e, res, kind, roles[0], action);
      if r.settled then KindNodes(r.allow, None)
      else FoldRoles(e, res, kind, roles[1..], action,
          KindNodes(AddNode(acc.allow, r.allow), AddNode(acc.deny, r.deny)))
  }

  function RolesFor(e: Env, kind: Kind): seq<string> {
    if kind == Principal && e.roles != [] then e.roles[..1] else e.roles
  }

  function NodesOfKind(e: Env, res: Residual, kind: Kind, action: string): KindNodes {
    FoldRoles(e, res, kind, RolesFor(e, kind), action, KindNodes(None, None))
  }

  // ---- one action --------------------------------------------------------------------

  /** Put a policy kind on top of what is planned so far: its ALLOW is an
      alternative, its DENY a restriction of everything. */
  function Combine(root: Option<Node>, k: KindNodes): Option<Node> {
    var allowed :=
      if k.allow.None? then root
      else if root.None? then k.allow
      else MkOr([k.allow.value, root.value]);
    if k.deny.None? then allowed
    else
      var inv := Invert(k.deny.value);
      if allowed.None? then Some(inv) else MkAnd([inv, allowed.value])
  }

  function Assemble(resource: KindNodes, principal: KindNodes): Node {
    var root := Combine(Combine(None, resource), principal);
    if root.None? || (resource.allow.None? && principal.allow.None?) then Const(false) else root.value
  }

  /** The plan for one action, before normalisation. */
  function PlanNode(e: Env, res: Residual, action: string): Node {
    Assemble(NodesOfKind(e, res, Resource, action), NodesOfKind(e, res, Principal, action))
  }

  // ---- the loops -----------------------------------------------------------------------

  /** The list is made once per scope of an action; making it again gives the same. */
  method PlanRoles(e: Env, res: Residual, scope: string) returns (list: RoleList)
    ensures list == ListFor(e, res, Resource, scope)
  {
    list := map[];
    if scope in e.derivedRoles {
      var drs := e.derivedRoles[scope];
      var left := drs.Keys;
      while left != {}
        invariant left <= drs.Keys
        invariant list == map n | n in drs && n !in left && RoleApplies(drs[n], e.rolesAndParents) ::
                  RoleNode(res, drs[n])
        decreases left
      {
        var n :| n in left;
        left := left - {n};
        if RoleApplies(drs[n], e.rolesAndParents) {
          list := list[n := RoleNode(res, drs[n])];
        }
      }
    }
  }

  method PlanScope(e: Env, res: Residual, kind: Kind, role: string, action: string, i: nat) returns (s: ScopeNodes)
    requires i < |e.Scopes(kind)|
    ensures s == NodesAt(e, res, kind, role, action, i)
  {
    var scope := e.Scopes(kind)[i];
    var list: RoleList := map[];
    if kind == Resource {
      list := PlanRoles(e, res, scope);
    }
    var bindings := e.query(kind, role, scope, action);
    s := NO_NODES;
    for j := 0 to |bindings|
      invariant AddBindings(res, list, bindings[j..], s) == NodesAt(e, res, kind, role, action, i)
    {
      assert bindings[j..][1..] == bindings[j + 1..];
      s := AddBinding(s, bindings[j], BindingNode(res, list, bindings[j]));
    }
  }

  method PlanRole(e: Env, res: Residual, kind: Kind, role: string, action: string) returns (r: RoleNodes)
    ensures r == NodesOfRole(e, res, kind, role, action)
  {
    var scopes := e.Scopes(kind);
    var allow: Option<Node>, deny: Option<Node>, denyRolePolicy: Option<Node> := None, None, None;
    var pendingAllow, childOverrideAllow: Option<Node> := false, None;
    for i := 0 to |scopes|
      invariant FoldScopes(e, res, kind, role, action, i,
                RoleState(allow, deny, denyRolePolicy, pendingAllow, childOverrideAllow))
             == FoldScopes(e, res, kind, role, action, 0, START)
    {
      if IsConst(childOverrideAllow, true) {
        break;
      }
      ghost var before := RoleState(allow, deny, denyRolePolicy, pendingAllow, childOverrideAllow);
      var s := PlanScope(e, res, kind, role, action, i);
      deny := AddNode(deny, GateByChildOverrideAllow(childOverrideAllow, s.deny));
      denyRolePolicy := AddNode(denyRolePolicy, GateByChildOverrideAllow(childOverrideAllow, s.denyRolePolicy));
      var permission := e.Permission(scopes[i]);
      if s.allow.Some? {
        if allow.None? {
          allow := s.allow;
        } else if pendingAllow {
          allow := MkAnd([allow.value, s.allow.value]);
          pendingAllow := false;
        } else {
          allow := MkOr([allow.value, s.allow.value]);
        }
        if permission == Some(RequireParentalConsent) {
          pendingAllow := true;
        }
        if permission == Some(OverrideParent) {
          childOverrideAllow := AddNode(childOverrideAllow, s.allow);
        }
      }
      assert StepScope(before, s, permission) ==
          RoleState(allow, deny, denyRolePolicy, pendingAllow, childOverrideAllow);
    }
    r := FinishRole(kind, RoleState(allow, deny, denyRolePolicy, pendingAllow, childOverrideAllow));
  }

  method PlanKind(e: Env, res: Residual, kind: Kind, action: string) returns (k: KindNodes)
    ensures k == NodesOfKind(e, res, kind, action)
  {
    var roles := RolesFor(e, kind);
    k := KindNodes(None, None);
    for j := 0 to |roles|
      invariant FoldRoles(e, res, kind, roles[j..], action, k) == NodesOfKind(e, res, kind, action)
    {
      assert roles[j..][1..] == roles[j + 1..];
      var r := PlanRole(e, res, kind, roles[j], action);
      if r.settled {
        k := KindNodes(r.allow, None);
        return;
      }
      k := KindNodes(AddNode(k.allow, r.allow), AddNode(k.deny, r.deny));
    }
  }

  /** One filter per action, merged into one. */
  method PlanResources(e: Env, res: Residual, actions: seq<string>) returns (f: Filter)
    ensures forall rho :: FilterHolds(rho, f) <==>
            forall j | 0 <= j < |actions| :: Eval(rho, PlanNode(e, res, actions[j]))
  {
    var filters: seq<Filter> := [];
    for j := 0 to |actions|
      invariant |filters| == j
      invariant forall k | 0 <= k < j :: filters[k] == ToFilter(PlanNode(e, res, actions[k]))
    {
      var resource := PlanKind(e, res, Resource, actions[j]);
      var principal := PlanKind(e, res, Principal, actions[j]);
      filters := filters + [ToFilter(Assemble(resource, principal))];
    }
    f := MergeWithAnd(filters);
    forall rho ensures FilterHolds(rho, f) <==>
        forall j | 0 <= j < |actions| :: Eval(rho, PlanNode(e, res, actions[j])) {
      forall j | 0 <= j < |actions| ensures FilterHolds(rho, filters[j]) == Eval(rho, PlanNode(e, res, actions[j])) {
        FilterMeaning(rho, PlanNode(e, res, actions[j]));
      }
    }
  }
}
