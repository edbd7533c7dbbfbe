/** The query plan read off the rows (internal/ruletable/plan.go): which rows of which
    roles and scopes make the plan true of a resource, and which make it false. */
module PlanRows {
  import opened Common
  import opened Conditions
  import opened Check
  import opened Runtimes
  import opened PlanNodes
  import opened Plan
  import opened PlanCheck
  import opened PlanConsent

  // ---- what is planned before anything is known of the resource -------------------------

  function NodeOf(e: Env, res: Residual, kind: Kind, i: nat, b: Binding): Node
    requires i < |e.Scopes(kind)|
  {
    BindingNode(res, ListFor(e, res, kind, e.Scopes(kind)[i]), b)
  }

  /** Every ALLOW row of the i-th scope is known to be satisfied. */
  ghost predicate AllowsKnown(e: Env, res: Residual, kind: Kind, role: string, action: string, i: nat)
    requires i < |e.Scopes(kind)|
  {
    forall b | b in e.query(kind, role, e.Scopes(kind)[i], action) && b.effect == Allow ::
      NodeOf(e, res, kind, i, b) == Const(true)
  }

  /** The i-th scope has a DENY row, from a role policy or not, that is not known to be
      unsatisfied. */
  ghost predicate MayDeny(e: Env, res: Residual, kind: Kind, role: string, action: string, i: nat, ofRolePolicy: bool)
    requires i < |e.Scopes(kind)|
  {
    exists b | b in e.query(kind, role, e.Scopes(kind)[i], action) ::
      b.effect == Deny && b.fromRolePolicy == ofRolePolicy && NodeOf(e, res, kind, i, b) != Const(false)
  }

  predicate OnlyTrue(n: Option<Node>) {
    n.Some? ==> n.value == Const(true)
  }

  lemma AddedOnlyTrue(curr: Option<Node>, next: Option<Node>)
    ensures OnlyTrue(AddNode(curr, next)) <==> OnlyTrue(curr) && OnlyTrue(next)
  {
    if curr.Some? && next.Some? {
      TwoDistinct(curr.value, next.value);
    }
  }

  lemma TwoDistinct(a: Node, b: Node)
    ensures Dedup([a, b]) == if a == b then [a] else [a, b]
    ensures MkOr([a, b]) == Some(if a == b then a else Or([a, b]))
    ensures MkAnd([a, b]) == Some(if a == b then a else And([a, b]))
  {
    assert [a, b][..1] == [a];
    assert [a][..0] == [];
    assert Dedup([a]) == [a];
  }

  lemma {:induction false} BindingsShape(res: Residual, list: RoleList, bs: seq<Binding>, acc: ScopeNodes)
    ensures var r := AddBindings(res, list, bs, acc);
            && (r.allow.Some? <==> acc.allow.Some? || exists b | b in bs :: b.effect == Allow)
            && (OnlyTrue(r.allow) <==>
                && OnlyTrue(acc.allow)
                && forall b | b in bs && b.effect == Allow :: BindingNode(res, list, b) == Const(true))
            && (r.deny.Some? <==>
                || acc.deny.Some?
                || exists b | b in bs ::
                     b.effect == Deny && !b.fromRolePolicy && BindingNode(res, list, b) != Const(false))
            && (r.denyRolePolicy.Some? <==>
                || acc.denyRolePolicy.Some?
                || exists b | b in bs ::
                     b.effect == Deny && b.fromRolePolicy && BindingNode(res, list, b) != Const(false))
  {
    hide BindingNode, MkOr;
    if bs != [] {
      var b := bs[0];
      var n := BindingNode(res, list, b);
      assert bs == [b] + bs[1..];
      assert b in bs;
      AddedOnlyTrue(acc.allow, Some(n));
      BindingsShape(res, list, bs[1..], AddBinding(acc, b, n));
    }
  }

  lemma NodesShape(e: Env, res: Residual, kind: Kind, role: string, action: string, i: nat)
    requires i < |e.Scopes(kind)|
    ensures var s := NodesAt(e, res, kind, role, action, i);
            && (s.allow.Some? <==> Offers(e, kind, role, action, i))
            && (OnlyTrue(s.allow) <==> AllowsKnown(e, res, kind, role, action, i))
            && (s.deny.Some? <==> MayDeny(e, res, kind, role, action, i, false))
            && (s.denyRolePolicy.Some? <==> MayDeny(e, res, kind, role, action, i, true))
  {
    var scope := e.Scopes(kind)[i];
    BindingsShape(res, ListFor(e, res, kind, scope), e.query(kind, role, scope, action), NO_NODES);
    hide BindingNode, AddBindings;
  }

  /** What the first i scopes leave, whatever the resource. */
  ghost predicate Shape(e: Env, res: Residual, kind: Kind, role: string, action: string, i: nat, st: RoleState)
    requires i <= |e.Scopes(kind)|
  {
    && (st.allow.Some? <==> exists j | 0 <= j < i :: Offers(e, kind, role, action, j))
    && (OnlyTrue(st.allow) <==> forall j | 0 <= j < i :: AllowsKnown(e, res, kind, role, action, j))
    && (st.deny.Some? <==> exists j | 0 <= j < i :: MayDeny(e, res, kind, role, action, j, false))
    && (st.denyRolePolicy.Some? <==> exists j | 0 <= j < i :: MayDeny(e, res, kind, role, action, j, true))
    && (st.pendingAllow <==> BehindConsent(e, kind, role, action, i))
  }

  lemma StepShape(st: RoleState, s: ScopeNodes, permission: Option<Permission>)
    requires st.pendingAllow ==> st.allow.Some?
    ensures var st' := StepScope(st, s, permission);
            && (st'.allow.Some? <==> st.allow.Some? || s.allow.Some?)
            && (OnlyTrue(st'.allow) <==> OnlyTrue(st.allow) && OnlyTrue(s.allow))
            && (st'.deny.Some? <==> st.deny.Some? || s.deny.Some?)
            && (st'.denyRolePolicy.Some? <==> st.denyRolePolicy.Some? || s.denyRolePolicy.Some?)
            && (st'.pendingAllow <==>
                if s.allow.Some? then permission == Some(RequireParentalConsent) else st.pendingAllow)
  {
    GateKeeps(st.childOverrideAllow, s.deny);
    GateKeeps(st.childOverrideAllow, s.denyRolePolicy);
    if st.allow.Some? && s.allow.Some? {
      TwoDistinct(st.allow.value, s.allow.value);
    }
    hide GateByChildOverrideAllow, MkOr, MkAnd, Dedup;
  }

  lemma GateKeeps(childOverrideAllow: Option<Node>, deny: Option<Node>)
    ensures GateByChildOverrideAllow(childOverrideAllow, deny).Some? <==> deny.Some?
  {
    if deny.Some? && childOverrideAllow.Some? {
      TwoDistinct(Invert(childOverrideAllow.value), deny.value);
    }
  }

  lemma BehindOffers(e: Env, kind: Kind, role: string, action: string, i: nat)
    requires i <= |e.Scopes(kind)| && BehindConsent(e, kind, role, action, i)
    ensures exists j | 0 <= j < i :: Offers(e, kind, role, action, j)
  {
  }

  lemma {:induction false} FoldShape(e: Env, res: Residual, kind: Kind, role: string, action: string, i: nat,
                                     st: RoleState)
    requires i <= |e.Scopes(kind)| && Shape(e, res, kind, role, action, i, st)
    ensures Shape(e, res, kind, role, action, Walked(e, res, kind, role, action, i, st),
                  FoldScopes(e, res, kind, role, action, i, st))
    decreases |e.Scopes(kind)| - i
  {
    hide Shape, StepScope, NodesAt;
    if i < |e.Scopes(kind)| && !IsConst(st.childOverrideAllow, true) {
      NextShape(e, res, kind, role, action, i, st);
      FoldShape(e, res, kind, role, action, i + 1,
                StepScope(st, NodesAt(e, res, kind, role, action, i), e.Permission(e.Scopes(kind)[i])));
    }
  }

  lemma NextShape(e: Env, res: Residual, kind: Kind, role: string, action: string, i: nat, st: RoleState)
    requires i < |e.Scopes(kind)| && Shape(e, res, kind, role, action, i, st)
    ensures Shape(e, res, kind, role, action, i + 1,
                  StepScope(st, NodesAt(e, res, kind, role, action, i), e.Permission(e.Scopes(kind)[i])))
  {
    NodesShape(e, res, kind, role, action, i);
    BehindNext(e, kind, role, action, i);
    if BehindConsent(e, kind, role, action, i) {
      BehindOffers(e, kind, role, action, i);
    }
    StepShape(st, NodesAt(e, res, kind, role, action, i), e.Permission(e.Scopes(kind)[i]));
    hide Offers, AllowsKnown, MayDeny, BehindConsent, StepScope, NodesAt, OnlyTrue;
  }

  // ---- denials known beforehand ------------------------------------------------------------

  /** Of every DENY row of the i-th scope it is known whether it is satisfied. */
  ghost predicate DeniesKnown(e: Env, res: Residual, kind: Kind, role: string, action: string, i: nat,
                              ofRolePolicy: bool)
    requires i < |e.Scopes(kind)|
  {
    forall b | b in e.query(kind, role, e.Scopes(kind)[i], action) && b.effect == Deny
               && b.fromRolePolicy == ofRolePolicy ::
      NodeOf(e, res, kind, i, b).Const?
  }

  /** The i-th scope has an ALLOW row, satisfied or not, and overrides its parents. */
  ghost predicate MayOverride(e: Env, kind: Kind, role: string, action: string, i: nat)
    requires i < |e.Scopes(kind)|
  {
    Offers(e, kind, role, action, i) && e.Permission(e.Scopes(kind)[i]) == Some(OverrideParent)
  }

  lemma {:induction false} BindingsKnown(res: Residual, list: RoleList, bs: seq<Binding>, acc: ScopeNodes)
    ensures var r := AddBindings(res, list, bs, acc);
            && (OnlyTrue(r.deny) <==>
                && OnlyTrue(acc.deny)
                && forall b | b in bs && b.effect == Deny && !b.fromRolePolicy :: BindingNode(res, list, b).Const?)
            && (OnlyTrue(r.denyRolePolicy) <==>
                && OnlyTrue(acc.denyRolePolicy)
                && forall b | b in bs && b.effect == Deny && b.fromRolePolicy :: BindingNode(res, list, b).Const?)
  {
    hide BindingNode, MkOr;
    if bs != [] {
      var b := bs[0];
      var n := BindingNode(res, list, b);
      assert bs == [b] + bs[1..];
      assert b in bs;
      AddedOnlyTrue(acc.deny, Some(n));
      AddedOnlyTrue(acc.denyRolePolicy, Some(n));
      BindingsKnown(res, list, bs[1..], AddBinding(acc, b, n));
    }
  }

  function DenyOf(st: RoleState, ofRolePolicy: bool): Option<Node> {
    if ofRolePolicy then st.denyRolePolicy else st.deny
  }

  ghost predicate AllDeniesKnown(e: Env, res: Residual, kind: Kind, role: string, action: string, i: nat,
                                 ofRolePolicy: bool)
    requires i <= |e.Scopes(kind)|
  {
    forall j | 0 <= j < i :: DeniesKnown(e, res, kind, role, action, j, ofRolePolicy)
  }

  ghost predicate NeverOverrides(e: Env, kind: Kind, role: string, action: string, i: nat)
    requires i <= |e.Scopes(kind)|
  {
    forall j | 0 <= j < i :: !MayOverride(e, kind, role, action, j)
  }

  ghost predicate Known(e: Env, res: Residual, kind: Kind, role: string, action: string, i: nat, st: RoleState,
                        ofRolePolicy: bool)
    requires i <= |e.Scopes(kind)|
  {
    && (st.childOverrideAllow.None? <==> NeverOverrides(e, kind, role, action, i))
    && (OnlyTrue(DenyOf(st, ofRolePolicy)) ==> AllDeniesKnown(e, res, kind, role, action, i, ofRolePolicy))
    && (AllDeniesKnown(e, res, kind, role, action, i, ofRolePolicy) && NeverOverrides(e, kind, role, action, i) ==>
        OnlyTrue(DenyOf(st, ofRolePolicy)))
  }

  lemma GateOnlyTrue(childOverrideAllow: Option<Node>, deny: Option<Node>)
    ensures OnlyTrue(GateByChildOverrideAllow(childOverrideAllow, deny)) ==> OnlyTrue(deny)
    ensures OnlyTrue(deny) && childOverrideAllow.None? ==> OnlyTrue(GateByChildOverrideAllow(childOverrideAllow, deny))
  {
    if deny.Some? && childOverrideAllow.Some? {
      TwoDistinct(Invert(childOverrideAllow.value), deny.value);
    }
  }

  lemma StepKnown(st: RoleState, s: ScopeNodes, permission: Option<Permission>, ofRolePolicy: bool)
    ensures var st' := StepScope(st, s, permission);
            var deny := if ofRolePolicy then s.denyRolePolicy else s.deny;
            && (st'.childOverrideAllow.None? <==>
                st.childOverrideAllow.None? && !(s.allow.Some? && permission == Some(OverrideParent)))
            && (OnlyTrue(DenyOf(st', ofRolePolicy)) ==> OnlyTrue(DenyOf(st, ofRolePolicy)) && OnlyTrue(deny))
            && (OnlyTrue(DenyOf(st, ofRolePolicy)) && OnlyTrue(deny) && st.childOverrideAllow.None? ==>
                OnlyTrue(DenyOf(st', ofRolePolicy)))
  {
    var deny := if ofRolePolicy then s.denyRolePolicy else s.deny;
    GateOnlyTrue(st.childOverrideAllow, deny);
    AddedOnlyTrue(DenyOf(st, ofRolePolicy), GateByChildOverrideAllow(st.childOverrideAllow, deny));
    hide GateByChildOverrideAllow, MkOr, MkAnd, OnlyTrue;
  }

  lemma NextKnown(e: Env, res: Residual, kind: Kind, role: string, action: string, i: nat, st: RoleState,
                  ofRolePolicy: bool)
    requires i < |e.Scopes(kind)| && Known(e, res, kind, role, action, i, st, ofRolePolicy)
    ensures Known(e, res, kind, role, action, i + 1,
                  StepScope(st, NodesAt(e, res, kind, role, action, i), e.Permission(e.Scopes(kind)[i])), ofRolePolicy)
  {
    var scope := e.Scopes(kind)[i];
    var s := NodesAt(e, res, kind, role, action, i);
    NodesShape(e, res, kind, role, action, i);
    assert OnlyTrue(if ofRolePolicy then s.denyRolePolicy else s.deny) <==>
        DeniesKnown(e, res, kind, role, action, i, ofRolePolicy) by {
      BindingsKnown(res, ListFor(e, res, kind, scope), e.query(kind, role, scope, action), NO_NODES);
      hide BindingNode, AddBindings;
    }
    StepKnown(st, s, e.Permission(scope), ofRolePolicy);
    assert MayOverride(e, kind, role, action, i) <==> s.allow.Some? && e.Permission(scope) == Some(OverrideParent);
    hide DeniesKnown, MayOverride, StepScope, NodesAt, OnlyTrue, DenyOf, Offers, AllowsKnown, MayDeny;
  }

  lemma {:induction false} FoldKnown(e: Env, res: Residual, kind: Kind, role: string, action: string, i: nat,
                                     st: RoleState, ofRolePolicy: bool)
    requires i <= |e.Scopes(kind)| && Known(e, res, kind, role, action, i, st, ofRolePolicy)
    ensures Known(e, res, kind, role, action, Walked(e, res, kind, role, action, i, st),
                  FoldScopes(e, res, kind, role, action, i, st), ofRolePolicy)
    decreases |e.Scopes(kind)| - i
  {
    hide Known, StepScope, NodesAt;
    if i < |e.Scopes(kind)| && !IsConst(st.childOverrideAllow, true) {
      NextKnown(e, res, kind, role, action, i, st, ofRolePolicy);
      FoldKnown(e, res, kind, role, action, i + 1,
                StepScope(st, NodesAt(e, res, kind, role, action, i), e.Permission(e.Scopes(kind)[i])), ofRolePolicy);
    }
  }

  // ---- what the plan says of a resource --------------------------------------------------

  /** A DENY row of the i-th scope, from a role policy or not, is satisfied. */
  ghost predicate DeniedBy(e: Env, kind: Kind, role: string, action: string, i: nat, ofRolePolicy: bool)
    requires i < |e.Scopes(kind)|
  {
    var rt := RuntimeFor(e, kind, i);
    rt.Ok? && exists b | b in e.query(kind, role, e.Scopes(kind)[i], action) ::
      b.effect == Deny && b.fromRolePolicy == ofRolePolicy && Evaluate(e.cel, b, rt.value) == Sat
  }

  /** ... and no OVERRIDE_PARENT scope before it has allowed. */
  ghost predicate Blocks(e: Env, kind: Kind, role: string, action: string, i: nat, ofRolePolicy: bool)
    requires i < |e.Scopes(kind)|
  {
    DeniedBy(e, kind, role, action, i, ofRolePolicy) && forall j | 0 <= j < i :: !Grants(e, kind, role, action, j)
  }

  ghost predicate Blocked(e: Env, kind: Kind, role: string, action: string, n: nat, ofRolePolicy: bool)
    requires n <= |e.Scopes(kind)|
  {
    exists i | 0 <= i < n :: Blocks(e, kind, role, action, i, ofRolePolicy)
  }

  ghost predicate Granted(e: Env, kind: Kind, role: string, action: string, n: nat)
    requires n <= |e.Scopes(kind)|
  {
    exists i | 0 <= i < n :: Grants(e, kind, role, action, i)
  }

  lemma {:induction false} DenialsMeaning(res: Residual, rho: Valuation, list: RoleList, bs: seq<Binding>,
                                          acc: ScopeNodes)
    ensures var r := AddBindings(res, list, bs, acc);
            && (EvalOpt(rho, r.deny) <==>
                || EvalOpt(rho, acc.deny)
                || exists b | b in bs :: b.effect == Deny && !b.fromRolePolicy && Eval(rho, BindingNode(res, list, b)))
            && (EvalOpt(rho, r.denyRolePolicy) <==>
                || EvalOpt(rho, acc.denyRolePolicy)
                || exists b | b in bs :: b.effect == Deny && b.fromRolePolicy && Eval(rho, BindingNode(res, list, b)))
  {
    hide BindingNode;
    if bs != [] {
      var b := bs[0];
      var n := BindingNode(res, list, b);
      assert bs == [b] + bs[1..];
      assert b in bs;
      AddMeaning(rho, acc.deny, Some(n));
      AddMeaning(rho, acc.denyRolePolicy, Some(n));
      DenialsMeaning(res, rho, list, bs[1..], AddBinding(acc, b, n));
    }
  }

  lemma ScopeDenials(e: Env, res: Residual, rho: Valuation, kind: Kind, role: string, action: string, i: nat)
    requires Valuates(e, res, rho, action) && Unchained(e) && WellFormed(e, action) && role in e.roles
    requires i < |e.Scopes(kind)|
    ensures var s := NodesAt(e, res, kind, role, action, i);
            && (EvalOpt(rho, s.deny) <==> DeniedBy(e, kind, role, action, i, false))
            && (EvalOpt(rho, s.denyRolePolicy) <==> DeniedBy(e, kind, role, action, i, true))
  {
    hide BindingNode, Evaluate, AddBindings;
    var scope := e.Scopes(kind)[i];
    var bs := e.query(kind, role, scope, action);
    var list := ListFor(e, res, kind, scope);
    DenialsMeaning(res, rho, list, bs, NO_NODES);
    PlannedRuntime(e, res, rho, action, kind, i);
    forall b | b in bs
      ensures Evaluate(e.cel, b, RuntimeFor(e, kind, i).value) == Sat <==> Eval(rho, BindingNode(res, list, b))
    {
      EvaluationAgrees(e.cel, res, rho, list, b);
    }
  }

  /** What the nodes say of the resource after the first i scopes. */
  ghost predicate Sees(e: Env, rho: Valuation, kind: Kind, role: string, action: string, i: nat, st: RoleState)
    requires i <= |e.Scopes(kind)|
  {
    && (EvalOpt(rho, st.childOverrideAllow) <==> Granted(e, kind, role, action, i))
    && (EvalOpt(rho, st.deny) <==> Blocked(e, kind, role, action, i, false))
    && (EvalOpt(rho, st.denyRolePolicy) <==> Blocked(e, kind, role, action, i, true))
  }

  lemma BlockedNext(e: Env, kind: Kind, role: string, action: string, i: nat, ofRolePolicy: bool)
    requires i < |e.Scopes(kind)|
    ensures Granted(e, kind, role, action, i + 1) <==>
            Granted(e, kind, role, action, i) || Grants(e, kind, role, action, i)
    ensures Blocked(e, kind, role, action, i + 1, ofRolePolicy) <==>
            || Blocked(e, kind, role, action, i, ofRolePolicy)
            || (DeniedBy(e, kind, role, action, i, ofRolePolicy) && !Granted(e, kind, role, action, i))
  {
    hide Grants, DeniedBy;
    assert Blocks(e, kind, role, action, i, ofRolePolicy) <==>
        DeniedBy(e, kind, role, action, i, ofRolePolicy) && !Granted(e, kind, role, action, i);
    hide Blocks;
  }

  lemma NextSees(e: Env, res: Residual, rho: Valuation, kind: Kind, role: string, action: string, i: nat,
                 st: RoleState)
    requires Valuates(e, res, rho, action) && Unchained(e) && WellFormed(e, action) && role in e.roles
    requires i < |e.Scopes(kind)| && Sees(e, rho, kind, role, action, i, st)
    ensures Sees(e, rho, kind, role, action, i + 1,
                 StepScope(st, NodesAt(e, res, kind, role, action, i), e.Permission(e.Scopes(kind)[i])))
  {
    var s, permission := NodesAt(e, res, kind, role, action, i), e.Permission(e.Scopes(kind)[i]);
    ScopeDenials(e, res, rho, kind, role, action, i);
    NodesMeaning(e, res, rho, kind, role, action, i);
    StepScopeMeaning(rho, st, s, permission);
    BlockedNext(e, kind, role, action, i, false);
    BlockedNext(e, kind, role, action, i, true);
    assert Grants(e, kind, role, action, i) <==>
        Fires(e, kind, role, action, i, Allow) && permission == Some(OverrideParent);
    hide Valuates, Unchained, WellFormed, NodesAt, StepScope, Fires, Grants, DeniedBy, Granted, Blocked, EvalOpt;
  }

  lemma {:induction false} FoldSees(e: Env, res: Residual, rho: Valuation, kind: Kind, role: string, action: string,
                                    i: nat, st: RoleState)
    requires Valuates(e, res, rho, action) && Unchained(e) && WellFormed(e, action) && role in e.roles
    requires i <= |e.Scopes(kind)| && Sees(e, rho, kind, role, action, i, st)
    ensures var st', n := FoldScopes(e, res, kind, role, action, i, st), |e.Scopes(kind)|;
            && (EvalOpt(rho, st'.deny) <==> Blocked(e, kind, role, action, n, false))
            && (EvalOpt(rho, st'.denyRolePolicy) <==> Blocked(e, kind, role, action, n, true))
    decreases |e.Scopes(kind)| - i
  {
    if i == |e.Scopes(kind)| {
    } else if IsConst(st.childOverrideAllow, true) {
      assert Granted(e, kind, role, action, i);
      hide Grants, DeniedBy;
      BlockedAfterGrant(e, kind, role, action, i, false);
      BlockedAfterGrant(e, kind, role, action, i, true);
    } else {
      NextSees(e, res, rho, kind, role, action, i, st);
      hide Valuates, Unchained, WellFormed, Sees, Blocked, EvalOpt, NodesAt, StepScope;
      FoldSees(e, res, rho, kind, role, action, i + 1,
               StepScope(st, NodesAt(e, res, kind, role, action, i), e.Permission(e.Scopes(kind)[i])));
    }
  }

  lemma BlockedAfterGrant(e: Env, kind: Kind, role: string, action: string, i: nat, ofRolePolicy: bool)
    requires i <= |e.Scopes(kind)| && Granted(e, kind, role, action, i)
    ensures Blocked(e, kind, role, action, |e.Scopes(kind)|, ofRolePolicy) <==>
            Blocked(e, kind, role, action, i, ofRolePolicy)
  {
    hide Grants, DeniedBy;
  }

  // ---- one role ----------------------------------------------------------------------------

  /** The nodes of a role say that it is denied whatever the resource. */
  predicate DeniedOutright(e: Env, res: Residual, kind: Kind, role: string, action: string) {
    var st := FoldScopes(e, res, kind, role, action, 0, START);
    kind == Resource && (IsConst(st.deny, true) || IsConst(st.denyRolePolicy, true))
  }

  /** An ALLOW row is planned and no later scope has to consent to it. */
  ghost predicate HasAllow(e: Env, res: Residual, kind: Kind, role: string, action: string) {
    var m := Walked(e, res, kind, role, action, 0, START);
    !BehindConsent(e, kind, role, action, m) && exists j | 0 <= j < m :: Offers(e, kind, role, action, j)
  }

  ghost predicate HasDeny(e: Env, res: Residual, kind: Kind, role: string, action: string, ofRolePolicy: bool) {
    exists j | 0 <= j < Walked(e, res, kind, role, action, 0, START) ::
      MayDeny(e, res, kind, role, action, j, ofRolePolicy)
  }

  /** The role is allowed whatever the resource: the ALLOW rows are known to be satisfied
      and the DENY rows, of role policies too, are known not to be. */
  ghost predicate AllowedOutright(e: Env, res: Residual, kind: Kind, role: string, action: string) {
    && HasAllow(e, res, kind, role, action)
    && (forall j | 0 <= j < Walked(e, res, kind, role, action, 0, START) ::
          AllowsKnown(e, res, kind, role, action, j))
    && !HasDeny(e, res, kind, role, action, false) && !HasDeny(e, res, kind, role, action, true)
  }

  /** Role policies take from the role's own ALLOW. */
  ghost predicate RoleAllows(e: Env, res: Residual, kind: Kind, role: string, action: string) {
    && !DeniedOutright(e, res, kind, role, action) && AllowKept(e, res, kind, role, action)
    && !Blocked(e, kind, role, action, |e.Scopes(kind)|, true)
  }

  /** Other DENY rows take from the ALLOWs of all roles. */
  ghost predicate RoleDenies(e: Env, res: Residual, kind: Kind, role: string, action: string) {
    !DeniedOutright(e, res, kind, role, action) && Blocked(e, kind, role, action, |e.Scopes(kind)|, false)
  }

  /** DENY rows from role policies or from other policies: some may be satisfied, and of
      all of them it is known whether they are. */
  ghost predicate KnownToDeny(e: Env, res: Residual, kind: Kind, role: string, action: string, ofRolePolicy: bool) {
    && HasDeny(e, res, kind, role, action, ofRolePolicy)
    && AllDeniesKnown(e, res, kind, role, action, Walked(e, res, kind, role, action, 0, START), ofRolePolicy)
  }

  /** Only such rows deny a role outright; where no scope may override its parents, they
      always do. */
  lemma OutrightByRows(e: Env, res: Residual, role: string, action: string)
    ensures DeniedOutright(e, res, Resource, role, action) ==>
              || KnownToDeny(e, res, Resource, role, action, false)
              || KnownToDeny(e, res, Resource, role, action, true)
    ensures NeverOverrides(e, Resource, role, action, |e.resourceScopes|) ==>
              (DeniedOutright(e, res, Resource, role, action) <==>
               || KnownToDeny(e, res, Resource, role, action, false)
               || KnownToDeny(e, res, Resource, role, action, true))
  {
    FoldShape(e, res, Resource, role, action, 0, START);
    FoldKnown(e, res, Resource, role, action, 0, START, false);
    FoldKnown(e, res, Resource, role, action, 0, START, true);
    hide FoldScopes, Walked, Offers, AllowsKnown, MayDeny, BehindConsent, AllDeniesKnown, MayOverride;
  }

  lemma FinishShape(kind: Kind, st: RoleState)
    ensures var r := FinishRole(kind, st);
            var outright := kind == Resource && (IsConst(st.deny, true) || IsConst(st.denyRolePolicy, true));
            && (r.settled <==>
                IsConst(st.allow, true) && !st.pendingAllow && st.deny.None? && st.denyRolePolicy.None?)
            && (r.allow.Some? <==> outright || (st.allow.Some? && !st.pendingAllow))
            && (r.deny.Some? <==> !outright && st.deny.Some?)
  {
    if st.allow.Some? && st.denyRolePolicy.Some? {
      TwoDistinct(st.allow.value, Invert(st.denyRolePolicy.value));
    }
  }

  lemma FinishExactly(rho: Valuation, kind: Kind, st: RoleState)
    ensures var r := FinishRole(kind, st);
            var outright := kind == Resource && (IsConst(st.deny, true) || IsConst(st.denyRolePolicy, true));
            && (EvalOpt(rho, r.allow) <==>
                !outright && EvalOpt(rho, st.allow) && !st.pendingAllow && !EvalOpt(rho, st.denyRolePolicy))
            && (EvalOpt(rho, r.deny) <==> !outright && EvalOpt(rho, st.deny))
  {
    if st.allow.Some? && st.denyRolePolicy.Some? {
      AndTwoMeaning(rho, st.allow.value, Invert(st.denyRolePolicy.value));
    }
    hide MkAnd;
  }

  lemma RoleShape(e: Env, res: Residual, kind: Kind, role: string, action: string)
    ensures var r := NodesOfRole(e, res, kind, role, action);
            var outright := DeniedOutright(e, res, kind, role, action);
            && (r.settled <==> AllowedOutright(e, res, kind, role, action))
            && (r.allow.Some? <==> outright || HasAllow(e, res, kind, role, action))
            && (r.deny.Some? <==> !outright && HasDeny(e, res, kind, role, action, false))
  {
    FoldShape(e, res, kind, role, action, 0, START);
    FinishShape(kind, FoldScopes(e, res, kind, role, action, 0, START));
    hide FoldScopes, Walked, Offers, AllowsKnown, MayDeny, BehindConsent, FinishRole;
  }

  /** The nodes of a role, of a resource. */
  lemma RoleByRows(e: Env, res: Residual, rho: Valuation, kind: Kind, role: string, action: string)
    requires Valuates(e, res, rho, action) && Unchained(e) && WellFormed(e, action) && role in e.roles
    ensures var r := NodesOfRole(e, res, kind, role, action);
            && (EvalOpt(rho, r.allow) <==> RoleAllows(e, res, kind, role, action))
            && (EvalOpt(rho, r.deny) <==> RoleDenies(e, res, kind, role, action))
  {
    FoldStaysInStep(e, res, rho, kind, role, action, 0, START);
    FoldSees(e, res, rho, kind, role, action, 0, START);
    FinishExactly(rho, kind, FoldScopes(e, res, kind, role, action, 0, START));
    hide Valuates, Unchained, WellFormed, FoldScopes, Walked, Survives, BehindConsent, EvalOpt, FinishRole, Blocked;
  }

  // ---- all roles ---------------------------------------------------------------------------

  ghost predicate AnyAllowedOutright(e: Env, res: Residual, kind: Kind, roles: seq<string>, action: string) {
    exists r | r in roles :: AllowedOutright(e, res, kind, r, action)
  }

  lemma {:induction false} RolesShape(e: Env, res: Residual, kind: Kind, roles: seq<string>, action: string,
                                      acc: KindNodes)
    ensures var k := FoldRoles(e, res, kind, roles, action, acc);
            && (k.allow.Some? <==>
                || acc.allow.Some?
                || exists r | r in roles ::
                     DeniedOutright(e, res, kind, r, action) || HasAllow(e, res, kind, r, action))
            && (k.deny.Some? <==>
                && !AnyAllowedOutright(e, res, kind, roles, action)
                && (|| acc.deny.Some?
                    || exists r | r in roles ::
                         !DeniedOutright(e, res, kind, r, action) && HasDeny(e, res, kind, r, action, false)))
  {
    hide NodesOfRole, DeniedOutright, HasAllow, HasDeny, Walked;
    if roles != [] {
      var role := roles[0];
      assert roles == [role] + roles[1..];
      RoleShape(e, res, kind, role, action);
      var r := NodesOfRole(e, res, kind, role, action);
      var next := KindNodes(AddNode(acc.allow, r.allow), AddNode(acc.deny, r.deny));
      RolesShape(e, res, kind, roles[1..], action, next);
      hide AddNode;
    }
  }

  lemma {:induction false} RolesByRows(e: Env, res: Residual, rho: Valuation, kind: Kind, roles: seq<string>,
                                       action: string, acc: KindNodes)
    requires Valuates(e, res, rho, action) && Unchained(e) && WellFormed(e, action)
             && forall r | r in roles :: r in e.roles
    ensures var k := FoldRoles(e, res, kind, roles, action, acc);
            && (EvalOpt(rho, k.allow) <==>
                EvalOpt(rho, acc.allow) || exists r | r in roles :: RoleAllows(e, res, kind, r, action))
            && (EvalOpt(rho, k.deny) <==>
                && !AnyAllowedOutright(e, res, kind, roles, action)
                && (EvalOpt(rho, acc.deny) || exists r | r in roles :: RoleDenies(e, res, kind, r, action)))
  {
    NoneIsFalse(rho);
    hide Valuates, Unchained, WellFormed, NodesOfRole, RoleAllows, RoleDenies, AllowedOutright, EvalOpt;
    if roles != [] {
      var role := roles[0];
      assert roles == [role] + roles[1..];
      RoleShape(e, res, kind, role, action);
      RoleByRows(e, res, rho, kind, role, action);
      RoleMeaning(e, res, rho, kind, role, action);
      var r := NodesOfRole(e, res, kind, role, action);
      AddMeaning(rho, acc.allow, r.allow);
      AddMeaning(rho, acc.deny, r.deny);
      var next := KindNodes(AddNode(acc.allow, r.allow), AddNode(acc.deny, r.deny));
      RolesByRows(e, res, rho, kind, roles[1..], action, next);
      hide AddNode;
    }
  }

  // ---- the whole plan ----------------------------------------------------------------------

  ghost predicate PlanAllows(e: Env, res: Residual, kind: Kind, action: string) {
    exists r | r in RolesFor(e, kind) :: RoleAllows(e, res, kind, r, action)
  }

  /** One role that is allowed outright silences the DENY rows of all of them. */
  ghost predicate PlanDenies(e: Env, res: Residual, kind: Kind, action: string) {
    && !AnyAllowedOutright(e, res, kind, RolesFor(e, kind), action)
    && exists r | r in RolesFor(e, kind) :: RoleDenies(e, res, kind, r, action)
  }

  /** There is an ALLOW node, be it for nobody. */
  ghost predicate AllowPlanned(e: Env, res: Residual, kind: Kind, action: string) {
    exists r | r in RolesFor(e, kind) ::
      DeniedOutright(e, res, kind, r, action) || HasAllow(e, res, kind, r, action)
  }

  ghost predicate DenyPlanned(e: Env, res: Residual, kind: Kind, action: string) {
    && !AnyAllowedOutright(e, res, kind, RolesFor(e, kind), action)
    && exists r | r in RolesFor(e, kind) ::
         !DeniedOutright(e, res, kind, r, action) && HasDeny(e, res, kind, r, action, false)
  }

  lemma KindShape(e: Env, res: Residual, kind: Kind, action: string)
    ensures var k := NodesOfKind(e, res, kind, action);
            && (k.allow.Some? <==> AllowPlanned(e, res, kind, action))
            && (k.deny.Some? <==> DenyPlanned(e, res, kind, action))
  {
    RolesShape(e, res, kind, RolesFor(e, kind), action, KindNodes(None, None));
    hide FoldRoles, DeniedOutright, HasAllow, HasDeny, AnyAllowedOutright;
  }

  /** The deny node that joins all roles, of a resource. */
  lemma KindByRows(e: Env, res: Residual, rho: Valuation, kind: Kind, action: string)
    requires Valuates(e, res, rho, action) && Unchained(e) && WellFormed(e, action)
    ensures var k := NodesOfKind(e, res, kind, action);
            && (EvalOpt(rho, k.allow) <==> PlanAllows(e, res, kind, action))
            && (EvalOpt(rho, k.deny) <==> PlanDenies(e, res, kind, action))
  {
    RolesByRows(e, res, rho, kind, RolesFor(e, kind), action, KindNodes(None, None));
    NoneIsFalse(rho);
    hide Valuates, Unchained, WellFormed, FoldRoles, RoleAllows, RoleDenies, AnyAllowedOutright, EvalOpt;
  }

  /** A bare deny is planned exactly when the resource policies leave DENY rows and no
      ALLOW row while the principal policies leave an ALLOW row. */
  lemma BareDenyByRows(e: Env, res: Residual, action: string)
    ensures BareDeny(e, res, action) <==>
            && !AllowPlanned(e, res, Resource, action) && DenyPlanned(e, res, Resource, action)
            && AllowPlanned(e, res, Principal, action)
  {
    KindShape(e, res, Resource, action);
    KindShape(e, res, Principal, action);
    hide NodesOfKind, AllowPlanned, DenyPlanned;
  }

  /** Of exactly which resources the plan of an action is true, for any number of roles
      and any mix of permissions. */
  lemma PlanByRows(e: Env, res: Residual, rho: Valuation, action: string)
    requires Valuates(e, res, rho, action) && Unchained(e) && WellFormed(e, action)
    ensures Eval(rho, PlanNode(e, res, action)) <==>
            && !PlanDenies(e, res, Principal, action)
            && (|| PlanAllows(e, res, Principal, action)
                || (&& !PlanDenies(e, res, Resource, action)
                    && (PlanAllows(e, res, Resource, action) || BareDeny(e, res, action))))
  {
    var resource, principal := NodesOfKind(e, res, Resource, action), NodesOfKind(e, res, Principal, action);
    KindByRows(e, res, rho, Resource, action);
    KindByRows(e, res, rho, Principal, action);
    AssembleMeaning(rho, resource, principal);
    hide Valuates, Unchained, WellFormed, NodesOfKind, PlanAllows, PlanDenies;
  }
}
