/** ALLOWs that the query plan loses (internal/ruletable/plan.go): an ALLOW of a scope
    that requires parental consent is held back until the next ALLOW further out, and
    joins it. `check` never holds an ALLOW back, so with consent scopes the plan
    misses resources. */
module PlanConsent {
  import opened Common
  import opened Conditions
  import opened Check
  import opened Runtimes
  import opened PlanNodes
  import opened Plan
  import opened PlanCheck

  // ---- which ALLOWs reach the end of the walk ----------------------------------------

  /** The i-th scope has an ALLOW row, satisfied or not. */
  ghost predicate Offers(e: Env, kind: Kind, role: string, action: string, i: nat)
    requires i < |e.Scopes(kind)|
  {
    exists b | b in e.query(kind, role, e.Scopes(kind)[i], action) :: b.effect == Allow
  }

  ghost predicate AsksParent(e: Env, kind: Kind, i: nat)
    requires i < |e.Scopes(kind)|
  {
    e.Permission(e.Scopes(kind)[i]) == Some(RequireParentalConsent)
  }

  /** The nearest scope before the i-th with an ALLOW row requires parental consent. */
  ghost predicate BehindConsent(e: Env, kind: Kind, role: string, action: string, i: nat)
    requires i <= |e.Scopes(kind)|
  {
    exists w | 0 <= w < i ::
      Offers(e, kind, role, action, w) && AsksParent(e, kind, w)
          && forall x | w < x < i :: !Offers(e, kind, role, action, x)
  }

  /** An ALLOW fires at the t-th scope, which starts afresh, and again at every later
      scope that has to give its consent. */
  ghost predicate Kept(e: Env, kind: Kind, role: string, action: string, t: nat, m: nat)
    requires t < m <= |e.Scopes(kind)|
  {
    && Fires(e, kind, role, action, t, Allow)
    && !BehindConsent(e, kind, role, action, t)
    && forall u | t < u < m && Offers(e, kind, role, action, u) && BehindConsent(e, kind, role, action, u) ::
         Fires(e, kind, role, action, u, Allow)
  }

  ghost predicate Survives(e: Env, kind: Kind, role: string, action: string, m: nat)
    requires m <= |e.Scopes(kind)|
  {
    exists t | 0 <= t < m :: Kept(e, kind, role, action, t, m)
  }

  lemma FiringOffers(e: Env, kind: Kind, role: string, action: string, i: nat)
    requires i < |e.Scopes(kind)| && Fires(e, kind, role, action, i, Allow)
    ensures Offers(e, kind, role, action, i)
  {
  }

  lemma BehindNext(e: Env, kind: Kind, role: string, action: string, i: nat)
    requires i < |e.Scopes(kind)|
    ensures BehindConsent(e, kind, role, action, i + 1) <==>
            if Offers(e, kind, role, action, i) then AsksParent(e, kind, i) else BehindConsent(e, kind, role, action, i)
  {
    hide Offers, AsksParent;
  }

  lemma SurvivesNext(e: Env, kind: Kind, role: string, action: string, i: nat)
    requires i < |e.Scopes(kind)|
    ensures Survives(e, kind, role, action, i + 1) <==>
            if !Offers(e, kind, role, action, i) then Survives(e, kind, role, action, i)
            else if BehindConsent(e, kind, role, action, i) then Survives(e, kind, role, action, i)
                && Fires(e, kind, role, action, i, Allow)
            else Survives(e, kind, role, action, i) || Fires(e, kind, role, action, i, Allow)
  {
    if Fires(e, kind, role, action, i, Allow) {
      FiringOffers(e, kind, role, action, i);
    }
    hide Offers, BehindConsent, Fires, Survives, Kept;
    if Survives(e, kind, role, action, i + 1) {
      SurvivedBefore(e, kind, role, action, i);
    }
    SurvivesOn(e, kind, role, action, i);
  }

  lemma SurvivedBefore(e: Env, kind: Kind, role: string, action: string, i: nat)
    requires i < |e.Scopes(kind)| && Survives(e, kind, role, action, i + 1)
    ensures Survives(e, kind, role, action, i) ||
            (Fires(e, kind, role, action, i, Allow) && !BehindConsent(e, kind, role, action, i))
    ensures Offers(e, kind, role, action, i) && BehindConsent(e, kind, role, action, i) ==>
            Fires(e, kind, role, action, i, Allow)
  {
    hide Offers, BehindConsent, Fires;
    var t: nat :| t < i + 1 && Kept(e, kind, role, action, t, i + 1);
    if t < i {
      assert Kept(e, kind, role, action, t, i);
    }
  }

  lemma SurvivesOn(e: Env, kind: Kind, role: string, action: string, i: nat)
    requires i < |e.Scopes(kind)|
    ensures Survives(e, kind, role, action, i)
            && (Offers(e, kind, role, action, i) && BehindConsent(e, kind, role, action, i) ==>
                Fires(e, kind, role, action, i, Allow))
            ==> Survives(e, kind, role, action, i + 1)
    ensures Fires(e, kind, role, action, i, Allow) && !BehindConsent(e, kind, role, action, i) ==>
            Survives(e, kind, role, action, i + 1)
  {
    hide Offers, BehindConsent, Fires;
    if Survives(e, kind, role, action, i)
        && (Offers(e, kind, role, action, i) && BehindConsent(e, kind, role, action, i) ==>
        Fires(e, kind, role, action, i, Allow)) {
      var t: nat :| t < i && Kept(e, kind, role, action, t, i);
      assert Kept(e, kind, role, action, t, i + 1);
    }
    if Fires(e, kind, role, action, i, Allow) && !BehindConsent(e, kind, role, action, i) {
      assert Kept(e, kind, role, action, i, i + 1);
    }
  }

  // ---- the walk ------------------------------------------------------------------------

  /** How many scopes the planner looks at: it stops behind an unconditional ALLOW of
      an OVERRIDE_PARENT scope. */
  function Walked(e: Env, res: Residual, kind: Kind, role: string, action: string, i: nat, st: RoleState): (m: nat)
    requires i <= |e.Scopes(kind)|
    ensures i <= m <= |e.Scopes(kind)|
    decreases |e.Scopes(kind)| - i
  {
    if i == |e.Scopes(kind)| || IsConst(st.childOverrideAllow, true) then i
    else
      Walked(e, res, kind, role, action, i + 1,
          StepScope(st, NodesAt(e, res, kind, role, action, i), e.Permission(e.Scopes(kind)[i])))
  }

  /** The allow node of a role is true of the resource exactly when an ALLOW survives,
      and it is held back exactly behind a consent scope. */
  ghost predicate InStep(e: Env, rho: Valuation, kind: Kind, role: string, action: string, i: nat, st: RoleState)
    requires i <= |e.Scopes(kind)|
  {
    && (EvalOpt(rho, st.allow) <==> Survives(e, kind, role, action, i))
    && (st.pendingAllow <==> BehindConsent(e, kind, role, action, i))
    && (st.pendingAllow ==> st.allow.Some?)
  }

  lemma StaysInStep(e: Env, res: Residual, rho: Valuation, kind: Kind, role: string, action: string, i: nat,
                    st: RoleState)
    requires Valuates(e, res, rho, action) && Unchained(e) && WellFormed(e, action) && role in e.roles
    requires i < |e.Scopes(kind)|
    requires InStep(e, rho, kind, role, action, i, st)
    ensures InStep(e, rho, kind, role, action, i + 1,
            StepScope(st, NodesAt(e, res, kind, role, action, i), e.Permission(e.Scopes(kind)[i])))
  {
    var s := NodesAt(e, res, kind, role, action, i);
    NodesMeaning(e, res, rho, kind, role, action, i);
    NodeOffered(e, res, rho, kind, role, action, i);
    var permission := e.Permission(e.Scopes(kind)[i]);
    StepScopeMeaning(rho, st, s, permission);
    BehindNext(e, kind, role, action, i);
    SurvivesNext(e, kind, role, action, i);
    hide Valuates, Unchained, WellFormed, Fires, NodesAt, Survives, BehindConsent, Offers, GateByChildOverrideAllow,
        MkAnd, MkOr;
    assert s.allow.None? ==> !EvalOpt(rho, s.allow);
    assert st.allow.None? ==> !EvalOpt(rho, st.allow);
    hide EvalOpt;
  }

  lemma NodeOffered(e: Env, res: Residual, rho: Valuation, kind: Kind, role: string, action: string, i: nat)
    requires i < |e.Scopes(kind)|
    ensures NodesAt(e, res, kind, role, action, i).allow.Some? <==> Offers(e, kind, role, action, i)
  {
    var scope := e.Scopes(kind)[i];
    AddBindingsMeaning(res, rho, ListFor(e, res, kind, scope), e.query(kind, role, scope, action), NO_NODES);
  }

  lemma {:induction false} FoldStaysInStep(e: Env, res: Residual, rho: Valuation, kind: Kind, role: string,
                                           action: string, i: nat, st: RoleState)
    requires Valuates(e, res, rho, action) && Unchained(e) && WellFormed(e, action) && role in e.roles
    requires i <= |e.Scopes(kind)|
    requires InStep(e, rho, kind, role, action, i, st)
    ensures InStep(e, rho, kind, role, action, Walked(e, res, kind, role, action, i, st),
            FoldScopes(e, res, kind, role, action, i, st))
    decreases |e.Scopes(kind)| - i
  {
    hide Valuates, Unchained, WellFormed, NodesAt, StepScope, InStep;
    if i < |e.Scopes(kind)| && !IsConst(st.childOverrideAllow, true) {
      StaysInStep(e, res, rho, kind, role, action, i, st);
      FoldStaysInStep(e, res, rho, kind, role, action, i + 1,
          StepScope(st, NodesAt(e, res, kind, role, action, i), e.Permission(e.Scopes(kind)[i])));
    }
  }

  // ---- roles ---------------------------------------------------------------------------

  /** An ALLOW survives the walk, and the last scope with an ALLOW row did not ask
      for consent. */
  ghost predicate AllowKept(e: Env, res: Residual, kind: Kind, role: string, action: string) {
    var m := Walked(e, res, kind, role, action, 0, START);
    Survives(e, kind, role, action, m) && !BehindConsent(e, kind, role, action, m)
  }

  /** Of a resource that `check` allows to a role, the role's nodes are true exactly
      when the ALLOW was kept; no mix of permissions is excluded. */
  lemma RoleKept(e: Env, res: Residual, rho: Valuation, kind: Kind, role: string, action: string)
    requires Valuates(e, res, rho, action) && Unchained(e) && WellFormed(e, action) && role in e.roles
    ensures var r := NodesOfRole(e, res, kind, role, action);
            var v := RoleVerdict(e, kind, role, action);
            && (v == VAllow ==>
                !EvalOpt(rho, r.deny) && (EvalOpt(rho, r.allow) <==> AllowKept(e, res, kind, role, action)))
            && (v == VNoMatch ==> !EvalOpt(rho, r.deny) && !EvalOpt(rho, r.allow))
  {
    var ph := FoldTracks(e, res, rho, kind, role, action, 0, START, Open);
    var st := FoldScopes(e, res, kind, role, action, 0, START);
    FoldStaysInStep(e, res, rho, kind, role, action, 0, START);
    hide Valuates, Unchained, WellFormed, FoldScopes, Walked, Survives, BehindConsent, EvalOpt, FinishRole,
        ChainVerdict;
    if ph != Refused {
      FinishMeaning(rho, kind, st);
    }
  }

  ghost predicate RoleAllowsAndKeeps(e: Env, res: Residual, action: string, role: string) {
    RoleVerdict(e, Resource, role, action) == VAllow && AllowKept(e, res, Resource, role, action)
  }

  lemma {:induction false} RolesKeepSound(e: Env, res: Residual, rho: Valuation, roles: seq<string>, action: string,
                                          acc: KindNodes, kept: bool)
    requires Valuates(e, res, rho, action) && Unchained(e) && WellFormed(e, action)
             && forall r | r in roles :: r in e.roles
    requires EvalOpt(rho, acc.allow) && !EvalOpt(rho, acc.deny) ==> kept
    ensures var k := FoldRoles(e, res, Resource, roles, action, acc);
            EvalOpt(rho, k.allow) && !EvalOpt(rho, k.deny) ==>
                kept || exists r | r in roles :: RoleAllowsAndKeeps(e, res, action, r)
  {
    NoneIsFalse(rho);
    hide Valuates, Unchained, WellFormed, NodesOfRole, RoleVerdict, EvalOpt, AllowKept;
    if roles != [] {
      assert roles[0] in roles;
      RoleMeaning(e, res, rho, Resource, roles[0], action);
      RoleKept(e, res, rho, Resource, roles[0], action);
      var r := NodesOfRole(e, res, Resource, roles[0], action);
      if !r.settled {
        AddMeaning(rho, acc.allow, r.allow);
        AddMeaning(rho, acc.deny, r.deny);
        RolesKeepSound(e, res, rho, roles[1..], action,
            KindNodes(AddNode(acc.allow, r.allow), AddNode(acc.deny, r.deny)),
                       kept || RoleAllowsAndKeeps(e, res, action, roles[0]));
      }
    }
  }

  lemma {:induction false} RolesKeepComplete(e: Env, res: Residual, rho: Valuation, roles: seq<string>, action: string,
                                             acc: KindNodes)
    requires Valuates(e, res, rho, action) && Unchained(e) && WellFormed(e, action)
             && forall r | r in roles :: r in e.roles
    requires EvalOpt(rho, acc.allow) || exists r | r in roles :: RoleAllowsAndKeeps(e, res, action, r)
    ensures EvalOpt(rho, FoldRoles(e, res, Resource, roles, action, acc).allow)
  {
    hide Valuates, Unchained, WellFormed, NodesOfRole, RoleVerdict, EvalOpt, AllowKept;
    if roles != [] {
      assert roles == [roles[0]] + roles[1..];
      RoleMeaning(e, res, rho, Resource, roles[0], action);
      RoleKept(e, res, rho, Resource, roles[0], action);
      var r := NodesOfRole(e, res, Resource, roles[0], action);
      if !r.settled {
        AddMeaning(rho, acc.allow, r.allow);
        RolesKeepComplete(e, res, rho, roles[1..], action,
            KindNodes(AddNode(acc.allow, r.allow), AddNode(acc.deny, r.deny)));
      }
    }
  }

  // ---- the whole plan --------------------------------------------------------------------

  /** The principal policies allow and the plan has kept it. */
  ghost predicate PrincipalKeeps(e: Env, res: Residual, action: string) {
    e.roles != [] && AllowKept(e, res, Principal, e.roles[0], action)
  }

  lemma PrincipalKept(e: Env, res: Residual, rho: Valuation, action: string)
    requires Valuates(e, res, rho, action) && Unchained(e) && WellFormed(e, action)
    ensures var k := NodesOfKind(e, res, Principal, action);
            var v := KindVerdict(e, Principal, action);
            && (v == VAllow ==> !EvalOpt(rho, k.deny) && (EvalOpt(rho, k.allow) <==> PrincipalKeeps(e, res, action)))
            && (v == VNoMatch ==> !EvalOpt(rho, k.deny) && !EvalOpt(rho, k.allow))
  {
    hide Valuates, Unchained, WellFormed, NodesOfRole, RoleVerdict, AllowKept;
    if e.roles != [] {
      assert RolesFor(e, Principal) == [e.roles[0]];
      RoleKept(e, res, rho, Principal, e.roles[0], action);
      RoleMeaning(e, res, rho, Principal, e.roles[0], action);
      SingleRole(e, res, Principal, e.roles[0], action);
    }
  }

  /** Completeness, for any number of roles and any mix of permissions: the plan
      misses a resource that `check` allows exactly when the principal's ALLOW or, if
      the principal policies are silent, a role's ALLOW is all there is; the resource
      policies' own part of the plan is false, because the joint deny node holds or no
      allowing role has kept its ALLOW; and no bare deny makes up for it. */
  lemma PlanMissesWithConsent(e: Env, res: Residual, rho: Valuation, action: string)
    requires Valuates(e, res, rho, action) && Unchained(e) && WellFormed(e, action) && e.policiesExist
    ensures (Decide(e, action) == Ok(Allow) && !Eval(rho, PlanNode(e, res, action))) <==>
            && (|| (KindVerdict(e, Principal, action) == VAllow && !PrincipalKeeps(e, res, action))
                || (KindVerdict(e, Principal, action) == VNoMatch
                    && exists r | r in e.roles :: RoleVerdict(e, Resource, r, action) == VAllow))
            && (|| EvalOpt(rho, NodesOfKind(e, res, Resource, action).deny)
                || (!(exists r | r in e.roles :: RoleAllowsAndKeeps(e, res, action, r)) && !BareDeny(e, res, action)))
  {
    ValuatedRunsAreErrorFree(e, res, rho, action);
    DecideClosedForm(e, action);
    PrincipalKept(e, res, rho, action);
    AssembleMeaning(rho, NodesOfKind(e, res, Resource, action), NodesOfKind(e, res, Principal, action));
    RolesKeepSound(e, res, rho, e.roles, action, KindNodes(None, None), false);
    hide Valuates, Unchained, WellFormed, RoleVerdict, AllowKept, FoldRoles, PrincipalKeeps;
    if exists r | r in e.roles :: RoleAllowsAndKeeps(e, res, action, r) {
      RolesKeepComplete(e, res, rho, e.roles, action, KindNodes(None, None));
    }
  }
}
