/** A scope that requires parental consent, put into a scope chain of a request: the
    loops never get wider, but `check` first asks whether there are policies at all, and
    the inserted scope may be the one that answers. */
module RequestConsent {
  import opened Common
  import opened Conditions
  import opened Check
  import opened Runtimes
  import opened Consent
  import opened RowIndex
  import PlanCheck

  /** The request with one more scope at position k of one of its chains. */
  function WithRequestScope(q: Request, kind: Kind, k: nat, scope: string): Request
    requires k <= |if kind == Principal then q.principalScopes else q.resourceScopes|
  {
    if kind == Principal then q.(principalScopes := Inserted(q.principalScopes, k, scope))
    else q.(resourceScopes := Inserted(q.resourceScopes, k, scope))
  }

  /** The scope alone passes the existence test. */
  ghost predicate ScopePasses(idx: Index, q: Request, kind: Kind, scope: string) {
    if kind == Principal then ScopedPrincipalExists(idx, q.principalVersion, [scope])
    else ScopedResourceExists(idx, q.resourceVersion, q.resource, [scope])
  }

  lemma InsertedExists(idx: Index, q: Request, kind: Kind, k: nat, scope: string)
    requires k <= |if kind == Principal then q.principalScopes else q.resourceScopes|
    ensures PoliciesExist(idx, WithRequestScope(q, kind, k, scope)) <==>
            PoliciesExist(idx, q) || ScopePasses(idx, q, kind, scope)
  {
    var scopes := if kind == Principal then q.principalScopes else q.resourceScopes;
    assert forall s :: s in Inserted(scopes, k, scope) <==> s in scopes || s == scope by {
      assert scopes == scopes[..k] + scopes[k..];
    }
    hide Inserted;
  }

  /** The loops do not look at the existence test. */
  lemma {:induction false} ChainIgnoresTest(e: Env, exist: bool, kind: Kind, role: string, action: string, i: nat,
                                            hasAllow: bool)
    requires i <= |e.Scopes(kind)|
    ensures ChainVerdict(e.(policiesExist := exist), kind, role, action, i, hasAllow) ==
            ChainVerdict(e, kind, role, action, i, hasAllow)
    decreases |e.Scopes(kind)| - i
  {
    hide RuntimeAt, ScanBindings, Continue;
    if i < |e.Scopes(kind)| {
      if kind == Resource {
        SameRuntime(e, e.(policiesExist := exist), i);
      }
      ChainIgnoresTest(e, exist, kind, role, action, i + 1, false);
      ChainIgnoresTest(e, exist, kind, role, action, i + 1, true);
    }
  }

  lemma ConclusionIgnoresTest(e: Env, exist: bool, action: string)
    ensures Conclusion(e.(policiesExist := exist), action) == Conclusion(e, action)
  {
    var e' := e.(policiesExist := exist);
    forall kind, r ensures RoleVerdict(e', kind, r, action) == RoleVerdict(e, kind, r, action) {
      ChainIgnoresTest(e, exist, kind, r, action, 0, false);
    }
    SameResourceRoles(e, e', e.roles, action, VNoMatch);
    hide RolesVerdict, RoleVerdict;
  }

  /** Inserting the scope into the request is inserting it into its chain and asking
      the existence test again. */
  lemma InsertedConclusion(idx: Index, q: Request, cel: Cel, permissions: map<string, Permission>,
                           derivedRoles: map<string, map<string, DerivedRole>>,
                           kind: Kind, k: nat, scope: string, action: string)
    requires k <= |if kind == Principal then q.principalScopes else q.resourceScopes|
    ensures var e, e' :=
            RequestEnv(idx, q, cel, permissions, derivedRoles),
            RequestEnv(idx, WithRequestScope(q, kind, k, scope), cel, permissions, derivedRoles);
            && Conclusion(e', action) == Conclusion(WithScope(e, kind, k, scope), action)
            && e'.policiesExist == (e.policiesExist || ScopePasses(idx, q, kind, scope))
  {
    var e, e' := RequestEnv(idx, q, cel, permissions, derivedRoles),
        RequestEnv(idx, WithRequestScope(q, kind, k, scope), cel, permissions, derivedRoles);
    InsertedExists(idx, q, kind, k, scope);
    hide PoliciesExist, ScopePasses, Conclusion, Answers, Inserted;
    var d := WithScope(e, kind, k, scope);
    assert e' == d.(policiesExist := e'.policiesExist);
    ConclusionIgnoresTest(d, e'.policiesExist, action);
  }

  /** What the consent law asks of the loops: in the resource chain the scope hands
      the runtime object over and no allowing role is cut off. */
  ghost predicate LoopsNarrow(e: Env, kind: Kind, k: nat, scope: string, action: string)
    requires k <= |e.Scopes(kind)|
  {
    kind == Resource ==> HandsOver(e, k, scope) && !CutOff(e, action)
  }

  /** A consent scope with any rows turns a decision into ALLOW only if the request
      failed the existence test although its loops allow, and the scope passes it. With
      one version for both policy kinds that cannot be. */
  lemma ConsentNarrows(idx: Index, q: Request, cel: Cel, permissions: map<string, Permission>,
                       derivedRoles: map<string, map<string, DerivedRole>>,
                       kind: Kind, k: nat, scope: string, action: string)
    requires ValidIndex(idx, permissions) && scope in permissions && permissions[scope] == RequireParentalConsent
    requires k <= |if kind == Principal then q.principalScopes else q.resourceScopes|
    requires LoopsNarrow(RequestEnv(idx, q, cel, permissions, derivedRoles), kind, k, scope, action)
    ensures var e, e' :=
            RequestEnv(idx, q, cel, permissions, derivedRoles),
            RequestEnv(idx, WithRequestScope(q, kind, k, scope), cel, permissions, derivedRoles);
            Decide(e', action) == Ok(Allow) && Decide(e, action) != Ok(Allow) ==>
              && Conclusion(e, action) == VAllow && !PoliciesExist(idx, q) && ScopePasses(idx, q, kind, scope)
              && q.principalVersion != q.resourceVersion
  {
    hide Conclusion, PoliciesExist, ScopePasses, Answers, Inserted, ValidIndex, HandsOver, CutOff;
    var e := RequestEnv(idx, q, cel, permissions, derivedRoles);
    InsertedConclusion(idx, q, cel, permissions, derivedRoles, kind, k, scope, action);
    if kind == Principal {
      PrincipalConsentNarrows(e, k, scope, action);
    } else {
      ResourceConsentNarrows(e, k, scope, action);
    }
    if Conclusion(e, action) == VAllow && q.principalVersion == q.resourceVersion {
      ConclusionLoops(e, action);
      AllowNeedsPolicies(idx, q, cel, permissions, derivedRoles, action);
    }
  }

  lemma ConclusionLoops(e: Env, action: string)
    requires Conclusion(e, action) == VAllow
    ensures LoopsAllow(e, action)
  {
    RolesAllowExactly(e, e.roles, action, VNoMatch);
    if j: nat :| AllowReached(e, e.roles, action, j) {
      assert e.roles[j] in e.roles;
    }
  }

  /** So in tables with one version the consent law holds of `check` itself. */
  lemma ConsentNarrowsDecisions(idx: Index, q: Request, cel: Cel, permissions: map<string, Permission>,
                                derivedRoles: map<string, map<string, DerivedRole>>,
                                kind: Kind, k: nat, scope: string, action: string)
    requires ValidIndex(idx, permissions) && scope in permissions && permissions[scope] == RequireParentalConsent
    requires k <= |if kind == Principal then q.principalScopes else q.resourceScopes|
    requires LoopsNarrow(RequestEnv(idx, q, cel, permissions, derivedRoles), kind, k, scope, action)
    requires q.principalVersion == q.resourceVersion || PoliciesExist(idx, q) || !ScopePasses(idx, q, kind, scope)
    ensures Decide(RequestEnv(idx, WithRequestScope(q, kind, k, scope), cel, permissions, derivedRoles), action) ==
            Ok(Allow) ==>
            Decide(RequestEnv(idx, q, cel, permissions, derivedRoles), action) == Ok(Allow)
  {
    ConsentNarrows(idx, q, cel, permissions, derivedRoles, kind, k, scope, action);
    hide Decide, RequestEnv, PoliciesExist, ScopePasses, WithRequestScope;
  }

  // ---- when it is not so --------------------------------------------------------------

  /** The scope has no rows for the action. */
  ghost predicate Silent(e: Env, kind: Kind, scope: string, action: string) {
    forall role :: e.query(kind, role, scope, action) == []
  }

  /** The scope has a runtime object and leaves the one behind it alone. */
  ghost predicate PassesOn(e: Env, kind: Kind, k: nat, scope: string)
    requires k <= |e.Scopes(kind)|
  {
    kind == Resource ==>
      var e' := WithScope(e, Resource, k, scope);
      RuntimeAt(e', k).Ok? && (k < |e.resourceScopes| ==> RuntimeAt(e', k + 1) == RuntimeAt(e, k))
  }

  lemma {:induction false} RuntimePassedOn(e: Env, k: nat, scope: string, j: nat)
    requires k <= j < |e.resourceScopes| && PassesOn(e, Resource, k, scope)
    ensures RuntimeAt(WithScope(e, Resource, k, scope), j + 1) == RuntimeAt(e, j)
  {
    hide RuntimeOf;
    if k < j {
      RuntimePassedOn(e, k, scope, j - 1);
    }
  }

  lemma {:induction false} BehindSilent(e: Env, kind: Kind, k: nat, scope: string, role: string, action: string, j: nat,
                                        hasAllow: bool)
    requires k <= j <= |e.Scopes(kind)| && PassesOn(e, kind, k, scope)
    ensures ChainVerdict(WithScope(e, kind, k, scope), kind, role, action, j + 1, hasAllow) ==
            ChainVerdict(e, kind, role, action, j, hasAllow)
    decreases |e.Scopes(kind)| - j
  {
    hide RuntimeAt, ScanBindings, Continue, PassesOn;
    if j < |e.Scopes(kind)| {
      if kind == Resource {
        RuntimePassedOn(e, k, scope, j);
      }
      BehindSilent(e, kind, k, scope, role, action, j + 1, false);
      BehindSilent(e, kind, k, scope, role, action, j + 1, true);
    }
  }

  /** Nothing is carried over from a scope without recorded permissions. */
  lemma UnrecordedQuiet(e: Env, kind: Kind, role: string, action: string, i: nat)
    requires i < |e.Scopes(kind)| && AllowScopesRecorded(e, action) && role in e.roles
    ensures RuntimeFor(e, kind, i).Ok? && e.Permission(e.Scopes(kind)[i]).None? ==>
            ScanBindings(e.cel, e.query(kind, role, e.Scopes(kind)[i], action), RuntimeFor(e, kind, i).value,
                false) != Scanned(true)
  {
    var bs := e.query(kind, role, e.Scopes(kind)[i], action);
    var rt := RuntimeFor(e, kind, i);
    if rt.Ok? && ScanBindings(e.cel, bs, rt.value, false) == Scanned(true) {
      ScanNeedsRow(e.cel, bs, rt.value, false);
    }
  }

  lemma AtSilent(e: Env, kind: Kind, k: nat, scope: string, role: string, action: string)
    requires k <= |e.Scopes(kind)| && PassesOn(e, kind, k, scope) && Silent(e, kind, scope, action)
    ensures ChainVerdict(WithScope(e, kind, k, scope), kind, role, action, k, false) ==
            ChainVerdict(e, kind, role, action, k, false)
  {
    BehindSilent(e, kind, k, scope, role, action, k, false);
    hide RuntimeAt;
    assert ScanBindings(e.cel, [], RuntimeFor(WithScope(e, kind, k, scope), kind, k).value, false) == Scanned(false);
  }

  /** A silent scope is passed over. */
  lemma {:induction false} SilentChain(e: Env, kind: Kind, k: nat, scope: string, role: string, action: string, i: nat)
    requires i <= k <= |e.Scopes(kind)| && PassesOn(e, kind, k, scope) && Silent(e, kind, scope, action)
    requires AllowScopesRecorded(e, action) && role in e.roles
    ensures ChainVerdict(WithScope(e, kind, k, scope), kind, role, action, i, false) ==
            ChainVerdict(e, kind, role, action, i, false)
    decreases k - i
  {
    hide RuntimeAt, ScanBindings, PassesOn, Silent, AllowScopesRecorded;
    if i == k {
      AtSilent(e, kind, k, scope, role, action);
    } else {
      if kind == Resource {
        RuntimeInFront(e, k, scope, i);
      }
      SilentChain(e, kind, k, scope, role, action, i + 1);
      UnrecordedQuiet(e, kind, role, action, i);
    }
  }

  lemma SilentConclusion(e: Env, kind: Kind, k: nat, scope: string, action: string)
    requires k <= |e.Scopes(kind)| && PassesOn(e, kind, k, scope) && Silent(e, kind, scope, action)
    requires AllowScopesRecorded(e, action)
    ensures Conclusion(WithScope(e, kind, k, scope), action) == Conclusion(e, action)
  {
    var e' := WithScope(e, kind, k, scope);
    forall other: Kind, r | r in e.roles ensures RoleVerdict(e', other, r, action) == RoleVerdict(e, other, r, action) {
      if other == kind {
        SilentChain(e, kind, k, scope, r, action, 0);
      } else {
        OtherChain(e, e', other, r, action, 0, false);
      }
    }
    hide RoleVerdict, PassesOn, Silent, AllowScopesRecorded;
    SameResourceRoles(e, e', e.roles, action, VNoMatch);
    hide RolesVerdict;
  }

  /** The condition is exact: a consent scope without rows for the request still turns
      a decision into ALLOW exactly when the request failed the existence test, its
      loops allow, and the scope passes the test. */
  lemma SilentConsentWidensExactly(idx: Index, q: Request, cel: Cel, permissions: map<string, Permission>,
                                   derivedRoles: map<string, map<string, DerivedRole>>,
                                   kind: Kind, k: nat, scope: string, action: string)
    requires ValidIndex(idx, permissions) && scope in permissions && permissions[scope] == RequireParentalConsent
    requires k <= |if kind == Principal then q.principalScopes else q.resourceScopes|
    requires var e := RequestEnv(idx, q, cel, permissions, derivedRoles);
             Silent(e, kind, scope, action) && PassesOn(e, kind, k, scope)
    ensures var e, e' :=
            RequestEnv(idx, q, cel, permissions, derivedRoles),
            RequestEnv(idx, WithRequestScope(q, kind, k, scope), cel, permissions, derivedRoles);
            (Decide(e', action) == Ok(Allow) && Decide(e, action) != Ok(Allow)) <==>
            Conclusion(e, action) == VAllow && !PoliciesExist(idx, q) && ScopePasses(idx, q, kind, scope)
  {
    hide Conclusion, PoliciesExist, ScopePasses, Answers, Inserted, ValidIndex, Silent, PassesOn, AllowScopesRecorded;
    var e := RequestEnv(idx, q, cel, permissions, derivedRoles);
    InsertedConclusion(idx, q, cel, permissions, derivedRoles, kind, k, scope, action);
    EnvWellFormed(idx, q, cel, permissions, derivedRoles);
    assert PlanCheck.WellFormed(e, action);
    SilentConclusion(e, kind, k, scope, action);
  }

  /** Alice's policy allows everything in version "v2"; Bob's, in scope "a" and version
      "v1", denies. */
  ghost function TwoPrincipals(): Index {
    Index([Row("", Principal, "", "v2", "doc", "*", "view", "alice", VIEW),
        Row("", Principal, "a", "v1", "doc", "*", "view", "bob", DENY)],
          (p, x) => p == "*" || p == x, p => p == "*", x => "", (v, r, s, a, rs) => [])
  }

  const PERMISSIONS := map["a" := RequireParentalConsent, "" := OverrideParent]

  ghost function AliceEnv(cel: Cel): Env {
    RequestEnv(TwoPrincipals(), MixedVersions(), cel, PERMISSIONS, map[])
  }

  lemma AliceAnswers(cel: Cel)
    ensures AliceEnv(cel).query(Principal, "user", "", "view") == [VIEW]
    ensures forall role :: AliceEnv(cel).query(Principal, role, "a", "view") == []
  {
    hide Query, TwoPrincipals, PoliciesExist;
    AliceQuery("", ["user"]);
    forall role ensures AliceEnv(cel).query(Principal, role, "a", "view") == [] {
      AliceQuery("a", [role]);
    }
  }

  lemma AliceQuery(scope: string, roles: seq<string>)
    requires roles != []
    ensures Query(TwoPrincipals(), "v2", "doc", scope, "view", roles, Principal, "alice") ==
            if scope == "" then [VIEW] else []
  {
    var idx := TwoPrincipals();
    assert roles[0] in roles;
    assert idx.rows[1..] == [idx.rows[1]] && idx.rows[1..][1..] == [];
    assert Select(idx, [], "v2", "doc", scope, "view", roles, Principal, "alice") == [];
    assert Select(idx, idx.rows[1..], "v2", "doc", scope, "view", roles, Principal, "alice") == [];
  }

  lemma TwoPrincipalsTest()
    ensures ValidIndex(TwoPrincipals(), PERMISSIONS)
    ensures !PoliciesExist(TwoPrincipals(), MixedVersions())
    ensures ScopePasses(TwoPrincipals(), MixedVersions(), Principal, "a")
  {
    var idx := TwoPrincipals();
    assert idx.rows[1] in idx.rows;
  }

  /** Alice asks with the principal version "v1" and the resource version "v2". A
      consent scope in front, with a policy of somebody else, allows what was denied. */
  lemma MixedVersionsWiden(cel: Cel)
    ensures var q := MixedVersions();
            && Decide(AliceEnv(cel), "view") == Ok(Deny)
            && Decide(RequestEnv(TwoPrincipals(), WithRequestScope(q, Principal, 0, "a"), cel, PERMISSIONS, map[]),
                "view") == Ok(Allow)
  {
    var e := AliceEnv(cel);
    AliceAnswers(cel);
    TwoPrincipalsTest();
    hide ValidIndex, PoliciesExist, ScopePasses, Answers;
    assert Evaluate(cel, VIEW, NO_ROLES) == Sat;
    assert [VIEW][1..] == [] && ScanBindings(cel, [], NO_ROLES, true) == Scanned(true);
    assert ScanBindings(cel, [VIEW], NO_ROLES, false) == Scanned(true);
    assert Conclusion(e, "view") == VAllow;
    hide Conclusion, Evaluate, ScanBindings;
    SilentConsentWidensExactly(TwoPrincipals(), MixedVersions(), cel, PERMISSIONS, map[], Principal, 0, "a", "view");
  }
}
