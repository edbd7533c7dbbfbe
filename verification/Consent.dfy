/** Scopes that require parental consent only narrow what a request may do. */
module Consent {
  import opened Common
  import opened Conditions
  import opened Check
  import opened Runtimes

  function Inserted(scopes: seq<string>, k: nat, scope: string): seq<string>
    requires k <= |scopes|
  {
    scopes[..k] + [scope] + scopes[k..]
  }

  /** The request with one more scope at position k of the principal or the
      resource chain. The rows of the scope are whatever the table holds for it. */
  function WithScope(e: Env, kind: Kind, k: nat, scope: string): Env
    requires k <= |e.Scopes(kind)|
  {
    if kind == Principal then e.(principalScopes := Inserted(e.principalScopes, k, scope))
    else e.(resourceScopes := Inserted(e.resourceScopes, k, scope))
  }

  /** Before the inserted scope nothing changes ... */
  lemma {:induction false} RuntimeInFront(e: Env, k: nat, scope: string, j: nat)
    requires j < k <= |e.resourceScopes|
    ensures RuntimeAt(WithScope(e, Resource, k, scope), j) == RuntimeAt(e, j)
  {
    hide RuntimeOf;
    if j > 0 {
      RuntimeInFront(e, k, scope, j - 1);
    }
  }

  /** The scope behind the inserted one has the runtime object it had, unless that
      fails. */
  ghost predicate HandsOver(e: Env, k: nat, scope: string)
    requires k <= |e.resourceScopes|
  {
    k < |e.resourceScopes| ==>
      var e' := WithScope(e, Resource, k, scope);
      RuntimeAt(e', k + 1) == Error || RuntimeAt(e', k + 1) == RuntimeAt(e, k)
  }

  lemma RuntimeFreeHandsOver(e: Env, k: nat, scope: string)
    requires k <= |e.resourceScopes| && DerivedRolesRuntimeFree(e)
    ensures HandsOver(e, k, scope)
  {
    hide RuntimeOf;
    if k < |e.resourceScopes| {
      var e' := WithScope(e, Resource, k, scope);
      if k > 0 {
        RuntimeInFront(e, k, scope, k - 1);
      }
      var before, before' := if k == 0 then Ok(NO_ROLES) else RuntimeAt(e, k - 1), RuntimeAt(e', k);
      if before'.Ok? {
        RuntimeStable(e.cel, RolesOf(e.derivedRoles, e.rolesAndParents, e.resourceScopes[k]), before.value,
            before'.value);
      }
    }
  }

  /** ... and then so does every scope behind it. */
  lemma {:induction false} RuntimeShift(e: Env, k: nat, scope: string, j: nat)
    requires k < j <= |e.resourceScopes| && HandsOver(e, k, scope)
    ensures var e' := WithScope(e, Resource, k, scope);
            RuntimeAt(e', j) == Error || RuntimeAt(e', j) == RuntimeAt(e, j - 1)
  {
    hide RuntimeOf;
    if k + 1 < j {
      RuntimeShift(e, k, scope, j - 1);
    }
  }

  /** v' grants nothing that v does not grant, and is silent only where v is
      silent or grants. */
  predicate NoWider(v': Verdict, v: Verdict) {
    && (v' == VAllow ==> v == VAllow)
    && (v' == VNoMatch ==> v == VNoMatch || v == VAllow)
  }

  lemma {:induction false} ScanCarry(g: Cel, bs: seq<Binding>, rt: Runtime)
    ensures var s := ScanBindings(g, bs, rt, false);
            var s' := ScanBindings(g, bs, rt, true);
            if s.Scanned? then s' == Scanned(true) else s' == s
  {
    if bs != [] {
      match Evaluate(g, bs[0], rt)
      case Abort =>
      case Reject =>
      case Unsat => ScanCarry(g, bs[1..], rt);
      case Sat =>
        if bs[0].effect == NoEffect {
          ScanCarry(g, bs[1..], rt);
        } else if bs[0].effect == Allow {
          ScanAllowed(g, bs[1..], rt);
        }
    }
  }

  lemma {:induction false} ScanAllowed(g: Cel, bs: seq<Binding>, rt: Runtime)
    ensures var s := ScanBindings(g, bs, rt, true);
            s.Scanned? ==> s.hasAllow
  {
    if bs != [] {
      ScanAllowed(g, bs[1..], rt);
    }
  }

  /** An ALLOW carried over from a scope without recorded permissions can only
      help. */
  lemma {:induction false} CarryHelps(e: Env, kind: Kind, role: string, action: string, i: nat)
    requires i <= |e.Scopes(kind)|
    ensures NoWider(ChainVerdict(e, kind, role, action, i, false), ChainVerdict(e, kind, role, action, i, true))
    decreases |e.Scopes(kind)| - i
  {
    if i < |e.Scopes(kind)| {
      var rt := RuntimeFor(e, kind, i);
      if rt.Ok? {
        ScanCarry(e.cel, e.query(kind, role, e.Scopes(kind)[i], action), rt.value);
        CarryHelps(e, kind, role, action, i + 1);
      }
    }
  }

  /** The last i scopes of a chain, as far as the loop can tell them apart: the
      runtime object, the rows and the permissions at one position. */
  ghost predicate SamePlace(e: Env, e': Env, kind: Kind, i: nat, i': nat) {
    && i < |e.Scopes(kind)| && i' < |e'.Scopes(kind)|
    && e'.cel == e.cel && e'.query == e.query && e'.permissions == e.permissions
    && e'.Scopes(kind)[i'] == e.Scopes(kind)[i]
    && (RuntimeFor(e', kind, i') == Error || RuntimeFor(e', kind, i') == RuntimeFor(e, kind, i))
  }

  lemma StepNoWider(e: Env, e': Env, kind: Kind, role: string, action: string, i: nat, i': nat, hasAllow: bool)
    requires SamePlace(e, e', kind, i, i')
    requires NoWider(ChainVerdict(e', kind, role, action, i' + 1, false),
             ChainVerdict(e, kind, role, action, i + 1, false))
    requires NoWider(ChainVerdict(e', kind, role, action, i' + 1, true),
             ChainVerdict(e, kind, role, action, i + 1, true))
    ensures NoWider(ChainVerdict(e', kind, role, action, i', hasAllow),
            ChainVerdict(e, kind, role, action, i, hasAllow))
  {
  }

  lemma {:induction false} BehindInserted(e: Env, kind: Kind, k: nat, scope: string, role: string, action: string,
                                          j: nat, hasAllow: bool)
    requires k <= j <= |e.Scopes(kind)|
    requires kind == Resource ==> HandsOver(e, k, scope)
    ensures var e' := WithScope(e, kind, k, scope);
            NoWider(ChainVerdict(e', kind, role, action, j + 1, hasAllow),
                ChainVerdict(e, kind, role, action, j, hasAllow))
    decreases |e.Scopes(kind)| - j
  {
    var e' := WithScope(e, kind, k, scope);
    if j < |e.Scopes(kind)| {
      assert SamePlace(e, e', kind, j, j + 1) by {
        if kind == Resource {
          RuntimeShift(e, k, scope, j + 1);
        }
      }
      BehindInserted(e, kind, k, scope, role, action, j + 1, false);
      BehindInserted(e, kind, k, scope, role, action, j + 1, true);
      StepNoWider(e, e', kind, role, action, j, j + 1, hasAllow);
    }
  }

  /** At the inserted scope the loop either stops short of an ALLOW or goes on as
      if nothing had been allowed yet. */
  lemma AtInserted(e': Env, kind: Kind, k: nat, role: string, action: string, hasAllow: bool)
    requires k < |e'.Scopes(kind)|
    requires e'.Permission(e'.Scopes(kind)[k]) == Some(RequireParentalConsent)
    ensures var v := ChainVerdict(e', kind, role, action, k, hasAllow);
            v == VDeny || v == VReject || v == VError || v == ChainVerdict(e', kind, role, action, k + 1, false)
  {
  }

  lemma {:induction false} ChainNarrows(e: Env, kind: Kind, k: nat, scope: string, role: string, action: string, i: nat,
                                        hasAllow: bool)
    requires i <= k <= |e.Scopes(kind)|
    requires e.Permission(scope) == Some(RequireParentalConsent)
    requires kind == Resource ==> HandsOver(e, k, scope)
    ensures var e' := WithScope(e, kind, k, scope);
            NoWider(ChainVerdict(e', kind, role, action, i, hasAllow), ChainVerdict(e, kind, role, action, i, hasAllow))
    decreases k - i
  {
    var e' := WithScope(e, kind, k, scope);
    if i == k {
      AtInserted(e', kind, k, role, action, hasAllow);
      BehindInserted(e, kind, k, scope, role, action, k, false);
      CarryHelps(e, kind, role, action, k);
    } else {
      assert SamePlace(e, e', kind, i, i) by {
        if kind == Resource {
          RuntimeInFront(e, k, scope, i);
        }
      }
      ChainNarrows(e, kind, k, scope, role, action, i + 1, false);
      ChainNarrows(e, kind, k, scope, role, action, i + 1, true);
      StepNoWider(e, e', kind, role, action, i, i, hasAllow);
    }
  }

  /** The scan of a role's scopes is rejected or fails. */
  predicate Stops(v: Verdict) {
    v == VReject || v == VError
  }

  /** Of the roles, the j-th is the first that allows the action, and none before it
      stops the loop. */
  ghost predicate AllowReached(e: Env, roles: seq<string>, action: string, j: nat) {
    && j < |roles| && RoleVerdict(e, Resource, roles[j], action) == VAllow
    && forall i | 0 <= i < j :: !Stops(RoleVerdict(e, Resource, roles[i], action))
  }

  lemma {:induction false} RolesAllowExactly(e: Env, roles: seq<string>, action: string, soFar: Verdict)
    requires soFar != VAllow
    ensures RolesVerdict(e, roles, action, soFar) == VAllow <==> exists j :: AllowReached(e, roles, action, j)
  {
    if roles != [] {
      var v, rest := RoleVerdict(e, Resource, roles[0], action), roles[1..];
      hide RoleVerdict;
      if v == VAllow {
        assert AllowReached(e, roles, action, 0);
      } else {
        RolesAllowExactly(e, rest, action, if soFar == VNoMatch then v else soFar);
        if j: nat :| AllowReached(e, rest, action, j) {
          if !Stops(v) {
            assert AllowReached(e, roles, action, j + 1);
          }
        }
        if j: nat :| AllowReached(e, roles, action, j) {
          assert AllowReached(e, rest, action, j - 1);
        }
      }
    }
  }

  /** A role that allows the action stands behind one whose scan is rejected or fails,
      and no role before that allows it. */
  ghost predicate CutOff(e: Env, action: string) {
    exists i, j | 0 <= i < j < |e.roles| ::
      && Stops(RoleVerdict(e, Resource, e.roles[i], action)) && RoleVerdict(e, Resource, e.roles[j], action) == VAllow
      && forall h | 0 <= h < i :: RoleVerdict(e, Resource, e.roles[h], action) != VAllow
  }

  lemma {:induction false} FirstStop(e: Env, action: string, j: nat)
    requires j < |e.roles| && RoleVerdict(e, Resource, e.roles[j], action) == VAllow
    ensures CutOff(e, action) || exists k :: AllowReached(e, e.roles, action, k)
  {
    if i :| 0 <= i < j && RoleVerdict(e, Resource, e.roles[i], action) == VAllow {
      FirstStop(e, action, i);
    } else if i :| 0 <= i < j && Stops(RoleVerdict(e, Resource, e.roles[i], action)) {
      assert CutOff(e, action);
    } else {
      assert AllowReached(e, e.roles, action, j);
    }
  }

  lemma {:induction false} SameResourceRoles(e: Env, e': Env, roles: seq<string>, action: string, soFar: Verdict)
    requires forall r | r in roles :: RoleVerdict(e', Resource, r, action) == RoleVerdict(e, Resource, r, action)
    ensures RolesVerdict(e', roles, action, soFar) == RolesVerdict(e, roles, action, soFar)
  {
    if roles != [] {
      assert roles[0] in roles;
      var v := RoleVerdict(e, Resource, roles[0], action);
      SameResourceRoles(e, e', roles[1..], action, if soFar == VNoMatch then v else soFar);
    }
  }

  /** A change to the other chain cannot be seen in this one. */
  lemma {:induction false} OtherChain(e: Env, e': Env, kind: Kind, role: string, action: string, i: nat, hasAllow: bool)
    requires e' == e.(principalScopes := e'.principalScopes, resourceScopes := e'.resourceScopes)
    requires e'.Scopes(kind) == e.Scopes(kind) && i <= |e.Scopes(kind)|
    ensures ChainVerdict(e', kind, role, action, i, hasAllow) == ChainVerdict(e, kind, role, action, i, hasAllow)
    decreases |e.Scopes(kind)| - i
  {
    hide RuntimeAt, ScanBindings, Continue;
    if i < |e.Scopes(kind)| {
      if kind == Resource {
        SameRuntime(e, e', i);
      }
      var rt := RuntimeFor(e, kind, i);
      if rt.Ok? {
        OtherChain(e, e', kind, role, action, i + 1, false);
        OtherChain(e, e', kind, role, action, i + 1, true);
      }
    }
  }

  /** Inserting a scope that requires parental consent, with any rows and at any
      point of the principal chain, never makes the loops allow. */
  lemma PrincipalConsentNarrows(e: Env, k: nat, scope: string, action: string)
    requires k <= |e.principalScopes|
    requires e.Permission(scope) == Some(RequireParentalConsent)
    ensures Conclusion(WithScope(e, Principal, k, scope), action) == VAllow ==> Conclusion(e, action) == VAllow
  {
    var e' := WithScope(e, Principal, k, scope);
    if e.roles != [] {
      ChainNarrows(e, Principal, k, scope, e.roles[0], action, 0, false);
    }
    forall r ensures RoleVerdict(e', Resource, r, action) == RoleVerdict(e, Resource, r, action) {
      OtherChain(e, e', Resource, r, action, 0, false);
    }
    SameResourceRoles(e, e', e.roles, action, VNoMatch);
  }

  /** The same for the resource chain, where the inserted scope hands the runtime
      object over, unless a role that allows the action is cut off: what was inserted
      could then deny the role in front of it. */
  lemma ResourceConsentNarrows(e: Env, k: nat, scope: string, action: string)
    requires k <= |e.resourceScopes|
    requires e.Permission(scope) == Some(RequireParentalConsent)
    requires HandsOver(e, k, scope) && !CutOff(e, action)
    ensures Conclusion(WithScope(e, Resource, k, scope), action) == VAllow ==> Conclusion(e, action) == VAllow
  {
    var e' := WithScope(e, Resource, k, scope);
    if e.roles != [] {
      OtherChain(e, e', Principal, e.roles[0], action, 0, false);
    }
    RolesAllowExactly(e, e.roles, action, VNoMatch);
    RolesAllowExactly(e', e.roles, action, VNoMatch);
    if j: nat :| AllowReached(e', e.roles, action, j) {
      ChainNarrows(e, Resource, k, scope, e.roles[j], action, 0, false);
      FirstStop(e, action, j);
    }
  }

  /** No role is cut off in a run without failures. */
  lemma ErrorFreeNotCutOff(e: Env, action: string)
    requires ErrorFree(e, action) && AllowScopesRecorded(e, action)
    ensures !CutOff(e, action)
  {
    forall r | r in e.roles ensures !Stops(RoleVerdict(e, Resource, r, action)) {
      ChainClosedForm(e, Resource, r, action, 0);
    }
  }

  // ---- when it is not so --------------------------------------------------------------

  const DENY := Binding(Deny, None, None, None, None, false, NO_KEY)

  /** The same request, where the scope's rows for the action deny exactly the roles
      whose scan is rejected or fails. */
  function WithDenials(e: Env, scope: string, action: string): Env {
    e.(query := (kind, role, s, a) =>
         if kind == Resource && s == scope && a == action
         then (if Stops(RoleVerdict(e, Resource, role, action)) then [DENY] else [])
         else e.query(kind, role, s, a))
  }

  /** Requests that differ in the rows of a scope outside the chain. */
  lemma {:induction false} SameAnswers(e: Env, e': Env, kind: Kind, role: string, action: string, i: nat,
                                       hasAllow: bool)
    requires e' == e.(query := e'.query, resourceScopes := e'.resourceScopes) && e'.Scopes(kind) == e.Scopes(kind)
    requires i <= |e.Scopes(kind)|
    requires forall s | s in e.Scopes(kind) :: e'.query(kind, role, s, action) == e.query(kind, role, s, action)
    ensures ChainVerdict(e', kind, role, action, i, hasAllow) == ChainVerdict(e, kind, role, action, i, hasAllow)
    decreases |e.Scopes(kind)| - i
  {
    hide RuntimeAt, ScanBindings, Continue;
    if i < |e.Scopes(kind)| {
      if kind == Resource {
        SameRuntime(e, e', i);
      }
      SameAnswers(e, e', kind, role, action, i + 1, false);
      SameAnswers(e, e', kind, role, action, i + 1, true);
    }
  }

  lemma FrontRuntime(e: Env, scope: string)
    requires scope !in e.derivedRoles
    ensures RuntimeAt(WithScope(e, Resource, 0, scope), 0) == Ok(NO_ROLES)
  {
    assert RolesOf(e.derivedRoles, e.rolesAndParents, scope) == map[];
    NoRoles(e.cel, NO_ROLES);
  }

  /** A scope without derived roles at the front leaves all runtime objects alone. */
  lemma {:induction false} RuntimeBehindFront(e: Env, scope: string, i: nat)
    requires i < |e.resourceScopes| && scope !in e.derivedRoles
    ensures RuntimeAt(WithScope(e, Resource, 0, scope), i + 1) == RuntimeAt(e, i)
  {
    hide RuntimeOf;
    if i > 0 {
      RuntimeBehindFront(e, scope, i - 1);
    } else {
      FrontRuntime(e, scope);
    }
  }

  lemma {:induction false} BehindFront(e: Env, scope: string, role: string, action: string, j: nat, hasAllow: bool)
    requires j <= |e.resourceScopes| && scope !in e.derivedRoles
    ensures ChainVerdict(WithScope(e, Resource, 0, scope), Resource, role, action, j + 1, hasAllow) ==
            ChainVerdict(e, Resource, role, action, j, hasAllow)
    decreases |e.resourceScopes| - j
  {
    hide RuntimeAt, ScanBindings, Continue;
    if j < |e.resourceScopes| {
      RuntimeBehindFront(e, scope, j);
      BehindFront(e, scope, role, action, j + 1, false);
      BehindFront(e, scope, role, action, j + 1, true);
    }
  }

  lemma DeniedAtFront(e: Env, scope: string, role: string, action: string)
    requires scope !in e.derivedRoles && e.Permission(scope) == Some(RequireParentalConsent)
    requires e.query(Resource, role, scope, action) == [] || e.query(Resource, role, scope, action) == [DENY]
    ensures RoleVerdict(WithScope(e, Resource, 0, scope), Resource, role, action) ==
            if e.query(Resource, role, scope, action) == [] then RoleVerdict(e, Resource, role, action) else VDeny
  {
    var e' := WithScope(e, Resource, 0, scope);
    BehindFront(e, scope, role, action, 0, false);
    FrontRuntime(e, scope);
    hide RuntimeAt;
    assert Evaluate(e.cel, DENY, NO_ROLES) == Sat;
    assert ScanBindings(e.cel, [DENY], NO_ROLES, false) == Denied;
  }

  /** The condition of ResourceConsentNarrows is exact: where a role is cut off, some
      rows of an inserted scope that requires parental consent turn the decision into
      ALLOW. */
  lemma CutOffWidens(e: Env, scope: string, action: string)
    requires CutOff(e, action) && e.policiesExist && KindVerdict(e, Principal, action) == VNoMatch
    requires scope !in e.resourceScopes && scope !in e.derivedRoles
    requires e.Permission(scope) == Some(RequireParentalConsent)
    ensures var d := WithDenials(e, scope, action);
            Decide(d, action) == Decide(e, action) != Ok(Allow)
                && Decide(WithScope(d, Resource, 0, scope), action) == Ok(Allow)
  {
    hide RoleVerdict, WithDenials, WithScope;
    var d := WithDenials(e, scope, action);
    SameRequest(e, scope, action);
    var d' := WithScope(d, Resource, 0, scope);
    var i, j :| 0 <= i < j < |e.roles| && Stops(RoleVerdict(e, Resource, e.roles[i], action))
        && RoleVerdict(e, Resource, e.roles[j], action) == VAllow
                && forall h | 0 <= h < i :: RoleVerdict(e, Resource, e.roles[h], action) != VAllow;
    PrincipalUntouched(e, scope, action);
    forall r ensures RoleVerdict(d, Resource, r, action) == RoleVerdict(e, Resource, r, action) {
      DenialVerdict(e, scope, r, action);
    }
    forall r ensures var v := RoleVerdict(e, Resource, r, action);
        RoleVerdict(d', Resource, r, action) == if Stops(v) then VDeny else v {
      DenialVerdict(e, scope, r, action);
    }
    SameResourceRoles(e, d, e.roles, action, VNoMatch);
    RolesAllowExactly(e, e.roles, action, VNoMatch);
    RolesAllowExactly(d', e.roles, action, VNoMatch);
    assert AllowReached(d', e.roles, action, j);
    forall k: nat ensures !AllowReached(e, e.roles, action, k) {
    }
  }

  lemma SameRequest(e: Env, scope: string, action: string)
    ensures var d := WithDenials(e, scope, action);
            && d.resourceScopes == e.resourceScopes && d.roles == e.roles && d.policiesExist == e.policiesExist
            && var d' := WithScope(d, Resource, 0, scope); d'.roles == e.roles && d'.policiesExist == e.policiesExist
  {
  }

  lemma PrincipalUntouched(e: Env, scope: string, action: string)
    ensures var d := WithDenials(e, scope, action);
            && KindVerdict(d, Principal, action) == KindVerdict(e, Principal, action)
            && KindVerdict(WithScope(d, Resource, 0, scope), Principal, action) == KindVerdict(e, Principal, action)
  {
    if e.roles != [] {
      var d := WithDenials(e, scope, action);
      SameAnswers(e, d, Principal, e.roles[0], action, 0, false);
      SameAnswers(e, WithScope(d, Resource, 0, scope), Principal, e.roles[0], action, 0, false);
    }
  }

  lemma DenialVerdict(e: Env, scope: string, r: string, action: string)
    requires scope !in e.resourceScopes && scope !in e.derivedRoles
    requires e.Permission(scope) == Some(RequireParentalConsent)
    ensures var d := WithDenials(e, scope, action);
            var v := RoleVerdict(e, Resource, r, action);
            && RoleVerdict(d, Resource, r, action) == v
            && RoleVerdict(WithScope(d, Resource, 0, scope), Resource, r, action) == if Stops(v) then VDeny else v
  {
    var d := WithDenials(e, scope, action);
    SameAnswers(e, d, Resource, r, action, 0, false);
    DeniedAtFront(d, scope, r, action);
    hide ChainVerdict;
  }
}
