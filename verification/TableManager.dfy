/** The rule table under storage events (internal/ruletable/manager.go,
    internal/ruletable/ruletable.go, internal/policy/scopeperms/scopeperms.go):
    policies are added, replaced, deleted and reloaded one event at a time, and the
    table must stay what a fresh load of the same policies would give. */
module TableManager {
  import opened Common
  import opened Check
  import opened Scopes

  const FQN_PREFIX := "cerbos."

  /** A row of the table. `content` is everything that the bookkeeping does not look
      at. */
  datatype Entry<C> = Entry(originFqn: string, kind: Kind, scope: string, fromRolePolicy: bool,
      permissions: Option<Permission>, content: C)

  /** A compiled policy and its rows. `role` is set for role policies; `permissions`
      is None when the policy leaves them unspecified. */
  datatype Policy<C> = Policy(fqn: string, role: Option<string>, kind: Kind, scope: string,
      permissions: Option<Permission>, rows: seq<Entry<C>>)

  datatype Meta = Meta(fqn: string, role: Option<string>)

  ghost predicate WellFormed<C>(p: Policy<C>) {
    && Prefixed(p.fqn)
    && ScopeFromFQN(p.fqn) == p.scope
    && (p.role.Some? ==> p.kind == Resource)
    && (forall r | r in p.rows :: r.originFqn == p.fqn && r.kind == p.kind && r.scope == p.scope
                                  && r.fromRolePolicy == p.role.Some? && r.permissions == p.permissions)
  }

  predicate Prefixed(fqn: string) {
    FQN_PREFIX < fqn
  }

  function FqnFromKey(key: string): string {
    FQN_PREFIX + key
  }

  function PolicyKey(fqn: string): string {
    if FQN_PREFIX <= fqn then fqn[|FQN_PREFIX|..] else fqn
  }

  function Normalise(permissions: Option<Permission>): Permission {
    if permissions.Some? then permissions.value else OverrideParent
  }

  // ---- the tracker -------------------------------------------------------------

  /** The settings of policies by scope and policy key, and the scope of each key. */
  datatype Tracker = Tracker(scopes: map<string, map<string, Permission>>, policies: map<string, string>) {
    function Remove(key: string): Tracker {
      if key !in policies then this
      else
        var scope := policies[key];
        if scope !in scopes then Tracker(scopes, policies - {key})
        else
          var settings := scopes[scope] - {key};
          if settings == map[] then Tracker(scopes - {scope}, policies - {key})
          else Tracker(scopes[scope := settings], policies - {key})
    }

    function Add(key: string, scope: string, permission: Permission): Tracker {
      if scope in scopes && key in scopes[scope] && scopes[scope][key] == permission then this
      else
        var t := Remove(key);
        var settings := if scope in t.scopes then t.scopes[scope] else map[];
        Tracker(t.scopes[scope := settings[key := permission]], t.policies[key := scope])
    }

    predicate Tracked(scope: string) {
      scope in scopes && |scopes[scope]| > 0
    }

    /** Another policy than the two named has a different setting in the scope. */
    ghost predicate Conflicts(key: string, scope: string, permission: Permission, ignored: string) {
      scope in scopes &&
      exists k | k in scopes[scope] :: k != key && k != ignored && scopes[scope][k] != permission
    }

    ghost predicate Valid() {
      && (forall k | k in policies :: policies[k] in scopes && k in scopes[policies[k]])
      && (forall s, k | s in scopes && k in scopes[s] :: k in policies && policies[k] == s)
    }
  }

  /** What the tracker says of a policy key. */
  ghost function Setting(t: Tracker, key: string): Option<(string, Permission)>
    requires t.Valid()
  {
    if key in t.policies then Some((t.policies[key], t.scopes[t.policies[key]][key])) else None
  }

  lemma TrackerRemove(t: Tracker, key: string)
    requires t.Valid()
    ensures t.Remove(key).Valid()
    ensures forall k :: Setting(t.Remove(key), k) == if k == key then None else Setting(t, k)
  {
    if key in t.policies {
      var scope := t.policies[key];
      var settings := t.scopes[scope] - {key};
      assert forall k | k in t.scopes[scope] && k != key :: k in settings;
    }
  }

  /** No scope is kept for policies that are gone. */
  lemma NoEmptyScope(t: Tracker, key: string, scope: string, permission: Permission)
    requires map[] !in t.scopes.Values
    ensures map[] !in t.Remove(key).scopes.Values && map[] !in t.Add(key, scope, permission).scopes.Values
  {
    var r := t.Remove(key);
    forall s | s in r.scopes ensures r.scopes[s] != map[] {
      assert s in t.scopes && t.scopes[s] in t.scopes.Values;
    }
    var settings := if scope in r.scopes then r.scopes[scope] else map[];
    assert key in settings[key := permission];
  }

  lemma TrackerAdd(t: Tracker, key: string, scope: string, permission: Permission)
    requires t.Valid()
    ensures t.Add(key, scope, permission).Valid()
    ensures forall k :: Setting(t.Add(key, scope, permission), k) == if k == key then Some((scope, permission))
            else Setting(t, k)
  {
    TrackerRemove(t, key);
  }

  lemma AddTwice(t: Tracker, key: string, scope: string, permission: Permission)
    ensures t.Add(key, scope, permission).Add(key, scope, permission) == t.Add(key, scope, permission)
  {
  }

  lemma TrackedExactly(t: Tracker, scope: string)
    requires t.Valid()
    ensures t.Tracked(scope) <==> exists k :: Setting(t, k).Some? && Setting(t, k).value.0 == scope
  {
    if t.Tracked(scope) {
      var k :| k in t.scopes[scope];
      assert Setting(t, k).Some?;
    }
  }

  // ---- what a table with the given live policies looks like --------------------------

  ghost predicate AllWellFormed<C(!new)>(live: map<string, Policy<C>>) {
    forall f | f in live :: live[f].fqn == f && WellFormed(live[f])
  }

  /** How often a row is in the table: as often as its own policy has it, and never
      when that policy is not live. */
  ghost function Copies<C(!new)>(live: map<string, Policy<C>>, r: Entry<C>): nat {
    if r.originFqn in live then multiset(live[r.originFqn].rows)[r] else 0
  }

  ghost predicate Holds<C(!new)>(rows: seq<Entry<C>>, live: map<string, Policy<C>>) {
    forall r :: multiset(rows)[r] == Copies(live, r)
  }

  /** Scopes with a row of the kind are recorded; recorded scopes have some row. */
  ghost predicate ScopesRecorded<C>(rows: seq<Entry<C>>, kind: Kind, scopes: set<string>) {
    && (forall r | r in rows && r.kind == kind :: r.scope in scopes)
    && (forall s | s in scopes :: exists r | r in rows :: r.scope == s)
  }

  /** A row of a resource or principal policy in the scope. */
  ghost predicate Constrained<C>(rows: seq<Entry<C>>, scope: string) {
    exists r | r in rows :: !r.fromRolePolicy && r.scope == scope
  }

  ghost predicate PermissionsDefined<C>(rows: seq<Entry<C>>, permissions: map<string, Permission>) {
    forall s :: s in permissions <==> Constrained(rows, s)
  }

  predicate Counts<C>(p: Policy<C>) {
    p.role.None? && p.rows != []
  }

  ghost function SettingOf<C(!new)>(live: map<string, Policy<C>>, fqn: string): Option<(string, Permission)> {
    if fqn in live && Counts(live[fqn]) then Some((live[fqn].scope, Normalise(live[fqn].permissions))) else None
  }

  ghost predicate Tracks<C(!new)>(t: Tracker, live: map<string, Policy<C>>) {
    t.Valid() && forall k :: Setting(t, k) == SettingOf(live, FqnFromKey(k))
  }

  /** Policies that share a scope have the same setting. */
  ghost predicate Agreeing<C(!new)>(live: map<string, Policy<C>>) {
    forall f, g | SettingOf(live, f).Some? && SettingOf(live, g).Some?
        && SettingOf(live, f).value.0 == SettingOf(live, g).value.0 ::
      SettingOf(live, f) == SettingOf(live, g)
  }

  /** The permission recorded for a scope is the setting of its policies. */
  ghost predicate Settled<C(!new)>(live: map<string, Policy<C>>, permissions: map<string, Permission>) {
    forall f | SettingOf(live, f).Some? ::
      SettingOf(live, f).value.0 in permissions && permissions[SettingOf(live, f).value.0] == SettingOf(live, f).value.1
  }

  /** The permission recorded for the scope of a live resource or principal policy with
      rows is the policy's own, and OVERRIDE_PARENT where it leaves it unspecified. */
  ghost predicate OwnPermissions<C(!new)>(live: map<string, Policy<C>>, permissions: map<string, Permission>) {
    forall f | f in live && live[f].role.None? && live[f].rows != [] ::
      && live[f].scope in permissions
      && match live[f].permissions
         case None => permissions[live[f].scope] == OverrideParent
         case Some(own) => permissions[live[f].scope] == own
  }

  lemma SettledIsOwn<C(!new)>(live: map<string, Policy<C>>, permissions: map<string, Permission>)
    ensures Settled(live, permissions) <==> OwnPermissions(live, permissions)
  {
    forall f | f in live && live[f].role.None? && live[f].rows != []
      ensures SettingOf(live, f) == Some((live[f].scope, Normalise(live[f].permissions)))
    {
    }
  }

  /** The rows of a table are determined by its live policies. */
  lemma RowsDetermined<C(!new)>(rows: seq<Entry<C>>, rows': seq<Entry<C>>, live: map<string, Policy<C>>)
    requires Holds(rows, live) && Holds(rows', live)
    ensures multiset(rows) == multiset(rows')
  {
    forall r ensures multiset(rows)[r] == multiset(rows')[r] {
      assert multiset(rows)[r] == Copies(live, r);
    }
  }

  lemma RowIsLive<C(!new)>(rows: seq<Entry<C>>, live: map<string, Policy<C>>, r: Entry<C>)
    requires Holds(rows, live)
    ensures r in rows <==> r.originFqn in live && r in live[r.originFqn].rows
  {
    assert r in rows <==> multiset(rows)[r] > 0;
    assert multiset(rows)[r] == Copies(live, r);
  }

  // ---- adding ---------------------------------------------------------------------------

  lemma AddedRows<C(!new)>(rows: seq<Entry<C>>, live: map<string, Policy<C>>, p: Policy<C>)
    requires Holds(rows, live) && WellFormed(p) && p.fqn !in live
    ensures Holds(rows + p.rows, live[p.fqn := p])
  {
    forall r ensures multiset(rows + p.rows)[r] == Copies(live[p.fqn := p], r) {
      assert multiset(rows)[r] == Copies(live, r);
      if r.originFqn != p.fqn {
        assert r !in p.rows;
        assert multiset(p.rows)[r] == 0;
      }
    }
  }

  lemma PrefixedKey(fqn: string)
    requires Prefixed(fqn)
    ensures FqnFromKey(PolicyKey(fqn)) == fqn && PolicyKey(fqn) != ""
  {
  }

  lemma KeyOfFqn(key: string)
    ensures PolicyKey(FqnFromKey(key)) == key
  {
  }

  lemma AddedTracks<C(!new)>(t: Tracker, live: map<string, Policy<C>>, p: Policy<C>)
    requires Tracks(t, live) && WellFormed(p) && p.fqn !in live
    ensures Tracks(if Counts(p) then t.Add(PolicyKey(p.fqn), p.scope, Normalise(p.permissions))
            else t, live[p.fqn := p])
  {
    var key := PolicyKey(p.fqn);
    PrefixedKey(p.fqn);
    TrackerAdd(t, key, p.scope, Normalise(p.permissions));
    var t' := if Counts(p) then t.Add(key, p.scope, Normalise(p.permissions)) else t;
    forall k ensures Setting(t', k) == SettingOf(live[p.fqn := p], FqnFromKey(k)) {
      KeyOfFqn(k);
      assert Setting(t, k) == SettingOf(live, FqnFromKey(k));
    }
  }

  lemma AddedPermissions<C(!new)>(rows: seq<Entry<C>>, permissions: map<string, Permission>, p: Policy<C>)
    requires PermissionsDefined(rows, permissions) && WellFormed(p)
    ensures PermissionsDefined(rows + p.rows, if Counts(p) then permissions[p.scope := Normalise(p.permissions)]
            else permissions)
  {
    forall s ensures Constrained(rows + p.rows, s) <==> Constrained(rows, s) || (Counts(p) && s == p.scope) {
      if Counts(p) && s == p.scope {
        assert p.rows[0] in rows + p.rows;
      }
      if Constrained(rows, s) {
        var r :| r in rows && !r.fromRolePolicy && r.scope == s;
        assert r in rows + p.rows;
      }
    }
  }

  lemma AddedScopes<C(!new)>(rows: seq<Entry<C>>, scopes: set<string>, kind: Kind, p: Policy<C>)
    requires ScopesRecorded(rows, kind, scopes) && WellFormed(p)
    ensures ScopesRecorded(rows + p.rows, kind, if p.rows != [] && p.kind == kind then scopes + {p.scope} else scopes)
  {
    var all := rows + p.rows;
    forall s | s in scopes ensures exists r | r in all :: r.scope == s {
      var r :| r in rows && r.scope == s;
      assert r in all;
    }
    if p.rows != [] {
      assert p.rows[0] in all;
    }
  }

  lemma AddedSettled<C(!new)>(live: map<string, Policy<C>>, permissions: map<string, Permission>, p: Policy<C>)
    requires Settled(live, permissions) && p.fqn !in live && Agreeing(live[p.fqn := p])
    ensures Settled(live[p.fqn := p], if Counts(p) then permissions[p.scope := Normalise(p.permissions)]
            else permissions)
  {
    var live' := live[p.fqn := p];
    forall f | SettingOf(live', f).Some?
      ensures f != p.fqn ==> SettingOf(live', f) == SettingOf(live, f)
      ensures Counts(p) && SettingOf(live', f).value.0 == p.scope ==> SettingOf(live', f) == SettingOf(live', p.fqn)
    {
    }
  }

  // ---- deleting -------------------------------------------------------------------------

  function Without<C>(rows: seq<Entry<C>>, fqn: string): seq<Entry<C>> {
    if rows == [] then []
    else if rows[0].originFqn == fqn then Without(rows[1..], fqn)
    else [rows[0]] + Without(rows[1..], fqn)
  }

  lemma {:induction false} WithoutCopies<C(!new)>(rows: seq<Entry<C>>, fqn: string, r: Entry<C>)
    ensures multiset(Without(rows, fqn))[r] == if r.originFqn == fqn then 0 else multiset(rows)[r]
  {
    if rows != [] {
      WithoutCopies(rows[1..], fqn, r);
      assert rows == [rows[0]] + rows[1..];
    }
  }

  lemma DeletedRows<C(!new)>(rows: seq<Entry<C>>, live: map<string, Policy<C>>, fqn: string)
    requires Holds(rows, live)
    ensures Holds(Without(rows, fqn), live - {fqn})
    ensures forall r :: r in Without(rows, fqn) <==> r in rows && r.originFqn != fqn
  {
    forall r
      ensures multiset(Without(rows, fqn))[r] == Copies(live - {fqn}, r)
      ensures r in Without(rows, fqn) <==> r in rows && r.originFqn != fqn
    {
      WithoutCopies(rows, fqn, r);
      assert multiset(rows)[r] == Copies(live, r);
      assert r in Without(rows, fqn) <==> multiset(Without(rows, fqn))[r] > 0;
    }
  }

  lemma DeletedTracks<C(!new)>(t: Tracker, live: map<string, Policy<C>>, fqn: string)
    requires Tracks(t, live) && Prefixed(fqn)
    ensures Tracks(t.Remove(PolicyKey(fqn)), live - {fqn})
  {
    var key := PolicyKey(fqn);
    PrefixedKey(fqn);
    TrackerRemove(t, key);
    forall k ensures Setting(t.Remove(key), k) == SettingOf(live - {fqn}, FqnFromKey(k)) {
      KeyOfFqn(k);
      assert Setting(t, k) == SettingOf(live, FqnFromKey(k));
    }
  }

  /** A scope is tracked exactly when a row of a resource or principal policy is in it. */
  lemma TrackedScopes<C(!new)>(t: Tracker, rows: seq<Entry<C>>, live: map<string, Policy<C>>, scope: string)
    requires Tracks(t, live) && Holds(rows, live) && AllWellFormed(live)
    ensures t.Tracked(scope) <==> Constrained(rows, scope)
  {
    TrackedExactly(t, scope);
    if t.Tracked(scope) {
      var k :| Setting(t, k).Some? && Setting(t, k).value.0 == scope;
      var f := FqnFromKey(k);
      assert SettingOf(live, f) == Setting(t, k);
      var r := live[f].rows[0];
      RowIsLive(rows, live, r);
      assert r in rows && !r.fromRolePolicy && r.scope == scope;
    }
    if Constrained(rows, scope) {
      var r :| r in rows && !r.fromRolePolicy && r.scope == scope;
      RowIsLive(rows, live, r);
      PrefixedKey(r.originFqn);
      assert Setting(t, PolicyKey(r.originFqn)) == SettingOf(live, r.originFqn);
    }
  }

  function ActiveScopes<C(==)>(rows: seq<Entry<C>>): set<string> {
    set r | r in rows :: r.scope
  }

  lemma DeletedScopes<C(!new)>(rows: seq<Entry<C>>, rows': seq<Entry<C>>, scopes: set<string>, kind: Kind)
    requires ScopesRecorded(rows, kind, scopes) && forall r | r in rows' :: r in rows
    ensures ScopesRecorded(rows', kind, scopes * ActiveScopes(rows'))
  {
    forall s | s in scopes * ActiveScopes(rows') ensures exists r | r in rows' :: r.scope == s {
    }
  }

  lemma DeletedPermissions<C(!new)>(rows: seq<Entry<C>>, rows': seq<Entry<C>>, permissions: map<string, Permission>,
                                    scope: string, fqn: string)
    requires PermissionsDefined(rows, permissions)
    requires forall r :: r in rows' <==> r in rows && r.originFqn != fqn
    requires forall r | r in rows && r.originFqn == fqn :: r.scope == scope
    ensures PermissionsDefined(rows', if Constrained(rows', scope) then permissions else permissions - {scope})
  {
    forall s ensures s != scope ==> (Constrained(rows', s) <==> Constrained(rows, s)) {
      if Constrained(rows, s) && s != scope {
        var r :| r in rows && !r.fromRolePolicy && r.scope == s;
        assert r in rows';
      }
      if Constrained(rows', s) {
        var r :| r in rows' && !r.fromRolePolicy && r.scope == s;
        assert r in rows;
      }
    }
    if Constrained(rows', scope) {
      var r :| r in rows' && !r.fromRolePolicy && r.scope == scope;
      assert r in rows;
    }
  }

  lemma DeletedSettled<C(!new)>(live: map<string, Policy<C>>, rows': seq<Entry<C>>,
                                permissions: map<string, Permission>, fqn: string, scope: string)
    requires Settled(live, permissions) && Holds(rows', live - {fqn}) && AllWellFormed(live - {fqn})
    ensures Settled(live - {fqn}, if Constrained(rows', scope) then permissions else permissions - {scope})
  {
    var live' := live - {fqn};
    forall f | SettingOf(live', f).Some?
      ensures SettingOf(live', f) == SettingOf(live, f) && Constrained(rows', SettingOf(live', f).value.0)
    {
      var r := live'[f].rows[0];
      RowIsLive(rows', live', r);
      assert r in rows' && !r.fromRolePolicy && r.scope == live'[f].scope;
    }
  }

  // ---- conflicts ----------------------------------------------------------------------------

  /** Adding the policy would make its scope disagree, not counting the policy it
      replaces and the one about to be removed. */
  ghost predicate Rejects<C(!new)>(live: map<string, Policy<C>>, p: Policy<C>, oldFqn: Option<string>) {
    p.role.None? &&
    exists f | SettingOf(live, f).Some? ::
      f != p.fqn && Some(f) != oldFqn && SettingOf(live, f).value.0 == p.scope
          && SettingOf(live, f).value.1 != Normalise(p.permissions)
  }

  lemma ConflictsBySetting(t: Tracker, key: string, scope: string, permission: Permission, ignored: string)
    requires t.Valid()
    ensures t.Conflicts(key, scope, permission, ignored) <==>
            exists k | Setting(t, k).Some? ::
                k != key && k != ignored && Setting(t, k).value.0 == scope && Setting(t, k).value.1 != permission
  {
    if t.Conflicts(key, scope, permission, ignored) {
      var k :| k in t.scopes[scope] && k != key && k != ignored && t.scopes[scope][k] != permission;
      assert Setting(t, k) == Some((scope, t.scopes[scope][k]));
    }
  }

  lemma ConflictsExactly<C(!new)>(t: Tracker, live: map<string, Policy<C>>, p: Policy<C>, oldFqn: Option<string>,
                                  ignored: string)
    requires Tracks(t, live) && AllWellFormed(live) && WellFormed(p) && p.role.None?
    requires ignored == if oldFqn.Some? && oldFqn.value in live then PolicyKey(oldFqn.value) else ""
    ensures t.Conflicts(PolicyKey(p.fqn), p.scope, Normalise(p.permissions), ignored) <==> Rejects(live, p, oldFqn)
  {
    var key, permission := PolicyKey(p.fqn), Normalise(p.permissions);
    assert Prefixed(p.fqn) && t.Valid();
    assert oldFqn.Some? && oldFqn.value in live ==> Prefixed(oldFqn.value);
    hide *;
    ConflictsBySetting(t, key, p.scope, permission, ignored);
    RejectsBySetting(live, p, oldFqn);
    PrefixedKey(p.fqn);
    if oldFqn.Some? && oldFqn.value in live {
      PrefixedKey(oldFqn.value);
    }
    if t.Conflicts(key, p.scope, permission, ignored) {
      var k :| Setting(t, k).Some? && k != key && k != ignored && Setting(t, k).value.0 == p.scope
          && Setting(t, k).value.1 != permission;
      KeyOfFqn(k);
      SettingOfKey(t, live, k);
      SettingLive(live, FqnFromKey(k));
    }
    if Rejects(live, p, oldFqn) {
      var f :| SettingOf(live, f).Some? && f != p.fqn && Some(f) != oldFqn && SettingOf(live, f).value.0 == p.scope
          && SettingOf(live, f).value.1 != permission;
      SettingLive(live, f);
      PrefixedKey(f);
      SettingOfKey(t, live, PolicyKey(f));
    }
  }

  lemma RejectsBySetting<C(!new)>(live: map<string, Policy<C>>, p: Policy<C>, oldFqn: Option<string>)
    requires p.role.None?
    ensures Rejects(live, p, oldFqn) <==>
            exists f | SettingOf(live, f).Some? ::
              f != p.fqn && Some(f) != oldFqn && SettingOf(live, f).value.0 == p.scope
                  && SettingOf(live, f).value.1 != Normalise(p.permissions)
  {
  }

  lemma SettingOfKey<C(!new)>(t: Tracker, live: map<string, Policy<C>>, k: string)
    requires Tracks(t, live)
    ensures t.Valid() && Setting(t, k) == SettingOf(live, FqnFromKey(k))
  {
  }

  lemma SettingLive<C(!new)>(live: map<string, Policy<C>>, f: string)
    requires AllWellFormed(live) && SettingOf(live, f).Some?
    ensures f in live && Prefixed(f)
  {
    assert WellFormed(live[f]);
  }

  /** A policy that is not rejected keeps a table in agreement. */
  lemma AcceptedAgrees<C(!new)>(live: map<string, Policy<C>>, p: Policy<C>, oldFqn: Option<string>)
    requires Agreeing(live) && !Rejects(live, p, oldFqn)
    ensures Agreeing((live - {p.fqn} - Optional(oldFqn))[p.fqn := p])
  {
    var kept := live - {p.fqn} - Optional(oldFqn);
    var live' := kept[p.fqn := p];
    forall f | SettingOf(live', f).Some? && f != p.fqn
      ensures SettingOf(live', f) == SettingOf(live, f) && Some(f) != oldFqn
    {
    }
  }

  ghost predicate Disagreement(t: Tracker) {
    exists s, k, l | s in t.scopes && k in t.scopes[s] && l in t.scopes[s] :: t.scopes[s][k] != t.scopes[s][l]
  }

  lemma DisagreementBySetting(t: Tracker)
    requires t.Valid()
    ensures Disagreement(t) <==>
            exists k, l | Setting(t, k).Some? && Setting(t, l).Some?
                && Setting(t, k).value.0 == Setting(t, l).value.0 :: Setting(t, k) != Setting(t, l)
  {
    if Disagreement(t) {
      var s, k, l :| s in t.scopes && k in t.scopes[s] && l in t.scopes[s] && t.scopes[s][k] != t.scopes[s][l];
      assert Setting(t, k) == Some((s, t.scopes[s][k])) && Setting(t, l) == Some((s, t.scopes[s][l]));
    }
  }

  lemma DisagreementExactly<C(!new)>(t: Tracker, live: map<string, Policy<C>>)
    requires Tracks(t, live) && AllWellFormed(live)
    ensures Disagreement(t) <==> !Agreeing(live)
  {
    assert t.Valid();
    hide *;
    DisagreementBySetting(t);
    AgreeingBySetting(live);
    if Disagreement(t) {
      var k, l :| Setting(t, k).Some? && Setting(t, l).Some? && Setting(t, k).value.0 == Setting(t, l).value.0
          && Setting(t, k) != Setting(t, l);
      SettingOfKey(t, live, k);
      SettingOfKey(t, live, l);
    }
    if !Agreeing(live) {
      var f, g :| SettingOf(live, f).Some? && SettingOf(live, g).Some?
          && SettingOf(live, f).value.0 == SettingOf(live, g).value.0
                  && SettingOf(live, f) != SettingOf(live, g);
      SettingLive(live, f);
      SettingLive(live, g);
      PrefixedKey(f);
      PrefixedKey(g);
      SettingOfKey(t, live, PolicyKey(f));
      SettingOfKey(t, live, PolicyKey(g));
    }
  }

  lemma AgreeingBySetting<C(!new)>(live: map<string, Policy<C>>)
    ensures Agreeing(live) <==>
            forall f, g | SettingOf(live, f).Some? && SettingOf(live, g).Some?
                && SettingOf(live, f).value.0 == SettingOf(live, g).value.0 ::
              SettingOf(live, f) == SettingOf(live, g)
  {
  }

  /** The loop over the settings of one scope. */
  method Disagree(settings: map<string, Permission>) returns (b: bool)
    ensures b <==> exists k, l | k in settings && l in settings :: settings[k] != settings[l]
  {
    var first: Option<Permission> := None;
    var left := settings.Keys;
    while left != {}
      invariant left <= settings.Keys
      invariant first.None? ==> left == settings.Keys
      invariant first.Some? ==> exists k :: k in settings && k !in left && settings[k] == first.value
      invariant forall k | k in settings && k !in left :: first == Some(settings[k])
      decreases left
    {
      var k :| k in left;
      left := left - {k};
      if first.None? {
        first := Some(settings[k]);
      } else if settings[k] != first.value {
        return true;
      }
    }
    return false;
  }

  method HasConflicts(t: Tracker) returns (b: bool)
    ensures b <==> Disagreement(t)
  {
    var left := t.scopes.Keys;
    while left != {}
      invariant left <= t.scopes.Keys
      invariant forall s, k, l | s in t.scopes && s !in left && k in t.scopes[s] && l in t.scopes[s] ::
                t.scopes[s][k] == t.scopes[s][l]
      decreases left
    {
      var s :| s in left;
      left := left - {s};
      var d := Disagree(t.scopes[s]);
      if d {
        return true;
      }
    }
    return false;
  }

  /** The loop of Tracker.Check. */
  method WouldConflict(t: Tracker, key: string, scope: string, permission: Permission, ignored: string)
    returns (b: bool)
    ensures b <==> t.Conflicts(key, scope, permission, ignored)
  {
    b := false;
    if scope in t.scopes {
      var left := t.scopes[scope].Keys;
      while left != {}
        invariant left <= t.scopes[scope].Keys
        invariant b <==> exists k | k in t.scopes[scope] && k !in left ::
                  k != key && k != ignored && t.scopes[scope][k] != permission
        decreases left
      {
        var k :| k in left;
        left := left - {k};
        if k != key && k != ignored && t.scopes[scope][k] != permission {
          b := true;
        }
      }
    }
  }

  // ---- the table ----------------------------------------------------------------------------

  /** The fields of a table whose policies are `live`. */
  ghost predicate Consistent<C(!new)>(
    rows: seq<Entry<C>>, meta: map<string, Meta>, principalScopes: set<string>, resourceScopes: set<string>,
    tracker: Tracker, permissions: map<string, Permission>, live: map<string, Policy<C>>)
  {
    && AllWellFormed(live)
    && meta.Keys == live.Keys && (forall f | f in meta :: meta[f] == Meta(f, live[f].role))
    && Holds(rows, live)
    && ScopesRecorded(rows, Principal, principalScopes) && ScopesRecorded(rows, Resource, resourceScopes)
    && Tracks(tracker, live)
    && PermissionsDefined(rows, permissions)
  }

  lemma AddedConsistent<C(!new)>(
    rows: seq<Entry<C>>, meta: map<string, Meta>, principalScopes: set<string>, resourceScopes: set<string>,
    tracker: Tracker, permissions: map<string, Permission>, live: map<string, Policy<C>>, p: Policy<C>)
    requires Consistent(rows, meta, principalScopes, resourceScopes, tracker, permissions, live)
    requires WellFormed(p) && p.fqn !in live
    ensures Consistent(rows + p.rows, meta[p.fqn := Meta(p.fqn, p.role)],
                       if p.rows != [] && p.kind == Principal then principalScopes + {p.scope} else principalScopes,
                       if p.rows != [] && p.kind == Resource then resourceScopes + {p.scope} else resourceScopes,
                       if Counts(p) then tracker.Add(PolicyKey(p.fqn), p.scope, Normalise(p.permissions)) else tracker,
                       if Counts(p) then permissions[p.scope := Normalise(p.permissions)] else permissions,
                       live[p.fqn := p])
  {
    hide Holds, Tracks, PermissionsDefined, ScopesRecorded, WellFormed, Tracker.Add, PolicyKey, Normalise;
    AddedRows(rows, live, p);
    AddedTracks(tracker, live, p);
    AddedPermissions(rows, permissions, p);
    AddedScopes(rows, principalScopes, Principal, p);
    AddedScopes(rows, resourceScopes, Resource, p);
  }

  lemma DeletedConsistent<C(!new)>(
    rows: seq<Entry<C>>, meta: map<string, Meta>, principalScopes: set<string>, resourceScopes: set<string>,
    tracker: Tracker, permissions: map<string, Permission>, live: map<string, Policy<C>>, fqn: string)
    requires Consistent(rows, meta, principalScopes, resourceScopes, tracker, permissions, live) && fqn in live
    ensures var left, t := Without(rows, fqn), tracker.Remove(PolicyKey(fqn));
            var scope := ScopeFromFQN(fqn);
            Consistent(left, meta - {fqn}, principalScopes * ActiveScopes(left), resourceScopes * ActiveScopes(left),
                       t, if t.Tracked(scope) then permissions else permissions - {scope}, live - {fqn})
  {
    var left, t, scope := Without(rows, fqn), tracker.Remove(PolicyKey(fqn)), ScopeFromFQN(fqn);
    assert Prefixed(fqn) by { assert WellFormed(live[fqn]) && live[fqn].fqn == fqn; }
    assert AllWellFormed(live - {fqn});
    hide AllWellFormed, WellFormed, Holds, Tracks, PermissionsDefined, ScopesRecorded, Constrained, Settled, Without,
        ActiveScopes, PolicyKey, Prefixed, ScopeFromFQN,
      Tracker.Remove, Tracker.Tracked;
    DeletedRows(rows, live, fqn);
    DeletedTracks(tracker, live, fqn);
    DeletedScopes(rows, left, principalScopes, Principal);
    DeletedScopes(rows, left, resourceScopes, Resource);
    OwnScope(rows, live, fqn);
    DeletedPermissions(rows, left, permissions, scope, fqn);
    TrackedScopes(t, left, live - {fqn}, scope);
  }

  lemma StillSettled<C(!new)>(rows: seq<Entry<C>>, tracker: Tracker, permissions: map<string, Permission>,
                              live: map<string, Policy<C>>, fqn: string)
    requires Holds(rows, live) && Tracks(tracker, live) && AllWellFormed(live) && fqn in live
    ensures var t, scope := tracker.Remove(PolicyKey(fqn)), ScopeFromFQN(fqn);
            Settled(live, permissions) ==>
                Settled(live - {fqn}, if t.Tracked(scope) then permissions else permissions - {scope})
  {
    var left, t, scope := Without(rows, fqn), tracker.Remove(PolicyKey(fqn)), ScopeFromFQN(fqn);
    assert Prefixed(fqn) by { assert WellFormed(live[fqn]) && live[fqn].fqn == fqn; }
    assert AllWellFormed(live - {fqn});
    hide *;
    DeletedRows(rows, live, fqn);
    DeletedTracks(tracker, live, fqn);
    TrackedScopes(t, left, live - {fqn}, scope);
    if Settled(live, permissions) {
      DeletedSettled(live, left, permissions, fqn, scope);
    }
  }

  lemma MetaNames<C(!new)>(
    rows: seq<Entry<C>>, meta: map<string, Meta>, principalScopes: set<string>, resourceScopes: set<string>,
    tracker: Tracker, permissions: map<string, Permission>, live: map<string, Policy<C>>, fqn: string)
    requires Consistent(rows, meta, principalScopes, resourceScopes, tracker, permissions, live)
    ensures fqn in meta <==> fqn in live
    ensures fqn in meta ==> meta[fqn].fqn == fqn
    ensures Holds(rows, live) && Tracks(tracker, live) && AllWellFormed(live)
  {
  }

  lemma OwnScope<C(!new)>(rows: seq<Entry<C>>, live: map<string, Policy<C>>, fqn: string)
    requires Holds(rows, live) && AllWellFormed(live) && fqn in live
    ensures forall r | r in rows && r.originFqn == fqn :: r.scope == ScopeFromFQN(fqn)
  {
    forall r | r in rows && r.originFqn == fqn ensures r.scope == ScopeFromFQN(fqn) {
      RowIsLive(rows, live, r);
    }
  }

  class RuleTable<C(==, !new)> {
    var rows: seq<Entry<C>>
    var meta: map<string, Meta>
    var principalScopes: set<string>
    var resourceScopes: set<string>
    var tracker: Tracker
    var permissions: map<string, Permission>
    ghost var live: map<string, Policy<C>>

    ghost predicate Valid()
      reads this
    {
      Consistent(rows, meta, principalScopes, resourceScopes, tracker, permissions, live)
    }

    constructor ()
      ensures Valid() && live == map[] && rows == [] && permissions == map[]
    {
      rows, meta, principalScopes, resourceScopes := [], map[], {}, {};
      tracker, permissions, live := Tracker(map[], map[]), map[], map[];
    }

    method IndexRules(newRows: seq<Entry<C>>, ghost p: Policy<C>)
      requires WellFormed(p) && newRows == p.rows
      modifies `rows, `principalScopes, `resourceScopes, `tracker, `permissions
      ensures rows == old(rows) + newRows
      ensures principalScopes ==
              if p.rows != [] && p.kind == Principal then old(principalScopes) + {p.scope} else old(principalScopes)
      ensures resourceScopes ==
              if p.rows != [] && p.kind == Resource then old(resourceScopes) + {p.scope} else old(resourceScopes)
      ensures tracker ==
              if Counts(p) then old(tracker).Add(PolicyKey(p.fqn), p.scope, Normalise(p.permissions)) else old(tracker)
      ensures permissions ==
              if Counts(p) then old(permissions)[p.scope := Normalise(p.permissions)] else old(permissions)
    {
      AddTwice(tracker, PolicyKey(p.fqn), p.scope, Normalise(p.permissions));
      hide Tracker.Add, PolicyKey, Normalise, Prefixed, ScopeFromFQN;
      var i := 0;
      while i < |newRows|
        invariant 0 <= i <= |newRows| && rows == old(rows)
        invariant principalScopes ==
                  if i > 0 && p.kind == Principal then old(principalScopes) + {p.scope} else old(principalScopes)
        invariant resourceScopes ==
                  if i > 0 && p.kind == Resource then old(resourceScopes) + {p.scope} else old(resourceScopes)
        invariant tracker ==
                  if i > 0 && p.role.None? then old(tracker).Add(PolicyKey(p.fqn), p.scope, Normalise(p.permissions))
                  else old(tracker)
        invariant permissions ==
                  if i > 0 && p.role.None? then old(permissions)[p.scope := Normalise(p.permissions)]
                  else old(permissions)
      {
        var row := newRows[i];
        assert row in p.rows;
        if !row.fromRolePolicy {
          tracker := tracker.Add(PolicyKey(row.originFqn), row.scope, Normalise(row.permissions));
          permissions := permissions[row.scope := Normalise(row.permissions)];
        }
        match row.kind {
          case Principal => principalScopes := principalScopes + {row.scope};
          case Resource => resourceScopes := resourceScopes + {row.scope};
        }
        i := i + 1;
      }
      rows := rows + newRows;
    }

    /** Adds a compiled policy; None stands for a module that compiles to nothing. */
    method IngestPolicy(p: Option<Policy<C>>)
      requires Valid()
      requires p.Some? ==> WellFormed(p.value) && p.value.fqn !in live
      modifies this
      ensures Valid()
      ensures live == if p.Some? then old(live)[p.value.fqn := p.value] else old(live)
      ensures old(Settled(live, permissions)) && Agreeing(live) ==> Settled(live, permissions)
    {
      if p.None? {
        return;
      }
      hide Consistent, WellFormed, Settled, Agreeing, Counts, Tracker.Add, PolicyKey, Normalise;
      AddedConsistent(rows, meta, principalScopes, resourceScopes, tracker, permissions, live, p.value);
      if Settled(live, permissions) && Agreeing(live[p.value.fqn := p.value]) {
        AddedSettled(live, permissions, p.value);
      }
      meta := meta[p.value.fqn := Meta(p.value.fqn, p.value.role)];
      IndexRules(p.value.rows, p.value);
      live := live[p.value.fqn := p.value];
    }

    method DeletePolicy(fqn: string)
      requires Valid()
      modifies this
      ensures Valid() && live == old(live) - {fqn}
      ensures old(Settled(live, permissions)) ==> Settled(live, permissions)
    {
      hide Consistent, Settled, Without, ActiveScopes, Tracker.Remove, Tracker.Tracked, PolicyKey, ScopeFromFQN,
          AllWellFormed, Holds, Tracks;
      MetaNames(rows, meta, principalScopes, resourceScopes, tracker, permissions, live, fqn);
      if fqn !in meta {
        assert live - {fqn} == live;
        return;
      }
      DeletedConsistent(rows, meta, principalScopes, resourceScopes, tracker, permissions, live, fqn);
      StillSettled(rows, tracker, permissions, live, fqn);
      rows := Without(rows, meta[fqn].fqn);
      var active := ActiveScopes(rows);
      principalScopes := principalScopes * active;
      resourceScopes := resourceScopes * active;
      tracker := tracker.Remove(PolicyKey(meta[fqn].fqn));
      var scope := ScopeFromFQN(meta[fqn].fqn);
      if !tracker.Tracked(scope) {
        permissions := permissions - {scope};
      }
      meta := meta - {fqn};
      live := live - {fqn};
    }
  }

  // ---- storage events -------------------------------------------------------------------------

  /** A storage event together with what the policy loader answers while it is being
      processed: all policies for a reload, the changed policy, the dependents. */
  datatype Event<C> =
    | Reload(all: Result<seq<Policy<C>>>)
    | AddOrUpdate(policyId: string, oldPolicyId: Option<string>, first: Result<Option<Policy<C>>>,
        dependents: seq<string>, reloaded: Result<seq<Policy<C>>>)
    | DeleteOrDisable(policyId: string, dependents: seq<string>, reloaded: Result<seq<Policy<C>>>)
    | Other

  ghost predicate Distinct<C(!new)>(policies: seq<Policy<C>>) {
    && (forall p | p in policies :: WellFormed(p))
    && (forall i, j | 0 <= i < j < |policies| :: policies[i].fqn != policies[j].fqn)
  }

  /** The loader keys its answers by module: at most one policy per module asked
      for, and no other. */
  ghost predicate Answered<C(!new)>(evt: Event<C>) {
    match evt
    case Reload(all) => all.Ok? ==> Distinct(all.value)
    case AddOrUpdate(id, _, first, dependents, reloaded) =>
      && (first.Ok? && first.value.Some? ==> WellFormed(first.value.value) && first.value.value.fqn == id)
      && (reloaded.Ok? ==> Distinct(reloaded.value) && forall p | p in reloaded.value :: p.fqn in dependents)
    case DeleteOrDisable(_, dependents, reloaded) =>
      reloaded.Ok? ==> Distinct(reloaded.value) && forall p | p in reloaded.value :: p.fqn in dependents
    case Other => true
  }

  ghost function AddedAll<C(!new)>(live: map<string, Policy<C>>, policies: seq<Policy<C>>): map<string, Policy<C>> {
    if policies == [] then live
    else
      var last := policies[|policies| - 1];
      AddedAll(live, policies[..|policies| - 1])[last.fqn := last]
  }

  ghost function Optional(fqn: Option<string>): set<string> {
    if fqn.Some? then {fqn.value} else {}
  }

  ghost function DependentsReloaded<C(!new)>(live: map<string, Policy<C>>, dependents: seq<string>,
                                             reloaded: Result<seq<Policy<C>>>): map<string, Policy<C>>
  {
    if dependents == [] || reloaded.Error? then live
    else AddedAll(live - (set d | d in dependents), reloaded.value)
  }

  /** The event gets as far as touching the table. */
  ghost predicate Accepted<C(!new)>(live: map<string, Policy<C>>, evt: Event<C>) {
    match evt
    case AddOrUpdate(_, oldId, first, _, _) =>
        first.Ok? && !(first.value.Some? && Rejects(live, first.value.value, oldId))
    case DeleteOrDisable(_, _, _) => true
    case _ => false
  }

  /** The live policies once the changed policy itself is added, replaced or deleted. */
  ghost function Changed<C(!new)>(live: map<string, Policy<C>>, evt: Event<C>): map<string, Policy<C>>
    requires Accepted(live, evt)
  {
    match evt
    case AddOrUpdate(id, oldId, first, _, _) =>
      var kept := live - {id} - Optional(oldId);
      if first.value.Some? then kept[id := first.value.value] else kept
    case DeleteOrDisable(id, _, _) => live - {id}
  }

  /** The policies that are live after an event; an event that fails before it
      touches the table changes nothing. */
  ghost function Step<C(!new)>(live: map<string, Policy<C>>, evt: Event<C>): map<string, Policy<C>> {
    match evt
    case Reload(all) => if all.Ok? && Agreeing(AddedAll(map[], all.value)) then AddedAll(map[], all.value) else live
    case AddOrUpdate(_, _, _, dependents, reloaded) =>
        if Accepted(live, evt) then DependentsReloaded(Changed(live, evt), dependents, reloaded) else live
    case DeleteOrDisable(_, dependents, reloaded) => DependentsReloaded(Changed(live, evt), dependents, reloaded)
    case Other => live
  }

  ghost function Replay<C(!new)>(live: map<string, Policy<C>>, events: seq<Event<C>>): map<string, Policy<C>> {
    if events == [] then live else Step(Replay(live, events[..|events| - 1]), events[|events| - 1])
  }

  lemma {:induction false} AddedAllKeys<C(!new)>(live: map<string, Policy<C>>, policies: seq<Policy<C>>, f: string)
    ensures f in AddedAll(live, policies) <==> f in live || exists p | p in policies :: p.fqn == f
    ensures f in AddedAll(live, policies) ==>
              (f in live && AddedAll(live, policies)[f] == live[f])
                  || exists p | p in policies :: p.fqn == f && AddedAll(live, policies)[f] == p
    ensures f in live && (forall p | p in policies :: p.fqn != f) ==> AddedAll(live, policies)[f] == live[f]
  {
    if policies != [] {
      var n := |policies| - 1;
      AddedAllKeys(live, policies[..n], f);
      assert policies == policies[..n] + [policies[n]];
      assert policies[n] in policies;
    }
  }

  /** Policies that were agreeing still are when some of them are taken away. */
  lemma FewerAgree<C(!new)>(live: map<string, Policy<C>>, more: map<string, Policy<C>>)
    requires Agreeing(more) && forall f | f in live :: f in more && live[f] == more[f]
    ensures Agreeing(live)
  {
    assert forall f | SettingOf(live, f).Some? :: SettingOf(live, f) == SettingOf(more, f);
  }

  class Manager<C(==, !new)> {
    var table: RuleTable<C>
    var lastReloadFailed: bool

    constructor (table: RuleTable<C>)
      ensures this.table == table && !lastReloadFailed
    {
      this.table := table;
      lastReloadFailed := false;
    }

    /** The table of a fresh load: every policy in turn, and then the check for
        conflicting settings. */
    static method Build(policies: seq<Policy<C>>) returns (t: RuleTable<C>, conflict: bool)
      requires Distinct(policies)
      ensures fresh(t) && t.Valid() && t.live == AddedAll(map[], policies)
      ensures conflict <==> !Agreeing(t.live)
      ensures !conflict ==> Settled(t.live, t.permissions) && OwnPermissions(t.live, t.permissions)
    {
      t := new RuleTable<C>();
      assert Settled(t.live, t.permissions);
      IngestAll(t, policies);
      assert policies[..|policies|] == policies;
      assert Tracks(t.tracker, t.live) && AllWellFormed(t.live);
      DisagreementExactly(t.tracker, t.live);
      conflict := HasConflicts(t.tracker);
      SettledIsOwn(t.live, t.permissions);
    }

    static method IngestAll(t: RuleTable<C>, policies: seq<Policy<C>>)
      requires t.Valid() && Distinct(policies) && forall p | p in policies :: p.fqn !in t.live
      modifies t
      ensures t.Valid() && t.live == AddedAll(old(t.live), policies)
      ensures old(Settled(t.live, t.permissions)) && Agreeing(t.live) ==> Settled(t.live, t.permissions)
    {
      hide Consistent, Settled, Agreeing, Distinct, WellFormed, AddedAll;
      NoneAdded(t.live, policies);
      var i := 0;
      while i < |policies|
        invariant 0 <= i <= |policies|
        invariant t.Valid() && t.live == AddedAll(old(t.live), policies[..i])
        invariant old(Settled(t.live, t.permissions)) && Agreeing(t.live) ==> Settled(t.live, t.permissions)
      {
        ghost var before := t.live;
        OneAdded(old(t.live), policies, i);
        t.IngestPolicy(Some(policies[i]));
        if Agreeing(t.live) {
          FewerAgree(before, t.live);
        }
        i := i + 1;
      }
      assert policies[..i] == policies;
    }

    /** Rejects a policy whose settings would make its scope inconsistent. */
    method CheckPolicy(p: Option<Policy<C>>, oldPolicyId: Option<string>) returns (ok: bool)
      requires table.Valid() && (p.Some? ==> WellFormed(p.value))
      ensures ok <==> !(p.Some? && Rejects(table.live, p.value, oldPolicyId))
    {
      if p.None? || p.value.role.Some? {
        return true;
      }
      var ignored := "";
      if oldPolicyId.Some? && oldPolicyId.value in table.meta {
        ignored := PolicyKey(table.meta[oldPolicyId.value].fqn);
      }
      ConflictsExactly(table.tracker, table.live, p.value, oldPolicyId, ignored);
      var conflict := WouldConflict(table.tracker, PolicyKey(p.value.fqn), p.value.scope,
          Normalise(p.value.permissions), ignored);
      ok := !conflict;
    }

    method DeleteAll(dependents: seq<string>)
      requires table.Valid()
      modifies table
      ensures table.Valid() && table.live == old(table.live) - (set d | d in dependents)
      ensures old(Settled(table.live, table.permissions)) ==> Settled(table.live, table.permissions)
    {
      hide Consistent, Settled;
      var i := 0;
      while i < |dependents|
        invariant 0 <= i <= |dependents|
        invariant table.Valid() && table.live == old(table.live) - (set d | d in dependents[..i])
        invariant old(Settled(table.live, table.permissions)) ==> Settled(table.live, table.permissions)
      {
        table.DeletePolicy(dependents[i]);
        assert dependents[..i + 1] == dependents[..i] + [dependents[i]];
        i := i + 1;
      }
      assert dependents[..i] == dependents;
    }

    method ReloadDependents(dependents: seq<string>, reloaded: Result<seq<Policy<C>>>) returns (ok: bool)
      requires table.Valid()
      requires reloaded.Ok? ==> Distinct(reloaded.value) && forall p | p in reloaded.value :: p.fqn in dependents
      modifies table
      ensures table.Valid() && table.live == DependentsReloaded(old(table.live), dependents, reloaded)
      ensures old(Settled(table.live, table.permissions)) && Agreeing(table.live) ==>
              Settled(table.live, table.permissions)
      ensures ok <==> dependents == [] || reloaded.Ok?
    {
      hide Consistent, Settled, Agreeing, Distinct, WellFormed, AddedAll;
      if dependents == [] {
        return true;
      }
      if reloaded.Error? {
        return false;
      }
      DeleteAll(dependents);
      IngestAll(table, reloaded.value);
      ok := true;
    }

    /** Adds, replaces or deletes one policy and then reloads the policies that
        depend on it. */
    method ProcessPolicyEvent(evt: Event<C>) returns (ok: bool)
      requires table.Valid() && (evt.AddOrUpdate? || evt.DeleteOrDisable?) && Answered(evt)
      modifies table
      ensures table.Valid() && table.live == Step(old(table.live), evt)
      ensures old(Agreeing(table.live) && Settled(table.live, table.permissions)) && Agreeing(table.live) ==>
              Settled(table.live, table.permissions)
    {
      hide Consistent, Settled, Agreeing, Rejects, Distinct, WellFormed, DependentsReloaded;
      if evt.AddOrUpdate? {
        if evt.first.Error? {
          return false;
        }
        var p := evt.first.value;
        var accepted := CheckPolicy(p, evt.oldPolicyId);
        if !accepted {
          return false;
        }
        ghost var before := table.live;
        table.DeletePolicy(evt.policyId);
        if evt.oldPolicyId.Some? {
          table.DeletePolicy(evt.oldPolicyId.value);
        }
        assert table.live == before - {evt.policyId} - Optional(evt.oldPolicyId);
        if Agreeing(before) {
          FewerAgree(table.live, before);
          if p.Some? {
            AcceptedAgrees(before, p.value, evt.oldPolicyId);
          }
        }
        table.IngestPolicy(p);
      } else {
        table.DeletePolicy(evt.policyId);
      }
      ok := ReloadDependents(evt.dependents, evt.reloaded);
    }

    /** Builds a new table and takes it over, or keeps the current one and records
        the failure. */
    method ReloadTable(all: Result<seq<Policy<C>>>)
      requires table.Valid() && (all.Ok? ==> Distinct(all.value))
      modifies this
      ensures table == old(table) || fresh(table)
      ensures table.Valid() && table.live == Step(old(table.live), Reload(all))
      ensures lastReloadFailed <==> all.Error? || !Agreeing(AddedAll(map[], all.value))
      ensures lastReloadFailed ==> table == old(table)
      ensures !lastReloadFailed ==>
                Settled(table.live, table.permissions) && OwnPermissions(table.live, table.permissions)
    {
      hide Consistent, Settled, Agreeing, Distinct, AddedAll, OwnPermissions;
      lastReloadFailed := true;
      if all.Ok? {
        var t, conflict := Build(all.value);
        if !conflict {
          table := t;
          lastReloadFailed := false;
        }
      }
    }

    /** Every event in turn. */
    method OnStorageEvent(events: seq<Event<C>>)
      requires table.Valid() && forall evt | evt in events :: Answered(evt)
      modifies this, table
      ensures table == old(table) || fresh(table)
      ensures table.Valid() && table.live == Replay(old(table.live), events)
      ensures old(Settled(table.live, table.permissions)) && AlwaysAgreeing(old(table.live), events) ==>
              Settled(table.live, table.permissions)
      ensures old(Agreeing(table.live) && Settled(table.live, table.permissions)) && Undepended(events) ==>
                Agreeing(table.live) && Settled(table.live, table.permissions)
      ensures old(OwnPermissions(table.live, table.permissions)) && AlwaysAgreeing(old(table.live), events) ==>
                OwnPermissions(table.live, table.permissions)
      ensures old(Agreeing(table.live) && OwnPermissions(table.live, table.permissions)) && Undepended(events) ==>
                OwnPermissions(table.live, table.permissions)
    {
      hide Consistent, Settled, Agreeing, Answered, Step, Replay, AlwaysAgreeing, Undepended, OwnPermissions;
      SettledIsOwn(table.live, table.permissions);
      NothingReplayed(table.live, events);
      if Agreeing(table.live) && Undepended(events) {
        UndependedAgree(table.live, events);
        AgreeingInTheEnd(table.live, events);
      }
      var i := 0;
      while i < |events|
        invariant 0 <= i <= |events|
        invariant table == old(table) || fresh(table)
        invariant table.Valid() && table.live == Replay(old(table.live), events[..i])
        invariant old(Settled(table.live, table.permissions)) && AlwaysAgreeing(old(table.live), events) ==>
                  Settled(table.live, table.permissions)
      {
        OneReplayed(old(table.live), events, i);
        i := HandleOne(events, i);
      }
      assert events[..i] == events;
      SettledIsOwn(table.live, table.permissions);
    }

    /** After any run of successful events the table has the rows of a table loaded
        from the store as it then is, each as often, and the same metadata and scope
        permissions. stores[i] is the store before event i. */
    method IncrementalIsRebuild(events: seq<Event<C>>, ghost stores: seq<map<string, Policy<C>>>, all: seq<Policy<C>>)
      returns (t: RuleTable<C>)
      requires table.Valid() && (forall evt | evt in events :: Answered(evt)) && Distinct(all)
      requires |stores| == |events| + 1 && table.live == stores[0] && AddedAll(map[], all) == stores[|events|]
      requires forall k | 0 <= k < |events| :: Describes(events[k], stores[k], stores[k + 1])
      modifies this, table
      ensures fresh(t) && t.Valid() && table.Valid()
      ensures multiset(table.rows) == multiset(t.rows) && table.meta == t.meta
              && table.permissions.Keys == t.permissions.Keys
      ensures old(Settled(table.live, table.permissions)) && (forall store | store in stores :: Agreeing(store)) ==>
              table.permissions == t.permissions
    {
      RunAgrees(events, stores);
      hide Settled, Agreeing, Answered, Describes, Distinct, AddedAll, Replay, AlwaysAgreeing;
      OnStorageEvent(events);
      var conflict;
      t, conflict := Build(all);
      SameTables(table.rows, table.meta, table.principalScopes, table.resourceScopes, table.tracker, table.permissions,
                 t.rows, t.meta, t.principalScopes, t.resourceScopes, t.tracker, t.permissions, t.live);
    }

    method HandleOne(events: seq<Event<C>>, i: nat) returns (next: nat)
      requires table.Valid() && i < |events| && Answered(events[i])
      modifies this, table
      ensures next == i + 1 && (table == old(table) || fresh(table))
      ensures table.Valid() && table.live == Step(old(table.live), events[i])
      ensures old(Agreeing(table.live) && Settled(table.live, table.permissions)) && Agreeing(table.live) ==>
              Settled(table.live, table.permissions)
    {
      hide Consistent, Settled, Agreeing, Distinct;
      match events[i] {
        case Reload(all) =>
          ReloadTable(all);
        case AddOrUpdate(_, _, _, _, _) =>
          var ok := ProcessPolicyEvent(events[i]);
        case DeleteOrDisable(_, _, _) =>
          var ok := ProcessPolicyEvent(events[i]);
        case Other =>
      }
      next := i + 1;
    }
  }

  ghost predicate AlwaysAgreeing<C(!new)>(live: map<string, Policy<C>>, events: seq<Event<C>>) {
    forall i | 0 <= i <= |events| :: Agreeing(Replay(live, events[..i]))
  }

  lemma AgreeingInTheEnd<C(!new)>(live: map<string, Policy<C>>, events: seq<Event<C>>)
    requires AlwaysAgreeing(live, events)
    ensures Agreeing(Replay(live, events))
  {
    assert events[..|events|] == events;
  }

  lemma NothingReplayed<C(!new)>(live: map<string, Policy<C>>, events: seq<Event<C>>)
    ensures Replay(live, events[..0]) == live
  {
  }

  lemma OneReplayed<C(!new)>(live: map<string, Policy<C>>, events: seq<Event<C>>, i: nat)
    requires i < |events|
    ensures Replay(live, events[..i + 1]) == Step(Replay(live, events[..i]), events[i])
    ensures AlwaysAgreeing(live, events) ==>
            Agreeing(Replay(live, events[..i])) && Agreeing(Replay(live, events[..i + 1]))
  {
    assert events[..i + 1][..i] == events[..i];
  }

  /** The changed policy itself has passed the check for conflicts. */
  lemma ChangedAgrees<C(!new)>(live: map<string, Policy<C>>, evt: Event<C>)
    requires Agreeing(live) && Answered(evt) && Accepted(live, evt)
    ensures Agreeing(Changed(live, evt))
  {
    hide Agreeing, Rejects, Distinct, WellFormed;
    match evt {
      case AddOrUpdate(id, oldId, first, _, _) =>
        FewerAgree(live - {id} - Optional(oldId), live);
        if first.value.Some? {
          AcceptedAgrees(live, first.value.value, oldId);
        }
      case DeleteOrDisable(id, _, _) =>
        FewerAgree(live - {id}, live);
    }
  }

  /** Events without dependents keep the settings of every scope in agreement. */
  lemma StepAgrees<C(!new)>(live: map<string, Policy<C>>, evt: Event<C>)
    requires Agreeing(live) && Answered(evt)
    requires evt.AddOrUpdate? || evt.DeleteOrDisable? ==> evt.dependents == []
    ensures Agreeing(Step(live, evt))
  {
    hide Agreeing, Answered, Rejects, AddedAll, Changed;
    if Accepted(live, evt) {
      ChangedAgrees(live, evt);
    }
  }

  /** No event of the list has dependents to reload. */
  ghost predicate Undepended<C(!new)>(events: seq<Event<C>>) {
    forall evt | evt in events && (evt.AddOrUpdate? || evt.DeleteOrDisable?) :: evt.dependents == []
  }

  lemma {:induction false} UndependedStaysAgreeing<C(!new)>(live: map<string, Policy<C>>, events: seq<Event<C>>, i: nat)
    requires Agreeing(live) && (forall evt | evt in events :: Answered(evt)) && Undepended(events) && i <= |events|
    ensures Agreeing(Replay(live, events[..i]))
  {
    hide Agreeing, Answered, Step, Replay, AlwaysAgreeing;
    if i == 0 {
      NothingReplayed(live, events);
    } else {
      UndependedStaysAgreeing(live, events, i - 1);
      OneReplayed(live, events, i - 1);
      StepAgrees(Replay(live, events[..i - 1]), events[i - 1]);
    }
  }

  /** Policies that agree do so throughout any run of events without dependents. */
  lemma UndependedAgree<C(!new)>(live: map<string, Policy<C>>, events: seq<Event<C>>)
    requires Agreeing(live) && (forall evt | evt in events :: Answered(evt)) && Undepended(events)
    ensures AlwaysAgreeing(live, events)
  {
    hide Agreeing, Answered, Replay;
    forall i | 0 <= i <= |events| ensures Agreeing(Replay(live, events[..i])) {
      UndependedStaysAgreeing(live, events, i);
    }
  }

  lemma OneMoreAgrees<C(!new)>(live: map<string, Policy<C>>, p: Policy<C>)
    requires p.fqn !in live
    ensures Agreeing(live[p.fqn := p]) <==> Agreeing(live) && (Counts(p) ==> !Rejects(live, p, None))
  {
    var after := live[p.fqn := p];
    assert forall f | f != p.fqn :: SettingOf(after, f) == SettingOf(live, f);
    assert SettingOf(after, p.fqn) == if Counts(p) then Some((p.scope, Normalise(p.permissions))) else None;
    assert SettingOf(live, p.fqn).None?;
    hide SettingOf;
  }

  /** Every policy passes the check made for a changed policy when its turn comes. */
  ghost predicate WouldPass<C(!new)>(live: map<string, Policy<C>>, policies: seq<Policy<C>>, i: nat)
    requires i < |policies|
  {
    Counts(policies[i]) ==> !Rejects(AddedAll(live, policies[..i]), policies[i], None)
  }

  ghost predicate AllWouldPass<C(!new)>(live: map<string, Policy<C>>, policies: seq<Policy<C>>, n: nat)
    requires n <= |policies|
  {
    forall i | 0 <= i < n :: WouldPass(live, policies, i)
  }

  lemma {:induction false} AddedAllAgrees<C(!new)>(live: map<string, Policy<C>>, policies: seq<Policy<C>>, n: nat)
    requires n <= |policies| && Agreeing(live) && Distinct(policies) && forall p | p in policies :: p.fqn !in live
    ensures Agreeing(AddedAll(live, policies[..n])) <==> AllWouldPass(live, policies, n)
  {
    hide Agreeing, Distinct, Rejects, Counts, AddedAll;
    if n == 0 {
      NoneAdded(live, policies);
    } else {
      AddedAllAgrees(live, policies, n - 1);
      OneAdded(live, policies, n - 1);
      OneMoreAgrees(AddedAll(live, policies[..n - 1]), policies[n - 1]);
      assert AllWouldPass(live, policies, n) <==>
          AllWouldPass(live, policies, n - 1) && WouldPass(live, policies, n - 1);
    }
  }

  /** Dependents are not checked for conflicts: an event with any dependents keeps a
      table in agreement exactly when each of them, at its turn, would have passed the
      check made for a changed policy. */
  lemma DependentsUnchecked<C(!new)>(live: map<string, Policy<C>>, evt: Event<C>)
    requires Agreeing(live) && Answered(evt) && Accepted(live, evt) && evt.dependents != [] && evt.reloaded.Ok?
    ensures Agreeing(Step(live, evt)) <==>
            AllWouldPass(Changed(live, evt) - (set d | d in evt.dependents), evt.reloaded.value, |evt.reloaded.value|)
  {
    var base, policies := Changed(live, evt) - (set d | d in evt.dependents), evt.reloaded.value;
    ChangedAgrees(live, evt);
    FewerAgree(base, Changed(live, evt));
    AddedAllAgrees(base, policies, |policies|);
    assert policies[..|policies|] == policies;
  }

  /** Such an event: a policy is deleted, and its dependent comes back with another
      setting than its neighbour's. */
  lemma DependentConflicts<C(!new)>(a: Policy<C>, b: Policy<C>, id: string)
    requires WellFormed(a) && WellFormed(b) && Counts(a) && Counts(b)
    requires a.fqn != b.fqn && a.fqn != id && a.scope == b.scope && Normalise(a.permissions) != Normalise(b.permissions)
    ensures var live, evt := map[a.fqn := a], DeleteOrDisable(id, [b.fqn], Ok([b]));
            AllWellFormed(live) && Agreeing(live) && Answered(evt) && !Agreeing(Step(live, evt))
  {
    var live, evt := map[a.fqn := a], DeleteOrDisable(id, [b.fqn], Ok([b]));
    hide WellFormed, AddedAll, Agreeing;
    OnlyOneAgrees(a);
    DependentsUnchecked(live, evt);
    var base := Changed(live, evt) - (set d | d in evt.dependents);
    NoneAdded(base, [b]);
    assert SettingOf(base, a.fqn) == Some((a.scope, Normalise(a.permissions)));
    assert !WouldPass(base, [b], 0);
  }

  /** A policy of the root scope with one row. */
  function RootPolicy(fqn: string, permission: Permission): Policy<nat> {
    Policy(fqn, None, Resource, "", Some(permission), [Entry(fqn, Resource, "", false, Some(permission), 0)])
  }

  lemma DependentConflictExample()
    ensures var live := map["cerbos.a" := RootPolicy("cerbos.a", OverrideParent)];
            var evt := DeleteOrDisable("cerbos.c", ["cerbos.b"], Ok([RootPolicy("cerbos.b", RequireParentalConsent)]));
            Agreeing(live) && Answered(evt) && !Agreeing(Step(live, evt))
  {
    RootPolicyWellFormed("cerbos.a", OverrideParent);
    RootPolicyWellFormed("cerbos.b", RequireParentalConsent);
    hide WellFormed, Agreeing, Answered, Step, AllWellFormed;
    DependentConflicts(RootPolicy("cerbos.a", OverrideParent), RootPolicy("cerbos.b", RequireParentalConsent),
        "cerbos.c");
  }

  lemma RootPolicyWellFormed(fqn: string, permission: Permission)
    requires Prefixed(fqn) && '/' !in fqn
    ensures WellFormed(RootPolicy(fqn, permission))
  {
  }

  lemma OnlyOneAgrees<C(!new)>(p: Policy<C>)
    ensures Agreeing(map[p.fqn := p])
  {
  }

  // ---- the store ---------------------------------------------------------------------------

  ghost function Lookup<C(!new)>(store: map<string, Policy<C>>, fqn: string): Option<Policy<C>> {
    if fqn in store then Some(store[fqn]) else None
  }

  /** The policies of the store that are among the modules. */
  ghost predicate Lists<C(!new)>(policies: seq<Policy<C>>, store: map<string, Policy<C>>, ids: seq<string>) {
    && (forall p | p in policies :: p.fqn in ids && Lookup(store, p.fqn) == Some(p))
    && (forall f | f in ids && f in store :: store[f] in policies && store[f].fqn == f)
  }

  /** The event tells of everything that changed between two states of the store, and
      the loader answers from the later one. */
  ghost predicate Describes<C(!new)>(evt: Event<C>, before: map<string, Policy<C>>, after: map<string, Policy<C>>) {
    match evt
    case Reload(all) => all.Ok? && Agreeing(after) && AddedAll(map[], all.value) == after
    case AddOrUpdate(id, oldId, first, dependents, reloaded) =>
      && first == Ok(Lookup(after, id))
      && (first.value.Some? ==> !Rejects(before, first.value.value, oldId))
      && reloaded.Ok? && Lists(reloaded.value, after, dependents)
      && (oldId.Some? && oldId.value != id && oldId.value !in dependents ==> oldId.value !in after)
      && (forall f | f != id && Some(f) != oldId && f !in dependents :: Lookup(before, f) == Lookup(after, f))
    case DeleteOrDisable(id, dependents, reloaded) =>
      && reloaded.Ok? && Lists(reloaded.value, after, dependents)
      && (id !in dependents ==> id !in after)
      && (forall f | f != id && f !in dependents :: Lookup(before, f) == Lookup(after, f))
    case Other => before == after
  }

  lemma DependentsFollow<C(!new)>(live: map<string, Policy<C>>, dependents: seq<string>,
                                  reloaded: Result<seq<Policy<C>>>, after: map<string, Policy<C>>)
    requires reloaded.Ok? && Lists(reloaded.value, after, dependents)
    requires forall f | f !in dependents :: Lookup(live, f) == Lookup(after, f)
    ensures DependentsReloaded(live, dependents, reloaded) == after
  {
    var result := DependentsReloaded(live, dependents, reloaded);
    forall f ensures Lookup(result, f) == Lookup(after, f) {
      if dependents != [] {
        AddedAllKeys(live - (set d | d in dependents), reloaded.value, f);
      }
    }
    assert forall f :: (f in result <==> Lookup(result, f).Some?) && (f in after <==> Lookup(after, f).Some?);
    assert forall f | f in result :: Lookup(result, f) == Some(result[f]);
  }

  /** A table in step with the store is in step with it after a successful event. */
  lemma StepFollowsStore<C(!new)>(evt: Event<C>, before: map<string, Policy<C>>, after: map<string, Policy<C>>)
    requires Describes(evt, before, after)
    ensures Step(before, evt) == after
  {
    match evt {
      case AddOrUpdate(id, oldId, first, dependents, reloaded) =>
        var kept := before - {id} - Optional(oldId);
        var live := if first.value.Some? then kept[id := first.value.value] else kept;
        forall f | f !in dependents ensures Lookup(live, f) == Lookup(after, f) {
        }
        DependentsFollow(live, dependents, reloaded, after);
      case DeleteOrDisable(id, dependents, reloaded) =>
        forall f | f !in dependents ensures Lookup(before - {id}, f) == Lookup(after, f) {
        }
        DependentsFollow(before - {id}, dependents, reloaded, after);
      case _ =>
    }
  }

  /** stores[i] is the store before event i. */
  lemma {:induction false} RunFollowsStore<C(!new)>(events: seq<Event<C>>, stores: seq<map<string, Policy<C>>>, i: nat)
    requires |stores| == |events| + 1 && i <= |events|
    requires forall k | 0 <= k < |events| :: Describes(events[k], stores[k], stores[k + 1])
    ensures Replay(stores[0], events[..i]) == stores[i]
  {
    hide Describes, Replay, Step;
    if i == 0 {
      NothingReplayed(stores[0], events);
    } else {
      RunFollowsStore(events, stores, i - 1);
      OneReplayed(stores[0], events, i - 1);
      StepFollowsStore(events[i - 1], stores[i - 1], stores[i]);
    }
  }

  /** So are the permissions of its scopes, where its policies agree. */
  lemma PermissionsDetermined<C(!new)>(rows: seq<Entry<C>>, permissions: map<string, Permission>,
                                       permissions': map<string, Permission>, live: map<string, Policy<C>>)
    requires Holds(rows, live) && AllWellFormed(live)
    requires (forall s :: s in permissions <==> Constrained(rows, s)) && permissions.Keys == permissions'.Keys
    requires Settled(live, permissions) && Settled(live, permissions')
    ensures permissions == permissions'
  {
    forall s | s in permissions ensures permissions[s] == permissions'[s] {
      var r :| r in rows && !r.fromRolePolicy && r.scope == s;
      RowIsLive(rows, live, r);
      assert WellFormed(live[r.originFqn]);
      assert SettingOf(live, r.originFqn).Some?;
    }
  }

  lemma RunAgrees<C(!new)>(events: seq<Event<C>>, stores: seq<map<string, Policy<C>>>)
    requires |stores| == |events| + 1
    requires forall k | 0 <= k < |events| :: Describes(events[k], stores[k], stores[k + 1])
    ensures Replay(stores[0], events) == stores[|events|]
    ensures (forall store | store in stores :: Agreeing(store)) ==>
            AlwaysAgreeing(stores[0], events) && Agreeing(stores[|events|])
  {
    hide Agreeing, Describes, Replay;
    forall i | 0 <= i <= |events| ensures Replay(stores[0], events[..i]) == stores[i] {
      RunFollowsStore(events, stores, i);
    }
    assert events[..|events|] == events;
  }

  lemma SameTables<C(!new)>(
    rows: seq<Entry<C>>, meta: map<string, Meta>, principalScopes: set<string>, resourceScopes: set<string>,
    tracker: Tracker, permissions: map<string, Permission>,
    rows': seq<Entry<C>>, meta': map<string, Meta>, principalScopes': set<string>, resourceScopes': set<string>,
    tracker': Tracker, permissions': map<string, Permission>,
    live: map<string, Policy<C>>)
    requires Consistent(rows, meta, principalScopes, resourceScopes, tracker, permissions, live)
    requires Consistent(rows', meta', principalScopes', resourceScopes', tracker', permissions', live)
    ensures multiset(rows) == multiset(rows') && meta == meta' && permissions.Keys == permissions'.Keys
    ensures Settled(live, permissions) && Settled(live, permissions') ==> permissions == permissions'
  {
    hide Settled, Tracks, ScopesRecorded, AllWellFormed;
    RowsDetermined(rows, rows', live);
    assert forall r :: r in rows <==> r in rows' by {
      forall r ensures r in rows <==> r in rows' {
        assert r in rows <==> multiset(rows)[r] > 0;
        assert r in rows' <==> multiset(rows')[r] > 0;
      }
    }
    forall s ensures s in permissions <==> s in permissions' {
      assert Constrained(rows, s) <==> Constrained(rows', s);
    }
    if Settled(live, permissions) && Settled(live, permissions') {
      PermissionsDetermined(rows, permissions, permissions', live);
    }
  }

  lemma NoneAdded<C(!new)>(live: map<string, Policy<C>>, policies: seq<Policy<C>>)
    ensures AddedAll(live, policies[..0]) == live
  {
  }

  lemma OneAdded<C(!new)>(live: map<string, Policy<C>>, policies: seq<Policy<C>>, i: nat)
    requires i < |policies| && Distinct(policies) && forall p | p in policies :: p.fqn !in live
    ensures policies[i].fqn !in AddedAll(live, policies[..i]) && WellFormed(policies[i])
    ensures AddedAll(live, policies[..i + 1]) == AddedAll(live, policies[..i])[policies[i].fqn := policies[i]]
  {
    AddedAllKeys(live, policies[..i], policies[i].fqn);
    assert policies[..i + 1][..i] == policies[..i];
  }
}
