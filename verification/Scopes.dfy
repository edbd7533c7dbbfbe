/** Scope chains (internal/namer/namer.go) and the scopes of a chain that a rule
    table knows (internal/ruletable/ruletable.go). */
module Scopes {
  import opened Common

  // ---- ancestors -----------------------------------------------------------------

  /** The ancestors found at positions below i, most specific first. */
  function ParentsBelow(scope: string, i: nat): seq<string>
    requires i <= |scope|
  {
    if i == 0 then []
    else (if scope[i - 1] == '.' || i == 1 then [scope[..i - 1]] else []) + ParentsBelow(scope, i - 1)
  }

  function Parents(scope: string): seq<string> {
    ParentsBelow(scope, |scope|)
  }

  /** A scope and its ancestors. */
  function Chain(scope: string): seq<string> {
    [scope] + Parents(scope)
  }

  predicate StrictlyShortening(scopes: seq<string>) {
    forall i, j | 0 <= i < j < |scopes| :: |scopes[j]| < |scopes[i]|
  }

  method ScopeParents(scope: string) returns (parents: seq<string>)
    ensures parents == Parents(scope)
  {
    parents := [];
    var i := |scope|;
    while i > 0
      invariant 0 <= i <= |scope|
      invariant parents + ParentsBelow(scope, i) == Parents(scope)
    {
      i := i - 1;
      if scope[i] == '.' || i == 0 {
        parents := parents + [scope[..i]];
      }
    }
  }

  /** The ancestors of a scope are its prefixes that end before a dot, and the
      empty scope; each one shorter than the one before. */
  lemma {:induction false} ParentsExactly(scope: string, i: nat)
    requires i <= |scope|
    ensures StrictlyShortening(ParentsBelow(scope, i))
    ensures forall s :: s in ParentsBelow(scope, i) <==> EndsBeforeDot(scope, i, s)
  {
    if i > 0 {
      ParentsExactly(scope, i - 1);
      var rest := ParentsBelow(scope, i - 1);
      assert forall s | s in rest :: |s| < i - 1;
      forall s ensures EndsBeforeDot(scope, i, s) <==>
          EndsBeforeDot(scope, i - 1, s) || (s == scope[..i - 1] && (scope[i - 1] == '.' || i == 1)) {
        if EndsBeforeDot(scope, i, s) {
          assert |s| < i - 1 || s == scope[..i - 1];
        }
      }
      assert forall j | 0 <= j < |rest| :: rest[j] in rest;
    }
  }

  /** s is a proper prefix of scope, shorter than i, that ends before a dot or is
      empty. */
  predicate EndsBeforeDot(scope: string, i: nat, s: string)
    requires i <= |scope|
  {
    |s| < i && s == scope[..|s|] && (scope[|s|] == '.' || s == "")
  }

  // ---- fully-qualified names ---------------------------------------------------------

  function WithScope(fqn: string, scope: string): string {
    if scope == "" then fqn else fqn + "/" + scope
  }

  /** The position of the first slash, or the length. */
  function FirstSlash(s: string): (k: nat)
    ensures k <= |s| && (forall i | 0 <= i < k :: s[i] != '/') && (k < |s| ==> s[k] == '/')
  {
    if s == "" || s[0] == '/' then 0 else 1 + FirstSlash(s[1..])
  }

  /** strings.Cut at the first slash. */
  function ScopeFromFQN(fqn: string): string {
    var k := FirstSlash(fqn);
    if k == |fqn| then "" else fqn[k + 1..]
  }

  /** The scope can be read back from a scoped name exactly when the unscoped name
      has no slash, or there is no scope and the only slash ends the name. */
  lemma ScopeRoundTrip(fqn: string, scope: string)
    ensures ScopeFromFQN(WithScope(fqn, scope)) == scope <==>
            '/' !in fqn || (scope == "" && FirstSlash(fqn) == |fqn| - 1)
  {
    var full := WithScope(fqn, scope);
    if '/' in fqn {
      SlashInside(fqn, scope);
      assert |ScopeFromFQN(full)| == |full| - FirstSlash(fqn) - 1;
    } else if scope != "" {
      SlashBetween(fqn, scope);
      assert full[|fqn| + 1..] == scope;
    }
  }

  lemma SlashInside(fqn: string, scope: string)
    requires '/' in fqn
    ensures FirstSlash(fqn) < |fqn| && FirstSlash(WithScope(fqn, scope)) == FirstSlash(fqn)
  {
    var full, k := WithScope(fqn, scope), FirstSlash(fqn);
    var i :| 0 <= i < |fqn| && fqn[i] == '/';
    assert k <= i;
    assert forall j | 0 <= j < |fqn| :: full[j] == fqn[j];
  }

  lemma SlashBetween(fqn: string, scope: string)
    requires '/' !in fqn && scope != ""
    ensures FirstSlash(WithScope(fqn, scope)) == |fqn|
  {
    var full := WithScope(fqn, scope);
    assert full[|fqn|] == '/';
    assert forall j | 0 <= j < |fqn| :: full[j] == fqn[j] && fqn[j] in fqn;
  }

  // ---- the tree of names ---------------------------------------------------------------

  function DotsBelow(scope: string, i: nat): seq<string>
    requires i <= |scope|
  {
    if i == 0 then []
    else (if scope[i - 1] == '.' then [scope[..i - 1]] else []) + DotsBelow(scope, i - 1)
  }

  /** The scopes whose names buildFQNTree lists. */
  function TreeScopes(scope: string): seq<string> {
    if scope == "" then [""] else [scope] + DotsBelow(scope, |scope|) + [""]
  }

  function Names<T>(fqn: string, scopes: seq<string>, elementFn: string -> T): seq<T> {
    seq(|scopes|, i requires 0 <= i < |scopes| => elementFn(WithScope(fqn, scopes[i])))
  }

  lemma NoDots(scope: string)
    ensures DotsBelow(scope, 0) == []
  {
  }

  lemma DotsStep(scope: string, i: nat)
    requires i < |scope|
    ensures DotsBelow(scope, i + 1) ==
            if scope[i] == '.' then [scope[..i]] + DotsBelow(scope, i) else DotsBelow(scope, i)
  {
  }

  lemma OneName<T>(fqn: string, scope: string, elementFn: string -> T)
    ensures Names(fqn, [scope], elementFn) == [elementFn(WithScope(fqn, scope))]
  {
  }

  lemma NoScope(fqn: string)
    ensures WithScope(fqn, "") == fqn
  {
  }

  lemma NamesSnoc<T>(fqn: string, scopes: seq<string>, s: string, elementFn: string -> T)
    ensures Names(fqn, scopes + [s], elementFn) == Names(fqn, scopes, elementFn) + [elementFn(WithScope(fqn, s))]
  {
  }

  lemma DoneStep(scope: string, i: nat, done: seq<string>)
    requires i < |scope|
    ensures done + DotsBelow(scope, i + 1) ==
            (if scope[i] == '.' then done + [scope[..i]] else done) + DotsBelow(scope, i)
  {
    DotsStep(scope, i);
  }

  method BuildFQNTree<T>(fqn: string, scope: string, elementFn: string -> T) returns (tree: seq<T>)
    ensures tree == Names(fqn, TreeScopes(scope), elementFn)
    ensures (scope == "" || scope[0] != '.') ==> tree == Names(fqn, Chain(scope), elementFn)
  {
    TreeIsChain(scope);
    hide Names, Chain, WithScope, DotsBelow;
    OneName(fqn, scope, elementFn);
    NoScope(fqn);
    if scope == "" {
      tree := [elementFn(fqn)];
      return;
    }
    tree := [elementFn(WithScope(fqn, scope))];
    ghost var done, all := [scope], [scope] + DotsBelow(scope, |scope|);
    var i := |scope|;
    while i > 0
      invariant 0 <= i <= |scope|
      invariant done + DotsBelow(scope, i) == all
      invariant tree == Names(fqn, done, elementFn)
    {
      i := i - 1;
      DoneStep(scope, i, done);
      if scope[i] == '.' {
        NamesSnoc(fqn, done, scope[..i], elementFn);
        tree := tree + [elementFn(WithScope(fqn, scope[..i]))];
        done := done + [scope[..i]];
      }
    }
    NamesSnoc(fqn, done, "", elementFn);
    tree := tree + [elementFn(fqn)];
    assert DotsBelow(scope, 0) == [] by {
      NoDots(scope);
    }
    assert TreeScopes(scope) == done + [""];
  }

  lemma {:induction false} DotsAndParents(scope: string, i: nat)
    requires 0 < i <= |scope|
    ensures ParentsBelow(scope, i) == if scope[0] == '.' then DotsBelow(scope, i) else DotsBelow(scope, i) + [""]
  {
    if i > 1 {
      DotsAndParents(scope, i - 1);
    } else {
      assert scope[..0] == "";
    }
  }

  /** ScopeParents and buildFQNTree describe the same chain exactly when the scope
      does not start with a dot; a leading dot makes the tree list the root twice. */
  lemma TreeIsChain(scope: string)
    ensures TreeScopes(scope) == Chain(scope) <==> (scope == "" || scope[0] != '.')
    ensures scope != "" && scope[0] == '.' ==> TreeScopes(scope) == Chain(scope) + [""]
  {
    if scope != "" {
      DotsAndParents(scope, |scope|);
      if scope[0] != '.' {
        assert TreeScopes(scope) == [scope] + (DotsBelow(scope, |scope|) + [""]);
      } else {
        assert |TreeScopes(scope)| == |Chain(scope)| + 1;
      }
    }
  }

  // ---- scopes known to a table -----------------------------------------------------------

  /** The members of a chain that exist, in order. */
  function Existing(chain: seq<string>, known: set<string>): seq<string> {
    if chain == [] then []
    else (if chain[0] in known then [chain[0]] else []) + Existing(chain[1..], known)
  }

  lemma ExistingHead(chain: seq<string>, known: set<string>)
    requires chain != []
    ensures Existing(chain, known) == (if chain[0] in known then [chain[0]] else []) + Existing(chain[1..], known)
  {
  }

  lemma NoneExisting(known: set<string>)
    ensures Existing([], known) == []
  {
  }

  lemma {:induction false} ExistingSnoc(chain: seq<string>, s: string, known: set<string>)
    ensures Existing(chain + [s], known) == Existing(chain, known) + (if s in known then [s] else [])
  {
    hide Existing;
    NoneExisting(known);
    ExistingHead(chain + [s], known);
    if chain == [] {
      assert chain + [s] == [s] && [s][1..] == [];
    } else {
      ExistingHead(chain, known);
      assert (chain + [s])[1..] == chain[1..] + [s];
      ExistingSnoc(chain[1..], s, known);
    }
  }

  lemma {:induction false} ExistingMembers(chain: seq<string>, known: set<string>)
    requires StrictlyShortening(chain)
    ensures StrictlyShortening(Existing(chain, known))
    ensures forall s :: s in Existing(chain, known) <==> s in chain && s in known
  {
    if chain != [] {
      assert chain == [chain[0]] + chain[1..];
      ExistingMembers(chain[1..], known);
      var rest := Existing(chain[1..], known);
      forall j | 0 <= j < |rest| ensures |rest[j]| < |chain[0]| {
        assert rest[j] in rest;
      }
    }
  }

  lemma ChainShortens(scope: string)
    ensures StrictlyShortening(Chain(scope))
  {
    ParentsExactly(scope, |scope|);
    forall j | 0 <= j < |Parents(scope)| ensures |Parents(scope)[j]| < |scope| {
      assert Parents(scope)[j] in Parents(scope);
    }
  }

  /** The scopes to search for a request and the scope of the first policy. */
  method GetAllScopes(known: set<string>, scope: string, lenient: bool)
    returns (scopes: seq<string>, first: Option<string>)
    ensures scope in known || lenient ==> scopes == Existing(Chain(scope), known)
    ensures scope !in known && !lenient ==> scopes == []
    ensures StrictlyShortening(scopes)
    ensures forall s :: s in scopes <==> s in Chain(scope) && s in known && (scope in known || lenient)
    ensures first == if scopes == [] then None else Some(scopes[0])
  {
    ChainShortens(scope);
    ExistingMembers(Chain(scope), known);
    scopes, first := [], None;
    if scope in known {
      scopes, first := [scope], Some(scope);
    } else if !lenient {
      return;
    }
    var parents := ScopeParents(scope);
    assert Chain(scope)[..1] == [scope];
    assert Existing([scope], known) == scopes by {
      assert [scope][1..] == [];
    }
    for i := 0 to |parents|
      invariant scopes == Existing(Chain(scope)[..i + 1], known)
      invariant first == if scopes == [] then None else Some(scopes[0])
    {
      assert Chain(scope)[..i + 2] == Chain(scope)[..i + 1] + [parents[i]];
      ExistingSnoc(Chain(scope)[..i + 1], parents[i], known);
      if parents[i] in known {
        scopes := scopes + [parents[i]];
        if first == None {
          first := Some(parents[i]);
        }
      }
    }
    assert Chain(scope)[..|parents| + 1] == Chain(scope);
  }
}
