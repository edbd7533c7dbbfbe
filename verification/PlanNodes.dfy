/** The nodes a query plan is built from and the filter it becomes
    (internal/ruletable/planner). An atom stands for the residual expression that
    is left when everything known about the request has been filled in; a
    valuation says which atoms a concrete resource makes true. */
module PlanNodes {
  import opened Common
  import opened Conditions

  datatype Node = Const(b: bool) | Atom(id: nat) | And(nodes: seq<Node>) | Or(nodes: seq<Node>) | Not(node: Node)

  type Valuation = nat -> bool

  predicate Eval(rho: Valuation, n: Node)
    decreases n
  {
    match n
    case Const(b) => b
    case Atom(id) => rho(id)
    case And(ns) => forall i | 0 <= i < |ns| :: Eval(rho, ns[i])
    case Or(ns) => exists i | 0 <= i < |ns| :: Eval(rho, ns[i])
    case Not(m) => !Eval(rho, m)
  }

  /** A nil node contributes nothing. */
  predicate EvalOpt(rho: Valuation, n: Option<Node>) {
    n.Some? && Eval(rho, n.value)
  }

  predicate IsConst(n: Option<Node>, b: bool) {
    n == Some(Const(b))
  }

  // ---- constructors ------------------------------------------------------------

  /** Repeated nodes are dropped, the first occurrence stays. */
  function Dedup(ns: seq<Node>): (r: seq<Node>)
    ensures forall n :: n in r <==> n in ns
    ensures ns != [] ==> r != []
  {
    if ns == [] then []
    else
      var last := |ns| - 1;
      assert ns == ns[..last] + [ns[last]];
      var rest := Dedup(ns[..last]);
      if ns[last] in rest then rest else rest + [ns[last]]
  }

  function MkOr(ns: seq<Node>): Option<Node> {
    var unique := Dedup(ns);
    if |unique| == 0 then None else if |unique| == 1 then Some(unique[0]) else Some(Or(unique))
  }

  function MkAnd(ns: seq<Node>): Option<Node> {
    var unique := Dedup(ns);
    if |unique| == 0 then None else if |unique| == 1 then Some(unique[0]) else Some(And(unique))
  }

  function Invert(n: Node): Node {
    match n
    case Not(m) => m
    case _ => Not(n)
  }

  lemma OrMeaning(rho: Valuation, ns: seq<Node>)
    requires ns != []
    ensures MkOr(ns).Some? && (Eval(rho, MkOr(ns).value) <==> exists n | n in ns :: Eval(rho, n))
  {
    var unique := Dedup(ns);
    assert (exists n | n in ns :: Eval(rho, n)) <==> exists n | n in unique :: Eval(rho, n);
    assert (exists n | n in unique :: Eval(rho, n)) <==> exists i | 0 <= i < |unique| :: Eval(rho, unique[i]);
    if |unique| == 1 {
      assert unique == [unique[0]];
    }
  }

  lemma AndMeaning(rho: Valuation, ns: seq<Node>)
    requires ns != []
    ensures MkAnd(ns).Some? && (Eval(rho, MkAnd(ns).value) <==> forall n | n in ns :: Eval(rho, n))
  {
    var unique := Dedup(ns);
    assert (forall n | n in ns :: Eval(rho, n)) <==> forall n | n in unique :: Eval(rho, n);
    assert (forall n | n in unique :: Eval(rho, n)) <==> forall i | 0 <= i < |unique| :: Eval(rho, unique[i]);
    if |unique| == 1 {
      assert unique == [unique[0]];
    }
  }

  /** addNode with MkOrNode, the only combiner it is given. */
  function AddNode(curr: Option<Node>, next: Option<Node>): (r: Option<Node>)
    ensures r.None? <==> curr.None? && next.None?
  {
    if next.None? then curr
    else if curr.None? then next
    else
      assert Dedup([curr.value, next.value]) != [];
      MkOr([curr.value, next.value])
  }

  lemma AddMeaning(rho: Valuation, curr: Option<Node>, next: Option<Node>)
    ensures EvalOpt(rho, AddNode(curr, next)) <==> EvalOpt(rho, curr) || EvalOpt(rho, next)
  {
    if curr.Some? && next.Some? {
      var ns := [curr.value, next.value];
      OrMeaning(rho, ns);
      assert ns[0] in ns && ns[1] in ns;
    }
  }

  lemma AndTwoMeaning(rho: Valuation, a: Node, b: Node)
    ensures MkAnd([a, b]).Some?
    ensures Eval(rho, MkAnd([a, b]).value) <==> Eval(rho, a) && Eval(rho, b)
  {
    var ns := [a, b];
    AndMeaning(rho, ns);
    assert ns[0] in ns && ns[1] in ns;
  }

  // ---- conditions ------------------------------------------------------------------

  /** The operands of a list that are not constants, or None when one of them is
      the constant that decides the list. */
  function Collect(leaf: string -> Node, cs: seq<Condition>, decisive: bool): Option<seq<Node>>
    decreases cs, 0
  {
    if cs == [] then Some([])
    else
      var n := ConditionNode(leaf, cs[0]);
      if n == Const(decisive) then None
      else
        var rest := Collect(leaf, cs[1..], decisive);
        if rest.None? then None
        else if n.Const? then rest
        else Some([n] + rest.value)
  }

  function Inverted(ns: seq<Node>): seq<Node> {
    seq(|ns|, i requires 0 <= i < |ns| => Invert(ns[i]))
  }

  /** EvaluateCondition. `leaf` is the residual of an expression: a constant when
      the request determines it, an atom otherwise. */
  function ConditionNode(leaf: string -> Node, c: Condition): Node
    decreases c, 1
  {
    match c
    case Expr(src) => leaf(src)
    case AnyOf(cs) =>
      (match Collect(leaf, cs, true)
       case None => Const(true)
       case Some(ns) => if |ns| == 0 then Const(false) else if |ns| == 1 then ns[0] else Or(ns))
    case AllOf(cs) =>
      (match Collect(leaf, cs, false)
       case None => Const(false)
       case Some(ns) => if |ns| == 0 then Const(true) else if |ns| == 1 then ns[0] else And(ns))
    case NoneOf(cs) =>
      (match Collect(leaf, cs, true)
       case None => Const(false)
       case Some(ns) => if |ns| == 0 then Const(true) else if |ns| == 1 then Invert(ns[0]) else And(Inverted(ns)))
    case Unsupported => Const(false)
  }

  predicate SomeHolds(cs: seq<Condition>, truth: string -> bool, v: bool) {
    exists i | 0 <= i < |cs| :: Holds(cs[i], truth) == v
  }

  lemma SomeHoldsCons(cs: seq<Condition>, truth: string -> bool, v: bool)
    requires cs != []
    ensures SomeHolds(cs, truth, v) <==> Holds(cs[0], truth) == v || SomeHolds(cs[1..], truth, v)
  {
    var tail := cs[1..];
    assert forall i | 0 <= i < |tail| :: tail[i] == cs[i + 1];
    assert forall i | 0 < i < |cs| :: cs[i] == tail[i - 1];
  }

  predicate SomeIs(rho: Valuation, ns: seq<Node>, v: bool) {
    exists i | 0 <= i < |ns| :: Eval(rho, ns[i]) == v
  }

  lemma SomeIsSnoc(rho: Valuation, ns: seq<Node>, n: Node, v: bool)
    ensures SomeIs(rho, ns + [n], v) <==> SomeIs(rho, ns, v) || Eval(rho, n) == v
  {
    var all := ns + [n];
    assert forall i | 0 <= i < |ns| :: all[i] == ns[i];
    assert all[|ns|] == n;
  }

  lemma OperandsMeaning(rho: Valuation, ns: seq<Node>)
    ensures Eval(rho, And(ns)) == !SomeIs(rho, ns, false)
    ensures Eval(rho, Or(ns)) == SomeIs(rho, ns, true)
    ensures |ns| == 1 ==> SomeIs(rho, ns, true) == Eval(rho, ns[0]) && SomeIs(rho, ns, false) == !Eval(rho, ns[0])
  {
  }

  lemma SomeIsCons(rho: Valuation, n: Node, ns: seq<Node>, v: bool)
    ensures SomeIs(rho, [n] + ns, v) <==> Eval(rho, n) == v || SomeIs(rho, ns, v)
  {
    var all := [n] + ns;
    assert all[0] == n;
    assert forall i | 0 <= i < |ns| :: all[i + 1] == ns[i];
    assert forall i | 0 < i < |all| :: all[i] == ns[i - 1];
  }

  lemma InvertedMeaning(rho: Valuation, ns: seq<Node>, v: bool)
    ensures SomeIs(rho, Inverted(ns), v) <==> SomeIs(rho, ns, !v)
  {
    var inv := Inverted(ns);
    assert forall i | 0 <= i < |ns| :: inv[i] == Invert(ns[i]) && Eval(rho, inv[i]) == !Eval(rho, ns[i]);
  }

  /** Partial evaluation of a condition tree keeps its meaning. */
  lemma {:induction false} ConditionMeaning(rho: Valuation, leaf: string -> Node, truth: string -> bool, c: Condition)
    requires forall src | Mentions(c, src) :: Eval(rho, leaf(src)) == truth(src)
    requires Supported(c)
    ensures Eval(rho, ConditionNode(leaf, c)) == Holds(c, truth)
    decreases c, 1
  {
    match c
    case Expr(src) => assert Mentions(c, src);
    case AnyOf(cs) =>
      ListMeaning(rho, leaf, truth, cs, true);
      assert Holds(c, truth) == SomeHolds(cs, truth, true);
    case AllOf(cs) =>
      ListMeaning(rho, leaf, truth, cs, false);
      assert Holds(c, truth) == !SomeHolds(cs, truth, false);
    case NoneOf(cs) =>
      ListMeaning(rho, leaf, truth, cs, true);
      assert Holds(c, truth) == !SomeHolds(cs, truth, true);
  }

  lemma {:induction false} ListMeaning(rho: Valuation, leaf: string -> Node, truth: string -> bool, cs: seq<Condition>,
                                       decisive: bool)
    requires forall src | MentionsAny(cs, src) :: Eval(rho, leaf(src)) == truth(src)
    requires forall i | 0 <= i < |cs| :: Supported(cs[i])
    ensures decisive ==> Eval(rho, ConditionNode(leaf, AnyOf(cs))) == SomeHolds(cs, truth, true)
    ensures decisive ==> Eval(rho, ConditionNode(leaf, NoneOf(cs))) == !SomeHolds(cs, truth, true)
    ensures !decisive ==> Eval(rho, ConditionNode(leaf, AllOf(cs))) == !SomeHolds(cs, truth, false)
    decreases cs, 1
  {
    hide Holds;
    CollectMeaning(rho, leaf, truth, cs, decisive);
    var r := Collect(leaf, cs, decisive);
    if r.Some? {
      OperandsMeaning(rho, r.value);
      InvertedMeaning(rho, r.value, false);
      OperandsMeaning(rho, Inverted(r.value));
    }
  }

  lemma {:induction false} CollectMeaning(rho: Valuation, leaf: string -> Node, truth: string -> bool,
                                          cs: seq<Condition>, decisive: bool)
    requires forall src | MentionsAny(cs, src) :: Eval(rho, leaf(src)) == truth(src)
    requires forall i | 0 <= i < |cs| :: Supported(cs[i])
    ensures var r := Collect(leaf, cs, decisive);
            SomeHolds(cs, truth, decisive) <==> r.None? || SomeIs(rho, r.value, decisive)
    decreases cs, 0
  {
    hide Holds;
    if cs != [] {
      var n, tail := ConditionNode(leaf, cs[0]), cs[1..];
      assert forall i | 0 <= i < |tail| :: tail[i] == cs[i + 1];
      assert forall src | MentionsAny(tail, src) :: MentionsAny(cs, src);
      assert forall src | Mentions(cs[0], src) :: MentionsAny(cs, src);
      ConditionMeaning(rho, leaf, truth, cs[0]);
      CollectMeaning(rho, leaf, truth, tail, decisive);
      SomeHoldsCons(cs, truth, decisive);
      var rest := Collect(leaf, tail, decisive);
      if rest.Some? {
        SomeIsCons(rho, n, rest.value, decisive);
      }
    }
  }

  /** A condition that the request determines is planned as a constant. */
  lemma {:induction false} ConditionFolds(leaf: string -> Node, truth: string -> bool, c: Condition)
    requires forall src | Mentions(c, src) :: leaf(src) == Const(truth(src))
    requires Supported(c)
    ensures ConditionNode(leaf, c) == Const(Holds(c, truth))
    decreases c, 1
  {
    match c
    case Expr(src) => assert Mentions(c, src);
    case AnyOf(cs) =>
      CollectFolds(leaf, truth, cs, true);
      assert Holds(c, truth) == SomeHolds(cs, truth, true);
    case AllOf(cs) =>
      CollectFolds(leaf, truth, cs, false);
      assert Holds(c, truth) == !SomeHolds(cs, truth, false);
    case NoneOf(cs) =>
      CollectFolds(leaf, truth, cs, true);
      assert Holds(c, truth) == !SomeHolds(cs, truth, true);
  }

  lemma {:induction false} CollectFolds(leaf: string -> Node, truth: string -> bool, cs: seq<Condition>, decisive: bool)
    requires forall src | MentionsAny(cs, src) :: leaf(src) == Const(truth(src))
    requires forall i | 0 <= i < |cs| :: Supported(cs[i])
    ensures Collect(leaf, cs, decisive) == if SomeHolds(cs, truth, decisive) then None else Some([])
    decreases cs, 0
  {
    hide Holds;
    if cs != [] {
      var tail := cs[1..];
      assert forall i | 0 <= i < |tail| :: tail[i] == cs[i + 1];
      assert forall src | MentionsAny(tail, src) :: MentionsAny(cs, src);
      assert forall src | Mentions(cs[0], src) :: MentionsAny(cs, src);
      ConditionFolds(leaf, truth, cs[0]);
      CollectFolds(leaf, truth, tail, decisive);
      SomeHoldsCons(cs, truth, decisive);
    }
  }

  // ---- the filter --------------------------------------------------------------------

  /** What is left of the operands of an AND or an OR: constants that do not
      matter and repeated operands go, None means a deciding constant was met. */
  function KeepOperands(ns: seq<Node>, decisive: bool): Option<seq<(Node, Node)>>
    decreases ns, 0
  {
    if ns == [] then Some([])
    else
      var last := |ns| - 1;
      var rest := KeepOperands(ns[..last], decisive);
      var n := Normalise(ns[last]);
      if rest.None? || n == Const(decisive) then None
      else if n.Const? || exists i | 0 <= i < |rest.value| :: rest.value[i].0 == ns[last] then rest
      else Some(rest.value + [(ns[last], n)])
  }

  function Seconds(ps: seq<(Node, Node)>): seq<Node> {
    seq(|ps|, i requires 0 <= i < |ps| => ps[i].1)
  }

  function Normalise(n: Node): Node
    decreases n, 1
  {
    match n
    case And(ns) =>
      (match KeepOperands(ns, false)
       case None => Const(false)
       case Some(ps) => if |ps| == 0 then Const(true) else if |ps| == 1 then ps[0].1 else And(Seconds(ps)))
    case Or(ns) =>
      (match KeepOperands(ns, true)
       case None => Const(true)
       case Some(ps) => if |ps| == 0 then Const(false) else if |ps| == 1 then ps[0].1 else Or(Seconds(ps)))
    case Not(m) =>
      var k := Normalise(m);
      if k.Const? then Const(!k.b) else Not(k)
    case _ => n
  }

  /** Normalising a filter expression keeps its meaning. */
  lemma {:induction false} NormaliseMeaning(rho: Valuation, n: Node)
    ensures Eval(rho, Normalise(n)) == Eval(rho, n)
    decreases n, 1
  {
    match n
    case And(ns) =>
      KeepMeaning(rho, ns, false);
      OperandsMeaning(rho, ns);
      var kept := KeepOperands(ns, false);
      if kept.Some? {
        OperandsMeaning(rho, Seconds(kept.value));
      }
    case Or(ns) =>
      KeepMeaning(rho, ns, true);
      OperandsMeaning(rho, ns);
      var kept := KeepOperands(ns, true);
      if kept.Some? {
        OperandsMeaning(rho, Seconds(kept.value));
      }
    case Not(m) => NormaliseMeaning(rho, m);
    case _ =>
  }

  lemma {:induction false} KeepMeaning(rho: Valuation, ns: seq<Node>, decisive: bool)
    ensures var r := KeepOperands(ns, decisive);
            && (r.None? ==> SomeIs(rho, ns, decisive))
            && (r.Some? ==> (SomeIs(rho, Seconds(r.value), decisive) <==> SomeIs(rho, ns, decisive)))
            && (r.Some? ==> forall i | 0 <= i < |r.value| :: Eval(rho, r.value[i].1) == Eval(rho, r.value[i].0))
    decreases ns, 0
  {
    if ns != [] {
      var last := |ns| - 1;
      var rest, r := KeepOperands(ns[..last], decisive), KeepOperands(ns, decisive);
      KeepMeaning(rho, ns[..last], decisive);
      NormaliseMeaning(rho, ns[last]);
      assert ns == ns[..last] + [ns[last]];
      SomeIsSnoc(rho, ns[..last], ns[last], decisive);
      if r.Some? && r != rest {
        assert Seconds(r.value) == Seconds(rest.value) + [Normalise(ns[last])];
        SomeIsSnoc(rho, Seconds(rest.value), Normalise(ns[last]), decisive);
      } else if r.Some? && Eval(rho, ns[last]) == decisive {
        var i :| 0 <= i < |rest.value| && rest.value[i].0 == ns[last];
        assert Seconds(rest.value)[i] == rest.value[i].1;
      }
    }
  }

  /** No constant occurs in the node. */
  predicate ConstFree(n: Node)
    decreases n
  {
    match n
    case Const(_) => false
    case Atom(_) => true
    case And(ns) => forall i | 0 <= i < |ns| :: ConstFree(ns[i])
    case Or(ns) => forall i | 0 <= i < |ns| :: ConstFree(ns[i])
    case Not(m) => ConstFree(m)
  }

  /** A normalised filter expression is a constant or has none in it. */
  lemma {:induction false} NormaliseFolds(n: Node)
    ensures Normalise(n).Const? || ConstFree(Normalise(n))
    decreases n, 1
  {
    match n
    case And(ns) =>
      KeepFolds(ns, false);
      var kept := KeepOperands(ns, false);
      if kept.Some? {
        SecondsFold(kept.value);
      }
    case Or(ns) =>
      KeepFolds(ns, true);
      var kept := KeepOperands(ns, true);
      if kept.Some? {
        SecondsFold(kept.value);
      }
    case Not(m) => NormaliseFolds(m);
    case _ =>
  }

  lemma SecondsFold(ps: seq<(Node, Node)>)
    requires forall i | 0 <= i < |ps| :: ConstFree(ps[i].1)
    ensures ConstFree(And(Seconds(ps))) && ConstFree(Or(Seconds(ps)))
  {
    var ns := Seconds(ps);
    assert forall i | 0 <= i < |ns| :: ns[i] == ps[i].1;
  }

  lemma {:induction false} KeepFolds(ns: seq<Node>, decisive: bool)
    ensures var r := KeepOperands(ns, decisive);
            r.Some? ==> forall i | 0 <= i < |r.value| :: ConstFree(r.value[i].1)
    decreases ns, 0
  {
    if ns != [] {
      var last := |ns| - 1;
      KeepFolds(ns[..last], decisive);
      NormaliseFolds(ns[last]);
    }
  }

  datatype Filter = AlwaysAllowed | AlwaysDenied | Conditional(node: Node)

  predicate FilterHolds(rho: Valuation, f: Filter) {
    match f
    case AlwaysAllowed => true
    case AlwaysDenied => false
    case Conditional(n) => Eval(rho, n)
  }

  function ToFilter(n: Node): Filter {
    match Normalise(n)
    case Const(b) => if b then AlwaysAllowed else AlwaysDenied
    case k => Conditional(k)
  }

  lemma FilterMeaning(rho: Valuation, n: Node)
    ensures FilterHolds(rho, ToFilter(n)) == Eval(rho, n)
  {
    NormaliseMeaning(rho, n);
  }

  predicate AllHold(rho: Valuation, filters: seq<Filter>) {
    forall i | 0 <= i < |filters| :: FilterHolds(rho, filters[i])
  }

  /** One filter for all actions: any denial denies, conditions are conjoined. */
  method MergeWithAnd(filters: seq<Filter>) returns (f: Filter)
    ensures forall rho :: FilterHolds(rho, f) <==> AllHold(rho, filters)
  {
    var conds: seq<Node> := [];
    for i := 0 to |filters|
      invariant forall rho :: !SomeIs(rho, conds, false) <==> AllHold(rho, filters[..i])
    {
      assert filters[..i + 1] == filters[..i] + [filters[i]];
      match filters[i] {
        case AlwaysAllowed =>
        case AlwaysDenied =>
          f := AlwaysDenied;
          return;
        case Conditional(n) =>
          forall rho ensures SomeIs(rho, conds + [n], false) <==> SomeIs(rho, conds, false) || !Eval(rho, n) {
            SomeIsSnoc(rho, conds, n, false);
          }
          if n !in conds {
            conds := conds + [n];
          }
      }
    }
    assert filters[..|filters|] == filters;
    if |conds| == 0 {
      f := AlwaysAllowed;
    } else if |conds| == 1 {
      f := Conditional(conds[0]);
    } else {
      f := Conditional(And(conds));
    }
  }
}
