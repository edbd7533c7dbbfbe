/** Variables and constants of a policy (internal/compile/variables.go,
    internal/compile/constants.go): which of them the compiled conditions use, the
    order they are listed in, and why evaluating the shorter list is enough. */
module Variables {
  import opened Common
  import opened Conditions

  /** An expression with the constants and variables it selects from. */
  datatype Definition = Definition(src: string, constants: set<string>, variables: set<string>)

  // ---- references ---------------------------------------------------------------------

  /** The edges of the graph: references to other defined variables. */
  function Refs(defs: map<string, Definition>, name: string): set<string>
    requires name in defs
  {
    set v | v in defs[name].variables && v in defs && v != name
  }

  ghost predicate Closed(defs: map<string, Definition>, s: set<string>) {
    s <= defs.Keys && forall v | v in s :: Refs(defs, v) <= s
  }

  /** `used` is the closure of the roots under references: the least closed set that
      contains them. */
  ghost predicate IsClosure(defs: map<string, Definition>, roots: set<string>, used: set<string>) {
    roots <= used && Closed(defs, used) && forall s | Closed(defs, s) && roots <= s :: used <= s
  }

  /** The defined variables and constants that the expressions mention. */
  ghost function RootVariables(defs: map<string, Definition>, roots: set<Definition>): set<string> {
    set e, v | e in roots && v in e.variables && v in defs :: v
  }

  ghost predicate UsesConstant(roots: set<Definition>, defs: map<string, Definition>, used: set<string>, c: string) {
    (exists e | e in roots :: c in e.constants) || (exists v | v in used && v in defs :: c in defs[v].constants)
  }

  /** Every reference of a definition leads to a constant or to another variable. */
  ghost predicate WellReferenced(defs: map<string, Definition>, constants: Vars) {
    forall name | name in defs :: Resolves(defs, constants, name)
  }

  predicate Resolves(defs: map<string, Definition>, constants: Vars, name: string)
    requires name in defs
  {
    defs[name].constants <= constants.Keys && defs[name].variables <= defs.Keys - {name}
  }

  /** Some name outside `left` is not defined exactly once. */
  ghost predicate Redefined(sources: map<string, nat>, left: set<string>) {
    exists name | name in sources && name !in left :: sources[name] != 1
  }

  /** The definitions of one policy: variables, constants, and what has been used so
      far by the conditions compiled so far (`roots`). */
  class Definitions {
    var defs: map<string, Definition>
    var constants: Vars
    var sources: map<string, nat>
    var used: set<string>
    var usedConstants: set<string>
    var failed: bool
    ghost var roots: set<Definition>

    ghost predicate Valid()
      reads this
    {
      && IsClosure(defs, RootVariables(defs, roots), used)
      && (forall c :: c in usedConstants <==> c in constants && UsesConstant(roots, defs, used, c))
      && (!failed ==>
          WellReferenced(defs, constants)
          && forall e | e in roots :: e.constants <= constants.Keys && e.variables <= defs.Keys)
    }

    constructor (constants: Vars)
      ensures Valid() && defs == map[] && this.constants == constants && roots == {} && sources == map[] && !failed
    {
      defs, this.constants, sources, used, usedConstants, failed, roots := map[], constants, map[], {}, {}, false, {};
    }

    /** Definitions come from imports and from the policy itself; a name defined twice
        keeps its last definition and is reported when references are resolved. */
    method Add(name: string, e: Definition)
      requires used == {} && usedConstants == {} && roots == {}
      modifies `defs, `sources
      ensures defs == old(defs)[name := e]
      ensures sources == old(sources)[name := (if name in old(sources) then old(sources)[name] else 0) + 1]
    {
      sources := sources[name := (if name in sources then sources[name] else 0) + 1];
      defs := defs[name := e];
    }

    /** Reports redefinitions, references to undefined names and references of a
        variable to itself, and forgets all use. */
    method Resolve()
      modifies `used, `usedConstants, `failed, `roots
      ensures Valid() && roots == {} && used == {}
      ensures failed <==> old(failed) || Redefined(sources, {}) || !WellReferenced(defs, constants)
    {
      var left := sources.Keys;
      while left != {}
        invariant left <= sources.Keys
        invariant failed <==> old(failed) || Redefined(sources, left)
        decreases left
      {
        var name :| name in left;
        left := left - {name};
        if sources[name] != 1 {
          failed := true;
        }
      }
      var names := defs.Keys;
      while names != {}
        invariant names <= defs.Keys
        invariant failed <==> || old(failed) || Redefined(sources, {})
                              || exists name | name in defs && name !in names :: !Resolves(defs, constants, name)
        decreases names
      {
        var name :| name in names;
        names := names - {name};
        if !Resolves(defs, constants, name) {
          failed := true;
        }
      }
      assert WellReferenced(defs, constants) <==>
          forall name | name in defs && name !in names :: Resolves(defs, constants, name);
      used, usedConstants, roots := {}, {}, {};
    }

    /** The used variables in an order in which references come first. Sorting is left
        to a graph library: `sorted` is its answer, None for a cyclic graph. */
    method Used(sorted: Option<seq<string>>) returns (ordered: seq<Variable>)
      requires Valid() && (sorted.Some? ==> TopologicalOrder(defs, sorted.value)) && (sorted.None? ==> Cyclic(defs))
      modifies `failed
      ensures Valid()
      ensures failed <==> old(failed) || Cyclic(defs)
      ensures ordered == if Cyclic(defs) then [] else Listed(defs, sorted.value, used)
    {
      SortableExactly(defs);
      if sorted.None? {
        failed := true;
        return [];
      }
      ordered := [];
      var i := |sorted.value|;
      while i > 0
        invariant 0 <= i <= |sorted.value|
        invariant ordered == Listed(defs, sorted.value[i..], used)
      {
        i := i - 1;
        var name := sorted.value[i];
        assert sorted.value[i..][0] == name && sorted.value[i..][1..] == sorted.value[i + 1..];
        if name in used {
          ordered := [Variable(name, defs[name].src)] + ordered;
        }
      }
      assert sorted.value[0..] == sorted.value;
    }

    /** Marks a variable and everything it refers to. Terminates on cyclic graphs too:
        the unmarked names shrink. */
    method UseVariable(name: string)
      requires name in defs && used <= defs.Keys
      modifies `used, `usedConstants, `failed
      ensures MarkedFrom(defs, {name}, old(used), used)
      ensures forall c :: c in usedConstants <==>
              c in old(usedConstants) || (c in constants && NewlyReads(defs, old(used), used, c))
      ensures failed <==> old(failed) || NewlyUndefined(defs, constants, old(used), used)
      decreases defs.Keys - used, 0
    {
      if name in used {
        return;
      }
      used := used + {name};
      UseConstants(defs[name].constants);
      UseVariables(Refs(defs, name));
    }

    method UseVariables(names: set<string>)
      requires names <= defs.Keys && used <= defs.Keys
      modifies `used, `usedConstants, `failed
      ensures MarkedFrom(defs, names, old(used), used)
      ensures forall c :: c in usedConstants <==>
              c in old(usedConstants) || (c in constants && NewlyReads(defs, old(used), used, c))
      ensures failed <==> old(failed) || NewlyUndefined(defs, constants, old(used), used)
      decreases defs.Keys - used, 1
    {
      var left := names;
      while left != {}
        invariant left <= names && MarkedFrom(defs, names - left, old(used), used)
        invariant forall c :: c in usedConstants <==>
                  c in old(usedConstants) || (c in constants && NewlyReads(defs, old(used), used, c))
        invariant failed <==> old(failed) || NewlyUndefined(defs, constants, old(used), used)
        decreases left
      {
        var v :| v in left;
        ghost var before := used;
        UseVariable(v);
        MarkedMore(defs, names - left, v, old(used), before, used);
        left := left - {v};
      }
    }

    method UseConstants(names: set<string>)
      modifies `usedConstants, `failed
      ensures usedConstants == old(usedConstants) + (names * constants.Keys)
      ensures failed <==> old(failed) || !(names <= constants.Keys)
    {
      var left := names;
      while left != {}
        invariant left <= names
        invariant usedConstants == old(usedConstants) + ((names - left) * constants.Keys)
        invariant failed <==> old(failed) || !(names - left <= constants.Keys)
        decreases left
      {
        var c :| c in left;
        left := left - {c};
        if c in constants {
          usedConstants := usedConstants + {c};
        } else {
          failed := true;
        }
      }
    }

    /** A condition has been compiled: its references are used. */
    method Use(e: Definition)
      requires Valid()
      modifies `used, `usedConstants, `failed, `roots
      ensures Valid() && roots == old(roots) + {e} && old(used) <= used
      ensures failed <==>
              old(failed) || !(e.constants <= constants.Keys) || !(e.variables <= defs.Keys)
              || NewlyUndefined(defs, constants, old(used), used)
    {
      UseConstants(e.constants);
      UseVariables(e.variables * defs.Keys);
      if !(e.variables <= defs.Keys) {
        failed := true;
      }
      ClosureGrows(defs, roots, e, old(used), used);
      ConstantsGrow(defs, roots, e, old(used), used);
      hide IsClosure, RootVariables, UsesConstant, NewlyReads, NewlyUndefined, WellReferenced;
      roots := roots + {e};
    }
  }

  /** Marking the names went from `used` to `used'`: they and everything they refer to
      are marked, and nothing else was. */
  ghost predicate MarkedFrom(defs: map<string, Definition>, names: set<string>, used: set<string>, used': set<string>) {
    && used <= used' <= defs.Keys && names <= used'
    && (forall v | v in used' && v !in used :: Refs(defs, v) <= used')
    && (forall s | Closed(defs, s) && names <= s :: used' <= used + s)
  }

  lemma MarkedMore(defs: map<string, Definition>, names: set<string>, v: string, used: set<string>, used': set<string>,
                   used'': set<string>)
    requires MarkedFrom(defs, names, used, used') && MarkedFrom(defs, {v}, used', used'')
    ensures MarkedFrom(defs, names + {v}, used, used'')
  {
  }

  ghost predicate NewlyReads(defs: map<string, Definition>, used: set<string>, used': set<string>, c: string) {
    exists v | v in used' && v !in used && v in defs :: c in defs[v].constants
  }

  ghost predicate NewlyUndefined(defs: map<string, Definition>, constants: Vars, used: set<string>, used': set<string>)
  {
    exists v | v in used' && v !in used && v in defs :: !(defs[v].constants <= constants.Keys)
  }

  lemma ClosureGrows(defs: map<string, Definition>, roots: set<Definition>, e: Definition, used: set<string>,
                     used': set<string>)
    requires IsClosure(defs, RootVariables(defs, roots), used) && MarkedFrom(defs, e.variables * defs.Keys, used, used')
    ensures IsClosure(defs, RootVariables(defs, roots + {e}), used')
  {
    assert RootVariables(defs, roots + {e}) == RootVariables(defs, roots) + e.variables * defs.Keys;
  }

  lemma ConstantsGrow(defs: map<string, Definition>, roots: set<Definition>, e: Definition, used: set<string>,
                      used': set<string>)
    requires used <= used' <= defs.Keys
    ensures forall c :: UsesConstant(roots + {e}, defs, used', c) <==>
                          UsesConstant(roots, defs, used, c) || c in e.constants || NewlyReads(defs, used, used', c)
  {
    assert e in roots + {e};
    assert forall f | f in roots :: f in roots + {e};
  }

  // ---- the list ----------------------------------------------------------------------------

  ghost predicate TopologicalOrder(defs: map<string, Definition>, order: seq<string>) {
    && (forall name :: name in order <==> name in defs)
    && NoRepeats(order)
    && (forall i, j | 0 <= i < |order| && 0 <= j < |order| && order[j] in Refs(defs, order[i]) :: j < i)
  }

  /** Definitions that refer to each other in a circle. */
  ghost predicate Cycle(defs: map<string, Definition>, p: seq<string>) {
    && p != [] && (forall v | v in p :: v in defs)
    && (forall i | 0 < i < |p| :: p[i] in Refs(defs, p[i - 1]))
    && p[0] in Refs(defs, p[|p| - 1])
  }

  ghost predicate Cyclic(defs: map<string, Definition>) {
    exists p :: Cycle(defs, p)
  }

  function Next(p: seq<string>, i: nat): string
    requires i < |p|
  {
    if i + 1 < |p| then p[i + 1] else p[0]
  }

  ghost predicate Mentions(defs: map<string, Definition>, p: seq<string>, i: nat)
    requires i < |p|
  {
    p[i] in defs && Next(p, i) in defs[p[i]].variables && Next(p, i) != p[i]
  }

  /** Each name is a variable that mentions the next one, the last one the first. A
      reference of a variable to itself is no circle: it does not resolve. */
  lemma CycleExactly(defs: map<string, Definition>, constants: Vars, p: seq<string>)
    ensures Cycle(defs, p) <==> p != [] && forall i | 0 <= i < |p| :: Mentions(defs, p, i)
    ensures forall name | name in defs && name in defs[name].variables :: !Resolves(defs, constants, name)
  {
    if p != [] && forall i | 0 <= i < |p| :: Mentions(defs, p, i) {
      assert Mentions(defs, p, 0);
      forall i | 0 <= i < |p| ensures p[i] in defs && Next(p, i) in Refs(defs, p[i]) {
        assert Mentions(defs, p, i);
        assert i + 1 < |p| ==> Mentions(defs, p, i + 1);
      }
      assert forall i | 0 < i < |p| :: p[i] == Next(p, i - 1);
      assert p[0] == Next(p, |p| - 1);
    }
    if Cycle(defs, p) {
      forall i | 0 <= i < |p| ensures Mentions(defs, p, i) {
        assert p[i] in p;
        assert i + 1 < |p| ==> p[i + 1] in Refs(defs, p[(i + 1) - 1]);
      }
    }
  }

  /** Each name is referred to by the one before it. */
  ghost predicate Walk(defs: map<string, Definition>, s: set<string>, walk: seq<string>)
    requires s <= defs.Keys
  {
    walk != [] && (forall v | v in walk :: v in s) && forall i | 0 < i < |walk| :: walk[i] in Refs(defs, walk[i - 1])
  }

  lemma WalkCloses(defs: map<string, Definition>, s: set<string>, walk: seq<string>, j: nat)
    requires s <= defs.Keys && Walk(defs, s, walk) && j < |walk| && walk[j] in Refs(defs, walk[|walk| - 1])
    ensures Cycle(defs, walk[j..])
  {
    hide Refs;
    var p := walk[j..];
    assert forall i | 0 <= i < |p| :: p[i] == walk[j + i];
    assert forall v | v in p :: v in walk;
  }

  lemma WalkOn(defs: map<string, Definition>, s: set<string>, walk: seq<string>, next: string)
    requires s <= defs.Keys && Walk(defs, s, walk) && next in Refs(defs, walk[|walk| - 1]) && next in s
    ensures Walk(defs, s, walk + [next])
  {
    hide Refs;
  }

  /** Where every name refers to another of the set, following the references leads
      back to a name passed before. */
  lemma {:induction false} FindCycle(defs: map<string, Definition>, s: set<string>, walk: seq<string>)
    returns (p: seq<string>)
    requires s <= defs.Keys && (forall v | v in s :: Refs(defs, v) * s != {}) && Walk(defs, s, walk)
    ensures Cycle(defs, p)
    decreases |s - (set v | v in walk)|
  {
    var last := walk[|walk| - 1];
    assert last in walk;
    hide Refs, Cycle;
    var next :| next in Refs(defs, last) * s;
    if next in walk {
      var j :| 0 <= j < |walk| && walk[j] == next;
      WalkCloses(defs, s, walk, j);
      p := walk[j..];
    } else {
      var longer := walk + [next];
      WalkOn(defs, s, walk, next);
      var before, after := s - (set v | v in walk), s - (set v | v in longer);
      hide Walk;
      assert next in before && next !in after;
      SubsetSize(after, before);
      p := FindCycle(defs, s, longer);
    }
  }

  /** The names of `left` in an order in which references within `left` come first. */
  ghost predicate Orders(defs: map<string, Definition>, left: set<string>, order: seq<string>)
    requires left <= defs.Keys
  {
    && (forall name :: name in order <==> name in left)
    && NoRepeats(order)
    && (forall i, j | 0 <= i < |order| && 0 <= j < |order| && order[i] in defs && order[j] in Refs(defs, order[i]) ::
        j < i)
  }

  lemma {:induction false} OrderWithout(defs: map<string, Definition>, left: set<string>) returns (order: seq<string>)
    requires left <= defs.Keys && !Cyclic(defs)
    ensures Orders(defs, left, order)
    decreases |left|
  {
    if left == {} {
      order := [];
    } else {
      var v := Unreferring(defs, left);
      var rest := OrderWithout(defs, left - {v});
      order := [v] + rest;
      OrderGrows(defs, left, v, rest);
    }
  }

  lemma Unreferring(defs: map<string, Definition>, left: set<string>) returns (v: string)
    requires left != {} && left <= defs.Keys && !Cyclic(defs)
    ensures v in left && Refs(defs, v) * left == {}
  {
    if forall w | w in left :: Refs(defs, w) * left != {} {
      var w :| w in left;
      var p := FindCycle(defs, left, [w]);
      assert false;
    } else {
      v :| v in left && Refs(defs, v) * left == {};
    }
  }

  lemma OrderGrows(defs: map<string, Definition>, left: set<string>, v: string, rest: seq<string>)
    requires left <= defs.Keys && v in left && Refs(defs, v) * left == {} && Orders(defs, left - {v}, rest)
    ensures Orders(defs, left, [v] + rest)
  {
    var order := [v] + rest;
    assert v !in rest;
    forall name ensures name in order <==> name in left {
      assert name in order <==> name == v || name in rest;
    }
    assert forall i | 0 <= i < |order| :: order[i] in order;
    forall i, j | 0 <= i < |order| && 0 <= j < |order| && order[j] in Refs(defs, order[i]) ensures j < i {
      assert order[j] in left;
      if i > 0 && j > 0 {
        assert order[i] == rest[i - 1] && order[j] == rest[j - 1];
      }
    }
  }

  /** Positions fall along references, so that no circle closes. */
  lemma {:induction false} PositionsFall(defs: map<string, Definition>, order: seq<string>, p: seq<string>, k: nat,
                                         at: nat) returns (to: nat)
    requires TopologicalOrder(defs, order) && Cycle(defs, p) && k < |p| && at < |order| && order[at] == p[0]
    ensures to < |order| && order[to] == p[k] && to <= at
  {
    if k == 0 {
      to := at;
    } else {
      var before := PositionsFall(defs, order, p, k - 1, at);
      assert p[k] in p && p[k] in order;
      to :| 0 <= to < |order| && order[to] == p[k];
    }
  }

  /** There is such an order exactly when the definitions are not cyclic. */
  lemma SortableExactly(defs: map<string, Definition>)
    ensures (exists order :: TopologicalOrder(defs, order)) <==> !Cyclic(defs)
  {
    if !Cyclic(defs) {
      var order := OrderWithout(defs, defs.Keys);
      assert TopologicalOrder(defs, order);
    } else if order :| TopologicalOrder(defs, order) {
      var p :| Cycle(defs, p);
      assert p[0] in p && p[0] in order;
      var at :| 0 <= at < |order| && order[at] == p[0];
      var to := PositionsFall(defs, order, p, |p| - 1, at);
      assert false;
    }
  }

  /** The names of the order that are kept, with their expressions. */
  function Listed(defs: map<string, Definition>, order: seq<string>, kept: set<string>): seq<Variable> {
    if order == [] then []
    else if order[0] in kept
        && order[0] in defs then [Variable(order[0], defs[order[0]].src)] + Listed(defs, order[1..], kept)
    else Listed(defs, order[1..], kept)
  }

  ghost predicate Precedes(list: seq<Variable>, i: nat, name: string)
    requires i <= |list|
  {
    exists j | 0 <= j < i :: list[j].name == name
  }

  lemma {:induction false} ListedMembers(defs: map<string, Definition>, order: seq<string>, kept: set<string>)
    ensures forall x | x in Listed(defs, order, kept) ::
            x.name in order && x.name in kept && x.name in defs && x.src == defs[x.name].src
  {
    if order != [] {
      ListedMembers(defs, order[1..], kept);
    }
  }

  lemma {:induction false} ListedHas(defs: map<string, Definition>, order: seq<string>, kept: set<string>, name: string)
    requires name in order && name in kept && name in defs
    ensures Precedes(Listed(defs, order, kept), |Listed(defs, order, kept)|, name)
  {
    var list, tail := Listed(defs, order, kept), Listed(defs, order[1..], kept);
    if name == order[0] {
      assert list[0].name == name;
    } else {
      ListedHas(defs, order[1..], kept, name);
      var j :| 0 <= j < |tail| && tail[j].name == name;
      assert list[|list| - |tail| + j] == tail[j];
    }
  }

  lemma OneMoreName(x: Variable, list: seq<Variable>)
    requires DistinctNames(list) && forall y | y in list :: y.name != x.name
    ensures DistinctNames([x] + list)
  {
  }

  lemma {:induction false} ListedOnce(defs: map<string, Definition>, order: seq<string>, kept: set<string>)
    requires NoRepeats(order)
    ensures DistinctNames(Listed(defs, order, kept))
  {
    if order != [] {
      var rest := order[1..];
      ListedOnce(defs, rest, kept);
      ListedMembers(defs, rest, kept);
      assert order[0] !in rest;
      if order[0] in defs {
        OneMoreName(Variable(order[0], defs[order[0]].src), Listed(defs, rest, kept));
      }
    }
  }

  /** The list has exactly the kept names of the order, each with its own expression,
      and each once. */
  lemma ListedExactly(defs: map<string, Definition>, order: seq<string>, kept: set<string>)
    requires NoRepeats(order)
    requires forall i | 0 <= i < |order| :: order[i] in defs
    ensures var list := Listed(defs, order, kept);
            && (forall k | 0 <= k < |list| ::
                list[k].name in order && list[k].name in kept && list[k].src == defs[list[k].name].src)
            && (forall name | name in order && name in kept :: Precedes(list, |list|, name))
            && DistinctNames(list)
  {
    hide Listed, Precedes;
    ListedMembers(defs, order, kept);
    ListedOnce(defs, order, kept);
    forall name | name in order && name in kept
        ensures Precedes(Listed(defs, order, kept), |Listed(defs, order, kept)|, name) {
      ListedHas(defs, order, kept, name);
    }
  }

  lemma {:induction false} ListedSplit(defs: map<string, Definition>, a: seq<string>, b: seq<string>, kept: set<string>)
    ensures Listed(defs, a + b, kept) == Listed(defs, a, kept) + Listed(defs, b, kept)
  {
    if a == [] {
      assert a + b == b;
    } else {
      ListedSplit(defs, a[1..], b, kept);
      assert (a + b)[1..] == a[1..] + b;
    }
  }

  /** Every reference stands before its referrer. */
  lemma ReferencesFirst(defs: map<string, Definition>, order: seq<string>, used: set<string>, i: nat, v: string)
    requires TopologicalOrder(defs, order) && Closed(defs, used) && i < |order| && order[i] in used
    requires v in Refs(defs, order[i])
    ensures var list, k := Listed(defs, order, used), |Listed(defs, order[..i], used)|;
            k < |list| && list[k] == Variable(order[i], defs[order[i]].src) && Precedes(list, k, v)
  {
    hide TopologicalOrder, Closed, Refs, Listed;
    var before, after := order[..i], order[i..];
    EarlierName(defs, order, used, i, v);
    ListedHead(defs, after, used);
    ListedHas(defs, before, used, v);
    assert order == before + after;
    ListedSplit(defs, before, after, used);
    var list, head := Listed(defs, order, used), Listed(defs, before, used);
    var k :| 0 <= k < |head| && head[k].name == v;
    assert list[k] == head[k];
  }

  lemma EarlierName(defs: map<string, Definition>, order: seq<string>, used: set<string>, i: nat, v: string)
    requires TopologicalOrder(defs, order) && Closed(defs, used) && i < |order| && order[i] in used
    requires v in Refs(defs, order[i])
    ensures v in order[..i] && v in used && v in defs && order[i] in defs
  {
    var j :| 0 <= j < |order| && order[j] == v;
    assert order[..i][j] == v;
  }

  // ---- evaluating it ---------------------------------------------------------------------------

  ghost predicate Agree(a: Vars, b: Vars, names: set<string>) {
    forall x | x in names :: (x in a <==> x in b) && (x in a ==> a[x] == b[x])
  }

  /** The outcome of an expression depends on the constants and variables that it
      mentions and on no others. */
  ghost predicate Local(sem: Semantics, e: Definition) {
    forall c: Vars, c': Vars, v: Vars, v': Vars, rt: Runtime | Agree(c, c', e.constants) && Agree(v, v', e.variables) ::
      sem(e.src, c, v, rt) == sem(e.src, c', v', rt)
  }

  /** What a variable is bound to by the outcome of its expression. */
  function Bound(outcome: Outcome, strict: bool): Option<Value> {
    match outcome
    case Val(v) => Some(v)
    case CelError => if strict then None else Some(Null)
    case HardError => None
  }

  /** The loop of RunVariables to its end: a hard failure leaves its variable unset and
      makes the whole run fail, but the loop goes on. */
  function RunAll(sem: Semantics, strict: bool, constants: Vars, vs: seq<Variable>, rt: Runtime, acc: Vars): Vars {
    if vs == [] then acc
    else
      RunAll(sem, strict, constants, vs[1..], rt, Extended(sem, strict, constants, rt, vs[0].src, vs[0].name, acc))
  }

  function Extended(sem: Semantics, strict: bool, constants: Vars, rt: Runtime, src: string, name: string,
                    acc: Vars): Vars
  {
    var bound := Bound(sem(src, constants, acc, rt), strict);
    if bound.Some? then acc[name := bound.value] else acc
  }

  ghost function Value(vars: Vars, name: string): Option<Value> {
    if name in vars then Some(vars[name]) else None
  }

  /** The defining equations: every name has the value of its own expression in terms
      of the values of the others. */
  ghost predicate Solves(sem: Semantics, strict: bool, constants: Vars, rt: Runtime, defs: map<string, Definition>,
                         names: set<string>, vars: Vars)
  {
    && vars.Keys <= names
    && forall v | v in names && v in defs :: Value(vars, v) == Bound(sem(defs[v].src, constants, vars, rt), strict)
  }

  /** Some of the names fails hard where the variables have these values. */
  ghost predicate FailsHard(sem: Semantics, constants: Vars, rt: Runtime, defs: map<string, Definition>,
                            names: set<string>, vars: Vars)
  {
    exists v | v in names && v in defs :: sem(defs[v].src, constants, vars, rt).HardError?
  }

  /** The rest of an order: its names are distinct and no expression mentions a name
      that is still to come. */
  ghost predicate Ahead(defs: map<string, Definition>, order: seq<string>) {
    && (forall i | 0 <= i < |order| :: order[i] in defs)
    && (forall i, j | 0 <= i <= j < |order| :: order[j] !in defs[order[i]].variables)
    && NoRepeats(order)
  }

  lemma OrderIsAhead(defs: map<string, Definition>, constants: Vars, order: seq<string>)
    requires TopologicalOrder(defs, order) && WellReferenced(defs, constants)
    ensures Ahead(defs, order)
  {
    forall i, j | 0 <= i <= j < |order| ensures order[j] !in defs[order[i]].variables {
      assert Resolves(defs, constants, order[i]);
      assert order[j] in Refs(defs, order[i]) <==> order[j] in defs[order[i]].variables;
    }
  }

  lemma ListedHead(defs: map<string, Definition>, order: seq<string>, kept: set<string>)
    requires order != [] && order[0] in defs
    ensures Listed(defs, order, kept) ==
            (if order[0] in kept then [Variable(order[0], defs[order[0]].src)] else []) + Listed(defs, order[1..], kept)
  {
  }

  lemma RunHead(sem: Semantics, strict: bool, constants: Vars, rt: Runtime, x: Variable, vs: seq<Variable>, acc: Vars)
    ensures var next := Extended(sem, strict, constants, rt, x.src, x.name, acc);
            && RunAll(sem, strict, constants, [x] + vs, rt, acc) == RunAll(sem, strict, constants, vs, rt, next)
            && RunVariables(sem, strict, constants, [x] + vs, rt, acc) ==
               if sem(x.src, constants, acc, rt).HardError? then Error
                   else RunVariables(sem, strict, constants, vs, rt, next)
  {
    assert ([x] + vs)[1..] == vs;
  }

  lemma AheadTail(defs: map<string, Definition>, order: seq<string>)
    requires Ahead(defs, order) && order != []
    ensures Ahead(defs, order[1..]) && order[0] in defs && order[0] !in order[1..]
            && forall x | x in defs[order[0]].variables :: x !in order
    ensures forall x :: x in order <==> x == order[0] || x in order[1..]
  {
    assert order == [order[0]] + order[1..];
  }

  /** Evaluating a list in order solves the defining equations of its names and leaves
      all other names alone. */
  lemma {:induction false} RunSolves(sem: Semantics, strict: bool, constants: Vars, rt: Runtime,
                                     defs: map<string, Definition>, order: seq<string>, kept: set<string>, acc: Vars)
    requires Ahead(defs, order) && (forall v | v in defs :: Local(sem, defs[v])) && (forall x | x in order :: x !in acc)
    ensures var vars := RunAll(sem, strict, constants, Listed(defs, order, kept), rt, acc);
            && (forall x | x !in order || x !in kept :: Value(vars, x) == Value(acc, x))
            && (forall v | v in order && v in kept ::
                v in defs && Value(vars, v) == Bound(sem(defs[v].src, constants, vars, rt), strict))
  {
    hide Local, Listed, RunAll, RunVariables, Ahead;
    if order == [] {
      NothingRun(sem, strict, constants, rt, defs, kept, acc);
    } else {
      var v, rest := order[0], order[1..];
      AheadTail(defs, order);
      ListedHead(defs, order, kept);
      if v in kept {
        RunHead(sem, strict, constants, rt, Variable(v, defs[v].src), Listed(defs, rest, kept), acc);
        RunSolves(sem, strict, constants, rt, defs, rest, kept,
            Extended(sem, strict, constants, rt, defs[v].src, v, acc));
        OutcomeOf(sem, constants, rt, defs[v], acc, RunAll(sem, strict, constants, Listed(defs, order, kept), rt, acc));
      } else {
        assert [] + Listed(defs, rest, kept) == Listed(defs, rest, kept);
        RunSolves(sem, strict, constants, rt, defs, rest, kept, acc);
      }
    }
  }

  lemma NothingRun(sem: Semantics, strict: bool, constants: Vars, rt: Runtime, defs: map<string, Definition>,
                   kept: set<string>, acc: Vars)
    ensures RunAll(sem, strict, constants, Listed(defs, [], kept), rt, acc) == acc
    ensures RunVariables(sem, strict, constants, Listed(defs, [], kept), rt, acc) == Ok(acc)
  {
  }

  /** It fails exactly when one of the names fails hard in the solution. */
  lemma {:induction false} RunFails(sem: Semantics, strict: bool, constants: Vars, rt: Runtime,
                                    defs: map<string, Definition>, order: seq<string>, kept: set<string>, acc: Vars)
    requires Ahead(defs, order) && (forall v | v in defs :: Local(sem, defs[v])) && (forall x | x in order :: x !in acc)
    ensures var vars := RunAll(sem, strict, constants, Listed(defs, order, kept), rt, acc);
            RunVariables(sem, strict, constants, Listed(defs, order, kept), rt, acc) ==
            if exists v | v in order && v in kept && v in defs ::
                sem(defs[v].src, constants, vars, rt).HardError? then Error else Ok(vars)
  {
    hide Local, Listed, RunAll, RunVariables, Ahead;
    if order == [] {
      NothingRun(sem, strict, constants, rt, defs, kept, acc);
    } else {
      var v, rest := order[0], order[1..];
      AheadTail(defs, order);
      ListedHead(defs, order, kept);
      if v in kept {
        RunHead(sem, strict, constants, rt, Variable(v, defs[v].src), Listed(defs, rest, kept), acc);
        RunSolves(sem, strict, constants, rt, defs, order, kept, acc);
        RunFails(sem, strict, constants, rt, defs, rest, kept,
            Extended(sem, strict, constants, rt, defs[v].src, v, acc));
        OutcomeOf(sem, constants, rt, defs[v], acc, RunAll(sem, strict, constants, Listed(defs, order, kept), rt, acc));
      } else {
        assert [] + Listed(defs, rest, kept) == Listed(defs, rest, kept);
        RunFails(sem, strict, constants, rt, defs, rest, kept, acc);
      }
    }
  }

  /** Evaluating the used list solves the defining equations of the used variables, and
      fails exactly when one of them fails hard in the solution. */
  lemma UsedListSolves(sem: Semantics, strict: bool, constants: Vars, rt: Runtime, defs: map<string, Definition>,
                       order: seq<string>, used: set<string>)
    requires TopologicalOrder(defs, order) && WellReferenced(defs, constants)
    requires (forall v | v in defs :: Local(sem, defs[v])) && used <= defs.Keys
    ensures var vars := RunAll(sem, strict, constants, Listed(defs, order, used), rt, map[]);
            && Solves(sem, strict, constants, rt, defs, used, vars)
            && RunVariables(sem, strict, constants, Listed(defs, order, used), rt, map[]) ==
               if FailsHard(sem, constants, rt, defs, used, vars) then Error else Ok(vars)
  {
    OrderIsAhead(defs, constants, order);
    RunSolves(sem, strict, constants, rt, defs, order, used, map[]);
    RunFails(sem, strict, constants, rt, defs, order, used, map[]);
    var vars := RunAll(sem, strict, constants, Listed(defs, order, used), rt, map[]);
    forall x | x in vars.Keys ensures x in used {
      assert x !in used ==> Value(vars, x) == Value(map[], x);
    }
  }

  lemma Earlier(defs: map<string, Definition>, constants: Vars, order: seq<string>, i: nat)
    requires TopologicalOrder(defs, order) && WellReferenced(defs, constants) && i < |order|
    ensures order[i] in defs && forall x | x in defs[order[i]].variables :: exists k | 0 <= k < i :: order[k] == x
  {
    assert order[i] in order && Resolves(defs, constants, order[i]);
    forall x | x in defs[order[i]].variables ensures exists k | 0 <= k < i :: order[k] == x {
      assert x in Refs(defs, order[i]);
      var k :| 0 <= k < |order| && order[k] == x;
    }
  }

  lemma ValueOf(sem: Semantics, strict: bool, constants: Vars, rt: Runtime, defs: map<string, Definition>,
                names: set<string>, vars: Vars, v: string)
    requires Solves(sem, strict, constants, rt, defs, names, vars) && v in defs
    ensures Value(vars, v) == if v in names then Bound(sem(defs[v].src, constants, vars, rt), strict) else None
  {
  }

  lemma OutcomeOf(sem: Semantics, constants: Vars, rt: Runtime, e: Definition, vars: Vars, vars': Vars)
    requires Local(sem, e) && forall x | x in e.variables :: Value(vars, x) == Value(vars', x)
    ensures sem(e.src, constants, vars, rt) == sem(e.src, constants, vars', rt)
  {
    assert Agree(constants, constants, e.constants);
    forall x | x in e.variables ensures (x in vars <==> x in vars') && (x in vars ==> vars[x] == vars'[x]) {
      assert Value(vars, x) == Value(vars', x);
    }
    assert Agree(vars, vars', e.variables);
  }

  /** The equations have at most one solution, so that it is the recursive meaning of
      the definitions. */
  lemma {:induction false} SolutionUnique(sem: Semantics, strict: bool, constants: Vars, rt: Runtime,
                                          defs: map<string, Definition>, order: seq<string>, names: set<string>,
                                          vars: Vars, vars': Vars, i: nat)
    requires TopologicalOrder(defs, order) && WellReferenced(defs, constants)
    requires (forall v | v in defs :: Local(sem, defs[v])) && i <= |order|
    requires Solves(sem, strict, constants, rt, defs, names, vars)
    requires Solves(sem, strict, constants, rt, defs, names, vars')
    ensures forall k | 0 <= k < i :: Value(vars, order[k]) == Value(vars', order[k])
  {
    hide TopologicalOrder, WellReferenced, Solves, Local, Value, Bound;
    if i > 0 {
      SolutionUnique(sem, strict, constants, rt, defs, order, names, vars, vars', i - 1);
      var v := order[i - 1];
      Earlier(defs, constants, order, i - 1);
      ValueOf(sem, strict, constants, rt, defs, names, vars, v);
      ValueOf(sem, strict, constants, rt, defs, names, vars', v);
      OutcomeOf(sem, constants, rt, defs[v], vars, vars');
    }
  }

  // ---- leaving out the rest -------------------------------------------------------------------

  function Only(m: Vars, names: set<string>): Vars {
    map x | x in m && x in names :: m[x]
  }

  /** What the used variables and constants must cover: a closed set of variables and
      all constants that those mention. */
  ghost predicate Sufficient(defs: map<string, Definition>, constants: Vars, used: set<string>,
                             usedConstants: set<string>)
  {
    Closed(defs, used) && WellReferenced(defs, constants) && forall v | v in used :: defs[v].constants <= usedConstants
  }

  lemma {:induction false} PrunedRun(sem: Semantics, strict: bool, constants: Vars, usedConstants: set<string>,
                                     rt: Runtime, defs: map<string, Definition>,
                                     order: seq<string>, used: set<string>, acc: Vars, acc': Vars)
    requires Sufficient(defs, constants, used, usedConstants) && (forall v | v in defs :: Local(sem, defs[v]))
    requires (forall i | 0 <= i < |order| :: order[i] in defs) && Agree(acc, acc', used)
    ensures Agree(RunAll(sem, strict, constants, Listed(defs, order, defs.Keys), rt, acc),
                  RunAll(sem, strict, Only(constants, usedConstants), Listed(defs, order, used), rt, acc'), used)
  {
    if order != [] {
      var v, rest := order[0], order[1..];
      var list := Listed(defs, order, defs.Keys);
      assert list[0] == Variable(v, defs[v].src) && list[1..] == Listed(defs, rest, defs.Keys);
      var outcome := sem(defs[v].src, constants, acc, rt);
      var bound := Bound(outcome, strict);
      var next := if bound.Some? then acc[v := bound.value] else acc;
      if v in used {
        var list' := Listed(defs, order, used);
        assert list'[0] == list[0] && list'[1..] == Listed(defs, rest, used);
        SameOutcome(sem, constants, usedConstants, rt, defs, used, v, acc, acc');
        var next' := if bound.Some? then acc'[v := bound.value] else acc';
        PrunedRun(sem, strict, constants, usedConstants, rt, defs, rest, used, next, next');
      } else {
        PrunedRun(sem, strict, constants, usedConstants, rt, defs, rest, used, next, acc');
      }
    }
  }

  lemma SameOutcome(sem: Semantics, constants: Vars, usedConstants: set<string>, rt: Runtime,
                    defs: map<string, Definition>, used: set<string>, v: string, acc: Vars, acc': Vars)
    requires Sufficient(defs, constants, used, usedConstants) && v in used && Local(sem, defs[v])
    requires Agree(acc, acc', used)
    ensures sem(defs[v].src, constants, acc, rt) == sem(defs[v].src, Only(constants, usedConstants), acc', rt)
  {
    assert Resolves(defs, constants, v);
    assert forall x | x in defs[v].variables :: x in Refs(defs, v);
    assert Agree(constants, Only(constants, usedConstants), defs[v].constants);
    assert Agree(acc, acc', defs[v].variables);
  }

  /** A compiled condition has the same outcome with the used variables and constants
      as with all of them; the shorter list fails exactly when a used variable does. */
  lemma PruningPreserves(sem: Semantics, strict: bool, constants: Vars, usedConstants: set<string>, rt: Runtime,
                         defs: map<string, Definition>,
                         order: seq<string>, roots: set<Definition>, used: set<string>, e: Definition)
    requires TopologicalOrder(defs, order) && WellReferenced(defs, constants)
    requires (forall v | v in defs :: Local(sem, defs[v])) && Local(sem, e)
    requires IsClosure(defs, RootVariables(defs, roots), used)
    requires forall c :: c in usedConstants <==> c in constants && UsesConstant(roots, defs, used, c)
    requires e in roots && e.constants <= constants.Keys && e.variables <= defs.Keys
    ensures var all := RunAll(sem, strict, constants, Listed(defs, order, defs.Keys), rt, map[]);
            var pruned := RunAll(sem, strict, Only(constants, usedConstants), Listed(defs, order, used), rt, map[]);
            && sem(e.src, constants, all, rt) == sem(e.src, Only(constants, usedConstants), pruned, rt)
            && RunVariables(sem, strict, Only(constants, usedConstants), Listed(defs, order, used), rt, map[]) ==
               if FailsHard(sem, constants, rt, defs, used, all) then Error else Ok(pruned)
  {
    var all := RunAll(sem, strict, constants, Listed(defs, order, defs.Keys), rt, map[]);
    var pruned := RunAll(sem, strict, Only(constants, usedConstants), Listed(defs, order, used), rt, map[]);
    OrderIsAhead(defs, constants, order);
    RunFails(sem, strict, Only(constants, usedConstants), rt, defs, order, used, map[]);
    assert Sufficient(defs, constants, used, usedConstants) by {
      forall v, c | v in used && c in defs[v].constants ensures c in usedConstants {
        assert Resolves(defs, constants, v);
      }
    }
    assert Agree(map[], map[], used);
    assert forall i | 0 <= i < |order| :: order[i] in order;
    PrunedRun(sem, strict, constants, usedConstants, rt, defs, order, used, map[], map[]);
    forall v | v in used
        ensures sem(defs[v].src, constants, all, rt) == sem(defs[v].src, Only(constants, usedConstants), pruned, rt) {
      SameOutcome(sem, constants, usedConstants, rt, defs, used, v, all, pruned);
    }
    assert forall v | v in e.variables :: v in RootVariables(defs, roots);
    assert forall c | c in e.constants :: c in usedConstants;
    assert Agree(constants, Only(constants, usedConstants), e.constants);
  }

  // ---- the programs of rules --------------------------------------------------------------------

  /** The programs of a rule treat a CEL error as strict evaluation treats it. */
  lemma {:induction false} ProgramsAreStrict(sem: Semantics, constants: Vars, vs: seq<Variable>, rt: Runtime, acc: Vars)
    ensures RunPrograms(sem, constants, vs, rt, acc) == RunVariables(sem, true, constants, vs, rt, acc)
  {
    if vs != [] {
      match sem(vs[0].src, constants, acc, rt)
      case Val(v) => ProgramsAreStrict(sem, constants, vs[1..], rt, acc[vs[0].name := v]);
      case CelError => ProgramsAreStrict(sem, constants, vs[1..], rt, acc);
      case HardError =>
    }
  }

  /** Running the programs of the used list solves the defining equations, in either
      mode with unset variables for CEL errors, and fails exactly when a used variable
      fails hard in the solution. */
  lemma UsedProgramsSolve(sem: Semantics, constants: Vars, rt: Runtime, defs: map<string, Definition>,
                          order: seq<string>, used: set<string>)
    requires TopologicalOrder(defs, order) && WellReferenced(defs, constants)
    requires (forall v | v in defs :: Local(sem, defs[v])) && used <= defs.Keys
    ensures var vars := RunAll(sem, true, constants, Listed(defs, order, used), rt, map[]);
            && Solves(sem, true, constants, rt, defs, used, vars)
            && RunPrograms(sem, constants, Listed(defs, order, used), rt, map[]) ==
               if FailsHard(sem, constants, rt, defs, used, vars) then Error else Ok(vars)
  {
    hide Local, TopologicalOrder, WellReferenced, Solves, FailsHard;
    UsedListSolves(sem, true, constants, rt, defs, order, used);
    ProgramsAreStrict(sem, constants, Listed(defs, order, used), rt, map[]);
  }

  /** A condition of a rule has the same outcome with the programs of the used variables
      and the used constants as with all of them. */
  lemma PrunedProgramsPreserve(sem: Semantics, constants: Vars, usedConstants: set<string>, rt: Runtime,
                               defs: map<string, Definition>,
                               order: seq<string>, roots: set<Definition>, used: set<string>, e: Definition)
    requires TopologicalOrder(defs, order) && WellReferenced(defs, constants)
    requires (forall v | v in defs :: Local(sem, defs[v])) && Local(sem, e)
    requires IsClosure(defs, RootVariables(defs, roots), used)
    requires forall c :: c in usedConstants <==> c in constants && UsesConstant(roots, defs, used, c)
    requires e in roots && e.constants <= constants.Keys && e.variables <= defs.Keys
    ensures var all := RunAll(sem, true, constants, Listed(defs, order, defs.Keys), rt, map[]);
            var pruned := RunAll(sem, true, Only(constants, usedConstants), Listed(defs, order, used), rt, map[]);
            && sem(e.src, constants, all, rt) == sem(e.src, Only(constants, usedConstants), pruned, rt)
            && RunPrograms(sem, Only(constants, usedConstants), Listed(defs, order, used), rt, map[]) ==
               if FailsHard(sem, constants, rt, defs, used, all) then Error else Ok(pruned)
  {
    hide Local, TopologicalOrder, WellReferenced, IsClosure, FailsHard;
    PruningPreserves(sem, true, constants, usedConstants, rt, defs, order, roots, used, e);
    ProgramsAreStrict(sem, Only(constants, usedConstants), Listed(defs, order, used), rt, map[]);
  }
}
