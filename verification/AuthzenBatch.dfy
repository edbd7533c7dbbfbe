/** Batches of AuthZEN access evaluations (internal/svc/authzen_svc.go; section 7 of
    the OpenID AuthZEN Authorization API 1.0): evaluations are merged with the defaults
    of the request, grouped by subject and auxiliary data and then by resource, checked
    group by group in whatever order the maps are iterated, and put back in place. */
module AuthzenBatch {
  import opened Common

  datatype Subject = Subject(kind: string, id: string, properties: string)
  datatype Resource = Resource(kind: string, id: string, properties: string)
  datatype Aux = NoAux | Aux(data: string)

  /** A context is None when it is empty. */
  datatype Item = Item(subject: Option<Subject>, resource: Option<Resource>, action: Option<string>,
      context: Option<string>)

  datatype Batch = Batch(defaults: Item, items: seq<Item>, semantics: string)

  /** The server's limits, the hash of auxiliary data, its extraction from a context,
      and the decision of the engine for one action. */
  datatype Server = Server(
    maxResources: nat, maxActions: nat, hash: Aux -> nat, extract: string -> Result<Aux>,
    decide: (Subject, Resource, Aux, string) -> Result<bool>)

  datatype Evaluation = Evaluation(subject: Subject, resource: Resource, action: string, aux: Aux)

  // ---- merging with the defaults ---------------------------------------------------------

  function Merge<T>(defaults: Option<T>, override: Option<T>): Option<T> {
    if override.Some? then override else defaults
  }

  /** What request validation guarantees. */
  predicate Validated(b: Batch) {
    && (b.defaults.subject.Some? || forall i | 0 <= i < |b.items| :: b.items[i].subject.Some?)
    && (b.defaults.resource.Some? || forall i | 0 <= i < |b.items| :: b.items[i].resource.Some?)
    && (b.defaults.action.Some? || forall i | 0 <= i < |b.items| :: b.items[i].action.Some?)
  }

  /** Every item has a subject, a resource and an action, of its own or by default. */
  lemma ValidatedExactly(b: Batch)
    ensures Validated(b) <==>
            forall item | item in b.items ::
              && (item.subject.Some? || b.defaults.subject.Some?)
              && (item.resource.Some? || b.defaults.resource.Some?)
              && (item.action.Some? || b.defaults.action.Some?)
  {
    assert forall i | 0 <= i < |b.items| :: b.items[i] in b.items;
  }

  function AuxOf(s: Server, context: Option<string>): Result<Aux> {
    if context.Some? then s.extract(context.value) else Ok(NoAux)
  }

  /** The auxiliary data of every context can be extracted. */
  ghost predicate Extractable(s: Server, b: Batch) {
    AuxOf(s, b.defaults.context).Ok? && forall i | 0 <= i < |b.items| :: AuxOf(s, b.items[i].context).Ok?
  }

  ghost function Merged(s: Server, b: Batch, i: nat): Evaluation
    requires Validated(b) && Extractable(s, b) && i < |b.items|
  {
    var item := b.items[i];
    Evaluation(Merge(b.defaults.subject, item.subject).value, Merge(b.defaults.resource, item.resource).value,
               Merge(b.defaults.action, item.action).value,
               AuxOf(s, if item.context.Some? then item.context else b.defaults.context).value)
  }

  /** The evaluation has what its item gives, and the defaults of the batch for what the
      item leaves out; its auxiliary data come from one context, not from both. */
  ghost predicate ItemOrDefault(s: Server, b: Batch, item: Item, e: Evaluation) {
    && (if item.subject.Some? then e.subject == item.subject.value else Some(e.subject) == b.defaults.subject)
    && (if item.resource.Some? then e.resource == item.resource.value else Some(e.resource) == b.defaults.resource)
    && (if item.action.Some? then e.action == item.action.value else Some(e.action) == b.defaults.action)
    && (if item.context.Some? then Ok(e.aux) == s.extract(item.context.value)
        else if b.defaults.context.Some? then Ok(e.aux) == s.extract(b.defaults.context.value)
        else e.aux == NoAux)
  }

  lemma MergedExactly(s: Server, b: Batch, i: nat)
    requires Validated(b) && Extractable(s, b) && i < |b.items|
    ensures forall e :: ItemOrDefault(s, b, b.items[i], e) <==> e == Merged(s, b, i)
  {
    assert AuxOf(s, b.items[i].context).Ok?;
  }

  ghost function AllMerged(s: Server, b: Batch): seq<Evaluation>
    requires Validated(b) && Extractable(s, b)
  {
    seq(|b.items|, i requires 0 <= i < |b.items| => Merged(s, b, i))
  }

  method MergeAll(s: Server, b: Batch) returns (r: Result<seq<Evaluation>>)
    requires Validated(b)
    ensures r.Ok? <==> Extractable(s, b)
    ensures r.Ok? ==> r.value == AllMerged(s, b)
    ensures r.Ok? ==> forall i | 0 <= i < |b.items| :: ItemOrDefault(s, b, b.items[i], r.value[i])
  {
    var defaultAux := AuxOf(s, b.defaults.context);
    if defaultAux.Error? {
      return Error;
    }
    var evals: seq<Evaluation> := [];
    var i := 0;
    while i < |b.items|
      invariant 0 <= i <= |b.items| && |evals| == i
      invariant forall k | 0 <= k < i :: AuxOf(s, b.items[k].context).Ok?
      invariant forall k | 0 <= k < i :: Extractable(s, b) ==> evals[k] == Merged(s, b, k)
    {
      var item := b.items[i];
      var aux := defaultAux;
      if item.context.Some? {
        aux := s.extract(item.context.value);
        if aux.Error? {
          assert !Extractable(s, b) by { assert AuxOf(s, b.items[i].context).Error?; }
          return Error;
        }
      }
      evals := evals + [Evaluation(Merge(b.defaults.subject, item.subject).value,
                                   Merge(b.defaults.resource, item.resource).value,
                                   Merge(b.defaults.action, item.action).value, aux.value)];
      i := i + 1;
    }
    r := Ok(evals);
    forall k | 0 <= k < |b.items| ensures ItemOrDefault(s, b, b.items[k], evals[k]) {
      MergedExactly(s, b, k);
    }
  }

  // ---- grouping ----------------------------------------------------------------------------

  ghost predicate Within<K>(keys: seq<K>, members: seq<nat>) {
    forall j | 0 <= j < |members| :: members[j] < |keys|
  }

  /** The members with the key, in order. */
  ghost function Sharing<K>(keys: seq<K>, members: seq<nat>, k: K): seq<nat>
    requires Within(keys, members)
  {
    if members == [] then []
    else
      var n := |members| - 1;
      assert Within(keys, members[..n]);
      if keys[members[n]] == k then Sharing(keys, members[..n], k) + [members[n]] else Sharing(keys, members[..n], k)
  }

  lemma {:induction false} SharingMembers<K>(keys: seq<K>, members: seq<nat>, k: K, m: nat)
    requires Within(keys, members)
    ensures m in Sharing(keys, members, k) <==> m in members && keys[m] == k
  {
    if members != [] {
      var n := |members| - 1;
      SharingMembers(keys, members[..n], k, m);
      assert members == members[..n] + [members[n]];
    }
  }

  method GroupBy<K(==)>(keys: seq<K>, members: seq<nat>) returns (groups: map<K, seq<nat>>)
    requires Within(keys, members)
    ensures forall k :: k in groups <==> exists m | m in members :: keys[m] == k
    ensures forall k | k in groups :: groups[k] == Sharing(keys, members, k)
  {
    groups := map[];
    var i := 0;
    while i < |members|
      invariant 0 <= i <= |members|
      invariant Within(keys, members[..i])
      invariant forall k :: k in groups <==> exists m | m in members[..i] :: keys[m] == k
      invariant forall k | k in groups :: groups[k] == Sharing(keys, members[..i], k)
      invariant forall k | k !in groups :: Sharing(keys, members[..i], k) == []
    {
      var m := members[i];
      var key := keys[m];
      assert members[..i + 1][..i] == members[..i];
      assert members[..i + 1] == members[..i] + [m];
      groups := groups[key := (if key in groups then groups[key] else []) + [m]];
      i := i + 1;
    }
    assert members[..i] == members;
  }

  datatype GroupKey = GroupKey(subject: string, auxHash: nat)
  datatype ResourceKey = ResourceKey(kind: string, id: string)

  function GroupKeys(s: Server, evals: seq<Evaluation>): (keys: seq<GroupKey>)
    ensures |keys| == |evals|
  {
    seq(|evals|, i requires 0 <= i < |evals| => GroupKey(evals[i].subject.id, s.hash(evals[i].aux)))
  }

  function ResourceKeys(evals: seq<Evaluation>): (keys: seq<ResourceKey>)
    ensures |keys| == |evals|
  {
    seq(|evals|, i requires 0 <= i < |evals| => ResourceKey(evals[i].resource.kind, evals[i].resource.id))
  }

  function Indices(n: nat): seq<nat> {
    seq(n, i => i)
  }

  // ---- what is asked of the engine ---------------------------------------------------------

  datatype Question = Question(subject: Subject, resource: Resource, aux: Aux, action: string)

  function Answer(s: Server, q: Question): Result<bool> {
    s.decide(q.subject, q.resource, q.aux, q.action)
  }

  /** An evaluation is asked with the subject and resource of the first of its group
      with the same resource key, and the auxiliary data of the first of its group. */
  ghost function AskedIn(evals: seq<Evaluation>, members: seq<nat>, m: nat): Question
    requires Within(evals, members) && m in members
  {
    var keys := ResourceKeys(evals);
    var mates := Sharing(keys, members, keys[m]);
    SharingMembers(keys, members, keys[m], m);
    SharingMembers(keys, members, keys[m], mates[0]);
    var first := evals[mates[0]];
    Question(first.subject, first.resource, evals[members[0]].aux, evals[m].action)
  }

  ghost function ResourcesOf(evals: seq<Evaluation>, members: seq<nat>): set<ResourceKey>
    requires Within(evals, members)
  {
    set m | m in members :: ResourceKeys(evals)[m]
  }

  datatype CheckInput = CheckInput(principal: Subject, resource: Resource, aux: Aux, actions: seq<string>)
  datatype Mapping = Mapping(action: string, inputIdx: nat, responseIdx: nat)

  function Asked(input: CheckInput, action: string): Question {
    Question(input.principal, input.resource, input.aux, action)
  }

  /** The engine fails the whole call when one action fails. */
  function EngineCheck(s: Server, inputs: seq<CheckInput>): Result<seq<map<string, bool>>> {
    if exists k, a | 0 <= k < |inputs| && a in inputs[k].actions :: Answer(s, Asked(inputs[k], a)).Error? then Error
    else Ok(seq(|inputs|, k requires 0 <= k < |inputs| =>
                  map a | a in inputs[k].actions && Answer(s, Asked(inputs[k], a)).Ok? ::
                      Answer(s, Asked(inputs[k], a)).value))
  }

  /** Every mapping leads to the question of its evaluation ... */
  ghost predicate Faithful(evals: seq<Evaluation>, members: seq<nat>, inputs: seq<CheckInput>, mappings: seq<Mapping>)
    requires Within(evals, members)
  {
    forall j | 0 <= j < |mappings| :: MapsTo(evals, members, inputs, mappings[j])
  }

  ghost predicate MapsTo(evals: seq<Evaluation>, members: seq<nat>, inputs: seq<CheckInput>, mp: Mapping)
    requires Within(evals, members)
  {
    && mp.inputIdx < |inputs| && mp.responseIdx in members && mp.action in inputs[mp.inputIdx].actions
    && Asked(inputs[mp.inputIdx], mp.action) == AskedIn(evals, members, mp.responseIdx)
  }

  /** ... no other question is asked ... */
  ghost predicate NothingElse(evals: seq<Evaluation>, members: seq<nat>, inputs: seq<CheckInput>)
    requires Within(evals, members)
  {
    forall k, a | 0 <= k < |inputs| && a in inputs[k].actions :: IsAsked(evals, members, Asked(inputs[k], a))
  }

  ghost predicate IsAsked(evals: seq<Evaluation>, members: seq<nat>, q: Question)
    requires Within(evals, members)
  {
    exists m | m in members :: AskedIn(evals, members, m) == q
  }

  /** ... and every evaluation outside the groups that are left has a mapping. */
  ghost predicate Covered(evals: seq<Evaluation>, members: seq<nat>, mappings: seq<Mapping>, left: set<ResourceKey>)
    requires Within(evals, members)
  {
    forall m | m in members && ResourceKeys(evals)[m] !in left :: Maps(mappings, m)
  }

  ghost predicate Maps(mappings: seq<Mapping>, m: nat) {
    exists j | 0 <= j < |mappings| :: mappings[j].responseIdx == m
  }

  /** The input of one resource. */
  method BuildInput(evals: seq<Evaluation>, reqs: seq<nat>, aux: Aux, inputIdx: nat)
    returns (input: CheckInput, mappings: seq<Mapping>)
    requires Within(evals, reqs) && reqs != []
    ensures input.principal == evals[reqs[0]].subject && input.resource == evals[reqs[0]].resource && input.aux == aux
    ensures |input.actions| == |mappings| == |reqs|
    ensures forall j | 0 <= j < |reqs| ::
            input.actions[j] == evals[reqs[j]].action
            && mappings[j] == Mapping(evals[reqs[j]].action, inputIdx, reqs[j])
  {
    var actions: seq<string> := [];
    mappings := [];
    var j := 0;
    while j < |reqs|
      invariant 0 <= j <= |reqs| && |actions| == |mappings| == j
      invariant forall i | 0 <= i < j ::
                actions[i] == evals[reqs[i]].action && mappings[i] == Mapping(evals[reqs[i]].action, inputIdx, reqs[i])
    {
      actions := actions + [evals[reqs[j]].action];
      mappings := mappings + [Mapping(evals[reqs[j]].action, inputIdx, reqs[j])];
      j := j + 1;
    }
    input := CheckInput(evals[reqs[0]].subject, evals[reqs[0]].resource, aux, actions);
  }

  /** One more resource keeps the inputs and mappings right. */
  lemma InputAdded(evals: seq<Evaluation>, members: seq<nat>, inputs: seq<CheckInput>, mappings: seq<Mapping>,
                   left: set<ResourceKey>,
                   key: ResourceKey, input: CheckInput, more: seq<Mapping>)
    requires Within(evals, members) && Faithful(evals, members, inputs, mappings) && NothingElse(evals, members, inputs)
    requires Covered(evals, members, mappings, left)
    requires var reqs := Sharing(ResourceKeys(evals), members, key);
             && Within(evals, reqs) && reqs != []
             && input.principal == evals[reqs[0]].subject && input.resource == evals[reqs[0]].resource
                 && input.aux == evals[members[0]].aux
             && |input.actions| == |more| == |reqs|
             && forall j | 0 <= j < |reqs| ::
                 input.actions[j] == evals[reqs[j]].action
                 && more[j] == Mapping(evals[reqs[j]].action, |inputs|, reqs[j])
    ensures Faithful(evals, members, inputs + [input], mappings + more) && NothingElse(evals, members, inputs + [input])
    ensures Covered(evals, members, mappings + more, left - {key})
  {
    var keys := ResourceKeys(evals);
    var reqs := Sharing(keys, members, key);
    forall j | 0 <= j < |reqs|
        ensures reqs[j] in members && AskedIn(evals, members, reqs[j]) == Asked(input, input.actions[j]) {
      SharingMembers(keys, members, key, reqs[j]);
    }
    forall j | 0 <= j < |mappings + more| ensures MapsTo(evals, members, inputs + [input], (mappings + more)[j]) {
      if j < |mappings| {
        assert MapsTo(evals, members, inputs, mappings[j]);
      } else {
        assert (mappings + more)[j] == more[j - |mappings|];
        assert input.actions[j - |mappings|] in input.actions;
      }
    }
    forall k, a | 0 <= k < |inputs + [input]| && a in (inputs + [input])[k].actions
        ensures IsAsked(evals, members, Asked((inputs + [input])[k], a)) {
      if k < |inputs| {
        assert IsAsked(evals, members, Asked(inputs[k], a));
      } else {
        var j :| 0 <= j < |input.actions| && input.actions[j] == a;
        assert AskedIn(evals, members, reqs[j]) == Asked(input, a);
      }
    }
    forall m | m in members && keys[m] !in left - {key} ensures Maps(mappings + more, m) {
      if keys[m] == key {
        SharingMembers(keys, members, key, m);
        var j :| 0 <= j < |reqs| && reqs[j] == m;
        assert (mappings + more)[|mappings| + j].responseIdx == m;
      } else {
        assert Maps(mappings, m);
        var j :| 0 <= j < |mappings| && mappings[j].responseIdx == m;
        assert (mappings + more)[j].responseIdx == m;
      }
    }
  }

  ghost predicate GroupTooLarge(s: Server, evals: seq<Evaluation>, members: seq<nat>)
    requires Within(evals, members)
  {
    || |ResourcesOf(evals, members)| > s.maxResources
    || exists m | m in members :: |Sharing(ResourceKeys(evals), members, ResourceKeys(evals)[m])| > s.maxActions
  }

  /** The members of a group by resource. */
  ghost predicate ByResource(evals: seq<Evaluation>, members: seq<nat>, groups: map<ResourceKey, seq<nat>>)
    requires Within(evals, members)
  {
    && groups.Keys == ResourcesOf(evals, members)
    && (forall k | k in groups :: groups[k] == Sharing(ResourceKeys(evals), members, k))
    && (forall k | k in groups :: groups[k] != [] && Within(evals, groups[k]))
  }

  method GroupByResource(evals: seq<Evaluation>, members: seq<nat>) returns (groups: map<ResourceKey, seq<nat>>)
    requires Within(evals, members)
    ensures ByResource(evals, members, groups)
  {
    var keys := ResourceKeys(evals);
    groups := GroupBy(keys, members);
    forall k | k in groups ensures groups[k] != [] && Within(evals, groups[k]) {
      KeyUsed(keys, members, k);
    }
  }

  /** The inputs of one group, resource by resource in any order. */
  method BuildInputs(s: Server, evals: seq<Evaluation>, members: seq<nat>)
    returns (r: Result<(seq<CheckInput>, seq<Mapping>)>)
    requires Within(evals, members) && members != []
    ensures r.Error? <==> GroupTooLarge(s, evals, members)
    ensures r.Ok? ==> Faithful(evals, members, r.value.0, r.value.1) && NothingElse(evals, members, r.value.0)
                      && Covered(evals, members, r.value.1, {})
  {
    hide Faithful, NothingElse, Covered, Sharing, ResourcesOf, GroupTooLarge, ResourceKeys;
    var groups := GroupByResource(evals, members);
    NoInputs(evals, members);
    TooLargeBy(s, evals, members);
    var inputs: seq<CheckInput>, mappings: seq<Mapping> := [], [];
    if |groups.Keys| > s.maxResources {
      return Error;
    }
    var left := groups.Keys;
    while left != {}
      invariant left <= groups.Keys
      invariant Faithful(evals, members, inputs, mappings) && NothingElse(evals, members, inputs)
      invariant Covered(evals, members, mappings, left)
      invariant forall k | k in groups && k !in left :: |groups[k]| <= s.maxActions
      decreases left
    {
      var key :| key in left;
      if |groups[key]| > s.maxActions {
        return Error;
      }
      var input, more := BuildInput(evals, groups[key], evals[members[0]].aux, |inputs|);
      InputAdded(evals, members, inputs, mappings, left, key, input, more);
      inputs, mappings := inputs + [input], mappings + more;
      left := left - {key};
    }
    r := Ok((inputs, mappings));
  }

  lemma NoInputs(evals: seq<Evaluation>, members: seq<nat>)
    requires Within(evals, members)
    ensures Faithful(evals, members, [], []) && NothingElse(evals, members, [])
    ensures Covered(evals, members, [], ResourcesOf(evals, members))
  {
  }

  lemma TooLargeBy(s: Server, evals: seq<Evaluation>, members: seq<nat>)
    requires Within(evals, members)
    ensures GroupTooLarge(s, evals, members) <==>
            || |ResourcesOf(evals, members)| > s.maxResources
            || exists k | k in ResourcesOf(evals, members) :: |Sharing(ResourceKeys(evals), members, k)| > s.maxActions
  {
    assert forall m | m in members :: ResourceKeys(evals)[m] in ResourcesOf(evals, members);
  }

  lemma KeyUsed<K>(keys: seq<K>, members: seq<nat>, key: K)
    requires Within(keys, members) && exists m | m in members :: keys[m] == key
    ensures Sharing(keys, members, key) != [] && Within(keys, Sharing(keys, members, key))
  {
    var m :| m in members && keys[m] == key;
    SharingMembers(keys, members, key, m);
    var mates := Sharing(keys, members, key);
    forall j | 0 <= j < |mates| ensures mates[j] < |keys| {
      SharingMembers(keys, members, key, mates[j]);
    }
  }

  // ---- one group ---------------------------------------------------------------------------------

  ghost predicate GroupFails(s: Server, evals: seq<Evaluation>, members: seq<nat>)
    requires Within(evals, members)
  {
    GroupTooLarge(s, evals, members) || exists m | m in members :: Answer(s, AskedIn(evals, members, m)).Error?
  }

  lemma EngineFailsExactly(s: Server, evals: seq<Evaluation>, members: seq<nat>, inputs: seq<CheckInput>,
                           mappings: seq<Mapping>)
    requires Within(evals, members) && Faithful(evals, members, inputs, mappings)
    requires NothingElse(evals, members, inputs) && Covered(evals, members, mappings, {})
    ensures EngineCheck(s, inputs).Error? <==> exists m | m in members :: Answer(s, AskedIn(evals, members, m)).Error?
  {
    if EngineCheck(s, inputs).Error? {
      var k, a :| 0 <= k < |inputs| && a in inputs[k].actions && Answer(s, Asked(inputs[k], a)).Error?;
      assert IsAsked(evals, members, Asked(inputs[k], a));
    }
    hide AskedIn;
    if m :| m in members && Answer(s, AskedIn(evals, members, m)).Error? {
      assert Maps(mappings, m);
      var j :| 0 <= j < |mappings| && mappings[j].responseIdx == m;
      assert MapsTo(evals, members, inputs, mappings[j]);
    }
  }

  lemma EngineAnswers(s: Server, evals: seq<Evaluation>, members: seq<nat>, inputs: seq<CheckInput>, mp: Mapping)
    requires Within(evals, members) && MapsTo(evals, members, inputs, mp) && EngineCheck(s, inputs).Ok?
    ensures |EngineCheck(s, inputs).value| == |inputs| && mp.action in EngineCheck(s, inputs).value[mp.inputIdx]
    ensures Answer(s, AskedIn(evals, members, mp.responseIdx)) ==
            Ok(EngineCheck(s, inputs).value[mp.inputIdx][mp.action])
  {
    hide AskedIn;
    assert Answer(s, Asked(inputs[mp.inputIdx], mp.action)).Ok?;
  }

  /** Every mapped position has the decision of its question, the others are as they
      were. */
  ghost predicate Filled(s: Server, evals: seq<Evaluation>, members: seq<nat>, mappings: seq<Mapping>,
                         before: seq<Option<bool>>, after: seq<Option<bool>>)
    requires Within(evals, members)
  {
    && |after| == |before|
    && (forall m | 0 <= m < |before| && Maps(mappings, m) ::
        m in members && Ok(after[m]) == Lifted(Answer(s, AskedIn(evals, members, m))))
    && (forall m | 0 <= m < |before| && !Maps(mappings, m) :: after[m] == before[m])
  }

  method Fill(s: Server, evals: seq<Evaluation>, members: seq<nat>, inputs: seq<CheckInput>, mappings: seq<Mapping>,
              outputs: seq<map<string, bool>>, responses: seq<Option<bool>>)
    returns (filled: seq<Option<bool>>)
    requires Within(evals, members) && |responses| == |evals| && Faithful(evals, members, inputs, mappings)
    requires EngineCheck(s, inputs) == Ok(outputs)
    ensures Filled(s, evals, members, mappings, responses, filled)
  {
    hide AskedIn, Answer, EngineCheck, Maps;
    filled := responses;
    var i := 0;
    NoMaps();
    while i < |mappings|
      invariant 0 <= i <= |mappings|
      invariant Filled(s, evals, members, mappings[..i], responses, filled)
    {
      var mp := mappings[i];
      assert MapsTo(evals, members, inputs, mp);
      EngineAnswers(s, evals, members, inputs, mp);
      filled := filled[mp.responseIdx := Some(outputs[mp.inputIdx][mp.action])];
      forall m ensures Maps(mappings[..i + 1], m) <==> Maps(mappings[..i], m) || m == mp.responseIdx {
        MapsSnoc(mappings, i, m);
      }
      i := i + 1;
    }
    assert mappings[..i] == mappings;
  }

  lemma NoMaps()
    ensures forall m :: !Maps([], m)
  {
  }

  /** Checks one group and puts the decisions of its members in place. */
  method CheckGroup(s: Server, evals: seq<Evaluation>, members: seq<nat>, responses: seq<Option<bool>>)
    returns (r: Result<seq<Option<bool>>>)
    requires Within(evals, members) && members != [] && |responses| == |evals|
    ensures r.Error? <==> GroupFails(s, evals, members)
    ensures r.Ok? ==> |r.value| == |responses|
                      && (forall m | m in members :: Ok(r.value[m]) == Lifted(Answer(s, AskedIn(evals, members, m))))
                      && (forall m | 0 <= m < |responses| && m !in members :: r.value[m] == responses[m])
  {
    hide GroupTooLarge, AskedIn, NothingElse, Answer, Faithful, EngineCheck, Maps, ResourceKeys;
    var built := BuildInputs(s, evals, members);
    if built.Error? {
      return Error;
    }
    var (inputs, mappings) := built.value;
    EngineFailsExactly(s, evals, members, inputs, mappings);
    var outputs := EngineCheck(s, inputs);
    if outputs.Error? {
      return Error;
    }
    var filled := Fill(s, evals, members, inputs, mappings, outputs.value, responses);
    r := Ok(filled);
  }

  ghost function Lifted(r: Result<bool>): Result<Option<bool>> {
    if r.Ok? then Ok(Some(r.value)) else Error
  }

  lemma MapsSnoc(mappings: seq<Mapping>, i: nat, m: nat)
    requires i < |mappings|
    ensures Maps(mappings[..i + 1], m) <==> Maps(mappings[..i], m) || m == mappings[i].responseIdx
  {
    if Maps(mappings[..i], m) {
      var j :| 0 <= j < i && mappings[..i][j].responseIdx == m;
      assert mappings[..i + 1][j].responseIdx == m;
    }
    assert mappings[..i + 1][i] == mappings[i];
    if Maps(mappings[..i + 1], m) {
      var j :| 0 <= j < i + 1 && mappings[..i + 1][j].responseIdx == m;
      if j < i {
        assert mappings[..i][j].responseIdx == m;
      }
    }
  }

  // ---- the batch ---------------------------------------------------------------------------------

  const EXECUTE_ALL := "execute_all"
  const PERMIT_ON_FIRST_PERMIT := "permit_on_first_permit"

  ghost function GroupOf(s: Server, evals: seq<Evaluation>, i: nat): (members: seq<nat>)
    requires i < |evals|
    ensures Within(evals, members) && i in members
  {
    var keys := GroupKeys(s, evals);
    SharingMembers(keys, Indices(|evals|), keys[i], i);
    assert Indices(|evals|)[i] == i;
    KeyUsed(keys, Indices(|evals|), keys[i]);
    Sharing(keys, Indices(|evals|), keys[i])
  }

  /** The decision put at position i. */
  ghost function Decision(s: Server, evals: seq<Evaluation>, i: nat): Result<bool>
    requires i < |evals|
  {
    Answer(s, AskedIn(evals, GroupOf(s, evals, i), i))
  }

  ghost predicate BatchFails(s: Server, evals: seq<Evaluation>) {
    exists i | 0 <= i < |evals| :: GroupFails(s, evals, GroupOf(s, evals, i))
  }

  /** All decisions, or those up to and including the first decisive one. */
  ghost predicate ShortCircuited(all: seq<bool>, semantics: string, out: seq<bool>) {
    if semantics == "" || semantics == EXECUTE_ALL then out == all
    else
      var decisive := semantics == PERMIT_ON_FIRST_PERMIT;
      && out <= all
      && (forall i | 0 <= i < |out| - 1 :: out[i] != decisive)
      && (if decisive in all then out != [] && out[|out| - 1] == decisive else out == all)
  }

  /** The groups of a batch. */
  ghost predicate Grouped(s: Server, evals: seq<Evaluation>, groups: map<GroupKey, seq<nat>>) {
    var keys := GroupKeys(s, evals);
    && (forall k | k in groups :: groups[k] != [] && Within(evals, groups[k]) && keys[groups[k][0]] == k)
    && (forall i | 0 <= i < |evals| :: keys[i] in groups && groups[keys[i]] == GroupOf(s, evals, i))
    && (forall k, m | k in groups && 0 <= m < |evals| :: m in groups[k] <==> keys[m] == k)
  }

  /** The evaluations outside the groups that are left are decided. */
  ghost predicate Decided(s: Server, evals: seq<Evaluation>, left: set<GroupKey>, responses: seq<Option<bool>>) {
    && |responses| == |evals|
    && forall i | 0 <= i < |evals| && GroupKeys(s, evals)[i] !in left ::
         Ok(responses[i]) == Lifted(Decision(s, evals, i)) && !GroupFails(s, evals, GroupOf(s, evals, i))
  }

  lemma GroupDecided(s: Server, evals: seq<Evaluation>, groups: map<GroupKey, seq<nat>>, left: set<GroupKey>,
                     key: GroupKey,
                     responses: seq<Option<bool>>, checked: seq<Option<bool>>)
    requires Grouped(s, evals, groups) && Decided(s, evals, left, responses) && key in groups
    requires !GroupFails(s, evals, groups[key]) && |checked| == |responses|
    requires forall m | m in groups[key] :: Ok(checked[m]) == Lifted(Answer(s, AskedIn(evals, groups[key], m)))
    requires forall m | 0 <= m < |responses| && m !in groups[key] :: checked[m] == responses[m]
    ensures Decided(s, evals, left - {key}, checked)
  {
    hide GroupFails, AskedIn, Answer, GroupOf, GroupKeys, Sharing, Lifted;
  }

  lemma GroupFailsBatch(s: Server, evals: seq<Evaluation>, groups: map<GroupKey, seq<nat>>, key: GroupKey)
    requires Grouped(s, evals, groups) && key in groups && GroupFails(s, evals, groups[key])
    ensures BatchFails(s, evals)
  {
    hide GroupFails, GroupOf, GroupKeys;
    var i := groups[key][0];
    assert groups[key] == GroupOf(s, evals, i);
  }

  method GroupAll(s: Server, evals: seq<Evaluation>) returns (groups: map<GroupKey, seq<nat>>)
    ensures Grouped(s, evals, groups)
  {
    groups := GroupBy(GroupKeys(s, evals), Indices(|evals|));
    AllGrouped(s, evals, groups);
  }

  lemma NoneDecided(s: Server, evals: seq<Evaluation>, groups: map<GroupKey, seq<nat>>, responses: seq<Option<bool>>)
    requires Grouped(s, evals, groups) && |responses| == |evals|
    ensures Decided(s, evals, groups.Keys, responses)
  {
  }

  lemma GroupUsed(s: Server, evals: seq<Evaluation>, groups: map<GroupKey, seq<nat>>, key: GroupKey)
    requires Grouped(s, evals, groups) && key in groups
    ensures groups[key] != [] && Within(evals, groups[key])
  {
  }

  method CheckAll(s: Server, evals: seq<Evaluation>) returns (r: Result<seq<bool>>)
    ensures r.Error? <==> BatchFails(s, evals)
    ensures r.Ok? ==> |r.value| == |evals| && forall i | 0 <= i < |evals| :: Decision(s, evals, i) == Ok(r.value[i])
  {
    hide Decided, Grouped, GroupFails, AskedIn, Answer, Sharing, GroupOf, GroupKeys, BatchFails, Decision;
    var groups := GroupAll(s, evals);
    var responses: seq<Option<bool>> := seq(|evals|, _ => None);
    var left := groups.Keys;
    NoneDecided(s, evals, groups, responses);
    while left != {}
      invariant left <= groups.Keys && |responses| == |evals| && Decided(s, evals, left, responses)
      decreases left
    {
      var key :| key in left;
      GroupUsed(s, evals, groups, key);
      var checked := CheckGroup(s, evals, groups[key], responses);
      if checked.Error? {
        GroupFailsBatch(s, evals, groups, key);
        return Error;
      }
      GroupDecided(s, evals, groups, left, key, responses, checked.value);
      responses := checked.value;
      left := left - {key};
    }
    AllDecided(s, evals, responses);
    r := Ok(seq(|evals|, i requires 0 <= i < |evals| => if responses[i].Some? then responses[i].value else false));
  }

  lemma AllDecided(s: Server, evals: seq<Evaluation>, responses: seq<Option<bool>>)
    requires Decided(s, evals, {}, responses)
    ensures !BatchFails(s, evals)
    ensures forall i | 0 <= i < |evals| :: responses[i].Some? && Decision(s, evals, i) == Ok(responses[i].value)
  {
    hide GroupFails, GroupOf, GroupKeys, Decision;
  }

  lemma AllGrouped(s: Server, evals: seq<Evaluation>, groups: map<GroupKey, seq<nat>>)
    requires var keys := GroupKeys(s, evals);
             && (forall k :: k in groups <==> exists m | m in Indices(|evals|) :: keys[m] == k)
             && (forall k | k in groups :: groups[k] == Sharing(keys, Indices(|evals|), k))
    ensures Grouped(s, evals, groups)
  {
    var keys := GroupKeys(s, evals);
    forall i | 0 <= i < |evals| ensures keys[i] in groups {
      assert Indices(|evals|)[i] == i;
    }
    forall k | k in groups ensures groups[k] != [] && Within(keys, groups[k]) && keys[groups[k][0]] == k {
      KeyUsed(keys, Indices(|evals|), k);
      SharingMembers(keys, Indices(|evals|), k, groups[k][0]);
    }
    forall k, m | k in groups && 0 <= m < |evals| ensures m in groups[k] <==> keys[m] == k {
      SharingMembers(keys, Indices(|evals|), k, m);
      assert Indices(|evals|)[m] == m;
    }
  }

  method ShortCircuit(all: seq<bool>, semantics: string) returns (out: seq<bool>)
    ensures ShortCircuited(all, semantics, out)
    ensures semantics == "" || semantics == "execute_all" ==> out == all
    ensures semantics == "permit_on_first_permit" ==>
              out <= all && (true in out <==> true in all) && true !in out[..if out == [] then 0 else |out| - 1]
    ensures semantics == "deny_on_first_deny" ==>
              out <= all && (false in out <==> false in all) && false !in out[..if out == [] then 0 else |out| - 1]
  {
    if semantics == "" || semantics == EXECUTE_ALL {
      return all;
    }
    var i := 0;
    while i < |all|
      invariant 0 <= i <= |all|
      invariant forall k | 0 <= k < i :: all[k] != (semantics == PERMIT_ON_FIRST_PERMIT)
    {
      if all[i] == (semantics == PERMIT_ON_FIRST_PERMIT) {
        return all[..i + 1];
      }
      i := i + 1;
    }
    return all;
  }

  // ---- evaluation by evaluation --------------------------------------------------------------

  function Own(e: Evaluation): Question {
    Question(e.subject, e.resource, e.aux, e.action)
  }

  /** Within the batch, equal subject ids mean equal subjects, equal resource kinds and
      ids mean equal resources, and hashes of auxiliary data do not collide. */
  ghost predicate Identified(s: Server, evals: seq<Evaluation>) {
    forall i, j | 0 <= i < |evals| && 0 <= j < |evals| ::
      && (evals[i].subject.id == evals[j].subject.id ==> evals[i].subject == evals[j].subject)
      && (evals[i].resource.kind == evals[j].resource.kind && evals[i].resource.id == evals[j].resource.id ==>
          evals[i].resource == evals[j].resource)
      && (s.hash(evals[i].aux) == s.hash(evals[j].aux) ==> evals[i].aux == evals[j].aux)
  }

  /** The evaluations whose subject and resource, and whose auxiliary data, stand in
      for those of evaluation i. */
  ghost function StandIns(s: Server, evals: seq<Evaluation>, i: nat): (r: (nat, nat))
    requires i < |evals|
    ensures r.0 < |evals| && r.1 < |evals|
    ensures evals[r.0].subject.id == evals[i].subject.id == evals[r.1].subject.id
    ensures s.hash(evals[r.0].aux) == s.hash(evals[i].aux) == s.hash(evals[r.1].aux)
    ensures ResourceKeys(evals)[r.0] == ResourceKeys(evals)[i]
    ensures AskedIn(evals, GroupOf(s, evals, i), i) ==
            Question(evals[r.0].subject, evals[r.0].resource, evals[r.1].aux, evals[i].action)
  {
    var keys, members, resources := GroupKeys(s, evals), GroupOf(s, evals, i), ResourceKeys(evals);
    SharingMembers(resources, members, resources[i], i);
    var mates := Sharing(resources, members, resources[i]);
    SharingMembers(resources, members, resources[i], mates[0]);
    SharingMembers(keys, Indices(|evals|), keys[i], mates[0]);
    SharingMembers(keys, Indices(|evals|), keys[i], members[0]);
    (mates[0], members[0])
  }

  /** Then every position has the decision of its own evaluation. */
  lemma OwnDecisions(s: Server, evals: seq<Evaluation>, i: nat)
    requires Identified(s, evals) && i < |evals|
    ensures Decision(s, evals, i) == Answer(s, Own(evals[i]))
  {
    var r := StandIns(s, evals, i);
    hide AskedIn, GroupOf, ResourceKeys;
  }

  /** A position has the decision of its own evaluation whatever the policies say
      exactly when nothing different stands in for it. */
  lemma OwnDecisionExactly(s: Server, evals: seq<Evaluation>, i: nat)
    requires i < |evals|
    ensures (forall decide ::
            Decision(s.(decide := decide), evals, i) == Answer(s.(decide := decide), Own(evals[i]))) <==>
            AskedIn(evals, GroupOf(s, evals, i), i) == Own(evals[i])
  {
    hide AskedIn, Sharing;
    var asked, own := AskedIn(evals, GroupOf(s, evals, i), i), Own(evals[i]);
    forall decide ensures Decision(s.(decide := decide), evals, i) == Answer(s.(decide := decide), asked) {
      assert GroupKeys(s.(decide := decide), evals) == GroupKeys(s, evals);
    }
    var picky := (subject: Subject, resource: Resource, aux: Aux, action: string) =>
        Ok(Question(subject, resource, aux, action) == own);
    assert Answer(s.(decide := picky), own) == Ok(true);
    assert Answer(s.(decide := picky), asked) == Ok(asked == own);
    assert Decision(s.(decide := picky), evals, i) == Answer(s.(decide := picky), asked);
  }

  /** Two evaluations whose subjects have the same id are both asked for the first
      subject, even when the subjects differ. */
  lemma FirstSubjectWins(s: Server, e: Evaluation, f: Evaluation)
    requires e.subject.id == f.subject.id && e.aux == f.aux && e.resource == f.resource
    ensures AskedIn([e, f], GroupOf(s, [e, f], 1), 1) == Question(e.subject, e.resource, e.aux, f.action)
  {
    var evals := [e, f];
    var keys := GroupKeys(s, evals);
    assert Indices(2) == [0, 1];
    assert keys[0] == keys[1];
    Both(keys, keys[1]);
    Both(ResourceKeys(evals), ResourceKeys(evals)[1]);
  }

  lemma Both<K>(keys: seq<K>, k: K)
    requires |keys| == 2 && keys[0] == k == keys[1]
    ensures Sharing(keys, [0, 1], k) == [0, 1]
  {
    assert [0, 1][..1] == [0];
    assert [0][..0] == [];
    assert Sharing(keys, [], k) == [];
    assert Sharing(keys, [0], k) == [0];
  }

  // ---- the whole request --------------------------------------------------------------------

  /** The engine decides so for the item, completed with the defaults. */
  ghost predicate DecidedFor(s: Server, b: Batch, item: Item, decision: bool) {
    exists e :: ItemOrDefault(s, b, item, e) && s.decide(e.subject, e.resource, e.aux, e.action) == Ok(decision)
  }

  method AccessEvaluationBatch(s: Server, b: Batch) returns (r: Result<seq<bool>>)
    requires Validated(b)
    ensures r.Error? <==>
            |b.items| > s.maxActions * s.maxResources || !Extractable(s, b) || BatchFails(s, AllMerged(s, b))
    ensures r.Ok? ==>
              exists all ::
                && |all| == |b.items| && (forall i | 0 <= i < |all| :: Decision(s, AllMerged(s, b), i) == Ok(all[i]))
                && ShortCircuited(all, b.semantics, r.value)
    ensures r.Ok? && Identified(s, AllMerged(s, b)) ==>
              |r.value| <= |b.items| && forall i | 0 <= i < |r.value| :: DecidedFor(s, b, b.items[i], r.value[i])
  {
    if |b.items| > s.maxActions * s.maxResources {
      return Error;
    }
    var merged := MergeAll(s, b);
    if merged.Error? {
      return Error;
    }
    var checked := CheckAll(s, merged.value);
    if checked.Error? {
      return Error;
    }
    var out := ShortCircuit(checked.value, b.semantics);
    r := Ok(out);
    if Identified(s, AllMerged(s, b)) {
      forall i | 0 <= i < |out|
        ensures DecidedFor(s, b, b.items[i], out[i])
      {
        var e := merged.value[i];
        assert out[i] == checked.value[i];
        OwnDecisions(s, merged.value, i);
        assert ItemOrDefault(s, b, b.items[i], e) && s.decide(e.subject, e.resource, e.aux, e.action) == Ok(out[i]);
      }
    }
  }
}
