/** Batches of checks (internal/engine/engine.go): one after the other, or through a
    pool of workers with bounded queues and one collector channel per batch. Runs are
    interleavings of the steps of submitters, workers and collectors; nothing is
    cancelled and `eval` is the same throughout. */
module WorkerPool {
  import opened Common

  const WORKER_QUEUE_SIZE := 4

  // ---- one after the other ----------------------------------------------------------

  function Serial<I, O>(eval: I -> Result<O>, inputs: seq<I>): Result<seq<O>> {
    if inputs == [] then Ok([])
    else
      match eval(inputs[0])
      case Error => Error
      case Ok(o) =>
        match Serial(eval, inputs[1..])
        case Error => Error
        case Ok(rest) => Ok([o] + rest)
  }

  lemma {:induction false} SerialExactly<I, O>(eval: I -> Result<O>, inputs: seq<I>)
    ensures Serial(eval, inputs).Ok? <==> forall i | 0 <= i < |inputs| :: eval(inputs[i]).Ok?
    ensures Serial(eval, inputs).Ok? ==>
              |Serial(eval, inputs).value| == |inputs|
                  && forall i | 0 <= i < |inputs| :: eval(inputs[i]) == Ok(Serial(eval, inputs).value[i])
  {
    if inputs != [] {
      SerialExactly(eval, inputs[1..]);
      assert forall i | 1 <= i < |inputs| :: inputs[i] == inputs[1..][i - 1];
      assert forall i | 0 <= i < |inputs| - 1 :: inputs[1..][i] == inputs[i + 1];
    }
  }

  method CheckSerial<I, O>(eval: I -> Result<O>, inputs: seq<I>) returns (r: Result<seq<O>>)
    ensures r == Serial(eval, inputs)
  {
    SerialExactly(eval, inputs);
    var outputs: seq<O> := [];
    var i := 0;
    while i < |inputs|
      invariant 0 <= i <= |inputs| && |outputs| == i
      invariant forall k | 0 <= k < i :: eval(inputs[k]) == Ok(outputs[k])
    {
      match eval(inputs[i]) {
        case Error => return Error;
        case Ok(o) => outputs := outputs + [o];
      }
      i := i + 1;
    }
    assert Serial(eval, inputs).Ok?;
    assert outputs == Serial(eval, inputs).value by {
      assert forall k | 0 <= k < |inputs| :: Ok(outputs[k]) == Ok(Serial(eval, inputs).value[k]);
    }
    r := Ok(outputs);
  }

  // ---- the pool -----------------------------------------------------------------------

  /** The item at `index` of batch `request`. */
  datatype Work = Work(request: nat, index: nat)

  datatype Out<O> = Out(index: nat, result: Result<O>)

  /** `served` counts evaluations since the goroutine was last restarted. */
  datatype Worker = Worker(queue: seq<Work>, busy: Option<Work>, served: nat)

  datatype Status = Running | Failed | Finished

  /** A call of checkParallel: how many items it has submitted, the worker picked for
      the next one, what is in its collector channel, which items it has taken out. */
  datatype Request<I, O> = Request(
    inputs: seq<I>, submitted: nat, target: Option<nat>, collector: seq<Out<O>>, consumed: set<nat>,
    outputs: seq<Option<O>>, status: Status)

  datatype State<I, O> = State(workers: seq<Worker>, workerIndex: nat, requests: seq<Request<I, O>>)

  datatype Action<I> =
    | Call(inputs: seq<I>)
    | Pick(r: nat)
    | Enqueue(r: nat)
    | Take(w: nat)
    | Reply(w: nat)
    | Restart(w: nat)
    | Collect(r: nat)
    | Return(r: nat)

  predicate Active<I, O>(s: State<I, O>, r: nat) {
    r < |s.requests| && s.requests[r].status == Running
  }

  ghost predicate Enabled<I, O>(s: State<I, O>, a: Action<I>) {
    match a
    case Call(_) => true
    case Pick(r) =>
        Active(s, r) && s.requests[r].submitted < |s.requests[r].inputs| && s.requests[r].target.None?
        && s.workers != []
    case Enqueue(r) =>
      && Active(s, r) && s.requests[r].submitted < |s.requests[r].inputs| && s.requests[r].target.Some?
      && s.requests[r].target.value < |s.workers| && |s.workers[s.requests[r].target.value].queue| < WORKER_QUEUE_SIZE
    case Take(w) => w < |s.workers| && s.workers[w].busy.None? && s.workers[w].queue != []
    case Reply(w) => w < |s.workers| && s.workers[w].busy.Some? && CanReply(s, s.workers[w].busy.value)
    case Restart(w) => w < |s.workers| && s.workers[w].busy.None? && s.workers[w].served > 0
    case Collect(r) =>
        Active(s, r) && s.requests[r].submitted == |s.requests[r].inputs|
        && |s.requests[r].consumed| < |s.requests[r].inputs| && s.requests[r].collector != []
        && s.requests[r].collector[0].index < |s.requests[r].outputs|
    case Return(r) =>
        Active(s, r) && s.requests[r].submitted == |s.requests[r].inputs|
        && |s.requests[r].consumed| == |s.requests[r].inputs|
  }

  /** The collector of the batch has room: its capacity is the size of the batch. */
  predicate CanReply<I, O>(s: State<I, O>, work: Work) {
    && work.request < |s.requests| && work.index < |s.requests[work.request].inputs|
    && |s.requests[work.request].collector| < |s.requests[work.request].inputs|
  }

  ghost function Apply<I, O>(eval: I -> Result<O>, s: State<I, O>, a: Action<I>): State<I, O>
    requires Enabled(s, a)
  {
    match a
    case Call(inputs) =>
      s.(requests := s.requests + [Request(inputs, 0, None, [], {}, seq(|inputs|, _ => None), Running)])
    case Pick(r) =>
      var index := (s.workerIndex + 1) % WORD;
      s.(workerIndex := index, requests := s.requests[r := s.requests[r].(target := Some(index % |s.workers|))])
    case Enqueue(r) =>
      var q := s.requests[r];
      var w := q.target.value;
      s.(workers := s.workers[w := s.workers[w].(queue := s.workers[w].queue + [Work(r, q.submitted)])],
         requests := s.requests[r := q.(submitted := q.submitted + 1, target := None)])
    case Take(w) =>
      s.(workers := s.workers[w :=
          s.workers[w].(queue := s.workers[w].queue[1..], busy := Some(s.workers[w].queue[0]))])
    case Reply(w) =>
      var work := s.workers[w].busy.value;
      var q := s.requests[work.request];
      s.(workers := s.workers[w := s.workers[w].(busy := None, served := s.workers[w].served + 1)],
         requests := s.requests[work.request :=
             q.(collector := q.collector + [Out(work.index, eval(q.inputs[work.index]))])])
    case Restart(w) => s.(workers := s.workers[w := s.workers[w].(served := 0)])
    case Collect(r) =>
      var q := s.requests[r];
      var out := q.collector[0];
      var taken := q.(collector := q.collector[1..], consumed := q.consumed + {out.index});
      s.(requests := s.requests[r := if out.result.Error? then taken.(status := Failed)
                                     else taken.(outputs := q.outputs[out.index := Some(out.result.value)])])
    case Return(r) => s.(requests := s.requests[r := s.requests[r].(status := Finished)])
  }

  ghost predicate Run<I(!new), O(!new)>(eval: I -> Result<O>, states: seq<State<I, O>>, actions: seq<Action<I>>) {
    && |states| == |actions| + 1
    && states[0].requests == [] && (forall w | w in states[0].workers :: w == Worker([], None, 0))
        && states[0].workers != []
    && forall i | 0 <= i < |actions| ::
        Enabled(states[i], actions[i]) && states[i + 1] == Apply(eval, states[i], actions[i])
  }

  // ---- where the items are -----------------------------------------------------------------

  /** How often a worker has the item, in its queue or being evaluated. */
  function Held(w: Worker, work: Work): nat {
    multiset(w.queue)[work] + if w.busy == Some(work) then 1 else 0
  }

  function InFlight(workers: seq<Worker>, work: Work): nat {
    if workers == [] then 0 else Held(workers[0], work) + InFlight(workers[1..], work)
  }

  lemma {:induction false} WorkerChanges(workers: seq<Worker>, w: nat, worker: Worker, work: Work)
    requires w < |workers|
    ensures InFlight(workers[w := worker], work) ==
            InFlight(workers, work) - Held(workers[w], work) + Held(worker, work)
    ensures Held(workers[w], work) <= InFlight(workers, work)
  {
    if w == 0 {
      assert workers[w := worker][1..] == workers[1..];
    } else {
      WorkerChanges(workers[1..], w - 1, worker, work);
      assert workers[w := worker][1..] == workers[1..][w - 1 := worker];
    }
  }

  lemma {:induction false} HolderOf(workers: seq<Worker>, work: Work) returns (w: nat)
    requires InFlight(workers, work) > 0
    ensures w < |workers| && Held(workers[w], work) > 0
  {
    if Held(workers[0], work) > 0 {
      w := 0;
    } else {
      var v := HolderOf(workers[1..], work);
      w := v + 1;
    }
  }

  function Indices<O>(collector: seq<Out<O>>): set<nat> {
    set k | 0 <= k < |collector| :: collector[k].index
  }

  /** Items submitted, and neither in the collector nor taken out of it. */
  ghost predicate Outstanding<I, O>(requests: seq<Request<I, O>>, work: Work) {
    && work.request < |requests| && work.index < requests[work.request].submitted
    && work.index !in Indices(requests[work.request].collector) && work.index !in requests[work.request].consumed
  }

  /** Every outstanding item is with exactly one worker, and no other item is. */
  ghost predicate Located<I(!new), O(!new)>(s: State<I, O>) {
    forall work :: InFlight(s.workers, work) == if Outstanding(s.requests, work) then 1 else 0
  }

  /** The collector has each item at most once, with its own result; what was taken
      out is in the outputs. */
  ghost predicate Sound<I, O>(eval: I -> Result<O>, q: Request<I, O>) {
    && q.submitted <= |q.inputs| == |q.outputs|
    && (forall k | 0 <= k < |q.collector| ::
        q.collector[k].index < q.submitted && q.collector[k].result == eval(q.inputs[q.collector[k].index]))
    && (forall j, k | 0 <= j < k < |q.collector| :: q.collector[j].index != q.collector[k].index)
    && (forall k | 0 <= k < |q.collector| :: q.collector[k].index !in q.consumed)
    && (forall i | i in q.consumed :: i < q.submitted)
    && (q.status != Failed ==>
        forall i | i in q.consumed :: q.outputs[i].Some? && eval(q.inputs[i]) == Ok(q.outputs[i].value))
    && (q.status == Failed ==> exists i | 0 <= i < |q.inputs| :: eval(q.inputs[i]).Error?)
    && (q.status == Finished ==> |q.consumed| == |q.inputs|)
  }

  ghost predicate Queues<I, O>(s: State<I, O>) {
    && s.workers != []
    && (forall w | 0 <= w < |s.workers| :: |s.workers[w].queue| <= WORKER_QUEUE_SIZE)
    && (forall r | 0 <= r < |s.requests| && s.requests[r].target.Some? :: s.requests[r].target.value < |s.workers|)
  }

  ghost predicate Inv<I(!new), O(!new)>(eval: I -> Result<O>, s: State<I, O>) {
    Located(s) && Queues(s) && forall r | 0 <= r < |s.requests| :: Sound(eval, s.requests[r])
  }

  // ---- what every step keeps -----------------------------------------------------------------

  lemma EnqueueLocates<I(!new), O(!new)>(eval: I -> Result<O>, s: State<I, O>, r: nat)
    requires Inv(eval, s) && Enabled(s, Enqueue(r))
    ensures Located(Apply(eval, s, Enqueue(r)))
  {
    var s' := Apply(eval, s, Enqueue(r));
    var w, added := s.requests[r].target.value, Work(r, s.requests[r].submitted);
    forall work ensures InFlight(s'.workers, work) == if Outstanding(s'.requests, work) then 1 else 0 {
      WorkerChanges(s.workers, w, s'.workers[w], work);
      assert multiset(s'.workers[w].queue) == multiset(s.workers[w].queue) + multiset{added};
      assert InFlight(s.workers, work) == if Outstanding(s.requests, work) then 1 else 0;
    }
  }

  lemma TakeLocates<I(!new), O(!new)>(eval: I -> Result<O>, s: State<I, O>, w: nat)
    requires Inv(eval, s) && Enabled(s, Take(w))
    ensures Located(Apply(eval, s, Take(w)))
  {
    var s' := Apply(eval, s, Take(w));
    forall work ensures InFlight(s'.workers, work) == InFlight(s.workers, work) {
      WorkerChanges(s.workers, w, s'.workers[w], work);
      assert s.workers[w].queue == [s.workers[w].queue[0]] + s'.workers[w].queue;
    }
  }

  lemma RestartLocates<I(!new), O(!new)>(eval: I -> Result<O>, s: State<I, O>, w: nat)
    requires Inv(eval, s) && Enabled(s, Restart(w))
    ensures Located(Apply(eval, s, Restart(w)))
  {
    var s' := Apply(eval, s, Restart(w));
    forall work ensures InFlight(s'.workers, work) == InFlight(s.workers, work) {
      WorkerChanges(s.workers, w, s'.workers[w], work);
    }
  }

  lemma ReplyLocates<I(!new), O(!new)>(eval: I -> Result<O>, s: State<I, O>, w: nat)
    requires Inv(eval, s) && Enabled(s, Reply(w))
    ensures Located(Apply(eval, s, Reply(w)))
  {
    var s' := Apply(eval, s, Reply(w));
    var done := s.workers[w].busy.value;
    var q, q' := s.requests[done.request], s'.requests[done.request];
    assert Indices(q'.collector) ==
        Indices(q.collector) + {done.index} by { IndicesSnoc(q.collector, q'.collector[|q.collector|]); }
    forall work ensures InFlight(s'.workers, work) == if Outstanding(s'.requests, work) then 1 else 0 {
      WorkerChanges(s.workers, w, s'.workers[w], work);
      assert InFlight(s.workers, work) == if Outstanding(s.requests, work) then 1 else 0;
    }
  }

  lemma IndicesSnoc<O>(collector: seq<Out<O>>, out: Out<O>)
    ensures Indices(collector + [out]) == Indices(collector) + {out.index}
  {
    var more := collector + [out];
    forall i | i in Indices(collector) ensures i in Indices(more) {
      var k :| 0 <= k < |collector| && collector[k].index == i;
      assert more[k].index == i;
    }
    assert more[|collector|].index == out.index;
  }

  lemma IndicesTail<O>(collector: seq<Out<O>>)
    requires collector != []
    ensures Indices(collector) == Indices(collector[1..]) + {collector[0].index}
  {
    forall i | i in Indices(collector) ensures i in Indices(collector[1..]) + {collector[0].index} {
      var k :| 0 <= k < |collector| && collector[k].index == i;
      if k > 0 {
        assert collector[1..][k - 1].index == i;
      }
    }
    forall i | i in Indices(collector[1..]) ensures i in Indices(collector) {
      var k :| 0 <= k < |collector[1..]| && collector[1..][k].index == i;
      assert collector[k + 1].index == i;
    }
  }

  /** Steps that leave the workers and the set of outstanding items alone. */
  lemma QuietLocates<I(!new), O(!new)>(eval: I -> Result<O>, s: State<I, O>, a: Action<I>)
    requires Inv(eval, s) && Enabled(s, a) && (a.Call? || a.Pick? || a.Collect? || a.Return?)
    ensures Located(Apply(eval, s, a))
  {
    var s' := Apply(eval, s, a);
    if a.Collect? {
      IndicesTail(s.requests[a.r].collector);
    }
    hide Indices;
    forall work ensures Outstanding(s'.requests, work) <==> Outstanding(s.requests, work) {
    }
  }

  lemma StepLocates<I(!new), O(!new)>(eval: I -> Result<O>, s: State<I, O>, a: Action<I>)
    requires Inv(eval, s) && Enabled(s, a)
    ensures Located(Apply(eval, s, a))
  {
    hide Inv, Located, Enabled, Apply;
    match a {
      case Enqueue(r) => EnqueueLocates(eval, s, r);
      case Take(w) => TakeLocates(eval, s, w);
      case Reply(w) => ReplyLocates(eval, s, w);
      case Restart(w) => RestartLocates(eval, s, w);
      case _ => QuietLocates(eval, s, a);
    }
  }

  lemma BusyIsOutstanding<I(!new), O(!new)>(s: State<I, O>, w: nat, work: Work)
    requires Located(s) && w < |s.workers| && Held(s.workers[w], work) > 0
    ensures Outstanding(s.requests, work)
  {
    WorkerChanges(s.workers, w, s.workers[w], work);
    assert InFlight(s.workers, work) == if Outstanding(s.requests, work) then 1 else 0;
  }

  lemma StepSound<I(!new), O(!new)>(eval: I -> Result<O>, s: State<I, O>, a: Action<I>, r: nat)
    requires Inv(eval, s) && Enabled(s, a) && r < |Apply(eval, s, a).requests|
    ensures Sound(eval, Apply(eval, s, a).requests[r])
  {
    var s' := Apply(eval, s, a);
    if r < |s.requests| && s'.requests[r] == s.requests[r] {
      hide Apply, Enabled, Located, Sound;
    } else {
      match a {
        case Reply(w) =>
          ReplySound(eval, s, w);
        case Collect(_) =>
          CollectSound(eval, s.requests[r], s'.requests[r]);
        case _ =>
          hide Located;
      }
    }
  }

  lemma ReplySound<I(!new), O(!new)>(eval: I -> Result<O>, s: State<I, O>, w: nat)
    requires Inv(eval, s) && Enabled(s, Reply(w))
    ensures var s' := Apply(eval, s, Reply(w)); Sound(eval, s'.requests[s.workers[w].busy.value.request])
  {
    var work := s.workers[w].busy.value;
    BusyIsOutstanding(s, w, work);
    var q := s.requests[work.request];
    assert forall k | 0 <= k < |q.collector| :: q.collector[k].index in Indices(q.collector);
    hide Located, Indices;
  }

  lemma CollectSound<I(!new), O(!new)>(eval: I -> Result<O>, q: Request<I, O>, q': Request<I, O>)
    requires Sound(eval, q) && q.status == Running && q.collector != []
    requires var out := q.collector[0];
             var taken := q.(collector := q.collector[1..], consumed := q.consumed + {out.index});
             q' == if out.result.Error? then taken.(status := Failed)
                 else taken.(outputs := q.outputs[out.index := Some(out.result.value)])
    ensures Sound(eval, q')
  {
  }

  lemma StepQueues<I(!new), O(!new)>(eval: I -> Result<O>, s: State<I, O>, a: Action<I>)
    requires Inv(eval, s) && Enabled(s, a)
    ensures Queues(Apply(eval, s, a))
  {
    hide Located, Sound;
  }

  lemma StepKeeps<I(!new), O(!new)>(eval: I -> Result<O>, s: State<I, O>, a: Action<I>)
    requires Inv(eval, s) && Enabled(s, a)
    ensures Inv(eval, Apply(eval, s, a))
  {
    StepLocates(eval, s, a);
    StepQueues(eval, s, a);
    forall r | 0 <= r < |Apply(eval, s, a).requests| ensures Sound(eval, Apply(eval, s, a).requests[r]) {
      StepSound(eval, s, a, r);
    }
    hide Located, Sound, Queues, Apply, Enabled;
  }

  lemma {:induction false} NothingInFlight(workers: seq<Worker>, work: Work)
    requires forall w | w in workers :: w == Worker([], None, 0)
    ensures InFlight(workers, work) == 0
  {
    if workers != [] {
      assert workers[0] in workers && forall w | w in workers[1..] :: w in workers;
      NothingInFlight(workers[1..], work);
    }
  }

  lemma {:induction false} RunKeeps<I(!new), O(!new)>(eval: I -> Result<O>, states: seq<State<I, O>>,
                                                      actions: seq<Action<I>>, i: nat)
    requires Run(eval, states, actions) && i < |states|
    ensures Inv(eval, states[i])
  {
    if i == 0 {
      forall work ensures InFlight(states[0].workers, work) == 0 {
        NothingInFlight(states[0].workers, work);
      }
      assert forall w | 0 <= w < |states[0].workers| :: states[0].workers[w] in states[0].workers;
    } else {
      RunKeeps(eval, states, actions, i - 1);
      StepKeeps(eval, states[i - 1], actions[i - 1]);
      hide Apply, Enabled, Inv;
    }
  }

  // ---- the guarantees ---------------------------------------------------------------------------

  function Range(n: nat): set<nat> {
    if n == 0 then {} else Range(n - 1) + {n - 1}
  }

  lemma {:induction false} RangeExactly(n: nat)
    ensures |Range(n)| == n && forall i :: i in Range(n) <==> 0 <= i < n
  {
    if n > 0 {
      RangeExactly(n - 1);
    }
  }

  lemma {:induction false} IndicesCount<O>(collector: seq<Out<O>>)
    requires forall j, k | 0 <= j < k < |collector| :: collector[j].index != collector[k].index
    ensures |Indices(collector)| == |collector|
  {
    if collector != [] {
      IndicesTail(collector);
      IndicesCount(collector[1..]);
      assert collector[0].index !in Indices(collector[1..]);
    }
  }

  lemma Room<I(!new), O(!new)>(eval: I -> Result<O>, q: Request<I, O>, index: nat)
    requires Sound(eval, q) && index < q.submitted && index !in Indices(q.collector) && index !in q.consumed
    ensures |q.collector| + |q.consumed| < q.submitted
  {
    var places := Indices(q.collector) + q.consumed + {index};
    IndicesCount(q.collector);
    assert Indices(q.collector) !! q.consumed;
    RangeExactly(q.submitted);
    SubsetSize(places, Range(q.submitted));
  }

  /** No worker ever blocks on a collector, and its queue holds at most its capacity. */
  lemma WorkersNeverBlock<I(!new), O(!new)>(eval: I -> Result<O>, states: seq<State<I, O>>, actions: seq<Action<I>>,
                                            i: nat, w: nat)
    requires Run(eval, states, actions) && i < |states| && w < |states[i].workers| && states[i].workers[w].busy.Some?
    ensures Enabled(states[i], Reply(w)) && |states[i].workers[w].queue| <= 4
  {
    RunKeeps(eval, states, actions, i);
    var s := states[i];
    var work := s.workers[w].busy.value;
    hide Run;
    BusyIsOutstanding(s, w, work);
    Room(eval, s.requests[work.request], work.index);
  }

  /** A batch that returns outputs returns those of the serial check, and one that
      fails is one that the serial check fails. */
  lemma ParallelIsSerial<I(!new), O(!new)>(eval: I -> Result<O>, states: seq<State<I, O>>, actions: seq<Action<I>>,
                                           i: nat, r: nat)
    requires Run(eval, states, actions) && i < |states| && r < |states[i].requests|
    requires states[i].requests[r].status != Running
    ensures var q := states[i].requests[r];
            && (q.status == Failed <==> Serial(eval, q.inputs).Error?)
            && (q.status == Finished ==>
                  Serial(eval, q.inputs).Ok? && |q.outputs| == |q.inputs| == |Serial(eval, q.inputs).value|
                  && forall k | 0 <= k < |q.inputs| :: q.outputs[k] == Some(Serial(eval, q.inputs).value[k]))
  {
    RunKeeps(eval, states, actions, i);
    var q := states[i].requests[r];
    SerialExactly(eval, q.inputs);
    hide Run, Serial;
    assert Sound(eval, q);
    if q.status == Finished {
      RangeExactly(|q.inputs|);
      SubsetSize(q.consumed, Range(|q.inputs|));
      assert forall k | 0 <= k < |q.inputs| :: k in q.consumed;
    }
  }

  // ---- whose turn it is ------------------------------------------------------------------------

  ghost function Picks<I(!new)>(actions: seq<Action<I>>, i: nat): nat
    requires i <= |actions|
  {
    if i == 0 then 0 else Picks(actions, i - 1) + if actions[i - 1].Pick? then 1 else 0
  }

  /** The 64-bit counter after n increments. */
  function CounterAfter(c: nat, n: nat): nat {
    (c + n) % WORD
  }

  lemma AfterNone(c: nat)
    requires c < WORD
    ensures CounterAfter(c, 0) == c
  {
  }

  lemma AfterOneMore(c: nat, n: nat)
    ensures CounterAfter(CounterAfter(c, n), 1) == CounterAfter(c, n + 1)
  {
    var q, r := (c + n) / WORD, (c + n) % WORD;
    assert c + n == q * WORD + r;
    if r + 1 < WORD {
      assert (c + n + 1) / WORD == q;
    } else {
      assert c + n + 1 == (q + 1) * WORD;
    }
  }

  lemma StepTurns<I(!new), O(!new)>(eval: I -> Result<O>, s: State<I, O>, a: Action<I>)
    requires Enabled(s, a)
    ensures var s' := Apply(eval, s, a);
            && |s'.workers| == |s.workers|
            && (!a.Pick? ==> s'.workerIndex == s.workerIndex)
            && (a.Pick? ==>
                && s'.workerIndex == CounterAfter(s.workerIndex, 1) && s.workers != [] && a.r < |s'.requests|
                && s'.requests[a.r].target == Some(s'.workerIndex % |s.workers|))
  {
  }

  lemma {:induction false} PicksCounted<I(!new), O(!new)>(eval: I -> Result<O>, states: seq<State<I, O>>,
                                                          actions: seq<Action<I>>, i: nat)
    requires Run(eval, states, actions) && i < |states| && states[0].workerIndex < WORD
    ensures states[i].workerIndex == CounterAfter(states[0].workerIndex, Picks(actions, i))
    ensures |states[i].workers| == |states[0].workers|
  {
    hide Apply, Enabled, CounterAfter;
    if i == 0 {
      AfterNone(states[0].workerIndex);
    } else {
      PicksCounted(eval, states, actions, i - 1);
      StepTurns(eval, states[i - 1], actions[i - 1]);
      AfterOneMore(states[0].workerIndex, Picks(actions, i - 1));
    }
  }

  /** The batches take turns: the input picked for after n others, of whatever batch, goes
      to the worker n + 1 further on, up to the end of the 64-bit counter. */
  lemma TurnsTaken<I(!new), O(!new)>(eval: I -> Result<O>, states: seq<State<I, O>>, actions: seq<Action<I>>, i: nat)
    requires Run(eval, states, actions) && i < |actions| && actions[i].Pick? && states[0].workerIndex < WORD
    ensures var n, r := |states[0].workers|, actions[i].r;
            n > 0 && r < |states[i + 1].requests| && states[i + 1].requests[r].target ==
              Some(CounterAfter(states[0].workerIndex, Picks(actions, i) + 1) % n)
  {
    hide Apply, Enabled, CounterAfter;
    PicksCounted(eval, states, actions, i);
    StepTurns(eval, states[i], actions[i]);
    AfterOneMore(states[0].workerIndex, Picks(actions, i));
  }

  // ---- every batch ends ------------------------------------------------------------------------

  function WorkerLeft(w: Worker): nat {
    4 * |w.queue| + (if w.busy.Some? then 3 else 0) + if w.served > 0 then 1 else 0
  }

  function WorkersLeft(workers: seq<Worker>): nat {
    if workers == [] then 0 else WorkerLeft(workers[0]) + WorkersLeft(workers[1..])
  }

  function RequestLeft<I, O>(q: Request<I, O>): int {
    6 * (|q.inputs| - q.submitted) + (if q.target.None? then 1 else 0) + |q.collector| + if q.status == Running then 1
        else 0
  }

  function RequestsLeft<I, O>(requests: seq<Request<I, O>>): int {
    if requests == [] then 0 else RequestLeft(requests[0]) + RequestsLeft(requests[1..])
  }

  lemma {:induction false} WorkerMoves(workers: seq<Worker>, w: nat, worker: Worker)
    requires w < |workers|
    ensures WorkersLeft(workers[w := worker]) == WorkersLeft(workers) - WorkerLeft(workers[w]) + WorkerLeft(worker)
  {
    if w == 0 {
      assert workers[w := worker][1..] == workers[1..];
    } else {
      WorkerMoves(workers[1..], w - 1, worker);
      assert workers[w := worker][1..] == workers[1..][w - 1 := worker];
    }
  }

  lemma {:induction false} RequestMoves<I, O>(requests: seq<Request<I, O>>, r: nat, q: Request<I, O>)
    requires r < |requests|
    ensures RequestsLeft(requests[r := q]) == RequestsLeft(requests) - RequestLeft(requests[r]) + RequestLeft(q)
  {
    if r == 0 {
      assert requests[r := q][1..] == requests[1..];
    } else {
      RequestMoves(requests[1..], r - 1, q);
      assert requests[r := q][1..] == requests[1..][r - 1 := q];
    }
  }

  function StepsLeft<I, O>(s: State<I, O>): int {
    WorkersLeft(s.workers) + RequestsLeft(s.requests)
  }

  /** Every step other than a new call uses up some of what is left. */
  lemma StepsShrink<I(!new), O(!new)>(eval: I -> Result<O>, s: State<I, O>, a: Action<I>)
    requires Enabled(s, a) && !a.Call?
    ensures StepsLeft(Apply(eval, s, a)) < StepsLeft(s)
  {
    var s' := Apply(eval, s, a);
    match a {
      case Enqueue(r) =>
        var w := s.requests[r].target.value;
        WorkerMoves(s.workers, w, s'.workers[w]);
        RequestMoves(s.requests, r, s'.requests[r]);
      case Take(w) =>
        WorkerMoves(s.workers, w, s'.workers[w]);
      case Restart(w) =>
        WorkerMoves(s.workers, w, s'.workers[w]);
      case Reply(w) =>
        WorkerMoves(s.workers, w, s'.workers[w]);
        var r := s.workers[w].busy.value.request;
        RequestMoves(s.requests, r, s'.requests[r]);
      case Pick(r) =>
        RequestMoves(s.requests, r, s'.requests[r]);
      case Collect(r) =>
        RequestMoves(s.requests, r, s'.requests[r]);
      case Return(r) =>
        RequestMoves(s.requests, r, s'.requests[r]);
      case _ =>
    }
  }

  /** While a batch is running, such a step can be taken. */
  lemma NeverStuck<I(!new), O(!new)>(eval: I -> Result<O>, states: seq<State<I, O>>, actions: seq<Action<I>>, i: nat,
                                     r: nat)
    requires Run(eval, states, actions) && i < |states| && Active(states[i], r)
    ensures exists a: Action<I> :: !a.Call? && Enabled(states[i], a)
  {
    RunKeeps(eval, states, actions, i);
    var s, q := states[i], states[i].requests[r];
    assert Sound(eval, q);
    if q.submitted < |q.inputs| && q.target.None? {
      assert Enabled(s, Pick(r));
    } else if q.submitted < |q.inputs| {
      var w := q.target.value;
      if |s.workers[w].queue| < WORKER_QUEUE_SIZE {
        assert Enabled(s, Enqueue(r));
      } else {
        WorkerAdvances(eval, states, actions, i, w);
      }
    } else if q.collector != [] {
      Room1(eval, q);
      assert Enabled(s, Collect(r));
    } else if |q.consumed| == |q.inputs| {
      assert Enabled(s, Return(r));
    } else {
      var index := Missing(q.consumed, |q.inputs|);
      var work := Work(r, index);
      assert Outstanding(s.requests, work);
      assert InFlight(s.workers, work) == 1;
      var w := HolderOf(s.workers, work);
      WorkerAdvances(eval, states, actions, i, w);
    }
  }

  lemma Room1<I(!new), O(!new)>(eval: I -> Result<O>, q: Request<I, O>)
    requires Sound(eval, q) && q.collector != []
    ensures |q.consumed| < |q.inputs|
  {
    var index := q.collector[0].index;
    RangeExactly(q.submitted);
    SubsetSize(q.consumed + {index}, Range(q.submitted));
  }

  lemma Missing(s: set<nat>, n: nat) returns (i: nat)
    requires |s| != n && forall i | i in s :: i < n
    ensures i < n && i !in s
  {
    RangeExactly(n);
    var rest := Range(n) - s;
    assert s + rest == Range(n);
    i :| i in rest;
  }

  lemma WorkerAdvances<I(!new), O(!new)>(eval: I -> Result<O>, states: seq<State<I, O>>, actions: seq<Action<I>>,
                                         i: nat, w: nat)
    requires Run(eval, states, actions) && i < |states| && w < |states[i].workers|
    requires states[i].workers[w].queue != [] || states[i].workers[w].busy.Some?
    ensures exists a: Action<I> :: !a.Call? && Enabled(states[i], a)
  {
    if states[i].workers[w].busy.Some? {
      WorkersNeverBlock(eval, states, actions, i, w);
      assert !Action<I>.Reply(w).Call?;
    } else {
      assert Enabled(states[i], Take(w));
    }
  }

  lemma {:induction false} SomethingLeft<I(!new), O(!new)>(eval: I -> Result<O>, requests: seq<Request<I, O>>)
    requires forall q | q in requests :: Sound(eval, q)
    ensures RequestsLeft(requests) >= 0
  {
    hide Sound;
    if requests != [] {
      assert requests[0] in requests;
      SubmittedBound(eval, requests[0]);
      SomethingLeft(eval, requests[1..]);
    }
  }

  lemma SubmittedBound<I, O>(eval: I -> Result<O>, q: Request<I, O>)
    requires Sound(eval, q)
    ensures q.submitted <= |q.inputs|
  {
  }

  lemma {:induction false} StepsUsed<I(!new), O(!new)>(eval: I -> Result<O>, states: seq<State<I, O>>,
                                                       actions: seq<Action<I>>, i: nat, j: nat)
    requires Run(eval, states, actions) && i <= j < |states| && forall k | i <= k < |actions| :: !actions[k].Call?
    ensures j - i <= StepsLeft(states[i]) - StepsLeft(states[j])
  {
    if i < j {
      StepsUsed(eval, states, actions, i, j - 1);
      StepsShrink(eval, states[j - 1], actions[j - 1]);
    }
  }

  /** Every batch ends: without new calls a run takes no more steps than were left,
      restarts included, and where it can go no further no batch is running. */
  lemma EveryBatchEnds<I(!new), O(!new)>(eval: I -> Result<O>, states: seq<State<I, O>>, actions: seq<Action<I>>,
                                         i: nat)
    requires Run(eval, states, actions) && i <= |actions| && forall k | i <= k < |actions| :: !actions[k].Call?
    ensures |actions| - i <= StepsLeft(states[i])
    ensures var last := states[|actions|];
            (forall a: Action<I> | !a.Call? :: !Enabled(last, a)) ==>
                forall r | 0 <= r < |last.requests| :: last.requests[r].status != Running
  {
    var last := states[|actions|];
    StepsUsed(eval, states, actions, i, |actions|);
    RunKeeps(eval, states, actions, |actions|);
    hide Run, Sound;
    SomethingLeft(eval, last.requests);
    if forall a: Action<I> | !a.Call? :: !Enabled(last, a) {
      forall r | 0 <= r < |last.requests| ensures last.requests[r].status != Running {
        if last.requests[r].status == Running {
          NeverStuck(eval, states, actions, |actions|, r);
        }
      }
    }
  }
}
