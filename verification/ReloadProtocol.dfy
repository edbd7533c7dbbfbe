/** The coalescing reload protocol (internal/storage/reload.go): a single-flight
    group under one key, a mutex, and a Forget made under the mutex. Every
    interleaving of callers and flights is a run of the transition system below. */
module ReloadProtocol {
  import opened Common

  /** Where the function run by a flight is. */
  datatype Phase = Waiting | Locked | Forgotten | Reloading | Reloaded | Unlocked | Finished

  /** `forgotten` and `started` are the times of the Forget and of the start of the
      reload, once they have happened. */
  datatype Flight = Flight(phase: Phase, forgotten: nat, started: nat)

  datatype Call = Call(time: nat, flight: nat, returned: bool)

  /** Flights and calls in the order they were made; `entry` is what the group holds
      under the key and `holder` the flight that has the mutex. */
  datatype State = State(clock: nat, flights: seq<Flight>, calls: seq<Call>, entry: Option<nat>, holder: Option<nat>)

  datatype Action =
    | Arrive             // a caller enters Do: joins the entry or makes a new flight
    | Lock(flight: nat)
    | Forget(flight: nat)
    | Start(flight: nat)
    | End(flight: nat)
    | Unlock(flight: nat)
    | Finish(flight: nat) // Do's own removal of the key
    | Return(call: nat)

  const INITIAL := State(0, [], [], None, None)

  predicate At(s: State, f: nat, phase: Phase) {
    f < |s.flights| && s.flights[f].phase == phase
  }

  predicate Enabled(s: State, a: Action) {
    match a
    case Arrive => true
    case Lock(f) => At(s, f, Waiting) && s.holder == None
    case Forget(f) => At(s, f, Locked)
    case Start(f) => At(s, f, Forgotten)
    case End(f) => At(s, f, Reloading)
    case Unlock(f) => At(s, f, Reloaded)
    case Finish(f) => At(s, f, Unlocked)
    case Return(c) => c < |s.calls| && !s.calls[c].returned && At(s, s.calls[c].flight, Finished)
  }

  function Moved(s: State, f: nat, phase: Phase): State
    requires f < |s.flights|
  {
    s.(flights := s.flights[f := s.flights[f].(phase := phase)])
  }

  function Apply(s: State, a: Action): State
    requires Enabled(s, a)
  {
    var t := s.clock + 1;
    match a
    case Arrive =>
      if s.entry.Some? then s.(clock := t, calls := s.calls + [Call(t, s.entry.value, false)])
      else
        var f := |s.flights|;
        s.(clock := t, flights := s.flights + [Flight(Waiting, 0, 0)], calls := s.calls + [Call(t, f, false)],
            entry := Some(f))
    case Lock(f) => Moved(s, f, Locked).(clock := t, holder := Some(f))
    case Forget(f) => s.(clock := t, flights := s.flights[f := Flight(Forgotten, t, 0)], entry := None)
    case Start(f) => s.(clock := t, flights := s.flights[f := s.flights[f].(phase := Reloading, started := t)])
    case End(f) => Moved(s, f, Reloaded).(clock := t)
    case Unlock(f) => Moved(s, f, Unlocked).(clock := t, holder := None)
    case Finish(f) => Moved(s, f, Finished).(clock := t, entry := if s.entry == Some(f) then None else s.entry)
    case Return(c) => s.(clock := t, calls := s.calls[c := s.calls[c].(returned := true)])
  }

  /** One interleaving: the states passed through. */
  ghost predicate Run(states: seq<State>, actions: seq<Action>) {
    && |states| == |actions| + 1
    && states[0] == INITIAL
    && forall i | 0 <= i < |actions| :: Enabled(states[i], actions[i]) && states[i + 1] == Apply(states[i], actions[i])
  }

  // ---- what every step keeps ------------------------------------------------------------

  predicate Pending(phase: Phase) {
    phase == Waiting || phase == Locked
  }

  predicate Holding(phase: Phase) {
    phase == Locked || phase == Forgotten || phase == Reloading || phase == Reloaded
  }

  predicate Begun(phase: Phase) {
    phase == Reloading || phase == Reloaded || phase == Unlocked || phase == Finished
  }

  /** The group's entry is the one flight that is not forgotten yet. */
  ghost predicate EntryIsPending(s: State) {
    && (s.entry.Some? ==> s.entry.value == |s.flights| - 1 && Pending(s.flights[s.entry.value].phase))
    && (forall f | 0 <= f < |s.flights| && Pending(s.flights[f].phase) :: s.entry == Some(f))
  }

  ghost predicate HolderIsHolding(s: State) {
    && (s.holder.Some? ==> s.holder.value < |s.flights| && Holding(s.flights[s.holder.value].phase))
    && (forall f | 0 <= f < |s.flights| && Holding(s.flights[f].phase) :: s.holder == Some(f))
  }

  ghost predicate TimesPast(s: State) {
    && (forall f | 0 <= f < |s.flights| && !Pending(s.flights[f].phase) :: s.flights[f].forgotten <= s.clock)
    && (forall f | 0 <= f < |s.flights| && Begun(s.flights[f].phase) ::
        s.flights[f].forgotten < s.flights[f].started <= s.clock)
  }

  /** Forgets happen in the order of the flights. */
  ghost predicate ForgetsOrdered(s: State) {
    forall f, g | 0 <= f < g < |s.flights| && !Pending(s.flights[g].phase) ::
        s.flights[f].forgotten < s.flights[g].forgotten
  }

  ghost predicate CallsPlaced(s: State) {
    && (forall c | 0 <= c < |s.calls| :: s.calls[c].flight < |s.flights| && s.calls[c].time <= s.clock)
    && (forall c | 0 <= c < |s.calls| && s.calls[c].returned :: s.flights[s.calls[c].flight].phase == Finished)
  }

  /** A call was made before its flight was forgotten ... */
  ghost predicate CallsBeforeForget(s: State)
    requires CallsPlaced(s)
  {
    forall c | 0 <= c < |s.calls| && !Pending(s.flights[s.calls[c].flight].phase) ::
        s.calls[c].time < s.flights[s.calls[c].flight].forgotten
  }

  /** ... and after every earlier flight was. */
  ghost predicate CallsAfterForgets(s: State)
    requires CallsPlaced(s)
  {
    forall c, f | 0 <= c < |s.calls| && 0 <= f < s.calls[c].flight :: s.flights[f].forgotten < s.calls[c].time
  }

  ghost predicate Inv(s: State) {
    && EntryIsPending(s) && HolderIsHolding(s) && TimesPast(s) && ForgetsOrdered(s)
    && CallsPlaced(s) && CallsBeforeForget(s) && CallsAfterForgets(s)
  }

  lemma StepKeepsEntry(s: State, a: Action)
    requires Inv(s) && Enabled(s, a)
    ensures EntryIsPending(Apply(s, a))
  {
    hide TimesPast, ForgetsOrdered, CallsPlaced, CallsBeforeForget, CallsAfterForgets;
  }

  lemma StepKeepsHolder(s: State, a: Action)
    requires Inv(s) && Enabled(s, a)
    ensures HolderIsHolding(Apply(s, a))
  {
    hide EntryIsPending, TimesPast, ForgetsOrdered, CallsPlaced, CallsBeforeForget, CallsAfterForgets;
  }

  lemma StepKeepsTimes(s: State, a: Action)
    requires Inv(s) && Enabled(s, a)
    ensures TimesPast(Apply(s, a))
  {
    hide EntryIsPending, HolderIsHolding, ForgetsOrdered, CallsPlaced, CallsBeforeForget, CallsAfterForgets;
  }

  lemma StepKeepsForgets(s: State, a: Action)
    requires Inv(s) && Enabled(s, a)
    ensures ForgetsOrdered(Apply(s, a))
  {
    hide HolderIsHolding, CallsPlaced, CallsBeforeForget, CallsAfterForgets;
  }

  lemma StepKeepsBefore(s: State, a: Action)
    requires Inv(s) && Enabled(s, a)
    ensures CallsPlaced(Apply(s, a)) && CallsBeforeForget(Apply(s, a))
  {
    hide HolderIsHolding, TimesPast, ForgetsOrdered, CallsAfterForgets;
  }

  lemma StepKeepsAfter(s: State, a: Action)
    requires Inv(s) && Enabled(s, a)
    ensures CallsPlaced(Apply(s, a)) && CallsAfterForgets(Apply(s, a))
  {
    hide HolderIsHolding, ForgetsOrdered, CallsBeforeForget;
  }

  lemma StepKeeps(s: State, a: Action)
    requires Inv(s) && Enabled(s, a)
    ensures Inv(Apply(s, a))
  {
    StepKeepsEntry(s, a);
    StepKeepsHolder(s, a);
    StepKeepsTimes(s, a);
    StepKeepsForgets(s, a);
    StepKeepsBefore(s, a);
    StepKeepsAfter(s, a);
    hide Apply, Enabled, EntryIsPending, HolderIsHolding, TimesPast, ForgetsOrdered, CallsPlaced, CallsBeforeForget,
        CallsAfterForgets;
  }

  lemma {:induction false} RunKeeps(states: seq<State>, actions: seq<Action>, i: nat)
    requires Run(states, actions) && i < |states|
    ensures Inv(states[i])
  {
    if i > 0 {
      RunKeeps(states, actions, i - 1);
      StepKeeps(states[i - 1], actions[i - 1]);
    }
  }

  // ---- the guarantees --------------------------------------------------------------------

  /** No two reloads run at once. */
  lemma ReloadsExclude(states: seq<State>, actions: seq<Action>, i: nat, f: nat, g: nat)
    requires Run(states, actions) && i < |states| && At(states[i], f, Reloading) && At(states[i], g, Reloading)
    ensures f == g
  {
    RunKeeps(states, actions, i);
  }

  /** At most one flight is made and not yet forgotten, and it is the group's entry. */
  lemma OnePending(states: seq<State>, actions: seq<Action>, i: nat, f: nat)
    requires Run(states, actions) && i < |states| && f < |states[i].flights|
    ensures Pending(states[i].flights[f].phase) <==> states[i].entry == Some(f)
  {
    RunKeeps(states, actions, i);
  }

  /** A caller that has returned was served by a reload that started after its call. */
  lemma ServedByLaterReload(states: seq<State>, actions: seq<Action>, i: nat, c: nat)
    requires Run(states, actions) && i < |states| && c < |states[i].calls| && states[i].calls[c].returned
    ensures var call := states[i].calls[c];
            call.flight < |states[i].flights| && states[i].flights[call.flight].phase == Finished
            && call.time < states[i].flights[call.flight].started
  {
    RunKeeps(states, actions, i);
  }

  /** Two calls share a flight exactly when no Forget came between them. */
  lemma SharedUnlessForgotten(states: seq<State>, actions: seq<Action>, i: nat, c: nat, d: nat)
    requires Run(states, actions) && i < |states| && c < |states[i].calls| && d < |states[i].calls|
    requires states[i].calls[c].time < states[i].calls[d].time
    ensures var s := states[i];
            s.calls[c].flight == s.calls[d].flight <==>
            !exists f | 0 <= f < |s.flights| ::
                !Pending(s.flights[f].phase) && s.calls[c].time < s.flights[f].forgotten < s.calls[d].time
  {
    RunKeeps(states, actions, i);
    var s := states[i];
    var cf, df := s.calls[c].flight, s.calls[d].flight;
    if cf < df {
      PassedOn(s, cf, df);
    } else if df < cf {
      PassedOn(s, df, cf);
    }
  }

  /** A flight with a later one has been forgotten. */
  lemma PassedOn(s: State, f: nat, g: nat)
    requires Inv(s) && f < g < |s.flights|
    ensures !Pending(s.flights[f].phase)
  {
  }

  // ---- every caller returns ------------------------------------------------------------------

  function Left(phase: Phase): nat {
    match phase
    case Waiting => 6
    case Locked => 5
    case Forgotten => 4
    case Reloading => 3
    case Reloaded => 2
    case Unlocked => 1
    case Finished => 0
  }

  function FlightsLeft(flights: seq<Flight>): nat {
    if flights == [] then 0 else Left(flights[0].phase) + FlightsLeft(flights[1..])
  }

  function CallsLeft(calls: seq<Call>): nat {
    if calls == [] then 0 else (if calls[0].returned then 0 else 1) + CallsLeft(calls[1..])
  }

  lemma {:induction false} FlightMoves(flights: seq<Flight>, f: nat, flight: Flight)
    requires f < |flights|
    ensures FlightsLeft(flights[f := flight]) == FlightsLeft(flights) - Left(flights[f].phase) + Left(flight.phase)
  {
    if f == 0 {
      assert flights[f := flight][1..] == flights[1..];
    } else {
      FlightMoves(flights[1..], f - 1, flight);
      assert flights[f := flight][1..] == flights[1..][f - 1 := flight];
    }
  }

  lemma {:induction false} CallReturns(calls: seq<Call>, c: nat)
    requires c < |calls| && !calls[c].returned
    ensures CallsLeft(calls[c := calls[c].(returned := true)]) == CallsLeft(calls) - 1
  {
    var calls' := calls[c := calls[c].(returned := true)];
    if c == 0 {
      assert calls'[1..] == calls[1..];
    } else {
      CallReturns(calls[1..], c - 1);
      assert calls'[1..] == calls[1..][c - 1 := calls[c].(returned := true)];
    }
  }

  /** Every step other than a new arrival uses up one of the steps left. */
  lemma StepsShrink(s: State, a: Action)
    requires Enabled(s, a) && a != Arrive
    ensures FlightsLeft(Apply(s, a).flights) + CallsLeft(Apply(s, a).calls) ==
            FlightsLeft(s.flights) + CallsLeft(s.calls) - 1
  {
    var s' := Apply(s, a);
    if a.Return? {
      CallReturns(s.calls, a.call);
    } else {
      FlightMoves(s.flights, a.flight, s'.flights[a.flight]);
      assert s'.flights == s.flights[a.flight := s'.flights[a.flight]];
    }
  }

  /** While a caller waits, some step other than a new arrival can be taken. */
  lemma NeverStuck(states: seq<State>, actions: seq<Action>, i: nat, c: nat)
    requires Run(states, actions) && i < |states| && c < |states[i].calls| && !states[i].calls[c].returned
    ensures exists a :: a != Arrive && Enabled(states[i], a)
  {
    RunKeeps(states, actions, i);
    var s := states[i];
    var f := s.calls[c].flight;
    if s.flights[f].phase == Finished {
      assert Enabled(s, Return(c));
    } else if s.flights[f].phase == Waiting {
      if s.holder == None {
        assert Enabled(s, Lock(f));
      } else {
        Advances(s, s.holder.value);
      }
    } else {
      Advances(s, f);
    }
  }

  function StepsLeft(s: State): nat {
    FlightsLeft(s.flights) + CallsLeft(s.calls)
  }

  /** From state i on, nobody new calls. */
  ghost predicate NoArrivals(actions: seq<Action>, i: nat) {
    forall j | i <= j < |actions| :: actions[j] != Arrive
  }

  lemma {:induction false} StepsUsed(states: seq<State>, actions: seq<Action>, i: nat, j: nat)
    requires Run(states, actions) && NoArrivals(actions, i) && i <= j < |states|
    ensures StepsLeft(states[j]) == StepsLeft(states[i]) - (j - i)
  {
    if i < j {
      StepsUsed(states, actions, i, j - 1);
      StepsShrink(states[j - 1], actions[j - 1]);
    }
  }

  lemma {:induction false} NobodyLeft(calls: seq<Call>)
    requires CallsLeft(calls) == 0
    ensures forall c | 0 <= c < |calls| :: calls[c].returned
  {
    if calls != [] {
      NobodyLeft(calls[1..]);
      assert forall c | 0 < c < |calls| :: calls[c] == calls[1..][c - 1];
    }
  }

  /** Every caller returns: without new arrivals a run takes no more steps than were
      left, and where it can go no further, or has taken them all, nobody waits. */
  lemma EveryCallReturns(states: seq<State>, actions: seq<Action>, i: nat)
    requires Run(states, actions) && NoArrivals(actions, i) && i <= |actions|
    ensures |actions| - i <= StepsLeft(states[i])
    ensures var last := states[|actions|];
            (forall a | a != Arrive :: !Enabled(last, a)) || |actions| - i == StepsLeft(states[i]) ==>
              forall c | 0 <= c < |last.calls| :: last.calls[c].returned
  {
    var last := states[|actions|];
    StepsUsed(states, actions, i, |actions|);
    if |actions| - i == StepsLeft(states[i]) {
      NobodyLeft(last.calls);
    } else if forall a | a != Arrive :: !Enabled(last, a) {
      forall c | 0 <= c < |last.calls| ensures last.calls[c].returned {
        if !last.calls[c].returned {
          NeverStuck(states, actions, |actions|, c);
        }
      }
    }
  }

  lemma Advances(s: State, f: nat)
    requires f < |s.flights| && s.flights[f].phase != Waiting && s.flights[f].phase != Finished
    ensures exists a :: a != Arrive && Enabled(s, a)
  {
    var a := match s.flights[f].phase
      case Locked => Forget(f)
      case Forgotten => Start(f)
      case Reloading => End(f)
      case Reloaded => Unlock(f)
      case _ => Finish(f);
    assert a != Arrive && Enabled(s, a);
  }
}
