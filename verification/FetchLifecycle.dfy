/** Generation-fenced dashboard fetches: one in flight, stale results dropped, requests coalesced. */
module FetchLifecycle {
  import opened Wrappers

  /** Milliseconds between looks at the clock while refreshing is paused. */
  const PAUSED_REFRESH_POLL := 250
  /** `requested_generation` is a `u64` that wraps. */
  const GENERATIONS: nat := 0x1_0000_0000_0000_0000

  type Generation = n: nat | n < 0x1_0000_0000_0000_0000

  datatype State = State(
    requested: Generation,
    inFlight: Option<Generation>,
    applied: Option<Generation>,
    nextRefresh: int,
    lastRefresh: Option<int>,
    lastDuration: Option<nat>)

  function Initial(now: int): State { State(1, None, None, now, None, None) }

  function Requested(s: State): State {
    s.(requested := (s.requested + 1) % GENERATIONS)
  }

  /** A requested generation that no fetch is carrying and no result has satisfied. */
  predicate HasPending(s: State) {
    match s.inFlight
    case Some(g) => s.requested != g
    case None => s.applied != Some(s.requested)
  }

  function AutoRefreshed(s: State, now: int, paused: bool, interval: nat): State {
    if now < s.nextRefresh then s
    else if paused then s.(nextRefresh := now + PAUSED_REFRESH_POLL)
    else if HasPending(s) then s.(nextRefresh := now + interval)
    else if s.inFlight.None? then Requested(s).(nextRefresh := now + interval)
    else s
  }

  predicate CanStart(s: State) { s.inFlight.None? && s.applied != Some(s.requested) }

  function Started(s: State): State {
    if CanStart(s) then s.(inFlight := Some(s.requested)) else s
  }

  /** Whether the result of generation `g` reaches the screen. */
  predicate Applies(s: State, g: Generation) { s.inFlight == Some(g) && s.requested == g }

  function Completed(s: State, g: Generation, duration: nat): State {
    if s.inFlight != Some(g) then s
    else if s.requested != g then s.(inFlight := None)
    else s.(inFlight := None, applied := Some(g), lastDuration := Some(duration))
  }

  class Lifecycle {
    var requestedGeneration: Generation
    var inFlightGeneration: Option<Generation>
    var appliedGeneration: Option<Generation>
    var nextRefresh: int
    var lastRefresh: Option<int>
    var lastFetchDuration: Option<nat>

    function View(): State
      reads this
    {
      State(requestedGeneration, inFlightGeneration, appliedGeneration,
            nextRefresh, lastRefresh, lastFetchDuration)
    }

    constructor (now: int)
      ensures View() == Initial(now)
    {
      requestedGeneration := 1;
      inFlightGeneration, appliedGeneration := None, None;
      nextRefresh := now;
      lastRefresh, lastFetchDuration := None, None;
    }

    method RequestRefresh()
      modifies this`requestedGeneration
      ensures View() == Requested(old(View()))
    {
      requestedGeneration := (requestedGeneration + 1) % GENERATIONS;
    }

    method ScheduleAutoRefresh(now: int, refreshPaused: bool, refreshInterval: nat)
      modifies this`requestedGeneration, this`nextRefresh
      ensures View() == AutoRefreshed(old(View()), now, refreshPaused, refreshInterval)
      ensures inFlightGeneration.Some? ==> requestedGeneration == old(requestedGeneration)
    {
      if now < nextRefresh {
        return;
      }
      if refreshPaused {
        nextRefresh := now + PAUSED_REFRESH_POLL;
        return;
      }
      var pendingGeneration :=
        match inFlightGeneration
        case Some(g) => requestedGeneration != g
        case None => appliedGeneration != Some(requestedGeneration);
      if pendingGeneration {
        nextRefresh := now + refreshInterval;
      } else if inFlightGeneration.None? {
        RequestRefresh();
        nextRefresh := now + refreshInterval;
      }
    }

    method StartFetch() returns (generation: Option<Generation>)
      modifies this`inFlightGeneration
      ensures View() == Started(old(View()))
      ensures generation ==
              if CanStart(old(View())) then Some(old(requestedGeneration)) else None
    {
      if inFlightGeneration.Some? || appliedGeneration == Some(requestedGeneration) {
        return None;
      }
      inFlightGeneration := Some(requestedGeneration);
      generation := Some(requestedGeneration);
    }

    method CompleteFetch<O>(generation: Generation, outcome: O, duration: nat)
      returns (shown: Option<O>)
      modifies this`inFlightGeneration, this`appliedGeneration, this`lastFetchDuration
      ensures View() == Completed(old(View()), generation, duration)
      ensures shown == if Applies(old(View()), generation) then Some(outcome) else None
    {
      if inFlightGeneration != Some(generation) {
        return None;
      }
      inFlightGeneration := None;
      if requestedGeneration != generation {
        return None;
      }
      appliedGeneration := Some(generation);
      lastFetchDuration := Some(duration);
      shown := Some(outcome);
    }

    method RecordRefresh(now: int)
      modifies this`lastRefresh
      ensures View() == old(View()).(lastRefresh := Some(now))
    {
      lastRefresh := Some(now);
    }
  }

  // ---- every run of the terminal loop -----------------------------------------------------

  /** One spawned fetch; `epoch` is the unwrapped number of requests made before it began. */
  datatype Flight = Flight(generation: Generation, epoch: nat)

  /**
   * The lifecycle with its spawned workers. The rest is history: the number of requests ever
   * made, the number of fetches ever spawned, and the epochs whose results were shown.
   */
  datatype System = System(
    life: State, workers: seq<Flight>, epoch: nat, starts: nat, shown: seq<nat>)

  datatype Step =
    | Request
    | Auto(now: int, paused: bool, interval: nat)
    | Start
    | Finish(duration: nat)

  function Boot(now: int): System { System(Initial(now), [], 0, 0, []) }

  function Next(s: System, step: Step): System {
    match step
    case Request => s.(life := Requested(s.life), epoch := s.epoch + 1)
    case Auto(now, paused, interval) =>
      var life := AutoRefreshed(s.life, now, paused, interval);
      s.(life := life,
         epoch := if life.requested != s.life.requested then s.epoch + 1 else s.epoch)
    case Start =>
      if CanStart(s.life)
      then s.(life := Started(s.life),
              workers := s.workers + [Flight(s.life.requested, s.epoch)],
              starts := s.starts + 1)
      else s
    case Finish(duration) =>
      if s.workers == [] then s
      else
        var f := s.workers[0];
        s.(life := Completed(s.life, f.generation, duration),
           workers := s.workers[1..],
           shown := if Applies(s.life, f.generation) then s.shown + [f.epoch] else s.shown)
  }

  function Run(s: System, steps: seq<Step>): System
    decreases |steps|
  {
    if steps == [] then s else Run(Next(s, steps[0]), steps[1..])
  }

  ghost predicate Inv(s: System) {
    && s.life.requested == (1 + s.epoch) % GENERATIONS
    && |s.workers| <= 1
    && s.life.inFlight == (if s.workers == [] then None else Some(s.workers[0].generation))
    && (forall f :: f in s.workers ==>
          && f.epoch <= s.epoch
          && f.generation == (1 + f.epoch) % GENERATIONS
          && (s.shown != [] ==> s.shown[|s.shown| - 1] < f.epoch))
    && (forall i, j :: 0 <= i < j < |s.shown| ==> s.shown[i] < s.shown[j])
    && (s.shown == [] ==> s.life.applied == None)
    && (s.shown != [] ==>
          && s.shown[|s.shown| - 1] <= s.epoch
          && s.life.applied == Some((1 + s.shown[|s.shown| - 1]) % GENERATIONS))
  }

  lemma NextKeepsInv(s: System, step: Step)
    requires Inv(s)
    ensures Inv(Next(s, step))
  {
    match step
    case Request => RequestKeepsInv(s, s.life.nextRefresh);
    case Auto(now, paused, interval) =>
      assert (s.life.requested + 1) % GENERATIONS != s.life.requested;
      RequestKeepsInv(s, AutoRefreshed(s.life, now, paused, interval).nextRefresh);
    case Start =>
    case Finish(_) => FinishKeepsInv(s, step);
  }

  lemma RequestKeepsInv(s: System, nextRefresh: int)
    requires Inv(s)
    ensures Inv(s.(life := s.life.(nextRefresh := nextRefresh)))
    ensures Inv(s.(life := Requested(s.life).(nextRefresh := nextRefresh), epoch := s.epoch + 1))
  {
    assert Requested(s.life).requested == (1 + (s.epoch + 1)) % GENERATIONS by {
      NextResidue(s.epoch);
    }
  }

  lemma NextResidue(n: nat)
    ensures ((1 + n) % GENERATIONS + 1) % GENERATIONS == (1 + (n + 1)) % GENERATIONS
  {
  }

  lemma FinishKeepsInv(s: System, step: Step)
    requires Inv(s) && step.Finish?
    ensures Inv(Next(s, step))
  {
    if s.workers != [] {
      assert s.workers[0] in s.workers;
    }
  }

  lemma {:induction false} RunKeepsInv(s: System, steps: seq<Step>)
    requires Inv(s)
    ensures Inv(Run(s, steps))
    decreases |steps|
  {
    if steps != [] {
      NextKeepsInv(s, steps[0]);
      RunKeepsInv(Next(s, steps[0]), steps[1..]);
    }
  }

  /**
   * In every run at most one fetch is in flight, its generation is the recorded one, and no
   * generation is shown twice or after a later one.
   */
  lemma EveryRunIsFenced(now: int, steps: seq<Step>)
    ensures var s := Run(Boot(now), steps);
            && |s.workers| <= 1
            && (s.life.inFlight.Some? <==> |s.workers| == 1)
            && (forall i, j :: 0 <= i < j < |s.shown| ==> s.shown[i] < s.shown[j])
  {
    RunKeepsInv(Boot(now), steps);
  }

  // ---- the timer --------------------------------------------------------------------------

  /** The timer is due, and refreshing is not paused. */
  predicate IsTimely(s: System, step: Step) {
    step.Auto? && step.now >= s.life.nextRefresh && !step.paused
  }

  /**
   * An idle dashboard refreshes itself: when the timer is due, nothing is in flight and nothing
   * waits, a tick makes exactly one request, a fetch of it can start, and the deadline moves on.
   */
  lemma IdleTimerRequests(s: System, step: Step)
    requires Inv(s) && IsTimely(s, step) && s.workers == [] && !CanStart(s.life)
    ensures var t := Next(s, step);
            && t.epoch == s.epoch + 1 && CanStart(t.life)
            && t.life.nextRefresh == step.now + step.interval
            && t.workers == [] && t.shown == s.shown && t.starts == s.starts
            && var u := Next(t, Start);
               u.starts == s.starts + 1 && |u.workers| == 1 && u.workers[0].epoch == s.epoch + 1
  {
    assert (s.life.requested + 1) % GENERATIONS != s.life.requested;
  }

  /** In every other state a tick requests nothing; it only moves its deadline, or nothing at all. */
  lemma BusyTimerOnlyWaits(s: System, step: Step)
    requires Inv(s) && step.Auto?
    requires !(IsTimely(s, step) && s.workers == [] && !CanStart(s.life))
    ensures var t := Next(s, step);
            && t == s.(life := s.life.(nextRefresh := t.life.nextRefresh))
            && t.life.nextRefresh
               == (if step.now < s.life.nextRefresh then s.life.nextRefresh
                   else if step.paused then step.now + 250
                   else if s.workers != [] && s.workers[0].generation == s.life.requested
                   then s.life.nextRefresh
                   else step.now + step.interval)
  {
  }

  lemma SameResidue(a: nat, b: nat)
    requires a <= b
    ensures (1 + a) % GENERATIONS == (1 + b) % GENERATIONS <==> (b - a) % GENERATIONS == 0
  {
  }

  /**
   * A finished fetch is shown exactly when the number of requests made while it ran is a
   * multiple of 2^64; below 2^64 requests a flight, exactly when there was none.
   */
  lemma ShownExactlyWhenCurrent(now: int, steps: seq<Step>, duration: nat)
    requires Run(Boot(now), steps).workers != []
    ensures var s := Run(Boot(now), steps);
            var f := s.workers[0];
            var after := Next(s, Finish(duration));
            && f.epoch <= s.epoch
            && after.workers == []
            && (after.shown == s.shown + [f.epoch] <==> (s.epoch - f.epoch) % GENERATIONS == 0)
            && (s.epoch - f.epoch < GENERATIONS ==>
                  (after.shown == s.shown + [f.epoch] <==> s.epoch == f.epoch))
            && (if (s.epoch - f.epoch) % GENERATIONS == 0
                then after.life.applied == Some(f.generation)
                     && after.life.lastDuration == Some(duration)
                else after.life.applied == s.life.applied
                     && after.life.lastDuration == s.life.lastDuration)
  {
    RunKeepsInv(Boot(now), steps);
    var s := Run(Boot(now), steps);
    assert s.workers[0] in s.workers;
    SameResidue(s.workers[0].epoch, s.epoch);
  }

  /**
   * With nothing in flight, a fetch starts exactly when no result was ever shown or the number
   * of requests since the last shown result is not a multiple of 2^64.
   */
  lemma StartsExactlyWhenUnseen(now: int, steps: seq<Step>)
    requires Run(Boot(now), steps).workers == []
    ensures var s := Run(Boot(now), steps);
            && (s.shown != [] ==> s.shown[|s.shown| - 1] <= s.epoch)
            && (Next(s, Start).starts == s.starts + 1 <==>
                  (s.shown == [] || (s.epoch - s.shown[|s.shown| - 1]) % GENERATIONS != 0))
  {
    RunKeepsInv(Boot(now), steps);
    var s := Run(Boot(now), steps);
    if s.shown != [] {
      SameResidue(s.shown[|s.shown| - 1], s.epoch);
    }
  }

  function RequestsIn(steps: seq<Step>): nat {
    if steps == [] then 0 else (if steps[0].Request? then 1 else 0) + RequestsIn(steps[1..])
  }

  /** While a fetch runs, only explicit requests move the generation and nothing else starts. */
  lemma {:induction false} DuringOneFlight(s: System, steps: seq<Step>)
    requires Inv(s) && s.workers != []
    requires forall step :: step in steps ==> !step.Finish?
    ensures var t := Run(s, steps);
            && t.workers == s.workers && t.starts == s.starts && t.shown == s.shown
            && t.epoch == s.epoch + RequestsIn(steps)
    decreases |steps|
  {
    if steps != [] {
      NextKeepsInv(s, steps[0]);
      DuringOneFlight(Next(s, steps[0]), steps[1..]);
    }
  }

  /** No request and no start: timer ticks, and looks for results that are not there. */
  ghost predicate OnlyWaits(steps: seq<Step>) {
    forall step :: step in steps ==> step.Auto? || step.Finish?
  }

  /** No request and no result: timer ticks, and attempts to start. */
  ghost predicate OnlyTicks(steps: seq<Step>) {
    forall step :: step in steps ==> step.Auto? || step.Start?
  }

  /** While a wanted generation waits for its fetch, the timer moves nothing but its deadline. */
  lemma {:induction false} WaitingKeepsPending(t: System, ticks: seq<Step>)
    requires t.workers == [] && CanStart(t.life) && OnlyWaits(ticks)
    ensures var a := Run(t, ticks);
            a == t.(life := t.life.(nextRefresh := a.life.nextRefresh))
    decreases |ticks|
  {
    if ticks != [] {
      WaitingKeepsPending(Next(t, ticks[0]), ticks[1..]);
    }
  }

  /** Everything up to the end of the next flight. */
  function NextFlight(t: System, ticks: seq<Step>, running: seq<Step>, e: nat): System {
    Next(Run(Next(Run(t, ticks), Start), running), Finish(e))
  }

  /** From `t` to `u` one fetch was started and shown, and nothing is left to start. */
  predicate OneFetchShown(t: System, u: System) {
    u.starts == t.starts + 1 && u.shown == t.shown + [t.epoch] && !CanStart(u.life)
  }

  /** A generation that can start costs one fetch, and its result is shown. */
  lemma PendingCostsOneFetch(t: System, ticks: seq<Step>, running: seq<Step>, e: nat)
    requires Inv(t) && t.workers == [] && CanStart(t.life)
    requires OnlyWaits(ticks) && OnlyTicks(running)
    ensures OneFetchShown(t, NextFlight(t, ticks, running, e))
  {
    WaitingKeepsPending(t, ticks);
    RunKeepsInv(t, ticks);
    var b := Next(Run(t, ticks), Start);
    NextKeepsInv(Run(t, ticks), Start);
    assert b.workers == [Flight(t.life.requested, t.epoch)];
    NoRequests(running);
    DuringOneFlight(b, running);
    RunKeepsInv(b, running);
    CurrentResultEndsTheWork(Run(b, running), e);
  }

  lemma {:induction false} NoRequests(steps: seq<Step>)
    requires forall step :: step in steps ==> !step.Request?
    ensures RequestsIn(steps) == 0
  {
    if steps != [] {
      NoRequests(steps[1..]);
    }
  }

  lemma CurrentResultEndsTheWork(r: System, d: nat)
    requires Inv(r) && r.workers != [] && r.workers[0].epoch == r.epoch
    ensures var t := Next(r, Finish(d));
            t.shown == r.shown + [r.epoch] && t.starts == r.starts && !CanStart(t.life)
  {
    assert r.workers[0] in r.workers;
  }

  /** An outdated result is dropped, and the newest generation can start. */
  lemma StaleResultIsDropped(r: System, d: nat)
    requires Inv(r) && r.workers != []
    requires 0 < r.epoch - r.workers[0].epoch < GENERATIONS
    requires r.shown != [] ==> r.epoch < r.shown[|r.shown| - 1] + GENERATIONS
    ensures var t := Next(r, Finish(d));
            && t.workers == [] && t.shown == r.shown && t.starts == r.starts && t.epoch == r.epoch
            && CanStart(t.life)
  {
    assert r.workers[0] in r.workers;
    SameResidue(r.workers[0].epoch, r.epoch);
    if r.shown != [] {
      SameResidue(r.shown[|r.shown| - 1], r.epoch);
    }
  }

  /**
   * Any number of requests during one flight costs exactly one further fetch, as long as fewer
   * than 2^64 were made since the last shown result: the running result is dropped and, however
   * the timer ticks before and during it, one fetch of the newest generation starts and is shown,
   * and then nothing is left to start. Without a request the running result itself is shown.
   */
  lemma RequestsCoalesce(
      s: System, during: seq<Step>, d: nat, ticks: seq<Step>, running: seq<Step>, e: nat)
    requires Inv(s) && s.workers != [] && s.workers[0].epoch == s.epoch
    requires forall step :: step in during ==> !step.Finish?
    requires RequestsIn(during) < GENERATIONS && OnlyWaits(ticks) && OnlyTicks(running)
    requires s.shown != [] ==>
               s.epoch + RequestsIn(during) < s.shown[|s.shown| - 1] + GENERATIONS
    ensures var t := Next(Run(s, during), Finish(d));
            if RequestsIn(during) == 0
            then t.shown == s.shown + [s.epoch] && !CanStart(t.life)
            else
              && t.shown == s.shown && t.starts == s.starts
              && t.epoch == s.epoch + RequestsIn(during)
              && OneFetchShown(t, NextFlight(t, ticks, running, e))
  {
    FlightEnds(s, during, d);
    if RequestsIn(during) != 0 {
      PendingCostsOneFetch(Next(Run(s, during), Finish(d)), ticks, running, e);
    }
  }

  /** What one flight leaves, with and without requests made meanwhile. */
  lemma FlightEnds(s: System, during: seq<Step>, d: nat)
    requires Inv(s) && s.workers != [] && s.workers[0].epoch == s.epoch
    requires forall step :: step in during ==> !step.Finish?
    requires RequestsIn(during) < GENERATIONS
    requires s.shown != [] ==>
               s.epoch + RequestsIn(during) < s.shown[|s.shown| - 1] + GENERATIONS
    ensures var t := Next(Run(s, during), Finish(d));
            && Inv(t) && t.workers == [] && t.starts == s.starts
            && t.epoch == s.epoch + RequestsIn(during)
            && (if RequestsIn(during) == 0
                then t.shown == s.shown + [s.epoch] && !CanStart(t.life)
                else t.shown == s.shown && CanStart(t.life))
  {
    DuringOneFlight(s, during);
    RunKeepsInv(s, during);
    var r := Run(s, during);
    NextKeepsInv(r, Finish(d));
    if RequestsIn(during) == 0 {
      CurrentResultEndsTheWork(r, d);
    } else {
      StaleResultIsDropped(r, d);
    }
  }
}
