/** First-cause shutdown arbitration, clock tightening, and the phase wait that observes it. */
module Shutdown {
  import opened Wrappers
  import opened Startup

  type Instant = int
  type TaskId = nat
  type Message = string

  /** The latest representable instant, in ticks of the monotone clock. */
  const LATEST: Instant := 0x7fff_ffff_ffff_ffff * 1_000_000_000 + 999_999_999

  datatype Cause =
    | Requested
    | SignalFailed
    | LoopFailure(name: string)
    | DescendantFailure(task: string, id: TaskId)

  const TASK_NAME := "shutdown_signal"

  datatype SignalTrigger =
    | Output(error: Option<Message>)
    | PollPanicked(id: TaskId, message: Message)

  datatype SignalPanic =
    | Poll(message: Message)
    | Destruction(message: Message)
    | PollAndDestruction(pollMessage: Message, destructionMessage: Message)

  function Min(a: Instant, b: Instant): Instant { if a <= b then a else b }

  // ---- what one event does ----------------------------------------------------------------

  /** The mutex-guarded state, and the signal tasks marked as initiating under the same lock. */
  datatype Arbiter = Arbiter(
    request: Option<(Instant, Cause)>,
    signalError: Option<Message>,
    signalPanic: Option<SignalPanic>,
    initiating: set<TaskId>)

  const QUIET := Arbiter(None, None, None, {})

  /** `readAt` is the clock before the lock was taken, `at` the clock under it. */
  datatype Event =
    | Request(started: Instant, readAt: Instant, at: Instant, cause: Cause)
    | Trigger(signal: TaskId, at: Instant, trigger: SignalTrigger)
    | DestructionPanic(at: Instant, message: Message)

  predicate IsStop(e: Event) { !e.DestructionPanic? }

  function CauseOf(e: Event): Cause
    requires IsStop(e)
  {
    match e
    case Request(_, _, _, cause) => cause
    case Trigger(_, _, Output(None)) => Requested
    case Trigger(_, _, Output(Some(_))) => SignalFailed
    case Trigger(_, _, PollPanicked(id, _)) => DescendantFailure(TASK_NAME, id)
  }

  /** When the event says the stop began, clamped to the clock of its request. */
  function StartOf(e: Event): Instant
    requires IsStop(e)
  {
    if e.Request? then Min(e.started, e.readAt) else e.at
  }

  function WithDestruction(p: Option<SignalPanic>, message: Message): SignalPanic {
    match p
    case Some(Poll(m)) => PollAndDestruction(m, message)
    case None => Destruction(message)
    case Some(observed) => observed
  }

  function Apply(a: Arbiter, e: Event): Arbiter {
    match e
    case Request(_, _, _, cause) =>
      a.(request := Some(if a.request.Some?
                         then (Min(a.request.value.0, StartOf(e)), a.request.value.1)
                         else (StartOf(e), cause)))
    case Trigger(signal, at, trigger) =>
      var b := match trigger
               case Output(None) => a
               case Output(Some(m)) =>
                 a.(signalError := if a.signalError.Some? then a.signalError else Some(m))
               case PollPanicked(_, m) => a.(signalPanic := Some(Poll(m)));
      if a.request.Some? then b
      else b.(request := Some((at, CauseOf(e))), initiating := a.initiating + {signal})
    case DestructionPanic(_, m) => a.(signalPanic := Some(WithDestruction(a.signalPanic, m)))
  }

  function Arbitrate(events: seq<Event>): Arbiter {
    if events == [] then QUIET
    else Apply(Arbitrate(events[..|events| - 1]), events[|events| - 1])
  }

  // ---- the code ---------------------------------------------------------------------------

  class SignalTaskState {
    const id: TaskId
    var initiating: bool

    constructor (id: TaskId)
      ensures this.id == id && !initiating
    {
      this.id := id;
      initiating := false;
    }

    method MarkInitiating()
      modifies this
      ensures initiating
    {
      initiating := true;
    }
  }

  class ShutdownSignal {
    var request: Option<(Instant, Cause)>
    var signalError: Option<Message>
    var signalPanic: Option<SignalPanic>
    ghost var initiating: set<TaskId>
    const startup: Initialization
    var flag: bool
    var version: nat

    ghost function View(): Arbiter
      reads this
    {
      Arbiter(request, signalError, signalPanic, initiating)
    }

    constructor (startup: Initialization)
      ensures View() == QUIET && this.startup == startup && !flag && version == 0
    {
      request, signalError, signalPanic, initiating := None, None, None, {};
      this.startup := startup;
      flag, version := false, 0;
    }

    /** Raises the flag and wakes watchers, once whoever sees the flag will see startup stopped. */
    method SendFlag()
      requires startup.state.Stopped?
      modifies this`flag, this`version
      ensures flag && version == old(version) + 1
    {
      flag := true;
      version := version + 1;
    }

    method PublishRequest()
      modifies this`flag, this`version, startup
      ensures flag && version == old(version) + 1 && startup.state.Stopped?
    {
      startup.Stop();
      SendFlag();
    }

    method RequestSince(started: Instant, readAt: Instant, ghost at: Instant, cause: Cause)
      modifies this, startup
      ensures View() == Apply(old(View()), Request(started, readAt, at, cause))
      ensures flag && version == old(version) + 1 && startup.state.Stopped?
    {
      var clamped := Min(started, readAt);
      match request {
        case Some(r) => request := Some((Min(r.0, clamped), r.1));
        case None => request := Some((clamped, cause));
      }
      PublishRequest();
    }

    method RequestAfterSignalTrigger(task: SignalTaskState, trigger: SignalTrigger, now: Instant)
      modifies this, startup, task
      ensures View() == Apply(old(View()), Trigger(task.id, now, trigger))
      ensures task.initiating == (old(task.initiating) || old(request).None?)
      ensures flag && version == old(version) + 1 && startup.state.Stopped?
    {
      var cause: Cause;
      match trigger {
        case Output(None) =>
          cause := Requested;
        case Output(Some(error)) =>
          if signalError.None? {
            signalError := Some(error);
          }
          cause := SignalFailed;
        case PollPanicked(id, message) =>
          signalPanic := Some(Poll(message));
          cause := DescendantFailure(TASK_NAME, id);
      }
      if request.None? {
        task.MarkInitiating();
        initiating := initiating + {task.id};
        request := Some((now, cause));
      }
      PublishRequest();
    }

    method SignalDestructionPanicked(message: Message, ghost at: Instant)
      modifies this`signalPanic
      ensures View() == Apply(old(View()), DestructionPanic(at, message))
    {
      match signalPanic {
        case Some(Poll(pollMessage)) =>
          signalPanic := Some(PollAndDestruction(pollMessage, message));
        case None =>
          signalPanic := Some(Destruction(message));
        case Some(_) =>
      }
    }
  }

  // ---- arbitration over every sequence of events ------------------------------------------

  /** Events are in lock order: the clock under the lock never goes back. */
  ghost predicate LockOrder(events: seq<Event>) {
    && (forall i, j :: 0 <= i < j < |events| ==> events[i].at <= events[j].at)
    && (forall i :: 0 <= i < |events| && events[i].Request? ==> events[i].readAt <= events[i].at)
  }

  ghost predicate IsFirstStop(events: seq<Event>, k: nat) {
    k < |events| && IsStop(events[k]) && forall i :: 0 <= i < k ==> !IsStop(events[i])
  }

  /** `t` is the earliest start any stop event named. */
  ghost predicate IsEarliestStart(events: seq<Event>, t: Instant) {
    && (exists i :: 0 <= i < |events| && IsStop(events[i]) && StartOf(events[i]) == t)
    && (forall i :: 0 <= i < |events| && IsStop(events[i]) ==> t <= StartOf(events[i]))
  }

  /**
   * The cause is the first event's for ever: what a request gives, a plain request for a signal
   * that completes, a failed signal for one that reports an error, and a failed descendant for one
   * that panics. Only a first trigger makes its signal initiating.
   */
  lemma {:induction false} FirstCauseWins(events: seq<Event>, k: nat)
    requires IsFirstStop(events, k)
    ensures var a, e := Arbitrate(events), events[k];
            && a.request.Some?
            && (e.Request? ==> a.request.value.1 == e.cause && a.initiating == {})
            && (e.Trigger? ==>
                  && a.initiating == {e.signal}
                  && match e.trigger
                     case Output(None) => a.request.value.1 == Requested
                     case Output(Some(_)) => a.request.value.1 == SignalFailed
                     case PollPanicked(id, _) =>
                       a.request.value.1 == DescendantFailure("shutdown_signal", id))
  {
    var init := events[..|events| - 1];
    if k == |events| - 1 {
      NoStopNoRequest(init);
    } else {
      assert IsFirstStop(init, k);
      FirstCauseWins(init, k);
    }
  }

  /** Unless a request claims it, a recorded signal failure has its error beside it. */
  lemma {:induction false} SignalFailureHasItsError(events: seq<Event>)
    requires forall i :: 0 <= i < |events| && events[i].Request? ==> events[i].cause != SignalFailed
    ensures var a := Arbitrate(events);
            a.request.Some? && a.request.value.1 == SignalFailed ==> a.signalError.Some?
  {
    if events != [] {
      SignalFailureHasItsError(events[..|events| - 1]);
    }
  }

  lemma {:induction false} NoStopNoRequest(events: seq<Event>)
    requires forall i :: 0 <= i < |events| ==> !IsStop(events[i])
    ensures Arbitrate(events).request.None? && Arbitrate(events).initiating == {}
  {
    if events != [] {
      NoStopNoRequest(events[..|events| - 1]);
    }
  }

  /** The recorded stop time is the earliest clamped start of all stop events. */
  lemma {:induction false} StopTimeIsEarliest(events: seq<Event>)
    requires LockOrder(events)
    ensures var a := Arbitrate(events);
            if a.request.Some? then IsEarliestStart(events, a.request.value.0)
            else forall i :: 0 <= i < |events| ==> !IsStop(events[i])
  {
    if events != [] {
      var init, last := events[..|events| - 1], events[|events| - 1];
      StopTimeIsEarliest(init);
      var a, b := Arbitrate(init), Arbitrate(events);
      assert forall i :: 0 <= i < |init| ==> events[i] == init[i];
      if a.request.Some? {
        var i :| 0 <= i < |init| && IsStop(init[i]) && StartOf(init[i]) == a.request.value.0;
        assert StartOf(events[i]) == a.request.value.0 <= events[i].at <= last.at;
        if IsStop(last) && b.request.value.0 != a.request.value.0 {
          assert b.request.value.0 == StartOf(events[|events| - 1]);
        }
      } else if IsStop(last) {
        assert b.request.value.0 == StartOf(events[|events| - 1]);
      }
    }
  }

  /** No further event, in whatever order, moves the recorded stop later or removes it. */
  lemma {:induction false} StopNeverMovesLater(events: seq<Event>, more: seq<Event>)
    requires Arbitrate(events).request.Some?
    ensures var a, b := Arbitrate(events), Arbitrate(events + more);
            && b.request.Some? && b.request.value.0 <= a.request.value.0
            && b.request.value.1 == a.request.value.1
            && b.initiating == a.initiating
    decreases |more|
  {
    if more == [] {
      assert events + more == events;
    } else {
      var all := events + more;
      assert all[..|all| - 1] == events + more[..|more| - 1];
      StopNeverMovesLater(events, more[..|more| - 1]);
    }
  }

  predicate IsErrorOutput(e: Event) { e.Trigger? && e.trigger.Output? && e.trigger.error.Some? }

  /** The first signal error is kept whatever follows; with one output per signal, every error. */
  lemma {:induction false} SignalErrorIsRetained(events: seq<Event>, k: nat)
    requires k < |events| && IsErrorOutput(events[k])
    requires forall i :: 0 <= i < k ==> !IsErrorOutput(events[i])
    ensures Arbitrate(events).signalError == events[k].trigger.error
  {
    var init := events[..|events| - 1];
    if k < |events| - 1 {
      SignalErrorIsRetained(init, k);
    } else {
      NoErrorOutput(init);
    }
  }

  lemma {:induction false} NoErrorOutput(events: seq<Event>)
    requires forall i :: 0 <= i < |events| ==> !IsErrorOutput(events[i])
    ensures Arbitrate(events).signalError.None?
  {
    if events != [] {
      NoErrorOutput(events[..|events| - 1]);
    }
  }

  predicate IsPollPanic(e: Event) { e.Trigger? && e.trigger.PollPanicked? }

  predicate IsPanic(e: Event) { IsPollPanic(e) || e.DestructionPanic? }

  /** Exactly one poll panic, at `p`, and one destruction panic, at `d`. */
  ghost predicate OnePanicEach(events: seq<Event>, p: nat, d: nat) {
    && p < |events| && IsPollPanic(events[p])
    && d < |events| && events[d].DestructionPanic?
    && forall i :: 0 <= i < |events| && i != p && i != d ==> !IsPanic(events[i])
  }

  lemma {:induction false} NoPanicKeepsPanic(events: seq<Event>, k: nat)
    requires k <= |events| && forall i :: k <= i < |events| ==> !IsPanic(events[i])
    ensures Arbitrate(events).signalPanic == Arbitrate(events[..k]).signalPanic
  {
    if k == |events| {
      assert events[..k] == events;
    } else {
      var init := events[..|events| - 1];
      NoPanicKeepsPanic(init, k);
      assert init[..k] == events[..k];
    }
  }

  /**
   * Both messages survive exactly when the poll panicked before the destruction did, which is
   * the owner's order; the other way round the destruction message is overwritten.
   */
  lemma BothPanicsRetainedIff(events: seq<Event>, p: nat, d: nat)
    requires OnePanicEach(events, p, d)
    ensures var m, n := events[p].trigger.message, events[d].message;
            Arbitrate(events).signalPanic
            == Some(if p < d then PollAndDestruction(m, n) else Poll(m))
  {
    var first, second := (if p < d then p else d), (if p < d then d else p);
    FirstPanic(events[..second], first);
    NoPanicKeepsPanic(events, second + 1);
    assert events[..second + 1][..second] == events[..second];
  }

  /** The evidence of the only panic so far. */
  lemma FirstPanic(events: seq<Event>, k: nat)
    requires k < |events| && IsPanic(events[k])
    requires forall i :: 0 <= i < |events| && i != k ==> !IsPanic(events[i])
    ensures Arbitrate(events).signalPanic
            == Some(if IsPollPanic(events[k]) then Poll(events[k].trigger.message)
                    else Destruction(events[k].message))
  {
    NoPanicKeepsPanic(events, k + 1);
    assert events[..k + 1][..k] == events[..k];
    NoPanicKeepsPanic(events[..k], 0);
    assert events[..k][..0] == [];
  }

  // ---- the phase wait ---------------------------------------------------------------------

  /** Where `phase_elapsed` is; `seen` is the watch version it last marked as seen. */
  datatype Waiter =
    | Looping
    | Marked(seen: nat)
    | Sleeping(seen: nat, started: Instant, deadline: Instant)
    | Returned(at: Instant, started: Instant)

  /**
   * A stop was already requested. `unpublished` requests have updated the clock under the lock
   * and not yet published.
   */
  datatype Phase = Phase(
    earliest: Instant, unpublished: nat, version: nat, now: Instant, waiter: Waiter)

  datatype PhaseStep =
    | Tighten(started: Instant)
    | PublishOne
    | Tick(elapsed: nat)
    | MarkSeen
    | ReadClock
    | Changed
    | Expire

  /** `checked_add`, falling back to the present. */
  function Deadline(started: Instant, allowance: nat, now: Instant): Instant {
    if started + allowance <= LATEST then started + allowance else now
  }

  function PhaseNext(s: Phase, allowance: nat, step: PhaseStep): Phase {
    match step
    case Tighten(started) =>
      s.(earliest := Min(s.earliest, Min(started, s.now)), unpublished := s.unpublished + 1)
    case PublishOne =>
      if s.unpublished == 0 then s
      else s.(unpublished := s.unpublished - 1, version := s.version + 1)
    case Tick(elapsed) =>
      if s.now + elapsed <= LATEST then s.(now := s.now + elapsed) else s
    case MarkSeen => if s.waiter.Looping? then s.(waiter := Marked(s.version)) else s
    case ReadClock =>
      if s.waiter.Marked?
      then s.(waiter := Sleeping(s.waiter.seen, s.earliest, Deadline(s.earliest, allowance, s.now)))
      else s
    case Changed =>
      if s.waiter.Sleeping? && s.version != s.waiter.seen then s.(waiter := Looping) else s
    case Expire =>
      if s.waiter.Sleeping? && s.now >= s.waiter.deadline
      then s.(waiter := Returned(s.now, s.waiter.started)) else s
  }

  function PhaseRun(s: Phase, allowance: nat, steps: seq<PhaseStep>): Phase {
    if steps == [] then s
    else PhaseNext(PhaseRun(s, allowance, steps[..|steps| - 1]), allowance, steps[|steps| - 1])
  }

  /** The waiter enters its loop in any state a request has left behind. */
  ghost predicate PhaseStart(s: Phase) {
    s.waiter.Looping? && s.earliest <= s.now <= LATEST
  }

  predicate Representable(started: Instant, allowance: nat) { started + allowance <= LATEST }

  ghost predicate PhaseInv(s: Phase, allowance: nat) {
    && s.earliest <= s.now <= LATEST
    && match s.waiter
       case Looping => true
       case Marked(seen) => seen <= s.version
       case Sleeping(seen, started, deadline) =>
         && seen <= s.version && s.earliest <= started
         && (s.earliest < started ==> s.unpublished > 0 || seen < s.version)
         && (if Representable(started, allowance)
             then deadline == started + allowance else deadline <= s.now)
       case Returned(at, started) =>
         && s.earliest <= started && at <= s.now
         && (Representable(started, allowance) ==> started + allowance <= at)
  }

  lemma {:induction false} PhaseKeepsInv(s: Phase, allowance: nat, steps: seq<PhaseStep>)
    requires PhaseStart(s)
    ensures PhaseInv(PhaseRun(s, allowance, steps), allowance)
  {
    if steps != [] {
      PhaseKeepsInv(s, allowance, steps[..|steps| - 1]);
    }
  }

  /**
   * No lost tightening: a waiter sleeping past the current earliest stop plus its allowance has
   * a publication it has not seen, or one still to come; with none left it sleeps until exactly
   * that moment.
   */
  lemma NoLostTightening(s: Phase, allowance: nat, steps: seq<PhaseStep>)
    requires PhaseStart(s)
    requires PhaseRun(s, allowance, steps).waiter.Sleeping?
    ensures var t := PhaseRun(s, allowance, steps);
            && (t.waiter.deadline > Deadline(t.earliest, allowance, t.now) ==>
                  t.unpublished > 0 || t.version > t.waiter.seen)
            && (t.unpublished == 0 && t.version == t.waiter.seen ==>
                  t.waiter.started == t.earliest
                  && (Representable(t.earliest, allowance) ==>
                        t.waiter.deadline == t.earliest + allowance))
  {
    PhaseKeepsInv(s, allowance, steps);
  }

  /** Whatever happens, a wait from `s` returns no earlier than the earliest stop plus allowance. */
  ghost predicate NeverReturnsEarly(s: Phase, allowance: nat) {
    forall steps: seq<PhaseStep> ::
      var t := PhaseRun(s, allowance, steps);
      t.waiter.Returned? ==> t.waiter.at >= t.earliest + allowance
  }

  /**
   * A wait never returns early exactly when the deadline of the stop recorded before it began is
   * representable. Otherwise it can return at once.
   */
  lemma NeverReturnsEarlyIff(s: Phase, allowance: nat)
    requires PhaseStart(s)
    ensures NeverReturnsEarly(s, allowance) <==> Representable(s.earliest, allowance)
  {
    if Representable(s.earliest, allowance) {
      forall steps: seq<PhaseStep>
        ensures var t := PhaseRun(s, allowance, steps);
                t.waiter.Returned? ==> t.waiter.at >= t.earliest + allowance
      {
        PhaseKeepsInv(s, allowance, steps);
        EarliestNeverRises(s, allowance, steps);
      }
    } else {
      ReturnsAtOnce(s, allowance);
    }
  }

  /** Nor does the clock reading a waiter acts on. */
  lemma {:induction false} EarliestNeverRises(s: Phase, allowance: nat, steps: seq<PhaseStep>)
    requires PhaseStart(s)
    ensures var t := PhaseRun(s, allowance, steps);
            && t.earliest <= s.earliest
            && (t.waiter.Sleeping? || t.waiter.Returned? ==> t.waiter.started <= s.earliest)
  {
    if steps != [] {
      EarliestNeverRises(s, allowance, steps[..|steps| - 1]);
    }
  }

  lemma ReturnsAtOnce(s: Phase, allowance: nat)
    requires PhaseStart(s) && !Representable(s.earliest, allowance)
    ensures PhaseRun(s, allowance, [MarkSeen, ReadClock, Expire])
            == s.(waiter := Returned(s.now, s.earliest))
    ensures !NeverReturnsEarly(s, allowance)
  {
    PhaseRunSnoc(s, allowance, [], MarkSeen);
    assert [] + [MarkSeen] == [MarkSeen];
    PhaseRunSnoc(s, allowance, [MarkSeen], ReadClock);
    assert [MarkSeen] + [ReadClock] == [MarkSeen, ReadClock];
    PhaseRunSnoc(s, allowance, [MarkSeen, ReadClock], Expire);
    assert [MarkSeen, ReadClock] + [Expire] == [MarkSeen, ReadClock, Expire];
    var t := PhaseRun(s, allowance, [MarkSeen, ReadClock, Expire]);
    assert t.waiter.Returned? && t.waiter.at < t.earliest + allowance;
  }

  lemma PhaseRunSnoc(s: Phase, allowance: nat, steps: seq<PhaseStep>, step: PhaseStep)
    ensures PhaseRun(s, allowance, steps + [step])
            == PhaseNext(PhaseRun(s, allowance, steps), allowance, step)
  {
    assert (steps + [step])[..|steps|] == steps;
  }
}
