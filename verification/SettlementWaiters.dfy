/**
 * The loops that wait on the registry: `wait` until it is empty, `observe_until_stop` until
 * shutdown is requested. Whatever else runs, a parked loop misses neither the last retirement nor
 * a completion that is ready to be collected.
 */
module SettlementWaiters {
  import opened Settlement
  import opened SettlementWakes

  datatype Goal = UntilEmpty | UntilStop

  /** Where the loop is. Collecting, it holds the registry lock. */
  datatype Waiter = Looping | Listening | Collects | Checking | Parked | Returned

  /**
   * The registry with one waiter. `notifying` wakes have been pushed and have yet to notify;
   * `changed` says that the collector at work has retired something; `notified` that the waiter's
   * current notification has fired; `outside` that a stop was requested by someone else.
   */
  datatype World = World(
    state: State, notifying: multiset<WakeId>, changed: bool,
    waiter: Waiter, notified: bool, outside: bool)

  datatype Move =
    | Other(step: Step)
    | NotifyPushed(wake: WakeId)
    | Listen
    | Collect
    | Check
    | Resume

  function Start(supervised: bool): World {
    World(Boot(supervised), multiset{}, false, Looping, false, false)
  }

  /** Any step of anyone; the waiter's own collector goes through its steps here too. */
  ghost function AfterStep(v: World, step: Step): World
    requires Enabled(v.state, step)
  {
    var next := v.(state := Next(v.state, step));
    match step
    case Push(w) => next.(notifying := v.notifying + multiset{w})
    case TakeBatch(_, _) => next.(changed := false)
    case RetireOne => next.(changed := true)
    case FinishCollect =>
      next.(notified := v.notified || v.changed,
            waiter := if v.waiter.Collects? then Checking else v.waiter)
    case Request => next.(outside := true)
    case RequestBySignal(_) => next.(outside := true)
    case _ => next
  }

  predicate IsReached(s: State, goal: Goal) {
    match goal
    case UntilEmpty => s.entries == map[]
    case UntilStop => s.stop
  }

  /** A move that cannot happen does not. */
  ghost function AfterMove(v: World, goal: Goal, move: Move): World {
    match move
    case Other(step) => if Enabled(v.state, step) then AfterStep(v, step) else v
    case NotifyPushed(w) =>
      if w in v.notifying then v.(notifying := v.notifying - multiset{w}, notified := true) else v
    case Listen => if v.waiter.Looping? then v.(waiter := Listening, notified := false) else v
    case Collect =>
      if v.waiter.Listening? && Enabled(v.state, TakeBatch(false, []))
      then AfterStep(v, TakeBatch(false, [])).(waiter := Collects)
      else v
    case Check =>
      if v.waiter.Checking? && v.state.collector.Idle?
      then v.(waiter := if IsReached(v.state, goal) then Returned else Parked)
      else v
    case Resume => if v.waiter.Parked? && v.notified then v.(waiter := Looping) else v
  }

  ghost function AfterMoves(v: World, goal: Goal, moves: seq<Move>): World
    decreases |moves|
  {
    if moves == [] then v else AfterMoves(AfterMove(v, goal, moves[0]), goal, moves[1..])
  }

  // ---- the invariant ----------------------------------------------------------------------

  predicate IsPastTake(waiter: Waiter) {
    waiter.Collects? || waiter.Checking? || waiter.Parked?
  }

  /** The collector at work will notify when it is done. */
  predicate WillNotify(v: World) { v.state.collector.Collecting? && v.changed }

  ghost predicate WaiterInv(v: World, goal: Goal) {
    && NotificationInv(v.state)
    && (v.waiter.Collects? ==> v.state.collector.Collecting?)
    && (IsPastTake(v.waiter) && !v.notified ==> ReadyIsNotifying(v))
    && (v.waiter.Parked? && !v.notified && !WillNotify(v) ==>
          match goal
          case UntilEmpty => v.state.entries != map[]
          case UntilStop => v.state.stop ==> v.outside)
  }

  /** Every queued wake still has its notification to come. */
  ghost predicate ReadyIsNotifying(v: World) {
    forall w :: w in v.state.signal.ready ==> w in v.notifying
  }

  lemma ReadyStepKept(v: World, step: Step)
    requires ReadyIsNotifying(v) && Enabled(v.state, step)
    ensures ReadyIsNotifying(AfterStep(v, step))
  {
    if IsUnrelated(step) {
      UnrelatedShape(v.state, step);
    } else if step.Push? {
      assert AfterStep(v, step).state.signal.ready == v.state.signal.ready + [step.wake];
    } else {
      assert Next(v.state, step).signal.ready == v.state.signal.ready || step.TakeBatch?;
    }
  }

  /** Only retiring takes entries away, and only retiring or a request asks for a stop. */
  lemma GoalStepKept(s: State, step: Step)
    requires Enabled(s, step) && !step.RetireOne?
    ensures s.entries != map[] ==> Next(s, step).entries != map[]
    ensures !step.Request? && !step.RequestBySignal? ==> Next(s, step).stop == s.stop
  {
    if s.entries != map[] {
      var id :| id in s.entries;
      if IsUnrelated(step) {
        UnrelatedShape(s, step);
      }
      assert id in Next(s, step).entries;
    }
  }

  lemma StepKeepsWaiter(v: World, goal: Goal, step: Step)
    requires WaiterInv(v, goal) && Enabled(v.state, step)
    ensures WaiterInv(AfterStep(v, step), goal)
  {
    NotificationKept(v.state, step);
    if IsPastTake(v.waiter) && !v.notified {
      ReadyStepKept(v, step);
    }
    if !step.RetireOne? {
      GoalStepKept(v.state, step);
    }
    CollectorIsHeld(v.state, step);
  }

  /** A collector goes on until it finishes, and only its first step starts one. */
  lemma CollectorIsHeld(s: State, step: Step)
    requires Enabled(s, step)
    ensures s.collector.Collecting? && !step.FinishCollect? ==> Next(s, step).collector.Collecting?
    ensures s.collector.Idle? && !step.TakeBatch? ==> Next(s, step).collector.Idle?
  {
    if IsUnrelated(step) {
      UnrelatedShape(s, step);
    }
  }

  lemma MoveKeepsWaiter(v: World, goal: Goal, move: Move)
    requires WaiterInv(v, goal)
    ensures WaiterInv(AfterMove(v, goal, move), goal)
  {
    match move
    case Other(step) =>
      if Enabled(v.state, step) {
        StepKeepsWaiter(v, goal, step);
      }
    case Collect =>
      if v.waiter.Listening? && Enabled(v.state, TakeBatch(false, [])) {
        NotificationKept(v.state, TakeBatch(false, []));
      }
    case _ =>
  }

  lemma {:induction false} MovesKeepWaiter(v: World, goal: Goal, moves: seq<Move>)
    requires WaiterInv(v, goal)
    ensures WaiterInv(AfterMoves(v, goal, moves), goal)
    decreases |moves|
  {
    if moves != [] {
      MoveKeepsWaiter(v, goal, moves[0]);
      MovesKeepWaiter(AfterMove(v, goal, moves[0]), goal, moves[1..]);
    }
  }

  lemma EveryWaiterIsSound(supervised: bool, goal: Goal, moves: seq<Move>)
    ensures WaiterInv(AfterMoves(Start(supervised), goal, moves), goal)
  {
    BootNotification(supervised);
    MovesKeepWaiter(Start(supervised), goal, moves);
  }

  // ---- no missed notification -------------------------------------------------------------

  /**
   * `wait` misses no last retirement: while no collector is at work, a loop parked on a
   * notification that has not fired has an entry left to wait for.
   */
  lemma ParkedWaitHasEntries(supervised: bool, moves: seq<Move>)
    requires var v := AfterMoves(Start(supervised), UntilEmpty, moves);
             v.waiter.Parked? && !v.notified && v.state.collector.Idle?
    ensures AfterMoves(Start(supervised), UntilEmpty, moves).state.entries != map[]
  {
    EveryWaiterIsSound(supervised, UntilEmpty, moves);
  }

  /**
   * Neither loop sleeps through a completion: once nothing is under way, every entry left while
   * it is parked is still running, so the retirement it waits for is still to come.
   */
  lemma ParkedLoopSleepsThroughNothing(
      supervised: bool, goal: Goal, moves: seq<Move>, w: WakeId)
    requires var v := AfterMoves(Start(supervised), goal, moves);
             && v.waiter.Parked? && !v.notified && v.state.collector.Idle?
             && w !in v.notifying && Live(v.state, w)
             && w !in v.state.signal.owed && w !in v.state.signal.pushing
             && (w in v.state.tasks.finished ==> w !in v.state.signal.registered)
    ensures w !in AfterMoves(Start(supervised), goal, moves).state.tasks.finished
  {
    EveryWaiterIsSound(supervised, goal, moves);
    var v := AfterMoves(Start(supervised), goal, moves);
    assert WakeInv(v.state, w);
    MultisetHas(v.state.signal.ready, w);
  }

  /**
   * `observe_until_stop` misses no stop that retiring a task requests; for a stop requested by
   * someone else its caller needs another watch.
   */
  lemma ParkedObserverMissesNoFailure(supervised: bool, moves: seq<Move>)
    requires var v := AfterMoves(Start(supervised), UntilStop, moves);
             && v.waiter.Parked? && !v.notified && v.state.collector.Idle? && !v.outside
    ensures !AfterMoves(Start(supervised), UntilStop, moves).state.stop
  {
    EveryWaiterIsSound(supervised, UntilStop, moves);
  }
}
