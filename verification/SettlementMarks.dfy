/**
 * Which tasks an abort reaches, from both sides: what marks an entry, what never does, and the
 * tasks that run because nobody asked for them to stop.
 */
module SettlementMarks {
  import opened Wrappers
  import opened Settlement
  import opened SettlementWakes
  import opened SettlementAbort

  /** The signal that initiated the shutdown is exempt from the graceful phase. */
  predicate IsExempt(kind: EntryKind, initiating: set<SignalId>) {
    !kind.Task? && kind.signal in initiating
  }

  function KindOf(s: State, w: WakeId): EntryKind
    requires Live(s, w)
  {
    s.entries[s.tasks.owners[w]].kind
  }

  /** The steps that abort a live entry. */
  predicate Marks(s: State, step: Step, w: WakeId)
    requires Live(s, w)
  {
    match step
    case AbortJoin(v) => v == w
    case Start(v) =>
      v == w && (s.mode.All?
                 || (s.mode.AfterGracefulTimeout? && !IsExempt(KindOf(s, w), s.initiating)))
    case Abort(m) =>
      w !in s.tasks.finished
      && (s.mode.All? || m.All?
          || ((s.mode.AfterGracefulTimeout? || m.AfterGracefulTimeout?)
              && !IsExempt(KindOf(s, w), s.initiating)))
    case _ => false
  }

  /** The mode after a step: the higher of the two after an abort, otherwise unchanged. */
  lemma ModeAfter(s: State, step: Step)
    requires Enabled(s, step)
    ensures var mode := Next(s, step).mode;
            if step.Abort?
            then (mode == s.mode || mode == step.mode)
                 && Rank(mode) >= Rank(s.mode) && Rank(mode) >= Rank(step.mode)
            else mode == s.mode
  {
    if IsProtocol(step) {
      ProtocolShape(s, step);
    }
  }

  /** A step marks and aborts exactly the entries it is for; all other marks stay as they are. */
  lemma MarksExactly(s: State, step: Step, w: WakeId)
    requires NotificationInv(s) && Enabled(s, step)
    requires w < |s.tasks.owners| && Live(Next(s, step), w)
    ensures var t := Next(s, step);
            && Live(s, w)
            && (t.entries[t.tasks.owners[w]].aborted <==>
                  s.entries[s.tasks.owners[w]].aborted || Marks(s, step, w))
            && (w in t.tasks.abortSent <==> w in s.tasks.abortSent || Marks(s, step, w))
  {
    StepExtends(s, step);
    if IsProtocol(step) {
      ProtocolShape(s, step);
    } else if step.Abort? {
      SweepMarksExactly(s, step.mode, w);
    } else if step.Start? {
      StartMarksExactly(s, step.wake, w);
    } else if step.Track? || step.Spawn? {
      assert Next(s, step).tasks.owners[w] == s.tasks.owners[w];
    }
  }

  lemma StartMarksExactly(s: State, v: WakeId, w: WakeId)
    requires Live(s, w)
    ensures var t := Started(s, v);
            && Live(t, w)
            && (t.entries[t.tasks.owners[w]].aborted <==>
                  s.entries[s.tasks.owners[w]].aborted || Marks(s, Start(v), w))
            && (w in t.tasks.abortSent <==> w in s.tasks.abortSent || Marks(s, Start(v), w))
  {
  }

  lemma SweepMarksExactly(s: State, mode: AbortMode, w: WakeId)
    requires NotificationInv(s) && Live(s, w)
    ensures var t := Aborted(s, mode);
            && Live(t, w)
            && (t.entries[t.tasks.owners[w]].aborted <==>
                  s.entries[s.tasks.owners[w]].aborted || Marks(s, Abort(mode), w))
            && (w in t.tasks.abortSent <==> w in s.tasks.abortSent || Marks(s, Abort(mode), w))
  {
    var t := Aborted(s, mode);
    var id := s.tasks.owners[w];
    assert t.entries[id] == Swept(s, t.mode, s.entries[id]);
    if w in SentTo(s, t.mode, s.entries.Keys) {
      var other :| other in s.entries && Sweeps(s, t.mode, s.entries[other])
                   && s.entries[other].wake == w;
      assert other == id;
    } else {
      assert !Sweeps(s, t.mode, s.entries[id]);
    }
  }

  // ---- runs without an abort --------------------------------------------------------------

  ghost predicate NothingAborted(s: State) {
    && s.mode == NoAbort && s.tasks.abortSent == {} && s.tasks.withheld == {}
    && forall id :: id in s.entries ==> !s.entries[id].aborted
  }

  lemma StepAbortsNothing(s: State, step: Step)
    requires NotificationInv(s) && NothingAborted(s) && Enabled(s, step)
    requires !step.Abort? && !step.AbortJoin?
    ensures NothingAborted(Next(s, step))
    ensures step.Start? ==> step.wake in Next(s, step).tasks.released
  {
    if IsProtocol(step) {
      ProtocolShape(s, step);
    }
  }

  lemma {:induction false} RunAbortsNothing(s: State, steps: seq<Step>)
    requires NotificationInv(s) && NothingAborted(s)
    requires forall step :: step in steps ==> !step.Abort? && !step.AbortJoin?
    ensures NotificationInv(Run(s, steps)) && NothingAborted(Run(s, steps))
    decreases |steps|
  {
    if steps != [] {
      if Enabled(s, steps[0]) {
        NotificationKept(s, steps[0]);
        StepAbortsNothing(s, steps[0]);
        RunAbortsNothing(Next(s, steps[0]), steps[1..]);
      } else {
        RunAbortsNothing(s, steps[1..]);
      }
    }
  }

  /**
   * In a run in which nobody asks for an abort no task is marked, aborted or withheld, and every
   * spawned task is released as soon as its start is decided.
   */
  lemma UnaskedTasksRun(supervised: bool, steps: seq<Step>)
    requires forall step :: step in steps ==> !step.Abort? && !step.AbortJoin?
    ensures var s := Run(Boot(supervised), steps);
            && NothingAborted(s)
            && forall w: WakeId :: Enabled(s, Start(w)) ==> w in Next(s, Start(w)).tasks.released
  {
    BootNotification(supervised);
    RunAbortsNothing(Boot(supervised), steps);
    var s := Run(Boot(supervised), steps);
    forall w: WakeId | Enabled(s, Start(w)) ensures w in Next(s, Start(w)).tasks.released {
      StepAbortsNothing(s, Start(w));
    }
  }

  // ---- the initiating signal --------------------------------------------------------------

  /** Neither marked nor aborted nor kept from starting. */
  predicate IsSpared(s: State, w: WakeId) {
    && w !in s.tasks.abortSent && w !in s.tasks.withheld
    && (Live(s, w) ==> !s.entries[s.tasks.owners[w]].aborted)
  }

  predicate IsInitiator(s: State, w: WakeId) { Live(s, w) && IsExempt(KindOf(s, w), s.initiating) }

  /** Abort phases follow a stop and are graceful; nobody aborts `w` itself. */
  ghost predicate OnlyGraceful(s: State, steps: seq<Step>, w: WakeId)
    decreases |steps|
  {
    steps == []
    || (var step := steps[0];
        && step != AbortJoin(w)
        && (step.Abort? ==> step.mode.AfterGracefulTimeout? && s.stop)
        && OnlyGraceful(if Enabled(s, step) then Next(s, step) else s, steps[1..], w))
  }

  /** Until a stop nothing is aborted; from then on the initiating signal is spared. */
  predicate SparingInv(s: State, w: WakeId) {
    && !s.mode.All?
    && (!s.stop ==> s.mode.NoAbort? && IsSpared(s, w))
    && (IsInitiator(s, w) || w >= |s.tasks.owners| ==> IsSpared(s, w))
  }

  lemma StepSpares(s: State, step: Step, w: WakeId)
    requires NotificationInv(s) && SparingInv(s, w) && Enabled(s, step)
    requires step != AbortJoin(w)
    requires step.Abort? ==> step.mode.AfterGracefulTimeout? && s.stop
    ensures SparingInv(Next(s, step), w)
  {
    var t := Next(s, step);
    NotificationKept(s, step);
    ModeAfter(s, step);
    StepExtends(s, step);
    if w >= |t.tasks.owners| {
      assert !Mentioned(t, w);
    } else if w >= |s.tasks.owners| {
      assert !Mentioned(s, w) && IsSpared(t, w);
    } else if IsInitiator(t, w) || !t.stop {
      assert IsSpared(s, w);
      SparedStaysSpared(s, step, w);
    }
  }

  lemma SparedStaysSpared(s: State, step: Step, w: WakeId)
    requires NotificationInv(s) && Enabled(s, step) && w < |s.tasks.owners| && IsSpared(s, w)
    requires !s.mode.All? && step != AbortJoin(w)
    requires step.Abort? ==> step.mode.AfterGracefulTimeout? && IsInitiator(s, w)
    requires s.mode.NoAbort? || IsInitiator(s, w)
    ensures IsSpared(Next(s, step), w)
  {
    var t := Next(s, step);
    if Live(t, w) {
      MarksExactly(s, step, w);
    }
    if IsProtocol(step) {
      ProtocolShape(s, step);
    } else if step.Abort? {
      SweepMarksExactly(s, step.mode, w);
    }
  }

  lemma {:induction false} RunSpares(s: State, steps: seq<Step>, w: WakeId)
    requires NotificationInv(s) && SparingInv(s, w) && OnlyGraceful(s, steps, w)
    ensures SparingInv(Run(s, steps), w)
    decreases |steps|
  {
    if steps != [] {
      if Enabled(s, steps[0]) {
        NotificationKept(s, steps[0]);
        StepSpares(s, steps[0], w);
        RunSpares(Next(s, steps[0]), steps[1..], w);
      } else {
        RunSpares(s, steps[1..], w);
      }
    }
  }

  /**
   * The signal that initiated the shutdown survives the graceful phase: in a run whose abort
   * phases are graceful and follow a stop, its live entry is neither marked nor aborted, and its
   * start is never denied, unless somebody aborts that very join.
   */
  lemma InitiatingSignalIsSpared(supervised: bool, steps: seq<Step>, w: WakeId)
    requires OnlyGraceful(Boot(supervised), steps, w)
    requires IsInitiator(Run(Boot(supervised), steps), w)
    ensures IsSpared(Run(Boot(supervised), steps), w)
  {
    BootNotification(supervised);
    RunSpares(Boot(supervised), steps, w);
  }

  /** A phase that came before the stop is why the order matters: it aborts the later initiator. */
  lemma EarlyPhaseAbortsInitiator()
    ensures var a := Next(Boot(true), Spawn(1, "shutdown_signal", RuntimeAuthoredSignal(5)));
            var b := Next(a, Start(0));
            var c := Next(b, Abort(AfterGracefulTimeout));
            var d := Next(c, RequestBySignal(5));
            IsInitiator(d, 0) && !IsSpared(d, 0)
  {
    var a := Next(Boot(true), Spawn(1, "shutdown_signal", RuntimeAuthoredSignal(5)));
    var b := Next(a, Start(0));
    BootNotification(true);
    NotificationKept(Boot(true), Spawn(1, "shutdown_signal", RuntimeAuthoredSignal(5)));
    NotificationKept(a, Start(0));
    SweepMarksExactly(b, AfterGracefulTimeout, 0);
  }
}
