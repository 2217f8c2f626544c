/** Abort phases of the registry over every run. */
module SettlementAbort {
  import opened Wrappers
  import opened Settlement
  import opened SettlementWakes

  // ---- monotone facts ---------------------------------------------------------------------

  /** Nothing a run decided is undone. */
  ghost predicate Extends(s: State, t: State) {
    && Rank(s.mode) <= Rank(t.mode)
    && (s.stop ==> t.stop)
    && s.initiating <= t.initiating && (s.stop ==> t.initiating == s.initiating)
    && s.tasks.abortSent <= t.tasks.abortSent
    && s.tasks.withheld <= t.tasks.withheld
    && s.tasks.released <= t.tasks.released
    && (forall w: WakeId :: Live(t, w) && w < |s.tasks.owners| ==>
          && Live(s, w)
          && (s.entries[s.tasks.owners[w]].aborted ==> t.entries[t.tasks.owners[w]].aborted)
          && s.entries[s.tasks.owners[w]].kind == t.entries[t.tasks.owners[w]].kind
          && s.entries[s.tasks.owners[w]].task == t.entries[t.tasks.owners[w]].task)
  }

  lemma StartExtends(s: State, w: WakeId)
    ensures Extends(s, Started(s, w))
  {
  }

  lemma AllocationExtends(s: State, step: Step)
    requires NotificationInv(s) && Enabled(s, step) && (step.Track? || step.Spawn?)
    ensures Extends(s, Next(s, step))
  {
    var t := Next(s, step);
    assert forall w: WakeId :: w < |s.tasks.owners| ==> t.tasks.owners[w] == s.tasks.owners[w];
  }

  lemma StepExtends(s: State, step: Step)
    requires NotificationInv(s) && Enabled(s, step)
    ensures Extends(s, Next(s, step))
  {
    if IsProtocol(step) {
      ProtocolShape(s, step);
    } else if step.Track? || step.Spawn? {
      AllocationExtends(s, step);
    } else if step.Start? {
      StartExtends(s, step.wake);
    } else if step.Abort? {
      assert Extends(s, Aborted(s, step.mode));
    } else if step.RetireOne? {
      assert Extends(s, Retired(s));
    }
  }

  /** The abort mode only rises, and marks, sent aborts and denied starts stay. */
  lemma {:induction false} RunExtends(s: State, steps: seq<Step>)
    requires NotificationInv(s)
    ensures Extends(s, Run(s, steps))
    ensures |s.tasks.owners| <= |Run(s, steps).tasks.owners|
    decreases |steps|
  {
    if steps != [] {
      if Enabled(s, steps[0]) {
        NotificationKept(s, steps[0]);
        StepExtends(s, steps[0]);
        RunExtends(Next(s, steps[0]), steps[1..]);
        ExtendsTransitive(s, Next(s, steps[0]), Run(s, steps));
      } else {
        RunExtends(s, steps[1..]);
      }
    }
  }

  lemma ExtendsTransitive(s: State, t: State, u: State)
    requires Extends(s, t) && Extends(t, u) && |s.tasks.owners| <= |t.tasks.owners|
    ensures Extends(s, u)
  {
  }

  // ---- coverage ---------------------------------------------------------------------------

  /** An entry the current mode covers: still running, and its start already decided. */
  predicate MustBeAborted(s: State, w: WakeId) {
    && Live(s, w) && w !in s.tasks.finished && w !in s.tasks.gated
    && ShouldAbort(s.entries[s.tasks.owners[w]].kind, s.mode, s.initiating)
  }

  predicate IsAborted(s: State, w: WakeId) {
    Live(s, w) && s.entries[s.tasks.owners[w]].aborted && w in s.tasks.abortSent
  }

  ghost predicate Covered(s: State) {
    forall w: WakeId :: MustBeAborted(s, w) ==> IsAborted(s, w)
  }

  /** After an abort phase every unfinished entry the resulting mode covers is aborted. */
  lemma AbortPhaseCovers(s: State, mode: AbortMode, w: WakeId)
    requires NotificationInv(s) && Enabled(s, Abort(mode))
    requires Live(s, w) && w !in s.tasks.finished
    ensures var t := Next(s, Abort(mode));
            && Rank(t.mode) >= Rank(mode)
            && (ShouldAbort(s.entries[s.tasks.owners[w]].kind, t.mode, s.initiating) ==>
                  IsAborted(t, w))
            && (mode.All? ==> IsAborted(t, w))
            && (mode.AfterGracefulTimeout? ==>
                  IsAborted(t, w)
                  || (!s.entries[s.tasks.owners[w]].kind.Task?
                      && s.entries[s.tasks.owners[w]].kind.signal in s.initiating))
  {
    var id := s.tasks.owners[w];
    assert id in s.entries && s.entries[id].wake == w;
    assert Next(s, Abort(mode)).entries[id] == Swept(s, MaxMode(s.mode, mode), s.entries[id]);
  }

  lemma AbortCovers(s: State, mode: AbortMode)
    requires NotificationInv(s) && Enabled(s, Abort(mode))
    ensures Covered(Next(s, Abort(mode)))
  {
    var t := Next(s, Abort(mode));
    forall w: WakeId | MustBeAborted(t, w) ensures IsAborted(t, w) {
      assert Live(s, w);
      AbortPhaseCovers(s, mode, w);
    }
  }

  /** A plain `track` hands over a task that already runs, and which no sweep has looked at. */
  predicate AdoptsCovered(s: State, step: Step) {
    step.Track? && ShouldAbort(step.kind, s.mode, s.initiating)
  }

  /** Adopting a running handle that the mode covers is the one step that loses coverage. */
  lemma CoverageKeptIff(s: State, step: Step)
    requires NotificationInv(s) && Covered(s) && Enabled(s, step)
    ensures Covered(Next(s, step)) <==> !AdoptsCovered(s, step)
  {
    var t := Next(s, step);
    if step.Abort? {
      AbortCovers(s, step.mode);
    } else if AdoptsCovered(s, step) {
      var w := |s.tasks.owners|;
      assert !Mentioned(s, w);
      assert MustBeAborted(t, w) && !IsAborted(t, w);
    } else {
      StepExtends(s, step);
      forall w: WakeId | MustBeAborted(t, w) ensures IsAborted(t, w) {
        CoverageKeptFor(s, step, w);
      }
    }
  }

  lemma CoverageKeptFor(s: State, step: Step, w: WakeId)
    requires NotificationInv(s) && Covered(s) && Enabled(s, step) && !step.Abort?
    requires !AdoptsCovered(s, step)
    requires Extends(s, Next(s, step)) && MustBeAborted(Next(s, step), w)
    ensures IsAborted(Next(s, step), w)
  {
    if step.Start? && step.wake == w {
      assert Next(s, step) == Started(s, w);
    } else {
      AlreadyCovered(s, step, w);
      assert IsAborted(s, w);
    }
  }

  /** Apart from its own start and a new phase, no step makes the mode cover an entry. */
  lemma AlreadyCovered(s: State, step: Step, w: WakeId)
    requires NotificationInv(s) && Enabled(s, step) && !step.Abort?
    requires !AdoptsCovered(s, step)
    requires step.Start? ==> step.wake != w
    requires Extends(s, Next(s, step)) && MustBeAborted(Next(s, step), w)
    ensures MustBeAborted(s, w) && w < |s.tasks.owners|
  {
    var t := Next(s, step);
    if IsProtocol(step) {
      ProtocolShape(s, step);
    } else if step.Track? || step.Spawn? {
      assert !Mentioned(s, |s.tasks.owners|);
      assert w < |s.tasks.owners| && t.tasks.owners[w] == s.tasks.owners[w];
    } else if IsUnrelated(step) {
      UnrelatedShape(s, step);
      assert t.mode == s.mode;
    }
  }

  /** No step of the run adopts a running handle that the mode of that moment covers. */
  ghost predicate AdoptsUncovered(s: State, steps: seq<Step>)
    decreases |steps|
  {
    steps == []
    || (if Enabled(s, steps[0])
        then !AdoptsCovered(s, steps[0]) && AdoptsUncovered(Next(s, steps[0]), steps[1..])
        else AdoptsUncovered(s, steps[1..]))
  }

  /**
   * Unless a covered running handle is adopted, at every moment of a run each running entry that
   * the current mode covers is marked and aborted, whether it was there when the phase began or
   * was spawned later.
   */
  lemma {:induction false} EveryCoveredEntryIsAborted(s: State, steps: seq<Step>)
    requires NotificationInv(s) && Covered(s) && AdoptsUncovered(s, steps)
    ensures Covered(Run(s, steps))
    decreases |steps|
  {
    if steps != [] {
      if Enabled(s, steps[0]) {
        NotificationKept(s, steps[0]);
        CoverageKeptIff(s, steps[0]);
        EveryCoveredEntryIsAborted(Next(s, steps[0]), steps[1..]);
      } else {
        EveryCoveredEntryIsAborted(s, steps[1..]);
      }
    }
  }

  /**
   * Every run that only spawns, as all callers inside the runtime do, is covered at every moment:
   * no running task that an abort phase covers escapes it.
   */
  lemma SpawnedTasksAreCovered(supervised: bool, steps: seq<Step>)
    requires forall step :: step in steps ==> !step.Track?
    ensures Covered(Run(Boot(supervised), steps))
  {
    BootNotification(supervised);
    SpawningAdoptsNothing(Boot(supervised), steps);
    EveryCoveredEntryIsAborted(Boot(supervised), steps);
  }

  lemma {:induction false} SpawningAdoptsNothing(s: State, steps: seq<Step>)
    requires forall step :: step in steps ==> !step.Track?
    ensures AdoptsUncovered(s, steps)
    decreases |steps|
  {
    if steps != [] {
      SpawningAdoptsNothing(if Enabled(s, steps[0]) then Next(s, steps[0]) else s, steps[1..]);
    }
  }

  /** The interface admits such a run: adopted after a phase, a handle is not aborted until the next. */
  lemma AdoptedHandleIsNotSwept()
    ensures var s := Next(Boot(true), Abort(All));
            var t := Next(s, Track(7, "adopted", Task));
            && Enabled(Boot(true), Abort(All)) && Enabled(s, Track(7, "adopted", Task))
            && !Covered(t) && Covered(Next(t, Abort(All)))
  {
    var s := Next(Boot(true), Abort(All));
    var t := Next(s, Track(7, "adopted", Task));
    assert MustBeAborted(t, 0) && !IsAborted(t, 0);
    BootNotification(true);
    NotificationKept(Boot(true), Abort(All));
    NotificationKept(s, Track(7, "adopted", Task));
    AbortCovers(t, All);
  }

  // ---- starts under a covering mode -------------------------------------------------------

  ghost predicate StartInv(s: State) {
    && s.tasks.gated !! s.tasks.withheld && s.tasks.gated !! s.tasks.released
    && s.tasks.withheld !! s.tasks.released
    && s.tasks.withheld <= s.tasks.abortSent
    && (forall w: WakeId :: w in s.tasks.finished && s.tasks.finished[w] != Err(Cancelled) ==>
          w in s.tasks.released)
  }

  lemma StartKept(s: State, step: Step)
    requires NotificationInv(s) && StartInv(s) && Enabled(s, step)
    ensures StartInv(Next(s, step))
  {
    if IsProtocol(step) {
      ProtocolShape(s, step);
    } else if step.Track? || step.Spawn? {
      assert !Mentioned(s, |s.tasks.owners|);
      assert Next(s, step).tasks.finished == s.tasks.finished;
    } else if step.Start? {
      assert Started(s, step.wake).tasks.finished == s.tasks.finished;
    } else if step.Abort? {
      assert Aborted(s, step.mode).tasks.finished == s.tasks.finished;
    } else if step.RetireOne? {
      assert Retired(s).tasks.finished == s.tasks.finished;
    }
  }

  lemma {:induction false} RunKeepsStart(s: State, steps: seq<Step>)
    requires NotificationInv(s) && StartInv(s)
    ensures NotificationInv(Run(s, steps)) && StartInv(Run(s, steps))
    decreases |steps|
  {
    if steps != [] {
      if Enabled(s, steps[0]) {
        NotificationKept(s, steps[0]);
        StartKept(s, steps[0]);
        RunKeepsStart(Next(s, steps[0]), steps[1..]);
      } else {
        RunKeepsStart(s, steps[1..]);
      }
    }
  }

  /**
   * A task spawned while the mode covers it is aborted without its application future ever being
   * released, in whatever way the run goes on; its join can only be a cancellation.
   */
  lemma CoveredSpawnNeverRuns(before: seq<Step>, w: WakeId, after: seq<Step>)
    requires var s := Run(Boot(true), before);
             && Enabled(s, Start(w)) && Live(s, w)
             && ShouldAbort(s.entries[s.tasks.owners[w]].kind, s.mode, s.initiating)
    ensures var t := Run(Next(Run(Boot(true), before), Start(w)), after);
            && w !in t.tasks.released && w in t.tasks.abortSent
            && (w in t.tasks.finished ==> t.tasks.finished[w] == Err(Cancelled))
            && (Live(t, w) ==> t.entries[t.tasks.owners[w]].aborted)
  {
    BootNotification(true);
    RunKeepsStart(Boot(true), before);
    var s := Run(Boot(true), before);
    var u := Next(s, Start(w));
    NotificationKept(s, Start(w));
    StartKept(s, Start(w));
    assert w in u.tasks.withheld && IsAborted(u, w);
    RunKeepsStart(u, after);
    RunExtends(u, after);
  }
}
