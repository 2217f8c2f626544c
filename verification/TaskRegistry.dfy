/**
 * The registry's own methods, run without interference, each tied to the steps it takes. The
 * collecting loops are those of `poll_empty`; what they do is a path of the transition system, so every
 * invariant of that system holds around them.
 */
module TaskRegistry {
  import opened Wrappers
  import opened Settlement
  import opened SettlementWakes
  import opened SettlementLedger
  import opened SettlementMarks

  // ---- reachable states -------------------------------------------------------------------

  /** Some run of the transition system ends in this state. */
  ghost predicate Reachable(s: State) {
    exists steps :: s == Run(Boot(s.supervised), steps)
  }

  lemma BootIsReachable(supervised: bool)
    ensures Reachable(Boot(supervised))
  {
    assert Boot(supervised) == Run(Boot(supervised), []);
  }

  lemma RunIsReachable(s: State, steps: seq<Step>)
    requires Reachable(s)
    ensures Reachable(Run(s, steps))
  {
    var before :| s == Run(Boot(s.supervised), before);
    RunAppend(Boot(s.supervised), before, steps);
    RunKeepsSupervision(s, steps);
  }

  lemma StepIsReachable(s: State, step: Step)
    requires Reachable(s) && Enabled(s, step)
    ensures Reachable(Next(s, step))
  {
    RunIsReachable(s, [step]);
    assert Run(s, [step]) == Run(Next(s, step), [step][1..]);
  }

  lemma ReachableIsSound(s: State)
    requires Reachable(s)
    ensures NotificationInv(s) && LedgerInv(s)
  {
    var steps :| s == Run(Boot(s.supervised), steps);
    ReachableIsAccounted(s.supervised, steps);
  }

  lemma NextWakeIsFresh(s: State)
    requires Reachable(s)
    ensures !Mentioned(s, |s.tasks.owners|)
  {
    ReachableIsSound(s);
  }

  lemma MentionedIsAllocated(s: State, w: WakeId)
    requires Reachable(s) && Mentioned(s, w)
    ensures w < |s.tasks.owners|
  {
    ReachableIsSound(s);
  }

  lemma UnfinishedIsLive(s: State, w: WakeId)
    requires Reachable(s) && w < |s.tasks.owners| && w !in s.tasks.finished
    ensures Live(s, w)
  {
    ReachableIsSound(s);
    assert WakeInv(s, w);
  }

  lemma RetireIsEnabled(s: State)
    requires Reachable(s) && s.collector.Collecting?
    requires s.collector.hand == [] && s.collector.completed != []
    ensures Enabled(s, RetireOne)
  {
    ReachableIsSound(s);
  }

  // ---- a collector that is not interrupted ------------------------------------------------

  function PollAll(s: State): State
    requires s.collector.Collecting?
    decreases |s.collector.hand|
  {
    if s.collector.hand == [] then s else PollAll(Polled(s))
  }

  function RetireAll(s: State): State
    requires s.collector.Collecting?
    decreases |s.collector.completed|
  {
    if s.collector.completed == [] || s.collector.completed[0].0 !in s.entries then s
    else RetireAll(Retired(s))
  }

  function CollectAlone(s: State, extra: seq<WakeId>): State {
    var taken := Taken(s, extra);
    PollKeepsCollecting(taken);
    RetireAll(PollAll(taken)).(collector := Idle)
  }

  lemma {:induction false} PollKeepsCollecting(s: State)
    requires s.collector.Collecting?
    ensures PollAll(s).collector.Collecting? && PollAll(s).collector.hand == []
    decreases |s.collector.hand|
  {
    if s.collector.hand != [] {
      PollKeepsCollecting(Polled(s));
    }
  }

  function Repeat(step: Step, n: nat): seq<Step> {
    if n == 0 then [] else [step] + Repeat(step, n - 1)
  }

  lemma {:induction false} PollAllIsARun(s: State)
    requires NotificationInv(s) && s.collector.Collecting?
    ensures PollAll(s) == Run(s, Repeat(PollOne, |s.collector.hand|))
    decreases |s.collector.hand|
  {
    if s.collector.hand != [] {
      NotificationKept(s, PollOne);
      PollAllIsARun(Polled(s));
    }
  }

  lemma {:induction false} RetireAllIsARun(s: State)
    requires NotificationInv(s) && s.collector.Collecting? && s.collector.hand == []
    ensures RetireAll(s) == Run(s, Repeat(RetireOne, |s.collector.completed|))
    ensures RetireAll(s).collector == Collecting([], [])
    decreases |s.collector.completed|
  {
    if s.collector.completed != [] {
      assert s.collector.completed[0].0 in s.entries;
      NotificationKept(s, RetireOne);
      RetireAllIsARun(Retired(s));
    }
  }

  function CollectSteps(s: State, inc: bool, extra: seq<WakeId>): seq<Step> {
    var taken := Taken(s, extra);
    PollKeepsCollecting(taken);
    [TakeBatch(inc, extra)] + Repeat(PollOne, |s.signal.ready + extra|)
    + Repeat(RetireOne, |PollAll(taken).collector.completed|) + [FinishCollect]
  }

  /** An uninterrupted collector is a path of the transition system. */
  lemma CollectAloneIsARun(s: State, inc: bool, extra: seq<WakeId>)
    requires NotificationInv(s) && s.collector.Idle? && IsExtra(s, inc, extra)
    ensures CollectAlone(s, extra) == Run(s, CollectSteps(s, inc, extra))
  {
    var take := TakeBatch(inc, extra);
    assert Enabled(s, take);
    var taken := Next(s, take);
    NotificationKept(s, take);
    PollKeepsCollecting(taken);
    PollAllIsARun(taken);
    var polls := Repeat(PollOne, |s.signal.ready + extra|);
    RunKeepsNotification(taken, polls);
    var polled := PollAll(taken);
    RetireAllIsARun(polled);
    var retires := Repeat(RetireOne, |polled.collector.completed|);
    var done := RetireAll(polled);
    assert Run(s, [take]) == taken;
    RunAppend(s, [take], polls);
    RunAppend(s, [take] + polls, retires);
    RunAppend(s, [take] + polls + retires, [FinishCollect]);
    assert Run(done, [FinishCollect]) == Next(done, FinishCollect);
  }

  /** Alone, a collector leaves no completed entry it was told about, and keeps every invariant. */
  lemma CollectAloneEffect(s: State, inc: bool, extra: seq<WakeId>)
    requires Reachable(s) && s.collector.Idle? && IsExtra(s, inc, extra)
    ensures var t := CollectAlone(s, extra);
            && Reachable(t) && t.collector.Idle?
            && s.records <= t.records
            && t.tasks.finished == s.tasks.finished
            && (forall w: WakeId :: Live(s, w) && w in s.tasks.finished && (inc || w in s.signal.ready) ==>
                  !Live(t, w))
  {
    var t := CollectAlone(s, extra);
    var steps := CollectSteps(s, inc, extra);
    ReachableIsSound(s);
    CollectAloneIsARun(s, inc, extra);
    RunIsReachable(s, steps);
    RecordsOnlyGrow(s, steps);
    CollectKeepsResults(s, extra);
    var taken := Next(s, TakeBatch(inc, extra));
    NotificationKept(s, TakeBatch(inc, extra));
    assert Run(s, steps) == Run(taken, steps[1..]);
    forall w: WakeId | Live(s, w) && w in s.tasks.finished && (inc || w in s.signal.ready)
      ensures !Live(t, w)
    {
      assert InHand(taken, w);
      RunKeepsDue(taken, steps[1..], w);
    }
  }

  lemma {:induction false} PollKeepsResults(s: State)
    requires s.collector.Collecting?
    ensures PollAll(s).tasks.finished == s.tasks.finished
    decreases |s.collector.hand|
  {
    if s.collector.hand != [] {
      PollKeepsResults(Polled(s));
    }
  }

  lemma {:induction false} RetireKeepsResults(s: State)
    requires s.collector.Collecting?
    ensures RetireAll(s).tasks.finished == s.tasks.finished
    decreases |s.collector.completed|
  {
    if s.collector.completed != [] && s.collector.completed[0].0 in s.entries {
      RetireKeepsResults(Retired(s));
    }
  }

  lemma CollectKeepsResults(s: State, extra: seq<WakeId>)
    ensures CollectAlone(s, extra).tasks.finished == s.tasks.finished
  {
    var taken := Taken(s, extra);
    PollKeepsCollecting(taken);
    PollKeepsResults(taken);
    RetireKeepsResults(PollAll(taken));
  }

  // ---- the class --------------------------------------------------------------------------

  class Registry {
    const supervised: bool
    var entries: map<TaskId, Entry>
    var records: seq<Record>
    var abortMode: AbortMode
    var callbackFailures: seq<string>
    var priorCallbackInterruptions: nat
    var signal: RegistrySignal
    var tasks: TaskWorld
    // the shutdown signal
    var stop: bool
    var initiating: set<SignalId>
    // history
    ghost var log: seq<Retirement>
    ghost var callbacksBeforeStop: nat

    ghost function During(collector: Collector): State
      reads this
    {
      State(supervised, entries, records, abortMode, callbackFailures, priorCallbackInterruptions,
            collector, signal, tasks, stop, initiating, log, callbacksBeforeStop)
    }

    ghost function View(): State
      reads this
    {
      During(Idle)
    }

    ghost predicate Valid()
      reads this
    {
      Reachable(View())
    }

    constructor (supervised: bool)
      ensures Valid() && View() == Boot(supervised)
    {
      this.supervised := supervised;
      entries, records, abortMode := map[], [], NoAbort;
      callbackFailures, priorCallbackInterruptions := [], 0;
      signal := RegistrySignal({}, [], {}, {}, multiset{});
      tasks := TaskWorld([], map[], {}, {}, {}, {});
      stop, initiating, log, callbacksBeforeStop := false, {}, [], 0;
      new;
      assert View() == Boot(supervised);
      BootIsReachable(supervised);
    }

    /** The ready queue, and on a boundary check each finished handle that is not in it. */
    method ReadyBatch(includeFinished: bool) returns (batch: seq<WakeId>, ghost extra: seq<WakeId>)
      requires EntriesInv(View())
      modifies this`signal
      ensures IsExtra(old(View()), includeFinished, extra)
      ensures batch == old(signal).ready + extra
      ensures signal == old(signal).(ready := [])
    {
      var taken := signal.ready;
      batch := taken;
      extra := [];
      signal := signal.(ready := []);
      if includeFinished {
        var rest := entries.Keys;
        while rest != {}
          invariant rest <= entries.Keys && signal == old(signal).(ready := [])
          invariant batch == taken + extra
          invariant forall i, j :: 0 <= i < j < |extra| ==> extra[i] != extra[j]
          invariant forall w: WakeId :: w in extra <==>
                      Live(old(View()), w) && w in tasks.finished && w !in taken
                      && tasks.owners[w] !in rest
          decreases rest
        {
          var id :| id in rest;
          rest := rest - {id};
          var w := entries[id].wake;
          if w in tasks.finished && w !in taken {
            extra := extra + [w];
            batch := batch + [w];
          }
        }
      }
    }

    method PollBatch(batch: seq<WakeId>) returns (completed: seq<(TaskId, JoinResult)>)
      modifies this`signal
      ensures During(Collecting([], completed)) == PollAll(old(During(Collecting(batch, []))))
    {
      ghost var start := During(Collecting(batch, []));
      completed := [];
      for i := 0 to |batch|
        invariant PollAll(During(Collecting(batch[i..], completed))) == PollAll(start)
      {
        ghost var before := During(Collecting(batch[i..], completed));
        assert batch[i..][1..] == batch[i + 1..];
        var w := batch[i];
        if w < |tasks.owners| && tasks.owners[w] in entries && entries[tasks.owners[w]].wake == w {
          signal := signal.(queued := signal.queued - {w});
          if w in tasks.finished {
            completed := completed + [(tasks.owners[w], tasks.finished[w])];
          } else {
            signal := signal.(registered := signal.registered + {w});
          }
        }
        assert During(Collecting(batch[i + 1..], completed)) == Polled(before);
      }
      assert batch[|batch|..] == [];
    }

    method RetireEntry(id: TaskId, result: JoinResult, ghost rest: seq<(TaskId, JoinResult)>)
      requires id in entries
      modifies this`entries, this`stop, this`priorCallbackInterruptions, this`records, this`log
      ensures During(Collecting([], rest))
              == Retired(old(During(Collecting([], [(id, result)] + rest))))
    {
      var entry := entries[id];
      entries := entries - {id};
      var classification := Classify(entry.kind, entry.aborted, result);
      if classification.requestsShutdown && supervised {
        stop := true;
      }
      var stopping := supervised && stop;
      ghost var place := PlaceOf(supervised, stop, entry.aborted, result);
      log := log + [Retirement(id, entry, result, place)];
      if supervised && !stopping && entry.aborted && result.Err? {
        priorCallbackInterruptions := SaturatingSucc(priorCallbackInterruptions);
      } else if supervised && (stopping || result.Err?) {
        var error := match classification.disposition
                     case OwnerCancelled => None
                     case Observed => if result.Err? then Some(result.error) else None;
        records := records + [Record(entry.task, id, entry.aborted, error, classification.disposition)];
      }
      assert ([(id, result)] + rest)[1..] == rest;
    }

    method RetireCompleted(completed: seq<(TaskId, JoinResult)>)
      requires Reachable(During(Collecting([], completed)))
      modifies this`entries, this`stop, this`priorCallbackInterruptions, this`records, this`log
      ensures View() == RetireAll(old(During(Collecting([], completed)))).(collector := Idle)
    {
      ghost var start := During(Collecting([], completed));
      for i := 0 to |completed|
        invariant Reachable(During(Collecting([], completed[i..])))
        invariant RetireAll(During(Collecting([], completed[i..]))) == RetireAll(start)
      {
        ghost var before := During(Collecting([], completed[i..]));
        var (id, result) := completed[i];
        assert completed[i..] == [(id, result)] + completed[i + 1..];
        RetireIsEnabled(before);
        RetireEntry(id, result, completed[i + 1..]);
        StepIsReachable(before, RetireOne);
      }
      assert completed[|completed|..] == [];
    }

    /** `poll_empty`: one collector pass; answers whether the registry is empty afterwards. */
    method PollEmpty(includeFinished: bool) returns (empty: bool, ghost extra: seq<WakeId>)
      requires Valid()
      modifies this
      ensures Valid() && IsExtra(old(View()), includeFinished, extra)
      ensures View() == CollectAlone(old(View()), extra)
      ensures empty <==> entries == map[]
      ensures forall w: WakeId ::
                Live(old(View()), w) && w in old(tasks).finished
                && (includeFinished || w in old(signal).ready) ==>
                !Live(View(), w)
    {
      ghost var before := View();
      TakeIsSound(before);
      var batch: seq<WakeId>;
      batch, extra := ReadyBatch(includeFinished);
      ghost var taken := Next(before, TakeBatch(includeFinished, extra));
      assert During(Collecting(batch, [])) == taken;
      var completed := PollBatch(batch);
      PolledBatchIsSound(before, includeFinished, extra);
      RetireCompleted(completed);
      assert View() == CollectAlone(before, extra);
      CollectAloneEffect(before, includeFinished, extra);
      empty := entries == map[];
    }

    /** One entry of an abort phase: mark it and abort its task, if it still runs and is covered. */
    method SweepEntry(id: TaskId)
      requires id in entries
      modifies this`entries, this`tasks
      ensures var e := old(entries)[id];
              var covered := e.wake !in tasks.finished && ShouldAbort(e.kind, abortMode, initiating);
              && entries == old(entries)[id := if covered then e.(aborted := true) else e]
              && tasks == old(tasks).(abortSent :=
                   old(tasks).abortSent + if covered then {e.wake} else {})
    {
      var entry := entries[id];
      if entry.wake !in tasks.finished && ShouldAbort(entry.kind, abortMode, initiating) {
        entries := entries[id := entry.(aborted := true)];
        tasks := tasks.(abortSent := tasks.abortSent + {entry.wake});
      }
    }

    /** The loop of an abort phase over the entries. */
    method SweepEntries(mode: AbortMode)
      modifies this`abortMode, this`entries, this`tasks
      ensures View() == Aborted(old(View()), mode)
    {
      ghost var s := View();
      abortMode := MaxMode(abortMode, mode);
      var rest := entries.Keys;
      while rest != {}
        invariant abortMode == MaxMode(s.mode, mode) && rest <= entries.Keys
        invariant PartlySwept(s, abortMode, rest, entries, tasks)
        decreases rest
      {
        var id :| id in rest;
        SweptOneMore(s, abortMode, rest, entries, tasks, id);
        rest := rest - {id};
        SweepEntry(id);
      }
      SweepIsComplete(s, mode, entries, tasks);
    }

    /** `abort`: collect what has finished, raise the mode, and sweep the remaining entries. */
    method AbortPhase(mode: AbortMode) returns (ghost extra: seq<WakeId>)
      requires Valid()
      modifies this
      ensures Valid() && IsExtra(old(View()), true, extra)
      ensures View() == Aborted(CollectAlone(old(View()), extra), mode)
    {
      var empty;
      empty, extra := PollEmpty(true);
      ghost var s := View();
      SweepEntries(mode);
      StepIsReachable(s, Abort(mode));
    }

    /** `EntryWake::wake_by_ref`, flag and push. */
    method WakeByRef(w: WakeId)
      modifies this`signal
      ensures signal == if w in old(signal).queued then old(signal)
                        else Pushed(Swapped(old(signal), w), w)
    {
      if w !in signal.queued {
        signal := signal.(queued := signal.queued + {w});
        signal := signal.(ready := signal.ready + [w]);
        assert old(signal).pushing + multiset{w} - multiset{w} == signal.pushing;
      }
    }

    /** `track_with_kind` for a task behind its start gate, up to its first wake. */
    method TrackGated(id: TaskId, task: string, kind: EntryKind) returns (w: WakeId)
      requires Valid() && id !in entries
      modifies this`entries, this`signal, this`tasks
      ensures w == |old(tasks).owners| && Valid()
      ensures View() == Tracked(old(View()), id, task, kind, true)
    {
      ghost var s := View();
      NextWakeIsFresh(s);
      w := |tasks.owners|;
      tasks := tasks.(owners := tasks.owners + [id], gated := tasks.gated + {w});
      entries := entries[id := Entry(task, w, false, kind)];
      signal := signal.(owed := signal.owed + {w});
      StepIsReachable(s, Spawn(id, task, kind));
    }

    /** The wake that tracking owes the entry. */
    method FirstWake(w: WakeId)
      requires Valid() && w in signal.owed && w !in signal.queued
      modifies this`signal
      ensures Valid()
      ensures signal == Pushed(Swapped(old(signal), w).(owed := old(signal).owed - {w}), w)
    {
      ghost var s := View();
      FirstWakeIsSound(s, w);
      signal := signal.(owed := signal.owed - {w});
      WakeByRef(w);
    }

    /** The second half of `spawn_on`, under the lock. */
    method DecideStart(w: WakeId)
      requires w < |tasks.owners|
      modifies this`entries, this`tasks
      ensures View() == Started(old(View()), w)
      ensures var covered :=
                Live(old(View()), w)
                && (abortMode.All?
                    || (abortMode.AfterGracefulTimeout?
                        && !IsExempt(old(entries)[tasks.owners[w]].kind, initiating)));
              (w in tasks.withheld <==> covered || w in old(tasks).withheld)
              && (w in tasks.released <==> !covered || w in old(tasks).released)
    {
      ghost var s := View();
      tasks := tasks.(gated := tasks.gated - {w});
      var id := tasks.owners[w];
      if id in entries && entries[id].wake == w
         && ShouldAbort(entries[id].kind, abortMode, initiating) {
        entries := entries[id := entries[id].(aborted := true)];
        tasks := tasks.(abortSent := tasks.abortSent + {w}, withheld := tasks.withheld + {w});
      } else {
        tasks := tasks.(released := tasks.released + {w});
      }
    }

    /** `spawn_on`: under a covering mode the new entry is aborted and its future never released. */
    method SpawnOn(id: TaskId, task: string, kind: EntryKind) returns (w: WakeId)
      requires Valid() && id !in entries
      modifies this`entries, this`signal, this`tasks
      ensures Valid() && w == |old(tasks).owners|
      ensures var covered :=
                abortMode.All? || (abortMode.AfterGracefulTimeout? && !IsExempt(kind, initiating));
              entries == old(entries)[id := Entry(task, w, covered, kind)]
      ensures signal == old(signal).(queued := old(signal).queued + {w},
                                     ready := old(signal).ready + [w])
      ensures var covered :=
                abortMode.All? || (abortMode.AfterGracefulTimeout? && !IsExempt(kind, initiating));
              tasks
              == if covered
                 then old(tasks).(owners := old(tasks).owners + [id],
                                  withheld := old(tasks).withheld + {w},
                                  abortSent := old(tasks).abortSent + {w})
                 else old(tasks).(owners := old(tasks).owners + [id],
                                  released := old(tasks).released + {w})
    {
      NextWakeIsFresh(View());
      w := TrackGated(id, task, kind);
      FirstWake(w);
      MentionedIsAllocated(View(), w);
      StepIsReachable(View(), Start(w));
      DecideStart(w);
    }

    method RecordCallback(failure: string)
      requires Valid()
      modifies this`callbackFailures, this`priorCallbackInterruptions, this`callbacksBeforeStop
      ensures View() == WithCallback(old(View()), failure) && Valid()
    {
      ghost var s := View();
      StepIsReachable(s, Step.RecordCallback(failure));
      if !supervised {
        return;
      }
      if stop {
        callbackFailures := callbackFailures + [failure];
      } else {
        priorCallbackInterruptions := SaturatingSucc(priorCallbackInterruptions);
        callbacksBeforeStop := callbacksBeforeStop + 1;
      }
    }

    /** `SharedJoin::abort`. */
    method AbortJoin(w: WakeId)
      requires Valid() && w < |tasks.owners|
      modifies this`entries, this`tasks
      ensures Valid()
      ensures w in tasks.finished ==> View() == old(View())
      ensures w !in tasks.finished ==> Live(old(View()), w) && View() == MarkAborted(old(View()), w)
    {
      if w in tasks.finished {
        return;
      }
      ghost var s := View();
      UnfinishedIsLive(s, w);
      var id := tasks.owners[w];
      if id in entries {
        entries := entries[id := entries[id].(aborted := true)];
      }
      tasks := tasks.(abortSent := tasks.abortSent + {w});
      StepIsReachable(s, Step.AbortJoin(w));
    }

    /** `snapshot`: the records, and every entry that has not joined. */
    method Snapshot() returns (snapshot: seq<Record>, pending: map<TaskId, Entry>)
      requires Valid()
      modifies this
      ensures Valid()
      ensures snapshot == records && pending == entries
      ensures old(records) <= snapshot
      ensures forall id :: id in pending ==> pending[id].wake !in tasks.finished
    {
      ghost var before := View();
      ghost var extra;
      var empty;
      empty, extra := PollEmpty(true);
      CollectAloneEffect(before, true, extra);
      forall id | id in entries ensures entries[id].wake !in tasks.finished {
        PendingIsUnfinished(before, extra, id);
      }
      snapshot, pending := records, entries;
    }
  }

  lemma TakeIsSound(s: State)
    requires Reachable(s)
    ensures EntriesInv(s)
  {
    ReachableIsSound(s);
  }

  lemma PolledBatchIsSound(s: State, inc: bool, extra: seq<WakeId>)
    requires Reachable(s) && s.collector.Idle? && IsExtra(s, inc, extra)
    ensures var taken := Next(s, TakeBatch(inc, extra));
            taken.collector.Collecting? && Reachable(PollAll(taken))
  {
    var taken := Next(s, TakeBatch(inc, extra));
    ReachableIsSound(s);
    NotificationKept(s, TakeBatch(inc, extra));
    StepIsReachable(s, TakeBatch(inc, extra));
    PollAllIsARun(taken);
    RunIsReachable(taken, Repeat(PollOne, |taken.collector.hand|));
  }

  /** Flag, push and the owed wake itself, as the two steps they are. */
  lemma FirstWakeIsSound(s: State, w: WakeId)
    requires Reachable(s) && w in s.signal.owed && w !in s.signal.queued
    ensures Reachable(
              s.(signal := Pushed(Swapped(s.signal, w).(owed := s.signal.owed - {w}), w)))
  {
    var a := Next(s, SwapOwed(w));
    StepIsReachable(s, SwapOwed(w));
    StepIsReachable(a, Push(w));
  }

  /** An abort phase under `mode` that has still to visit `rest`. */
  ghost predicate PartlySwept(
      s: State, mode: AbortMode, rest: set<TaskId>, entries: map<TaskId, Entry>, tasks: TaskWorld)
  {
    && entries.Keys == s.entries.Keys
    && (forall id :: id in s.entries ==>
          entries[id] == if id in rest then s.entries[id] else Swept(s, mode, s.entries[id]))
    && tasks == s.tasks.(abortSent := s.tasks.abortSent + SentTo(s, mode, s.entries.Keys - rest))
  }

  lemma SweptOneMore(
      s: State, mode: AbortMode, rest: set<TaskId>, entries: map<TaskId, Entry>, tasks: TaskWorld,
      id: TaskId)
    requires PartlySwept(s, mode, rest, entries, tasks) && id in rest && id in s.entries
    ensures entries[id] == s.entries[id]
    ensures var e := s.entries[id];
            var covered := Sweeps(s, mode, e);
            PartlySwept(
              s, mode, rest - {id}, entries[id := if covered then e.(aborted := true) else e],
              tasks.(abortSent := tasks.abortSent + if covered then {e.wake} else {}))
  {
    assert s.entries.Keys - (rest - {id}) == s.entries.Keys - rest + {id};
    SentToOneMore(s, mode, s.entries.Keys - rest, id);
  }

  lemma SweepIsComplete(
      s: State, mode: AbortMode, entries: map<TaskId, Entry>, tasks: TaskWorld)
    requires PartlySwept(s, MaxMode(s.mode, mode), {}, entries, tasks)
    ensures s.(mode := MaxMode(s.mode, mode), entries := entries, tasks := tasks)
            == Aborted(s, mode)
  {
    assert entries == Aborted(s, mode).entries;
    assert s.entries.Keys - {} == s.entries.Keys;
  }

  lemma SentToOneMore(s: State, mode: AbortMode, ids: set<TaskId>, id: TaskId)
    requires id in s.entries
    ensures SentTo(s, mode, ids + {id})
            == SentTo(s, mode, ids)
               + if Sweeps(s, mode, s.entries[id]) then {s.entries[id].wake} else {}
  {
  }

  /** After a boundary collection, what is still an entry was one before and has not joined. */
  lemma PendingIsUnfinished(s: State, extra: seq<WakeId>, id: TaskId)
    requires Reachable(s) && s.collector.Idle? && IsExtra(s, true, extra)
    requires id in CollectAlone(s, extra).entries
    ensures CollectAlone(s, extra).entries[id].wake !in s.tasks.finished
  {
    ReachableIsSound(s);
    CollectAloneEffect(s, true, extra);
    CollectOnlyRemoves(s, extra);
    assert Live(s, s.entries[id].wake);
    assert Live(CollectAlone(s, extra), s.entries[id].wake);
  }

  lemma {:induction false} PollKeepsEntries(s: State)
    requires s.collector.Collecting?
    ensures PollAll(s).entries == s.entries && PollAll(s).tasks.owners == s.tasks.owners
    decreases |s.collector.hand|
  {
    if s.collector.hand != [] {
      PollKeepsEntries(Polled(s));
    }
  }

  lemma {:induction false} RetireOnlyRemoves(s: State)
    requires s.collector.Collecting?
    ensures RetireAll(s).tasks.owners == s.tasks.owners
    ensures forall id :: id in RetireAll(s).entries ==>
              id in s.entries && RetireAll(s).entries[id] == s.entries[id]
    decreases |s.collector.completed|
  {
    if s.collector.completed != [] && s.collector.completed[0].0 in s.entries {
      RetireOnlyRemoves(Retired(s));
    }
  }

  lemma CollectOnlyRemoves(s: State, extra: seq<WakeId>)
    ensures var t := CollectAlone(s, extra);
            && t.tasks.owners == s.tasks.owners
            && forall id :: id in t.entries ==> id in s.entries && t.entries[id] == s.entries[id]
  {
    var taken := Taken(s, extra);
    PollKeepsCollecting(taken);
    PollKeepsEntries(taken);
    RetireOnlyRemoves(PollAll(taken));
  }
}
