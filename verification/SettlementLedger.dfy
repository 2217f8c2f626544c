/**
 * The ledger of the registry over every run: each task is accounted for in exactly one place,
 * records are never lost, and no failure is absorbed silently.
 */
module SettlementLedger {
  import opened Wrappers
  import opened Settlement
  import opened SettlementWakes

  function RecordsIn(log: seq<Retirement>): seq<Record> {
    if log == [] then []
    else RecordsIn(log[..|log| - 1])
         + if log[|log| - 1].place.AsRecord? then [RecordOf(log[|log| - 1])] else []
  }

  function CountPlace(log: seq<Retirement>, place: Place): nat {
    if log == [] then 0
    else CountPlace(log[..|log| - 1], place) + if log[|log| - 1].place == place then 1 else 0
  }

  function Saturated(n: nat): nat { if n >= U64_MAX then U64_MAX else n }

  /** A retirement names a task that is gone, with the result its join had. */
  ghost predicate IsPast(s: State, r: Retirement) {
    var w := r.entry.wake;
    && w < |s.tasks.owners| && s.tasks.owners[w] == r.id && !Live(s, w)
    && w in s.tasks.finished && s.tasks.finished[w] == r.result
  }

  /** What a supervised registry may do with a result, given whether stop is requested. */
  ghost predicate IsAccounted(stop: bool, r: Retirement) {
    && (r.place.Silently? ==> r.result.Ok?)
    && (r.place.AsInterruption? ==> r.entry.aborted && r.result == Err(Cancelled))
    && (Classify(r.entry.kind, r.entry.aborted, r.result).requestsShutdown ==>
          stop && r.place.AsRecord?)
  }

  ghost predicate InLog(s: State, w: WakeId) {
    exists i :: 0 <= i < |s.log| && s.log[i].entry.wake == w
  }

  ghost predicate LogInv(s: State) {
    && (forall i :: 0 <= i < |s.log| ==> IsPast(s, s.log[i]))
    && (forall i, j :: 0 <= i < j < |s.log| ==> s.log[i].entry.wake != s.log[j].entry.wake)
    && (forall w: WakeId :: w < |s.tasks.owners| ==> Live(s, w) || InLog(s, w))
    && s.records == RecordsIn(s.log)
    && |s.tasks.owners| == |s.entries| + |s.log|
    && (s.supervised ==> forall i :: 0 <= i < |s.log| ==> IsAccounted(s.stop, s.log[i]))
  }

  predicate CountInv(s: State) {
    s.supervised ==>
      s.interruptions == Saturated(s.callbacksBeforeStop + CountPlace(s.log, AsInterruption))
  }

  ghost predicate LedgerInv(s: State) { LogInv(s) && CountInv(s) }

  // ---- preservation -----------------------------------------------------------------------

  /** Steps that neither track nor retire. */
  lemma QuietStepKeepsLog(s: State, t: State)
    requires NotificationInv(s) && LogInv(s)
    requires t.log == s.log && t.records == s.records && t.tasks.owners == s.tasks.owners
    requires t.entries.Keys == s.entries.Keys
    requires forall id :: id in s.entries ==> t.entries[id].wake == s.entries[id].wake
    requires KeepsResults(s, t)
    requires t.supervised == s.supervised && (s.stop ==> t.stop)
    ensures LogInv(t)
  {
    assert forall w: WakeId :: Live(t, w) == Live(s, w);
    forall i | 0 <= i < |t.log| ensures IsPast(t, t.log[i]) {
      assert IsPast(s, s.log[i]);
    }
    forall w: WakeId | w < |t.tasks.owners| ensures Live(t, w) || InLog(t, w) {
      if InLog(s, w) {
        var i :| 0 <= i < |s.log| && s.log[i].entry.wake == w;
        assert t.log[i].entry.wake == w;
      }
    }
    assert |t.entries| == |t.entries.Keys| == |s.entries.Keys| == |s.entries|;
    forall i | 0 <= i < |t.log| && s.supervised ensures IsAccounted(t.stop, t.log[i]) {
      assert IsAccounted(s.stop, s.log[i]);
    }
  }

  lemma CallbackKeepsLedger(s: State, failure: string)
    requires NotificationInv(s) && LedgerInv(s)
    ensures LedgerInv(WithCallback(s, failure))
  {
    QuietStepKeepsLog(s, WithCallback(s, failure));
  }

  lemma TrackKeepsPast(s: State, t: State, id: TaskId, task: string, kind: EntryKind, isGated: bool)
    requires NotificationInv(s) && LedgerInv(s) && id !in s.entries
    requires t == Tracked(s, id, task, kind, isGated)
    ensures forall i :: 0 <= i < |t.log| ==> IsPast(t, t.log[i])
    ensures forall w: WakeId :: w < |t.tasks.owners| ==> Live(t, w) || InLog(t, w)
  {
    forall w: WakeId | w < |s.tasks.owners| ensures Live(t, w) == Live(s, w) {
      assert t.tasks.owners[w] == s.tasks.owners[w];
    }
    forall i | 0 <= i < |t.log| ensures IsPast(t, t.log[i]) {
      assert IsPast(s, s.log[i]);
    }
    forall w: WakeId | w < |t.tasks.owners| ensures Live(t, w) || InLog(t, w) {
      if w < |s.tasks.owners| && InLog(s, w) {
        var i :| 0 <= i < |s.log| && s.log[i].entry.wake == w;
        assert t.log[i].entry.wake == w;
      }
    }
  }

  lemma TrackKeepsLedger(
      s: State, t: State, id: TaskId, task: string, kind: EntryKind, isGated: bool)
    requires NotificationInv(s) && LedgerInv(s) && id !in s.entries
    requires t == Tracked(s, id, task, kind, isGated)
    ensures LedgerInv(t)
  {
    TrackKeepsPast(s, t, id, task, kind, isGated);
    OneMore(s.entries, id, t.entries[id]);
    assert t.log == s.log && t.records == s.records && t.stop == s.stop;
    forall i, j | 0 <= i < j < |t.log| ensures t.log[i].entry.wake != t.log[j].entry.wake {
      assert s.log[i].entry.wake != s.log[j].entry.wake;
    }
    forall i | 0 <= i < |t.log| && t.supervised ensures IsAccounted(t.stop, t.log[i]) {
      assert IsAccounted(s.stop, s.log[i]);
    }
  }

  lemma OneMore(entries: map<TaskId, Entry>, id: TaskId, e: Entry)
    requires id !in entries
    ensures |entries[id := e]| == |entries| + 1
  {
    assert entries[id := e].Keys == entries.Keys + {id};
  }

  lemma RetireKeepsPast(s: State)
    requires NotificationInv(s) && LedgerInv(s) && Enabled(s, RetireOne)
    ensures var t := Next(s, RetireOne);
            && (forall i :: 0 <= i < |t.log| ==> IsPast(t, t.log[i]))
            && (forall i, j :: 0 <= i < j < |t.log| ==> t.log[i].entry.wake != t.log[j].entry.wake)
            && (forall w: WakeId :: w < |t.tasks.owners| ==> Live(t, w) || InLog(t, w))
  {
    var t := Next(s, RetireOne);
    var id := s.collector.completed[0].0;
    var gone := s.entries[id].wake;
    assert Live(s, gone);
    forall i | 0 <= i < |t.log| ensures IsPast(t, t.log[i]) {
      if i < |s.log| {
        assert IsPast(s, s.log[i]);
      }
    }
    forall i, j | 0 <= i < j < |t.log| ensures t.log[i].entry.wake != t.log[j].entry.wake {
      assert IsPast(s, s.log[i]);
    }
    forall w: WakeId | w < |t.tasks.owners| ensures Live(t, w) || InLog(t, w) {
      if w == gone {
        assert t.log[|s.log|].entry.wake == w;
      } else if InLog(s, w) {
        var i :| 0 <= i < |s.log| && s.log[i].entry.wake == w;
        assert t.log[i].entry.wake == w;
      }
    }
  }

  lemma RetireKeepsCounts(s: State)
    requires LedgerInv(s) && Enabled(s, RetireOne)
    ensures var t := Next(s, RetireOne);
            t.records == RecordsIn(t.log) && CountInv(t)
  {
    var t := Next(s, RetireOne);
    assert t.log[..|t.log| - 1] == s.log;
  }

  lemma RetireKeepsLedger(s: State)
    requires NotificationInv(s) && LedgerInv(s) && Enabled(s, RetireOne)
    ensures LedgerInv(Next(s, RetireOne))
  {
    var t := Next(s, RetireOne);
    var id := s.collector.completed[0].0;
    RetireKeepsPast(s);
    RetireKeepsCounts(s);
    assert t.entries.Keys == s.entries.Keys - {id};
    assert |t.entries| == |s.entries| - 1;
    if s.supervised {
      forall i | 0 <= i < |t.log| ensures IsAccounted(t.stop, t.log[i]) {
        if i < |s.log| {
          assert IsAccounted(s.stop, s.log[i]);
        }
      }
    }
  }

  lemma LedgerKept(s: State, step: Step)
    requires NotificationInv(s) && LedgerInv(s) && Enabled(s, step)
    ensures LedgerInv(Next(s, step))
  {
    match step
    case Track(id, task, kind) => TrackKeepsLedger(s, Next(s, step), id, task, kind, false);
    case Spawn(id, task, kind) => TrackKeepsLedger(s, Next(s, step), id, task, kind, true);
    case RetireOne => RetireKeepsLedger(s);
    case RecordCallback(f) => CallbackKeepsLedger(s, f);
    case _ => QuietKeepsLedger(s, step);
  }

  lemma QuietKeepsLedger(s: State, step: Step)
    requires NotificationInv(s) && LedgerInv(s) && Enabled(s, step)
    requires !step.Track? && !step.Spawn? && !step.RetireOne? && !step.RecordCallback?
    ensures LedgerInv(Next(s, step))
  {
    QuietShape(s, step);
    QuietStepKeepsLog(s, Next(s, step));
  }

  lemma QuietShape(s: State, step: Step)
    requires NotificationInv(s) && Enabled(s, step)
    requires !step.Track? && !step.Spawn? && !step.RetireOne? && !step.RecordCallback?
    ensures var t := Next(s, step);
            && t.log == s.log && t.records == s.records && t.tasks.owners == s.tasks.owners
            && t.entries.Keys == s.entries.Keys
            && (forall id :: id in s.entries ==> t.entries[id].wake == s.entries[id].wake)
            && KeepsResults(s, t)
            && t.supervised == s.supervised && (s.stop ==> t.stop)
            && t.interruptions == s.interruptions
            && t.callbacksBeforeStop == s.callbacksBeforeStop
  {
    if IsUnrelated(step) {
      UnrelatedShape(s, step);
      UnrelatedCounts(s, step);
    } else {
      ProtocolShape(s, step);
    }
  }

  lemma UnrelatedCounts(s: State, step: Step)
    requires Enabled(s, step) && IsUnrelated(step) && !step.RecordCallback?
    ensures var t := Next(s, step);
            && t.log == s.log && t.records == s.records
            && t.supervised == s.supervised && (s.stop ==> t.stop)
            && t.interruptions == s.interruptions
            && t.callbacksBeforeStop == s.callbacksBeforeStop
  {
    match step
    case Start(_) =>
    case Abort(_) =>
    case AbortJoin(_) =>
    case Request =>
    case RequestBySignal(_) =>
  }

  lemma {:induction false} RunKeepsLedger(s: State, steps: seq<Step>)
    requires NotificationInv(s) && LedgerInv(s)
    ensures NotificationInv(Run(s, steps)) && LedgerInv(Run(s, steps))
    decreases |steps|
  {
    if steps != [] {
      if Enabled(s, steps[0]) {
        NotificationKept(s, steps[0]);
        LedgerKept(s, steps[0]);
        RunKeepsLedger(Next(s, steps[0]), steps[1..]);
      } else {
        RunKeepsLedger(s, steps[1..]);
      }
    }
  }

  lemma ReachableIsAccounted(supervised: bool, steps: seq<Step>)
    ensures NotificationInv(Run(Boot(supervised), steps))
    ensures LedgerInv(Run(Boot(supervised), steps))
  {
    BootNotification(supervised);
    RunKeepsLedger(Boot(supervised), steps);
  }

  // ---- conservation -----------------------------------------------------------------------

  lemma {:induction false} PlacesAddUp(log: seq<Retirement>)
    ensures |log| == CountPlace(log, AsRecord) + CountPlace(log, AsInterruption)
                     + CountPlace(log, Silently)
    ensures |RecordsIn(log)| == CountPlace(log, AsRecord)
  {
    if log != [] {
      PlacesAddUp(log[..|log| - 1]);
    }
  }

  /**
   * Conservation: every task ever tracked is a live entry, one record, one interruption or one
   * silent success, and never two of them; the interruption counter is the callback failures and
   * interruptions before the stop, up to saturation.
   */
  lemma EveryTaskIsInOnePlace(supervised: bool, steps: seq<Step>)
    ensures var s := Run(Boot(supervised), steps);
            && |s.tasks.owners| == |s.entries| + |s.records|
                             + CountPlace(s.log, AsInterruption) + CountPlace(s.log, Silently)
            && (forall w: WakeId :: w < |s.tasks.owners| ==> (Live(s, w) <==> !InLog(s, w)))
            && (forall i, j :: 0 <= i < j < |s.log| ==>
                  s.log[i].entry.wake != s.log[j].entry.wake)
            && s.records == RecordsIn(s.log)
            && (supervised ==>
                  s.interruptions
                  == Saturated(s.callbacksBeforeStop + CountPlace(s.log, AsInterruption)))
  {
    ReachableIsAccounted(supervised, steps);
    RunKeepsSupervision(Boot(supervised), steps);
    var s := Run(Boot(supervised), steps);
    PlacesAddUp(s.log);
    forall w: WakeId | w < |s.tasks.owners| ensures Live(s, w) <==> !InLog(s, w) {
      LiveOrLogged(s, w);
    }
  }

  lemma LiveOrLogged(s: State, w: WakeId)
    requires LogInv(s) && w < |s.tasks.owners|
    ensures Live(s, w) <==> !InLog(s, w)
  {
    if InLog(s, w) {
      var i :| 0 <= i < |s.log| && s.log[i].entry.wake == w;
      assert IsPast(s, s.log[i]);
    }
  }

  lemma {:induction false} RunKeepsSupervision(s: State, steps: seq<Step>)
    ensures Run(s, steps).supervised == s.supervised
    decreases |steps|
  {
    if steps != [] {
      if Enabled(s, steps[0]) {
        RunKeepsSupervision(Next(s, steps[0]), steps[1..]);
      } else {
        RunKeepsSupervision(s, steps[1..]);
      }
    }
  }

  /** Each later retirement of a stopped, supervised registry is a record. */
  ghost predicate RecordsFrom(log: seq<Retirement>, n: nat) {
    forall i :: n <= i < |log| ==> log[i].place.AsRecord?
  }

  /**
   * Records are never lost or changed; and after a stop every retired task leaves exactly one
   * record, so interruptions and silent successes stay what they were.
   */
  lemma {:induction false} RecordsOnlyGrow(s: State, steps: seq<Step>)
    requires NotificationInv(s) && LedgerInv(s)
    ensures var t := Run(s, steps);
            && s.log <= t.log && s.records <= t.records && (s.stop ==> t.stop)
            && (s.supervised && s.stop ==>
                  RecordsFrom(t.log, |s.log|) && t.interruptions == s.interruptions)
    decreases |steps|
  {
    if steps != [] {
      if Enabled(s, steps[0]) {
        NotificationKept(s, steps[0]);
        LedgerKept(s, steps[0]);
        StepGrows(s, steps[0]);
        RecordsOnlyGrow(Next(s, steps[0]), steps[1..]);
      } else {
        RecordsOnlyGrow(s, steps[1..]);
      }
    }
  }

  lemma StepGrows(s: State, step: Step)
    requires NotificationInv(s) && Enabled(s, step)
    ensures var t := Next(s, step);
            && s.log <= t.log && s.records <= t.records && (s.stop ==> t.stop)
            && t.supervised == s.supervised
            && (s.supervised && s.stop ==>
                  RecordsFrom(t.log, |s.log|) && t.interruptions == s.interruptions)
  {
    if !step.Track? && !step.Spawn? && !step.RetireOne? && !step.RecordCallback? {
      QuietShape(s, step);
    }
  }

  // ---- exact accounting -------------------------------------------------------------------

  /**
   * What retiring one completed task does, for every state, entry and result. A stop is requested
   * exactly by a panic, or by a failure that the registry did not ask for and that is not a
   * runtime-authored signal's; the task leaves one record, one unit of the counter, or nothing.
   */
  lemma RetireAccountsExactly(s: State)
    requires Enabled(s, RetireOne)
    ensures var (id, result) := s.collector.completed[0];
            var e, t := s.entries[id], Next(s, RetireOne);
            var failed, panicked := result.Err?, result == Err(Panicked);
            var loud := panicked || (failed && !e.aborted && !e.kind.RuntimeAuthoredSignal?);
            var stripped := e.kind.RuntimeAuthoredSignal? && e.aborted && result == Err(Cancelled);
            && t.entries == s.entries - {id}
            && (t.stop <==> s.stop || (s.supervised && loud))
            && (if !s.supervised || (!t.stop && !failed) then
                  t.records == s.records && t.interruptions == s.interruptions
                else if !t.stop && e.aborted then
                  && t.records == s.records
                  && t.interruptions
                     == if s.interruptions >= U64_MAX then U64_MAX else s.interruptions + 1
                else
                  && |t.records| == |s.records| + 1 && s.records <= t.records
                  && t.interruptions == s.interruptions
                  && var r := t.records[|s.records|];
                     && r.task == e.task && r.id == id && r.abortRequested == e.aborted
                     && r.error == (if failed && !stripped then Some(result.error) else None)
                     && (r.disposition.OwnerCancelled? <==> stripped))
  {
  }

  /** A callback failure that a step reports to a supervised registry, before or after a stop. */
  ghost function FailureIn(s: State, step: Step, stopped: bool): seq<string> {
    if Enabled(s, step) && step.RecordCallback? && s.supervised && s.stop == stopped
    then [step.failure] else []
  }

  /** All of them in a run, in order. */
  ghost function Failures(s: State, steps: seq<Step>, stopped: bool): seq<string>
    decreases |steps|
  {
    if steps == [] then []
    else
      FailureIn(s, steps[0], stopped)
      + Failures(if Enabled(s, steps[0]) then Next(s, steps[0]) else s, steps[1..], stopped)
  }

  lemma CallbackStep(s: State, step: Step)
    requires Enabled(s, step)
    ensures var t := Next(s, step);
            && t.callbackFailures == s.callbackFailures + FailureIn(s, step, true)
            && t.callbacksBeforeStop == s.callbacksBeforeStop + |FailureIn(s, step, false)|
  {
    if IsProtocol(step) {
      ProtocolShape(s, step);
    }
  }

  /**
   * Over every run of a supervised registry each callback failure after a stop is retained, in
   * order, and nothing else is; those before it are what the counter counts of them. Without
   * supervision all are ignored.
   */
  lemma {:induction false} CallbacksAreRetained(s: State, steps: seq<Step>)
    ensures var t := Run(s, steps);
            && t.callbackFailures == s.callbackFailures + Failures(s, steps, true)
            && t.callbacksBeforeStop == s.callbacksBeforeStop + |Failures(s, steps, false)|
    decreases |steps|
  {
    if steps != [] {
      if Enabled(s, steps[0]) {
        CallbackStep(s, steps[0]);
        CallbacksAreRetained(Next(s, steps[0]), steps[1..]);
      } else {
        CallbacksAreRetained(s, steps[1..]);
      }
    }
  }

  // ---- no silent failure ------------------------------------------------------------------

  lemma {:induction false} LoggedRecordIsKept(log: seq<Retirement>, i: nat)
    requires i < |log| && log[i].place.AsRecord?
    ensures RecordOf(log[i]) in RecordsIn(log)
  {
    if i < |log| - 1 {
      LoggedRecordIsKept(log[..|log| - 1], i);
    }
  }

  /**
   * No silent failure: a retired join that panicked, or that failed without a registry abort and
   * is not a runtime-authored signal, leaves stop requested and its error in a record. A panic
   * is never an interruption. An error is stripped from a record only for a runtime-authored
   * signal that was aborted and joined cancelled.
   */
  lemma NoSilentFailure(steps: seq<Step>, i: nat)
    requires i < |Run(Boot(true), steps).log|
    ensures var s := Run(Boot(true), steps);
            var r := s.log[i];
            var loud := r.result == Err(Panicked)
                        || (r.result.Err? && !r.entry.aborted && !r.entry.kind.RuntimeAuthoredSignal?);
            && (loud ==> s.stop && RecordOf(r) in s.records
                         && RecordOf(r).error == Some(r.result.error))
            && (r.place.AsInterruption? ==> r.entry.aborted && r.result == Err(Cancelled))
            && (r.result.Err? && !r.place.AsInterruption? ==>
                  && RecordOf(r) in s.records
                  && (RecordOf(r).error.None? <==>
                        r.entry.kind.RuntimeAuthoredSignal? && r.entry.aborted
                        && r.result == Err(Cancelled)))
  {
    ReachableIsAccounted(true, steps);
    RunKeepsSupervision(Boot(true), steps);
    var s := Run(Boot(true), steps);
    assert IsAccounted(s.stop, s.log[i]);
    if s.log[i].place.AsRecord? {
      LoggedRecordIsKept(s.log, i);
    }
  }
}
