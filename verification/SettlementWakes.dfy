/**
 * The notification protocol of the registry over every run: no completion is lost, no live entry
 * is queued twice, and no join is polled again after it completed.
 */
module SettlementWakes {
  import opened Wrappers
  import opened Settlement

  // ---- identities -------------------------------------------------------------------------

  /** A wake that any part of the state mentions, outside the entries. */
  predicate Mentioned(s: State, w: WakeId) {
    || w in s.signal.queued || w in s.signal.ready || w in s.signal.owed
    || w in s.signal.registered || w in s.signal.pushing
    || InHand(s, w) || w in s.tasks.finished
    || w in s.tasks.gated || w in s.tasks.withheld
    || w in s.tasks.released || w in s.tasks.abortSent
  }

  ghost predicate EntriesInv(s: State) {
    forall id :: id in s.entries ==>
      s.entries[id].wake < |s.tasks.owners| && s.tasks.owners[s.entries[id].wake] == id
  }

  /** Entries and wakes name each other, and nothing mentions an unallocated wake. */
  ghost predicate IdsInv(s: State) {
    && EntriesInv(s)
    && forall w: WakeId :: Mentioned(s, w) ==> w < |s.tasks.owners|
  }

  /** Steps of shutdown, abort and callbacks leave the notification protocol alone. */
  predicate IsUnrelated(step: Step) {
    || step.Start? || step.Abort? || step.AbortJoin? || step.RecordCallback?
    || step.Request? || step.RequestBySignal?
  }

  /** The two states differ at most in abort marks, starts, shutdown and accounting. */
  ghost predicate SameProtocol(s: State, t: State) {
    && t.entries.Keys == s.entries.Keys && t.tasks.owners == s.tasks.owners
    && (forall id :: id in s.entries ==> t.entries[id].wake == s.entries[id].wake)
    && t.signal == s.signal && t.tasks.finished == s.tasks.finished && t.collector == s.collector
  }

  lemma StartIsUnrelated(s: State, w: WakeId)
    ensures SameProtocol(s, Started(s, w))
  {
  }

  lemma UnrelatedShape(s: State, step: Step)
    requires Enabled(s, step) && IsUnrelated(step)
    ensures SameProtocol(s, Next(s, step))
  {
    if step.Start? {
      StartIsUnrelated(s, step.wake);
    }
  }

  /** Steps of wakers, joins and collectors, short of retiring an entry. */
  predicate IsProtocol(step: Step) {
    || step.Complete? || step.SwapOwed? || step.SwapRegistered? || step.SwapSpurious?
    || step.Push? || step.TakeBatch? || step.PollOne? || step.FinishCollect?
  }

  /** The two states differ at most in notifications, the collector's hands and new results. */
  ghost predicate SameRegistry(s: State, t: State) {
    && t == s.(signal := t.signal, tasks := t.tasks, collector := t.collector)
    && t.tasks == s.tasks.(finished := t.tasks.finished)
    && KeepsResults(s, t)
  }

  /** No join's result is lost or changed. */
  ghost predicate KeepsResults(s: State, t: State) {
    forall w: WakeId :: w in s.tasks.finished ==>
      w in t.tasks.finished && t.tasks.finished[w] == s.tasks.finished[w]
  }

  lemma ProtocolShape(s: State, step: Step)
    requires Enabled(s, step) && IsProtocol(step)
    ensures SameRegistry(s, Next(s, step))
    ensures !step.Complete? ==> Next(s, step).tasks.finished == s.tasks.finished
  {
    if step.PollOne? {
      assert SameRegistry(s, Polled(s));
    }
  }

  lemma EntryKept(s: State, step: Step, id: TaskId)
    requires EntriesInv(s) && Enabled(s, step) && id in Next(s, step).entries
    ensures var t := Next(s, step);
            t.entries[id].wake < |t.tasks.owners| && t.tasks.owners[t.entries[id].wake] == id
  {
    if id in s.entries {
      assert s.entries[id].wake < |s.tasks.owners| && s.tasks.owners[s.entries[id].wake] == id;
    }
    if IsUnrelated(step) {
      UnrelatedShape(s, step);
    } else if step.RetireOne? {
      assert Next(s, step).entries == s.entries - {s.collector.completed[0].0};
    } else if !step.Track? && !step.Spawn? {
      assert Next(s, step).entries == s.entries && Next(s, step).tasks.owners == s.tasks.owners;
    }
  }

  /** Only allocation introduces a wake; abort marks name the wakes of live entries. */
  lemma UnrelatedMentions(s: State, step: Step, w: WakeId)
    requires IdsInv(s) && Enabled(s, step) && IsUnrelated(step)
    requires Mentioned(Next(s, step), w)
    ensures w < |s.tasks.owners|
  {
    UnrelatedShape(s, step);
    match step
    case Start(v) =>
      assert Mentioned(s, v);
      assert w == v || Mentioned(s, w);
    case Abort(mode) =>
      assert Mentioned(s, w) || exists id :: id in s.entries && s.entries[id].wake == w;
    case AbortJoin(v) => assert w == v || Mentioned(s, w);
    case _ => assert Mentioned(s, w);
  }

  lemma WakingMentions(s: State, step: Step, w: WakeId)
    requires IdsInv(s) && Enabled(s, step)
    requires step.SwapOwed? || step.SwapRegistered? || step.SwapSpurious? || step.Push?
    requires Mentioned(Next(s, step), w)
    ensures w < |s.tasks.owners|
  {
    assert step.SwapSpurious? || Mentioned(s, step.wake);
    if step.Push? {
      assert w in s.signal.ready + [step.wake] ==> w in s.signal.ready || w == step.wake;
    }
    assert w == step.wake || Mentioned(s, w);
  }

  lemma MentionsKept(s: State, step: Step, w: WakeId)
    requires IdsInv(s) && Enabled(s, step) && Mentioned(Next(s, step), w)
    ensures w < |Next(s, step).tasks.owners|
  {
    if IsUnrelated(step) {
      UnrelatedMentions(s, step, w);
      UnrelatedShape(s, step);
    } else if step.SwapOwed? || step.SwapRegistered? || step.SwapSpurious? || step.Push? {
      WakingMentions(s, step, w);
    } else {
      match step
      case TakeBatch(inc, extra) =>
        assert InHand(Next(s, step), w) ==> w in s.signal.ready || w in extra;
        assert w in extra || Mentioned(s, w);
      case PollOne =>
        assert InHand(s, s.collector.hand[0]);
        assert Mentioned(s, s.collector.hand[0]);
        assert w in s.collector.hand[1..] ==> InHand(s, w);
        assert w == s.collector.hand[0] || Mentioned(s, w);
      case Track(_, _, _) => assert w == |s.tasks.owners| || Mentioned(s, w);
      case Spawn(_, _, _) => assert w == |s.tasks.owners| || Mentioned(s, w);
      case Complete(v, _) => assert w == v || Mentioned(s, w);
      case RetireOne => assert Mentioned(s, w);
      case FinishCollect => assert Mentioned(s, w);
    }
  }

  lemma IdsKept(s: State, step: Step)
    requires IdsInv(s) && Enabled(s, step)
    ensures IdsInv(Next(s, step))
  {
    forall id | id in Next(s, step).entries
      ensures var t := Next(s, step);
              t.entries[id].wake < |t.tasks.owners| && t.tasks.owners[t.entries[id].wake] == id
    {
      EntryKept(s, step, id);
    }
    forall w: WakeId | Mentioned(Next(s, step), w) ensures w < |Next(s, step).tasks.owners| {
      MentionsKept(s, step, w);
    }
  }

  // ---- the notification protocol ----------------------------------------------------------

  /** How often a wake is in the ready queue or on its way there. */
  function Credits(s: State, w: WakeId): nat { multiset(s.signal.ready)[w] + s.signal.pushing[w] }

  function TimesInHand(s: State, w: WakeId): nat {
    if s.collector.Collecting? then multiset(s.collector.hand)[w] else 0
  }

  /** A live entry whose completion no collector has seen yet. */
  ghost predicate Outstanding(s: State, w: WakeId) {
    Live(s, w) && !InCompleted(s, s.tasks.owners[w])
  }

  ghost predicate WakeInv(s: State, w: WakeId) {
    && (w < |s.tasks.owners| && !Live(s, w) ==> w in s.tasks.finished)
    && (Outstanding(s, w) ==>
          && Credits(s, w) <= 1 && TimesInHand(s, w) <= 1
          && (Credits(s, w) == 1 ==> w in s.signal.queued)
          && (w in s.signal.queued ==> Credits(s, w) == 1 || TimesInHand(s, w) == 1)
          && (w in s.signal.owed || w in s.signal.registered
              || Credits(s, w) == 1 || TimesInHand(s, w) == 1)
          && (TimesInHand(s, w) == 1 && w !in s.tasks.finished ==>
                w in s.signal.queued && Credits(s, w) == 0))
    && (Live(s, w) && InCompleted(s, s.tasks.owners[w]) ==> TimesInHand(s, w) == 0)
  }

  /** Completed joins are live, distinct, and carry their task's result. */
  ghost predicate CompletedInv(s: State) {
    s.collector.Collecting? ==>
      var c := s.collector.completed;
      && (forall i :: 0 <= i < |c| ==>
            && c[i].0 in s.entries
            && s.entries[c[i].0].wake in s.tasks.finished
            && s.tasks.finished[s.entries[c[i].0].wake] == c[i].1)
      && (forall i, j :: 0 <= i < j < |c| ==> c[i].0 != c[j].0)
  }

  ghost predicate NotificationInv(s: State) {
    && IdsInv(s)
    && CompletedInv(s)
    && forall w: WakeId :: WakeInv(s, w)
  }

  lemma BootNotification(supervised: bool)
    ensures NotificationInv(Boot(supervised))
  {
  }

  lemma {:induction false} MultisetHas<T>(q: seq<T>, x: T)
    ensures multiset(q)[x] > 0 <==> x in q
  {
  }

  lemma SameProtocolKeepsWakes(s: State, t: State)
    requires NotificationInv(s) && IdsInv(t) && SameProtocol(s, t)
    ensures NotificationInv(t)
  {
    forall w: WakeId ensures WakeInv(t, w) {
      assert WakeInv(s, w);
      assert Live(t, w) == Live(s, w);
    }
  }

  lemma TrackKeepsWakes(s: State, id: TaskId, task: string, kind: EntryKind, isGated: bool)
    requires NotificationInv(s) && s.collector.Idle? && id !in s.entries
    requires IdsInv(Tracked(s, id, task, kind, isGated))
    ensures NotificationInv(Tracked(s, id, task, kind, isGated))
  {
    var t := Tracked(s, id, task, kind, isGated);
    var n := |s.tasks.owners|;
    forall w: WakeId ensures WakeInv(t, w) {
      assert WakeInv(s, w);
      if w == n {
        assert !Mentioned(s, n);
        MultisetHas(s.signal.ready, n);
      } else if w < n {
        assert t.tasks.owners[w] == s.tasks.owners[w];
        assert Live(t, w) == Live(s, w);
      }
    }
  }

  lemma CompleteKeepsWakes(s: State, w: WakeId, r: JoinResult)
    requires NotificationInv(s) && Enabled(s, Complete(w, r))
    ensures NotificationInv(Next(s, Complete(w, r)))
  {
    var t := Next(s, Complete(w, r));
    IdsKept(s, Complete(w, r));
    forall v: WakeId ensures WakeInv(t, v) {
      assert WakeInv(s, v);
      assert Live(t, v) == Live(s, v);
    }
  }

  /** `Swapped`, after which the caller's credit of `w` may be gone. */
  lemma SwapKeepsWakes(s: State, t: State, w: WakeId)
    requires NotificationInv(s) && w < |s.tasks.owners| && IdsInv(t)
    requires t == s.(signal := Swapped(s.signal, w).(owed := t.signal.owed,
                                                     registered := t.signal.registered))
    requires s.signal.owed - {w} <= t.signal.owed <= s.signal.owed
    requires s.signal.registered - {w} <= t.signal.registered <= s.signal.registered
    ensures NotificationInv(t)
  {
    forall v: WakeId ensures WakeInv(t, v) {
      assert WakeInv(s, v);
      assert Live(t, v) == Live(s, v);
      assert TimesInHand(t, v) == TimesInHand(s, v);
      assert Credits(t, v) == Credits(s, v) + if v == w && w !in s.signal.queued then 1 else 0;
    }
  }

  lemma PushKeepsWakes(s: State, w: WakeId)
    requires NotificationInv(s) && w in s.signal.pushing
    ensures NotificationInv(Next(s, Push(w)))
  {
    var t := Next(s, Push(w));
    IdsKept(s, Push(w));
    forall v: WakeId ensures WakeInv(t, v) {
      assert WakeInv(s, v);
      assert Live(t, v) == Live(s, v);
      assert multiset(t.signal.ready) == multiset(s.signal.ready) + multiset{w};
      assert Credits(t, v) == Credits(s, v);
    }
  }

  lemma {:induction false} DistinctOnce(q: seq<WakeId>, w: WakeId)
    requires forall i, j :: 0 <= i < j < |q| ==> q[i] != q[j]
    ensures multiset(q)[w] <= 1
  {
    if q != [] {
      DistinctOnce(q[1..], w);
      assert q == [q[0]] + q[1..];
      MultisetHas(q[1..], w);
    }
  }

  lemma TakeKeepsWakes(s: State, inc: bool, extra: seq<WakeId>)
    requires NotificationInv(s) && Enabled(s, TakeBatch(inc, extra))
    ensures NotificationInv(Next(s, TakeBatch(inc, extra)))
  {
    var t := Next(s, TakeBatch(inc, extra));
    IdsKept(s, TakeBatch(inc, extra));
    forall w: WakeId ensures WakeInv(t, w) {
      assert WakeInv(s, w);
      assert Live(t, w) == Live(s, w);
      DistinctOnce(extra, w);
      MultisetHas(extra, w);
      MultisetHas(s.signal.ready, w);
      assert multiset(s.signal.ready + extra)[w] == multiset(s.signal.ready)[w] + multiset(extra)[w];
    }
  }

  /** What polling changes for one wake. */
  lemma PollEffect(s: State, w: WakeId)
    requires NotificationInv(s) && Enabled(s, PollOne)
    ensures var t, x := Next(s, PollOne), s.collector.hand[0];
            && Live(t, w) == Live(s, w) && Credits(t, w) == Credits(s, w)
            && TimesInHand(s, w) == TimesInHand(t, w) + (if w == x then 1 else 0)
            && t.tasks.finished == s.tasks.finished && t.tasks.owners == s.tasks.owners
            && t.signal.owed == s.signal.owed
            && (w in t.signal.queued <==> w in s.signal.queued && (w != x || !Live(s, x)))
            && (w in t.signal.registered <==>
                  w in s.signal.registered || (w == x && Live(s, x) && x !in s.tasks.finished))
  {
    var x := s.collector.hand[0];
    var rest: seq<WakeId> := s.collector.hand[1..];
    assert s.collector.hand == [x] + rest;
  }

  lemma PollKeepsWake(s: State, w: WakeId)
    requires NotificationInv(s) && Enabled(s, PollOne)
    ensures WakeInv(Next(s, PollOne), w)
  {
    assert WakeInv(s, w);
    PollEffect(s, w);
    if Live(s, w) {
      PollCompletes(s, w);
    }
  }

  lemma PolledIsOutstanding(s: State)
    requires NotificationInv(s) && Enabled(s, PollOne)
    ensures var x := s.collector.hand[0];
            Live(s, x) ==> !InCompleted(s, s.tasks.owners[x])
  {
    assert WakeInv(s, s.collector.hand[0]);
    MultisetHas(s.collector.hand, s.collector.hand[0]);
  }

  lemma PollKeepsWakes(s: State)
    requires NotificationInv(s) && Enabled(s, PollOne)
    ensures NotificationInv(Next(s, PollOne))
  {
    IdsKept(s, PollOne);
    PolledIsOutstanding(s);
    PollKeepsCompleted(s);
    forall w: WakeId ensures WakeInv(Next(s, PollOne), w) {
      PollKeepsWake(s, w);
    }
  }

  lemma PollKeepsCompleted(s: State)
    requires NotificationInv(s) && Enabled(s, PollOne)
    requires var x := s.collector.hand[0];
             Live(s, x) ==> !InCompleted(s, s.tasks.owners[x])
    ensures CompletedInv(Next(s, PollOne))
  {
    var x, c := s.collector.hand[0], s.collector.completed;
    if Live(s, x) && x in s.tasks.finished {
      forall i | 0 <= i < |c| ensures c[i].0 != s.tasks.owners[x] {
      }
    }
  }

  /** Polling adds exactly the polled entry to the completed ones, and only if it is finished. */
  lemma PollCompletes(s: State, w: WakeId)
    requires NotificationInv(s) && Enabled(s, PollOne) && Live(s, w)
    ensures var x := s.collector.hand[0];
            InCompleted(Next(s, PollOne), s.tasks.owners[w])
            <==> InCompleted(s, s.tasks.owners[w]) || (w == x && w in s.tasks.finished)
  {
    var x, c := s.collector.hand[0], s.collector.completed;
    var d := Next(s, PollOne).collector.completed;
    if InCompleted(s, s.tasks.owners[w]) {
      var i :| 0 <= i < |c| && c[i].0 == s.tasks.owners[w];
      assert d[i].0 == s.tasks.owners[w];
    }
    if w == x && w in s.tasks.finished {
      assert d[|c|].0 == s.tasks.owners[w];
    }
  }

  lemma RetireKeepsWakes(s: State)
    requires NotificationInv(s) && Enabled(s, RetireOne)
    ensures NotificationInv(Next(s, RetireOne))
  {
    var t := Next(s, RetireOne);
    var c := s.collector.completed;
    IdsKept(s, RetireOne);
    assert forall i :: 0 <= i < |c[1..]| ==> c[1..][i] == c[i + 1];
    forall w: WakeId ensures WakeInv(t, w) {
      assert WakeInv(s, w);
      if Live(t, w) {
        assert s.tasks.owners[w] != c[0].0 && Live(s, w);
        RetireKeepsOthers(s, s.tasks.owners[w]);
      } else if Live(s, w) {
        assert s.entries[s.tasks.owners[w]].wake == w && s.tasks.owners[w] == c[0].0;
      }
    }
  }

  lemma RetireKeepsOthers(s: State, id: TaskId)
    requires Enabled(s, RetireOne) && id != s.collector.completed[0].0
    ensures InCompleted(Next(s, RetireOne), id) == InCompleted(s, id)
  {
    var c := s.collector.completed;
    if InCompleted(s, id) {
      var i :| 0 <= i < |c| && c[i].0 == id;
      assert c[1..][i - 1].0 == id;
    }
    if InCompleted(Next(s, RetireOne), id) {
      var i :| 0 <= i < |c[1..]| && c[1..][i].0 == id;
      assert c[i + 1].0 == id;
    }
  }

  lemma FinishKeepsWakes(s: State)
    requires NotificationInv(s) && Enabled(s, FinishCollect)
    ensures NotificationInv(Next(s, FinishCollect))
  {
    var t := Next(s, FinishCollect);
    IdsKept(s, FinishCollect);
    forall w: WakeId ensures WakeInv(t, w) {
      assert WakeInv(s, w);
    }
  }

  lemma UnrelatedKeepsWakes(s: State, step: Step)
    requires NotificationInv(s) && Enabled(s, step) && IsUnrelated(step)
    ensures NotificationInv(Next(s, step))
  {
    IdsKept(s, step);
    UnrelatedShape(s, step);
    SameProtocolKeepsWakes(s, Next(s, step));
  }

  lemma WakingKeepsWakes(s: State, step: Step)
    requires NotificationInv(s) && Enabled(s, step)
    requires step.SwapOwed? || step.SwapRegistered? || step.SwapSpurious?
    ensures NotificationInv(Next(s, step))
  {
    IdsKept(s, step);
    assert Mentioned(s, step.wake) || step.SwapSpurious?;
    SwapKeepsWakes(s, Next(s, step), step.wake);
  }

  lemma AllocationKeepsWakes(s: State, step: Step)
    requires NotificationInv(s) && Enabled(s, step) && (step.Track? || step.Spawn?)
    ensures NotificationInv(Next(s, step))
  {
    IdsKept(s, step);
    TrackKeepsWakes(s, step.id, step.task, step.kind, step.Spawn?);
  }

  lemma NotificationKept(s: State, step: Step)
    requires NotificationInv(s) && Enabled(s, step)
    ensures NotificationInv(Next(s, step))
  {
    if IsUnrelated(step) {
      UnrelatedKeepsWakes(s, step);
    } else if step.Track? || step.Spawn? {
      AllocationKeepsWakes(s, step);
    } else if step.SwapOwed? || step.SwapRegistered? || step.SwapSpurious? {
      WakingKeepsWakes(s, step);
    } else {
      match step
      case Complete(w, r) => CompleteKeepsWakes(s, w, r);
      case Push(w) => PushKeepsWakes(s, w);
      case TakeBatch(inc, extra) => TakeKeepsWakes(s, inc, extra);
      case PollOne => PollKeepsWakes(s);
      case RetireOne => RetireKeepsWakes(s);
      case FinishCollect => FinishKeepsWakes(s);
    }
  }

  lemma {:induction false} RunKeepsNotification(s: State, steps: seq<Step>)
    requires NotificationInv(s)
    ensures NotificationInv(Run(s, steps))
    decreases |steps|
  {
    if steps != [] {
      if Enabled(s, steps[0]) {
        NotificationKept(s, steps[0]);
        RunKeepsNotification(Next(s, steps[0]), steps[1..]);
      } else {
        RunKeepsNotification(s, steps[1..]);
      }
    }
  }

  lemma ReachableIsSound(supervised: bool, steps: seq<Step>)
    ensures NotificationInv(Run(Boot(supervised), steps))
  {
    BootNotification(supervised);
    RunKeepsNotification(Boot(supervised), steps);
  }

  // ---- no lost completions ----------------------------------------------------------------

  /**
   * Between collectors, a live entry whose join has completed is in the ready queue exactly
   * once, unless one of its wakes is still under way.
   */
  lemma CompletionIsAnnounced(supervised: bool, steps: seq<Step>, w: WakeId)
    requires var s := Run(Boot(supervised), steps);
             && s.collector.Idle? && Live(s, w) && w in s.tasks.finished
             && w !in s.signal.owed && w !in s.signal.registered && w !in s.signal.pushing
    ensures multiset(Run(Boot(supervised), steps).signal.ready)[w] == 1
  {
    ReachableIsSound(supervised, steps);
    assert WakeInv(Run(Boot(supervised), steps), w);
  }

  /** Between collectors a live entry is in the ready queue, or on its way there, at most once. */
  lemma QueuedAtMostOnce(supervised: bool, steps: seq<Step>, w: WakeId)
    requires var s := Run(Boot(supervised), steps); s.collector.Idle? && Live(s, w)
    ensures var s := Run(Boot(supervised), steps);
            && Credits(s, w) <= 1
            && (w in s.signal.queued <==> Credits(s, w) == 1)
            && (w in s.signal.owed || w in s.signal.registered || w in s.signal.queued)
  {
    ReachableIsSound(supervised, steps);
    assert WakeInv(Run(Boot(supervised), steps), w);
  }

  /**
   * A collector polls a join only while no earlier poll returned it complete, and every
   * completed join it retires is still registered, so its lookup cannot fail.
   */
  lemma NoJoinIsPolledAfterCompletion(supervised: bool, steps: seq<Step>)
    requires Run(Boot(supervised), steps).collector.Collecting?
    ensures var s := Run(Boot(supervised), steps);
            var c := s.collector;
            && (c.hand != [] && Live(s, c.hand[0]) ==> !InCompleted(s, s.tasks.owners[c.hand[0]]))
            && (c.hand == [] && c.completed != [] ==> Enabled(s, RetireOne))
            && (forall i, j :: 0 <= i < j < |c.completed| ==> c.completed[i].0 != c.completed[j].0)
  {
    ReachableIsSound(supervised, steps);
    var s := Run(Boot(supervised), steps);
    if s.collector.hand != [] {
      PolledIsOutstanding(s);
    }
  }

  /** The join of `w` has completed, and it is retired or in the collector's hands. */
  ghost predicate Due(s: State, w: WakeId) {
    && w < |s.tasks.owners| && w in s.tasks.finished
    && (Live(s, w) ==> InHand(s, w) || InCompleted(s, s.tasks.owners[w]))
  }

  lemma DueIsKept(s: State, step: Step, w: WakeId)
    requires NotificationInv(s) && Enabled(s, step) && Due(s, w)
    ensures Due(Next(s, step), w)
  {
    var t := Next(s, step);
    if IsUnrelated(step) {
      UnrelatedShape(s, step);
    } else if step.RetireOne? {
      if Live(t, w) {
        RetireKeepsOthers(s, s.tasks.owners[w]);
      }
    } else if step.Track? || step.Spawn? {
      assert t.tasks.owners[w] == s.tasks.owners[w];
    } else {
      ProtocolShape(s, step);
      if Live(s, w) {
        HandsAreKept(s, step, w);
      }
    }
  }

  lemma HandsAreKept(s: State, step: Step, w: WakeId)
    requires NotificationInv(s) && Enabled(s, step) && IsProtocol(step)
    requires Live(s, w) && w in s.tasks.finished && (InHand(s, w) || InCompleted(s, s.tasks.owners[w]))
    ensures InHand(Next(s, step), w) || InCompleted(Next(s, step), s.tasks.owners[w])
  {
    if step.PollOne? {
      var hand := s.collector.hand;
      assert InHand(s, w) ==> w == hand[0] || w in hand[1..];
      PollCompletes(s, w);
    }
  }

  lemma {:induction false} RunKeepsDue(s: State, steps: seq<Step>, w: WakeId)
    requires NotificationInv(s) && Due(s, w)
    ensures Due(Run(s, steps), w)
    decreases |steps|
  {
    if steps != [] {
      if Enabled(s, steps[0]) {
        NotificationKept(s, steps[0]);
        DueIsKept(s, steps[0], w);
        RunKeepsDue(Next(s, steps[0]), steps[1..], w);
      } else {
        RunKeepsDue(s, steps[1..], w);
      }
    }
  }

  /**
   * No lost completions: whatever is interleaved, once a collector that started after the join
   * completed is done, the entry is retired. A collector that looks at finished handles needs
   * nothing more; one that does not needs the entry in the ready queue it takes.
   */
  lemma CollectorRetiresCompleted(
      supervised: bool, before: seq<Step>, inc: bool, extra: seq<WakeId>, during: seq<Step>, w: WakeId)
    requires var s := Run(Boot(supervised), before);
             && Enabled(s, TakeBatch(inc, extra))
             && Live(s, w) && w in s.tasks.finished && (inc || w in s.signal.ready)
             && Run(Next(s, TakeBatch(inc, extra)), during).collector.Idle?
    ensures var s := Run(Boot(supervised), before);
            !Live(Run(Next(s, TakeBatch(inc, extra)), during), w)
  {
    ReachableIsSound(supervised, before);
    var s := Run(Boot(supervised), before);
    var t := Next(s, TakeBatch(inc, extra));
    NotificationKept(s, TakeBatch(inc, extra));
    assert InHand(t, w);
    RunKeepsDue(t, during, w);
  }
}
