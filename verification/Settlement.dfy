/**
 * The task registry as a transition system. Every operation of the registry, every completing
 * join and every invoked waker is a step; a run is any sequence of steps.
 *
 * Wakes are identified by their allocation, because a task id may be used again after its task
 * was retired. The registry lock is held from a collector's first step to its last, so steps
 * that need it are disabled in between; completions, wakes and shutdown requests are not.
 */
module Settlement {
  import opened Wrappers

  type TaskId = nat
  type WakeId = nat
  type SignalId = nat

  const U64_MAX: nat := 0xffff_ffff_ffff_ffff

  function SaturatingSucc(n: nat): nat { if n >= U64_MAX then U64_MAX else n + 1 }

  // ---- classification ---------------------------------------------------------------------

  datatype JoinError = Cancelled | Panicked

  type JoinResult = Result<(), JoinError>

  datatype EntryKind =
    | Task
    | RuntimeAuthoredSignal(signal: SignalId)
    | ApplicationSuppliedSignal(signal: SignalId)

  datatype AbortMode = NoAbort | AfterGracefulTimeout | All

  datatype CancellationPolicy = Unexpected | WithOwner

  datatype Disposition = Observed | OwnerCancelled

  datatype Classification = Classification(disposition: Disposition, requestsShutdown: bool)

  function Rank(mode: AbortMode): nat {
    match mode
    case NoAbort => 0
    case AfterGracefulTimeout => 1
    case All => 2
  }

  function MaxMode(a: AbortMode, b: AbortMode): AbortMode { if Rank(a) >= Rank(b) then a else b }

  function Cancellation(kind: EntryKind): CancellationPolicy {
    if kind.RuntimeAuthoredSignal? then WithOwner else Unexpected
  }

  function ShouldAbort(kind: EntryKind, mode: AbortMode, initiating: set<SignalId>): bool {
    match mode
    case NoAbort => false
    case All => true
    case AfterGracefulTimeout => kind.Task? || kind.signal !in initiating
  }

  function Classify(kind: EntryKind, abortRequested: bool, result: JoinResult): Classification {
    var policy := Cancellation(kind);
    Classification(
      if policy.WithOwner? && abortRequested && result == Err(Cancelled) then OwnerCancelled
      else Observed,
      result.Err? && (result.error.Panicked? || (!abortRequested && policy.Unexpected?)))
  }

  // ---- state ------------------------------------------------------------------------------

  datatype Entry = Entry(task: string, wake: WakeId, aborted: bool, kind: EntryKind)

  datatype Record = Record(
    task: string, id: TaskId, abortRequested: bool, error: Option<JoinError>,
    disposition: Disposition)

  /** What retiring an entry left behind. */
  datatype Place = AsRecord | AsInterruption | Silently

  datatype Retirement = Retirement(id: TaskId, entry: Entry, result: JoinResult, place: Place)

  /** A collector's batch still in hand, and the joins it found complete. */
  datatype Collector =
    | Idle
    | Collecting(hand: seq<WakeId>, completed: seq<(TaskId, JoinResult)>)

  /** Notifications. Wakers only ever touch this part. */
  datatype RegistrySignal = RegistrySignal(
    queued: set<WakeId>,         // wakes whose flag is set
    ready: seq<WakeId>,          // the ready queue
    owed: set<WakeId>,           // tracked, initial wake not yet run
    registered: set<WakeId>,     // wakers a pending join holds
    pushing: multiset<WakeId>)   // flag swapped, push still in flight

  /** The tasks behind the entries, as the runtime sees them. */
  datatype TaskWorld = TaskWorld(
    owners: seq<TaskId>,         // the task id of every wake ever allocated
    finished: map<WakeId, JoinResult>,
    abortSent: set<WakeId>,
    gated: set<WakeId>,          // spawned, start not yet decided
    withheld: set<WakeId>,       // start denied for ever
    released: set<WakeId>)       // the application future may run

  datatype State = State(
    // guarded by the registry lock
    supervised: bool,
    entries: map<TaskId, Entry>,
    records: seq<Record>,
    mode: AbortMode,
    callbackFailures: seq<string>,
    interruptions: nat,
    collector: Collector,
    // outside the lock
    signal: RegistrySignal,
    tasks: TaskWorld,
    stop: bool,
    initiating: set<SignalId>,
    // history
    log: seq<Retirement>,
    callbacksBeforeStop: nat)

  function Boot(supervised: bool): State {
    State(supervised, map[], [], NoAbort, [], 0, Idle,
          RegistrySignal({}, [], {}, {}, multiset{}),
          TaskWorld([], map[], {}, {}, {}, {}),
          false, {}, [], 0)
  }

  predicate Live(s: State, w: WakeId) {
    w < |s.tasks.owners| && s.tasks.owners[w] in s.entries && s.entries[s.tasks.owners[w]].wake == w
  }

  predicate InHand(s: State, w: WakeId) { s.collector.Collecting? && w in s.collector.hand }

  predicate InCompleted(s: State, id: TaskId) {
    s.collector.Collecting? &&
    exists i :: 0 <= i < |s.collector.completed| && s.collector.completed[i].0 == id
  }

  // ---- steps ------------------------------------------------------------------------------

  datatype Step =
    | Track(id: TaskId, task: string, kind: EntryKind)
    | Spawn(id: TaskId, task: string, kind: EntryKind)
    | Start(wake: WakeId)
    | Complete(wake: WakeId, result: JoinResult)
    | SwapOwed(wake: WakeId)
    | SwapRegistered(wake: WakeId)
    | SwapSpurious(wake: WakeId)
    | Push(wake: WakeId)
    | TakeBatch(includeFinished: bool, extra: seq<WakeId>)
    | PollOne
    | RetireOne
    | FinishCollect
    | Abort(mode: AbortMode)
    | AbortJoin(wake: WakeId)
    | RecordCallback(failure: string)
    | Request
    | RequestBySignal(signal: SignalId)

  /** A new entry with its wake; the task is behind its start gate or already running. */
  function Tracked(s: State, id: TaskId, task: string, kind: EntryKind, isGated: bool): State {
    var w := |s.tasks.owners|;
    s.(entries := s.entries[id := Entry(task, w, false, kind)],
       signal := s.signal.(owed := s.signal.owed + {w}),
       tasks := if isGated
                then s.tasks.(owners := s.tasks.owners + [id], gated := s.tasks.gated + {w})
                else s.tasks.(owners := s.tasks.owners + [id], released := s.tasks.released + {w}))
  }

  /** `queued.swap(true)`; the push follows only when the flag was clear. */
  function Swapped(n: RegistrySignal, w: WakeId): RegistrySignal {
    if w in n.queued then n
    else n.(queued := n.queued + {w}, pushing := n.pushing + multiset{w})
  }

  function Pushed(n: RegistrySignal, w: WakeId): RegistrySignal {
    n.(pushing := n.pushing - multiset{w}, ready := n.ready + [w])
  }

  /** Whether `extra` lists the finished live entries that are not in the ready queue, once each. */
  ghost predicate IsExtra(s: State, includeFinished: bool, extra: seq<WakeId>) {
    if !includeFinished then extra == []
    else
      && (forall i, j :: 0 <= i < j < |extra| ==> extra[i] != extra[j])
      && (forall w :: w in extra <==> Live(s, w) && w in s.tasks.finished && w !in s.signal.ready)
  }

  /** Take the ready queue, and `extra` behind it. */
  function Taken(s: State, extra: seq<WakeId>): State {
    s.(signal := s.signal.(ready := []), collector := Collecting(s.signal.ready + extra, []))
  }

  /** Clear the flag and poll the join of the first wake in hand; a stale wake is skipped. */
  function Polled(s: State): State
    requires s.collector.Collecting? && s.collector.hand != []
  {
    var w, rest := s.collector.hand[0], s.collector.hand[1..];
    if !Live(s, w) then s.(collector := s.collector.(hand := rest))
    else if w in s.tasks.finished then
      s.(signal := s.signal.(queued := s.signal.queued - {w}),
         collector := Collecting(
           rest, s.collector.completed + [(s.tasks.owners[w], s.tasks.finished[w])]))
    else
      s.(signal := s.signal.(queued := s.signal.queued - {w},
                             registered := s.signal.registered + {w}),
         collector := s.collector.(hand := rest))
  }

  function RecordOf(r: Retirement): Record {
    var d := Classify(r.entry.kind, r.entry.aborted, r.result).disposition;
    Record(r.entry.task, r.id, r.entry.aborted,
           if d.OwnerCancelled? || r.result.Ok? then None else Some(r.result.error), d)
  }

  function PlaceOf(supervised: bool, stopping: bool, aborted: bool, result: JoinResult): Place {
    if supervised && !stopping && aborted && result.Err? then AsInterruption
    else if supervised && (stopping || result.Err?) then AsRecord
    else Silently
  }

  /** Remove the first completed entry, request shutdown if it calls for it, and account for it. */
  function Retired(s: State): State
    requires s.collector.Collecting? && s.collector.completed != []
    requires s.collector.completed[0].0 in s.entries
  {
    var (id, result) := s.collector.completed[0];
    var entry := s.entries[id];
    var classification := Classify(entry.kind, entry.aborted, result);
    var stop := s.stop || (s.supervised && classification.requestsShutdown);
    var r := Retirement(id, entry, result, PlaceOf(s.supervised, stop, entry.aborted, result));
    s.(entries := s.entries - {id},
       stop := stop,
       records := if r.place.AsRecord? then s.records + [RecordOf(r)] else s.records,
       interruptions := if r.place.AsInterruption? then SaturatingSucc(s.interruptions)
                        else s.interruptions,
       collector := s.collector.(completed := s.collector.completed[1..]),
       log := s.log + [r])
  }

  /** The sweep of an abort phase over the live entries. */
  function Aborted(s: State, mode: AbortMode): State {
    var m := MaxMode(s.mode, mode);
    s.(mode := m,
       entries := map id | id in s.entries :: Swept(s, m, s.entries[id]),
       tasks := s.tasks.(abortSent := s.tasks.abortSent + SentTo(s, m, s.entries.Keys)))
  }

  /** The wakes of the entries among `ids` that a sweep under `mode` aborts. */
  function SentTo(s: State, mode: AbortMode, ids: set<TaskId>): set<WakeId> {
    set id | id in ids && id in s.entries && Sweeps(s, mode, s.entries[id]) :: s.entries[id].wake
  }

  predicate Sweeps(s: State, mode: AbortMode, e: Entry) {
    e.wake !in s.tasks.finished && ShouldAbort(e.kind, mode, s.initiating)
  }

  function Swept(s: State, mode: AbortMode, e: Entry): Entry {
    if Sweeps(s, mode, e) then e.(aborted := true) else e
  }

  function MarkAborted(s: State, w: WakeId): State
    requires Live(s, w)
  {
    s.(entries := s.entries[s.tasks.owners[w] := s.entries[s.tasks.owners[w]].(aborted := true)],
       tasks := s.tasks.(abortSent := s.tasks.abortSent + {w}))
  }

  /** The second half of `spawn_on`: abort under a covering mode, else let the future start. */
  function Started(s: State, w: WakeId): State {
    if Live(s, w) && ShouldAbort(s.entries[s.tasks.owners[w]].kind, s.mode, s.initiating) then
      s.(tasks := s.tasks.(gated := s.tasks.gated - {w}, withheld := s.tasks.withheld + {w},
                           abortSent := s.tasks.abortSent + {w}),
         entries := s.entries[s.tasks.owners[w] :=
                                s.entries[s.tasks.owners[w]].(aborted := true)])
    else
      s.(tasks := s.tasks.(gated := s.tasks.gated - {w}, released := s.tasks.released + {w}))
  }

  function WithCallback(s: State, failure: string): State {
    if !s.supervised then s
    else if s.stop then s.(callbackFailures := s.callbackFailures + [failure])
    else s.(interruptions := SaturatingSucc(s.interruptions),
            callbacksBeforeStop := s.callbacksBeforeStop + 1)
  }

  /** Whether a step can happen. Completion is the environment's; a task that was never released
      can only be cancelled. */
  ghost predicate Enabled(s: State, step: Step) {
    match step
    case Track(id, _, _) => s.collector.Idle? && id !in s.entries
    case Spawn(id, _, _) => s.collector.Idle? && id !in s.entries
    case Start(w) => s.collector.Idle? && w in s.tasks.gated
    case Complete(w, r) =>
      && w < |s.tasks.owners| && w !in s.tasks.finished
      && (w !in s.tasks.released ==> r == Err(Cancelled))
    case SwapOwed(w) => w in s.signal.owed
    case SwapRegistered(w) => w in s.signal.registered
    case SwapSpurious(w) => w < |s.tasks.owners|
    case Push(w) => w in s.signal.pushing
    case TakeBatch(inc, extra) => s.collector.Idle? && IsExtra(s, inc, extra)
    case PollOne => s.collector.Collecting? && s.collector.hand != []
    case RetireOne =>
      && s.collector.Collecting? && s.collector.hand == [] && s.collector.completed != []
      && s.collector.completed[0].0 in s.entries
    case FinishCollect => s.collector == Collecting([], [])
    case Abort(_) => s.collector.Idle?
    case AbortJoin(w) => s.collector.Idle? && Live(s, w)
    case RecordCallback(_) => s.collector.Idle?
    case Request => true
    case RequestBySignal(_) => true
  }

  ghost function Next(s: State, step: Step): State
    requires Enabled(s, step)
  {
    match step
    case Track(id, task, kind) => Tracked(s, id, task, kind, false)
    case Spawn(id, task, kind) => Tracked(s, id, task, kind, true)
    case Start(w) => Started(s, w)
    case Complete(w, r) => s.(tasks := s.tasks.(finished := s.tasks.finished[w := r]))
    case SwapOwed(w) => s.(signal := Swapped(s.signal, w).(owed := s.signal.owed - {w}))
    case SwapRegistered(w) =>
      s.(signal := Swapped(s.signal, w).(registered := s.signal.registered - {w}))
    case SwapSpurious(w) => s.(signal := Swapped(s.signal, w))
    case Push(w) => s.(signal := Pushed(s.signal, w))
    case TakeBatch(_, extra) => Taken(s, extra)
    case PollOne => Polled(s)
    case RetireOne => Retired(s)
    case FinishCollect => s.(collector := Idle)
    case Abort(mode) => Aborted(s, mode)
    case AbortJoin(w) => MarkAborted(s, w)
    case RecordCallback(failure) => WithCallback(s, failure)
    case Request => s.(stop := true)
    case RequestBySignal(sig) =>
      s.(initiating := if s.stop then s.initiating else s.initiating + {sig}, stop := true)
  }

  /** A disabled step does not happen. */
  ghost function Run(s: State, steps: seq<Step>): State
    decreases |steps|
  {
    if steps == [] then s
    else Run(if Enabled(s, steps[0]) then Next(s, steps[0]) else s, steps[1..])
  }

  lemma {:induction false} RunAppend(s: State, a: seq<Step>, b: seq<Step>)
    ensures Run(s, a + b) == Run(Run(s, a), b)
    decreases |a|
  {
    if a == [] {
      assert a + b == b;
    } else {
      assert (a + b)[1..] == a[1..] + b;
      RunAppend(if Enabled(s, a[0]) then Next(s, a[0]) else s, a[1..], b);
    }
  }
}
