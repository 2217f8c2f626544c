/** The worker loop over its task set: bounded admission, and a drain that joins everything. */
module Worker {
  type TaskId = nat

  function Min(a: nat, b: nat): nat { if a <= b then a else b }

  function SaturatingSub(a: nat, b: nat): nat { if a >= b then a - b else 0 }

  ghost predicate NoDuplicates(s: seq<TaskId>) {
    forall i, j :: 0 <= i < j < |s| ==> s[i] != s[j]
  }

  /** `s` lists exactly the ids below `n`. */
  ghost predicate IsAllIds(s: seq<TaskId>, n: nat) {
    forall id: TaskId :: id in s <==> id < n
  }

  /** `poll_next` of the unordered wait collection. */
  datatype PollResult = Finished(id: TaskId) | Exhausted | NotReady

  /**
   * Waits, and the abort handles kept beside them. `spawned` and `joined` are history: the
   * payload of every task in spawn order (a task's id is its position), and the ids joined.
   */
  class TaskSet<T> {
    var waits: set<TaskId>
    var aborts: set<TaskId>
    var nextId: TaskId
    ghost var spawned: seq<T>
    ghost var joined: seq<TaskId>

    ghost predicate Valid()
      reads this
    {
      && aborts == waits && nextId == |spawned|
      && (forall id: TaskId :: id in waits ==> id !in joined)
      && (forall id: TaskId :: id in waits || id in joined <==> id < |spawned|)
      && NoDuplicates(joined)
    }

    constructor ()
      ensures Valid() && waits == {} && spawned == [] && joined == []
    {
      waits, aborts, nextId := {}, {}, 0;
      spawned, joined := [], [];
    }

    function Len(): nat
      reads this
    {
      |aborts|
    }

    method Spawn(payload: T) returns (id: TaskId)
      requires Valid()
      modifies this
      ensures Valid()
      ensures id == |old(spawned)| && id !in old(waits)
      ensures waits == old(waits) + {id} && spawned == old(spawned) + [payload]
      ensures joined == old(joined)
    {
      id := nextId;
      nextId := nextId + 1;
      spawned := spawned + [payload];
      waits := waits + {id};
      aborts := aborts + {id};
    }

    /** Which finished wait is returned first is unspecified; a returned wait drops its handle. */
    method PollNext(finished: set<TaskId>) returns (r: PollResult)
      requires Valid()
      modifies this
      ensures Valid() && spawned == old(spawned)
      ensures r.Exhausted? <==> old(waits) == {}
      ensures r.NotReady? <==> old(waits) != {} && old(waits) !! finished
      ensures match r
              case Finished(id) =>
                && id in old(waits) && id in finished
                && waits == old(waits) - {id} && joined == old(joined) + [id]
              case _ => waits == old(waits) && joined == old(joined)
    {
      if waits == {} {
        return Exhausted;
      }
      if waits !! finished {
        return NotReady;
      }
      var id :| id in waits && id in finished;
      waits := waits - {id};
      joined := joined + [id];
      aborts := aborts - {id};
      r := Finished(id);
    }
  }

  /** What the environment does during one iteration of the loop. */
  datatype Iteration<T> = Iteration(
    finished: set<TaskId>,  // tasks finished when the head drains
    stopAtHead: bool,       // the shutdown watch at the head: requested or closed
    claimable: seq<T>,      // jobs the claim query could return; empty when it fails
    stopAtWait: bool)       // what the wait for shutdown or the poll interval returns

  datatype Control = Continue | DrainNow

  class WorkerLoop<T> {
    const joinSet: TaskSet<T>
    const hasClaimableTypes: bool
    const maxGlobalConcurrency: nat
    const claimBatchSize: nat
    /** History: every job any claim returned. */
    ghost var claimed: seq<T>

    ghost predicate Valid()
      reads this, joinSet
    {
      && joinSet.Valid()
      && |joinSet.waits| <= maxGlobalConcurrency
      && claimed == joinSet.spawned
    }

    constructor (hasClaimableTypes: bool, maxGlobalConcurrency: nat, claimBatchSize: nat)
      ensures Valid() && claimed == [] && fresh(joinSet)
      ensures this.hasClaimableTypes == hasClaimableTypes
      ensures this.maxGlobalConcurrency == maxGlobalConcurrency
      ensures this.claimBatchSize == claimBatchSize
    {
      this.hasClaimableTypes := hasClaimableTypes;
      this.maxGlobalConcurrency := maxGlobalConcurrency;
      this.claimBatchSize := claimBatchSize;
      joinSet := new TaskSet<T>();
      claimed := [];
    }

    method DrainFinishedTasks(finished: set<TaskId>)
      requires Valid()
      modifies joinSet
      ensures Valid()
      ensures joinSet.waits == old(joinSet.waits) - finished
      ensures joinSet.spawned == old(joinSet.spawned)
      ensures old(joinSet.joined) <= joinSet.joined
    {
      var r := joinSet.PollNext(finished);
      while r.Finished?
        invariant joinSet.Valid() && joinSet.spawned == old(joinSet.spawned)
        invariant old(joinSet.waits) - finished <= joinSet.waits <= old(joinSet.waits)
        invariant !r.Finished? ==> joinSet.waits !! finished
        invariant old(joinSet.joined) <= joinSet.joined
        decreases joinSet.waits, r.Finished?
      {
        r := joinSet.PollNext(finished);
      }
      SubsetSize(joinSet.waits, old(joinSet.waits));
    }

    /** The claim query returns at most its limit. */
    method Claim(limit: nat, claimable: seq<T>) returns (jobs: seq<T>)
      modifies this`claimed
      ensures jobs == claimable[..Min(limit, |claimable|)]
      ensures claimed == old(claimed) + jobs
    {
      jobs := claimable[..Min(limit, |claimable|)];
      claimed := claimed + jobs;
    }

    method SpawnClaimedJobs(jobs: seq<T>)
      requires joinSet.Valid()
      modifies joinSet
      ensures joinSet.Valid()
      ensures joinSet.spawned == old(joinSet.spawned) + jobs
      ensures |joinSet.waits| == |old(joinSet.waits)| + |jobs|
      ensures joinSet.joined == old(joinSet.joined)
    {
      for i := 0 to |jobs|
        invariant joinSet.Valid()
        invariant joinSet.spawned == old(joinSet.spawned) + jobs[..i]
        invariant |joinSet.waits| == |old(joinSet.waits)| + i
        invariant joinSet.joined == old(joinSet.joined)
      {
        var _ := joinSet.Spawn(jobs[i]);
        assert jobs[..i + 1] == jobs[..i] + [jobs[i]];
      }
      assert jobs[..|jobs|] == jobs;
    }

    /**
     * One turn. A head that sees stop claims nothing; otherwise the turn claims and spawns as
     * many jobs as capacity left by the finished tasks, batch size and queue allow. The wait after
     * it can drain only a turn that had no capacity, no claimable types, or an unfilled claim; after
     * an empty claim the loop goes round once more to its head.
     */
    method TakeTurn(env: Iteration<T>) returns (control: Control)
      requires Valid()
      modifies this`claimed, joinSet
      ensures Valid()
      ensures var room := SaturatingSub(maxGlobalConcurrency,
                                        |old(joinSet.waits) - env.finished|);
              var limit := Min(room, claimBatchSize);
              var taken := if env.stopAtHead || !hasClaimableTypes then 0
                           else Min(limit, |env.claimable|);
              && claimed == old(claimed) + env.claimable[..taken]
              && (control.DrainNow? <==>
                    env.stopAtHead
                    || (env.stopAtWait && (!hasClaimableTypes || room == 0 || 0 < taken < limit)))
      ensures old(joinSet.joined) <= joinSet.joined
      ensures forall id :: id in old(joinSet.waits) && id in env.finished ==>
                id in joinSet.joined
    {
      DrainFinishedTasks(env.finished);
      if env.stopAtHead {
        return DrainNow;
      }
      if !hasClaimableTypes {
        return if env.stopAtWait then DrainNow else Continue;
      }
      var available := SaturatingSub(maxGlobalConcurrency, joinSet.Len());
      if available == 0 {
        return if env.stopAtWait then DrainNow else Continue;
      }
      var limit := Min(available, claimBatchSize);
      var jobs := Claim(limit, env.claimable);
      if jobs == [] {
        return Continue;
      }
      SpawnClaimedJobs(jobs);
      if |jobs| == limit {
        return Continue;
      }
      control := if env.stopAtWait then DrainNow else Continue;
    }

    /** Awaits joins until nothing is pending, in whatever order the jobs finish. */
    method Drain()
      requires Valid()
      modifies joinSet
      ensures Valid() && joinSet.waits == {}
      ensures joinSet.spawned == old(joinSet.spawned)
    {
      var r := joinSet.PollNext(joinSet.waits);
      while r.Finished?
        invariant joinSet.Valid() && joinSet.spawned == old(joinSet.spawned)
        invariant joinSet.waits <= old(joinSet.waits)
        invariant !r.Finished? ==> joinSet.waits == {}
        decreases joinSet.waits, r.Finished?
      {
        r := joinSet.PollNext(joinSet.waits);
      }
      SubsetSize(joinSet.waits, old(joinSet.waits));
    }

    /**
     * The loop over any sequence of turns the environment offers. Once it drains, every job
     * ever claimed was spawned once, in claim order, and every spawned task was joined once.
     */
    method Run(turns: seq<Iteration<T>>) returns (drained: bool)
      requires Valid()
      modifies this`claimed, joinSet
      ensures Valid()
      ensures (exists i :: 0 <= i < |turns| && turns[i].stopAtHead) ==> drained
      ensures drained ==>
                && joinSet.waits == {}
                && joinSet.spawned == claimed
                && NoDuplicates(joinSet.joined)
                && IsAllIds(joinSet.joined, |claimed|)
                && |joinSet.joined| == |claimed|
    {
      for i := 0 to |turns|
        invariant Valid()
        invariant forall k :: 0 <= k < i ==> !turns[k].stopAtHead
      {
        var control := TakeTurn(turns[i]);
        if control.DrainNow? {
          Drain();
          AllIdsCount(joinSet.joined, |claimed|);
          return true;
        }
      }
      drained := false;
    }
  }

  lemma {:induction false} SubsetSize(a: set<TaskId>, b: set<TaskId>)
    requires a <= b
    ensures |a| <= |b|
  {
    if a != {} {
      var x :| x in a;
      SubsetSize(a - {x}, b - {x});
    }
  }

  /** Removing the largest id leaves a duplicate-free list of the smaller ones. */
  lemma {:induction false} AllIdsCount(s: seq<TaskId>, n: nat)
    requires NoDuplicates(s) && IsAllIds(s, n)
    ensures |s| == n
  {
    if n == 0 {
      assert forall i :: 0 <= i < |s| ==> s[i] in s;
    } else {
      assert (n - 1) in s;
      var k :| 0 <= k < |s| && s[k] == n - 1;
      var t := s[..k] + s[k + 1..];
      forall id: TaskId ensures id in t <==> id < n - 1 {
        if id in s {
          var m :| 0 <= m < |s| && s[m] == id;
          if m < k { assert t[m] == id; }
          if m > k { assert t[m - 1] == id; }
        }
      }
      AllIdsCount(t, n - 1);
    }
  }
}
