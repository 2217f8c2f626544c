/**
 * One scheduler pass: claimed schedules are materialised one by one inside one transaction,
 * each under its own savepoint; a failing schedule is rolled back and deferred.
 */
module ScheduleBatch {
  import opened Wrappers
  import opened CronCatchUp
  import opened CronExactness

  /** A claimed `job_schedules` row; `cron` is none when its expression does not parse. */
  datatype Schedule = Schedule(id: ScheduleId, cron: Option<Cron>, maxJitter: int, nextFireAt: int)

  datatype Job = Job(scheduleId: ScheduleId, scheduledFor: int, runAt: int)

  datatype Cursor = Cursor(nextFireAt: int, lastFiredAt: Option<int>)

  /** The rows a pass can touch. */
  datatype Db = Db(cursors: map<ScheduleId, Cursor>, jobs: seq<Job>)

  datatype SchedulerError =
    | BeginTransaction
    | ClaimDueSchedules
    | CommitTransaction
    | SavepointCreate
    | SavepointRollback
    | SavepointRelease
    | InvalidCronExpression(id: ScheduleId)
    | EnqueueScheduledJob(id: ScheduleId)
    | MarkScheduleFired(id: ScheduleId)
    | DeferFailedSchedule(id: ScheduleId)
    | ClaimedScheduleMissing(id: ScheduleId)

  /** Which statements PostgreSQL executes without error while one schedule is processed. */
  datatype Weather = Weather(
    savepoint: bool, enqueue: bool, mark: bool, rollback: bool, release: bool, defer: bool)

  datatype Claim = Claim(schedule: Schedule, weather: Weather)

  // ---- the transaction --------------------------------------------------------------------

  /** A failing statement aborts the transaction until a rollback to a savepoint. */
  class Transaction {
    var db: Db
    var savepoints: seq<Db>
    var aborted: bool

    constructor (db: Db)
      ensures this.db == db && savepoints == [] && !aborted
    {
      this.db := db;
      savepoints := [];
      aborted := false;
    }

    method Savepoint(works: bool) returns (ok: bool)
      modifies this
      ensures ok == (works && !old(aborted)) && aborted == !ok && db == old(db)
      ensures savepoints == if ok then old(savepoints) + [db] else old(savepoints)
    {
      ok := works && !aborted;
      aborted := !ok;
      if ok {
        savepoints := savepoints + [db];
      }
    }

    /** Restores the innermost savepoint, which stays open. */
    method RollbackToSavepoint(works: bool) returns (ok: bool)
      requires savepoints != []
      modifies this
      ensures ok == works && aborted == !ok && savepoints == old(savepoints)
      ensures db == if ok then savepoints[|savepoints| - 1] else old(db)
    {
      ok := works;
      aborted := !ok;
      if ok {
        db := savepoints[|savepoints| - 1];
      }
    }

    method ReleaseSavepoint(works: bool) returns (ok: bool)
      requires savepoints != []
      modifies this
      ensures ok == (works && !old(aborted)) && aborted == !ok && db == old(db)
      ensures savepoints == if ok then old(savepoints[..|savepoints| - 1]) else old(savepoints)
    {
      ok := works && !aborted;
      aborted := !ok;
      if ok {
        savepoints := savepoints[..|savepoints| - 1];
      }
    }

    method Enqueue(job: Job, works: bool) returns (ok: bool)
      modifies this`db, this`aborted
      ensures ok == (works && !old(aborted)) && aborted == !ok
      ensures db == if ok then old(db).(jobs := old(db).jobs + [job]) else old(db)
    {
      ok := works && !aborted;
      aborted := !ok;
      if ok {
        db := db.(jobs := db.jobs + [job]);
      }
    }

    /** An `UPDATE … WHERE id = …`; `Some(false)` when no row matched. */
    method UpdateCursor(id: ScheduleId, cursor: Cursor, works: bool) returns (matched: Option<bool>)
      modifies this`db, this`aborted
      ensures matched == if works && !old(aborted) then Some(id in old(db).cursors) else None
      ensures aborted == matched.None?
      ensures db == if matched == Some(true)
                    then old(db).(cursors := old(db).cursors[id := cursor]) else old(db)
    {
      if !works || aborted {
        aborted := true;
        return None;
      }
      if id in db.cursors {
        db := db.(cursors := db.cursors[id := cursor]);
        return Some(true);
      }
      matched := Some(false);
    }
  }

  // ---- what processing one schedule means -------------------------------------------------

  function NextCursor(s: Schedule, now: int): Option<int> {
    NextFire(s.cron, s.nextFireAt, now, JitterOf(s.id, s.maxJitter), s.maxJitter)
  }

  /** `_schedule.scheduled_for` keeps the missed fire; the job itself may run at once. */
  function JobOf(s: Schedule, now: int): Job { Job(s.id, s.nextFireAt, now) }

  function RetryAt(now: int): int { now + RETRY_DELAY_SECONDS * SECOND }

  function Materialized(db: Db, c: Claim, now: int): Result<Db, SchedulerError> {
    var s := c.schedule;
    var next := NextCursor(s, now);
    if next.None? then Err(InvalidCronExpression(s.id))
    else if !c.weather.enqueue then Err(EnqueueScheduledJob(s.id))
    else if !c.weather.mark then Err(MarkScheduleFired(s.id))
    else if s.id !in db.cursors then Err(ClaimedScheduleMissing(s.id))
    else Ok(Db(db.cursors[s.id := Cursor(next.value, Some(now))], db.jobs + [JobOf(s, now)]))
  }

  function Deferred(db: Db, c: Claim, now: int): Result<Db, SchedulerError> {
    var id := c.schedule.id;
    if !c.weather.defer then Err(DeferFailedSchedule(id))
    else if id !in db.cursors then Err(ClaimedScheduleMissing(id))
    else Ok(db.(cursors := db.cursors[id := db.cursors[id].(nextFireAt := RetryAt(now))]))
  }

  function Processed(db: Db, c: Claim, now: int): Result<Db, SchedulerError> {
    if !c.weather.savepoint then Err(SavepointCreate)
    else
      match Materialized(db, c, now)
      case Ok(d) => if c.weather.release then Ok(d) else Err(SavepointRelease)
      case Err(e) =>
        if !c.weather.rollback then Err(SavepointRollback)
        else if !c.weather.release then Err(SavepointRelease)
        else if e.ClaimedScheduleMissing? then Err(e)
        else Deferred(db, c, now)
  }

  function Batch(db: Db, claims: seq<Claim>, now: int): Result<Db, SchedulerError>
    decreases |claims|
  {
    if claims == [] then Ok(db)
    else
      match Processed(db, claims[0], now)
      case Err(e) => Err(e)
      case Ok(d) => Batch(d, claims[1..], now)
  }

  // ---- the code ---------------------------------------------------------------------------

  method MaterializeSchedule(tx: Transaction, c: Claim, now: int)
    returns (r: Result<(), SchedulerError>)
    requires !tx.aborted
    modifies tx`db, tx`aborted
    ensures match Materialized(old(tx.db), c, now)
            case Ok(d) => r == Ok(()) && tx.db == d && !tx.aborted
            case Err(e) => r == Err(e)
  {
    var s := c.schedule;
    var next := NextCursor(s, now);
    if next.None? {
      return Err(InvalidCronExpression(s.id));
    }
    var enqueued := tx.Enqueue(JobOf(s, now), c.weather.enqueue);
    if !enqueued {
      return Err(EnqueueScheduledJob(s.id));
    }
    var marked := tx.UpdateCursor(s.id, Cursor(next.value, Some(now)), c.weather.mark);
    if marked.None? {
      return Err(MarkScheduleFired(s.id));
    }
    if !marked.value {
      return Err(ClaimedScheduleMissing(s.id));
    }
    r := Ok(());
  }

  method DeferSchedule(tx: Transaction, c: Claim, now: int)
    returns (r: Result<(), SchedulerError>)
    requires !tx.aborted
    modifies tx`db, tx`aborted
    ensures match Deferred(old(tx.db), c, now)
            case Ok(d) => r == Ok(()) && tx.db == d && !tx.aborted
            case Err(e) => r == Err(e)
  {
    var id := c.schedule.id;
    var last := if id in tx.db.cursors then tx.db.cursors[id].lastFiredAt else None;
    var updated := tx.UpdateCursor(id, Cursor(RetryAt(now), last), c.weather.defer);
    if updated.None? {
      return Err(DeferFailedSchedule(id));
    }
    if !updated.value {
      return Err(ClaimedScheduleMissing(id));
    }
    r := Ok(());
  }

  method MaterializeClaimedSchedules(tx: Transaction, now: int, claims: seq<Claim>)
    returns (r: Result<(), SchedulerError>)
    requires !tx.aborted
    modifies tx
    ensures match Batch(old(tx.db), claims, now)
            case Ok(d) =>
              r == Ok(()) && tx.db == d && !tx.aborted && tx.savepoints == old(tx.savepoints)
            case Err(e) => r == Err(e)
  {
    for i := 0 to |claims|
      invariant !tx.aborted && tx.savepoints == old(tx.savepoints)
      invariant Batch(tx.db, claims[i..], now) == Batch(old(tx.db), claims, now)
    {
      var c := claims[i];
      ghost var before := tx.db;
      assert claims[i..][1..] == claims[i + 1..];
      var created := tx.Savepoint(c.weather.savepoint);
      if !created {
        return Err(SavepointCreate);
      }
      var outcome := MaterializeSchedule(tx, c, now);
      if outcome.Err? {
        var rolledBack := tx.RollbackToSavepoint(c.weather.rollback);
        if !rolledBack {
          return Err(SavepointRollback);
        }
        var dropped := tx.ReleaseSavepoint(c.weather.release);
        if !dropped {
          return Err(SavepointRelease);
        }
        if outcome.error.ClaimedScheduleMissing? {
          return outcome;
        }
        var deferred := DeferSchedule(tx, c, now);
        if deferred.Err? {
          return deferred;
        }
      } else {
        var released := tx.ReleaseSavepoint(c.weather.release);
        if !released {
          return Err(SavepointRelease);
        }
      }
      assert Processed(before, c, now) == Ok(tx.db);
    }
    r := Ok(());
  }

  /**
   * What `COMMIT` did. An error confirms nothing: the server may have applied the transaction
   * before the answer was lost, and the caller cannot tell.
   */
  datatype CommitOutcome = Confirmed | Unconfirmed(applied: bool)

  /** The committed database. Dropping an uncommitted transaction rolls it back. */
  class Store {
    var committed: Db

    constructor (db: Db)
      ensures committed == db
    {
      committed := db;
    }

    /** `claims` is none when the claim query fails. */
    method MaterializeDueSchedules(
        now: int, begins: bool, claims: Option<seq<Claim>>, commit: CommitOutcome)
      returns (r: Result<(), SchedulerError>)
      modifies this
      ensures var passes := begins && claims.Some? && Batch(old(committed), claims.value, now).Ok?;
              && (r.Ok? <==> passes && commit.Confirmed?)
              && (passes && commit.Unconfirmed? ==> r == Err(CommitTransaction))
              && committed == if passes && (commit.Confirmed? || commit.applied)
                              then Batch(old(committed), claims.value, now).value
                              else old(committed)
    {
      if !begins {
        return Err(BeginTransaction);
      }
      var tx := new Transaction(committed);
      if claims.None? {
        return Err(ClaimDueSchedules);
      }
      r := MaterializeClaimedSchedules(tx, now, claims.value);
      if r.Ok? {
        if commit.Confirmed? || commit.applied {
          committed := tx.db;
        }
        if commit.Unconfirmed? {
          return Err(CommitTransaction);
        }
      }
    }
  }

  // ---- what a committed pass did ----------------------------------------------------------

  /** Whether a claimed schedule produces its job. Only its own row and statements matter. */
  predicate Fires(c: Claim, now: int) {
    NextCursor(c.schedule, now).Some? && c.weather.enqueue && c.weather.mark
  }

  /** The statements on the schedule's own path all succeed. */
  predicate PathWorks(c: Claim, now: int) {
    && c.weather.savepoint && c.weather.release
    && (!Fires(c, now) ==> c.weather.rollback && c.weather.defer)
  }

  function CursorAfter(c: Claim, before: Cursor, now: int): Cursor {
    if Fires(c, now) then Cursor(NextCursor(c.schedule, now).value, Some(now))
    else before.(nextFireAt := RetryAt(now))
  }

  ghost predicate DistinctIds(claims: seq<Claim>) {
    forall i, j :: 0 <= i < j < |claims| ==> claims[i].schedule.id != claims[j].schedule.id
  }

  function JobsOf(claims: seq<Claim>, now: int): seq<Job> {
    if claims == [] then []
    else (if Fires(claims[0], now) then [JobOf(claims[0].schedule, now)] else [])
         + JobsOf(claims[1..], now)
  }

  function JobsFor(jobs: seq<Job>, id: ScheduleId): nat {
    if jobs == [] then 0
    else (if jobs[0].scheduleId == id then 1 else 0) + JobsFor(jobs[1..], id)
  }

  predicate IsClaimed(claims: seq<Claim>, id: ScheduleId) {
    exists i :: 0 <= i < |claims| && claims[i].schedule.id == id
  }

  /**
   * A pass goes through exactly when every claimed row is still there and every statement on
   * each schedule's own path works: a missing row or a failed deferral commits nothing.
   */
  lemma {:induction false} PassCommitsIff(db: Db, claims: seq<Claim>, now: int)
    requires DistinctIds(claims)
    ensures Batch(db, claims, now).Ok? <==>
            forall i :: 0 <= i < |claims| ==>
              claims[i].schedule.id in db.cursors && PathWorks(claims[i], now)
    decreases |claims|
  {
    if claims != [] {
      var p := Processed(db, claims[0], now);
      assert p.Ok? <==> claims[0].schedule.id in db.cursors && PathWorks(claims[0], now);
      if p.Ok? {
        PassCommitsIff(p.value, claims[1..], now);
        assert p.value.cursors.Keys == db.cursors.Keys;
        if Batch(db, claims, now).Ok? {
          forall i | 0 <= i < |claims|
            ensures claims[i].schedule.id in db.cursors && PathWorks(claims[i], now)
          {
            assert i > 0 ==> claims[i] == claims[1..][i - 1];
          }
        } else {
          var i :| 0 <= i < |claims[1..]|
                   && !(claims[1..][i].schedule.id in p.value.cursors && PathWorks(claims[1..][i], now));
          assert claims[i + 1] == claims[1..][i];
        }
      }
    }
  }

  lemma ProcessedEffect(db: Db, c: Claim, now: int)
    requires Processed(db, c, now).Ok?
    ensures var d, id := Processed(db, c, now).value, c.schedule.id;
            && id in db.cursors
            && d.cursors == db.cursors[id := CursorAfter(c, db.cursors[id], now)]
            && d.jobs == db.jobs + if Fires(c, now) then [JobOf(c.schedule, now)] else []
  {
  }

  /** A committed pass appends exactly the jobs of the firing schedules, in claim order. */
  lemma {:induction false} PassAppendsJobs(db: Db, claims: seq<Claim>, now: int)
    requires Batch(db, claims, now).Ok?
    ensures Batch(db, claims, now).value.jobs == db.jobs + JobsOf(claims, now)
    decreases |claims|
  {
    if claims != [] {
      ProcessedEffect(db, claims[0], now);
      PassAppendsJobs(Processed(db, claims[0], now).value, claims[1..], now);
    }
  }

  /** Rows that were not claimed do not move, and no row appears or disappears. */
  lemma {:induction false} PassKeepsUnclaimed(db: Db, claims: seq<Claim>, now: int, id: ScheduleId)
    requires Batch(db, claims, now).Ok? && !IsClaimed(claims, id)
    ensures var d := Batch(db, claims, now).value;
            && d.cursors.Keys == db.cursors.Keys
            && (id in db.cursors ==> d.cursors[id] == db.cursors[id])
    decreases |claims|
  {
    if claims != [] {
      ProcessedEffect(db, claims[0], now);
      assert claims[0].schedule.id != id;
      forall j | 0 <= j < |claims[1..]| ensures claims[1..][j].schedule.id != id {
        assert claims[j + 1].schedule.id != id;
      }
      PassKeepsUnclaimed(Processed(db, claims[0], now).value, claims[1..], now, id);
    }
  }

  /** A claimed schedule's cursor ends where its own outcome puts it. */
  lemma {:induction false} PassMovesCursor(db: Db, claims: seq<Claim>, now: int, i: nat)
    requires DistinctIds(claims) && i < |claims| && Batch(db, claims, now).Ok?
    ensures var id := claims[i].schedule.id;
            && id in db.cursors
            && id in Batch(db, claims, now).value.cursors
            && Batch(db, claims, now).value.cursors[id]
               == CursorAfter(claims[i], db.cursors[id], now)
    decreases |claims|
  {
    var d := Processed(db, claims[0], now).value;
    ProcessedEffect(db, claims[0], now);
    if i == 0 {
      assert !IsClaimed(claims[1..], claims[0].schedule.id);
      PassKeepsUnclaimed(d, claims[1..], now, claims[0].schedule.id);
    } else {
      assert claims[0].schedule.id != claims[i].schedule.id;
      PassMovesCursor(d, claims[1..], now, i - 1);
    }
  }

  lemma {:induction false} OneJobEach(claims: seq<Claim>, now: int, i: nat)
    requires DistinctIds(claims) && i < |claims|
    ensures JobsFor(JobsOf(claims, now), claims[i].schedule.id)
            == if Fires(claims[i], now) then 1 else 0
    decreases |claims|
  {
    var tail := claims[1..];
    if i == 0 {
      assert !IsClaimed(tail, claims[0].schedule.id);
      NoJobForUnclaimed(tail, now, claims[0].schedule.id);
    } else {
      OneJobEach(tail, now, i - 1);
      assert claims[0].schedule.id != claims[i].schedule.id;
    }
    if Fires(claims[0], now) {
      assert JobsOf(claims, now)[1..] == JobsOf(tail, now);
    } else {
      assert JobsOf(claims, now) == JobsOf(tail, now);
    }
  }

  lemma {:induction false} NoJobForUnclaimed(claims: seq<Claim>, now: int, id: ScheduleId)
    requires !IsClaimed(claims, id)
    ensures JobsFor(JobsOf(claims, now), id) == 0
    decreases |claims|
  {
    if claims != [] {
      assert claims[0].schedule.id != id;
      forall j | 0 <= j < |claims[1..]| ensures claims[1..][j].schedule.id != id {
        assert claims[j + 1].schedule.id != id;
      }
      NoJobForUnclaimed(claims[1..], now, id);
      if Fires(claims[0], now) {
        assert JobsOf(claims, now)[1..] == JobsOf(claims[1..], now);
      } else {
        assert JobsOf(claims, now) == JobsOf(claims[1..], now);
      }
    }
  }

  /**
   * Savepoint atomicity: after a committed pass each claimed schedule has either exactly one new
   * job and an advanced cursor, or no new job and a cursor thirty seconds away.
   */
  lemma EachScheduleFiresOnceOrDefers(db: Db, claims: seq<Claim>, now: int, i: nat)
    requires DistinctIds(claims) && i < |claims| && Batch(db, claims, now).Ok?
    ensures var d := Batch(db, claims, now).value;
            var c := claims[i];
            var id := c.schedule.id;
            && id in d.cursors
            && db.jobs <= d.jobs
            && var added := JobsFor(d.jobs[|db.jobs|..], id);
              (|| (Fires(c, now) && added == 1
                    && Some(d.cursors[id].nextFireAt) == NextCursor(c.schedule, now))
                || (!Fires(c, now) && added == 0
                    && d.cursors[id].nextFireAt == now + 30 * SECOND))
  {
    PassAppendsJobs(db, claims, now);
    PassMovesCursor(db, claims, now, i);
    OneJobEach(claims, now, i);
    var d := Batch(db, claims, now).value;
    assert d.jobs[|db.jobs|..] == JobsOf(claims, now);
  }

  /**
   * Where the cursor of a claimed schedule goes. Firing, to the next base if that is still ahead,
   * and else to the earliest jittered fire after `now`; deferred, nothing but the retry time.
   */
  lemma CursorOfClaim(db: Db, claims: seq<Claim>, now: int, i: nat, fires: iset<int>)
    requires DistinctIds(claims) && i < |claims| && Batch(db, claims, now).Ok?
    requires var s := claims[i].schedule;
             s.cron.Some? && Enumerates(s.cron.value, fires) && s.maxJitter <= MAX_JITTER_SECONDS
    ensures var c, s := claims[i], claims[i].schedule;
            var d, jitter := Batch(db, claims, now).value, JitterOf(s.id, s.maxJitter);
            && s.id in d.cursors && s.id in db.cursors
            && var cursor := d.cursors[s.id];
              if Fires(c, now) then
                && cursor.lastFiredAt == Some(now)
                && (forall f :: IsNextFire(fires, s.nextFireAt, f) && Adjusted(jitter, f) > now ==>
                      cursor.nextFireAt == Adjusted(jitter, f))
                && (IsStale(fires, s.nextFireAt, now, jitter)
                    && (s.maxJitter <= 0
                        || (HasWindow(now, s.maxJitter) && HasRoom(fires, s.maxJitter))) ==>
                      IsEarliest(fires, now, jitter, Some(cursor.nextFireAt)))
              else
                && cursor.lastFiredAt == db.cursors[s.id].lastFiredAt
                && cursor.nextFireAt == now + 30 * SECOND
  {
    var c, s := claims[i], claims[i].schedule;
    var jitter := JitterOf(s.id, s.maxJitter);
    PassMovesCursor(db, claims, now, i);
    forall f | IsNextFire(fires, s.nextFireAt, f) && Adjusted(jitter, f) > now
      ensures NextCursor(s, now) == Some(Adjusted(jitter, f))
    {
      NextFireIsNextBase(s.cron.value, fires, s.nextFireAt, now, jitter, s.maxJitter, f);
    }
    if IsStale(fires, s.nextFireAt, now, jitter) {
      StaleNextFireIsEarliest(s.cron.value, fires, s.nextFireAt, now, s.id, s.maxJitter);
    }
  }

  /** A new job of a claimed schedule carries the missed fire, and may run at once. */
  lemma {:induction false} NewJobsCarryTheFire(claims: seq<Claim>, now: int, i: nat, j: Job)
    requires DistinctIds(claims) && i < |claims|
    requires j in JobsOf(claims, now) && j.scheduleId == claims[i].schedule.id
    ensures Fires(claims[i], now)
    ensures j.scheduledFor == claims[i].schedule.nextFireAt && j.runAt == now
    decreases |claims|
  {
    var tail := claims[1..];
    if j in JobsOf(tail, now) {
      ClaimOfJob(tail, now, j);
      var k :| 0 <= k < |tail| && tail[k].schedule.id == j.scheduleId;
      assert claims[k + 1] == tail[k] && k + 1 == i;
      NewJobsCarryTheFire(tail, now, i - 1, j);
    } else {
      assert claims[0].schedule.id == claims[i].schedule.id;
    }
  }

  lemma {:induction false} ClaimOfJob(claims: seq<Claim>, now: int, j: Job)
    requires j in JobsOf(claims, now)
    ensures IsClaimed(claims, j.scheduleId)
    decreases |claims|
  {
    if j in JobsOf(claims[1..], now) {
      ClaimOfJob(claims[1..], now, j);
      var k :| 0 <= k < |claims[1..]| && claims[1..][k].schedule.id == j.scheduleId;
      assert claims[k + 1].schedule.id == j.scheduleId;
    } else {
      assert claims[0].schedule.id == j.scheduleId;
    }
  }

  /** What an error of a pass says is so, of one of the claims. */
  predicate Explains(db: Db, c: Claim, now: int, e: SchedulerError) {
    match e
    case SavepointCreate => !c.weather.savepoint
    case SavepointRollback =>
      !c.weather.rollback && !(Fires(c, now) && c.schedule.id in db.cursors)
    case SavepointRelease => !c.weather.release
    case DeferFailedSchedule(id) => id == c.schedule.id && !c.weather.defer && !Fires(c, now)
    case ClaimedScheduleMissing(id) => id == c.schedule.id && id !in db.cursors
    case _ => false
  }

  /**
   * A pass fails only for a savepoint, a failed deferral or a missing row, and names the claim it
   * failed at: an invalid expression or a failed enqueue or mark is absorbed by the deferral. A
   * row found missing while firing is not deferred.
   */
  lemma {:induction false} PassErrorIsTrue(db: Db, claims: seq<Claim>, now: int)
    requires Batch(db, claims, now).Err?
    ensures exists i :: 0 <= i < |claims| && Explains(db, claims[i], now, Batch(db, claims, now).error)
    decreases |claims|
  {
    var p := Processed(db, claims[0], now);
    if p.Ok? {
      ProcessedEffect(db, claims[0], now);
      PassErrorIsTrue(p.value, claims[1..], now);
      var e := Batch(db, claims, now).error;
      var i :| 0 <= i < |claims[1..]| && Explains(p.value, claims[1..][i], now, e);
      assert Explains(db, claims[i + 1], now, e);
    } else {
      assert Explains(db, claims[0], now, p.error);
    }
  }

  /** A schedule's outcome does not depend on what happens to the others, nor on their number. */
  lemma OthersDoNotMatter(
      db: Db, claims: seq<Claim>, i: nat, others: seq<Claim>, j: nat, now: int)
    requires DistinctIds(claims) && DistinctIds(others) && i < |claims| && j < |others|
    requires claims[i] == others[j]
    requires Batch(db, claims, now).Ok? && Batch(db, others, now).Ok?
    ensures var d, e := Batch(db, claims, now).value, Batch(db, others, now).value;
            var id := claims[i].schedule.id;
            && id in d.cursors && id in e.cursors && d.cursors[id] == e.cursors[id]
            && db.jobs <= d.jobs && db.jobs <= e.jobs
            && JobsFor(d.jobs[|db.jobs|..], id) == JobsFor(e.jobs[|db.jobs|..], id)
  {
    PassMovesCursor(db, claims, now, i);
    PassMovesCursor(db, others, now, j);
    EachScheduleFiresOnceOrDefers(db, claims, now, i);
    EachScheduleFiresOnceOrDefers(db, others, now, j);
  }

  ghost predicate ParsesToAStream(c: Claim) {
    c.schedule.cron.Some? ==> exists fires :: Enumerates(c.schedule.cron.value, fires)
  }

  predicate Due(db: Db, id: ScheduleId, now: int) {
    id in db.cursors && db.cursors[id].nextFireAt <= now
  }

  /**
   * However many fires an outage missed, after one committed pass none of the processed
   * schedules is due again at the same `now`.
   */
  lemma CatchUpIsBounded(db: Db, claims: seq<Claim>, now: int)
    requires DistinctIds(claims) && Batch(db, claims, now).Ok?
    requires forall c :: c in claims ==> ParsesToAStream(c)
    ensures forall i :: 0 <= i < |claims| ==>
              !Due(Batch(db, claims, now).value, claims[i].schedule.id, now)
  {
    forall i | 0 <= i < |claims|
      ensures !Due(Batch(db, claims, now).value, claims[i].schedule.id, now)
    {
      var s := claims[i].schedule;
      PassMovesCursor(db, claims, now, i);
      assert ParsesToAStream(claims[i]);
      if s.cron.Some? {
        var fires :| Enumerates(s.cron.value, fires);
        NextFireIsAfterNow(s.cron, fires, s.nextFireAt, now, s.id, s.maxJitter);
      }
    }
  }

  /**
   * Whatever an unconfirmed commit did, jobs and cursors moved together: a claimed due schedule
   * that is still due has its old cursor and no new job, and one that is no longer due has the
   * cursor and the job of its outcome. A later pass repeats only what was not applied.
   */
  lemma CommitIsAllOrNothing(db: Db, claims: seq<Claim>, now: int, applied: bool, i: nat)
    requires DistinctIds(claims) && Batch(db, claims, now).Ok?
    requires forall c :: c in claims ==> ParsesToAStream(c)
    requires i < |claims| && Due(db, claims[i].schedule.id, now)
    ensures var d := if applied then Batch(db, claims, now).value else db;
            var c, id := claims[i], claims[i].schedule.id;
            && id in d.cursors && db.jobs <= d.jobs
            && (Due(d, id, now) <==> !applied)
            && d.cursors[id] == (if Due(d, id, now) then db.cursors[id]
                                 else CursorAfter(c, db.cursors[id], now))
            && JobsFor(d.jobs[|db.jobs|..], id) == if !Due(d, id, now) && Fires(c, now) then 1 else 0
  {
    if applied {
      CatchUpIsBounded(db, claims, now);
      PassMovesCursor(db, claims, now, i);
      EachScheduleFiresOnceOrDefers(db, claims, now, i);
    }
  }

  // ---- which schedules fire at all --------------------------------------------------------

  /**
   * With working statements a parsed schedule fires exactly when its stream has a base after the
   * missed fire, and either that base is still ahead or another one is.
   */
  lemma FiresIff(c: Claim, fires: iset<int>, now: int)
    requires var s := c.schedule;
             s.cron.Some? && Enumerates(s.cron.value, fires) && 0 <= s.maxJitter <= MAX_JITTER_SECONDS
    ensures var s := c.schedule;
            var jitter := JitterOf(s.id, s.maxJitter);
            Fires(c, now) <==>
            && c.weather.enqueue && c.weather.mark
            && (exists f :: f in fires && f > s.nextFireAt)
            && !(IsStale(fires, s.nextFireAt, now, jitter)
                 && NothingAhead(fires, now, jitter, s.maxJitter))
  {
    var s := c.schedule;
    NextFireIsNoneIff(s.cron.value, fires, s.nextFireAt, now, s.id, s.maxJitter);
  }

  /** An expression that does not parse never fires. */
  lemma UnparsedNeverFires(c: Claim, now: int)
    requires c.schedule.cron.None?
    ensures !Fires(c, now)
  {
  }

  datatype Pass = Pass(now: int, claims: seq<Claim>)

  function AfterPasses(db: Db, passes: seq<Pass>): Db
    decreases |passes|
  {
    if passes == [] then db
    else
      var r := Batch(db, passes[0].claims, passes[0].now);
      AfterPasses(if r.Ok? then r.value else db, passes[1..])
  }

  /** Every pass claims rows as they are, once each, when they are due. */
  ghost predicate ClaimDueRows(db: Db, passes: seq<Pass>)
    decreases |passes|
  {
    passes == []
    || (var p := passes[0];
        var r := Batch(db, p.claims, p.now);
        && DistinctIds(p.claims)
        && (forall i :: 0 <= i < |p.claims| && p.claims[i].schedule.id in db.cursors ==>
              p.claims[i].schedule.nextFireAt
              == db.cursors[p.claims[i].schedule.id].nextFireAt <= p.now)
        && ClaimDueRows(if r.Ok? then r.value else db, passes[1..]))
  }

  /** Wherever `id` is claimed, its expression stands for the stream `fires`. */
  ghost predicate HasStream(claims: seq<Claim>, id: ScheduleId, fires: iset<int>) {
    forall i :: 0 <= i < |claims| && claims[i].schedule.id == id ==>
      && claims[i].schedule.cron.Some?
      && Enumerates(claims[i].schedule.cron.value, fires)
      && 0 <= claims[i].schedule.maxJitter <= MAX_JITTER_SECONDS
  }

  /**
   * A schedule whose stream has no base after its cursor never fires again, in any number of
   * passes and whatever the database does: the fire its cursor stands at is never enqueued.
   */
  lemma {:induction false} LastFireIsNeverEnqueued(
      db: Db, passes: seq<Pass>, id: ScheduleId, fires: iset<int>)
    requires id in db.cursors && forall f :: f in fires ==> f <= db.cursors[id].nextFireAt
    requires ClaimDueRows(db, passes)
    requires forall k :: 0 <= k < |passes| ==> HasStream(passes[k].claims, id, fires)
    ensures JobsFor(AfterPasses(db, passes).jobs, id) == JobsFor(db.jobs, id)
    decreases |passes|
  {
    if passes != [] {
      var p := passes[0];
      var r := Batch(db, p.claims, p.now);
      assert HasStream(p.claims, id, fires);
      if r.Ok? {
        PassDefersExhausted(db, p, id, fires);
      }
      forall k | 0 <= k < |passes[1..]| ensures HasStream(passes[1..][k].claims, id, fires) {
        assert passes[1..][k] == passes[k + 1];
      }
      LastFireIsNeverEnqueued(if r.Ok? then r.value else db, passes[1..], id, fires);
    }
  }

  /** One committed pass leaves such a schedule without a job and with a cursor no earlier. */
  lemma PassDefersExhausted(db: Db, p: Pass, id: ScheduleId, fires: iset<int>)
    requires id in db.cursors && forall f :: f in fires ==> f <= db.cursors[id].nextFireAt
    requires ClaimDueRows(db, [p]) && HasStream(p.claims, id, fires)
    requires Batch(db, p.claims, p.now).Ok?
    ensures var d := Batch(db, p.claims, p.now).value;
            && id in d.cursors && d.cursors[id].nextFireAt >= db.cursors[id].nextFireAt
            && JobsFor(d.jobs, id) == JobsFor(db.jobs, id)
  {
    PassAppendsJobs(db, p.claims, p.now);
    JobsForAppend(db.jobs, JobsOf(p.claims, p.now), id);
    if IsClaimed(p.claims, id) {
      var i :| 0 <= i < |p.claims| && p.claims[i].schedule.id == id;
      FiresIff(p.claims[i], fires, p.now);
      PassMovesCursor(db, p.claims, p.now, i);
      OneJobEach(p.claims, p.now, i);
    } else {
      PassKeepsUnclaimed(db, p.claims, p.now, id);
      NoJobForUnclaimed(p.claims, p.now, id);
    }
  }

  lemma {:induction false} JobsForAppend(a: seq<Job>, b: seq<Job>, id: ScheduleId)
    ensures JobsFor(a + b, id) == JobsFor(a, id) + JobsFor(b, id)
  {
    if a == [] {
      assert a + b == b;
    } else {
      assert (a + b)[1..] == a[1..] + b;
      JobsForAppend(a[1..], b, id);
    }
  }
}
