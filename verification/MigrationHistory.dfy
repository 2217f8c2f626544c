/**
 * Filtered migration history: the migrator that applies what is missing and the read-only
 * checker that inspects the same `_sqlx_migrations` and fence tables.
 */
module MigrationHistory {
  import opened Wrappers

  type Version = int
  type Checksum = seq<int>

  const CONTRACT_VERSION: Version := 202608240002

  datatype Migration = Migration(version: Version, checksum: Checksum, isUp: bool)

  datatype Row = Row(version: Version, checksum: Checksum, success: bool)

  /**
   * `history` is `_sqlx_migrations` in version order, none when the table is missing; `fence`
   * is `runledger_migration_history` in version order, none when that table is missing.
   */
  datatype Db = Db(history: Option<seq<Row>>, fence: Option<seq<Version>>)

  datatype MigrateError =
    | VersionMismatch(version: Version)
    | Dirty(version: Version)
    | VersionMissing(version: Version)
    | VersionTooNew(version: Version, latest: Version)
    | MissingMigrationHistory(firstVersion: Version)
    | FenceUnreadable
    | Execute(version: Version)

  ghost predicate SortedRows(rows: seq<Row>) {
    forall i, j :: 0 <= i < j < |rows| ==> rows[i].version < rows[j].version
  }

  /** Versions of up migrations are unique in the bundle. */
  ghost predicate ValidBundle(bundle: seq<Migration>) {
    forall i, j :: 0 <= i < j < |bundle| && bundle[i].isUp && bundle[j].isUp ==>
      bundle[i].version != bundle[j].version
  }

  ghost predicate ValidDb(db: Db) { db.history.Some? ==> SortedRows(db.history.value) }

  // ---- lookups ----------------------------------------------------------------------------

  /** The bundled up migration of a version, as the expected-migrations map returns it. */
  function Expected(bundle: seq<Migration>, v: Version): Option<Migration> {
    if bundle == [] then None
    else
      var later := Expected(bundle[1..], v);
      if later.Some? then later
      else if bundle[0].isUp && bundle[0].version == v then Some(bundle[0])
      else None
  }

  function FirstConflicting(rows: seq<Row>, bundle: seq<Migration>): Option<Version> {
    if rows == [] then None
    else
      var e := Expected(bundle, rows[0].version);
      if e.Some? && rows[0].checksum != e.value.checksum then Some(rows[0].version)
      else FirstConflicting(rows[1..], bundle)
  }

  function FirstDirty(rows: seq<Row>, bundle: seq<Migration>): Option<Version> {
    if rows == [] then None
    else
      var e := Expected(bundle, rows[0].version);
      if !rows[0].success && e.Some? && rows[0].checksum == e.value.checksum
      then Some(rows[0].version)
      else FirstDirty(rows[1..], bundle)
  }

  function FirstMissing(recorded: seq<Version>, bundle: seq<Migration>): Option<Version> {
    if recorded == [] then None
    else if Expected(bundle, recorded[0]).None? then Some(recorded[0])
    else FirstMissing(recorded[1..], bundle)
  }

  /** The checksum under which a bundled version is recorded as applied. */
  function AppliedChecksum(rows: seq<Row>, bundle: seq<Migration>, v: Version): Option<Checksum> {
    if rows == [] then None
    else
      var e := Expected(bundle, rows[0].version);
      if rows[0].version == v && rows[0].success && e.Some? && rows[0].checksum == e.value.checksum
      then Some(rows[0].checksum)
      else AppliedChecksum(rows[1..], bundle, v)
  }

  function LatestApplied(rows: seq<Row>, bundle: seq<Migration>): Version {
    if rows == [] then 0
    else
      var last := rows[|rows| - 1];
      if AppliedChecksum([last], bundle, last.version).Some? then last.version
      else LatestApplied(rows[..|rows| - 1], bundle)
  }

  function FirstUpVersion(bundle: seq<Migration>): Version {
    if bundle == [] then 0
    else if bundle[0].isUp then bundle[0].version
    else FirstUpVersion(bundle[1..])
  }

  // ---- applying one migration -------------------------------------------------------------

  function InsertRow(rows: seq<Row>, r: Row): seq<Row> {
    if rows == [] || r.version < rows[0].version then [r] + rows
    else [rows[0]] + InsertRow(rows[1..], r)
  }

  function InsertVersion(versions: seq<Version>, v: Version): seq<Version> {
    if versions == [] || v < versions[0] then [v] + versions
    else if v == versions[0] then versions
    else [versions[0]] + InsertVersion(versions[1..], v)
  }

  /**
   * `apply` runs the migration and records one successful row. Its SQL may create the fence
   * table or add its own version to it; `fencing` says which bundled migrations do.
   */
  function AfterApply(db: Db, m: Migration, fencing: set<Version>): Db
    requires db.history.Some?
  {
    Db(Some(InsertRow(db.history.value, Row(m.version, m.checksum, true))),
       if m.version in fencing
       then Some(InsertVersion(if db.fence.Some? then db.fence.value else [], m.version))
       else db.fence)
  }

  // ---- the refusals both sides make before anything else ----------------------------------

  function Refusal(db: Db, bundle: seq<Migration>): Option<MigrateError>
    requires db.history.Some?
  {
    var rows := db.history.value;
    var conflict := FirstConflicting(rows, bundle);
    var dirty := FirstDirty(rows, bundle);
    var missing := if db.fence.Some? then FirstMissing(db.fence.value, bundle) else None;
    if conflict.Some? then Some(VersionMismatch(conflict.value))
    else if dirty.Some? then Some(Dirty(dirty.value))
    else if missing.Some? then Some(VersionMissing(missing.value))
    else None
  }

  /** The up migrations the loop applies, in bundle order. */
  function Pending(rows: seq<Row>, bundle: seq<Migration>, whole: seq<Migration>): seq<Migration> {
    if bundle == [] then []
    else
      (if bundle[0].isUp && AppliedChecksum(rows, whole, bundle[0].version).None?
       then [bundle[0]] else [])
      + Pending(rows, bundle[1..], whole)
  }

  /** Applies until one fails; `failing` is the environment's choice. */
  function ApplyAll(db: Db, ms: seq<Migration>, fencing: set<Version>, failing: set<Version>)
    : (r: (Db, Result<(), MigrateError>))
    requires db.history.Some?
    ensures r.0.history.Some?
    decreases |ms|
  {
    if ms == [] then (db, Ok(()))
    else if ms[0].version in failing then (db, Err(Execute(ms[0].version)))
    else ApplyAll(AfterApply(db, ms[0], fencing), ms[1..], fencing, failing)
  }

  /** `ensure_migrations_table`. */
  function WithTable(db: Db): Db {
    if db.history.None? then db.(history := Some([])) else db
  }

  /** Refuse, or apply exactly what is pending. */
  function Migrated(db: Db, bundle: seq<Migration>, fencing: set<Version>, failing: set<Version>)
    : (Db, Result<(), MigrateError>)
  {
    var d := WithTable(db);
    var refusal := Refusal(d, bundle);
    if refusal.Some? then (d, Err(refusal.value))
    else ApplyAll(d, Pending(d.history.value, bundle, bundle), fencing, failing)
  }

  // ---- the code ---------------------------------------------------------------------------

  class Connection {
    var db: Db

    constructor (db: Db)
      ensures this.db == db
    {
      this.db := db;
    }

    method Apply(m: Migration, fencing: set<Version>, fails: bool) returns (ok: bool)
      requires db.history.Some?
      modifies this
      ensures ok == !fails
      ensures db == if ok then AfterApply(old(db), m, fencing) else old(db)
    {
      ok := !fails;
      if ok {
        db := AfterApply(db, m, fencing);
      }
    }
  }

  method RunMigrationsWithFilteredHistory(
      conn: Connection, bundle: seq<Migration>, fencing: set<Version>, failing: set<Version>)
    returns (r: Result<(), MigrateError>)
    requires ValidDb(conn.db) && ValidBundle(bundle)
    modifies conn
    ensures (conn.db, r) == Migrated(old(conn.db), bundle, fencing, failing)
  {
    if conn.db.history.None? {
      conn.db := conn.db.(history := Some([]));
    }
    var rows := conn.db.history.value;
    var conflict := FirstConflicting(rows, bundle);
    if conflict.Some? {
      return Err(VersionMismatch(conflict.value));
    }
    var dirty := FirstDirty(rows, bundle);
    if dirty.Some? {
      return Err(Dirty(dirty.value));
    }
    if conn.db.fence.Some? {
      var missing := FirstMissing(conn.db.fence.value, bundle);
      if missing.Some? {
        return Err(VersionMissing(missing.value));
      }
    }
    ghost var start := conn.db;
    for i := 0 to |bundle|
      invariant conn.db.history.Some?
      invariant ApplyAll(conn.db, Pending(rows, bundle[i..], bundle), fencing, failing)
                == ApplyAll(start, Pending(rows, bundle, bundle), fencing, failing)
    {
      var m := bundle[i];
      assert bundle[i..][1..] == bundle[i + 1..];
      ghost var later := Pending(rows, bundle[i + 1..], bundle);
      assert [] + later == later;
      if m.isUp {
        var applied := AppliedChecksum(rows, bundle, m.version);
        if applied.Some? {
          AppliedChecksumMatches(rows, bundle, i);
          if applied.value != m.checksum {
            return Err(VersionMismatch(m.version));
          }
        } else {
          assert Pending(rows, bundle[i..], bundle) == [m] + later;
          assert ([m] + later)[1..] == later;
          var ok := conn.Apply(m, fencing, m.version in failing);
          if !ok {
            return Err(Execute(m.version));
          }
        }
      }
    }
    r := Ok(());
  }

  /** The history stage of `inspect_schema`; `fenceUnreadable` is a fence that could not be locked. */
  method InspectHistory(db: Db, bundle: seq<Migration>, fenceUnreadable: bool)
    returns (r: Result<(), MigrateError>)
    requires ValidDb(db) && ValidBundle(bundle)
    ensures r == Inspected(db, bundle, fenceUnreadable)
  {
    if db.history.None? {
      return Err(MissingMigrationHistory(FirstUpVersion(bundle)));
    }
    var rows := db.history.value;
    var conflict := FirstConflicting(rows, bundle);
    if conflict.Some? {
      return Err(VersionMismatch(conflict.value));
    }
    var dirty := FirstDirty(rows, bundle);
    if dirty.Some? {
      return Err(Dirty(dirty.value));
    }
    if db.fence.Some? {
      if fenceUnreadable {
        return Err(FenceUnreadable);
      }
      var missing := FirstMissing(db.fence.value, bundle);
      if missing.Some? {
        return Err(VersionMissing(missing.value));
      }
    }
    for i := 0 to |bundle|
      invariant FirstUnmet(rows, bundle[i..], bundle) == FirstUnmet(rows, bundle, bundle)
    {
      var m := bundle[i];
      assert bundle[i..][1..] == bundle[i + 1..];
      ghost var later := Pending(rows, bundle[i + 1..], bundle);
      assert [] + later == later && ([m] + later)[1..] == later;
      if m.isUp {
        var applied := AppliedChecksum(rows, bundle, m.version);
        if applied.Some? {
          AppliedChecksumMatches(rows, bundle, i);
          if applied.value != m.checksum {
            return Err(VersionMismatch(m.version));
          }
        } else if m.version != CONTRACT_VERSION {
          return Err(VersionTooNew(m.version, LatestApplied(rows, bundle)));
        }
      }
    }
    r := Ok(());
  }

  /** The first pending migration other than the contract migration. */
  function FirstUnmet(rows: seq<Row>, bundle: seq<Migration>, whole: seq<Migration>): Option<Version> {
    var pending := Pending(rows, bundle, whole);
    FirstOther(pending)
  }

  function FirstOther(ms: seq<Migration>): Option<Version> {
    if ms == [] then None
    else if ms[0].version != CONTRACT_VERSION then Some(ms[0].version)
    else FirstOther(ms[1..])
  }

  function Inspected(db: Db, bundle: seq<Migration>, fenceUnreadable: bool)
    : Result<(), MigrateError>
  {
    if db.history.None? then Err(MissingMigrationHistory(FirstUpVersion(bundle)))
    else
      var rows := db.history.value;
      var refusal := Refusal(db, bundle);
      if db.fence.Some? && fenceUnreadable && (refusal.None? || refusal.value.VersionMissing?)
      then Err(FenceUnreadable)
      else if refusal.Some? then Err(refusal.value)
      else
        var unmet := FirstUnmet(rows, bundle, bundle);
        if unmet.Some? then Err(VersionTooNew(unmet.value, LatestApplied(rows, bundle)))
        else Ok(())
  }

  /** A successful row under the checksum the bundle expects. */
  ghost predicate IsApplied(rows: seq<Row>, bundle: seq<Migration>, v: Version) {
    var e := Expected(bundle, v);
    e.Some? && Row(v, e.value.checksum, true) in rows
  }

  // ---- facts about the lookups ------------------------------------------------------------

  lemma {:induction false} ExpectedSpec(bundle: seq<Migration>, v: Version)
    requires ValidBundle(bundle)
    ensures match Expected(bundle, v)
            case Some(m) => m in bundle && m.isUp && m.version == v
            case None => forall m :: m in bundle && m.isUp ==> m.version != v
    ensures forall m :: m in bundle && m.isUp && m.version == v ==> Expected(bundle, v) == Some(m)
  {
    if bundle != [] {
      ExpectedSpec(bundle[1..], v);
      forall m | m in bundle && m.isUp && m.version == v ensures Expected(bundle, v) == Some(m) {
        var i :| 0 <= i < |bundle| && bundle[i] == m;
        if i > 0 {
          assert bundle[1..][i - 1] == m;
        }
      }
    }
  }

  lemma {:induction false} AppliedChecksumSpec(rows: seq<Row>, bundle: seq<Migration>, v: Version)
    ensures var a := AppliedChecksum(rows, bundle, v);
            && (a.Some? ==> Expected(bundle, v).Some? && a.value == Expected(bundle, v).value.checksum)
            && (a.Some? <==> IsApplied(rows, bundle, v))
  {
    if rows != [] {
      AppliedChecksumSpec(rows[1..], bundle, v);
    }
  }

  /** The in-loop checksum comparison cannot fail. */
  lemma AppliedChecksumMatches(rows: seq<Row>, bundle: seq<Migration>, i: nat)
    requires ValidBundle(bundle) && i < |bundle| && bundle[i].isUp
    ensures var a := AppliedChecksum(rows, bundle, bundle[i].version);
            a.Some? ==> a.value == bundle[i].checksum
  {
    AppliedChecksumSpec(rows, bundle, bundle[i].version);
    ExpectedSpec(bundle, bundle[i].version);
    assert bundle[i] in bundle;
  }

  // ---- what a refusal means ---------------------------------------------------------------

  /** A bundled version recorded under another checksum. */
  predicate Conflicts(r: Row, bundle: seq<Migration>) {
    var e := Expected(bundle, r.version);
    e.Some? && r.checksum != e.value.checksum
  }

  /** A bundled migration that started and did not finish. */
  predicate IsDirty(r: Row, bundle: seq<Migration>) {
    var e := Expected(bundle, r.version);
    !r.success && e.Some? && r.checksum == e.value.checksum
  }

  predicate IsForeign(v: Version, bundle: seq<Migration>) { Expected(bundle, v).None? }

  /** `v` is the lowest version of a row with property `bad`, or there is no such row. */
  ghost predicate IsFirst(rows: seq<Row>, bad: Row -> bool, v: Option<Version>) {
    match v
    case Some(w) =>
      && (exists r :: r in rows && bad(r) && r.version == w)
      && (forall r :: r in rows && bad(r) ==> w <= r.version)
    case None => forall r :: r in rows ==> !bad(r)
  }

  lemma SortedTail(rows: seq<Row>)
    requires SortedRows(rows) && rows != []
    ensures SortedRows(rows[1..])
    ensures forall r :: r in rows <==> r == rows[0] || r in rows[1..]
    ensures forall r :: r in rows[1..] ==> rows[0].version < r.version
  {
  }

  lemma {:induction false} FirstConflictingSpec(rows: seq<Row>, bundle: seq<Migration>)
    requires SortedRows(rows)
    ensures IsFirst(rows, r => Conflicts(r, bundle), FirstConflicting(rows, bundle))
  {
    if rows != [] {
      SortedTail(rows);
      FirstConflictingSpec(rows[1..], bundle);
    }
  }

  lemma {:induction false} FirstDirtySpec(rows: seq<Row>, bundle: seq<Migration>)
    requires SortedRows(rows)
    ensures IsFirst(rows, r => IsDirty(r, bundle), FirstDirty(rows, bundle))
  {
    if rows != [] {
      SortedTail(rows);
      FirstDirtySpec(rows[1..], bundle);
    }
  }

  lemma {:induction false} FirstMissingSpec(recorded: seq<Version>, bundle: seq<Migration>)
    ensures match FirstMissing(recorded, bundle)
            case Some(v) => IsFirstForeign(recorded, bundle, v)
            case None => forall u :: u in recorded ==> !IsForeign(u, bundle)
  {
    if recorded != [] {
      FirstMissingSpec(recorded[1..], bundle);
      var found := FirstMissing(recorded[1..], bundle);
      if !IsForeign(recorded[0], bundle) && found.Some? {
        var k :| 0 <= k < |recorded[1..]| && IsForeignAt(recorded[1..], bundle, found.value, k);
        assert IsForeignAt(recorded, bundle, found.value, k + 1);
      } else if found.None? {
        assert forall u :: u in recorded <==> u == recorded[0] || u in recorded[1..];
      }
      assert IsForeign(recorded[0], bundle) ==> IsForeignAt(recorded, bundle, recorded[0], 0);
    }
  }

  ghost predicate IsForeignAt(recorded: seq<Version>, bundle: seq<Migration>, v: Version, k: nat) {
    && k < |recorded| && recorded[k] == v && IsForeign(v, bundle)
    && forall j :: 0 <= j < k ==> !IsForeign(recorded[j], bundle)
  }

  /** `v` is the first recorded version the bundle does not know. */
  ghost predicate IsFirstForeign(recorded: seq<Version>, bundle: seq<Migration>, v: Version) {
    exists k :: 0 <= k < |recorded| && IsForeignAt(recorded, bundle, v, k)
  }

  ghost predicate Clean(rows: seq<Row>, bundle: seq<Migration>) {
    forall r :: r in rows ==> !Conflicts(r, bundle) && !IsDirty(r, bundle)
  }

  /**
   * A refusal names the first row whose checksum the bundle contradicts, else the first unfinished
   * bundled row, else the first fence version it does not know.
   */
  lemma RefusalSpec(db: Db, bundle: seq<Migration>)
    requires db.history.Some? && ValidDb(db)
    ensures var rows := db.history.value;
            match Refusal(db, bundle)
            case Some(VersionMismatch(v)) => IsFirst(rows, r => Conflicts(r, bundle), Some(v))
            case Some(Dirty(v)) =>
              && (forall r :: r in rows ==> !Conflicts(r, bundle))
              && IsFirst(rows, r => IsDirty(r, bundle), Some(v))
            case Some(VersionMissing(v)) =>
              && Clean(rows, bundle)
              && db.fence.Some? && IsFirstForeign(db.fence.value, bundle, v)
            case None =>
              && Clean(rows, bundle)
              && (db.fence.Some? ==> forall u :: u in db.fence.value ==> !IsForeign(u, bundle))
            case _ => false
  {
    FirstConflictingSpec(db.history.value, bundle);
    FirstDirtySpec(db.history.value, bundle);
    if db.fence.Some? {
      FirstMissingSpec(db.fence.value, bundle);
    }
  }

  /** A history without conflict or unfinished row, and a fence the bundle knows, pass. */
  lemma NotRefused(db: Db, bundle: seq<Migration>)
    requires db.history.Some? && ValidDb(db) && Clean(db.history.value, bundle)
    requires db.fence.Some? ==> forall u :: u in db.fence.value ==> !IsForeign(u, bundle)
    ensures Refusal(db, bundle).None?
  {
    RefusalSpec(db, bundle);
  }

  // ---- what applying does -----------------------------------------------------------------

  function RowOf(m: Migration): Row { Row(m.version, m.checksum, true) }

  ghost predicate HasVersion(rows: seq<Row>, v: Version) {
    exists r :: r in rows && r.version == v
  }

  /** The migrations have distinct versions, none of which has a row yet. */
  ghost predicate Fresh(rows: seq<Row>, ms: seq<Migration>) {
    && (forall m :: m in ms ==> !HasVersion(rows, m.version))
    && (forall i, j :: 0 <= i < j < |ms| ==> ms[i].version != ms[j].version)
  }

  lemma {:induction false} InsertRowSpec(rows: seq<Row>, r: Row)
    requires SortedRows(rows) && !HasVersion(rows, r.version)
    ensures SortedRows(InsertRow(rows, r))
    ensures forall q :: q in InsertRow(rows, r) <==> q == r || q in rows
  {
    if rows != [] && !(r.version < rows[0].version) {
      assert rows[0] in rows;
      forall q | q in rows[1..] ensures q.version != r.version {
        assert q in rows;
      }
      InsertRowSpec(rows[1..], r);
      var tail := InsertRow(rows[1..], r);
      forall j | 0 <= j < |tail| ensures rows[0].version < tail[j].version {
        assert tail[j] in tail;
      }
    }
  }

  lemma {:induction false} InsertVersionSpec(versions: seq<Version>, v: Version)
    ensures forall u :: u in InsertVersion(versions, v) <==> u == v || u in versions
  {
    if versions != [] && versions[0] < v {
      InsertVersionSpec(versions[1..], v);
    }
  }

  /** The rows after applying are the old rows and rows of the given migrations, still in order. */
  lemma {:induction false} ApplyAllRows(
      db: Db, ms: seq<Migration>, fencing: set<Version>, failing: set<Version>)
    requires db.history.Some? && ValidDb(db) && Fresh(db.history.value, ms)
    ensures var (d, r) := ApplyAll(db, ms, fencing, failing);
            && SortedRows(d.history.value)
            && (forall q :: q in db.history.value ==> q in d.history.value)
            && (forall q :: q in d.history.value ==>
                  q in db.history.value || exists m :: m in ms && q == RowOf(m))
            && (r.Ok? ==> forall m :: m in ms ==> RowOf(m) in d.history.value)
    decreases |ms|
  {
    if ms != [] && ms[0].version !in failing {
      assert ms[0] in ms;
      InsertRowSpec(db.history.value, RowOf(ms[0]));
      FreshAfterApply(db, ms, fencing);
      ApplyAllRows(AfterApply(db, ms[0], fencing), ms[1..], fencing, failing);
      assert forall m :: m in ms <==> m == ms[0] || m in ms[1..];
    }
  }

  lemma AfterApplyFence(db: Db, m: Migration, fencing: set<Version>)
    requires db.history.Some?
    ensures var d := AfterApply(db, m, fencing);
            d.fence.Some? ==> forall v :: v in d.fence.value ==>
              (db.fence.Some? && v in db.fence.value) || v == m.version
  {
    InsertVersionSpec(if db.fence.Some? then db.fence.value else [], m.version);
  }

  /** The fence gains only versions of the given migrations. */
  lemma {:induction false} ApplyAllFence(
      db: Db, ms: seq<Migration>, fencing: set<Version>, failing: set<Version>)
    requires db.history.Some?
    ensures var d := ApplyAll(db, ms, fencing, failing).0;
            d.fence.Some? ==> forall v :: v in d.fence.value ==>
              (db.fence.Some? && v in db.fence.value) || exists m :: m in ms && m.version == v
    decreases |ms|
  {
    if ms != [] && ms[0].version !in failing {
      var next := AfterApply(db, ms[0], fencing);
      AfterApplyFence(db, ms[0], fencing);
      ApplyAllFence(next, ms[1..], fencing, failing);
      var d := ApplyAll(next, ms[1..], fencing, failing).0;
      assert d == ApplyAll(db, ms, fencing, failing).0;
      if d.fence.Some? {
        forall v | v in d.fence.value && !(next.fence.Some? && v in next.fence.value)
          ensures exists m :: m in ms && m.version == v
        {
          var m :| m in ms[1..] && m.version == v;
          assert m in ms;
        }
        assert ms[0] in ms;
      }
    }
  }

  lemma {:induction false} ApplyAllSucceedsIff(
      db: Db, ms: seq<Migration>, fencing: set<Version>, failing: set<Version>)
    requires db.history.Some?
    ensures ApplyAll(db, ms, fencing, failing).1.Ok? <==> forall m :: m in ms ==> m.version !in failing
    ensures ApplyAll(db, ms, fencing, failing).1.Err? ==>
              ApplyAll(db, ms, fencing, failing).1.error.Execute?
    decreases |ms|
  {
    if ms != [] && ms[0].version !in failing {
      ApplyAllSucceedsIff(AfterApply(db, ms[0], fencing), ms[1..], fencing, failing);
      assert forall m :: m in ms <==> m == ms[0] || m in ms[1..];
    }
  }

  /** The row of `m` and all earlier ones are there; `m` itself is not, nor any later one. */
  ghost predicate StopsAt(rows: seq<Row>, ms: seq<Migration>, k: nat) {
    && k < |ms|
    && (forall j :: 0 <= j < k ==> RowOf(ms[j]) in rows)
    && (forall j :: k <= j < |ms| ==> !HasVersion(rows, ms[j].version))
  }

  /** A failing migration is named, everything before it is applied and nothing after it. */
  lemma {:induction false} ApplyAllStopsAtFirst(
      db: Db, ms: seq<Migration>, fencing: set<Version>, failing: set<Version>)
    requires db.history.Some? && ValidDb(db) && Fresh(db.history.value, ms)
    requires ApplyAll(db, ms, fencing, failing).1.Err?
    ensures var (d, r) := ApplyAll(db, ms, fencing, failing);
            exists k :: 0 <= k < |ms| && StopsAt(d.history.value, ms, k)
                        && ms[k].version in failing && r == Err(Execute(ms[k].version))
                        && forall j :: 0 <= j < k ==> ms[j].version !in failing
    decreases |ms|
  {
    var (d, r) := ApplyAll(db, ms, fencing, failing);
    if ms[0].version in failing {
      forall j | 0 <= j < |ms| ensures !HasVersion(d.history.value, ms[j].version) {
        assert ms[j] in ms;
      }
      assert StopsAt(d.history.value, ms, 0);
    } else {
      var next := AfterApply(db, ms[0], fencing);
      FreshAfterApply(db, ms, fencing);
      ApplyAllStopsAtFirst(next, ms[1..], fencing, failing);
      ApplyAllRows(next, ms[1..], fencing, failing);
      var k :| 0 <= k < |ms[1..]| && StopsAt(d.history.value, ms[1..], k)
               && ms[1..][k].version in failing && r == Err(Execute(ms[1..][k].version))
               && forall j :: 0 <= j < k ==> ms[1..][j].version !in failing;
      forall j | 0 <= j < k + 1 ensures RowOf(ms[j]) in d.history.value && ms[j].version !in failing {
        assert j > 0 ==> ms[j] == ms[1..][j - 1];
      }
      forall j | k + 1 <= j < |ms| ensures !HasVersion(d.history.value, ms[j].version) {
        assert ms[j] == ms[1..][j - 1];
      }
      assert StopsAt(d.history.value, ms, k + 1);
    }
  }

  /** Applying the first leaves the others fresh. */
  lemma FreshAfterApply(db: Db, ms: seq<Migration>, fencing: set<Version>)
    requires db.history.Some? && ValidDb(db) && ms != [] && Fresh(db.history.value, ms)
    ensures var next := AfterApply(db, ms[0], fencing);
            && ValidDb(next) && Fresh(next.history.value, ms[1..])
            && RowOf(ms[0]) in next.history.value
  {
    var rows := db.history.value;
    assert ms[0] in ms;
    InsertRowSpec(rows, RowOf(ms[0]));
    var next := AfterApply(db, ms[0], fencing);
    forall m | m in ms[1..] ensures !HasVersion(next.history.value, m.version) {
      assert m in ms && !HasVersion(rows, m.version);
      var j :| 0 <= j < |ms[1..]| && ms[1..][j] == m;
      assert ms[0].version != ms[j + 1].version;
    }
  }

  lemma {:induction false} PendingSpec(rows: seq<Row>, bundle: seq<Migration>, whole: seq<Migration>)
    requires ValidBundle(bundle)
    ensures var p := Pending(rows, bundle, whole);
            && (forall m :: m in p <==>
                  m in bundle && m.isUp && AppliedChecksum(rows, whole, m.version).None?)
            && (forall i, j :: 0 <= i < j < |p| ==> p[i].version != p[j].version)
  {
    if bundle != [] {
      PendingSpec(rows, bundle[1..], whole);
      var rest := Pending(rows, bundle[1..], whole);
      if bundle[0].isUp && AppliedChecksum(rows, whole, bundle[0].version).None? {
        forall j | 0 <= j < |rest| ensures bundle[0].version != rest[j].version {
          assert rest[j] in rest;
          var k :| 0 <= k < |bundle[1..]| && bundle[1..][k] == rest[j];
          assert bundle[k + 1] == rest[j];
        }
      }
      assert forall m :: m in bundle <==> m == bundle[0] || m in bundle[1..];
    }
  }

  /** Without a refusal, a pending version has no row at all, so applying never collides. */
  lemma PendingIsFresh(db: Db, bundle: seq<Migration>)
    requires db.history.Some? && ValidDb(db) && ValidBundle(bundle)
    requires Refusal(db, bundle).None?
    ensures Fresh(db.history.value, Pending(db.history.value, bundle, bundle))
  {
    var rows := db.history.value;
    RefusalSpec(db, bundle);
    PendingSpec(rows, bundle, bundle);
    forall m | m in Pending(rows, bundle, bundle) ensures !HasVersion(rows, m.version) {
      AppliedChecksumSpec(rows, bundle, m.version);
      ExpectedSpec(bundle, m.version);
      forall r | r in rows ensures r.version != m.version {
        assert !Conflicts(r, bundle) && !IsDirty(r, bundle);
        assert r == Row(r.version, r.checksum, true) || r == Row(r.version, r.checksum, false);
      }
    }
  }

  // ---- the migrator -----------------------------------------------------------------------

  /** Conflict, dirty and fence refusals happen before anything is applied, and only then. */
  lemma RefusesBeforeApplying(
      db: Db, bundle: seq<Migration>, fencing: set<Version>, failing: set<Version>)
    requires ValidDb(db) && ValidBundle(bundle)
    ensures var (d, r) := Migrated(db, bundle, fencing, failing);
            var refusal := Refusal(WithTable(db), bundle);
            && (r.Err? && !r.error.Execute? <==> refusal.Some?)
            && (refusal.Some? ==> r == Err(refusal.value) && d == WithTable(db))
  {
    var d := WithTable(db);
    if Refusal(d, bundle).None? {
      ApplyAllSucceedsIff(d, Pending(d.history.value, bundle, bundle), fencing, failing);
    } else {
      RefusalSpec(d, bundle);
    }
  }

  function RowsOf(db: Db): seq<Row> { if db.history.Some? then db.history.value else [] }

  /**
   * Every row that was there is there unchanged, foreign ones included, and every new row is a
   * successful one of a bundled up migration; on success every bundled up version is recorded.
   */
  lemma MigratorEffect(
      db: Db, bundle: seq<Migration>, fencing: set<Version>, failing: set<Version>)
    requires ValidDb(db) && ValidBundle(bundle)
    ensures var (d, r) := Migrated(db, bundle, fencing, failing);
            && d.history.Some? && ValidDb(d)
            && (forall q :: q in RowsOf(db) ==> q in RowsOf(d))
            && (forall q :: q in RowsOf(d) && q !in RowsOf(db) ==>
                  exists m :: m in bundle && m.isUp && q == RowOf(m))
            && (r.Ok? ==> forall m :: m in bundle && m.isUp ==> RowOf(m) in RowsOf(d))
  {
    var d := WithTable(db);
    if Refusal(d, bundle).None? {
      var rows := d.history.value;
      var pending := Pending(rows, bundle, bundle);
      PendingIsFresh(d, bundle);
      PendingSpec(rows, bundle, bundle);
      ApplyAllRows(d, pending, fencing, failing);
      forall m | m in bundle && m.isUp && m !in pending ensures RowOf(m) in rows {
        AppliedChecksumSpec(rows, bundle, m.version);
        ExpectedSpec(bundle, m.version);
      }
    }
  }

  lemma NothingPending(rows: seq<Row>, bundle: seq<Migration>)
    requires ValidBundle(bundle)
    requires forall m :: m in bundle && m.isUp ==> RowOf(m) in rows
    ensures Pending(rows, bundle, bundle) == []
  {
    PendingSpec(rows, bundle, bundle);
    var p := Pending(rows, bundle, bundle);
    if p != [] {
      var m := p[0];
      assert m in p;
      ExpectedSpec(bundle, m.version);
      AppliedChecksumSpec(rows, bundle, m.version);
    }
  }

  /** After success nothing is refused: no row conflicts or is dirty, no fence version is foreign. */
  lemma SuccessLeavesNoRefusal(
      db: Db, bundle: seq<Migration>, fencing: set<Version>, failing: set<Version>)
    requires ValidDb(db) && ValidBundle(bundle)
    requires Migrated(db, bundle, fencing, failing).1.Ok?
    ensures var d := Migrated(db, bundle, fencing, failing).0;
            d.history.Some? && Refusal(d, bundle).None?
  {
    var start := WithTable(db);
    var pending := Pending(start.history.value, bundle, bundle);
    var d := Migrated(db, bundle, fencing, failing).0;
    MigratorEffect(db, bundle, fencing, failing);
    RefusesBeforeApplying(db, bundle, fencing, failing);
    RefusalSpec(start, bundle);
    PendingSpec(start.history.value, bundle, bundle);
    ApplyAllFence(start, pending, fencing, failing);
    forall r | r in RowsOf(d) ensures !Conflicts(r, bundle) && !IsDirty(r, bundle) {
      BundledRowIsRecorded(RowsOf(d), bundle, r);
    }
    if d.fence.Some? {
      forall v | v in d.fence.value ensures !IsForeign(v, bundle) {
        ExpectedSpec(bundle, v);
      }
    }
    NotRefused(d, bundle);
  }

  lemma BundledRowIsRecorded(rows: seq<Row>, bundle: seq<Migration>, r: Row)
    requires SortedRows(rows) && ValidBundle(bundle) && r in rows
    requires forall m :: m in bundle && m.isUp ==> RowOf(m) in rows
    ensures !Conflicts(r, bundle) && !IsDirty(r, bundle)
  {
    ExpectedSpec(bundle, r.version);
    var e := Expected(bundle, r.version);
    if e.Some? {
      var i :| 0 <= i < |rows| && rows[i] == RowOf(e.value);
      var j :| 0 <= j < |rows| && rows[j] == r;
      assert i == j;
    }
  }

  /** A second run after success applies nothing, and the checker accepts. */
  lemma MigratingTwiceAppliesNothing(
      db: Db, bundle: seq<Migration>, fencing: set<Version>, failing: set<Version>,
      failingAgain: set<Version>)
    requires ValidDb(db) && ValidBundle(bundle)
    requires Migrated(db, bundle, fencing, failing).1.Ok?
    ensures var d := Migrated(db, bundle, fencing, failing).0;
            && Migrated(d, bundle, fencing, failingAgain) == (d, Ok(()))
            && Inspected(d, bundle, false) == Ok(())
  {
    var d := Migrated(db, bundle, fencing, failing).0;
    MigratorEffect(db, bundle, fencing, failing);
    SuccessLeavesNoRefusal(db, bundle, fencing, failing);
    NothingPending(d.history.value, bundle);
  }

  // ---- agreement --------------------------------------------------------------------------

  lemma {:induction false} FirstOtherSpec(ms: seq<Migration>)
    ensures FirstOther(ms).None? <==> forall m :: m in ms ==> m.version == CONTRACT_VERSION
  {
    if ms != [] {
      FirstOtherSpec(ms[1..]);
    }
  }

  /** `v` is the version of the first up migration, 0 without one. */
  ghost predicate IsFirstUp(bundle: seq<Migration>, v: Version) {
    || (v == 0 && forall m :: m in bundle ==> !m.isUp)
    || exists k :: 0 <= k < |bundle| && bundle[k].isUp && bundle[k].version == v
                   && forall j :: 0 <= j < k ==> !bundle[j].isUp
  }

  lemma {:induction false} FirstUpVersionSpec(bundle: seq<Migration>)
    ensures IsFirstUp(bundle, FirstUpVersion(bundle))
  {
    if bundle != [] && !bundle[0].isUp {
      FirstUpVersionSpec(bundle[1..]);
      var v := FirstUpVersion(bundle[1..]);
      if k :| 0 <= k < |bundle[1..]| && bundle[1..][k].isUp && bundle[1..][k].version == v
              && forall j :: 0 <= j < k ==> !bundle[1..][j].isUp
      {
        assert bundle[k + 1].isUp && bundle[k + 1].version == v;
        forall j | 0 <= j < k + 1 ensures !bundle[j].isUp {
          assert j > 0 ==> bundle[j] == bundle[1..][j - 1];
        }
      }
    }
  }

  /** The newest applied bundled version, 0 without one. */
  ghost predicate IsLatestApplied(rows: seq<Row>, bundle: seq<Migration>, latest: Version) {
    && (forall v :: IsApplied(rows, bundle, v) ==> v <= latest)
    && (IsApplied(rows, bundle, latest) || (latest == 0 && forall v :: !IsApplied(rows, bundle, v)))
  }

  lemma {:induction false} LatestAppliedSpec(rows: seq<Row>, bundle: seq<Migration>)
    requires SortedRows(rows)
    ensures IsLatestApplied(rows, bundle, LatestApplied(rows, bundle))
  {
    if rows != [] {
      var init, last := rows[..|rows| - 1], rows[|rows| - 1];
      LatestAppliedSpec(init, bundle);
      AppliedChecksumSpec([last], bundle, last.version);
      assert forall r :: r in rows <==> r in init || r == last;
      forall v ensures IsApplied(rows, bundle, v) <==>
                       IsApplied(init, bundle, v) || (v == last.version && IsApplied([last], bundle, v))
      {
      }
      assert forall r :: r in init ==> r.version < last.version;
    }
  }

  /** An up migration, other than the contract one, that has no applied row. */
  predicate IsUnmet(rows: seq<Row>, bundle: seq<Migration>, m: Migration) {
    m.isUp && m.version != CONTRACT_VERSION && AppliedChecksum(rows, bundle, m.version).None?
  }

  /** `v` is the version of the first unmet migration in bundle order. */
  ghost predicate IsFirstUnmet(
      rows: seq<Row>, some: seq<Migration>, bundle: seq<Migration>, v: Version)
  {
    exists k :: 0 <= k < |some| && some[k].version == v && IsUnmet(rows, bundle, some[k])
                && forall j :: 0 <= j < k ==> !IsUnmet(rows, bundle, some[j])
  }

  lemma {:induction false} FirstUnmetSpec(
      rows: seq<Row>, some: seq<Migration>, bundle: seq<Migration>)
    ensures match FirstUnmet(rows, some, bundle)
            case None => forall m :: m in some ==> !IsUnmet(rows, bundle, m)
            case Some(v) => IsFirstUnmet(rows, some, bundle, v)
  {
    if some != [] {
      FirstUnmetSpec(rows, some[1..], bundle);
      var p, later := some[0], Pending(rows, some[1..], bundle);
      assert ([p] + later)[1..] == later && [] + later == later;
      var found := FirstUnmet(rows, some[1..], bundle);
      if !IsUnmet(rows, bundle, p) && found.Some? {
        var k :| 0 <= k < |some[1..]| && some[1..][k].version == found.value
                 && IsUnmet(rows, bundle, some[1..][k])
                 && forall j :: 0 <= j < k ==> !IsUnmet(rows, bundle, some[1..][j]);
        assert some[k + 1].version == found.value && IsUnmet(rows, bundle, some[k + 1]);
        forall j | 0 <= j < k + 1 ensures !IsUnmet(rows, bundle, some[j]) {
          assert j > 0 ==> some[j] == some[1..][j - 1];
        }
      }
    }
  }

  /** The fence, if there is one, can be read and holds only versions the bundle knows. */
  ghost predicate FenceIsKnown(db: Db, bundle: seq<Migration>, fenceUnreadable: bool) {
    db.fence.Some? ==> !fenceUnreadable && forall u :: u in db.fence.value ==> !IsForeign(u, bundle)
  }

  /** Every up migration but the contract one has its successful row under its own checksum. */
  ghost predicate IsComplete(rows: seq<Row>, bundle: seq<Migration>) {
    forall m :: m in bundle && m.isUp && m.version != CONTRACT_VERSION ==> RowOf(m) in rows
  }

  lemma CompleteIff(rows: seq<Row>, bundle: seq<Migration>)
    requires ValidBundle(bundle)
    ensures IsComplete(rows, bundle) <==> forall m :: m in bundle ==> !IsUnmet(rows, bundle, m)
  {
    forall m | m in bundle && m.isUp
      ensures AppliedChecksum(rows, bundle, m.version).Some? <==> RowOf(m) in rows
    {
      AppliedChecksumSpec(rows, bundle, m.version);
      ExpectedSpec(bundle, m.version);
    }
  }

  /**
   * What each answer of the checker means, for every valid database: which is given is decided by
   * the tables alone, the earlier stages first.
   */
  lemma InspectedSpec(db: Db, bundle: seq<Migration>, fenceUnreadable: bool)
    requires ValidDb(db) && ValidBundle(bundle)
    ensures var rows := RowsOf(db);
            match Inspected(db, bundle, fenceUnreadable)
            case Ok(_) =>
              && db.history.Some? && Clean(rows, bundle)
              && FenceIsKnown(db, bundle, fenceUnreadable) && IsComplete(rows, bundle)
            case Err(MissingMigrationHistory(v)) => db.history.None? && IsFirstUp(bundle, v)
            case Err(VersionMismatch(v)) =>
              db.history.Some? && IsFirst(rows, r => Conflicts(r, bundle), Some(v))
            case Err(Dirty(v)) =>
              && db.history.Some? && (forall r :: r in rows ==> !Conflicts(r, bundle))
              && IsFirst(rows, r => IsDirty(r, bundle), Some(v))
            case Err(FenceUnreadable) =>
              db.history.Some? && Clean(rows, bundle) && db.fence.Some? && fenceUnreadable
            case Err(VersionMissing(v)) =>
              && db.history.Some? && Clean(rows, bundle) && db.fence.Some? && !fenceUnreadable
              && IsFirstForeign(db.fence.value, bundle, v)
            case Err(VersionTooNew(v, latest)) =>
              && db.history.Some? && Clean(rows, bundle)
              && FenceIsKnown(db, bundle, fenceUnreadable)
              && IsFirstUnmet(rows, bundle, bundle, v) && IsLatestApplied(rows, bundle, latest)
            case Err(Execute(_)) => false
  {
    if db.history.None? {
      FirstUpVersionSpec(bundle);
    } else {
      RefusalSpec(db, bundle);
      FirstUnmetSpec(RowsOf(db), bundle, bundle);
      LatestAppliedSpec(RowsOf(db), bundle);
      CompleteIff(RowsOf(db), bundle);
    }
  }

  /** The checker accepts exactly a migrated database: nothing missing, nothing foreign. */
  lemma AcceptsIff(db: Db, bundle: seq<Migration>, fenceUnreadable: bool)
    requires ValidDb(db) && ValidBundle(bundle)
    ensures Inspected(db, bundle, fenceUnreadable).Ok? <==>
            && db.history.Some? && Clean(RowsOf(db), bundle)
            && FenceIsKnown(db, bundle, fenceUnreadable) && IsComplete(RowsOf(db), bundle)
  {
    InspectedSpec(db, bundle, fenceUnreadable);
    CompleteIff(RowsOf(db), bundle);
    var i := Inspected(db, bundle, fenceUnreadable);
    if i.Err? && i.error.VersionTooNew? {
      var k :| 0 <= k < |bundle| && IsUnmet(RowsOf(db), bundle, bundle[k]);
      assert bundle[k] in bundle;
    }
  }

  /**
   * With a readable fence the checker accepts exactly when there is a history table, the migrator
   * would succeed, and it would add at most the contract migration. Given the table, both refuse
   * a conflict, a dirty row or the fence with the same error; without it the checker asks for the
   * first migration, whatever the migrator would do.
   */
  lemma MigratorAndCheckerAgree(db: Db, bundle: seq<Migration>, fencing: set<Version>)
    requires ValidDb(db) && ValidBundle(bundle)
    ensures var (d, r) := Migrated(db, bundle, fencing, {});
            var i := Inspected(db, bundle, false);
            && (i.Ok? <==>
                  db.history.Some? && r.Ok?
                  && forall q :: q in RowsOf(d) && q !in RowsOf(db) ==> q.version == CONTRACT_VERSION)
            && (db.history.Some? ==>
                  && (r.Err? ==> i == r)
                  && (i.Err? && !i.error.VersionTooNew? ==> r == i))
            && (db.history.None? ==>
                  i.Err? && i.error.MissingMigrationHistory? && IsFirstUp(bundle, i.error.firstVersion))
  {
    FirstUpVersionSpec(bundle);
    if db.history.Some? {
      AgreeOnHistory(db, bundle, fencing);
    }
  }

  lemma AgreeOnHistory(db: Db, bundle: seq<Migration>, fencing: set<Version>)
    requires db.history.Some? && ValidDb(db) && ValidBundle(bundle)
    ensures var (d, r) := Migrated(db, bundle, fencing, {});
            var i := Inspected(db, bundle, false);
            && (i.Ok? <==>
                  r.Ok? && forall q :: q in RowsOf(d) && q !in RowsOf(db) ==>
                             q.version == CONTRACT_VERSION)
            && (r.Err? ==> i == r)
            && (i.Err? && !i.error.VersionTooNew? ==> r == i)
  {
    var rows := db.history.value;
    var pending := Pending(rows, bundle, bundle);
    var (d, r) := Migrated(db, bundle, fencing, {});
    FirstOtherSpec(pending);
    if Refusal(db, bundle).None? {
      PendingIsFresh(db, bundle);
      ApplyAllSucceedsIff(db, pending, fencing, {});
      ApplyAllRows(db, pending, fencing, {});
      forall m | m in pending ensures RowOf(m) in RowsOf(d) && RowOf(m) !in rows {
        assert !HasVersion(rows, m.version);
      }
    } else {
      RefusalSpec(db, bundle);
    }
  }
}
