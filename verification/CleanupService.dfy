/** The history cleanup service: its configuration and one full run over the tables it owns. */
module CleanupService {
  import opened Options
  import opened CleanupTable

  const SECONDS_PER_DAY: int := 86400

  datatype CleanupConfig = CleanupConfig(
    sseDays: int, historyDays: int, summaryDays: int, dashboardDays: int, operationLogDays: int,
    batchSize: int, autoCleanup: bool)

  const DEFAULT_CONFIG := CleanupConfig(30, 7, 365, 365, 90, 1000, true)

  function OrDefault(value: int, default: int): int {
    if value <= 0 then default else value
  }

  function Normalize(config: Option<CleanupConfig>): CleanupConfig {
    match config
    case None => DEFAULT_CONFIG
    case Some(c) =>
      CleanupConfig(
        OrDefault(c.sseDays, DEFAULT_CONFIG.sseDays),
        OrDefault(c.historyDays, DEFAULT_CONFIG.historyDays),
        OrDefault(c.summaryDays, DEFAULT_CONFIG.summaryDays),
        OrDefault(c.dashboardDays, DEFAULT_CONFIG.dashboardDays),
        OrDefault(c.operationLogDays, DEFAULT_CONFIG.operationLogDays),
        OrDefault(c.batchSize, DEFAULT_CONFIG.batchSize),
        c.autoCleanup)
  }

  predicate IsValid(c: CleanupConfig) {
    && 2 <= c.historyDays <= 30
    && 8 <= c.summaryDays <= 3650
    && 1 <= c.dashboardDays <= 3650
    && 1 <= c.operationLogDays <= 3650
    && 1 <= c.sseDays <= 3650
    && 1 <= c.batchSize <= 20000
  }

  /** The legacy retention may be missing from an update. */
  function FillLegacy(c: CleanupConfig): CleanupConfig {
    c.(sseDays := OrDefault(c.sseDays, DEFAULT_CONFIG.sseDays))
  }

  predicate IsPositive(c: CleanupConfig) {
    && c.sseDays >= 1 && c.historyDays >= 1 && c.summaryDays >= 1 && c.dashboardDays >= 1
    && c.operationLogDays >= 1 && c.batchSize >= 1
  }

  /** Normalising repairs exactly the configurations that have a non-positive number, and only once. */
  lemma NormalizeFixedIff(c: CleanupConfig)
    ensures Normalize(Some(c)) == c <==> IsPositive(c)
    ensures IsPositive(Normalize(Some(c)))
    ensures Normalize(Some(Normalize(Some(c)))) == Normalize(Some(c))
    ensures IsValid(c) ==> Normalize(Some(c)) == c
  {
  }

  /** Field by field: a number that is not positive becomes its default. */
  lemma NormalizedFields(c: CleanupConfig)
    ensures Normalize(None) == CleanupConfig(30, 7, 365, 365, 90, 1000, true)
    ensures var n := Normalize(Some(c));
            && n.sseDays == (if c.sseDays <= 0 then 30 else c.sseDays)
            && n.historyDays == (if c.historyDays <= 0 then 7 else c.historyDays)
            && n.summaryDays == (if c.summaryDays <= 0 then 365 else c.summaryDays)
            && n.dashboardDays == (if c.dashboardDays <= 0 then 365 else c.dashboardDays)
            && n.operationLogDays == (if c.operationLogDays <= 0 then 90 else c.operationLogDays)
            && n.batchSize == (if c.batchSize <= 0 then 1000 else c.batchSize)
            && n.autoCleanup == c.autoCleanup
  {
  }

  datatype TableSpec = TableSpec(tableName: string, cutoff: int)

  function Cutoff(now: int, days: int): int {
    now - days * SECONDS_PER_DAY
  }

  /** The tables in the order they are cleaned. */
  function Specs(config: CleanupConfig, now: int): (specs: seq<TableSpec>)
    ensures |specs| == 5
  {
    [ TableSpec("endpoint_sse", Cutoff(now, config.sseDays)),
      TableSpec("service_history", Cutoff(now, config.historyDays)),
      TableSpec("traffic_hourly_summary", Cutoff(now, config.summaryDays)),
      TableSpec("dashboard_traffic_summary", Cutoff(now, config.dashboardDays)),
      TableSpec("tunnel_operation_logs", Cutoff(now, config.operationLogDays)) ]
  }

  predicate DistinctNames(specs: seq<TableSpec>) {
    forall i, j :: 0 <= i < j < |specs| ==> specs[i].tableName != specs[j].tableName
  }

  lemma SpecNamesDiffer(config: CleanupConfig, now: int)
    ensures DistinctNames(Specs(config, now))
  {
    var lengths := [12, 15, 22, 25, 21];
    assert forall i :: 0 <= i < 5 ==> |Specs(config, now)[i].tableName| == lengths[i];
  }

  /** How far the loop over the batches of a table has come: `gone` has been deleted so far. */
  ghost predicate Progress(before: Table, cutoff: int, gone: set<nat>, rows: Table) {
    && gone == Oldest(before, Expired(before, cutoff), |gone|)
    && gone <= Expired(before, cutoff)
    && (forall id :: id in before ==> (id in rows <==> id !in gone))
    && (forall id :: id in before && id in rows ==> rows[id] == before[id])
    && (forall id :: id in rows && id !in before ==> rows[id] >= cutoff)
  }

  lemma BatchMakesProgress(before: Table, cutoff: int, gone: set<nat>, rows: Table, limit: nat, arrived: Table)
    requires Progress(before, cutoff, gone, rows)
    requires arrived.Keys !! before.Keys + rows.Keys
    requires forall id :: id in arrived ==> arrived[id] >= cutoff
    ensures var batch := Oldest(rows, Expired(rows, cutoff), limit);
            && batch <= Expired(before, cutoff) - gone
            && |gone + batch| == |gone| + |batch|
            && |batch| <= limit
            && Progress(before, cutoff, gone + batch, (rows - batch) + arrived)
            && (|batch| < limit ==> gone + batch == Expired(before, cutoff))
  {
    hide Oldest, Progress, Expired;
    var expired := Expired(before, cutoff);
    RemainingExpired(before, cutoff, gone, rows);
    var batch := Oldest(rows, expired - gone, limit);
    BatchExtendsPrefix(before, expired, gone, rows, limit);
    assert gone !! batch;
    assert |gone + batch| == |gone| + |batch|;
    NextProgress(before, cutoff, gone, rows, batch, arrived);
    if |batch| < limit {
      ProperSubsetIsSmaller(batch, expired - gone);
      assert gone + batch == expired;
    }
  }

  lemma RemainingExpired(before: Table, cutoff: int, gone: set<nat>, rows: Table)
    requires Progress(before, cutoff, gone, rows)
    ensures Expired(rows, cutoff) == Expired(before, cutoff) - gone
    ensures forall id :: id in Expired(before, cutoff) - gone ==> id in rows && rows[id] == before[id]
    ensures gone == Oldest(before, Expired(before, cutoff), |gone|) && gone <= Expired(before, cutoff)
  {
    hide Oldest;
  }

  lemma NextProgress(before: Table, cutoff: int, gone: set<nat>, rows: Table, batch: set<nat>, arrived: Table)
    requires Progress(before, cutoff, gone, rows)
    requires batch <= Expired(before, cutoff) - gone
    requires gone + batch == Oldest(before, Expired(before, cutoff), |gone + batch|)
    requires arrived.Keys !! before.Keys + rows.Keys
    requires forall id :: id in arrived ==> arrived[id] >= cutoff
    ensures Progress(before, cutoff, gone + batch, (rows - batch) + arrived)
  {
    hide Oldest;
  }

  lemma ProgressIsCleaned(before: Table, cutoff: int, gone: set<nat>, rows: Table, result: CleanupResult)
    requires Progress(before, cutoff, gone, rows)
    requires result.deletedCount == |gone|
    requires result.error.None? ==> gone == Expired(before, cutoff)
    ensures Cleaned(before, rows, cutoff, result)
  {
    hide Oldest;
    assert gone == set id | id in before && id !in rows;
  }

  lemma NoProgressYet(before: Table, cutoff: int)
    ensures Progress(before, cutoff, {}, before)
  {
  }

  type Database = map<string, Table>

  /** What a run has done to the table of one spec. */
  ghost predicate Swept(before: Database, after: Database, spec: TableSpec, result: CleanupResult) {
    && result.tableName == spec.tableName
    && (spec.tableName in before ==>
          && spec.tableName in after
          && Cleaned(before[spec.tableName], after[spec.tableName], spec.cutoff, result))
    && (spec.tableName !in before ==> result.deletedCount == 0 && result.error.None?)
  }

  lemma SweptFrame(before: Database, a: Database, b: Database, spec: TableSpec, result: CleanupResult)
    requires Swept(before, a, spec, result)
    requires spec.tableName in a ==> spec.tableName in b && b[spec.tableName] == a[spec.tableName]
    ensures Swept(before, b, spec, result)
  {
    hide Cleaned;
  }

  lemma SweptStart(before: Database, a: Database, b: Database, spec: TableSpec, result: CleanupResult)
    requires Swept(a, b, spec, result)
    requires spec.tableName in before <==> spec.tableName in a
    requires spec.tableName in a ==> before[spec.tableName] == a[spec.tableName]
    ensures Swept(before, b, spec, result)
    ensures result.tableName == spec.tableName
  {
    hide Cleaned;
  }

  lemma SweptAbsent(before: Database, after: Database, spec: TableSpec)
    requires spec.tableName !in before
    ensures Swept(before, after, spec, CleanupResult(spec.tableName, 0, None))
  {
  }

  /** The first tables of the list have been cleaned with these results; the others are as they were. */
  ghost predicate SweptUpTo(before: Database, after: Database, specs: seq<TableSpec>, results: seq<CleanupResult>) {
    && |results| <= |specs| && after.Keys == before.Keys
    && (forall k :: 0 <= k < |results| ==> Swept(before, after, specs[k], results[k]))
    && (forall name :: name in after && (forall k :: 0 <= k < |results| ==> results[k].tableName != name) ==>
          after[name] == before[name])
  }

  lemma NoNewError(results: seq<CleanupResult>, result: CleanupResult)
    ensures (forall k :: 0 <= k < |results| + 1 ==> (results + [result])[k].error.None?) <==>
            (forall k :: 0 <= k < |results| ==> results[k].error.None?) && result.error.None?
  {
    var all := results + [result];
    assert all[|results|] == result && forall k :: 0 <= k < |results| ==> all[k] == results[k];
  }

  lemma NothingSwept(db: Database, specs: seq<TableSpec>)
    ensures SweptUpTo(db, db, specs, [])
  {
  }

  lemma SweptNames(before: Database, after: Database, spec: TableSpec, result: CleanupResult)
    requires Swept(before, after, spec, result)
    ensures result.tableName == spec.tableName
  {
  }

  lemma SweptNext(before: Database, mid: Database, after: Database, specs: seq<TableSpec>,
                  results: seq<CleanupResult>, result: CleanupResult)
    requires SweptUpTo(before, mid, specs, results) && |results| < |specs| && DistinctNames(specs)
    requires Swept(mid, after, specs[|results|], result) && after.Keys == mid.Keys
    requires forall name :: name in after && name != specs[|results|].tableName ==> after[name] == mid[name]
    ensures SweptUpTo(before, after, specs, results + [result])
  {
    hide Swept;
    var i := |results|;
    SweptNames(mid, after, specs[i], result);
    forall k | 0 <= k < i
      ensures Swept(before, after, specs[k], results[k]) && results[k].tableName != specs[i].tableName {
      SweptNames(before, mid, specs[k], results[k]);
      SweptFrame(before, mid, after, specs[k], results[k]);
    }
    SweptStart(before, mid, after, specs[i], result);
    assert (results + [result])[i] == result;
    forall name | name in after && forall k :: 0 <= k <= i ==> (results + [result])[k].tableName != name
      ensures after[name] == before[name] {
      assert forall k :: 0 <= k < i ==> results[k].tableName == (results + [result])[k].tableName;
      assert name != specs[i].tableName && after[name] == mid[name];
    }
  }

  datatype RunError = TablesUnreadable | Interrupted(error: CleanupError) | TableFailed(error: CleanupError)

  predicate IsInterruption(e: CleanupError) {
    e.Cancelled? || e.DeadlineExceeded? || (e.BatchFailed? && e.cancelled)
  }

  /** `ctx.Err()`: the caller may have cancelled, or the deadline passed, at any time. */
  method ContextError(calm: bool) returns (e: Option<CleanupError>)
    ensures e.Some? ==> e.value in {Cancelled, DeadlineExceeded}
    ensures calm ==> e.None?
  {
    if calm {
      return None;
    }
    if * {
      e := None;
    } else if * {
      e := Some(Cancelled);
    } else {
      e := Some(DeadlineExceeded);
    }
  }

  class CleanupService {
    var config: CleanupConfig
    var db: Database

    predicate Valid()
      reads this
    {
      IsPositive(config)
    }

    constructor (config: Option<CleanupConfig>, db: Database)
      ensures Valid() && this.config == Normalize(config) && this.db == db
    {
      this.config := Normalize(config);
      this.db := db;
    }

    /** Replaces the configuration by a valid one, or leaves it as it is. */
    method UpdateConfig(updated: Option<CleanupConfig>) returns (ok: bool)
      requires Valid()
      modifies this`config
      ensures Valid()
      ensures ok <==> updated.Some? && IsValid(FillLegacy(updated.value))
      ensures config == if ok then FillLegacy(updated.value) else old(config)
      ensures ok <==>
              && updated.Some?
              && var c := updated.value;
                 && 2 <= c.historyDays <= 30 && 8 <= c.summaryDays <= 3650 && 1 <= c.dashboardDays <= 3650
                 && 1 <= c.operationLogDays <= 3650 && c.sseDays <= 3650 && 1 <= c.batchSize <= 20000
      ensures ok ==>
                config == updated.value.(sseDays := if updated.value.sseDays <= 0 then 30 else updated.value.sseDays)
    {
      if updated.None? {
        return false;
      }
      var c := updated.value;
      if c.sseDays <= 0 {
        c := c.(sseDays := DEFAULT_CONFIG.sseDays);
      }
      if !IsValid(c) {
        return false;
      }
      config := c;
      return true;
    }

    /**
     * One DELETE statement. It may fail and leave the table alone. Meanwhile other parts of the program may
     * insert rows that are not expired, under ids that were never given out. In a calm run nothing fails.
     */
    method DeleteBatch(name: string, cutoff: int, limit: nat, used: set<nat>, calm: bool)
      returns (affected: Option<nat>, arrived: Table)
      requires name in db
      modifies this`db
      ensures affected.None? ==> db == old(db) && !calm
      ensures affected.Some? ==>
                var batch := Oldest(old(db)[name], Expired(old(db)[name], cutoff), limit);
                && affected.value == |batch|
                && db == old(db)[name := (old(db)[name] - batch) + arrived]
                && arrived.Keys !! used
                && forall id :: id in arrived ==> arrived[id] >= cutoff
    {
      arrived := map[];
      if !calm {
        if * {
          return None, arrived;
        }
      }
      var batch := Oldest(db[name], Expired(db[name], cutoff), limit);
      var inserted: Table := *;
      if inserted.Keys !! used && (forall id :: id in inserted ==> inserted[id] >= cutoff) {
        arrived := inserted;
      }
      db := db[name := (db[name] - batch) + arrived];
      affected := Some(|batch|);
    }

    /** In a calm run no statement fails, nobody cancels and no deadline passes. */
    method CleanTable(spec: TableSpec, batchSize: int, calm: bool) returns (result: CleanupResult)
      requires spec.tableName in db
      requires batchSize >= 1
      modifies this`db
      ensures db.Keys == old(db).Keys
      ensures forall name :: name in db && name != spec.tableName ==> db[name] == old(db)[name]
      ensures Swept(old(db), db, spec, result)
      ensures calm ==> result.error.None?
    {
      hide Oldest, Expired, Progress, Cleaned;
      var name := spec.tableName;
      var used := db[name].Keys;
      ghost var before, gone := db[name], {};
      ghost var expired := Expired(before, spec.cutoff);
      NoProgressYet(before, spec.cutoff);
      result := CleanupResult(name, 0, None);
      var stop := ContextError(calm);
      if stop.Some? {
        result := result.(error := stop);
        ProgressIsCleaned(before, spec.cutoff, gone, db[name], result);
        return;
      }
      while true
        invariant db.Keys == old(db).Keys
        invariant forall other :: other in db && other != name ==> db[other] == old(db)[other]
        invariant Progress(before, spec.cutoff, gone, db[name])
        invariant result == CleanupResult(name, |gone|, None)
        invariant before.Keys + db[name].Keys <= used
        decreases expired - gone
      {
        stop := ContextError(calm);
        if stop.Some? {
          result := result.(error := stop);
          ProgressIsCleaned(before, spec.cutoff, gone, db[name], result);
          return;
        }
        ghost var rows := db[name];
        var affected, arrived := DeleteBatch(name, spec.cutoff, batchSize, used, calm);
        if affected.None? {
          var cancelled := *;
          result := result.(error := Some(BatchFailed(cancelled)));
          ProgressIsCleaned(before, spec.cutoff, gone, db[name], result);
          return;
        }
        used := used + arrived.Keys;
        ghost var batch := Oldest(rows, Expired(rows, spec.cutoff), batchSize);
        BatchMakesProgress(before, spec.cutoff, gone, rows, batchSize, arrived);
        gone := gone + batch;
        result := result.(deletedCount := result.deletedCount + affected.value);
        if affected.value < batchSize {
          ProgressIsCleaned(before, spec.cutoff, gone, db[name], result);
          return;
        }
        var interrupted := *;
        if interrupted && !calm {
          stop := ContextError(calm);
          result := result.(error := if stop.Some? then stop else Some(Cancelled));
          ProgressIsCleaned(before, spec.cutoff, gone, db[name], result);
          return;
        }
      }
    }

    method ExecuteFullCleanup(now: int, calm: bool) returns (results: seq<CleanupResult>, errors: seq<RunError>)
      requires Valid()
      modifies this`db
      ensures Valid() && |results| <= 5 && db.Keys == old(db).Keys
      ensures SweptUpTo(old(db), db, Specs(config, now), results)
      ensures calm ==> errors == []
      ensures errors == [] <==> |results| == 5 && forall i :: 0 <= i < 5 ==> results[i].error.None?
      ensures forall i :: 0 <= i < |results| - 1 ==>
                results[i].error !in {Some(Cancelled), Some(DeadlineExceeded), Some(BatchFailed(true))}
      ensures forall i :: 0 <= i < |results| && results[i].error.Some? ==> TableFailed(results[i].error.value) in errors
      ensures |results| < 5 ==>
                && errors != []
                && errors[|errors| - 1] in {TablesUnreadable, Interrupted(Cancelled), Interrupted(DeadlineExceeded),
                                            TableFailed(Cancelled), TableFailed(DeadlineExceeded),
                                            TableFailed(BatchFailed(true))}
    {
      hide SweptUpTo, Swept, DistinctNames, Specs;
      results, errors := [], [];
      var snapshot := config;
      var specs := Specs(snapshot, now);
      NothingSwept(db, specs);
      SpecNamesDiffer(snapshot, now);
      var readable := *;
      if !readable && !calm {
        return [], [TablesUnreadable];
      }
      var existing := db.Keys;
      for i := 0 to 5
        invariant |results| == i && db.Keys == existing
        invariant SweptUpTo(old(db), db, specs, results)
        invariant errors == [] <==> forall k :: 0 <= k < i ==> results[k].error.None?
        invariant forall k :: 0 <= k < i ==> results[k].error.None? || !IsInterruption(results[k].error.value)
        invariant forall k :: 0 <= k < i && results[k].error.Some? ==> TableFailed(results[k].error.value) in errors
        invariant calm ==> errors == []
      {
        var stop := ContextError(calm);
        if stop.Some? {
          errors := errors + [Interrupted(stop.value)];
          return;
        }
        var spec := specs[i];
        ghost var was := results;
        if spec.tableName !in existing {
          SweptAbsent(db, db, spec);
          SweptNext(old(db), db, db, specs, results, CleanupResult(spec.tableName, 0, None));
          results := results + [CleanupResult(spec.tableName, 0, None)];
          NoNewError(was, CleanupResult(spec.tableName, 0, None));
          continue;
        }
        ghost var dbWas := db;
        var result := CleanTable(spec, snapshot.batchSize, calm);
        SweptNext(old(db), dbWas, db, specs, results, result);
        results := results + [result];
        NoNewError(was, result);
        if result.error.Some? {
          errors := errors + [TableFailed(result.error.value)];
          if IsInterruption(result.error.value) {
            return;
          }
        }
      }
    }
  }

  /** The tables of a run, in order, and how many days each is kept. */
  lemma FiveTables(config: CleanupConfig, now: int, i: nat)
    requires i < 5
    ensures Specs(config, now)[i].tableName ==
            ["endpoint_sse", "service_history", "traffic_hourly_summary", "dashboard_traffic_summary",
             "tunnel_operation_logs"][i]
    ensures Specs(config, now)[i].cutoff ==
            now - 86400 * [config.sseDays, config.historyDays, config.summaryDays, config.dashboardDays,
                           config.operationLogDays][i]
  {
  }

  /**
   * What a run does to the five tables, however it ends: under its name in that order, each table that was
   * reached keeps every row that is not older than its days, and if it has no error keeps no older one; an
   * absent table has no error; no other table changes.
   */
  lemma RunOverTables(config: CleanupConfig, now: int, before: Database, after: Database,
                      results: seq<CleanupResult>, i: nat)
    requires SweptUpTo(before, after, Specs(config, now), results) && i < |results|
    ensures var name := ["endpoint_sse", "service_history", "traffic_hourly_summary", "dashboard_traffic_summary",
                         "tunnel_operation_logs"][i];
            var limit := now - 86400 * [config.sseDays, config.historyDays, config.summaryDays, config.dashboardDays,
                                        config.operationLogDays][i];
            && results[i].tableName == name
            && (name !in before ==> results[i].deletedCount == 0 && results[i].error.None?)
            && (name in before ==>
                  && name in after
                  && (forall id :: id in before[name] && before[name][id] >= limit ==>
                        id in after[name] && after[name][id] == before[name][id])
                  && results[i].deletedCount == |set id | id in before[name] && id !in after[name]|
                  && (results[i].error.None? ==>
                        forall id :: id in before[name] && before[name][id] < limit ==> id !in after[name]))
  {
    hide Specs;
    FiveTables(config, now, i);
    var spec := Specs(config, now)[i];
    assert Swept(before, after, spec, results[i]);
    if spec.tableName in before {
      forall id | id in before[spec.tableName] && before[spec.tableName][id] >= spec.cutoff
        ensures id in after[spec.tableName] && after[spec.tableName][id] == before[spec.tableName][id] {
        RetainedStays(before[spec.tableName], after[spec.tableName], spec.cutoff, results[i], id);
      }
      if results[i].error.None? {
        CleanRunLeavesTheRetained(before, after, spec, results[i]);
      }
    }
  }

  /** After a run without errors no table holds an expired row, and no other row is gone. */
  lemma CleanRunLeavesTheRetained(before: Database, after: Database, spec: TableSpec, result: CleanupResult)
    requires Swept(before, after, spec, result) && result.error.None? && spec.tableName in before
    ensures Expired(after[spec.tableName], spec.cutoff) == {}
    ensures forall id :: id in before[spec.tableName] ==>
              (id in after[spec.tableName] <==> before[spec.tableName][id] >= spec.cutoff)
    ensures result.deletedCount == |Expired(before[spec.tableName], spec.cutoff)|
  {
    CleanedLeavesTheRetained(before[spec.tableName], after[spec.tableName], spec.cutoff, result);
  }

  /**
   * Under a valid configuration no run, successful or not, takes a row that the charts may still need: two
   * days of minute history, eight days of hourly summaries, one day of anything else.
   */
  lemma RecoveryWindowIsProtected(config: CleanupConfig, now: int, before: Database, after: Database,
                                  result: CleanupResult, i: nat, id: nat)
    requires IsValid(config) && i < 5 && Swept(before, after, Specs(config, now)[i], result)
    requires result.tableName in before && id in before[result.tableName]
    requires before[result.tableName][id] >= now - [1, 2, 8, 1, 1][i] * 86400
    ensures id in after[result.tableName] && after[result.tableName][id] == before[result.tableName][id]
  {
    var spec := Specs(config, now)[i];
    assert spec.cutoff <= now - [1, 2, 8, 1, 1][i] * 86400;
    RetainedStays(before[spec.tableName], after[spec.tableName], spec.cutoff, result, id);
  }
}
