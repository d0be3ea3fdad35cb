/** The traffic service: its tables as fields, each method one transaction. */
module TrafficService {
  import opened Options
  import opened TrafficModel
  import opened TrafficProofs
  import opened TrafficRefresh

  // ------------------------------------------------------------------- SQL sums

  lemma AddSwaps(a: Counters, b: Counters, c: Counters)
    ensures Add(a, Add(b, c)) == Add(b, Add(a, c))
  {
  }

  lemma {:induction false} SumByRemove(rows: map<Key, SummaryRow>, f: SummaryRow -> Counters, k: Key)
    requires k in rows
    ensures SumBy(rows, f) == Add(f(rows[k]), SumBy(rows - {k}, f))
    decreases |rows|
  {
    var picked :| picked in rows && SumBy(rows, f) == Add(f(rows[picked]), SumBy(rows - {picked}, f));
    if picked != k {
      SumByRemove(rows - {picked}, f, k);
      SumByRemove(rows - {k}, f, picked);
      assert (rows - {picked}) - {k} == (rows - {k}) - {picked};
      AddSwaps(f(rows[k]), f(rows[picked]), SumBy((rows - {k}) - {picked}, f));
    }
  }

  function SumInOrder(rows: map<Key, SummaryRow>, f: SummaryRow -> Counters, order: seq<Key>): Counters
    requires forall k :: k in order ==> k in rows
  {
    if order == [] then ZERO else Add(f(rows[order[0]]), SumInOrder(rows, f, order[1..]))
  }

  /** SUM is the plain sum over the hour's rows, in whatever order they are visited. */
  lemma {:induction false} SumIsAnyOrder(rows: map<Key, SummaryRow>, f: SummaryRow -> Counters, order: seq<Key>)
    requires forall k :: k in order <==> k in rows
    requires forall i, j :: 0 <= i < j < |order| ==> order[i] != order[j]
    ensures SumBy(rows, f) == SumInOrder(rows, f, order)
    decreases |order|
  {
    if order != [] {
      var k, rest := order[0], order[1..];
      SumByRemove(rows, f, k);
      forall x ensures x in rest <==> x in rows - {k} {
        if x in rest { var i :| 0 <= i < |rest| && rest[i] == x; assert order[i + 1] != order[0]; }
      }
      SumIsAnyOrder(rows - {k}, f, rest);
      SumInOrderFrame(rows, rows - {k}, f, rest);
    } else {
      assert rows == map[] by { assert forall k :: k !in rows; }
    }
  }

  lemma {:induction false} SumInOrderFrame(a: map<Key, SummaryRow>, b: map<Key, SummaryRow>,
                                           f: SummaryRow -> Counters, order: seq<Key>)
    requires forall k :: k in order ==> k in a && k in b && a[k] == b[k]
    ensures SumInOrder(a, f, order) == SumInOrder(b, f, order)
    decreases |order|
  {
    if order != [] {
      SumInOrderFrame(a, b, f, order[1..]);
    }
  }

  // ---------------------------------------------------------- today's total

  predicate NonNegative(v: Counters) {
    v.tcpRx >= 0 && v.tcpTx >= 0 && v.udpRx >= 0 && v.udpTx >= 0
  }

  predicate CountersNonNegative(h: History) {
    forall s :: s in h ==> NonNegative(s.values)
  }

  lemma {:induction false} StreamNonNegative(h: History, k: Key, lo: int, hi: int)
    requires CountersNonNegative(h)
    ensures forall v :: v in Stream(h, k, lo, hi) ==> NonNegative(v)
    decreases hi - lo
  {
    if lo < hi {
      StreamNonNegative(h, k, lo, hi - 1);
      LastAtIsNewest(h, k, hi - 1);
    }
  }

  lemma {:induction false} ChargedNonNegative(start: Option<Counters>, stream: seq<Counters>)
    requires forall v :: v in stream ==> NonNegative(v)
    ensures NonNegative(Charged(start, stream))
    decreases |stream|
  {
    if stream != [] {
      ChargedNonNegative(start, stream[..|stream| - 1]);
      assert stream[|stream| - 1] in stream;
    }
  }

  /** Resets included, no hour is ever charged a negative amount. */
  lemma IncrementsNonNegative(h: History, tunnels: Option<set<Key>>, prev: map<Key, SummaryRow>,
                              cur: map<Key, SummaryRow>, hour: int)
    requires CountersNonNegative(h)
    ensures var rows := Refreshed(h, tunnels, prev, cur, hour);
            forall k :: k in rows ==> NonNegative(rows[k].increment)
  {
    var rows := Refreshed(h, tunnels, prev, cur, hour);
    forall k | k in rows ensures NonNegative(rows[k].increment) {
      StreamNonNegative(h, k, hour * HOUR, (hour + 1) * HOUR);
      ChargedNonNegative(PrevTotal(prev, k), Stream(h, k, hour * HOUR, (hour + 1) * HOUR));
      RefreshedRow(h, tunnels, prev, cur, hour, k);
    }
  }

  /** SELECT SUM(...) over the hours lo..hi - 1. */
  ghost function SumHours(summary: Summary, f: SummaryRow -> Counters, lo: int, hi: int): Counters
    decreases hi - lo
  {
    if hi <= lo then ZERO else Add(SumHours(summary, f, lo, hi - 1), SumBy(RowsAt(summary, hi - 1), f))
  }

  ghost function TodayIncrement(summary: Summary, lo: int, hi: int): Counters {
    SumHours(summary, PositiveIncrementOf, lo, hi)
  }

  lemma {:induction false} PositiveFilterOnHour(rows: map<Key, SummaryRow>)
    requires forall k :: k in rows ==> NonNegative(rows[k].increment)
    ensures SumBy(rows, PositiveIncrementOf) == SumBy(rows, IncrementOf)
    decreases |rows|
  {
    if rows != map[] {
      var k :| k in rows;
      SumByRemove(rows, PositiveIncrementOf, k);
      SumByRemove(rows, IncrementOf, k);
      PositiveFilterOnHour(rows - {k});
    }
  }

  /** No row of the hour, of whichever instance, has a negative increment. */
  predicate NonNegativeHour(summary: Summary, hour: int) {
    forall k :: k in RowsAt(summary, hour) ==> NonNegative(RowsAt(summary, hour)[k].increment)
  }

  lemma AggregateIsNonNegative(h: History, tunnels: Option<set<Key>>, t: Tables, hour: int)
    requires CountersNonNegative(h)
    ensures var t' := AggregateHour(h, tunnels, t, hour);
            && NonNegativeHour(t'.summary, hour)
            && forall other :: other != hour ==> RowsAt(t'.summary, other) == RowsAt(t.summary, other)
  {
    hide Refreshed, NonNegative;
    IncrementsNonNegative(h, tunnels, RowsAt(t.summary, hour - 1), RowsAt(t.summary, hour), hour);
  }

  /** Over non-negative counters no increment of an hour that was ever refreshed is negative, whatever else
      happens and whatever rows there were before. */
  lemma {:induction false} RunIsNonNegative(h: History, t: Tables, events: seq<Event>, hour: int)
    requires CountersNonNegative(FinalHistory(h, events))
    requires NonNegativeHour(t.summary, hour) || RefreshesHour(events, hour)
    ensures NonNegativeHour(Run(h, t, events).summary, hour)
    decreases |events|
  {
    hide AggregateHour, NonNegative, RowsAt;
    if events != [] {
      var n := |events| - 1;
      var front, e := events[..n], events[n];
      assert events == front + [e];
      assert forall s :: s in FinalHistory(h, front) ==> s in FinalHistory(h, events);
      if e.Refreshes? {
        AggregateIsNonNegative(FinalHistory(h, front), e.tunnels, Run(h, t, front), e.hour);
      }
      if !(e.Refreshes? && e.hour == hour) {
        assert NonNegativeHour(t.summary, hour) || RefreshesHour(front, hour);
        RunIsNonNegative(h, t, front, hour);
      }
    }
  }

  lemma {:induction false} FilterDropsNothing(summary: Summary, first: int, end: int)
    requires forall hour :: first <= hour < end ==> NonNegativeHour(summary, hour)
    ensures TodayIncrement(summary, first, end) == SumHours(summary, IncrementOf, first, end)
    decreases end - first
  {
    hide RowsAt;
    if first < end {
      FilterDropsNothing(summary, first, end - 1);
      assert NonNegativeHour(summary, end - 1);
      PositiveFilterOnHour(RowsAt(summary, end - 1));
    }
  }

  /** Hence, over non-negative counters, the `> 0` filter of today's total drops nothing in hours that a run has
      refreshed, leftover rows included. */
  lemma TodayDropsNothing(h: History, t: Tables, events: seq<Event>, first: int, end: int)
    requires CountersNonNegative(FinalHistory(h, events))
    requires forall hour :: first <= hour < end ==> NonNegativeHour(t.summary, hour) || RefreshesHour(events, hour)
    ensures var summary := Run(h, t, events).summary;
            TodayIncrement(summary, first, end) == SumHours(summary, IncrementOf, first, end)
  {
    hide Run, NonNegativeHour, RefreshesHour;
    forall hour | first <= hour < end ensures NonNegativeHour(Run(h, t, events).summary, hour) {
      RunIsNonNegative(h, t, events, hour);
    }
    FilterDropsNothing(Run(h, t, events).summary, first, end);
  }

  /** From start-up on, whatever an earlier process left: it is enough that each hour of today was refreshed by
      the start-up pass over lo..last or by a round after it. */
  lemma TodaySinceStartUp(h: History, t: Tables, lo: int, last: int, tunnels: Option<set<Key>>, failed: set<int>,
                          events: seq<Event>, first: int, end: int)
    requires var all := PassEvents(lo, last, tunnels, failed) + events;
             CountersNonNegative(FinalHistory(h, all))
    requires forall hour :: first <= hour < end ==>
               (lo <= hour <= last && hour !in failed) || RefreshesHour(events, hour)
    ensures var all := PassEvents(lo, last, tunnels, failed) + events;
            var summary := Run(h, t, all).summary;
            TodayIncrement(summary, first, end) == SumHours(summary, IncrementOf, first, end)
  {
    hide Run, CountersNonNegative, FinalHistory, PassEvents, TodayIncrement, SumHours;
    var pass := PassEvents(lo, last, tunnels, failed);
    forall hour | first <= hour < end ensures RefreshesHour(pass + events, hour) {
      PassRefreshes(lo, last, tunnels, failed, hour);
      assert RefreshesHour(pass, hour) || RefreshesHour(events, hour);
    }
    TodayDropsNothing(h, t, pass + events, first, end);
  }

  // ------------------------------------------------------------------ the service

  predicate ChargedSoFar(baselines: map<Key, Counters>, increments: map<Key, Counters>,
                         previousRows: map<Key, SummaryRow>, snapshots: seq<Snapshot>, k: Key)
  {
    var start, seen := PrevTotal(previousRows, k), Project(snapshots, k);
    && IncrementFor(increments, k) == Charged(start, seen)
    && (if k in baselines then Some(baselines[k]) else None) == Baseline(start, seen)
  }

  function IncrementFor(increments: map<Key, Counters>, k: Key): Counters {
    if k in increments then increments[k] else ZERO
  }

  function ChargeOne(baselines: map<Key, Counters>, increments: map<Key, Counters>, row: Snapshot): map<Key, Counters> {
    if row.key in baselines
    then increments[row.key := Add(IncrementFor(increments, row.key), Delta(row.values, baselines[row.key]))]
    else increments
  }

  lemma ProjectSnoc(rows: seq<Snapshot>, row: Snapshot, k: Key)
    ensures Project(rows + [row], k) == if row.key == k then Project(rows, k) + [row.values] else Project(rows, k)
  {
    assert (rows + [row])[..|rows + [row]| - 1] == rows;
  }

  lemma ChargeStep(baselines: map<Key, Counters>, increments: map<Key, Counters>,
                   previousRows: map<Key, SummaryRow>, rows: seq<Snapshot>, row: Snapshot, k: Key)
    requires ChargedSoFar(baselines, increments, previousRows, rows, k)
    ensures ChargedSoFar(baselines[row.key := row.values], ChargeOne(baselines, increments, row),
                         previousRows, rows + [row], k)
  {
    hide Charged, Project, Delta, Add;
    var start, seen := PrevTotal(previousRows, k), Project(rows, k);
    ProjectSnoc(rows, row, k);
    ChargedSnoc(start, seen, row.values);
  }

  lemma HourIncrementOfProjection(h: History, prev: map<Key, SummaryRow>, k: Key, hour: int)
    ensures HourIncrement(h, prev, k, hour) ==
            Charged(PrevTotal(prev, k), Project(WindowSnapshots(h, hour * HOUR, (hour + 1) * HOUR), k))
  {
    WindowProjectsToStream(h, k, hour * HOUR, (hour + 1) * HOUR);
  }

  lemma NothingCarriedWithoutTunnels(h: History, tunnels: Option<set<Key>>, prev: map<Key, SummaryRow>,
                                     rows: map<Key, SummaryRow>, hour: int)
    ensures tunnels.None? ==> CarriedForward(h, tunnels, prev, rows, hour) == rows
  {
    if tunnels.None? { assert CarriedKeys(h, tunnels, prev, hour) == {}; }
  }

  lemma NoRowsNoIncrements(h: History, prev: map<Key, SummaryRow>, hour: int)
    ensures WithIncrements(h, prev, map[], hour) == map[]
  {
  }

  class Service {
    var history: History
    var tunnels: Option<set<Key>>
    var summary: Summary
    var dashboard: map<int, DashboardRow>

    constructor (tunnels: Option<set<Key>>)
      ensures history == [] && this.tunnels == tunnels && summary == map[] && dashboard == map[]
    {
      history, this.tunnels, summary, dashboard := [], tunnels, map[], map[];
    }

    ghost function TableState(): Tables
      reads this
    {
      Tables(summary, dashboard)
    }

    method Record(s: Snapshot)
      modifies this`history
      ensures history == old(history) + [s]
    {
      history := history + [s];
    }

    /** The per-instance baselines taken from the previous hour's rows. */
    method LoadBaselines(previousRows: map<Key, SummaryRow>) returns (baselines: map<Key, Counters>)
      ensures baselines.Keys == previousRows.Keys
      ensures forall k :: k in baselines ==> baselines[k] == previousRows[k].total
    {
      baselines := map[];
      var todo := previousRows.Keys;
      while todo != {}
        invariant todo <= previousRows.Keys
        invariant baselines.Keys == previousRows.Keys - todo
        invariant forall k :: k in baselines ==> baselines[k] == previousRows[k].total
        decreases |todo|
      {
        var k :| k in todo;
        baselines := baselines[k := previousRows[k].total];
        todo := todo - {k};
      }
    }

    /** One pass over all snapshots of the hour, charging each instance as it comes. */
    method ChargeSnapshots(snapshots: seq<Snapshot>, previousRows: map<Key, SummaryRow>)
      returns (increments: map<Key, Counters>)
      ensures forall k :: IncrementFor(increments, k) == Charged(PrevTotal(previousRows, k), Project(snapshots, k))
    {
      var baselines := LoadBaselines(previousRows);
      increments := map[];
      for i := 0 to |snapshots|
        invariant forall k :: ChargedSoFar(baselines, increments, previousRows, snapshots[..i], k)
      {
        var row := snapshots[i];
        ghost var baselines1, increments1, seen1 :=
          baselines[row.key := row.values], ChargeOne(baselines, increments, row), snapshots[..i] + [row];
        forall k ensures ChargedSoFar(baselines1, increments1, previousRows, seen1, k) {
          ChargeStep(baselines, increments, previousRows, snapshots[..i], row, k);
        }
        assert snapshots[..i + 1] == seen1;
        if row.key in baselines {
          var increment := IncrementFor(increments, row.key);
          increments := increments[row.key := Add(increment, Delta(row.values, baselines[row.key]))];
        }
        baselines := baselines[row.key := row.values];
      }
      assert snapshots[..|snapshots|] == snapshots;
      forall k ensures IncrementFor(increments, k) == Charged(PrevTotal(previousRows, k), Project(snapshots, k)) {
        assert ChargedSoFar(baselines, increments, previousRows, snapshots, k);
      }
    }

    method CalculateIncrements(hour: int)
      modifies this`summary
      ensures RowsAt(old(summary), hour) == map[] ==> summary == old(summary)
      ensures RowsAt(old(summary), hour) != map[] ==>
                summary == old(summary)[hour := WithIncrements(history, RowsAt(old(summary), hour - 1),
                                                               RowsAt(old(summary), hour), hour)]
    {
      hide HourIncrement, WindowSnapshots;
      var currentRows := RowsAt(summary, hour);
      if currentRows == map[] {
        return;
      }
      var previousRows := RowsAt(summary, hour - 1);
      var snapshots := WindowSnapshots(history, hour * HOUR, (hour + 1) * HOUR);
      var increments := ChargeSnapshots(snapshots, previousRows);
      forall k ensures IncrementFor(increments, k) == HourIncrement(history, previousRows, k, hour) {
        HourIncrementOfProjection(history, previousRows, k, hour);
      }
      var rows, todo := currentRows, currentRows.Keys;
      while todo != {}
        invariant todo <= currentRows.Keys && rows.Keys == currentRows.Keys
        invariant forall k :: k in todo ==> rows[k] == currentRows[k]
        invariant forall k :: k in rows.Keys - todo ==>
                    rows[k] == currentRows[k].(increment := IncrementFor(increments, k))
        decreases |todo|
      {
        var k :| k in todo;
        rows := rows[k := rows[k].(increment := IncrementFor(increments, k))];
        todo := todo - {k};
      }
      assert rows == WithIncrements(history, previousRows, currentRows, hour);
      summary := summary[hour := rows];
    }

    /** INSERT ... SELECT SUM(...) HAVING COUNT(*) > 0, then the removal of a row without source. */
    method AggregateDashboardTraffic(hour: int)
      modifies this`dashboard
      ensures dashboard == DashboardRefreshed(old(dashboard), RowsAt(summary, hour), hour)
    {
      var rows := RowsAt(summary, hour);
      if rows != map[] {
        var total, count, todo := ZERO, 0, rows;
        while todo != map[]
          invariant Add(total, SumBy(todo, TotalOf)) == SumBy(rows, TotalOf)
          invariant count + |todo| == |rows| && dashboard == old(dashboard)
          decreases |todo|
        {
          var k :| k in todo;
          SumByRemove(todo, TotalOf, k);
          AddAssociates(total, todo[k].total, SumBy(todo - {k}, TotalOf));
          total := Add(total, todo[k].total);
          count := count + 1;
          todo := todo - {k};
        }
        assert DashboardOf(rows) == Some(DashboardRow(total, count));
        dashboard := dashboard[hour := DashboardRow(total, count)];
      } else {
        dashboard := dashboard - {hour};
      }
    }

    /** The four steps of the transaction. */
    method RefreshHour(hour: int)
      modifies this`summary, this`dashboard
      ensures TableState() == AggregateHour(history, tunnels, old(TableState()), hour)
    {
      hide Upserted, WithIncrements, CarriedForward, DashboardRefreshed;
      var previous := RowsAt(summary, hour - 1);
      var upserted := Upserted(history, RowsAt(summary, hour), hour);
      summary := summary[hour := upserted];
      if tunnels.Some? {
        summary := summary[hour := CarriedForward(history, tunnels, previous, upserted, hour)];
      }
      ghost var rows := CarriedForward(history, tunnels, previous, upserted, hour);
      NothingCarriedWithoutTunnels(history, tunnels, previous, upserted, hour);
      assert summary == old(summary)[hour := rows];
      CalculateIncrements(hour);
      NoRowsNoIncrements(history, previous, hour);
      assert summary == old(summary)[hour := WithIncrements(history, previous, rows, hour)];
      AggregateDashboardTraffic(hour);
    }

    /** The transaction: an error in any of its steps, or in the commit, undoes them all. */
    method AggregateTrafficDataForHour(hour: int, commits: bool) returns (ok: bool)
      modifies this`summary, this`dashboard
      ensures ok == commits
      ensures TableState() == if ok then AggregateHour(history, tunnels, old(TableState()), hour)
                              else old(TableState())
    {
      var savedSummary, savedDashboard := summary, dashboard;
      RefreshHour(hour);
      ok := commits;
      if !ok {
        summary, dashboard := savedSummary, savedDashboard;
      }
    }

    /** The periodic refresh during hour `now`: if the first hour fails the second is not tried. */
    method AggregateTrafficData(now: int, firstCommits: bool, secondCommits: bool) returns (outcome: Outcome)
      modifies this`summary, this`dashboard
      ensures outcome == if !firstCommits then NoHour else if secondCommits then BothHours else FirstHourOnly
      ensures TableState() == Run(history, old(TableState()), RefreshEvents(now, tunnels, outcome))
    {
      hide AggregateHour;
      RunOfRefreshes(history, TableState(), now, tunnels);
      var ok := AggregateTrafficDataForHour(now - 1, firstCommits);
      if !ok {
        return NoHour;
      }
      ok := AggregateTrafficDataForHour(now, secondCommits);
      outcome := if ok then BothHours else FirstHourOnly;
    }

    /** The DELETE that start-up begins with. */
    method CleanInvalidDashboardTraffic(succeeds: bool) returns (ok: bool)
      modifies this`dashboard
      ensures ok == succeeds
      ensures dashboard == if ok then ValidDashboard(old(dashboard)) else old(dashboard)
    {
      if !succeeds {
        return false;
      }
      dashboard := map hour | hour in dashboard && dashboard[hour].instanceCount != 0 :: dashboard[hour];
      ok := true;
    }

    /** The start-up pass over the 24 hours before `end`. An hour that fails, after up to three attempts when
        the database is locked, is rolled back and the others go on. */
    method InitializeRecentTrafficData(end: int, cleans: bool, attempts: (int, int) -> Attempt)
      returns (ok: bool, failed: set<int>)
      modifies this`summary, this`dashboard
      ensures failed == if cleans then set hour | end - 24 <= hour < end && !Succeeds(attempts, hour) else {}
      ensures ok <==> cleans && failed == {}
      ensures !cleans ==> TableState() == old(TableState())
      ensures cleans ==>
                var t := Tables(old(summary), ValidDashboard(old(dashboard)));
                TableState() == Run(history, t, PassEvents(end - 24, end - 1, tunnels, failed))
    {
      hide Run, PassEvents, Apply, Succeeds, SucceedsWithin, ValidDashboard;
      failed := {};
      ok := CleanInvalidDashboardTraffic(cleans);
      if !ok {
        return;
      }
      ghost var t := TableState();
      EmptyPass(history, t, end - 24, tunnels, failed);
      for hour := end - 24 to end
        invariant ok <==> failed == {}
        invariant forall other :: other in failed <==> end - 24 <= other < hour && !Succeeds(attempts, other)
        invariant TableState() == Run(history, t, PassEvents(end - 24, hour - 1, tunnels, failed))
      {
        ghost var before := TableState();
        var done := InitializeHour(hour, k => attempts(hour, k));
        assert done == Succeeds(attempts, hour) by { SucceedsAt(attempts, hour); }
        PassStep(history, t, end - 24, hour, tunnels, failed, done);
        if !done {
          failed, ok := failed + {hour}, false;
        }
      }
    }

    /** One hour of the pass: up to three attempts, as long as the database is locked. */
    method InitializeHour(hour: int, attempts: int -> Attempt) returns (done: bool)
      modifies this`summary, this`dashboard
      ensures done == SucceedsWithin(attempts, 3)
      ensures TableState() == if done then AggregateHour(history, tunnels, old(TableState()), hour)
                              else old(TableState())
    {
      hide AggregateHour;
      var attempt := 1;
      done := false;
      while attempt <= 3 && !done
        invariant 1 <= attempt <= 4
        invariant done <==> SucceedsWithin(attempts, attempt - 1)
        invariant !done ==> forall j :: 1 <= j < attempt ==> attempts(j) == LockedOut
        invariant TableState() == if done then AggregateHour(history, tunnels, old(TableState()), hour)
                                  else old(TableState())
      {
        done := AggregateTrafficDataForHour(hour, attempts(attempt) == Commits);
        if !done && attempts(attempt) != LockedOut {
          break;
        }
        attempt := attempt + 1;
      }
    }
  }

  /** How an attempt to refresh an hour ends. */
  datatype Attempt = Commits | LockedOut | FailsOtherwise

  /** One of the first `n` attempts commits, after attempts that found the database locked. */
  predicate SucceedsWithin(attempts: int -> Attempt, n: int) {
    exists k :: 1 <= k <= n && attempts(k) == Commits && forall j :: 1 <= j < k ==> attempts(j) == LockedOut
  }

  predicate Succeeds(attempts: (int, int) -> Attempt, hour: int) {
    || attempts(hour, 1) == Commits
    || (attempts(hour, 1) == LockedOut && attempts(hour, 2) == Commits)
    || (attempts(hour, 1) == LockedOut && attempts(hour, 2) == LockedOut && attempts(hour, 3) == Commits)
  }

  lemma SucceedsAt(attempts: (int, int) -> Attempt, hour: int)
    ensures SucceedsWithin(k => attempts(hour, k), 3) <==> Succeeds(attempts, hour)
  {
    var f := k => attempts(hour, k);
    assert f(1) == attempts(hour, 1) && f(2) == attempts(hour, 2) && f(3) == attempts(hour, 3);
  }

  lemma RunStep(h: History, t: Tables, front: seq<Event>, e: Event)
    ensures Run(h, t, front + [e]) == Apply(FinalHistory(h, front), Run(h, t, front), e)
  {
    hide Apply, FinalHistory;
    assert (front + [e])[..|front|] == front;
  }

  lemma RunOfRefreshes(h: History, t: Tables, now: int, tunnels: Option<set<Key>>)
    ensures Run(h, t, RefreshEvents(now, tunnels, NoHour)) == t
    ensures var first := AggregateHour(h, tunnels, t, now - 1);
            && Run(h, t, RefreshEvents(now, tunnels, FirstHourOnly)) == first
            && Run(h, t, RefreshEvents(now, tunnels, BothHours)) == AggregateHour(h, tunnels, first, now)
  {
    hide AggregateHour;
    var e0, e1 := Refreshes(now - 1, tunnels), Refreshes(now, tunnels);
    RunStep(h, t, [], e0);
    RunStep(h, t, [e0], e1);
    OnlyRefreshes(h, [e0]);
    assert [] + [e0] == [e0] && [e0] + [e1] == [e0, e1];
  }

  lemma {:induction false} OnlyRefreshes(h: History, events: seq<Event>)
    requires forall e :: e in events ==> e.Refreshes?
    ensures FinalHistory(h, events) == h
    decreases |events|
  {
    if events != [] {
      OnlyRefreshes(h, events[..|events| - 1]);
      assert events[|events| - 1] in events;
      assert h + [] == h;
    }
  }

  lemma EmptyPass(h: History, t: Tables, lo: int, tunnels: Option<set<Key>>, failed: set<int>)
    ensures Run(h, t, PassEvents(lo, lo - 1, tunnels, failed)) == t
  {
  }

  /** One more hour of the pass, refreshed or added to the failed ones. */
  lemma PassStep(h: History, t: Tables, lo: int, hour: int, tunnels: Option<set<Key>>, failed: set<int>, done: bool)
    requires lo <= hour && hour !in failed
    ensures var before := Run(h, t, PassEvents(lo, hour - 1, tunnels, failed));
            if done then Run(h, t, PassEvents(lo, hour, tunnels, failed)) == AggregateHour(h, tunnels, before, hour)
            else Run(h, t, PassEvents(lo, hour, tunnels, failed + {hour})) == before
  {
    hide AggregateHour, Run;
    var events := PassEvents(lo, hour - 1, tunnels, failed);
    if done {
      RunStep(h, t, events, Refreshes(hour, tunnels));
      forall e | e in events ensures e.Refreshes? {
        PassHolds(lo, hour - 1, tunnels, failed, e);
      }
      OnlyRefreshes(h, events);
    } else {
      EarlierFailuresOnly(lo, hour - 1, tunnels, failed, failed + {hour});
      assert events + [] == events;
    }
  }

  lemma {:induction false} EarlierFailuresOnly(lo: int, last: int, tunnels: Option<set<Key>>, a: set<int>, b: set<int>)
    requires forall hour :: hour <= last ==> (hour in a <==> hour in b)
    ensures PassEvents(lo, last, tunnels, a) == PassEvents(lo, last, tunnels, b)
    decreases last - lo
  {
    if lo <= last {
      EarlierFailuresOnly(lo, last - 1, tunnels, a, b);
    }
  }
}
