/** What the dashboard and today's total say about the instances: sums over any list of them, column by column. */
module TrafficDashboard {
  import opened Options
  import opened TrafficModel
  import opened TrafficProofs
  import opened TrafficRefresh
  import opened TrafficService

  predicate Distinct(order: seq<Key>) {
    forall i, j :: 0 <= i < j < |order| ==> order[i] != order[j]
  }

  /** A list of the keys of `rows`, each once. */
  predicate Lists(order: seq<Key>, rows: map<Key, SummaryRow>) {
    Distinct(order) && (forall k :: k in order ==> k in rows) && forall k :: k in rows ==> k in order
  }

  // ------------------------------------------------------------- the dashboard row

  function TotalOver(rows: map<Key, SummaryRow>, order: seq<Key>, c: Counter): int
    requires forall k :: k in order ==> k in rows
  {
    if order == [] then 0 else Get(rows[order[0]].total, c) + TotalOver(rows, order[1..], c)
  }

  lemma {:induction false} SumInColumn(rows: map<Key, SummaryRow>, order: seq<Key>, c: Counter)
    requires forall k :: k in order ==> k in rows
    ensures Get(SumInOrder(rows, TotalOf, order), c) == TotalOver(rows, order, c)
    decreases |order|
  {
    if order != [] {
      SumInColumn(rows, order[1..], c);
    }
  }

  lemma {:induction false} ListSize(rows: map<Key, SummaryRow>, order: seq<Key>)
    requires Lists(order, rows)
    ensures |order| == |rows|
    decreases |order|
  {
    if order == [] {
      assert rows == map[] by { assert forall k :: k !in rows; }
    } else {
      var k := order[0];
      RestLists(rows, order);
      ListSize(rows - {k}, order[1..]);
      assert rows.Keys == (rows - {k}).Keys + {k};
    }
  }

  lemma RestLists(rows: map<Key, SummaryRow>, order: seq<Key>)
    requires Lists(order, rows) && order != []
    ensures order[0] in rows && Lists(order[1..], rows - {order[0]})
  {
    assert order[0] in order;
    forall x ensures x in order[1..] <==> x in rows - {order[0]} {
      if x in order[1..] { var i :| 0 <= i < |order[1..]| && order[1..][i] == x; assert order[i + 1] != order[0]; }
    }
  }

  /** After any run the dashboard has a row for a refreshed hour exactly when some instance has one; the row adds
      up their totals, and counts them. */
  lemma DashboardAddsTotals(h: History, t: Tables, events: seq<Event>, hour: int, order: seq<Key>, c: Counter)
    requires RefreshesHour(events, hour) && Lists(order, RowsAt(Run(h, t, events).summary, hour))
    ensures var end := Run(h, t, events);
            && (hour in end.dashboard <==> order != [])
            && (order != [] ==>
                  && Get(end.dashboard[hour].total, c) == TotalOver(RowsAt(end.summary, hour), order, c)
                  && end.dashboard[hour].instanceCount == |order|)
  {
    hide Run, RefreshesHour;
    var end := Run(h, t, events);
    var rows := RowsAt(end.summary, hour);
    RunShowsHours(h, t, events, hour);
    SumIsAnyOrder(rows, TotalOf, order);
    SumInColumn(rows, order, c);
    ListSize(rows, order);
  }

  /** The last value of an instance that is known at the end of hour `hi` - 1. */
  function LastKnown(h: History, before: map<Key, SummaryRow>, k: Key, lo: int, hi: int): Option<Counters> {
    var stream := Stream(h, k, lo * HOUR, hi * HOUR);
    if stream != [] then Some(stream[|stream| - 1])
    else if k in before then Some(before[k].total) else None
  }

  function LastOver(h: History, before: map<Key, SummaryRow>, order: seq<Key>, lo: int, hi: int, c: Counter): int {
    if order == [] then 0
    else
      (match LastKnown(h, before, order[0], lo, hi) case Some(v) => Get(v, c) case None => 0) +
      LastOver(h, before, order[1..], lo, hi, c)
  }

  /** Without anything known of an instance there is no row of it. */
  lemma {:induction false} NothingKnownNoRow(h: History, tunnels: Option<set<Key>>, before: map<Key, SummaryRow>,
                                             lo: int, hour: int, k: Key)
    requires lo <= hour + 1 && LastKnown(h, before, k, lo, hour + 1) == None
    ensures k !in Batch(h, tunnels, before, lo, hour)
    decreases hour - lo
  {
    hide Refreshed, Stream, HourKeys;
    if lo <= hour {
      StreamSplit(h, k, lo * HOUR, hour * HOUR, (hour + 1) * HOUR);
      NothingKnownNoRow(h, tunnels, before, lo, hour - 1, k);
      ScratchKeys(h, tunnels, Batch(h, tunnels, before, lo, hour - 1), hour, k);
      HourKeysAreStreams(h, k, hour);
    }
  }

  lemma KnownIsStored(h: History, tunnels: Option<set<Key>>, before: map<Key, SummaryRow>, lo: int, hour: int, k: Key)
    requires lo <= hour + 1
    requires LastKnown(h, before, k, lo, hour + 1).Some? ==> TunnelPresent(tunnels, k)
    ensures PrevTotal(Batch(h, tunnels, before, lo, hour), k) == LastKnown(h, before, k, lo, hour + 1)
  {
    hide Batch, Stream, IncrementSum;
    if LastKnown(h, before, k, lo, hour + 1).Some? {
      BatchFollowsStream(h, tunnels, before, k, lo, hour + 1);
    } else {
      NothingKnownNoRow(h, tunnels, before, lo, hour, k);
    }
  }

  lemma {:induction false} TotalsAreLastValues(h: History, before: map<Key, SummaryRow>, rows: map<Key, SummaryRow>,
                                               order: seq<Key>, lo: int, hi: int, c: Counter)
    requires forall k :: k in order ==> k in rows && LastKnown(h, before, k, lo, hi) == Some(rows[k].total)
    ensures TotalOver(rows, order, c) == LastOver(h, before, order, lo, hi, c)
    decreases |order|
  {
    hide LastKnown;
    if order != [] {
      assert order[0] in order && forall k :: k in order[1..] ==> k in order;
      TotalsAreLastValues(h, before, rows, order[1..], lo, hi, c);
    }
  }

  /** Where every instance is right, the dashboard row adds up the last values that were ever recorded of the
      instances, and counts those of which any is known. */
  lemma DashboardAddsLastValues(h: History, tunnels: Option<set<Key>>, before: map<Key, SummaryRow>, t: Tables,
                                events: seq<Event>, lo: int, last: int, hour: int, order: seq<Key>, c: Counter)
    requires forall k ::
               && UpToDate(h, tunnels, before, t, lo, last, k)
               && StartsAt(events, lo, k) && SamePresence(events, tunnels, k)
               && hour <= Upto(last, events, k)
    requires lo <= hour && RefreshesHour(events, hour) && Distinct(order)
    requires forall k :: k in order <==> LastKnown(FinalHistory(h, events), before, k, lo, hour + 1).Some?
    requires forall k :: k in order ==> TunnelPresent(tunnels, k)
    ensures var end := Run(h, t, events);
            && (hour in end.dashboard <==> order != [])
            && (order != [] ==>
                  && Get(end.dashboard[hour].total, c) ==
                     LastOver(FinalHistory(h, events), before, order, lo, hour + 1, c)
                  && end.dashboard[hour].instanceCount == |order|)
  {
    hide Run, Batch, RefreshesHour, Stream, LastKnown, UpToDate, StartsAt, SamePresence, Upto, FinalHistory;
    var h', rows := FinalHistory(h, events), RowsAt(Run(h, t, events).summary, hour);
    OnlineTablesEqualBatch(h, tunnels, before, t, events, lo, last, hour);
    forall k
      ensures PrevTotal(rows, k) == LastKnown(h', before, k, lo, hour + 1) {
      KnownIsStored(h', tunnels, before, lo, hour, k);
    }
    forall k ensures k in order <==> k in rows {
      assert PrevTotal(rows, k) == LastKnown(h', before, k, lo, hour + 1);
    }
    DashboardAddsTotals(h, t, events, hour, order, c);
    forall k | k in order
      ensures k in rows && LastKnown(h', before, k, lo, hour + 1) == Some(rows[k].total) {
      assert PrevTotal(rows, k) == LastKnown(h', before, k, lo, hour + 1);
    }
    TotalsAreLastValues(h', before, rows, order, lo, hour + 1, c);
  }

  // ------------------------------------------------------------------ today's total

  function IncrementsOver(rows: map<Key, SummaryRow>, order: seq<Key>, c: Counter): int {
    if order == [] then 0
    else (if order[0] in rows then Get(rows[order[0]].increment, c) else 0) + IncrementsOver(rows, order[1..], c)
  }

  function StoredOver(summary: Summary, order: seq<Key>, lo: int, hi: int, c: Counter): int {
    if order == [] then 0
    else Get(StoredIncrements(summary, order[0], lo, hi), c) + StoredOver(summary, order[1..], lo, hi, c)
  }

  /** The list may hold instances that have no row in this hour. */
  lemma {:induction false} SumOverList(rows: map<Key, SummaryRow>, order: seq<Key>, c: Counter)
    requires Distinct(order) && forall k :: k in rows ==> k in order
    ensures Get(SumBy(rows, IncrementOf), c) == IncrementsOver(rows, order, c)
    decreases |order|
  {
    if order == [] {
      assert rows == map[] by { assert forall k :: k !in rows; }
    } else {
      var k, rest := order[0], order[1..];
      assert k !in rest;
      SumOverList(rows - {k}, rest, c);
      WithoutOther(rows, k, rest, c);
      if k in rows {
        SumByRemove(rows, IncrementOf, k);
      } else {
        assert rows - {k} == rows;
      }
    }
  }

  lemma {:induction false} WithoutOther(rows: map<Key, SummaryRow>, k: Key, order: seq<Key>, c: Counter)
    requires k !in order
    ensures IncrementsOver(rows - {k}, order, c) == IncrementsOver(rows, order, c)
    decreases |order|
  {
    if order != [] {
      WithoutOther(rows, k, order[1..], c);
    }
  }

  lemma {:induction false} OneMoreHour(summary: Summary, order: seq<Key>, lo: int, hi: int, c: Counter)
    ensures StoredOver(summary, order, lo, hi, c) ==
            if hi <= lo then 0
            else StoredOver(summary, order, lo, hi - 1, c) + IncrementsOver(RowsAt(summary, hi - 1), order, c)
    decreases |order|
  {
    hide RowsAt;
    if order != [] {
      OneMoreHour(summary, order[1..], lo, hi, c);
    }
  }

  lemma TodayStep(summary: Summary, lo: int, hi: int, c: Counter)
    ensures Get(TodayIncrement(summary, lo, hi), c) ==
            if hi <= lo then 0
            else Get(TodayIncrement(summary, lo, hi - 1), c) + Get(SumBy(RowsAt(summary, hi - 1), PositiveIncrementOf), c)
  {
    hide RowsAt, SumBy, PositiveIncrementOf;
  }

  /** Today's total is the sum of what is stored for each instance, where no increment is negative. */
  lemma {:induction false} TodayAddsUp(summary: Summary, order: seq<Key>, lo: int, hi: int, c: Counter)
    requires Distinct(order)
    requires forall hour, k :: lo <= hour < hi && k in RowsAt(summary, hour) ==> k in order
    requires forall hour :: lo <= hour < hi ==> NonNegativeHour(summary, hour)
    ensures Get(TodayIncrement(summary, lo, hi), c) == StoredOver(summary, order, lo, hi, c)
    decreases hi - lo
  {
    hide RowsAt, NonNegative, PositiveIncrementOf, IncrementOf, SumBy, Distinct, StoredOver, IncrementsOver,
         TodayIncrement;
    OneMoreHour(summary, order, lo, hi, c);
    TodayStep(summary, lo, hi, c);
    if lo < hi {
      TodayAddsUp(summary, order, lo, hi - 1, c);
      assert NonNegativeHour(summary, hi - 1);
      PositiveFilterOnHour(RowsAt(summary, hi - 1));
      SumOverList(RowsAt(summary, hi - 1), order, c);
    }
  }

  /** What a counter of an instance received: last minus first plus what was lost at resets. */
  function ReceivedBy(h: History, before: map<Key, SummaryRow>, k: Key, lo: int, hi: int, c: Counter): int {
    var column := Column(Whole(PrevTotal(before, k), Stream(h, k, lo * HOUR, hi * HOUR)), c);
    if column == [] then 0 else column[|column| - 1] - column[0] + PreResetSum(column)
  }

  function ReceivedOver(h: History, before: map<Key, SummaryRow>, order: seq<Key>, lo: int, hi: int, c: Counter): int {
    if order == [] then 0
    else ReceivedBy(h, before, order[0], lo, hi, c) + ReceivedOver(h, before, order[1..], lo, hi, c)
  }

  lemma {:induction false} StoredIsReceived(h: History, tunnels: Option<set<Key>>, before: map<Key, SummaryRow>,
                                            t: Tables, order: seq<Key>, lo: int, hi: int, c: Counter)
    requires lo <= hi
    requires forall k :: k in order ==> TunnelPresent(tunnels, k) && UpToDate(h, tunnels, before, t, lo, hi - 1, k)
    ensures StoredOver(t.summary, order, lo, hi, c) == ReceivedOver(h, before, order, lo, hi, c)
    decreases |order|
  {
    hide UpToDate, StoredIncrements, ReceivedBy;
    if order != [] {
      var k := order[0];
      assert k in order && forall x :: x in order[1..] ==> x in order;
      StoredIsReceived(h, tunnels, before, t, order[1..], lo, hi, c);
      OneIsReceived(h, tunnels, before, t, k, lo, hi, c);
    }
  }

  lemma OneIsReceived(h: History, tunnels: Option<set<Key>>, before: map<Key, SummaryRow>, t: Tables, k: Key,
                      lo: int, hi: int, c: Counter)
    requires lo <= hi && TunnelPresent(tunnels, k) && UpToDate(h, tunnels, before, t, lo, hi - 1, k)
    ensures Get(StoredIncrements(t.summary, k, lo, hi), c) == ReceivedBy(h, before, k, lo, hi, c)
  {
    hide UpToDate, StoredIncrements, IncrementSum, Stream, PreResetSum, Column, Whole, PrevTotal;
    StoredIsBatch(h, tunnels, before, t, lo, hi - 1, k, hi);
    HourlyIncrementsConserveTraffic(h, tunnels, before, k, lo, hi, c);
  }

  /** Today's total conserves traffic: after any run that leaves every listed instance right up to the current
      hour, it is what the instances received since the day began, resets included. */
  lemma TodayConservesTraffic(h: History, tunnels: Option<set<Key>>, before: map<Key, SummaryRow>, t: Tables,
                              events: seq<Event>, lo: int, last: int, now: int, order: seq<Key>, c: Counter)
    requires CountersNonNegative(FinalHistory(h, events)) && lo <= now + 1 && Distinct(order)
    requires forall hour :: lo <= hour <= now ==> NonNegativeHour(t.summary, hour) || RefreshesHour(events, hour)
    requires forall hour, k :: lo <= hour <= now && k in RowsAt(Run(h, t, events).summary, hour) ==> k in order
    requires forall k :: k in order ==>
               && UpToDate(h, tunnels, before, t, lo, last, k) && TunnelPresent(tunnels, k)
               && StartsAt(events, lo, k) && SamePresence(events, tunnels, k) && Upto(last, events, k) == now
    ensures Get(TodayIncrement(Run(h, t, events).summary, lo, now + 1), c) ==
            ReceivedOver(FinalHistory(h, events), before, order, lo, now + 1, c)
  {
    hide Run, UpToDate, StartsAt, SamePresence, Upto, FinalHistory, NonNegativeHour, RefreshesHour, RowsAt,
         CountersNonNegative, Distinct, TodayIncrement, TunnelPresent;
    forall hour | lo <= hour <= now ensures NonNegativeHour(Run(h, t, events).summary, hour) {
      RunIsNonNegative(h, t, events, hour);
    }
    TodayAddsUp(Run(h, t, events).summary, order, lo, now + 1, c);
    forall k | k in order
      ensures UpToDate(FinalHistory(h, events), tunnels, before, Run(h, t, events), lo, now, k) {
      OnlineEqualsBatch(h, tunnels, before, t, events, lo, last, k);
    }
    StoredIsReceived(FinalHistory(h, events), tunnels, before, Run(h, t, events), order, lo, now + 1, c);
  }
}
