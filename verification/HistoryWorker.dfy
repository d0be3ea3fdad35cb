/** The history worker: each instance's data points are cut into windows of twelve,
    each window becomes one `service_history` row, rows are written in batches. */
module HistoryWorker {
  import opened Options
  import opened Text
  import opened TrafficModel
  import opened TrafficProofs

  const WINDOW: int := 12
  const MAX_BATCH: int := 200

  /** `time` is in seconds, UTC; the gauges of a data point are not modelled. */
  datatype MonitoringData = MonitoringData(key: Key, values: Counters, time: int)

  // ------------------------------------------------------------------ data keys

  /** The `%d_%s` key of an instance's buffer. */
  function DataKey(k: Key): string {
    Decimal(k.endpoint) + "_" + k.instance
  }

  /** No two (endpoint, instance) pairs share a buffer, whatever the instance id contains. */
  lemma DataKeyInjective(a: Key, b: Key)
    requires DataKey(a) == DataKey(b)
    ensures a == b
  {
    ParseDecimal(a.endpoint);
    ParseDecimal(b.endpoint);
    IndexOfFirst(Decimal(a.endpoint), '_', a.instance);
    IndexOfFirst(Decimal(b.endpoint), '_', b.instance);
    DecimalInjective(a.endpoint, b.endpoint);
  }

  // -------------------------------------------------------------------- windows

  datatype State = State(pending: map<string, seq<MonitoringData>>, windows: seq<seq<MonitoringData>>)

  function Pending(st: State, k: Key): seq<MonitoringData> {
    if DataKey(k) in st.pending then st.pending[DataKey(k)] else []
  }

  function Processed(st: State, d: MonitoringData): State {
    var result := Pending(st, d.key) + [d];
    if |result| >= WINDOW
    then State(st.pending[DataKey(d.key) := []], st.windows + [result])
    else State(st.pending[DataKey(d.key) := result], st.windows)
  }

  function ProcessedAll(input: seq<MonitoringData>): State {
    if input == [] then State(map[], [])
    else Processed(ProcessedAll(input[..|input| - 1]), input[|input| - 1])
  }

  function InputOf(input: seq<MonitoringData>, k: Key): seq<MonitoringData> {
    if input == [] then []
    else
      var d := input[|input| - 1];
      InputOf(input[..|input| - 1], k) + if d.key == k then [d] else []
  }

  function WindowsOf(windows: seq<seq<MonitoringData>>, k: Key): seq<seq<MonitoringData>> {
    if windows == [] then []
    else
      var w := windows[|windows| - 1];
      WindowsOf(windows[..|windows| - 1], k) + if w != [] && w[0].key == k then [w] else []
  }

  function Flat(windows: seq<seq<MonitoringData>>): seq<MonitoringData> {
    if windows == [] then [] else Flat(windows[..|windows| - 1]) + windows[|windows| - 1]
  }

  predicate FromOneInstance(w: seq<MonitoringData>, k: Key) {
    forall d :: d in w ==> d.key == k
  }

  /** What holds for instance `k` between two steps. */
  predicate Partitioned(st: State, input: seq<MonitoringData>, k: Key) {
    && Flat(WindowsOf(st.windows, k)) + Pending(st, k) == InputOf(input, k)
    && |Pending(st, k)| < WINDOW
    && FromOneInstance(Pending(st, k), k)
    && forall w :: w in WindowsOf(st.windows, k) ==> |w| == WINDOW && FromOneInstance(w, k)
  }

  /** For every instance the emitted windows followed by the pending buffer are its
      input in order, every window has twelve points, and fewer than twelve are pending. */
  lemma {:induction false} WindowsPartitionInput(input: seq<MonitoringData>, k: Key)
    ensures Partitioned(ProcessedAll(input), input, k)
    decreases |input|
  {
    if input != [] {
      var front, d := input[..|input| - 1], input[|input| - 1];
      var st := ProcessedAll(front);
      WindowsPartitionInput(front, k);
      WindowsPartitionInput(front, d.key);
      if d.key == k {
        StepOfInstance(st, front, d);
        assert InputOf(input, k) == InputOf(front, k) + [d];
      } else {
        StepOfOther(st, d, k);
        assert InputOf(input, k) == InputOf(front, k);
      }
    }
  }

  lemma FlatSnoc(windows: seq<seq<MonitoringData>>, w: seq<MonitoringData>)
    ensures Flat(windows + [w]) == Flat(windows) + w
  {
    assert (windows + [w])[..|windows + [w]| - 1] == windows;
  }

  lemma WindowsOfSnoc(windows: seq<seq<MonitoringData>>, w: seq<MonitoringData>, k: Key)
    ensures WindowsOf(windows + [w], k) ==
            WindowsOf(windows, k) + if w != [] && w[0].key == k then [w] else []
  {
    assert (windows + [w])[..|windows + [w]| - 1] == windows;
  }

  lemma StepOfInstance(st: State, input: seq<MonitoringData>, d: MonitoringData)
    requires Partitioned(st, input, d.key)
    ensures var st', k := Processed(st, d), d.key;
            && Flat(WindowsOf(st'.windows, k)) + Pending(st', k) == InputOf(input, k) + [d]
            && |Pending(st', k)| < WINDOW
            && FromOneInstance(Pending(st', k), k)
            && forall w :: w in WindowsOf(st'.windows, k) ==> |w| == WINDOW && FromOneInstance(w, k)
  {
    hide Flat, WindowsOf, InputOf;
    var k, result := d.key, Pending(st, d.key) + [d];
    var before := WindowsOf(st.windows, k);
    if |result| >= WINDOW {
      assert result[0] in result;
      WindowsOfSnoc(st.windows, result, k);
      FlatSnoc(before, result);
      assert Flat(before) + result == (Flat(before) + Pending(st, k)) + [d];
    } else {
      assert Flat(before) + result == (Flat(before) + Pending(st, k)) + [d];
    }
  }

  lemma StepOfOther(st: State, d: MonitoringData, k: Key)
    requires d.key != k && FromOneInstance(Pending(st, d.key), d.key)
    ensures WindowsOf(Processed(st, d).windows, k) == WindowsOf(st.windows, k)
    ensures Pending(Processed(st, d), k) == Pending(st, k)
  {
    if DataKey(d.key) == DataKey(k) {
      DataKeyInjective(d.key, k);
    }
    var result := Pending(st, d.key) + [d];
    assert result[0] in result;
    WindowsOfSnoc(st.windows, result, k);
  }

  // -------------------------------------------------------------- history rows

  /** The row of a window: the last point's totals, at the minute of the last point. */
  function Aggregated(points: seq<MonitoringData>): Snapshot
    requires points != []
  {
    var first, last := points[0], points[|points| - 1];
    Snapshot(first.key, last.time / 60, last.values)
  }

  /** The table after the rows of these windows were written in order. */
  function Persisted(windows: seq<seq<MonitoringData>>): History {
    if windows == [] then []
    else
      var w := windows[|windows| - 1];
      Persisted(windows[..|windows| - 1]) + if w == [] then [] else [Aggregated(w)]
  }

  /** The rows of one instance. */
  function RowsFor(h: History, k: Key): seq<Snapshot> {
    if h == [] then []
    else RowsFor(h[..|h| - 1], k) + if h[|h| - 1].key == k then [h[|h| - 1]] else []
  }

  lemma RowsForSnoc(h: History, row: Snapshot, k: Key)
    ensures RowsFor(h + [row], k) == RowsFor(h, k) + if row.key == k then [row] else []
  {
    assert (h + [row])[..|h|] == h;
  }

  /** A row for every window of the instance, in order. */
  lemma {:induction false} RowPerWindow(windows: seq<seq<MonitoringData>>, k: Key)
    ensures var mine, rows := WindowsOf(windows, k), RowsFor(Persisted(windows), k);
            && |rows| == |mine|
            && forall j :: 0 <= j < |mine| ==> mine[j] != [] && rows[j] == Aggregated(mine[j])
    decreases |windows|
  {
    hide Aggregated, RowsFor, WindowsOf;
    if windows == [] {
      NoRows(k);
    } else {
      var front, w := windows[..|windows| - 1], windows[|windows| - 1];
      assert windows == front + [w];
      RowPerWindow(front, k);
      WindowsOfSnoc(front, w, k);
      if w != [] {
        RowsForSnoc(Persisted(front), Aggregated(w), k);
        KeyOfRow(w);
        assert Persisted(windows) == Persisted(front) + [Aggregated(w)];
      } else {
        assert Persisted(windows) == Persisted(front);
      }
    }
  }

  lemma NoRows(k: Key)
    ensures RowsFor([], k) == [] && WindowsOf([], k) == []
  {
  }

  lemma KeyOfRow(points: seq<MonitoringData>)
    requires points != []
    ensures Aggregated(points).key == points[0].key
  {
  }

  lemma {:induction false} FlatOfTwelves(windows: seq<seq<MonitoringData>>, rest: seq<MonitoringData>, j: nat)
    requires j < |windows| && forall w :: w in windows ==> |w| == 12
    ensures |Flat(windows)| == 12 * |windows|
    ensures (Flat(windows) + rest)[12 * j + 11] == windows[j][11]
    decreases |windows|
  {
    var front, w := windows[..|windows| - 1], windows[|windows| - 1];
    assert windows == front + [w] && |w| == 12;
    FlatSnoc(front, w);
    if j < |front| {
      FlatOfTwelves(front, rest, j);
      assert (Flat(windows) + rest)[12 * j + 11] == (Flat(front) + rest)[12 * j + 11];
    } else if front != [] {
      FlatOfTwelves(front, rest, 0);
    }
  }

  /** From data points to rows: whatever arrives in between, the rows written for an instance repeat every twelfth
      point of its own input, at that point's minute. */
  lemma EveryTwelfthPoint(input: seq<MonitoringData>, k: Key)
    ensures var rows, points := RowsFor(Persisted(ProcessedAll(input).windows), k), InputOf(input, k);
            && |rows| == |points| / 12
            && forall j :: 0 <= j < |rows| ==>
                 rows[j] == Snapshot(k, points[12 * j + 11].time / 60, points[12 * j + 11].values)
  {
    hide ProcessedAll, InputOf, WindowsOf, RowsFor, Persisted, Flat;
    var st, points := ProcessedAll(input), InputOf(input, k);
    var windows := WindowsOf(st.windows, k);
    WindowsPartitionInput(input, k);
    RowPerWindow(st.windows, k);
    if windows == [] {
      assert Flat(windows) == [] by { NothingFlat(); }
    } else {
      FlatOfTwelves(windows, Pending(st, k), 0);
    }
    forall j | 0 <= j < |windows|
      ensures Aggregated(windows[j]) == Snapshot(k, points[12 * j + 11].time / 60, points[12 * j + 11].values) {
      FlatOfTwelves(windows, Pending(st, k), j);
      assert windows[j] in windows && windows[j][0] in windows[j];
    }
  }

  lemma NothingFlat()
    ensures Flat([]) == []
  {
  }

  predicate AtMost(a: Counters, b: Counters) {
    a.tcpRx <= b.tcpRx && a.tcpTx <= b.tcpTx && a.udpRx <= b.udpRx && a.udpTx <= b.udpTx
  }

  /** Timestamps do not go back and no counter is reset. */
  predicate NeverResets(points: seq<MonitoringData>) {
    forall i, j :: 0 <= i < j < |points| ==>
                     points[i].time <= points[j].time && AtMost(points[i].values, points[j].values)
  }

  predicate RowsAscend(h: History, k: Key) {
    forall i, j :: 0 <= i < j < |h| && h[i].key == k && h[j].key == k ==>
                     h[i].minute <= h[j].minute && AtMost(h[i].values, h[j].values)
  }

  /** Every row written for `k` repeats a point of its input. */
  predicate RowsFromInput(h: History, input: seq<MonitoringData>, k: Key) {
    forall s :: s in h && s.key == k ==>
                  exists d :: d in InputOf(input, k) && s.minute == d.time / 60 && s.values == d.values
  }

  lemma {:induction false} PersistedRowsAscend(input: seq<MonitoringData>, k: Key)
    requires NeverResets(InputOf(input, k))
    ensures RowsAscend(Persisted(ProcessedAll(input).windows), k)
    ensures RowsFromInput(Persisted(ProcessedAll(input).windows), input, k)
    decreases |input|
  {
    hide Partitioned, NeverResets, AtMost;
    if input != [] {
      var front, d := input[..|input| - 1], input[|input| - 1];
      var st := ProcessedAll(front);
      InputPrefix(input, k);
      PersistedRowsAscend(front, k);
      RowsOfLongerInput(Persisted(st.windows), input, k);
      var result := Pending(st, d.key) + [d];
      if |result| >= WINDOW {
        assert (st.windows + [result])[..|st.windows|] == st.windows;
        OwnRow(st, front, d);
        AppendRow(Persisted(st.windows), input, Aggregated(result), k);
      }
    }
  }

  lemma OwnRow(st: State, input: seq<MonitoringData>, d: MonitoringData)
    requires st == ProcessedAll(input)
    ensures Aggregated(Pending(st, d.key) + [d]) == Snapshot(d.key, d.time / 60, d.values)
  {
    WindowsPartitionInput(input, d.key);
    var result := Pending(st, d.key) + [d];
    assert result[0] in result;
  }

  lemma RowsOfLongerInput(h: History, input: seq<MonitoringData>, k: Key)
    requires input != [] && RowsFromInput(h, input[..|input| - 1], k)
    ensures RowsFromInput(h, input, k)
  {
    forall s | s in h && s.key == k
      ensures exists d :: d in InputOf(input, k) && s.minute == d.time / 60 && s.values == d.values
    {
      var d :| d in InputOf(input[..|input| - 1], k) && s.minute == d.time / 60 && s.values == d.values;
      assert d in InputOf(input, k);
    }
  }

  /** A row repeating the newest point may follow every row written before. */
  lemma AppendRow(h: History, input: seq<MonitoringData>, row: Snapshot, k: Key)
    requires input != [] && NeverResets(InputOf(input, k))
    requires RowsAscend(h, k) && RowsFromInput(h, input, k)
    requires var d := input[|input| - 1]; row == Snapshot(d.key, d.time / 60, d.values)
    ensures RowsAscend(h + [row], k) && RowsFromInput(h + [row], input, k)
  {
    hide InputOf, AtMost;
    if row.key == k {
      forall i | 0 <= i < |h| && h[i].key == k ensures h[i].minute <= row.minute && AtMost(h[i].values, row.values) {
        NewestIsLast(h, input, row, k, i);
      }
    }
    forall s | s in h + [row] && s.key == k
      ensures exists p :: p in InputOf(input, k) && s.minute == p.time / 60 && s.values == p.values
    {
      if s !in h {
        LastInput(input, k);
      }
    }
  }

  lemma LastInput(input: seq<MonitoringData>, k: Key)
    requires input != [] && input[|input| - 1].key == k
    ensures var points := InputOf(input, k); points != [] && points[|points| - 1] == input[|input| - 1]
  {
  }

  lemma NewestIsLast(h: History, input: seq<MonitoringData>, row: Snapshot, k: Key, i: nat)
    requires input != [] && NeverResets(InputOf(input, k)) && RowsFromInput(h, input, k)
    requires var d := input[|input| - 1]; row == Snapshot(d.key, d.time / 60, d.values)
    requires row.key == k && i < |h| && h[i].key == k
    ensures h[i].minute <= row.minute && AtMost(h[i].values, row.values)
  {
    hide InputOf;
    LastInput(input, k);
    var d, points := input[|input| - 1], InputOf(input, k);
    assert h[i] in h;
    var p :| p in points && h[i].minute == p.time / 60 && h[i].values == p.values;
    var j :| 0 <= j < |points| && points[j] == p;
    assert j < |points| - 1 || p == d;
  }

  lemma InputPrefix(input: seq<MonitoringData>, k: Key)
    requires input != []
    ensures InputOf(input[..|input| - 1], k) <= InputOf(input, k)
    ensures NeverResets(InputOf(input, k)) ==> NeverResets(InputOf(input[..|input| - 1], k))
  {
  }

  // ------------------------------------------------- from data points to increments

  predicate Ascends(stream: seq<Counters>) {
    forall i, j :: 0 <= i < j < |stream| ==> AtMost(stream[i], stream[j])
  }

  lemma {:induction false} StreamAscends(h: History, k: Key, lo: int, hi: int)
    requires RowsAscend(h, k)
    ensures Ascends(Stream(h, k, lo, hi))
    ensures forall v :: v in Stream(h, k, lo, hi) ==>
                          exists i :: 0 <= i < |h| && h[i].key == k && h[i].minute < hi && h[i].values == v
    decreases hi - lo
  {
    if lo < hi {
      StreamAscends(h, k, lo, hi - 1);
      LastAtIsNewest(h, k, hi - 1);
      if LastAt(h, k, hi - 1).Some? {
        var j :| 0 <= j < |h| && h[j].key == k && h[j].minute == hi - 1 && NewestOfMinute(h, j);
        forall v | v in Stream(h, k, lo, hi - 1) ensures AtMost(v, h[j].values) {
          var i :| 0 <= i < |h| && h[i].key == k && h[i].minute < hi - 1 && h[i].values == v;
          assert i < j;
        }
      }
    }
  }

  lemma {:induction false} AscendingColumnHasNoResets(column: seq<int>)
    requires forall i, j :: 0 <= i < j < |column| ==> column[i] <= column[j]
    ensures PreResetSum(column) == 0
    decreases |column|
  {
    if |column| >= 2 {
      AscendingColumnHasNoResets(column[..|column| - 1]);
    }
  }

  /** The value kept for the first recorded minute opens the stream, the last written closes it. */
  lemma StreamEnds(h: History, k: Key, lo: int, hi: int, first: int, last: nat)
    requires RowsAscend(h, k)
    requires lo <= first < hi && LastAt(h, k, first).Some?
    requires forall s :: s in h && s.key == k ==> first <= s.minute < hi
    requires last < |h| && h[last].key == k
    requires forall i :: last < i < |h| ==> h[i].key != k
    ensures var stream := Stream(h, k, lo, hi);
            stream != [] && stream[0] == LastAt(h, k, first).value && stream[|stream| - 1] == h[last].values
  {
    NothingBeforeFirst(h, k, lo, first);
    StreamSplit(h, k, lo, first, hi);
    StreamSplit(h, k, first, first + 1, hi);
    assert Stream(h, k, first, first) == [];
    assert Stream(h, k, first, first + 1) == [LastAt(h, k, first).value];
    StoredTotalEndsStream(h, k, lo, hi);
    LatestIsLastWritten(h, k, lo, hi, last);
  }

  lemma {:induction false} NothingBeforeFirst(h: History, k: Key, lo: int, first: int)
    requires forall s :: s in h && s.key == k ==> first <= s.minute
    ensures Stream(h, k, lo, first) == []
  {
    StoredTotalEndsStream(h, k, lo, first);
  }

  lemma {:induction false} LatestIsLastWritten(h: History, k: Key, lo: int, hi: int, last: nat)
    requires RowsAscend(h, k)
    requires forall s :: s in h && s.key == k ==> InWindow(s, lo, hi)
    requires last < |h| && h[last].key == k
    requires forall i :: last < i < |h| ==> h[i].key != k
    ensures LatestRow(h, k, lo, hi) == Some(h[last])
    decreases |h|
  {
    var front := h[..|h| - 1];
    assert h == front + [h[|h| - 1]];
    if last < |h| - 1 {
      LatestIsLastWritten(front, k, lo, hi, last);
    } else {
      assert h[last] in h;
      var before := LatestRow(front, k, lo, hi);
      if before.Some? {
        var i :| 0 <= i < |front| && front[i] == before.value;
        assert h[i].minute <= h[last].minute;
      }
    }
  }

  predicate SpansRows(h: History, k: Key, lo: int, hi: int, first: int, last: nat) {
    && lo <= first < hi && LastAt(h, k, first).Some?
    && (forall s :: s in h && s.key == k ==> first <= s.minute < hi)
    && last < |h| && h[last].key == k
    && (forall i :: last < i < |h| ==> h[i].key != k)
  }

  lemma AscendingRowsToIncrements(h: History, k: Key, tunnels: Option<set<Key>>, before: map<Key, SummaryRow>,
                                  lo: int, hi: int, first: int, last: nat, c: Counter)
    requires RowsAscend(h, k) && TunnelPresent(tunnels, k) && k !in before
    requires SpansRows(h, k, lo * HOUR, hi * HOUR, first, last)
    ensures Get(IncrementSum(h, tunnels, before, k, lo, hi), c) ==
            Get(h[last].values, c) - Get(LastAt(h, k, first).value, c)
  {
    hide Batch, Stream, IncrementSum, RowsAscend;
    var stream := Stream(h, k, lo * HOUR, hi * HOUR);
    StreamEnds(h, k, lo * HOUR, hi * HOUR, first, last);
    StreamAscends(h, k, lo * HOUR, hi * HOUR);
    HourlyIncrementsConserveTraffic(h, tunnels, before, k, lo, hi, c);
    AscendingColumnHasNoResets(Column(stream, c));
  }

  /** End to end, for counters that never reset: however the windows of twelve fall
      across minutes and hours, the hourly increments add up to the last persisted
      value minus the one kept for the first recorded minute. */
  lemma WindowsToIncrements(input: seq<MonitoringData>, k: Key, tunnels: Option<set<Key>>,
                            before: map<Key, SummaryRow>, lo: int, hi: int, first: int, last: nat, c: Counter)
    requires NeverResets(InputOf(input, k))
    requires TunnelPresent(tunnels, k) && k !in before
    requires SpansRows(Persisted(ProcessedAll(input).windows), k, lo * HOUR, hi * HOUR, first, last)
    ensures var h := Persisted(ProcessedAll(input).windows);
            Get(IncrementSum(h, tunnels, before, k, lo, hi), c) ==
            Get(h[last].values, c) - Get(LastAt(h, k, first).value, c)
  {
    hide IncrementSum, ProcessedAll, Persisted;
    PersistedRowsAscend(input, k);
    AscendingRowsToIncrements(Persisted(ProcessedAll(input).windows), k, tunnels, before, lo, hi, first, last, c);
  }

  // ------------------------------------------------------------------- the worker

  class Worker {
    var pending: map<string, seq<MonitoringData>>
    var windows: seq<seq<MonitoringData>>  // handed over for aggregation, in order
    var batch: seq<Snapshot>
    var table: History

    constructor ()
      ensures CurrentState() == ProcessedAll([]) && batch == [] && table == []
    {
      pending, windows, batch, table := map[], [], [], [];
    }

    function CurrentState(): State
      reads this
    {
      State(pending, windows)
    }

    method ProcessMonitoringData(d: MonitoringData)
      modifies this`pending, this`windows
      ensures CurrentState() == Processed(old(CurrentState()), d)
    {
      var key := DataKey(d.key);
      if key !in pending {
        pending := pending[key := []];
      }
      pending := pending[key := pending[key] + [d]];
      if |pending[key]| >= WINDOW {
        TriggerBatchWrite(key);
      }
    }

    method TriggerBatchWrite(key: string)
      requires key in pending
      modifies this`pending, this`windows
      ensures |old(pending)[key]| < WINDOW ==> pending == old(pending) && windows == old(windows)
      ensures |old(pending)[key]| >= WINDOW ==>
                pending == old(pending)[key := []] && windows == old(windows) + [old(pending)[key]]
    {
      if |pending[key]| < WINDOW {
        return;
      }
      var dataPoints := pending[key];
      pending := pending[key := []];
      windows := windows + [dataPoints];
    }

    /** The data processing loop over a whole input. */
    method ProcessStream(input: seq<MonitoringData>)
      requires CurrentState() == ProcessedAll([])
      modifies this`pending, this`windows
      ensures CurrentState() == ProcessedAll(input)
      ensures forall k :: Partitioned(CurrentState(), input, k)
    {
      for i := 0 to |input|
        invariant CurrentState() == ProcessedAll(input[..i])
      {
        assert input[..i + 1][..i] == input[..i];
        ProcessMonitoringData(input[i]);
      }
      assert input[..|input|] == input;
      forall k ensures Partitioned(CurrentState(), input, k) {
        WindowsPartitionInput(input, k);
      }
    }

    /** One flush; a failed write is logged and its rows are dropped. */
    method Flush(writeSucceeds: bool)
      modifies this`batch, this`table
      ensures batch == []
      ensures table == if writeSucceeds then old(table) + old(batch) else old(table)
    {
      if |batch| == 0 {
        return;
      }
      if writeSucceeds {
        table := table + batch;
      }
      batch := [];
    }

    /** One row taken from the write queue; a full batch is flushed at once. */
    method Enqueue(row: Snapshot, writeSucceeds: bool)
      requires |batch| < MAX_BATCH
      modifies this`batch, this`table
      ensures var full := |old(batch)| + 1 >= MAX_BATCH;
              && batch == (if full then [] else old(batch) + [row])
              && table == if full && writeSucceeds then old(table) + old(batch) + [row] else old(table)
    {
      batch := batch + [row];
      if |batch| >= MAX_BATCH {
        Flush(writeSucceeds);
        assert old(table) + (old(batch) + [row]) == old(table) + old(batch) + [row];
      }
    }

    /**
     * The single writer over whatever it receives until it stops with a last flush. The table receives, once and
     * in order, the rows whose batch was written: all of them when no write fails.
     */
    method WriteQueue(plan: seq<WriterEvent>, lastSucceeds: bool)
      requires batch == []
      modifies this`batch, this`table
      ensures batch == [] && table == old(table) + Selected(RowsOf(plan), KeptOf(plan, lastSucceeds))
      ensures lastSucceeds && (forall e :: e in plan ==> e.succeeds) ==> table == old(table) + RowsOf(plan)
    {
      hide Written, LogAfter, RowsOf, Flags;
      NothingReceived(table);
      for i := 0 to |plan|
        invariant |batch| < MAX_BATCH && |batch| == LogAfter(plan[..i]).pending
        invariant Written(RowsOf(plan[..i]), LogAfter(plan[..i]).kept, old(table), table, batch)
      {
        ghost var rows, kept := RowsOf(plan[..i]), LogAfter(plan[..i]).kept;
        assert plan[..i + 1] == plan[..i] + [plan[i]];
        OneMore(plan[..i], plan[i]);
        match plan[i] {
          case Tick(ok) =>
            assert rows + [] == rows;
            FlushKeepsWritten(rows, kept, old(table), table, batch, ok);
            Flush(ok);
          case Taken(row, ok) =>
            TakeKeepsWritten(rows, kept, old(table), table, batch, row);
            FlushKeepsWritten(rows + [row], kept, old(table), table, batch + [row], ok);
            assert table + (batch + [row]) == table + batch + [row];
            Enqueue(row, ok);
        }
      }
      assert plan[..|plan|] == plan;
      FlushKeepsWritten(RowsOf(plan), LogAfter(plan).kept, old(table), table, batch, lastSucceeds);
      Flush(lastSucceeds);
      AllWritten(RowsOf(plan), KeptOf(plan, lastSucceeds), old(table), table);
      if lastSucceeds && forall e :: e in plan ==> e.succeeds {
        NoFailure(plan, lastSucceeds);
      }
    }
  }

  // ------------------------------------------------------------- the single writer

  /** What the writer receives: a row or a tick; a write that this leads to succeeds or not. */
  datatype WriterEvent = Taken(row: Snapshot, succeeds: bool) | Tick(succeeds: bool)

  function RowsOf(plan: seq<WriterEvent>): seq<Snapshot> {
    if plan == [] then []
    else
      var e := plan[|plan| - 1];
      RowsOf(plan[..|plan| - 1]) + if e.Taken? then [e.row] else []
  }

  /** For every row already decided whether it was written, and how many are waiting. */
  datatype Log = Log(kept: seq<bool>, pending: nat)

  function Logged(log: Log, e: WriterEvent): Log {
    var waiting := log.pending + if e.Taken? then 1 else 0;
    if e.Tick? || waiting >= MAX_BATCH then Log(log.kept + Flags(waiting, e.succeeds), 0)
    else Log(log.kept, waiting)
  }

  function LogAfter(plan: seq<WriterEvent>): Log {
    if plan == [] then Log([], 0) else Logged(LogAfter(plan[..|plan| - 1]), plan[|plan| - 1])
  }

  /** Which rows reach the table, if the worker stops with a flush that succeeds or not. */
  function KeptOf(plan: seq<WriterEvent>, lastSucceeds: bool): (kept: seq<bool>)
    ensures |kept| == |RowsOf(plan)|
  {
    EveryRowIsLogged(plan);
    LogAfter(plan).kept + Flags(LogAfter(plan).pending, lastSucceeds)
  }

  function Flags(n: nat, ok: bool): (flags: seq<bool>)
    ensures |flags| == n && forall i :: 0 <= i < n ==> flags[i] == ok
  {
    seq(n, _ => ok)
  }

  lemma {:induction false} EveryRowIsLogged(plan: seq<WriterEvent>)
    ensures |LogAfter(plan).kept| + LogAfter(plan).pending == |RowsOf(plan)|
    decreases |plan|
  {
    if plan != [] {
      EveryRowIsLogged(plan[..|plan| - 1]);
    }
  }

  lemma OneMore(plan: seq<WriterEvent>, e: WriterEvent)
    ensures RowsOf(plan + [e]) == RowsOf(plan) + if e.Taken? then [e.row] else []
    ensures LogAfter(plan + [e]) == Logged(LogAfter(plan), e)
  {
    assert (plan + [e])[..|plan|] == plan;
  }

  /** Batches are independent: from a moment at which no row is waiting, what was decided stays, and what
      follows is decided as if the writer had just started. */
  lemma BatchesAreIndependent(a: seq<WriterEvent>, b: seq<WriterEvent>, lastSucceeds: bool)
    requires LogAfter(a).pending == 0
    ensures KeptOf(a + b, lastSucceeds) == KeptOf(a, lastSucceeds) + KeptOf(b, lastSucceeds)
  {
    hide LogAfter, RowsOf;
    LogContinues(a, b);
  }

  lemma {:induction false} LogContinues(a: seq<WriterEvent>, b: seq<WriterEvent>)
    requires LogAfter(a).pending == 0
    ensures LogAfter(a + b) == Log(LogAfter(a).kept + LogAfter(b).kept, LogAfter(b).pending)
    decreases |b|
  {
    hide LogAfter, Logged, RowsOf;
    if b == [] {
      assert a + b == a;
      NothingLogged();
    } else {
      var front, e := b[..|b| - 1], b[|b| - 1];
      LogContinues(a, front);
      assert b == front + [e] && a + b == (a + front) + [e];
      OneMore(a + front, e);
      OneMore(front, e);
      LogShift(LogAfter(a).kept, LogAfter(front), e);
    }
  }

  lemma NothingLogged()
    ensures LogAfter([]) == Log([], 0)
  {
  }

  lemma LogShift(done: seq<bool>, log: Log, e: WriterEvent)
    ensures Logged(Log(done + log.kept, log.pending), e) ==
            Log(done + Logged(log, e).kept, Logged(log, e).pending)
  {
  }

  /** Fewer than two hundred rows wait; the two-hundredth decides for all of them, and a tick for those that wait. */
  lemma {:induction false} BatchOutcome(rows: seq<WriterEvent>)
    requires |rows| <= 200 && forall e :: e in rows ==> e.Taken?
    ensures LogAfter(rows) == if |rows| < 200 then Log([], |rows|) else Log(Flags(200, rows[199].succeeds), 0)
    decreases |rows|
  {
    hide Flags;
    if rows == [] {
      NothingLogged();
    } else {
      var front, e := rows[..|rows| - 1], rows[|rows| - 1];
      assert rows == front + [e] && e in rows && forall x :: x in front ==> x in rows;
      BatchOutcome(front);
      OneMore(front, e);
      assert [] + Flags(200, e.succeeds) == Flags(200, e.succeeds);
    }
  }

  lemma TickDecides(plan: seq<WriterEvent>, ok: bool)
    ensures LogAfter(plan + [Tick(ok)]) == Log(LogAfter(plan).kept + Flags(LogAfter(plan).pending, ok), 0)
    ensures RowsOf(plan + [Tick(ok)]) == RowsOf(plan)
  {
    OneMore(plan, Tick(ok));
  }

  lemma {:induction false} NoFailure(plan: seq<WriterEvent>, lastSucceeds: bool)
    requires lastSucceeds && forall e :: e in plan ==> e.succeeds
    ensures forall ok :: ok in KeptOf(plan, lastSucceeds) ==> ok
    decreases |plan|
  {
    if plan != [] {
      var front, e := plan[..|plan| - 1], plan[|plan| - 1];
      assert e in plan && forall e' :: e' in front ==> e' in plan;
      NoFailure(front, lastSucceeds);
      assert forall ok :: ok in LogAfter(front).kept ==> ok in KeptOf(front, lastSucceeds);
    }
  }

  /** The rows received so far are those decided and those in the batch. */
  ghost predicate Written(rows: seq<Snapshot>, kept: seq<bool>, before: History, table: History,
                          batch: seq<Snapshot>) {
    && |kept| <= |rows| && batch == rows[|kept|..]
    && table == before + Selected(rows[..|kept|], kept)
  }

  lemma NothingReceived(table: History)
    ensures Written(RowsOf([]), LogAfter([]).kept, table, table, []) && LogAfter([]).pending == 0
  {
  }

  lemma TakeKeepsWritten(rows: seq<Snapshot>, kept: seq<bool>, before: History, table: History,
                         batch: seq<Snapshot>, row: Snapshot)
    requires Written(rows, kept, before, table, batch)
    ensures Written(rows + [row], kept, before, table, batch + [row])
  {
    assert (rows + [row])[..|kept|] == rows[..|kept|];
  }

  lemma FlushKeepsWritten(rows: seq<Snapshot>, kept: seq<bool>, before: History, table: History,
                          batch: seq<Snapshot>, ok: bool)
    requires Written(rows, kept, before, table, batch)
    ensures Written(rows, kept + Flags(|batch|, ok), before, if ok then table + batch else table, [])
  {
    hide Selected;
    FlushedRows(rows[..|kept|], kept, batch, ok);
    assert rows[..|kept|] + batch == rows == rows[..|rows|];
    assert before + (Selected(rows[..|kept|], kept) + batch) == before + Selected(rows[..|kept|], kept) + batch;
    assert before + (Selected(rows[..|kept|], kept) + []) == before + Selected(rows[..|kept|], kept);
  }

  lemma AllWritten(rows: seq<Snapshot>, kept: seq<bool>, before: History, table: History)
    requires Written(rows, kept, before, table, [])
    ensures |kept| == |rows| && table == before + Selected(rows, kept)
    ensures (forall ok :: ok in kept ==> ok) ==> table == before + rows
  {
    hide Selected;
    assert rows[..|rows|] == rows;
    AllSelected(rows, kept);
  }

  /** The rows whose flag is set. */
  function Selected(rows: seq<Snapshot>, kept: seq<bool>): seq<Snapshot>
    requires |rows| == |kept|
  {
    if rows == [] then []
    else
      var n := |rows| - 1;
      Selected(rows[..n], kept[..n]) + if kept[n] then [rows[n]] else []
  }

  lemma SelectedSnoc(rows: seq<Snapshot>, kept: seq<bool>, row: Snapshot, ok: bool)
    requires |rows| == |kept|
    ensures Selected(rows + [row], kept + [ok]) == Selected(rows, kept) + if ok then [row] else []
  {
    assert (rows + [row])[..|rows|] == rows && (kept + [ok])[..|kept|] == kept;
  }

  /** A flush decides for the whole batch at once. */
  lemma {:induction false} FlushedRows(rows: seq<Snapshot>, kept: seq<bool>, batch: seq<Snapshot>, ok: bool)
    requires |rows| == |kept|
    ensures Selected(rows + batch, kept + Flags(|batch|, ok)) == Selected(rows, kept) + if ok then batch else []
    decreases |batch|
  {
    hide Selected;
    if batch == [] {
      assert rows + batch == rows && kept + Flags(0, ok) == kept;
    } else {
      var front, row := batch[..|batch| - 1], batch[|batch| - 1];
      FlushedRows(rows, kept, front, ok);
      SelectedSnoc(rows + front, kept + Flags(|front|, ok), row, ok);
      assert batch == front + [row] && rows + batch == (rows + front) + [row];
      assert kept + Flags(|batch|, ok) == (kept + Flags(|front|, ok)) + [ok];
    }
  }

  lemma {:induction false} AllSelected(rows: seq<Snapshot>, kept: seq<bool>)
    requires |rows| == |kept|
    ensures (forall ok :: ok in kept ==> ok) ==> Selected(rows, kept) == rows
    decreases |rows|
  {
    if rows != [] {
      var n := |rows| - 1;
      AllSelected(rows[..n], kept[..n]);
      assert kept[n] in kept && forall ok :: ok in kept[..n] ==> ok in kept;
      assert rows == rows[..n] + [rows[n]];
    }
  }
}
