/** Cumulative counters, the `service_history` table and the two roll-up tables,
    and what one hour's refresh makes of them. Times are minutes in UTC; the
    position of a snapshot in the history is the order of its autoincrement id. */
module TrafficModel {
  import opened Options

  const HOUR: int := 60

  datatype Counters = Counters(tcpRx: int, tcpTx: int, udpRx: int, udpTx: int)

  datatype Counter = TcpRx | TcpTx | UdpRx | UdpTx

  const ZERO := Counters(0, 0, 0, 0)

  function Get(v: Counters, c: Counter): int {
    match c
    case TcpRx => v.tcpRx
    case TcpTx => v.tcpTx
    case UdpRx => v.udpRx
    case UdpTx => v.udpTx
  }

  function Add(a: Counters, b: Counters): Counters {
    Counters(a.tcpRx + b.tcpRx, a.tcpTx + b.tcpTx, a.udpRx + b.udpRx, a.udpTx + b.udpTx)
  }

  /** A cumulative counter below its baseline means the instance was reset. */
  function TrafficDelta(current: int, baseline: int): int {
    if current >= baseline then current - baseline else current
  }

  function Delta(current: Counters, baseline: Counters): Counters {
    Counters(TrafficDelta(current.tcpRx, baseline.tcpRx), TrafficDelta(current.tcpTx, baseline.tcpTx),
             TrafficDelta(current.udpRx, baseline.udpRx), TrafficDelta(current.udpTx, baseline.udpTx))
  }

  datatype Key = Key(endpoint: int, instance: string)

  datatype Snapshot = Snapshot(key: Key, minute: int, values: Counters)

  type History = seq<Snapshot>

  datatype SummaryRow = SummaryRow(total: Counters, increment: Counters, recordCount: int)

  datatype DashboardRow = DashboardRow(total: Counters, instanceCount: nat)

  /** `traffic_hourly_summary`, grouped by hour_time; (endpoint, instance) is the rest of its unique index. */
  type Summary = map<int, map<Key, SummaryRow>>

  function RowsAt(summary: Summary, hour: int): map<Key, SummaryRow> {
    if hour in summary then summary[hour] else map[]
  }

  predicate InWindow(s: Snapshot, lo: int, hi: int) {
    lo <= s.minute < hi
  }

  // ---------------------------------------------------------------- queries

  /** Row number 1 of PARTITION BY endpoint, instance, record_time ORDER BY id DESC. */
  predicate NewestOfMinute(h: History, i: nat)
    requires i < |h|
  {
    forall j :: i < j < |h| ==> !(h[j].key == h[i].key && h[j].minute == h[i].minute)
  }

  /** The surviving rows of one minute among the first `n` of the table, in id order. */
  function MinuteRows(h: History, minute: int, n: nat): seq<Snapshot>
    requires n <= |h|
  {
    if n == 0 then []
    else MinuteRows(h, minute, n - 1) +
         if h[n - 1].minute == minute && NewestOfMinute(h, n - 1) then [h[n - 1]] else []
  }

  /** The deduplicated snapshots of [lo, hi) ORDER BY record_time, id. */
  function WindowSnapshots(h: History, lo: int, hi: int): seq<Snapshot>
    decreases hi - lo
  {
    if hi <= lo then []
    else WindowSnapshots(h, lo, hi - 1) + MinuteRows(h, hi - 1, |h|)
  }

  /** Row number 1 of PARTITION BY endpoint, instance ORDER BY record_time DESC, id DESC. */
  function LatestRow(h: History, k: Key, lo: int, hi: int): (r: Option<Snapshot>)
    ensures r.None? <==> forall s :: s in h && s.key == k ==> !InWindow(s, lo, hi)
    ensures r.Some? ==> r.value in h && r.value.key == k && InWindow(r.value, lo, hi)
    ensures r.Some? ==> forall s :: s in h && s.key == k && InWindow(s, lo, hi) ==> s.minute <= r.value.minute
  {
    if h == [] then None
    else
      var s, before := h[|h| - 1], LatestRow(h[..|h| - 1], k, lo, hi);
      assert h == h[..|h| - 1] + [s];
      if s.key == k && InWindow(s, lo, hi) && (before.None? || before.value.minute <= s.minute)
      then Some(s) else before
  }

  function KeysIn(h: History, lo: int, hi: int): set<Key> {
    set s | s in h && InWindow(s, lo, hi) :: s.key
  }

  // ------------------------------------------- one instance's own snapshot stream

  /** The values kept for one instance and minute: the last ones written. */
  function LastAt(h: History, k: Key, minute: int): Option<Counters> {
    if h == [] then None
    else
      var s := h[|h| - 1];
      if s.key == k && s.minute == minute then Some(s.values) else LastAt(h[..|h| - 1], k, minute)
  }

  /** One value per recorded minute of [lo, hi), in time order. */
  function Stream(h: History, k: Key, lo: int, hi: int): seq<Counters>
    decreases hi - lo
  {
    if hi <= lo then []
    else Stream(h, k, lo, hi - 1) +
         match LastAt(h, k, hi - 1) { case Some(v) => [v] case None => [] }
  }

  /** The values of instance `k` among a list of snapshots. */
  function Project(rows: seq<Snapshot>, k: Key): seq<Counters> {
    if rows == [] then []
    else
      var s := rows[|rows| - 1];
      Project(rows[..|rows| - 1], k) + if s.key == k then [s.values] else []
  }

  function Baseline(start: Option<Counters>, stream: seq<Counters>): Option<Counters> {
    if stream == [] then start else Some(stream[|stream| - 1])
  }

  /** Traffic charged for a stream: every snapshot against the one before it, the
      first against `start` if there is one and not at all otherwise. */
  function Charged(start: Option<Counters>, stream: seq<Counters>): Counters {
    if stream == [] then ZERO
    else
      var front := stream[..|stream| - 1];
      match Baseline(start, front)
      case None => Charged(start, front)
      case Some(b) => Add(Charged(start, front), Delta(stream[|stream| - 1], b))
  }

  // ------------------------------------------------------- one hour's refresh

  /** Whether carry-forward applies: the `tunnels` table exists and still lists the instance. */
  predicate TunnelPresent(tunnels: Option<set<Key>>, k: Key) {
    tunnels.Some? && k in tunnels.value
  }

  function HourKeys(h: History, hour: int): set<Key> {
    KeysIn(h, hour * HOUR, (hour + 1) * HOUR)
  }

  function CarriedKeys(h: History, tunnels: Option<set<Key>>, prev: map<Key, SummaryRow>, hour: int): set<Key> {
    set k | k in prev.Keys && TunnelPresent(tunnels, k) && k !in HourKeys(h, hour)
  }

  function PrevTotal(prev: map<Key, SummaryRow>, k: Key): Option<Counters> {
    if k in prev then Some(prev[k].total) else None
  }

  function HourIncrement(h: History, prev: map<Key, SummaryRow>, k: Key, hour: int): Counters {
    Charged(PrevTotal(prev, k), Stream(h, k, hour * HOUR, (hour + 1) * HOUR))
  }

  /** First statement: one row per instance seen in the hour; the increment columns
      temporarily hold the raw totals. */
  function Upserted(h: History, rows: map<Key, SummaryRow>, hour: int): map<Key, SummaryRow> {
    rows + map k | k in HourKeys(h, hour) ::
      var latest := LatestRow(h, k, hour * HOUR, (hour + 1) * HOUR).value;
      SummaryRow(latest.values, latest.values, 1)
  }

  /** Second statement: quiet instances keep the previous hour's totals. */
  function CarriedForward(h: History, tunnels: Option<set<Key>>, prev: map<Key, SummaryRow>,
                          rows: map<Key, SummaryRow>, hour: int): map<Key, SummaryRow> {
    rows + map k | k in CarriedKeys(h, tunnels, prev, hour) :: SummaryRow(prev[k].total, ZERO, 0)
  }

  /** Third step: every row of the hour gets its increment. */
  function WithIncrements(h: History, prev: map<Key, SummaryRow>, rows: map<Key, SummaryRow>, hour: int)
    : map<Key, SummaryRow>
  {
    map k | k in rows :: rows[k].(increment := HourIncrement(h, prev, k, hour))
  }

  function Refreshed(h: History, tunnels: Option<set<Key>>, prev: map<Key, SummaryRow>,
                     cur: map<Key, SummaryRow>, hour: int): map<Key, SummaryRow> {
    WithIncrements(h, prev, CarriedForward(h, tunnels, prev, Upserted(h, cur, hour), hour), hour)
  }

  /** SUM over the rows of an hour. */
  ghost function SumBy(rows: map<Key, SummaryRow>, f: SummaryRow -> Counters): Counters {
    if rows == map[] then ZERO
    else
      var k :| k in rows;
      Add(f(rows[k]), SumBy(rows - {k}, f))
  }

  function TotalOf(r: SummaryRow): Counters { r.total }

  function IncrementOf(r: SummaryRow): Counters { r.increment }

  /** CASE WHEN increment > 0 THEN increment ELSE 0 END, column by column. */
  function PositiveIncrementOf(r: SummaryRow): Counters {
    var i := r.increment;
    Counters(if i.tcpRx > 0 then i.tcpRx else 0, if i.tcpTx > 0 then i.tcpTx else 0,
             if i.udpRx > 0 then i.udpRx else 0, if i.udpTx > 0 then i.udpTx else 0)
  }

  /** The dashboard row of an hour: none for an hour without summary rows. */
  ghost function DashboardOf(rows: map<Key, SummaryRow>): Option<DashboardRow> {
    if rows == map[] then None else Some(DashboardRow(SumBy(rows, TotalOf), |rows|))
  }

  ghost function DashboardRefreshed(dashboard: map<int, DashboardRow>, rows: map<Key, SummaryRow>, hour: int)
    : map<int, DashboardRow>
  {
    match DashboardOf(rows)
    case None => dashboard - {hour}
    case Some(r) => dashboard[hour := r]
  }
}
