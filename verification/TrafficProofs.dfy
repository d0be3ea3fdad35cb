/** What the hourly roll-up conserves, and when a refresh in place equals a
    computation from scratch. */
module TrafficProofs {
  import opened Options
  import opened TrafficModel

  // --------------------------------------------- the SQL queries, per instance

  lemma ProjectConcat(a: seq<Snapshot>, b: seq<Snapshot>, k: Key)
    ensures Project(a + b, k) == Project(a, k) + Project(b, k)
  {
    if b == [] {
      assert a + b == a;
    } else {
      assert (a + b)[..|a + b| - 1] == a + b[..|b| - 1];
      ProjectConcat(a, b[..|b| - 1], k);
    }
  }

  ghost predicate KeptAmong(h: History, k: Key, minute: int, n: nat)
    requires n <= |h|
  {
    exists i :: 0 <= i < n && h[i].key == k && h[i].minute == minute && NewestOfMinute(h, i)
  }

  /** What the `n`th row of the table adds for instance `k`: nothing, or the value kept for the minute. */
  lemma KeptRow(h: History, k: Key, minute: int, n: nat)
    requires 0 < n <= |h|
    ensures var row := if h[n - 1].minute == minute && NewestOfMinute(h, n - 1) then [h[n - 1]] else [];
            var kept := row != [] && h[n - 1].key == k;
            && Project(row, k) == (if kept then [h[n - 1].values] else [])
            && (kept ==> LastAt(h, k, minute) == Some(h[n - 1].values) && !KeptAmong(h, k, minute, n - 1))
            && (KeptAmong(h, k, minute, n) <==> kept || KeptAmong(h, k, minute, n - 1))
  {
    hide LastAt, MinuteRows;
    LastAtIsNewest(h, k, minute);
    var row := if h[n - 1].minute == minute && NewestOfMinute(h, n - 1) then [h[n - 1]] else [];
    if row != [] {
      assert row[..|row| - 1] == [];
    }
  }

  /** Within one minute the window query keeps, for each instance, its last row only. */
  lemma {:induction false} ProjectMinute(h: History, k: Key, minute: int, n: nat)
    requires n <= |h|
    ensures KeptAmong(h, k, minute, n) ==> LastAt(h, k, minute).Some?
    ensures Project(MinuteRows(h, minute, n), k) ==
            if KeptAmong(h, k, minute, n) then [LastAt(h, k, minute).value] else []
    decreases n
  {
    hide NewestOfMinute, LastAt, Project;
    if n == 0 {
      NothingKept(h, k, minute);
    } else {
      ProjectMinute(h, k, minute, n - 1);
      KeptRow(h, k, minute, n);
      var row := if h[n - 1].minute == minute && NewestOfMinute(h, n - 1) then [h[n - 1]] else [];
      ProjectConcat(MinuteRows(h, minute, n - 1), row, k);
      hide KeptAmong;
    }
  }

  lemma NothingKept(h: History, k: Key, minute: int)
    ensures !KeptAmong(h, k, minute, 0) && Project(MinuteRows(h, minute, 0), k) == []
  {
  }

  lemma {:induction false} LastAtIsNewest(h: History, k: Key, minute: int)
    ensures LastAt(h, k, minute).None? <==> forall i :: 0 <= i < |h| ==> !(h[i].key == k && h[i].minute == minute)
    ensures forall i :: 0 <= i < |h| && h[i].key == k && h[i].minute == minute && NewestOfMinute(h, i) ==>
                          LastAt(h, k, minute) == Some(h[i].values)
    ensures LastAt(h, k, minute).Some? ==>
              exists i :: 0 <= i < |h| && h[i].key == k && h[i].minute == minute && NewestOfMinute(h, i)
    decreases |h|
  {
    if h != [] {
      var n := |h| - 1;
      var front := h[..n];
      LastAtIsNewest(front, k, minute);
      if h[n].key == k && h[n].minute == minute {
        assert NewestOfMinute(h, n);
      } else {
        forall i | 0 <= i < n && h[i].key == k && h[i].minute == minute
          ensures NewestOfMinute(h, i) <==> NewestOfMinute(front, i)
        {
          assert forall j :: i < j < n ==> front[j] == h[j];
        }
      }
    }
  }

  /** The one query over all instances, read for one of them, is that instance's stream. */
  lemma {:induction false} WindowProjectsToStream(h: History, k: Key, lo: int, hi: int)
    ensures Project(WindowSnapshots(h, lo, hi), k) == Stream(h, k, lo, hi)
    decreases hi - lo
  {
    if lo < hi {
      WindowProjectsToStream(h, k, lo, hi - 1);
      ProjectConcat(WindowSnapshots(h, lo, hi - 1), MinuteRows(h, hi - 1, |h|), k);
      ProjectMinute(h, k, hi - 1, |h|);
      LastAtIsNewest(h, k, hi - 1);
    }
  }

  /** The upsert's ORDER BY and the increment query's deduplication agree: the total
      stored for an hour is the last element of the stream that is charged. */
  lemma {:induction false} StoredTotalEndsStream(h: History, k: Key, lo: int, hi: int)
    ensures LatestRow(h, k, lo, hi).Some? <==> Stream(h, k, lo, hi) != []
    ensures LatestRow(h, k, lo, hi).Some? ==>
              var stream := Stream(h, k, lo, hi);
              LatestRow(h, k, lo, hi).value.values == stream[|stream| - 1]
    decreases hi - lo
  {
    if lo < hi {
      StoredTotalEndsStream(h, k, lo, hi - 1);
      LatestRowByMinute(h, k, lo, hi);
    }
  }

  lemma {:induction false} LatestRowByMinute(h: History, k: Key, lo: int, hi: int)
    requires lo < hi
    ensures match LastAt(h, k, hi - 1)
            case Some(v) => LatestRow(h, k, lo, hi).Some? && LatestRow(h, k, lo, hi).value.values == v
                            && LatestRow(h, k, lo, hi).value.minute == hi - 1
            case None => LatestRow(h, k, lo, hi) == LatestRow(h, k, lo, hi - 1)
    decreases |h|
  {
    if h != [] {
      LatestRowByMinute(h[..|h| - 1], k, lo, hi);
    }
  }

  lemma {:induction false} StreamSplit(h: History, k: Key, lo: int, mid: int, hi: int)
    requires lo <= mid <= hi
    ensures Stream(h, k, lo, hi) == Stream(h, k, lo, mid) + Stream(h, k, mid, hi)
    decreases hi - mid
  {
    if mid < hi {
      StreamSplit(h, k, lo, mid, hi - 1);
    }
  }

  // ------------------------------------------------------------- conservation

  lemma AddAssociates(a: Counters, b: Counters, c: Counters)
    ensures Add(a, Add(b, c)) == Add(Add(a, b), c)
  {
  }

  /** The sum of the values a counter had just before each reset. */
  function PreResetSum(column: seq<int>): int {
    if |column| < 2 then 0
    else
      var n := |column|;
      PreResetSum(column[..n - 1]) + if column[n - 1] < column[n - 2] then column[n - 2] else 0
  }

  function Column(values: seq<Counters>, c: Counter): (column: seq<int>)
    ensures |column| == |values|
    ensures forall i :: 0 <= i < |values| ==> column[i] == Get(values[i], c)
  {
    seq(|values|, i requires 0 <= i < |values| => Get(values[i], c))
  }

  function Whole(start: Option<Counters>, stream: seq<Counters>): seq<Counters> {
    match start case Some(b) => [b] + stream case None => stream
  }

  /** A counter's charge telescopes: last minus first plus everything lost at resets. */
  lemma {:induction false} ChargedTelescopes(start: Option<Counters>, stream: seq<Counters>, c: Counter)
    ensures var column := Column(Whole(start, stream), c);
            Get(Charged(start, stream), c) ==
            if column == [] then 0 else column[|column| - 1] - column[0] + PreResetSum(column)
    decreases |stream|
  {
    hide Column;
    if stream != [] {
      var front := stream[..|stream| - 1];
      ChargedTelescopes(start, front, c);
      var column := Column(Whole(start, stream), c);
      assert column[..|column| - 1] == Column(Whole(start, front), c);
    }
  }

  lemma ChargedSnoc(start: Option<Counters>, stream: seq<Counters>, v: Counters)
    ensures Charged(start, stream + [v]) ==
            match Baseline(start, stream)
            case None => Charged(start, stream)
            case Some(b) => Add(Charged(start, stream), Delta(v, b))
  {
    assert (stream + [v])[..|stream + [v]| - 1] == stream;
  }

  lemma {:induction false} ChargedSplit(start: Option<Counters>, a: seq<Counters>, b: seq<Counters>)
    ensures Charged(start, a + b) == Add(Charged(start, a), Charged(Baseline(start, a), b))
    ensures Baseline(start, a + b) == Baseline(Baseline(start, a), b)
    decreases |b|
  {
    if b == [] {
      assert a + b == a;
    } else {
      var front, v := b[..|b| - 1], b[|b| - 1];
      assert b == front + [v] && a + b == (a + front) + [v];
      ChargedSplit(start, a, front);
      ChargedSnoc(start, a + front, v);
      ChargedSnoc(Baseline(start, a), front, v);
    }
  }

  /** The rows of `hour` after an ascending pass over lo..hour that starts from the
      rows `before` of hour lo - 1 and finds no row in any later hour. */
  function Batch(h: History, tunnels: Option<set<Key>>, before: map<Key, SummaryRow>, lo: int, hour: int)
    : map<Key, SummaryRow>
    decreases hour - lo
  {
    if hour < lo then before
    else Refreshed(h, tunnels, Batch(h, tunnels, before, lo, hour - 1), map[], hour)
  }

  /** The sum of an instance's increments over the hours lo..hi - 1. */
  function IncrementSum(h: History, tunnels: Option<set<Key>>, before: map<Key, SummaryRow>, k: Key,
                        lo: int, hi: int): Counters
    decreases hi - lo
  {
    if hi <= lo then ZERO
    else
      var rows := Batch(h, tunnels, before, lo, hi - 1);
      Add(IncrementSum(h, tunnels, before, k, lo, hi - 1), IncrementIn(rows, k))
  }

  /** What a refresh says about one instance. */
  lemma RefreshedRow(h: History, tunnels: Option<set<Key>>, prev: map<Key, SummaryRow>,
                     cur: map<Key, SummaryRow>, hour: int, k: Key)
    ensures var rows := Refreshed(h, tunnels, prev, cur, hour);
            var stream := Stream(h, k, hour * HOUR, (hour + 1) * HOUR);
            && (k in rows <==> k in cur || stream != [] || (k in prev && TunnelPresent(tunnels, k)))
            && (k in rows ==> rows[k].increment == HourIncrement(h, prev, k, hour))
            && (stream != [] ==> rows[k].total == stream[|stream| - 1] && rows[k].recordCount == 1)
            && (stream == [] && k in prev && TunnelPresent(tunnels, k) ==>
                  rows[k].total == prev[k].total && rows[k].recordCount == 0)
            && (k in cur && stream == [] && !(k in prev && TunnelPresent(tunnels, k)) ==>
                  rows[k].total == cur[k].total && rows[k].recordCount == cur[k].recordCount)
  {
    StoredTotalEndsStream(h, k, hour * HOUR, (hour + 1) * HOUR);
    HourKeysAreStreams(h, k, hour);
  }

  lemma HourKeysAreStreams(h: History, k: Key, hour: int)
    ensures k in HourKeys(h, hour) <==> Stream(h, k, hour * HOUR, (hour + 1) * HOUR) != []
  {
    StoredTotalEndsStream(h, k, hour * HOUR, (hour + 1) * HOUR);
    if k in HourKeys(h, hour) {
      var s :| s in h && InWindow(s, hour * HOUR, (hour + 1) * HOUR) && s.key == k;
    }
  }

  function IncrementIn(rows: map<Key, SummaryRow>, k: Key): Counters {
    if k in rows then rows[k].increment else ZERO
  }

  /** With its tunnel present, an instance's stored total after an hour is the last
      value known so far, and its increment charges the hour's stream against it. */
  lemma PresentRow(h: History, tunnels: Option<set<Key>>, prev: map<Key, SummaryRow>, hour: int, k: Key)
    requires TunnelPresent(tunnels, k)
    ensures var rows := Refreshed(h, tunnels, prev, map[], hour);
            var stream := Stream(h, k, hour * HOUR, (hour + 1) * HOUR);
            && PrevTotal(rows, k) == Baseline(PrevTotal(prev, k), stream)
            && IncrementIn(rows, k) == Charged(PrevTotal(prev, k), stream)
  {
    RefreshedRow(h, tunnels, prev, map[], hour, k);
  }

  lemma {:induction false} BatchFollowsStream(h: History, tunnels: Option<set<Key>>, before: map<Key, SummaryRow>,
                                              k: Key, lo: int, hi: int)
    requires lo <= hi && TunnelPresent(tunnels, k)
    ensures PrevTotal(Batch(h, tunnels, before, lo, hi - 1), k) ==
            Baseline(PrevTotal(before, k), Stream(h, k, lo * HOUR, hi * HOUR))
    ensures IncrementSum(h, tunnels, before, k, lo, hi) ==
            Charged(PrevTotal(before, k), Stream(h, k, lo * HOUR, hi * HOUR))
    decreases hi - lo
  {
    if lo < hi {
      BatchFollowsStream(h, tunnels, before, k, lo, hi - 1);
      PresentRow(h, tunnels, Batch(h, tunnels, before, lo, hi - 2), hi - 1, k);
      ExtendByHour(h, k, PrevTotal(before, k), lo, hi);
    }
  }

  lemma ExtendByHour(h: History, k: Key, start: Option<Counters>, lo: int, hi: int)
    requires lo < hi
    ensures var a := Stream(h, k, lo * HOUR, (hi - 1) * HOUR);
            var b := Stream(h, k, (hi - 1) * HOUR, hi * HOUR);
            var all := Stream(h, k, lo * HOUR, hi * HOUR);
            && Charged(start, all) == Add(Charged(start, a), Charged(Baseline(start, a), b))
            && Baseline(start, all) == Baseline(Baseline(start, a), b)
  {
    StreamSplit(h, k, lo * HOUR, (hi - 1) * HOUR, hi * HOUR);
    ChargedSplit(start, Stream(h, k, lo * HOUR, (hi - 1) * HOUR), Stream(h, k, (hi - 1) * HOUR, hi * HOUR));
  }

  /** Conservation across hours: with the tunnel present, an ascending pass over any
      range of hours charges each counter last minus first plus its pre-reset values,
      over the deduplicated snapshots of the whole range (preceded by the total of an
      earlier row, if there is one), wherever hour boundaries and quiet hours fall. */
  lemma HourlyIncrementsConserveTraffic(h: History, tunnels: Option<set<Key>>, before: map<Key, SummaryRow>,
                                        k: Key, lo: int, hi: int, c: Counter)
    requires lo <= hi && TunnelPresent(tunnels, k)
    ensures var column := Column(Whole(PrevTotal(before, k), Stream(h, k, lo * HOUR, hi * HOUR)), c);
            Get(IncrementSum(h, tunnels, before, k, lo, hi), c) ==
            if column == [] then 0 else column[|column| - 1] - column[0] + PreResetSum(column)
  {
    hide Stream, Batch, IncrementSum;
    BatchFollowsStream(h, tunnels, before, k, lo, hi);
    ChargedTelescopes(PrevTotal(before, k), Stream(h, k, lo * HOUR, hi * HOUR), c);
  }
}
