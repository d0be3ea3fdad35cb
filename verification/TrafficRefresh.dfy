/** Refreshes of single hours, while snapshots keep arriving, end in the same rows as one computation over the
    final history, up to an hour that the sequence of events determines. */
module TrafficRefresh {
  import opened Options
  import opened TrafficModel
  import opened TrafficProofs

  lemma RefreshIsIdempotent(h: History, tunnels: Option<set<Key>>, prev: map<Key, SummaryRow>,
                            cur: map<Key, SummaryRow>, hour: int)
    ensures var once := Refreshed(h, tunnels, prev, cur, hour);
            Refreshed(h, tunnels, prev, once, hour) == once
  {
    hide Refreshed, Stream, HourIncrement;
    var once := Refreshed(h, tunnels, prev, cur, hour);
    var twice := Refreshed(h, tunnels, prev, once, hour);
    forall k ensures (k in twice <==> k in once) && (k in once ==> twice[k] == once[k]) {
      RefreshedRow(h, tunnels, prev, cur, hour, k);
      RefreshedRow(h, tunnels, prev, once, hour, k);
    }
  }

  /** Refreshing over leftover rows equals refreshing from scratch exactly when every
      leftover row still has a source: a snapshot of the hour, or a previous row to
      carry forward for a tunnel that still exists. */
  lemma RefreshEqualsScratchIff(h: History, tunnels: Option<set<Key>>, prev: map<Key, SummaryRow>,
                                cur: map<Key, SummaryRow>, hour: int)
    ensures Refreshed(h, tunnels, prev, cur, hour) == Refreshed(h, tunnels, prev, map[], hour) <==>
            forall k :: k in cur ==> k in HourKeys(h, hour) || (k in prev && TunnelPresent(tunnels, k))
  {
    hide Refreshed, HourKeys, Stream;
    var inPlace := Refreshed(h, tunnels, prev, cur, hour);
    var scratch := Refreshed(h, tunnels, prev, map[], hour);
    forall k
      ensures k in scratch <==> k in HourKeys(h, hour) || (k in prev && TunnelPresent(tunnels, k))
      ensures k in inPlace <==> k in scratch || k in cur
      ensures k in scratch ==> inPlace[k] == scratch[k]
    {
      RefreshedRow(h, tunnels, prev, cur, hour, k);
      RefreshedRow(h, tunnels, prev, map[], hour, k);
      HourKeysAreStreams(h, k, hour);
    }
    if inPlace == scratch {
      forall k | k in cur ensures k in HourKeys(h, hour) || (k in prev && TunnelPresent(tunnels, k)) {
        assert k in inPlace;
      }
    }
  }

  // ---------------------------------------------------------- one instance at a time

  function RowOf(rows: map<Key, SummaryRow>, k: Key): Option<SummaryRow> {
    if k in rows then Some(rows[k]) else None
  }

  /** A refresh depends, for one instance, on that instance's snapshots, rows and tunnel alone. */
  lemma RefreshIsLocal(h: History, tunnels: Option<set<Key>>, prev: map<Key, SummaryRow>, cur: map<Key, SummaryRow>,
                       h': History, tunnels': Option<set<Key>>, prev': map<Key, SummaryRow>, hour: int, k: Key)
    requires Stream(h, k, hour * HOUR, (hour + 1) * HOUR) == Stream(h', k, hour * HOUR, (hour + 1) * HOUR)
    requires TunnelPresent(tunnels, k) <==> TunnelPresent(tunnels', k)
    requires RowOf(prev, k) == RowOf(prev', k)
    requires k in cur ==> k in Refreshed(h', tunnels', prev', map[], hour)
    ensures RowOf(Refreshed(h, tunnels, prev, cur, hour), k) == RowOf(Refreshed(h', tunnels', prev', map[], hour), k)
  {
    hide Refreshed, Stream;
    RefreshedRow(h, tunnels, prev, cur, hour, k);
    RefreshedRow(h', tunnels', prev', map[], hour, k);
  }

  /** What becomes of a row that has lost its source: it keeps its total and is charged nothing. */
  lemma LeftoverRow(h: History, tunnels: Option<set<Key>>, prev: map<Key, SummaryRow>, cur: map<Key, SummaryRow>,
                    hour: int, k: Key)
    requires k in cur && k !in HourKeys(h, hour) && !(k in prev && TunnelPresent(tunnels, k))
    ensures RowOf(Refreshed(h, tunnels, prev, cur, hour), k) == Some(cur[k].(increment := ZERO))
    ensures RowOf(Refreshed(h, tunnels, prev, map[], hour), k) == None
  {
    hide Refreshed, HourKeys, Stream;
    HourKeysAreStreams(h, k, hour);
    RefreshedRow(h, tunnels, prev, cur, hour, k);
    RefreshedRow(h, tunnels, prev, map[], hour, k);
  }

  lemma SameRows(a: map<Key, SummaryRow>, b: map<Key, SummaryRow>)
    requires forall k :: RowOf(a, k) == RowOf(b, k)
    ensures a == b
  {
    forall k ensures (k in a <==> k in b) && (k in a ==> a[k] == b[k]) {
      assert RowOf(a, k) == RowOf(b, k);
    }
  }

  lemma NothingWritten(k: Key, hour: int)
    ensures Stream([], k, hour * HOUR, (hour + 1) * HOUR) == []
  {
    HourKeysAreStreams([], k, hour);
    assert HourKeys([], hour) == {};
  }

  /** A concrete case: a row was carried forward for a quiet tunnel, which was then deleted; the row stays. */
  lemma DeletedTunnelLeavesItsRow()
    ensures var k := Key(1, "a");
            var rows := map[k := SummaryRow(Counters(5, 0, 0, 0), ZERO, 0)];
            && Refreshed([], Some({k}), rows, map[], 7) == rows
            && Refreshed([], Some({}), rows, rows, 7) == rows
            && Refreshed([], Some({}), rows, map[], 7) == map[]
  {
    hide Refreshed, Stream;
    var k := Key(1, "a");
    var rows := map[k := SummaryRow(Counters(5, 0, 0, 0), ZERO, 0)];
    forall other
      ensures RowOf(Refreshed([], Some({k}), rows, map[], 7), other) == RowOf(rows, other)
      ensures RowOf(Refreshed([], Some({}), rows, rows, 7), other) == RowOf(rows, other)
      ensures RowOf(Refreshed([], Some({}), rows, map[], 7), other) == RowOf(map[], other) {
      NothingWritten(other, 7);
      RefreshedRow([], Some({k}), rows, map[], 7, other);
      RefreshedRow([], Some({}), rows, rows, 7, other);
      RefreshedRow([], Some({}), rows, map[], 7, other);
    }
    SameRows(Refreshed([], Some({k}), rows, map[], 7), rows);
    SameRows(Refreshed([], Some({}), rows, rows, 7), rows);
    SameRows(Refreshed([], Some({}), rows, map[], 7), map[]);
  }

  // ------------------------------------------------- what a longer history changes

  predicate NoneBefore(arrivals: History, k: Key, minute: int) {
    forall s :: s in arrivals && s.key == k ==> minute <= s.minute
  }

  lemma {:induction false} LastAtUnaffected(h: History, arrivals: History, k: Key, minute: int)
    requires NoneBefore(arrivals, k, minute + 1)
    ensures LastAt(h + arrivals, k, minute) == LastAt(h, k, minute)
    decreases |arrivals|
  {
    if arrivals == [] {
      assert h + arrivals == h;
    } else {
      var n := |arrivals| - 1;
      assert (h + arrivals)[..|h| + n] == h + arrivals[..n];
      assert arrivals[n] in arrivals;
      LastAtUnaffected(h, arrivals[..n], k, minute);
    }
  }

  lemma {:induction false} StreamUnaffected(h: History, arrivals: History, k: Key, lo: int, hi: int)
    requires NoneBefore(arrivals, k, hi)
    ensures Stream(h + arrivals, k, lo, hi) == Stream(h, k, lo, hi)
    decreases hi - lo
  {
    if lo < hi {
      StreamUnaffected(h, arrivals, k, lo, hi - 1);
      LastAtUnaffected(h, arrivals, k, hi - 1);
    }
  }

  lemma BatchStep(h: History, tunnels: Option<set<Key>>, before: map<Key, SummaryRow>, lo: int, hour: int)
    requires lo <= hour
    ensures Batch(h, tunnels, before, lo, hour) ==
            Refreshed(h, tunnels, Batch(h, tunnels, before, lo, hour - 1), map[], hour)
  {
  }

  lemma BatchStart(h: History, tunnels: Option<set<Key>>, before: map<Key, SummaryRow>, lo: int)
    ensures Batch(h, tunnels, before, lo, lo - 1) == before
  {
  }

  /** The rows of an instance do not depend on its snapshots of later hours, nor on those of others. */
  lemma {:induction false} BatchUnaffected(h: History, arrivals: History, tunnels: Option<set<Key>>,
                                           before: map<Key, SummaryRow>, lo: int, hour: int, k: Key)
    requires NoneBefore(arrivals, k, (hour + 1) * HOUR)
    ensures RowOf(Batch(h + arrivals, tunnels, before, lo, hour), k) == RowOf(Batch(h, tunnels, before, lo, hour), k)
    decreases hour - lo
  {
    hide Refreshed, Stream;
    if lo <= hour {
      BatchUnaffected(h, arrivals, tunnels, before, lo, hour - 1, k);
      StreamUnaffected(h, arrivals, k, hour * HOUR, (hour + 1) * HOUR);
      RefreshIsLocal(h + arrivals, tunnels, Batch(h + arrivals, tunnels, before, lo, hour - 1), map[],
                     h, tunnels, Batch(h, tunnels, before, lo, hour - 1), hour, k);
    }
  }

  lemma ScratchKeys(h: History, tunnels: Option<set<Key>>, prev: map<Key, SummaryRow>, hour: int, k: Key)
    ensures k in Refreshed(h, tunnels, prev, map[], hour) <==>
            k in HourKeys(h, hour) || (k in prev && TunnelPresent(tunnels, k))
  {
    hide Refreshed, HourKeys, Stream;
    RefreshedRow(h, tunnels, prev, map[], hour, k);
    HourKeysAreStreams(h, k, hour);
  }

  /** More history can only add instances to an hour. */
  lemma {:induction false} BatchKeysGrow(h: History, arrivals: History, tunnels: Option<set<Key>>,
                                         before: map<Key, SummaryRow>, lo: int, hour: int, k: Key)
    ensures k in Batch(h, tunnels, before, lo, hour) ==> k in Batch(h + arrivals, tunnels, before, lo, hour)
    decreases hour - lo
  {
    hide Refreshed;
    if lo <= hour {
      BatchKeysGrow(h, arrivals, tunnels, before, lo, hour - 1, k);
      ScratchKeys(h, tunnels, Batch(h, tunnels, before, lo, hour - 1), hour, k);
      ScratchKeys(h + arrivals, tunnels, Batch(h + arrivals, tunnels, before, lo, hour - 1), hour, k);
      assert HourKeys(h, hour) <= HourKeys(h + arrivals, hour);
    }
  }

  // ------------------------------------------------------------------ whole runs

  datatype Tables = Tables(summary: Summary, dashboard: map<int, DashboardRow>)

  ghost function AggregateHour(h: History, tunnels: Option<set<Key>>, t: Tables, hour: int): Tables {
    var rows := Refreshed(h, tunnels, RowsAt(t.summary, hour - 1), RowsAt(t.summary, hour), hour);
    Tables(t.summary[hour := rows], DashboardRefreshed(t.dashboard, rows, hour))
  }

  /**
   * What can happen: snapshots are written, or the refresh of one hour is committed, with the tunnels that
   * exist at that moment. A refresh that fails is rolled back and is no event.
   */
  datatype Event = Arrives(snapshots: History) | Refreshes(hour: int, tunnels: Option<set<Key>>)

  function FinalHistory(h: History, events: seq<Event>): History {
    if events == [] then h
    else
      var e := events[|events| - 1];
      FinalHistory(h, events[..|events| - 1]) + if e.Arrives? then e.snapshots else []
  }

  ghost function Apply(h: History, t: Tables, e: Event): Tables {
    match e
    case Arrives(_) => t
    case Refreshes(hour, tunnels) => AggregateHour(h, tunnels, t, hour)
  }

  ghost function Run(h: History, t: Tables, events: seq<Event>): Tables {
    if events == [] then t
    else
      var front := events[..|events| - 1];
      Apply(FinalHistory(h, front), Run(h, t, front), events[|events| - 1])
  }

  /** The last hour, at most `last`, that snapshots of the instance leave as it was. */
  function Unaffected(last: int, snapshots: History, k: Key): (r: int)
    ensures r <= last && NoneBefore(snapshots, k, (r + 1) * HOUR)
  {
    if snapshots == [] then last
    else
      var n := |snapshots| - 1;
      var r, s := Unaffected(last, snapshots[..n], k), snapshots[n];
      assert snapshots == snapshots[..n] + [s] && s in snapshots;
      if s.key == k && s.minute / HOUR - 1 < r then s.minute / HOUR - 1 else r
  }

  lemma {:induction false} UnaffectedIsLast(last: int, snapshots: History, k: Key, hour: int)
    ensures hour <= Unaffected(last, snapshots, k) <==> hour <= last && NoneBefore(snapshots, k, (hour + 1) * HOUR)
    decreases |snapshots|
  {
    if snapshots != [] {
      var n := |snapshots| - 1;
      UnaffectedIsLast(last, snapshots[..n], k, hour);
      assert snapshots == snapshots[..n] + [snapshots[n]];
    }
  }

  /** Up to which hour an instance is right after an event, if it was up to `last`. */
  function Advanced(last: int, e: Event, k: Key): int {
    match e
    case Arrives(snapshots) => Unaffected(last, snapshots, k)
    case Refreshes(hour, _) => if hour == last + 1 then hour else last
  }

  function Upto(last: int, events: seq<Event>, k: Key): int {
    if events == [] then last
    else Advanced(Upto(last, events[..|events| - 1], k), events[|events| - 1], k)
  }

  /** No event concerns an hour before `lo`. */
  predicate StartsAt(events: seq<Event>, lo: int, k: Key) {
    forall e :: e in events ==> if e.Arrives? then NoneBefore(e.snapshots, k, lo * HOUR) else lo <= e.hour
  }

  /** The instance's tunnel is there in every refresh, or in none; other tunnels may come and go. */
  predicate SamePresence(events: seq<Event>, tunnels: Option<set<Key>>, k: Key) {
    forall e :: e in events && e.Refreshes? ==> (TunnelPresent(e.tunnels, k) <==> TunnelPresent(tunnels, k))
  }

  /** If the hour has a row for the instance, so does an ascending pass. */
  ghost predicate HasSource(h: History, tunnels: Option<set<Key>>, before: map<Key, SummaryRow>,
                            t: Tables, lo: int, hour: int, k: Key) {
    k in RowsAt(t.summary, hour) ==> k in Batch(h, tunnels, before, lo, hour)
  }

  /**
   * For one instance the tables hold, for every hour lo..last, what an ascending pass over the whole history
   * computes, and later hours hold nothing without a source. Rows of other instances may be anything.
   */
  ghost predicate UpToDate(h: History, tunnels: Option<set<Key>>, before: map<Key, SummaryRow>,
                           t: Tables, lo: int, last: int, k: Key) {
    && lo <= last + 1
    && (forall hour :: lo - 1 <= hour <= last ==>
          RowOf(RowsAt(t.summary, hour), k) == RowOf(Batch(h, tunnels, before, lo, hour), k))
    && (forall hour :: last < hour ==> HasSource(h, tunnels, before, t, lo, hour, k))
  }

  lemma ArrivalKeepsUpToDate(h: History, tunnels: Option<set<Key>>, before: map<Key, SummaryRow>, t: Tables,
                             lo: int, last: int, snapshots: History, k: Key)
    requires UpToDate(h, tunnels, before, t, lo, last, k) && NoneBefore(snapshots, k, lo * HOUR)
    ensures UpToDate(h + snapshots, tunnels, before, t, lo, Unaffected(last, snapshots, k), k)
  {
    hide Batch, RowsAt;
    var r := Unaffected(last, snapshots, k);
    UnaffectedIsLast(last, snapshots, k, lo - 1);
    forall hour | lo - 1 <= hour <= r
      ensures RowOf(RowsAt(t.summary, hour), k) == RowOf(Batch(h + snapshots, tunnels, before, lo, hour), k) {
      BatchUnaffected(h, snapshots, tunnels, before, lo, hour, k);
    }
    forall hour | r < hour
      ensures HasSource(h + snapshots, tunnels, before, t, lo, hour, k) {
      BatchKeysGrow(h, snapshots, tunnels, before, lo, hour, k);
      assert hour <= last || HasSource(h, tunnels, before, t, lo, hour, k);
    }
  }

  /** The refreshed hour itself: right if the hour before is, and in any case with a source for its row. */
  lemma AggregateRepairsHour(h: History, now: Option<set<Key>>, tunnels: Option<set<Key>>,
                             before: map<Key, SummaryRow>, t: Tables, lo: int, hour: int, k: Key)
    requires lo <= hour && (TunnelPresent(now, k) <==> TunnelPresent(tunnels, k))
    requires HasSource(h, tunnels, before, t, lo, hour - 1, k) && HasSource(h, tunnels, before, t, lo, hour, k)
    ensures var t' := AggregateHour(h, now, t, hour);
            && HasSource(h, tunnels, before, t', lo, hour, k)
            && (RowOf(RowsAt(t.summary, hour - 1), k) == RowOf(Batch(h, tunnels, before, lo, hour - 1), k) ==>
                  RowOf(RowsAt(t'.summary, hour), k) == RowOf(Batch(h, tunnels, before, lo, hour), k))
            && forall other :: other != hour ==> RowsAt(t'.summary, other) == RowsAt(t.summary, other)
  {
    hide Refreshed, Batch, HourKeys, Stream;
    var prev, cur := RowsAt(t.summary, hour - 1), RowsAt(t.summary, hour);
    var batch := Batch(h, tunnels, before, lo, hour - 1);
    BatchStep(h, tunnels, before, lo, hour);
    ScratchKeys(h, tunnels, batch, hour, k);
    HourKeysAreStreams(h, k, hour);
    RefreshedRow(h, now, prev, cur, hour, k);
    if RowOf(prev, k) == RowOf(batch, k) {
      RefreshIsLocal(h, now, prev, cur, h, tunnels, batch, hour, k);
    }
  }

  lemma RefreshKeepsUpToDate(h: History, tunnels: Option<set<Key>>, before: map<Key, SummaryRow>, t: Tables,
                             lo: int, last: int, hour: int, now: Option<set<Key>>, k: Key)
    requires UpToDate(h, tunnels, before, t, lo, last, k) && lo <= hour
    requires TunnelPresent(now, k) <==> TunnelPresent(tunnels, k)
    ensures UpToDate(h, tunnels, before, AggregateHour(h, now, t, hour), lo, if hour == last + 1 then hour else last, k)
  {
    hide AggregateHour, Batch, RowsAt;
    assert HasSource(h, tunnels, before, t, lo, hour - 1, k);
    assert HasSource(h, tunnels, before, t, lo, hour, k);
    AggregateRepairsHour(h, now, tunnels, before, t, lo, hour, k);
    var t' := AggregateHour(h, now, t, hour);
    forall other | last < other
      ensures HasSource(h, tunnels, before, t', lo, other, k) {
      assert HasSource(h, tunnels, before, t, lo, other, k);
    }
  }

  /** The refresh theorem: whatever is written, whichever hours are refreshed, in whatever order, and however
      often a refresh fails, the summary table holds for an instance, in every hour up to `Upto`, exactly what
      one ascending pass over the final history computes. */
  lemma {:induction false} OnlineEqualsBatch(h: History, tunnels: Option<set<Key>>, before: map<Key, SummaryRow>,
                                             t: Tables, events: seq<Event>, lo: int, last: int, k: Key)
    requires UpToDate(h, tunnels, before, t, lo, last, k)
    requires StartsAt(events, lo, k) && SamePresence(events, tunnels, k)
    ensures UpToDate(FinalHistory(h, events), tunnels, before, Run(h, t, events), lo, Upto(last, events, k), k)
    decreases |events|
  {
    hide UpToDate, AggregateHour, NoneBefore;
    if events != [] {
      var front, e := events[..|events| - 1], events[|events| - 1];
      assert e in events && forall e' :: e' in front ==> e' in events;
      OnlineEqualsBatch(h, tunnels, before, t, front, lo, last, k);
      var h', t', m := FinalHistory(h, front), Run(h, t, front), Upto(last, front, k);
      if e.Arrives? {
        ArrivalKeepsUpToDate(h', tunnels, before, t', lo, m, e.snapshots, k);
      } else {
        RefreshKeepsUpToDate(h', tunnels, before, t', lo, m, e.hour, e.tunnels, k);
        assert h' + [] == h';
      }
    }
  }

  // ---------------------------------------------------------------- the schedule

  /** How a round of the scheduler ends: a failing first refresh keeps the second from being tried. */
  datatype Outcome = BothHours | FirstHourOnly | NoHour

  /** Snapshots that arrive, then a round during hour `now`. */
  datatype Round = Round(arrivals: History, now: int, tunnels: Option<set<Key>>, outcome: Outcome)

  function RefreshEvents(now: int, tunnels: Option<set<Key>>, outcome: Outcome): seq<Event> {
    match outcome
    case BothHours => [Refreshes(now - 1, tunnels), Refreshes(now, tunnels)]
    case FirstHourOnly => [Refreshes(now - 1, tunnels)]
    case NoHour => []
  }

  function EventsOf(rounds: seq<Round>): seq<Event> {
    if rounds == [] then []
    else
      var r := rounds[|rounds| - 1];
      EventsOf(rounds[..|rounds| - 1]) + ([Arrives(r.arrivals)] + RefreshEvents(r.now, r.tunnels, r.outcome))
  }

  lemma {:induction false} UptoConcat(last: int, a: seq<Event>, b: seq<Event>, k: Key)
    ensures Upto(last, a + b, k) == Upto(Upto(last, a, k), b, k)
    decreases |b|
  {
    if b == [] {
      assert a + b == a;
    } else {
      UptoConcat(last, a, b[..|b| - 1], k);
      assert (a + b)[..|a + b| - 1] == a + b[..|b| - 1];
    }
  }

  /** A round brings an instance up to the current hour exactly when both refreshes succeed and it was right,
      after what had arrived, up to two hours before; or was there already. */
  lemma RoundReachesIff(last: int, r: Round, k: Key)
    requires last <= r.now
    ensures var settled := Unaffected(last, r.arrivals, k);
            Upto(last, EventsOf([r]), k) == r.now <==>
            || settled == r.now
            || (r.outcome == BothHours && r.now - 2 <= settled)
  {
    hide Unaffected;
    var refreshes := RefreshEvents(r.now, r.tunnels, r.outcome);
    var settled := Unaffected(last, r.arrivals, k);
    assert EventsOf([r]) == [Arrives(r.arrivals)] + refreshes by { assert [r][..0] == []; }
    UptoConcat(last, [Arrives(r.arrivals)], refreshes, k);
    UptoOne(last, Arrives(r.arrivals), k);
    if r.outcome == BothHours {
      UptoConcat(settled, [refreshes[0]], [refreshes[1]], k);
      UptoOne(settled, refreshes[0], k);
      UptoOne(Advanced(settled, refreshes[0], k), refreshes[1], k);
      assert [refreshes[0]] + [refreshes[1]] == refreshes;
    } else if r.outcome == FirstHourOnly {
      UptoOne(settled, refreshes[0], k);
    }
  }

  lemma UptoOne(last: int, e: Event, k: Key)
    ensures Upto(last, [e], k) == Advanced(last, e, k)
  {
    assert [e][..0] == [];
  }

  function FinalHour(last: int, rounds: seq<Round>): int {
    if rounds == [] then last else rounds[|rounds| - 1].now
  }

  /** The undisturbed schedule: every round succeeds, at most two hours after the one before, and nothing of the
      instance arrives for an hour that the next round does not refresh. */
  predicate Timely(rounds: seq<Round>, last: int, k: Key) {
    rounds != [] ==>
      var front, r := rounds[..|rounds| - 1], rounds[|rounds| - 1];
      && r.outcome == BothHours
      && FinalHour(last, front) <= r.now <= FinalHour(last, front) + 2
      && NoneBefore(r.arrivals, k, (r.now - 1) * HOUR)
      && Timely(front, last, k)
  }

  /** On it every instance is right up to the hour of the last round. */
  lemma {:induction false} TimelyReaches(last: int, rounds: seq<Round>, k: Key)
    requires Timely(rounds, last, k)
    ensures Upto(last, EventsOf(rounds), k) == FinalHour(last, rounds) && last <= FinalHour(last, rounds)
    decreases |rounds|
  {
    hide Upto, NoneBefore, Unaffected, RefreshEvents;
    if rounds == [] {
      assert Upto(last, [], k) == last by { NoEvents(last, k); }
    } else {
      var front, r := rounds[..|rounds| - 1], rounds[|rounds| - 1];
      var before := FinalHour(last, front);
      TimelyReaches(last, front, k);
      RoundReachesIff(before, r, k);
      UnaffectedIsLast(before, r.arrivals, k, r.now - 2);
      assert [r][..0] == [];
      assert EventsOf([r]) == [Arrives(r.arrivals)] + RefreshEvents(r.now, r.tunnels, r.outcome);
      UptoConcat(last, EventsOf(front), EventsOf([r]), k);
    }
  }

  lemma NoEvents(last: int, k: Key)
    ensures Upto(last, [], k) == last
  {
  }

  // ------------------------------------------------------------------ the dashboard

  ghost predicate ShowsHour(t: Tables, hour: int) {
    match DashboardOf(RowsAt(t.summary, hour))
    case None => hour !in t.dashboard
    case Some(r) => hour in t.dashboard && t.dashboard[hour] == r
  }

  predicate RefreshesHour(events: seq<Event>, hour: int) {
    exists e :: e in events && e.Refreshes? && e.hour == hour
  }

  lemma AggregateShowsHour(h: History, tunnels: Option<set<Key>>, t: Tables, hour: int)
    ensures var t' := AggregateHour(h, tunnels, t, hour);
            ShowsHour(t', hour) && forall other :: other != hour && ShowsHour(t, other) ==> ShowsHour(t', other)
  {
    hide Refreshed;
  }

  /** The dashboard sums up, in every hour that was ever refreshed, whatever rows the hour has. */
  lemma {:induction false} RunShowsHours(h: History, t: Tables, events: seq<Event>, hour: int)
    requires ShowsHour(t, hour) || RefreshesHour(events, hour)
    ensures ShowsHour(Run(h, t, events), hour)
    decreases |events|
  {
    hide AggregateHour, ShowsHour;
    if events != [] {
      var n := |events| - 1;
      var front, e := events[..n], events[n];
      assert events == front + [e];
      if e.Refreshes? {
        AggregateShowsHour(FinalHistory(h, front), e.tunnels, Run(h, t, front), e.hour);
      }
      if !(e.Refreshes? && e.hour == hour) {
        assert ShowsHour(t, hour) || RefreshesHour(front, hour);
        RunShowsHours(h, t, front, hour);
      }
    }
  }

  /** Where no row of any instance lacks a source, both tables are those of the ascending pass. */
  lemma OnlineTablesEqualBatch(h: History, tunnels: Option<set<Key>>, before: map<Key, SummaryRow>,
                               t: Tables, events: seq<Event>, lo: int, last: int, hour: int)
    requires forall k ::
               && UpToDate(h, tunnels, before, t, lo, last, k)
               && StartsAt(events, lo, k) && SamePresence(events, tunnels, k)
               && hour <= Upto(last, events, k)
    requires lo <= hour && (ShowsHour(t, hour) || RefreshesHour(events, hour))
    ensures var end := Run(h, t, events);
            var rows := Batch(FinalHistory(h, events), tunnels, before, lo, hour);
            && RowsAt(end.summary, hour) == rows
            && (if hour in end.dashboard then Some(end.dashboard[hour]) else None) == DashboardOf(rows)
  {
    hide Batch, Run, Refreshed;
    var end := Run(h, t, events);
    var rows := Batch(FinalHistory(h, events), tunnels, before, lo, hour);
    forall k
      ensures RowOf(RowsAt(end.summary, hour), k) == RowOf(rows, k) {
      OnlineEqualsBatch(h, tunnels, before, t, events, lo, last, k);
    }
    SameRows(RowsAt(end.summary, hour), rows);
    RunShowsHours(h, t, events, hour);
    assert ShowsHour(end, hour);
  }

  // --------------------------------------------------------------------- start-up

  /** cleanInvalidDashboardTraffic: rows of hours that had no instance go. */
  function ValidDashboard(dashboard: map<int, DashboardRow>): map<int, DashboardRow> {
    map hour | hour in dashboard && dashboard[hour].instanceCount != 0 :: dashboard[hour]
  }

  lemma ValidDashboardRows(dashboard: map<int, DashboardRow>, hour: int)
    ensures hour in ValidDashboard(dashboard) <==> hour in dashboard && dashboard[hour].instanceCount > 0
    ensures hour in ValidDashboard(dashboard) ==> ValidDashboard(dashboard)[hour] == dashboard[hour]
  {
  }

  /** The refreshes of a start-up pass over lo..last, one hour after the other; those that fail are missing. */
  function PassEvents(lo: int, last: int, tunnels: Option<set<Key>>, failed: set<int>): seq<Event>
    decreases last - lo
  {
    if last < lo then []
    else PassEvents(lo, last - 1, tunnels, failed) + if last in failed then [] else [Refreshes(last, tunnels)]
  }

  /** The pass refreshes exactly the hours that do not fail. */
  lemma {:induction false} PassHolds(lo: int, last: int, tunnels: Option<set<Key>>, failed: set<int>, e: Event)
    ensures e in PassEvents(lo, last, tunnels, failed) <==>
            e.Refreshes? && e.tunnels == tunnels && lo <= e.hour <= last && e.hour !in failed
    decreases last - lo
  {
    if lo <= last {
      PassHolds(lo, last - 1, tunnels, failed, e);
    }
  }

  lemma PassRefreshes(lo: int, last: int, tunnels: Option<set<Key>>, failed: set<int>, hour: int)
    ensures RefreshesHour(PassEvents(lo, last, tunnels, failed), hour) <==> lo <= hour <= last && hour !in failed
  {
    hide PassEvents;
    PassHolds(lo, last, tunnels, failed, Refreshes(hour, tunnels));
    if RefreshesHour(PassEvents(lo, last, tunnels, failed), hour) {
      var e :| e in PassEvents(lo, last, tunnels, failed) && e.Refreshes? && e.hour == hour;
      PassHolds(lo, last, tunnels, failed, e);
    }
  }

  lemma {:induction false} PassReaches(lo: int, last: int, tunnels: Option<set<Key>>, k: Key)
    requires lo <= last + 1
    ensures Upto(lo - 1, PassEvents(lo, last, tunnels, {}), k) == last
    ensures StartsAt(PassEvents(lo, last, tunnels, {}), lo, k)
    ensures SamePresence(PassEvents(lo, last, tunnels, {}), tunnels, k)
    decreases last - lo
  {
    hide Upto;
    NoEvents(lo - 1, k);
    if lo <= last {
      PassReaches(lo, last - 1, tunnels, k);
      UptoConcat(lo - 1, PassEvents(lo, last - 1, tunnels, {}), [Refreshes(last, tunnels)], k);
      UptoOne(last - 1, Refreshes(last, tunnels), k);
    }
  }

  /** A start-up pass without failures brings an instance up to date, whatever sourced rows of its own and
      whatever rows of others an earlier process left. */
  lemma InitializeEstablishes(h: History, tunnels: Option<set<Key>>, before: map<Key, SummaryRow>,
                              t: Tables, lo: int, last: int, k: Key)
    requires lo <= last + 1
    requires RowOf(RowsAt(t.summary, lo - 1), k) == RowOf(before, k)
    requires forall hour :: lo <= hour ==> HasSource(h, tunnels, before, t, lo, hour, k)
    ensures var events := PassEvents(lo, last, tunnels, {});
            UpToDate(FinalHistory(h, events), tunnels, before, Run(h, t, events), lo, last, k)
  {
    hide Batch, Run, Upto;
    BatchStart(h, tunnels, before, lo);
    forall hour | lo - 1 < hour
      ensures HasSource(h, tunnels, before, t, lo, hour, k) {
    }
    PassReaches(lo, last, tunnels, k);
    OnlineEqualsBatch(h, tunnels, before, t, PassEvents(lo, last, tunnels, {}), lo, lo - 1, k);
  }

  // ------------------------------------------------- what the tables then conserve

  /** The increments of one instance as stored for hours lo..hi - 1. */
  function StoredIncrements(summary: Summary, k: Key, lo: int, hi: int): Counters
    decreases hi - lo
  {
    if hi <= lo then ZERO
    else Add(StoredIncrements(summary, k, lo, hi - 1), IncrementIn(RowsAt(summary, hi - 1), k))
  }

  lemma {:induction false} StoredIsBatch(h: History, tunnels: Option<set<Key>>, before: map<Key, SummaryRow>,
                                         t: Tables, lo: int, last: int, k: Key, hi: int)
    requires UpToDate(h, tunnels, before, t, lo, last, k)
    requires lo <= hi <= last + 1
    ensures StoredIncrements(t.summary, k, lo, hi) == IncrementSum(h, tunnels, before, k, lo, hi)
    decreases hi - lo
  {
    hide Batch, RowsAt;
    if lo < hi {
      StoredIsBatch(h, tunnels, before, t, lo, last, k, hi - 1);
      assert RowOf(RowsAt(t.summary, hi - 1), k) == RowOf(Batch(h, tunnels, before, lo, hi - 1), k);
    }
  }

  /** After any run, in the hours up to `Upto`, each counter's stored increments of a present instance add up to
      last minus first plus its pre-reset values, over everything that was ever recorded for those hours. */
  lemma RunConservesTraffic(h: History, tunnels: Option<set<Key>>, before: map<Key, SummaryRow>, t: Tables,
                            events: seq<Event>, lo: int, last: int, k: Key, c: Counter)
    requires UpToDate(h, tunnels, before, t, lo, last, k)
    requires StartsAt(events, lo, k) && SamePresence(events, tunnels, k) && TunnelPresent(tunnels, k)
    ensures var end := Upto(last, events, k) + 1;
            var stream := Stream(FinalHistory(h, events), k, lo * HOUR, end * HOUR);
            var column := Column(Whole(PrevTotal(before, k), stream), c);
            Get(StoredIncrements(Run(h, t, events).summary, k, lo, end), c) ==
            if column == [] then 0 else column[|column| - 1] - column[0] + PreResetSum(column)
  {
    hide Batch, Run, Stream, IncrementSum, StoredIncrements, PreResetSum;
    OnlineEqualsBatch(h, tunnels, before, t, events, lo, last, k);
    var h', t', end := FinalHistory(h, events), Run(h, t, events), Upto(last, events, k) + 1;
    StoredIsBatch(h', tunnels, before, t', lo, end - 1, k, end);
    HourlyIncrementsConserveTraffic(h', tunnels, before, k, lo, end, c);
  }
}
