/** What is lost when refreshes fail, or the clock moves on, for so long that hours are never rolled up. */
module TrafficGaps {
  import opened Options
  import opened TrafficModel
  import opened TrafficProofs
  import opened TrafficRefresh

  /** What a first snapshot is charged, against a baseline if there is one. */
  function FirstCharge(start: Option<Counters>, later: seq<Counters>): Counters {
    if later == [] then ZERO else match start { case Some(b) => Delta(later[0], b) case None => ZERO }
  }

  function Subtract(a: Counters, b: Counters): Counters {
    Counters(a.tcpRx - b.tcpRx, a.tcpTx - b.tcpTx, a.udpRx - b.udpRx, a.udpTx - b.udpTx)
  }

  /**
   * What is lost: of the skipped hours their charge from the last total, less what was stored for them; of the
   * hours after them the charge of the first snapshot against the baseline the skipped ones leave, less its
   * charge against the total that was carried over, if any.
   */
  function GapLoss(total: Option<Counters>, skipped: seq<Counters>, stored: Counters, carried: Option<Counters>,
                   later: seq<Counters>): Counters {
    Add(Subtract(Charged(total, skipped), stored),
        Subtract(FirstCharge(Baseline(total, skipped), later), FirstCharge(carried, later)))
  }

  /** The baseline matters to the first snapshot alone. */
  lemma {:induction false} OnlyFirstCharge(start: Option<Counters>, later: seq<Counters>)
    ensures Charged(start, later) == Add(FirstCharge(start, later), Charged(None, later))
    decreases |later|
  {
    hide Charged, Delta, Add;
    if |later| <= 1 {
      NothingCharged();
      AddZero(FirstCharge(start, later));
      if later != [] {
        assert later == [later[0]];
        ChargedOne(start, later[0]);
        ChargedOne(None, later[0]);
      }
    } else {
      var front, v := later[..|later| - 1], later[|later| - 1];
      assert later == front + [v];
      OnlyFirstCharge(start, front);
      ChargedSnoc(start, front, v);
      ChargedSnoc(None, front, v);
      AddAssociates(FirstCharge(start, front), Charged(None, front), Delta(v, front[|front| - 1]));
    }
  }

  lemma AddZero(v: Counters)
    ensures Add(ZERO, v) == v && Add(v, ZERO) == v
  {
  }

  lemma ChargedOne(start: Option<Counters>, v: Counters)
    ensures Charged(start, [v]) == match start { case None => ZERO case Some(b) => Delta(v, b) }
    ensures Baseline(start, [v]) == Some(v)
  {
    hide Delta;
    assert [v][..0] == [];
    NothingCharged();
    assert Baseline(start, []) == start;
  }

  lemma NothingCharged()
    ensures forall start :: Charged(start, []) == ZERO
  {
  }

  lemma ChargedAcrossGap(start: Option<Counters>, a: seq<Counters>, skipped: seq<Counters>, later: seq<Counters>,
                         stored: Counters, carried: Option<Counters>)
    ensures Charged(start, a + skipped + later) ==
            Add(Add(Add(Charged(start, a), stored), Charged(carried, later)),
                GapLoss(Baseline(start, a), skipped, stored, carried, later))
  {
    hide Charged, Delta, Baseline, FirstCharge;
    var total := Baseline(start, a);
    ChargedSplit(start, a + skipped, later);
    ChargedSplit(start, a, skipped);
    OnlyFirstCharge(Baseline(total, skipped), later);
    OnlyFirstCharge(carried, later);
  }

  lemma {:induction false} RunKeepsEarlier(h: History, t: Tables, events: seq<Event>, first: int, hour: int, k: Key)
    requires StartsAt(events, first, k) && hour < first
    ensures RowsAt(Run(h, t, events).summary, hour) == RowsAt(t.summary, hour)
    decreases |events|
  {
    hide NoneBefore, Refreshed, DashboardRefreshed;
    if events != [] {
      var front, e := events[..|events| - 1], events[|events| - 1];
      assert e in events && forall e' :: e' in front ==> e' in events;
      RunKeepsEarlier(h, t, front, first, hour, k);
    }
  }

  lemma {:induction false} UptoAtLeast(last: int, events: seq<Event>, first: int, k: Key)
    requires StartsAt(events, first, k) && last < first
    ensures Upto(last, events, k) >= last
    decreases |events|
  {
    hide NoneBefore, Unaffected;
    if events != [] {
      var front, e := events[..|events| - 1], events[|events| - 1];
      assert e in events && forall e' :: e' in front ==> e' in events;
      UptoAtLeast(last, front, first, k);
      if e.Arrives? {
        assert NoneBefore(e.snapshots, k, (last + 1) * HOUR) by { EarlierStill(e.snapshots, k, first, last + 1); }
        UnaffectedIsLast(Upto(last, front, k), e.snapshots, k, last);
      }
    }
  }

  lemma EarlierStill(snapshots: History, k: Key, first: int, hour: int)
    requires NoneBefore(snapshots, k, first * HOUR) && hour <= first
    ensures NoneBefore(snapshots, k, hour * HOUR)
  {
  }

  lemma UnaffectedAtMost(last: int, snapshots: History, k: Key)
    ensures Unaffected(last, snapshots, k) <= last
  {
  }

  lemma StoredStep(summary: Summary, k: Key, lo: int, hi: int)
    ensures StoredIncrements(summary, k, lo, hi) ==
            if hi <= lo then ZERO
            else Add(StoredIncrements(summary, k, lo, hi - 1), IncrementIn(RowsAt(summary, hi - 1), k))
  {
  }

  lemma {:induction false} StoredSplit(summary: Summary, k: Key, lo: int, mid: int, hi: int)
    requires lo <= mid <= hi
    ensures StoredIncrements(summary, k, lo, hi) ==
            Add(StoredIncrements(summary, k, lo, mid), StoredIncrements(summary, k, mid, hi))
    decreases hi - mid
  {
    hide StoredIncrements, RowsAt, IncrementIn;
    StoredStep(summary, k, mid, hi);
    if mid < hi {
      StoredSplit(summary, k, lo, mid, hi - 1);
      StoredStep(summary, k, lo, hi);
    }
  }

  lemma {:induction false} StoredAlike(a: Summary, b: Summary, k: Key, lo: int, hi: int)
    requires forall hour :: lo <= hour < hi ==> RowsAt(a, hour) == RowsAt(b, hour)
    ensures StoredIncrements(a, k, lo, hi) == StoredIncrements(b, k, lo, hi)
    decreases hi - lo
  {
    hide RowsAt, StoredIncrements, IncrementIn;
    StoredStep(a, k, lo, hi);
    StoredStep(b, k, lo, hi);
    if lo < hi {
      StoredAlike(a, b, k, lo, hi - 1);
    }
  }

  /**
   * An instance was right up to hour `last` when the refreshes stopped, while snapshots may still have been
   * written; they begin again at hour `first`, after which they go on in whatever way. In between there may be
   * a row that was refreshed too early, or none.
   */
  ghost predicate AfterGap(h: History, tunnels: Option<set<Key>>, before: map<Key, SummaryRow>, t: Tables,
                           events: seq<Event>, lo: int, last: int, first: int, k: Key) {
    && UpToDate(h, tunnels, before, t, lo, last, k) && last < first
    && (forall hour :: first <= hour ==> k !in RowsAt(t.summary, hour))
    && StartsAt(events, first, k) && SamePresence(events, tunnels, k) && TunnelPresent(tunnels, k)
  }

  /** The hours before `first` stay as they were, and the others become those of a pass that starts from the rows
      of the hour before. */
  lemma RowsAcrossGap(h: History, tunnels: Option<set<Key>>, before: map<Key, SummaryRow>, t: Tables,
                      events: seq<Event>, lo: int, last: int, first: int, k: Key)
    requires AfterGap(h, tunnels, before, t, events, lo, last, first, k)
    ensures var h', t' := FinalHistory(h, events), Run(h, t, events);
            && last <= Upto(last, events, k) && UpToDate(h', tunnels, before, t', lo, Upto(last, events, k), k)
            && UpToDate(h', tunnels, RowsAt(t.summary, first - 1), t', first, Upto(first - 1, events, k), k)
            && forall hour :: hour < first ==> RowsAt(t'.summary, hour) == RowsAt(t.summary, hour)
  {
    hide Batch, Run, Upto, NoneBefore, RowsAt;
    forall e | e in events && e.Arrives?
      ensures NoneBefore(e.snapshots, k, lo * HOUR) {
      EarlierStill(e.snapshots, k, first, lo);
    }
    OnlineEqualsBatch(h, tunnels, before, t, events, lo, last, k);
    UptoAtLeast(last, events, first, k);
    BatchStart(h, tunnels, RowsAt(t.summary, first - 1), first);
    OnlineEqualsBatch(h, tunnels, RowsAt(t.summary, first - 1), t, events, first, first - 1, k);
    forall hour | hour < first
      ensures RowsAt(Run(h, t, events).summary, hour) == RowsAt(t.summary, hour) {
      RunKeepsEarlier(h, t, events, first, hour, k);
    }
  }

  /** The loss of one instance by such a gap, from its own rows and snapshots. */
  function LossAcross(h: History, summary: Summary, k: Key, last: int, first: int, end: int): Counters {
    GapLoss(PrevTotal(RowsAt(summary, last), k), Stream(h, k, (last + 1) * HOUR, first * HOUR),
            StoredIncrements(summary, k, last + 1, first), PrevTotal(RowsAt(summary, first - 1), k),
            Stream(h, k, first * HOUR, end * HOUR))
  }

  /** The exact loss: what the tables hold over the whole range and what they lost make up the charge of
      everything that was recorded. */
  lemma GapLosesExactly(h: History, tunnels: Option<set<Key>>, before: map<Key, SummaryRow>, t: Tables,
                        events: seq<Event>, lo: int, last: int, first: int, k: Key)
    requires AfterGap(h, tunnels, before, t, events, lo, last, first, k)
    ensures var h', end := FinalHistory(h, events), Upto(first - 1, events, k) + 1;
            && first <= end
            && Add(StoredIncrements(Run(h, t, events).summary, k, lo, end),
                   LossAcross(h', t.summary, k, last, first, end)) ==
               IncrementSum(h', tunnels, before, k, lo, end)
  {
    hide Batch, Run, Upto, RowsAt, Stream, IncrementSum, StoredIncrements, Charged, Baseline, GapLoss, PrevTotal;
    var h', t', end := FinalHistory(h, events), Run(h, t, events), Upto(first - 1, events, k) + 1;
    RowsAcrossGap(h, tunnels, before, t, events, lo, last, first, k);
    var a := Stream(h', k, lo * HOUR, (last + 1) * HOUR);
    var skipped, later := Stream(h', k, (last + 1) * HOUR, first * HOUR), Stream(h', k, first * HOUR, end * HOUR);
    var start, carried := PrevTotal(before, k), RowsAt(t.summary, first - 1);
    StoredSplit(t'.summary, k, lo, last + 1, end);
    StoredSplit(t'.summary, k, last + 1, first, end);
    StoredAlike(t'.summary, t.summary, k, last + 1, first);
    StoredIsBatch(h', tunnels, before, t', lo, Upto(last, events, k), k, last + 1);
    StoredIsBatch(h', tunnels, carried, t', first, end - 1, k, end);
    BatchFollowsStream(h', tunnels, before, k, lo, last + 1);
    BatchFollowsStream(h', tunnels, carried, k, first, end);
    BatchFollowsStream(h', tunnels, before, k, lo, end);
    StreamSplit(h', k, lo * HOUR, (last + 1) * HOUR, end * HOUR);
    StreamSplit(h', k, (last + 1) * HOUR, first * HOUR, end * HOUR);
    assert a + (skipped + later) == a + skipped + later;
    assert PrevTotal(RowsAt(t.summary, last), k) == Baseline(start, a) by {
      SameTotal(RowsAt(t'.summary, last), Batch(h', tunnels, before, lo, last), k);
    }
    var stored := StoredIncrements(t.summary, k, last + 1, first);
    ChargedAcrossGap(start, a, skipped, later, stored, PrevTotal(carried, k));
  }

  lemma SameTotal(a: map<Key, SummaryRow>, b: map<Key, SummaryRow>, k: Key)
    requires RowOf(a, k) == RowOf(b, k)
    ensures PrevTotal(a, k) == PrevTotal(b, k)
  {
  }

  lemma NoTotal(k: Key)
    ensures PrevTotal(map[], k) == None
  {
  }

  /** After a gap a counter is conserved, as without one, exactly when its part of the loss is zero. */
  lemma GapConservesIff(h: History, tunnels: Option<set<Key>>, before: map<Key, SummaryRow>, t: Tables,
                        events: seq<Event>, lo: int, last: int, first: int, k: Key, c: Counter)
    requires AfterGap(h, tunnels, before, t, events, lo, last, first, k)
    ensures var h', end := FinalHistory(h, events), Upto(first - 1, events, k) + 1;
            var column := Column(Whole(PrevTotal(before, k), Stream(h', k, lo * HOUR, end * HOUR)), c);
            Get(StoredIncrements(Run(h, t, events).summary, k, lo, end), c) ==
            (if column == [] then 0 else column[|column| - 1] - column[0] + PreResetSum(column)) <==>
            Get(LossAcross(h', t.summary, k, last, first, end), c) == 0
  {
    hide Batch, Run, Upto, Stream, IncrementSum, StoredIncrements, LossAcross, PrevTotal, PreResetSum;
    var h', end := FinalHistory(h, events), Upto(first - 1, events, k) + 1;
    GapLosesExactly(h, tunnels, before, t, events, lo, last, first, k);
    HourlyIncrementsConserveTraffic(h', tunnels, before, k, lo, end, c);
  }

  // ---------------------------------------------------- a concrete gap, and its loss

  lemma {:induction false} StreamOfOne(h: History, k: Key, lo: int, hi: int, i: nat)
    requires i < |h| && h[i].key == k && lo <= h[i].minute < hi
    requires forall j :: 0 <= j < |h| && j != i && h[j].key == k ==> !(lo <= h[j].minute < hi)
    ensures Stream(h, k, lo, hi) == [h[i].values]
    decreases hi - lo
  {
    hide LastAt;
    LastAtIsNewest(h, k, hi - 1);
    if h[i].minute == hi - 1 {
      assert NewestOfMinute(h, i);
      StreamOfNone(h, k, lo, hi - 1);
    } else {
      StreamOfOne(h, k, lo, hi - 1, i);
    }
  }

  lemma {:induction false} StreamOfNone(h: History, k: Key, lo: int, hi: int)
    requires forall j :: 0 <= j < |h| && h[j].key == k ==> !(lo <= h[j].minute < hi)
    ensures Stream(h, k, lo, hi) == []
    decreases hi - lo
  {
    hide LastAt;
    if lo < hi {
      LastAtIsNewest(h, k, hi - 1);
      StreamOfNone(h, k, lo, hi - 1);
    }
  }

  function Received(n: int): Counters {
    Counters(n, 0, 0, 0)
  }

  const INSTANCE := Key(1, "a")

  function At(minute: int, n: int): Snapshot {
    Snapshot(INSTANCE, minute, Received(n))
  }

  function NothingStoredYet(): Tables {
    Tables(map[], map[])
  }

  /** Hour 0 is refreshed at a counter of 10. In hours 2 and 3, while no refresh succeeds, the counter reaches 100,
      is reset and reaches 5. Then a round during hour 5 finds 30 in hour 4. */
  function BeforeGap(): History {
    [At(0, 10), At(120, 100), At(180, 5)]
  }

  function LateRound(): Round {
    Round([At(240, 30)], 5, Some({INSTANCE}), BothHours)
  }

  lemma UpToDateBeforeGap() returns (t: Tables)
    ensures t == Run([At(0, 10)], NothingStoredYet(), [Refreshes(0, Some({INSTANCE}))])
    ensures UpToDate(BeforeGap(), Some({INSTANCE}), map[], t, 0, 0, INSTANCE)
    ensures forall hour :: 0 < hour ==> INSTANCE !in RowsAt(t.summary, hour)
  {
    hide Batch, Refreshed, DashboardRefreshed;
    var tunnels, h0, empty := Some({INSTANCE}), [At(0, 10)], NothingStoredYet();
    var event := Refreshes(0, tunnels);
    t := Run(h0, empty, [event]);
    assert [event][..0] == [];
    BatchStart(h0, tunnels, map[], 0);
    assert UpToDate(h0, tunnels, map[], empty, 0, -1, INSTANCE);
    OnlineEqualsBatch(h0, tunnels, map[], empty, [event], 0, -1, INSTANCE);
    UptoOne(-1, event, INSTANCE);
    var arrivals := [At(120, 100), At(180, 5)];
    assert FinalHistory(h0, [event]) == h0 by { assert h0 + [] == h0; }
    ArrivalKeepsUpToDate(h0, tunnels, map[], t, 0, 0, arrivals, INSTANCE);
    UnaffectedIsLast(0, arrivals, INSTANCE, 0);
    UnaffectedAtMost(0, arrivals, INSTANCE);
    assert h0 + arrivals == BeforeGap();
  }

  lemma LossOfFour(a: Counters, x: Counters, y: Counters, z: Counters)
    ensures GapLoss(Some(a), [x, y], ZERO, None, [z]) == Add(Add(Delta(x, a), Delta(y, x)), Delta(z, y))
    ensures Charged(None, [a] + [x, y] + [z]) == GapLoss(Some(a), [x, y], ZERO, None, [z])
  {
    hide Charged, Baseline, Delta, Add, Subtract, GapLoss;
    ChargedOne(Some(a), x);
    ChargedOne(Some(x), y);
    ChargedSplit(Some(a), [x], [y]);
    assert [x] + [y] == [x, y];
    LossOfTwo(Some(a), [x, y], [z]);
    ChargedAcrossGap(None, [a], [x, y], [z], ZERO, None);
    ChargedOne(None, a);
    ChargedOne(None, z);
    AddZero(ZERO);
    AddZero(GapLoss(Some(a), [x, y], ZERO, None, [z]));
  }

  lemma LossOfTwo(total: Option<Counters>, skipped: seq<Counters>, later: seq<Counters>)
    ensures GapLoss(total, skipped, ZERO, None, later) ==
            Add(Charged(total, skipped), FirstCharge(Baseline(total, skipped), later))
  {
    hide Charged, Baseline, Delta;
  }

  lemma LossOfThatGap()
    ensures GapLoss(Some(Received(10)), [Received(100), Received(5)], ZERO, None, [Received(30)]) == Received(120)
    ensures Charged(None, [Received(10)] + [Received(100), Received(5)] + [Received(30)]) == Received(120)
  {
    hide Charged, GapLoss, Delta, Add, Received;
    LossOfFour(Received(10), Received(100), Received(5), Received(30));
    DeltaReceived(100, 10);
    DeltaReceived(5, 100);
    DeltaReceived(30, 5);
    AddReceived(90, 5);
    AddReceived(95, 25);
  }

  lemma DeltaReceived(n: int, b: int)
    ensures Delta(Received(n), Received(b)) == Received(if n >= b then n - b else n)
  {
  }

  lemma AddReceived(m: int, n: int)
    ensures Add(Received(m), Received(n)) == Received(m + n)
  {
  }

  /** Nothing is stored of the 120 that the instance received: 90 before the reset, 5 after it, and 25 more. */
  lemma GapLosesTraffic() returns (t: Tables)
    ensures t == Run([At(0, 10)], NothingStoredYet(), [Refreshes(0, Some({INSTANCE}))])
    ensures UpToDate(BeforeGap(), Some({INSTANCE}), map[], t, 0, 0, INSTANCE)
    ensures var events := EventsOf([LateRound()]);
            && Upto(3, events, INSTANCE) == 5
            && StoredIncrements(Run(BeforeGap(), t, events).summary, INSTANCE, 0, 6) == ZERO
            && IncrementSum(FinalHistory(BeforeGap(), events), Some({INSTANCE}), map[], INSTANCE, 0, 6) == Received(120)
  {
    hide Batch, Run, Upto, RowsAt, Stream, IncrementSum, StoredIncrements, Charged, GapLoss, Refreshed, UpToDate,
         FinalHistory, BeforeGap, Received, PrevTotal, Add;
    var k, tunnels, round := INSTANCE, Some({INSTANCE}), LateRound();
    t := UpToDateBeforeGap();
    var events := EventsOf([round]);
    assert events == [Arrives(round.arrivals), Refreshes(4, tunnels), Refreshes(5, tunnels)] by {
      assert [round][..0] == [];
    }
    RoundReachesIff(3, round, k);
    UnaffectedIsLast(3, round.arrivals, k, 3);
    assert StartsAt(events, 4, k) && SamePresence(events, tunnels, k);
    assert AfterGap(BeforeGap(), tunnels, map[], t, events, 0, 0, 4, k);
    GapLosesExactly(BeforeGap(), tunnels, map[], t, events, 0, 0, 4, k);
    var h' := FinalHistory(BeforeGap(), events);
    HistoryAfterGap();
    StreamsAcrossGap();
    RowsAcrossGap(BeforeGap(), tunnels, map[], t, events, 0, 0, 4, k);
    TotalBeforeGap(h', tunnels, Run(BeforeGap(), t, events), Upto(0, events, k), t);
    NothingStored(t.summary, k, 1, 4);
    LossOfThatGap();
    WholeCharge(h', tunnels);
    NothingIsLeft(StoredIncrements(Run(BeforeGap(), t, events).summary, k, 0, 6), 120);
  }

  lemma {:induction false} NothingStored(summary: Summary, k: Key, lo: int, hi: int)
    requires forall hour :: lo <= hour < hi ==> k !in RowsAt(summary, hour)
    ensures StoredIncrements(summary, k, lo, hi) == ZERO
    ensures forall hour :: lo <= hour < hi ==> PrevTotal(RowsAt(summary, hour), k) == None
    decreases hi - lo
  {
    hide RowsAt;
    if lo < hi {
      NothingStored(summary, k, lo, hi - 1);
    }
  }

  lemma NothingIsLeft(stored: Counters, n: int)
    requires Add(stored, Received(n)) == Received(n)
    ensures stored == ZERO
  {
  }

  lemma StreamsAcrossGap()
    ensures var h := [At(0, 10), At(120, 100), At(180, 5), At(240, 30)];
            && Stream(h, INSTANCE, 0, 60) == [Received(10)]
            && Stream(h, INSTANCE, 60, 240) == [Received(100), Received(5)]
            && Stream(h, INSTANCE, 240, 360) == [Received(30)]
  {
    hide Stream;
    var h := [At(0, 10), At(120, 100), At(180, 5), At(240, 30)];
    StreamOfOne(h, INSTANCE, 0, 60, 0);
    StreamOfOne(h, INSTANCE, 60, 180, 1);
    StreamOfOne(h, INSTANCE, 180, 240, 2);
    StreamSplit(h, INSTANCE, 60, 180, 240);
    StreamOfOne(h, INSTANCE, 240, 360, 3);
  }

  lemma HistoryStep(h: History, front: seq<Event>, e: Event)
    ensures FinalHistory(h, front + [e]) == FinalHistory(h, front) + if e.Arrives? then e.snapshots else []
  {
    assert (front + [e])[..|front|] == front;
  }

  lemma HistoryAfterGap()
    ensures FinalHistory(BeforeGap(), EventsOf([LateRound()])) == [At(0, 10), At(120, 100), At(180, 5), At(240, 30)]
  {
    hide FinalHistory;
    var h, round := BeforeGap(), LateRound();
    var e0, e1, e2 := Arrives(round.arrivals), Refreshes(4, round.tunnels), Refreshes(5, round.tunnels);
    assert EventsOf([round]) == [e0, e1, e2] by { assert [round][..0] == []; }
    HistoryStep(h, [], e0);
    HistoryStep(h, [e0], e1);
    HistoryStep(h, [e0, e1], e2);
    assert [] + [e0] == [e0] && [e0] + [e1] == [e0, e1] && [e0, e1] + [e2] == [e0, e1, e2];
    assert FinalHistory(h, []) == h by { NoHistory(h); }
  }

  lemma NoHistory(h: History)
    ensures FinalHistory(h, []) == h
  {
  }

  lemma TotalBeforeGap(h: History, tunnels: Option<set<Key>>, end: Tables, last: int, t: Tables)
    requires UpToDate(h, tunnels, map[], end, 0, last, INSTANCE) && 0 <= last && TunnelPresent(tunnels, INSTANCE)
    requires RowsAt(end.summary, 0) == RowsAt(t.summary, 0)
    requires Stream(h, INSTANCE, 0, 60) == [Received(10)]
    ensures PrevTotal(RowsAt(t.summary, 0), INSTANCE) == Some(Received(10))
  {
    hide Batch, Stream, IncrementSum, RowsAt, PrevTotal, RowOf;
    BatchFollowsStream(h, tunnels, map[], INSTANCE, 0, 1);
    SameTotal(RowsAt(end.summary, 0), Batch(h, tunnels, map[], 0, 0), INSTANCE);
  }

  lemma WholeCharge(h: History, tunnels: Option<set<Key>>)
    requires Stream(h, INSTANCE, 0, 60) == [Received(10)] && Stream(h, INSTANCE, 240, 360) == [Received(30)]
    requires Stream(h, INSTANCE, 60, 240) == [Received(100), Received(5)] && TunnelPresent(tunnels, INSTANCE)
    ensures IncrementSum(h, tunnels, map[], INSTANCE, 0, 6) == Received(120)
  {
    hide Batch, Stream, IncrementSum, Charged, Baseline, Received, PrevTotal, GapLoss;
    BatchFollowsStream(h, tunnels, map[], INSTANCE, 0, 6);
    StreamSplit(h, INSTANCE, 0, 60, 360);
    StreamSplit(h, INSTANCE, 60, 240, 360);
    var a, skipped, later := [Received(10)], [Received(100), Received(5)], [Received(30)];
    assert a + (skipped + later) == a + skipped + later;
    NoTotal(INSTANCE);
    LossOfThatGap();
  }
}
