/** Writing the endpoint cache back while it goes on changing: the program holds no lock from the collection of
    the dirty ids to the moment their marks are removed. */
module EndpointPersist {
  import opened Options
  import E = EndpointShared

  /** A write-back under way: ids still to be written, rows as its open transaction has them, and whether it
      has committed, so that only the removal of the marks is left. */
  datatype Flush = Flush(todo: set<nat>, writes: map<nat, E.Columns>, committed: bool)

  datatype State = State(cached: map<nat, E.Columns>, rows: map<nat, E.Columns>, dirty: set<nat>,
                         flush: Option<Flush>)

  datatype Step =
    | Changes(id: nat, columns: E.Columns)
    | Begins
    | Writes(id: nat)
    | Commits
    | Fails
    | Clears

  /** A change sets one of the two times, to a later one, and forgets nothing that was known. */
  predicate Later(before: E.Columns, after: E.Columns) {
    && before.lastCheck + before.updatedAt < after.lastCheck + after.updatedAt
    && E.NothingUnknown(after.info, before.info)
  }

  predicate Enabled(st: State, s: Step) {
    match s
    case Changes(id, columns) => id in st.cached && Later(st.cached[id], columns)
    case Begins => st.flush.None? && st.dirty != {}
    case Writes(id) => st.flush.Some? && !st.flush.value.committed && id in st.flush.value.todo
    case Commits => st.flush.Some? && !st.flush.value.committed && st.flush.value.todo == {}
    case Fails => st.flush.Some? && !st.flush.value.committed
    case Clears => st.flush.Some? && st.flush.value.committed
  }

  function Next(st: State, s: Step): State
    requires Enabled(st, s)
  {
    match s
    case Changes(id, columns) => st.(cached := st.cached[id := columns], dirty := st.dirty + {id})
    case Begins => st.(flush := Some(Flush(st.dirty, map[], false)))
    case Writes(id) =>
      var f := st.flush.value;
      var writes := if id in st.cached && id in st.rows
                    then f.writes[id := E.Write(st.rows[id], st.cached[id])] else f.writes;
      st.(flush := Some(Flush(f.todo - {id}, writes, false)))
    case Commits => st.(rows := st.rows + st.flush.value.writes, flush := Some(st.flush.value.(committed := true)))
    case Fails => st.(flush := None)
    case Clears => st.(dirty := {}, flush := None)
  }

  predicate Legal(st: State, steps: seq<Step>)
    decreases |steps|
  {
    steps == [] || (Enabled(st, steps[0]) && Legal(Next(st, steps[0]), steps[1..]))
  }

  function After(st: State, steps: seq<Step>): State
    requires Legal(st, steps)
    decreases |steps|
  {
    if steps == [] then st else After(Next(st, steps[0]), steps[1..])
  }

  /** The row and the cache hold the same. */
  predicate Agrees(st: State, id: nat) {
    id in st.rows && id in st.cached && st.rows[id] == st.cached[id]
  }

  // ------------------------------------------------------- what the steps say of one endpoint

  /** Whether the row was written after the last change; whether the open transaction has written it, and after
      the last change; whether there was a change after the marks were last removed. */
  datatype Track = Track(current: bool, flight: Option<bool>, marked: bool)

  function Tracked(t: Track, s: Step, id: nat): Track {
    match s
    case Changes(x, _) =>
      if x == id then Track(false, if t.flight.Some? then Some(false) else None, true) else t
    case Begins => t.(flight := None)
    case Writes(x) => if x == id then t.(flight := Some(true)) else t
    case Commits => t.(current := if t.flight.Some? then t.flight.value else t.current)
    case Fails => t.(flight := None)
    case Clears => t.(flight := None, marked := false)
  }

  function TrackOf(t: Track, steps: seq<Step>, id: nat): Track
    decreases |steps|
  {
    if steps == [] then t else TrackOf(Tracked(t, steps[0], id), steps[1..], id)
  }

  /** `stored` is what the cache holds if `same`, and an older state of it if not. */
  predicate Follows(stored: E.Columns, cached: E.Columns, same: bool) {
    && E.NothingUnknown(cached.info, stored.info)
    && if same then stored == cached
       else stored.lastCheck + stored.updatedAt < cached.lastCheck + cached.updatedAt
  }

  predicate TrackedBy(st: State, t: Track, id: nat) {
    && id in st.cached && id in st.rows
    && Follows(st.rows[id], st.cached[id], t.current)
    && (id in st.dirty <==> t.marked)
    && (t.flight.Some? <==> st.flush.Some? && id in st.flush.value.writes)
    && (t.flight.Some? ==> Follows(st.flush.value.writes[id], st.cached[id], t.flight.value))
    && (st.flush.Some? && st.flush.value.committed && t.flight.Some? ==> t.current == t.flight.value)
  }

  lemma StepIsTracked(st: State, t: Track, s: Step, id: nat)
    requires TrackedBy(st, t, id) && Enabled(st, s)
    ensures TrackedBy(Next(st, s), Tracked(t, s, id), id)
  {
    hide E.Write;
    if s.Writes? && s.id == id {
      E.WriteAgreesIff(st.rows[id], st.cached[id]);
    }
  }

  /** Over any run: the row of an endpoint agrees with the cache exactly when it was written, by a transaction
      that committed, after the last change; and the endpoint is marked exactly when it changed after the marks
      were last removed. */
  lemma {:induction false} RowAgreesIff(st: State, t: Track, steps: seq<Step>, id: nat)
    requires TrackedBy(st, t, id) && Legal(st, steps)
    ensures TrackedBy(After(st, steps), TrackOf(t, steps, id), id)
    ensures var end := After(st, steps);
            && (Agrees(end, id) <==> TrackOf(t, steps, id).current)
            && (id in end.dirty <==> TrackOf(t, steps, id).marked)
    decreases |steps|
  {
    hide Enabled, Next, Tracked, E.NothingUnknown;
    if steps != [] {
      StepIsTracked(st, t, steps[0], id);
      RowAgreesIff(Next(st, steps[0]), Tracked(t, steps[0], id), steps[1..], id);
    }
  }

  // ---------------------------------------------------------------- one whole write-back

  predicate Quiet(steps: seq<Step>, id: nat) {
    forall s :: s in steps && s.Changes? ==> s.id != id
  }

  /** Nothing but changes and statements of the open transaction. */
  predicate Inside(steps: seq<Step>) {
    forall s :: s in steps ==> s.Changes? || s.Writes?
  }

  predicate Unwritten(steps: seq<Step>, id: nat) {
    forall s :: s in steps && s.Writes? ==> s.id != id
  }

  lemma {:induction false} TrackConcat(t: Track, a: seq<Step>, b: seq<Step>, id: nat)
    ensures TrackOf(t, a + b, id) == TrackOf(TrackOf(t, a, id), b, id)
    decreases |a|
  {
    hide Tracked;
    if a == [] {
      assert a + b == b;
    } else {
      assert (a + b)[1..] == a[1..] + b;
      TrackConcat(Tracked(t, a[0], id), a[1..], b, id);
    }
  }

  lemma {:induction false} TrackInside(t: Track, steps: seq<Step>, id: nat)
    requires Inside(steps) && Unwritten(steps, id)
    ensures TrackOf(t, steps, id) ==
            if Quiet(steps, id) then t else Track(false, if t.flight.Some? then Some(false) else None, true)
    decreases |steps|
  {
    if steps != [] {
      var s, rest := steps[0], steps[1..];
      assert steps == [s] + rest;
      assert Quiet(steps, id) <==> Quiet([s], id) && Quiet(rest, id);
      TrackInside(Tracked(t, s, id), rest, id);
    }
  }

  function WriteBack(inside: seq<Step>, changes: seq<Step>): seq<Step> {
    [Begins] + inside + [Commits] + changes + [Clears]
  }

  lemma TrackWriteBack(t: Track, inside: seq<Step>, changes: seq<Step>, id: nat)
    requires Inside(changes) && Unwritten(changes, id)
    ensures var done := TrackOf(t.(flight := None), inside, id);
            TrackOf(t, WriteBack(inside, changes), id) ==
            Track(Quiet(changes, id) && (if done.flight.Some? then done.flight.value else done.current), None, false)
  {
    hide Inside, Unwritten, Quiet;
    TrackConcat(t, [Begins] + inside + [Commits] + changes, [Clears], id);
    TrackConcat(t, [Begins] + inside + [Commits], changes, id);
    TrackConcat(t, [Begins] + inside, [Commits], id);
    TrackConcat(t, [Begins], inside, id);
    TrackOne(t, Begins, id);
    var done := TrackOf(t.(flight := None), inside, id);
    TrackOne(done, Commits, id);
    TrackInside(Tracked(done, Commits, id), changes, id);
    TrackOne(TrackOf(Tracked(done, Commits, id), changes, id), Clears, id);
  }

  lemma TrackOne(t: Track, s: Step, id: nat)
    ensures TrackOf(t, [s], id) == Tracked(t, s, id)
  {
    hide Tracked;
    assert [s][1..] == [];
  }

  /**
   * A write-back that succeeds leaves no mark. It leaves the row of an endpoint that it wrote in agreement with
   * the cache exactly when the endpoint does not change between its statement and the removal of the marks;
   * otherwise the change is lost, until the next one.
   */
  lemma WriteBackAgreesIff(st: State, t: Track, a: seq<Step>, b: seq<Step>, changes: seq<Step>, id: nat)
    requires TrackedBy(st, t, id) && Legal(st, WriteBack(a + [Writes(id)] + b, changes))
    requires Inside(a) && Inside(b) && Unwritten(b, id) && Inside(changes) && Unwritten(changes, id)
    ensures var end := After(st, WriteBack(a + [Writes(id)] + b, changes));
            && id !in end.dirty
            && (Agrees(end, id) <==> Quiet(b, id) && Quiet(changes, id))
  {
    hide Quiet, Inside, Unwritten, Legal, After, TrackedBy;
    var inside, clean := a + [Writes(id)] + b, t.(flight := None);
    RowAgreesIff(st, t, WriteBack(inside, changes), id);
    TrackWriteBack(t, inside, changes, id);
    TrackConcat(clean, a + [Writes(id)], b, id);
    TrackConcat(clean, a, [Writes(id)], id);
    TrackOne(TrackOf(clean, a, id), Writes(id), id);
    TrackInside(TrackOf(clean, a + [Writes(id)], id), b, id);
  }

  lemma {:induction false} StillToBeWritten(st: State, steps: seq<Step>, id: nat)
    requires Legal(st, steps) && Inside(steps) && Unwritten(steps, id)
    requires st.flush.Some? && !st.flush.value.committed && id in st.flush.value.todo
    ensures var end := After(st, steps);
            end.flush.Some? && !end.flush.value.committed && id in end.flush.value.todo
    decreases |steps|
  {
    if steps != [] {
      assert steps == [steps[0]] + steps[1..];
      StillToBeWritten(Next(st, steps[0]), steps[1..], id);
    }
  }

  lemma {:induction false} LegalConcat(st: State, a: seq<Step>, b: seq<Step>)
    ensures Legal(st, a + b) <==> Legal(st, a) && Legal(After(st, a), b)
    decreases |a|
  {
    hide Next, Enabled;
    if a == [] {
      assert a + b == b;
    } else {
      assert (a + b)[1..] == a[1..] + b;
      if Enabled(st, a[0]) {
        LegalConcat(Next(st, a[0]), a[1..], b);
      }
    }
  }

  /** Every endpoint that is marked when a write-back begins is written by it, if it commits. */
  lemma MarkedIsWritten(st: State, inside: seq<Step>, changes: seq<Step>, id: nat)
    requires Legal(st, WriteBack(inside, changes)) && Inside(inside) && id in st.dirty
    ensures exists k :: 0 <= k < |inside| && inside[k] == Writes(id)
  {
    if Unwritten(inside, id) {
      var begun := Next(st, Begins);
      assert WriteBack(inside, changes) == [Begins] + (inside + ([Commits] + (changes + [Clears])));
      LegalConcat(st, [Begins], inside + ([Commits] + (changes + [Clears])));
      assert [Begins][1..] == [] && After(st, [Begins]) == begun;
      LegalConcat(begun, inside, [Commits] + (changes + [Clears]));
      StillToBeWritten(begun, inside, id);
      LegalConcat(After(begun, inside), [Commits], changes + [Clears]);
      assert false;
    }
  }

  /** An endpoint that was not dirty when the ids were collected is not written: then no change at all may fall
      into the write-back. */
  lemma UnwrittenAgreesIff(st: State, t: Track, inside: seq<Step>, changes: seq<Step>, id: nat)
    requires TrackedBy(st, t, id) && Legal(st, WriteBack(inside, changes))
    requires Inside(inside) && Unwritten(inside, id) && Inside(changes) && Unwritten(changes, id)
    ensures var end := After(st, WriteBack(inside, changes));
            && id !in end.dirty
            && (Agrees(end, id) <==> t.current && Quiet(inside, id) && Quiet(changes, id))
  {
    hide Quiet, Inside, Unwritten, Legal, After, TrackedBy;
    RowAgreesIff(st, t, WriteBack(inside, changes), id);
    TrackWriteBack(t, inside, changes, id);
    TrackInside(t.(flight := None), inside, id);
  }

  const NOTHING_KNOWN := E.Info(None, None, None, None, None, None, None, None)

  /** A concrete case: the status changes again after the statement, and the mark of that change is removed. */
  lemma ChangeIsLost()
    ensures var old0 := E.Columns("ONLINE", 0, 1, 1, NOTHING_KNOWN);
            var fail, back := old0.(status := "FAIL", lastCheck := 2), old0.(status := "ONLINE", lastCheck := 3);
            var st := State(map[1 := old0], map[1 := old0], {}, None);
            var steps := [Changes(1, fail)] + WriteBack([Writes(1), Changes(1, back)], []);
            && Legal(st, steps)
            && After(st, steps) == State(map[1 := back], map[1 := fail], {}, None)
  {
    var old0 := E.Columns("ONLINE", 0, 1, 1, NOTHING_KNOWN);
    var fail, back := old0.(status := "FAIL", lastCheck := 2), old0.(status := "ONLINE", lastCheck := 3);
    var s0 := State(map[1 := old0], map[1 := old0], {}, None);
    var s1 := State(map[1 := fail], map[1 := old0], {1}, None);
    var s2 := s1.(flush := Some(Flush({1}, map[], false)));
    var s3 := s1.(flush := Some(Flush({}, map[1 := fail], false)));
    var s4 := s3.(cached := map[1 := back]);
    var s5 := State(map[1 := back], map[1 := fail], {1}, Some(Flush({}, map[1 := fail], true)));
    var s6 := State(map[1 := back], map[1 := fail], {}, None);
    FirstStep(s5, Clears, s6, []);
    FirstStep(s4, Commits, s5, [Clears]);
    FirstStep(s3, Changes(1, back), s4, [Commits, Clears]);
    assert {1} - {1} == {} && map[][1 := fail] == map[1 := fail];
    FirstStep(s2, Writes(1), s3, [Changes(1, back), Commits, Clears]);
    FirstStep(s1, Begins, s2, [Writes(1), Changes(1, back), Commits, Clears]);
    FirstStep(s0, Changes(1, fail), s1, [Begins, Writes(1), Changes(1, back), Commits, Clears]);
    assert [Changes(1, fail)] + WriteBack([Writes(1), Changes(1, back)], []) ==
           [Changes(1, fail)] + [Begins, Writes(1), Changes(1, back), Commits, Clears];
  }

  lemma FirstStep(st: State, s: Step, next: State, rest: seq<Step>)
    requires Enabled(st, s) && Next(st, s) == next && Legal(next, rest)
    ensures Legal(st, [s] + rest) && After(st, [s] + rest) == After(next, rest)
  {
    assert ([s] + rest)[1..] == rest;
  }
}
