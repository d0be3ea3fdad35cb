/** Deleting expired rows of one table in batches, oldest first. */
module CleanupTable {
  import opened Options

  /** The rows of a table: id to time. */
  type Table = map<nat, int>

  /** The order of `ORDER BY time ASC, id ASC`. */
  predicate Before(rows: Table, a: nat, b: nat)
    requires a in rows && b in rows
  {
    rows[a] < rows[b] || (rows[a] == rows[b] && a < b)
  }

  function Expired(rows: Table, cutoff: int): (ids: set<nat>)
    ensures ids <= rows.Keys
  {
    set id | id in rows && rows[id] < cutoff
  }

  predicate IsLeast(rows: Table, ids: set<nat>, m: nat)
    requires ids <= rows.Keys
  {
    m in ids && forall x :: x in ids && x != m ==> Before(rows, m, x)
  }

  lemma {:induction false} LeastExists(rows: Table, ids: set<nat>)
    requires ids != {} && ids <= rows.Keys
    ensures exists m :: IsLeast(rows, ids, m)
    decreases |ids|
  {
    var x :| x in ids;
    var others := ids - {x};
    assert forall y :: y in ids && y != x ==> y in others;
    if others == {} {
      assert IsLeast(rows, ids, x);
    } else {
      LeastExists(rows, others);
      var m :| IsLeast(rows, others, m);
      assert Before(rows, x, m) || Before(rows, m, x);
      if Before(rows, x, m) {
        assert IsLeast(rows, ids, x);
      } else {
        assert IsLeast(rows, ids, m);
      }
    }
  }

  function Least(rows: Table, ids: set<nat>): (m: nat)
    requires ids != {} && ids <= rows.Keys
    ensures IsLeast(rows, ids, m)
  {
    LeastExists(rows, ids);
    var m :| IsLeast(rows, ids, m);
    m
  }

  /** What `ORDER BY time ASC, id ASC LIMIT n` selects among `ids`. */
  function Oldest(rows: Table, ids: set<nat>, n: nat): set<nat>
    requires ids <= rows.Keys
    decreases n
  {
    if n == 0 || ids == {} then {}
    else
      var m := Least(rows, ids);
      {m} + Oldest(rows, ids - {m}, n - 1)
  }

  /** `chosen` comes before everything else among `ids`. */
  ghost predicate Precedes(rows: Table, ids: set<nat>, chosen: set<nat>)
    requires ids <= rows.Keys
  {
    chosen <= ids && forall a, b :: a in chosen && b in ids && b !in chosen ==> Before(rows, a, b)
  }

  function Min(a: nat, b: nat): nat {
    if a < b then a else b
  }

  lemma {:induction false} OldestPrecedes(rows: Table, ids: set<nat>, n: nat)
    requires ids <= rows.Keys
    ensures Precedes(rows, ids, Oldest(rows, ids, n))
    ensures |Oldest(rows, ids, n)| == Min(n, |ids|)
    decreases n
  {
    if n > 0 && ids != {} {
      var m := Least(rows, ids);
      var others := ids - {m};
      OldestPrecedes(rows, others, n - 1);
      assert |others| == |ids| - 1;
      var rest := Oldest(rows, others, n - 1);
      assert Oldest(rows, ids, n) == {m} + rest && m !in rest;
      forall a, b | a in {m} + rest && b in ids && b !in {m} + rest
        ensures Before(rows, a, b) {
        assert b in others;
      }
    }
  }

  lemma {:induction false} ProperSubsetIsSmaller(a: set<nat>, b: set<nat>)
    requires a <= b && |a| == |b|
    ensures a == b
    decreases |b|
  {
    if x :| x in b {
      if x in a {
        ProperSubsetIsSmaller(a - {x}, b - {x});
        assert a == (a - {x}) + {x} && b == (b - {x}) + {x};
      } else {
        assert a <= b - {x};
        SubsetSize(a, b - {x});
      }
    }
  }

  lemma {:induction false} SubsetSize(a: set<nat>, b: set<nat>)
    requires a <= b
    ensures |a| <= |b|
    decreases |a|
  {
    if x :| x in a {
      SubsetSize(a - {x}, b - {x});
      assert |a - {x}| == |a| - 1 && |b - {x}| == |b| - 1;
    }
  }

  /** Size and precedence leave no choice: a prefix in that order is determined by its length. */
  lemma PrefixIsOldest(rows: Table, ids: set<nat>, chosen: set<nat>)
    requires ids <= rows.Keys && Precedes(rows, ids, chosen)
    ensures chosen == Oldest(rows, ids, |chosen|)
  {
    var oldest := Oldest(rows, ids, |chosen|);
    OldestPrecedes(rows, ids, |chosen|);
    SubsetSize(chosen, ids);
    PrefixesOfOneSize(rows, ids, chosen, oldest);
  }

  lemma PrefixesOfOneSize(rows: Table, ids: set<nat>, a: set<nat>, b: set<nat>)
    requires ids <= rows.Keys && Precedes(rows, ids, a) && Precedes(rows, ids, b) && |a| == |b|
    ensures a == b
  {
    if x :| x in a && x !in b {
      if y :| y in b && y !in a {
        assert false;
      } else {
        assert b <= a;
        ProperSubsetIsSmaller(b, a);
      }
    } else {
      assert a <= b;
      ProperSubsetIsSmaller(a, b);
    }
  }

  /** A batch taken after a prefix has gone extends the prefix. */
  lemma BatchExtendsPrefix(rows: Table, ids: set<nat>, gone: set<nat>, now: Table, limit: nat)
    requires ids <= rows.Keys && gone == Oldest(rows, ids, |gone|)
    requires ids - gone <= now.Keys
    requires forall id :: id in ids - gone ==> now[id] == rows[id]
    ensures var batch := Oldest(now, ids - gone, limit);
            && |batch| == Min(limit, |ids - gone|)
            && batch <= ids - gone
            && gone + batch == Oldest(rows, ids, |gone| + |batch|)
  {
    hide Oldest;
    var batch := Oldest(now, ids - gone, limit);
    OldestPrecedes(rows, ids, |gone|);
    OldestPrecedes(now, ids - gone, limit);
    PrefixesChain(rows, ids, gone, now, batch);
    assert gone !! batch;
    assert |gone + batch| == |gone| + |batch|;
    PrefixIsOldest(rows, ids, gone + batch);
  }

  lemma PrefixesChain(rows: Table, ids: set<nat>, first: set<nat>, now: Table, second: set<nat>)
    requires ids <= rows.Keys && Precedes(rows, ids, first)
    requires ids - first <= now.Keys && Precedes(now, ids - first, second)
    requires forall id :: id in ids - first ==> now[id] == rows[id]
    ensures Precedes(rows, ids, first + second)
  {
    forall a, b | a in first + second && b in ids && b !in first + second
      ensures Before(rows, a, b) {
      if a in second && a !in first {
        assert a in ids - first && b in ids - first;
        assert Before(now, a, b);
      }
    }
  }

  datatype CleanupError = Cancelled | DeadlineExceeded | BatchFailed(cancelled: bool)

  datatype CleanupResult = CleanupResult(tableName: string, deletedCount: nat, error: Option<CleanupError>)

  /**
   * What cleaning a table up to `cutoff` has done, however it ended. Rows may arrive meanwhile, none of
   * them expired.
   */
  ghost predicate Cleaned(before: Table, after: Table, cutoff: int, result: CleanupResult) {
    var gone := set id | id in before && id !in after;
    && gone == Oldest(before, Expired(before, cutoff), result.deletedCount)
    && |gone| == result.deletedCount
    && (forall id :: id in before && id in after ==> after[id] == before[id])
    && (forall id :: id in after && id !in before ==> after[id] >= cutoff)
    && (result.error.None? ==> gone == Expired(before, cutoff))
  }

  /** A successful cleanup leaves exactly the rows that are not expired, beside those that arrived. */
  lemma CleanedLeavesTheRetained(before: Table, after: Table, cutoff: int, result: CleanupResult)
    requires Cleaned(before, after, cutoff, result) && result.error.None?
    ensures Expired(after, cutoff) == {}
    ensures forall id :: id in before ==> (id in after <==> before[id] >= cutoff)
    ensures result.deletedCount == |Expired(before, cutoff)|
  {
    var gone := set id | id in before && id !in after;
    assert gone == Expired(before, cutoff);
    forall id | id in before
      ensures id in after <==> before[id] >= cutoff {
      assert id in gone <==> id !in after;
    }
  }

  /** A stopped cleanup never removes a row while an older expired one stays, nor a row that is not expired. */
  lemma CleanedIsPrefix(before: Table, after: Table, cutoff: int, result: CleanupResult, a: nat, b: nat)
    requires Cleaned(before, after, cutoff, result)
    requires a in before && a !in after && b in before && b in after
    ensures before[a] < cutoff
    ensures before[b] < cutoff ==> Before(before, a, b)
  {
    OldestPrecedes(before, Expired(before, cutoff), result.deletedCount);
    var gone := set id | id in before && id !in after;
    assert a in gone && b !in gone;
  }

  lemma RetainedStays(before: Table, after: Table, cutoff: int, result: CleanupResult, id: nat)
    requires Cleaned(before, after, cutoff, result) && id in before && before[id] >= cutoff
    ensures id in after && after[id] == before[id]
  {
    OldestPrecedes(before, Expired(before, cutoff), result.deletedCount);
    var gone := set id | id in before && id !in after;
    assert gone <= Expired(before, cutoff);
    assert id !in after ==> id in gone;
  }

  // ------------------------------------------------------- when the loop stops at all

  /** What one DELETE removes under a LIMIT; a negative one is no limit, as SQLite has it. */
  function Removed(rows: Table, cutoff: int, batchSize: int): set<nat> {
    var expired := Expired(rows, cutoff);
    if batchSize < 0 then expired else Oldest(rows, expired, batchSize)
  }

  /** The table after `n` rounds of the loop, were it left undisturbed. */
  function AfterRounds(rows: Table, cutoff: int, batchSize: int, n: nat): Table
    decreases n
  {
    if n == 0 then rows else AfterRounds(rows - Removed(rows, cutoff, batchSize), cutoff, batchSize, n - 1)
  }

  /** The loop returns in its `n`th round: fewer rows were affected than the batch may hold. */
  predicate StopsIn(rows: Table, cutoff: int, batchSize: int, n: nat) {
    |Removed(AfterRounds(rows, cutoff, batchSize, n), cutoff, batchSize)| < batchSize
  }

  lemma {:induction false} PositiveStops(rows: Table, cutoff: int, batchSize: int) returns (n: nat)
    requires batchSize >= 1
    ensures StopsIn(rows, cutoff, batchSize, n) && n * batchSize <= |Expired(rows, cutoff)|
    ensures Expired(AfterRounds(rows, cutoff, batchSize, n), cutoff) ==
            Removed(AfterRounds(rows, cutoff, batchSize, n), cutoff, batchSize)
    decreases |Expired(rows, cutoff)|
  {
    hide Oldest;
    var expired := Expired(rows, cutoff);
    var removed := Removed(rows, cutoff, batchSize);
    OldestPrecedes(rows, expired, batchSize);
    if |removed| < batchSize {
      n := 0;
      ProperSubsetIsSmaller(removed, expired);
    } else {
      var rest := rows - removed;
      assert Expired(rest, cutoff) == expired - removed;
      SizeOfRest(removed, expired);
      var m := PositiveStops(rest, cutoff, batchSize);
      n := m + 1;
      assert n * batchSize == m * batchSize + batchSize;
    }
  }

  lemma {:induction false} SizeOfRest(a: set<nat>, b: set<nat>)
    requires a <= b
    ensures |b - a| == |b| - |a|
    decreases |a|
  {
    if x :| x in a {
      SizeOfRest(a - {x}, b - {x});
      assert (b - {x}) - (a - {x}) == b - a;
      assert |a - {x}| == |a| - 1 && |b - {x}| == |b| - 1;
    } else {
      assert b - a == b;
    }
  }

  /** Without a positive batch size a round that finds expired rows takes none of them, or all. */
  lemma {:induction false} OddSizes(rows: Table, cutoff: int, n: nat)
    ensures AfterRounds(rows, cutoff, 0, n) == rows
    ensures forall size :: size < 0 ==> Removed(rows, cutoff, size) == Expired(rows, cutoff)
    decreases n
  {
    if n > 0 {
      assert rows - Removed(rows, cutoff, 0) == rows;
      OddSizes(rows, cutoff, n - 1);
    }
  }

  /**
   * For every table, the loop ever stops exactly when the batch size is positive; it then stops within
   * |expired| / batchSize rounds and removes with the last one all that is left.
   */
  lemma LoopStopsIffPositive(rows: Table, cutoff: int, batchSize: int)
    ensures (exists n :: StopsIn(rows, cutoff, batchSize, n)) <==> batchSize >= 1
  {
    if batchSize >= 1 {
      var n := PositiveStops(rows, cutoff, batchSize);
      assert StopsIn(rows, cutoff, batchSize, n);
    }
  }
}
