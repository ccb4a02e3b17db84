/** An append-only table read through an id cursor.

    Rows become visible in the order of their ids, so that a later state of the table
    extends an earlier one at the end. */
module CommitLog {
  import opened Sequences

  datatype Row<T> = Row(id: int, data: T)

  ghost predicate Log<T>(rows: seq<Row<T>>) {
    && (forall i | 0 <= i < |rows| :: rows[i].id >= 1)
    && (forall i, j | 0 <= i < j < |rows| :: rows[i].id < rows[j].id)
  }

  /** `COALESCE(MAX(id), 0)`. */
  function LastId<T>(rows: seq<Row<T>>): int { if rows == [] then 0 else rows[|rows| - 1].id }

  /** The rows with an id in (lo, hi], in table order. */
  function Between<T>(rows: seq<Row<T>>, lo: int, hi: int): seq<Row<T>> {
    if rows == [] then []
    else
      var last := rows[|rows| - 1];
      Between(rows[..|rows| - 1], lo, hi) + if lo < last.id <= hi then [last] else []
  }

  /** `WHERE id > c ORDER BY id`. */
  function After<T>(rows: seq<Row<T>>, c: int): seq<Row<T>> {
    if rows == [] then []
    else
      var last := rows[|rows| - 1];
      After(rows[..|rows| - 1], c) + if c < last.id then [last] else []
  }

  function Ids<T>(rows: seq<Row<T>>): (r: seq<int>)
    ensures |r| == |rows|
  {
    seq(|rows|, i requires 0 <= i < |rows| => rows[i].id)
  }

  lemma LogPrefix<T>(rows: seq<Row<T>>, n: nat)
    requires Log(rows) && n <= |rows|
    ensures Log(rows[..n]) && 0 <= LastId(rows[..n]) <= LastId(rows)
    ensures forall i | 0 <= i < |rows| :: rows[i].id <= LastId(rows)
  {
  }

  lemma {:induction false} BetweenHolds<T(!new)>(rows: seq<Row<T>>, lo: int, hi: int, r: Row<T>)
    ensures r in Between(rows, lo, hi) <==> r in rows && lo < r.id <= hi
  {
    if rows != [] {
      BetweenHolds(rows[..|rows| - 1], lo, hi, r);
      SplitLast(rows);
    }
  }

  lemma {:induction false} AfterHolds<T(!new)>(rows: seq<Row<T>>, c: int, r: Row<T>)
    ensures r in After(rows, c) <==> r in rows && c < r.id
  {
    if rows != [] {
      AfterHolds(rows[..|rows| - 1], c, r);
      SplitLast(rows);
    }
  }

  lemma LogExtends<T(!new)>(rows: seq<Row<T>>, r: Row<T>)
    requires Log(rows) && r.id >= 1 && forall q | q in rows :: q.id < r.id
    ensures Log(rows + [r])
  {
  }

  lemma {:induction false} BetweenAscends<T(!new)>(rows: seq<Row<T>>, lo: int, hi: int)
    requires Log(rows)
    ensures Log(Between(rows, lo, hi))
  {
    if rows != [] {
      var before, last := rows[..|rows| - 1], rows[|rows| - 1];
      LogPrefix(rows, |rows| - 1);
      BetweenAscends(before, lo, hi);
      forall q | q in Between(before, lo, hi) ensures q.id < last.id { BetweenHolds(before, lo, hi, q); }
      LogExtends(Between(before, lo, hi), last);
      assert Between(before, lo, hi) + [] == Between(before, lo, hi);
    }
  }

  /** Each row of the interval once, in id order, and nothing else. */
  lemma BetweenIsExact<T(!new)>(rows: seq<Row<T>>, lo: int, hi: int)
    requires Log(rows)
    ensures Log(Between(rows, lo, hi))
    ensures forall r :: r in Between(rows, lo, hi) <==> r in rows && lo < r.id <= hi
  {
    hide *;
    BetweenAscends(rows, lo, hi);
    forall r ensures r in Between(rows, lo, hi) <==> r in rows && lo < r.id <= hi { BetweenHolds(rows, lo, hi, r); }
  }

  lemma {:induction false} BetweenEmpty<T>(rows: seq<Row<T>>, lo: int, hi: int)
    requires Log(rows) && (lo >= LastId(rows) || hi <= lo)
    ensures Between(rows, lo, hi) == []
  {
    if rows != [] {
      LogPrefix(rows, |rows| - 1);
      BetweenEmpty(rows[..|rows| - 1], lo, hi);
    }
  }

  /** An interval is read in two parts. */
  lemma {:induction false} BetweenSplits<T>(rows: seq<Row<T>>, lo: int, mid: int, hi: int)
    requires Log(rows) && lo <= mid <= hi
    ensures Between(rows, lo, hi) == Between(rows, lo, mid) + Between(rows, mid, hi)
  {
    if rows != [] {
      var last := |rows| - 1;
      LogPrefix(rows, last);
      BetweenSplits(rows[..last], lo, mid, hi);
      if rows[last].id <= mid { BetweenEmpty(rows[..last], mid, hi); }
    }
  }

  /** What has been read stays what it was when the table grows. */
  lemma {:induction false} BetweenStays<T>(rows: seq<Row<T>>, grown: seq<Row<T>>, lo: int, hi: int)
    requires Log(grown) && rows <= grown && hi <= LastId(rows)
    ensures Between(grown, lo, hi) == Between(rows, lo, hi)
    decreases |grown|
  {
    if |rows| < |grown| {
      var last := |grown| - 1;
      LogPrefix(grown, last);
      assert rows == grown[..|rows|] && rows <= grown[..last];
      BetweenStays(rows, grown[..last], lo, hi);
    } else {
      assert rows == grown;
    }
  }

  lemma {:induction false} AfterReadsToTheEnd<T>(rows: seq<Row<T>>, c: int)
    requires Log(rows)
    ensures After(rows, c) == Between(rows, c, LastId(rows))
    ensures After(rows, c) == [] <==> LastId(rows) <= c || rows == []
    ensures After(rows, c) != [] ==> After(rows, c)[|After(rows, c)| - 1].id == LastId(rows)
  {
    if rows != [] {
      var last := |rows| - 1;
      LogPrefix(rows, last);
      AfterReadsToTheEnd(rows[..last], c);
      if last > 0 { BetweenStays(rows[..last], rows, c, LastId(rows[..last])); }
      if c < rows[last].id {
        BetweenSame(rows[..last], c, LastId(rows[..last]), LastId(rows));
      } else {
        BetweenEmpty(rows[..last], c, LastId(rows));
      }
    }
  }

  lemma {:induction false} BetweenSame<T>(rows: seq<Row<T>>, lo: int, h1: int, h2: int)
    requires Log(rows) && h1 >= LastId(rows) && h2 >= LastId(rows)
    ensures Between(rows, lo, h1) == Between(rows, lo, h2)
  {
    if rows != [] {
      LogPrefix(rows, |rows| - 1);
      BetweenSame(rows[..|rows| - 1], lo, h1, h2);
    }
  }

  /** One poll: what was read up to the cursor, then everything after it. */
  lemma PollExtends<T>(rows: seq<Row<T>>, grown: seq<Row<T>>, start: int, c: int)
    requires Log(grown) && rows <= grown && start <= c <= LastId(rows)
    ensures Between(grown, start, c) == Between(rows, start, c)
    ensures Between(grown, start, LastId(grown)) == Between(rows, start, c) + After(grown, c)
    ensures LastId(rows) <= LastId(grown)
  {
    BetweenStays(rows, grown, start, c);
    AfterReadsToTheEnd(grown, c);
    assert rows == grown[..|rows|];
    LogPrefix(grown, |rows|);
    BetweenSplits(grown, start, c, LastId(grown));
  }
}
