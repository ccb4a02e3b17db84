/** Downsampling of a reading history to about `m` evenly spaced points.

    The rows are those of one query window, in timestamp order; row `i` has row number
    `i + 1`. */
module History {

  datatype Reading = Reading(value: real, timestamp: string, anomaly: bool)

  /** `GREATEST(1, (total + m - 1) / m)`. */
  function Stride(total: nat, m: int): int
    requires m > 0
  {
    var s := (total + m - 1) / m;
    if s < 1 then 1 else s
  }

  predicate Keep(rows: seq<Reading>, m: int, i: nat)
    requires i < |rows|
  {
    || m <= 0
    || |rows| <= m
    || i % Stride(|rows|, m) == 0
    || rows[i].anomaly
    || i + 1 == |rows|
  }

  /** The row numbers (from 0) kept among the first `n`. */
  function Kept(rows: seq<Reading>, m: int, n: nat): seq<nat>
    requires n <= |rows|
  {
    if n == 0 then [] else Kept(rows, m, n - 1) + if Keep(rows, m, n - 1) then [n - 1] else []
  }

  function Downsample(rows: seq<Reading>, m: int): seq<Reading> {
    var kept := Kept(rows, m, |rows|);
    KeptIsFilter(rows, m, |rows|);
    seq(|kept|, j requires 0 <= j < |kept| => rows[kept[j]])
  }

  /** Order is kept, and a row is in the result exactly when the query keeps it. */
  lemma {:induction false} KeptIsFilter(rows: seq<Reading>, m: int, n: nat)
    requires n <= |rows|
    ensures var kept := Kept(rows, m, n);
            && (forall j | 0 <= j < |kept| :: kept[j] < n && Keep(rows, m, kept[j]))
            && (forall j, k | 0 <= j < k < |kept| :: kept[j] < kept[k])
            && (forall i | 0 <= i < n && Keep(rows, m, i) :: i in kept)
  {
    if n > 0 { KeptIsFilter(rows, m, n - 1); }
  }

  lemma {:induction false} KeptAll(rows: seq<Reading>, m: int, n: nat)
    requires n <= |rows| && forall i | 0 <= i < n :: Keep(rows, m, i)
    ensures |Kept(rows, m, n)| == n && forall i | 0 <= i < n :: Kept(rows, m, n)[i] == i
  {
    if n > 0 { KeptAll(rows, m, n - 1); }
  }

  /** Nothing is dropped when the window fits, or when no cap is asked for. */
  lemma SmallWindowsAreWhole(rows: seq<Reading>, m: int)
    requires m <= 0 || |rows| <= m
    ensures Downsample(rows, m) == rows
  {
    KeptAll(rows, m, |rows|);
  }

  lemma FirstIsKept(rows: seq<Reading>, m: int)
    requires rows != []
    ensures Keep(rows, m, 0)
  {
    if m > 0 { assert 0 % Stride(|rows|, m) == 0; }
  }

  lemma KeptIsReturned(rows: seq<Reading>, m: int, i: nat)
    requires i < |rows| && Keep(rows, m, i)
    ensures i in Kept(rows, m, |rows|) && rows[i] in Downsample(rows, m)
  {
    hide Keep;
    KeptIsFilter(rows, m, |rows|);
    var kept := Kept(rows, m, |rows|);
    assert i in kept;
    var j :| 0 <= j < |kept| && kept[j] == i;
    assert Downsample(rows, m)[j] == rows[i];
  }

  /** The first row, the last row and every anomaly survive. */
  lemma EndsAndAnomaliesSurvive(rows: seq<Reading>, m: int, i: nat)
    requires i < |rows| && (i == 0 || i + 1 == |rows| || rows[i].anomaly)
    ensures i in Kept(rows, m, |rows|) && rows[i] in Downsample(rows, m)
  {
    hide Kept, Downsample, Stride;
    FirstIsKept(rows, m);
    KeptIsReturned(rows, m, i);
  }

  /** The stride is the least step that needs no more than `m` points. */
  lemma StrideIsCeiling(total: nat, m: int)
    requires m > 0 && total > 0
    ensures Stride(total, m) * m >= total && (Stride(total, m) - 1) * m < total
  {
  }

  lemma LastMultiple(i: nat, s: int)
    requires s > 0
    ensures 0 <= i - i % s <= i && i - (i - i % s) < s && (i - i % s) % s == 0
  {
    assert i == (i / s) * s + i % s;
    MultipleHasNoRemainder(i / s, s);
  }

  lemma MultipleHasNoRemainder(q: int, s: int)
    requires s > 0
    ensures (q * s) % s == 0
  {
    var r := (q * s) % s;
    var p := (q * s) / s;
    assert q * s == p * s + r;
    assert (q - p) * s == r;
    assert q - p >= 1 ==> (q - p) * s >= s;
    assert q - p <= -1 ==> (q - p) * s <= -s;
  }

  /** No gap is wider than the stride. */
  lemma GapsWithinStride(rows: seq<Reading>, m: int, j: nat)
    requires m > 0 && j + 1 < |Kept(rows, m, |rows|)|
    ensures Kept(rows, m, |rows|)[j + 1] - Kept(rows, m, |rows|)[j] <= Stride(|rows|, m)
  {
    var kept, s := Kept(rows, m, |rows|), Stride(|rows|, m);
    KeptIsFilter(rows, m, |rows|);
    var b := kept[j + 1];
    LastMultiple(b - 1, s);
    var k := (b - 1) - (b - 1) % s;
    assert Keep(rows, m, k) && k in kept;
    var i :| 0 <= i < |kept| && kept[i] == k;
    assert i < j + 1;
    assert kept[i] <= kept[j];
  }

  // ---- How many rows are kept ----

  /** How many of the first `n` row numbers are kept without being anomalous. */
  function Plain(rows: seq<Reading>, m: int, n: nat): nat
    requires n <= |rows|
  {
    if n == 0 then 0
    else Plain(rows, m, n - 1) + if Keep(rows, m, n - 1) && !rows[n - 1].anomaly then 1 else 0
  }

  function CeilDiv(n: nat, s: int): int
    requires s > 0
  {
    (n + s - 1) / s
  }

  lemma CeilDivNext(n: nat, s: int)
    requires s > 0
    ensures CeilDiv(n + 1, s) == CeilDiv(n, s) + if n % s == 0 then 1 else 0
  {
    var q, r := n / s, n % s;
    assert n == q * s + r;
    Quotient(n + s, q + 1, r, s);
    if r == 0 { Quotient(n + s - 1, q, s - 1, s); } else { Quotient(n + s - 1, q + 1, r - 1, s); }
  }

  lemma Quotient(n: int, q: int, r: int, s: int)
    requires s > 0 && n == q * s + r && 0 <= r < s
    ensures n / s == q
  {
    var p := n / s;
    assert n == p * s + n % s;
    assert (p - q) * s == r - n % s;
    assert p - q >= 1 ==> (p - q) * s >= s;
    assert p - q <= -1 ==> (p - q) * s <= -s;
  }

  lemma CeilDivFits(total: nat, m: int, s: int)
    requires m > 0 && s > 0 && s * m >= total
    ensures CeilDiv(total, s) <= m
  {
    var q := CeilDiv(total, s);
    assert total + s - 1 == q * s + (total + s - 1) % s;
    assert q >= m + 1 ==> q * s >= (m + 1) * s;
  }

  lemma {:induction false} PlainCount(rows: seq<Reading>, m: int, n: nat)
    requires 0 < m < |rows| && n <= |rows|
    ensures Plain(rows, m, n) <= CeilDiv(n, Stride(|rows|, m)) + if n == |rows| then 1 else 0
  {
    if n > 0 {
      PlainCount(rows, m, n - 1);
      CeilDivNext(n - 1, Stride(|rows|, m));
    }
  }

  /** Besides anomalies, at most `m + 1` rows are kept. */
  lemma AtMostOneOver(rows: seq<Reading>, m: int)
    requires m > 0
    ensures Plain(rows, m, |rows|) <= m + 1
  {
    if |rows| <= m {
      PlainAtMost(rows, m, |rows|);
    } else {
      PlainCount(rows, m, |rows|);
      StrideIsCeiling(|rows|, m);
      CeilDivFits(|rows|, m, Stride(|rows|, m));
    }
  }

  lemma {:induction false} PlainAtMost(rows: seq<Reading>, m: int, n: nat)
    requires n <= |rows|
    ensures Plain(rows, m, n) <= n
  {
    if n > 0 { PlainAtMost(rows, m, n - 1); }
  }

  lemma {:induction false} EveryOther(rows: seq<Reading>, m: int, n: nat)
    requires m > 0 && |rows| == 2 * m && n <= |rows|
    requires forall i | 0 <= i < |rows| :: !rows[i].anomaly
    ensures Plain(rows, m, n) == (n + 1) / 2 + if n == |rows| then 1 else 0
  {
    Quotient(2 * m + m - 1, 2, m - 1, m);
    assert Stride(|rows|, m) == 2;
    if n > 0 { EveryOther(rows, m, n - 1); }
  }

  /** The bound is reached: a quiet window of twice the cap keeps `m + 1` rows. */
  lemma OneOverIsReached(rows: seq<Reading>, m: int)
    requires m > 0 && |rows| == 2 * m
    requires forall i | 0 <= i < |rows| :: !rows[i].anomaly
    ensures Plain(rows, m, |rows|) == m + 1
  {
    EveryOther(rows, m, |rows|);
  }
}
