/** Incident records as the dashboard sees them after loading: each row of
    the data frame reduced to the calendar features derived from its
    creation timestamp (`Año`, `Mes`, `Dia_Semana`, `Hora`) and its
    neighbourhood (`Barrio`), together with the counting functions that
    pandas `groupby(...).size()`, `value_counts()` and boolean masks compute. */
module Incidents {
  import opened Stats

  type Month = m: int | 1 <= m <= 12 witness 1
  /** pandas `dayofweek`: 0 is Monday, 6 is Sunday. */
  type Weekday = d: int | 0 <= d <= 6
  type Hour = h: int | 0 <= h <= 23

  datatype Incident = Incident(year: nat, month: Month, weekday: Weekday, hour: Hour, barrio: string)

  /** Index of a calendar month on a line with no gaps: consecutive calendar
      months have consecutive keys (the pandas monthly Period). */
  function MonthKey(year: nat, month: Month): nat
  {
    12 * year + (month - 1)
  }

  function KeyYear(k: nat): nat { k / 12 }

  function KeyMonth(k: nat): Month { k % 12 + 1 }

  lemma MonthKeyRoundTrip(year: nat, month: Month)
    ensures KeyYear(MonthKey(year, month)) == year
    ensures KeyMonth(MonthKey(year, month)) == month
  {
    var k := MonthKey(year, month);
    assert k == 12 * year + (month - 1) && 0 <= month - 1 < 12;
  }

  lemma KeyRoundTrip(k: nat)
    ensures MonthKey(KeyYear(k), KeyMonth(k)) == k
  {
  }

  function MonthKeyOf(r: Incident): int { MonthKey(r.year, r.month) }

  function WeekdayOf(r: Incident): int { r.weekday }

  function HourOf(r: Incident): int { r.hour }

  /** Number of records whose feature `key` equals `k`. */
  function CountKey(rs: seq<Incident>, key: Incident -> int, k: int): (n: nat)
    ensures n <= |rs|
  {
    if rs == [] then 0
    else CountKey(rs[..|rs| - 1], key, k) + (if key(rs[|rs| - 1]) == k then 1 else 0)
  }

  /** Number of records whose feature `key` lies in `[lo, hi)`
      (pandas `between(lo, hi - 1)` followed by `.shape[0]`). */
  function CountIn(rs: seq<Incident>, key: Incident -> int, lo: int, hi: int): (n: nat)
    ensures n <= |rs|
  {
    if rs == [] then 0
    else CountIn(rs[..|rs| - 1], key, lo, hi) + (if lo <= key(rs[|rs| - 1]) < hi then 1 else 0)
  }

  /** Counts for the `n` consecutive feature values starting at `lo`,
      empty values included as 0 (a group-by reindexed over a full range). */
  function Histogram(rs: seq<Incident>, key: Incident -> int, lo: int, n: nat): (h: seq<nat>)
    ensures |h| == n
    ensures forall i :: 0 <= i < n ==> h[i] == CountKey(rs, key, lo + i)
    decreases n
  {
    if n == 0 then [] else [CountKey(rs, key, lo)] + Histogram(rs, key, lo + 1, n - 1)
  }

  lemma {:induction false} CountInEmpty(rs: seq<Incident>, key: Incident -> int, lo: int, hi: int)
    requires hi <= lo
    ensures CountIn(rs, key, lo, hi) == 0
  {
    if rs != [] { CountInEmpty(rs[..|rs| - 1], key, lo, hi); }
  }

  /** Peeling the lowest value off a range. */
  lemma {:induction false} CountInPeel(rs: seq<Incident>, key: Incident -> int, lo: int, hi: int)
    requires lo < hi
    ensures CountIn(rs, key, lo, hi) == CountKey(rs, key, lo) + CountIn(rs, key, lo + 1, hi)
  {
    if rs != [] { CountInPeel(rs[..|rs| - 1], key, lo, hi); }
  }

  /** Adjacent ranges partition the records that fall in their union. */
  lemma {:induction false} CountInSplit(rs: seq<Incident>, key: Incident -> int, lo: int, mid: int, hi: int)
    requires lo <= mid <= hi
    ensures CountIn(rs, key, lo, hi) == CountIn(rs, key, lo, mid) + CountIn(rs, key, mid, hi)
  {
    if rs != [] { CountInSplit(rs[..|rs| - 1], key, lo, mid, hi); }
  }

  /** A range that covers every record's feature counts every record. */
  lemma {:induction false} CountInAll(rs: seq<Incident>, key: Incident -> int, lo: int, hi: int)
    requires forall i :: 0 <= i < |rs| ==> lo <= key(rs[i]) < hi
    ensures CountIn(rs, key, lo, hi) == |rs|
  {
    if rs != [] { CountInAll(rs[..|rs| - 1], key, lo, hi); }
  }

  /** The bins of a histogram add up to the records in its range. */
  lemma {:induction false} HistogramSum(rs: seq<Incident>, key: Incident -> int, lo: int, n: nat)
    ensures Sum(Histogram(rs, key, lo, n)) == CountIn(rs, key, lo, lo + n)
    decreases n
  {
    var h := Histogram(rs, key, lo, n);
    if n == 0 {
      CountInEmpty(rs, key, lo, lo);
    } else {
      var t := Histogram(rs, key, lo + 1, n - 1);
      HistogramSum(rs, key, lo + 1, n - 1);
      SumAppend([h[0]], t);
      assert Sum([h[0]]) == h[0] by { assert [h[0]][..0] == []; }
      CountInPeel(rs, key, lo, lo + n);
    }
  }

  /** A histogram over a range that covers every record sums to the record count. */
  lemma HistogramTotal(rs: seq<Incident>, key: Incident -> int, lo: int, n: nat)
    requires forall i :: 0 <= i < |rs| ==> lo <= key(rs[i]) < lo + n
    ensures Sum(Histogram(rs, key, lo, n)) == |rs|
  {
    HistogramSum(rs, key, lo, n);
    CountInAll(rs, key, lo, lo + n);
  }

  /** A value that some record has is counted at least once. */
  lemma {:induction false} CountKeyPositive(rs: seq<Incident>, key: Incident -> int, i: nat)
    requires i < |rs|
    ensures CountKey(rs, key, key(rs[i])) > 0
  {
    if i < |rs| - 1 { CountKeyPositive(rs[..|rs| - 1], key, i); }
  }

  /** A value that no record has is counted zero times. */
  lemma {:induction false} CountKeyAbsent(rs: seq<Incident>, key: Incident -> int, k: int)
    requires forall i :: 0 <= i < |rs| ==> key(rs[i]) != k
    ensures CountKey(rs, key, k) == 0
  {
    if rs != [] { CountKeyAbsent(rs[..|rs| - 1], key, k); }
  }
}
