/** Neighbourhood ranking of the spatial tab and of the PDF report:
    `value_counts()` of `Barrio`, its top N, the percentage and per-month
    columns, the concentration metric and the severity colours. */
module Ranking {
  import opened Wrappers
  import opened Stats
  import opened Incidents
  import opened MonthLabels
  import opened Monthly
  import opened MonthFilter

  datatype BarrioCount = BarrioCount(barrio: string, count: nat)

  /** Occurrences of neighbourhood `b` in the table. */
  function CountBarrio(rs: seq<Incident>, b: string): (n: nat)
    ensures n <= |rs|
  {
    if rs == [] then 0
    else CountBarrio(rs[..|rs| - 1], b) + (if rs[|rs| - 1].barrio == b then 1 else 0)
  }

  ghost function Barrios(rs: seq<Incident>): set<string>
  {
    set i | 0 <= i < |rs| :: rs[i].barrio
  }

  ghost function Names(l: seq<BarrioCount>): set<string>
  {
    set i | 0 <= i < |l| :: l[i].barrio
  }

  ghost predicate DistinctBarrios(l: seq<BarrioCount>)
  {
    forall i, j :: 0 <= i < j < |l| ==> l[i].barrio != l[j].barrio
  }

  ghost predicate NonIncreasing(l: seq<BarrioCount>)
  {
    forall i, j :: 0 <= i < j < |l| ==> l[i].count >= l[j].count
  }

  /** Every entry is a neighbourhood of `rs` with its true, positive count. */
  ghost predicate TrueCounts(rs: seq<Incident>, l: seq<BarrioCount>)
  {
    forall i :: 0 <= i < |l| ==> l[i].count == CountBarrio(rs, l[i].barrio) > 0
  }

  function SumCounts(l: seq<BarrioCount>): nat
  {
    if l == [] then 0 else l[0].count + SumCounts(l[1..])
  }

  lemma {:induction false} SumCountsAppend(a: seq<BarrioCount>, b: seq<BarrioCount>)
    ensures SumCounts(a + b) == SumCounts(a) + SumCounts(b)
  {
    if a == [] {
      assert a + b == b;
    } else {
      assert (a + b)[0] == a[0];
      assert (a + b)[1..] == a[1..] + b;
      SumCountsAppend(a[1..], b);
    }
  }

  lemma {:induction false} SumCountsUpdate(l: seq<BarrioCount>, i: nat, x: BarrioCount)
    requires i < |l|
    ensures SumCounts(l[i := x]) + l[i].count == SumCounts(l) + x.count
  {
    if i > 0 {
      assert l[i := x][1..] == l[1..][i - 1 := x];
      SumCountsUpdate(l[1..], i - 1, x);
    }
  }

  /** A list whose every count is positive sums to at least its length. */
  lemma {:induction false} SumCountsAtLeastLength(l: seq<BarrioCount>)
    requires forall i :: 0 <= i < |l| ==> l[i].count > 0
    ensures SumCounts(l) >= |l|
  {
    if l != [] { SumCountsAtLeastLength(l[1..]); }
  }

  lemma {:induction false} CountBarrioAbsent(rs: seq<Incident>, b: string)
    requires b !in Barrios(rs)
    ensures CountBarrio(rs, b) == 0
  {
    if rs != [] {
      var prefix := rs[..|rs| - 1];
      assert Barrios(prefix) <= Barrios(rs) by {
        forall x | x in Barrios(prefix) ensures x in Barrios(rs) {
          var i :| 0 <= i < |prefix| && prefix[i].barrio == x;
          assert rs[i].barrio == x;
        }
      }
      assert rs[|rs| - 1].barrio in Barrios(rs);
      CountBarrioAbsent(prefix, b);
    }
  }

  lemma {:induction false} DistinctNamesCard(l: seq<BarrioCount>)
    requires DistinctBarrios(l)
    ensures |Names(l)| == |l|
  {
    if l != [] {
      var prefix := l[..|l| - 1];
      assert Names(l) == Names(prefix) + {l[|l| - 1].barrio};
      DistinctNamesCard(prefix);
    }
  }

  /** Position of `b` in the tally, or `|vc|` when it is not there yet. */
  function Find(vc: seq<BarrioCount>, b: string): (i: nat)
    ensures i <= |vc|
    ensures i < |vc| ==> vc[i].barrio == b
    ensures i == |vc| ==> forall j :: 0 <= j < |vc| ==> vc[j].barrio != b
  {
    if vc == [] then 0
    else if vc[0].barrio == b then 0
    else 1 + Find(vc[1..], b)
  }

  /** `df['Barrio'].value_counts()` before sorting: one entry per
      neighbourhood, in order of first appearance, with its count. */
  function Tally(rs: seq<Incident>): (vc: seq<BarrioCount>)
    ensures DistinctBarrios(vc)
    ensures TrueCounts(rs, vc)
    ensures Names(vc) == Barrios(rs)
    ensures SumCounts(vc) == |rs|
  {
    if rs == [] then []
    else
      var prefix, b := rs[..|rs| - 1], rs[|rs| - 1].barrio;
      var before := Tally(prefix);
      assert Barrios(rs) == Barrios(prefix) + {b} by {
        assert forall i :: 0 <= i < |prefix| ==> prefix[i] == rs[i];
      }
      var i := Find(before, b);
      if i < |before| then
        var after := before[i := BarrioCount(b, before[i].count + 1)];
        SumCountsUpdate(before, i, BarrioCount(b, before[i].count + 1));
        assert Names(after) == Names(before) by {
          assert forall j :: 0 <= j < |after| ==> after[j].barrio == before[j].barrio;
        }
        after
      else
        var after := before + [BarrioCount(b, 1)];
        CountBarrioAbsent(prefix, b);
        SumCountsAppend(before, [BarrioCount(b, 1)]);
        assert SumCounts([BarrioCount(b, 1)]) == 1;
        assert Names(after) == Names(before) + {b} by {
          assert forall j :: 0 <= j < |before| ==> after[j] == before[j];
          assert after[|before|].barrio == b;
        }
        after
  }

  /** Inserts `x` after every entry whose count is at least its own, so
      that among equal counts the earlier entry stays first. */
  function InsertByCount(x: BarrioCount, l: seq<BarrioCount>): (r: seq<BarrioCount>)
    requires NonIncreasing(l)
    ensures NonIncreasing(r)
    ensures multiset(r) == multiset(l) + multiset{x}
    ensures r[0] == x || (l != [] && r[0] == l[0])
  {
    if l == [] then [x]
    else if l[0].count < x.count then
      ConsNonIncreasing(x, l);
      [x] + l
    else
      var t := InsertByCount(x, l[1..]);
      assert l == [l[0]] + l[1..];
      ConsNonIncreasing(l[0], t);
      [l[0]] + t
  }

  /** Putting an entry with at least the first count in front keeps a list
      non-increasing. */
  lemma ConsNonIncreasing(h: BarrioCount, t: seq<BarrioCount>)
    requires NonIncreasing(t)
    requires t != [] ==> t[0].count <= h.count
    ensures NonIncreasing([h] + t)
  {
    var r := [h] + t;
    forall i, j | 0 <= i < j < |r| ensures r[i].count >= r[j].count {
      assert r[j] == t[j - 1];
      if i > 0 {
        assert r[i] == t[i - 1];
      }
    }
  }

  /** Inserting an entry adds its count to the total. */
  lemma {:induction false} InsertAddsCount(x: BarrioCount, l: seq<BarrioCount>)
    requires NonIncreasing(l)
    ensures SumCounts(InsertByCount(x, l)) == SumCounts(l) + x.count
  {
    if l != [] && l[0].count >= x.count {
      InsertAddsCount(x, l[1..]);
      assert InsertByCount(x, l)[1..] == InsertByCount(x, l[1..]);
    }
  }

  lemma {:induction false} InsertKeepsDistinct(x: BarrioCount, l: seq<BarrioCount>)
    requires NonIncreasing(l) && DistinctBarrios(l)
    requires forall j :: 0 <= j < |l| ==> l[j].barrio != x.barrio
    ensures DistinctBarrios(InsertByCount(x, l))
  {
    if l != [] && l[0].count >= x.count {
      var t := InsertByCount(x, l[1..]);
      InsertKeepsDistinct(x, l[1..]);
      forall j | 0 <= j < |t| ensures t[j].barrio != l[0].barrio {
        assert t[j] in multiset(t);
        assert t[j] in multiset(l[1..]) || t[j] == x;
      }
    }
  }

  /** The descending sort of `value_counts()`: counts never increase, and
      ties keep their order of first appearance. */
  function SortByCount(l: seq<BarrioCount>): (r: seq<BarrioCount>)
    ensures NonIncreasing(r)
    ensures multiset(r) == multiset(l)
    ensures SumCounts(r) == SumCounts(l)
  {
    if l == [] then []
    else
      var prefix, x := l[..|l| - 1], l[|l| - 1];
      assert l == prefix + [x];
      SumCountsAppend(prefix, [x]);
      assert SumCounts([x]) == x.count;
      InsertAddsCount(x, SortByCount(prefix));
      InsertByCount(x, SortByCount(prefix))
  }

  /** Sorting by count keeps each entry once: distinct names stay distinct. */
  lemma {:induction false} SortKeepsDistinct(l: seq<BarrioCount>)
    requires DistinctBarrios(l)
    ensures DistinctBarrios(SortByCount(l))
  {
    if l != [] {
      var prefix, x := l[..|l| - 1], l[|l| - 1];
      var sorted := SortByCount(prefix);
      SortKeepsDistinct(prefix);
      forall j | 0 <= j < |sorted| ensures sorted[j].barrio != x.barrio {
        assert sorted[j] in multiset(prefix);
      }
      InsertKeepsDistinct(x, sorted);
    }
  }

  /** `df['Barrio'].value_counts()`: neighbourhoods by descending count. */
  function ValueCounts(rs: seq<Incident>): (vc: seq<BarrioCount>)
    ensures NonIncreasing(vc)
    ensures DistinctBarrios(vc)
    ensures TrueCounts(rs, vc)
    ensures Names(vc) == Barrios(rs)
    ensures |vc| == |Barrios(rs)|
    ensures SumCounts(vc) == |rs|
  {
    var t := Tally(rs);
    var vc := SortByCount(t);
    SortKeepsDistinct(t);
    assert forall y :: y in vc <==> y in t by {
      forall y ensures y in vc <==> y in t { assert y in vc <==> y in multiset(vc); }
    }
    assert Names(vc) == Names(t) by {
      forall x ensures x in Names(vc) <==> x in Names(t) {
        if x in Names(vc) {
          var i :| 0 <= i < |vc| && vc[i].barrio == x;
          assert vc[i] in t;
        }
        if x in Names(t) {
          var i :| 0 <= i < |t| && t[i].barrio == x;
          assert t[i] in vc;
        }
      }
    }
    assert TrueCounts(rs, vc) by {
      forall i | 0 <= i < |vc| ensures vc[i].count == CountBarrio(rs, vc[i].barrio) > 0 {
        assert vc[i] in t;
      }
    }
    DistinctNamesCard(vc);
    vc
  }

  /** `value_counts().head(n)`. */
  function TopBarrios(rs: seq<Incident>, n: nat): (top: seq<BarrioCount>)
    ensures |top| == if n <= |Barrios(rs)| then n else |Barrios(rs)|
    ensures forall i :: 0 <= i < |top| ==> top[i] == ValueCounts(rs)[i]
  {
    var vc := ValueCounts(rs);
    if n <= |vc| then vc[..n] else vc
  }

  /** The ranked rows carry the true counts of their neighbourhoods. */
  lemma TopTrueCounts(rs: seq<Incident>, n: nat)
    ensures TrueCounts(rs, TopBarrios(rs, n))
  {
    var vc := ValueCounts(rs);
  }

  /** What the ranking promises: its rows are distinct neighbourhoods of the
      table with their true counts, the counts never increase, and no
      neighbourhood left out has more incidents than any one shown. */
  lemma {:induction false} TopBarriosAreTheTop(rs: seq<Incident>, n: nat)
    ensures var top := TopBarrios(rs, n);
      && NonIncreasing(top)
      && DistinctBarrios(top)
      && TrueCounts(rs, top)
      && forall b, i :: b in Barrios(rs) && b !in Names(top) && 0 <= i < |top| ==>
           CountBarrio(rs, b) <= top[i].count
  {
    var vc, top := ValueCounts(rs), TopBarrios(rs, n);
    forall b, i | b in Barrios(rs) && b !in Names(top) && 0 <= i < |top|
      ensures CountBarrio(rs, b) <= top[i].count
    {
      assert b in Names(vc);
      var j :| 0 <= j < |vc| && vc[j].barrio == b;
      assert forall k :: 0 <= k < |top| ==> top[k].barrio in Names(top);
      assert i < j;
    }
  }

  /** A prefix of a list of positive counts sums to at most the whole, and
      to the whole only when it is the whole list. */
  lemma PrefixSum(l: seq<BarrioCount>, k: nat)
    requires k <= |l|
    requires forall i :: 0 <= i < |l| ==> l[i].count > 0
    ensures SumCounts(l[..k]) <= SumCounts(l)
    ensures SumCounts(l[..k]) == SumCounts(l) <==> k == |l|
  {
    var rest := l[k..];
    assert l == l[..k] + rest;
    SumCountsAppend(l[..k], rest);
    SumCountsAtLeastLength(rest);
  }

  /** The top rows never hold more incidents than the table, and hold all of
      them exactly when N reaches the number of distinct neighbourhoods. */
  lemma TopShare(rs: seq<Incident>, n: nat)
    ensures SumCounts(TopBarrios(rs, n)) <= |rs|
    ensures SumCounts(TopBarrios(rs, n)) == |rs| <==> n >= |Barrios(rs)|
  {
    var vc, top := ValueCounts(rs), TopBarrios(rs, n);
    assert top == vc[..|top|];
    PrefixSum(vc, |top|);
  }

  /** One row of the "Detalle por Barrio" table. */
  datatype RankRow = RankRow(rank: nat, barrio: string, count: nat, percent: real, perMonth: Option<real>)

  /** The computed columns of a detail row: `Porcentaje` is the count as a
      percentage of `total`, and `Barrios/Mes` (present exactly when every
      month is shown) the count spread over `months` monthly buckets. */
  ghost predicate Columns(r: RankRow, total: nat, allMonths: bool, months: nat)
  {
    && r.percent * (total as real) == 100.0 * (r.count as real)
    && (r.perMonth.Some? <==> allMonths)
    && (r.perMonth.Some? ==> r.perMonth.value * (months as real) == r.count as real)
  }

  /** One entry of the detail table. */
  function RankRowOf(rank: nat, e: BarrioCount, total: nat, allMonths: bool, months: nat): (r: RankRow)
    requires total > 0 && (allMonths ==> months > 0)
    ensures r.rank == rank && r.barrio == e.barrio && r.count == e.count
    ensures Columns(r, total, allMonths, months)
  {
    RankRow(rank, e.barrio, e.count, Percent(e.count, total),
            if allMonths then Some(Scale(e.count as real, months as real)) else None)
  }

  /** The rows of the detail table for the ranked entries `top`. */
  function RankRows(top: seq<BarrioCount>, total: nat, allMonths: bool, months: nat): (t: seq<RankRow>)
    requires total > 0 && (allMonths ==> months > 0)
    ensures |t| == |top|
    ensures forall i :: 0 <= i < |t| ==> t[i] == RankRowOf(i + 1, top[i], total, allMonths, months)
  {
    seq(|top|, i requires 0 <= i < |top| => RankRowOf(i + 1, top[i], total, allMonths, months))
  }

  /** The detail table: ranks from 1, the neighbourhoods of `value_counts()`
      in order with their counts, the percentage of the filtered total and,
      only when every month is shown, the per-month rate. */
  function RankingTable(rows: seq<Incident>, n: nat, allMonths: bool, months: nat): (t: seq<RankRow>)
    requires allMonths && rows != [] ==> months > 0
    ensures var top := TopBarrios(rows, n);
      && |t| == |top|
      && forall i :: 0 <= i < |t| ==>
           && t[i].rank == i + 1
           && t[i].barrio == top[i].barrio
           && t[i].count == CountBarrio(rows, top[i].barrio) > 0
           && Columns(t[i], |rows|, allMonths, months)
  {
    var top := TopBarrios(rows, n);
    TopTrueCounts(rows, n);
    if top == [] then []
    else
      assert |rows| > 0 by { assert top[0].count <= |rows|; }
      RankRows(top, |rows|, allMonths, months)
  }

  /** The ranking shown for a month selection: filter, then rank, with the
      per-month rate computed over all monthly buckets only for "Todos"
      (a month that falls back to the whole table shows no rate). */
  function SpatialRanking(rs: seq<Incident>, selection: string, n: nat): (t: seq<RankRow>)
    ensures var f := FilterByMonth(rs, selection);
      var top := TopBarrios(f.rows, n);
      && |t| == |top|
      && forall i :: 0 <= i < |t| ==>
           && t[i].rank == i + 1
           && t[i].barrio == top[i].barrio
           && t[i].count == CountBarrio(f.rows, t[i].barrio) > 0
           && Columns(t[i], |f.rows|, selection == AllMonths, |MonthlySeries(rs).counts|)
  {
    var f := FilterByMonth(rs, selection);
    RankingTable(f.rows, n, selection == AllMonths, |MonthlySeries(rs).counts|)
  }

  /** `total_top / total_general * 100`; NaN (None) for an empty table. */
  function Concentration(rows: seq<Incident>, n: nat): (c: Option<real>)
    ensures c.None? <==> rows == []
    ensures c.Some? ==> c.value <= 100.0
    ensures c.Some? ==> (c.value == 100.0 <==> n >= |Barrios(rows)|)
    ensures c.Some? ==> IsPercentOf(c.value, SumCounts(TopBarrios(rows, n)), |rows|)
  {
    if rows == [] then None
    else
      var top := SumCounts(TopBarrios(rows, n));
      TopShare(rows, n);
      PercentBounds(top, |rows|);
      Some(Percent(top, |rows|))
  }

  /** A table has some neighbourhood exactly when it has some incident. */
  lemma BarriosEmpty(rs: seq<Incident>)
    ensures |Barrios(rs)| == 0 <==> rs == []
  {
    if rs != [] {
      assert rs[0].barrio in Barrios(rs);
    }
  }

  /** `barrio_counts.index[0]` with `barrio_counts.iloc[0]`: the most
      affected neighbourhood. pandas raises on an empty ranking; that is
      None. */
  function MostAffected(rows: seq<Incident>, n: nat): (m: Option<BarrioCount>)
    ensures m.None? <==> rows == [] || n == 0
    ensures m.Some? ==> m.value.barrio in Barrios(rows)
    ensures m.Some? ==> m.value.count == CountBarrio(rows, m.value.barrio)
    ensures m.Some? ==> forall b :: b in Barrios(rows) ==> CountBarrio(rows, b) <= m.value.count
  {
    var top := TopBarrios(rows, n);
    BarriosEmpty(rows);
    if top == [] then None
    else
      TopBarriosAreTheTop(rows, n);
      assert top[0].barrio in Barrios(rows) by {
        assert top[0].barrio in Names(ValueCounts(rows));
      }
      assert forall b :: b in Barrios(rows) ==> CountBarrio(rows, b) <= top[0].count by {
        forall b | b in Barrios(rows) ensures CountBarrio(rows, b) <= top[0].count {
          if b in Names(top) {
            var j :| 0 <= j < |top| && top[j].barrio == b;
          }
        }
      }
      Some(top[0])
  }

  /** Severity bands of the per-month rate (`Muy Alto`, `Alto`, `Medio`, `Bajo`). */
  datatype Band = VeryHigh | High | Medium | Low

  /** The band of the rate `count / months`, compared by cross-multiplying:
      above 2, above 1.5, above 1, otherwise low. With no months and a
      positive count the rate is infinite (VeryHigh); 0/0 is NaN (Low). */
  function BandOf(count: nat, months: nat): (b: Band)
    ensures months > 0 ==> var rate := Scale(count as real, months as real);
      && (b == VeryHigh <==> rate > 2.0)
      && (b == High <==> 1.5 < rate <= 2.0)
      && (b == Medium <==> 1.0 < rate <= 1.5)
      && (b == Low <==> rate <= 1.0)
    ensures months == 0 ==> (b == VeryHigh <==> count > 0) && (b == Low <==> count == 0)
  {
    assert months > 0 ==> var rate := Scale(count as real, months as real);
      && (count > 2 * months <==> rate > 2.0)
      && (2 * count > 3 * months <==> rate > 1.5)
      && (count > months <==> rate > 1.0) by {
      if months > 0 {
        var m, c := months as real, count as real;
        var rate := Scale(c, m);
        RateCompare(rate, m, c, 2.0);
        RateCompare(rate, m, c, 1.5);
        RateCompare(rate, m, c, 1.0);
      }
    }
    if count > 2 * months then VeryHigh
    else if 2 * count > 3 * months then High
    else if count > months then Medium
    else Low
  }

  function Level(b: Band): nat
  {
    match b
    case Low => 0
    case Medium => 1
    case High => 2
    case VeryHigh => 3
  }

  /** The band agrees with the thresholds applied to the real-valued rate
      `count / months`. */
  lemma BandMatchesRate(count: nat, months: nat, rate: real)
    requires months > 0 && rate * (months as real) == count as real
    ensures BandOf(count, months) == VeryHigh <==> rate > 2.0
    ensures BandOf(count, months) == High <==> 1.5 < rate <= 2.0
    ensures BandOf(count, months) == Medium <==> 1.0 < rate <= 1.5
    ensures BandOf(count, months) == Low <==> rate <= 1.0
  {
    var m, c := months as real, count as real;
    RateCompare(rate, m, c, 2.0);
    RateCompare(rate, m, c, 1.5);
    RateCompare(rate, m, c, 1.0);
  }

  /** A neighbourhood with more incidents never gets a milder colour. */
  lemma BandMonotone(c1: nat, c2: nat, months: nat)
    requires c1 <= c2
    ensures Level(BandOf(c1, months)) <= Level(BandOf(c2, months))
  {
  }

  function BandColour(b: Band): string
  {
    match b
    case VeryHigh => "#D90429"
    case High => "#F18F01"
    case Medium => "#FFD93D"
    case Low => "#06A77D"
  }

  /** The single colour used when one month is selected. */
  const UniformColour := "#2E86AB"

  /** The colour loop: one colour per ranked neighbourhood, the band colour
      of its per-month rate when every month is shown, the uniform colour
      otherwise. */
  method SeverityColours(top: seq<BarrioCount>, months: nat, allMonths: bool) returns (colours: seq<string>)
    ensures |colours| == |top|
    ensures allMonths ==> forall i :: 0 <= i < |top| ==> colours[i] == BandColour(BandOf(top[i].count, months))
    ensures !allMonths ==> forall i :: 0 <= i < |top| ==> colours[i] == UniformColour
  {
    colours := [];
    var i := 0;
    while i < |top|
      invariant i <= |top| && |colours| == i
      invariant allMonths ==> forall j :: 0 <= j < i ==> colours[j] == BandColour(BandOf(top[j].count, months))
      invariant !allMonths ==> forall j :: 0 <= j < i ==> colours[j] == UniformColour
    {
      var count := top[i].count;
      if allMonths {
        if count > 2 * months {
          colours := colours + ["#D90429"];
        } else if 2 * count > 3 * months {
          colours := colours + ["#F18F01"];
        } else if count > months {
          colours := colours + ["#FFD93D"];
        } else {
          colours := colours + ["#06A77D"];
        }
      } else {
        colours := colours + [UniformColour];
      }
      i := i + 1;
    }
  }

  /** The colours of the spatial tab's bar chart for a selection: one per
      top neighbourhood of the filtered rows, banded by the rate over all
      monthly buckets when the selection is "Todos", uniform otherwise. */
  method SpatialColours(rs: seq<Incident>, selection: string, n: nat) returns (colours: seq<string>)
    ensures var top := TopBarrios(FilterByMonth(rs, selection).rows, n);
      && |colours| == |top|
      && (selection == AllMonths ==> forall i :: 0 <= i < |top| ==>
            colours[i] == BandColour(BandOf(top[i].count, |MonthlySeries(rs).counts|)))
      && (selection != AllMonths ==> forall i :: 0 <= i < |top| ==> colours[i] == UniformColour)
  {
    var top := TopBarrios(FilterByMonth(rs, selection).rows, n);
    colours := SeverityColours(top, |MonthlySeries(rs).counts|, selection == AllMonths);
  }

  /** `barrio[:w] + "..." if len(barrio) > w else barrio`. */
  function Abbreviate(s: string, width: nat): (r: string)
    ensures |s| <= width ==> r == s
    ensures |s| > width ==> |r| == width + 3 && r[..width] == s[..width] && r[width..] == "..."
  {
    if |s| > width then s[..width] + "..." else s
  }

  /** One row of the PDF ranking table. */
  datatype PdfRow = PdfRow(rank: nat, name: string, count: nat, perMonth: real, percent: real)

  const PdfNameWidth := 35

  /** The computed columns of a PDF row: the count over `total_meses` and
      as a percentage of `total_roturas`. */
  ghost predicate PdfColumns(r: PdfRow, months: nat, total: nat)
  {
    && r.perMonth * (months as real) == r.count as real
    && r.percent * (total as real) == 100.0 * (r.count as real)
  }

  /** One row of the PDF table. */
  function PdfRowOf(rank: nat, e: BarrioCount, months: nat, total: nat): (r: PdfRow)
    requires months > 0 && total > 0
    ensures r.rank == rank && r.count == e.count
    ensures r.name == Abbreviate(e.barrio, PdfNameWidth)
    ensures PdfColumns(r, months, total)
  {
    PdfRow(rank, Abbreviate(e.barrio, PdfNameWidth), e.count,
           Scale(e.count as real, months as real), Percent(e.count, total))
  }

  /** The PDF ranking loop: one row per ranked entry, ranked from 1. */
  method PdfRows(top: seq<BarrioCount>, months: nat, total: nat) returns (rows: seq<PdfRow>)
    requires top != [] ==> months > 0 && total > 0
    ensures |rows| == |top|
    ensures forall i :: 0 <= i < |rows| ==>
      && rows[i].rank == i + 1
      && rows[i].name == Abbreviate(top[i].barrio, PdfNameWidth)
      && rows[i].count == top[i].count
      && PdfColumns(rows[i], months, total)
  {
    rows := [];
    var i := 0;
    while i < |top|
      invariant i <= |top| && |rows| == i
      invariant forall j :: 0 <= j < i ==> rows[j] == PdfRowOf(j + 1, top[j], months, total)
    {
      rows := rows + [PdfRowOf(i + 1, top[i], months, total)];
      i := i + 1;
    }
  }

  /** The PDF ranking over the whole table: rank from 1, the name shortened
      to 35 characters, the count, the rate over every monthly bucket and
      the percentage of all incidents. */
  method PdfRankingRows(rs: seq<Incident>, n: nat) returns (rows: seq<PdfRow>)
    ensures var top := TopBarrios(rs, n);
      && |rows| == |top|
      && forall i :: 0 <= i < |rows| ==>
           && rows[i].rank == i + 1
           && rows[i].name == Abbreviate(top[i].barrio, PdfNameWidth)
           && rows[i].count == CountBarrio(rs, top[i].barrio) > 0
           && PdfColumns(rows[i], |MonthlySeries(rs).counts|, |rs|)
  {
    var top := TopBarrios(rs, n);
    TopTrueCounts(rs, n);
    assert top != [] ==> top[0].count <= |rs|;
    rows := PdfRows(top, |MonthlySeries(rs).counts|, |rs|);
  }
}
