/** The temporal tab: incidents by weekday (all seven days, empty days as
    zero) and by hour (only the hours that occur), the critical day and
    hour, the four periods of the day and the weekday/weekend split. */
module Temporal {
  import opened Wrappers
  import opened Stats
  import opened Incidents

  /** `dias_nombres`, indexed by `Dia_Semana` (Monday is 0). */
  const DayNames: seq<string> := ["Lunes", "Martes", "Miércoles", "Jueves", "Viernes", "Sábado", "Domingo"]

  /** `groupby('Dia_Semana').size().reindex(range(7), fill_value=0)`. */
  function DayHistogram(rs: seq<Incident>): (h: seq<nat>)
    ensures |h| == 7
    ensures forall d :: 0 <= d < 7 ==> h[d] == CountKey(rs, WeekdayOf, d)
    ensures Sum(h) == |rs|
  {
    HistogramTotal(rs, WeekdayOf, 0, 7);
    Histogram(rs, WeekdayOf, 0, 7)
  }

  /** A headline "critical" entry: its name, its count and its share of all
      incidents in percent (NaN, here None, when there are none). */
  datatype Critical = Critical(name: string, count: nat, share: Option<real>)

  /** `count / len(df) * 100`. */
  function Share(count: nat, total: nat): (s: Option<real>)
    ensures s.None? <==> total == 0
    ensures s.Some? ==> s.value * (total as real) == 100.0 * (count as real)
  {
    if total == 0 then None else Some(Percent(count, total))
  }

  /** `dias_nombres[dia_counts.idxmax()]` with `dia_counts.max()`: the first
      weekday with the most incidents. With no incidents every day counts 0
      and Monday is reported. */
  function CriticalDay(rs: seq<Incident>): (c: Critical)
    ensures exists d :: (&& 0 <= d < 7 && c.name == DayNames[d]
                         && c.count == CountKey(rs, WeekdayOf, d)
                         && forall e :: 0 <= e < d ==> CountKey(rs, WeekdayOf, e) < c.count)
    ensures forall d :: 0 <= d < 7 ==> CountKey(rs, WeekdayOf, d) <= c.count
    ensures c.share == Share(c.count, |rs|)
    ensures rs == [] ==> c.name == DayNames[0] && c.count == 0
  {
    var h := DayHistogram(rs);
    var d := FirstMax(h);
    Critical(DayNames[d], h[d], Share(h[d], |rs|))
  }

  /** One row of `groupby('Hora').size()`. */
  datatype HourCount = HourCount(hour: Hour, count: nat)

  /** Hours strictly increasing along the rows. */
  ghost predicate Ascending(l: seq<HourCount>)
  {
    forall i, j :: 0 <= i < j < |l| ==> l[i].hour < l[j].hour
  }

  /** The count column of `groupby('Hora').size()`. */
  function Counts(l: seq<HourCount>): (c: seq<nat>)
    ensures |c| == |l|
    ensures forall i :: 0 <= i < |l| ==> c[i] == l[i].count
  {
    seq(|l|, i requires 0 <= i < |l| => l[i].count)
  }

  /** Drops the rows with a zero count, keeping the order of the others. */
  function KeepNonEmpty(l: seq<HourCount>): (r: seq<HourCount>)
    ensures forall x :: x in r <==> x in l && x.count > 0
    ensures Ascending(l) ==> Ascending(r)
  {
    if l == [] then []
    else
      var rest := KeepNonEmpty(l[1..]);
      if l[0].count > 0 then
        var r := [l[0]] + rest;
        assert Ascending(l) ==> Ascending(r) by {
          if Ascending(l) {
            forall j | 1 <= j < |r| ensures l[0].hour < r[j].hour {
              assert r[j] in rest;
            }
          }
        }
        r
      else rest
  }

  /** Dropping empty rows leaves the total unchanged. */
  lemma {:induction false} KeepNonEmptyTotal(l: seq<HourCount>)
    ensures Sum(Counts(KeepNonEmpty(l))) == Sum(Counts(l))
  {
    if l != [] {
      KeepNonEmptyTotal(l[1..]);
      CountsCons(l[0], l[1..]);
      assert l == [l[0]] + l[1..];
      if l[0].count > 0 {
        CountsCons(l[0], KeepNonEmpty(l[1..]));
      }
    }
  }

  /** The total of a row followed by others. */
  lemma CountsCons(x: HourCount, l: seq<HourCount>)
    ensures Sum(Counts([x] + l)) == x.count + Sum(Counts(l))
  {
    assert Counts([x] + l) == [x.count] + Counts(l);
    SumAppend([x.count], Counts(l));
    assert [x.count][..0] == [];
  }

  /** Every hour of the day with its count, empty hours included. */
  function AllHours(rs: seq<Incident>): (l: seq<HourCount>)
    ensures |l| == 24
    ensures forall k :: 0 <= k < 24 ==> l[k] == HourCount(k, CountKey(rs, HourOf, k))
    ensures Ascending(l)
  {
    var h := Histogram(rs, HourOf, 0, 24);
    seq(24, k requires 0 <= k < 24 => HourCount(k, h[k]))
  }

  /** Each hour of the day appears once in `AllHours`, with its count. */
  lemma AllHoursMembers(rs: seq<Incident>)
    ensures forall x :: x in AllHours(rs) <==> x.count == CountKey(rs, HourOf, x.hour)
  {
    var l := AllHours(rs);
    forall x ensures x in l <==> x.count == CountKey(rs, HourOf, x.hour) {
      if x.count == CountKey(rs, HourOf, x.hour) {
        assert l[x.hour] == x;
      }
    }
  }

  /** `df.groupby('Hora').size()`: exactly the hours in which some incident
      happened, each with its count, in ascending order. */
  function HourCounts(rs: seq<Incident>): (hc: seq<HourCount>)
    ensures forall x :: x in hc <==> x.count == CountKey(rs, HourOf, x.hour) > 0
    ensures Ascending(hc)
  {
    AllHoursMembers(rs);
    KeepNonEmpty(AllHours(rs))
  }

  /** The hourly counts account for every incident. */
  lemma HourCountsTotal(rs: seq<Incident>)
    ensures Sum(Counts(HourCounts(rs))) == |rs|
  {
    var l := AllHours(rs);
    KeepNonEmptyTotal(l);
    assert Counts(l) == Histogram(rs, HourOf, 0, 24);
    HistogramTotal(rs, HourOf, 0, 24);
  }

  /** `hora_counts.idxmax()` with `hora_counts.max()`: the earliest hour with
      the most incidents. pandas raises on an empty table; that is None. */
  function CriticalHour(rs: seq<Incident>): (c: Option<HourCount>)
    ensures c.None? <==> rs == []
    ensures c.Some? ==> c.value.count == CountKey(rs, HourOf, c.value.hour) > 0
    ensures c.Some? ==> forall k :: 0 <= k < 24 ==> CountKey(rs, HourOf, k) <= c.value.count
    ensures c.Some? ==> forall k :: 0 <= k < c.value.hour ==> CountKey(rs, HourOf, k) < c.value.count
  {
    if rs == [] then None
    else
      var hc := HourCounts(rs);
      CountKeyPositive(rs, HourOf, 0);
      assert HourCount(rs[0].hour, CountKey(rs, HourOf, rs[0].hour)) in hc;
      Some(EarliestMax(rs, hc))
  }

  /** The first row with the largest count in hourly counts of `rs`: no hour
      of the day has more incidents, and every earlier hour has fewer. */
  function EarliestMax(rs: seq<Incident>, hc: seq<HourCount>): (x: HourCount)
    requires hc != []
    requires forall x :: x in hc <==> x.count == CountKey(rs, HourOf, x.hour) > 0
    requires Ascending(hc)
    ensures x.count == CountKey(rs, HourOf, x.hour) > 0
    ensures forall k :: 0 <= k < 24 ==> CountKey(rs, HourOf, k) <= x.count
    ensures forall k :: 0 <= k < x.hour ==> CountKey(rs, HourOf, k) < x.count
  {
    var i := FirstMax(Counts(hc));
    assert hc[i] in hc;
    assert forall k :: 0 <= k < 24 ==>
      (CountKey(rs, HourOf, k) <= hc[i].count && (k < hc[i].hour ==> CountKey(rs, HourOf, k) < hc[i].count)) by {
      forall k | 0 <= k < 24 ensures CountKey(rs, HourOf, k) <= hc[i].count
        && (k < hc[i].hour ==> CountKey(rs, HourOf, k) < hc[i].count)
      {
        EarliestMaxHour(rs, hc, i, k);
      }
    }
    hc[i]
  }

  /** A share of a non-empty table for a count that occurs is positive and
      at most 100. */
  lemma ShareBounds(count: nat, total: nat)
    requires 0 < count <= total
    ensures Share(count, total).Some?
    ensures 0.0 < Share(count, total).value <= 100.0
  {
    var p := Percent(count, total);
    PercentBounds(count, total);
    RateCompare(p, total as real, 100.0 * (count as real), 0.0);
  }

  /** `prob_hora`: the critical hour's share of all incidents in percent;
      None when there are none (pandas raises on `idxmax` of nothing). */
  function HourShare(rs: seq<Incident>): (s: Option<real>)
    ensures s.None? <==> rs == []
    ensures s.Some? ==> s == Share(CriticalHour(rs).value.count, |rs|)
    ensures s.Some? ==> 0.0 < s.value <= 100.0
  {
    match CriticalHour(rs)
    case None => None
    case Some(c) =>
      ShareBounds(c.count, |rs|);
      Share(c.count, |rs|)
  }

  /** Against one hour `k` of the day: the first row of the hourly counts
      with the largest count has at least k's count, and more when k is an
      earlier hour. */
  lemma EarliestMaxHour(rs: seq<Incident>, hc: seq<HourCount>, i: nat, k: Hour)
    requires forall x :: x in hc <==> x.count == CountKey(rs, HourOf, x.hour) > 0
    requires Ascending(hc)
    requires i < |hc|
    requires forall j :: 0 <= j < |hc| ==> hc[j].count <= hc[i].count
    requires forall j :: 0 <= j < i ==> hc[j].count < hc[i].count
    ensures CountKey(rs, HourOf, k) <= hc[i].count
    ensures k < hc[i].hour ==> CountKey(rs, HourOf, k) < hc[i].count
  {
    var n := CountKey(rs, HourOf, k);
    if n > 0 {
      assert HourCount(k, n) in hc;
      var j :| 0 <= j < |hc| && hc[j] == HourCount(k, n);
      if k < hc[i].hour {
        assert j < i;
      }
    } else {
      assert hc[i] in hc;
    }
  }

  /** `madrugada`, `manana`, `tarde`, `noche`: hours 0-5, 6-11, 12-17, 18-23. */
  const PeriodNames: seq<string> := ["Madrugada", "Mañana", "Tarde", "Noche"]

  function PeriodCounts(rs: seq<Incident>): (p: seq<nat>)
    ensures |p| == 4
    ensures forall k :: 0 <= k < 4 ==> p[k] == CountIn(rs, HourOf, 6 * k, 6 * k + 6)
  {
    [CountIn(rs, HourOf, 0, 6), CountIn(rs, HourOf, 6, 12),
     CountIn(rs, HourOf, 12, 18), CountIn(rs, HourOf, 18, 24)]
  }

  /** The four periods split the day: every incident falls in exactly one. */
  lemma PeriodsPartition(rs: seq<Incident>)
    ensures Sum(PeriodCounts(rs)) == |rs|
  {
    var p := PeriodCounts(rs);
    CountInSplit(rs, HourOf, 0, 6, 12);
    CountInSplit(rs, HourOf, 0, 12, 18);
    CountInSplit(rs, HourOf, 0, 18, 24);
    CountInAll(rs, HourOf, 0, 24);
    assert p[..3] == [p[0], p[1], p[2]];
    assert [p[0], p[1], p[2]][..2] == [p[0], p[1]];
    assert [p[0], p[1]][..1] == [p[0]];
    assert [p[0]][..0] == [];
    assert Sum([p[0]]) == p[0];
    assert Sum([p[0], p[1]]) == p[0] + p[1];
    assert Sum([p[0], p[1], p[2]]) == p[0] + p[1] + p[2];
  }

  /** `max([...], key=lambda x: x[1])[0]`: the first period with the most
      incidents. */
  function CriticalPeriod(rs: seq<Incident>): (name: string)
    ensures exists k :: (&& 0 <= k < 4 && name == PeriodNames[k]
                         && (forall j :: 0 <= j < 4 ==> PeriodCounts(rs)[j] <= PeriodCounts(rs)[k])
                         && (forall j :: 0 <= j < k ==> PeriodCounts(rs)[j] < PeriodCounts(rs)[k]))
  {
    PeriodNames[FirstMax(PeriodCounts(rs))]
  }

  /** `semana_laboral`: the incidents from Monday to Friday. */
  function WeekdayCount(rs: seq<Incident>): (n: nat)
    ensures n == CountKey(rs, WeekdayOf, 0) + CountKey(rs, WeekdayOf, 1) + CountKey(rs, WeekdayOf, 2)
               + CountKey(rs, WeekdayOf, 3) + CountKey(rs, WeekdayOf, 4)
  {
    CountInPeel(rs, WeekdayOf, 0, 5);
    CountInPeel(rs, WeekdayOf, 1, 5);
    CountInPeel(rs, WeekdayOf, 2, 5);
    CountInPeel(rs, WeekdayOf, 3, 5);
    CountInPeel(rs, WeekdayOf, 4, 5);
    CountInEmpty(rs, WeekdayOf, 5, 5);
    CountIn(rs, WeekdayOf, 0, 5)
  }

  /** `fin_semana`: the incidents on Saturday and Sunday. */
  function WeekendCount(rs: seq<Incident>): (n: nat)
    ensures n == CountKey(rs, WeekdayOf, 5) + CountKey(rs, WeekdayOf, 6)
  {
    CountInPeel(rs, WeekdayOf, 5, 7);
    CountInPeel(rs, WeekdayOf, 6, 7);
    CountInEmpty(rs, WeekdayOf, 7, 7);
    CountIn(rs, WeekdayOf, 5, 7)
  }

  /** Working days and weekend together account for every incident. */
  lemma WeekSplit(rs: seq<Incident>)
    ensures WeekdayCount(rs) + WeekendCount(rs) == |rs|
  {
    CountInSplit(rs, WeekdayOf, 0, 5, 7);
    CountInAll(rs, WeekdayOf, 0, 7);
  }

  /** `semana_laboral / fin_semana if fin_semana > 0 else 0`. */
  function WeekRatio(rs: seq<Incident>): (ratio: real)
    ensures WeekendCount(rs) == 0 ==> ratio == 0.0
    ensures WeekendCount(rs) > 0 ==> ratio * (WeekendCount(rs) as real) == WeekdayCount(rs) as real
  {
    var weekend := WeekendCount(rs);
    if weekend > 0 then Scale(WeekdayCount(rs) as real, weekend as real) else 0.0
  }

  /** With some weekend incidents, the ratio exceeds 1 exactly when working
      days have more incidents than the weekend. */
  lemma WeekRatioAboveOne(rs: seq<Incident>)
    requires WeekendCount(rs) > 0
    ensures WeekRatio(rs) > 1.0 <==> WeekdayCount(rs) > WeekendCount(rs)
  {
    RateCompare(WeekRatio(rs), WeekendCount(rs) as real, WeekdayCount(rs) as real, 1.0);
  }
}
