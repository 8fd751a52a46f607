/** The monthly aggregate built by `cargar_datos`: incidents grouped into
    calendar-month buckets (`pd.Grouper(freq='M')`) from the first record's
    month to the last record's month, empty months included, and the
    historical monthly mean taken over it. */
module Monthly {
  import opened Wrappers
  import opened Stats
  import opened Incidents

  /** A run of consecutive month buckets: `counts[i]` is the number of
      incidents in the month whose key is `first + i`. */
  datatype Series = Series(first: int, counts: seq<nat>)

  function MinMonthKey(rs: seq<Incident>): (k: int)
    requires rs != []
    ensures exists i :: 0 <= i < |rs| && MonthKeyOf(rs[i]) == k
    ensures forall i :: 0 <= i < |rs| ==> k <= MonthKeyOf(rs[i])
  {
    if |rs| == 1 then MonthKeyOf(rs[0])
    else
      var k := MinMonthKey(rs[..|rs| - 1]);
      if MonthKeyOf(rs[|rs| - 1]) < k then MonthKeyOf(rs[|rs| - 1]) else k
  }

  function MaxMonthKey(rs: seq<Incident>): (k: int)
    requires rs != []
    ensures exists i :: 0 <= i < |rs| && MonthKeyOf(rs[i]) == k
    ensures forall i :: 0 <= i < |rs| ==> MonthKeyOf(rs[i]) <= k
  {
    if |rs| == 1 then MonthKeyOf(rs[0])
    else
      var k := MaxMonthKey(rs[..|rs| - 1]);
      if MonthKeyOf(rs[|rs| - 1]) > k then MonthKeyOf(rs[|rs| - 1]) else k
  }

  /** `df.groupby(pd.Grouper(key='Fecha de Creación', freq='M')).size()`. */
  function MonthlySeries(rs: seq<Incident>): (s: Series)
    ensures rs == [] <==> s.counts == []
    ensures rs != [] ==> s.first == MinMonthKey(rs) && s.first + |s.counts| - 1 == MaxMonthKey(rs)
    ensures forall i :: 0 <= i < |rs| ==> s.first <= MonthKeyOf(rs[i]) < s.first + |s.counts|
    ensures forall i :: 0 <= i < |s.counts| ==> s.counts[i] == CountKey(rs, MonthKeyOf, s.first + i)
    ensures Sum(s.counts) == |rs|
  {
    if rs == [] then Series(0, [])
    else
      var lo, hi := MinMonthKey(rs), MaxMonthKey(rs);
      var h := Histogram(rs, MonthKeyOf, lo, hi - lo + 1);
      HistogramTotal(rs, MonthKeyOf, lo, hi - lo + 1);
      Series(lo, h)
  }

  /** `df_mensual['Num_Roturas'].mean()`; the mean of no buckets is NaN,
      which is None here. */
  function MonthlyMean(rs: seq<Incident>): (mean: Option<real>)
    ensures mean.None? <==> rs == []
    ensures mean.Some? ==> mean.value == (|rs| as real) / (|MonthlySeries(rs).counts| as real)
  {
    var s := MonthlySeries(rs);
    if s.counts == [] then None
    else
      Some((Sum(s.counts) as real) / (|s.counts| as real))
  }

  /** The mean is the record count over the number of calendar months from
      the first to the last record, both included. */
  lemma {:induction false} MeanOverSpan(rs: seq<Incident>)
    requires rs != []
    ensures MonthlyMean(rs) == Some((|rs| as real) / ((MaxMonthKey(rs) - MinMonthKey(rs) + 1) as real))
  {
    var s := MonthlySeries(rs);
    assert |s.counts| == MaxMonthKey(rs) - MinMonthKey(rs) + 1;
    assert Sum(s.counts) == |rs|;
  }

  /** A month no record falls in is a zero bucket, not a missing one. */
  lemma {:induction false} EmptyMonthIsZero(rs: seq<Incident>, i: nat)
    requires i < |MonthlySeries(rs).counts|
    requires forall j :: 0 <= j < |rs| ==> MonthKeyOf(rs[j]) != MonthlySeries(rs).first + i
    ensures MonthlySeries(rs).counts[i] == 0
  {
    var k := MonthlySeries(rs).first + i;
    CountKeyAbsent(rs, MonthKeyOf, k);
  }
}
