/** The spatial tab's month filter: the incident table restricted to the
    month chosen in the selector, with the fallback to the whole history
    when the choice matches no record or cannot be parsed. */
module MonthFilter {
  import opened Wrappers
  import opened Incidents
  import opened MonthLabels

  /** What the tab shows besides the table: nothing, the "no data for this
      month" warning, or the "error filtering by month" message. */
  datatype Notice = Quiet | NoDataWarning | FilterError

  /** `df_filtrado`, `titulo_adicional` and the notice raised on the way. */
  datatype Filtered = Filtered(rows: seq<Incident>, title: string, notice: Notice)

  const WholeHistoryTitle := " - Histórico Completo"

  predicate InMonth(r: Incident, year: int, month: Month)
  {
    r.year == year && r.month == month
  }

  /** `df[(year == y) & (month == m)]`: the matching rows, each as often as in the table. */
  function SelectMonth(rs: seq<Incident>, year: int, month: Month): (sel: seq<Incident>)
    ensures |sel| <= |rs|
    ensures forall r :: r in sel ==> InMonth(r, year, month)
    ensures forall r :: multiset(sel)[r] == if InMonth(r, year, month) then multiset(rs)[r] else 0
  {
    if rs == [] then []
    else
      var prefix, last := rs[..|rs| - 1], rs[|rs| - 1];
      assert rs == prefix + [last];
      SelectMonth(prefix, year, month) + (if InMonth(last, year, month) then [last] else [])
  }

  /** The filter of lines 328-356: "Todos" keeps everything; a parsed label
      keeps the rows of that month unless there are none; a label that
      does not parse keeps everything and reports the error. */
  function FilterByMonth(rs: seq<Incident>, selection: string): (f: Filtered)
    ensures selection == AllMonths ==> f == Filtered(rs, WholeHistoryTitle, Quiet)
    ensures selection != AllMonths && ParseLabel(selection).None? ==>
      f == Filtered(rs, WholeHistoryTitle, FilterError)
    ensures selection != AllMonths && ParseLabel(selection).Some? ==>
      var ym := ParseLabel(selection).value;
      if exists r :: r in rs && InMonth(r, ym.year, ym.month)
      then f.notice == Quiet && f.title == " - " + selection
        && (forall r :: multiset(f.rows)[r] == if InMonth(r, ym.year, ym.month) then multiset(rs)[r] else 0)
      else f == Filtered(rs, WholeHistoryTitle, NoDataWarning)
    ensures f.rows != [] <==> rs != []
  {
    if selection == AllMonths then Filtered(rs, WholeHistoryTitle, Quiet)
    else match ParseLabel(selection)
      case None => Filtered(rs, WholeHistoryTitle, FilterError)
      case Some(ym) =>
        var sel := SelectMonth(rs, ym.year, ym.month);
        if |sel| == 0 then
          assert forall r :: r in rs ==> !InMonth(r, ym.year, ym.month) by {
            forall r | r in rs ensures !InMonth(r, ym.year, ym.month) {
              assert multiset(rs)[r] > 0;
            }
          }
          Filtered(rs, WholeHistoryTitle, NoDataWarning)
        else
          assert sel[0] in sel;
          Filtered(sel, " - " + selection, Quiet)
  }

  /** The filter only ever shows records of the original table. */
  lemma {:induction false} FilterKeepsRecords(rs: seq<Incident>, selection: string, r: Incident)
    requires r in FilterByMonth(rs, selection).rows
    ensures r in rs
  {
    var f := FilterByMonth(rs, selection);
    assert multiset(f.rows)[r] > 0;
  }

  /** Choosing any month the selector offers never falls back: the table is
      exactly that month's records and there are some. */
  lemma {:induction false} OfferedMonthNeverFallsBack(rs: seq<Incident>, i: nat)
    requires 1 <= i < |MonthOptions(rs)|
    ensures var f := FilterByMonth(rs, MonthOptions(rs)[i]);
      f.notice == Quiet && f.rows != [] && f.title == " - " + MonthOptions(rs)[i]
  {
    var selection := MonthOptions(rs)[i];
    OptionsParseToRecordedMonths(rs, i);
    var ym := ParseLabel(selection).value;
    var j :| 0 <= j < |rs| && rs[j].year == ym.year && rs[j].month == ym.month;
    RecordedLabelFilters(rs, selection, j);
  }

  /** A label that parses to the month of record j filters quietly to that
      month's records. */
  lemma RecordedLabelFilters(rs: seq<Incident>, selection: string, j: nat)
    requires j < |rs|
    requires ParseLabel(selection) == Some(YearMonth(rs[j].year, rs[j].month))
    ensures var f := FilterByMonth(rs, selection);
      f.notice == Quiet && f.rows != [] && f.title == " - " + selection
  {
    AllIsNotALabel();
    assert selection != AllMonths;
    assert rs[j] in rs && InMonth(rs[j], rs[j].year, rs[j].month);
  }
}
