/** Spanish month labels ("Mes Año"), their parsing, and the list of
    historical months offered by the month selector. */
module MonthLabels {
  import opened Wrappers
  import opened Text
  import opened Incidents

  /** The `meses_es` table: month number to Spanish name. */
  const MonthNames: map<int, string> := map[
    1 := "Enero", 2 := "Febrero", 3 := "Marzo", 4 := "Abril",
    5 := "Mayo", 6 := "Junio", 7 := "Julio", 8 := "Agosto",
    9 := "Septiembre", 10 := "Octubre", 11 := "Noviembre", 12 := "Diciembre"]

  /** The `meses_inv` table: Spanish name back to month number. */
  const MonthNumbers: map<string, Month> := map[
    "Enero" := 1, "Febrero" := 2, "Marzo" := 3, "Abril" := 4,
    "Mayo" := 5, "Junio" := 6, "Julio" := 7, "Agosto" := 8,
    "Septiembre" := 9, "Octubre" := 10, "Noviembre" := 11, "Diciembre" := 12]

  /** The year and month a label denotes. */
  datatype YearMonth = YearMonth(year: int, month: Month)

  function MonthName(m: Month): (name: string)
    ensures IsWord(name)
    ensures name in MonthNumbers && MonthNumbers[name] == m
  {
    MonthNames[m]
  }

  /** `f"{meses_es[month]} {year}"`. */
  function FormatLabel(month: Month, year: nat): (s: string)
    ensures Split(s) == [MonthName(month), NatToString(year)]
  {
    NatToStringIsWord(year);
    SplitJoin(MonthName(month), NatToString(year));
    MonthName(month) + " " + NatToString(year)
  }

  /** The parse of the selected label: `partes = selection.split()`, the month
      from `meses_inv[partes[0]]`, the year from `int(partes[1])`. A missing
      word (IndexError), an unknown name (KeyError) or a bad number
      (ValueError) all yield None; words after the second are ignored. */
  function ParseLabel(selection: string): (r: Option<YearMonth>)
    ensures r.Some? <==> (var parts := Split(selection);
      |parts| >= 2 && parts[0] in MonthNumbers && ParseInt(parts[1]).Some?)
    ensures r.Some? ==> (var parts := Split(selection);
      && MonthName(r.value.month) == parts[0]
      && ParseInt(parts[1]) == Some(r.value.year))
  {
    var parts := Split(selection);
    if |parts| == 0 || parts[0] !in MonthNumbers then None
    else if |parts| < 2 then None
    else match ParseInt(parts[1])
      case None => None
      case Some(y) => Some(YearMonth(y, MonthNumbers[parts[0]]))
  }

  /** Formatting a (month, year) as a label and parsing it back recovers it. */
  lemma LabelRoundTrip(month: Month, year: nat)
    ensures ParseLabel(FormatLabel(month, year)) == Some(YearMonth(year, month))
  {
    NatToStringIsWord(year);
    SplitJoin(MonthName(month), NatToString(year));
    ParseIntOfNatToString(year);
  }

  /** The first word of a label is the month name (`mes_critico.split()[0]`). */
  lemma LabelFirstWord(month: Month, year: nat)
    ensures Split(FormatLabel(month, year)) != []
    ensures Split(FormatLabel(month, year))[0] == MonthName(month)
  {
    NatToStringIsWord(year);
    SplitJoin(MonthName(month), NatToString(year));
  }

  /** Distinct (month, year) pairs give distinct labels. */
  lemma LabelInjective(m1: Month, y1: nat, m2: Month, y2: nat)
    requires FormatLabel(m1, y1) == FormatLabel(m2, y2)
    ensures m1 == m2 && y1 == y2
  {
    LabelRoundTrip(m1, y1);
    LabelRoundTrip(m2, y2);
  }

  /** The "all months" entry is never mistaken for a month label. */
  lemma AllIsNotALabel()
    ensures ParseLabel("Todos") == None
  {
    assert IsWord("Todos");
    SplitWord("Todos");
  }

  ghost predicate StrictlyDescending(l: seq<nat>)
  {
    forall i, j :: 0 <= i < j < |l| ==> l[i] > l[j]
  }

  /** Inserts `k` into a strictly descending list unless it is already there. */
  function InsertDescending(k: nat, l: seq<nat>): (r: seq<nat>)
    requires StrictlyDescending(l)
    ensures StrictlyDescending(r)
    ensures forall x :: x in r <==> x == k || x in l
  {
    if l == [] then [k]
    else if k > l[0] then [k] + l
    else if k == l[0] then l
    else
      var t := InsertDescending(k, l[1..]);
      assert forall j :: 0 <= j < |t| ==> t[j] in t;
      [l[0]] + t
  }

  /** The set of calendar months (as keys) in which some incident occurred. */
  ghost function MonthsOf(rs: seq<Incident>): set<nat>
  {
    set i | 0 <= i < |rs| :: MonthKey(rs[i].year, rs[i].month)
  }

  /** The distinct months of the records, newest first
      (`sorted(df['Año_Mes'].unique(), reverse=True)`). */
  function DistinctMonthsDescending(rs: seq<Incident>): (r: seq<nat>)
    ensures StrictlyDescending(r)
    ensures forall k :: k in r <==> k in MonthsOf(rs)
  {
    if rs == [] then []
    else
      var prefix := rs[..|rs| - 1];
      var last := rs[|rs| - 1];
      assert forall i :: 0 <= i < |prefix| ==> prefix[i] == rs[i];
      assert MonthsOf(rs) == MonthsOf(prefix) + {MonthKey(last.year, last.month)};
      InsertDescending(MonthKey(last.year, last.month), DistinctMonthsDescending(prefix))
  }

  /** How many entries the selector offers besides "Todos". */
  const MaxRecentMonths := 12

  /** `[:12]` of the months, newest first. */
  function RecentMonths(rs: seq<Incident>): (r: seq<nat>)
    ensures |r| <= MaxRecentMonths
    ensures StrictlyDescending(r)
    ensures forall k :: k in r ==> k in MonthsOf(rs)
    ensures forall k :: k in MonthsOf(rs) && k !in r ==> |r| == MaxRecentMonths && k < r[|r| - 1]
  {
    var all := DistinctMonthsDescending(rs);
    var r := if |all| <= MaxRecentMonths then all else all[..MaxRecentMonths];
    assert forall k :: k in r ==> k in all;
    assert forall k :: k in all && k !in r ==> |r| == MaxRecentMonths && k < r[|r| - 1] by {
      forall k | k in all && k !in r ensures |r| == MaxRecentMonths && k < r[|r| - 1] {
        var j :| 0 <= j < |all| && all[j] == k;
        assert j >= MaxRecentMonths;
      }
    }
    r
  }

  const AllMonths := "Todos"

  /** The label of a month key; it parses back to the key's year and month. */
  function KeyLabel(k: nat): (s: string)
    ensures var p := ParseLabel(s);
      p.Some? && p.value.year >= 0 && MonthKey(p.value.year, p.value.month) == k
  {
    LabelRoundTrip(KeyMonth(k), KeyYear(k));
    KeyRoundTrip(k);
    FormatLabel(KeyMonth(k), KeyYear(k))
  }

  /** `['Todos'] + meses_hist_nombres`: the options of the month selector. */
  function MonthOptions(rs: seq<Incident>): (options: seq<string>)
    ensures |options| == 1 + |RecentMonths(rs)|
    ensures options[0] == AllMonths
    ensures forall i :: 1 <= i < |options| ==> options[i] == KeyLabel(RecentMonths(rs)[i - 1])
  {
    [AllMonths] + KeyLabels(RecentMonths(rs))
  }

  /** The label of each month key, in order. */
  function KeyLabels(ks: seq<nat>): (labels: seq<string>)
    ensures |labels| == |ks|
    ensures forall i :: 0 <= i < |ks| ==> labels[i] == KeyLabel(ks[i])
  {
    seq(|ks|, i requires 0 <= i < |ks| => KeyLabel(ks[i]))
  }

  /** Every option after "Todos" parses back to a month some incident
      happened in. */
  lemma OptionsParseToRecordedMonths(rs: seq<Incident>, i: nat)
    requires 1 <= i < |MonthOptions(rs)|
    ensures var p := ParseLabel(MonthOptions(rs)[i]);
      && p.Some? && p.value.year >= 0
      && MonthKey(p.value.year, p.value.month) == RecentMonths(rs)[i - 1]
      && exists j :: 0 <= j < |rs| && rs[j].year == p.value.year && rs[j].month == p.value.month
  {
    var k := RecentMonths(rs)[i - 1];
    LabelRoundTrip(KeyMonth(k), KeyYear(k));
    KeyRoundTrip(k);
    assert k in MonthsOf(rs);
    var j :| 0 <= j < |rs| && MonthKey(rs[j].year, rs[j].month) == k;
    MonthKeyRoundTrip(rs[j].year, rs[j].month);
  }

  /** No option is offered twice. */
  lemma OptionsDistinct(rs: seq<Incident>, i: nat, j: nat)
    requires i < j < |MonthOptions(rs)|
    ensures MonthOptions(rs)[i] != MonthOptions(rs)[j]
  {
    var options := MonthOptions(rs);
    OptionsParseToRecordedMonths(rs, j);
    if i == 0 {
      AllIsNotALabel();
    } else {
      OptionsParseToRecordedMonths(rs, i);
    }
  }
}
