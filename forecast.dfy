/** The forecast table returned by `cargar_predicciones`: twelve literal
    monthly predictions with their interval bounds, truncated to the chosen
    horizon, and the "critical month" headline taken from it. */
module Forecast {
  import opened Stats
  import opened Text
  import opened Incidents
  import opened MonthLabels

  datatype ForecastRow = ForecastRow(
    year: nat, month: Month, monthLabel: string,
    prediction: nat, lower: nat, upper: nat)

  /** `predicciones`, `ic_inferior` and `ic_superior`, month by month. */
  const Predicted: seq<nat> := [64, 48, 52, 76, 69, 58, 45, 51, 63, 72, 67, 54]
  const LowerBounds: seq<nat> := [33, 23, 24, 33, 28, 23, 20, 22, 28, 32, 29, 24]
  const UpperBounds: seq<nat> := [123, 99, 114, 174, 168, 148, 112, 125, 145, 165, 158, 132]

  /** The first forecast month: month-end dates start from 2025-08-01. */
  const FirstYear: nat := 2025
  const FirstMonth: Month := 8

  function Row(i: nat): (row: ForecastRow)
    requires i < 12
    ensures MonthKey(row.year, row.month) == MonthKey(FirstYear, FirstMonth) + i
  {
    var k := MonthKey(FirstYear, FirstMonth) + i;
    KeyRoundTrip(k);
    ForecastRow(KeyYear(k), KeyMonth(k), FormatLabel(KeyMonth(k), KeyYear(k)), Predicted[i], LowerBounds[i], UpperBounds[i])
  }

  /** Twelve consecutive month-ends from August 2025 (`freq='M'`), each
      labelled "Mes Año" with the `meses_es` names. */
  function ForecastTable(): (t: seq<ForecastRow>)
    ensures |t| == 12
    ensures forall i :: 0 <= i < |t| ==> t[i].lower <= t[i].prediction <= t[i].upper
    ensures forall i :: 0 <= i < |t| ==>
      MonthKey(t[i].year, t[i].month) == MonthKey(FirstYear, FirstMonth) + i
    ensures forall i :: 0 <= i < |t| ==> t[i].monthLabel == FormatLabel(t[i].month, t[i].year)
  {
    assert forall i :: 0 <= i < 12 ==> LowerBounds[i] <= Predicted[i] <= UpperBounds[i];
    seq(12, i requires 0 <= i < 12 => Row(i))
  }

  /** The horizons the selector offers. */
  const Horizons: seq<nat> := [3, 6, 9, 12]

  /** `df_predicciones.head(h)`: the first h rows (all of them when h exceeds 12). */
  function Head(h: nat): (rows: seq<ForecastRow>)
    ensures |rows| == if h <= 12 then h else 12
    ensures forall i :: 0 <= i < |rows| ==> rows[i] == ForecastTable()[i]
  {
    var t := ForecastTable();
    if h <= |t| then t[..h] else t
  }

  function Predictions(rows: seq<ForecastRow>): (p: seq<int>)
    ensures |p| == |rows|
    ensures forall i :: 0 <= i < |rows| ==> p[i] == rows[i].prediction
  {
    seq(|rows|, i requires 0 <= i < |rows| => rows[i].prediction)
  }

  /** Headline of the critical month: its name (`mes_critico.split()[0]`) and
      the largest prediction within the horizon. */
  datatype Critical = Critical(monthName: string, maxPrediction: nat)

  /** The headline for row i: the first word of its label, which is its
      month name, and its prediction. */
  function CriticalAt(rows: seq<ForecastRow>, i: nat): (c: Critical)
    requires i < |rows|
    requires rows[i].monthLabel == FormatLabel(rows[i].month, rows[i].year)
    ensures c.monthName == MonthName(rows[i].month)
    ensures c.maxPrediction == rows[i].prediction
  {
    Critical(Split(rows[i].monthLabel)[0], rows[i].prediction)
  }

  /** The maximum found on the prediction column, read back on the rows. */
  lemma PredictionMax(rows: seq<ForecastRow>, i: nat)
    requires i < |rows|
    requires forall j :: 0 <= j < |rows| ==> Predictions(rows)[j] <= Predictions(rows)[i]
    requires forall j :: 0 <= j < i ==> Predictions(rows)[j] < Predictions(rows)[i]
    ensures forall j :: 0 <= j < |rows| ==> rows[j].prediction <= rows[i].prediction
    ensures forall j :: 0 <= j < i ==> rows[j].prediction < rows[i].prediction
  {
    var p := Predictions(rows);
    assert forall j :: 0 <= j < |rows| ==> p[j] == rows[j].prediction;
  }

  /** `rows['Prediccion'].idxmax()`: the first row with the largest
      prediction. */
  function IdxMax(rows: seq<ForecastRow>): (i: nat)
    requires rows != []
    ensures i < |rows|
    ensures forall j :: 0 <= j < |rows| ==> rows[j].prediction <= rows[i].prediction
    ensures forall j :: 0 <= j < i ==> rows[j].prediction < rows[i].prediction
  {
    var i := FirstMax(Predictions(rows));
    PredictionMax(rows, i);
    i
  }

  /** The critical month of the horizon chosen in the selector: the month
      name of the row `idxmax()` picks within `head(h)`, and the largest
      prediction there. */
  function CriticalMonth(h: nat): (c: Critical)
    requires h in Horizons
    ensures |Head(h)| == h
    ensures var i := IdxMax(Head(h));
      && c.monthName == MonthName(Head(h)[i].month)
      && c.maxPrediction == Head(h)[i].prediction
    ensures forall j :: 0 <= j < h ==> Head(h)[j].prediction <= c.maxPrediction
  {
    HeadLabels(h);
    CriticalAt(Head(h), IdxMax(Head(h)))
  }

  /** Every row of an offered horizon's table carries its "Mes Año" label. */
  lemma HeadLabels(h: nat)
    requires h in Horizons
    ensures |Head(h)| == h
    ensures forall i :: 0 <= i < h ==> Head(h)[i].monthLabel == FormatLabel(Head(h)[i].month, Head(h)[i].year)
  {
    assert h <= 12;
    var t := ForecastTable();
    forall i | 0 <= i < h
      ensures Head(h)[i].monthLabel == FormatLabel(Head(h)[i].month, Head(h)[i].year)
    {
      assert Head(h)[i] == t[i];
    }
  }

  /** For every horizon offered, the shown table has exactly that many rows,
      each with its prediction inside its interval. */
  lemma {:induction false} HorizonTable(h: nat)
    requires h in Horizons
    ensures |Head(h)| == h
    ensures forall i :: 0 <= i < h ==> Head(h)[i].lower <= Head(h)[i].prediction <= Head(h)[i].upper
  {
  }
}
