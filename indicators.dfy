/**
 * The indicator series of app/indicadores/page.tsx: each series is sorted by date on a copy, its
 * last twelve observations are kept and each gets a month label for the chart. Parsing `fecha`
 * and formatting the label belong to lib/format.ts, which is not part of this model; they are
 * parameters (`timeOf` is the instant the date text denotes).
 */
module Indicators {
  import opened Seqs
  import opened Market

  /** An observation with its chart label (`{ ...item, month }`). */
  datatype ChartPoint = ChartPoint(fecha: string, valor: real, month: string)

  /** The sort key: `parseDate(x.fecha).getTime()`. */
  function ByTime(timeOf: string -> int): InflationData -> int
  {
    (x: InflationData) => timeOf(x.fecha)
  }

  /** The observation a chart point was made from. */
  function Observation(p: ChartPoint): InflationData
  {
    InflationData(p.fecha, p.valor)
  }

  function Observations(points: seq<ChartPoint>): (r: seq<InflationData>)
    ensures |r| == |points| && forall i :: 0 <= i < |r| ==> r[i] == Observation(points[i])
  {
    seq(|points|, i requires 0 <= i < |points| => Observation(points[i]))
  }

  /** `sorted.slice(-12)`: the last twelve elements, or all of them when there are fewer. */
  function LastTwelve<T>(s: seq<T>): (r: seq<T>)
    ensures |r| == if |s| < 12 then |s| else 12
    ensures r == s[|s| - |r|..]
  {
    if |s| < 12 then s else s[|s| - 12..]
  }

  /** `[...data].sort(...)`: a copy of the series in ascending order of date, ties kept in input order. */
  function SortedCopy(data: seq<InflationData>, timeOf: string -> int): (sorted: seq<InflationData>)
    ensures |sorted| == |data| && multiset(sorted) == multiset(data)
    ensures forall i, j :: 0 <= i < j < |sorted| ==> timeOf(sorted[i].fecha) <= timeOf(sorted[j].fecha)
  {
    SortBySortsAndPermutes(data, ByTime(timeOf));
    var sorted := SortBy(data, ByTime(timeOf));
    assert forall i :: 0 <= i < |sorted| ==> ByTime(timeOf)(sorted[i]) == timeOf(sorted[i].fecha);
    sorted
  }

  /** `last12.map((item) => ({ ...item, month: formatMonthLabel(parseDate(item.fecha)) }))`. */
  function WithLabels(obs: seq<InflationData>, monthLabel: string -> string): (r: seq<ChartPoint>)
    ensures |r| == |obs| && Observations(r) == obs
    ensures forall i :: 0 <= i < |r| ==> r[i].month == monthLabel(r[i].fecha)
  {
    seq(|obs|, i requires 0 <= i < |obs| => ChartPoint(obs[i].fecha, obs[i].valor, monthLabel(obs[i].fecha)))
  }

  /**
   * `processLast12Months`: a sorted copy of the series, its last twelve observations, each with
   * its month label; the observations keep their date and value.
   */
  function ProcessLast12Months(data: seq<InflationData>, timeOf: string -> int, monthLabel: string -> string)
    : (r: seq<ChartPoint>)
    ensures |r| == if |data| < 12 then |data| else 12
    ensures forall i, j :: 0 <= i < j < |r| ==> timeOf(r[i].fecha) <= timeOf(r[j].fecha)
    ensures forall i :: 0 <= i < |r| ==> r[i].month == monthLabel(r[i].fecha)
    ensures multiset(Observations(r)) <= multiset(data)
  {
    var sorted := SortedCopy(data, timeOf);
    var last := LastTwelve(sorted);
    var r := WithLabels(last, monthLabel);
    assert sorted == sorted[..|sorted| - |last|] + last;
    assert forall i :: 0 <= i < |r| ==> r[i].fecha == last[i].fecha == sorted[|sorted| - |last| + i].fecha;
    r
  }

  /** The points are the most recent observations: every observation left out is no later than any point kept. */
  lemma KeepsMostRecent(data: seq<InflationData>, timeOf: string -> int, monthLabel: string -> string)
    ensures var r := ProcessLast12Months(data, timeOf, monthLabel);
      forall x, i :: x in multiset(data) - multiset(Observations(r)) && 0 <= i < |r| ==> timeOf(x.fecha) <= timeOf(r[i].fecha)
  {
    var sorted := SortedCopy(data, timeOf);
    var last := LastTwelve(sorted);
    var r := ProcessLast12Months(data, timeOf, monthLabel);
    assert Observations(r) == last;
    KeptAfterDropped(data, sorted, |sorted| - |last|, r, timeOf);
  }

  /** The same, for any points read from the end of a sorted copy of the series. */
  lemma KeptAfterDropped(data: seq<InflationData>, sorted: seq<InflationData>, cut: nat, r: seq<ChartPoint>,
                         timeOf: string -> int)
    requires multiset(sorted) == multiset(data)
    requires forall a, b :: 0 <= a < b < |sorted| ==> timeOf(sorted[a].fecha) <= timeOf(sorted[b].fecha)
    requires cut <= |sorted| && Observations(r) == sorted[cut..]
    ensures forall x, i :: x in multiset(data) - multiset(Observations(r)) && 0 <= i < |r| ==> timeOf(x.fecha) <= timeOf(r[i].fecha)
  {
    DroppedPrefix(sorted, cut);
    forall x, i | x in multiset(data) - multiset(Observations(r)) && 0 <= i < |r|
      ensures timeOf(x.fecha) <= timeOf(r[i].fecha)
    {
      DroppedNoLater(sorted, cut, timeOf, x, cut + i);
      assert Observations(r)[i] == sorted[cut + i];
    }
  }

  /** In a series sorted by date, an element of a prefix is no later than anything after the prefix. */
  lemma DroppedNoLater(sorted: seq<InflationData>, cut: nat, timeOf: string -> int, x: InflationData, j: nat)
    requires forall a, b :: 0 <= a < b < |sorted| ==> timeOf(sorted[a].fecha) <= timeOf(sorted[b].fecha)
    requires cut <= j < |sorted| && x in multiset(sorted[..cut])
    ensures timeOf(x.fecha) <= timeOf(sorted[j].fecha)
  {
    var k := IndexInPrefix(sorted, cut, x);
  }

  /** An element counted in a prefix sits at some position of that prefix. */
  lemma IndexInPrefix<T>(s: seq<T>, cut: nat, x: T) returns (k: nat)
    requires cut <= |s| && x in multiset(s[..cut])
    ensures k < cut && s[k] == x
  {
    var p := s[..cut];
    assert x in p;
    k :| 0 <= k < |p| && p[k] == x;
  }

  /** Dropping a prefix removes exactly the prefix's elements. */
  lemma DroppedPrefix<T>(s: seq<T>, cut: nat)
    requires cut <= |s|
    ensures multiset(s) - multiset(s[cut..]) == multiset(s[..cut])
  {
    assert s == s[..cut] + s[cut..];
  }

  /** What the page renders once the three series have been fetched. */
  datatype IndicatorsView =
    | ErrorAlert
    | Charts(monthlyInflation: seq<ChartPoint>, annualInflation: seq<ChartPoint>, countryRisk: seq<ChartPoint>)

  /**
   * `IndicatorsContent`: the error alert when all three series are empty, otherwise the charts
   * of the three processed series.
   */
  function IndicatorsContent(monthly: seq<InflationData>, annual: seq<InflationData>, risk: seq<InflationData>,
                             timeOf: string -> int, monthLabel: string -> string): (v: IndicatorsView)
    ensures v.ErrorAlert? <==> |monthly| == 0 && |annual| == 0 && |risk| == 0
    ensures v.Charts? ==>
      |v.monthlyInflation| + |v.annualInflation| + |v.countryRisk| > 0 &&
      v.monthlyInflation == ProcessLast12Months(monthly, timeOf, monthLabel) &&
      v.annualInflation == ProcessLast12Months(annual, timeOf, monthLabel) &&
      v.countryRisk == ProcessLast12Months(risk, timeOf, monthLabel)
  {
    if |monthly| == 0 && |annual| == 0 && |risk| == 0 then ErrorAlert
    else
      Charts(ProcessLast12Months(monthly, timeOf, monthLabel), ProcessLast12Months(annual, timeOf, monthLabel),
             ProcessLast12Months(risk, timeOf, monthLabel))
  }
}
