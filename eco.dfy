/**
 * Eco-exceedance scoring (eco_endpoints.py). The control run's range of each
 * functional-flow metric defines that metric's eco endpoints; every model run is
 * then scored by the share of its values that fall strictly outside those
 * endpoints, per metric, in total and per seasonal group. Missing values (NaN
 * after `pd.to_numeric(errors='coerce')`) are `None`.
 */
module EcoEndpoints {
  import opened Base

  /** Gage id of the control run whose ranges define the eco endpoints. */
  const ControlId: string := "SACSMA_CTR_T0P0S0E0I0"

  /** Metrics removed before scoring. */
  const DroppedMetrics: seq<string> :=
    ["Peak_5", "Peak_10", "Peak_Dur_2", "Peak_Dur_5", "Peak_Dur_10",
     "Peak_Fre_2", "Peak_Fre_5", "Peak_Fre_10", "Std", "DS_No_Flow"]

  /** The six seasonal groups, in the order of the summary columns. */
  const AnnualMetrics: seq<string> := ["Avg", "CV"]
  const FallPulse: seq<string> := ["FA_Mag", "FA_Dur", "FA_Tim"]
  const WetSeason: seq<string> := ["Wet_BFL_Mag_10", "Wet_BFL_Mag_50", "Wet_Tim", "Wet_BFL_Dur"]
  const PeakFlows: seq<string> := ["Peak_2"]
  const SpringRecession: seq<string> := ["SP_Mag", "SP_Tim", "SP_Dur", "SP_ROC"]
  const DrySeason: seq<string> := ["DS_Mag_50", "DS_Mag_90", "DS_Tim", "DS_Dur_WS"]

  /** One labelled row of a run's `ffc_metrics` table: a metric (`name`) and its yearly values (`item`). */
  type MetricRow = Named<seq<Option<real>>>

  /** A model run: its gage id and its metric table. */
  datatype FfcModel = FfcModel(gageId: string, table: seq<MetricRow>)

  /** The eco endpoints of one metric (`eco_min`, `eco_max`); `None` is NaN. */
  datatype Bounds = Bounds(low: Option<real>, high: Option<real>)

  /** One line of the summary: scores are percentages. */
  datatype EcoRow = EcoRow(modelName: string, total: real, annual: real, fall: real,
                           wet: real, peak: real, spring: real, dry: real)

  // ---------------------------------------------------------------- lookups

  /** The last position holding the control run; the loop in eco_endpoints.py keeps the last match. */
  function ControlIndex(models: seq<FfcModel>): (r: Option<nat>)
    ensures r.None? <==> forall i :: 0 <= i < |models| ==> models[i].gageId != ControlId
    ensures r.Some? ==> r.value < |models| && models[r.value].gageId == ControlId
    ensures r.Some? ==> forall j :: r.value < j < |models| ==> models[j].gageId != ControlId
  {
    if models == [] then None
    else if models[|models| - 1].gageId == ControlId then Some(|models| - 1)
    else ControlIndex(models[..|models| - 1])
  }

  /** The model loop at the top of `eco_endpoints`, which remembers the control run. */
  method FindControl(models: seq<FfcModel>) returns (c: Option<nat>)
    ensures c == ControlIndex(models)
  {
    c := None;
    for i := 0 to |models|
      invariant c == ControlIndex(models[..i])
    {
      assert models[..i + 1][..i] == models[..i];
      if models[i].gageId == ControlId {
        c := Some(i);
      }
    }
    assert models[..|models|] == models;
  }

  // ---------------------------------------------------------------- endpoints

  /** `m` is what `np.nanmin` gives on a non-empty row: NaN when every value is missing, else the least value present. */
  predicate IsNanMin(row: seq<Option<real>>, m: Option<real>)
  {
    (m.None? <==> forall i :: 0 <= i < |row| ==> row[i].None?) &&
    (m.Some? ==> m in row && forall i :: 0 <= i < |row| && row[i].Some? ==> m.value <= row[i].value)
  }

  /** `m` is what `np.nanmax` gives on a non-empty row. */
  predicate IsNanMax(row: seq<Option<real>>, m: Option<real>)
  {
    (m.None? <==> forall i :: 0 <= i < |row| ==> row[i].None?) &&
    (m.Some? ==> m in row && forall i :: 0 <= i < |row| && row[i].Some? ==> row[i].value <= m.value)
  }

  function Lowest(row: seq<Option<real>>): (r: Option<real>)
    ensures IsNanMin(row, r)
  {
    if row == [] then None
    else
      var rest := Lowest(row[..|row| - 1]);
      var last := row[|row| - 1];
      assert row == row[..|row| - 1] + [last];
      if last.None? then rest
      else if rest.None? || last.value < rest.value then last
      else rest
  }

  function Highest(row: seq<Option<real>>): (r: Option<real>)
    ensures IsNanMax(row, r)
  {
    if row == [] then None
    else
      var rest := Highest(row[..|row| - 1]);
      var last := row[|row| - 1];
      assert row == row[..|row| - 1] + [last];
      if last.None? then rest
      else if rest.None? || last.value > rest.value then last
      else rest
  }

  /**
   * The endpoints of one metric from its looked-up control row: KeyError when
   * the control has no such row, ValueError when the row is empty (`np.nanmin`
   * of an empty array).
   */
  function BoundsOfRow(row: Result<seq<Option<real>>>): (r: Result<Bounds>)
    ensures r.Err? <==> row.Err? || row.value == []
    ensures r.Err? ==> r.error == if row.Err? then KeyError else ValueError
    ensures r.Ok? ==> IsNanMin(row.value, r.value.low) && IsNanMax(row.value, r.value.high)
  {
    if row.Err? then Err(KeyError)
    else if row.value == [] then Err(ValueError)
    else Ok(Bounds(Lowest(row.value), Highest(row.value)))
  }

  /** The endpoints of one metric, its row looked up in the control run by label. */
  function BoundsOf(control: FfcModel, metric: string): Result<Bounds>
  {
    BoundsOfRow(RowOf(control.table, metric))
  }

  /** The endpoints table: every metric of the first run, looked up in the control run; the first failing metric decides the error. */
  function EndpointMap(control: FfcModel, metrics: seq<string>): (r: Result<map<string, Bounds>>)
    ensures r.Ok? <==> forall i :: 0 <= i < |metrics| ==> BoundsOf(control, metrics[i]).Ok?
    ensures r.Ok? ==> r.value.Keys == set m | m in metrics
    ensures r.Ok? ==> forall m :: m in r.value ==> BoundsOf(control, m) == Ok(r.value[m])
    ensures r.Err? ==> exists i :: 0 <= i < |metrics| && BoundsOf(control, metrics[i]) == Err(r.error) &&
                        forall j :: 0 <= j < i ==> BoundsOf(control, metrics[j]).Ok?
  {
    if metrics == [] then Ok(map[])
    else
      var front := metrics[..|metrics| - 1];
      var last := metrics[|metrics| - 1];
      assert metrics == front + [last];
      var prev := EndpointMap(control, front);
      if prev.Err? then prev
      else
        var b := BoundsOf(control, last);
        if b.Err? then Err(b.error)
        else Ok(prev.value[last := b.value])
  }

  /** The endpoint loop: min and max of the control's row, metric by metric. */
  method ComputeEndpoints(control: FfcModel, metrics: seq<string>) returns (r: Result<map<string, Bounds>>)
    ensures r == EndpointMap(control, metrics)
  {
    var ends: map<string, Bounds> := map[];
    for i := 0 to |metrics|
      invariant EndpointMap(control, metrics[..i]) == Ok(ends)
    {
      assert metrics[..i + 1][..i] == metrics[..i];
      var b := BoundsOf(control, metrics[i]);
      if b.Err? {
        EndpointMapErr(control, metrics, i);
        return Err(b.error);
      }
      ends := ends[metrics[i] := b.value];
    }
    assert metrics[..|metrics|] == metrics;
    return Ok(ends);
  }

  /** A failure in a prefix of the metrics is the failure of the whole table. */
  lemma {:induction false} EndpointMapErr(control: FfcModel, metrics: seq<string>, i: nat)
    requires i < |metrics| && EndpointMap(control, metrics[..i]).Ok? && BoundsOf(control, metrics[i]).Err?
    ensures EndpointMap(control, metrics) == Err(BoundsOf(control, metrics[i]).error)
  {
    var r := EndpointMap(control, metrics);
    forall j | 0 <= j < i
      ensures BoundsOf(control, metrics[j]).Ok?
    {
      assert metrics[..i][j] == metrics[j];
    }
    assert r.Err?;
    var k :| 0 <= k < |metrics| && BoundsOf(control, metrics[k]) == Err(r.error) &&
             forall j :: 0 <= j < k ==> BoundsOf(control, metrics[j]).Ok?;
    assert k == i;
  }

  // ---------------------------------------------------------------- exceedance

  /** A value exceeds when it lies strictly below `eco_min` or strictly above `eco_max`; a comparison with NaN is false. */
  function Exceeds(v: Option<real>, b: Bounds): (r: bool)
    ensures v.None? ==> !r
    ensures v.Some? && b.low.Some? && v.value < b.low.value ==> r
    ensures v.Some? && b.high.Some? && v.value > b.high.value ==> r
    ensures b.low.Some? && b.high.Some? && v.Some? && b.low.value <= v.value <= b.high.value ==> !r
    ensures b.low.None? && b.high.None? ==> !r
  {
    v.Some? && ((b.low.Some? && v.value < b.low.value) || (b.high.Some? && v.value > b.high.value))
  }

  /** The number of exceeding values of a row. */
  function ExceedCount(row: seq<Option<real>>, b: Bounds): (r: nat)
    ensures r <= |row|
  {
    if row == [] then 0
    else ExceedCount(row[..|row| - 1], b) + (if Exceeds(row[|row| - 1], b) then 1 else 0)
  }

  /** The counting loop of eco_endpoints.py. */
  method CountExceedances(row: seq<Option<real>>, b: Bounds) returns (count: nat)
    ensures count == ExceedCount(row, b)
  {
    count := 0;
    for i := 0 to |row|
      invariant count == ExceedCount(row[..i], b)
    {
      assert row[..i + 1][..i] == row[..i];
      if Exceeds(row[i], b) {
        count := count + 1;
      }
    }
    assert row[..|row|] == row;
  }

  /** Exactly when no value exceeds, the count is zero. */
  lemma {:induction false} ExceedCountZero(row: seq<Option<real>>, b: Bounds)
    ensures ExceedCount(row, b) == 0 <==> forall i :: 0 <= i < |row| ==> !Exceeds(row[i], b)
  {
    if row != [] {
      var front := row[..|row| - 1];
      ExceedCountZero(front, b);
      assert forall i :: 0 <= i < |front| ==> front[i] == row[i];
    }
  }

  /** A row never exceeds its own NaN-aware range: the control run scores zero. */
  lemma OwnRangeNoExceedance(row: seq<Option<real>>, b: Bounds)
    requires IsNanMin(row, b.low) && IsNanMax(row, b.high)
    ensures ExceedCount(row, b) == 0
  {
    forall i | 0 <= i < |row|
      ensures !Exceeds(row[i], b)
    {
      if row[i].Some? {
        assert b.low.Some? && b.high.Some?;
      }
    }
    ExceedCountZero(row, b);
  }

  /** `count / n` as a fraction of a non-empty whole. */
  function Share(count: nat, n: nat): (q: real)
    requires 0 < n && count <= n
    ensures 0.0 <= q <= 1.0 && q * n as real == count as real
    ensures q == 0.0 <==> count == 0
  {
    var q := count as real / n as real;
    assert q <= 1.0 by {
      if q > 1.0 {
        assert q * n as real > 1.0 * n as real;
      }
    }
    q
  }

  /**
   * `count / len(row)` for one metric once its row has been looked up: KeyError
   * when the run lacks the metric, ZeroDivisionError when its row is empty,
   * KeyError when the endpoints table lacks the metric. Missing values count in
   * the denominator.
   */
  function RowFraction(row: Result<seq<Option<real>>>, metric: string, ends: map<string, Bounds>): (r: Result<real>)
    ensures r.Err? <==> row.Err? || row.value == [] || metric !in ends
    ensures r.Err? ==> r.error == if row.Ok? && row.value == [] then ZeroDivisionError else KeyError
    ensures r.Ok? ==> 0.0 <= r.value <= 1.0
    ensures r.Ok? ==> r.value * |row.value| as real == ExceedCount(row.value, ends[metric]) as real
    ensures r.Ok? ==> (r.value == 0.0 <==> ExceedCount(row.value, ends[metric]) == 0)
  {
    if row.Err? then Err(KeyError)
    else if row.value == [] then Err(ZeroDivisionError)
    else if metric !in ends then Err(KeyError)
    else Ok(Share(ExceedCount(row.value, ends[metric]), |row.value|))
  }

  /** The fraction for one metric of one run, its row looked up by label. */
  function FractionFor(model: FfcModel, metric: string, ends: map<string, Bounds>): Result<real>
  {
    RowFraction(RowOf(model.table, metric), metric, ends)
  }

  // ---------------------------------------------------------------- per-model scores

  /** The `dict` of one run: the fraction of each kept metric, in metric order. */
  function Fractions(model: FfcModel, kept: seq<string>, ends: map<string, Bounds>): (r: Result<seq<real>>)
    ensures r.Ok? ==> |r.value| == |kept| && forall i :: 0 <= i < |kept| ==> 0.0 <= r.value[i] <= 1.0
  {
    var all := seq(|kept|, i requires 0 <= i < |kept| => FractionFor(model, kept[i], ends));
    var r := AllOk(all);
    assert r.Ok? ==> forall i :: 0 <= i < |kept| ==> all[i] == Ok(r.value[i]) && all[i] == FractionFor(model, kept[i], ends);
    r
  }

  /** One pass of the inner metric loop: look up the run's row, count, divide. */
  method FractionOf(model: FfcModel, metric: string, ends: map<string, Bounds>) returns (r: Result<real>)
    ensures r == FractionFor(model, metric, ends)
  {
    var row := RowOf(model.table, metric);
    if row.Err? {
      return Err(KeyError);
    }
    if |row.value| == 0 {
      return Err(ZeroDivisionError);
    }
    if metric !in ends {
      return Err(KeyError);
    }
    var count := CountExceedances(row.value, ends[metric]);
    return Ok(count as real / |row.value| as real);
  }

  /** The inner metric loop of eco_endpoints.py for one run, filling its `dict`. */
  method ModelFractions(model: FfcModel, kept: seq<string>, ends: map<string, Bounds>) returns (r: Result<seq<real>>)
    ensures r == Fractions(model, kept, ends)
  {
    ghost var all := seq(|kept|, i requires 0 <= i < |kept| => FractionFor(model, kept[i], ends));
    var fractions: seq<real> := [];
    for i := 0 to |kept|
      invariant AllOk(all[..i]) == Ok(fractions)
    {
      var f := FractionOf(model, kept[i], ends);
      assert all[i] == f;
      if f.Err? {
        AllOkFirstErr(all, i);
        return Err(f.error);
      }
      AllOkStep(all, i, fractions);
      fractions := fractions + [f.value];
    }
    assert all[..|kept|] == all;
    return Ok(fractions);
  }

  function Sum(s: seq<real>): real
  {
    if s == [] then 0.0 else Sum(s[..|s| - 1]) + s[|s| - 1]
  }

  /** A sum of shares in [0, 1] lies between zero and the number of shares. */
  lemma {:induction false} SumOfShares(s: seq<real>)
    requires forall i :: 0 <= i < |s| ==> 0.0 <= s[i] <= 1.0
    ensures 0.0 <= Sum(s) <= |s| as real
  {
    if s != [] {
      SumOfShares(s[..|s| - 1]);
    }
  }

  /** A sum of zeros is zero. */
  lemma {:induction false} SumOfZeros(s: seq<real>)
    requires forall i :: 0 <= i < |s| ==> s[i] == 0.0
    ensures Sum(s) == 0.0
  {
    if s != [] {
      SumOfZeros(s[..|s| - 1]);
    }
  }

  /** A sum of ones is the number of terms. */
  lemma {:induction false} SumOfOnes(s: seq<real>)
    requires forall i :: 0 <= i < |s| ==> s[i] == 1.0
    ensures Sum(s) == |s| as real
  {
    if s != [] {
      SumOfOnes(s[..|s| - 1]);
    }
  }

  lemma SumFacts(s: seq<real>)
    ensures (forall i :: 0 <= i < |s| ==> 0.0 <= s[i] <= 1.0) ==> 0.0 <= Sum(s) <= |s| as real
    ensures (forall i :: 0 <= i < |s| ==> s[i] == 0.0) ==> Sum(s) == 0.0
    ensures (forall i :: 0 <= i < |s| ==> s[i] == 1.0) ==> Sum(s) == |s| as real
  {
    if forall i :: 0 <= i < |s| ==> 0.0 <= s[i] <= 1.0 {
      SumOfShares(s);
    }
    if forall i :: 0 <= i < |s| ==> s[i] == 0.0 {
      SumOfZeros(s);
    }
    if forall i :: 0 <= i < |s| ==> s[i] == 1.0 {
      SumOfOnes(s);
    }
  }

  /** `r` is the mean of `n` shares summing to `sum`, as a percentage. */
  predicate IsPercent(r: real, sum: real, n: nat)
  {
    r * n as real == 100.0 * sum
  }

  /** `sum / n * 100`: the mean of `n` shares as a percentage. */
  function Percent(sum: real, n: nat): (r: real)
    requires n > 0
    ensures IsPercent(r, sum, n)
    ensures 0.0 <= sum <= n as real ==> 0.0 <= r <= 100.0
    ensures sum == 0.0 ==> r == 0.0
    ensures sum == n as real ==> r == 100.0
  {
    assert sum / n as real * n as real == sum;
    sum / n as real * 100.0
  }

  /** Every metric of `group` survived the drop list. */
  predicate GroupKept(kept: seq<string>, group: seq<string>)
  {
    forall k :: 0 <= k < |group| ==> group[k] in kept
  }

  /** `[dict[m] for m in group]`: the fractions of a group's metrics, in group order. */
  function GroupFractions(kept: seq<string>, fractions: seq<real>, group: seq<string>): (r: seq<real>)
    requires |fractions| == |kept| && GroupKept(kept, group)
    ensures |r| == |group| && forall k :: 0 <= k < |group| ==> r[k] == fractions[IndexOf(kept, group[k])]
  {
    seq(|group|, k requires 0 <= k < |group| => fractions[IndexOf(kept, group[k])])
  }

  /**
   * A group score, `sum([dict[m] for m in group]) / len(group) * 100`: the
   * mean of the group's own fractions as a percentage; KeyError when a
   * group metric was not kept.
   */
  function GroupScore(kept: seq<string>, fractions: seq<real>, group: seq<string>): (r: Result<real>)
    requires |fractions| == |kept| && |group| > 0
    ensures r.Err? <==> !GroupKept(kept, group)
    ensures r.Err? ==> r.error == KeyError
    ensures r.Ok? ==> IsPercent(r.value, Sum(GroupFractions(kept, fractions, group)), |group|)
    ensures r.Ok? && (forall i :: 0 <= i < |fractions| ==> 0.0 <= fractions[i] <= 1.0) ==> 0.0 <= r.value <= 100.0
    ensures r.Ok? && (forall i :: 0 <= i < |fractions| ==> fractions[i] == 0.0) ==> r.value == 0.0
  {
    if !GroupKept(kept, group) then Err(KeyError)
    else
      var picked := GroupFractions(kept, fractions, group);
      SumFacts(picked);
      Ok(Percent(Sum(picked), |group|))
  }

  /**
   * A group score is bounded by its own fractions alone: all in [0, 1] gives
   * a score in [0, 100], all 0 gives 0 and all 1 gives 100, whatever the
   * fractions of the other metrics are.
   */
  lemma GroupScoreExtremes(kept: seq<string>, fractions: seq<real>, group: seq<string>)
    requires |fractions| == |kept| && |group| > 0 && GroupKept(kept, group)
    ensures (forall k :: 0 <= k < |group| ==> 0.0 <= fractions[IndexOf(kept, group[k])] <= 1.0) ==>
              0.0 <= GroupScore(kept, fractions, group).value <= 100.0
    ensures (forall k :: 0 <= k < |group| ==> fractions[IndexOf(kept, group[k])] == 0.0) ==>
              GroupScore(kept, fractions, group).value == 0.0
    ensures (forall k :: 0 <= k < |group| ==> fractions[IndexOf(kept, group[k])] == 1.0) ==>
              GroupScore(kept, fractions, group).value == 100.0
  {
    SumFacts(GroupFractions(kept, fractions, group));
  }

  /** A group score reads only the fractions of the group's own metrics. */
  lemma GroupScoreOwnMetrics(kept: seq<string>, f: seq<real>, g: seq<real>, group: seq<string>)
    requires |f| == |kept| && |g| == |kept| && |group| > 0
    requires forall k :: 0 <= k < |group| && group[k] in kept ==> f[IndexOf(kept, group[k])] == g[IndexOf(kept, group[k])]
    ensures GroupScore(kept, f, group) == GroupScore(kept, g, group)
  {
    if GroupKept(kept, group) {
      assert GroupFractions(kept, f, group) == GroupFractions(kept, g, group);
    }
  }

  /** Every metric of the six groups survived the drop list. */
  predicate GroupsKept(kept: seq<string>)
  {
    GroupKept(kept, AnnualMetrics) && GroupKept(kept, FallPulse) && GroupKept(kept, WetSeason) &&
    GroupKept(kept, PeakFlows) && GroupKept(kept, SpringRecession) && GroupKept(kept, DrySeason)
  }

  /**
   * `total_exceedance` followed by the six group scores, in the order the
   * source computes them: the total is the mean of every kept fraction as a
   * percentage, and each group field is that group's score.
   */
  function Scores(name: string, kept: seq<string>, fractions: seq<real>): (r: Result<EcoRow>)
    requires |fractions| == |kept|
    ensures r.Err? <==> |kept| == 0 || !GroupsKept(kept)
    ensures r.Err? ==> r.error == if |kept| == 0 then ZeroDivisionError else KeyError
    ensures r.Ok? ==> r.value.modelName == name
    ensures r.Ok? ==> IsPercent(r.value.total, Sum(fractions), |kept|)
    ensures r.Ok? && (forall i :: 0 <= i < |fractions| ==> 0.0 <= fractions[i] <= 1.0) ==> InRange(r.value)
    ensures r.Ok? && (forall i :: 0 <= i < |fractions| ==> fractions[i] == 0.0) ==> AllZero(r.value)
  {
    if |kept| == 0 then Err(ZeroDivisionError)
    else
      SumFacts(fractions);
      var total := Percent(Sum(fractions), |kept|);
      var annual := GroupScore(kept, fractions, AnnualMetrics);
      var fall := GroupScore(kept, fractions, FallPulse);
      var wet := GroupScore(kept, fractions, WetSeason);
      var peak := GroupScore(kept, fractions, PeakFlows);
      var spring := GroupScore(kept, fractions, SpringRecession);
      var dry := GroupScore(kept, fractions, DrySeason);
      if annual.Err? || fall.Err? || wet.Err? || peak.Err? || spring.Err? || dry.Err? then Err(KeyError)
      else Ok(EcoRow(name, total, annual.value, fall.value, wet.value, peak.value, spring.value, dry.value))
  }

  /** Each group field of a summary line is that group's own score. */
  lemma ScoresGroups(name: string, kept: seq<string>, fractions: seq<real>)
    requires |fractions| == |kept| && Scores(name, kept, fractions).Ok?
    ensures var row := Scores(name, kept, fractions).value;
      GroupScore(kept, fractions, AnnualMetrics) == Ok(row.annual) &&
      GroupScore(kept, fractions, FallPulse) == Ok(row.fall) &&
      GroupScore(kept, fractions, WetSeason) == Ok(row.wet) &&
      GroupScore(kept, fractions, PeakFlows) == Ok(row.peak) &&
      GroupScore(kept, fractions, SpringRecession) == Ok(row.spring) &&
      GroupScore(kept, fractions, DrySeason) == Ok(row.dry)
  {
  }

  predicate InRange(row: EcoRow)
  {
    0.0 <= row.total <= 100.0 && 0.0 <= row.annual <= 100.0 && 0.0 <= row.fall <= 100.0 &&
    0.0 <= row.wet <= 100.0 && 0.0 <= row.peak <= 100.0 && 0.0 <= row.spring <= 100.0 &&
    0.0 <= row.dry <= 100.0
  }

  predicate AllZero(row: EcoRow)
  {
    row.total == 0.0 && row.annual == 0.0 && row.fall == 0.0 && row.wet == 0.0 &&
    row.peak == 0.0 && row.spring == 0.0 && row.dry == 0.0
  }

  /** The summary line of one run. */
  function SummaryOf(model: FfcModel, kept: seq<string>, ends: map<string, Bounds>): (r: Result<EcoRow>)
    ensures r.Ok? ==> r.value.modelName == model.gageId && InRange(r.value)
  {
    var fractions := Fractions(model, kept, ends);
    if fractions.Err? then Err(fractions.error)
    else Scores(model.gageId, kept, fractions.value)
  }

  // ---------------------------------------------------------------- metric selection

  /** The metrics that survive the drop list, in order. */
  function Keep(metrics: seq<string>): (r: seq<string>)
    ensures forall m :: m in r <==> m in metrics && m !in DroppedMetrics
    ensures |r| <= |metrics|
  {
    if metrics == [] then []
    else
      var rest := Keep(metrics[1..]);
      assert forall m :: m in metrics <==> m == metrics[0] || m in metrics[1..];
      if metrics[0] in DroppedMetrics then rest else [metrics[0]] + rest
  }

  /**
   * Keeping is compositional: the survivors of a concatenation are the
   * survivors of each part, in that order. With the membership clause of
   * `Keep`, this fixes the result: each metric survives or not by itself,
   * and the survivors stay in input order.
   */
  lemma {:induction false} KeepAppend(a: seq<string>, b: seq<string>)
    ensures Keep(a + b) == Keep(a) + Keep(b)
  {
    if a != [] {
      var rest := Keep(a[1..] + b);
      assert (a + b)[0] == a[0] && (a + b)[1..] == a[1..] + b;
      assert Keep(a + b) == if a[0] in DroppedMetrics then rest else [a[0]] + rest;
      KeepAppend(a[1..], b);
    } else {
      assert a + b == b;
    }
  }

  /** `metrics.drop([...])`: KeyError when one of the dropped labels is absent. */
  function DropMetrics(metrics: seq<string>): (r: Result<seq<string>>)
    ensures r.Err? <==> exists k :: 0 <= k < |DroppedMetrics| && DroppedMetrics[k] !in metrics
    ensures r.Err? ==> r.error == KeyError
    ensures r.Ok? ==> forall m :: m in r.value <==> m in metrics && m !in DroppedMetrics
  {
    if exists k :: 0 <= k < |DroppedMetrics| && DroppedMetrics[k] !in metrics then Err(KeyError)
    else Ok(Keep(metrics))
  }

  // ---------------------------------------------------------------- names in order

  /** Python's `<=` on strings: lexicographic by code point. */
  predicate StrLe(a: string, b: string)
  {
    |a| == 0 || (|b| > 0 && (a[0] < b[0] || (a[0] == b[0] && StrLe(a[1..], b[1..]))))
  }

  lemma {:induction false} StrLeTotal(a: string, b: string)
    ensures StrLe(a, b) || StrLe(b, a)
  {
    if |a| > 0 && |b| > 0 && a[0] == b[0] {
      StrLeTotal(a[1..], b[1..]);
    }
  }

  lemma {:induction false} StrLeTrans(a: string, b: string, c: string)
    requires StrLe(a, b) && StrLe(b, c)
    ensures StrLe(a, c)
  {
    if |a| > 0 && a[0] == b[0] && b[0] == c[0] {
      StrLeTrans(a[1..], b[1..], c[1..]);
    }
  }

  predicate SortedByName(rows: seq<EcoRow>)
  {
    forall i, j :: 0 <= i < j < |rows| ==> StrLe(rows[i].modelName, rows[j].modelName)
  }

  /** A name not above the first of a sorted list is not above any of it. */
  lemma BelowSorted(x: EcoRow, rows: seq<EcoRow>)
    requires SortedByName(rows) && rows != [] && StrLe(x.modelName, rows[0].modelName)
    ensures forall j :: 0 <= j < |rows| ==> StrLe(x.modelName, rows[j].modelName)
  {
    forall j | 0 < j < |rows| ensures StrLe(x.modelName, rows[j].modelName) {
      StrLeTrans(x.modelName, rows[0].modelName, rows[j].modelName);
    }
  }

  /** A name not above every row of `tail` nor above `x` is not above any row of a reordering of `tail` and `x`. */
  lemma BelowAll(head: EcoRow, tail: seq<EcoRow>, x: EcoRow, rest: seq<EcoRow>)
    requires multiset(rest) == multiset(tail) + multiset{x}
    requires forall j :: 0 <= j < |tail| ==> StrLe(head.modelName, tail[j].modelName)
    requires StrLe(head.modelName, x.modelName)
    ensures forall j :: 0 <= j < |rest| ==> StrLe(head.modelName, rest[j].modelName)
  {
    forall j | 0 <= j < |rest| ensures StrLe(head.modelName, rest[j].modelName) {
      assert rest[j] in multiset(tail) + multiset{x};
      if rest[j] != x {
        var k :| 0 <= k < |tail| && tail[k] == rest[j];
      }
    }
  }

  /** A row not above any row of a sorted list can go in front of it. */
  lemma ConsSorted(head: EcoRow, rows: seq<EcoRow>)
    requires SortedByName(rows)
    requires forall j :: 0 <= j < |rows| ==> StrLe(head.modelName, rows[j].modelName)
    ensures SortedByName([head] + rows)
  {
    var r := [head] + rows;
    forall i, j | 0 <= i < j < |r| ensures StrLe(r[i].modelName, r[j].modelName) {
      if i > 0 {
        assert r[i] == rows[i - 1] && r[j] == rows[j - 1];
      }
    }
  }

  /** Places a row before the first row whose name it does not exceed. */
  function InsertByName(rows: seq<EcoRow>, x: EcoRow): (r: seq<EcoRow>)
    requires SortedByName(rows)
    ensures SortedByName(r)
    ensures multiset(r) == multiset(rows) + multiset{x}
  {
    if rows == [] then [x]
    else if StrLe(x.modelName, rows[0].modelName) then
      BelowSorted(x, rows);
      ConsSorted(x, rows);
      [x] + rows
    else
      StrLeTotal(x.modelName, rows[0].modelName);
      var rest := InsertByName(rows[1..], x);
      assert rows == [rows[0]] + rows[1..];
      BelowAll(rows[0], rows[1..], x, rest);
      ConsSorted(rows[0], rest);
      [rows[0]] + rest
  }

  /** `df.sort_values('model_name')`: a reordering with names ascending (ties in no promised order). */
  function SortByName(rows: seq<EcoRow>): (r: seq<EcoRow>)
    ensures SortedByName(r)
    ensures multiset(r) == multiset(rows)
  {
    if rows == [] then []
    else
      assert rows == rows[..|rows| - 1] + [rows[|rows| - 1]];
      InsertByName(SortByName(rows[..|rows| - 1]), rows[|rows| - 1])
  }

  // ---------------------------------------------------------------- the whole analysis

  /**
   * The summary table before sorting: IndexError without runs, NameError when no
   * control run exists and the first run has metrics, then the endpoint, drop and
   * per-run failures in program order.
   */
  function EcoSummary(models: seq<FfcModel>): Result<seq<EcoRow>>
  {
    if |models| == 0 then Err(IndexError)
    else
      var metrics := Labels(models[0].table);
      var control := ControlIndex(models);
      var ends := if control.Some? then EndpointMap(models[control.value], metrics)
                  else if metrics == [] then Ok(map[]) else Err(NameError);
      if ends.Err? then Err(ends.error)
      else
        var kept := DropMetrics(metrics);
        if kept.Err? then Err(kept.error)
        else AllOk(seq(|models|, i requires 0 <= i < |models| => SummaryOf(models[i], kept.value, ends.value)))
  }

  /** One pass of the model loop: the run's fractions, then its total and group scores. */
  method SummaryLine(model: FfcModel, kept: seq<string>, ends: map<string, Bounds>) returns (r: Result<EcoRow>)
    ensures r == SummaryOf(model, kept, ends)
  {
    var fractions := ModelFractions(model, kept, ends);
    if fractions.Err? {
      return Err(fractions.error);
    }
    return Scores(model.gageId, kept, fractions.value);
  }

  /** The model loop: one summary line per run, in run order, stopping at the first run that fails. */
  method SummaryLines(models: seq<FfcModel>, kept: seq<string>, ends: map<string, Bounds>) returns (r: Result<seq<EcoRow>>)
    ensures r == AllOk(seq(|models|, i requires 0 <= i < |models| => SummaryOf(models[i], kept, ends)))
  {
    ghost var all := seq(|models|, i requires 0 <= i < |models| => SummaryOf(models[i], kept, ends));
    var rows: seq<EcoRow> := [];
    for i := 0 to |models|
      invariant AllOk(all[..i]) == Ok(rows)
    {
      var row := SummaryLine(models[i], kept, ends);
      assert all[i] == row;
      if row.Err? {
        AllOkFirstErr(all, i);
        return Err(row.error);
      }
      AllOkStep(all, i, rows);
      rows := rows + [row.value];
    }
    assert all[..|models|] == all;
    return Ok(rows);
  }

  /** `eco_endpoints`' scoring: one summary line per run, sorted by model name. */
  method EcoEndpointsSummary(models: seq<FfcModel>) returns (r: Result<seq<EcoRow>>)
    ensures r.Err? <==> EcoSummary(models).Err?
    ensures r.Err? ==> r.error == EcoSummary(models).error
    ensures r.Ok? ==> SortedByName(r.value) && multiset(r.value) == multiset(EcoSummary(models).value)
  {
    if |models| == 0 {
      return Err(IndexError);
    }
    var control := FindControl(models);
    var metrics := Labels(models[0].table);
    var ends: map<string, Bounds>;
    if control.None? {
      if |metrics| > 0 {
        return Err(NameError);
      }
      ends := map[];
    } else {
      var e := ComputeEndpoints(models[control.value], metrics);
      if e.Err? {
        return Err(e.error);
      }
      ends := e.value;
    }
    var kept := DropMetrics(metrics);
    if kept.Err? {
      return Err(kept.error);
    }
    var lines := SummaryLines(models, kept.value, ends);
    if lines.Err? {
      return Err(lines.error);
    }
    return Ok(SortByName(lines.value));
  }

  /** A successful summary has one in-range line per run, under that run's name. */
  lemma SummaryShape(models: seq<FfcModel>)
    requires EcoSummary(models).Ok?
    ensures |EcoSummary(models).value| == |models|
    ensures forall i :: 0 <= i < |models| ==> EcoSummary(models).value[i].modelName == models[i].gageId
    ensures forall i :: 0 <= i < |models| ==> InRange(EcoSummary(models).value[i])
  {
  }

  /** The run whose rows defined the endpoints has a zero fraction for each of those metrics. */
  lemma OwnFractionZero(control: FfcModel, metrics: seq<string>, m: string)
    requires EndpointMap(control, metrics).Ok? && m in metrics
    requires FractionFor(control, m, EndpointMap(control, metrics).value).Ok?
    ensures FractionFor(control, m, EndpointMap(control, metrics).value).value == 0.0
  {
    var ends := EndpointMap(control, metrics).value;
    assert BoundsOf(control, m) == Ok(ends[m]);
    OwnRangeNoExceedance(RowOf(control.table, m).value, ends[m]);
  }

  /** Every fraction of the run whose rows defined the endpoints is zero. */
  lemma OwnFractionsZero(control: FfcModel, metrics: seq<string>, kept: seq<string>)
    requires EndpointMap(control, metrics).Ok?
    requires forall m :: m in kept ==> m in metrics
    requires Fractions(control, kept, EndpointMap(control, metrics).value).Ok?
    ensures forall i :: 0 <= i < |kept| ==> Fractions(control, kept, EndpointMap(control, metrics).value).value[i] == 0.0
  {
    var ends := EndpointMap(control, metrics).value;
    var all := seq(|kept|, i requires 0 <= i < |kept| => FractionFor(control, kept[i], ends));
    var fractions := AllOk(all).value;
    forall i | 0 <= i < |kept|
      ensures fractions[i] == 0.0
    {
      assert all[i] == Ok(fractions[i]);
      OwnFractionZero(control, metrics, kept[i]);
    }
  }

  /**
   * A successful summary needs a control run (without one, the drop list finds no
   * metrics), and the control run's summary line is zero in every column.
   */
  lemma ControlScoresZero(models: seq<FfcModel>)
    requires EcoSummary(models).Ok?
    ensures ControlIndex(models).Some?
    ensures AllZero(EcoSummary(models).value[ControlIndex(models).value])
  {
    var metrics := Labels(models[0].table);
    var kept := DropMetrics(metrics).value;
    var c := ControlIndex(models).value;
    var ends := EndpointMap(models[c], metrics).value;
    ghost var all := seq(|models|, i requires 0 <= i < |models| => SummaryOf(models[i], kept, ends));
    assert EcoSummary(models) == AllOk(all);
    assert all[c] == Ok(EcoSummary(models).value[c]);
    OwnFractionsZero(models[c], metrics, kept);
  }
}
