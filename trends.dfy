/**
 * The autocorrelation-corrected Mann-Kendall trend decision of `trends.py`.
 *
 * The statistics themselves (the Mann-Kendall test with Sen's slope, the
 * residuals of the fitted line and the Ljung-Box test on them) are one
 * uninterpreted oracle, `TrendTests`: given a series it yields the trend
 * statistics and the Ljung-Box p-value. What is modelled and proved is the
 * control flow around it: cleaning, the skip rule, the lag search over
 * differenced series, and exactly which decision and slope end up in each
 * gage's result table.
 */
module Trends {
  import opened Base

  /** One raw cell of a metric series, as read from a functional-flow result table. */
  datatype Cell =
    | Missing            // an empty (NaN) cell
    | NoneText           // the literal string 'None'
    | Numeric(v: real)   // a number, or a string that `float()` accepts
    | Unparseable        // any other string: `float()` raises ValueError on it

  /** Fewest observations a series needs before it is analysed. */
  const MinYears: nat := 11

  /** Significance level of the Ljung-Box residual test. */
  const Alpha: real := 0.05

  /** What `pymannkendall.original_test` reports and the pipeline reads. */
  datatype MkStats = MkStats(trend: Trend, slope: real, intercept: real)

  /** What `mk_and_ljung` returns: the trend statistics and the residual p-value. */
  datatype TestOutcome = TestOutcome(stats: MkStats, pValue: real)

  /** The statistical tests, left uninterpreted: any function of the series. */
  type TrendTests = seq<real> -> TestOutcome

  /** One gage of one model run: its id and one raw row per metric, in metric order. */
  datatype Gage = Gage(gageId: string, metricNames: seq<string>, rows: seq<seq<Cell>>)

  /** The final content of one metric's row: `mk_decision` and `sen_slope`, NaN being `None`. */
  datatype Recorded = Recorded(decision: Option<Trend>, slope: Option<real>)

  // ---------------------------------------------------------------------
  // Cleaning a metric series (trends.py:19-28)
  // ---------------------------------------------------------------------

  /** Cells that survive `mask(eq('None')).dropna()`. */
  predicate Kept(c: Cell)
  {
    c != Missing && c != NoneText
  }

  /** Drop the 'None' strings and the missing cells, keeping the order of the rest. */
  function Clean(raw: seq<Cell>): (r: seq<Cell>)
    ensures |r| <= |raw|
    ensures forall i :: 0 <= i < |r| ==> Kept(r[i])
  {
    if raw == [] then []
    else Clean(raw[..|raw| - 1]) + (if Kept(raw[|raw| - 1]) then [raw[|raw| - 1]] else [])
  }

  /** Cleaning keeps exactly the cells that are not dropped. */
  lemma {:induction false} CleanMembers(raw: seq<Cell>)
    ensures forall c :: c in Clean(raw) <==> c in raw && Kept(c)
  {
    if raw != [] {
      var init := raw[..|raw| - 1];
      CleanMembers(init);
      assert raw == init + [raw[|raw| - 1]];
    }
  }

  /** Cleaning works piece by piece: it never reorders what it keeps. */
  lemma {:induction false} CleanAppend(a: seq<Cell>, b: seq<Cell>)
    ensures Clean(a + b) == Clean(a) + Clean(b)
    decreases |b|
  {
    if b == [] {
      assert a + b == a;
    } else {
      assert (a + b)[..|a + b| - 1] == a + b[..|b| - 1];
      CleanAppend(a, b[..|b| - 1]);
    }
  }

  /** A series that has nothing to drop comes through cleaning unchanged. */
  lemma {:induction false} CleanKeepsClean(raw: seq<Cell>)
    requires forall i :: 0 <= i < |raw| ==> Kept(raw[i])
    ensures Clean(raw) == raw
  {
    if raw != [] {
      CleanKeepsClean(raw[..|raw| - 1]);
      assert raw == raw[..|raw| - 1] + [raw[|raw| - 1]];
    }
  }

  predicate AllNumeric(cells: seq<Cell>)
  {
    forall i :: 0 <= i < |cells| ==> cells[i].Numeric?
  }

  /** The floats of an all-numeric series. */
  function Values(cells: seq<Cell>): seq<real>
    requires AllNumeric(cells)
  {
    seq(|cells|, i requires 0 <= i < |cells| => cells[i].v)
  }

  /** The `float(val)` loop (trends.py:26-27): every cell converts, or ValueError is raised. */
  method ConvertToFloats(cells: seq<Cell>) returns (r: Result<seq<real>>)
    requires forall i :: 0 <= i < |cells| ==> Kept(cells[i])
    ensures r.Ok? <==> AllNumeric(cells)
    ensures r.Err? ==> r.error == ValueError
    ensures r.Ok? ==> r.value == Values(cells)
    ensures r.Ok? ==> |r.value| == |cells| && forall i :: 0 <= i < |cells| ==> r.value[i] == cells[i].v
  {
    var out: seq<real> := [];
    var i := 0;
    while i < |cells|
      invariant 0 <= i <= |cells|
      invariant |out| == i
      invariant forall k :: 0 <= k < i ==> cells[k].Numeric? && out[k] == cells[k].v
    {
      if !cells[i].Numeric? {
        return Err(ValueError);
      }
      out := out + [cells[i].v];
      i := i + 1;
    }
    return Ok(out);
  }

  // ---------------------------------------------------------------------
  // Differencing (trends.py:79-84)
  // ---------------------------------------------------------------------

  /** The lag-`lag` differences of `s`. */
  function Differenced(s: seq<real>, lag: nat): seq<real>
  {
    if lag < |s| then seq(|s| - lag, i requires 0 <= i < |s| - lag => s[i + lag] - s[i]) else []
  }

  /** `differencing`: one difference per position that has a partner `lag` places later. */
  method Differencing(s: seq<real>, lag: nat) returns (d: seq<real>)
    ensures |d| == if lag < |s| then |s| - lag else 0
    ensures forall i :: 0 <= i < |d| ==> d[i] == s[i + lag] - s[i]
    ensures d == Differenced(s, lag)
  {
    d := [];
    var i := 0;
    while i < |s| - lag
      invariant 0 <= i
      invariant lag < |s| ==> i <= |s| - lag
      invariant lag >= |s| ==> i == 0
      invariant |d| == i
      invariant forall k :: 0 <= k < i ==> d[k] == s[k + lag] - s[k]
    {
      d := d + [s[i + lag] - s[i]];
      i := i + 1;
    }
  }

  // ---------------------------------------------------------------------
  // The decision for one cleaned series (trends.py:29-61)
  // ---------------------------------------------------------------------

  /** The series differenced at `lag` has residuals that pass the Ljung-Box test. */
  predicate Passes(s: seq<real>, tests: TrendTests, lag: nat)
  {
    tests(Differenced(s, lag)).pValue >= Alpha
  }

  /**
   * The lag loop from `lag` on: the statistics of the first differenced series
   * whose residuals pass, or `None` once the differenced series is shorter than
   * `MinYears` (or the lags of `range(1, len(metric))` run out).
   */
  function LagSearch(s: seq<real>, tests: TrendTests, lag: nat): Option<MkStats>
    requires lag >= 1
    decreases |s| - lag
  {
    if lag >= |s| then None
    else
      var diff := Differenced(s, lag);
      if |diff| < MinYears then None
      else if tests(diff).pValue < Alpha then LagSearch(s, tests, lag + 1)
      else Some(tests(diff).stats)
  }

  /**
   * The lag search succeeds exactly when some lag from `lag` to `|s| - MinYears`
   * passes, and then it reports the statistics of the first lag that does.
   */
  lemma {:induction false} LagSearchFirstPassing(s: seq<real>, tests: TrendTests, lag: nat)
    requires lag >= 1
    ensures LagSearch(s, tests, lag).Some? <==> exists l :: lag <= l <= |s| - MinYears && Passes(s, tests, l)
    ensures LagSearch(s, tests, lag).Some? ==>
              exists l :: lag <= l <= |s| - MinYears && Passes(s, tests, l)
                          && (forall k :: lag <= k < l ==> !Passes(s, tests, k))
                          && LagSearch(s, tests, lag) == Some(tests(Differenced(s, l)).stats)
    decreases |s| - lag
  {
    if lag >= |s| || |s| - lag < MinYears {
      assert LagSearch(s, tests, lag) == None;
    } else if !Passes(s, tests, lag) {
      LagSearchFirstPassing(s, tests, lag + 1);
      if LagSearch(s, tests, lag).Some? {
        var l :| lag + 1 <= l <= |s| - MinYears && Passes(s, tests, l)
                 && (forall k :: lag + 1 <= k < l ==> !Passes(s, tests, k))
                 && LagSearch(s, tests, lag + 1) == Some(tests(Differenced(s, l)).stats);
        assert forall k :: lag <= k < l ==> !Passes(s, tests, k);
      }
    } else {
      assert LagSearch(s, tests, lag) == Some(tests(Differenced(s, lag)).stats);
    }
  }

  /** `mk_decision`/`sen_slope` as written when the undifferenced residuals pass (trends.py:53-61). */
  function RecordUndifferenced(st: MkStats): Recorded
  {
    if st.trend == NoTrend then Recorded(Some(NoTrend), None)
    else if st.slope == 0.0 then Recorded(Some(NoTrend), None)
    else Recorded(Some(st.trend), Some(st.slope))
  }

  /**
   * `mk_decision`/`sen_slope` as written when a differenced series passes
   * (trends.py:44-51). The zero-slope correction there compares with `==`
   * instead of assigning, so it changes nothing.
   */
  function RecordDifferenced(st: MkStats): Recorded
  {
    if st.trend == NoTrend then Recorded(Some(NoTrend), None)
    else Recorded(Some(st.trend), Some(st.slope))
  }

  /** The recorded row for a cleaned numeric series of at least `MinYears` values. */
  function Decide(s: seq<real>, tests: TrendTests): Recorded
  {
    if tests(s).pValue >= Alpha then RecordUndifferenced(tests(s).stats)
    else match LagSearch(s, tests, 1)
      case None => Recorded(None, None)
      case Some(st) => RecordDifferenced(st)
  }

  /** The outcome for one raw metric row: its recorded row, or the error that aborts the run. */
  function MetricRecord(raw: seq<Cell>, tests: TrendTests): Result<Recorded>
  {
    var cleaned := Clean(raw);
    if |cleaned| < MinYears then Ok(Recorded(None, None))
    else if !AllNumeric(cleaned) then Err(ValueError)
    else Ok(Decide(Values(cleaned), tests))
  }

  /** A short series is skipped whatever it holds: both cells stay NaN, and nothing raises. */
  lemma SkipShortSeries(raw: seq<Cell>, tests: TrendTests)
    requires |Clean(raw)| < MinYears
    ensures MetricRecord(raw, tests) == Ok(Recorded(None, None))
  {
  }

  /** Only a malformed cell in a long-enough series raises; the error is ValueError. */
  lemma {:induction false} MetricErrors(raw: seq<Cell>, tests: TrendTests)
    ensures MetricRecord(raw, tests).Err? <==>
              |Clean(raw)| >= MinYears && exists i :: 0 <= i < |raw| && raw[i] == Unparseable
    ensures MetricRecord(raw, tests).Err? ==> MetricRecord(raw, tests).error == ValueError
  {
    var cleaned := Clean(raw);
    CleanMembers(raw);
    if exists i :: 0 <= i < |raw| && raw[i] == Unparseable {
      var i :| 0 <= i < |raw| && raw[i] == Unparseable;
      assert raw[i] in raw;
      assert Unparseable in cleaned;
    }
    if !AllNumeric(cleaned) {
      var j :| 0 <= j < |cleaned| && !cleaned[j].Numeric?;
      assert cleaned[j] in cleaned;
      assert cleaned[j] == Unparseable;
    }
  }

  /** A slope is only ever recorded beside a decision of 'increasing' or 'decreasing'. */
  lemma SlopeOnlyWithTrend(raw: seq<Cell>, tests: TrendTests)
    requires MetricRecord(raw, tests).Ok?
    ensures MetricRecord(raw, tests).value.slope.Some? ==>
              MetricRecord(raw, tests).value.decision.Some? && MetricRecord(raw, tests).value.decision.value != NoTrend
  {
  }

  /**
   * Without residual autocorrelation the undifferenced test decides: its trend is
   * recorded, and its slope exactly when the trend is not 'no trend' and the slope
   * is not zero; a zero slope turns the decision into 'no trend'.
   */
  lemma UndifferencedDecision(s: seq<real>, tests: TrendTests)
    requires tests(s).pValue >= Alpha
    ensures var st := tests(s).stats;
            var rec := Decide(s, tests);
            && rec.decision.Some?
            && (rec.slope.Some? <==> st.trend != NoTrend && st.slope != 0.0)
            && (rec.slope.Some? ==> rec.slope.value == st.slope && rec.decision.value == st.trend)
            && (rec.slope.None? ==> rec.decision.value == NoTrend)
  {
  }

  /** With residual autocorrelation and no lag in `1 .. |s| - MinYears` passing, nothing is recorded. */
  lemma {:induction false} DifferencedNoLag(s: seq<real>, tests: TrendTests)
    requires tests(s).pValue < Alpha
    requires forall l :: 1 <= l <= |s| - MinYears ==> !Passes(s, tests, l)
    ensures Decide(s, tests) == Recorded(None, None)
  {
    LagSearchFirstPassing(s, tests, 1);
  }

  /**
   * With residual autocorrelation, the decision comes from the first lag in
   * `1 .. |s| - MinYears` whose differenced series passes; no later lag matters.
   */
  lemma {:induction false} DifferencedDecision(s: seq<real>, tests: TrendTests, l: nat)
    requires tests(s).pValue < Alpha
    requires 1 <= l <= |s| - MinYears && Passes(s, tests, l) && forall k :: 1 <= k < l ==> !Passes(s, tests, k)
    ensures Decide(s, tests) == RecordDifferenced(tests(Differenced(s, l)).stats)
  {
    LagSearchReaches(s, tests, 1, l);
  }

  /** A search started at or before the first passing lag stops at that lag. */
  lemma {:induction false} LagSearchReaches(s: seq<real>, tests: TrendTests, lag: nat, l: nat)
    requires 1 <= lag <= l <= |s| - MinYears
    requires Passes(s, tests, l) && forall k :: lag <= k < l ==> !Passes(s, tests, k)
    ensures LagSearch(s, tests, lag) == Some(tests(Differenced(s, l)).stats)
    decreases l - lag
  {
    assert |Differenced(s, lag)| == |s| - lag;
    if lag < l {
      assert !Passes(s, tests, lag);
      LagSearchReaches(s, tests, lag + 1, l);
    }
  }

  /**
   * The differenced branch keeps a zero slope: a first passing lag reporting
   * 'increasing' or 'decreasing' with slope 0 records that trend with slope 0.
   */
  lemma {:induction false} DifferencedZeroSlopeKept(s: seq<real>, tests: TrendTests, l: nat)
    requires tests(s).pValue < Alpha
    requires 1 <= l <= |s| - MinYears && Passes(s, tests, l) && forall k :: 1 <= k < l ==> !Passes(s, tests, k)
    requires tests(Differenced(s, l)).stats.trend != NoTrend && tests(Differenced(s, l)).stats.slope == 0.0
    ensures Decide(s, tests) == Recorded(Some(tests(Differenced(s, l)).stats.trend), Some(0.0))
  {
    DifferencedDecision(s, tests, l);
  }

  // ---------------------------------------------------------------------
  // Per-gage result tables (utils.py:71-81, trends.py:15-16, 44-61)
  // ---------------------------------------------------------------------

  /** A result-table row: a metric label with its `mk_decision` and `sen_slope` cells. */
  type Row = Named<Recorded>

  /** Both cells NaN. */
  const Unwritten: Recorded := Recorded(None, None)

  /** The cells under `key`; a label the table lacks reads as NaN, as in a row pandas appends. */
  function CellsAt(rows: seq<Row>, key: string): Recorded
  {
    match RowOf(rows, key)
    case Ok(c) => c
    case Err(_) => Unwritten
  }

  /**
   * `rows.loc[key, ...] = ...`: the rows labelled `key` get `cells`; when no
   * row has that label, one is appended at the end.
   */
  function Put(rows: seq<Row>, key: string, cells: Recorded): seq<Row>
  {
    if key in Labels(rows) then
      seq(|rows|, i requires 0 <= i < |rows| => if rows[i].name == key then Named(key, cells) else rows[i])
    else rows + [Named(key, cells)]
  }

  /** A write by label keeps the existing labels in place and appends a missing one. */
  lemma PutLabels(rows: seq<Row>, key: string, cells: Recorded)
    ensures Labels(Put(rows, key, cells)) == Labels(rows) + (if key in Labels(rows) then [] else [key])
    ensures Distinct(Labels(rows)) ==> Distinct(Labels(Put(rows, key, cells)))
  {
    var r := Put(rows, key, cells);
    if key in Labels(rows) {
      assert Labels(r) == Labels(rows);
    } else {
      assert Labels(r) == Labels(rows) + [key];
    }
  }

  /** The first position of `x` is unaffected by what follows it, and found after a prefix lacking it. */
  lemma IndexOfAppend<T>(s: seq<T>, t: seq<T>, x: T)
    requires x in s + t
    ensures x in s ==> IndexOf(s + t, x) == IndexOf(s, x)
    ensures x !in s ==> IndexOf(s + t, x) == |s| + IndexOf(t, x)
  {
    var r := IndexOf(s + t, x);
    if x in s {
      var j := IndexOf(s, x);
      assert (s + t)[j] == x;
    } else {
      assert x in t;
      var j := IndexOf(t, x);
      assert (s + t)[|s| + j] == x;
      assert forall k :: 0 <= k < j ==> (s + t)[|s| + k] == t[k];
    }
  }

  /** In a sequence without repeats, the first position of the item at `m` is `m`. */
  lemma IndexOfDistinct<T>(s: seq<T>, m: nat)
    requires Distinct(s) && m < |s|
    ensures IndexOf(s, s[m]) == m
  {
  }

  /** After a write by label, that label reads the written cells and every other label reads as before. */
  lemma PutCell(rows: seq<Row>, key: string, cells: Recorded, other: string)
    ensures CellsAt(Put(rows, key, cells), key) == cells
    ensures other != key ==> CellsAt(Put(rows, key, cells), other) == CellsAt(rows, other)
  {
    var r := Put(rows, key, cells);
    PutLabels(rows, key, cells);
    if key in Labels(rows) {
      assert Labels(r) == Labels(rows);
    } else {
      assert Labels(r) == Labels(rows) + [key];
      IndexOfAppend(Labels(rows), [key], key);
      if other in Labels(rows) {
        IndexOfAppend(Labels(rows), [key], other);
      }
    }
  }

  /** A second write to the same label replaces the first. */
  lemma PutTwice(rows: seq<Row>, key: string, a: Recorded, b: Recorded)
    ensures Put(Put(rows, key, a), key, b) == Put(rows, key, b)
  {
    PutLabels(rows, key, a);
    if key !in Labels(rows) {
      var once := Put(rows, key, a);
      assert key in Labels(once);
      assert Put(once, key, b) == rows + [Named(key, b)];
    }
  }

  /** Every row keeps its label and both of its cells become NaN. */
  function Cleared(rows: seq<Row>): seq<Row>
  {
    seq(|rows|, i requires 0 <= i < |rows| => Named(rows[i].name, Unwritten))
  }

  /** Clearing keeps the index and empties every cell. */
  lemma ClearedCells(rows: seq<Row>)
    ensures Labels(Cleared(rows)) == Labels(rows)
    ensures forall key :: CellsAt(Cleared(rows), key) == Unwritten
  {
    assert Labels(Cleared(rows)) == Labels(rows);
  }

  /** One gage's result table: rows labelled by metric, columns `mk_decision` and `sen_slope`. */
  class ResultTable {
    const gageId: string
    var rows: seq<Row>

    /** No label occurs twice, so `.loc[label]` names one row. */
    ghost predicate Valid()
      reads this
    {
      Distinct(Labels(rows))
    }

    /** `pd.DataFrame(index=labels)`, given the `mk_decision` and `sen_slope` columns it receives later, still NaN. */
    constructor (gageId: string, labels: seq<string>)
      ensures this.gageId == gageId && Labels(rows) == labels
      ensures forall key :: CellsAt(rows, key) == Unwritten
      ensures Valid() <==> Distinct(labels)
    {
      this.gageId := gageId;
      var made := seq(|labels|, i requires 0 <= i < |labels| => Named(labels[i], Unwritten));
      ClearedCells(made);
      assert Cleared(made) == made;
      assert Labels(made) == labels;
      rows := made;
    }

    /** `results['mk_decision'] = np.nan; results['sen_slope'] = np.nan` */
    method ClearColumns()
      modifies this
      ensures rows == Cleared(old(rows))
      ensures Labels(rows) == Labels(old(rows)) && forall key :: CellsAt(rows, key) == Unwritten
    {
      rows := Cleared(rows);
      ClearedCells(old(rows));
    }

    /** `results.loc[key, 'mk_decision'] = t` */
    method SetDecision(key: string, t: Trend)
      requires Valid()
      modifies this
      ensures Valid()
      ensures rows == Put(old(rows), key, Recorded(Some(t), CellsAt(old(rows), key).slope))
    {
      PutLabels(rows, key, Recorded(Some(t), CellsAt(rows, key).slope));
      rows := Put(rows, key, Recorded(Some(t), CellsAt(rows, key).slope));
    }

    /** `results.loc[key, 'sen_slope'] = v` (NaN being `None`) */
    method SetSlope(key: string, v: Option<real>)
      requires Valid()
      modifies this
      ensures Valid()
      ensures rows == Put(old(rows), key, Recorded(CellsAt(old(rows), key).decision, v))
    {
      PutLabels(rows, key, Recorded(CellsAt(rows, key).decision, v));
      rows := Put(rows, key, Recorded(CellsAt(rows, key).decision, v));
    }
  }

  /** The lag loop of trends.py:34-52, entered when the undifferenced residuals are autocorrelated. */
  method SearchLags(s: seq<real>, tests: TrendTests) returns (found: Option<MkStats>)
    requires |s| >= MinYears
    requires tests(s).pValue < Alpha
    ensures found == LagSearch(s, tests, 1)
  {
    var pValue := tests(s).pValue;
    found := None;
    for lag := 1 to |s|
      invariant pValue < Alpha
      invariant found == None
      invariant LagSearch(s, tests, lag) == LagSearch(s, tests, 1)
    {
      if pValue < Alpha {
        var diff := Differencing(s, lag);
        if |diff| < MinYears {
          break;
        }
        var out := tests(diff);
        pValue := out.pValue;
        if pValue < Alpha {
          continue;
        }
        found := Some(out.stats);
        break;
      }
    }
  }

  /** What processing one metric leaves in the table: a decided record is written under `key`, a skipped one writes nothing. */
  function Write(rows: seq<Row>, key: string, rec: Recorded): seq<Row>
  {
    if rec.decision.None? then rows else Put(rows, key, rec)
  }

  /** A record without a decision has no slope either: skipping writes nothing that a NaN row lacks. */
  lemma UndecidedIsUnwritten(raw: seq<Cell>, tests: TrendTests)
    requires MetricRecord(raw, tests).Ok? && MetricRecord(raw, tests).value.decision.None?
    ensures MetricRecord(raw, tests).value == Unwritten
  {
  }

  /**
   * One metric of one gage (trends.py:19-61): clean, skip if short, convert,
   * test, search lags if needed, and write the decision and slope under the
   * metric's label.
   */
  method RecordMetric(table: ResultTable, key: string, raw: seq<Cell>, tests: TrendTests) returns (err: Option<Error>)
    requires table.Valid() && CellsAt(table.rows, key).slope == None
    modifies table
    ensures table.Valid()
    ensures err.Some? <==> MetricRecord(raw, tests).Err?
    ensures err.Some? ==> err.value == ValueError && table.rows == old(table.rows)
    ensures err.None? ==> table.rows == Write(old(table.rows), key, MetricRecord(raw, tests).value)
  {
    var metric := Clean(raw);
    if |metric| < MinYears {
      return None;
    }
    var converted := ConvertToFloats(metric);
    if converted.Err? {
      return Some(converted.error);
    }
    var s := converted.value;
    var out := tests(s);
    ghost var start := table.rows;
    if out.pValue < Alpha {
      var found := SearchLags(s, tests);
      if found.Some? {
        var st := found.value;
        table.SetDecision(key, st.trend);
        if st.trend != NoTrend {
          PutCell(start, key, Recorded(Some(st.trend), None), key);
          table.SetSlope(key, Some(st.slope));
          PutTwice(start, key, Recorded(Some(st.trend), None), Recorded(Some(st.trend), Some(st.slope)));
          // trends.py:49-51 compares (`==`) where it meant to assign: a zero slope stays recorded.
        }
      }
    } else {
      table.SetDecision(key, out.stats.trend);
      if out.stats.trend != NoTrend {
        PutCell(start, key, Recorded(Some(out.stats.trend), None), key);
        table.SetSlope(key, Some(out.stats.slope));
        PutTwice(start, key, Recorded(Some(out.stats.trend), None), Recorded(Some(out.stats.trend), Some(out.stats.slope)));
        if out.stats.slope == 0.0 {
          PutCell(start, key, Recorded(Some(out.stats.trend), Some(out.stats.slope)), key);
          table.SetDecision(key, NoTrend);
          PutTwice(start, key, Recorded(Some(out.stats.trend), Some(out.stats.slope)), Recorded(Some(NoTrend), Some(out.stats.slope)));
          PutCell(start, key, Recorded(Some(NoTrend), Some(out.stats.slope)), key);
          table.SetSlope(key, None);
          PutTwice(start, key, Recorded(Some(NoTrend), Some(out.stats.slope)), Recorded(Some(NoTrend), None));
        }
      }
    }
    return None;
  }

  /** A gage whose metric labels are distinct, one raw row per label. */
  predicate WellFormed(gage: Gage)
  {
    |gage.metricNames| == |gage.rows| && Distinct(gage.metricNames)
  }

  /** Every metric row of `gage` can be processed without raising. */
  ghost predicate Recordable(gage: Gage, tests: TrendTests)
  {
    forall m :: 0 <= m < |gage.rows| ==> MetricRecord(gage.rows[m], tests).Ok?
  }

  /** Metric `m` of `gage` gets a decision written. */
  predicate Decided(gage: Gage, tests: TrendTests, m: nat)
    requires m < |gage.rows|
  {
    MetricRecord(gage.rows[m], tests).Ok? && MetricRecord(gage.rows[m], tests).value.decision.Some?
  }

  /**
   * The labels the first `upTo` metrics of `gage` append to a table whose
   * index is `start`: those that get a decision and are not in `start`, in order.
   */
  function NewLabels(start: seq<string>, gage: Gage, tests: TrendTests, upTo: nat): (r: seq<string>)
    requires WellFormed(gage) && upTo <= |gage.rows|
    ensures forall x :: x in r ==> x in gage.metricNames[..upTo] && x !in start
  {
    if upTo == 0 then []
    else
      var prev := NewLabels(start, gage, tests, upTo - 1);
      assert gage.metricNames[..upTo] == gage.metricNames[..upTo - 1] + [gage.metricNames[upTo - 1]];
      var key := gage.metricNames[upTo - 1];
      prev + (if Decided(gage, tests, upTo - 1) && key !in start then [key] else [])
  }

  /**
   * What the cells under `key` hold once the first `upTo` metrics of `gage`
   * have been processed: the record of the metric with that label, or NaN
   * when no metric processed so far has it.
   */
  function Outcome(gage: Gage, tests: TrendTests, key: string, upTo: nat): Recorded
    requires WellFormed(gage) && upTo <= |gage.rows|
  {
    if key in gage.metricNames[..upTo] then
      match MetricRecord(gage.rows[IndexOf(gage.metricNames, key)], tests)
      case Ok(rec) => rec
      case Err(_) => Unwritten
    else Unwritten
  }

  /** A table whose index is `start` extended by what `gage` appends, and whose cells hold `gage`'s outcomes. */
  ghost predicate Filled(rows: seq<Row>, start: seq<string>, gage: Gage, tests: TrendTests, upTo: nat)
    requires WellFormed(gage) && upTo <= |gage.rows|
  {
    && Labels(rows) == start + NewLabels(start, gage, tests, upTo)
    && forall key :: CellsAt(rows, key) == Outcome(gage, tests, key, upTo)
  }

  /** Metric `m`'s label is new among the first `m` labels, and every earlier label belongs to an earlier metric. */
  lemma LabelStep(gage: Gage, m: nat)
    requires WellFormed(gage) && m < |gage.rows|
    ensures gage.metricNames[..m + 1] == gage.metricNames[..m] + [gage.metricNames[m]]
    ensures gage.metricNames[m] !in gage.metricNames[..m]
    ensures IndexOf(gage.metricNames, gage.metricNames[m]) == m
    ensures forall other :: other in gage.metricNames[..m] ==> IndexOf(gage.metricNames, other) < m
  {
    var names := gage.metricNames;
    IndexOfDistinct(names, m);
    assert names[..m + 1] == names[..m] + [names[m]];
    forall other | other in names[..m]
      ensures IndexOf(names, other) < m
    {
    }
  }

  /** A table with nothing written is filled by no metric at all. */
  lemma NothingFilled(rows: seq<Row>, gage: Gage, tests: TrendTests)
    requires WellFormed(gage) && forall key :: CellsAt(rows, key) == Unwritten
    ensures Filled(rows, Labels(rows), gage, tests, 0)
  {
    assert Labels(rows) + [] == Labels(rows);
  }

  /** Processing metric `m` changes the outcome of its own label only. */
  lemma OutcomeStep(gage: Gage, tests: TrendTests, m: nat, other: string)
    requires WellFormed(gage) && m < |gage.rows| && MetricRecord(gage.rows[m], tests).Ok?
    ensures Outcome(gage, tests, other, m + 1) ==
              if other == gage.metricNames[m] then MetricRecord(gage.rows[m], tests).value
              else Outcome(gage, tests, other, m)
  {
    LabelStep(gage, m);
    if other != gage.metricNames[m] {
      assert other in gage.metricNames[..m + 1] <==> other in gage.metricNames[..m];
    }
  }

  /** Before metric `m` is processed, a filled table holds nothing under its label. */
  lemma FreshLabelUnwritten(rows: seq<Row>, start: seq<string>, gage: Gage, tests: TrendTests, m: nat)
    requires WellFormed(gage) && m < |gage.rows|
    requires Filled(rows, start, gage, tests, m)
    ensures CellsAt(rows, gage.metricNames[m]) == Unwritten
  {
    LabelStep(gage, m);
  }

  /** A metric without a decision leaves a filled table as it is, and it stays filled one metric further. */
  lemma WriteSkipped(rows: seq<Row>, start: seq<string>, gage: Gage, tests: TrendTests, m: nat)
    requires WellFormed(gage) && m < |gage.rows|
    requires Filled(rows, start, gage, tests, m)
    requires MetricRecord(gage.rows[m], tests).Ok? && MetricRecord(gage.rows[m], tests).value.decision.None?
    ensures Filled(rows, start, gage, tests, m + 1)
  {
    UndecidedIsUnwritten(gage.rows[m], tests);
    FreshLabelUnwritten(rows, start, gage, tests, m);
    forall other
      ensures CellsAt(rows, other) == Outcome(gage, tests, other, m + 1)
    {
      OutcomeStep(gage, tests, m, other);
    }
  }

  /** A decided metric written under its label extends a filled table to one filled one metric further. */
  lemma WritePut(rows: seq<Row>, start: seq<string>, gage: Gage, tests: TrendTests, m: nat)
    requires WellFormed(gage) && m < |gage.rows|
    requires Distinct(Labels(rows)) && Filled(rows, start, gage, tests, m)
    requires MetricRecord(gage.rows[m], tests).Ok? && MetricRecord(gage.rows[m], tests).value.decision.Some?
    ensures var next := Put(rows, gage.metricNames[m], MetricRecord(gage.rows[m], tests).value);
      Distinct(Labels(next)) && Filled(next, start, gage, tests, m + 1)
  {
    var key := gage.metricNames[m];
    var rec := MetricRecord(gage.rows[m], tests).value;
    var next := Put(rows, key, rec);
    LabelStep(gage, m);
    PutLabels(rows, key, rec);
    assert key in Labels(rows) <==> key in start;
    forall other
      ensures CellsAt(next, other) == Outcome(gage, tests, other, m + 1)
    {
      PutCell(rows, key, rec, other);
      OutcomeStep(gage, tests, m, other);
    }
  }

  /** Writing metric `m`'s record by its label extends a table filled up to `m` to one filled up to `m + 1`. */
  lemma WriteStep(rows: seq<Row>, start: seq<string>, gage: Gage, tests: TrendTests, m: nat)
    requires WellFormed(gage) && m < |gage.rows|
    requires Distinct(Labels(rows)) && Filled(rows, start, gage, tests, m)
    requires MetricRecord(gage.rows[m], tests).Ok?
    ensures var next := Write(rows, gage.metricNames[m], MetricRecord(gage.rows[m], tests).value);
      Distinct(Labels(next)) && Filled(next, start, gage, tests, m + 1)
  {
    if MetricRecord(gage.rows[m], tests).value.decision.None? {
      WriteSkipped(rows, start, gage, tests, m);
    } else {
      WritePut(rows, start, gage, tests, m);
    }
  }

  /** The first `upTo` metrics of `gage` are all processed without raising. */
  predicate AllRecorded(gage: Gage, tests: TrendTests, upTo: nat)
    requires upTo <= |gage.rows|
  {
    upTo == 0 || (AllRecorded(gage, tests, upTo - 1) && MetricRecord(gage.rows[upTo - 1], tests).Ok?)
  }

  /** `AllRecorded` holds exactly when none of the first `upTo` metrics raises. */
  lemma {:induction false} AllRecordedMeaning(gage: Gage, tests: TrendTests, upTo: nat)
    requires upTo <= |gage.rows|
    ensures AllRecorded(gage, tests, upTo) <==> forall k :: 0 <= k < upTo ==> MetricRecord(gage.rows[k], tests).Ok?
  {
    if upTo > 0 {
      AllRecordedMeaning(gage, tests, upTo - 1);
    }
  }

  /** A table after the first `upTo` metrics of `gage` are written into it one after another, each under its own label. */
  function Replayed(rows: seq<Row>, gage: Gage, tests: TrendTests, upTo: nat): seq<Row>
    requires WellFormed(gage) && upTo <= |gage.rows|
  {
    if upTo == 0 then rows
    else
      var prev := Replayed(rows, gage, tests, upTo - 1);
      match MetricRecord(gage.rows[upTo - 1], tests)
      case Ok(rec) => Write(prev, gage.metricNames[upTo - 1], rec)
      case Err(_) => prev
  }

  /** Replaying metrics that all succeed into an empty table with distinct labels fills it. */
  lemma {:induction false} ReplayedFilled(rows: seq<Row>, gage: Gage, tests: TrendTests, upTo: nat)
    requires WellFormed(gage) && upTo <= |gage.rows|
    requires Distinct(Labels(rows)) && forall key :: CellsAt(rows, key) == Unwritten
    requires AllRecorded(gage, tests, upTo)
    ensures Distinct(Labels(Replayed(rows, gage, tests, upTo)))
    ensures Filled(Replayed(rows, gage, tests, upTo), Labels(rows), gage, tests, upTo)
  {
    if upTo == 0 {
      NothingFilled(rows, gage, tests);
    } else {
      ReplayedFilled(rows, gage, tests, upTo - 1);
      WriteStep(Replayed(rows, gage, tests, upTo - 1), Labels(rows), gage, tests, upTo - 1);
    }
  }

  /**
   * The body of the gage loop (trends.py:15-61): clear both columns, then
   * process the metrics in order, each written under its own label, until one
   * raises.
   */
  method CalcGage(table: ResultTable, gage: Gage, tests: TrendTests) returns (err: Option<Error>)
    requires table.Valid() && WellFormed(gage)
    modifies table
    ensures table.Valid()
    ensures err.None? <==> Recordable(gage, tests)
    ensures err.Some? ==> err.value == ValueError
    ensures err.None? ==> table.rows == Replayed(Cleared(old(table.rows)), gage, tests, |gage.rows|)
  {
    table.ClearColumns();
    ghost var cleared := table.rows;
    var m := 0;
    while m < |gage.rows|
      invariant 0 <= m <= |gage.rows|
      invariant AllRecorded(gage, tests, m)
      invariant table.rows == Replayed(cleared, gage, tests, m)
    {
      ReplayedFilled(cleared, gage, tests, m);
      FreshLabelUnwritten(table.rows, Labels(cleared), gage, tests, m);
      err := RecordMetric(table, gage.metricNames[m], gage.rows[m], tests);
      if err.Some? {
        assert !MetricRecord(gage.rows[m], tests).Ok?;
        return;
      }
      m := m + 1;
    }
    ReplayedFilled(cleared, gage, tests, m);
    AllRecordedMeaning(gage, tests, m);
    err := None;
  }

  /** The summary table: its index and one `mk_decision` column per gage id. */
  datatype Summary = Summary(index: seq<string>, columns: map<string, seq<Option<Trend>>>)

  /** `summary_df[id] = results['mk_decision']`: the decisions aligned on the summary's index by label, NaN where a label is missing. */
  function Aligned(index: seq<string>, rows: seq<Row>): (col: seq<Option<Trend>>)
    ensures |col| == |index| && forall i :: 0 <= i < |index| ==> col[i] == CellsAt(rows, index[i]).decision
  {
    seq(|index|, i requires 0 <= i < |index| => CellsAt(rows, index[i]).decision)
  }

  /** No later table carries the same gage id as table `g`. */
  predicate LastWithId(results: seq<ResultTable>, g: nat)
    requires g < |results|
  {
    forall h :: g < h < |results| ==> results[h].gageId != results[g].gageId
  }

  /** The summary loop of trends.py:63-66: a later gage with the same id replaces the column. */
  method SummaryTable(index: seq<string>, results: seq<ResultTable>) returns (summary: Summary)
    ensures summary.index == index
    ensures forall g :: 0 <= g < |results| ==> results[g].gageId in summary.columns
    ensures forall id :: id in summary.columns ==> exists g :: 0 <= g < |results| && results[g].gageId == id
    ensures forall g :: 0 <= g < |results| && LastWithId(results, g) ==>
              summary.columns[results[g].gageId] == Aligned(index, results[g].rows)
  {
    var columns := map[];
    var i := 0;
    while i < |results|
      invariant 0 <= i <= |results|
      invariant forall k :: 0 <= k < i ==> results[k].gageId in columns
      invariant forall id :: id in columns ==> exists k :: 0 <= k < i && results[k].gageId == id
      invariant forall k :: 0 <= k < i && (forall h :: k < h < i ==> results[h].gageId != results[k].gageId) ==>
                  columns[results[k].gageId] == Aligned(index, results[k].rows)
    {
      columns := columns[results[i].gageId := Aligned(index, results[i].rows)];
      i := i + 1;
    }
    summary := Summary(index, columns);
  }

  /** A summary column read back by label: each entry is the decision the gage's metric with that label produced. */
  lemma AlignedByLabel(index: seq<string>, rows: seq<Row>, start: seq<string>, gage: Gage, tests: TrendTests)
    requires WellFormed(gage) && Filled(rows, start, gage, tests, |gage.rows|)
    ensures |Aligned(index, rows)| == |index|
    ensures forall i :: 0 <= i < |index| ==> Aligned(index, rows)[i] == Outcome(gage, tests, index[i], |gage.rows|).decision
  {
  }

  /** The gage loop of trends.py:13-61: fill every gage's table by label, stopping at the first metric that raises. */
  method FillTables(gages: seq<Gage>, results: seq<ResultTable>, tests: TrendTests) returns (err: Option<Error>)
    requires |results| == |gages|
    requires forall i, j :: 0 <= i < j < |results| ==> results[i] != results[j]
    requires forall g :: 0 <= g < |gages| ==> WellFormed(gages[g])
    requires forall g :: 0 <= g < |gages| ==> results[g].Valid()
    modifies results
    ensures forall g :: 0 <= g < |gages| ==> results[g].Valid()
    ensures err.None? <==> forall g :: 0 <= g < |gages| ==> Recordable(gages[g], tests)
    ensures err.Some? ==> err.value == ValueError
    ensures err.None? ==> forall g :: 0 <= g < |gages| ==>
              results[g].rows == Replayed(Cleared(old(results[g].rows)), gages[g], tests, |gages[g].rows|)
    ensures err.None? ==> forall g :: 0 <= g < |gages| ==>
              Filled(results[g].rows, old(Labels(results[g].rows)), gages[g], tests, |gages[g].rows|)
  {
    var g := 0;
    while g < |gages|
      invariant 0 <= g <= |gages|
      invariant forall k :: 0 <= k < |gages| ==> results[k].Valid()
      invariant forall k :: 0 <= k < g ==> Recordable(gages[k], tests)
      invariant forall k :: 0 <= k < g ==>
                  results[k].rows == Replayed(Cleared(old(results[k].rows)), gages[k], tests, |gages[k].rows|)
      invariant forall k :: g <= k < |gages| ==> results[k].rows == old(results[k].rows)
    {
      label before:
      err := CalcGage(results[g], gages[g], tests);
      if err.Some? {
        return;
      }
      assert forall k :: 0 <= k < |gages| && k != g ==> unchanged@before(results[k]);
      g := g + 1;
    }
    forall k | 0 <= k < |gages|
      ensures Filled(results[k].rows, old(Labels(results[k].rows)), gages[k], tests, |gages[k].rows|)
    {
      ClearedCells(old(results[k].rows));
      AllRecordedMeaning(gages[k], tests, |gages[k].rows|);
      ReplayedFilled(Cleared(old(results[k].rows)), gages[k], tests, |gages[k].rows|);
    }
    err := None;
  }

  /**
   * `calc_mk_trend` (trends.py:11-68): fill every gage's result table by label
   * and return the summary table, indexed by the first table's labels, with
   * one `mk_decision` column per gage id.
   */
  method CalcMkTrend(gages: seq<Gage>, results: seq<ResultTable>, tests: TrendTests) returns (r: Result<Summary>)
    requires |results| == |gages|
    requires forall i, j :: 0 <= i < j < |results| ==> results[i] != results[j]
    requires forall g :: 0 <= g < |gages| ==> WellFormed(gages[g])
    requires forall g :: 0 <= g < |gages| ==> results[g].Valid()
    modifies results
    ensures forall g :: 0 <= g < |gages| ==> results[g].Valid()
    ensures r.Ok? <==> |gages| > 0 && forall g :: 0 <= g < |gages| ==> Recordable(gages[g], tests)
    ensures r.Err? ==> r.error == if |gages| == 0 then IndexError else ValueError
    ensures r.Ok? ==> forall g :: 0 <= g < |gages| ==>
              Filled(results[g].rows, old(Labels(results[g].rows)), gages[g], tests, |gages[g].rows|)
    ensures r.Ok? ==> r.value.index == Labels(results[0].rows)
    ensures r.Ok? ==> forall g :: 0 <= g < |gages| ==> results[g].gageId in r.value.columns
    ensures r.Ok? ==> forall id :: id in r.value.columns ==> exists g :: 0 <= g < |gages| && results[g].gageId == id
    ensures r.Ok? ==> forall g :: 0 <= g < |gages| && LastWithId(results, g) ==>
              var col := r.value.columns[results[g].gageId];
              |col| == |r.value.index| &&
              forall i :: 0 <= i < |col| ==> col[i] == Outcome(gages[g], tests, r.value.index[i], |gages[g].rows|).decision
  {
    var err := FillTables(gages, results, tests);
    if err.Some? {
      return Err(err.value);
    }
    if |results| == 0 {
      return Err(IndexError);
    }
    var index := Labels(results[0].rows);
    var summary := SummaryTable(index, results);
    forall g | 0 <= g < |gages|
      ensures |Aligned(index, results[g].rows)| == |index|
      ensures forall i :: 0 <= i < |index| ==>
                Aligned(index, results[g].rows)[i] == Outcome(gages[g], tests, index[i], |gages[g].rows|).decision
    {
      AlignedByLabel(index, results[g].rows, old(Labels(results[g].rows)), gages[g], tests);
    }
    return Ok(summary);
  }
}
