/**
 * The aggregation rules of `utils.py`: building the per-gage result tables,
 * counting trend labels, summing encoded trends across the models of one
 * emissions scenario, the normalised Gini score of the label distribution,
 * and the future-minus-historical tables of `create_model_tables`.
 *
 * Tables are values. A gage's result table (`GageTable`) and a Gini input
 * table (`LabelledTable`) are rows under metric labels, read by label as
 * `.loc` reads them; a summed trend table (`MkTable`) is a sequence of metric
 * rows, each a sequence of site cells. An empty (NaN) cell is `None`. File
 * discovery and CSV reading are outside the model, so the functions that
 * glob a directory take the list of (path, table) pairs that `glob` and
 * `read_csv` would have produced.
 */
module Utils {
  import opened Base
  import Trends

  // ---------------------------------------------------------------------
  // make_results_dicts (utils.py:71-81)
  // ---------------------------------------------------------------------

  /**
   * One result table per gage, every one indexed by the first gage's metric
   * labels, with no decision or slope written yet. The tables are usable by
   * label exactly when those labels are distinct.
   */
  method MakeResultsDicts(gages: seq<Trends.Gage>) returns (r: Result<seq<Trends.ResultTable>>)
    ensures r.Err? <==> |gages| == 0
    ensures r.Err? ==> r.error == IndexError
    ensures r.Ok? ==> |r.value| == |gages|
    ensures r.Ok? ==> forall i :: 0 <= i < |gages| ==>
              && fresh(r.value[i])
              && (r.value[i].Valid() <==> Distinct(gages[0].metricNames))
              && r.value[i].gageId == gages[i].gageId
              && Labels(r.value[i].rows) == gages[0].metricNames
              && forall key :: Trends.CellsAt(r.value[i].rows, key) == Trends.Unwritten
    ensures r.Ok? ==> forall i, j :: 0 <= i < j < |gages| ==> r.value[i] != r.value[j]
  {
    if |gages| == 0 {
      return Err(IndexError);
    }
    var metricsList := gages[0].metricNames;
    var all: seq<Trends.ResultTable> := [];
    var i := 0;
    while i < |gages|
      invariant 0 <= i <= |gages|
      invariant |all| == i
      invariant forall k :: 0 <= k < i ==>
                  && fresh(all[k])
                  && (all[k].Valid() <==> Distinct(metricsList))
                  && all[k].gageId == gages[k].gageId
                  && Labels(all[k].rows) == metricsList
                  && forall key :: Trends.CellsAt(all[k].rows, key) == Trends.Unwritten
      invariant forall k, l :: 0 <= k < l < i ==> all[k] != all[l]
    {
      var results := new Trends.ResultTable(gages[i].gageId, metricsList);
      all := all + [results];
      i := i + 1;
    }
    return Ok(all);
  }

  // ---------------------------------------------------------------------
  // Counting trend labels (utils.py:98-112, 122-136, 249-259)
  // ---------------------------------------------------------------------

  /** Numbers of 'decreasing', 'no trend' and 'increasing' cells. */
  datatype TrendCounts = TrendCounts(down: nat, flat: nat, up: nat)

  function CountsOf(cells: seq<Option<Trend>>): TrendCounts
  {
    TrendCounts(Count(cells, Decreasing), Count(cells, NoTrend), Count(cells, Increasing))
  }

  /** The `if`/`elif` chain of the counting loops: a cell bumps the counter of its label, NaN none. */
  function Bump(c: TrendCounts, cell: Option<Trend>): TrendCounts
  {
    if cell == Some(Decreasing) then c.(down := c.down + 1)
    else if cell == Some(NoTrend) then c.(flat := c.flat + 1)
    else if cell == Some(Increasing) then c.(up := c.up + 1)
    else c
  }

  /** Counting one more cell is one more bump. */
  lemma CountsSnoc(cells: seq<Option<Trend>>, i: nat)
    requires i < |cells|
    ensures CountsOf(cells[..i + 1]) == Bump(CountsOf(cells[..i]), cells[i])
  {
    assert cells[..i + 1][..i] == cells[..i];
  }

  /** The counting loop over one row's cells (utils.py:253-259): each cell bumps at most one counter, NaN none. */
  method CountTrends(cells: seq<Option<Trend>>) returns (c: TrendCounts)
    ensures c == CountsOf(cells)
    ensures c.down + c.flat + c.up <= |cells|
  {
    c := TrendCounts(0, 0, 0);
    for i := 0 to |cells|
      invariant c == CountsOf(cells[..i])
    {
      CountsSnoc(cells, i);
      c := Bump(c, cells[i]);
    }
    assert cells[..|cells|] == cells;
    CountsBounded(cells);
  }

  /** A gage's result table as `calc_mk_trend` leaves it: rows under metric labels. */
  type GageTable = seq<Trends.Row>

  /** The table has a row under every one of the labels. */
  predicate HasAll(table: GageTable, metrics: seq<string>)
  {
    forall m :: 0 <= m < |metrics| ==> metrics[m] in Labels(table)
  }

  /** Every table has a row under the label. */
  predicate InAll(tables: seq<GageTable>, metric: string)
  {
    forall g :: 0 <= g < |tables| ==> metric in Labels(tables[g])
  }

  /** Every table has a row under every one of the labels. */
  predicate Covers(tables: seq<GageTable>, metrics: seq<string>)
  {
    forall m :: 0 <= m < |metrics| ==> InAll(tables, metrics[m])
  }

  /** `c` holds the label counts of the cells under `metric`, at most one per table. */
  predicate Tallied(c: TrendCounts, tables: seq<GageTable>, metric: string)
  {
    c == CountsOf(DecisionsAt(tables, metric)) && Total(c) <= |tables|
  }

  /** The `mk_decision` cell of every gage under one label. */
  function DecisionsAt(tables: seq<GageTable>, metric: string): (r: seq<Option<Trend>>)
    ensures |r| == |tables| && forall g :: 0 <= g < |tables| ==> r[g] == Trends.CellsAt(tables[g], metric).decision
  {
    seq(|tables|, g requires 0 <= g < |tables| => Trends.CellsAt(tables[g], metric).decision)
  }

  /** `table.loc[metric, 'mk_decision']`: KeyError when the table has no row with that label. */
  function DecisionOf(table: GageTable, metric: string): (r: Result<Option<Trend>>)
    ensures r.Err? <==> metric !in Labels(table)
    ensures r.Err? ==> r.error == KeyError
    ensures r.Ok? ==> r.value == Trends.CellsAt(table, metric).decision
  {
    match RowOf(table, metric)
    case Err(e) => Err(e)
    case Ok(cells) => Ok(cells.decision)
  }

  /**
   * The gage loop for one metric (utils.py:102-110, 124-133): each gage's
   * `mk_decision` is read under the metric's label, KeyError at a gage that
   * has no row with that label, and the three labels are counted.
   */
  method CountMetric(tables: seq<GageTable>, metric: string) returns (r: Result<TrendCounts>)
    ensures r.Err? <==> !InAll(tables, metric)
    ensures r.Err? ==> r.error == KeyError
    ensures r.Ok? ==> r.value == CountsOf(DecisionsAt(tables, metric))
    ensures r.Ok? ==> Total(r.value) <= |tables|
  {
    ghost var column := DecisionsAt(tables, metric);
    var counts := TrendCounts(0, 0, 0);
    for g := 0 to |tables|
      invariant forall k :: 0 <= k < g ==> metric in Labels(tables[k])
      invariant counts == CountsOf(column[..g])
    {
      var decision := DecisionOf(tables[g], metric);
      if decision.Err? {
        return Err(decision.error);
      }
      assert metric in Labels(tables[g]);
      CountsSnoc(column, g);
      counts := Bump(counts, decision.value);
    }
    assert column[..|tables|] == column;
    CountsBounded(column);
    return Ok(counts);
  }

  /**
   * The metric loop (utils.py:100-111, 122-136): per label in order, the
   * counts over all the tables, or KeyError when some table lacks a label.
   */
  method SummaryRows(tables: seq<GageTable>, metrics: seq<string>) returns (r: Result<seq<TrendCounts>>)
    ensures r.Err? <==> !Covers(tables, metrics)
    ensures r.Err? ==> r.error == KeyError
    ensures r.Ok? ==> |r.value| == |metrics|
    ensures r.Ok? ==> forall m :: 0 <= m < |metrics| ==>
              r.value[m] == CountsOf(DecisionsAt(tables, metrics[m])) && Total(r.value[m]) <= |tables|
  {
    var rows: seq<TrendCounts> := [];
    for m := 0 to |metrics|
      invariant |rows| == m
      invariant forall k :: 0 <= k < m ==> InAll(tables, metrics[k]) && Tallied(rows[k], tables, metrics[k])
    {
      var counts := CountMetric(tables, metrics[m]);
      if counts.Err? {
        return Err(counts.error);
      }
      rows := rows + [counts.value];
    }
    return Ok(rows);
  }

  /**
   * `summarize_data_no_classes` (utils.py:115-137): per label of the first
   * table, the counts of the three labels over all gages, each gage read by
   * label. IndexError without gages, KeyError when a gage lacks a label.
   */
  method SummarizeDataNoClasses(tables: seq<GageTable>) returns (r: Result<seq<TrendCounts>>)
    ensures r.Err? <==> |tables| == 0 || !Covers(tables, Labels(tables[0]))
    ensures r.Err? ==> r.error == if |tables| == 0 then IndexError else KeyError
    ensures r.Ok? ==> |r.value| == |tables[0]|
    ensures r.Ok? ==> forall m :: 0 <= m < |tables[0]| ==>
              r.value[m] == CountsOf(DecisionsAt(tables, tables[0][m].name)) && Total(r.value[m]) <= |tables|
  {
    if |tables| == 0 {
      return Err(IndexError);
    }
    r := SummaryRows(tables, Labels(tables[0]));
  }


  /** A gage's result table together with its natural-flow class. */
  datatype ClassedTable = ClassedTable(flowClass: int, rows: GageTable)

  /** The gages of class `c`, in input order. */
  function InClass(gages: seq<ClassedTable>, c: int): (r: seq<ClassedTable>)
    ensures |r| <= |gages|
    ensures forall i :: 0 <= i < |r| ==> r[i].flowClass == c && r[i] in gages
  {
    if gages == [] then []
    else
      var last := gages[|gages| - 1];
      InClass(gages[..|gages| - 1], c) + if last.flowClass == c then [last] else []
  }

  /** `classes[i-1].append(gage_dict)` for the class `i` in 1..9 that matches (utils.py:84-89). */
  method GroupByClass(gages: seq<ClassedTable>) returns (classes: seq<seq<ClassedTable>>)
    ensures |classes| == 9
    ensures forall k :: 0 <= k < 9 ==> classes[k] == InClass(gages, k + 1)
  {
    classes := seq(9, _ => []);
    var j := 0;
    while j < |gages|
      invariant 0 <= j <= |gages|
      invariant |classes| == 9
      invariant forall k :: 0 <= k < 9 ==> classes[k] == InClass(gages[..j], k + 1)
    {
      assert gages[..j + 1][..j] == gages[..j];
      for i := 1 to 10
        invariant |classes| == 9
        invariant forall k :: 0 <= k < 9 ==>
                    classes[k] == InClass(gages[..j], k + 1) + (if k + 1 < i && gages[j].flowClass == k + 1 then [gages[j]] else [])
      {
        if gages[j].flowClass == i {
          classes := classes[i - 1 := classes[i - 1] + [gages[j]]];
        }
      }
      j := j + 1;
    }
    assert gages[..j] == gages;
  }

  /** Total size of classes 1..c. */
  function ClassSizes(gages: seq<ClassedTable>, c: nat): nat
  {
    if c == 0 then 0 else ClassSizes(gages, c - 1) + |InClass(gages, c)|
  }

  /** The gages whose class is one of 1..9. */
  function Classified(gages: seq<ClassedTable>): nat
  {
    if gages == [] then 0
    else Classified(gages[..|gages| - 1]) + if 1 <= gages[|gages| - 1].flowClass <= 9 then 1 else 0
  }

  /** Adding one gage adds one to the sizes of classes 1..c exactly when its class is among them. */
  lemma {:induction false} ClassSizesStep(init: seq<ClassedTable>, last: ClassedTable, c: nat)
    ensures ClassSizes(init + [last], c) == ClassSizes(init, c) + if 1 <= last.flowClass <= c then 1 else 0
  {
    if c > 0 {
      InClassSnoc(init, last, c);
      ClassSizesStep(init, last, c - 1);
    }
  }

  /** Class `c` of one more gage: the gage joins at the end exactly when its class is `c`. */
  lemma InClassSnoc(init: seq<ClassedTable>, last: ClassedTable, c: int)
    ensures InClass(init + [last], c) == InClass(init, c) + if last.flowClass == c then [last] else []
  {
    assert (init + [last])[..|init|] == init;
  }

  /**
   * Every gage of class 1..9 lands in exactly one class and any other gage in
   * none: the nine classes together hold exactly the classified gages.
   */
  lemma {:induction false} ClassesPartitionClassified(gages: seq<ClassedTable>)
    ensures ClassSizes(gages, 9) == Classified(gages)
  {
    if gages != [] {
      var init := gages[..|gages| - 1];
      assert gages == init + [gages[|gages| - 1]];
      ClassSizesStep(init, gages[|gages| - 1], 9);
      ClassesPartitionClassified(init);
    } else {
      ClassSizesEmpty(9);
    }
  }

  lemma {:induction false} ClassSizesEmpty(c: nat)
    ensures ClassSizes([], c) == 0
  {
    if c > 0 {
      ClassSizesEmpty(c - 1);
    }
  }

  /** A gage is among the gages of its own class. */
  lemma {:induction false} InClassMember(gages: seq<ClassedTable>, g: nat)
    requires g < |gages|
    ensures gages[g] in InClass(gages, gages[g].flowClass)
  {
    var init := gages[..|gages| - 1];
    var last := gages[|gages| - 1];
    assert gages == init + [last];
    InClassSnoc(init, last, gages[g].flowClass);
    if g < |gages| - 1 {
      assert init[g] == gages[g];
      InClassMember(init, g);
    }
  }

  /**
   * `summarize_data` (utils.py:83-113): for each class 1..9 and each label
   * of the first table, the label counts over the gages of that class, each
   * read by label. IndexError without gages; KeyError when a gage of class
   * 1..9 lacks one of the labels; gages of other classes are never read.
   */
  method SummarizeData(gages: seq<ClassedTable>) returns (r: Result<seq<seq<TrendCounts>>>)
    ensures r.Err? <==>
              || |gages| == 0
              || exists g :: 0 <= g < |gages| && 1 <= gages[g].flowClass <= 9 && !HasAll(gages[g].rows, Labels(gages[0].rows))
    ensures r.Err? ==> r.error == if |gages| == 0 then IndexError else KeyError
    ensures r.Ok? ==> |r.value| == 9 && forall k :: 0 <= k < 9 ==> |r.value[k]| == |gages[0].rows|
    ensures r.Ok? ==> forall k, m :: 0 <= k < 9 && 0 <= m < |gages[0].rows| ==>
              r.value[k][m] == CountsOf(DecisionsAt(Tables(InClass(gages, k + 1)), gages[0].rows[m].name))
              && Total(r.value[k][m]) <= |InClass(gages, k + 1)|
  {
    var classes := GroupByClass(gages);
    if |gages| == 0 {
      return Err(IndexError);
    }
    var metrics := Labels(gages[0].rows);
    var summary: seq<seq<TrendCounts>> := [];
    for index := 1 to 10
      invariant |summary| == index - 1
      invariant forall k :: 0 <= k < index - 1 ==> ClassCounts(summary[k], Tables(classes[k]), metrics)
    {
      var row := SummaryRows(Tables(classes[index - 1]), metrics);
      if row.Err? {
        UncoveredClass(gages, index, metrics);
        return Err(row.error);
      }
      summary := summary + [row.value];
    }
    forall c | 1 <= c <= 9
      ensures Covers(Tables(InClass(gages, c)), metrics)
    {
      assert ClassCounts(summary[c - 1], Tables(classes[c - 1]), metrics);
    }
    ClassesCover(gages, metrics);
    return Ok(summary);
  }

  /** A class whose tables miss a label has a gage of that class missing it. */
  lemma UncoveredClass(gages: seq<ClassedTable>, c: int, metrics: seq<string>)
    requires !Covers(Tables(InClass(gages, c)), metrics)
    ensures exists g :: 0 <= g < |gages| && gages[g].flowClass == c && !HasAll(gages[g].rows, metrics)
  {
    var members := InClass(gages, c);
    var m :| 0 <= m < |metrics| && !InAll(Tables(members), metrics[m]);
    var j :| 0 <= j < |members| && metrics[m] !in Labels(Tables(members)[j]);
    assert !HasAll(members[j].rows, metrics);
    assert members[j] in gages;
    var g :| 0 <= g < |gages| && gages[g] == members[j];
  }

  /** When the tables of every class 1..9 have all the labels, so has every gage of those classes. */
  lemma ClassesCover(gages: seq<ClassedTable>, metrics: seq<string>)
    requires forall c :: 1 <= c <= 9 ==> Covers(Tables(InClass(gages, c)), metrics)
    ensures forall g :: 0 <= g < |gages| && 1 <= gages[g].flowClass <= 9 ==> HasAll(gages[g].rows, metrics)
  {
    forall g | 0 <= g < |gages| && 1 <= gages[g].flowClass <= 9
      ensures HasAll(gages[g].rows, metrics)
    {
      InClassMember(gages, g);
      var members := InClass(gages, gages[g].flowClass);
      var j :| 0 <= j < |members| && members[j] == gages[g];
      forall m | 0 <= m < |metrics|
        ensures metrics[m] in Labels(gages[g].rows)
      {
        assert InAll(Tables(members), metrics[m]);
        assert Tables(members)[j] == gages[g].rows;
      }
    }
  }

  /** One class's row of the summary: every table has every label, and per label the counts over the tables. */
  predicate ClassCounts(row: seq<TrendCounts>, tables: seq<GageTable>, metrics: seq<string>)
  {
    && Covers(tables, metrics)
    && |row| == |metrics|
    && forall m :: 0 <= m < |metrics| ==> Tallied(row[m], tables, metrics[m])
  }

  /** The result tables of some gages. */
  function Tables(gages: seq<ClassedTable>): (tables: seq<GageTable>)
    ensures |tables| == |gages| && forall i :: 0 <= i < |gages| ==> tables[i] == gages[i].rows
  {
    seq(|gages|, i requires 0 <= i < |gages| => gages[i].rows)
  }

  // ---------------------------------------------------------------------
  // Scenario partition (utils.py:143-147, 199-205, 232-243)
  // ---------------------------------------------------------------------

  datatype Slot = First | Second | Dropped

  /** `if first in name: ... elif second in name: ...`; a name with neither is dropped. */
  function Route(name: string, first: string, second: string): Slot
  {
    if Contains(name, first) then First
    else if Contains(name, second) then Second
    else Dropped
  }

  /** The items routed to `slot`, in input order. */
  function Routed<T>(items: seq<Named<T>>, first: string, second: string, slot: Slot): (r: seq<Named<T>>)
    ensures |r| <= |items|
    ensures forall i :: 0 <= i < |r| ==> r[i] in items && Route(r[i].name, first, second) == slot
  {
    if items == [] then []
    else
      var last := items[|items| - 1];
      Routed(items[..|items| - 1], first, second, slot) + if Route(last.name, first, second) == slot then [last] else []
  }

  /** Routing one more item appends it to its own slot and leaves the other slots unchanged. */
  lemma RoutedSnoc<T>(items: seq<Named<T>>, i: nat, first: string, second: string, slot: Slot)
    requires i < |items|
    ensures Routed(items[..i + 1], first, second, slot) ==
              Routed(items[..i], first, second, slot) + if Route(items[i].name, first, second) == slot then [items[i]] else []
  {
    assert items[..i + 1][..i] == items[..i];
  }

  /** Every item goes to exactly one of the two groups or is dropped. */
  lemma {:induction false} RoutedSizes<T>(items: seq<Named<T>>, first: string, second: string)
    ensures |Routed(items, first, second, First)| + |Routed(items, first, second, Second)|
            + |Routed(items, first, second, Dropped)| == |items|
  {
    if items != [] {
      RoutedSizes(items[..|items| - 1], first, second);
    }
  }

  /** An item that is routed to `slot` somewhere in the input is in that group. */
  lemma {:induction false} RoutedKeeps<T>(items: seq<Named<T>>, first: string, second: string, k: nat)
    requires k < |items|
    ensures items[k] in Routed(items, first, second, Route(items[k].name, first, second))
  {
    if k < |items| - 1 {
      RoutedKeeps(items[..|items| - 1], first, second, k);
    }
  }

  /** A name carrying both tags goes to whichever tag is tested first. */
  lemma BothTagsGoFirst(name: string, first: string, second: string)
    requires Contains(name, first) && Contains(name, second)
    ensures Route(name, first, second) == First && Route(name, second, first) == First
  {
  }

  /** The partition loop: append each item to the first group whose tag its name contains. */
  method Partition<T>(items: seq<Named<T>>, first: string, second: string) returns (a: seq<Named<T>>, b: seq<Named<T>>)
    ensures a == Routed(items, first, second, First)
    ensures b == Routed(items, first, second, Second)
  {
    a, b := [], [];
    var i := 0;
    while i < |items|
      invariant 0 <= i <= |items|
      invariant a == Routed(items[..i], first, second, First)
      invariant b == Routed(items[..i], first, second, Second)
    {
      assert items[..i + 1][..i] == items[..i];
      if Contains(items[i].name, first) {
        a := a + [items[i]];
      } else if Contains(items[i].name, second) {
        b := b + [items[i]];
      }
      i := i + 1;
    }
    assert items[..i] == items;
  }

  function Items<T>(named: seq<Named<T>>): (r: seq<T>)
    ensures |r| == |named| && forall i :: 0 <= i < |named| ==> r[i] == named[i].item
  {
    seq(|named|, i requires 0 <= i < |named| => named[i].item)
  }

  // ---------------------------------------------------------------------
  // combine_mk_model_stats (utils.py:195-226)
  // ---------------------------------------------------------------------

  /** A trend table read back from CSV: rows are metrics, columns are sites. */
  type MkTable = seq<seq<Option<Trend>>>

  /** An integer table whose NaN cells are `None`. */
  type SumTable = seq<seq<Option<int>>>

  predicate Shaped<T>(t: seq<seq<T>>, rows: nat, cols: nat)
  {
    |t| == rows && forall i :: 0 <= i < rows ==> |t[i]| == cols
  }

  /** `replace('decreasing', -1)`, `replace('no trend', 0)`, `replace('increasing', 1)`; NaN stays NaN. */
  function Encode(c: Option<Trend>): Option<int>
  {
    match c
    case None => None
    case Some(Decreasing) => Some(-1)
    case Some(NoTrend) => Some(0)
    case Some(Increasing) => Some(1)
  }

  /** One cell of `DataFrame.add` without `fill_value`: NaN on either side gives NaN. */
  function AddCell(a: Option<int>, b: Option<int>): Option<int>
  {
    if a.Some? && b.Some? then Some(a.value + b.value) else None
  }

  /** A zero-initialised table accumulating the encoded cells, file after file. */
  function CellSum(cells: seq<Option<Trend>>): Option<int>
  {
    if cells == [] then Some(0)
    else AddCell(CellSum(cells[..|cells| - 1]), Encode(cells[|cells| - 1]))
  }

  /** With no NaN, a summed cell is the number of 'increasing' minus the number of 'decreasing' models. */
  lemma {:induction false} CellSumIsNetDirection(cells: seq<Option<Trend>>)
    requires forall k :: 0 <= k < |cells| ==> cells[k].Some?
    ensures CellSum(cells) == Some(Count(cells, Increasing) - Count(cells, Decreasing))
  {
    if cells != [] {
      CellSumIsNetDirection(cells[..|cells| - 1]);
    }
  }

  /** A summed cell is NaN exactly when some model has NaN there. */
  lemma {:induction false} CellSumMissing(cells: seq<Option<Trend>>)
    ensures CellSum(cells).None? <==> exists k :: 0 <= k < |cells| && cells[k].None?
  {
    if cells != [] {
      var init := cells[..|cells| - 1];
      CellSumMissing(init);
      if exists k :: 0 <= k < |init| && init[k].None? {
        var k :| 0 <= k < |init| && init[k].None?;
        assert cells[k].None?;
      }
    }
  }

  /** A summed cell lies between minus and plus the number of models. */
  lemma {:induction false} CellSumBounded(cells: seq<Option<Trend>>)
    requires CellSum(cells).Some?
    ensures -|cells| <= CellSum(cells).value <= |cells|
  {
    if cells != [] {
      CellSumBounded(cells[..|cells| - 1]);
    }
  }

  /** If every model reports 'no trend', the summed cell is 0. */
  lemma {:induction false} CellSumAllNoTrend(cells: seq<Option<Trend>>)
    requires forall k :: 0 <= k < |cells| ==> cells[k] == Some(NoTrend)
    ensures CellSum(cells) == Some(0)
  {
    if cells != [] {
      CellSumAllNoTrend(cells[..|cells| - 1]);
    }
  }

  /** If every model reports 'increasing', the summed cell is the number of models. */
  lemma {:induction false} CellSumAllIncreasing(cells: seq<Option<Trend>>)
    requires forall k :: 0 <= k < |cells| ==> cells[k] == Some(Increasing)
    ensures CellSum(cells) == Some(|cells|)
  {
    if cells != [] {
      CellSumAllIncreasing(cells[..|cells| - 1]);
    }
  }

  /**
   * Cell (i, j) of every table; a table without that cell contributes NaN,
   * as label alignment in `DataFrame.add` would.
   */
  function Across(tables: seq<MkTable>, i: nat, j: nat): (r: seq<Option<Trend>>)
    ensures |r| == |tables|
    ensures forall k :: 0 <= k < |tables| && i < |tables[k]| && j < |tables[k][i]| ==> r[k] == tables[k][i][j]
    ensures forall k :: 0 <= k < |tables| && !(i < |tables[k]| && j < |tables[k][i]|) ==> r[k] == None
  {
    seq(|tables|, k requires 0 <= k < |tables| => if i < |tables[k]| && j < |tables[k][i]| then tables[k][i][j] else None)
  }

  /** Adding table `k` to the sum of the tables before it adds its cell (i, j). */
  lemma CellSumSnoc(tables: seq<MkTable>, k: nat, i: nat, j: nat)
    requires k < |tables| && i < |tables[k]| && j < |tables[k][i]|
    ensures CellSum(Across(tables[..k + 1], i, j)) == AddCell(CellSum(Across(tables[..k], i, j)), Encode(tables[k][i][j]))
  {
    var cells := Across(tables[..k + 1], i, j);
    assert cells[..k] == Across(tables[..k], i, j);
    assert cells[k] == tables[k][i][j];
  }

  /** `mk_output = mk_output.add(mk_file)` for each encoded file of one group, from a zero table. */
  method SumGroup(tables: seq<MkTable>, rows: nat, cols: nat) returns (acc: SumTable)
    requires forall k :: 0 <= k < |tables| ==> Shaped(tables[k], rows, cols)
    ensures Shaped(acc, rows, cols)
    ensures forall i, j :: 0 <= i < rows && 0 <= j < cols ==> acc[i][j] == CellSum(Across(tables, i, j))
  {
    acc := seq(rows, _ => seq(cols, _ => Some(0)));
    var k := 0;
    while k < |tables|
      invariant 0 <= k <= |tables|
      invariant Shaped(acc, rows, cols)
      invariant forall i, j :: 0 <= i < rows && 0 <= j < cols ==> acc[i][j] == CellSum(Across(tables[..k], i, j))
    {
      var t := tables[k];
      forall i, j | 0 <= i < rows && 0 <= j < cols
        ensures CellSum(Across(tables[..k + 1], i, j)) == AddCell(CellSum(Across(tables[..k], i, j)), Encode(t[i][j]))
      {
        CellSumSnoc(tables, k, i, j);
      }
      acc := seq(rows, i requires 0 <= i < rows =>
               seq(cols, j requires 0 <= j < cols => AddCell(acc[i][j], Encode(t[i][j]))));
      k := k + 1;
    }
    assert tables[..k] == tables;
  }

  /**
   * `combine_mk_model_stats`: the RCP 4.5 and RCP 8.5 sum tables. Each file
   * goes to 4.5 if its path contains '45', else to 8.5 if it contains '85';
   * both tables take the shape of the last file read.
   */
  method CombineMkModelStats(files: seq<Named<MkTable>>, rows: nat, cols: nat) returns (r: Result<(SumTable, SumTable)>)
    requires forall k :: 0 <= k < |files| ==> Shaped(files[k].item, rows, cols)
    ensures r.Err? <==> |files| == 0
    ensures r.Err? ==> r.error == NameError
    ensures r.Ok? ==> Shaped(r.value.0, rows, cols) && Shaped(r.value.1, rows, cols)
    ensures r.Ok? ==> forall i, j :: 0 <= i < rows && 0 <= j < cols ==>
              r.value.0[i][j] == CellSum(Across(Items(Routed(files, "45", "85", First)), i, j))
              && r.value.1[i][j] == CellSum(Across(Items(Routed(files, "45", "85", Second)), i, j))
  {
    var files45, files85 := Partition(files, "45", "85");
    if |files| == 0 {
      return Err(NameError);
    }
    var out45 := SumGroup(Items(files45), rows, cols);
    var out85 := SumGroup(Items(files85), rows, cols);
    return Ok((out45, out85));
  }

  // ---------------------------------------------------------------------
  // gini_index_mk_trends (utils.py:228-265)
  // ---------------------------------------------------------------------

  /** `100*(1 - gini/(2/3))` with `gini = 1 - ((inc/tot)**2 + (dec/tot)**2 + (same/tot)**2)`, over exact reals. */
  function GiniScore(inc: nat, dec: nat, same: nat): real
    requires inc + dec + same > 0
  {
    var tot := (inc + dec + same) as real;
    var pInc := inc as real / tot;
    var pDec := dec as real / tot;
    var pSame := same as real / tot;
    var gini := 1.0 - (Sq(pInc) + Sq(pDec) + Sq(pSame));
    100.0 * (1.0 - gini / (2.0 / 3.0))
  }

  /** The label shares `inc/tot`, `dec/tot`, `same/tot`. */
  function Shares(inc: nat, dec: nat, same: nat): (real, real, real)
    requires inc + dec + same > 0
  {
    var tot := (inc + dec + same) as real;
    (inc as real / tot, dec as real / tot, same as real / tot)
  }

  /** Dividing two counts by the same positive total keeps their sign and their equality. */
  lemma ShareOfCount(x: nat, y: nat, t: real)
    requires t > 0.0
    ensures 0.0 <= x as real / t && (x as real / t) * t == x as real
    ensures x as real / t == 0.0 <==> x == 0
    ensures x as real / t == y as real / t <==> x == y
  {
    var p, q := x as real / t, y as real / t;
    assert p * t == x as real && q * t == y as real;
    assert (p - q) * t == (x - y) as real;
  }

  /** The shares are non-negative, add up to 1, vanish with their count and compare like their counts. */
  lemma SharesFacts(inc: nat, dec: nat, same: nat)
    requires inc + dec + same > 0
    ensures var (a, b, c) := Shares(inc, dec, same);
            && 0.0 <= a && 0.0 <= b && 0.0 <= c && a + b + c == 1.0
            && (a == 0.0 <==> inc == 0) && (b == 0.0 <==> dec == 0) && (c == 0.0 <==> same == 0)
            && (a == b <==> inc == dec) && (b == c <==> dec == same)
  {
    var t := (inc + dec + same) as real;
    var (a, b, c) := Shares(inc, dec, same);
    ShareOfCount(inc, dec, t);
    ShareOfCount(dec, same, t);
    ShareOfCount(same, inc, t);
    assert (a + b + c - 1.0) * t == a * t + b * t + c * t - t == 0.0;
  }

  function Mul(x: real, y: real): real
  {
    x * y
  }

  function Sq(x: real): real
  {
    Mul(x, x)
  }

  /** The concentration of the shares, `a² + b² + c²` (Simpson's index). */
  function Concentration(inc: nat, dec: nat, same: nat): real
    requires inc + dec + same > 0
  {
    var (a, b, c) := Shares(inc, dec, same);
    Sq(a) + Sq(b) + Sq(c)
  }

  /** The score rescales the concentration of the shares: `150·(a² + b² + c²) − 50`. */
  lemma GiniOfShares(inc: nat, dec: nat, same: nat)
    requires inc + dec + same > 0
    ensures GiniScore(inc, dec, same) == 150.0 * Concentration(inc, dec, same) - 50.0
  {
  }

  /** For shares adding up to 1, three times the concentration exceeds 1 by the squared pairwise gaps. */
  lemma ConcentrationGap(a: real, b: real, c: real)
    requires a + b + c == 1.0
    ensures 3.0 * (Sq(a) + Sq(b) + Sq(c)) - 1.0 == Sq(a - b) + Sq(b - c) + Sq(c - a)
  {
    assert (a + b + c) * (a + b + c) == a * a + b * b + c * c + 2.0 * (a * b + b * c + c * a) == 1.0;
    assert Sq(a - b) == a * a - 2.0 * (a * b) + b * b;
    assert Sq(b - c) == b * b - 2.0 * (b * c) + c * c;
    assert Sq(c - a) == c * c - 2.0 * (c * a) + a * a;
  }

  lemma ProductPositive(x: real, y: real)
    requires (x > 0.0 && y > 0.0) || (x < 0.0 && y < 0.0)
    ensures Mul(x, y) > 0.0
  {
  }

  lemma SquareNonNegative(x: real)
    ensures Sq(x) >= 0.0
  {
  }

  lemma SquarePositive(x: real)
    requires x != 0.0
    ensures Sq(x) > 0.0
  {
    ProductPositive(x, x);
  }

  /** A share squared never exceeds the share, and falls strictly below it unless the share is 0 or 1. */
  lemma SquareOfShareBelow(x: real)
    requires 0.0 <= x <= 1.0
    ensures Sq(x) <= x
    ensures 0.0 < x < 1.0 ==> Sq(x) < x
  {
    if 0.0 < x < 1.0 {
      ProductPositive(x, 1.0 - x);
    }
  }

  /** Shares adding up to 1 have a concentration between 1/3 and 1. */
  lemma ConcentrationBounds(a: real, b: real, c: real)
    requires 0.0 <= a && 0.0 <= b && 0.0 <= c && a + b + c == 1.0
    ensures 1.0 <= 3.0 * (Sq(a) + Sq(b) + Sq(c)) && Sq(a) + Sq(b) + Sq(c) <= 1.0
  {
    ConcentrationGap(a, b, c);
    SquareOfShareBelow(a);
    SquareOfShareBelow(b);
    SquareOfShareBelow(c);
    SquareNonNegative(a - b);
    SquareNonNegative(b - c);
    SquareNonNegative(c - a);
  }

  /** With at least one label counted, the score lies in [0, 100]. */
  lemma GiniScoreBounds(inc: nat, dec: nat, same: nat)
    requires inc + dec + same > 0
    ensures 0.0 <= GiniScore(inc, dec, same) <= 100.0
  {
    SharesFacts(inc, dec, same);
    GiniOfShares(inc, dec, same);
    var (a, b, c) := Shares(inc, dec, same);
    ConcentrationBounds(a, b, c);
  }

  /** Shares adding up to 1 have concentration 1 exactly when at most one of them is non-zero. */
  lemma ConcentrationOneIffSingle(a: real, b: real, c: real)
    requires 0.0 <= a && 0.0 <= b && 0.0 <= c && a + b + c == 1.0
    ensures Sq(a) + Sq(b) + Sq(c) == 1.0 <==> (a == 0.0 && b == 0.0) || (b == 0.0 && c == 0.0) || (a == 0.0 && c == 0.0)
  {
    SquareOfShareBelow(a);
    SquareOfShareBelow(b);
    SquareOfShareBelow(c);
    if a == 0.0 && b == 0.0 {
      assert c == 1.0;
    } else if b == 0.0 && c == 0.0 {
      assert a == 1.0;
    } else if a == 0.0 && c == 0.0 {
      assert b == 1.0;
    } else {
      // two shares lie strictly between 0 and 1, so the concentration falls below 1
      assert (0.0 < a < 1.0) || (0.0 < b < 1.0);
    }
  }

  /** The score is 100 exactly when every counted outcome carries the same label. */
  lemma GiniHundredIffUnanimous(inc: nat, dec: nat, same: nat)
    requires inc + dec + same > 0
    ensures GiniScore(inc, dec, same) == 100.0 <==> (inc == 0 && dec == 0) || (dec == 0 && same == 0) || (inc == 0 && same == 0)
  {
    SharesFacts(inc, dec, same);
    GiniOfShares(inc, dec, same);
    var (a, b, c) := Shares(inc, dec, same);
    ConcentrationOneIffSingle(a, b, c);
  }

  /** Shares adding up to 1 have concentration 1/3 exactly when they are equal. */
  lemma ConcentrationThirdIffEqual(a: real, b: real, c: real)
    requires a + b + c == 1.0
    ensures 3.0 * (Sq(a) + Sq(b) + Sq(c)) == 1.0 <==> a == b == c
  {
    ConcentrationGap(a, b, c);
    SquareNonNegative(a - b);
    SquareNonNegative(b - c);
    SquareNonNegative(c - a);
    if a != b {
      SquarePositive(a - b);
    } else if b != c {
      SquarePositive(b - c);
    }
  }

  /** The score is 0 exactly when the three labels are equally frequent. */
  lemma GiniZeroIffEvenSplit(inc: nat, dec: nat, same: nat)
    requires inc + dec + same > 0
    ensures GiniScore(inc, dec, same) == 0.0 <==> inc == dec == same
  {
    SharesFacts(inc, dec, same);
    GiniOfShares(inc, dec, same);
    var (a, b, c) := Shares(inc, dec, same);
    ConcentrationThirdIffEqual(a, b, c);
  }
  function Total(c: TrendCounts): nat
  {
    c.down + c.flat + c.up
  }

  /** A trend table indexed by its `Year` column: each metric row of site cells under its metric label. */
  type LabelledTable = seq<Named<seq<Option<Trend>>>>

  /** The score of one metric row; `inc/tot` raises ZeroDivisionError when the row holds none of the three labels. */
  function RowScore(row: seq<Option<Trend>>): (r: Result<real>)
    ensures r.Err? <==> Total(CountsOf(row)) == 0
    ensures r.Err? ==> r.error == ZeroDivisionError
    ensures r.Ok? ==> 0.0 <= r.value <= 100.0
  {
    var c := CountsOf(row);
    if Total(c) == 0 then Err(ZeroDivisionError)
    else
      GiniScoreBounds(c.up, c.down, c.flat);
      Ok(GiniScore(c.up, c.down, c.flat))
  }

  /**
   * `mk_file['data'].loc[metric]` scored: KeyError exactly when the table has
   * no row with that label; otherwise the first row under the label is
   * scored, failing with ZeroDivisionError exactly when it holds none of the
   * three labels.
   */
  function MetricScore(table: LabelledTable, metric: string): (r: Result<real>)
    ensures (r.Err? && r.error == KeyError) <==> metric !in Labels(table)
    ensures r.Err? ==> r.error == KeyError || r.error == ZeroDivisionError
    ensures metric in Labels(table) ==>
              var row := table[IndexOf(Labels(table), metric)].item;
              && (r.Err? <==> Total(CountsOf(row)) == 0)
              && (r.Ok? ==> r.value == GiniScore(CountsOf(row).up, CountsOf(row).down, CountsOf(row).flat))
    ensures r.Ok? ==> 0.0 <= r.value <= 100.0
  {
    match RowOf(table, metric)
    case Err(e) => Err(e)
    case Ok(row) => RowScore(row)
  }

  /**
   * One model's Gini column over `metrics`, in their order: it fails with the
   * error of the first metric that has no row or no labelled cell, and
   * otherwise holds each metric's score, in [0, 100].
   */
  function GiniColumn(table: LabelledTable, metrics: seq<string>): (r: Result<seq<real>>)
    ensures r.Err? <==> exists m :: 0 <= m < |metrics| && MetricScore(table, metrics[m]).Err?
    ensures r.Err? ==> exists m :: 0 <= m < |metrics| && MetricScore(table, metrics[m]) == Err(r.error)
                                   && forall j :: 0 <= j < m ==> MetricScore(table, metrics[j]).Ok?
    ensures r.Err? ==> r.error == KeyError || r.error == ZeroDivisionError
    ensures r.Ok? ==> |r.value| == |metrics|
    ensures r.Ok? ==> forall m :: 0 <= m < |metrics| ==> MetricScore(table, metrics[m]) == Ok(r.value[m])
    ensures r.Ok? ==> forall m :: 0 <= m < |metrics| ==> 0.0 <= r.value[m] <= 100.0
  {
    var outcomes := seq(|metrics|, m requires 0 <= m < |metrics| => MetricScore(table, metrics[m]));
    assert forall m :: 0 <= m < |metrics| ==> outcomes[m] == MetricScore(table, metrics[m]);
    AllOk(outcomes)
  }

  /** A metric's score reads only the row under its label: the table's other rows and its row order do not matter. */
  lemma GiniColumnByLabel(t: LabelledTable, u: LabelledTable, metrics: seq<string>)
    requires forall m :: 0 <= m < |metrics| ==> RowOf(t, metrics[m]) == RowOf(u, metrics[m])
    ensures GiniColumn(t, metrics) == GiniColumn(u, metrics)
  {
    assert seq(|metrics|, m requires 0 <= m < |metrics| => MetricScore(t, metrics[m]))
        == seq(|metrics|, m requires 0 <= m < |metrics| => MetricScore(u, metrics[m]));
  }

  /** The metric loop of one model (utils.py:249-263). */
  method GiniForModel(table: LabelledTable, metrics: seq<string>) returns (r: Result<seq<real>>)
    ensures r == GiniColumn(table, metrics)
  {
    ghost var outcomes := seq(|metrics|, m requires 0 <= m < |metrics| => MetricScore(table, metrics[m]));
    var scores: seq<real> := [];
    for m := 0 to |metrics|
      invariant AllOk(outcomes[..m]) == Ok(scores)
    {
      var row := RowOf(table, metrics[m]);
      if row.Err? {
        AllOkFirstErr(outcomes, m);
        return Err(row.error);
      }
      var counts := CountTrends(row.value);
      var tot := counts.up + counts.down + counts.flat;
      if tot == 0 {
        AllOkFirstErr(outcomes, m);
        return Err(ZeroDivisionError);
      }
      AllOkStep(outcomes, m, scores);
      scores := scores + [GiniScore(counts.up, counts.down, counts.flat)];
    }
    assert outcomes[..|metrics|] == outcomes;
    return Ok(scores);
  }

  /** When every routed file has a stem, so has every file of a routed group. */
  lemma RoutedStems(files: seq<Named<LabelledTable>>, slot: Slot)
    requires slot != Dropped
    requires forall k :: 0 <= k < |files| && Route(files[k].name, "45", "85") != Dropped ==> ThirdComponentStem(files[k].name).Ok?
    ensures forall k :: 0 <= k < |Routed(files, "45", "85", slot)| ==> ThirdComponentStem(Routed(files, "45", "85", slot)[k].name).Ok?
  {
    var group := Routed(files, "45", "85", slot);
    forall k | 0 <= k < |group|
      ensures ThirdComponentStem(group[k].name).Ok?
    {
      var l :| 0 <= l < |files| && files[l] == group[k];
    }
  }

  /** The file loop of utils.py:232-243: route every file, cutting a model name out of each routed path. */
  method RouteModelFiles(files: seq<Named<LabelledTable>>) returns (r: Result<(seq<Named<LabelledTable>>, seq<Named<LabelledTable>>)>)
    ensures r.Err? <==> exists k :: 0 <= k < |files| && Route(files[k].name, "45", "85") != Dropped && ThirdComponentStem(files[k].name).Err?
    ensures r.Err? ==> r.error == IndexError
    ensures r.Ok? ==> r.value.0 == Routed(files, "45", "85", First) && r.value.1 == Routed(files, "45", "85", Second)
    ensures r.Ok? ==> forall k :: 0 <= k < |r.value.0| ==> ThirdComponentStem(r.value.0[k].name).Ok?
  {
    var files45: seq<Named<LabelledTable>> := [];
    var files85: seq<Named<LabelledTable>> := [];
    var i := 0;
    while i < |files|
      invariant 0 <= i <= |files|
      invariant files45 == Routed(files[..i], "45", "85", First)
      invariant files85 == Routed(files[..i], "45", "85", Second)
      invariant forall k :: 0 <= k < i && Route(files[k].name, "45", "85") != Dropped ==> ThirdComponentStem(files[k].name).Ok?
    {
      RoutedSnoc(files, i, "45", "85", First);
      RoutedSnoc(files, i, "45", "85", Second);
      var route := Route(files[i].name, "45", "85");
      if route != Dropped {
        var stem := ThirdComponentStem(files[i].name);
        if stem.Err? {
          return Err(stem.error);
        }
        if route == First {
          files45 := files45 + [files[i]];
        } else {
          files85 := files85 + [files[i]];
        }
      }
      i := i + 1;
    }
    assert files[..i] == files;
    RoutedStems(files, First);
    return Ok((files45, files85));
  }

  /** The key of an RCP 4.5 model in the Gini table: its name from the path, minus the first 11 characters. */
  function GiniKey(path: string): string
  {
    match ThirdComponentStem(path)
    case Ok(stem) => SliceFrom(stem, 11)
    case Err(_) => []  // such a path raised IndexError before any key was made
  }

  /** `col` is the Gini column of the last of the first `j` files whose key is `name`. */
  ghost predicate LastScoredAs(files45: seq<Named<LabelledTable>>, metrics: seq<string>, j: nat, name: string, col: seq<real>)
    requires j <= |files45|
  {
    exists k :: 0 <= k < j && GiniKey(files45[k].name) == name && GiniColumn(files45[k].item, metrics) == Ok(col)
      && forall l :: k < l < j ==> GiniKey(files45[l].name) != name
  }

  /**
   * Last-writer-wins bookkeeping after `|columns|` writes, the `k`-th writing
   * `columns[k]` under `keys[k]`: `source` records, for every key written, the
   * last write to it, and `allDfs` holds that write's column.
   */
  ghost predicate Tracks(keys: seq<string>, columns: seq<seq<real>>, allDfs: map<string, seq<real>>, source: map<string, nat>)
  {
    && |columns| <= |keys|
    && (forall k :: 0 <= k < |columns| ==> keys[k] in source)
    && allDfs.Keys == source.Keys
    && forall name :: name in source ==>
         && source[name] < |columns|
         && keys[source[name]] == name
         && columns[source[name]] == allDfs[name]
         && forall l :: source[name] < l < |columns| ==> keys[l] != name
  }

  /** One more write keeps the bookkeeping. */
  lemma TracksStep(keys: seq<string>, columns: seq<seq<real>>, allDfs: map<string, seq<real>>,
                   source: map<string, nat>, column: seq<real>)
    requires Tracks(keys, columns, allDfs, source) && |columns| < |keys|
    ensures Tracks(keys, columns + [column], allDfs[keys[|columns|] := column], source[keys[|columns|] := |columns|])
  {
    var j := |columns|;
    var key := keys[j];
    var allDfs', source', columns' := allDfs[key := column], source[key := j], columns + [column];
    forall name | name in source'
      ensures && source'[name] < j + 1
              && keys[source'[name]] == name
              && columns'[source'[name]] == allDfs'[name]
              && forall l :: source'[name] < l < j + 1 ==> keys[l] != name
    {
      if name != key {
        assert source'[name] == source[name] && allDfs'[name] == allDfs[name];
        assert columns'[source[name]] == columns[source[name]];
      }
    }
  }

  /** The finished bookkeeping, read back in terms of the model files. */
  lemma TracksScored(files45: seq<Named<LabelledTable>>, metrics: seq<string>, keys: seq<string>, columns: seq<seq<real>>,
                     outcomes: seq<Result<seq<real>>>, allDfs: map<string, seq<real>>, source: map<string, nat>)
    requires |keys| == |files45| == |columns| == |outcomes|
    requires forall k :: 0 <= k < |files45| ==> keys[k] == GiniKey(files45[k].name)
    requires forall k :: 0 <= k < |files45| ==> outcomes[k] == GiniColumn(files45[k].item, metrics)
    requires forall k :: 0 <= k < |files45| ==> outcomes[k] == Ok(columns[k])
    requires Tracks(keys, columns, allDfs, source)
    ensures forall k :: 0 <= k < |files45| ==> GiniColumn(files45[k].item, metrics).Ok?
    ensures forall k :: 0 <= k < |files45| ==> GiniKey(files45[k].name) in allDfs
    ensures forall name :: name in allDfs ==> LastScoredAs(files45, metrics, |files45|, name, allDfs[name])
  {
    forall name | name in allDfs
      ensures LastScoredAs(files45, metrics, |files45|, name, allDfs[name])
    {
      var k := source[name];
      assert GiniKey(files45[k].name) == name && outcomes[k] == GiniColumn(files45[k].item, metrics) == Ok(allDfs[name]);
    }
  }

  /** Model `k` is the first whose Gini column fails, and it fails with `e`. */
  ghost predicate FailsFirstAt(files45: seq<Named<LabelledTable>>, metrics: seq<string>, k: nat, e: Error)
  {
    && k < |files45|
    && GiniColumn(files45[k].item, metrics) == Err(e)
    && forall j :: 0 <= j < k ==> GiniColumn(files45[j].item, metrics).Ok?
  }

  /** The scoring loop of utils.py:246-264: one Gini column per model, a later model overwriting an equal key. */
  method ScoreModels(files45: seq<Named<LabelledTable>>, metrics: seq<string>) returns (r: Result<map<string, seq<real>>>)
    ensures r.Err? <==> exists k :: 0 <= k < |files45| && GiniColumn(files45[k].item, metrics).Err?
    ensures r.Err? ==> exists k :: FailsFirstAt(files45, metrics, k, r.error)
    ensures r.Ok? ==> forall k :: 0 <= k < |files45| ==> GiniKey(files45[k].name) in r.value
    ensures r.Ok? ==> forall name :: name in r.value ==> LastScoredAs(files45, metrics, |files45|, name, r.value[name])
  {
    ghost var keys := seq(|files45|, k requires 0 <= k < |files45| => GiniKey(files45[k].name));
    ghost var outcomes := seq(|files45|, k requires 0 <= k < |files45| => GiniColumn(files45[k].item, metrics));
    var allDfs: map<string, seq<real>> := map[];
    ghost var columns: seq<seq<real>> := [];      // the column of every file scored so far
    ghost var source: map<string, nat> := map[];  // the file each key's column came from
    for j := 0 to |files45|
      invariant |columns| == j
      invariant forall k :: 0 <= k < j ==> outcomes[k] == Ok(columns[k])
      invariant Tracks(keys, columns, allDfs, source)
    {
      var name := GiniKey(files45[j].name);
      var column := GiniForModel(files45[j].item, metrics);
      assert column == outcomes[j];
      if column.Err? {
        forall i | 0 <= i < j
          ensures GiniColumn(files45[i].item, metrics).Ok?
        {
          assert outcomes[i] == Ok(columns[i]);
        }
        assert FailsFirstAt(files45, metrics, j, column.error);
        return Err(column.error);
      }
      TracksStep(keys, columns, allDfs, source, column.value);
      ghost var scored := columns + [column.value];
      forall k | 0 <= k < j + 1
        ensures outcomes[k] == Ok(scored[k])
      {
        if k < j {
          assert scored[k] == columns[k];
        }
      }
      allDfs := allDfs[name := column.value];
      source := source[name := j];
      columns := scored;
    }
    TracksScored(files45, metrics, keys, columns, outcomes, allDfs, source);
    return Ok(allDfs);
  }

  /** Some file routed to a scenario has a path with fewer than three components. */
  predicate BadStem(files: seq<Named<LabelledTable>>)
  {
    exists k :: 0 <= k < |files| && Route(files[k].name, "45", "85") != Dropped && ThirdComponentStem(files[k].name).Err?
  }

  /** `mk_files_85[0]['data'].index`: the labels of the first RCP 8.5 table, IndexError when there is none. */
  function GiniMetrics(files: seq<Named<LabelledTable>>): (r: Result<seq<string>>)
    ensures r.Err? <==> |Routed(files, "45", "85", Second)| == 0
    ensures r.Err? ==> r.error == IndexError
    ensures r.Ok? ==> r.value == Labels(Routed(files, "45", "85", Second)[0].item)
  {
    var files85 := Routed(files, "45", "85", Second);
    if |files85| == 0 then Err(IndexError) else Ok(Labels(files85[0].item))
  }

  /**
   * `gini_index_mk_trends`: one Gini column per RCP 4.5 model over the metric
   * labels of the first RCP 8.5 file, so without one it raises IndexError even
   * though only RCP 4.5 files are scored. Each RCP 4.5 table is read by label:
   * a metric it lacks raises KeyError, its other rows are ignored.
   */
  method GiniIndexMkTrends(files: seq<Named<LabelledTable>>) returns (r: Result<map<string, seq<real>>>)
    ensures r.Err? <==>
              || BadStem(files) || GiniMetrics(files).Err?
              || exists k :: 0 <= k < |Routed(files, "45", "85", First)| &&
                   GiniColumn(Routed(files, "45", "85", First)[k].item, GiniMetrics(files).value).Err?
    ensures BadStem(files) || GiniMetrics(files).Err? ==> r == Err(IndexError)
    ensures r.Err? && !BadStem(files) && GiniMetrics(files).Ok? ==>
              exists k :: FailsFirstAt(Routed(files, "45", "85", First), GiniMetrics(files).value, k, r.error)
    ensures r.Ok? ==> forall k :: 0 <= k < |Routed(files, "45", "85", First)| ==>
              GiniKey(Routed(files, "45", "85", First)[k].name) in r.value
    ensures r.Ok? ==> forall name :: name in r.value ==>
              LastScoredAs(Routed(files, "45", "85", First), GiniMetrics(files).value,
                           |Routed(files, "45", "85", First)|, name, r.value[name])
    ensures r.Ok? ==> forall name :: name in r.value ==>
              |r.value[name]| == |GiniMetrics(files).value| &&
              forall m :: 0 <= m < |r.value[name]| ==> 0.0 <= r.value[name][m] <= 100.0
  {
    var routed := RouteModelFiles(files);
    if routed.Err? {
      return Err(routed.error);
    }
    var (files45, files85) := routed.value;
    if |files85| == 0 {
      return Err(IndexError);
    }
    var metrics := Labels(files85[0].item);
    r := ScoreModels(files45, metrics);
    if r.Ok? {
      ScoresInRange(files45, metrics, r.value);
    }
  }

  /** Every column the scoring loop keeps is some model's Gini column: one score in [0, 100] per metric. */
  lemma ScoresInRange(files45: seq<Named<LabelledTable>>, metrics: seq<string>, scores: map<string, seq<real>>)
    requires forall name :: name in scores ==> LastScoredAs(files45, metrics, |files45|, name, scores[name])
    ensures forall name :: name in scores ==>
              |scores[name]| == |metrics| && forall m :: 0 <= m < |scores[name]| ==> 0.0 <= scores[name][m] <= 100.0
  {
    forall name | name in scores
      ensures |scores[name]| == |metrics| && forall m :: 0 <= m < |scores[name]| ==> 0.0 <= scores[name][m] <= 100.0
    {
      var k :| 0 <= k < |files45| && GiniKey(files45[k].name) == name && GiniColumn(files45[k].item, metrics) == Ok(scores[name])
               && forall l :: k < l < |files45| ==> GiniKey(files45[l].name) != name;
    }
  }

  // ---------------------------------------------------------------------
  // create_model_tables (utils.py:139-193)
  // ---------------------------------------------------------------------

  /** One model run at one site: its gage id, metric names and numeric metric table (NaN = `None`). */
  datatype ModelRun = ModelRun(gageId: string, metricNames: seq<string>, values: seq<seq<Option<real>>>)

  /**
   * The per-site historical and future averages (utils.py:164-177): the mean of
   * years 1950-2015 and of 2035-2100 per model, then `nanmean` across the site's
   * models. Floating-point averaging is left uninterpreted.
   */
  type SiteMeans = seq<ModelRun> -> (seq<real>, seq<real>)

  /** Indices of the flow-magnitude metrics, reported as percent change. */
  const FlowMagIndices: seq<nat> := [0, 3, 4, 7, 8, 9, 16, 20, 21, 24]

  /** Length of the `np.zeros([28,])` result buffer. */
  const ResultLength: nat := 28

  /**
   * Change at metric `index`: percent change for a flow-magnitude metric,
   * plain difference otherwise. A zero historical mean makes numpy's percent
   * change infinite or NaN, which is `None` here.
   */
  function ChangeAt(index: nat, hist: real, fut: real): Option<real>
  {
    if index in FlowMagIndices then
      if hist == 0.0 then None else Some((fut - hist) / hist * 100.0)
    else Some(fut - hist)
  }

  /** The change for a non-magnitude metric is the difference; for a magnitude metric it is relative to the historical mean. */
  lemma ChangeAtMeaning(index: nat, hist: real, fut: real)
    ensures index !in FlowMagIndices ==> ChangeAt(index, hist, fut) == Some(fut - hist)
    ensures index in FlowMagIndices && hist != 0.0 ==>
              ChangeAt(index, hist, fut).Some? && ChangeAt(index, hist, fut).value * hist == (fut - hist) * 100.0
    ensures fut == hist ==> ChangeAt(index, hist, fut) == Some(0.0) || (index in FlowMagIndices && hist == 0.0)
  {
  }

  /** The difference loop of utils.py:178-184 over the fixed 28-slot buffer. */
  method DifferenceRule(hist: seq<real>, fut: seq<real>) returns (r: Result<seq<Option<real>>>)
    ensures r.Err? <==> |hist| > ResultLength || |fut| < |hist|
    ensures r.Err? ==> r.error == IndexError
    ensures r.Ok? ==> |r.value| == ResultLength
    ensures r.Ok? ==> forall i :: 0 <= i < |hist| ==> r.value[i] == ChangeAt(i, hist[i], fut[i])
    ensures r.Ok? ==> forall i :: |hist| <= i < ResultLength ==> r.value[i] == Some(0.0)
  {
    var resultList := new Option<real>[ResultLength](_ => Some(0.0));
    var index := 0;
    while index < |hist|
      invariant 0 <= index <= |hist|
      invariant index <= ResultLength
      invariant index <= |fut|
      invariant forall i :: 0 <= i < index ==> resultList[i] == ChangeAt(i, hist[i], fut[i])
      invariant forall i :: index <= i < ResultLength ==> resultList[i] == Some(0.0)
    {
      if index >= |fut| || index >= ResultLength {
        return Err(IndexError);
      }
      resultList[index] := ChangeAt(index, hist[index], fut[index]);
      index := index + 1;
    }
    return Ok(resultList[..]);
  }

  /** `sites` lists every site of `models` exactly once and nothing else. */
  ghost predicate SitesOf(models: seq<Named<ModelRun>>, sites: seq<string>)
  {
    && (forall i, j :: 0 <= i < j < |sites| ==> sites[i] != sites[j])
    && (forall k :: 0 <= k < |models| ==> models[k].item.gageId in sites)
    && (forall s :: s in sites ==> exists k :: 0 <= k < |models| && models[k].item.gageId == s)
  }

  /** A site listed earlier occurs in `models` before any occurrence of a site listed later. */
  ghost predicate FirstOccurrenceOrder(models: seq<Named<ModelRun>>, sites: seq<string>)
  {
    forall i, j, k :: 0 <= i < j < |sites| && 0 <= k < |models| && models[k].item.gageId == sites[j] ==>
      exists l :: 0 <= l < k && models[l].item.gageId == sites[i]
  }

  /** The first-occurrence dedup of utils.py:151-156. */
  method DedupSites(models: seq<Named<ModelRun>>) returns (sites: seq<string>)
    ensures SitesOf(models, sites)
    ensures FirstOccurrenceOrder(models, sites)
  {
    sites := [];
    ghost var first: seq<nat> := [];  // where each site first occurs
    var n := 0;
    while n < |models|
      invariant 0 <= n <= |models|
      invariant |first| == |sites|
      invariant forall i :: 0 <= i < |sites| ==> first[i] < n && models[first[i]].item.gageId == sites[i]
      invariant forall i, j :: 0 <= i < j < |sites| ==> first[i] < first[j]
      invariant forall i, k :: 0 <= i < |sites| && 0 <= k < n && models[k].item.gageId == sites[i] ==> first[i] <= k
      invariant forall k :: 0 <= k < n ==> models[k].item.gageId in sites
    {
      var id := models[n].item.gageId;
      if id !in sites {
        sites := sites + [id];
        first := first + [n];
      }
      n := n + 1;
    }
    DedupDistinct(models, sites, first);
    DedupListed(models, sites, first);
    DedupOrder(models, sites, first);
  }

  /** Sites with strictly increasing first occurrences are distinct. */
  lemma DedupDistinct(models: seq<Named<ModelRun>>, sites: seq<string>, first: seq<nat>)
    requires |first| == |sites|
    requires forall i :: 0 <= i < |sites| ==> first[i] < |models| && models[first[i]].item.gageId == sites[i]
    requires forall i, k :: 0 <= i < |sites| && 0 <= k < |models| && models[k].item.gageId == sites[i] ==> first[i] <= k
    requires forall i, j :: 0 <= i < j < |sites| ==> first[i] < first[j]
    ensures forall i, j :: 0 <= i < j < |sites| ==> sites[i] != sites[j]
  {
    forall i, j | 0 <= i < j < |sites|
      ensures sites[i] != sites[j]
    {
      assert models[first[j]].item.gageId == sites[j];
    }
  }

  /** Every listed site occurs in `models`, at its first occurrence. */
  lemma DedupListed(models: seq<Named<ModelRun>>, sites: seq<string>, first: seq<nat>)
    requires |first| == |sites|
    requires forall i :: 0 <= i < |sites| ==> first[i] < |models| && models[first[i]].item.gageId == sites[i]
    ensures forall s :: s in sites ==> exists k :: 0 <= k < |models| && models[k].item.gageId == s
  {
    forall s | s in sites
      ensures exists k :: 0 <= k < |models| && models[k].item.gageId == s
    {
      var i :| 0 <= i < |sites| && sites[i] == s;
      assert models[first[i]].item.gageId == s;
    }
  }

  /** An earlier site's first occurrence precedes every occurrence of a later site. */
  lemma DedupOrder(models: seq<Named<ModelRun>>, sites: seq<string>, first: seq<nat>)
    requires |first| == |sites|
    requires forall i :: 0 <= i < |sites| ==> first[i] < |models| && models[first[i]].item.gageId == sites[i]
    requires forall i, j :: 0 <= i < j < |sites| ==> first[i] < first[j]
    requires forall i, k :: 0 <= i < |sites| && 0 <= k < |models| && models[k].item.gageId == sites[i] ==> first[i] <= k
    ensures FirstOccurrenceOrder(models, sites)
  {
    forall i, j, k | 0 <= i < j < |sites| && 0 <= k < |models| && models[k].item.gageId == sites[j]
      ensures exists l :: 0 <= l < k && models[l].item.gageId == sites[i]
    {
      assert first[i] < first[j] <= k;
      assert models[first[i]].item.gageId == sites[i];
    }
  }

  /** The positions of `site`'s runs in `models`, in increasing order. */
  ghost function SitePositions(models: seq<Named<ModelRun>>, site: string): seq<nat>
  {
    if models == [] then []
    else
      var n := |models| - 1;
      SitePositions(models[..n], site) + if models[n].item.gageId == site then [n] else []
  }

  /** The positions of a site are exactly those of its runs, each once, in increasing order. */
  lemma {:induction false} SitePositionsMeaning(models: seq<Named<ModelRun>>, site: string)
    ensures var ps := SitePositions(models, site);
      && (forall i :: 0 <= i < |ps| ==> ps[i] < |models| && models[ps[i]].item.gageId == site)
      && (forall i, j :: 0 <= i < j < |ps| ==> ps[i] < ps[j])
      && (forall k :: 0 <= k < |models| && models[k].item.gageId == site ==> k in ps)
  {
    if models != [] {
      var n := |models| - 1;
      var init := SitePositions(models[..n], site);
      SitePositionsMeaning(models[..n], site);
      assert forall i :: 0 <= i < |init| ==> init[i] < n && models[..n][init[i]].item.gageId == site;
      forall i | 0 <= i < |init|
        ensures models[init[i]].item.gageId == site
      {
        assert models[init[i]] == models[..n][init[i]];
      }
      forall k | 0 <= k < n && models[k].item.gageId == site
        ensures k in init
      {
        assert models[..n][k] == models[k];
      }
    }
  }

  /** The models of one site (utils.py:164-170), in input order. */
  function SiteModels(models: seq<Named<ModelRun>>, site: string): seq<ModelRun>
  {
    if models == [] then []
    else
      var last := models[|models| - 1];
      SiteModels(models[..|models| - 1], site) + if last.item.gageId == site then [last.item] else []
  }

  /** The models of a site are the runs at the site's positions: every run of that site, in input order, and nothing else. */
  lemma {:induction false} SiteModelsAreSiteRuns(models: seq<Named<ModelRun>>, site: string)
    ensures |SiteModels(models, site)| == |SitePositions(models, site)|
    ensures forall i :: 0 <= i < |SiteModels(models, site)| ==>
              SitePositions(models, site)[i] < |models| &&
              SiteModels(models, site)[i] == models[SitePositions(models, site)[i]].item
  {
    SitePositionsMeaning(models, site);
    if models != [] {
      var n := |models| - 1;
      SiteModelsAreSiteRuns(models[..n], site);
      var init := SiteModels(models[..n], site);
      var ps := SitePositions(models[..n], site);
      forall i | 0 <= i < |init|
        ensures init[i] == models[ps[i]].item
      {
        assert models[..n][ps[i]] == models[ps[i]];
      }
    }
  }

  /** Averages the difference loop cannot index: more than 28 metrics, or fewer future than historical means. */
  predicate BadMeans(avgs: (seq<real>, seq<real>))
  {
    |avgs.0| > ResultLength || |avgs.1| < |avgs.0|
  }

  /** `column` is the buffer the difference loop leaves for these historical and future averages. */
  predicate IsChangeColumn(avgs: (seq<real>, seq<real>), column: seq<Option<real>>)
  {
    var (hist, fut) := avgs;
    && !BadMeans(avgs) && |column| == ResultLength
    && (forall m :: 0 <= m < |hist| ==> column[m] == ChangeAt(m, hist[m], fut[m]))
    && (forall m :: |hist| <= m < ResultLength ==> column[m] == Some(0.0))
  }

  /** Some site of `group` has averages the difference loop cannot index. */
  predicate SomeBadSite(group: seq<Named<ModelRun>>, means: SiteMeans)
  {
    exists k :: 0 <= k < |group| && BadMeans(means(SiteModels(group, group[k].item.gageId)))
  }

  /** `sites` and `columns` are what `create_table` writes for `group`. */
  ghost predicate IsSiteTable(group: seq<Named<ModelRun>>, means: SiteMeans, sites: seq<string>, columns: seq<seq<Option<real>>>)
  {
    && SitesOf(group, sites)
    && |columns| == |sites|
    && forall i :: 0 <= i < |sites| ==> IsChangeColumn(means(SiteModels(group, sites[i])), columns[i])
  }

  /** The site loop of utils.py:173-185: one change column per site, in site order. */
  method SiteColumns(group: seq<Named<ModelRun>>, sites: seq<string>, means: SiteMeans) returns (r: Result<seq<seq<Option<real>>>>)
    ensures r.Err? <==> exists i :: 0 <= i < |sites| && BadMeans(means(SiteModels(group, sites[i])))
    ensures r.Err? ==> r.error == IndexError
    ensures r.Ok? ==> |r.value| == |sites|
    ensures r.Ok? ==> forall i :: 0 <= i < |sites| ==> IsChangeColumn(means(SiteModels(group, sites[i])), r.value[i])
  {
    var columns: seq<seq<Option<real>>> := [];
    var i := 0;
    while i < |sites|
      invariant 0 <= i <= |sites|
      invariant |columns| == i
      invariant forall p :: 0 <= p < i ==> IsChangeColumn(means(SiteModels(group, sites[p])), columns[p])
    {
      var (hist, fut) := means(SiteModels(group, sites[i]));
      var column := DifferenceRule(hist, fut);
      if column.Err? {
        return Err(column.error);
      }
      columns := columns + [column.value];
      i := i + 1;
    }
    return Ok(columns);
  }

  /** A bad site in the list is the site of some model, so some model's site is bad. */
  lemma BadSiteIsModelSite(group: seq<Named<ModelRun>>, sites: seq<string>, means: SiteMeans)
    requires forall s :: s in sites ==> exists k :: 0 <= k < |group| && group[k].item.gageId == s
    ensures (exists i :: 0 <= i < |sites| && BadMeans(means(SiteModels(group, sites[i])))) ==> SomeBadSite(group, means)
  {
    if exists i :: 0 <= i < |sites| && BadMeans(means(SiteModels(group, sites[i]))) {
      var i :| 0 <= i < |sites| && BadMeans(means(SiteModels(group, sites[i])));
      assert sites[i] in sites;
      var k :| 0 <= k < |group| && group[k].item.gageId == sites[i];
    }
  }

  /** Every model's site is in the list, so a bad model site is a bad listed site. */
  lemma ModelSiteIsListed(group: seq<Named<ModelRun>>, sites: seq<string>, means: SiteMeans)
    requires forall k :: 0 <= k < |group| ==> group[k].item.gageId in sites
    ensures SomeBadSite(group, means) ==> (exists i :: 0 <= i < |sites| && BadMeans(means(SiteModels(group, sites[i]))))
  {
    if SomeBadSite(group, means) {
      var k :| 0 <= k < |group| && BadMeans(means(SiteModels(group, group[k].item.gageId)));
      var i :| 0 <= i < |sites| && sites[i] == group[k].item.gageId;
    }
  }

  /**
   * `create_table` on `group` raises: IndexError for an empty group or a site
   * whose averages cannot be indexed, otherwise ValueError when the first
   * run's 28-row buffer and its metric index differ in length.
   */
  predicate TableFails(group: seq<Named<ModelRun>>, means: SiteMeans)
  {
    |group| == 0 || SomeBadSite(group, means) || |group[0].item.metricNames| != ResultLength
  }

  function TableError(group: seq<Named<ModelRun>>, means: SiteMeans): Error
  {
    if |group| == 0 || SomeBadSite(group, means) then IndexError else ValueError
  }

  /** `create_table`: sites in first-occurrence order, one change column per site. */
  method CreateTable(rcpModels: seq<Named<ModelRun>>, means: SiteMeans) returns (r: Result<(seq<string>, seq<seq<Option<real>>>)>)
    ensures r.Err? <==> TableFails(rcpModels, means)
    ensures r.Err? ==> r.error == TableError(rcpModels, means)
    ensures r.Ok? ==> IsSiteTable(rcpModels, means, r.value.0, r.value.1)
    ensures r.Ok? ==> FirstOccurrenceOrder(rcpModels, r.value.0)
  {
    var sites := DedupSites(rcpModels);
    if |rcpModels| == 0 {
      return Err(IndexError);
    }
    var metricsList := rcpModels[0].item.metricNames;
    var columns := SiteColumns(rcpModels, sites, means);
    BadSiteIsModelSite(rcpModels, sites, means);
    ModelSiteIsListed(rcpModels, sites, means);
    if columns.Err? {
      return Err(columns.error);
    }
    if |metricsList| != ResultLength {
      return Err(ValueError);
    }
    return Ok((sites, columns.value));
  }

  /**
   * `create_model_tables`: split the runs into RCP 8.5 (name contains '85',
   * tested first) and RCP 4.5 (contains '45'), then build the 4.5 table and the
   * 8.5 table, in that order.
   */
  method CreateModelTables(models: seq<Named<ModelRun>>, means: SiteMeans)
    returns (r: Result<((seq<string>, seq<seq<Option<real>>>), (seq<string>, seq<seq<Option<real>>>))>)
    ensures var models45, models85 := Routed(models, "85", "45", Second), Routed(models, "85", "45", First);
      r.Err? <==> TableFails(models45, means) || TableFails(models85, means)
    ensures var models45, models85 := Routed(models, "85", "45", Second), Routed(models, "85", "45", First);
      r.Err? ==> r.error == if TableFails(models45, means) then TableError(models45, means) else TableError(models85, means)
    ensures r.Ok? ==> IsSiteTable(Routed(models, "85", "45", Second), means, r.value.0.0, r.value.0.1)
    ensures r.Ok? ==> FirstOccurrenceOrder(Routed(models, "85", "45", Second), r.value.0.0)
    ensures r.Ok? ==> IsSiteTable(Routed(models, "85", "45", First), means, r.value.1.0, r.value.1.1)
    ensures r.Ok? ==> FirstOccurrenceOrder(Routed(models, "85", "45", First), r.value.1.0)
  {
    var models85, models45 := Partition(models, "85", "45");
    var output45 := CreateTable(models45, means);
    if output45.Err? {
      return Err(output45.error);
    }
    var output85 := CreateTable(models85, means);
    if output85.Err? {
      return Err(output85.error);
    }
    return Ok((output45.value, output85.value));
  }
}
