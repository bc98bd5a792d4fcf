/**
 * Shared vocabulary of the trend pipeline: optional and failing results,
 * the Python exception kinds the pipeline can raise, the three trend labels,
 * and the few Python string operations (substring test, `split('/')`,
 * slicing) the pipeline relies on.
 */
module Base {

  datatype Option<T> = None | Some(value: T)

  /** A Python exception kind; a run that raises one stops there. */
  datatype Error = IndexError | KeyError | ValueError | ZeroDivisionError | NameError

  datatype Result<T> = Ok(value: T) | Err(error: Error)

  /** The three decisions the Mann-Kendall test reports ('increasing', 'decreasing', 'no trend'). */
  datatype Trend = Increasing | Decreasing | NoTrend

  /**
   * An item under a name: a model run or file under the name (model name or
   * file path) it is routed by, or a table row under its index label.
   */
  datatype Named<T> = Named(name: string, item: T)

  /** No item occurs twice. */
  predicate Distinct<T(==)>(s: seq<T>)
  {
    forall i, j :: 0 <= i < j < |s| ==> s[i] != s[j]
  }

  /** The first position of `x` in `s`. */
  function IndexOf<T(==)>(s: seq<T>, x: T): (r: nat)
    requires x in s
    ensures r < |s| && s[r] == x
    ensures forall j :: 0 <= j < r ==> s[j] != x
  {
    if s[0] == x then 0 else 1 + IndexOf(s[1..], x)
  }

  // ---------------------------------------------------------------- labelled tables

  /** The labels of a table's rows, in order: the table's index. */
  function Labels<T>(table: seq<Named<T>>): (r: seq<string>)
    ensures |r| == |table| && forall i :: 0 <= i < |table| ==> r[i] == table[i].name
  {
    seq(|table|, i requires 0 <= i < |table| => table[i].name)
  }

  /** `table.loc[key]`: the first row with that key, KeyError when there is none. */
  function RowOf<T>(table: seq<Named<T>>, key: string): (r: Result<T>)
    ensures r.Err? <==> key !in Labels(table)
    ensures r.Err? ==> r.error == KeyError
    ensures r.Ok? ==> table[IndexOf(Labels(table), key)] == Named(key, r.value)
  {
    if table == [] then Err(KeyError)
    else if table[0].name == key then Ok(table[0].item)
    else
      assert Labels(table) == [table[0].name] + Labels(table[1..]);
      RowOf(table[1..], key)
  }

  // ---------------------------------------------------------------- first failure of a sequence

  /** Collects a sequence of results; the first failure is the outcome. */
  function AllOk<T>(rs: seq<Result<T>>): (r: Result<seq<T>>)
    ensures r.Ok? <==> forall i :: 0 <= i < |rs| ==> rs[i].Ok?
    ensures r.Ok? ==> |r.value| == |rs| && forall i :: 0 <= i < |rs| ==> rs[i] == Ok(r.value[i])
    ensures r.Err? ==> exists i :: 0 <= i < |rs| && rs[i] == Err(r.error) && forall j :: 0 <= j < i ==> rs[j].Ok?
  {
    if rs == [] then Ok([])
    else
      var front := rs[..|rs| - 1];
      assert forall i :: 0 <= i < |front| ==> front[i] == rs[i];
      var prev := AllOk(front);
      if prev.Err? then Err(prev.error)
      else if rs[|rs| - 1].Err? then Err(rs[|rs| - 1].error)
      else Ok(prev.value + [rs[|rs| - 1].value])
  }

  /** The first failure of a sequence is its outcome, whatever follows it. */
  lemma AllOkFirstErr<T>(rs: seq<Result<T>>, i: nat)
    requires i < |rs| && AllOk(rs[..i]).Ok? && rs[i].Err?
    ensures AllOk(rs) == Err(rs[i].error)
  {
    assert forall j :: 0 <= j < i ==> rs[..i][j] == rs[j];
    var r := AllOk(rs);
    var k :| 0 <= k < |rs| && rs[k] == Err(r.error) && forall j :: 0 <= j < k ==> rs[j].Ok?;
    assert k == i;
  }

  /** Extending a successful prefix by one success extends its values. */
  lemma AllOkStep<T>(rs: seq<Result<T>>, i: nat, vs: seq<T>)
    requires i < |rs| && AllOk(rs[..i]) == Ok(vs) && rs[i].Ok?
    ensures AllOk(rs[..i + 1]) == Ok(vs + [rs[i].value])
  {
    assert rs[..i + 1][..i] == rs[..i];
  }

  /** Python's `sub in s` for strings. */
  predicate Contains(s: string, sub: string)
    decreases |s|
  {
    if |s| < |sub| then false
    else s[..|sub|] == sub || Contains(s[1..], sub)
  }

  /** `Contains` finds exactly the positions where `sub` occurs in `s`. */
  lemma {:induction false} ContainsAt(s: string, sub: string, i: nat)
    requires i + |sub| <= |s| && s[i..i + |sub|] == sub
    ensures Contains(s, sub)
    decreases i
  {
    if i > 0 {
      assert s[1..][i - 1..i - 1 + |sub|] == s[i..i + |sub|];
      ContainsAt(s[1..], sub, i - 1);
    }
  }

  lemma {:induction false} ContainsWitness(s: string, sub: string) returns (i: nat)
    requires Contains(s, sub)
    ensures i + |sub| <= |s| && s[i..i + |sub|] == sub
    decreases |s|
  {
    if s[..|sub|] == sub {
      i := 0;
    } else {
      var j := ContainsWitness(s[1..], sub);
      assert s[1..][j..j + |sub|] == s[j + 1..j + 1 + |sub|];
      i := j + 1;
    }
  }

  /** Python's `s[k:]`: empty when `k` is past the end. */
  function SliceFrom<T>(s: seq<T>, k: nat): (r: seq<T>)
    ensures |r| == if k <= |s| then |s| - k else 0
    ensures forall i :: 0 <= i < |r| ==> r[i] == s[k + i]
  {
    if k <= |s| then s[k..] else []
  }

  /** Python's `s[0:-k]` for `k > 0`: all but the last `k` items, empty when `k` exceeds the length. */
  function SliceDropLast<T>(s: seq<T>, k: nat): (r: seq<T>)
    requires k > 0
    ensures |r| == if k <= |s| then |s| - k else 0
    ensures r <= s
  {
    if k <= |s| then s[..|s| - k] else []
  }

  /** Python's `s.split(sep)` with a one-character separator. */
  function Split(s: string, sep: char): (parts: seq<string>)
    ensures |parts| >= 1
    decreases |s|
  {
    if s == [] then [[]]
    else
      var rest := Split(s[1..], sep);
      if s[0] == sep then [[]] + rest
      else [[s[0]] + rest[0]] + rest[1..]
  }

  /** Python's `sep.join(parts)`. */
  function Join(parts: seq<string>, sep: char): string
    requires |parts| >= 1
  {
    if |parts| == 1 then parts[0] else parts[0] + [sep] + Join(parts[1..], sep)
  }

  /** Splitting and joining again gives back the original string. */
  lemma {:induction false} JoinSplit(s: string, sep: char)
    ensures Join(Split(s, sep), sep) == s
    decreases |s|
  {
    if s != [] {
      var rest := Split(s[1..], sep);
      JoinSplit(s[1..], sep);
      if s[0] == sep {
        assert Split(s, sep) == [[]] + rest;
        assert Split(s, sep)[1..] == rest;
      } else {
        var parts := Split(s, sep);
        assert parts == [[s[0]] + rest[0]] + rest[1..];
        if |rest| == 1 {
          assert parts[1..] == [];
        } else {
          assert parts[1..] == rest[1..];
          assert Join(rest, sep) == rest[0] + [sep] + Join(rest[1..], sep);
        }
      }
    }
  }

  /** No piece of a split contains the separator. */
  lemma {:induction false} SplitPiecesFree(s: string, sep: char)
    ensures forall k, i :: 0 <= k < |Split(s, sep)| && 0 <= i < |Split(s, sep)[k]| ==> Split(s, sep)[k][i] != sep
    decreases |s|
  {
    if s != [] {
      SplitPiecesFree(s[1..], sep);
    }
  }

  /** Python's `path.split('/')[2][0:-4]`: the third path component without its four-character extension. */
  function ThirdComponentStem(path: string): (r: Result<string>)
    ensures r.Err? <==> |Split(path, '/')| < 3
    ensures r.Err? ==> r.error == IndexError
    ensures r.Ok? ==> r.value <= Split(path, '/')[2]
    ensures r.Ok? ==> |r.value| == if |Split(path, '/')[2]| >= 4 then |Split(path, '/')[2]| - 4 else 0
  {
    var parts := Split(path, '/');
    if |parts| < 3 then Err(IndexError) else Ok(SliceDropLast(parts[2], 4))
  }

  /** How many cells carry the label `t`; empty (NaN) cells carry none. */
  function Count(cells: seq<Option<Trend>>, t: Trend): nat
  {
    if cells == [] then 0
    else Count(cells[..|cells| - 1], t) + (if cells[|cells| - 1] == Some(t) then 1 else 0)
  }

  /** The three label counts together never exceed the number of cells. */
  lemma {:induction false} CountsBounded(cells: seq<Option<Trend>>)
    ensures Count(cells, Decreasing) + Count(cells, NoTrend) + Count(cells, Increasing) <= |cells|
  {
    if cells != [] {
      CountsBounded(cells[..|cells| - 1]);
    }
  }

  /** Counting distributes over concatenation. */
  lemma {:induction false} CountAppend(a: seq<Option<Trend>>, b: seq<Option<Trend>>, t: Trend)
    ensures Count(a + b, t) == Count(a, t) + Count(b, t)
    decreases |b|
  {
    if b != [] {
      assert (a + b)[..|a + b| - 1] == a + b[..|b| - 1];
      CountAppend(a, b[..|b| - 1], t);
    } else {
      assert a + b == a;
    }
  }

  /** When every cell has the label `t`, all of them are counted under `t`. */
  lemma {:induction false} CountAll(cells: seq<Option<Trend>>, t: Trend)
    requires forall i :: 0 <= i < |cells| ==> cells[i] == Some(t)
    ensures Count(cells, t) == |cells|
  {
    if cells != [] {
      CountAll(cells[..|cells| - 1], t);
    }
  }
}
