/**
 * The Gini star ranking of plotting.py: each Gini value (a share between 0 and 1)
 * becomes a label of zero to three stars printed above the trend bars.
 */
module Plotting {

  /** The three cut points; a value earns one star for each cut point it reaches. */
  const Thresholds: seq<real> := [0.25, 0.5, 0.75]

  /** How many of the cut points lie at or below `x`. */
  function Reached(cuts: seq<real>, x: real): (n: nat)
    ensures n <= |cuts|
  {
    if cuts == [] then 0 else (if cuts[0] <= x then 1 else 0) + Reached(cuts[1..], x)
  }

  /** A label made of `n` stars. */
  function StarString(n: nat): (r: string)
    ensures |r| == n && forall i :: 0 <= i < n ==> r[i] == '*'
  {
    if n == 0 then "" else "*" + StarString(n - 1)
  }

  /** The cut points are sorted, so the count of reached ones reads off the first cut point above `x`. */
  lemma ReachedThresholds(x: real)
    ensures Reached(Thresholds, x) == if x < 0.25 then 0 else if x < 0.5 then 1 else if x < 0.75 then 2 else 3
  {
    var last: seq<real> := [0.75];
    var tail: seq<real> := [0.5, 0.75];
    assert last[1..] == [] && tail[1..] == last && Thresholds[1..] == tail;
    assert Reached(last, x) == if 0.75 <= x then 1 else 0;
    assert Reached(tail, x) == (if 0.5 <= x then 1 else 0) + Reached(last, x);
    assert Reached(Thresholds, x) == (if 0.25 <= x then 1 else 0) + Reached(tail, x);
  }

  /** The label of one Gini value, as the if/elif chain of `make_gini_stars_rank` picks it. */
  function Stars(x: real): (r: string)
    ensures r == StarString(Reached(Thresholds, x))
  {
    ReachedThresholds(x);
    assert StarString(3) == "***" && StarString(2) == "**" && StarString(1) == "*";
    if x < 0.25 then ""
    else if x < 0.5 then "*"
    else if x < 0.75 then "**"
    else "***"
  }

  /** `make_gini_stars_rank`: one label per value, in order. */
  method MakeGiniStarsRank(gini: seq<real>) returns (stars: seq<string>)
    ensures |stars| == |gini|
    ensures forall i :: 0 <= i < |gini| ==> stars[i] == Stars(gini[i])
  {
    stars := [];
    for index := 0 to |gini|
      invariant |stars| == index
      invariant forall i :: 0 <= i < index ==> stars[i] == Stars(gini[i])
    {
      if gini[index] < 0.25 {
        stars := stars + [""];
      } else if gini[index] < 0.5 {
        stars := stars + ["*"];
      } else if gini[index] < 0.75 {
        stars := stars + ["**"];
      } else {
        stars := stars + ["***"];
      }
    }
  }

  /** Reaching cut points is monotone in the value. */
  lemma {:induction false} ReachedMonotone(cuts: seq<real>, x: real, y: real)
    requires x <= y
    ensures Reached(cuts, x) <= Reached(cuts, y)
  {
    if cuts != [] {
      ReachedMonotone(cuts[1..], x, y);
    }
  }

  /** A larger Gini value never gets fewer stars. */
  lemma StarsMonotone(x: real, y: real)
    requires x <= y
    ensures |Stars(x)| <= |Stars(y)|
  {
    ReachedMonotone(Thresholds, x, y);
  }

  /** Every label is one of the four the plot uses. */
  lemma StarsLabels(x: real)
    ensures Stars(x) in ["", "*", "**", "***"]
    ensures |Stars(x)| <= 3
  {
  }
}
