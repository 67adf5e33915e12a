/**
 * The value side of a frequency-dependent parameter: parallel lists of
 * frequencies and values, read back by clamped piecewise-linear
 * interpolation and written by an in-place upsert that keeps the
 * frequencies in ascending order.
 */
module Curves {
  import opened Errors
  import opened Tolerances

  /** The state of one `Parameter`: its two parallel lists and its optional tolerance. */
  datatype Curve = Curve(freqs: seq<real>, values: seq<real>, tolerance: Option<Tolerance>)

  predicate Parallel(c: Curve)
  {
    |c.freqs| == |c.values|
  }

  /** Ascending without repeats: the shape every upsert-built curve has. */
  predicate StrictlySorted(s: seq<real>)
  {
    forall i, j :: 0 <= i < j < |s| ==> s[i] < s[j]
  }

  function Min(s: seq<real>): (m: real)
    requires |s| > 0
    ensures m in s && forall x :: x in s ==> m <= x
  {
    if |s| == 1 then s[0]
    else
      var rest := Min(s[1..]);
      assert forall x :: x in s ==> x == s[0] || x in s[1..];
      if s[0] <= rest then s[0] else rest
  }

  function Max(s: seq<real>): (m: real)
    requires |s| > 0
    ensures m in s && forall x :: x in s ==> x <= m
  {
    if |s| == 1 then s[0]
    else
      var rest := Max(s[1..]);
      assert forall x :: x in s ==> x == s[0] || x in s[1..];
      if s[0] >= rest then s[0] else rest
  }

  /** The straight line through (x0, y0) and (x1, y1), evaluated at x. */
  function Lerp(x0: real, y0: real, x1: real, y1: real, x: real): real
    requires x0 < x1
  {
    y0 + (y1 - y0) * (x - x0) / (x1 - x0)
  }

  /**
   * Piecewise-linear interpolation over the sample points, as numpy's
   * `interp` computes it for ascending `xs`: the first value at or below
   * `xs[0]`, the last value beyond the last point, otherwise the line
   * between the two samples that bracket `x`.
   */
  function Interp(x: real, xs: seq<real>, ys: seq<real>): real
    requires |xs| == |ys| >= 1
    decreases |xs|
  {
    if |xs| == 1 || x <= xs[0] then ys[0]
    else if x <= xs[1] then Lerp(xs[0], ys[0], xs[1], ys[1], x)
    else Interp(x, xs[1..], ys[1..])
  }

  /**
   * `Parameter.get_value`: a single sample answers every frequency; otherwise
   * the query is clamped to [min(freqs), max(freqs)] and interpolated. An
   * empty curve fails in `min`.
   */
  function CurveValue(c: Curve, freq: real): Result<real>
    requires Parallel(c)
  {
    if |c.freqs| == 1 then Ok(c.values[0])
    else if |c.freqs| == 0 then Err(EmptyCurve)
    else
      var lo := Min(c.freqs);
      var hi := Max(c.freqs);
      var q := if freq < lo then lo else if freq > hi then hi else freq;
      Ok(Interp(q, c.freqs, c.values))
  }

  /** The first position of `x` in `s` (`list.index`). */
  function IndexOf(s: seq<real>, x: real): (i: nat)
    requires x in s
    ensures i < |s| && s[i] == x && x !in s[..i]
  {
    if s[0] == x then 0 else 1 + IndexOf(s[1..], x)
  }

  /** How many entries of `s` are strictly below `x`. */
  function CountLess(s: seq<real>, x: real): nat
  {
    if s == [] then 0
    else CountLess(s[..|s| - 1], x) + (if s[|s| - 1] < x then 1 else 0)
  }

  /**
   * `Parameter.update_value`: overwrite the value of an existing frequency,
   * or insert the new pair at index |{f in freqs | f < freq}|.
   */
  function Upsert(c: Curve, freq: real, value: real): Curve
    requires Parallel(c)
  {
    if freq in c.freqs then
      c.(values := c.values[IndexOf(c.freqs, freq) := value])
    else
      var i := CountLess(c.freqs, freq);
      CountLessBound(c.freqs, freq);
      Curve(c.freqs[..i] + [freq] + c.freqs[i..], c.values[..i] + [value] + c.values[i..], c.tolerance)
  }

  lemma {:induction false} CountLessBound(s: seq<real>, x: real)
    ensures CountLess(s, x) <= |s|
  {
    if s != [] {
      CountLessBound(s[..|s| - 1], x);
    }
  }

  // ---------------------------------------------------------------------
  // Reading a curve back

  /** A one-sample parameter returns its only value for every frequency. */
  lemma SingleSampleConstant(c: Curve, freq: real)
    requires Parallel(c) && |c.freqs| == 1
    ensures CurveValue(c, freq) == Ok(c.values[0])
  {
  }

  lemma SortedMinMax(s: seq<real>)
    requires |s| > 0 && StrictlySorted(s)
    ensures Min(s) == s[0] && Max(s) == s[|s| - 1]
  {
    assert forall k :: 0 <= k < |s| ==> s[0] <= s[k] && s[k] <= s[|s| - 1];
  }

  lemma {:induction false} InterpAtOrBelowFirst(x: real, xs: seq<real>, ys: seq<real>)
    requires |xs| == |ys| >= 1 && x <= xs[0]
    ensures Interp(x, xs, ys) == ys[0]
  {
  }

  lemma {:induction false} InterpAtSample(xs: seq<real>, ys: seq<real>, i: nat)
    requires |xs| == |ys| && i < |xs| && StrictlySorted(xs)
    ensures Interp(xs[i], xs, ys) == ys[i]
    decreases i
  {
    if i > 0 {
      assert xs[0] < xs[i];
      if i == 1 {
        assert Interp(xs[1], xs, ys) == Lerp(xs[0], ys[0], xs[1], ys[1], xs[1]);
      } else {
        assert xs[1] < xs[i];
        InterpAtSample(xs[1..], ys[1..], i - 1);
      }
    }
  }

  lemma {:induction false} InterpBetween(xs: seq<real>, ys: seq<real>, i: nat, x: real)
    requires |xs| == |ys| && i + 1 < |xs| && StrictlySorted(xs)
    requires xs[i] < x < xs[i + 1]
    ensures Interp(x, xs, ys) == Lerp(xs[i], ys[i], xs[i + 1], ys[i + 1], x)
    decreases i
  {
    if i > 0 {
      assert xs[0] < xs[i] && xs[1] <= xs[i];
      InterpBetween(xs[1..], ys[1..], i - 1, x);
    }
  }

  /** With two or more ascending samples, a query at or below the first returns the first value. */
  lemma QueryBelowMinimum(c: Curve, freq: real)
    requires Parallel(c) && |c.freqs| >= 2 && StrictlySorted(c.freqs)
    requires freq <= c.freqs[0]
    ensures CurveValue(c, freq) == Ok(c.values[0])
  {
    SortedMinMax(c.freqs);
    InterpAtOrBelowFirst(c.freqs[0], c.freqs, c.values);
  }

  /** ... and a query at or above the last frequency returns the last value. */
  lemma QueryAboveMaximum(c: Curve, freq: real)
    requires Parallel(c) && |c.freqs| >= 2 && StrictlySorted(c.freqs)
    requires freq >= c.freqs[|c.freqs| - 1]
    ensures CurveValue(c, freq) == Ok(c.values[|c.values| - 1])
  {
    SortedMinMax(c.freqs);
    InterpAtSample(c.freqs, c.values, |c.freqs| - 1);
  }

  /** A query exactly at a sample frequency returns that sample's value. */
  lemma QueryAtSample(c: Curve, i: nat)
    requires Parallel(c) && i < |c.freqs| && StrictlySorted(c.freqs)
    ensures CurveValue(c, c.freqs[i]) == Ok(c.values[i])
  {
    if |c.freqs| >= 2 {
      SortedMinMax(c.freqs);
      assert c.freqs[0] <= c.freqs[i] <= c.freqs[|c.freqs| - 1] by {
        if 0 < i { assert c.freqs[0] < c.freqs[i]; }
        if i < |c.freqs| - 1 { assert c.freqs[i] < c.freqs[|c.freqs| - 1]; }
      }
      InterpAtSample(c.freqs, c.values, i);
    }
  }

  /** Strictly between two neighbouring samples the result is their linear interpolant. */
  lemma QueryBetweenSamples(c: Curve, i: nat, freq: real)
    requires Parallel(c) && i + 1 < |c.freqs| && StrictlySorted(c.freqs)
    requires c.freqs[i] < freq < c.freqs[i + 1]
    ensures CurveValue(c, freq) ==
            Ok(Lerp(c.freqs[i], c.values[i], c.freqs[i + 1], c.values[i + 1], freq))
  {
    SortedMinMax(c.freqs);
    assert c.freqs[0] <= c.freqs[i] && c.freqs[i + 1] <= c.freqs[|c.freqs| - 1] by {
      if 0 < i { assert c.freqs[0] < c.freqs[i]; }
      if i + 1 < |c.freqs| - 1 { assert c.freqs[i + 1] < c.freqs[|c.freqs| - 1]; }
    }
    InterpBetween(c.freqs, c.values, i, freq);
  }

  // ---------------------------------------------------------------------
  // Writing a curve

  /** Overwriting an existing frequency changes only that index; both lengths stay. */
  lemma UpsertExisting(c: Curve, freq: real, value: real)
    requires Parallel(c) && freq in c.freqs
    ensures var r := Upsert(c, freq, value);
            var k := IndexOf(c.freqs, freq);
            && r.freqs == c.freqs && |r.values| == |c.values| && r.tolerance == c.tolerance
            && r.values[k] == value
            && forall j :: 0 <= j < |c.values| && j != k ==> r.values[j] == c.values[j]
  {
  }

  lemma {:induction false} CountLessSorted(s: seq<real>, x: real, k: nat)
    requires StrictlySorted(s) && x !in s && k <= |s|
    requires forall j :: 0 <= j < k ==> s[j] < x
    requires forall j :: k <= j < |s| ==> x < s[j]
    ensures CountLess(s, x) == k
    decreases |s|
  {
    if s != [] {
      var init := s[..|s| - 1];
      if k == |s| {
        CountLessSorted(init, x, k - 1);
      } else {
        CountLessSorted(init, x, k);
      }
    }
  }

  /** For a sorted list, the insertion point splits it into "below" and "above". */
  lemma {:induction false} CountLessSplits(s: seq<real>, x: real)
    requires StrictlySorted(s) && x !in s
    ensures CountLess(s, x) <= |s|
    ensures forall j :: 0 <= j < CountLess(s, x) ==> s[j] < x
    ensures forall j :: CountLess(s, x) <= j < |s| ==> x < s[j]
  {
    var k := 0;
    while k < |s| && s[k] < x
      invariant 0 <= k <= |s|
      invariant forall j :: 0 <= j < k ==> s[j] < x
    {
      k := k + 1;
    }
    forall j | k <= j < |s|
      ensures x < s[j]
    {
      assert s[k] != x && !(s[k] < x);
      if j > k { assert s[k] < s[j]; }
    }
    CountLessSorted(s, x, k);
  }

  /** A new frequency grows both lists by one, at index |{f < freq}|, keeping everything else in order. */
  lemma UpsertNew(c: Curve, freq: real, value: real)
    requires Parallel(c) && freq !in c.freqs
    ensures var r := Upsert(c, freq, value);
            var i := CountLess(c.freqs, freq);
            && i <= |c.freqs|
            && |r.freqs| == |c.freqs| + 1 && |r.values| == |c.values| + 1
            && r.freqs[i] == freq && r.values[i] == value && r.tolerance == c.tolerance
            && r.freqs[..i] == c.freqs[..i] && r.freqs[i + 1..] == c.freqs[i..]
            && r.values[..i] == c.values[..i] && r.values[i + 1..] == c.values[i..]
  {
    CountLessBound(c.freqs, freq);
    var r := Upsert(c, freq, value);
    var i := CountLess(c.freqs, freq);
    assert r.freqs[i + 1..] == c.freqs[i..];
    assert r.values[i + 1..] == c.values[i..];
  }

  /** Upserting keeps the curve parallel, and ascending-without-repeats if it was so. */
  lemma UpsertKeepsShape(c: Curve, freq: real, value: real)
    requires Parallel(c)
    ensures Parallel(Upsert(c, freq, value))
    ensures StrictlySorted(c.freqs) ==> StrictlySorted(Upsert(c, freq, value).freqs)
  {
    CountLessBound(c.freqs, freq);
    if freq !in c.freqs && StrictlySorted(c.freqs) {
      CountLessSplits(c.freqs, freq);
      var i := CountLess(c.freqs, freq);
      var r := Upsert(c, freq, value).freqs;
      assert forall j :: 0 <= j < |r| ==>
        r[j] == (if j < i then c.freqs[j] else if j == i then freq else c.freqs[j - 1]);
    }
  }

  /** After an upsert at `freq`, reading the curve at `freq` gives the value just written. */
  lemma UpsertReadBack(c: Curve, freq: real, value: real)
    requires Parallel(c) && StrictlySorted(c.freqs)
    ensures Parallel(Upsert(c, freq, value))
    ensures CurveValue(Upsert(c, freq, value), freq) == Ok(value)
  {
    UpsertKeepsShape(c, freq, value);
    var r := Upsert(c, freq, value);
    if freq in c.freqs {
      QueryAtSample(r, IndexOf(c.freqs, freq));
    } else {
      UpsertNew(c, freq, value);
      QueryAtSample(r, CountLess(c.freqs, freq));
    }
  }

  /** Two upserts at one frequency leave one entry holding the last value written. */
  lemma UpsertTwice(c: Curve, freq: real, v1: real, v2: real)
    requires Parallel(c)
    ensures Parallel(Upsert(c, freq, v1))
    ensures Upsert(Upsert(c, freq, v1), freq, v2) == Upsert(c, freq, v2)
  {
    UpsertKeepsShape(c, freq, v1);
    if freq !in c.freqs {
      UpsertNew(c, freq, v1);
      var r := Upsert(c, freq, v1);
      var i := CountLess(c.freqs, freq);
      assert freq !in r.freqs[..i];
      assert IndexOf(r.freqs, freq) == i;
    }
  }

  /** The insertion order 20, 10, 15 ends as 10, 15, 20. */
  lemma SortedInsertionExample()
    ensures Upsert(Upsert(Curve([20.0], [2.0], None), 10.0, 1.0), 15.0, 1.5)
            == Curve([10.0, 15.0, 20.0], [1.0, 1.5, 2.0], None)
  {
    var c1 := Upsert(Curve([20.0], [2.0], None), 10.0, 1.0);
    assert CountLess([20.0], 10.0) == 0 by {
      assert [20.0][..0] == [];
    }
    assert c1 == Curve([10.0, 20.0], [1.0, 2.0], None);
    assert CountLess([10.0, 20.0], 15.0) == 1 by {
      assert [10.0, 20.0][..1] == [10.0];
      assert [10.0][..0] == [];
    }
  }
}
