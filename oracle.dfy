/** The seeded generator `random.Random(seed)` as an explicit stream of
    draws. `draw` is the stream the seed determines and `pos` counts the
    draws taken so far; every primitive returns the new position, so the
    generator is threaded left to right through the expansion. How many
    draws each primitive takes is this model's own choice. */
module Oracle {
  import opened Wrappers
  import opened Numbers

  type Stream = nat -> nat

  /** `rng.randint(lo, hi)`; `None` stands for the `ValueError` Python
      raises on an empty range. */
  function RandInt(draw: Stream, pos: nat, lo: int, hi: int): (r: Option<(int, nat)>)
    ensures r.None? <==> lo > hi
    ensures r.Some? ==> lo <= r.value.0 <= hi && r.value.1 == pos + 1
  {
    if lo > hi then None else Some((lo + draw(pos) % (hi - lo + 1), pos + 1))
  }

  /** `rng.choice(seq)` on a sequence of length `n`: the chosen index. */
  function Choice(draw: Stream, pos: nat, n: nat): (r: (nat, nat))
    requires n > 0
    ensures r.0 < n && r.1 == pos + 1
  {
    (draw(pos) % n, pos + 1)
  }

  predicate Distinct(s: seq<nat>)
  {
    forall i, j :: 0 <= i < j < |s| ==> s[i] != s[j]
  }

  function Range(n: nat): (r: seq<nat>)
    ensures |r| == n && forall i :: 0 <= i < n ==> r[i] == i
  {
    if n == 0 then [] else Range(n - 1) + [n - 1]
  }

  /** `k` draws without replacement from `pool`. */
  function SampleFrom(draw: Stream, pos: nat, pool: seq<nat>, k: nat): (r: (seq<nat>, nat))
    requires k <= |pool|
    requires Distinct(pool)
    ensures |r.0| == k && Distinct(r.0) && r.1 == pos + k
    ensures forall i :: 0 <= i < k ==> r.0[i] in pool
    decreases k
  {
    if k == 0 then ([], pos)
    else
      var j := draw(pos) % |pool|;
      var rest := pool[..j] + pool[j + 1..];
      assert forall x :: x in rest ==> x in pool && x != pool[j];
      var (tail, p) := SampleFrom(draw, pos + 1, rest, k - 1);
      ([pool[j]] + tail, p)
  }

  /** `rng.sample(population, k)` on a population of `n` elements: `k`
      distinct indices, or `None` for the `ValueError` Python raises when
      `k` is negative or larger than `n`. */
  function Sample(draw: Stream, pos: nat, n: nat, k: int): (r: Option<(seq<nat>, nat)>)
    ensures r.None? <==> k < 0 || k > n
    ensures r.Some? ==>
      |r.value.0| == k && Distinct(r.value.0) && r.value.1 == pos + k &&
      forall i :: 0 <= i < k ==> r.value.0[i] < n
  {
    if k < 0 || k > n then None else Some(SampleFrom(draw, pos, Range(n), k))
  }

  /** `rng.random()`: a float in [0, 1) with 53 random bits. */
  function Unit(draw: Stream, pos: nat): (u: real)
    ensures 0.0 <= u < 1.0
  {
    (draw(pos) % Pow2of53()) as real / Pow2of53() as real
  }

  function Pow2of53(): nat
  {
    9007199254740992
  }

  /** The running totals of finite weights, `itertools.accumulate`. */
  function Cumulative(ws: seq<real>): (r: seq<real>)
    ensures |r| == |ws|
  {
    if ws == [] then []
    else
      var c := Cumulative(ws[..|ws| - 1]);
      c + [(if c == [] then 0.0 else c[|c| - 1]) + ws[|ws| - 1]]
  }

  /** Each running total adds one weight to the one before. */
  lemma {:induction false} CumulativeAt(f: seq<real>, i: nat)
    requires i < |f|
    ensures Cumulative(f)[i] == (if i == 0 then f[0] else Cumulative(f)[i - 1] + f[i])
  {
    var n := |f|;
    var c := Cumulative(f[..n - 1]);
    assert Cumulative(f) == c + [(if c == [] then 0.0 else c[|c| - 1]) + f[n - 1]];
    if i < n - 1 {
      CumulativeAt(f[..n - 1], i);
    }
  }

  /** `bisect.bisect(a, x, lo, hi)`: the binary search of the standard
      library, run as written whether or not `a` is sorted. */
  function Bisect(a: seq<real>, x: real, lo: nat, hi: nat): (r: nat)
    requires lo <= hi <= |a|
    ensures lo <= r <= hi
    decreases hi - lo
  {
    if lo < hi then
      var mid := (lo + hi) / 2;
      if x < a[mid] then Bisect(a, x, lo, mid) else Bisect(a, x, mid + 1, hi)
    else lo
  }

  /** The weights as reals when all are finite. */
  function Finites(ws: seq<Weight>): (r: seq<real>)
    requires forall i :: 0 <= i < |ws| ==> ws[i].Finite?
    ensures |r| == |ws| && forall i :: 0 <= i < |ws| ==> r[i] == ws[i].v
  {
    if ws == [] then [] else [ws[0].v] + Finites(ws[1..])
  }

  /** A finite sum has finite summands. */
  lemma {:induction false} AddFinite(a: Weight, b: Weight)
    requires Add(a, b).Finite?
    ensures a.Finite? && b.Finite? && Add(a, b).v == a.v + b.v
  {
  }

  /** A total that is finite comes from finite weights only. */
  lemma {:induction false} FiniteTotalFiniteWeights(ws: seq<Weight>)
    requires Total(ws).Finite?
    ensures forall i :: 0 <= i < |ws| ==> ws[i].Finite?
  {
    if ws != [] {
      var init := ws[..|ws| - 1];
      AddFinite(Total(init), ws[|ws| - 1]);
      FiniteTotalFiniteWeights(init);
      assert forall i :: 0 <= i < |ws| - 1 ==> ws[i] == init[i];
    }
  }

  /** The finite total is the last running total. */
  lemma {:induction false} TotalIsLastCumulative(ws: seq<Weight>)
    requires ws != [] && Total(ws).Finite?
    ensures forall i :: 0 <= i < |ws| ==> ws[i].Finite?
    ensures Cumulative(Finites(ws))[|ws| - 1] == Total(ws).v
  {
    FiniteTotalFiniteWeights(ws);
    var n := |ws|;
    var init := ws[..n - 1];
    AddFinite(Total(init), ws[n - 1]);
    var f := Finites(ws);
    CumulativeAt(f, n - 1);
    if n == 1 {
      assert Total(init) == Finite(0.0);
    } else {
      TotalIsLastCumulative(init);
      assert f[..n - 1] == Finites(init);
      CumulativePrefix(f, n - 2);
    }
  }

  /** A running total depends only on the weights up to it. */
  lemma {:induction false} CumulativePrefix(f: seq<real>, i: nat)
    requires i + 1 < |f|
    ensures Cumulative(f)[i] == Cumulative(f[..|f| - 1])[i]
  {
    var n := |f|;
    var c := Cumulative(f[..n - 1]);
    assert Cumulative(f) == c + [(if c == [] then 0.0 else c[|c| - 1]) + f[n - 1]];
  }

  lemma {:induction false} ScaledBelow(u: real, t: real, x: real)
    requires 0.0 <= u < 1.0 && t > 0.0 && x == u * t
    ensures 0.0 <= x < t
  {
  }

  /** `rng.choices(population, weights=ws, k=1)[0]` on a population of
      `|ws|` elements: the chosen index, or `None` for the `ValueError`
      Python raises when the total weight is not finite and positive. */
  function WeightedChoice(draw: Stream, pos: nat, ws: seq<Weight>): (r: Option<(nat, nat)>)
    requires |ws| > 0
    ensures r.None? <==> !WeightsUsable(ws)
    ensures r.Some? ==> r.value.0 < |ws| && r.value.1 == pos + 1
  {
    if !WeightsUsable(ws) then None
    else
      TotalIsLastCumulative(ws);
      Some((PickByWeight(draw, pos, Finites(ws)), pos + 1))
  }

  /** The index `choices` picks: a uniform point below the total, searched
      for among the running totals. */
  function PickByWeight(draw: Stream, pos: nat, f: seq<real>): (j: nat)
    requires |f| > 0
    ensures j < |f|
    ensures (forall i :: 0 <= i < |f| ==> f[i] >= 0.0) && Cumulative(f)[|f| - 1] > 0.0 ==> f[j] > 0.0
  {
    var cum := Cumulative(f);
    var x := Unit(draw, pos) * cum[|f| - 1];
    PositivePick(f, Unit(draw, pos), x);
    Bisect(cum, x, 0, |f| - 1)
  }

  lemma {:induction false} PositivePick(f: seq<real>, u: real, x: real)
    requires |f| > 0 && 0.0 <= u < 1.0 && x == u * Cumulative(f)[|f| - 1]
    ensures (forall i :: 0 <= i < |f| ==> f[i] >= 0.0) && Cumulative(f)[|f| - 1] > 0.0 ==>
      f[Bisect(Cumulative(f), x, 0, |f| - 1)] > 0.0
  {
    if (forall i :: 0 <= i < |f| ==> f[i] >= 0.0) && Cumulative(f)[|f| - 1] > 0.0 {
      var t := Cumulative(f)[|f| - 1];
      ScaledBelow(u, t, x);
      BisectPicksPositive(f, x);
    }
  }

  /** Binary search lands between neighbours that enclose `x`: every
      probe keeps `a[lo - 1] <= x < a[hi]`, so this holds of the final
      position whatever the order of `a`; on a sorted `a` it is the
      insertion point of `x`. */
  lemma {:induction false} BisectSorted(a: seq<real>, x: real, lo: nat, hi: nat)
    requires lo <= hi <= |a|
    requires lo == 0 || a[lo - 1] <= x
    requires hi == |a| || x < a[hi]
    ensures var r := Bisect(a, x, lo, hi);
      (r == 0 || a[r - 1] <= x) && (r == |a| || x < a[r])
  {
    BisectAbove(a, x, lo, hi);
    BisectBelow(a, x, lo, hi);
  }

  /** The element just before the position found is at most `x`. */
  lemma {:induction false} BisectAbove(a: seq<real>, x: real, lo: nat, hi: nat)
    requires lo <= hi <= |a|
    requires lo == 0 || a[lo - 1] <= x
    ensures var r := Bisect(a, x, lo, hi);
      r == 0 || a[r - 1] <= x
    decreases hi - lo
  {
    if lo < hi {
      var mid := (lo + hi) / 2;
      if x < a[mid] {
        BisectAbove(a, x, lo, mid);
      } else {
        BisectAbove(a, x, mid + 1, hi);
      }
    }
  }

  /** The element at the position found is above `x`. */
  lemma {:induction false} BisectBelow(a: seq<real>, x: real, lo: nat, hi: nat)
    requires lo <= hi <= |a|
    requires hi == |a| || x < a[hi]
    ensures var r := Bisect(a, x, lo, hi);
      r == |a| || x < a[r]
    decreases hi - lo
  {
    if lo < hi {
      var mid := (lo + hi) / 2;
      if x < a[mid] {
        BisectBelow(a, x, lo, mid);
      } else {
        BisectBelow(a, x, mid + 1, hi);
      }
    }
  }

  /** With non-negative weights, an option of weight zero is never chosen. */
  lemma {:induction false} ZeroWeightNeverChosen(draw: Stream, pos: nat, ws: seq<Weight>)
    requires |ws| > 0
    requires forall i :: 0 <= i < |ws| ==> ws[i].Finite? && ws[i].v >= 0.0
    ensures var r := WeightedChoice(draw, pos, ws);
      r.Some? ==> ws[r.value.0].v > 0.0
  {
    if WeightsUsable(ws) {
      TotalIsLastCumulative(ws);
    }
  }

  /** Searching the running totals of non-negative weights for a point
      below their total lands on a positive weight. */
  lemma {:induction false} BisectPicksPositive(f: seq<real>, x: real)
    requires |f| > 0 && forall i :: 0 <= i < |f| ==> f[i] >= 0.0
    requires 0.0 <= x < Cumulative(f)[|f| - 1]
    ensures f[Bisect(Cumulative(f), x, 0, |f| - 1)] > 0.0
  {
    var cum := Cumulative(f);
    CumulativeSorted(f);
    BisectSorted(cum, x, 0, |f| - 1);
    var j := Bisect(cum, x, 0, |f| - 1);
    CumulativeAt(f, j);
  }

  lemma {:induction false} CumulativeSorted(f: seq<real>)
    requires forall i :: 0 <= i < |f| ==> f[i] >= 0.0
    ensures var c := Cumulative(f);
      (forall i, j :: 0 <= i <= j < |c| ==> c[i] <= c[j]) && (|c| > 0 ==> c[0] >= 0.0)
  {
    var c := Cumulative(f);
    forall i, j | 0 <= i <= j < |c| ensures c[i] <= c[j] {
      CumulativeStep(c, f, i, j);
    }
    if |c| > 0 {
      CumulativeAt(f, 0);
    }
  }

  lemma {:induction false} CumulativeStep(c: seq<real>, f: seq<real>, i: nat, j: nat)
    requires c == Cumulative(f)
    requires forall k :: 0 <= k < |f| ==> f[k] >= 0.0
    requires i <= j < |c|
    ensures c[i] <= c[j]
    decreases j - i
  {
    if i < j {
      CumulativeStep(c, f, i, j - 1);
      CumulativeAt(f, j);
    }
  }
}
