/** Go's Time.Truncate and Time.Round, which count multiples of the duration from the zero time. */
module TimeGrid {

  /** `t.Truncate(d)` */
  function Truncate(t: int, d: int): int { if d <= 0 then t else t - t % d }

  /** `t.Round(d)`: halves go up. */
  function Round(t: int, d: int): int {
    if d <= 0 then t else
    var r := t % d;
    if r + r < d then t - r else t + (d - r)
  }

  predicate OnGrid(t: int, d: int)
    requires d > 0
  {
    t % d == 0
  }

  /** The first grid instant after t. */
  function FirstAfter(t: int, d: int): int { Truncate(t, d) + d }

  lemma DivModUnique(d: int, q: int, r: int)
    requires 0 <= r < d
    ensures (d * q + r) / d == q && (d * q + r) % d == r
  {
    var x := d * q + r;
    var q', r' := x / d, x % d;
    assert d * (q - q') == r' - r by {
      assert d * q' + r' == d * q + r;
    }
    assert d * (q - q') == -(d * (q' - q));
    if q > q' {
      MulMonotone(d, 1, q - q');
    } else if q < q' {
      MulMonotone(d, 1, q' - q);
    }
  }

  lemma MulMonotone(d: int, a: int, b: int)
    requires 0 <= d && a <= b
    ensures d * a <= d * b
  {
    assert d * (b - a) >= 0;
  }

  lemma Multiple(d: int, q: int)
    requires d > 0
    ensures OnGrid(d * q, d)
  {
    DivModUnique(d, q, 0);
  }

  /** Truncate finds the last grid instant up to t. */
  lemma TruncateOnGrid(t: int, d: int)
    requires d > 0
    ensures OnGrid(Truncate(t, d), d) && OnGrid(FirstAfter(t, d), d)
    ensures Truncate(t, d) <= t < FirstAfter(t, d)
  {
    Multiple(d, t / d);
    Multiple(d, t / d + 1);
    assert d * (t / d + 1) == d * (t / d) + d;
  }

  /** Round finds a grid instant at most half a step away. */
  lemma RoundOnGrid(t: int, d: int)
    requires d > 0
    ensures OnGrid(Round(t, d), d)
    ensures -d < 2 * (Round(t, d) - t) <= d
  {
    TruncateOnGrid(t, d);
  }

  /** Different grid instants are a step apart. */
  lemma GridGap(a: int, b: int, d: int)
    requires d > 0 && OnGrid(a, d) && OnGrid(b, d) && a < b
    ensures a + d <= b
  {
    if b / d <= a / d {
      MulMonotone(d, b / d, a / d);
    } else {
      MulMonotone(d, a / d + 1, b / d);
      assert d * (a / d + 1) == d * (a / d) + d;
    }
  }

  /** It is the one grid instant that is as near, or as near and later. */
  lemma RoundIff(t: int, d: int, g: int)
    requires d > 0
    ensures Round(t, d) == g <==> OnGrid(g, d) && -d <= 2 * (t - g) < d
  {
    RoundOnGrid(t, d);
    if OnGrid(g, d) && g < Round(t, d) {
      GridGap(g, Round(t, d), d);
    } else if OnGrid(g, d) && Round(t, d) < g {
      GridGap(Round(t, d), g, d);
    }
  }

  /** A grid instant before the first one after t is not after t. */
  lemma GridBefore(g: int, t: int, d: int)
    requires d > 0 && OnGrid(g, d)
    ensures g < FirstAfter(t, d) <==> g <= t
  {
    TruncateOnGrid(t, d);
    if g < FirstAfter(t, d) && t < g {
      GridGap(Truncate(t, d), g, d);
    }
  }

  /** The grid of a multiple is part of the grid. */
  lemma CoarserGrid(t: int, d: int, e: int)
    requires d > 0 && e > 0 && OnGrid(d, e) && OnGrid(t, d)
    ensures OnGrid(t, e)
  {
    Multiple(e, (d / e) * (t / d));
    assert t == d * (t / d) == (e * (d / e)) * (t / d) == e * ((d / e) * (t / d));
  }
}
