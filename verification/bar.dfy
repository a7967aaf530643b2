/** The bar geometry of `drawBar`: one band per bucket across the drawing
    area, a bar 60% of its band wide centred in it, and heights scaled
    against the largest total with a floor of 10 currency units. */
module BarLayout {
  import opened MonthlyTrend
  import opened PieLayout

  /** The drawing's width and height and the padding around the plot. */
  datatype Frame = Frame(width: real, height: real, pad: real)

  /** `w = 300, h = 120, pad = 20`. */
  const ChartFrame: Frame := Frame(300.0, 120.0, 20.0)

  /** The `10` in `Math.max(...totals, 10)`, in cents. */
  const ScaleFloor: int := 1000

  /** One bar rectangle, after its height animation has finished, and the
      x position of its month label. */
  datatype Bar = Bar(x: real, y: real, width: real, height: real, labelX: real)

  /** `Math.max(...totals, floor)`. */
  function MaxWithFloor(totals: seq<int>, floor: int): (m: int)
    ensures m >= floor
    ensures forall i :: 0 <= i < |totals| ==> totals[i] <= m
    ensures m == floor || exists i :: 0 <= i < |totals| && totals[i] == m
    decreases |totals|
  {
    if |totals| == 0 then floor
    else
      var m := MaxWithFloor(totals[..|totals| - 1], floor);
      var last := totals[|totals| - 1];
      if last > m then last else m
  }

  /** The width of one band: the plot width `w - pad * 2` shared among `n`
      bars. */
  function Band(f: Frame, n: nat): real
    requires n > 0
  {
    (f.width - f.pad * 2.0) / n as real
  }

  /** `x = pad + idx * (bw + gap) + gap / 2` with `bw = band * 0.6` and
      `gap = band - bw`. */
  function BarX(f: Frame, n: nat, idx: nat): real
    requires n > 0
  {
    var bw := Band(f, n) * 0.6;
    var gap := Band(f, n) - bw;
    f.pad + idx as real * (bw + gap) + gap / 2.0
  }

  /** `ph = (m.total / max) * (h - pad * 2)`. */
  function BarHeight(total: int, max: int, f: Frame): real
    requires max > 0
  {
    (total as real / max as real) * (f.height - f.pad * 2.0)
  }

  /** The body of the `months.forEach` for bar `idx`. */
  function BarAt(totals: seq<int>, f: Frame, idx: nat): Bar
    requires idx < |totals|
  {
    var bw := Band(f, |totals|) * 0.6;
    var x := BarX(f, |totals|, idx);
    var ph := BarHeight(totals[idx], MaxWithFloor(totals, ScaleFloor), f);
    Bar(x, f.height - f.pad - ph, bw, ph, x + bw / 2.0)
  }

  /** The bars for a list of totals, in order. */
  function Bars(totals: seq<int>, f: Frame): seq<Bar> {
    seq(|totals|, i requires 0 <= i < |totals| => BarAt(totals, f, i))
  }

  function BucketTotals(bs: seq<Bucket>): seq<int> {
    seq(|bs|, i requires 0 <= i < |bs| => bs[i].total)
  }

  /** Each bar is 0.6 of its band wide and centred in it (its label too),
      and hangs from `y = h - pad - height`. */
  lemma BarGeometry(totals: seq<int>, f: Frame, i: nat)
    requires i < |totals|
    ensures var b := BarAt(totals, f, i);
      && b.width == 0.6 * Band(f, |totals|)
      && b.x + b.width / 2.0 == f.pad + (i as real + 0.5) * Band(f, |totals|)
      && b.labelX == b.x + b.width / 2.0
      && b.y == f.height - f.pad - b.height
  {
  }

  /** When the padding fits in the width, every bar, a lone one included,
      lies between the left and the right padding. */
  lemma BarInsidePlot(totals: seq<int>, f: Frame, i: nat)
    requires i < |totals|
    requires f.width >= 2.0 * f.pad
    ensures f.pad <= BarAt(totals, f, i).x
    ensures BarAt(totals, f, i).x + BarAt(totals, f, i).width <= f.width - f.pad
  {
    var n := |totals|;
    var band := Band(f, n);
    assert BarAt(totals, f, i).x == BarX(f, n, i) && BarAt(totals, f, i).width == band * 0.6;
    assert BarX(f, n, i) == f.pad + i as real * band + 0.2 * band;
    assert band * n as real == f.width - f.pad * 2.0;
    assert band >= 0.0;
    MulNonNegative(i as real, band);
    var k := n as real - i as real - 0.8;
    MulNonNegative(k, band);
    var q := k * band;
    assert q == n as real * band - i as real * band - 0.8 * band;
  }

  /** When the padding fits in the width, the bars lie inside the plot area
      and each ends before the next begins. */
  lemma BarsInsideAndApart(totals: seq<int>, f: Frame, i: nat, j: nat)
    requires i < j < |totals|
    requires f.width >= 2.0 * f.pad
    ensures f.pad <= BarAt(totals, f, i).x
    ensures BarAt(totals, f, j).x + BarAt(totals, f, j).width <= f.width - f.pad
    ensures BarAt(totals, f, i).x + BarAt(totals, f, i).width < BarAt(totals, f, j).x
      || f.width == 2.0 * f.pad
  {
    BandsFit(f, |totals|, i, j);
  }

  /** Band `i`'s bar starts a fifth of a band into it, and the last band
      ends where the right-hand padding begins. */
  lemma BandsFit(f: Frame, n: nat, i: nat, j: nat)
    requires i < j < n
    requires f.width >= 2.0 * f.pad
    ensures f.pad <= BarX(f, n, i)
    ensures BarX(f, n, j) + 0.6 * Band(f, n) <= f.width - f.pad
    ensures BarX(f, n, i) + 0.6 * Band(f, n) < BarX(f, n, j) || f.width == 2.0 * f.pad
  {
    var band := Band(f, n);
    assert BarX(f, n, i) == f.pad + i as real * band + 0.2 * band;
    assert BarX(f, n, j) == f.pad + j as real * band + 0.2 * band;
    assert band * n as real == f.width - f.pad * 2.0;
    assert band >= 0.0;
    MulNonNegative(i as real, band);
    MulNonNegative(n as real - j as real - 1.0, band);
    if band > 0.0 {
      var k := j as real - i as real - 0.6;
      MulPositive(k, band);
      var p := k * band;
      assert p > 0.0;
      assert p == j as real * band - i as real * band - 0.6 * band;
      assert j as real * band - i as real * band - 0.6 * band > 0.0;
      Spaced(BarX(f, n, i), BarX(f, n, j), f.pad, i as real * band, j as real * band, band);
    }
  }

  lemma Spaced(xi: real, xj: real, pad: real, ai: real, aj: real, band: real)
    requires xi == pad + ai + 0.2 * band && xj == pad + aj + 0.2 * band
    requires aj - ai - 0.6 * band > 0.0
    ensures xi + 0.6 * band < xj
  {
  }

  lemma MulNonNegative(a: real, b: real)
    requires a >= 0.0 && b >= 0.0
    ensures a * b >= 0.0
  {
  }

  lemma MulPositive(a: real, b: real)
    requires a > 0.0 && b > 0.0
    ensures a * b > 0.0
  {
  }

  lemma ScaledWithin(t: int, max: int, h: real)
    requires 0 <= t <= max && max > 0 && h >= 0.0
    ensures 0.0 <= (t as real / max as real) * h <= h
  {
    var r := t as real / max as real;
    assert 0.0 <= r <= 1.0;
    assert (1.0 - r) * h >= 0.0;
  }

  /** With no negative totals, every bar's height lies between zero and the
      plot height `h - 2 * pad`, so it stands inside the plot. */
  lemma BarHeightBounds(totals: seq<int>, f: Frame, i: nat)
    requires i < |totals|
    requires f.height >= 2.0 * f.pad
    requires forall k :: 0 <= k < |totals| ==> totals[k] >= 0
    ensures 0.0 <= BarAt(totals, f, i).height <= f.height - 2.0 * f.pad
    ensures f.pad <= BarAt(totals, f, i).y <= f.height - f.pad
  {
    var max := MaxWithFloor(totals, ScaleFloor);
    var ph := BarHeight(totals[i], max, f);
    assert BarAt(totals, f, i).height == ph && BarAt(totals, f, i).y == f.height - f.pad - ph;
    BarHeightWithin(totals[i], max, f);
  }

  lemma BarHeightWithin(t: int, max: int, f: Frame)
    requires 0 <= t <= max && max > 0
    requires f.height >= 2.0 * f.pad
    ensures 0.0 <= BarHeight(t, max, f) <= f.height - 2.0 * f.pad
  {
    ScaledWithin(t, max, f.height - f.pad * 2.0);
  }

  /** `x` is to `a` as `y` is to `b`. */
  predicate SameRatio(x: real, a: real, y: real, b: real) {
    x * b == y * a
  }

  /** Heights follow the totals: a bar's height is to its total as the plot
      height is to the scale `Math.max(...totals, 10)`, so any two heights
      stand in the ratio of their totals, and with a plot of non-negative
      height a larger total never gets a shorter bar. */
  lemma BarHeightsProportional(totals: seq<int>, f: Frame, i: nat, j: nat)
    requires i < |totals| && j < |totals|
    ensures SameRatio(BarAt(totals, f, i).height, totals[i] as real,
                      f.height - f.pad * 2.0, MaxWithFloor(totals, ScaleFloor) as real)
    ensures SameRatio(BarAt(totals, f, i).height, totals[i] as real, BarAt(totals, f, j).height, totals[j] as real)
    ensures f.height >= 2.0 * f.pad && totals[i] <= totals[j] ==>
      BarAt(totals, f, i).height <= BarAt(totals, f, j).height
  {
    var max := MaxWithFloor(totals, ScaleFloor);
    assert BarAt(totals, f, i).height == BarHeight(totals[i], max, f);
    assert BarAt(totals, f, j).height == BarHeight(totals[j], max, f);
    HeightRatios(totals[i], totals[j], max, f);
  }

  lemma HeightRatios(a: int, b: int, max: int, f: Frame)
    requires max > 0
    ensures SameRatio(BarHeight(a, max, f), a as real, f.height - f.pad * 2.0, max as real)
    ensures SameRatio(BarHeight(a, max, f), a as real, BarHeight(b, max, f), b as real)
    ensures f.height >= 2.0 * f.pad && a <= b ==> BarHeight(a, max, f) <= BarHeight(b, max, f)
  {
    ScaledPair(BarHeight(a, max, f), BarHeight(b, max, f), a as real, b as real, max as real, f.height - f.pad * 2.0);
  }

  /** Two values scaled by the same `h / m` keep the ratio and the order of
      what they scale. */
  lemma ScaledPair(hi: real, hj: real, a: real, b: real, m: real, h: real)
    requires m > 0.0 && hi == (a / m) * h && hj == (b / m) * h
    ensures SameRatio(hi, a, h, m)
    ensures SameRatio(hi, a, hj, b)
    ensures h >= 0.0 && a <= b ==> hi <= hj
  {
    assert (a / m) * h * m == a * h;
    assert (a / m) * h * b == (a * b / m) * h;
    assert (b / m) * h * a == (a * b / m) * h;
    if h >= 0.0 && a <= b {
      ScaledMonotone(a, b, m, h);
    }
  }

  lemma ScaledMonotone(a: real, b: real, m: real, h: real)
    requires a <= b && m > 0.0 && h >= 0.0
    ensures (a / m) * h <= (b / m) * h
  {
    assert a / m <= b / m;
    MulNonNegative(b / m - a / m, h);
    assert (b / m - a / m) * h == (b / m) * h - (a / m) * h;
  }

  /** A total above the floor that is the largest gets the full plot height. */
  lemma TallestBarFillsPlot(totals: seq<int>, f: Frame, i: nat)
    requires i < |totals|
    requires totals[i] >= ScaleFloor
    requires forall k :: 0 <= k < |totals| ==> totals[k] <= totals[i]
    ensures BarAt(totals, f, i).height == f.height - 2.0 * f.pad
  {
    var max := MaxWithFloor(totals, ScaleFloor);
    var h := f.height - f.pad * 2.0;
    assert max == totals[i];
    DivideBySelf(max);
    assert BarAt(totals, f, i).height == (totals[i] as real / max as real) * h;
  }
}
