/** The wedge arithmetic of `drawPie`. Angles are fractions of a full turn
    (the source's radians divided by 2π), so the start `-π/2` is `-1/4` and
    "more than π" is "more than 1/2". The sine and cosine of the arc end
    points are left to the renderer. */
module PieLayout {
  import opened CategoryBreakdown

  /** The 12 o'clock start of the first wedge. */
  const StartTurn: real := -0.25

  /** One wedge: its slice, where it starts and ends, where its label sits,
      whether the arc is drawn the long way round, and the rounded value
      its label shows. */
  datatype Wedge = Wedge(
    category: string,
    value: int,
    start: real,
    end: real,
    labelTurn: real,
    largeArc: bool,
    labelValue: int)

  /** Wedges for every slice, or the "No data" placeholder circle. */
  datatype Pie = NoData | Wedges(wedges: seq<Wedge>)

  /** One currency unit, in cents. */
  const UnitCents: int := 100

  /** `agg.reduce((s, a) => s + a.value, 0) || 1` in cents: a zero sum of
      slice values becomes one currency unit, 100 cents. */
  function Divisor(sl: seq<Slice>): (d: int)
  {
    var t := SliceSum(sl);
    if t == 0 then UnitCents else t
  }

  /** `Math.round(value)` of an amount in cents: the whole currency units
      nearest to it, halves rounding up. */
  function RoundToUnits(cents: int): (u: int)
    ensures 100 * u - 50 <= cents < 100 * u + 50
  {
    (cents + 50) / 100
  }

  /** The `forEach` over the slices, each wedge starting where the previous
      one ended; `start` is the loop's `startAngle`. */
  function LayWedges(sl: seq<Slice>, d: int, start: real): seq<Wedge>
    requires d != 0
    decreases |sl|
  {
    if |sl| == 0 then []
    else
      var span := sl[0].value as real / d as real;
      var w := Wedge(sl[0].category, sl[0].value, start, start + span, start + span / 2.0,
                     span > 0.5, RoundToUnits(sl[0].value));
      [w] + LayWedges(sl[1..], d, start + span)
  }

  /** `drawPie` on the slices `aggregateByCategory` returned. */
  function Layout(sl: seq<Slice>): Pie {
    if |sl| == 0 then NoData else Wedges(LayWedges(sl, Divisor(sl), StartTurn))
  }

  lemma SliceSumCons(x: Slice, sl: seq<Slice>)
    ensures SliceSum([x] + sl) == x.value + SliceSum(sl)
    decreases |sl|
  {
    if |sl| == 0 {
      assert ([x] + sl)[..0] == [];
    } else {
      assert ([x] + sl)[..|sl|] == [x] + sl[..|sl| - 1];
      SliceSumCons(x, sl[..|sl| - 1]);
    }
  }

  lemma DivideSum(a: int, b: int, d: int)
    requires d != 0
    ensures a as real / d as real + b as real / d as real == (a + b) as real / d as real
  {
  }

  lemma DivideBySelf(d: int)
    requires d != 0
    ensures d as real / d as real == 1.0
  {
  }

  /** The wedges, one per slice in order: the first starts at `start` and
      each later one where the previous one ended; each spans its slice's
      share of the turn, and the last ends the slices' whole share after
      `start`; the label sits half way along its wedge, and the arc is large
      exactly when the wedge is more than half a turn. */
  lemma LayWedgesSpec(sl: seq<Slice>, d: int, start: real)
    requires d != 0
    ensures |LayWedges(sl, d, start)| == |sl|
    ensures |sl| > 0 ==> LayWedges(sl, d, start)[0].start == start
    ensures forall i :: 0 < i < |sl| ==>
      LayWedges(sl, d, start)[i].start == LayWedges(sl, d, start)[i - 1].end
    ensures |sl| > 0 ==>
      LayWedges(sl, d, start)[|sl| - 1].end == start + SliceSum(sl) as real / d as real
    ensures forall i :: 0 <= i < |sl| ==>
      var w := LayWedges(sl, d, start)[i];
      && w.category == sl[i].category
      && w.value == sl[i].value
      && w.end - w.start == sl[i].value as real / d as real
      && w.labelTurn == (w.start + w.end) / 2.0
      && (w.largeArc <==> w.end - w.start > 0.5)
      && w.labelValue == RoundToUnits(sl[i].value)
  {
    WedgeShapes(sl, d, start);
    WedgeChain(sl, d, start);
    if |sl| > 0 {
      LastWedgeEnd(sl, d, start);
    }
  }

  /** Each wedge carries its slice, spans its share, and has its label and
      arc flag from that span. */
  lemma {:induction false} WedgeShapes(sl: seq<Slice>, d: int, start: real)
    requires d != 0
    ensures |LayWedges(sl, d, start)| == |sl|
    ensures forall i :: 0 <= i < |sl| ==>
      var w := LayWedges(sl, d, start)[i];
      && w.category == sl[i].category
      && w.value == sl[i].value
      && w.end - w.start == sl[i].value as real / d as real
      && w.labelTurn == (w.start + w.end) / 2.0
      && (w.largeArc <==> w.end - w.start > 0.5)
      && w.labelValue == RoundToUnits(sl[i].value)
    decreases |sl|
  {
    if |sl| > 0 {
      var span := sl[0].value as real / d as real;
      var ws, rest := LayWedges(sl, d, start), LayWedges(sl[1..], d, start + span);
      WedgeShapes(sl[1..], d, start + span);
      assert ws == [ws[0]] + rest;
      forall i | 1 <= i < |sl|
        ensures ws[i] == rest[i - 1] && sl[i] == sl[1..][i - 1]
      {
      }
    }
  }

  /** The wedges chain from `start`. */
  lemma {:induction false} WedgeChain(sl: seq<Slice>, d: int, start: real)
    requires d != 0
    ensures |LayWedges(sl, d, start)| == |sl|
    ensures |sl| > 0 ==> LayWedges(sl, d, start)[0].start == start
    ensures forall i :: 0 < i < |sl| ==>
      LayWedges(sl, d, start)[i].start == LayWedges(sl, d, start)[i - 1].end
    decreases |sl|
  {
    if |sl| > 0 {
      var span := sl[0].value as real / d as real;
      var ws, rest := LayWedges(sl, d, start), LayWedges(sl[1..], d, start + span);
      WedgeChain(sl[1..], d, start + span);
      assert ws == [ws[0]] + rest;
      assert ws[0].end == start + span;
    }
  }

  /** The last wedge ends the slices' whole share after `start`. */
  lemma {:induction false} LastWedgeEnd(sl: seq<Slice>, d: int, start: real)
    requires d != 0 && |sl| > 0
    ensures |LayWedges(sl, d, start)| == |sl|
    ensures LayWedges(sl, d, start)[|sl| - 1].end == start + SliceSum(sl) as real / d as real
    decreases |sl|
  {
    var span := sl[0].value as real / d as real;
    var ws, rest := LayWedges(sl, d, start), LayWedges(sl[1..], d, start + span);
    WedgeChain(sl, d, start);
    assert ws == [ws[0]] + rest;
    assert sl == [sl[0]] + sl[1..];
    SliceSumCons(sl[0], sl[1..]);
    if |sl| == 1 {
      assert SliceSum(sl[1..]) == 0;
    } else {
      LastWedgeEnd(sl[1..], d, start + span);
      DivideSum(sl[0].value, SliceSum(sl[1..]), d);
    }
  }

  /** The pie: no slices give the placeholder, and only then; otherwise the
      first wedge starts at 12 o'clock, each later wedge where the previous
      one ended, and when the values do not sum to zero the last one ends a
      full turn after the first began. */
  lemma LayoutSpec(sl: seq<Slice>)
    ensures Layout(sl).NoData? <==> |sl| == 0
    ensures Layout(sl).Wedges? ==>
      var ws := Layout(sl).wedges;
      && |ws| == |sl|
      && ws[0].start == StartTurn
      && (forall i :: 0 < i < |ws| ==> ws[i].start == ws[i - 1].end)
      && (SliceSum(sl) != 0 ==> ws[|ws| - 1].end == StartTurn + 1.0)
  {
    if |sl| > 0 {
      var d := Divisor(sl);
      LayWedgesSpec(sl, d, StartTurn);
      var ws := LayWedges(sl, d, StartTurn);
      assert Layout(sl).wedges == ws;
      if SliceSum(sl) != 0 {
        DivideBySelf(d);
      }
    }
  }

  /** `|| 1`: when the values sum to zero, each wedge spans its value in
      whole currency units, a hundredth of a turn per hundred cents. */
  lemma ZeroSumWedgeSpans(sl: seq<Slice>)
    requires |sl| > 0
    requires SliceSum(sl) == 0
    ensures Layout(sl).Wedges? && |Layout(sl).wedges| == |sl|
    ensures forall i :: 0 <= i < |sl| ==>
      Layout(sl).wedges[i].end - Layout(sl).wedges[i].start == sl[i].value as real / UnitCents as real
  {
    assert Layout(sl).wedges == LayWedges(sl, UnitCents, StartTurn);
    WedgeSpans(sl, UnitCents, StartTurn);
  }

  /** Each wedge spans its slice's share of `d`. */
  lemma WedgeSpans(sl: seq<Slice>, d: int, start: real)
    requires d != 0
    ensures |LayWedges(sl, d, start)| == |sl|
    ensures forall i :: 0 <= i < |sl| ==>
      LayWedges(sl, d, start)[i].end - LayWedges(sl, d, start)[i].start == sl[i].value as real / d as real
  {
    WedgeShapes(sl, d, start);
  }

  /** With a zero sum the divisor is one currency unit, so each wedge spans
      its value in units: with no negative values every wedge is empty. */
  lemma ZeroTotalGivesEmptyWedges(sl: seq<Slice>)
    requires |sl| > 0
    requires SliceSum(sl) == 0
    requires forall i :: 0 <= i < |sl| ==> sl[i].value >= 0
    ensures Layout(sl).Wedges? && |Layout(sl).wedges| == |sl|
    ensures forall i :: 0 <= i < |sl| ==> Layout(sl).wedges[i].end == Layout(sl).wedges[i].start
  {
    LayWedgesSpec(sl, UnitCents, StartTurn);
    forall i | 0 <= i < |sl|
      ensures sl[i].value == 0
    {
      NonNegativeSliceSum(sl, i);
    }
  }

  lemma {:induction false} NonNegativeSliceSum(sl: seq<Slice>, i: nat)
    requires i < |sl|
    requires forall j :: 0 <= j < |sl| ==> sl[j].value >= 0
    ensures SliceSum(sl) >= sl[i].value
    decreases |sl|
  {
    var init := sl[..|sl| - 1];
    if i < |sl| - 1 {
      NonNegativeSliceSum(init, i);
    } else if |init| > 0 {
      NonNegativeSliceSum(init, 0);
    }
  }
}
