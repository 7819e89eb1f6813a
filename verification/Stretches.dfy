/** Choosing meanders (tune/meander.go, tune/shape.go): how much a stretch of track can hold, where along a track there
    is room, and the shape to fold into one stretch. */
module Stretches {
  import opened Common
  import opened Geometry
  import opened Euclid
  import opened Meander
  import A = Areas

  datatype Style = Style(maxAmplitude: real, minAmplitude: real, chamfer: real, gap: real, minRunLength: real, keepClear: real) {
    predicate Sane() { minAmplitude > 0.0 && chamfer >= 0.0 && gap >= 0.0 && minRunLength > 0.0 && keepClear >= 0.0 }

    function Chamfer(width: real): real { Times(chamfer, width) }

    /** From centre to centre, what `gap` widths of clear space between two legs make. */
    function Spacing(width: real): real { Times(gap + 1.0, width) }

    function Flat(width: real): real { Max(Spacing(width) + 2.0 * Chamfer(width), 4.0 * Chamfer(width)) }
  }

  lemma StyleLengths(st: Style, width: real)
    requires st.Sane() && width > 0.0
    ensures st.Chamfer(width) >= 0.0 && st.Spacing(width) >= width && st.Spacing(width) > 0.0
  {
    PositiveTimes(st.gap + 1.0, width);
    Distribute(st.gap, 1.0, width);
    if st.gap > 0.0 { PositiveTimes(st.gap, width); }
    if st.chamfer > 0.0 { PositiveTimes(st.chamfer, width); }
    Distribute(0.0, 0.0, width);
  }

  /** What could be gained at most by so high a meander in so long a stretch. */
  function Capacity(st: Style, root2: real, span: real, amp: real, width: real): real {
    var c, space := st.Chamfer(width), st.Spacing(width);
    var flat := space + 2.0 * c;
    if span <= 0.0 || amp < st.minAmplitude || amp < 2.0 * c || flat <= 0.0 then 0.0
    else
      var n := if flat + space == 0.0 then 0 else Over(span + space, flat + space).Floor;
      if n < 1 then 0.0 else Max(0.0, Times(n as real, 2.0 * amp - 4.0 * Times(c, 2.0 - root2)))
  }

  /** A stretch that can hold anything has room for the smallest excursion. */
  lemma CapacityMeansRoom(st: Style, root2: real, span: real, amp: real, width: real)
    requires Capacity(st, root2, span, amp, width) > 0.0
    ensures amp >= st.minAmplitude && amp >= 2.0 * st.Chamfer(width) && span > 0.0
  {
  }

  /** A meander of the style's spacing and chamfers, no smaller than is worth drawing, in a stretch so long and no
      higher than that. */
  predicate InStyle(st: Style, dist: Distance, span: real, amp: real, width: real, m: Shape) {
    && m.Valid(dist) && dist(m.from, m.to) == span && st.minAmplitude <= m.amp <= amp
    && m.space == st.Spacing(width) && m.chamfer == st.Chamfer(width) && m.flat >= m.space + 2.0 * m.chamfer
  }

  /** No meander in the style has a narrower flat than the planned one, and its legs there are the spacing apart, or its
      four chamfers fill it. */
  lemma FlatIsLeast(st: Style, dist: Distance, span: real, amp: real, width: real, m: Shape)
    requires InStyle(st, dist, span, amp, width, m)
    ensures m.flat >= st.Flat(width)
    ensures st.Flat(width) - 2.0 * m.chamfer >= m.space
    ensures st.Flat(width) - 2.0 * m.chamfer == m.space || st.Flat(width) == 4.0 * m.chamfer
  {
    hide Times;
  }

  /** No meander in the style gains more than the capacity. */
  lemma CapacityIsMost(st: Style, dist: Distance, root2: real, span: real, amp: real, width: real, m: Shape)
    requires st.Sane() && width > 0.0 && InStyle(st, dist, span, amp, width, m)
    ensures m.Gain(root2) <= Capacity(st, root2, span, amp, width)
  {
    StyleLengths(st, width);
    hide Style.Spacing, Style.Chamfer;
    var c, space := st.Chamfer(width), st.Spacing(width);
    var flat, cost := space + 2.0 * c, Times(c, 2.0 - root2);
    var n := Over(span + space, flat + space).Floor;
    NarrowerFits(m, dist, flat, span);
    CountFits(flat, space, span, m.count);
    SomeLength(m, dist, flat);
    hide Times, Over;
    var g, g' := 2.0 * amp - 4.0 * cost, 2.0 * m.amp - 4.0 * cost;
    assert m.Gain(root2) == Times(m.count as real, g');
    MoreAndHigher(m.count as real, n as real, g', g);
  }

  lemma NarrowerFits(m: Shape, dist: Distance, flat: real, span: real)
    requires m.count >= 1 && m.flat >= flat && m.Axial() <= span
    ensures Times(m.count as real, flat) + Times(m.count as real - 1.0, m.space) <= span
  {
    Distribute(m.flat, flat, m.count as real);
    Distribute(m.count as real, 0.0, m.flat);
    Distribute(m.count as real, 0.0, flat);
    A.SignOf(m.count as real, m.flat - flat);
    hide Times;
  }

  lemma SomeLength(m: Shape, dist: Distance, flat: real)
    requires m.Valid(dist) && m.flat >= flat > 0.0
    ensures dist(m.from, m.to) > 0.0
  {
    PositiveTimes(m.count as real, m.flat);
    Distribute(m.count as real - 1.0, 0.0, m.space);
    A.SignOf(m.space, m.count as real - 1.0);
    hide Times;
  }

  lemma MoreAndHigher(a: real, n: real, g: real, h: real)
    requires 0.0 <= a <= n && g <= h
    ensures Times(a, g) <= Max(0.0, Times(n, h))
  {
    Distribute(h, g, a);
    Distribute(n, a, h);
    Distribute(a, 0.0, g);
    Distribute(a, 0.0, h);
    A.SignOf(g, a);
    A.SignOf(h, n - a);
    A.SignOf(a, h - g);
    A.SignOf(h, n);
    hide Times;
  }

  /** Where a spacing holds two chamfers, some meander in the style gains all of the capacity. */
  lemma CapacityIsReached(st: Style, dist: Distance, root2: real, a: Pt, b: Pt, dir: Pt, side: Pt, amp: real,
                          width: real)
    returns (m: Shape)
    requires st.Sane() && width > 0.0 && st.Spacing(width) >= 2.0 * st.Chamfer(width)
    requires Capacity(st, root2, dist(a, b), amp, width) > 0.0
    ensures m.from == a && m.to == b && InStyle(st, dist, dist(a, b), amp, width, m)
    ensures m.Gain(root2) == Capacity(st, root2, dist(a, b), amp, width)
  {
    StyleLengths(st, width);
    hide Style.Spacing, Style.Chamfer;
    var c, space := st.Chamfer(width), st.Spacing(width);
    var flat := space + 2.0 * c;
    var n := Over(dist(a, b) + space, flat + space).Floor;
    m := Shape(a, b, dir, side, amp, flat, space, c, n);
    CountFits(flat, space, dist(a, b), n);
    hide Times, Over;
  }

  /** Some meander in the style, between these places, gains all of the capacity. */
  ghost predicate Reached(st: Style, root2: real, width: real, dist: Distance, a: Pt, b: Pt, amp: real) {
    exists m :: InStyle(st, dist, dist(a, b), amp, width, m) && m.from == a && m.to == b
                && m.Gain(root2) == Capacity(st, root2, dist(a, b), amp, width)
  }

  /** What the capacity promises can always be had exactly if a spacing holds two chamfers: otherwise it is worked out
      from a flat too narrow for the four chamfers of an excursion. */
  lemma CapacityIsTrueIff(st: Style, dist: Distance, root2: real, width: real)
    requires st.Sane() && Euclidean(dist) && width > 0.0 && 1.0 < root2 < 2.0
    ensures
      (forall a, b, amp :: Capacity(st, root2, dist(a, b), amp, width) > 0.0 ==>
         Reached(st, root2, width, dist, a, b, amp))
      <==> st.Spacing(width) >= 2.0 * st.Chamfer(width)
  {
    if st.Spacing(width) >= 2.0 * st.Chamfer(width) {
      forall a, b, amp | Capacity(st, root2, dist(a, b), amp, width) > 0.0
        ensures Reached(st, root2, width, dist, a, b, amp)
      {
        var m := CapacityIsReached(st, dist, root2, a, b, a, a, amp, width);
      }
    } else {
      StyleLengths(st, width);
      hide Style.Spacing, Style.Chamfer;
      var c, space := st.Chamfer(width), st.Spacing(width);
      var span, amp := space + 2.0 * c, st.minAmplitude + 4.0 * c + 1.0;
      var a, b := Pt(0.0, 0.0), Pt(span, 0.0);
      SqrOfZero();
      assert Sq(b.Sub(a)) == Sqr(span) + Sqr(0.0);
      DistanceIs(dist, a, b, span);
      OneGoesIn(span + space);
      SmallCut(c, root2);
      Distribute(1.0, 0.0, 2.0 * amp - 4.0 * Times(c, 2.0 - root2));
      hide Times, Over, Euclidean, Sqr;
      assert Capacity(st, root2, dist(a, b), amp, width) > 0.0;
      forall m: Shape ensures !InStyle(st, dist, dist(a, b), amp, width, m) {
        if InStyle(st, dist, dist(a, b), amp, width, m) { TooWide(m, dist, span); }
      }
      assert !Reached(st, root2, width, dist, a, b, amp);
    }
  }

  lemma OneGoesIn(x: real)
    requires x > 0.0
    ensures Over(x, x).Floor == 1
  {
    assert Over(x, x) == 1.0;
  }

  lemma SmallCut(c: real, root2: real)
    requires c >= 0.0 && 1.0 < root2 < 2.0
    ensures 0.0 <= Times(c, 2.0 - root2) <= c
  {
    A.SignOf(2.0 - root2, c);
    A.SignOf(root2 - 1.0, c);
    Distribute(2.0 - root2, root2 - 1.0, c);
    Distribute(1.0, 0.0, c);
    hide Times;
  }

  lemma TooWide(m: Shape, dist: Distance, span: real)
    requires m.Valid(dist) && dist(m.from, m.to) == span
    ensures m.flat <= span
  {
    A.SignOf(m.flat, m.count as real - 1.0);
    Distribute(m.count as real, 1.0, m.flat);
    A.SignOf(m.space, m.count as real - 1.0);
    hide Times;
  }

  /** A stretch of track, how far a meander may stray from it, and to which side. */
  datatype Run = Run(from: Pt, to: Pt, length: real, amp: real, side: Pt) {
    ghost predicate Ok(dist: Distance) {
      && Euclidean(dist) && from != to && length == dist(from, to)
      && Sq(side) == 1.0 && Inner(Norm(dist, to.Sub(from)), side) == 0.0
    }

    function Frame(dist: Distance): Axes { Axes(from, Norm(dist, to.Sub(from)), side) }
  }

  lemma RunIsPlaced(r: Run, dist: Distance)
    requires r.Ok(dist)
    ensures r.Frame(dist).Square() && r.to == r.Frame(dist).At(r.length, 0.0) && r.length > 0.0
  {
    NormIsUnit(dist, r.from, r.to);
    hide Euclidean, Sqr;
    Distribute(0.0, 0.0, r.side.x);
    Distribute(0.0, 0.0, r.side.y);
    Distribute(r.side.x, 0.0, 0.0);
    Distribute(r.side.y, 0.0, 0.0);
  }

  /** What a meander planned for a stretch is: it fits, gains no more than is wanted, and keeps its legs apart. */
  ghost predicate Planned(st: Style, dist: Distance, root2: real, r: Run, width: real, want: real, m: Shape,
                          got: real) {
    && m.from == r.from && m.to == r.to && m.dir == Norm(dist, r.to.Sub(r.from)) && m.side == r.side
    && m.Valid(dist) && m.Placed(dist)
    && m.space == st.Spacing(width) && m.chamfer == st.Chamfer(width) && m.flat >= m.space + 2.0 * m.chamfer
    && m.amp >= st.minAmplitude && 0.0 < got <= want && got == m.Gain(root2)
  }

  /** The height that would gain exactly what is wanted. */
  function ExactAmplitude(want: real, count: nat, c: real, root2: real): real
    requires count >= 1
  {
    (Over(want, count as real) + 4.0 * Times(c, 2.0 - root2)) / 2.0
  }

  lemma NoMoreThanWanted(m: Shape, root2: real, want: real)
    requires m.count >= 1 && m.amp <= ExactAmplitude(want, m.count, m.chamfer, root2)
    ensures m.Gain(root2) <= want
  {
    var n, g := m.count as real, m.GainPerExcursion(root2);
    var each := Over(want, n);
    assert g <= each;
    OverTimes(want, n);
    Distribute(each, g, n);
    Distribute(g, 0.0, n);
    if g < each { PositiveTimes(each - g, n); }
  }

  /** The most excursions a stretch has length for. */
  function MaxCount(st: Style, r: Run, width: real): int
    requires st.Flat(width) + st.Spacing(width) != 0.0
  {
    Over(r.length + st.Spacing(width), st.Flat(width) + st.Spacing(width)).Floor
  }

  function LeastAmplitude(st: Style, width: real): real { Max(st.minAmplitude, 2.0 * st.Chamfer(width)) }

  /** The meander of so many excursions: as high as gains what is wanted, or as there is room for; none if even the
      lowest would gain too much. */
  function ShapeWith(st: Style, dist: Distance, root2: real, r: Run, width: real, want: real, count: nat): Option<Shape>
    requires count >= 1
  {
    var exact := ExactAmplitude(want, count, st.Chamfer(width), root2);
    var least := LeastAmplitude(st, width);
    if exact < least then None
    else
      Some(Shape(r.from, r.to, Norm(dist, r.to.Sub(r.from)), r.side, Max(Min(exact, r.amp), least),
                 st.Flat(width), st.Spacing(width), st.Chamfer(width), count))
  }

  /** A meander of so many excursions fits the stretch, clears everything, and gains something. */
  predicate Fits(st: Style, dist: Distance, root2: real, r: Run, width: real, want: real, clear: Shape -> bool,
                 count: nat)
    requires count >= 1
  {
    var s := ShapeWith(st, dist, root2, r, width, want, count);
    s.Some? && s.value.Valid(dist) && clear(s.value) && s.value.Gain(root2) > 0.0
  }

  /** No meander of more excursions than that fits. */
  ghost predicate NoneFits(st: Style, dist: Distance, root2: real, r: Run, width: real, want: real,
                           clear: Shape -> bool, above: int)
  {
    forall c: nat :: 1 <= c && above < c ==> !Fits(st, dist, root2, r, width, want, clear, c)
  }

  /** So many excursions, and the spaces between them, take up no more than a length just up to the count that goes into
      it. */
  lemma CountFits(flat: real, space: real, length: real, count: nat)
    requires flat + space > 0.0
    ensures
      Times(count as real, flat) + Times(count as real - 1.0, space) <= length <==>
      count <= Over(length + space, flat + space).Floor
  {
    var c := count as real;
    Distribute(flat, space, c);
    Distribute(c, 1.0, space);
    Distribute(c, 0.0, flat);
    Distribute(c, 0.0, space);
    Distribute(flat + space, 0.0, c);
    A.OverBound(c, length + space, flat + space);
    hide Times, Over;
    FloorAtLeast(count, Over(length + space, flat + space));
  }

  lemma FloorAtLeast(n: int, v: real)
    ensures n <= v.Floor <==> n as real <= v
  {
  }

  /** A shape the run has length for has no more excursions than the run can hold, so none beyond that fits. */
  lemma NoneBeyond(st: Style, dist: Distance, root2: real, r: Run, width: real, want: real, clear: Shape -> bool)
    requires st.Sane() && width > 0.0 && r.Ok(dist)
    ensures st.Flat(width) + st.Spacing(width) > 0.0
    ensures NoneFits(st, dist, root2, r, width, want, clear, MaxCount(st, r, width))
  {
    StyleLengths(st, width);
    hide Times, Over, Style.Spacing, Style.Chamfer, ExactAmplitude, LeastAmplitude, Shape.Gain, Norm, Euclidean;
    var flat, space := st.Flat(width), st.Spacing(width);
    forall c: nat | 1 <= c && MaxCount(st, r, width) < c ensures !Fits(st, dist, root2, r, width, want, clear, c) {
      CountFits(flat, space, r.length, c);
    }
  }

  /** A meander as high as would gain exactly what is wanted does; one that is not has all the room there is, or is the
      lowest there is. */
  lemma HighAsMayBe(st: Style, dist: Distance, root2: real, r: Run, width: real, want: real, count: nat)
    requires count >= 1 && ShapeWith(st, dist, root2, r, width, want, count).Some?
    ensures
      var m := ShapeWith(st, dist, root2, r, width, want, count).value;
      m.count == count && m.amp >= LeastAmplitude(st, width)
      && (m.Gain(root2) == want || m.amp == r.amp || (m.amp == LeastAmplitude(st, width) > r.amp))
  {
    var m := ShapeWith(st, dist, root2, r, width, want, count).value;
    var exact := ExactAmplitude(want, count, st.Chamfer(width), root2);
    if m.amp == exact {
      ExactGain(m, root2, want);
    }
  }

  lemma ExactGain(m: Shape, root2: real, want: real)
    requires m.count >= 1 && m.amp == ExactAmplitude(want, m.count, m.chamfer, root2)
    ensures m.Gain(root2) == want
  {
    var n := m.count as real;
    OverTimes(want, n);
    assert m.GainPerExcursion(root2) == Over(want, n);
    Distribute(Over(want, n), 0.0, n);
    Distribute(n, 0.0, Over(want, n));
  }

  lemma FitsIsPlanned(st: Style, dist: Distance, root2: real, r: Run, width: real, want: real, clear: Shape -> bool,
                      count: nat)
    requires st.Sane() && r.Ok(dist) && width > 0.0 && count >= 1 && Fits(st, dist, root2, r, width, want, clear, count)
    ensures
      var s := ShapeWith(st, dist, root2, r, width, want, count).value;
      Planned(st, dist, root2, r, width, want, s, s.Gain(root2))
      && (Capacity(st, root2, r.length, r.amp, width) > 0.0 ==> s.amp <= r.amp)
  {
    hide Times, Euclidean, Axes.Square, Over, Norm, Shape.Reach, Shape.Gain, Shape.Axial;
    StyleLengths(st, width);
    RunIsPlaced(r, dist);
    NoMoreThanWanted(ShapeWith(st, dist, root2, r, width, want, count).value, root2, want);
    if Capacity(st, root2, r.length, r.amp, width) > 0.0 { CapacityMeansRoom(st, root2, r.length, r.amp, width); }
  }

  /** Folds a meander into one stretch: of all that fit, the one with the most excursions; nothing, only if none fits.
      No higher than its surroundings allow, and no longer than is wanted: a stretch with any capacity is never given
      more than its room. */
  method PlanMeander(st: Style, dist: Distance, root2: real, r: Run, width: real, want: real, clear: Shape -> bool)
    returns (m: Option<Shape>, got: real)
    requires st.Sane() && r.Ok(dist) && IsRoot2(root2) && width > 0.0
    ensures st.Flat(width) + st.Spacing(width) > 0.0
    ensures m.Some? ==> Planned(st, dist, root2, r, width, want, m.value, got) && clear(m.value)
    ensures m.Some? && Capacity(st, root2, r.length, r.amp, width) > 0.0 ==> m.value.amp <= r.amp
    ensures m.Some? ==> m.value.count >= 1 && m == ShapeWith(st, dist, root2, r, width, want, m.value.count)
                        && NoneFits(st, dist, root2, r, width, want, clear, m.value.count)
    ensures m.None? && want > 0.0 ==> NoneFits(st, dist, root2, r, width, want, clear, 0)
  {
    StyleLengths(st, width);
    if want <= 0.0 { return None, 0.0; }
    RunIsPlaced(r, dist);
    NoneBeyond(st, dist, root2, r, width, want, clear);
    var count := MaxCount(st, r, width);
    while count >= 1
      invariant NoneFits(st, dist, root2, r, width, want, clear, count)
    {
      hide Times, Euclidean, Axes.Square, Over, Norm, Shape.Reach, IsRoot2, Capacity, Planned, Shape.Gain, Shape.Axial, ShapeWith, MaxCount;
      var c: nat := count;
      m, got := TryCount(st, dist, root2, r, width, want, clear, c);
      if m.Some? { return; }
      count := count - 1;
    }
    return None, 0.0;
  }

  /** A meander of so many excursions, measured as it would be drawn. */
  method TryCount(st: Style, dist: Distance, root2: real, r: Run, width: real, want: real, clear: Shape -> bool,
                  count: nat)
    returns (m: Option<Shape>, got: real)
    requires st.Sane() && r.Ok(dist) && IsRoot2(root2) && width > 0.0 && count >= 1
    ensures m.Some? <==> Fits(st, dist, root2, r, width, want, clear, count)
    ensures m.Some? ==> m == ShapeWith(st, dist, root2, r, width, want, count) && m.value.count == count && clear(m.value)
    ensures m.Some? ==> Planned(st, dist, root2, r, width, want, m.value, got)
    ensures m.Some? && Capacity(st, root2, r.length, r.amp, width) > 0.0 ==> m.value.amp <= r.amp
  {
    hide Times, Euclidean, Axes.Square, Over, Norm, Shape.Reach, IsRoot2, Capacity, Planned, Shape.Gain, Shape.Axial;
    RunIsPlaced(r, dist);
    var chamfer, least := st.Chamfer(width), LeastAmplitude(st, width);
    var exact := ExactAmplitude(want, count, chamfer, root2);
    var amp := Min(exact, r.amp);
    if amp < least {
      if exact < least { return None, 0.0; }
      amp := least;
    }
    var s := Shape(r.from, r.to, Norm(dist, r.to.Sub(r.from)), r.side, amp, st.Flat(width), st.Spacing(width), chamfer, count);
    if !s.Valid(dist) || !clear(s) { return None, 0.0; }
    var pts := Polyline(s, dist);
    got := Measure(dist, pts);
    got := got - dist(r.from, r.to);
    PolylineLength(s, dist, root2);
    if got <= 0.0 { return None, 0.0; }
    FitsIsPlanned(st, dist, root2, r, width, want, clear, count);
    m := Some(s);
  }

  /** Legs of a planned meander stand at least so many widths apart, centre to centre. */
  lemma PlannedLegsApart(st: Style, dist: Distance, root2: real, r: Run, width: real, want: real, m: Shape, got: real,
                         j: nat, k: nat)
    requires Planned(st, dist, root2, r, width, want, m, got) && j < k
    ensures LegAt(m, dist, k) - LegAt(m, dist, j) >= Times(st.gap + 1.0, width)
  {
    hide Times;
    LegsApart(m, dist, j, k);
  }

  /** Each excursion of a planned meander ramps out by the style's chamfer, in widths, as far as it goes along, and is
      at least as high as the style's least. */
  lemma PlannedCorners(st: Style, dist: Distance, root2: real, r: Run, width: real, want: real, m: Shape, got: real,
                       i: nat)
    requires Planned(st, dist, root2, r, width, want, m, got) && i < m.count
    ensures
      var e, x, cut := Excursion(m, m.StartOf(dist, i)), m.StartOf(dist, i), Times(st.chamfer, width);
      e[0] == (x + cut, cut) && e[2] == (x + 2.0 * cut, m.amp) && e[1].1 == m.amp - cut && e[6] == (x + m.flat, 0.0)
      && m.amp >= st.minAmplitude
  {
    hide Times;
  }
}
