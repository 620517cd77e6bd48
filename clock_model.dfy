/** A model of the logic inside the AnalogClock widget: the fraction along a
    circle path at which each hand is drawn, which numeral sits at which face
    division, the square-resize rule, the six resize-grip marks, the grip's
    auto-hide timer and incremental dragging. Painting, the system clock,
    the timer and hit-testing are outside the model: their results are
    parameters. */
module ClockModel {

  // ---------------------------------------------------------------------
  // Exact arithmetic helpers
  // ---------------------------------------------------------------------

  function Abs(x: real): (r: real)
    ensures r >= 0.0 && (r == x || r == -x)
  {
    if x < 0.0 then -x else x
  }

  /** The fractional part of x: how far past a whole turn x lies. */
  function Frac(x: real): (r: real)
    ensures 0.0 <= r < 1.0
  {
    x - x.Floor as real
  }

  lemma FracUnit(x: real)
    requires 0.0 <= x < 1.0
    ensures Frac(x) == x
  {
    assert x.Floor == 0;
  }

  lemma FracShift(x: real, k: int)
    ensures Frac(x + k as real) == Frac(x)
  {
    var n := x.Floor;
    assert n as real <= x < n as real + 1.0;
    assert (n + k) as real <= x + k as real < (n + k) as real + 1.0;
    assert (x + k as real).Floor == n + k;
  }

  // ---------------------------------------------------------------------
  // Time of day and hand angles
  // ---------------------------------------------------------------------

  /** The hour as `strftime("%I")` gives it: 12 for midnight and noon. */
  function TwelveHour(hour24: int): (h: int)
    requires 0 <= hour24 < 24
    ensures 1 <= h <= 12
    ensures h % 12 == hour24 % 12
  {
    if hour24 % 12 == 0 then 12 else hour24 % 12
  }

  /** The time shown by the clock: hour from `%I`, minute and second. */
  datatype ClockState = ClockState(hour: int, minute: int, seconds: int)
  {
    predicate Valid() {
      1 <= hour <= 12 && 0 <= minute < 60 && 0 <= seconds < 60
    }
  }

  /** Reading the clock from a 24-hour wall-clock time. */
  function ReadClock(hour24: int, minute: int, second: int): (c: ClockState)
    requires 0 <= hour24 < 24 && 0 <= minute < 60 && 0 <= second < 60
    ensures c.Valid()
    ensures c.hour % 12 == hour24 % 12 && c.minute == minute && c.seconds == second
  {
    ClockState(TwelveHour(hour24), minute, second)
  }

  /** Every angle the widget feeds to HandRotation lies in [0, 390):
      seconds and minutes give 0..354, the hour hand 30..389.5. */
  predicate InClockDomain(val: real) {
    0.0 <= val < 390.0
  }

  /** Angle in degrees of the second and minute hands: 6 degrees per unit. */
  function SixtiethAngle(units: int): (a: real)
    requires 0 <= units < 60
    ensures InClockDomain(a)
    ensures a / 360.0 == units as real / 60.0
  {
    units as real * 6.0
  }

  /** Angle in degrees of the hour hand: 30 degrees per hour plus half a
      degree per minute, so the hand stays inside its hour's sector. */
  function HourAngle(hour: int, minute: int): (a: real)
    requires 1 <= hour <= 12 && 0 <= minute < 60
    ensures InClockDomain(a)
    ensures 30.0 * hour as real <= a < 30.0 * hour as real + 30.0
    ensures a / 360.0 == (hour as real + minute as real / 60.0) / 12.0
  {
    0.5 * minute as real + hour as real * 30.0
  }

  lemma HourAngleDrift()
    ensures HourAngle(3, 0) == 90.0
    ensures HourAngle(3, 30) == 105.0
    ensures HourAngle(12, 0) == 360.0
  {
  }

  // ---------------------------------------------------------------------
  // Hand rotation: angle -> fraction along a circle path
  // ---------------------------------------------------------------------

  /** The fraction along a circle path (whose origin is at 3 o'clock and
      which runs clockwise) at which a hand at angle `val` degrees, measured
      clockwise from 12 o'clock, is drawn. */
  function HandRotation(val: real): (r: real)
    ensures r >= 0.0
  {
    var f := (1.0 / 360.0) * val;
    Abs(f + (if f * 100.0 > 25.0 then -0.25 else 0.75))
  }

  /** The branch boundary `f * 100 > 25` is the angle 90 degrees, and for
      every angle above -270 degrees the absolute value changes nothing. */
  lemma HandRotationBranches(val: real)
    requires val >= -270.0
    ensures val > 90.0 ==> HandRotation(val) == val / 360.0 - 0.25
    ensures val <= 90.0 ==> HandRotation(val) == val / 360.0 + 0.75
  {
    var f := (1.0 / 360.0) * val;
    assert f == val / 360.0;
    assert f * 100.0 > 25.0 <==> val > 90.0;
  }

  /** For every angle the widget produces the fraction lies in (0, 1], and
      reaches 1 only at 90 degrees (second 15, minute 15, or 3 o'clock). */
  lemma HandRotationRange(val: real)
    requires InClockDomain(val)
    ensures 0.0 < HandRotation(val) <= 1.0
    ensures HandRotation(val) == 1.0 <==> val == 90.0
  {
    HandRotationBranches(val);
  }

  /** The rebasing is right: a fraction r along the path is r + 1/4 of a
      turn clockwise from 12 o'clock, and that equals the angle's share of
      a full turn, modulo whole turns. */
  lemma HandRotationPointsAt(val: real)
    requires InClockDomain(val)
    ensures Frac(HandRotation(val) + 0.25) == Frac(val / 360.0)
  {
    HandRotationBranches(val);
    if val > 90.0 {
      assert HandRotation(val) + 0.25 == val / 360.0;
    } else {
      assert HandRotation(val) + 0.25 == val / 360.0 + 1 as real;
      FracShift(val / 360.0, 1);
    }
  }

  /** A whole extra turn moves the hand to the same place: the fractions for
      `val` and `val + 360` agree modulo 1 (they are equal up to 90 degrees
      and differ by exactly 1 beyond). */
  lemma HandRotationWrap(val: real)
    requires val > -270.0
    ensures val <= 90.0 ==> HandRotation(val + 360.0) == HandRotation(val)
    ensures val > 90.0 ==> HandRotation(val + 360.0) == HandRotation(val) + 1.0
  {
    HandRotationBranches(val);
    HandRotationBranches(val + 360.0);
  }

  lemma HandRotationExamples()
    ensures HandRotation(0.0) == 0.75
    ensures HandRotation(360.0) == 0.75
    ensures HandRotation(90.0) == 1.0
    ensures HandRotation(180.0) == 0.25
  {
    HandRotationBranches(0.0);
    HandRotationBranches(360.0);
    HandRotationBranches(90.0);
    HandRotationBranches(180.0);
  }

  /** Advancing the angle from a to b (less than a full turn) moves the tip
      clockwise by exactly (b - a) / 360 of the circle, modulo whole turns:
      the hands move monotonically clockwise. */
  lemma HandRotationAdvances(a: real, b: real)
    requires InClockDomain(a) && InClockDomain(b)
    requires a <= b < a + 360.0
    ensures Frac(HandRotation(b) - HandRotation(a)) == (b - a) / 360.0
  {
    HandRotationBranches(a);
    HandRotationBranches(b);
    var d := (b - a) / 360.0;
    FracUnit(d);
    if a <= 90.0 < b {
      assert HandRotation(b) - HandRotation(a) == d + (-1) as real;
      FracShift(d, -1);
    } else {
      assert HandRotation(b) - HandRotation(a) == d;
    }
  }

  /** Where the three hands are drawn for a displayed time. */
  datatype Hands = Hands(second: real, minute: real, hour: real)

  /** The fractions `paintEvent` passes to `pointAtPercent`. The second hand
      points s/60 of a turn clockwise from 12, the minute hand m/60 and the
      hour hand (h + m/60)/12. */
  function HandFractions(c: ClockState): (f: Hands)
    requires c.Valid()
    ensures 0.0 < f.second <= 1.0 && 0.0 < f.minute <= 1.0 && 0.0 < f.hour <= 1.0
    ensures Frac(f.second + 0.25) == Frac(c.seconds as real / 60.0)
    ensures Frac(f.minute + 0.25) == Frac(c.minute as real / 60.0)
    ensures Frac(f.hour + 0.25) == Frac((c.hour as real + c.minute as real / 60.0) / 12.0)
  {
    var s := SixtiethAngle(c.seconds);
    var m := SixtiethAngle(c.minute);
    var h := HourAngle(c.hour, c.minute);
    HandRotationRange(s); HandRotationRange(m); HandRotationRange(h);
    HandRotationPointsAt(s); HandRotationPointsAt(m); HandRotationPointsAt(h);
    Hands(HandRotation(s), HandRotation(m), HandRotation(h))
  }

  // ---------------------------------------------------------------------
  // Face: spikes and numerals at twelve divisions
  // ---------------------------------------------------------------------

  /** One of the twelve face divisions: division d sits at fraction d/12 of
      the circle path. Radii are in hundredths of the widget size. */
  datatype Placement = Placement(division: int, numeral: int, spikeInner: int, labelRadius: int)

  /** The outer end of every spike, in hundredths of the size. */
  const SpikeOuter: int := 45

  /** The divisions the first loop of `paintEvent` draws at. */
  const MinorDivisions: seq<int> := [1, 2, 4, 5, 7, 8, 10, 11]

  /** The numerals the second loop draws at divisions 3, 6, 9 and 12. */
  const MajorNumerals: seq<int> := [6, 9, 12, 3]

  function Rotated(s: seq<int>, k: nat): (r: seq<int>)
    requires k <= |s|
    ensures |r| == |s|
    ensures forall i :: 0 <= i < |s| - k ==> r[i] == s[i + k]
    ensures forall i :: |s| - k <= i < |s| ==> r[i] == s[i + k - |s|]
  {
    s[k..] + s[..k]
  }

  /** The twelve placements in the order `paintEvent` draws them: eight
      minor divisions labelled with the tuple rotated left by two, then the
      four major divisions. */
  function FacePlacements(): (ps: seq<Placement>)
    ensures |ps| == 12
  {
    var labels := Rotated(MinorDivisions, 2);
    seq(8, idx requires 0 <= idx < 8 => Placement(MinorDivisions[idx], labels[idx], 41, 37))
    + seq(4, i requires 0 <= i < 4 => Placement(3 * (i + 1), MajorNumerals[i], 39, 35))
  }

  /** The numeral that belongs at division d: the path starts at 3 o'clock,
      so division d is d + 3 hours clockwise from 12. */
  predicate NumeralFits(p: Placement) {
    1 <= p.numeral <= 12 && p.numeral % 12 == (p.division + 3) % 12
  }

  /** Every placement carries the numeral ((d + 2) mod 12) + 1 for its
      division d; the four divisions that are multiples of 3 get the deeper
      spike and the inner label circle, the other eight the shallower ones;
      and every spike runs inwards from the outer circle. */
  lemma FacePlacementsRule()
    ensures forall k :: 0 <= k < 12 ==>
      var p := FacePlacements()[k];
      1 <= p.division <= 12 &&
      p.numeral == (p.division + 2) % 12 + 1 && NumeralFits(p) &&
      (p.division % 3 == 0 <==> p.spikeInner == 39) &&
      (p.division % 3 == 0 <==> p.labelRadius == 35) &&
      p.labelRadius < p.spikeInner < SpikeOuter
  {
    var ps := FacePlacements();
    assert ps[0] == Placement(1, 4, 41, 37);
    assert ps[1] == Placement(2, 5, 41, 37);
    assert ps[2] == Placement(4, 7, 41, 37);
    assert ps[3] == Placement(5, 8, 41, 37);
    assert ps[4] == Placement(7, 10, 41, 37);
    assert ps[5] == Placement(8, 11, 41, 37);
    assert ps[6] == Placement(10, 1, 41, 37);
    assert ps[7] == Placement(11, 2, 41, 37);
    assert ps[8] == Placement(3, 6, 39, 35);
    assert ps[9] == Placement(6, 9, 39, 35);
    assert ps[10] == Placement(9, 12, 39, 35);
    assert ps[11] == Placement(12, 3, 39, 35);
  }

  function Divisions(ps: seq<Placement>): (ds: seq<int>)
    ensures |ds| == |ps| && forall k :: 0 <= k < |ps| ==> ds[k] == ps[k].division
  {
    seq(|ps|, k requires 0 <= k < |ps| => ps[k].division)
  }

  function Numerals(ps: seq<Placement>): (ns: seq<int>)
    ensures |ns| == |ps| && forall k :: 0 <= k < |ps| ==> ns[k] == ps[k].numeral
  {
    seq(|ps|, k requires 0 <= k < |ps| => ps[k].numeral)
  }

  /** The divisions drawn are exactly 1..12, each once, and so are the
      numerals: every numeral 1..12 appears exactly once on the face. */
  lemma FacePlacementsOnce()
    ensures forall d :: d in Divisions(FacePlacements()) <==> 1 <= d <= 12
    ensures forall n :: n in Numerals(FacePlacements()) <==> 1 <= n <= 12
    ensures forall j, k :: 0 <= j < k < 12 ==> FacePlacements()[j].division != FacePlacements()[k].division
    ensures forall j, k :: 0 <= j < k < 12 ==> FacePlacements()[j].numeral != FacePlacements()[k].numeral
  {
    FacePlacementsRule();
    assert Divisions(FacePlacements()) == [1, 2, 4, 5, 7, 8, 10, 11, 3, 6, 9, 12];
    assert Numerals(FacePlacements()) == [4, 5, 7, 8, 10, 11, 1, 2, 6, 9, 12, 3];
  }

  /** At h o'clock sharp the hour hand points exactly at the division that
      carries the numeral h. */
  lemma HourHandMeetsNumeral(h: int, k: int)
    requires 1 <= h <= 12 && 0 <= k < 12
    requires FacePlacements()[k].numeral == h
    ensures HandRotation(HourAngle(h, 0)) == FacePlacements()[k].division as real / 12.0
  {
    FacePlacementsRule();
    var d := FacePlacements()[k].division;
    HandRotationBranches(HourAngle(h, 0));
    if h <= 3 {
      assert d == h + 9;
    } else {
      assert d == h - 3;
    }
  }

  // ---------------------------------------------------------------------
  // Square resizing
  // ---------------------------------------------------------------------

  /** The side of the square the widget is forced back to. */
  function SquareSide(width: int, height: int): (s: int)
    ensures s <= width && s <= height
    ensures s == width || s == height
  {
    if width <= height then width else height
  }

  /** Resizing an already square widget leaves its side alone, so the
      resize that `update_size` itself triggers changes nothing. */
  lemma SquareSideIdempotent(width: int, height: int)
    ensures SquareSide(SquareSide(width, height), SquareSide(width, height)) == SquareSide(width, height)
    ensures width == height ==> SquareSide(width, height) == width
  {
  }

  // ---------------------------------------------------------------------
  // Resize-grip marks
  // ---------------------------------------------------------------------

  /** A point or displacement in pixels. */
  datatype Point = Point(x: int, y: int)

  function Add(p: Point, q: Point): Point { Point(p.x + q.x, p.y + q.y) }
  function Sub(p: Point, q: Point): Point { Point(p.x - q.x, p.y - q.y) }

  /** The side of each grip mark and of the invisible size grip. */
  const MarkSide: int := 7
  const SizeGripSide: int := 25

  /** The top-left offsets of the six marks from the bottom-right corner, in
      the order the loop places them. */
  const GripOffsets: seq<Point> :=
    [Point(-7, -7), Point(-14, -7), Point(-7, -14), Point(-21, -7), Point(-7, -21), Point(-14, -14)]

  /** The six mark positions for a widget of width w (both coordinates
      start from the width: the widget is square). */
  function GripMarksAt(w: int): (ms: seq<Point>)
    ensures |ms| == 6
  {
    seq(6, j requires 0 <= j < 6 => Add(Point(w, w), GripOffsets[j]))
  }

  /** The marks are the six cells of a 7-pixel grid that form a staircase in
      the bottom-right corner: a point is a mark exactly when it lies a and b
      cells up and left of the corner with a, b >= 1 and a + b <= 4. */
  lemma GripMarksStaircase(w: int, a: int, b: int)
    ensures Point(w - MarkSide * a, w - MarkSide * b) in GripMarksAt(w)
            <==> 1 <= a && 1 <= b && a + b <= 4
  {
    var ms := GripMarksAt(w);
    assert ms == [Point(w - 7, w - 7), Point(w - 14, w - 7), Point(w - 7, w - 14),
                  Point(w - 21, w - 7), Point(w - 7, w - 21), Point(w - 14, w - 14)];
    if 1 <= a && 1 <= b && a + b <= 4 {
      if a == 1 && b == 1 { assert ms[0] == Point(w - MarkSide * a, w - MarkSide * b); }
      else if a == 2 && b == 1 { assert ms[1] == Point(w - MarkSide * a, w - MarkSide * b); }
      else if a == 1 && b == 2 { assert ms[2] == Point(w - MarkSide * a, w - MarkSide * b); }
      else if a == 3 { assert ms[3] == Point(w - MarkSide * a, w - MarkSide * b); }
      else if b == 3 { assert ms[4] == Point(w - MarkSide * a, w - MarkSide * b); }
      else { assert ms[5] == Point(w - MarkSide * a, w - MarkSide * b); }
    }
  }

  /** The six marks are distinct and each 7x7 mark lies inside the 25x25
      size grip at the bottom-right corner of the widget. */
  lemma GripMarksInsideSizeGrip(w: int)
    ensures forall j :: 0 <= j < 6 ==>
      var m := GripMarksAt(w)[j];
      w - SizeGripSide <= m.x && m.x + MarkSide <= w &&
      w - SizeGripSide <= m.y && m.y + MarkSide <= w
    ensures forall i, j :: 0 <= i < j < 6 ==> GripMarksAt(w)[i] != GripMarksAt(w)[j]
  {
    var ms := GripMarksAt(w);
    assert ms == [Point(w - 7, w - 7), Point(w - 14, w - 7), Point(w - 7, w - 14),
                  Point(w - 21, w - 7), Point(w - 7, w - 21), Point(w - 14, w - 14)];
  }

  // ---------------------------------------------------------------------
  // Resize-grip auto-hide
  // ---------------------------------------------------------------------

  /** The auto-hide state: whether the cursor was last seen over the window,
      the second it was last seen there, and whether the grip is hidden. */
  datatype GripState = GripState(aboveWindow: bool, enterTime: int, hidden: bool)
  {
    /** The grip is shown exactly while the cursor counts as above the window. */
    predicate Consistent() { hidden == !aboveWindow }
  }

  const InitialGrip: GripState := GripState(false, 0, true)

  /** One timer tick of `hideSizegrip` at second `now`. */
  function HideStep(g: GripState, now: int, underMouse: bool): (g': GripState)
    ensures g.Consistent() ==> g'.Consistent()
    ensures underMouse ==> g'.enterTime == now && g'.aboveWindow
    ensures underMouse && g.Consistent() ==> !g'.hidden
    ensures underMouse && g.aboveWindow ==> g' == g.(enterTime := now)
    ensures !underMouse ==> g'.enterTime == g.enterTime
    ensures !underMouse ==> (g'.hidden <==> g.hidden || now - g.enterTime == 5)
    ensures !underMouse && now - g.enterTime != 5 ==> g' == g
  {
    if underMouse then
      if !g.aboveWindow then GripState(true, now, false) else g.(enterTime := now)
    else if now - g.enterTime == 5 then
      g.(hidden := true, aboveWindow := false)
    else
      g
  }

  /** One tick as the timer delivers it: the second and whether the mouse is
      over the widget. */
  datatype Tick = Tick(now: int, underMouse: bool)

  function RunTicks(g: GripState, ticks: seq<Tick>): GripState
    decreases |ticks|
  {
    if ticks == [] then g
    else RunTicks(HideStep(g, ticks[0].now, ticks[0].underMouse), ticks[1..])
  }

  /** While the mouse stays away, the grip ends up hidden exactly when it
      already was or some tick fell exactly five seconds after the cursor was
      last seen; the timestamp never moves. In particular a missed tick at
      the five-second mark leaves the grip visible for good. */
  lemma {:induction false} AwayTicksHide(g: GripState, ticks: seq<Tick>)
    requires g.Consistent()
    requires forall i :: 0 <= i < |ticks| ==> !ticks[i].underMouse
    ensures RunTicks(g, ticks).Consistent()
    ensures RunTicks(g, ticks).enterTime == g.enterTime
    ensures RunTicks(g, ticks).hidden <==>
      g.hidden || exists i :: 0 <= i < |ticks| && ticks[i].now - g.enterTime == 5
    decreases |ticks|
  {
    if ticks != [] {
      var g' := HideStep(g, ticks[0].now, false);
      AwayTicksHide(g', ticks[1..]);
      if exists i :: 0 <= i < |ticks| && ticks[i].now - g.enterTime == 5 {
        var i :| 0 <= i < |ticks| && ticks[i].now - g.enterTime == 5;
        if i > 0 { assert ticks[1..][i - 1] == ticks[i]; }
      }
      if exists i :: 0 <= i < |ticks[1..]| && ticks[1..][i].now - g.enterTime == 5 {
        var i :| 0 <= i < |ticks[1..]| && ticks[1..][i].now - g.enterTime == 5;
        assert ticks[i + 1] == ticks[1..][i];
      }
    }
  }

  /** Entering the widget shows the grip at once; after leaving, it stays
      visible through four ticks and is hidden on the tick five seconds after
      the cursor was last seen. */
  lemma LeaveForFiveSeconds(g: GripState, t: int)
    requires g.Consistent()
    ensures !HideStep(g, t, true).hidden
    ensures !RunTicks(HideStep(g, t, true), [Tick(t + 1, false), Tick(t + 2, false), Tick(t + 3, false), Tick(t + 4, false)]).hidden
    ensures RunTicks(HideStep(g, t, true), [Tick(t + 1, false), Tick(t + 2, false), Tick(t + 3, false), Tick(t + 4, false), Tick(t + 5, false)]).hidden
  {
    var g' := HideStep(g, t, true);
    var four := [Tick(t + 1, false), Tick(t + 2, false), Tick(t + 3, false), Tick(t + 4, false)];
    var five := [Tick(t + 1, false), Tick(t + 2, false), Tick(t + 3, false), Tick(t + 4, false), Tick(t + 5, false)];
    AwayTicksHide(g', four);
    AwayTicksHide(g', five);
    assert five[4].now - g'.enterTime == 5;
  }

  // ---------------------------------------------------------------------
  // Dragging
  // ---------------------------------------------------------------------

  /** The window's top-left corner and the last recorded pointer position. */
  datatype DragState = DragState(pos: Point, oldPos: Point)

  /** `mousePressEvent`: record where the pointer went down. */
  function Press(d: DragState, globalPos: Point): (d': DragState)
    ensures d'.pos == d.pos && d'.oldPos == globalPos
  {
    d.(oldPos := globalPos)
  }

  /** `mouseMoveEvent`: unless the size grip is under the mouse, shift the
      window by how far the pointer moved since the last event. */
  function Move(d: DragState, globalPos: Point, gripUnderMouse: bool): (d': DragState)
    ensures gripUnderMouse ==> d' == d
    ensures !gripUnderMouse ==> d'.oldPos == globalPos
    ensures Sub(d'.pos, d'.oldPos) == Sub(d.pos, d.oldPos)
  {
    if gripUnderMouse then d
    else DragState(Add(d.pos, Sub(globalPos, d.oldPos)), globalPos)
  }

  /** One pointer-move event: where the pointer is and whether it is over
      the size grip. */
  datatype Motion = Motion(globalPos: Point, gripUnderMouse: bool)

  function RunMoves(d: DragState, moves: seq<Motion>): DragState
    decreases |moves|
  {
    if moves == [] then d
    else RunMoves(Move(d, moves[0].globalPos, moves[0].gripUnderMouse), moves[1..])
  }

  /** Incremental translation is absolute translation: after pressing at p
      and any moves, the window has moved by the pointer's displacement from
      p to the last recorded position, which is the last move not over the
      size grip. */
  lemma {:induction false} DragFollowsPointer(d: DragState, p: Point, moves: seq<Motion>)
    ensures RunMoves(Press(d, p), moves).pos == Add(d.pos, Sub(RunMoves(Press(d, p), moves).oldPos, p))
    ensures (forall i :: 0 <= i < |moves| ==> moves[i].gripUnderMouse) ==> RunMoves(Press(d, p), moves) == Press(d, p)
    ensures |moves| > 0 && !moves[|moves| - 1].gripUnderMouse ==>
      RunMoves(Press(d, p), moves).oldPos == moves[|moves| - 1].globalPos
  {
    KeepsGrabOffset(Press(d, p), moves);
  }

  lemma {:induction false} KeepsGrabOffset(d: DragState, moves: seq<Motion>)
    ensures Sub(RunMoves(d, moves).pos, RunMoves(d, moves).oldPos) == Sub(d.pos, d.oldPos)
    ensures (forall i :: 0 <= i < |moves| ==> moves[i].gripUnderMouse) ==> RunMoves(d, moves) == d
    ensures |moves| > 0 && !moves[|moves| - 1].gripUnderMouse ==>
      RunMoves(d, moves).oldPos == moves[|moves| - 1].globalPos
    decreases |moves|
  {
    if moves != [] {
      var d' := Move(d, moves[0].globalPos, moves[0].gripUnderMouse);
      KeepsGrabOffset(d', moves[1..]);
      if forall i :: 0 <= i < |moves| ==> moves[i].gripUnderMouse {
        assert forall i :: 0 <= i < |moves[1..]| ==> moves[1..][i].gripUnderMouse by {
          forall i | 0 <= i < |moves[1..]| ensures moves[1..][i].gripUnderMouse {
            assert moves[1..][i] == moves[i + 1];
          }
        }
      }
      if |moves| > 1 {
        assert moves[1..][|moves[1..]| - 1] == moves[|moves| - 1];
      }
    }
  }

  /** A press at (50, 50) and a move to (80, 65) shift the window by
      (+30, +15); a second move to the same point shifts it no further. */
  lemma DragExample(d: DragState)
    ensures Move(Press(d, Point(50, 50)), Point(80, 65), false).pos == Add(d.pos, Point(30, 15))
    ensures Move(Move(Press(d, Point(50, 50)), Point(80, 65), false), Point(80, 65), false).pos
            == Add(d.pos, Point(30, 15))
  {
  }

  // ---------------------------------------------------------------------
  // The widget
  // ---------------------------------------------------------------------

  /** The state the widget keeps between events. `width` and `height` are
      the window's current geometry as the toolkit reports it, `pos` its
      top-left corner, and `gripMarks` the positions of the six grip labels. */
  class AnalogClock {
    var width: int
    var height: int
    var size: int
    var screenResize: int
    var pos: Point
    var oldPos: Point
    var hour: int
    var minute: int
    var seconds: int
    var cursorAboveWindow: bool
    var cursorEnterTime: int
    var gripHidden: bool
    var gripMarks: array<Point>

    ghost predicate Valid()
      reads this, gripMarks
    {
      width == height == size == screenResize &&
      gripMarks.Length == 6 && gripMarks[..] == GripMarksAt(width) &&
      Grip().Consistent() &&
      Time().Valid()
    }

    function Time(): ClockState
      reads this
    {
      ClockState(hour, minute, seconds)
    }

    function Grip(): GripState
      reads this
    {
      GripState(cursorAboveWindow, cursorEnterTime, gripHidden)
    }

    function Drag(): DragState
      reads this
    {
      DragState(pos, oldPos)
    }

    /** A new widget at (100, 100), 200 pixels square, showing the given
        wall-clock time, with the grip hidden. `cursor` is the pointer
        position when the widget is created. */
    constructor (cursor: Point, hour24: int, m: int, s: int)
      requires 0 <= hour24 < 24 && 0 <= m < 60 && 0 <= s < 60
      ensures Valid() && fresh(gripMarks)
      ensures size == 200 && pos == Point(100, 100) && oldPos == cursor
      ensures Time() == ReadClock(hour24, m, s)
      ensures Grip() == InitialGrip
    {
      screenResize, size := 200, 200;
      width, height := 200, 200;
      pos := Point(100, 100);
      hour, minute, seconds := TwelveHour(hour24), m, s;
      oldPos := cursor;
      cursorAboveWindow, cursorEnterTime := false, 0;
      gripHidden := true;
      gripMarks := new Point[0];
      new;
      AddSizeGrip();
    }

    /** `addSizeGrip`: create the six labels, place them, and hide the grip
        layer. */
    method AddSizeGrip()
      modifies this
      ensures fresh(gripMarks) && gripMarks[..] == GripMarksAt(width)
      ensures gripHidden
      ensures width == old(width) && height == old(height) && size == old(size)
      ensures screenResize == old(screenResize) && Time() == old(Time()) && Drag() == old(Drag())
      ensures cursorAboveWindow == old(cursorAboveWindow) && cursorEnterTime == old(cursorEnterTime)
    {
      gripMarks := new Point[6];
      UpdateSizeGrip();
      gripHidden := true;
    }

    /** `update_sizegrip`: the loop that walks the six marks, swapping x and
        y after each and jumping to (-14, -14) for the last. */
    method UpdateSizeGrip()
      requires gripMarks.Length == 6
      modifies gripMarks
      ensures gripMarks[..] == GripMarksAt(width)
    {
      var x, y := -7, -7;
      for i := 0 to 6
        invariant i < 6 ==> if i % 2 == 0 then x == -7 && y == -7 * (i / 2 + 1)
                                          else x == -7 * (i / 2 + 2) && y == -7
        invariant forall j :: 0 <= j < i ==> gripMarks[j] == GripMarksAt(width)[j]
      {
        if i == 5 {
          x, y := -14, -14;
        }
        gripMarks[i] := Point(width + x, width + y);
        if i % 2 == 0 {
          y := y - 7;
        }
        x, y := y, x;
      }
    }

    /** `update_size`: force the window square on its shorter side. */
    method UpdateSize()
      modifies this
      ensures size == screenResize == SquareSide(old(width), old(height))
      ensures width == size && height == size
      ensures pos == old(pos) && oldPos == old(oldPos) && gripMarks == old(gripMarks)
      ensures Time() == old(Time()) && Grip() == old(Grip())
    {
      screenResize := SquareSide(width, height);
      size := screenResize;
      width, height := size, size;
    }

    /** `resizeEvent`: the toolkit has resized the window to w x h; square it
        and move the grip marks to the new corner. */
    method ResizeEvent(w: int, h: int)
      requires Valid()
      modifies this, gripMarks
      ensures Valid()
      ensures size == SquareSide(w, h)
      ensures gripMarks == old(gripMarks) && gripMarks[..] == GripMarksAt(size)
      ensures pos == old(pos) && oldPos == old(oldPos)
      ensures Time() == old(Time()) && Grip() == old(Grip())
    {
      width, height := w, h;
      UpdateSize();
      UpdateSizeGrip();
    }

    /** `hideSizegrip`, run on every tick with the current second and whether
        the mouse is over the widget. */
    method HideSizegrip(now: int, underMouse: bool)
      requires Valid()
      modifies this
      ensures Valid()
      ensures Grip() == HideStep(old(Grip()), now, underMouse)
      ensures width == old(width) && height == old(height) && size == old(size)
      ensures screenResize == old(screenResize) && gripMarks == old(gripMarks)
      ensures Time() == old(Time()) && Drag() == old(Drag())
    {
      if underMouse {
        cursorEnterTime := now;
        if !cursorAboveWindow {
          cursorAboveWindow := true;
          gripHidden := false;
        }
      } else if now - cursorEnterTime == 5 {
        gripHidden := true;
        cursorAboveWindow := false;
      }
    }

    /** `update_datetime`, given the wall-clock time. */
    method UpdateDateTime(hour24: int, m: int, s: int)
      requires Valid()
      requires 0 <= hour24 < 24 && 0 <= m < 60 && 0 <= s < 60
      modifies this
      ensures Valid()
      ensures Time() == ReadClock(hour24, m, s)
      ensures width == old(width) && height == old(height) && size == old(size)
      ensures screenResize == old(screenResize) && gripMarks == old(gripMarks)
      ensures Grip() == old(Grip()) && Drag() == old(Drag())
    {
      hour := TwelveHour(hour24);
      minute := m;
      seconds := s;
    }

    /** `update_window`: one timer tick. The repaint request is not part of
        the model. */
    method UpdateWindow(now: int, underMouse: bool, hour24: int, m: int, s: int)
      requires Valid()
      requires 0 <= hour24 < 24 && 0 <= m < 60 && 0 <= s < 60
      modifies this
      ensures Valid()
      ensures Grip() == HideStep(old(Grip()), now, underMouse)
      ensures Time() == ReadClock(hour24, m, s)
      ensures size == old(size) && gripMarks == old(gripMarks) && Drag() == old(Drag())
    {
      HideSizegrip(now, underMouse);
      UpdateDateTime(hour24, m, s);
    }

    /** `mousePressEvent`. */
    method MousePressEvent(globalPos: Point)
      requires Valid()
      modifies this
      ensures Valid()
      ensures Drag() == Press(old(Drag()), globalPos)
      ensures width == old(width) && height == old(height) && size == old(size)
      ensures screenResize == old(screenResize) && gripMarks == old(gripMarks)
      ensures Time() == old(Time()) && Grip() == old(Grip())
    {
      oldPos := globalPos;
    }

    /** `mouseMoveEvent`; `gripUnderMouse` is the size grip's hit test. */
    method MouseMoveEvent(globalPos: Point, gripUnderMouse: bool)
      requires Valid()
      modifies this
      ensures Valid()
      ensures Drag() == Move(old(Drag()), globalPos, gripUnderMouse)
      ensures width == old(width) && height == old(height) && size == old(size)
      ensures screenResize == old(screenResize) && gripMarks == old(gripMarks)
      ensures Time() == old(Time()) && Grip() == old(Grip())
    {
      if !gripUnderMouse {
        var delta := Sub(globalPos, oldPos);
        pos := Point(pos.x + delta.x, pos.y + delta.y);
        oldPos := globalPos;
      }
    }
  }
}
