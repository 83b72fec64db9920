/** The carrom physics of the browser client (public/js/games/carrom.js): the board
    layout, the striker's drag-to-shoot input, and one frame of update(): movement,
    friction, wall bounce, pocketing, and pairwise elastic collisions with
    separation. Positions and velocities are reals; cos, sin, atan2 and hypot come
    from a Trig parameter. */
module CarromPhysics {
  import opened Geometry

  datatype Colour = Red | White | Black | Gold

  /** A disc on the board: the striker or a coin. */
  datatype Body = Body(x: real, y: real, vx: real, vy: real, radius: real, mass: real, active: bool, colour: Colour)

  /** The client's game state: the striker, the coins, the drag in progress, and
      whether a shot is being animated. */
  datatype Table = Table(
    striker: Body,
    coins: seq<Body>,
    dragging: bool,
    dragStart: (real, real),
    dragCurrent: (real, real),
    animating: bool)

  const BoardSize: real := 800.0
  const PocketRadius: real := 35.0
  const CoinRadius: real := 14.0
  const StrikerRadius: real := 20.0
  const Friction: real := 0.985
  const WallBounce: real := 0.7
  /** The playing surface runs from 50 to 750 on both axes. */
  const Rail: real := 50.0
  const FarRail: real := 750.0
  /** Below this a velocity component is treated as stopped. */
  const Rest: real := 0.1
  const MaxPower: real := 40.0

  /** The constructor's striker. */
  const InitialStriker: Body := Body(400.0, 660.0, 0.0, 0.0, StrikerRadius, 2.0, true, Gold)

  /** b.mass || 1: a zero mass counts as 1. */
  function EffectiveMass(m: real): (e: real)
    ensures m >= 0.0 ==> e > 0.0
    ensures m != 0.0 ==> e == m
    ensures m == 0.0 ==> e == 1.0
  {
    if m == 0.0 then 1.0 else m
  }

  // ---------------------------------------------------------------- set-up

  /** resetStriker: back to the middle of the baseline, at rest and in play. */
  function ResetStriker(s: Body): (r: Body)
    ensures r.x == BoardSize / 2.0 && r.y == 660.0 && r.vx == 0.0 && r.vy == 0.0 && r.active
    ensures r.radius == s.radius && r.mass == s.mass && r.colour == s.colour
  {
    s.(x := BoardSize / 2.0, y := 660.0, vx := 0.0, vy := 0.0, active := true)
  }

  function RingBody(i: nat, stepDegrees: real, dist: real, colour: Colour, trig: Trig): Body {
    var angle := (i as real * stepDegrees) * trig.pi / 180.0;
    Body(BoardSize / 2.0 + trig.cos(angle) * dist, BoardSize / 2.0 + trig.sin(angle) * dist,
         0.0, 0.0, CoinRadius, 1.0, true, colour)
  }

  function InnerColour(i: nat): Colour {
    if i % 2 == 0 then White else Black
  }

  function OuterColour(i: nat): Colour {
    if i % 3 != 2 then White else Black
  }

  function InnerColours(): seq<Colour> {
    seq(6, i requires 0 <= i < 6 => InnerColour(i))
  }

  function OuterColours(): seq<Colour> {
    seq(12, i requires 0 <= i < 12 => OuterColour(i))
  }

  /** setupBoard: the queen at the centre, six coins 2.1 coin radii out at 60-degree
      steps, twelve 4.1 coin radii out at 30-degree steps, and the striker reset. */
  function SetupBoard(t: Table, trig: Trig): (r: Table)
    ensures |r.coins| == 19
    ensures forall k :: 0 <= k < 19 ==>
              r.coins[k].active && r.coins[k].mass == 1.0 && r.coins[k].radius == CoinRadius
              && r.coins[k].vx == 0.0 && r.coins[k].vy == 0.0
    ensures r.coins[0] == Body(400.0, 400.0, 0.0, 0.0, CoinRadius, 1.0, true, Red)
    ensures r.striker == ResetStriker(t.striker)
    ensures r == t.(coins := r.coins, striker := r.striker)
  {
    var centre := BoardSize / 2.0;
    var coins := [Body(centre, centre, 0.0, 0.0, CoinRadius, 1.0, true, Red)]
      + seq(6, i requires 0 <= i < 6 => RingBody(i, 60.0, CoinRadius * 2.1, InnerColour(i), trig))
      + seq(12, i requires 0 <= i < 12 => RingBody(i, 30.0, CoinRadius * 4.1, OuterColour(i), trig));
    t.(coins := coins, striker := ResetStriker(t.striker))
  }

  function Colours(bs: seq<Body>): seq<Colour> {
    seq(|bs|, k requires 0 <= k < |bs| => bs[k].colour)
  }

  lemma SetupColoursLayered(t: Table, trig: Trig)
    ensures Colours(SetupBoard(t, trig).coins)
         == [Red] + InnerColours() + OuterColours()
  {
  }

  lemma LayoutColourCounts()
    ensures var m := multiset([Red] + InnerColours() + OuterColours());
      m[Red] == 1 && m[White] == 11 && m[Black] == 7 && m[Gold] == 0
  {
    var W, K := White, Black;
    var triple := [W, W, K];
    assert InnerColours() == [W, K] + [W, K] + [W, K];
    assert OuterColours() == triple + triple + triple + triple;
    assert multiset([W, K]) == multiset{W, K};
    assert multiset(triple) == multiset{W, W, K};
    assert multiset([Red] + InnerColours() + OuterColours())
        == multiset{Red} + multiset{W, K} + multiset{W, K} + multiset{W, K}
           + multiset{W, W, K} + multiset{W, W, K} + multiset{W, W, K} + multiset{W, W, K};
  }

  /** The client's layout has exactly one red coin, the queen, with eleven white and
      seven black coins around it. */
  lemma SetupColours(t: Table, trig: Trig)
    ensures var m := multiset(Colours(SetupBoard(t, trig).coins));
      m[Red] == 1 && m[White] == 11 && m[Black] == 7 && m[Gold] == 0
  {
    SetupColoursLayered(t, trig);
    LayoutColourCounts();
  }

  // ---------------------------------------------------------------- input

  /** handleDragStart: ignored while the striker is out of play or a shot is running;
      a press within two striker radii starts a drag; any other press inside the
      baseline band moves the striker along it, clamped to [100, 700]. */
  function DragStart(t: Table, pos: (real, real), trig: Trig): (r: Table)
    ensures !t.striker.active || t.animating ==> r == t
    ensures r.coins == t.coins && r.animating == t.animating
    ensures r.striker.x != t.striker.x ==> r.dragging == t.dragging && 620.0 < pos.1 < 700.0
    ensures r.striker == t.striker || 100.0 <= r.striker.x <= 700.0
    ensures r.striker.x != t.striker.x ==> r.striker.x == Max(100.0, Min(700.0, pos.0))
    ensures r.striker.y == t.striker.y && r.striker.vx == t.striker.vx && r.striker.vy == t.striker.vy
    ensures t.striker.active && !t.animating && trig.hypot(pos.0 - t.striker.x, pos.1 - t.striker.y) < t.striker.radius * 2.0 ==>
              r == t.(dragging := true, dragStart := pos, dragCurrent := pos)
    ensures t.striker.active && !t.animating && !(trig.hypot(pos.0 - t.striker.x, pos.1 - t.striker.y) < t.striker.radius * 2.0) ==>
              r == (if 620.0 < pos.1 < 700.0 then t.(striker := t.striker.(x := Max(100.0, Min(700.0, pos.0)))) else t)
  {
    if !t.striker.active || t.animating then t
    else if trig.hypot(pos.0 - t.striker.x, pos.1 - t.striker.y) < t.striker.radius * 2.0 then
      t.(dragging := true, dragStart := pos, dragCurrent := pos)
    else if 620.0 < pos.1 < 700.0 then
      t.(striker := t.striker.(x := Max(100.0, Min(700.0, pos.0))))
    else t
  }

  /** handleDragMove: follows the mouse while dragging. */
  function DragMove(t: Table, pos: (real, real)): (r: Table)
    ensures t.dragging ==> r == t.(dragCurrent := pos)
    ensures !t.dragging ==> r == t
  {
    if t.dragging then t.(dragCurrent := pos) else t
  }

  /** The power of a release after a drag of length dist. */
  function ShotPower(dist: real): (p: real)
    ensures p <= MaxPower
    ensures dist > 10.0 ==> p > 1.5
    ensures dist * 0.15 <= MaxPower ==> p == dist * 0.15
    ensures dist * 0.15 > MaxPower ==> p == MaxPower
  {
    Min(dist * 0.15, MaxPower)
  }

  /** handleDragEnd: a drag longer than 10 launches the striker away from the pull,
      with power 0.15 per unit of drag, capped at 40, and starts the animation. */
  function DragEnd(t: Table, trig: Trig): (r: Table)
    ensures !r.dragging && r.coins == t.coins
    ensures !t.dragging ==> r == t
    ensures r.animating != t.animating ==>
              t.dragging && trig.hypot(t.dragStart.0 - t.dragCurrent.0, t.dragStart.1 - t.dragCurrent.1) > 10.0
    ensures var dx, dy := t.dragStart.0 - t.dragCurrent.0, t.dragStart.1 - t.dragCurrent.1;
      var d, a := trig.hypot(dx, dy), trig.atan2(dy, dx);
      && (t.dragging && d > 10.0 ==>
            r == t.(dragging := false, animating := true,
                    striker := t.striker.(vx := trig.cos(a) * ShotPower(d), vy := trig.sin(a) * ShotPower(d))))
      && (t.dragging && !(d > 10.0) ==> r == t.(dragging := false))
  {
    if !t.dragging then t
    else
      var dx := t.dragStart.0 - t.dragCurrent.0;
      var dy := t.dragStart.1 - t.dragCurrent.1;
      var dist := trig.hypot(dx, dy);
      if dist > 10.0 then
        var power := ShotPower(dist);
        var angle := trig.atan2(dy, dx);
        t.(dragging := false, striker := t.striker.(vx := trig.cos(angle) * power, vy := trig.sin(angle) * power), animating := true)
      else t.(dragging := false)
  }

  /** A launched striker moves with speed equal to the power, so never faster than 40. */
  lemma LaunchSpeed(t: Table, trig: Trig)
    requires UnitCircle(trig) && t.dragging
    requires trig.hypot(t.dragStart.0 - t.dragCurrent.0, t.dragStart.1 - t.dragCurrent.1) > 10.0
    ensures var s := DragEnd(t, trig).striker;
      var p := ShotPower(trig.hypot(t.dragStart.0 - t.dragCurrent.0, t.dragStart.1 - t.dragCurrent.1));
      s.vx * s.vx + s.vy * s.vy == p * p && p * p <= MaxPower * MaxPower
  {
    var dist := trig.hypot(t.dragStart.0 - t.dragCurrent.0, t.dragStart.1 - t.dragCurrent.1);
    var a := trig.atan2(t.dragStart.1 - t.dragCurrent.1, t.dragStart.0 - t.dragCurrent.0);
    var p := ShotPower(dist);
    var co, si := trig.cos(a), trig.sin(a);
    assert co * co + si * si == 1.0;
    assert (co * p) * (co * p) + (si * p) * (si * p) == (co * co + si * si) * (p * p);
    assert 0.0 < p <= MaxPower;
    assert p * p <= MaxPower * p <= MaxPower * MaxPower;
  }

  // ---------------------------------------------------------------- one body

  /** A body takes part in the movement pass when either velocity component exceeds 0.1. */
  predicate Moving(b: Body) {
    Abs(b.vx) > Rest || Abs(b.vy) > Rest
  }

  /** Friction on one velocity component: scaled by 0.985, then zeroed below 0.1. */
  function Damp(v: real): (w: real)
    ensures Abs(w) <= Abs(v)
    ensures w == 0.0 || w == v * Friction
    ensures w != 0.0 ==> Abs(w) >= Rest
    ensures Abs(v * Friction) >= Rest ==> w == v * Friction
    ensures Abs(v * Friction) < Rest ==> w == 0.0
  {
    var scaled := v * Friction;
    if Abs(scaled) < Rest then 0.0 else scaled
  }

  /** The four wall checks, in the order x-low, x-high, y-low, y-high. A body that
      crosses a rail is put back against it and its velocity component is reversed
      and scaled by 0.7. */
  function Walls(b: Body): (r: Body)
    ensures Abs(r.vx) <= Abs(b.vx) && Abs(r.vy) <= Abs(b.vy)
    ensures r.radius == b.radius && r.mass == b.mass && r.active == b.active && r.colour == b.colour
    ensures b.radius <= 350.0 ==>
              Rail + b.radius <= r.x <= FarRail - b.radius && Rail + b.radius <= r.y <= FarRail - b.radius
    ensures Rail + b.radius <= b.x <= FarRail - b.radius && Rail + b.radius <= b.y <= FarRail - b.radius ==> r == b
    ensures b.radius <= 350.0 ==>
      && r.x == (if b.x - b.radius < Rail then Rail + b.radius else if b.x + b.radius > FarRail then FarRail - b.radius else b.x)
      && r.vx == (if b.x - b.radius < Rail || b.x + b.radius > FarRail then b.vx * -WallBounce else b.vx)
      && r.y == (if b.y - b.radius < Rail then Rail + b.radius else if b.y + b.radius > FarRail then FarRail - b.radius else b.y)
      && r.vy == (if b.y - b.radius < Rail || b.y + b.radius > FarRail then b.vy * -WallBounce else b.vy)
  {
    var rad := b.radius;
    var b1 := if b.x - rad < Rail then b.(x := Rail + rad, vx := b.vx * -WallBounce) else b;
    var b2 := if b1.x + rad > FarRail then b1.(x := FarRail - rad, vx := b1.vx * -WallBounce) else b1;
    var b3 := if b2.y - rad < Rail then b2.(y := Rail + rad, vy := b2.vy * -WallBounce) else b2;
    if b3.y + rad > FarRail then b3.(y := FarRail - rad, vy := b3.vy * -WallBounce) else b3
  }

  /** One pocket of the pocket pass: a body whose centre is within the pocket radius
      is pocketed. The striker is a foul and goes back to the baseline; a coin leaves
      play where it is. */
  function PocketCheck(b: Body, isStriker: bool, pocket: (real, real), trig: Trig): (r: Body)
    ensures r.radius == b.radius && r.mass == b.mass && r.colour == b.colour
    ensures !(trig.hypot(b.x - pocket.0, b.y - pocket.1) < PocketRadius) ==> r == b
    ensures trig.hypot(b.x - pocket.0, b.y - pocket.1) < PocketRadius ==>
              (isStriker ==> r == ResetStriker(b)) && (!isStriker ==> r == b.(active := false))
  {
    if trig.hypot(b.x - pocket.0, b.y - pocket.1) < PocketRadius then
      if isStriker then ResetStriker(b) else b.(active := false)
    else b
  }

  /** The pocket pass over the four corners, in order. */
  function PocketPass(b: Body, isStriker: bool, trig: Trig): Body {
    var b1 := PocketCheck(b, isStriker, Pockets[0], trig);
    var b2 := PocketCheck(b1, isStriker, Pockets[1], trig);
    var b3 := PocketCheck(b2, isStriker, Pockets[2], trig);
    PocketCheck(b3, isStriker, Pockets[3], trig)
  }

  /** The pocket pass never speeds a body up or changes what it is; the striker is
      never taken out of play, and a coin that is pocketed stays where it was. */
  lemma PocketPassFacts(b: Body, isStriker: bool, trig: Trig)
    ensures var r := PocketPass(b, isStriker, trig);
      && Abs(r.vx) <= Abs(b.vx) && Abs(r.vy) <= Abs(b.vy)
      && r.radius == b.radius && r.mass == b.mass && r.colour == b.colour
      && (isStriker && b.active ==> r.active)
      && (!isStriker ==> r == b || r == b.(active := false))
  {
  }

  /** The body of entities.forEach in update(): a body at rest is left alone;
      otherwise it moves by v * dt, slows, bounces off the rails and may be pocketed. */
  function StepBody(b: Body, isStriker: bool, dt: real, trig: Trig): (r: Body)
    ensures !Moving(b) ==> r == b
    ensures r.radius == b.radius && r.mass == b.mass && r.colour == b.colour
  {
    if !Moving(b) then b
    else
      var moved := b.(x := b.x + b.vx * dt, y := b.y + b.vy * dt);
      var damped := moved.(vx := Damp(moved.vx), vy := Damp(moved.vy));
      PocketPass(Walls(damped), isStriker, trig)
  }

  /** Friction, walls and pockets never make a body faster along either axis. */
  lemma StepNeverSpeedsUp(b: Body, isStriker: bool, dt: real, trig: Trig)
    ensures Abs(StepBody(b, isStriker, dt, trig).vx) <= Abs(b.vx)
    ensures Abs(StepBody(b, isStriker, dt, trig).vy) <= Abs(b.vy)
  {
    if Moving(b) {
      var moved := b.(x := b.x + b.vx * dt, y := b.y + b.vy * dt);
      var damped := moved.(vx := Damp(moved.vx), vy := Damp(moved.vy));
      PocketPassFacts(Walls(damped), isStriker, trig);
    }
  }

  /** The striker never leaves play during its own step: a foul puts it back on the
      baseline instead. */
  lemma StepPocketing(b: Body, isStriker: bool, dt: real, trig: Trig)
    requires b.active
    ensures isStriker ==> StepBody(b, isStriker, dt, trig).active
  {
    if Moving(b) {
      var moved := b.(x := b.x + b.vx * dt, y := b.y + b.vy * dt);
      var damped := moved.(vx := Damp(moved.vx), vy := Damp(moved.vy));
      PocketPassFacts(Walls(damped), isStriker, trig);
    }
  }

  // ---------------------------------------------------------------- collisions

  /** The one-dimensional elastic exchange along the line of centres. */
  function Exchange(m1: real, m2: real, v1: real, v2: real): (u: (real, real))
    requires m1 + m2 != 0.0
    ensures m1 * u.0 + m2 * u.1 == m1 * v1 + m2 * v2
    ensures u.0 - u.1 == v2 - v1
  {
    var u1 := ((m1 - m2) * v1 + 2.0 * m2 * v2) / (m1 + m2);
    var u2 := ((m2 - m1) * v2 + 2.0 * m1 * v1) / (m1 + m2);
    assert (m1 + m2) * u1 == (m1 - m2) * v1 + 2.0 * m2 * v2;
    assert (m1 + m2) * u2 == (m2 - m1) * v2 + 2.0 * m1 * v1;
    assert (m1 + m2) * (m1 * u1 + m2 * u2) == (m1 + m2) * (m1 * v1 + m2 * v2);
    assert (m1 + m2) * (u1 - u2) == (m1 + m2) * (v2 - v1);
    (u1, u2)
  }

  /** Equal masses simply swap their velocities along the line of centres. */
  lemma EqualMassesSwap(m: real, v1: real, v2: real)
    requires m > 0.0
    ensures Exchange(m, m, v1, v2) == (v2, v1)
  {
    var u := Exchange(m, m, v1, v2);
    assert m * (u.0 + u.1) == m * (v1 + v2);
    Cancel(m, u.0 + u.1, v1 + v2);
  }

  lemma Cancel(m: real, a: real, b: real)
    requires m != 0.0 && m * a == m * b
    ensures a == b
  {
    assert m * (a - b) == 0.0;
  }

  /** The exchange conserves kinetic energy as well as momentum. */
  lemma ExchangeConservesEnergy(m1: real, m2: real, v1: real, v2: real)
    requires m1 + m2 != 0.0
    ensures var (u1, u2) := Exchange(m1, m2, v1, v2);
      m1 * u1 * u1 + m2 * u2 * u2 == m1 * v1 * v1 + m2 * v2 * v2
  {
    var (u1, u2) := Exchange(m1, m2, v1, v2);
    assert m1 * (u1 - v1) == -(m2 * (u2 - v2));
    assert u1 + v1 == u2 + v2;
    calc {
      m1 * u1 * u1 + m2 * u2 * u2 - (m1 * v1 * v1 + m2 * v2 * v2);
      m1 * (u1 - v1) * (u1 + v1) + m2 * (u2 - v2) * (u2 + v2);
      m1 * (u1 - v1) * (u2 + v2) + m2 * (u2 - v2) * (u2 + v2);
      (m1 * (u1 - v1) + m2 * (u2 - v2)) * (u2 + v2);
      0.0;
    }
  }

  /** A velocity, or a momentum, on the board's axes or in a rotated frame. */
  datatype Vec = Vec(x: real, y: real)

  function Velocity(b: Body): Vec {
    Vec(b.vx, b.vy)
  }

  /** A velocity expressed in the frame whose x axis has direction (c, s). */
  function Rotate(v: Vec, c: real, s: real): Vec {
    Vec(v.x * c + v.y * s, v.y * c - v.x * s)
  }

  /** A frame velocity expressed back on the board's axes. */
  function Unrotate(f: Vec, c: real, s: real): Vec {
    Vec(f.x * c - f.y * s, f.y * c + f.x * s)
  }

  /** m1 v1 + m2 v2. */
  function Combine(m1: real, v1: Vec, m2: real, v2: Vec): Vec {
    Vec(m1 * v1.x + m2 * v2.x, m1 * v1.y + m2 * v2.y)
  }

  /** Multiplying both sides of x == a + b by m, with the product spread over the sum. */
  lemma Scale(m: real, x: real, a: real, b: real)
    requires x == a + b
    ensures m * x == m * a + m * b
  {
  }

  /** One axis of the linearity of a rotation: a mass-weighted sum of rotated
      components is the rotated mass-weighted sum. */
  lemma {:induction false} WeightedTurn(m1: real, m2: real, a1: real, b1: real, a2: real, b2: real,
                                        c: real, s: real, r1: real, r2: real, pa: real, pb: real)
    requires r1 == a1 * c + b1 * s && r2 == a2 * c + b2 * s
    requires pa == m1 * a1 + m2 * a2 && pb == m1 * b1 + m2 * b2
    ensures m1 * r1 + m2 * r2 == pa * c + pb * s
  {
    Scale(m1, r1, a1 * c, b1 * s);
    Scale(m2, r2, a2 * c, b2 * s);
    Scale(c, pa, m1 * a1, m2 * a2);
    Scale(s, pb, m1 * b1, m2 * b2);
  }

  /** The same with the second component subtracted. */
  lemma {:induction false} WeightedTurnBack(m1: real, m2: real, a1: real, b1: real, a2: real, b2: real,
                                            c: real, s: real, r1: real, r2: real, pa: real, pb: real)
    requires r1 == a1 * c - b1 * s && r2 == a2 * c - b2 * s
    requires pa == m1 * a1 + m2 * a2 && pb == m1 * b1 + m2 * b2
    ensures m1 * r1 + m2 * r2 == pa * c - pb * s
  {
    Scale(m1, r1, a1 * c, -(b1 * s));
    Scale(m2, r2, a2 * c, -(b2 * s));
    Scale(c, pa, m1 * a1, m2 * a2);
    Scale(s, pb, m1 * b1, m2 * b2);
  }

  /** The components of a rotation and of a weighted sum, as separate facts. */
  lemma RotateParts(v: Vec, c: real, s: real)
    ensures Rotate(v, c, s).x == v.x * c + v.y * s && Rotate(v, c, s).y == v.y * c - v.x * s
  {
  }

  lemma UnrotateParts(f: Vec, c: real, s: real)
    ensures Unrotate(f, c, s).x == f.x * c - f.y * s && Unrotate(f, c, s).y == f.y * c + f.x * s
  {
  }

  lemma CombineParts(m1: real, v1: Vec, m2: real, v2: Vec)
    ensures Combine(m1, v1, m2, v2).x == m1 * v1.x + m2 * v2.x
    ensures Combine(m1, v1, m2, v2).y == m1 * v1.y + m2 * v2.y
  {
  }

  lemma RotateLinear(m1: real, v1: Vec, m2: real, v2: Vec, c: real, s: real)
    ensures Combine(m1, Rotate(v1, c, s), m2, Rotate(v2, c, s)) == Rotate(Combine(m1, v1, m2, v2), c, s)
  {
    var r1, r2, p := Rotate(v1, c, s), Rotate(v2, c, s), Combine(m1, v1, m2, v2);
    RotateParts(v1, c, s);
    RotateParts(v2, c, s);
    RotateParts(p, c, s);
    CombineParts(m1, v1, m2, v2);
    CombineParts(m1, r1, m2, r2);
    WeightedTurn(m1, m2, v1.x, v1.y, v2.x, v2.y, c, s, r1.x, r2.x, p.x, p.y);
    WeightedTurnBack(m1, m2, v1.y, v1.x, v2.y, v2.x, c, s, r1.y, r2.y, p.y, p.x);
  }

  lemma UnrotateLinear(m1: real, f1: Vec, m2: real, f2: Vec, c: real, s: real)
    ensures Combine(m1, Unrotate(f1, c, s), m2, Unrotate(f2, c, s)) == Unrotate(Combine(m1, f1, m2, f2), c, s)
  {
    var r1, r2, p := Unrotate(f1, c, s), Unrotate(f2, c, s), Combine(m1, f1, m2, f2);
    UnrotateParts(f1, c, s);
    UnrotateParts(f2, c, s);
    UnrotateParts(p, c, s);
    CombineParts(m1, f1, m2, f2);
    CombineParts(m1, r1, m2, r2);
    WeightedTurnBack(m1, m2, f1.x, f1.y, f2.x, f2.y, c, s, r1.x, r2.x, p.x, p.y);
    WeightedTurn(m1, m2, f1.y, f1.x, f2.y, f2.x, c, s, r1.y, r2.y, p.y, p.x);
  }

  /** Rotating into a frame and back is the identity when cos^2 + sin^2 = 1. */
  lemma RotateRoundTrip(v: Vec, c: real, s: real)
    requires c * c + s * s == 1.0
    ensures Unrotate(Rotate(v, c, s), c, s) == v
  {
    var x, y := v.x, v.y;
    var f := Rotate(v, c, s);
    var r := Unrotate(f, c, s);
    assert f.x == x * c + y * s && f.y == y * c - x * s;
    assert r.x == f.x * c - f.y * s && r.y == f.y * c + f.x * s;
    assert r.x == (c * c + s * s) * x;
    assert r.y == (c * c + s * s) * y;
    assert r.x == x && r.y == y;
  }

  /** Rotating back out of a frame and into it again is the identity as well. */
  lemma UnrotateRoundTrip(f: Vec, c: real, s: real)
    requires c * c + s * s == 1.0
    ensures Rotate(Unrotate(f, c, s), c, s) == f
  {
    var x, y := f.x, f.y;
    var v := Unrotate(f, c, s);
    var r := Rotate(v, c, s);
    assert v.x == x * c - y * s && v.y == y * c + x * s;
    assert r.x == v.x * c + v.y * s && r.y == v.y * c - v.x * s;
    assert r.x == (c * c + s * s) * x;
    assert r.y == (c * c + s * s) * y;
    assert r.x == x && r.y == y;
  }

  /** The velocity response of a colliding pair: rotate both velocities into the frame
      of the line of centres, exchange the components along it, rotate back. */
  function Respond(b1: Body, b2: Body, c: real, s: real): (r: (Body, Body))
    requires EffectiveMass(b1.mass) + EffectiveMass(b2.mass) != 0.0
    ensures r.0 == b1.(vx := r.0.vx, vy := r.0.vy) && r.1 == b2.(vx := r.1.vx, vy := r.1.vy)
  {
    var f1 := Rotate(Velocity(b1), c, s);
    var f2 := Rotate(Velocity(b2), c, s);
    var (e1, e2) := Exchange(EffectiveMass(b1.mass), EffectiveMass(b2.mass), f1.x, f2.x);
    var w1 := Unrotate(Vec(e1, f1.y), c, s);
    var w2 := Unrotate(Vec(e2, f2.y), c, s);
    (b1.(vx := w1.x, vy := w1.y), b2.(vx := w2.x, vy := w2.y))
  }

  /** The exchange along the frame's x axis leaves the frame's y components alone,
      so it conserves the pair's frame momentum on both axes. */
  lemma ExchangeCombine(m1: real, f1: Vec, m2: real, f2: Vec)
    requires m1 + m2 != 0.0
    ensures var u := Exchange(m1, m2, f1.x, f2.x);
      Combine(m1, Vec(u.0, f1.y), m2, Vec(u.1, f2.y)) == Combine(m1, f1, m2, f2)
  {
    var u := Exchange(m1, m2, f1.x, f2.x);
    var after, before := Combine(m1, Vec(u.0, f1.y), m2, Vec(u.1, f2.y)), Combine(m1, f1, m2, f2);
    assert after.x == m1 * u.0 + m2 * u.1 && after.y == m1 * f1.y + m2 * f2.y;
    assert before.x == m1 * f1.x + m2 * f2.x && before.y == m1 * f1.y + m2 * f2.y;
    assert m1 * u.0 + m2 * u.1 == m1 * f1.x + m2 * f2.x;
    assert after.x == before.x && after.y == before.y;
  }

  /** Rotate, exchange, rotate back: the pair's momentum on the board is unchanged. */
  lemma PairResponseMomentum(m1: real, v1: Vec, m2: real, v2: Vec, c: real, s: real)
    requires m1 + m2 != 0.0 && c * c + s * s == 1.0
    ensures var f1, f2 := Rotate(v1, c, s), Rotate(v2, c, s);
      var u := Exchange(m1, m2, f1.x, f2.x);
      Combine(m1, Unrotate(Vec(u.0, f1.y), c, s), m2, Unrotate(Vec(u.1, f2.y), c, s)) == Combine(m1, v1, m2, v2)
  {
    var f1, f2 := Rotate(v1, c, s), Rotate(v2, c, s);
    var u := Exchange(m1, m2, f1.x, f2.x);
    calc {
      Combine(m1, Unrotate(Vec(u.0, f1.y), c, s), m2, Unrotate(Vec(u.1, f2.y), c, s));
      { UnrotateLinear(m1, Vec(u.0, f1.y), m2, Vec(u.1, f2.y), c, s); }
      Unrotate(Combine(m1, Vec(u.0, f1.y), m2, Vec(u.1, f2.y)), c, s);
      { ExchangeCombine(m1, f1, m2, f2); }
      Unrotate(Combine(m1, f1, m2, f2), c, s);
      { RotateLinear(m1, v1, m2, v2, c, s); }
      Unrotate(Rotate(Combine(m1, v1, m2, v2), c, s), c, s);
      { RotateRoundTrip(Combine(m1, v1, m2, v2), c, s); }
      Combine(m1, v1, m2, v2);
    }
  }

  /** With cos^2 + sin^2 = 1 the response conserves the pair's momentum on both axes. */
  lemma RespondConservesMomentum(b1: Body, b2: Body, c: real, s: real)
    requires EffectiveMass(b1.mass) + EffectiveMass(b2.mass) != 0.0
    requires c * c + s * s == 1.0
    ensures var (a1, a2) := Respond(b1, b2, c, s);
      Combine(EffectiveMass(b1.mass), Velocity(a1), EffectiveMass(b2.mass), Velocity(a2))
        == Combine(EffectiveMass(b1.mass), Velocity(b1), EffectiveMass(b2.mass), Velocity(b2))
  {
    PairResponseMomentum(EffectiveMass(b1.mass), Velocity(b1), EffectiveMass(b2.mass), Velocity(b2), c, s);
  }

  /** The response is an elastic collision along the line of centres: in the frame of
      that line the components across it are kept, and the relative velocity along it
      is reversed. */
  lemma RespondElastic(b1: Body, b2: Body, c: real, s: real)
    requires EffectiveMass(b1.mass) + EffectiveMass(b2.mass) != 0.0
    requires c * c + s * s == 1.0
    ensures var (a1, a2) := Respond(b1, b2, c, s);
      var f1, f2 := Rotate(Velocity(b1), c, s), Rotate(Velocity(b2), c, s);
      var g1, g2 := Rotate(Velocity(a1), c, s), Rotate(Velocity(a2), c, s);
      g1.x - g2.x == f2.x - f1.x && g1.y == f1.y && g2.y == f2.y
  {
    var f1, f2 := Rotate(Velocity(b1), c, s), Rotate(Velocity(b2), c, s);
    var (e1, e2) := Exchange(EffectiveMass(b1.mass), EffectiveMass(b2.mass), f1.x, f2.x);
    var (a1, a2) := Respond(b1, b2, c, s);
    assert Velocity(a1) == Unrotate(Vec(e1, f1.y), c, s);
    assert Velocity(a2) == Unrotate(Vec(e2, f2.y), c, s);
    UnrotateRoundTrip(Vec(e1, f1.y), c, s);
    UnrotateRoundTrip(Vec(e2, f2.y), c, s);
  }

  /** The separation push: the overlap plus one unit, split between the two bodies
      in inverse proportion to their masses. */
  function Separate(b1: Body, b2: Body, overlap: real, c: real, s: real): (r: (Body, Body))
    requires EffectiveMass(b1.mass) + EffectiveMass(b2.mass) != 0.0
    ensures r.0 == b1.(x := r.0.x, y := r.0.y) && r.1 == b2.(x := r.1.x, y := r.1.y)
    ensures var m1, m2 := EffectiveMass(b1.mass), EffectiveMass(b2.mass);
      && m1 * (r.0.x - b1.x) + m2 * (r.1.x - b2.x) == 0.0
      && m1 * (r.0.y - b1.y) + m2 * (r.1.y - b2.y) == 0.0
      && (r.1.x - b2.x) - (r.0.x - b1.x) == overlap * c
      && (r.1.y - b2.y) - (r.0.y - b1.y) == overlap * s
  {
    var m1, m2 := EffectiveMass(b1.mass), EffectiveMass(b2.mass);
    var ax, ay := overlap * c, overlap * s;
    var total := m1 + m2;
    assert m2 / total + m1 / total == 1.0;
    assert m1 * (m2 / total) == m2 * (m1 / total);
    (b1.(x := b1.x - ax * (m2 / total), y := b1.y - ay * (m2 / total)),
     b2.(x := b2.x + ax * (m1 / total), y := b2.y + ay * (m1 / total)))
  }

  /** The heavier body of a pair is pushed the shorter distance. */
  lemma HeavierMovesLess(m1: real, m2: real)
    requires m1 > m2 > 0.0
    ensures m2 / (m1 + m2) < m1 / (m1 + m2)
    ensures m2 / (m1 + m2) + m1 / (m1 + m2) == 1.0
  {
  }

  /** One pair of the collision loop: when the centres are closer than the sum of the
      radii the pair exchanges velocities and is pushed apart. */
  function Interact(b1: Body, b2: Body, trig: Trig): (r: (Body, Body))
    requires b1.mass >= 0.0 && b2.mass >= 0.0
    ensures r.0.mass == b1.mass && r.1.mass == b2.mass && r.0.active == b1.active && r.1.active == b2.active
    ensures r.0.radius == b1.radius && r.1.radius == b2.radius && r.0.colour == b1.colour && r.1.colour == b2.colour
    ensures !(trig.hypot(b2.x - b1.x, b2.y - b1.y) < b1.radius + b2.radius) ==> r == (b1, b2)
  {
    var dx, dy := b2.x - b1.x, b2.y - b1.y;
    var dist := trig.hypot(dx, dy);
    var minDist := b1.radius + b2.radius;
    if dist < minDist then
      var angle := trig.atan2(dy, dx);
      var (v1, v2) := Respond(b1, b2, trig.cos(angle), trig.sin(angle));
      Separate(v1, v2, (minDist - dist) + 1.0, trig.cos(angle), trig.sin(angle))
    else (b1, b2)
  }

  /** The direction of the line of centres of a pair, as Interact computes it. */
  function LineOfCentres(b1: Body, b2: Body, trig: Trig): (real, real) {
    var angle := trig.atan2(b2.y - b1.y, b2.x - b1.x);
    (trig.cos(angle), trig.sin(angle))
  }

  /** A touching pair really collides: in the frame of the line of centres the relative
      velocity along the line is reversed and the components across it are kept. */
  lemma InteractTouching(b1: Body, b2: Body, trig: Trig)
    requires UnitCircle(trig) && b1.mass >= 0.0 && b2.mass >= 0.0
    requires trig.hypot(b2.x - b1.x, b2.y - b1.y) < b1.radius + b2.radius
    ensures var (c, s) := LineOfCentres(b1, b2, trig);
      var r := Interact(b1, b2, trig);
      var f1, f2 := Rotate(Velocity(b1), c, s), Rotate(Velocity(b2), c, s);
      var g1, g2 := Rotate(Velocity(r.0), c, s), Rotate(Velocity(r.1), c, s);
      g1.x - g2.x == f2.x - f1.x && g1.y == f1.y && g2.y == f2.y
  {
    var (c, s) := LineOfCentres(b1, b2, trig);
    assert c * c + s * s == 1.0;
    RespondElastic(b1, b2, c, s);
    var v := Respond(b1, b2, c, s);
    var overlap := (b1.radius + b2.radius - trig.hypot(b2.x - b1.x, b2.y - b1.y)) + 1.0;
    var r := Separate(v.0, v.1, overlap, c, s);
    assert Interact(b1, b2, trig) == r;
    assert Velocity(r.0) == Velocity(v.0) && Velocity(r.1) == Velocity(v.1);
  }

  /** A touching pair is pushed apart along the line of centres by the overlap plus
      one, with the mass-weighted sum of the two displacements zero. */
  lemma InteractPushesApart(b1: Body, b2: Body, trig: Trig)
    requires b1.mass >= 0.0 && b2.mass >= 0.0
    requires trig.hypot(b2.x - b1.x, b2.y - b1.y) < b1.radius + b2.radius
    ensures var (c, s) := LineOfCentres(b1, b2, trig);
      var overlap := (b1.radius + b2.radius - trig.hypot(b2.x - b1.x, b2.y - b1.y)) + 1.0;
      var m1, m2 := EffectiveMass(b1.mass), EffectiveMass(b2.mass);
      var r := Interact(b1, b2, trig);
      && (r.1.x - b2.x) - (r.0.x - b1.x) == overlap * c
      && (r.1.y - b2.y) - (r.0.y - b1.y) == overlap * s
      && m1 * (r.0.x - b1.x) + m2 * (r.1.x - b2.x) == 0.0
      && m1 * (r.0.y - b1.y) + m2 * (r.1.y - b2.y) == 0.0
  {
    var (c, s) := LineOfCentres(b1, b2, trig);
    var v := Respond(b1, b2, c, s);
    var overlap := (b1.radius + b2.radius - trig.hypot(b2.x - b1.x, b2.y - b1.y)) + 1.0;
    assert Interact(b1, b2, trig) == Separate(v.0, v.1, overlap, c, s);
    assert v.0.x == b1.x && v.0.y == b1.y && v.1.x == b2.x && v.1.y == b2.y;
    assert v.0.mass == b1.mass && v.1.mass == b2.mass;
  }

  /** Whatever the geometry, a pair interaction conserves the pair's momentum. */
  lemma InteractConservesMomentum(b1: Body, b2: Body, trig: Trig)
    requires UnitCircle(trig) && b1.mass >= 0.0 && b2.mass >= 0.0
    ensures var (a1, a2) := Interact(b1, b2, trig);
      Combine(EffectiveMass(b1.mass), Velocity(a1), EffectiveMass(b2.mass), Velocity(a2))
        == Combine(EffectiveMass(b1.mass), Velocity(b1), EffectiveMass(b2.mass), Velocity(b2))
  {
    var dx, dy := b2.x - b1.x, b2.y - b1.y;
    var angle := trig.atan2(dy, dx);
    var c, s := trig.cos(angle), trig.sin(angle);
    assert c * c + s * s == 1.0;
    RespondConservesMomentum(b1, b2, c, s);
  }

  // ---------------------------------------------------------------- a frame

  /** Two body lists that differ at most in positions and velocities. */
  predicate SameBodies(a: seq<Body>, b: seq<Body>) {
    |a| == |b| && forall k :: 0 <= k < |a| ==>
      a[k].mass == b[k].mass && a[k].radius == b[k].radius && a[k].active == b[k].active && a[k].colour == b[k].colour
  }

  predicate NonNegativeMasses(es: seq<Body>) {
    forall k :: 0 <= k < |es| ==> es[k].mass >= 0.0
  }

  /** A body's momentum, with the mass as the collision code reads it. */
  function Impulse(b: Body): Vec {
    Vec(EffectiveMass(b.mass) * b.vx, EffectiveMass(b.mass) * b.vy)
  }

  /** Total momentum of a list of bodies. */
  function Momentum(es: seq<Body>): Vec {
    if |es| == 0 then Vec(0.0, 0.0)
    else
      var rest := Momentum(es[1..]);
      Vec(Impulse(es[0]).x + rest.x, Impulse(es[0]).y + rest.y)
  }

  /** Replacing one body changes the total by the difference of the two impulses. */
  lemma {:induction false} MomentumUpdate(es: seq<Body>, k: nat, b: Body)
    requires k < |es|
    ensures Momentum(es[k := b]).x == Momentum(es).x - Impulse(es[k]).x + Impulse(b).x
    ensures Momentum(es[k := b]).y == Momentum(es).y - Impulse(es[k]).y + Impulse(b).y
    decreases |es|
  {
    if k > 0 {
      assert es[k := b][1..] == es[1..][k - 1 := b];
      MomentumUpdate(es[1..], k - 1, b);
    } else {
      assert es[k := b][1..] == es[1..];
    }
  }

  /** The inner collision loop: body i against bodies j, j + 1, ..., in order. */
  function Row(es: seq<Body>, i: nat, j: nat, trig: Trig): (r: seq<Body>)
    requires i < j <= |es| && NonNegativeMasses(es)
    ensures SameBodies(r, es) && NonNegativeMasses(r)
    decreases |es| - j
  {
    if j == |es| then es
    else
      var (a, b) := Interact(es[i], es[j], trig);
      Row(es[i := a][j := b], i, j + 1, trig)
  }

  /** The outer collision loop, from body i on. */
  function Sweep(es: seq<Body>, i: nat, trig: Trig): (r: seq<Body>)
    requires i <= |es| && NonNegativeMasses(es)
    ensures SameBodies(r, es) && NonNegativeMasses(r)
    decreases |es| - i
  {
    if i == |es| then es
    else Sweep(Row(es, i, i + 1, trig), i + 1, trig)
  }

  /** Replacing two bodies by two with the same summed impulse keeps the total. */
  lemma {:induction false} PairReplace(es: seq<Body>, i: nat, j: nat, a: Body, b: Body)
    requires i < j < |es|
    requires Impulse(a).x + Impulse(b).x == Impulse(es[i]).x + Impulse(es[j]).x
    requires Impulse(a).y + Impulse(b).y == Impulse(es[i]).y + Impulse(es[j]).y
    ensures Momentum(es[i := a][j := b]) == Momentum(es)
  {
    MomentumUpdate(es, i, a);
    assert es[i := a][j] == es[j];
    MomentumUpdate(es[i := a], j, b);
  }

  /** One pair interaction leaves the total momentum of the whole list unchanged. */
  lemma PairStepConserves(es: seq<Body>, i: nat, j: nat, trig: Trig)
    requires UnitCircle(trig) && i < j < |es| && NonNegativeMasses(es)
    ensures var (a, b) := Interact(es[i], es[j], trig);
      Momentum(es[i := a][j := b]) == Momentum(es)
  {
    var x, y := es[i], es[j];
    var (a, b) := Interact(x, y, trig);
    InteractConservesMomentum(x, y, trig);
    ImpulseOfPair(x, y, a, b);
    PairReplace(es, i, j, a, b);
  }

  /** The pair form of the momentum statement, read as impulses. */
  lemma ImpulseOfPair(x: Body, y: Body, a: Body, b: Body)
    requires a.mass == x.mass && b.mass == y.mass
    requires var m1, m2 := EffectiveMass(x.mass), EffectiveMass(y.mass);
      Combine(m1, Velocity(a), m2, Velocity(b)) == Combine(m1, Velocity(x), m2, Velocity(y))
    ensures Impulse(a).x + Impulse(b).x == Impulse(x).x + Impulse(y).x
    ensures Impulse(a).y + Impulse(b).y == Impulse(x).y + Impulse(y).y
  {
  }

  lemma {:induction false} RowConservesMomentum(es: seq<Body>, i: nat, j: nat, trig: Trig)
    requires UnitCircle(trig) && i < j <= |es| && NonNegativeMasses(es)
    ensures Momentum(Row(es, i, j, trig)) == Momentum(es)
    decreases |es| - j
  {
    if j < |es| {
      var (a, b) := Interact(es[i], es[j], trig);
      var next := es[i := a][j := b];
      assert Row(es, i, j, trig) == Row(next, i, j + 1, trig);
      PairStepConserves(es, i, j, trig);
      RowConservesMomentum(next, i, j + 1, trig);
    }
  }

  /** The whole collision pass conserves the total momentum of the bodies in play. */
  lemma {:induction false} SweepConservesMomentum(es: seq<Body>, i: nat, trig: Trig)
    requires UnitCircle(trig) && i <= |es| && NonNegativeMasses(es)
    ensures Momentum(Sweep(es, i, trig)) == Momentum(es)
    decreases |es| - i
  {
    if i < |es| {
      var row := Row(es, i, i + 1, trig);
      assert Sweep(es, i, trig) == Sweep(row, i + 1, trig);
      RowConservesMomentum(es, i, i + 1, trig);
      SweepConservesMomentum(row, i + 1, trig);
    }
  }

  /** coins.filter(c => c.active), keeping order. */
  function Active(coins: seq<Body>): (r: seq<Body>)
    ensures |r| <= |coins|
    ensures forall k :: 0 <= k < |r| ==> r[k].active && r[k] in coins
    ensures forall c :: c in r <==> c in coins && c.active
  {
    if |coins| == 0 then []
    else (if coins[0].active then [coins[0]] else []) + Active(coins[1..])
  }

  /** Filtering distributes over concatenation, so the kept coins keep their order. */
  lemma {:induction false} ActiveAppend(a: seq<Body>, b: seq<Body>)
    ensures Active(a + b) == Active(a) + Active(b)
    decreases |a|
  {
    if |a| > 0 {
      assert (a + b)[1..] == a[1..] + b;
      ActiveAppend(a[1..], b);
    } else {
      assert a + b == b;
    }
  }

  /** Puts the processed entities back into the coin array: the k-th active coin is
      replaced by the k-th processed body; inactive coins stay as they are. */
  function Merge(coins: seq<Body>, done: seq<Body>): (r: seq<Body>)
    requires |done| == |Active(coins)|
    ensures |r| == |coins|
    ensures forall k :: 0 <= k < |coins| && !coins[k].active ==> r[k] == coins[k]
    ensures forall k :: 0 <= k < |r| ==> r[k] in coins || r[k] in done
  {
    if |coins| == 0 then []
    else if coins[0].active then [done[0]] + Merge(coins[1..], done[1..])
    else [coins[0]] + Merge(coins[1..], done)
  }

  /** Putting back the entities unprocessed gives the coins back. */
  lemma {:induction false} MergeUnchanged(coins: seq<Body>)
    ensures Merge(coins, Active(coins)) == coins
    decreases |coins|
  {
    if |coins| > 0 {
      var head, rest := coins[0], coins[1..];
      var a := Active(coins);
      MergeUnchanged(rest);
      if head.active {
        assert a == [head] + Active(rest);
        assert a[0] == head && a[1..] == Active(rest);
      } else {
        assert a == Active(rest);
      }
      assert Merge(coins, a) == [head] + Merge(rest, Active(rest));
      assert coins == [head] + rest;
    }
  }

  /** After a frame the coins still in play are exactly the processed entities that
      are still active: a coin pocketed in this frame is gone from the next one. */
  lemma {:induction false} MergeActive(coins: seq<Body>, done: seq<Body>)
    requires |done| == |Active(coins)|
    requires forall k :: 0 <= k < |done| ==> (done[k].active ==> Active(coins)[k].active)
    ensures Active(Merge(coins, done)) == Active(done)
    decreases |coins|
  {
    if |coins| > 0 {
      var m := Merge(coins, done);
      if coins[0].active {
        assert Active(coins) == [coins[0]] + Active(coins[1..]);
        assert m[1..] == Merge(coins[1..], done[1..]);
        forall k | 0 <= k < |done[1..]|
          ensures done[1..][k].active ==> Active(coins[1..])[k].active
        {
          assert done[1..][k] == done[k + 1];
          assert Active(coins)[k + 1] == Active(coins[1..])[k];
        }
        MergeActive(coins[1..], done[1..]);
        assert m == [done[0]] + m[1..];
        ActiveAppend([done[0]], m[1..]);
        assert done == [done[0]] + done[1..];
        ActiveAppend([done[0]], done[1..]);
      } else {
        assert m[1..] == Merge(coins[1..], done);
        MergeActive(coins[1..], done);
        assert m == [coins[0]] + m[1..];
        ActiveAppend([coins[0]], m[1..]);
        assert [coins[0]][1..] == [];
      }
    }
  }

  /** Some body is above the rest threshold at the start of the frame. */
  predicate AnyMoving(es: seq<Body>) {
    exists k :: 0 <= k < |es| && Moving(es[k])
  }

  /** The movement pass: every entity takes its own step; entity 0 is the striker.
      Bodies at rest are left alone, nothing speeds up or changes what it is, the
      striker stays in play, and a coin can only go out of play. */
  function StepAll(es: seq<Body>, dt: real, trig: Trig): (r: seq<Body>)
    ensures |r| == |es|
    ensures forall k :: 0 <= k < |es| ==> r[k].mass == es[k].mass && r[k].radius == es[k].radius && r[k].colour == es[k].colour
    ensures forall k :: 0 <= k < |es| && !Moving(es[k]) ==> r[k] == es[k]
    ensures forall k :: 0 <= k < |es| ==> Abs(r[k].vx) <= Abs(es[k].vx) && Abs(r[k].vy) <= Abs(es[k].vy)
    ensures |es| > 0 && es[0].active ==> r[0].active
    ensures forall k :: 0 < k < |es| && r[k].active ==> es[k].active
  {
    var r := seq(|es|, k requires 0 <= k < |es| => StepBody(es[k], k == 0, dt, trig));
    assert forall k :: 0 <= k < |es| ==>
      (Abs(r[k].vx) <= Abs(es[k].vx) && Abs(r[k].vy) <= Abs(es[k].vy)
       && (k == 0 && es[k].active ==> r[k].active) && (k > 0 && r[k].active ==> es[k].active)) by {
      forall k | 0 <= k < |es|
        ensures Abs(r[k].vx) <= Abs(es[k].vx) && Abs(r[k].vy) <= Abs(es[k].vy)
        ensures k == 0 && es[k].active ==> r[k].active
        ensures k > 0 && r[k].active ==> es[k].active
      {
        StepNeverSpeedsUp(es[k], k == 0, dt, trig);
        if es[k].active {
          StepPocketing(es[k], k == 0, dt, trig);
        }
        if k > 0 && Moving(es[k]) {
          var moved := es[k].(x := es[k].x + es[k].vx * dt, y := es[k].y + es[k].vy * dt);
          var damped := moved.(vx := Damp(moved.vx), vy := Damp(moved.vy));
          PocketPassFacts(Walls(damped), false, trig);
        }
      }
    }
    r
  }

  /** Every body a game uses has a non-negative mass (coins 1, striker 2). */
  predicate Valid(t: Table) {
    t.striker.mass >= 0.0 && NonNegativeMasses(t.coins)
  }

  /** The bodies a frame moves: the striker first, then the coins still in play. */
  function Entities(t: Table): (r: seq<Body>)
    requires Valid(t)
    ensures |r| == 1 + |Active(t.coins)| && r[0] == t.striker && r[1..] == Active(t.coins)
    ensures NonNegativeMasses(r)
  {
    var es := [t.striker] + Active(t.coins);
    assert NonNegativeMasses(es) by {
      forall k | 0 <= k < |es| ensures es[k].mass >= 0.0 {
        if k > 0 {
          assert es[k] == Active(t.coins)[k - 1];
        }
      }
    }
    es
  }

  /** The movement pass followed by the collision pass. */
  function Frame(es: seq<Body>, dt: real, trig: Trig): (r: seq<Body>)
    requires NonNegativeMasses(es)
    ensures |r| == |es| && NonNegativeMasses(r)
    ensures forall k :: 0 <= k < |es| ==> r[k].active == StepBody(es[k], k == 0, dt, trig).active
  {
    var stepped := StepAll(es, dt, trig);
    assert NonNegativeMasses(stepped) by {
      forall k | 0 <= k < |es| ensures stepped[k].mass >= 0.0 {
        assert stepped[k] == StepBody(es[k], k == 0, dt, trig);
      }
    }
    Sweep(stepped, 0, trig)
  }

  /** The test at the end of update() as written: the animation stops only when no body
      was stepped and the striker's velocity is exactly zero. */
  predicate StopsAsWritten(es: seq<Body>, out: seq<Body>)
    requires |out| > 0
  {
    !AnyMoving(es) && out[0].vx == 0.0 && out[0].vy == 0.0
  }

  /** The test as evidently intended: the animation stops when no body was stepped
      and the striker is itself below the rest threshold, so that it would not be
      stepped in the next frame either. */
  predicate Stops(es: seq<Body>, out: seq<Body>)
    requires |out| > 0
  {
    !AnyMoving(es) && !Moving(out[0])
  }

  /** Writes a frame's output back into the table: entity 0 is the striker, the rest
      go back into the coin array; a frame that stops resets the striker. */
  function Apply(t: Table, out: seq<Body>, stop: bool): (r: Table)
    requires Valid(t) && |out| == 1 + |Active(t.coins)| && NonNegativeMasses(out)
    ensures Valid(r)
    ensures r.coins == Merge(t.coins, out[1..])
    ensures r.striker == (if stop then ResetStriker(out[0]) else out[0])
    ensures r.animating == (t.animating && !stop)
    ensures r.dragging == t.dragging && r.dragStart == t.dragStart && r.dragCurrent == t.dragCurrent
  {
    var coins := Merge(t.coins, out[1..]);
    assert NonNegativeMasses(coins) by {
      forall k | 0 <= k < |coins| ensures coins[k].mass >= 0.0 {
        assert coins[k] in t.coins || coins[k] in out[1..];
      }
    }
    if stop then t.(striker := ResetStriker(out[0]), coins := coins, animating := false)
    else t.(striker := out[0], coins := coins)
  }

  /** update(dt) as written: one animation frame, with the stop test of line 289. */
  function UpdateAsWritten(t: Table, dt: real, trig: Trig): (r: Table)
    requires Valid(t)
    ensures Valid(r)
    ensures !t.animating ==> r == t
    ensures |r.coins| == |t.coins|
    ensures forall k :: 0 <= k < |t.coins| && !t.coins[k].active ==> r.coins[k] == t.coins[k]
    ensures r.dragging == t.dragging && r.dragStart == t.dragStart && r.dragCurrent == t.dragCurrent
    ensures t.animating ==> r.coins == Merge(t.coins, Frame(Entities(t), dt, trig)[1..])
    ensures t.animating ==>
      (!r.animating <==> !AnyMoving(Entities(t))
                         && Frame(Entities(t), dt, trig)[0].vx == 0.0 && Frame(Entities(t), dt, trig)[0].vy == 0.0)
    ensures t.animating && r.animating ==> r.striker == Frame(Entities(t), dt, trig)[0]
    ensures t.animating && !r.animating ==> r.striker == ResetStriker(Frame(Entities(t), dt, trig)[0])
  {
    if !t.animating then t
    else
      var es := Entities(t);
      var out := Frame(es, dt, trig);
      Apply(t, out, StopsAsWritten(es, out))
  }

  /** With no coin in play and the striker below the threshold, a frame moves nothing. */
  lemma LoneStrikerFrame(t: Table, dt: real, trig: Trig)
    requires Valid(t) && Active(t.coins) == [] && !Moving(t.striker)
    ensures Entities(t) == [t.striker] && !AnyMoving(Entities(t))
    ensures Frame(Entities(t), dt, trig) == [t.striker]
  {
    var es := Entities(t);
    assert es == [t.striker];
    var stepped := StepAll(es, dt, trig);
    assert stepped == es;
    assert Row(es, 0, 1, trig) == es;
    assert Sweep(es, 1, trig) == es;
  }

  /** A striker left creeping below the rest threshold, with no coin in play, is never
      stepped again and never counts as stopped: the frame changes nothing, the board
      stays animating for ever, and every later press is ignored by DragStart. */
  lemma CreepStallsAsWritten(t: Table, dt: real, trig: Trig)
    requires Valid(t) && t.animating && Active(t.coins) == []
    requires !Moving(t.striker) && (t.striker.vx != 0.0 || t.striker.vy != 0.0)
    ensures UpdateAsWritten(t, dt, trig) == t
    ensures UpdateAsWritten(t, dt, trig).animating
  {
    LoneStrikerFrame(t, dt, trig);
    MergeUnchanged(t.coins);
  }

  /** The head-on hit itself, through the collision code: the striker (mass 2) at
      (400, 400) moving at 0.3 along x touches a resting coin (mass 1) whose centre is
      33 to its right. Given the values Math.hypot, Math.atan2, Math.cos and Math.sin
      take there, the striker leaves the pair step at 0.1 along x, not above the
      threshold, and the coin at 0.4. */
  lemma HeadOnHitLeavesCreep(trig: Trig)
    requires trig.hypot(33.0, 0.0) == 33.0 && trig.atan2(0.0, 33.0) == 0.0
    requires trig.cos(0.0) == 1.0 && trig.sin(0.0) == 0.0
    ensures var striker := Body(400.0, 400.0, 0.3, 0.0, StrikerRadius, 2.0, true, Gold);
      var coin := Body(433.0, 400.0, 0.0, 0.0, CoinRadius, 1.0, true, White);
      var (a, b) := Interact(striker, coin, trig);
      a.vx == 0.1 && a.vy == 0.0 && !Moving(a) && b.vx == 0.4 && b.vy == 0.0
  {
    var striker := Body(400.0, 400.0, 0.3, 0.0, StrikerRadius, 2.0, true, Gold);
    var coin := Body(433.0, 400.0, 0.0, 0.0, CoinRadius, 1.0, true, White);
    assert Exchange(2.0, 1.0, 0.3, 0.0) == (0.1, 0.4);
    var (v1, v2) := Respond(striker, coin, 1.0, 0.0);
    assert v1.vx == 0.1 && v1.vy == 0.0 && v2.vx == 0.4 && v2.vy == 0.0;
  }

  /** update(dt): one animation frame, with the stop test as evidently intended (see
      StopsAsWritten for the test as written). Nothing happens unless animating; the
      new striker and coins are the frame's output; the animation stops exactly when
      nothing was stepped and the striker is at rest, and the striker is then reset. */
  function Update(t: Table, dt: real, trig: Trig): (r: Table)
    requires Valid(t)
    ensures Valid(r)
    ensures !t.animating ==> r == t
    ensures |r.coins| == |t.coins|
    ensures forall k :: 0 <= k < |t.coins| && !t.coins[k].active ==> r.coins[k] == t.coins[k]
    ensures r.dragging == t.dragging && r.dragStart == t.dragStart && r.dragCurrent == t.dragCurrent
    ensures t.animating ==> r.coins == Merge(t.coins, Frame(Entities(t), dt, trig)[1..])
    ensures t.animating ==>
      (!r.animating <==> !AnyMoving(Entities(t)) && !Moving(Frame(Entities(t), dt, trig)[0]))
    ensures t.animating && r.animating ==> r.striker == Frame(Entities(t), dt, trig)[0]
    ensures t.animating && !r.animating ==> r.striker == ResetStriker(Frame(Entities(t), dt, trig)[0])
  {
    if !t.animating then t
    else
      var es := Entities(t);
      var out := Frame(es, dt, trig);
      Apply(t, out, Stops(es, out))
  }

  /** With the intended test the same creeping striker settles: the frame stops the
      animation and puts the striker back on the baseline, ready for the next shot. */
  lemma CreepSettles(t: Table, dt: real, trig: Trig)
    requires Valid(t) && t.animating && Active(t.coins) == []
    requires !Moving(t.striker)
    ensures !Update(t, dt, trig).animating
    ensures Update(t, dt, trig).striker == ResetStriker(t.striker)
    ensures Update(t, dt, trig).coins == t.coins
  {
    LoneStrikerFrame(t, dt, trig);
    MergeUnchanged(t.coins);
  }

  /** The intended test never stops earlier than the one as written: a table that the
      source would stop is stopped with the same result. */
  lemma StopsRefinesAsWritten(t: Table, dt: real, trig: Trig)
    requires Valid(t)
    requires !UpdateAsWritten(t, dt, trig).animating
    ensures Update(t, dt, trig) == UpdateAsWritten(t, dt, trig)
  {
  }

  /** The collision pass of a frame conserves the momentum the movement pass left. */
  lemma FrameConservesCollisionMomentum(es: seq<Body>, dt: real, trig: Trig)
    requires UnitCircle(trig) && NonNegativeMasses(es)
    ensures Momentum(Frame(es, dt, trig)) == Momentum(StepAll(es, dt, trig))
  {
    SweepConservesMomentum(StepAll(es, dt, trig), 0, trig);
  }

  /** The coins in play in the next frame are the processed coins that are still active:
      a coin pocketed during this frame drops out of the entity list. */
  lemma PocketedCoinsLeavePlay(t: Table, dt: real, trig: Trig)
    requires Valid(t) && t.animating
    ensures Active(Update(t, dt, trig).coins) == Active(Frame(Entities(t), dt, trig)[1..])
  {
    var es := Entities(t);
    var out := Frame(es, dt, trig);
    forall k | 0 <= k < |out[1..]|
      ensures out[1..][k].active ==> Active(t.coins)[k].active
    {
    }
    MergeActive(t.coins, out[1..]);
  }
}
