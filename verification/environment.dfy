/**
 * The parking simulation: an 800 x 600 arena walled by four barriers, a car
 * whose collision box is an axis-aligned rectangle around its centre, eight
 * range sensors cast as unit-step rays, a parking spot, and an episode that
 * ends on a collision, on a correct park or after 1000 steps.
 *
 * Trigonometry, square roots and the size of the rotated car sprite belong
 * to the math and graphics libraries; they reach the model as the functions
 * of a `Geometry` value that each environment holds. Rectangles have integer
 * coordinates, as pygame's do.
 */
module Environment {
  import opened Common

  const WIDTH := 800
  const HEIGHT := 600
  const CAR_SIZE := 10
  const MAX_SPEED := 2.5
  const MAX_SPEED_BACKWARD := 1.25
  const ACCELERATION := 0.025
  const DECELERATION := 0.025
  const MIN_TURN_SPEED := 0.1
  const BARRIER_THICKNESS := 4
  const MAX_EPISODE_STEPS := 1000
  const RAY_RANGE := 150
  const RAY_COUNT := 8
  const RAY_STEP := 45
  const ANGLE_THRESHOLD := 10
  const COLLISION_PENALTY := 100.0
  const SHAPING_FACTOR := 10.0
  const PARKING_BONUS := 1000.0
  const STEP_COST := 0.1
  const START_X := 100.0
  const START_Y := 300.0

  // ---------------------------------------------------------------------------
  // Rectangles and points
  // ---------------------------------------------------------------------------

  /** A pygame Rect: left x, top y, width w, height h; right = x + w, bottom = y + h. */
  datatype Rect = Rect(x: int, y: int, w: int, h: int)

  const PARKING_SPOT := Rect(600, 200, 66, 44)

  /** The centre pygame reports: (x + w // 2, y + h // 2). */
  function Center(r: Rect): (int, int) {
    (r.x + r.w / 2, r.y + r.h / 2)
  }

  /** Both ends inclusive: a point on the border of a rectangle is inside it. */
  predicate PointInside(px: real, py: real, r: Rect) {
    r.x as real <= px <= (r.x + r.w) as real && r.y as real <= py <= (r.y + r.h) as real
  }

  /**
   * colliderect: rectangles of zero width or height never collide; otherwise
   * the spans must overlap strictly on both axes, so rectangles that only
   * touch along an edge do not collide.
   */
  predicate Overlap(a: Rect, b: Rect) {
    && a.w != 0 && a.h != 0 && b.w != 0 && b.h != 0
    && MinInt(a.x, a.x + a.w) < MaxInt(b.x, b.x + b.w) && MinInt(b.x, b.x + b.w) < MaxInt(a.x, a.x + a.w)
    && MinInt(a.y, a.y + a.h) < MaxInt(b.y, b.y + b.h) && MinInt(b.y, b.y + b.h) < MaxInt(a.y, a.y + a.h)
  }

  function MinInt(a: int, b: int): int { if a <= b then a else b }

  function MaxInt(a: int, b: int): int { if a >= b then a else b }

  /** Colliding is symmetric. */
  lemma OverlapSymmetric(a: Rect, b: Rect)
    ensures Overlap(a, b) <==> Overlap(b, a)
  {
  }

  /** Rectangles with positive sizes that share only an edge do not collide. */
  lemma TouchingIsNotOverlap(a: Rect, b: Rect)
    requires a.w > 0 && a.h > 0 && b.w > 0 && b.h > 0
    requires a.x + a.w == b.x
    ensures !Overlap(a, b)
  {
  }

  /** The point of rectangle r closest to p: each coordinate clamped to the rectangle's span. */
  function NearestPoint(r: Rect, p: (real, real)): (q: (real, real))
    ensures r.w >= 0 && r.h >= 0 ==> PointInside(q.0, q.1, r)
    ensures PointInside(p.0, p.1, r) ==> q == p
  {
    (Max(r.x as real, Min(p.0, (r.x + r.w) as real)), Max(r.y as real, Min(p.1, (r.y + r.h) as real)))
  }

  // ---------------------------------------------------------------------------
  // Library functions as parameters
  // ---------------------------------------------------------------------------

  /**
   * cos and sin of an angle in degrees, the (width, height) of the car sprite
   * after pygame rotates it by the given angle, and the square root.
   */
  datatype Geometry = Geometry(cos: int -> real, sin: int -> real, rotatedSize: int -> (int, int), sqrt: real -> real)

  /** What the model relies on: square roots of non-negative numbers are non-negative, sqrt(0) = 0, sprite sizes are non-negative. */
  ghost predicate GeometryOk(geo: Geometry) {
    && (forall v :: v >= 0.0 ==> geo.sqrt(v) >= 0.0)
    && geo.sqrt(0.0) == 0.0
    && (forall a :: geo.rotatedSize(a).0 >= 0 && geo.rotatedSize(a).1 >= 0)
  }

  function Square(a: real): (r: real)
    ensures r >= 0.0
    ensures a == 0.0 ==> r == 0.0
  {
    if a >= 0.0 then NonNegativeProduct(a, a); a * a
    else NonNegativeProduct(-a, -a); a * a
  }

  lemma NonNegativeProduct(a: real, b: real)
    requires a >= 0.0 && b >= 0.0
    ensures a * b >= 0.0
  {
  }

  function Distance(geo: Geometry, p: (real, real), q: (real, real)): (d: real)
    requires GeometryOk(geo)
    ensures d >= 0.0
    ensures p == q ==> d == 0.0
  {
    geo.sqrt(Square(p.0 - q.0) + Square(p.1 - q.1))
  }

  /** int(x): truncation toward zero. */
  function Trunc(x: real): (n: int)
    ensures x >= 0.0 ==> 0.0 <= n as real <= x < n as real + 1.0
    ensures x < 0.0 ==> n as real - 1.0 < x <= n as real <= 0.0
  {
    if x >= 0.0 then x.Floor else -((-x).Floor)
  }

  // ---------------------------------------------------------------------------
  // Arena
  // ---------------------------------------------------------------------------

  /** The four walls along the top, left, bottom and right edges of the arena. */
  function CreateBarriers(): (bs: seq<Rect>)
    ensures |bs| == 4
  {
    [ Rect(0, 0, WIDTH, BARRIER_THICKNESS),
      Rect(0, 0, BARRIER_THICKNESS, HEIGHT),
      Rect(0, HEIGHT - BARRIER_THICKNESS, WIDTH, BARRIER_THICKNESS),
      Rect(WIDTH - BARRIER_THICKNESS, 0, BARRIER_THICKNESS, HEIGHT) ]
  }

  predicate InsideAny(px: real, py: real, rects: seq<Rect>) {
    exists i :: 0 <= i < |rects| && PointInside(px, py, rects[i])
  }

  /** The walls cover exactly the 4-unit strip along the border of the arena. */
  lemma BarriersCoverBorder(px: real, py: real)
    requires 0.0 <= px <= WIDTH as real && 0.0 <= py <= HEIGHT as real
    ensures InsideAny(px, py, CreateBarriers()) <==>
            px <= BARRIER_THICKNESS as real || px >= (WIDTH - BARRIER_THICKNESS) as real
            || py <= BARRIER_THICKNESS as real || py >= (HEIGHT - BARRIER_THICKNESS) as real
  {
    var bs := CreateBarriers();
    if py <= BARRIER_THICKNESS as real {
      assert PointInside(px, py, bs[0]);
    } else if px <= BARRIER_THICKNESS as real {
      assert PointInside(px, py, bs[1]);
    } else if py >= (HEIGHT - BARRIER_THICKNESS) as real {
      assert PointInside(px, py, bs[2]);
    } else if px >= (WIDTH - BARRIER_THICKNESS) as real {
      assert PointInside(px, py, bs[3]);
    }
  }

  // ---------------------------------------------------------------------------
  // Range sensors
  // ---------------------------------------------------------------------------

  /** A ray stops at a point inside any obstacle or outside the arena. */
  predicate Blocked(px: real, py: real, rects: seq<Rect>) {
    InsideAny(px, py, rects) || px < 0.0 || px > WIDTH as real || py < 0.0 || py > HEIGHT as real
  }

  /** Whether the k-th unit step of a ray from (x0, y0) at the given angle is blocked. */
  predicate BlockedAt(geo: Geometry, x0: real, y0: real, angle: int, rects: seq<Rect>, k: nat) {
    var p := RayPoint(geo, x0, y0, angle, k);
    Blocked(p.0, p.1, rects)
  }

  /** The point reached after k unit steps from (x0, y0) at the given angle. */
  function RayPoint(geo: Geometry, x0: real, y0: real, angle: int, k: nat): (real, real) {
    (x0 + (k as real) * geo.cos(angle), y0 + (k as real) * geo.sin(angle))
  }

  /**
   * d is the reading of a ray: the ray walks unit steps 1, 2, ...; the
   * reading is the number of free steps before the first blocked one, or
   * the full range when none of the first 150 steps is blocked.
   */
  predicate IsFirstHit(geo: Geometry, x0: real, y0: real, angle: int, rects: seq<Rect>, d: int) {
    && 0 <= d <= RAY_RANGE
    && (forall k: nat :: 1 <= k <= d ==> !BlockedAt(geo, x0, y0, angle, rects, k))
    && (d < RAY_RANGE ==> BlockedAt(geo, x0, y0, angle, rects, d + 1))
  }

  /** A ray has exactly one reading. */
  lemma FirstHitUnique(geo: Geometry, x0: real, y0: real, angle: int, rects: seq<Rect>, d1: int, d2: int)
    requires IsFirstHit(geo, x0, y0, angle, rects, d1) && IsFirstHit(geo, x0, y0, angle, rects, d2)
    ensures d1 == d2
  {
    assert d1 < RAY_RANGE ==> BlockedAt(geo, x0, y0, angle, rects, d1 + 1);
    assert d2 < RAY_RANGE ==> BlockedAt(geo, x0, y0, angle, rects, d2 + 1);
  }

  /** Walk `rects` in order and stop at the first one containing the point. */
  method FindContaining(px: real, py: real, rects: seq<Rect>) returns (inside: bool)
    ensures inside <==> InsideAny(px, py, rects)
  {
    inside := false;
    var j := 0;
    while j < |rects|
      invariant 0 <= j <= |rects|
      invariant forall m :: 0 <= m < j ==> !PointInside(px, py, rects[m])
    {
      if PointInside(px, py, rects[j]) {
        inside := true;
        return;
      }
      j := j + 1;
    }
  }

  /**
   * Cast one ray: step the point by (cos, sin) up to 150 times and return
   * the index of the first step that lands inside an obstacle or outside the
   * arena, or 150 when none does.
   */
  method RayDistance(geo: Geometry, x0: real, y0: real, angle: int, rects: seq<Rect>) returns (d: int)
    ensures IsFirstHit(geo, x0, y0, angle, rects, d)
  {
    var x, y := x0, y0;
    var dx, dy := geo.cos(angle), geo.sin(angle);
    var i := 0;
    while i < RAY_RANGE
      invariant 0 <= i <= RAY_RANGE
      invariant x == RayPoint(geo, x0, y0, angle, i).0 && y == RayPoint(geo, x0, y0, angle, i).1
      invariant forall k: nat :: 1 <= k <= i ==> !BlockedAt(geo, x0, y0, angle, rects, k)
    {
      NextStep(geo, x0, y0, angle, i);
      x, y := x + dx, y + dy;
      var inside := FindContaining(x, y, rects);
      if inside || x < 0.0 || x > WIDTH as real || y < 0.0 || y > HEIGHT as real {
        assert BlockedAt(geo, x0, y0, angle, rects, i + 1);
        return i;
      }
      i := i + 1;
    }
    return RAY_RANGE;
  }

  /**
   * Looking straight back (180 degrees) from the start position with only
   * the walls in place, the sensor reads 95: the left wall is reached at
   * x = 4, on the 96th step.
   */
  lemma StartRearRayReads95(geo: Geometry)
    requires geo.cos(180) == -1.0 && -1.0 < geo.sin(180) < 1.0
    ensures IsFirstHit(geo, START_X, START_Y, 180, CreateBarriers(), 95)
  {
    var s := geo.sin(180);
    forall k: nat | 1 <= k <= 96
      ensures RayPoint(geo, START_X, START_Y, 180, k).0 == START_X - k as real
      ensures 204.0 <= RayPoint(geo, START_X, START_Y, 180, k).1 <= 396.0
    {
      ScaledBound(k as real, s);
    }
    forall k: nat | 1 <= k <= 95
      ensures !BlockedAt(geo, START_X, START_Y, 180, CreateBarriers(), k)
    {
      var p := RayPoint(geo, START_X, START_Y, 180, k);
      BarriersCoverBorder(p.0, p.1);
    }
    var p := RayPoint(geo, START_X, START_Y, 180, 96);
    BarriersCoverBorder(p.0, p.1);
  }

  /** Scaling by a factor strictly between -1 and 1 keeps a non-negative number within its own bounds. */
  lemma ScaledBound(k: real, s: real)
    requires k >= 0.0 && -1.0 < s < 1.0
    ensures -k <= k * s <= k
  {
    NonNegativeProduct(k, 1.0 - s);
    NonNegativeProduct(k, 1.0 + s);
    assert k * (1.0 - s) == k - k * s;
    assert k * (1.0 + s) == k + k * s;
  }

  /** One more unit step along a ray. */
  lemma NextStep(geo: Geometry, x0: real, y0: real, angle: int, i: nat)
    ensures RayPoint(geo, x0, y0, angle, i + 1).0 == RayPoint(geo, x0, y0, angle, i).0 + geo.cos(angle)
    ensures RayPoint(geo, x0, y0, angle, i + 1).1 == RayPoint(geo, x0, y0, angle, i).1 + geo.sin(angle)
  {
    var n, c, s := i as real, geo.cos(angle), geo.sin(angle);
    assert (i + 1) as real == n + 1.0;
    assert (n + 1.0) * c == n * c + c;
    assert (n + 1.0) * s == n * s + s;
  }

  /** The angles of the eight rays relative to the car: 0, 45, ..., 315 degrees. */
  function RayAngle(k: nat): int { RAY_STEP * k }

  /** The eight readings of a car at (x, y) facing `rotation`, each a first hit among `rects`. */
  predicate SensorsRead(geo: Geometry, x: real, y: real, rotation: int, rects: seq<Rect>, readings: seq<int>) {
    |readings| == RAY_COUNT
    && forall k :: 0 <= k < RAY_COUNT ==> IsFirstHit(geo, x, y, RayAngle(k) + rotation, rects, readings[k])
  }

  /** Every sensor reading lies between 0 and the ray range. */
  lemma SensorsInRange(geo: Geometry, x: real, y: real, rotation: int, rects: seq<Rect>, readings: seq<int>)
    requires SensorsRead(geo, x, y, rotation, rects, readings)
    ensures forall k :: 0 <= k < RAY_COUNT ==> 0 <= readings[k] <= RAY_RANGE
  {
    forall k | 0 <= k < RAY_COUNT
      ensures 0 <= readings[k] <= RAY_RANGE
    {
      assert IsFirstHit(geo, x, y, RayAngle(k) + rotation, rects, readings[k]);
    }
  }

  // ---------------------------------------------------------------------------
  // The car
  // ---------------------------------------------------------------------------

  /** The speed after an engine signal: 1 accelerates up to the forward limit, -1 brakes down to the reverse limit, anything else coasts. */
  function Accelerate(speed: real, engine: int): (v: real)
    ensures -MAX_SPEED_BACKWARD <= speed <= MAX_SPEED ==> -MAX_SPEED_BACKWARD <= v <= MAX_SPEED
    ensures engine == 1 ==> speed <= v || v == MAX_SPEED
    ensures engine == -1 ==> v <= speed || v == -MAX_SPEED_BACKWARD
    ensures engine != 1 && engine != -1 ==> v == speed
  {
    if engine == 1 then Min(speed + ACCELERATION, MAX_SPEED)
    else if engine == -1 then Max(speed - DECELERATION, -MAX_SPEED_BACKWARD)
    else speed
  }

  function Abs(x: real): real { if x < 0.0 then -x else x }

  /**
   * The heading after a wheel signal: it turns only while the car moves at
   * 0.1 or more, by the signal in degrees, reduced into [0, 360).
   */
  function Turn(rotation: int, speed: real, wheels: int): (r: int)
    ensures Abs(speed) < MIN_TURN_SPEED ==> r == rotation
    ensures Abs(speed) >= MIN_TURN_SPEED ==> 0 <= r < 360 && (r - rotation - wheels) % 360 == 0
  {
    if Abs(speed) >= MIN_TURN_SPEED then (rotation + wheels) % 360 else rotation
  }

  /** The collision box of a car centred at (cx, cy): the rotated sprite's bounding box, centred there. */
  function CarRect(geo: Geometry, cx: int, cy: int, rotation: int): (r: Rect)
    requires GeometryOk(geo)
    ensures Center(r) == (cx, cy)
    ensures (r.w, r.h) == geo.rotatedSize(-rotation)
  {
    var size := geo.rotatedSize(-rotation);
    Rect(cx - size.0 / 2, cy - size.1 / 2, size.0, size.1)
  }

  /** The car square, moved so that its centre is (int(x), int(y)). */
  function CarSquare(x: real, y: real): (r: Rect)
    ensures Center(r) == (Trunc(x), Trunc(y))
  {
    Rect(Trunc(x) - CAR_SIZE / 2, Trunc(y) - CAR_SIZE / 2, CAR_SIZE, CAR_SIZE)
  }

  /** The point one tick ahead: the position advanced by speed along the heading. */
  function Moved(geo: Geometry, x: real, y: real, speed: real, rotation: int): (real, real) {
    (x + speed * geo.cos(rotation), y + speed * geo.sin(rotation))
  }

  /** The collision box of a car whose exact centre is p: the rotated box around the truncated point. */
  function CollisionBox(geo: Geometry, p: (real, real), rotation: int): (r: Rect)
    requires GeometryOk(geo)
    ensures Center(r) == (Trunc(p.0), Trunc(p.1))
  {
    CarRect(geo, Trunc(p.0), Trunc(p.1), rotation)
  }

  predicate AnyOverlap(r: Rect, rects: seq<Rect>) {
    exists i :: 0 <= i < |rects| && Overlap(r, rects[i])
  }

  predicate OutOfArena(r: Rect) {
    r.x < 0 || r.x + r.w > WIDTH || r.y < 0 || r.y + r.h > HEIGHT
  }

  /** A collision: the box hits a wall, hits a custom obstacle, or leaves the arena. */
  predicate Collision(r: Rect, barriers: seq<Rect>, custom: seq<Rect>) {
    AnyOverlap(r, barriers) || AnyOverlap(r, custom) || OutOfArena(r)
  }

  /** A box that collides with nothing lies inside the walls: at least 4 units from every edge. */
  lemma NoCollisionMeansInsideWalls(r: Rect, custom: seq<Rect>)
    requires r.w > 0 && r.h > 0
    requires !Collision(r, CreateBarriers(), custom)
    ensures BARRIER_THICKNESS <= r.x && r.x + r.w <= WIDTH - BARRIER_THICKNESS
    ensures BARRIER_THICKNESS <= r.y && r.y + r.h <= HEIGHT - BARRIER_THICKNESS
  {
    var bs := CreateBarriers();
    assert !Overlap(r, bs[0]) && !Overlap(r, bs[1]) && !Overlap(r, bs[2]) && !Overlap(r, bs[3]);
  }

  /** Walk `rects` in order and stop at the first one the box collides with. */
  method FindOverlap(r: Rect, rects: seq<Rect>) returns (hit: bool)
    ensures hit <==> AnyOverlap(r, rects)
  {
    hit := false;
    var i := 0;
    while i < |rects|
      invariant 0 <= i <= |rects|
      invariant forall j :: 0 <= j < i ==> !Overlap(r, rects[j])
    {
      if Overlap(r, rects[i]) {
        hit := true;
        break;
      }
      i := i + 1;
    }
  }

  // ---------------------------------------------------------------------------
  // Parking
  // ---------------------------------------------------------------------------

  /** How far the heading is from 0 degrees, going either way round. */
  function AngleDiff(rotation: int): (d: int)
    ensures 0 <= d <= 180
  {
    var a := rotation % 360;
    var d1 := if a >= 0 then a else -a;
    var d2 := if a - 360 >= 0 then a - 360 else 360 - a;
    if d1 <= d2 then d1 else d2
  }

  predicate Contains(outer: Rect, inner: Rect) {
    inner.x >= outer.x && inner.x + inner.w <= outer.x + outer.w
    && inner.y >= outer.y && inner.y + inner.h <= outer.y + outer.h
  }

  /** Parked: a collision box exists, collides with the spot, lies wholly inside it, and the car faces within 10 degrees of 0. */
  predicate IsParked(spot: Rect, box: Option<Rect>, rotation: int) {
    box.Some? && Overlap(spot, box.value) && Contains(spot, box.value) && AngleDiff(rotation) <= ANGLE_THRESHOLD
  }

  /** Parking demands a heading within 10 degrees of 0: in [0, 10] or [350, 360) after reduction. */
  lemma ParkedHeading(spot: Rect, box: Option<Rect>, rotation: int)
    requires IsParked(spot, box, rotation)
    ensures 0 <= rotation % 360 <= ANGLE_THRESHOLD || 360 - ANGLE_THRESHOLD <= rotation % 360 < 360
  {
  }

  /** The distance from the centre of the box to the nearest point of the spot; 0 when the centre is on the spot. */
  function CenterDistance(geo: Geometry, box: Rect, spot: Rect): (d: real)
    requires GeometryOk(geo)
    ensures d >= 0.0
    ensures PointInside(Center(box).0 as real, Center(box).1 as real, spot) ==> d == 0.0
  {
    var c := (Center(box).0 as real, Center(box).1 as real);
    Distance(geo, c, NearestPoint(spot, c))
  }

  /** The mean distance from the four corners of the box to the spot. */
  function AverageCornerDistance(geo: Geometry, box: Rect, spot: Rect): (d: real)
    requires GeometryOk(geo)
    ensures d >= 0.0
  {
    var corners := [(box.x as real, box.y as real), ((box.x + box.w) as real, box.y as real),
                    ((box.x + box.w) as real, (box.y + box.h) as real), (box.x as real, (box.y + box.h) as real)];
    (Distance(geo, corners[0], NearestPoint(spot, corners[0])) + Distance(geo, corners[1], NearestPoint(spot, corners[1]))
     + Distance(geo, corners[2], NearestPoint(spot, corners[2])) + Distance(geo, corners[3], NearestPoint(spot, corners[3]))) / 4.0
  }

  /** A box lying wholly inside the spot is at distance 0 from it. */
  lemma ContainedBoxIsAtZero(geo: Geometry, box: Rect, spot: Rect)
    requires GeometryOk(geo)
    requires box.w >= 0 && box.h >= 0 && Contains(spot, box)
    ensures AverageCornerDistance(geo, box, spot) == 0.0
  {
    var l, t, r, b := box.x as real, box.y as real, (box.x + box.w) as real, (box.y + box.h) as real;
    assert PointInside(l, t, spot) && PointInside(r, t, spot) && PointInside(r, b, spot) && PointInside(l, b, spot);
  }

  /** A parked car is at distance 0 from the spot, so it earns no further shaping reward. */
  lemma ParkedCarIsAtZero(geo: Geometry, cx: int, cy: int, rotation: int)
    requires GeometryOk(geo)
    requires IsParked(PARKING_SPOT, Some(CarRect(geo, cx, cy, rotation)), rotation)
    ensures AverageCornerDistance(geo, CarRect(geo, cx, cy, rotation), PARKING_SPOT) == 0.0
  {
    ContainedBoxIsAtZero(geo, CarRect(geo, cx, cy, rotation), PARKING_SPOT);
  }

  // ---------------------------------------------------------------------------
  // Reward
  // ---------------------------------------------------------------------------

  /** A distance that may be float('inf'). */
  datatype Extended = Finite(value: real) | Infinity

  predicate Less(a: Extended, b: Extended) {
    a.Finite? && (b.Infinity? || a.value < b.value)
  }

  /** The best distance after a measurement: lowered when the measurement is smaller. */
  function ImprovedBest(best: Extended, current: Extended): (b: Extended)
    ensures b == best || b == current
    ensures !Less(best, b) && !Less(current, b)
  {
    if Less(current, best) then current else best
  }

  /**
   * The shaping term: ten times the improvement on the best distance so far.
   * The first finite measurement of an episode only sets the baseline and
   * earns nothing (see ShapingRewardAsWritten for the behaviour this corrects).
   */
  function ShapingReward(best: Extended, current: Extended): (r: real)
    ensures r >= 0.0
    ensures r > 0.0 <==> best.Finite? && Less(current, best)
  {
    if best.Finite? && Less(current, best) then (best.value - current.value) * SHAPING_FACTOR else 0.0
  }

  /**
   * The shaping term as written: (best - current) * 10 whenever current <
   * best, with best starting at float('inf'). On the first measurement of
   * an episode this is inf - d, which is inf.
   */
  function ShapingRewardAsWritten(best: Extended, current: Extended): (r: Extended)
    ensures !Less(current, best) ==> r == Finite(0.0)
  {
    if Less(current, best) then
      if best.Infinity? then Infinity else Finite((best.value - current.value) * SHAPING_FACTOR)
    else Finite(0.0)
  }

  /** The one step reward: -100 on a collision, the shaping term, +1000 when parked, and -0.1 per step. */
  function Reward(collision: bool, shaping: real, parked: bool): real {
    (if collision then -COLLISION_PENALTY else 0.0) + shaping + (if parked then PARKING_BONUS else 0.0) - STEP_COST
  }

  /** With a non-negative shaping term: a step costs at least 0.1 less than its shaping term when nothing happens, a collision costs 100.1 more, parking without a collision earns its shaping term plus 999.9. */
  lemma RewardBounds(collision: bool, shaping: real, parked: bool)
    requires shaping >= 0.0
    ensures Reward(collision, shaping, parked) >= -COLLISION_PENALTY - STEP_COST
    ensures !collision && !parked ==> Reward(collision, shaping, parked) == shaping - STEP_COST
    ensures parked && !collision ==> Reward(collision, shaping, parked) == shaping + PARKING_BONUS - STEP_COST
    ensures collision && !parked ==> Reward(collision, shaping, parked) == shaping - COLLISION_PENALTY - STEP_COST
  {
  }

  /** The best distance after a run of measurements. */
  function FinalBest(best: Extended, ds: seq<Extended>): (b: Extended)
    ensures !Less(best, b)
    decreases |ds|
  {
    if ds == [] then best else FinalBest(ImprovedBest(best, ds[0]), ds[1..])
  }

  /** The total shaping reward over a run of measurements. */
  function ShapingTotal(best: Extended, ds: seq<Extended>): real
    decreases |ds|
  {
    if ds == [] then 0.0 else ShapingReward(best, ds[0]) + ShapingTotal(ImprovedBest(best, ds[0]), ds[1..])
  }

  /**
   * The shaping rewards telescope: once a finite baseline b exists, the
   * total over any run is ten times the distance gained, b - final best.
   */
  lemma {:induction false} ShapingTelescopes(b: real, ds: seq<Extended>)
    ensures FinalBest(Finite(b), ds).Finite?
    ensures ShapingTotal(Finite(b), ds) == SHAPING_FACTOR * (b - FinalBest(Finite(b), ds).value)
    decreases |ds|
  {
    if ds != [] {
      ShapingTelescopes(ImprovedBest(Finite(b), ds[0]).value, ds[1..]);
    }
  }

  /** Over a whole episode the shaping reward is finite and at most ten times the first finite distance measured. */
  lemma {:induction false} ShapingBounded(ds: seq<Extended>, i: nat)
    requires i < |ds| && ds[i].Finite? && ds[i].value >= 0.0
    requires forall j :: 0 <= j < i ==> ds[j].Infinity?
    requires forall j :: 0 <= j < |ds| && ds[j].Finite? ==> ds[j].value >= 0.0
    ensures 0.0 <= ShapingTotal(Infinity, ds) <= SHAPING_FACTOR * ds[i].value
  {
    if i == 0 {
      ShapingTelescopes(ds[0].value, ds[1..]);
      FinalBestNonNegative(ds[0].value, ds[1..]);
    } else {
      ShapingBounded(ds[1..], i - 1);
    }
  }

  lemma {:induction false} FinalBestNonNegative(b: real, ds: seq<Extended>)
    requires b >= 0.0
    requires forall j :: 0 <= j < |ds| && ds[j].Finite? ==> ds[j].value >= 0.0
    ensures FinalBest(Finite(b), ds).Finite? && FinalBest(Finite(b), ds).value >= 0.0
    decreases |ds|
  {
    if ds != [] {
      FinalBestNonNegative(ImprovedBest(Finite(b), ds[0]).value, ds[1..]);
    }
  }

  /** Addition on rewards that may be +inf. */
  function ExtAdd(a: Extended, b: Extended): Extended {
    if a.Infinity? || b.Infinity? then Infinity else Finite(a.value + b.value)
  }

  /** The total shaping reward of a run as written. */
  function ShapingTotalAsWritten(best: Extended, ds: seq<Extended>): Extended
    decreases |ds|
  {
    if ds == [] then Finite(0.0)
    else ExtAdd(ShapingRewardAsWritten(best, ds[0]), ShapingTotalAsWritten(ImprovedBest(best, ds[0]), ds[1..]))
  }

  /**
   * As written, every episode whose car produces a finite distance at all
   * ends with an infinite fitness: the first finite measurement against the
   * initial best of inf earns inf, and nothing later can take it back.
   */
  lemma {:induction false} AsWrittenEpisodeIsInfinite(ds: seq<Extended>, i: nat)
    requires i < |ds| && ds[i].Finite?
    requires forall j :: 0 <= j < i ==> ds[j].Infinity?
    ensures ShapingTotalAsWritten(Infinity, ds) == Infinity
  {
    if i > 0 {
      AsWrittenEpisodeIsInfinite(ds[1..], i - 1);
    }
  }

  // ---------------------------------------------------------------------------
  // Custom obstacles
  // ---------------------------------------------------------------------------

  /** list.remove: drop the first element equal to x, if there is one. */
  function RemoveFirst(s: seq<Rect>, x: Rect): (r: seq<Rect>)
    ensures x !in s ==> r == s
    ensures x in s ==> |r| == |s| - 1
    ensures multiset(r) == multiset(s) - multiset{x}
  {
    if s == [] then []
    else
      assert s == [s[0]] + s[1..];
      if s[0] == x then s[1..] else [s[0]] + RemoveFirst(s[1..], x)
  }

  /** Removing an obstacle that was just added, and was not there before, restores the list. */
  lemma {:induction false} RemoveUndoesAdd(s: seq<Rect>, x: Rect)
    requires x !in s
    ensures RemoveFirst(s + [x], x) == s
  {
    if s != [] {
      assert (s + [x])[1..] == s[1..] + [x];
      RemoveUndoesAdd(s[1..], x);
    }
  }

  /** The removed element is the first occurrence: everything before it is kept in place. */
  lemma {:induction false} RemoveFirstKeepsPrefix(s: seq<Rect>, x: Rect, i: nat)
    requires i < |s| && s[i] == x
    requires forall j :: 0 <= j < i ==> s[j] != x
    ensures RemoveFirst(s, x) == s[..i] + s[i + 1..]
  {
    if i > 0 {
      RemoveFirstKeepsPrefix(s[1..], x, i - 1);
      assert s[1..][..i - 1] == s[1..i];
      assert s[1..][i - 1 + 1..] == s[i + 1..];
    }
  }

  // ---------------------------------------------------------------------------
  // The environment
  // ---------------------------------------------------------------------------

  /** The car's current_state: position, speed, heading in degrees and the number of collisions. */
  datatype CarState = CarState(x: real, y: real, speed: real, rotation: int, collisionCounter: nat)

  const INITIAL_STATE := CarState(START_X, START_Y, 0.0, 0, 0)

  /** The outcome of one move: the new car state, the car square, the collision box and whether it collided. */
  datatype Move = Move(car: CarState, square: Rect, box: Rect, hit: bool)

  /**
   * One action applied to the car: accelerate or brake, turn when fast
   * enough, place the boxes one tick ahead along the new heading, and move
   * there only when the box collides with nothing and the car is moving. A
   * collision stops the car where it stood and is counted.
   */
  function Drive(geo: Geometry, car: CarState, action: Action, barriers: seq<Rect>, custom: seq<Rect>): (m: Move)
    requires GeometryOk(geo)
    ensures m.hit <==> Collision(m.box, barriers, custom)
    ensures m.car.rotation == Turn(car.rotation, Accelerate(car.speed, action.engine), action.wheels)
    ensures m.car.speed == if m.hit then 0.0 else Accelerate(car.speed, action.engine)
    ensures m.car.collisionCounter == car.collisionCounter + if m.hit then 1 else 0
    ensures m.hit || m.car.speed == 0.0 ==> m.car.x == car.x && m.car.y == car.y
    ensures var p := Moved(geo, car.x, car.y, m.car.speed, m.car.rotation);
            !m.hit ==> m.square == CarSquare(p.0, p.1) && m.box == CollisionBox(geo, p, m.car.rotation)
    ensures !m.hit && m.car.speed != 0.0 ==> (m.car.x, m.car.y) == Moved(geo, car.x, car.y, m.car.speed, m.car.rotation)
  {
    var v := Accelerate(car.speed, action.engine);
    var rot := Turn(car.rotation, v, action.wheels);
    var p := Moved(geo, car.x, car.y, v, rot);
    var square := CarSquare(p.0, p.1);
    var box := CarRect(geo, Center(square).0, Center(square).1, rot);
    var hit := Collision(box, barriers, custom);
    var next :=
      if hit then CarState(car.x, car.y, 0.0, rot, car.collisionCounter + 1)
      else if v == 0.0 then CarState(car.x, car.y, v, rot, car.collisionCounter)
      else CarState(p.0, p.1, v, rot, car.collisionCounter);
    Move(next, square, box, hit)
  }

  /** The speed stays within its limits across a move. */
  lemma DriveKeepsSpeedLimits(geo: Geometry, car: CarState, action: Action, barriers: seq<Rect>, custom: seq<Rect>)
    requires GeometryOk(geo)
    requires -MAX_SPEED_BACKWARD <= car.speed <= MAX_SPEED
    ensures -MAX_SPEED_BACKWARD <= Drive(geo, car, action, barriers, custom).car.speed <= MAX_SPEED
  {
  }

  /** A move that collides with nothing leaves the box inside the walls of the arena. */
  lemma DriveWithoutCollisionStaysInside(geo: Geometry, car: CarState, action: Action, custom: seq<Rect>)
    requires GeometryOk(geo)
    requires !Drive(geo, car, action, CreateBarriers(), custom).hit
    ensures var b := Drive(geo, car, action, CreateBarriers(), custom).box;
            b.w > 0 && b.h > 0 ==>
              BARRIER_THICKNESS <= b.x && b.x + b.w <= WIDTH - BARRIER_THICKNESS
              && BARRIER_THICKNESS <= b.y && b.y + b.h <= HEIGHT - BARRIER_THICKNESS
  {
    var b := Drive(geo, car, action, CreateBarriers(), custom).box;
    if b.w > 0 && b.h > 0 {
      NoCollisionMeansInsideWalls(b, custom);
    }
  }

  /** What get_state reports. */
  datatype Observation = Observation(
    sensors: seq<int>, distanceToParking: Extended, collision: bool,
    position: (real, real), rotation: int, speed: real)

  class Environment {
    const geometry: Geometry
    const parkingSpot: Rect := PARKING_SPOT
    const barriers: seq<Rect> := CreateBarriers()
    var car: CarState
    // The car square and the rotated collision box, both placed by the last move.
    var carRect: Rect
    var rotatedCollisionRect: Option<Rect>
    var customRectangles: seq<Rect>
    // Episode bookkeeping.
    var episodeFinished: bool
    var currentStep: nat
    var bestDistance: Extended
    var currentFitness: real
    var rayDistances: seq<int>
    var averageDistance: Extended
    var distanceToParking: Option<real>

    /**
     * The invariant of an environment between calls: the speed within its
     * limits, the heading in [0, 360), at most one collision and only in a
     * finished episode, an unfinished episode short of 1000 steps, eight
     * readings within range, and non-negative distances.
     */
    ghost predicate Valid()
      reads this
    {
      && GeometryOk(geometry)
      && -MAX_SPEED_BACKWARD <= car.speed <= MAX_SPEED
      && 0 <= car.rotation < 360
      && car.collisionCounter <= 1 && (car.collisionCounter > 0 ==> episodeFinished)
      && currentStep <= MAX_EPISODE_STEPS && (!episodeFinished ==> currentStep < MAX_EPISODE_STEPS)
      && |rayDistances| == RAY_COUNT
      && (forall k :: 0 <= k < RAY_COUNT ==> 0 <= rayDistances[k] <= RAY_RANGE)
      && (averageDistance.Finite? ==> averageDistance.value >= 0.0)
      && (bestDistance.Finite? ==> bestDistance.value >= 0.0)
    }

    constructor(geo: Geometry)
      requires GeometryOk(geo)
      ensures Valid()
      ensures geometry == geo && customRectangles == [] && car == INITIAL_STATE
      ensures rotatedCollisionRect == None && distanceToParking == None
      ensures !episodeFinished && currentStep == 0 && currentFitness == 0.0
      ensures bestDistance == Infinity && averageDistance == Infinity
      ensures rayDistances == seq(RAY_COUNT, _ => 0)
    {
      geometry := geo;
      carRect := Rect(0, 0, CAR_SIZE, CAR_SIZE);
      rotatedCollisionRect := None;
      customRectangles := [];
      car := INITIAL_STATE;
      episodeFinished := false;
      currentStep := 0;
      bestDistance := Infinity;
      currentFitness := 0.0;
      rayDistances := seq(RAY_COUNT, _ => 0);
      averageDistance := Infinity;
      distanceToParking := None;
    }

    function GetState(): (s: Observation)
      reads this
      ensures Valid() ==> (s.collision ==> episodeFinished)
    {
      Observation(rayDistances, averageDistance, car.collisionCounter > 0, (car.x, car.y), car.rotation, car.speed)
    }

    /**
     * Recompute the distances to the spot from the current collision box;
     * with no box yet there is nothing to measure and nothing changes.
     */
    method UpdateParkingDistance()
      requires GeometryOk(geometry)
      modifies this`distanceToParking, this`averageDistance
      ensures distanceToParking == if rotatedCollisionRect.None? then old(distanceToParking)
                                   else Some(CenterDistance(geometry, rotatedCollisionRect.value, parkingSpot))
      ensures averageDistance == if rotatedCollisionRect.None? then old(averageDistance)
                                 else Finite(AverageCornerDistance(geometry, rotatedCollisionRect.value, parkingSpot))
    {
      if rotatedCollisionRect.None? {
        return;
      }
      var box := rotatedCollisionRect.value;
      distanceToParking := Some(CenterDistance(geometry, box, parkingSpot));
      averageDistance := Finite(AverageCornerDistance(geometry, box, parkingSpot));
    }

    /** Read all eight rays from the car's position against the walls and the custom obstacles, then the parking distances. */
    method UpdateSensors()
      requires GeometryOk(geometry)
      modifies this`rayDistances, this`distanceToParking, this`averageDistance
      ensures SensorsRead(geometry, car.x, car.y, car.rotation, barriers + customRectangles, rayDistances)
      ensures averageDistance == if rotatedCollisionRect.None? then old(averageDistance)
                                 else Finite(AverageCornerDistance(geometry, rotatedCollisionRect.value, parkingSpot))
      ensures distanceToParking == if rotatedCollisionRect.None? then old(distanceToParking)
                                   else Some(CenterDistance(geometry, rotatedCollisionRect.value, parkingSpot))
    {
      var obstacles := barriers + customRectangles;
      var readings: seq<int> := [];
      var k := 0;
      while k < RAY_COUNT
        invariant 0 <= k <= RAY_COUNT && |readings| == k
        invariant forall m :: 0 <= m < k ==> IsFirstHit(geometry, car.x, car.y, RayAngle(m) + car.rotation, obstacles, readings[m])
        invariant unchanged(this)
      {
        var d := RayDistance(geometry, car.x, car.y, RayAngle(k) + car.rotation, obstacles);
        readings := readings + [d];
        k := k + 1;
      }
      rayDistances := readings;
      UpdateParkingDistance();
    }

    /** Stop the car and count a collision when its box hits a wall, a custom obstacle, or the arena's edge. */
    method CheckCollisions() returns (detected: bool)
      requires rotatedCollisionRect.Some?
      modifies this`car
      ensures detected <==> Collision(rotatedCollisionRect.value, barriers, customRectangles)
      ensures car == if detected then old(car).(speed := 0.0, collisionCounter := old(car).collisionCounter + 1) else old(car)
    {
      var box := rotatedCollisionRect.value;
      detected := false;
      var hit := FindOverlap(box, barriers);
      if hit {
        car := car.(speed := 0.0);
        detected := true;
      }
      hit := FindOverlap(box, customRectangles);
      if hit {
        car := car.(speed := 0.0);
        detected := true;
      }
      if OutOfArena(box) {
        car := car.(speed := 0.0);
        detected := true;
      }
      if detected {
        car := car.(collisionCounter := car.collisionCounter + 1);
      }
    }

    /**
     * Move the car along its heading by its speed: place the car square and
     * the rotated collision box at the truncated new position, check for
     * collisions, and commit the new position only when there was none and
     * the car is moving.
     */
    method UpdatePosition() returns (ghost detected: bool)
      requires GeometryOk(geometry)
      modifies this`car, this`carRect, this`rotatedCollisionRect
      ensures var p := Moved(geometry, old(car).x, old(car).y, old(car).speed, old(car).rotation);
              carRect == CarSquare(p.0, p.1) && rotatedCollisionRect == Some(CollisionBox(geometry, p, old(car).rotation))
      ensures detected <==> Collision(rotatedCollisionRect.value, barriers, customRectangles)
      ensures var p := Moved(geometry, old(car).x, old(car).y, old(car).speed, old(car).rotation);
              car == if detected then old(car).(speed := 0.0, collisionCounter := old(car).collisionCounter + 1)
                     else if old(car).speed == 0.0 then old(car)
                     else old(car).(x := p.0, y := p.1)
    {
      var p := Moved(geometry, car.x, car.y, car.speed, car.rotation);
      carRect := CarSquare(p.0, p.1);
      var center := Center(carRect);
      rotatedCollisionRect := Some(CarRect(geometry, center.0, center.1, car.rotation));
      var collision := CheckCollisions();
      detected := collision;
      if !collision && car.speed != 0.0 {
        car := car.(x := p.0, y := p.1);
      }
    }

    /** Apply an {engine, wheels} action: change speed, turn if fast enough, then move; the result is Drive's. */
    method ApplyAction(action: Action) returns (ghost detected: bool)
      requires GeometryOk(geometry)
      modifies this`car, this`carRect, this`rotatedCollisionRect
      ensures var m := Drive(geometry, old(car), action, barriers, customRectangles);
              car == m.car && carRect == m.square && rotatedCollisionRect == Some(m.box) && detected == m.hit
    {
      if action.engine == 1 {
        car := car.(speed := Min(car.speed + ACCELERATION, MAX_SPEED));
      } else if action.engine == -1 {
        car := car.(speed := Max(car.speed - DECELERATION, -MAX_SPEED_BACKWARD));
      }
      assert car.speed == Accelerate(old(car).speed, action.engine);
      if Abs(car.speed) >= MIN_TURN_SPEED {
        car := car.(rotation := (car.rotation + action.wheels) % 360);
      }
      assert car.rotation == Turn(old(car).rotation, car.speed, action.wheels);
      detected := UpdatePosition();
    }

    /** Score the new state, update the best distance and accumulate the fitness. */
    method CalculateReward(state: Observation) returns (reward: real)
      modifies this`bestDistance, this`currentFitness
      ensures reward == Reward(state.collision, ShapingReward(old(bestDistance), state.distanceToParking),
                               IsParked(parkingSpot, rotatedCollisionRect, car.rotation))
      ensures bestDistance == ImprovedBest(old(bestDistance), state.distanceToParking)
      ensures currentFitness == old(currentFitness) + reward
    {
      reward := 0.0;
      if state.collision {
        reward := reward - COLLISION_PENALTY;
      }
      var current := state.distanceToParking;
      if Less(current, bestDistance) {
        if bestDistance.Finite? {
          reward := reward + (bestDistance.value - current.value) * SHAPING_FACTOR;
        }
        bestDistance := current;
      }
      if IsParked(parkingSpot, rotatedCollisionRect, car.rotation) {
        reward := reward + PARKING_BONUS;
      }
      reward := reward - STEP_COST;
      currentFitness := currentFitness + reward;
    }

    /** The episode ends on a collision, on reaching 1000 steps, or when the car is parked. */
    method CheckEpisodeEnd(state: Observation) returns (done: bool)
      modifies this`episodeFinished
      ensures done <==> state.collision || currentStep >= MAX_EPISODE_STEPS || IsParked(parkingSpot, rotatedCollisionRect, car.rotation)
      ensures episodeFinished == (old(episodeFinished) || done)
    {
      if state.collision || currentStep >= MAX_EPISODE_STEPS || IsParked(parkingSpot, rotatedCollisionRect, car.rotation) {
        episodeFinished := true;
        return true;
      }
      return false;
    }

    /**
     * One simulation step. A finished episode changes nothing and reports
     * reward 0 and done. Otherwise the action drives the car, the step
     * counter advances, the sensors are read at the new pose, and the step's
     * reward and the end of the episode follow from the new state.
     */
    method Step(action: Action) returns (state: Observation, reward: real, done: bool)
      requires Valid()
      modifies this
      ensures Valid()
      ensures state == GetState()
      ensures customRectangles == old(customRectangles)
      ensures old(episodeFinished) ==> unchanged(this) && reward == 0.0 && done
      ensures !old(episodeFinished) ==>
                var m := Drive(geometry, old(car), action, barriers, customRectangles);
                && car == m.car && carRect == m.square && rotatedCollisionRect == Some(m.box)
                && currentStep == old(currentStep) + 1
                && SensorsRead(geometry, car.x, car.y, car.rotation, barriers + customRectangles, rayDistances)
                && averageDistance == Finite(AverageCornerDistance(geometry, m.box, parkingSpot))
                && bestDistance == ImprovedBest(old(bestDistance), averageDistance)
                && reward == Reward(m.hit, ShapingReward(old(bestDistance), averageDistance), IsParked(parkingSpot, Some(m.box), car.rotation))
                && currentFitness == old(currentFitness) + reward
                && (done <==> m.hit || currentStep >= MAX_EPISODE_STEPS || IsParked(parkingSpot, Some(m.box), car.rotation))
                && episodeFinished == done
    {
      if episodeFinished {
        return GetState(), 0.0, true;
      }
      ghost var hit := ApplyAction(action);
      currentStep := currentStep + 1;
      UpdateSensors();
      SensorsInRange(geometry, car.x, car.y, car.rotation, barriers + customRectangles, rayDistances);
      state := GetState();
      reward := CalculateReward(state);
      done := CheckEpisodeEnd(state);
    }

    /** Start a new episode: the car back at the start, counters and fitness cleared, the sensors read again. */
    method Reset() returns (state: Observation)
      requires Valid()
      modifies this`car, this`currentStep, this`rayDistances, this`distanceToParking, this`averageDistance,
               this`bestDistance, this`currentFitness, this`episodeFinished
      ensures Valid()
      ensures state == GetState()
      ensures car == INITIAL_STATE
      ensures !episodeFinished && currentStep == 0 && currentFitness == 0.0 && bestDistance == Infinity
      ensures SensorsRead(geometry, START_X, START_Y, 0, barriers + customRectangles, rayDistances)
      ensures unchanged(this`rotatedCollisionRect, this`carRect)
      ensures averageDistance == if rotatedCollisionRect.None? then old(averageDistance)
                                 else Finite(AverageCornerDistance(geometry, rotatedCollisionRect.value, parkingSpot))
    {
      car := INITIAL_STATE;
      episodeFinished := false;
      currentStep := 0;
      bestDistance := Infinity;
      currentFitness := 0.0;
      UpdateSensors();
      SensorsInRange(geometry, car.x, car.y, car.rotation, barriers + customRectangles, rayDistances);
      state := GetState();
    }

    method AddCustomRectangle(r: Rect)
      modifies this`customRectangles
      ensures customRectangles == old(customRectangles) + [r]
    {
      customRectangles := customRectangles + [r];
    }

    method RemoveCustomRectangle(r: Rect)
      modifies this`customRectangles
      ensures customRectangles == RemoveFirst(old(customRectangles), r)
    {
      if r in customRectangles {
        var i := 0;
        while customRectangles[i] != r
          invariant 0 <= i < |customRectangles|
          invariant r in customRectangles[i..]
          invariant forall j :: 0 <= j < i ==> customRectangles[j] != r
          decreases |customRectangles| - i
        {
          i := i + 1;
        }
        RemoveFirstKeepsPrefix(customRectangles, r, i);
        customRectangles := customRectangles[..i] + customRectangles[i + 1..];
      }
    }
  }
}
