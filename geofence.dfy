/**
 * The no-drone-zone test (index.js:25-37): a drone violates when its Euclidean
 * distance to the nest is strictly less than the radius. The square root is not
 * computed; distances are characterised by their squares.
 */
module Geofence {
  import opened Feed

  const NestX: real := 250000.0
  const NestY: real := 250000.0
  const NoDroneZoneRadius: real := 100000.0

  /** The square of the Euclidean distance between two points. */
  function SquaredDistance(x1: real, y1: real, x2: real, y2: real): (r: real)
    ensures r >= 0.0
  {
    var dx, dy := x1 - x2, y1 - y2;
    dx * dx + dy * dy
  }

  /** `d` is the Euclidean distance between the points: the non-negative root of the square. */
  predicate IsDistance(x1: real, y1: real, x2: real, y2: real, d: real) {
    d >= 0.0 && d * d == SquaredDistance(x1, y1, x2, y2)
  }

  /** `d` is `distanceToNest(p.positionX, p.positionY)`. */
  predicate IsDistanceToNest(p: Position, d: real) {
    IsDistance(NestX, NestY, p.positionX, p.positionY, d)
  }

  /** `isInCircle(originX, originY, radius)(info)`, without the square root. */
  predicate IsInCircle(originX: real, originY: real, radius: real, info: DroneInfo) {
    0.0 < radius &&
    SquaredDistance(originX, originY, info.position.positionX, info.position.positionY) < radius * radius
  }

  /** `isInNoDroneZone`: the disc of radius 100000 around the nest. */
  predicate IsInNoDroneZone(info: DroneInfo) {
    IsInCircle(NestX, NestY, NoDroneZoneRadius, info)
  }

  lemma MulNonneg(x: real, y: real)
    requires 0.0 <= x && 0.0 <= y
    ensures 0.0 <= x * y
  {}

  lemma MulPos(x: real, y: real)
    requires 0.0 < x && 0.0 < y
    ensures 0.0 < x * y
  {}

  /** Squaring is monotone on the non-negative reals. */
  lemma SquareMono(a: real, b: real)
    requires 0.0 <= a <= b
    ensures a * a <= b * b
  {
    MulNonneg(b - a, b + a);
    assert (b - a) * (b + a) == b * b - a * a;
  }

  /** Squaring is strictly monotone on the non-negative reals. */
  lemma SquareStrictMono(a: real, b: real)
    requires 0.0 <= a < b
    ensures a * a < b * b
  {
    MulPos(b - a, b + a);
    assert (b - a) * (b + a) == b * b - a * a;
  }

  /** The squared test agrees with `distance(...) < radius` for every radius. */
  lemma IsInCircleIffCloser(originX: real, originY: real, radius: real, info: DroneInfo, d: real)
    requires IsDistance(originX, originY, info.position.positionX, info.position.positionY, d)
    ensures IsInCircle(originX, originY, radius, info) <==> d < radius
  {
    if 0.0 < radius {
      if d < radius {
        SquareStrictMono(d, radius);
      } else {
        SquareMono(radius, d);
      }
    }
  }

  /** The zone is open: exactly on the boundary is outside, anything closer is inside. */
  lemma NoDroneZoneIsStrict(info: DroneInfo, d: real)
    requires IsDistanceToNest(info.position, d)
    ensures d == NoDroneZoneRadius ==> !IsInNoDroneZone(info)
    ensures d < NoDroneZoneRadius ==> IsInNoDroneZone(info)
  {
    IsInCircleIffCloser(NestX, NestY, NoDroneZoneRadius, info, d);
  }

  /** A drone at (250000, 150000) is on the boundary and not a violation;
      one at (250000, 160000) is 90000 from the nest and is. */
  lemma BoundaryExamples(serial: string, t: int)
    ensures IsDistanceToNest(Position(250000.0, 150000.0), 100000.0)
    ensures !IsInNoDroneZone(DroneInfo(serial, Position(250000.0, 150000.0), t))
    ensures IsDistanceToNest(Position(250000.0, 160000.0), 90000.0)
    ensures IsInNoDroneZone(DroneInfo(serial, Position(250000.0, 160000.0), t))
  {}

  /** `droneInfo.filter(isInNoDroneZone)`: the violators, in feed order. */
  function Violators(infos: seq<DroneInfo>): (r: seq<DroneInfo>)
    ensures |r| <= |infos|
    ensures forall x :: x in r <==> x in infos && IsInNoDroneZone(x)
    ensures forall x :: multiset(r)[x] == if IsInNoDroneZone(x) then multiset(infos)[x] else 0
  {
    if infos == [] then []
    else
      var rest := Violators(infos[1..]);
      assert infos == [infos[0]] + infos[1..];
      if IsInNoDroneZone(infos[0]) then [infos[0]] + rest else rest
  }

  /** The filter keeps feed order: filtering a concatenation concatenates the filters. */
  lemma {:induction false} ViolatorsAppend(a: seq<DroneInfo>, b: seq<DroneInfo>)
    ensures Violators(a + b) == Violators(a) + Violators(b)
  {
    if a == [] {
      assert a + b == b;
    } else {
      assert (a + b)[0] == a[0];
      assert (a + b)[1..] == a[1..] + b;
      ViolatorsAppend(a[1..], b);
    }
  }
}
