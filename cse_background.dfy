/**
 * The "CSE" decorative background (components/cse-3d-background.tsx): falling binary
 * digits, right-angled circuit paths and spinning code symbols. `Math.random()` is a
 * supplied sequence of draws in [0, 1), consumed in the order the source calls it;
 * coordinates are exact reals.
 */
module CseBackground {

  /** Every draw is a value `Math.random()` can return. */
  predicate UnitDraws(rs: seq<real>)
  {
    forall k :: 0 <= k < |rs| ==> 0.0 <= rs[k] < 1.0
  }

  /** `count={isMobile ? 50 : 100}` for the binary particles. */
  function BinaryCount(isMobile: bool): nat
  {
    if isMobile then 50 else 100
  }

  /** `count={isMobile ? 10 : 20}` for the circuit lines. */
  function CircuitCount(isMobile: bool): nat
  {
    if isMobile then 10 else 20
  }

  datatype Vec3 = Vec3(x: real, y: real, z: real)

  // ---------------------------------------------------------------------------
  // Binary particles
  // ---------------------------------------------------------------------------

  datatype BinaryParticle = BinaryParticle(position: Vec3, binary: char, scale: real, speed: real)

  /** `(Math.random() - 0.5) * 20`: a coordinate in [-10, 10). */
  function Spread20(r: real): real
  {
    (r - 0.5) * 20.0
  }

  /** The ranges a generated particle lies in. */
  predicate WellFormedParticle(p: BinaryParticle)
  {
    && -10.0 <= p.position.x < 10.0
    && -10.0 <= p.position.y < 10.0
    && -10.0 <= p.position.z < 0.0
    && (p.binary == '0' || p.binary == '1')
    && 0.5 <= p.scale < 1.0
    && 0.01 <= p.speed < 0.03
  }

  /** One particle from six consecutive draws: x, y, z, digit, scale, speed. */
  function MakeParticle(rs: seq<real>, at: nat): (p: BinaryParticle)
    requires at + 6 <= |rs| && UnitDraws(rs)
    ensures WellFormedParticle(p)
  {
    BinaryParticle(
      Vec3(Spread20(rs[at]), Spread20(rs[at + 1]), (rs[at + 2] - 0.5) * 10.0 - 5.0),
      if rs[at + 3] > 0.5 then '1' else '0',
      rs[at + 4] * 0.5 + 0.5,
      rs[at + 5] * 0.02 + 0.01)
  }

  /** The memoised generator of `BinaryParticles`: `count` pushes of a fresh particle. */
  method GenerateBinaryParticles(count: nat, rs: seq<real>) returns (particles: seq<BinaryParticle>)
    requires UnitDraws(rs) && 6 * count <= |rs|
    ensures |particles| == count
    ensures forall i :: 0 <= i < count ==> particles[i] == MakeParticle(rs, 6 * i)
    ensures forall i :: 0 <= i < count ==> WellFormedParticle(particles[i])
  {
    particles := [];
    var next := 0;
    for i := 0 to count
      invariant |particles| == i && next == 6 * i
      invariant forall j :: 0 <= j < i ==> particles[j] == MakeParticle(rs, 6 * j)
    {
      var position := Vec3(Spread20(rs[next]), Spread20(rs[next + 1]), (rs[next + 2] - 0.5) * 10.0 - 5.0);
      var binary := if rs[next + 3] > 0.5 then '1' else '0';
      var scale := rs[next + 4] * 0.5 + 0.5;
      var speed := rs[next + 5] * 0.02 + 0.01;
      particles := particles + [BinaryParticle(position, binary, scale, speed)];
      next := next + 6;
    }
  }

  /** Whether a particle at height y with this speed falls out of the bottom this frame. */
  predicate Wraps(y: real, speed: real)
  {
    y - speed < -10.0
  }

  /** The new height: down by the particle's speed, or back to the top at 10. */
  function FallY(y: real, speed: real): real
  {
    if Wraps(y, speed) then 10.0 else y - speed
  }

  /** How many of the first i particles wrap this frame: the number of draws they consume. */
  function WrapsBefore(ys: seq<real>, particles: seq<BinaryParticle>, i: nat): (w: nat)
    requires i <= |ys| && i <= |particles|
    ensures w <= i
  {
    if i == 0 then 0
    else WrapsBefore(ys, particles, i - 1) + (if Wraps(ys[i - 1], particles[i - 1].speed) then 1 else 0)
  }

  /** The vertical band a particle stays in once generated. */
  predicate InBand(x: real, y: real)
  {
    -10.0 <= x < 10.0 && -10.0 <= y <= 10.0
  }

  /** A frame keeps every particle in the band: falling stays above -10, wrapping lands at 10. */
  lemma FallStaysInBand(x: real, y: real, speed: real, r: real)
    requires InBand(x, y) && 0.01 <= speed < 0.03 && 0.0 <= r < 1.0
    ensures InBand(if Wraps(y, speed) then Spread20(r) else x, FallY(y, speed))
    ensures Wraps(y, speed) ==> y < -9.97
  {
  }

  /**
   * The rendered particles: one child per generated particle, whose x and y the frame
   * callback moves in place (z never changes).
   */
  class BinaryGroup {
    const particles: seq<BinaryParticle>
    const xs: array<real>
    const ys: array<real>

    ghost predicate Valid()
      reads this, xs, ys
    {
      && xs != ys
      && xs.Length == |particles| && ys.Length == |particles|
      && (forall i :: 0 <= i < |particles| ==> WellFormedParticle(particles[i]))
      && (forall i :: 0 <= i < |particles| ==> InBand(xs[i], ys[i]))
    }

    constructor (particles: seq<BinaryParticle>)
      requires forall i :: 0 <= i < |particles| ==> WellFormedParticle(particles[i])
      ensures Valid() && this.particles == particles && fresh(xs) && fresh(ys)
      ensures forall i :: 0 <= i < |particles| ==> xs[i] == particles[i].position.x && ys[i] == particles[i].position.y
    {
      this.particles := particles;
      xs := new real[|particles|](i requires 0 <= i < |particles| => particles[i].position.x);
      ys := new real[|particles|](i requires 0 <= i < |particles| => particles[i].position.y);
    }

    /**
     * The `useFrame` callback. `groupPresent` is whether the group ref is set; `rs` are the
     * draws for the particles that wrap, in child order.
     */
    method Frame(groupPresent: bool, rs: seq<real>) returns (used: nat)
      requires Valid() && UnitDraws(rs) && |particles| <= |rs|
      modifies xs, ys
      ensures Valid()
      ensures !groupPresent ==> used == 0 && xs[..] == old(xs[..]) && ys[..] == old(ys[..])
      ensures groupPresent ==> used == WrapsBefore(old(ys[..]), particles, |particles|)
      ensures groupPresent ==> forall i :: 0 <= i < |particles| ==>
        && ys[i] == FallY(old(ys[i]), particles[i].speed)
        && xs[i] == (if Wraps(old(ys[i]), particles[i].speed)
                     then Spread20(rs[WrapsBefore(old(ys[..]), particles, i)])
                     else old(xs[i]))
    {
      used := 0;
      if !groupPresent {
        return;
      }
      ghost var ys0 := ys[..];
      for i := 0 to xs.Length
        invariant used == WrapsBefore(ys0, particles, i)
        invariant forall j :: i <= j < |particles| ==> xs[j] == old(xs[j]) && ys[j] == old(ys[j])
        invariant forall j :: 0 <= j < i ==>
          && ys[j] == FallY(ys0[j], particles[j].speed)
          && xs[j] == (if Wraps(ys0[j], particles[j].speed) then Spread20(rs[WrapsBefore(ys0, particles, j)]) else old(xs[j]))
        invariant forall j :: 0 <= j < |particles| ==> InBand(xs[j], ys[j])
      {
        FallStaysInBand(xs[i], ys[i], particles[i].speed, rs[used]);
        ys[i] := ys[i] - particles[i].speed;
        if ys[i] < -10.0 {
          ys[i] := 10.0;
          xs[i] := (rs[used] - 0.5) * 20.0;
          used := used + 1;
        }
      }
    }
  }

  // ---------------------------------------------------------------------------
  // Circuit lines
  // ---------------------------------------------------------------------------

  datatype CircuitLine = CircuitLine(points: seq<Vec3>, color: string, lineWidth: real)

  /** The line colour depends on the theme only. */
  function LineColor(isDark: bool): string
  {
    if isDark then "#4f46e5" else "#3b82f6"
  }

  function Abs(v: real): real
  {
    if v < 0.0 then -v else v
  }

  /** One right-angled segment: exactly one of x and y moves, by 0.5 up to 1.5; z stays. */
  predicate AxisStep(a: Vec3, b: Vec3)
  {
    && a.z == b.z
    && ((a.y == b.y && 0.5 <= Abs(b.x - a.x) < 1.5) || (a.x == b.x && 0.5 <= Abs(b.y - a.y) < 1.5))
  }

  /** A circuit path: a start in the placement box and two or three right-angled segments. */
  predicate CircuitPath(points: seq<Vec3>)
  {
    && 3 <= |points| <= 4
    && -7.5 <= points[0].x < 7.5 && -7.5 <= points[0].y < 7.5 && -12.0 < points[0].z <= -2.0
    && (forall k :: 0 <= k < |points| - 1 ==> AxisStep(points[k], points[k + 1]))
    && (forall k :: 0 <= k < |points| ==> points[k].z == points[0].z)
  }

  /** `Math.floor(Math.random() * 2)`: 0 or 1. */
  function CoinFloor(r: real): (c: int)
    requires 0.0 <= r < 1.0
    ensures c == 0 || c == 1
    ensures c == 0 <==> r < 0.5
  {
    (r * 2.0).Floor
  }

  /**
   * The memoised generator of `CircuitLines`. Each line draws its start (x, y, z), its
   * number of segments, three draws per segment (axis, length, sign) and a line width.
   * Returns the lines and the number of draws consumed.
   */
  method GenerateCircuitLines(count: nat, isDark: bool, rs: seq<real>) returns (lines: seq<CircuitLine>, used: nat)
    requires UnitDraws(rs) && 14 * count <= |rs|
    ensures |lines| == count
    ensures used <= 14 * count
    ensures forall i :: 0 <= i < |lines| ==> CircuitPath(lines[i].points)
    ensures forall i :: 0 <= i < |lines| ==> lines[i].color == LineColor(isDark)
    ensures forall i :: 0 <= i < |lines| ==> 0.5 <= lines[i].lineWidth < 1.5
  {
    lines := [];
    used := 0;
    for i := 0 to count
      invariant |lines| == i && used <= 14 * i
      invariant forall l :: 0 <= l < i ==> CircuitPath(lines[l].points)
      invariant forall l :: 0 <= l < i ==> lines[l].color == LineColor(isDark)
      invariant forall l :: 0 <= l < i ==> 0.5 <= lines[l].lineWidth < 1.5
    {
      var points;
      points, used := CircuitPathFrom(rs, used);
      if |points| >= 2 {
        var color := LineColor(isDark);
        var lineWidth := rs[used] + 0.5;
        used := used + 1;
        lines := lines + [CircuitLine(points, color, lineWidth)];
      }
    }
  }

  /** The path of one circuit line, drawn from `rs[at..]`; returns it and the next unused draw. */
  method CircuitPathFrom(rs: seq<real>, at: nat) returns (points: seq<Vec3>, next: nat)
    requires UnitDraws(rs) && at + 13 <= |rs|
    ensures CircuitPath(points)
    ensures at + 10 <= next <= at + 13
  {
    var startX := (rs[at] - 0.5) * 15.0;
    var startY := (rs[at + 1] - 0.5) * 15.0;
    var startZ := rs[at + 2] * -10.0 - 2.0;
    points := [Vec3(startX, startY, startZ)];
    var currentX, currentY := startX, startY;
    var segments := CoinFloor(rs[at + 3]) + 2;
    next := at + 4;
    for j := 0 to segments
      invariant |points| == j + 1 && next == at + 4 + 3 * j
      invariant points[0] == Vec3(startX, startY, startZ)
      invariant points[j] == Vec3(currentX, currentY, startZ)
      invariant forall k :: 0 <= k < j ==> AxisStep(points[k], points[k + 1])
      invariant forall k :: 0 <= k <= j ==> points[k].z == startZ
    {
      var direction := CoinFloor(rs[next]);
      var distance := (rs[next + 1] + 0.5) * (if rs[next + 2] > 0.5 then 1.0 else -1.0);
      if direction == 0 {
        currentX := currentX + distance;
      } else {
        currentY := currentY + distance;
      }
      // The source skips a point with a NaN coordinate; exact reals are never NaN.
      points := points + [Vec3(currentX, currentY, startZ)];
      next := next + 3;
    }
  }

  /**
   * The scene's two generators as mounted, binary particles first and circuit lines after,
   * drawing from one stream: 50 particles and 10 lines on a mobile screen, 100 and 20 otherwise.
   */
  method GenerateScene(isMobile: bool, isDark: bool, rs: seq<real>)
    returns (particles: seq<BinaryParticle>, lines: seq<CircuitLine>)
    requires UnitDraws(rs) && 6 * BinaryCount(isMobile) + 14 * CircuitCount(isMobile) <= |rs|
    ensures |particles| == (if isMobile then 50 else 100)
    ensures |lines| == (if isMobile then 10 else 20)
    ensures forall i :: 0 <= i < |particles| ==> WellFormedParticle(particles[i])
    ensures forall i :: 0 <= i < |lines| ==> CircuitPath(lines[i].points) && lines[i].color == LineColor(isDark)
  {
    var used := 6 * BinaryCount(isMobile);
    particles := GenerateBinaryParticles(BinaryCount(isMobile), rs[..used]);
    var rest := rs[used..];
    assert UnitDraws(rest) by {
      forall k | 0 <= k < |rest| ensures 0.0 <= rest[k] < 1.0 {
        assert rest[k] == rs[used + k];
      }
    }
    var consumed;
    lines, consumed := GenerateCircuitLines(CircuitCount(isMobile), isDark, rest);
  }

  /** The circuit group turns about z by 0.0005 per frame while it is mounted. */
  class CircuitGroup {
    var rotationZ: real

    constructor ()
      ensures rotationZ == 0.0
    {
      rotationZ := 0.0;
    }

    method Frame(groupPresent: bool)
      modifies this
      ensures rotationZ == if groupPresent then old(rotationZ) + 0.0005 else old(rotationZ)
    {
      if groupPresent {
        rotationZ := rotationZ + 0.0005;
      }
    }
  }

  // ---------------------------------------------------------------------------
  // Code symbols
  // ---------------------------------------------------------------------------

  /** The per-frame turn of symbol i about its z axis: even ones one way, odd ones the other. */
  function Spin(i: nat): (d: real)
    ensures d == 0.002 || d == -0.002
    ensures d > 0.0 <==> i % 2 == 0
  {
    0.002 * (if i % 2 == 0 then 1.0 else -1.0)
  }

  /** Neighbouring symbols 2k and 2k + 1 turn in opposite directions at the same rate. */
  lemma NeighboursCounterRotate(k: nat)
    ensures Spin(2 * k) == -Spin(2 * k + 1)
  {
  }

  /** The symbols' group: its own turn about y and each child's turn about z. */
  class SymbolGroup {
    var rotationY: real
    const rotationsZ: array<real>

    constructor (initial: seq<real>)
      ensures rotationY == 0.0 && rotationsZ[..] == initial && fresh(rotationsZ)
    {
      rotationY := 0.0;
      rotationsZ := new real[|initial|](i requires 0 <= i < |initial| => initial[i]);
    }

    method Frame(groupPresent: bool)
      modifies this, rotationsZ
      ensures !groupPresent ==> rotationY == old(rotationY) && rotationsZ[..] == old(rotationsZ[..])
      ensures groupPresent ==> rotationY == old(rotationY) + 0.001
      ensures groupPresent ==> forall i :: 0 <= i < rotationsZ.Length ==> rotationsZ[i] == old(rotationsZ[i]) + Spin(i)
    {
      if !groupPresent {
        return;
      }
      rotationY := rotationY + 0.001;
      for i := 0 to rotationsZ.Length
        invariant rotationY == old(rotationY) + 0.001
        invariant forall j :: 0 <= j < i ==> rotationsZ[j] == old(rotationsZ[j]) + Spin(j)
        invariant forall j :: i <= j < rotationsZ.Length ==> rotationsZ[j] == old(rotationsZ[j])
      {
        rotationsZ[i] := rotationsZ[i] + 0.002 * (if i % 2 == 0 then 1.0 else -1.0);
      }
    }
  }
}
