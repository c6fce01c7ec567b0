/**
 * The Perlin noise generator: three shuffled permutation tables of 0..255
 * and a table of 256 random reals, indexed by the lattice cell around a
 * point. The tables are arrays built and shuffled in place; the lookups and
 * the trilinear interpolation read them.
 */
module PerlinNoise {
  import opened Geometry
  import opened Common

  const PointCount: nat := 256

  /** The sequence 0, 1, ..., n-1. */
  function Identity(n: nat): (s: seq<int>)
    ensures |s| == n && forall i :: 0 <= i < n ==> s[i] == i
  {
    seq(n, i => i)
  }

  /** `s` holds every value of 0..n-1 exactly once. */
  ghost predicate IsPermutationOf(s: seq<int>, n: nat) {
    multiset(s) == multiset(Identity(n))
  }

  /** Every entry of a permutation of 0..n-1 is an index into a table of size n. */
  lemma PermutationEntriesInRange(s: seq<int>, n: nat)
    requires IsPermutationOf(s, n)
    ensures |s| == n
    ensures forall i :: 0 <= i < |s| ==> 0 <= s[i] < n
  {
    assert |s| == |multiset(s)| == |multiset(Identity(n))| == n;
    forall i | 0 <= i < |s| ensures 0 <= s[i] < n {
      assert s[i] in multiset(s);
      assert s[i] in multiset(Identity(n));
      assert s[i] in Identity(n);
      var j :| 0 <= j < n && Identity(n)[j] == s[i];
    }
  }

  /**
   * `random_int(0, i)` draws for the shuffle: `t[i]` is the position that
   * the step for index `i` swaps with, for every `0 < i < n`.
   */
  predicate ValidTargets(t: seq<int>, n: int) {
    n <= |t| && forall i :: 0 < i < n ==> 0 <= t[i] <= i
  }

  /** `s` with the entries at `i` and `j` exchanged. */
  function Swap(s: seq<int>, i: nat, j: nat): (r: seq<int>)
    requires i < |s| && j < |s|
    ensures |r| == |s| && r[i] == s[j] && r[j] == s[i]
    ensures forall k :: 0 <= k < |s| && k != i && k != j ==> r[k] == s[k]
  {
    s[i := s[j]][j := s[i]]
  }

  /** An exchange only rearranges the entries. */
  lemma SwapPermutes(s: seq<int>, i: nat, j: nat)
    requires i < |s| && j < |s|
    ensures multiset(Swap(s, i, j)) == multiset(s)
  {
  }

  /**
   * The shuffle from index `i` down to 1: swap position `i` with its target,
   * then continue with `i - 1`. Nothing is swapped when `i <= 0`.
   */
  function ShuffleDown(s: seq<int>, t: seq<int>, i: int): (r: seq<int>)
    requires i < |s| && ValidTargets(t, i + 1)
    ensures |r| == |s|
    decreases i
  {
    if i <= 0 then s else ShuffleDown(Swap(s, i, t[i]), t, i - 1)
  }

  /** The shuffle only exchanges entries: the result is a rearrangement of its input. */
  lemma {:induction false} ShuffleDownPermutes(s: seq<int>, t: seq<int>, i: int)
    requires i < |s| && ValidTargets(t, i + 1)
    ensures multiset(ShuffleDown(s, t, i)) == multiset(s)
    decreases i
  {
    if i > 0 {
      SwapPermutes(s, i, t[i]);
      ShuffleDownPermutes(Swap(s, i, t[i]), t, i - 1);
    }
  }

  /** Positions above `i` are never touched by the steps from `i` down. */
  lemma {:induction false} ShuffleDownKeepsAbove(s: seq<int>, t: seq<int>, i: int, k: int)
    requires 0 <= k && i < k < |s| && ValidTargets(t, i + 1)
    ensures ShuffleDown(s, t, i)[k] == s[k]
    decreases i
  {
    if i > 0 {
      ShuffleDownKeepsAbove(Swap(s, i, t[i]), t, i - 1, k);
    }
  }

  /** `permute(p, n)`: the in-place shuffle of the first `n` entries of `p`. */
  method Permute(p: array<int>, n: int, targets: seq<int>)
    requires n <= p.Length && ValidTargets(targets, n)
    modifies p
    ensures p[..] == ShuffleDown(old(p[..]), targets, n - 1)
    ensures multiset(p[..]) == multiset(old(p[..]))
  {
    ghost var result := ShuffleDown(p[..], targets, n - 1);
    var i := n - 1;
    while i > 0
      invariant i <= n - 1
      invariant ShuffleDown(p[..], targets, i) == result
      decreases i
    {
      var target := targets[i];
      ghost var before := p[..];
      var tmp := p[i];
      p[i] := p[target];
      p[target] := tmp;
      assert p[..] == Swap(before, i, target);
      i := i - 1;
    }
    ShuffleDownPermutes(old(p[..]), targets, n - 1);
  }

  /** `perlin_generate_perm`: the identity table of size 256, shuffled. */
  method GeneratePerm(targets: seq<int>) returns (p: array<int>)
    requires ValidTargets(targets, PointCount)
    ensures fresh(p) && p.Length == PointCount
    ensures p[..] == ShuffleDown(Identity(PointCount), targets, PointCount - 1)
    ensures IsPermutationOf(p[..], PointCount)
    ensures forall i :: 0 <= i < p.Length ==> 0 <= p[i] < PointCount
  {
    p := new int[PointCount];
    var i := 0;
    while i < PointCount
      invariant 0 <= i <= PointCount
      invariant forall k :: 0 <= k < i ==> p[k] == k
    {
      p[i] := i;
      i := i + 1;
    }
    assert p[..] == Identity(PointCount);
    Permute(p, PointCount, targets);
    PermutationEntriesInRange(p[..], PointCount);
  }

  /** `n & 255` on a two's-complement `int`: the residue of `n` modulo 256. */
  function Mask255(n: int): (r: int)
    ensures 0 <= r < PointCount
    ensures (n - r) % 256 == 0
  {
    n % 256
  }

  /** `a ^ b` on non-negative `int`s: bitwise exclusive or, lowest bit first. */
  function Xor(a: nat, b: nat): nat
    decreases a + b
  {
    if a == 0 then b
    else if b == 0 then a
    else 2 * Xor(a / 2, b / 2) + (a % 2 + b % 2) % 2
  }

  function Pow2(n: nat): (p: nat)
    ensures p >= 1
  {
    if n == 0 then 1 else 2 * Pow2(n - 1)
  }

  /** Exclusive or never sets a bit above the operands' highest bit: n-bit inputs give an n-bit result. */
  lemma {:induction false} XorBelow(a: nat, b: nat, n: nat)
    requires a < Pow2(n) && b < Pow2(n)
    ensures Xor(a, b) < Pow2(n)
    decreases n
  {
    if a != 0 && b != 0 {
      XorBelow(a / 2, b / 2, n - 1);
    }
  }

  /** Exclusive or is symmetric, and cancels an operand applied twice. */
  lemma {:induction false} XorCommutes(a: nat, b: nat)
    ensures Xor(a, b) == Xor(b, a)
    decreases a + b
  {
    if a != 0 && b != 0 {
      XorCommutes(a / 2, b / 2);
    }
  }

  lemma {:induction false} XorSelf(a: nat)
    ensures Xor(a, a) == 0
    decreases a
  {
    if a != 0 {
      XorSelf(a / 2);
    }
  }

  /** The three-way exclusive or of table entries, itself a table index. */
  function Xor3(a: nat, b: nat, c: nat): (r: nat)
    requires a < PointCount && b < PointCount && c < PointCount
    ensures r < PointCount
  {
    assert Pow2(8) == PointCount;
    XorBelow(a, b, 8);
    XorBelow(Xor(a, b), c, 8);
    Xor(Xor(a, b), c)
  }

  /** The fractional part `x - floor(x)`. */
  function Frac(x: real): (f: real)
    ensures 0.0 <= f < 1.0
    ensures (x - f).Floor as real == x - f
  {
    var n := x.Floor;
    assert x - (x - n as real) == n as real;
    x - n as real
  }

  /** `u*u*(3-2u)`, the Hermite smoothing of an interpolation weight. */
  function Hermite(t: real): real {
    t * t * (3.0 - 2.0 * t)
  }

  lemma HermiteNonNegative(t: real)
    requires 0.0 <= t <= 1.0
    ensures Hermite(t) >= 0.0
  {
    assert t * t <= t * 1.0 by { ScaleMonotone(t, t, 1.0); }
    assert t * t * t <= t * t * 1.0 by { ScaleMonotone(t * t, t, 1.0); }
  }

  /** The smoothing fixes both ends of [0,1], maps it into itself and is symmetric about 1/2. */
  lemma HermiteProperties(t: real)
    ensures Hermite(0.0) == 0.0 && Hermite(1.0) == 1.0
    ensures Hermite(1.0 - t) == 1.0 - Hermite(t)
    ensures 0.0 <= t <= 1.0 ==> 0.0 <= Hermite(t) <= 1.0
  {
    if 0.0 <= t <= 1.0 {
      HermiteNonNegative(t);
      HermiteNonNegative(1.0 - t);
    }
  }

  /** The eight lattice values around a point, `cIJK` at corner offset (I,J,K). */
  datatype Cube = Cube(c000: real, c001: real, c010: real, c011: real,
                       c100: real, c101: real, c110: real, c111: real)

  /** The weight the source gives corner offset `b` (0 or 1) along an axis with fraction `t`. */
  function Weight(b: int, t: real): real {
    b as real * t + (1.0 - b as real) * (1.0 - t)
  }

  /** Trilinear interpolation: each corner weighted by the product of its three axis weights. */
  function WeightedSum(c: Cube, u: real, v: real, w: real): real {
    Weight(0, u) * Weight(0, v) * Weight(0, w) * c.c000 + Weight(0, u) * Weight(0, v) * Weight(1, w) * c.c001 +
    Weight(0, u) * Weight(1, v) * Weight(0, w) * c.c010 + Weight(0, u) * Weight(1, v) * Weight(1, w) * c.c011 +
    Weight(1, u) * Weight(0, v) * Weight(0, w) * c.c100 + Weight(1, u) * Weight(0, v) * Weight(1, w) * c.c101 +
    Weight(1, u) * Weight(1, v) * Weight(0, w) * c.c110 + Weight(1, u) * Weight(1, v) * Weight(1, w) * c.c111
  }

  /** The eight weights sum to 1 for any fractions, so a cube of equal corners yields that value. */
  lemma ConstantCube(u: real, v: real, w: real, x: real)
    ensures WeightedSum(Cube(x, x, x, x, x, x, x, x), u, v, w) == x
  {
    var a0, a1, b0, b1, d0, d1 := Weight(0, u), Weight(1, u), Weight(0, v), Weight(1, v), Weight(0, w), Weight(1, w);
    assert a0 + a1 == 1.0 && b0 + b1 == 1.0 && d0 + d1 == 1.0;
    SplitOne(a0 * b0 * x, d0, d1);
    SplitOne(a0 * b1 * x, d0, d1);
    SplitOne(a1 * b0 * x, d0, d1);
    SplitOne(a1 * b1 * x, d0, d1);
    SplitOne(a0 * x, b0, b1);
    SplitOne(a1 * x, b0, b1);
    SplitOne(x, a0, a1);
  }

  lemma SplitOne(p: real, a: real, b: real)
    requires a + b == 1.0
    ensures p * a + p * b == p
  {
  }

  /** At the origin corner the interpolation returns that corner's value, and at the far corner the far one. */
  lemma WeightedSumAtCorners(c: Cube)
    ensures WeightedSum(c, 0.0, 0.0, 0.0) == c.c000
    ensures WeightedSum(c, 1.0, 1.0, 1.0) == c.c111
  {
  }

  /** The value of `c` at corner offset (a, b, d). */
  function Corner(c: Cube, a: int, b: int, d: int): real
    requires 0 <= a < 2 && 0 <= b < 2 && 0 <= d < 2
  {
    if a == 0 then
      if b == 0 then (if d == 0 then c.c000 else c.c001) else (if d == 0 then c.c010 else c.c011)
    else
      if b == 0 then (if d == 0 then c.c100 else c.c101) else (if d == 0 then c.c110 else c.c111)
  }

  function CubeOf(c: array3<real>): Cube
    reads c
    requires c.Length0 == 2 && c.Length1 == 2 && c.Length2 == 2
  {
    Cube(c[0, 0, 0], c[0, 0, 1], c[0, 1, 0], c[0, 1, 1],
         c[1, 0, 0], c[1, 0, 1], c[1, 1, 0], c[1, 1, 1])
  }

  /** One summand of the source's triple loop. */
  function Term(c: array3<real>, u: real, v: real, w: real, i: int, j: int, k: int): real
    reads c
    requires 0 <= i < c.Length0 && 0 <= j < c.Length1 && 0 <= k < c.Length2
  {
    Weight(i, u) * Weight(j, v) * Weight(k, w) * c[i, j, k]
  }

  /** Partial sums of the triple loop: the first `n` terms of the innermost loop, ... */
  ghost function SumK(c: array3<real>, u: real, v: real, w: real, i: int, j: int, n: int): real
    reads c
    requires c.Length0 == 2 && c.Length1 == 2 && c.Length2 == 2
    requires 0 <= i < 2 && 0 <= j < 2 && 0 <= n <= 2
  {
    (if n >= 1 then Term(c, u, v, w, i, j, 0) else 0.0) + (if n >= 2 then Term(c, u, v, w, i, j, 1) else 0.0)
  }

  /** ... the first `n` rounds of the middle loop, ... */
  ghost function SumJ(c: array3<real>, u: real, v: real, w: real, i: int, n: int): real
    reads c
    requires c.Length0 == 2 && c.Length1 == 2 && c.Length2 == 2
    requires 0 <= i < 2 && 0 <= n <= 2
  {
    (if n >= 1 then SumK(c, u, v, w, i, 0, 2) else 0.0) + (if n >= 2 then SumK(c, u, v, w, i, 1, 2) else 0.0)
  }

  /** ... and the first `n` rounds of the outer loop. */
  ghost function SumI(c: array3<real>, u: real, v: real, w: real, n: int): real
    reads c
    requires c.Length0 == 2 && c.Length1 == 2 && c.Length2 == 2
    requires 0 <= n <= 2
  {
    (if n >= 1 then SumJ(c, u, v, w, 0, 2) else 0.0) + (if n >= 2 then SumJ(c, u, v, w, 1, 2) else 0.0)
  }

  /** One more round of the innermost loop adds one more term. */
  lemma SumKStep(c: array3<real>, u: real, v: real, w: real, i: int, j: int, k: int)
    requires c.Length0 == 2 && c.Length1 == 2 && c.Length2 == 2
    requires 0 <= i < 2 && 0 <= j < 2 && 0 <= k < 2
    ensures SumK(c, u, v, w, i, j, k + 1) == SumK(c, u, v, w, i, j, k) + Term(c, u, v, w, i, j, k)
  {
  }

  /** The three completed loops add up the eight weighted corners. */
  lemma SumIsWeightedSum(c: array3<real>, u: real, v: real, w: real)
    requires c.Length0 == 2 && c.Length1 == 2 && c.Length2 == 2
    ensures SumI(c, u, v, w, 2) == WeightedSum(CubeOf(c), u, v, w)
  {
  }

  /** `trilinear_interp`: the weighted sum over the eight corners, accumulated in loop order. */
  method TrilinearInterp(c: array3<real>, u: real, v: real, w: real) returns (accum: real)
    requires c.Length0 == 2 && c.Length1 == 2 && c.Length2 == 2
    ensures accum == WeightedSum(CubeOf(c), u, v, w)
  {
    accum := 0.0;
    for i := 0 to 2
      invariant accum == SumI(c, u, v, w, i)
    {
      for j := 0 to 2
        invariant accum == SumI(c, u, v, w, i) + SumJ(c, u, v, w, i, j)
      {
        for k := 0 to 2
          invariant accum == SumI(c, u, v, w, i) + SumJ(c, u, v, w, i, j) + SumK(c, u, v, w, i, j, k)
        {
          SumKStep(c, u, v, w, i, j, k);
          accum := accum + Weight(i, u) * Weight(j, v) * Weight(k, w) * c[i, j, k];
        }
      }
    }
    SumIsWeightedSum(c, u, v, w);
  }


  /** The loop of `perlin()` that fills the value table with one unit draw per entry. */
  method FillTable(draws: seq<real>) returns (table: array<real>)
    ensures fresh(table) && table[..] == draws
  {
    table := new real[|draws|];
    for i := 0 to |draws|
      invariant forall k :: 0 <= k < i ==> table[k] == draws[k]
    {
      table[i] := draws[i];
    }
  }

  /** The noise tables; built once by the constructor and only read afterwards. */
  class Perlin {
    const ranfloat: array<real>
    const permX: array<int>
    const permY: array<int>
    const permZ: array<int>

    ghost predicate Valid()
      reads this, ranfloat, permX, permY, permZ
    {
      ranfloat.Length == PointCount &&
      permX.Length == PointCount && permY.Length == PointCount && permZ.Length == PointCount &&
      (forall i :: 0 <= i < PointCount ==> 0 <= permX[i] < PointCount) &&
      (forall i :: 0 <= i < PointCount ==> 0 <= permY[i] < PointCount) &&
      (forall i :: 0 <= i < PointCount ==> 0 <= permZ[i] < PointCount) &&
      (forall i :: 0 <= i < PointCount ==> 0.0 <= ranfloat[i] < 1.0)
    }

    /**
     * `perlin()`, given the 256 unit draws for the value table and the
     * `random_int` draws of the three shuffles.
     */
    constructor (draws: seq<real>, tx: seq<int>, ty: seq<int>, tz: seq<int>)
      requires |draws| == PointCount && forall i :: 0 <= i < |draws| ==> 0.0 <= draws[i] < 1.0
      requires ValidTargets(tx, PointCount) && ValidTargets(ty, PointCount) && ValidTargets(tz, PointCount)
      ensures Valid()
      ensures IsPermutationOf(permX[..], PointCount)
      ensures IsPermutationOf(permY[..], PointCount)
      ensures IsPermutationOf(permZ[..], PointCount)
      ensures ranfloat[..] == draws
      ensures permX[..] == ShuffleDown(Identity(PointCount), tx, PointCount - 1)
      ensures permY[..] == ShuffleDown(Identity(PointCount), ty, PointCount - 1)
      ensures permZ[..] == ShuffleDown(Identity(PointCount), tz, PointCount - 1)
    {
      var table := FillTable(draws);
      var px := GeneratePerm(tx);
      var py := GeneratePerm(ty);
      var pz := GeneratePerm(tz);
      ranfloat, permX, permY, permZ := table, px, py, pz;
    }

    /** The table index for lattice cell (i, j, k), each coordinate masked to 0..255. */
    function Index(i: int, j: int, k: int): (n: int)
      reads this, ranfloat, permX, permY, permZ
      requires Valid()
      ensures 0 <= n < PointCount
    {
      Xor3(permX[Mask255(i)], permY[Mask255(j)], permZ[Mask255(k)])
    }

    /** `noise`: the table value of the cell of the point scaled by 4, truncated toward zero. */
    function Noise(p: Point3): (r: real)
      reads this, ranfloat, permX, permY, permZ
      requires Valid()
      ensures 0.0 <= r < 1.0
      ensures r == ranfloat[Index(TruncToInt(4.0 * p.x), TruncToInt(4.0 * p.y), TruncToInt(4.0 * p.z))]
    {
      var i := Mask255(TruncToInt(4.0 * p.x));
      var j := Mask255(TruncToInt(4.0 * p.y));
      var k := Mask255(TruncToInt(4.0 * p.z));
      ranfloat[Xor3(permX[i], permY[j], permZ[k])]
    }

    /**
     * Noise repeats every 64 units along x on the non-negative side; the
     * truncating cast breaks the period across zero, where the cell of
     * index 0 spans (-1/4, 1/4), twice the width of every other cell.
     */
    lemma NoisePeriodicAlongX(p: Point3)
      requires Valid()
      ensures p.x >= 0.0 ==> Noise(Vec3(p.x + 64.0, p.y, p.z)) == Noise(p)
      ensures -0.25 < p.x < 0.25 ==> Noise(p) == Noise(Vec3(0.0, p.y, p.z))
    {
      if p.x >= 0.0 {
        var n := TruncToInt(4.0 * p.x);
        assert TruncToInt(4.0 * (p.x + 64.0)) == n + 256;
        assert Mask255(n + 256) == Mask255(n);
      }
    }

    /** The value at corner offset (di, dj, dk) of cell (i, j, k). */
    function Lattice(i: int, j: int, k: int, di: int, dj: int, dk: int): (r: real)
      reads this, ranfloat, permX, permY, permZ
      requires Valid()
      ensures 0.0 <= r < 1.0
    {
      ranfloat[Index(i + di, j + dj, k + dk)]
    }

    /** The eight lattice values of cell (i, j, k). */
    function CellCorners(i: int, j: int, k: int): Cube
      reads this, ranfloat, permX, permY, permZ
      requires Valid()
    {
      Cube(Lattice(i, j, k, 0, 0, 0), Lattice(i, j, k, 0, 0, 1),
           Lattice(i, j, k, 0, 1, 0), Lattice(i, j, k, 0, 1, 1),
           Lattice(i, j, k, 1, 0, 0), Lattice(i, j, k, 1, 0, 1),
           Lattice(i, j, k, 1, 1, 0), Lattice(i, j, k, 1, 1, 1))
    }

    /** The `c[2][2][2]` filling loops shared by both interpolating lookups. */
    method FillCorners(i: int, j: int, k: int) returns (c: array3<real>)
      requires Valid()
      ensures fresh(c) && c.Length0 == 2 && c.Length1 == 2 && c.Length2 == 2
      ensures CubeOf(c) == CellCorners(i, j, k)
    {
      ghost var cube := CellCorners(i, j, k);
      c := new real[2, 2, 2];
      for di := 0 to 2
        invariant forall a, b, d :: 0 <= a < di && 0 <= b < 2 && 0 <= d < 2 ==> c[a, b, d] == Corner(cube, a, b, d)
      {
        for dj := 0 to 2
          invariant forall a, b, d :: 0 <= a < di && 0 <= b < 2 && 0 <= d < 2 ==> c[a, b, d] == Corner(cube, a, b, d)
          invariant forall b, d :: 0 <= b < dj && 0 <= d < 2 ==> c[di, b, d] == Corner(cube, di, b, d)
        {
          for dk := 0 to 2
            invariant forall a, b, d :: 0 <= a < di && 0 <= b < 2 && 0 <= d < 2 ==> c[a, b, d] == Corner(cube, a, b, d)
            invariant forall b, d :: 0 <= b < dj && 0 <= d < 2 ==> c[di, b, d] == Corner(cube, di, b, d)
            invariant forall d :: 0 <= d < dk ==> c[di, dj, d] == Corner(cube, di, dj, d)
          {
            c[di, dj, dk] := ranfloat[Xor3(permX[Mask255(i + di)], permY[Mask255(j + dj)], permZ[Mask255(k + dk)])];
            assert c[di, dj, dk] == Corner(cube, di, dj, dk);
          }
        }
      }
    }

    /** `noise_tri_interpolation`: the trilinear blend of the cell's corners at the point's fractions. */
    method NoiseTriInterpolation(p: Point3) returns (r: real)
      requires Valid()
      ensures r == WeightedSum(CellCorners(p.x.Floor, p.y.Floor, p.z.Floor), Frac(p.x), Frac(p.y), Frac(p.z))
      ensures Frac(p.x) == 0.0 && Frac(p.y) == 0.0 && Frac(p.z) == 0.0 ==>
        r == Lattice(p.x.Floor, p.y.Floor, p.z.Floor, 0, 0, 0)
    {
      var u := p.x - p.x.Floor as real;
      var v := p.y - p.y.Floor as real;
      var w := p.z - p.z.Floor as real;
      var i := p.x.Floor;
      var j := p.y.Floor;
      var k := p.z.Floor;
      var c := FillCorners(i, j, k);
      r := TrilinearInterp(c, u, v, w);
      WeightedSumAtCorners(CubeOf(c));
    }

    /** `noise_Hermite`: as above, with each fraction smoothed by the Hermite cubic first. */
    method NoiseHermite(p: Point3) returns (r: real)
      requires Valid()
      ensures r == WeightedSum(CellCorners(p.x.Floor, p.y.Floor, p.z.Floor),
                               Hermite(Frac(p.x)), Hermite(Frac(p.y)), Hermite(Frac(p.z)))
      ensures Frac(p.x) == 0.0 && Frac(p.y) == 0.0 && Frac(p.z) == 0.0 ==>
        r == Lattice(p.x.Floor, p.y.Floor, p.z.Floor, 0, 0, 0)
    {
      var u := p.x - p.x.Floor as real;
      var v := p.y - p.y.Floor as real;
      var w := p.z - p.z.Floor as real;
      u, v, w := Hermite(u), Hermite(v), Hermite(w);
      var i := p.x.Floor;
      var j := p.y.Floor;
      var k := p.z.Floor;
      var c := FillCorners(i, j, k);
      r := TrilinearInterp(c, u, v, w);
      HermiteProperties(Frac(p.x));
      WeightedSumAtCorners(CubeOf(c));
    }
  }
}
