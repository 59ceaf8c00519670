/**
 The `Circle` shape: a vertex array holding the centre followed by N rim
 points, and a triangle-fan draw order over it. `GLShape.java` fixes N (the
 section count) at 360; the model keeps N as a parameter.
 */
module CircleGeometry {
  import opened JavaTypes

  const CenterX: real := -0.5
  const CenterY: real := -0.5
  const Radius: real := 0.5
  const SectionCount: int := 360

  /**
   The values `Math.sin(i * incr)` and `Math.cos(i * incr)` for rim point `i`,
   with `incr = 2 * PI / N`, left uninterpreted.
   */
  datatype Trig = Trig(sinAt: int -> real, cosAt: int -> real)

  /** Coordinate `j` (0 = x, 1 = y, 2 = z) of rim point `i`. */
  function RimCoord(trig: Trig, i: int, j: int): real {
    if j == 0 then CenterX + Radius * trig.sinAt(i)
    else if j == 1 then CenterY + Radius * trig.cosAt(i)
    else 0.0
  }

  /** Entry `k` of the flat vertex array: vertex `k / 3`, coordinate `k % 3`. */
  function CoordAt(trig: Trig, k: nat): real {
    if k / 3 == 0 then [CenterX, CenterY, 0.0][k % 3] else RimCoord(trig, k / 3, k % 3)
  }

  /**
   `getCounterClockWiseVertex()` for section count `n`. The array has
   `3 * (n + 1)` entries; for `n == -1` it is empty and the store into
   `v[0]` fails; for `n < -1` its size is negative.
   */
  function CircleCoords(n: int, trig: Trig): (r: Result<seq<real>>)
    requires IsShort(n)
    ensures r.Ok? <==> n >= 0
    ensures n == -1 ==> r == Thrown(ArrayIndexOutOfBounds)
    ensures n < -1 ==> r == Thrown(NegativeArraySize)
    ensures r.Ok? ==> |r.value| == 3 * (n + 1) && |r.value| % 3 == 0
    ensures r.Ok? ==> r.value[..3] == [CenterX, CenterY, 0.0]
    ensures r.Ok? ==> forall k :: 0 <= k < |r.value| && k % 3 == 2 ==> r.value[k] == 0.0
  {
    if n < -1 then Thrown(NegativeArraySize)
    else if n == -1 then Thrown(ArrayIndexOutOfBounds)
    else Ok(seq(3 * (n + 1), k requires 0 <= k => CoordAt(trig, k)))
  }

  /**
   The same array, built the way the Java loop builds it: the centre is stored
   first, then each rim point in turn.
   */
  method CounterClockWiseVertex(n: int, trig: Trig) returns (r: Result<seq<real>>)
    requires IsShort(n)
    ensures r.Ok? <==> n >= 0
    ensures r == CircleCoords(n, trig)
    ensures r.Ok? ==> forall i :: 1 <= i <= n ==>
      r.value[3 * i] == CenterX + Radius * trig.sinAt(i) &&
      r.value[3 * i + 1] == CenterY + Radius * trig.cosAt(i)
  {
    if n < -1 {
      return Thrown(NegativeArraySize);
    }
    var size := 3 * (n + 1);
    if size == 0 {
      return Thrown(ArrayIndexOutOfBounds);
    }
    var v := new real[size](_ => 0.0);
    v[0] := CenterX;
    v[1] := CenterY;
    v[2] := 0.0;
    var i := 1;
    while i <= n
      invariant 1 <= i <= n + 1
      invariant forall k :: 0 <= k < 3 * i ==> v[k] == CoordAt(trig, k)
    {
      v[3 * i] := CenterX + Radius * trig.sinAt(i);
      v[3 * i + 1] := CenterY + Radius * trig.cosAt(i);
      v[3 * i + 2] := 0.0;
      forall k | 3 * i <= k < 3 * i + 3
        ensures v[k] == CoordAt(trig, k)
      {
        assert k / 3 == i && k % 3 == k - 3 * i;
      }
      i := i + 1;
    }
    assert v[..] == CircleCoords(n, trig).value;
    r := Ok(v[..]);
    forall i | 1 <= i <= n
      ensures r.value[3 * i] == CenterX + Radius * trig.sinAt(i)
      ensures r.value[3 * i + 1] == CenterY + Radius * trig.cosAt(i)
    {
      assert (3 * i) / 3 == i && (3 * i + 1) / 3 == i && (3 * i + 1) % 3 == 1;
    }
  }

  /** Triangle `t` of the fan: the wrap-around `(0, n, 1)` first, then `(0, t, t + 1)`. */
  function FanTriangle(n: int, t: int): (int, int, int) {
    if t == 0 then (0, n, 1) else (0, t, t + 1)
  }

  /** Component `j` (0, 1 or 2) of a triangle. */
  function Corner(tri: (int, int, int), j: int): int {
    if j == 0 then tri.0 else if j == 1 then tri.1 else tri.2
  }

  /** The fan's `n` triangles, flattened into one index sequence. */
  function FanOrder(n: nat): (order: seq<int>)
    ensures |order| == 3 * n
  {
    seq(3 * n, k requires 0 <= k => Corner(FanTriangle(n, k / 3), k % 3))
  }

  /** Triangle `t` of a flat index sequence. */
  function TriangleAt(order: seq<int>, t: nat): (int, int, int)
    requires 3 * t + 2 < |order|
  {
    (order[3 * t], order[3 * t + 1], order[3 * t + 2])
  }

  /**
   `getDrawOrder()` for section count `n`: the fan order, or the exception
   the Java code raises when `n` leaves no room for the first triangle.
   */
  function CircleDrawOrder(n: int): (r: Result<seq<int>>)
    requires IsShort(n)
    ensures r.Ok? <==> n >= 1
    ensures n == 0 ==> r == Thrown(ArrayIndexOutOfBounds)
    ensures n < 0 ==> r == Thrown(NegativeArraySize)
    ensures r.Ok? ==> |r.value| == 3 * n && |r.value| % 3 == 0
    ensures r.Ok? ==> r.value == FanOrder(n)
  {
    if n < 0 then Thrown(NegativeArraySize)
    else if n == 0 then Thrown(ArrayIndexOutOfBounds)
    else Ok(FanOrder(n))
  }

  /**
   The Java loop, with its `(short)` casts of `i` and `i + 1`. Because
   `n` is itself a `short`, the casts never change a value and the result is
   exactly the fan.
   */
  method GetDrawOrder(n: int) returns (r: Result<seq<int>>)
    requires IsShort(n)
    ensures r == CircleDrawOrder(n)
  {
    if n < 0 {
      return Thrown(NegativeArraySize);
    }
    if n == 0 {
      return Thrown(ArrayIndexOutOfBounds);
    }
    var order := new int[3 * n](_ => 0);
    order[0] := 0;
    order[1] := n;
    order[2] := 1;
    var i := 1;
    while i < n
      invariant 1 <= i <= n
      invariant forall k :: 0 <= k < 3 * i ==> order[k] == FanOrder(n)[k]
    {
      order[3 * i] := 0;
      order[3 * i + 1] := ToShort(i);
      order[3 * i + 2] := ToShort(i + 1);
      forall k | 3 * i <= k < 3 * i + 3
        ensures order[k] == FanOrder(n)[k]
      {
        assert k / 3 == i && k % 3 == k - 3 * i;
      }
      i := i + 1;
    }
    assert order[..] == FanOrder(n);
    r := Ok(order[..]);
  }

  /** Every index of the fan names one of the `n + 1` vertices. */
  lemma {:induction false} FanIndicesInRange(n: nat)
    ensures forall k :: 0 <= k < |FanOrder(n)| ==> 0 <= FanOrder(n)[k] <= n
  {
    forall k | 0 <= k < |FanOrder(n)|
      ensures 0 <= FanOrder(n)[k] <= n
    {
      assert k / 3 < n;
    }
  }

  /** The fan's triangles are the wrap-around `(0, n, 1)` followed by `(0, t, t + 1)`. */
  lemma {:induction false} FanStructure(n: nat)
    requires n >= 1
    ensures TriangleAt(FanOrder(n), 0) == (0, n, 1)
    ensures forall t: nat :: 1 <= t < n ==> TriangleAt(FanOrder(n), t) == (0, t, t + 1)
  {
    forall t: nat | t < n
      ensures TriangleAt(FanOrder(n), t) == FanTriangle(n, t)
    {
      assert (3 * t) / 3 == t && (3 * t + 1) / 3 == t && (3 * t + 2) / 3 == t;
      assert (3 * t) % 3 == 0 && (3 * t + 1) % 3 == 1 && (3 * t + 2) % 3 == 2;
    }
  }

  /** The rim point that follows rim point `k` (1 to n), going round the circle. */
  function NextRim(n: int, k: int): int
    requires 1 <= k <= n
  {
    if k == n then 1 else k + 1
  }

  /**
   The fan closes: every triangle starts at the centre, and each rim edge
   `k -> NextRim(k)` is the outer edge of exactly one triangle.
   */
  lemma {:induction false} FanCoversRimOnce(n: nat)
    requires n >= 1
    ensures forall t: nat :: t < n ==> TriangleAt(FanOrder(n), t).0 == 0
    ensures forall k :: 1 <= k <= n ==>
      exists t: nat :: t < n && TriangleAt(FanOrder(n), t) == (0, k, NextRim(n, k))
    ensures forall t1: nat, t2: nat ::
      (t1 < n && t2 < n && TriangleAt(FanOrder(n), t1).1 == TriangleAt(FanOrder(n), t2).1) ==> t1 == t2
  {
    FanStructure(n);
    forall k | 1 <= k <= n
      ensures exists t: nat :: t < n && TriangleAt(FanOrder(n), t) == (0, k, NextRim(n, k))
    {
      var t: nat := if k == n then 0 else k;
      assert TriangleAt(FanOrder(n), t) == (0, k, NextRim(n, k));
    }
  }
}
