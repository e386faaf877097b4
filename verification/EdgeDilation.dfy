/** `getExtendedEdges`: a 3x3 dilation, clamped at the image border and applied
    recursively. Row `j` and column `k` index a pixel, as in the source. */
module EdgeDilation {

  /** An 8-bit pixel. */
  newtype Pixel = x: int | 0 <= x < 256

  function Max(a: int, b: int): int { if a < b then b else a }

  function Min(a: int, b: int): int { if b < a then b else a }

  /** `b` lies within distance `r` of `a`. */
  predicate Near(a: int, b: int, r: nat) {
    a - b <= r && b - a <= r
  }

  /** Some non-zero pixel of the image lies within Chebyshev distance `r` of (j, k). */
  ghost predicate Reached(e: array2<Pixel>, j: int, k: int, r: nat)
    reads e
  {
    exists a, b :: 0 <= a < e.Length0 && 0 <= b < e.Length1 && e[a, b] != 0 && Near(j, a, r) && Near(k, b, r)
  }

  /** The nine writes for one non-zero pixel. */
  method MarkAround(t: array2<Pixel>, j: int, k: int)
    requires 0 <= j < t.Length0 && 0 <= k < t.Length1
    modifies t
    ensures forall a, b :: 0 <= a < t.Length0 && 0 <= b < t.Length1 ==>
              t[a, b] == if Near(a, j, 1) && Near(b, k, 1) then 255 else old(t[a, b])
  {
    var jPrevious, kPrevious := Max(0, j - 1), Max(0, k - 1);
    var jNext, kNext := Min(t.Length0 - 1, j + 1), Min(t.Length1 - 1, k + 1);
    t[jPrevious, k] := 255;
    t[jPrevious, kPrevious] := 255;
    t[jPrevious, kNext] := 255;
    t[jNext, k] := 255;
    t[jNext, kPrevious] := 255;
    t[jNext, kNext] := 255;
    t[j, kPrevious] := 255;
    t[j, kNext] := 255;
    t[j, k] := 255;
  }

  /** Pixel (a, b) comes before (j, k) in the scan. */
  predicate Scanned(a: int, b: int, j: int, k: int) {
    a < j || (a == j && b < k)
  }

  /** Some non-zero pixel scanned before (j, k) is adjacent to (x, y). */
  ghost predicate ReachedSoFar(e: array2<Pixel>, x: int, y: int, j: int, k: int)
    reads e
  {
    exists a, b :: 0 <= a < e.Length0 && 0 <= b < e.Length1 && Scanned(a, b, j, k)
                   && e[a, b] != 0 && Near(x, a, 1) && Near(y, b, 1)
  }

  /** One pass. */
  method Pass(e: array2<Pixel>) returns (t: array2<Pixel>)
    ensures fresh(t) && t.Length0 == e.Length0 && t.Length1 == e.Length1
    ensures forall x, y :: 0 <= x < t.Length0 && 0 <= y < t.Length1 ==>
              t[x, y] == if Reached(e, x, y, 1) then 255 else 0
  {
    var height, width := e.Length0, e.Length1;
    t := new Pixel[height, width]((_, _) => 0);
    for j := 0 to height
      invariant forall x, y :: 0 <= x < height && 0 <= y < width ==>
                  t[x, y] == if ReachedSoFar(e, x, y, j, 0) then 255 else 0
    {
      for k := 0 to width
        invariant forall x, y :: 0 <= x < height && 0 <= y < width ==>
                    t[x, y] == if ReachedSoFar(e, x, y, j, k) then 255 else 0
      {
        if e[j, k] != 0 { MarkAround(t, j, k); }
        forall x, y | 0 <= x < height && 0 <= y < width
          ensures ReachedSoFar(e, x, y, j, k + 1) <==>
                    ReachedSoFar(e, x, y, j, k) || (e[j, k] != 0 && Near(x, j, 1) && Near(y, k, 1))
        {
          ScanOne(e, x, y, j, k);
        }
      }
      forall x, y | 0 <= x < height && 0 <= y < width
        ensures ReachedSoFar(e, x, y, j, width) <==> ReachedSoFar(e, x, y, j + 1, 0)
      {
        ScanRow(e, x, y, j);
      }
    }
    forall x, y | 0 <= x < height && 0 <= y < width
      ensures ReachedSoFar(e, x, y, height, 0) <==> Reached(e, x, y, 1)
    {
      ScanAll(e, x, y);
    }
  }

  lemma ScanOne(e: array2<Pixel>, x: int, y: int, j: int, k: int)
    requires 0 <= j < e.Length0 && 0 <= k < e.Length1
    ensures ReachedSoFar(e, x, y, j, k + 1) <==>
              ReachedSoFar(e, x, y, j, k) || (e[j, k] != 0 && Near(x, j, 1) && Near(y, k, 1))
  {
    if ReachedSoFar(e, x, y, j, k + 1) {
      var a, b :| 0 <= a < e.Length0 && 0 <= b < e.Length1 && Scanned(a, b, j, k + 1)
                  && e[a, b] != 0 && Near(x, a, 1) && Near(y, b, 1);
      assert Scanned(a, b, j, k) || (a == j && b == k);
    }
    if ReachedSoFar(e, x, y, j, k) {
      var a, b :| 0 <= a < e.Length0 && 0 <= b < e.Length1 && Scanned(a, b, j, k)
                  && e[a, b] != 0 && Near(x, a, 1) && Near(y, b, 1);
      assert Scanned(a, b, j, k + 1);
    }
    if e[j, k] != 0 && Near(x, j, 1) && Near(y, k, 1) { assert Scanned(j, k, j, k + 1); }
  }

  lemma ScanRow(e: array2<Pixel>, x: int, y: int, j: int)
    ensures ReachedSoFar(e, x, y, j, e.Length1) <==> ReachedSoFar(e, x, y, j + 1, 0)
  {
    assert forall a, b :: 0 <= b < e.Length1 ==> (Scanned(a, b, j, e.Length1) <==> Scanned(a, b, j + 1, 0));
  }

  lemma ScanAll(e: array2<Pixel>, x: int, y: int)
    ensures ReachedSoFar(e, x, y, e.Length0, 0) <==> Reached(e, x, y, 1)
  {
    assert forall a, b :: 0 <= a < e.Length0 ==> Scanned(a, b, e.Length0, 0);
  }

  // -------------------------------------------------------- the recursion

  /** One pixel from `c` towards `x`. */
  function Towards(c: int, x: int): int {
    if x > c then c + 1 else if x < c then c - 1 else c
  }

  /** What a pass marks and `r` more passes spread is what lies within `r + 1`: the
      pixel one step back towards the target is inside the image. */
  lemma PassThenSpread(e: array2<Pixel>, t: array2<Pixel>, x: int, y: int, r: nat)
    requires t.Length0 == e.Length0 && t.Length1 == e.Length1
    requires forall a, b :: 0 <= a < t.Length0 && 0 <= b < t.Length1 ==> (t[a, b] != 0 <==> Reached(e, a, b, 1))
    requires 0 <= x < e.Length0 && 0 <= y < e.Length1
    ensures Reached(t, x, y, r) <==> Reached(e, x, y, r + 1)
  {
    if Reached(t, x, y, r) {
      var a, b :| 0 <= a < t.Length0 && 0 <= b < t.Length1 && t[a, b] != 0 && Near(x, a, r) && Near(y, b, r);
      var c, d :| 0 <= c < e.Length0 && 0 <= d < e.Length1 && e[c, d] != 0 && Near(a, c, 1) && Near(b, d, 1);
      assert Near(x, c, r + 1) && Near(y, d, r + 1);
    }
    if Reached(e, x, y, r + 1) {
      var c, d :| 0 <= c < e.Length0 && 0 <= d < e.Length1 && e[c, d] != 0 && Near(x, c, r + 1) && Near(y, d, r + 1);
      var a, b := Towards(c, x), Towards(d, y);
      assert Near(a, c, 1) && Near(b, d, 1);
      assert Reached(e, a, b, 1);
      assert Near(x, a, r) && Near(y, b, r);
    }
  }

  /** `getExtendedEdges`. With `r` stages to go, the result marks exactly the pixels
      within Chebyshev distance `r` of a non-zero source pixel: `r` clamped 3x3 passes
      are one dilation by a square of side 2r + 1. The source image is left alone and,
      with no stage to go, returned itself. */
  method GetExtendedEdges(e: array2<Pixel>, stages: int, stage: int) returns (edges: array2<Pixel>)
    requires stage <= stages
    ensures edges.Length0 == e.Length0 && edges.Length1 == e.Length1
    ensures if stage == stages then edges == e else fresh(edges)
    ensures forall x, y :: 0 <= x < e.Length0 && 0 <= y < e.Length1 ==>
              (edges[x, y] != 0 <==> Reached(e, x, y, stages - stage))
    ensures stage < stages ==>
              forall x, y :: 0 <= x < e.Length0 && 0 <= y < e.Length1 ==> edges[x, y] == 0 || edges[x, y] == 255
    decreases stages - stage
  {
    if stages == stage {
      edges := e;
      return;
    }
    var edgesTemporary := Pass(e);
    edges := GetExtendedEdges(edgesTemporary, stages, stage + 1);
    ghost var r, rest := stages - stage, stages - stage - 1;
    forall x, y | 0 <= x < e.Length0 && 0 <= y < e.Length1
      ensures Reached(edgesTemporary, x, y, rest) <==> Reached(e, x, y, r)
    {
      PassThenSpread(e, edgesTemporary, x, y, rest);
    }
  }
}
