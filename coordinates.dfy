/**
 * The integer box enumeration of the utilities module: every integer point of
 * the axis-aligned box spanned by two corners, x outermost, then y, then z.
 */
module Coordinates {

  /** A coordinate set `[x, y, z]`. */
  datatype Coord = Coord(x: int, y: int, z: int)

  function Min(a: int, b: int): int { if a <= b then a else b }
  function Max(a: int, b: int): int { if a <= b then b else a }
  function Abs(a: int): int { if a < 0 then -a else a }

  /** Number of integers in `lo..hi` (inclusive). */
  function Span(lo: int, hi: int): nat { if lo <= hi then hi - lo + 1 else 0 }

  /** The points `(x, y, zlo) .. (x, y, zhi)`: what the innermost loop pushes. */
  function Row(x: int, y: int, zlo: int, zhi: int): seq<Coord>
    decreases zhi - zlo
  {
    if zhi < zlo then [] else Row(x, y, zlo, zhi - 1) + [Coord(x, y, zhi)]
  }

  /** The rows for `y` in `ylo..yhi`: what one pass of the middle loop pushes. */
  function Slab(x: int, ylo: int, yhi: int, zlo: int, zhi: int): seq<Coord>
    decreases yhi - ylo
  {
    if yhi < ylo then [] else Slab(x, ylo, yhi - 1, zlo, zhi) + Row(x, yhi, zlo, zhi)
  }

  /** The slabs for `x` in `xlo..xhi`: what the whole triple loop pushes. */
  function Block(xlo: int, xhi: int, ylo: int, yhi: int, zlo: int, zhi: int): seq<Coord>
    decreases xhi - xlo
  {
    if xhi < xlo then [] else Block(xlo, xhi - 1, ylo, yhi, zlo, zhi) + Slab(xhi, ylo, yhi, zlo, zhi)
  }

  /** The enumeration the source computes, with the loop bounds taken from min and max of the corners. */
  function Between(a: Coord, b: Coord): seq<Coord>
  {
    Block(Min(a.x, b.x), Max(a.x, b.x), Min(a.y, b.y), Max(a.y, b.y), Min(a.z, b.z), Max(a.z, b.z))
  }

  /** `p` lies within the box spanned by `a` and `b` on every axis. */
  predicate InBox(a: Coord, b: Coord, p: Coord)
  {
    && Min(a.x, b.x) <= p.x <= Max(a.x, b.x)
    && Min(a.y, b.y) <= p.y <= Max(a.y, b.y)
    && Min(a.z, b.z) <= p.z <= Max(a.z, b.z)
  }

  /** Lexicographic order, x first, then y, then z. */
  predicate Before(p: Coord, q: Coord)
  {
    p.x < q.x || (p.x == q.x && (p.y < q.y || (p.y == q.y && p.z < q.z)))
  }

  /** Strictly increasing in lexicographic order (hence free of duplicates). */
  predicate Increasing(s: seq<Coord>)
  {
    forall i, j :: 0 <= i < j < |s| ==> Before(s[i], s[j])
  }

  /**
   * `getCoordinatesBetween(a, b)`: three nested loops from the minimum to the
   * maximum of each axis, pushing `[x, y, z]` in the innermost one.
   */
  method CoordinatesBetween(a: Coord, b: Coord) returns (coords: seq<Coord>)
    ensures coords == Between(a, b)
  {
    coords := [];
    var xlo, xhi := Min(a.x, b.x), Max(a.x, b.x);
    var ylo, yhi := Min(a.y, b.y), Max(a.y, b.y);
    var zlo, zhi := Min(a.z, b.z), Max(a.z, b.z);
    var x := xlo;
    while x <= xhi
      invariant xlo <= x <= xhi + 1
      invariant coords == Block(xlo, x - 1, ylo, yhi, zlo, zhi)
    {
      var y := ylo;
      while y <= yhi
        invariant ylo <= y <= yhi + 1
        invariant coords == Block(xlo, x - 1, ylo, yhi, zlo, zhi) + Slab(x, ylo, y - 1, zlo, zhi)
      {
        var z := zlo;
        while z <= zhi
          invariant zlo <= z <= zhi + 1
          invariant coords == Block(xlo, x - 1, ylo, yhi, zlo, zhi) + Slab(x, ylo, y - 1, zlo, zhi) + Row(x, y, zlo, z - 1)
        {
          coords := coords + [Coord(x, y, z)];
          z := z + 1;
        }
        y := y + 1;
      }
      x := x + 1;
    }
  }

  // ---------------------------------------------------------------------------
  // Counting

  lemma {:induction false} RowLength(x: int, y: int, zlo: int, zhi: int)
    ensures |Row(x, y, zlo, zhi)| == Span(zlo, zhi)
    decreases zhi - zlo
  {
    if zlo <= zhi { RowLength(x, y, zlo, zhi - 1); }
  }

  lemma {:induction false} SlabLength(x: int, ylo: int, yhi: int, zlo: int, zhi: int)
    ensures |Slab(x, ylo, yhi, zlo, zhi)| == Span(ylo, yhi) * Span(zlo, zhi)
    decreases yhi - ylo
  {
    if ylo <= yhi {
      SlabLength(x, ylo, yhi - 1, zlo, zhi);
      RowLength(x, yhi, zlo, zhi);
      assert Span(ylo, yhi) == Span(ylo, yhi - 1) + 1;
    }
  }

  lemma {:induction false} BlockLength(xlo: int, xhi: int, ylo: int, yhi: int, zlo: int, zhi: int)
    ensures |Block(xlo, xhi, ylo, yhi, zlo, zhi)| == Span(xlo, xhi) * Span(ylo, yhi) * Span(zlo, zhi)
    decreases xhi - xlo
  {
    if xlo <= xhi {
      BlockLength(xlo, xhi - 1, ylo, yhi, zlo, zhi);
      SlabLength(xhi, ylo, yhi, zlo, zhi);
      assert Span(xlo, xhi) == Span(xlo, xhi - 1) + 1;
    }
  }

  /** The output has (|a.x-b.x|+1)·(|a.y-b.y|+1)·(|a.z-b.z|+1) points. */
  lemma BetweenLength(a: Coord, b: Coord)
    ensures |Between(a, b)| == (Abs(a.x - b.x) + 1) * (Abs(a.y - b.y) + 1) * (Abs(a.z - b.z) + 1)
  {
    BlockLength(Min(a.x, b.x), Max(a.x, b.x), Min(a.y, b.y), Max(a.y, b.y), Min(a.z, b.z), Max(a.z, b.z));
  }

  // ---------------------------------------------------------------------------
  // Membership: exactly the integer points of the box

  lemma {:induction false} RowMembers(x: int, y: int, zlo: int, zhi: int, p: Coord)
    ensures p in Row(x, y, zlo, zhi) <==> p.x == x && p.y == y && zlo <= p.z <= zhi
    decreases zhi - zlo
  {
    if zlo <= zhi { RowMembers(x, y, zlo, zhi - 1, p); }
  }

  lemma {:induction false} SlabMembers(x: int, ylo: int, yhi: int, zlo: int, zhi: int, p: Coord)
    ensures p in Slab(x, ylo, yhi, zlo, zhi) <==> p.x == x && ylo <= p.y <= yhi && zlo <= p.z <= zhi
    decreases yhi - ylo
  {
    if ylo <= yhi {
      SlabMembers(x, ylo, yhi - 1, zlo, zhi, p);
      RowMembers(x, yhi, zlo, zhi, p);
    }
  }

  lemma {:induction false} BlockMembers(xlo: int, xhi: int, ylo: int, yhi: int, zlo: int, zhi: int, p: Coord)
    ensures p in Block(xlo, xhi, ylo, yhi, zlo, zhi) <==> xlo <= p.x <= xhi && ylo <= p.y <= yhi && zlo <= p.z <= zhi
    decreases xhi - xlo
  {
    if xlo <= xhi {
      BlockMembers(xlo, xhi - 1, ylo, yhi, zlo, zhi, p);
      SlabMembers(xhi, ylo, yhi, zlo, zhi, p);
    }
  }

  /** A point is returned if and only if it lies within [min, max] on every axis. */
  lemma BetweenMembers(a: Coord, b: Coord, p: Coord)
    ensures p in Between(a, b) <==> InBox(a, b, p)
  {
    BlockMembers(Min(a.x, b.x), Max(a.x, b.x), Min(a.y, b.y), Max(a.y, b.y), Min(a.z, b.z), Max(a.z, b.z), p);
  }

  /** Both corners are returned. */
  lemma BetweenHasCorners(a: Coord, b: Coord)
    ensures a in Between(a, b) && b in Between(a, b)
  {
    BetweenMembers(a, b, a);
    BetweenMembers(a, b, b);
  }

  // ---------------------------------------------------------------------------
  // Ordering and uniqueness

  /** Gluing two increasing runs, every point of the first before every point of the second. */
  lemma IncreasingConcat(s: seq<Coord>, t: seq<Coord>)
    requires Increasing(s) && Increasing(t)
    requires forall p, q :: p in s && q in t ==> Before(p, q)
    ensures Increasing(s + t)
  {
  }

  lemma {:induction false} RowIncreasing(x: int, y: int, zlo: int, zhi: int)
    ensures Increasing(Row(x, y, zlo, zhi))
    decreases zhi - zlo
  {
    if zlo <= zhi {
      RowIncreasing(x, y, zlo, zhi - 1);
      forall p, q | p in Row(x, y, zlo, zhi - 1) && q in [Coord(x, y, zhi)] ensures Before(p, q) {
        RowMembers(x, y, zlo, zhi - 1, p);
      }
      IncreasingConcat(Row(x, y, zlo, zhi - 1), [Coord(x, y, zhi)]);
    }
  }

  lemma {:induction false} SlabIncreasing(x: int, ylo: int, yhi: int, zlo: int, zhi: int)
    ensures Increasing(Slab(x, ylo, yhi, zlo, zhi))
    decreases yhi - ylo
  {
    if ylo <= yhi {
      SlabIncreasing(x, ylo, yhi - 1, zlo, zhi);
      RowIncreasing(x, yhi, zlo, zhi);
      forall p, q | p in Slab(x, ylo, yhi - 1, zlo, zhi) && q in Row(x, yhi, zlo, zhi) ensures Before(p, q) {
        SlabMembers(x, ylo, yhi - 1, zlo, zhi, p);
        RowMembers(x, yhi, zlo, zhi, q);
      }
      IncreasingConcat(Slab(x, ylo, yhi - 1, zlo, zhi), Row(x, yhi, zlo, zhi));
    }
  }

  lemma {:induction false} BlockIncreasing(xlo: int, xhi: int, ylo: int, yhi: int, zlo: int, zhi: int)
    ensures Increasing(Block(xlo, xhi, ylo, yhi, zlo, zhi))
    decreases xhi - xlo
  {
    if xlo <= xhi {
      BlockIncreasing(xlo, xhi - 1, ylo, yhi, zlo, zhi);
      SlabIncreasing(xhi, ylo, yhi, zlo, zhi);
      forall p, q | p in Block(xlo, xhi - 1, ylo, yhi, zlo, zhi) && q in Slab(xhi, ylo, yhi, zlo, zhi)
        ensures Before(p, q)
      {
        BlockMembers(xlo, xhi - 1, ylo, yhi, zlo, zhi, p);
        SlabMembers(xhi, ylo, yhi, zlo, zhi, q);
      }
      IncreasingConcat(Block(xlo, xhi - 1, ylo, yhi, zlo, zhi), Slab(xhi, ylo, yhi, zlo, zhi));
    }
  }

  /** The output is in lexicographic order: x outermost, then y, then z. */
  lemma BetweenIncreasing(a: Coord, b: Coord)
    ensures Increasing(Between(a, b))
  {
    BlockIncreasing(Min(a.x, b.x), Max(a.x, b.x), Min(a.y, b.y), Max(a.y, b.y), Min(a.z, b.z), Max(a.z, b.z));
  }

  /** Every integer point of the box occurs exactly once, and nothing else occurs. */
  lemma BetweenExactlyOnce(a: Coord, b: Coord, p: Coord)
    ensures InBox(a, b, p) ==> exists i :: 0 <= i < |Between(a, b)| && Between(a, b)[i] == p
    ensures !InBox(a, b, p) ==> p !in Between(a, b)
    ensures forall i, j :: 0 <= i < j < |Between(a, b)| ==> Between(a, b)[i] != Between(a, b)[j]
  {
    BetweenMembers(a, b, p);
    BetweenIncreasing(a, b);
  }

  /** Swapping the arguments gives the identical sequence. */
  lemma BetweenSymmetric(a: Coord, b: Coord)
    ensures Between(a, b) == Between(b, a)
  {
  }

  /** When both corners coincide the output is exactly that one point. */
  lemma BetweenSinglePoint(a: Coord)
    ensures Between(a, a) == [a]
  {
    assert Row(a.x, a.y, a.z, a.z) == [a];
    assert Slab(a.x, a.y, a.y, a.z, a.z) == [a];
    assert Block(a.x, a.x, a.y, a.y, a.z, a.z) == [a];
  }
}
