/** Cell indices and the size of rectangular blocks of them. */
module Blocks {

  /** Integer coordinates of a cube of the spatial grid. */
  datatype Idx = Idx(i: int, j: int, k: int)

  /** The integers in [lo, hi). */
  function Interval(lo: int, hi: int): (r: set<int>)
    ensures forall t :: t in r <==> lo <= t < hi
    decreases hi - lo
  {
    if lo >= hi then {} else {lo} + Interval(lo + 1, hi)
  }

  function Width(lo: int, hi: int): nat {
    if lo >= hi then 0 else hi - lo
  }

  lemma {:induction false} IntervalSize(lo: int, hi: int)
    ensures |Interval(lo, hi)| == Width(lo, hi)
    decreases hi - lo
  {
    if lo < hi {
      IntervalSize(lo + 1, hi);
      assert lo !in Interval(lo + 1, hi);
    }
  }

  function Block(A: set<int>, B: set<int>, C: set<int>): set<Idx> {
    set a, b, c | a in A && b in B && c in C :: Idx(a, b, c)
  }

  function Row(a: int, b: int, C: set<int>): set<Idx> {
    set c | c in C :: Idx(a, b, c)
  }

  function Slab(a: int, B: set<int>, C: set<int>): set<Idx> {
    set b, c | b in B && c in C :: Idx(a, b, c)
  }

  lemma {:induction false} RowSize(a: int, b: int, lo: int, hi: int)
    ensures |Row(a, b, Interval(lo, hi))| == Width(lo, hi)
    decreases hi - lo
  {
    if lo < hi {
      var C, C' := Interval(lo, hi), Interval(lo + 1, hi);
      assert Row(a, b, C) == Row(a, b, C') + {Idx(a, b, lo)} by {
        forall d | d in Row(a, b, C) ensures d in Row(a, b, C') + {Idx(a, b, lo)} {
          if d.k != lo {
            assert d.k in C';
          }
        }
      }
      RowSize(a, b, lo + 1, hi);
    } else {
      assert Row(a, b, Interval(lo, hi)) == {};
    }
  }

  lemma {:induction false} SlabSize(a: int, lo: int, hi: int, C: set<int>, w: nat)
    requires forall b :: |Row(a, b, C)| == w
    ensures |Slab(a, Interval(lo, hi), C)| == Width(lo, hi) * w
    decreases hi - lo
  {
    if lo < hi {
      SlabSplit(a, lo, hi, C);
      SlabSize(a, lo + 1, hi, C, w);
      DisjointUnionSize(Slab(a, Interval(lo + 1, hi), C), Row(a, lo, C), Width(lo + 1, hi) * w, w);
      MulStep(Width(lo + 1, hi), w, Width(lo, hi));
    } else {
      assert Slab(a, Interval(lo, hi), C) == {};
    }
  }

  /** A slab is its first row and the slab of the remaining rows, which do not overlap. */
  lemma SlabSplit(a: int, lo: int, hi: int, C: set<int>)
    requires lo < hi
    ensures Slab(a, Interval(lo, hi), C) == Slab(a, Interval(lo + 1, hi), C) + Row(a, lo, C)
    ensures Slab(a, Interval(lo + 1, hi), C) !! Row(a, lo, C)
  {
    var B, B' := Interval(lo, hi), Interval(lo + 1, hi);
    forall d | d in Slab(a, B, C) ensures d in Slab(a, B', C) + Row(a, lo, C) {
      if d.j != lo {
        assert d.j in B';
      }
    }
  }

  lemma {:induction false} BlockSize(lo: int, hi: int, B: set<int>, C: set<int>, w: nat)
    requires forall a :: |Slab(a, B, C)| == w
    ensures |Block(Interval(lo, hi), B, C)| == Width(lo, hi) * w
    decreases hi - lo
  {
    if lo < hi {
      BlockSplit(lo, hi, B, C);
      BlockSize(lo + 1, hi, B, C, w);
      DisjointUnionSize(Block(Interval(lo + 1, hi), B, C), Slab(lo, B, C), Width(lo + 1, hi) * w, w);
      MulStep(Width(lo + 1, hi), w, Width(lo, hi));
    } else {
      assert Block(Interval(lo, hi), B, C) == {};
    }
  }

  /** A block is its first slab and the block of the remaining slabs, which do not overlap. */
  lemma BlockSplit(lo: int, hi: int, B: set<int>, C: set<int>)
    requires lo < hi
    ensures Block(Interval(lo, hi), B, C) == Block(Interval(lo + 1, hi), B, C) + Slab(lo, B, C)
    ensures Block(Interval(lo + 1, hi), B, C) !! Slab(lo, B, C)
  {
    var A, A' := Interval(lo, hi), Interval(lo + 1, hi);
    forall d | d in Block(A, B, C) ensures d in Block(A', B, C) + Slab(lo, B, C) {
      if d.i != lo {
        assert d.i in A';
      }
    }
  }

  /** The block spanned by three intervals has the product of their widths as its size. */
  lemma BoxSize(lo1: int, hi1: int, lo2: int, hi2: int, lo3: int, hi3: int)
    ensures |Block(Interval(lo1, hi1), Interval(lo2, hi2), Interval(lo3, hi3))|
         == Width(lo1, hi1) * (Width(lo2, hi2) * Width(lo3, hi3))
  {
    var B, C := Interval(lo2, hi2), Interval(lo3, hi3);
    var w3 := Width(lo3, hi3);
    forall a, b ensures |Row(a, b, C)| == w3 {
      RowSize(a, b, lo3, hi3);
    }
    var w2 := Width(lo2, hi2) * w3;
    forall a ensures |Slab(a, B, C)| == w2 {
      SlabSize(a, lo2, hi2, C, w3);
    }
    BlockSize(lo1, hi1, B, C, w2);
  }

  lemma MulStep(m: int, w: int, n: int)
    requires n == m + 1
    ensures m * w + w == n * w
  {
  }

  lemma DisjointUnionSize<T>(a: set<T>, b: set<T>, m: nat, n: nat)
    requires a !! b && |a| == m && |b| == n
    ensures |a + b| == m + n
  {
  }
}
