// Row-major cell grids: the bounds test, the index arithmetic and the
// element swap that every world in the project shares.
module Grid {
  import opened Common

  predicate InBounds(w: nat, h: nat, x: int, y: int) {
    0 <= x < w && 0 <= y < h
  }

  lemma MulComm(a: int, b: int)
    ensures a * b == b * a
  {
  }

  lemma MulMono(a: int, b: int, w: nat)
    requires a <= b
    ensures a * w <= b * w
  {
    assert b * w - a * w == (b - a) * w;
  }

  lemma RowMajor(w: nat, x: int, y: int)
    requires 0 <= x < w && 0 <= y
    ensures (y * w + x) / w == y && (y * w + x) % w == x
  {
    var i := y * w + x;
    var q, r := i / w, i % w;
    assert i == q * w + r && 0 <= r < w;
    if q > y {
      MulMono(y + 1, q, w);
      assert false;
    } else if q < y {
      MulMono(q + 1, y, w);
      assert false;
    }
  }

  /** Every position of a w-by-h grid is the index of the cell (c % w, c / w). */
  lemma IndexOfPosition(w: nat, h: nat, c: nat)
    requires c < w * h
    ensures w > 0 && InBounds(w, h, c % w, c / w) && Index(w, h, c % w, c / w) == Some(c)
  {
    var q, r := c / w, c % w;
    assert c == q * w + r;
    if q >= h {
      MulMono(h, q, w);
      assert false;
    }
  }

  /** The row-major position of (x, y), or None outside the grid. */
  function Index(w: nat, h: nat, x: int, y: int): (r: Option<nat>)
    ensures r.Some? <==> InBounds(w, h, x, y)
    ensures r.Some? ==> r.value == y * w + x && r.value < w * h
  {
    if InBounds(w, h, x, y) then
      assert y * w + x < w * h by { assert y * w <= (h - 1) * w; }
      Some(y * w + x)
    else None
  }

  /** The coordinates can be read back from an in-grid position. */
  lemma IndexDivMod(w: nat, h: nat, x: int, y: int)
    requires InBounds(w, h, x, y)
    ensures Index(w, h, x, y).value / w == y && Index(w, h, x, y).value % w == x
  {
    RowMajor(w, x, y);
  }

  /** The row-major position of an in-bounds cell. */
  function At(w: nat, h: nat, x: int, y: int): (i: nat)
    requires InBounds(w, h, x, y)
    ensures i < w * h && Index(w, h, x, y) == Some(i)
  {
    Index(w, h, x, y).value
  }

  /** Row y of a w-wide grid starts at position y * w. */
  lemma RowStart(w: nat, h: nat, x: int, y: int)
    requires InBounds(w, h, x, y)
    ensures At(w, h, x, y) == y * w + x
    ensures y * w + w == (y + 1) * w <= w * h
  {
    MulMono(y + 1, h, w);
  }

  /** After the last row, the row counter has covered every cell. */
  lemma AllRows(w: nat, h: nat, y: int, n: int)
    requires y == h && n == y * w
    ensures n == w * h
  {
  }

  lemma IndexInjective(w: nat, h: nat, x1: int, y1: int, x2: int, y2: int)
    requires Index(w, h, x1, y1).Some? && Index(w, h, x2, y2).Some?
    requires Index(w, h, x1, y1) == Index(w, h, x2, y2)
    ensures x1 == x2 && y1 == y2
  {
    IndexDivMod(w, h, x1, y1);
    IndexDivMod(w, h, x2, y2);
  }

  /** `s` with positions i and j exchanged. */
  function SwapAt<T>(s: seq<T>, i: nat, j: nat): (r: seq<T>)
    requires i < |s| && j < |s|
    ensures |r| == |s| && r[i] == s[j] && r[j] == s[i]
    ensures forall k :: 0 <= k < |s| && k != i && k != j ==> r[k] == s[k]
  {
    s[i := s[j]][j := s[i]]
  }

  /** A swap permutes the cells. */
  lemma SwapAtPermutes<T>(s: seq<T>, i: nat, j: nat)
    requires i < |s| && j < |s|
    ensures multiset(SwapAt(s, i, j)) == multiset(s)
  {
  }

  /** `s` with the cell at (x, y) replaced by v; unchanged outside the grid. */
  function SetCell<T>(w: nat, h: nat, s: seq<T>, x: int, y: int, v: T): (r: seq<T>)
    requires |s| == w * h
    ensures |r| == |s|
    ensures Index(w, h, x, y).Some? ==> r == s[Index(w, h, x, y).value := v]
    ensures !InBounds(w, h, x, y) ==> r == s
  {
    match Index(w, h, x, y)
    case None => s
    case Some(i) => s[i := v]
  }

  /** Read back at an in-bounds cell, a write changes that cell only. */
  lemma SetCellAt<T>(w: nat, h: nat, s: seq<T>, x: int, y: int, v: T, px: int, py: int)
    requires |s| == w * h && InBounds(w, h, px, py)
    ensures SetCell(w, h, s, x, y, v)[At(w, h, px, py)] == if (px, py) == (x, y) then v else s[At(w, h, px, py)]
  {
    if InBounds(w, h, x, y) && (px, py) != (x, y) {
      if At(w, h, px, py) == At(w, h, x, y) {
        IndexInjective(w, h, px, py, x, y);
      }
    }
  }

  /** The cells at (x1, y1) and (x2, y2) exchanged when both are inside the grid; otherwise `s`. */
  function SwapCoords<T>(w: nat, h: nat, s: seq<T>, x1: int, y1: int, x2: int, y2: int): (r: seq<T>)
    requires |s| == w * h
    ensures |r| == |s|
    ensures Index(w, h, x1, y1).Some? && Index(w, h, x2, y2).Some? ==>
      r == SwapAt(s, Index(w, h, x1, y1).value, Index(w, h, x2, y2).value)
    ensures !(InBounds(w, h, x1, y1) && InBounds(w, h, x2, y2)) ==> r == s
  {
    match (Index(w, h, x1, y1), Index(w, h, x2, y2))
    case (Some(i), Some(j)) => SwapAt(s, i, j)
    case _ => s
  }

  lemma SwapCoordsPermutes<T>(w: nat, h: nat, s: seq<T>, x1: int, y1: int, x2: int, y2: int)
    requires |s| == w * h
    ensures multiset(SwapCoords(w, h, s, x1, y1, x2, y2)) == multiset(s)
  {
    match (Index(w, h, x1, y1), Index(w, h, x2, y2))
    case (Some(i), Some(j)) => SwapAtPermutes(s, i, j);
    case _ =>
  }

  /** Flags (x1, y1) and (x2, y2) when both are inside the grid, as a swap does; otherwise `u`. */
  function FlagCoords(w: nat, h: nat, u: seq<bool>, x1: int, y1: int, x2: int, y2: int): (r: seq<bool>)
    requires |u| == w * h
    ensures |r| == |u|
    ensures Index(w, h, x1, y1).Some? && Index(w, h, x2, y2).Some? ==>
      r == u[Index(w, h, x1, y1).value := true][Index(w, h, x2, y2).value := true]
    ensures !(InBounds(w, h, x1, y1) && InBounds(w, h, x2, y2)) ==> r == u
  {
    match (Index(w, h, x1, y1), Index(w, h, x2, y2))
    case (Some(i), Some(j)) => u[i := true][j := true]
    case _ => u
  }

  /** The scan of the simple examples: rows from the bottom (y = h - 1) up, each row left to right. */
  function BottomUpScan(w: nat, h: nat): (c: seq<(int, int)>)
    ensures |c| == w * h
    ensures forall k :: 0 <= k < w * h ==> InBounds(w, h, c[k].0, c[k].1)
    ensures forall k :: 0 <= k < w * h ==> c[k] == (k % w, h - 1 - k / w)
  {
    assert forall k :: 0 <= k < w * h ==> w > 0 && InBounds(w, h, k % w, h - 1 - k / w) by {
      forall k | 0 <= k < w * h
        ensures w > 0 && InBounds(w, h, k % w, h - 1 - k / w)
      {
        IndexOfPosition(w, h, k);
      }
    }
    seq(w * h, k requires 0 <= k < w * h => (k % w, h - 1 - k / w))
  }

  /** The k-th cell of the bottom-up, left-to-right scan. */
  lemma BottomUpPosition(w: nat, h: nat, x: int, y: int, k: int)
    requires InBounds(w, h, x, y) && k == (h - 1 - y) * w + x
    ensures 0 <= k < w * h && BottomUpScan(w, h)[k] == (x, y)
    ensures k + 1 + (w - 1 - x) == (h - y) * w
  {
    RowMajor(w, x, h - 1 - y);
    assert (h - 1 - y) * w + w == (h - y) * w;
    MulMono(h - 1 - y, h - 1, w);
    assert (h - 1) * w + w == h * w;
  }

  /** The cells of row y, left to right. */
  function Row(w: nat, y: int): (c: seq<(int, int)>)
    ensures |c| == w && forall x :: 0 <= x < w ==> c[x] == (x, y)
  {
    seq(w, x => (x, y))
  }

  /** The bottom-up scan is the concatenation of its rows: row y follows the rows below it. */
  lemma BottomUpRow(w: nat, h: nat, y: int, r: nat)
    requires 0 <= y < h && r == h - 1 - y
    ensures r * w + w == (r + 1) * w <= w * h
    ensures BottomUpScan(w, h)[..(r + 1) * w] == BottomUpScan(w, h)[..r * w] + Row(w, y)
  {
    var a := r * w;
    assert a + w == (r + 1) * w;
    MulMono(r + 1, h, w);
    var c := BottomUpScan(w, h);
    forall x | 0 <= x < w
      ensures c[a + x] == (x, y)
    {
      BottomUpPosition(w, h, x, y, a + x);
    }
    assert c[..a + w] == c[..a] + Row(w, y);
  }

  /** Neighbour offsets (dx, dy) in the order of nested loops over dy (outer) and dx (inner), skipping (0, 0). */
  const Offsets8: seq<(int, int)> := [(-1, -1), (0, -1), (1, -1), (-1, 0), (1, 0), (-1, 1), (0, 1), (1, 1)]

  /** The position of (dx, dy) in Offsets8. */
  function Slot8(dx: int, dy: int): int {
    3 * (dy + 1) + (dx + 1) - (if dy > 0 || (dy == 0 && dx > 0) then 1 else 0)
  }

  lemma Slot8Is(dx: int, dy: int)
    requires -1 <= dx <= 1 && -1 <= dy <= 1 && !(dx == 0 && dy == 0)
    ensures 0 <= Slot8(dx, dy) < 8 && Offsets8[Slot8(dx, dy)] == (dx, dy)
  {
  }

  /** The cell at position c of the row-major order, found by walking down the rows. */
  function PositionOf(w: nat, h: nat, c: nat): (p: (int, int))
    requires c < w * h
    ensures InBounds(w, h, p.0, p.1) && At(w, h, p.0, p.1) == c
    decreases c
  {
    if c < w then (c, 0)
    else
      var q := PositionOf(w, h, c - w);
      RowBelow(w, h, q.0, q.1, c);
      (q.0, q.1 + 1)
  }

  lemma RowBelow(w: nat, h: nat, x: int, y: int, c: nat)
    requires InBounds(w, h, x, y) && At(w, h, x, y) == c - w && c < w * h
    ensures InBounds(w, h, x, y + 1) && At(w, h, x, y + 1) == c
  {
    if y + 1 >= h {
      MulMono(h, y + 1, w);
    }
  }

  /** Row-major order of in-bounds cells is the order of their indices. */
  lemma AtOrder(w: nat, h: nat, x1: int, y1: int, x2: int, y2: int)
    requires InBounds(w, h, x1, y1) && InBounds(w, h, x2, y2)
    requires y1 < y2 || (y1 == y2 && x1 < x2)
    ensures At(w, h, x1, y1) < At(w, h, x2, y2)
  {
    if y1 < y2 {
      MulMono(y1 + 1, y2, w);
    }
  }

  /** The offsets are listed in row-major order. */
  lemma OffsetsOrdered(j1: int, j2: int)
    requires 0 <= j1 < j2 < 8
    ensures Offsets8[j1].1 < Offsets8[j2].1 || (Offsets8[j1].1 == Offsets8[j2].1 && Offsets8[j1].0 < Offsets8[j2].0)
  {
  }

  /** 8-neighbours. */
  predicate Adjacent(x1: int, y1: int, x2: int, y2: int) {
    -1 <= x2 - x1 <= 1 && -1 <= y2 - y1 <= 1 && (x1, y1) != (x2, y2)
  }
}
