// The in-game level editor: brush painting and area fill over the atom
// world, the brush-size keys, and the undo/redo history of change sets.
module LevelEditor {
  import opened Common
  import opened Grid
  import opened Atoms

  /** The atom the editor writes for a type: Fire burns for 10 s at 700 degrees, the rest sit at 20. */
  function Painted(t: AtomType): (a: Atom)
    ensures a.atomType == t && a.velocity == Zero && a.mass == Mass(t)
    ensures t == Fire ==> a.lifetime == Some(10.0) && a.temperature == 700.0
    ensures t != Fire ==> a.lifetime == None && a.temperature == 20.0
  {
    Atom(t, Zero, Mass(t), if t == Fire then Some(10.0) else None, if t == Fire then 700.0 else 20.0)
  }

  // ---------------------------------------------------------------------
  // Brush painting
  // ---------------------------------------------------------------------

  /** Left or top edge of the brush square: the centre minus half the size, cast toward zero. */
  function BrushStart(c: real, size: int): int {
    Trunc(c - size as real / 2.0)
  }

  /**
   * The brush covers the cells of the size-by-size square starting at the
   * brush start whose distance from the centre is at most size / 2; the
   * distance test is stated on squares, which is the same for reals.
   */
  predicate InBrush(cx: real, cy: real, size: int, x: int, y: int) {
    var sx := BrushStart(cx, size);
    var sy := BrushStart(cy, size);
    var r := size as real / 2.0;
    sx <= x < sx + size && sy <= y < sy + size &&
    0.0 <= r && (x as real - cx) * (x as real - cx) + (y as real - cy) * (y as real - cy) <= r * r
  }

  /** The world `s1` is `s0` with exactly the brush cells painted with `t`. */
  ghost predicate Brushed(w: nat, h: nat, s0: seq<Atom>, s1: seq<Atom>, cx: real, cy: real, t: AtomType, size: int)
    requires |s0| == w * h && |s1| == w * h
  {
    forall px, py :: InBounds(w, h, px, py) ==>
      s1[At(w, h, px, py)] == if InBrush(cx, cy, size, px, py) then Painted(t) else s0[At(w, h, px, py)]
  }

  /** `s1` is `s0` with the brush cells painted that come before (x, y) in the column-by-column order of the loops. */
  ghost predicate BrushedTo(w: nat, h: nat, s0: seq<Atom>, s1: seq<Atom>, cx: real, cy: real, t: AtomType, size: int, x: int, y: int)
    requires |s0| == w * h && |s1| == w * h
  {
    forall px, py :: InBounds(w, h, px, py) ==>
      s1[At(w, h, px, py)] ==
        if InBrush(cx, cy, size, px, py) && (px < x || (px == x && py < y)) then Painted(t) else s0[At(w, h, px, py)]
  }

  /** Past the last column of the square, every brush cell has been painted. */
  lemma BrushDone(w: nat, h: nat, s0: seq<Atom>, s1: seq<Atom>, cx: real, cy: real, t: AtomType, size: int, x: int, y: int)
    requires |s0| == w * h && |s1| == w * h && x >= BrushStart(cx, size) + size
    requires BrushedTo(w, h, s0, s1, cx, cy, t, size, x, y)
    ensures Brushed(w, h, s0, s1, cx, cy, t, size)
  {
    forall px, py | InBounds(w, h, px, py) && InBrush(cx, cy, size, px, py)
      ensures px < x
    {
    }
  }

  /** Past the last row of column x, the next column starts at the top of the square. */
  lemma BrushNextColumn(w: nat, h: nat, s0: seq<Atom>, s1: seq<Atom>, cx: real, cy: real, t: AtomType, size: int, x: int, y: int)
    requires |s0| == w * h && |s1| == w * h && y >= BrushStart(cy, size) + size
    requires BrushedTo(w, h, s0, s1, cx, cy, t, size, x, y)
    ensures BrushedTo(w, h, s0, s1, cx, cy, t, size, x + 1, BrushStart(cy, size))
  {
    forall px, py | InBounds(w, h, px, py) && InBrush(cx, cy, size, px, py)
      ensures BrushStart(cy, size) <= py < y
    {
    }
  }

  /** `draw_with_brush`: nested loops over the square, writing the cells within the radius. */
  method DrawWithBrush(world: AtomWorld, cx: real, cy: real, t: AtomType, size: int)
    requires world.Valid()
    modifies world.atoms
    ensures Brushed(world.width, world.height, old(world.atoms[..]), world.atoms[..], cx, cy, t, size)
  {
    var w, h := world.width, world.height;
    ghost var s0 := world.atoms[..];
    var sx := BrushStart(cx, size);
    var sy := BrushStart(cy, size);
    var x := sx;
    while x < sx + size
      invariant sx <= x
      invariant BrushedTo(w, h, s0, world.atoms[..], cx, cy, t, size, x, sy)
      decreases sx + size - x
    {
      BrushColumn(world, s0, cx, cy, t, size, x);
      x := x + 1;
    }
    BrushDone(w, h, s0, world.atoms[..], cx, cy, t, size, x, sy);
  }

  /** The inner loop of `draw_with_brush`: column x of the square, top to bottom. */
  method BrushColumn(world: AtomWorld, ghost s0: seq<Atom>, cx: real, cy: real, t: AtomType, size: int, x: int)
    requires world.Valid() && |s0| == world.width * world.height
    requires BrushStart(cx, size) <= x < BrushStart(cx, size) + size
    requires BrushedTo(world.width, world.height, s0, world.atoms[..], cx, cy, t, size, x, BrushStart(cy, size))
    modifies world.atoms
    ensures BrushedTo(world.width, world.height, s0, world.atoms[..], cx, cy, t, size, x + 1, BrushStart(cy, size))
  {
    hide InBrush;
    var sy := BrushStart(cy, size);
    var y := sy;
    while y < sy + size
      invariant sy <= y
      invariant BrushedTo(world.width, world.height, s0, world.atoms[..], cx, cy, t, size, x, y)
      decreases sy + size - y
    {
      BrushCell(world, s0, cx, cy, t, size, x, y);
      y := y + 1;
    }
    BrushNextColumn(world.width, world.height, s0, world.atoms[..], cx, cy, t, size, x, y);
  }

  /** The body of the inner loop: cell (x, y) is written exactly when it lies within the radius. */
  method BrushCell(world: AtomWorld, ghost s0: seq<Atom>, cx: real, cy: real, t: AtomType, size: int, x: int, y: int)
    requires world.Valid() && |s0| == world.width * world.height
    requires BrushStart(cx, size) <= x < BrushStart(cx, size) + size && BrushStart(cy, size) <= y < BrushStart(cy, size) + size
    requires BrushedTo(world.width, world.height, s0, world.atoms[..], cx, cy, t, size, x, y)
    modifies world.atoms
    ensures BrushedTo(world.width, world.height, s0, world.atoms[..], cx, cy, t, size, x, y + 1)
  {
    var w, h := world.width, world.height;
    var dx := x as real - cx;
    var dy := y as real - cy;
    var r := size as real / 2.0;
    var within := 0.0 <= r && dx * dx + dy * dy <= r * r;
    assert within == InBrush(cx, cy, size, x, y);
    hide InBrush;
    if within {
      ghost var before := world.atoms[..];
      world.SetAtom(x, y, Painted(t));
      forall px, py | InBounds(w, h, px, py)
        ensures world.atoms[At(w, h, px, py)] ==
          if InBrush(cx, cy, size, px, py) && (px < x || (px == x && py < y + 1)) then Painted(t) else s0[At(w, h, px, py)]
      {
        SetCellAt(w, h, before, x, y, Painted(t), px, py);
      }
    }
  }

  // ---------------------------------------------------------------------
  // Area fill
  // ---------------------------------------------------------------------

  type Pos = (int, int)

  /** The four neighbours in the order the source pushes them: right, left, down, up. */
  function Neighbours(p: Pos): seq<Pos> {
    [(p.0 + 1, p.1), (p.0 - 1, p.1), (p.0, p.1 + 1), (p.0, p.1 - 1)]
  }

  /** An in-bounds cell of type t. */
  predicate OfType(w: nat, h: nat, s: seq<Atom>, t: AtomType, p: Pos)
    requires |s| == w * h
  {
    InBounds(w, h, p.0, p.1) && s[At(w, h, p.0, p.1)].atomType == t
  }

  /** A walk through 4-adjacent cells, all in bounds and of type t. */
  ghost predicate IsPath(w: nat, h: nat, s: seq<Atom>, t: AtomType, path: seq<Pos>)
    requires |s| == w * h
  {
    |path| > 0 &&
    (forall i :: 0 <= i < |path| ==> OfType(w, h, s, t, path[i])) &&
    (forall i :: 0 <= i < |path| - 1 ==> path[i + 1] in Neighbours(path[i]))
  }

  /** b is 4-connected to a through cells of type t. */
  ghost predicate Connected(w: nat, h: nat, s: seq<Atom>, t: AtomType, a: Pos, b: Pos)
    requires |s| == w * h
  {
    exists path :: IsPath(w, h, s, t, path) && path[0] == a && path[|path| - 1] == b
  }

  /**
   * The world `s1` after filling from (x0, y0) with `f`: unchanged when the
   * start is outside or already of type f, and otherwise `s0` with exactly
   * the cells connected to the start through its type painted with f.
   */
  ghost predicate FilledArea(w: nat, h: nat, s0: seq<Atom>, s1: seq<Atom>, x0: int, y0: int, f: AtomType)
    requires |s0| == w * h && |s1| == w * h
  {
    if !InBounds(w, h, x0, y0) || s0[At(w, h, x0, y0)].atomType == f then s1 == s0
    else
      var t := s0[At(w, h, x0, y0)].atomType;
      forall px, py :: InBounds(w, h, px, py) ==>
        s1[At(w, h, px, py)] == if Connected(w, h, s0, t, (x0, y0), (px, py)) then Painted(f) else s0[At(w, h, px, py)]
  }

  /** The atom types of a world, in cell order. */
  function Types(s: seq<Atom>): (r: seq<AtomType>)
    ensures |r| == |s| && forall i :: 0 <= i < |s| ==> r[i] == s[i].atomType
  {
    seq(|s|, i requires 0 <= i < |s| => s[i].atomType)
  }

  /**
   * The loop invariant of the fill. `filled` are the cells rewritten so far,
   * each with a path from the start in `paths`; every visited cell that was
   * not filled is outside or of another type; the neighbours of a filled cell
   * are visited or still on the stack; each stacked cell is the start or a
   * neighbour of the filled cell recorded beside it in `from`.
   */
  ghost predicate FillInv(w: nat, h: nat, s0: seq<Atom>, a: seq<Atom>, t: AtomType, f: AtomType, start: Pos,
                          stack: seq<Pos>, from: seq<Pos>, visited: set<Pos>, filled: set<Pos>,
                          paths: map<Pos, seq<Pos>>)
  {
    |s0| == w * h && t != f && OfType(w, h, s0, t, start) &&
    FillCells(w, h, s0, a, f, filled) &&
    FillSound(w, h, s0, t, start, visited, filled, paths) &&
    FillClosed(stack, visited, filled) &&
    FillStack(start, stack, from, filled) &&
    (start in visited || start in stack)
  }

  /** The world is the original with the filled cells painted. */
  ghost predicate FillCells(w: nat, h: nat, s0: seq<Atom>, a: seq<Atom>, f: AtomType, filled: set<Pos>) {
    |s0| == w * h && |a| == w * h &&
    forall px, py :: InBounds(w, h, px, py) ==>
      a[At(w, h, px, py)] == if (px, py) in filled then Painted(f) else s0[At(w, h, px, py)]
  }

  /** Filled cells are of type t and reached by a recorded path; other visited cells are not of type t. */
  ghost predicate FillSound(w: nat, h: nat, s0: seq<Atom>, t: AtomType, start: Pos,
                            visited: set<Pos>, filled: set<Pos>, paths: map<Pos, seq<Pos>>) {
    |s0| == w * h && filled <= visited &&
    (forall p :: p in filled ==> OfType(w, h, s0, t, p)) &&
    (forall p :: p in visited && p !in filled ==> !OfType(w, h, s0, t, p)) &&
    paths.Keys == filled &&
    (forall p :: p in filled ==>
      IsPath(w, h, s0, t, paths[p]) && paths[p][0] == start && paths[p][|paths[p]| - 1] == p)
  }

  /** Every neighbour of a filled cell is visited or waiting on the stack. */
  ghost predicate FillClosed(stack: seq<Pos>, visited: set<Pos>, filled: set<Pos>) {
    forall p, n :: p in filled && n in Neighbours(p) ==> n in visited || n in stack
  }

  /** Every stacked cell is the start or a neighbour of the filled cell recorded beside it. */
  ghost predicate FillStack(start: Pos, stack: seq<Pos>, from: seq<Pos>, filled: set<Pos>) {
    |from| == |stack| &&
    forall i :: 0 <= i < |stack| ==> stack[i] == start || (from[i] in filled && stack[i] in Neighbours(from[i]))
  }

  lemma FillInvInit(w: nat, h: nat, s0: seq<Atom>, t: AtomType, f: AtomType, start: Pos)
    requires |s0| == w * h && t != f && OfType(w, h, s0, t, start)
    ensures FillInv(w, h, s0, s0, t, f, start, [start], [start], {}, {}, map[])
  {
  }

  /** Popping a cell that was already visited. */
  lemma FillInvSkip(w: nat, h: nat, s0: seq<Atom>, a: seq<Atom>, t: AtomType, f: AtomType, start: Pos,
                    stack: seq<Pos>, from: seq<Pos>, visited: set<Pos>, filled: set<Pos>, paths: map<Pos, seq<Pos>>)
    requires FillInv(w, h, s0, a, t, f, start, stack, from, visited, filled, paths)
    requires stack != [] && stack[|stack| - 1] in visited
    ensures FillInv(w, h, s0, a, t, f, start, stack[..|stack| - 1], from[..|from| - 1], visited, filled, paths)
  {
    hide FillCells, FillSound, FillClosed, FillStack;
    var n := |stack| - 1;
    SkipClosed(stack, visited, filled);
    SkipStack(start, stack, from, filled);
    assert stack == stack[..n] + [stack[n]];
  }

  lemma SkipClosed(stack: seq<Pos>, visited: set<Pos>, filled: set<Pos>)
    requires FillClosed(stack, visited, filled) && stack != [] && stack[|stack| - 1] in visited
    ensures FillClosed(stack[..|stack| - 1], visited, filled)
  {
    var n := |stack| - 1;
    assert stack == stack[..n] + [stack[n]];
    forall p, q | p in filled && q in Neighbours(p)
      ensures q in visited || q in stack[..n]
    {
      assert q in visited || q in stack;
    }
  }

  lemma SkipStack(start: Pos, stack: seq<Pos>, from: seq<Pos>, filled: set<Pos>)
    requires FillStack(start, stack, from, filled) && stack != []
    ensures FillStack(start, stack[..|stack| - 1], from[..|from| - 1], filled)
  {
  }

  /** Popping an unvisited cell that is outside the world or of another type. */
  lemma FillInvReject(w: nat, h: nat, s0: seq<Atom>, a: seq<Atom>, t: AtomType, f: AtomType, start: Pos,
                      stack: seq<Pos>, from: seq<Pos>, visited: set<Pos>, filled: set<Pos>, paths: map<Pos, seq<Pos>>)
    requires FillInv(w, h, s0, a, t, f, start, stack, from, visited, filled, paths)
    requires stack != [] && !OfType(w, h, s0, t, stack[|stack| - 1])
    ensures FillInv(w, h, s0, a, t, f, start, stack[..|stack| - 1], from[..|from| - 1],
                    visited + {stack[|stack| - 1]}, filled, paths)
  {
    var n := |stack| - 1;
    var v := visited + {stack[n]};
    assert stack == stack[..n] + [stack[n]];
    forall p, q | p in filled && q in Neighbours(p)
      ensures q in v || q in stack[..n]
    {
      assert q in visited || q in stack;
    }
  }

  /** Popping an unvisited cell of the start's type: it is painted and its neighbours are pushed. */
  lemma FillInvPaint(w: nat, h: nat, s0: seq<Atom>, a: seq<Atom>, t: AtomType, f: AtomType, start: Pos,
                     stack: seq<Pos>, from: seq<Pos>, visited: set<Pos>, filled: set<Pos>, paths: map<Pos, seq<Pos>>,
                     p: Pos, path: seq<Pos>)
    requires FillInv(w, h, s0, a, t, f, start, stack, from, visited, filled, paths)
    requires stack != [] && p == stack[|stack| - 1] && p !in visited && OfType(w, h, s0, t, p)
    requires path == if p == start then [p] else paths[from[|stack| - 1]] + [p]
    ensures FillInv(w, h, s0, SetCell(w, h, a, p.0, p.1, Painted(f)), t, f, start,
                    stack[..|stack| - 1] + Neighbours(p), from[..|stack| - 1] + [p, p, p, p],
                    visited + {p}, filled + {p}, paths[p := path])
  {
    hide FillCells, FillSound, FillClosed, FillStack;
    PaintCells(w, h, s0, a, f, filled, p);
    PaintSound(w, h, s0, t, start, stack, from, visited, filled, paths);
    PaintClosed(stack, visited, filled);
    PaintStack(start, stack, from, filled);
    PaintStart(start, stack, visited, p);
  }

  lemma PaintStart(start: Pos, stack: seq<Pos>, visited: set<Pos>, p: Pos)
    requires (start in visited || start in stack) && stack != [] && p == stack[|stack| - 1]
    ensures start in visited + {p} || start in stack[..|stack| - 1] + Neighbours(p)
  {
    var n := |stack| - 1;
    if start !in visited + {p} {
      assert stack == stack[..n] + [p];
    }
  }

  lemma PaintCells(w: nat, h: nat, s0: seq<Atom>, a: seq<Atom>, f: AtomType, filled: set<Pos>, p: Pos)
    requires FillCells(w, h, s0, a, f, filled)
    ensures FillCells(w, h, s0, SetCell(w, h, a, p.0, p.1, Painted(f)), f, filled + {p})
  {
    forall px, py | InBounds(w, h, px, py)
      ensures SetCell(w, h, a, p.0, p.1, Painted(f))[At(w, h, px, py)] ==
        if (px, py) in filled + {p} then Painted(f) else s0[At(w, h, px, py)]
    {
      SetCellAt(w, h, a, p.0, p.1, Painted(f), px, py);
    }
  }

  lemma PaintSound(w: nat, h: nat, s0: seq<Atom>, t: AtomType, start: Pos,
                   stack: seq<Pos>, from: seq<Pos>, visited: set<Pos>, filled: set<Pos>, paths: map<Pos, seq<Pos>>)
    requires FillSound(w, h, s0, t, start, visited, filled, paths) && FillStack(start, stack, from, filled)
    requires stack != [] && OfType(w, h, s0, t, stack[|stack| - 1])
    ensures var n := |stack| - 1;
      var p := stack[n];
      var path := if p == start then [p] else paths[from[n]] + [p];
      FillSound(w, h, s0, t, start, visited + {p}, filled + {p}, paths[p := path])
  {
    var n := |stack| - 1;
    var p := stack[n];
    var path := if p == start then [p] else paths[from[n]] + [p];
    if p != start {
      var q := from[n];
      var pq := paths[q];
      assert IsPath(w, h, s0, t, pq) && p in Neighbours(q);
      forall i | 0 <= i < |path| - 1
        ensures path[i + 1] in Neighbours(path[i])
      {
        if i < |pq| - 1 {
          assert path[i] == pq[i] && path[i + 1] == pq[i + 1];
        } else {
          assert path[i] == q && path[i + 1] == p;
        }
      }
      assert IsPath(w, h, s0, t, path);
    }
    var paths' := paths[p := path];
    forall r | r in filled + {p}
      ensures IsPath(w, h, s0, t, paths'[r]) && paths'[r][0] == start && paths'[r][|paths'[r]| - 1] == r
    {
      if r != p {
        assert paths'[r] == paths[r];
      }
    }
  }

  lemma PaintClosed(stack: seq<Pos>, visited: set<Pos>, filled: set<Pos>)
    requires FillClosed(stack, visited, filled) && stack != []
    ensures var n := |stack| - 1;
      FillClosed(stack[..n] + Neighbours(stack[n]), visited + {stack[n]}, filled + {stack[n]})
  {
    var n := |stack| - 1;
    var p := stack[n];
    var stack' := stack[..n] + Neighbours(p);
    assert stack == stack[..n] + [p];
    forall r, q | r in filled + {p} && q in Neighbours(r)
      ensures q in visited + {p} || q in stack'
    {
      if r != p {
        assert q in visited || q in stack;
      }
    }
  }

  lemma PaintStack(start: Pos, stack: seq<Pos>, from: seq<Pos>, filled: set<Pos>)
    requires FillStack(start, stack, from, filled) && stack != []
    ensures var n := |stack| - 1;
      FillStack(start, stack[..n] + Neighbours(stack[n]), from[..n] + [stack[n], stack[n], stack[n], stack[n]], filled + {stack[n]})
  {
    var n := |stack| - 1;
    var p := stack[n];
    var stack' := stack[..n] + Neighbours(p);
    var from' := from[..n] + [p, p, p, p];
    forall i | 0 <= i < |stack'|
      ensures stack'[i] == start || (from'[i] in filled + {p} && stack'[i] in Neighbours(from'[i]))
    {
      if i >= n {
        assert from'[i] == p && stack'[i] == Neighbours(p)[i - n];
      } else {
        assert stack'[i] == stack[i] && from'[i] == from[i];
      }
    }
  }

  /** Once the stack is empty, the filled cells are exactly those along some path from the start. */
  lemma {:induction false} PathFilled(w: nat, h: nat, s0: seq<Atom>, a: seq<Atom>, t: AtomType, f: AtomType, start: Pos,
                                      visited: set<Pos>, filled: set<Pos>, paths: map<Pos, seq<Pos>>, path: seq<Pos>)
    requires FillInv(w, h, s0, a, t, f, start, [], [], visited, filled, paths)
    requires IsPath(w, h, s0, t, path) && path[0] == start
    ensures path[|path| - 1] in filled
  {
    var n := |path| - 1;
    if n == 0 {
      assert OfType(w, h, s0, t, start);
    } else {
      var prefix := path[..n];
      assert IsPath(w, h, s0, t, prefix) by {
        forall i | 0 <= i < |prefix| - 1
          ensures prefix[i + 1] in Neighbours(prefix[i])
        {
          assert prefix[i] == path[i] && prefix[i + 1] == path[i + 1];
        }
      }
      PathFilled(w, h, s0, a, t, f, start, visited, filled, paths, prefix);
      assert path[n] in Neighbours(path[n - 1]);
      assert OfType(w, h, s0, t, path[n]);
    }
  }

  lemma FillInvDone(w: nat, h: nat, s0: seq<Atom>, a: seq<Atom>, t: AtomType, f: AtomType, start: Pos,
                    visited: set<Pos>, filled: set<Pos>, paths: map<Pos, seq<Pos>>)
    requires FillInv(w, h, s0, a, t, f, start, [], [], visited, filled, paths)
    ensures forall px, py :: InBounds(w, h, px, py) ==>
      a[At(w, h, px, py)] == if Connected(w, h, s0, t, start, (px, py)) then Painted(f) else s0[At(w, h, px, py)]
  {
    forall px, py | InBounds(w, h, px, py)
      ensures (px, py) in filled <==> Connected(w, h, s0, t, start, (px, py))
    {
      if (px, py) in filled {
        assert IsPath(w, h, s0, t, paths[(px, py)]);
      }
      if Connected(w, h, s0, t, start, (px, py)) {
        var path :| IsPath(w, h, s0, t, path) && path[0] == start && path[|path| - 1] == (px, py);
        PathFilled(w, h, s0, a, t, f, start, visited, filled, paths, path);
      }
    }
  }

  /** Painting a cell of type t with f != t lowers the number of t cells by one. */
  lemma PaintCount(w: nat, h: nat, a: seq<Atom>, p: Pos, t: AtomType, f: AtomType)
    requires |a| == w * h && t != f && OfType(w, h, a, t, p)
    ensures Count(Types(SetCell(w, h, a, p.0, p.1, Painted(f))), t) == Count(Types(a), t) - 1
  {
    var i := At(w, h, p.0, p.1);
    assert Types(SetCell(w, h, a, p.0, p.1, Painted(f))) == Types(a)[i := f];
    CountUpdate(Types(a), i, f, t);
  }

  /** `flood_fill_area`: a stack of cells and a visited set, painting the start's type from the start outward. */
  method FloodFillArea(world: AtomWorld, sx: real, sy: real, f: AtomType)
    requires world.Valid()
    modifies world.atoms
    ensures FilledArea(world.width, world.height, old(world.atoms[..]), world.atoms[..], Trunc(sx), Trunc(sy), f)
  {
    var w, h := world.width, world.height;
    var x0, y0 := Trunc(sx), Trunc(sy);
    var startAtom := GetAtom(w, h, world.atoms[..], x0, y0);
    if startAtom.None? {
      return;
    }
    var t := startAtom.value.atomType;
    if t == f {
      return;
    }
    ghost var s0 := world.atoms[..];
    ghost var from: seq<Pos> := [(x0, y0)];
    ghost var filled: set<Pos> := {};
    ghost var paths: map<Pos, seq<Pos>> := map[];
    var stack: seq<Pos> := [(x0, y0)];
    var visited: set<Pos> := {};
    FillInvInit(w, h, s0, t, f, (x0, y0));
    while stack != []
      invariant FillInv(w, h, s0, world.atoms[..], t, f, (x0, y0), stack, from, visited, filled, paths)
      decreases Count(Types(world.atoms[..]), t), |stack|
    {
      var p := stack[|stack| - 1];
      if p in visited {
        FillInvSkip(w, h, s0, world.atoms[..], t, f, (x0, y0), stack, from, visited, filled, paths);
        stack, from := stack[..|stack| - 1], from[..|from| - 1];
      } else {
        var cell := GetAtom(w, h, world.atoms[..], p.0, p.1);
        if cell.Some? && cell.value.atomType == t {
          assert OfType(w, h, s0, t, p);
          var n := |stack| - 1;
          ghost var path := if p == (x0, y0) then [p] else paths[from[n]] + [p];
          FillInvPaint(w, h, s0, world.atoms[..], t, f, (x0, y0), stack, from, visited, filled, paths, p, path);
          PaintCount(w, h, world.atoms[..], p, t, f);
          paths := paths[p := path];
          world.SetAtom(p.0, p.1, Painted(f));
          stack, from := stack[..n] + Neighbours(p), from[..n] + [p, p, p, p];
          visited, filled := visited + {p}, filled + {p};
        } else {
          FillInvReject(w, h, s0, world.atoms[..], t, f, (x0, y0), stack, from, visited, filled, paths);
          stack, from := stack[..|stack| - 1], from[..|from| - 1];
          visited := visited + {p};
        }
      }
    }
    FillInvDone(w, h, s0, world.atoms[..], t, f, (x0, y0), visited, filled, paths);
  }

  // ---------------------------------------------------------------------
  // Editor state and input
  // ---------------------------------------------------------------------

  datatype EditorMode = Draw | Erase | Fill | Rectangle | Circle | Line | Entity

  /**
   * The brush size after the `+` and `-` keys of one frame: `+` grows it
   * to at most 20, then `-` shrinks it to at least 1.
   */
  function BrushAfterKeys(size: int, plus: bool, minus: bool): (r: int)
    ensures 1 <= size <= 20 ==> 1 <= r <= 20
    ensures !plus && !minus ==> r == size
    ensures plus && !minus && size < 20 ==> r == size + 1
    ensures plus && !minus && size >= 20 ==> r == 20
    ensures !plus && minus && size > 1 ==> r == size - 1
    ensures !plus && minus && size <= 1 ==> r == 1
  {
    var grown := if plus then (if size + 1 <= 20 then size + 1 else 20) else size;
    if minus then (if grown - 1 >= 1 then grown - 1 else 1) else grown
  }

  /** The atom type bound to a digit key: 1 Sand, 2 Water, 3 Stone, 4 Acid, 5 Fire. */
  function DigitType(d: int): (r: Option<AtomType>)
    ensures r.Some? <==> 1 <= d <= 5
    ensures r.Some? ==> r.value != Empty
  {
    if d == 1 then Some(Sand)
    else if d == 2 then Some(Water)
    else if d == 3 then Some(Stone)
    else if d == 4 then Some(Acid)
    else if d == 5 then Some(Fire)
    else None
  }

  /** The mode bound to a letter key: D draws, E erases, F fills. */
  function ModeKey(c: char): (r: Option<EditorMode>)
    ensures r.Some? <==> c in {'D', 'E', 'F'}
  {
    if c == 'D' then Some(Draw) else if c == 'E' then Some(Erase) else if c == 'F' then Some(Fill) else None
  }

  /** The `LevelEditor` resource. */
  class Editor {
    var isActive: bool
    var selectedAtomType: AtomType
    var brushSize: int
    var mode: EditorMode

    constructor ()
      ensures !isActive && selectedAtomType == Stone && brushSize == 3 && mode == Draw
    {
      isActive, selectedAtomType, brushSize, mode := false, Stone, 3, Draw;
    }

    /** The F1 toggle. */
    method Toggle()
      modifies this
      ensures isActive == !old(isActive)
      ensures selectedAtomType == old(selectedAtomType) && brushSize == old(brushSize) && mode == old(mode)
    {
      isActive := !isActive;
    }

    /**
     * `editor_input` for one frame: the size keys, one digit key (0 for
     * none), one mode key, and, while the button is held, the action of the
     * mode at the cursor (cx, cy); nothing at all while the editor is off.
     */
    method EditorInput(world: AtomWorld, plus: bool, minus: bool, digit: int, letter: char,
                       mouseDown: bool, cx: real, cy: real)
      requires world.Valid()
      modifies this, world.atoms
      ensures isActive == old(isActive)
      ensures !isActive ==>
        brushSize == old(brushSize) && selectedAtomType == old(selectedAtomType) && mode == old(mode) &&
        world.atoms[..] == old(world.atoms[..])
      ensures isActive ==>
        brushSize == BrushAfterKeys(old(brushSize), plus, minus) &&
        selectedAtomType == (if DigitType(digit).Some? then DigitType(digit).value else old(selectedAtomType)) &&
        mode == (if ModeKey(letter).Some? then ModeKey(letter).value else old(mode))
      ensures isActive && mouseDown && mode == Draw ==>
        Brushed(world.width, world.height, old(world.atoms[..]), world.atoms[..], cx, cy, selectedAtomType, brushSize)
      ensures isActive && mouseDown && mode == Erase ==>
        Brushed(world.width, world.height, old(world.atoms[..]), world.atoms[..], cx, cy, Empty, brushSize)
      ensures isActive && mouseDown && mode == Fill ==>
        FilledArea(world.width, world.height, old(world.atoms[..]), world.atoms[..], Trunc(cx), Trunc(cy), selectedAtomType)
      ensures isActive && (!mouseDown || mode !in {Draw, Erase, Fill}) ==> world.atoms[..] == old(world.atoms[..])
    {
      if !isActive {
        return;
      }
      brushSize := BrushAfterKeys(brushSize, plus, minus);
      var d := DigitType(digit);
      if d.Some? {
        selectedAtomType := d.value;
      }
      var m := ModeKey(letter);
      if m.Some? {
        mode := m.value;
      }
      if mouseDown {
        match mode {
          case Draw => DrawWithBrush(world, cx, cy, selectedAtomType, brushSize);
          case Erase => DrawWithBrush(world, cx, cy, Empty, brushSize);
          case Fill => FloodFillArea(world, cx, cy, selectedAtomType);
          case _ =>
        }
      }
    }
  }

  // ---------------------------------------------------------------------
  // Undo and redo
  // ---------------------------------------------------------------------

  /** One recorded cell: its coordinates and the atom to put back there. */
  datatype Change = Change(x: int, y: int, atom: Atom)

  /** The set_atom calls of a change set, applied in order (out-of-bounds entries write nothing). */
  function ApplyChanges(w: nat, h: nat, s: seq<Atom>, cs: seq<Change>): (r: seq<Atom>)
    requires |s| == w * h
    ensures |r| == |s|
    decreases |cs|
  {
    if cs == [] then s
    else
      var c := cs[|cs| - 1];
      SetCell(w, h, ApplyChanges(w, h, s, cs[..|cs| - 1]), c.x, c.y, c.atom)
  }

  /** The atom at (x, y), or the default atom outside the world. */
  function Current(w: nat, h: nat, s: seq<Atom>, x: int, y: int): (a: Atom)
    requires |s| == w * h
    ensures InBounds(w, h, x, y) ==> a == s[At(w, h, x, y)]
    ensures !InBounds(w, h, x, y) ==> a == DefaultAtom
  {
    match GetAtom(w, h, s, x, y)
    case None => DefaultAtom
    case Some(a) => a
  }

  /** The current contents of the coordinates of a change set, in the same order. */
  function Snapshot(w: nat, h: nat, s: seq<Atom>, cs: seq<Change>): (r: seq<Change>)
    requires |s| == w * h
    ensures |r| == |cs|
    ensures forall k :: 0 <= k < |cs| ==> r[k] == Change(cs[k].x, cs[k].y, Current(w, h, s, cs[k].x, cs[k].y))
  {
    seq(|cs|, k requires 0 <= k < |cs| => Change(cs[k].x, cs[k].y, Current(w, h, s, cs[k].x, cs[k].y)))
  }

  /** Some entry of the change set lands on cell i. */
  predicate Touches(w: nat, h: nat, cs: seq<Change>, i: nat)
    decreases |cs|
  {
    cs != [] && (Index(w, h, cs[|cs| - 1].x, cs[|cs| - 1].y) == Some(i) || Touches(w, h, cs[..|cs| - 1], i))
  }

  /** Every in-bounds entry of the change set holds what `s0` holds at its cell. */
  predicate AgreesWith(w: nat, h: nat, s0: seq<Atom>, cs: seq<Change>)
    requires |s0| == w * h
  {
    forall k :: 0 <= k < |cs| && InBounds(w, h, cs[k].x, cs[k].y) ==> cs[k].atom == s0[At(w, h, cs[k].x, cs[k].y)]
  }

  /**
   * Applying a change set that agrees with `s0` puts back the cells of `s0`
   * that it touches and leaves every other cell as it was.
   */
  lemma {:induction false} ApplyAgreeing(w: nat, h: nat, s0: seq<Atom>, s: seq<Atom>, cs: seq<Change>, i: nat)
    requires |s0| == w * h && |s| == w * h && i < w * h && AgreesWith(w, h, s0, cs)
    ensures ApplyChanges(w, h, s, cs)[i] == if Touches(w, h, cs, i) then s0[i] else s[i]
    decreases |cs|
  {
    if cs != [] {
      var n := |cs| - 1;
      var prefix := cs[..n];
      assert AgreesWith(w, h, s0, prefix) by {
        forall k | 0 <= k < |prefix| ensures prefix[k] == cs[k] { }
      }
      ApplyAgreeing(w, h, s0, s, prefix, i);
    }
  }

  /** A change set leaves the cells it does not touch alone. */
  lemma {:induction false} ApplyUntouched(w: nat, h: nat, s: seq<Atom>, cs: seq<Change>, i: nat)
    requires |s| == w * h && i < w * h && !Touches(w, h, cs, i)
    ensures ApplyChanges(w, h, s, cs)[i] == s[i]
    decreases |cs|
  {
    if cs != [] {
      ApplyUntouched(w, h, s, cs[..|cs| - 1], i);
    }
  }

  /** A snapshot touches the same cells as the change set it was taken for. */
  lemma {:induction false} SnapshotTouches(w: nat, h: nat, s: seq<Atom>, cs: seq<Change>, i: nat)
    requires |s| == w * h
    ensures Touches(w, h, Snapshot(w, h, s, cs), i) == Touches(w, h, cs, i)
    decreases |cs|
  {
    if cs != [] {
      var n := |cs| - 1;
      assert Snapshot(w, h, s, cs)[..n] == Snapshot(w, h, s, cs[..n]);
      SnapshotTouches(w, h, s, cs[..n], i);
    }
  }

  /**
   * Undo followed by redo: applying a change set and then the snapshot taken
   * just before it gives back the world exactly.
   */
  lemma UndoRedoRoundTrip(w: nat, h: nat, s: seq<Atom>, cs: seq<Change>)
    requires |s| == w * h
    ensures ApplyChanges(w, h, ApplyChanges(w, h, s, cs), Snapshot(w, h, s, cs)) == s
  {
    var snap := Snapshot(w, h, s, cs);
    var mid := ApplyChanges(w, h, s, cs);
    forall i | 0 <= i < w * h
      ensures ApplyChanges(w, h, mid, snap)[i] == s[i]
    {
      ApplyAgreeing(w, h, s, mid, snap, i);
      SnapshotTouches(w, h, s, cs, i);
      if !Touches(w, h, cs, i) {
        ApplyUntouched(w, h, s, cs, i);
      }
    }
  }

  /** The `EditorHistory` resource: stacks of change sets. */
  class EditorHistory {
    var undoStack: seq<seq<Change>>
    var redoStack: seq<seq<Change>>
    const maxHistory: nat

    constructor ()
      ensures undoStack == [] && redoStack == [] && maxHistory == 50
    {
      undoStack, redoStack, maxHistory := [], [], 50;
    }

    /** The `for (x, y, atom) in changes { set_atom(..) }` loop. */
    static method Apply(world: AtomWorld, cs: seq<Change>)
      requires world.Valid()
      modifies world.atoms
      ensures world.atoms[..] == ApplyChanges(world.width, world.height, old(world.atoms[..]), cs)
    {
      ghost var s0 := world.atoms[..];
      var i := 0;
      while i < |cs|
        invariant 0 <= i <= |cs|
        invariant world.atoms[..] == ApplyChanges(world.width, world.height, s0, cs[..i])
      {
        assert cs[..i + 1][..i] == cs[..i];
        world.SetAtom(cs[i].x, cs[i].y, cs[i].atom);
        i := i + 1;
      }
      assert cs[..i] == cs;
    }

    /** Ctrl+Z: pop a change set, push the current contents of its cells for redo, then apply it. */
    method Undo(world: AtomWorld)
      requires world.Valid()
      modifies this, world.atoms
      ensures old(undoStack) == [] ==>
        undoStack == [] && redoStack == old(redoStack) && world.atoms[..] == old(world.atoms[..])
      ensures old(undoStack) != [] ==>
        var cs := old(undoStack)[|old(undoStack)| - 1];
        undoStack == old(undoStack)[..|old(undoStack)| - 1] &&
        redoStack == old(redoStack) + [Snapshot(world.width, world.height, old(world.atoms[..]), cs)] &&
        world.atoms[..] == ApplyChanges(world.width, world.height, old(world.atoms[..]), cs)
    {
      if undoStack != [] {
        var cs := undoStack[|undoStack| - 1];
        undoStack := undoStack[..|undoStack| - 1];
        redoStack := redoStack + [Snapshot(world.width, world.height, world.atoms[..], cs)];
        Apply(world, cs);
      }
    }

    /** Ctrl+Y: the mirror of Undo between the two stacks. */
    method Redo(world: AtomWorld)
      requires world.Valid()
      modifies this, world.atoms
      ensures old(redoStack) == [] ==>
        redoStack == [] && undoStack == old(undoStack) && world.atoms[..] == old(world.atoms[..])
      ensures old(redoStack) != [] ==>
        var cs := old(redoStack)[|old(redoStack)| - 1];
        redoStack == old(redoStack)[..|old(redoStack)| - 1] &&
        undoStack == old(undoStack) + [Snapshot(world.width, world.height, old(world.atoms[..]), cs)] &&
        world.atoms[..] == ApplyChanges(world.width, world.height, old(world.atoms[..]), cs)
    {
      if redoStack != [] {
        var cs := redoStack[|redoStack| - 1];
        redoStack := redoStack[..|redoStack| - 1];
        undoStack := undoStack + [Snapshot(world.width, world.height, world.atoms[..], cs)];
        Apply(world, cs);
      }
    }

    /**
     * `editor_undo_redo` for one frame: an undo on Ctrl+Z, then a redo on
     * Ctrl+Y. When both chords are pressed and there was something to undo,
     * the redo undoes the undo: the world is back as it was and the redo
     * stack too.
     */
    method UndoRedo(world: AtomWorld, undoKey: bool, redoKey: bool)
      requires world.Valid()
      modifies this, world.atoms
      ensures undoKey && redoKey && old(undoStack) != [] ==>
        var cs := old(undoStack)[|old(undoStack)| - 1];
        var snap := Snapshot(world.width, world.height, old(world.atoms[..]), cs);
        world.atoms[..] == old(world.atoms[..]) && redoStack == old(redoStack) &&
        undoStack == old(undoStack)[..|old(undoStack)| - 1] +
          [Snapshot(world.width, world.height, ApplyChanges(world.width, world.height, old(world.atoms[..]), cs), snap)]
      ensures !undoKey && !redoKey ==>
        world.atoms[..] == old(world.atoms[..]) && undoStack == old(undoStack) && redoStack == old(redoStack)
      // Ctrl+Z alone, or both chords with nothing to undo: exactly one Undo, or one Redo
      ensures undoKey && !redoKey && old(undoStack) == [] ==>
        undoStack == [] && redoStack == old(redoStack) && world.atoms[..] == old(world.atoms[..])
      ensures undoKey && !redoKey && old(undoStack) != [] ==>
        var cs := old(undoStack)[|old(undoStack)| - 1];
        undoStack == old(undoStack)[..|old(undoStack)| - 1] &&
        redoStack == old(redoStack) + [Snapshot(world.width, world.height, old(world.atoms[..]), cs)] &&
        world.atoms[..] == ApplyChanges(world.width, world.height, old(world.atoms[..]), cs)
      ensures redoKey && (!undoKey || old(undoStack) == []) && old(redoStack) == [] ==>
        redoStack == [] && undoStack == old(undoStack) && world.atoms[..] == old(world.atoms[..])
      ensures redoKey && (!undoKey || old(undoStack) == []) && old(redoStack) != [] ==>
        var cs := old(redoStack)[|old(redoStack)| - 1];
        redoStack == old(redoStack)[..|old(redoStack)| - 1] &&
        undoStack == old(undoStack) + [Snapshot(world.width, world.height, old(world.atoms[..]), cs)] &&
        world.atoms[..] == ApplyChanges(world.width, world.height, old(world.atoms[..]), cs)
    {
      ghost var s0 := world.atoms[..];
      if undoKey {
        Undo(world);
      }
      if redoKey {
        ghost var cs := if |old(undoStack)| > 0 then old(undoStack)[|old(undoStack)| - 1] else [];
        Redo(world);
        if undoKey && old(undoStack) != [] {
          UndoRedoRoundTrip(world.width, world.height, s0, cs);
        }
      }
    }
  }
}
