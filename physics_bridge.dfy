// The physics-bridge example: a sand-only world whose reads outside the
// grid count as empty and whose writes outside the grid are dropped, the
// collider regions found by the shared flood fill, and their bounds.
module PhysicsBridge {
  import opened Common
  import opened Grid
  import Physics

  datatype AtomType = Empty | Sand | Stone

  /** Sand and Stone are solid. */
  predicate IsSolid(t: AtomType) {
    t == Sand || t == Stone
  }

  /** `get`: the cell at (x, y), or None outside the grid. */
  function Get(w: nat, h: nat, s: seq<AtomType>, x: int, y: int): (r: Option<AtomType>)
    requires |s| == w * h
    ensures r.Some? <==> InBounds(w, h, x, y)
    ensures r.Some? ==> r.value == s[At(w, h, x, y)]
  {
    match Index(w, h, x, y)
    case Some(i) => Some(s[i])
    case None => None
  }

  /** `is_empty`: an Empty cell, or any coordinate outside the grid. */
  predicate EmptyAt(w: nat, h: nat, s: seq<AtomType>, x: int, y: int)
    requires |s| == w * h
  {
    match Get(w, h, s, x, y)
    case None => true
    case Some(a) => a == Empty
  }

  /** Down, down-left, down-right: the order `update_sand_atom` tries. */
  const SandOffsets: seq<(int, int)> := [(0, 1), (-1, 1), (1, 1)]

  /** The first offset whose cell is empty in the sense of `is_empty`, or |offs| when none is. */
  function FirstFree(w: nat, h: nat, s: seq<AtomType>, x: int, y: int, offs: seq<(int, int)>): (k: nat)
    requires |s| == w * h
    ensures k <= |offs|
    ensures k < |offs| ==> EmptyAt(w, h, s, x + offs[k].0, y + offs[k].1)
    ensures forall j :: 0 <= j < k ==> !EmptyAt(w, h, s, x + offs[j].0, y + offs[j].1)
    decreases |offs|
  {
    if offs == [] then 0
    else if EmptyAt(w, h, s, x + offs[0].0, y + offs[0].1) then 0
    else 1 + FirstFree(w, h, s, x, y, offs[1..])
  }

  /**
   * `update_sand_atom` on a grid: a Sand cell is emptied and a Sand cell is
   * written at the first free target. A target outside the grid counts as
   * free, and the write there is dropped.
   */
  function SandStep(w: nat, h: nat, s: seq<AtomType>, x: int, y: int): (r: seq<AtomType>)
    requires |s| == w * h
    ensures |r| == |s|
  {
    if Get(w, h, s, x, y) != Some(Sand) then s
    else
      var k := FirstFree(w, h, s, x, y, SandOffsets);
      if k == |SandOffsets| then s
      else SetCell(w, h, SetCell(w, h, s, x, y, Empty), x + SandOffsets[k].0, y + SandOffsets[k].1, Sand)
  }

  /** Only Sand moves, and only when a target is free: otherwise the grid is left alone. */
  lemma SandStepStays(w: nat, h: nat, s: seq<AtomType>, x: int, y: int)
    requires |s| == w * h
    requires Get(w, h, s, x, y) != Some(Sand) || FirstFree(w, h, s, x, y, SandOffsets) == 3
    ensures SandStep(w, h, s, x, y) == s
  {
  }

  /** A grain with a free target is taken out of its cell and written at the target. */
  lemma SandStepChosen(w: nat, h: nat, s: seq<AtomType>, x: int, y: int, k: nat)
    requires |s| == w * h && Get(w, h, s, x, y) == Some(Sand)
    requires FirstFree(w, h, s, x, y, SandOffsets) == k && k < 3
    ensures SandStep(w, h, s, x, y) ==
      SetCell(w, h, SetCell(w, h, s, x, y, Empty), x + SandOffsets[k].0, y + SandOffsets[k].1, Sand)
  {
    hide FirstFree, EmptyAt, Get, SetCell;
  }

  /** A moving grain changes at most two cells: its own and its target's. */
  lemma SandStepTwoCells(w: nat, h: nat, s: seq<AtomType>, x: int, y: int, k: nat, i: nat)
    requires |s| == w * h && Get(w, h, s, x, y) == Some(Sand)
    requires FirstFree(w, h, s, x, y, SandOffsets) == k && k < 3
    requires i < |s| && SandStep(w, h, s, x, y)[i] != s[i]
    ensures i == At(w, h, x, y) || Index(w, h, x + SandOffsets[k].0, y + SandOffsets[k].1) == Some(i)
  {
    SandStepChosen(w, h, s, x, y, k);
    var t := SetCell(w, h, s, x, y, Empty);
    assert t == s[At(w, h, x, y) := Empty];
  }

  /** A grain blocked on all three sides stays where it is. */
  lemma SandStepBlocked(w: nat, h: nat, s: seq<AtomType>, x: int, y: int)
    requires |s| == w * h && Get(w, h, s, x, y) == Some(Sand)
    requires forall o :: o in SandOffsets ==> !EmptyAt(w, h, s, x + o.0, y + o.1)
    ensures SandStep(w, h, s, x, y) == s
  {
    assert !EmptyAt(w, h, s, x + SandOffsets[0].0, y + SandOffsets[0].1);
    assert !EmptyAt(w, h, s, x + SandOffsets[1].0, y + SandOffsets[1].1);
    assert !EmptyAt(w, h, s, x + SandOffsets[2].0, y + SandOffsets[2].1);
  }

  /** A grain moving to a free cell inside the grid is conserved: the two cells exchange contents. */
  lemma SandStepInside(w: nat, h: nat, s: seq<AtomType>, x: int, y: int, k: nat)
    requires |s| == w * h && Get(w, h, s, x, y) == Some(Sand)
    requires FirstFree(w, h, s, x, y, SandOffsets) == k && k < 3
    requires InBounds(w, h, x + SandOffsets[k].0, y + SandOffsets[k].1)
    ensures SandStep(w, h, s, x, y) == SwapAt(s, At(w, h, x, y), At(w, h, x + SandOffsets[k].0, y + SandOffsets[k].1))
    ensures Count(SandStep(w, h, s, x, y), Sand) == Count(s, Sand)
    ensures Count(SandStep(w, h, s, x, y), Stone) == Count(s, Stone)
    ensures multiset(SandStep(w, h, s, x, y)) == multiset(s)
  {
    var i, j := At(w, h, x, y), At(w, h, x + SandOffsets[k].0, y + SandOffsets[k].1);
    assert i != j by {
      IndexDivMod(w, h, x, y);
      IndexDivMod(w, h, x + SandOffsets[k].0, y + SandOffsets[k].1);
    }
    SandStepChosen(w, h, s, x, y, k);
    var r := SandStep(w, h, s, x, y);
    assert r == s[i := Empty][j := Sand];
    assert r == SwapAt(s, i, j);
    SwapAtPermutes(s, i, j);
    CountMultiset(r, Sand);
    CountMultiset(s, Sand);
    CountMultiset(r, Stone);
    CountMultiset(s, Stone);
  }

  /** A grain whose first free target lies outside the grid disappears: one Sand fewer. */
  lemma SandStepFallsOff(w: nat, h: nat, s: seq<AtomType>, x: int, y: int, k: nat)
    requires |s| == w * h && Get(w, h, s, x, y) == Some(Sand)
    requires FirstFree(w, h, s, x, y, SandOffsets) == k && k < 3
    requires !InBounds(w, h, x + SandOffsets[k].0, y + SandOffsets[k].1)
    ensures SandStep(w, h, s, x, y) == s[At(w, h, x, y) := Empty]
    ensures Count(SandStep(w, h, s, x, y), Sand) == Count(s, Sand) - 1
    ensures Count(SandStep(w, h, s, x, y), Stone) == Count(s, Stone)
  {
    SandStepChosen(w, h, s, x, y, k);
    CountUpdate(s, At(w, h, x, y), Empty, Sand);
    CountUpdate(s, At(w, h, x, y), Empty, Stone);
  }

  /** On the bottom row the cell below is outside, so every grain there vanishes. */
  lemma BottomRowSandVanishes(w: nat, h: nat, s: seq<AtomType>, x: int)
    requires |s| == w * h && 0 <= x < w && Get(w, h, s, x, h - 1) == Some(Sand)
    ensures SandStep(w, h, s, x, h - 1) == s[At(w, h, x, h - 1) := Empty]
    ensures Count(SandStep(w, h, s, x, h - 1), Sand) == Count(s, Sand) - 1
  {
    assert FirstFree(w, h, s, x, h - 1, SandOffsets) == 0;
    SandStepFallsOff(w, h, s, x, h - 1, 0);
  }

  /** Neither kind of step touches Stone, and no step creates Sand. */
  lemma SandStepKeepsStone(w: nat, h: nat, s: seq<AtomType>, x: int, y: int)
    requires |s| == w * h
    ensures Count(SandStep(w, h, s, x, y), Stone) == Count(s, Stone)
    ensures Count(SandStep(w, h, s, x, y), Sand) <= Count(s, Sand)
  {
    var k := FirstFree(w, h, s, x, y, SandOffsets);
    if Get(w, h, s, x, y) == Some(Sand) && k < 3 {
      if InBounds(w, h, x + SandOffsets[k].0, y + SandOffsets[k].1) {
        SandStepInside(w, h, s, x, y, k);
      } else {
        SandStepFallsOff(w, h, s, x, y, k);
      }
    } else {
      SandStepStays(w, h, s, x, y);
    }
  }

  /** Consecutive steps at the given cells. */
  function SandPass(w: nat, h: nat, s: seq<AtomType>, cells: seq<(int, int)>): (r: seq<AtomType>)
    requires |s| == w * h
    ensures |r| == w * h
    decreases |cells|
  {
    if cells == [] then s
    else
      var c := cells[|cells| - 1];
      SandStep(w, h, SandPass(w, h, s, cells[..|cells| - 1]), c.0, c.1)
  }

  lemma SandPassStep(w: nat, h: nat, s: seq<AtomType>, cells: seq<(int, int)>, k: nat)
    requires |s| == w * h && k < |cells|
    ensures SandPass(w, h, s, cells[..k + 1]) == SandStep(w, h, SandPass(w, h, s, cells[..k]), cells[k].0, cells[k].1)
  {
    assert cells[..k + 1][..k] == cells[..k];
  }

  /** A whole pass keeps every Stone and never creates Sand. */
  lemma {:induction false} SandPassKeepsStone(w: nat, h: nat, s: seq<AtomType>, cells: seq<(int, int)>)
    requires |s| == w * h
    ensures Count(SandPass(w, h, s, cells), Stone) == Count(s, Stone)
    ensures Count(SandPass(w, h, s, cells), Sand) <= Count(s, Sand)
    decreases |cells|
  {
    if cells != [] {
      var c := cells[|cells| - 1];
      SandPassKeepsStone(w, h, s, cells[..|cells| - 1]);
      SandStepKeepsStone(w, h, SandPass(w, h, s, cells[..|cells| - 1]), c.0, c.1);
    }
  }

  /** The solid cells of a grid, position by position. */
  function SolidMask(s: seq<AtomType>): (m: seq<bool>)
    ensures |m| == |s|
    ensures forall i :: 0 <= i < |s| ==> (m[i] <==> IsSolid(s[i]))
  {
    seq(|s|, i requires 0 <= i < |s| => IsSolid(s[i]))
  }

  /** A real bound or one of the infinities `find_bounds` starts from. */
  datatype Bound = NegInf | Finite(v: real) | PosInf

  /** f32 `min` with a finite value: the infinity gives way to the value. */
  function Lower(b: Bound, v: real): (r: Bound)
    requires !b.NegInf?
    ensures r == Finite(if b.Finite? then MinR(b.v, v) else v)
  {
    match b
    case Finite(u) => Finite(MinR(u, v))
    case _ => Finite(v)
  }

  /** f32 `max` with a finite value. */
  function Upper(b: Bound, v: real): (r: Bound)
    requires !b.PosInf?
    ensures r == Finite(if b.Finite? then MaxR(b.v, v) else v)
  {
    match b
    case Finite(u) => Finite(MaxR(u, v))
    case _ => Finite(v)
  }

  predicate AtMost(b: Bound, v: real) {
    b.NegInf? || (b.Finite? && b.v <= v)
  }

  predicate AtLeast(b: Bound, v: real) {
    b.PosInf? || (b.Finite? && b.v >= v)
  }

  /** The bound of a non-empty list is attained by one of its points; an empty list keeps the start value. */
  predicate Attained(b: Bound, vs: seq<real>, start: Bound) {
    if vs == [] then b == start else b.Finite? && exists i :: 0 <= i < |vs| && vs[i] == b.v
  }

  /** The point coordinates, component by component. */
  function Xs(ps: seq<Vec2>): (r: seq<real>)
    ensures |r| == |ps| && forall i :: 0 <= i < |ps| ==> r[i] == ps[i].x
  {
    seq(|ps|, i requires 0 <= i < |ps| => ps[i].x)
  }

  function Ys(ps: seq<Vec2>): (r: seq<real>)
    ensures |r| == |ps| && forall i :: 0 <= i < |ps| ==> r[i] == ps[i].y
  {
    seq(|ps|, i requires 0 <= i < |ps| => ps[i].y)
  }

  /**
   * `find_bounds`: the smallest and largest x and y over the points,
   * starting from +inf for the minima and -inf for the maxima.
   */
  method FindBounds(points: seq<Vec2>) returns (minX: Bound, maxX: Bound, minY: Bound, maxY: Bound)
    ensures forall p :: p in points ==> AtMost(minX, p.x) && AtLeast(maxX, p.x) && AtMost(minY, p.y) && AtLeast(maxY, p.y)
    ensures Attained(minX, Xs(points), PosInf) && Attained(maxX, Xs(points), NegInf)
    ensures Attained(minY, Ys(points), PosInf) && Attained(maxY, Ys(points), NegInf)
  {
    minX, maxX, minY, maxY := PosInf, NegInf, PosInf, NegInf;
    var i := 0;
    while i < |points|
      invariant 0 <= i <= |points|
      invariant !minX.NegInf? && !maxX.PosInf? && !minY.NegInf? && !maxY.PosInf?
      invariant forall j :: 0 <= j < i ==>
        AtMost(minX, points[j].x) && AtLeast(maxX, points[j].x) && AtMost(minY, points[j].y) && AtLeast(maxY, points[j].y)
      invariant Attained(minX, Xs(points[..i]), PosInf) && Attained(maxX, Xs(points[..i]), NegInf)
      invariant Attained(minY, Ys(points[..i]), PosInf) && Attained(maxY, Ys(points[..i]), NegInf)
    {
      var p := points[i];
      assert Xs(points[..i + 1]) == Xs(points[..i]) + [p.x];
      assert Ys(points[..i + 1]) == Ys(points[..i]) + [p.y];
      minX := Lower(minX, p.x);
      maxX := Upper(maxX, p.x);
      minY := Lower(minY, p.y);
      maxY := Upper(maxY, p.y);
      i := i + 1;
    }
    assert points[..i] == points;
  }

  class BridgeWorld {
    const width: nat
    const height: nat
    const atoms: array<AtomType>

    predicate Valid()
      reads this
    {
      atoms.Length == width * height
    }

    /** `AtomWorld::new`: an all-Empty grid. */
    constructor(w: nat, h: nat)
      ensures Valid() && width == w && height == h && fresh(atoms)
      ensures atoms[..] == seq(w * h, _ => Empty)
    {
      width, height := w, h;
      atoms := new AtomType[w * h](_ => Empty);
      new;
      assert atoms[..] == seq(w * h, _ => Empty);
    }

    /** `set`: writes the cell at (x, y); outside the grid nothing happens. */
    method Set(x: int, y: int, a: AtomType)
      requires Valid()
      modifies atoms
      ensures atoms[..] == SetCell(width, height, old(atoms[..]), x, y, a)
    {
      if 0 <= x < width && 0 <= y < height {
        atoms[At(width, height, x, y)] := a;
      }
    }

    /** `update_sand_atom`: the down, down-left, down-right chain of `is_empty` tests. */
    method UpdateSandAtom(x: int, y: int)
      requires Valid()
      modifies atoms
      ensures atoms[..] == SandStep(width, height, old(atoms[..]), x, y)
    {
      hide SandStep, FirstFree, EmptyAt, SetCell;
      ghost var s := atoms[..];
      if Get(width, height, atoms[..], x, y) != Some(Sand) {
        SandStepStays(width, height, s, x, y);
        return;
      }
      var k := FirstFree(width, height, atoms[..], x, y, SandOffsets);
      if k < |SandOffsets| {
        SandStepChosen(width, height, s, x, y, k);
        Set(x, y, Empty);
        Set(x + SandOffsets[k].0, y + SandOffsets[k].1, Sand);
      } else {
        SandStepStays(width, height, s, x, y);
      }
    }

    /** `update_atom_physics`: every cell once, rows from the bottom up, left to right. */
    method UpdateAtomPhysics()
      requires Valid()
      modifies atoms
      ensures atoms[..] == SandPass(width, height, old(atoms[..]), BottomUpScan(width, height))
    {
      ghost var s0 := atoms[..];
      ghost var cells := BottomUpScan(width, height);
      ghost var k := 0;
      var y := height;
      while y > 0
        invariant 0 <= y <= height
        invariant k == (height - y) * width
        invariant 0 <= k <= width * height
        invariant atoms[..] == SandPass(width, height, s0, cells[..k])
      {
        y := y - 1;
        var x := 0;
        while x < width
          invariant 0 <= x <= width
          invariant k == (height - 1 - y) * width + x
          invariant 0 <= k <= width * height
          invariant atoms[..] == SandPass(width, height, s0, cells[..k])
        {
          BottomUpPosition(width, height, x, y, k);
          SandPassStep(width, height, s0, cells, k);
          UpdateSandAtom(x, y);
          x := x + 1;
          k := k + 1;
        }
        assert k == (height - y) * width;
      }
      MulMono(0, 0, width);
      assert cells[..k] == cells;
    }

    /** `find_solid_regions` of the example: the shared flood fill over this world's solid cells. */
    method FindSolidRegions() returns (regions: seq<seq<Physics.Pos>>)
      requires Valid()
      ensures forall i :: 0 <= i < |regions| ==> |regions[i]| >= 3 && Physics.Distinct(regions[i])
      ensures forall i, k :: 0 <= i < |regions| && 0 <= k < |regions[i]| ==>
        InBounds(width, height, regions[i][k].0, regions[i][k].1) &&
        IsSolid(atoms[At(width, height, regions[i][k].0, regions[i][k].1)])
      ensures Physics.PairwiseDisjoint(regions)
    {
      var mask := SolidMask(atoms[..]);
      regions := Physics.FindSolidRegions(width, height, mask);
    }
  }
}
