// The basic falling-sand example: Sand and Water on a bounded grid where
// only in-bounds Empty cells count as free, every move is a bounds-checked
// swap, and the pass visits rows from the bottom up, left to right.
module FallingSandBasic {
  import opened Common
  import opened Grid

  datatype AtomType = Empty | Sand | Water

  /** `get`: the cell at (x, y), or None outside the grid. */
  function Get(w: nat, h: nat, s: seq<AtomType>, x: int, y: int): (r: Option<AtomType>)
    requires |s| == w * h
    ensures r.Some? <==> InBounds(w, h, x, y)
    ensures r.Some? ==> r.value == s[At(w, h, x, y)]
  {
    match Index(w, h, x, y)
    case Some(i) => Some(s[i])
    case None => None
  }

  /** The `matches!(get(..), Some(a) if a is Empty)` test: outside the grid is never free. */
  predicate Free(w: nat, h: nat, s: seq<AtomType>, x: int, y: int)
    requires |s| == w * h
  {
    Get(w, h, s, x, y) == Some(Empty)
  }

  /** The first offset whose cell is free, or |offs| when none is. */
  function FirstFree(w: nat, h: nat, s: seq<AtomType>, x: int, y: int, offs: seq<(int, int)>): (k: nat)
    requires |s| == w * h
    ensures k <= |offs|
    ensures k < |offs| ==> Free(w, h, s, x + offs[k].0, y + offs[k].1)
    ensures forall j :: 0 <= j < k ==> !Free(w, h, s, x + offs[j].0, y + offs[j].1)
    decreases |offs|
  {
    if offs == [] then 0
    else if Free(w, h, s, x + offs[0].0, y + offs[0].1) then 0
    else 1 + FirstFree(w, h, s, x, y, offs[1..])
  }

  /** Down, down-left, down-right. */
  const SandOffsets: seq<(int, int)> := [(0, 1), (-1, 1), (1, 1)]

  /** Down, then the drawn side `dir`, then the other side. */
  function WaterOffsets(dir: int): seq<(int, int)> {
    [(0, 1), (dir, 0), (-dir, 0)]
  }

  /** The side a coin flip picks: -1 when true, 1 otherwise. */
  function Dir(left: bool): int {
    if left then -1 else 1
  }

  /** The swap with the first free candidate, if there is one. */
  function Move(w: nat, h: nat, s: seq<AtomType>, x: int, y: int, offs: seq<(int, int)>): (r: seq<AtomType>)
    requires |s| == w * h
    ensures |r| == |s|
  {
    var k := FirstFree(w, h, s, x, y, offs);
    if k < |offs| then SwapCoords(w, h, s, x, y, x + offs[k].0, y + offs[k].1) else s
  }

  /** The candidates of each atom type: Empty has none. */
  function Candidates(t: AtomType, left: bool): seq<(int, int)> {
    match t
    case Sand => SandOffsets
    case Water => WaterOffsets(Dir(left))
    case Empty => []
  }

  /** `update_atom` at (x, y), the water's coin flip given as `left`. */
  function Step(w: nat, h: nat, s: seq<AtomType>, x: int, y: int, left: bool): (r: seq<AtomType>)
    requires |s| == w * h
    ensures |r| == |s|
  {
    match Get(w, h, s, x, y)
    case None => s
    case Some(t) => Move(w, h, s, x, y, Candidates(t, left))
  }

  /**
   * A move from an in-bounds cell is either nothing, when no candidate is
   * free, or exactly one swap with the first free candidate, which held Empty.
   */
  lemma MoveChosen(w: nat, h: nat, s: seq<AtomType>, x: int, y: int, offs: seq<(int, int)>, k: nat)
    requires |s| == w * h && InBounds(w, h, x, y) && FirstFree(w, h, s, x, y, offs) == k
    ensures k == |offs| ==> Move(w, h, s, x, y, offs) == s
    ensures k < |offs| ==>
      var j := At(w, h, x + offs[k].0, y + offs[k].1);
      s[j] == Empty && Move(w, h, s, x, y, offs) == SwapAt(s, At(w, h, x, y), j)
  {
  }

  /** On three candidates, the first free one is found by the source's if / else-if chain. */
  lemma FirstFreeChain(w: nat, h: nat, s: seq<AtomType>, x: int, y: int, offs: seq<(int, int)>)
    requires |s| == w * h && |offs| == 3
    ensures FirstFree(w, h, s, x, y, offs) ==
      if Free(w, h, s, x + offs[0].0, y + offs[0].1) then 0
      else if Free(w, h, s, x + offs[1].0, y + offs[1].1) then 1
      else if Free(w, h, s, x + offs[2].0, y + offs[2].1) then 2
      else 3
  {
    assert offs[1..][1..] == offs[2..];
    assert offs[2..][1..] == [];
  }

  /**
   * On three candidates, landing on (x0, y0), (x1, y1) and (x2, y2), a move is
   * the source's if / else-if chain of swaps.
   */
  lemma MoveChain(w: nat, h: nat, s: seq<AtomType>, x: int, y: int, offs: seq<(int, int)>,
                  x0: int, y0: int, x1: int, y1: int, x2: int, y2: int)
    requires |s| == w * h && |offs| == 3
    requires x + offs[0].0 == x0 && y + offs[0].1 == y0
    requires x + offs[1].0 == x1 && y + offs[1].1 == y1
    requires x + offs[2].0 == x2 && y + offs[2].1 == y2
    ensures Move(w, h, s, x, y, offs) ==
      if Free(w, h, s, x0, y0) then SwapCoords(w, h, s, x, y, x0, y0)
      else if Free(w, h, s, x1, y1) then SwapCoords(w, h, s, x, y, x1, y1)
      else if Free(w, h, s, x2, y2) then SwapCoords(w, h, s, x, y, x2, y2)
      else s
  {
    hide FirstFree, SwapCoords, Free;
    FirstFreeChain(w, h, s, x, y, offs);
  }

  /** Sand tries down, down-left, down-right, in that order, and swaps with the first that is free. */
  lemma SandPriority(w: nat, h: nat, s: seq<AtomType>, x: int, y: int, left: bool)
    requires |s| == w * h && Get(w, h, s, x, y) == Some(Sand)
    ensures Step(w, h, s, x, y, left) ==
      if Free(w, h, s, x, y + 1) then SwapCoords(w, h, s, x, y, x, y + 1)
      else if Free(w, h, s, x - 1, y + 1) then SwapCoords(w, h, s, x, y, x - 1, y + 1)
      else if Free(w, h, s, x + 1, y + 1) then SwapCoords(w, h, s, x, y, x + 1, y + 1)
      else s
  {
    assert Step(w, h, s, x, y, left) == Move(w, h, s, x, y, SandOffsets);
    MoveChain(w, h, s, x, y, SandOffsets, x, y + 1, x - 1, y + 1, x + 1, y + 1);
  }

  /** Water tries down, then the drawn side, then the other side, and swaps with the first that is free. */
  lemma WaterPriority(w: nat, h: nat, s: seq<AtomType>, x: int, y: int, left: bool)
    requires |s| == w * h && Get(w, h, s, x, y) == Some(Water)
    ensures var d := Dir(left);
      Step(w, h, s, x, y, left) ==
        if Free(w, h, s, x, y + 1) then SwapCoords(w, h, s, x, y, x, y + 1)
        else if Free(w, h, s, x + d, y) then SwapCoords(w, h, s, x, y, x + d, y)
        else if Free(w, h, s, x - d, y) then SwapCoords(w, h, s, x, y, x - d, y)
        else s
  {
    var d := Dir(left);
    assert Step(w, h, s, x, y, left) == Move(w, h, s, x, y, WaterOffsets(d));
    MoveChain(w, h, s, x, y, WaterOffsets(d), x, y + 1, x + d, y, x - d, y);
  }

  /** Every step only swaps cells: the atoms are permuted. */
  lemma StepPermutes(w: nat, h: nat, s: seq<AtomType>, x: int, y: int, left: bool)
    requires |s| == w * h
    ensures multiset(Step(w, h, s, x, y, left)) == multiset(s)
  {
    match Get(w, h, s, x, y)
    case None =>
    case Some(t) =>
      var offs := Candidates(t, left);
      var k := FirstFree(w, h, s, x, y, offs);
      assert Step(w, h, s, x, y, left) == Move(w, h, s, x, y, offs);
      if k < |offs| {
        SwapCoordsPermutes(w, h, s, x, y, x + offs[k].0, y + offs[k].1);
      }
  }

  /** So the count of each atom type is preserved by a step. */
  lemma StepCounts(w: nat, h: nat, s: seq<AtomType>, x: int, y: int, left: bool, t: AtomType)
    requires |s| == w * h
    ensures Count(Step(w, h, s, x, y, left), t) == Count(s, t)
  {
    StepPermutes(w, h, s, x, y, left);
    CountMultiset(Step(w, h, s, x, y, left), t);
    CountMultiset(s, t);
  }

  /** Consecutive steps at the given cells, with per-cell coin flips. */
  function Pass(w: nat, h: nat, s: seq<AtomType>, cells: seq<(int, int)>, left: (int, int) -> bool): (r: seq<AtomType>)
    requires |s| == w * h
    ensures |r| == w * h
    decreases |cells|
  {
    if cells == [] then s
    else
      var c := cells[|cells| - 1];
      Step(w, h, Pass(w, h, s, cells[..|cells| - 1], left), c.0, c.1, left(c.0, c.1))
  }

  lemma PassStep(w: nat, h: nat, s: seq<AtomType>, cells: seq<(int, int)>, left: (int, int) -> bool, k: nat)
    requires |s| == w * h && k < |cells|
    ensures Pass(w, h, s, cells[..k + 1], left) == Step(w, h, Pass(w, h, s, cells[..k], left), cells[k].0, cells[k].1, left(cells[k].0, cells[k].1))
  {
    assert cells[..k + 1][..k] == cells[..k];
  }

  /** A pass over two lists of cells is the pass over the first, then over the second. */
  lemma {:induction false} PassAppend(w: nat, h: nat, s: seq<AtomType>, a: seq<(int, int)>, b: seq<(int, int)>, left: (int, int) -> bool)
    requires |s| == w * h
    ensures Pass(w, h, s, a + b, left) == Pass(w, h, Pass(w, h, s, a, left), b, left)
    decreases |b|
  {
    if b == [] {
      assert a + b == a;
    } else {
      assert (a + b)[..|a + b| - 1] == a + b[..|b| - 1];
      PassAppend(w, h, s, a, b[..|b| - 1], left);
    }
  }

  /** The cells of the bottom r rows, in the order `update_physics` visits them. */
  function BottomUpPrefix(w: nat, h: nat, r: nat): (c: seq<(int, int)>)
    requires r <= h
    ensures c == BottomUpScan(w, h)[..r * w]
  {
    MulMono(r, h, w);
    MulComm(h, w);
    BottomUpScan(w, h)[..r * w]
  }

  lemma BottomUpPrefixAll(w: nat, h: nat)
    ensures BottomUpPrefix(w, h, h) == BottomUpScan(w, h)
  {
    MulComm(h, w);
  }

  /** The pass over the bottom r + 1 rows is the pass over the bottom r rows followed by row y = h - 1 - r. */
  lemma BottomUpPassRow(w: nat, h: nat, s: seq<AtomType>, y: int, r: nat, left: (int, int) -> bool)
    requires |s| == w * h && 0 <= y < h && r == h - 1 - y
    ensures Pass(w, h, s, BottomUpPrefix(w, h, r + 1), left) == Pass(w, h, Pass(w, h, s, BottomUpPrefix(w, h, r), left), Row(w, y), left)
  {
    BottomUpRow(w, h, y, r);
    PassAppend(w, h, s, BottomUpPrefix(w, h, r), Row(w, y), left);
  }

  /** A whole pass permutes the cells: no atom is created or destroyed. */
  lemma {:induction false} PassPermutes(w: nat, h: nat, s: seq<AtomType>, cells: seq<(int, int)>, left: (int, int) -> bool)
    requires |s| == w * h
    ensures multiset(Pass(w, h, s, cells, left)) == multiset(s)
    decreases |cells|
  {
    if cells != [] {
      var c := cells[|cells| - 1];
      PassPermutes(w, h, s, cells[..|cells| - 1], left);
      StepPermutes(w, h, Pass(w, h, s, cells[..|cells| - 1], left), c.0, c.1, left(c.0, c.1));
    }
  }

  class BasicWorld {
    const width: nat
    const height: nat
    const atoms: array<AtomType>

    predicate Valid()
      reads this
    {
      atoms.Length == width * height
    }

    /** `AtomWorld::new`: an all-Empty grid. */
    constructor(w: nat, h: nat)
      ensures Valid() && width == w && height == h && fresh(atoms)
      ensures atoms[..] == seq(w * h, _ => Empty)
    {
      width, height := w, h;
      atoms := new AtomType[w * h](_ => Empty);
      new;
      assert atoms[..] == seq(w * h, _ => Empty);
    }

    /** `set`: writes the cell at (x, y); outside the grid nothing happens. */
    method Set(x: int, y: int, a: AtomType)
      requires Valid()
      modifies atoms
      ensures atoms[..] == SetCell(width, height, old(atoms[..]), x, y, a)
    {
      if 0 <= x < width && 0 <= y < height {
        atoms[At(width, height, x, y)] := a;
      }
    }

    /** `swap`: both cells read first, then each written with the other; nothing happens if either is outside. */
    method Swap(x1: int, y1: int, x2: int, y2: int)
      requires Valid()
      modifies atoms
      ensures atoms[..] == SwapCoords(width, height, old(atoms[..]), x1, y1, x2, y2)
    {
      var a1 := Get(width, height, atoms[..], x1, y1);
      var a2 := Get(width, height, atoms[..], x2, y2);
      if a1.Some? && a2.Some? {
        Set(x1, y1, a2.value);
        Set(x2, y2, a1.value);
      }
    }

    /** `update_atom`: the candidate chain of the cell's type, ending in at most one swap. */
    method UpdateAtom(x: int, y: int, left: bool)
      requires Valid()
      modifies atoms
      ensures atoms[..] == Step(width, height, old(atoms[..]), x, y, left)
    {
      var a := Get(width, height, atoms[..], x, y);
      if a.None? {
        return;
      }
      var offs := Candidates(a.value, left);
      var k := FirstFree(width, height, atoms[..], x, y, offs);
      if k < |offs| {
        Swap(x, y, x + offs[k].0, y + offs[k].1);
      }
    }

    /** One row of `update_physics`, left to right. */
    method UpdateRow(y: int, left: (int, int) -> bool)
      requires Valid()
      modifies atoms
      ensures atoms[..] == Pass(width, height, old(atoms[..]), Row(width, y), left)
    {
      ghost var s0 := atoms[..];
      var x := 0;
      while x < width
        invariant 0 <= x <= width
        invariant atoms[..] == Pass(width, height, s0, Row(width, y)[..x], left)
      {
        PassStep(width, height, s0, Row(width, y), left, x);
        UpdateAtom(x, y, left(x, y));
        x := x + 1;
      }
      assert Row(width, y)[..x] == Row(width, y);
    }

    /** `update_physics`: rows from the bottom up (y = height - 1 first), each left to right. */
    method UpdatePhysics(left: (int, int) -> bool)
      requires Valid()
      modifies atoms
      ensures atoms[..] == Pass(width, height, old(atoms[..]), BottomUpScan(width, height), left)
    {
      ghost var s0 := atoms[..];
      assert Pass(width, height, s0, [], left) == s0;
      hide Pass, BottomUpScan, Row;
      ghost var r: nat := 0;
      var y := height;
      while y > 0
        invariant 0 <= y <= height && r == height - y
        invariant atoms[..] == Pass(width, height, s0, BottomUpPrefix(width, height, r), left)
      {
        y := y - 1;
        BottomUpPassRow(width, height, s0, y, r, left);
        UpdateRow(y, left);
        r := r + 1;
      }
      BottomUpPrefixAll(width, height);
    }
  }
}
