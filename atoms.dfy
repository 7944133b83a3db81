// The falling-sand cell automaton of the main crate: atom types and their
// tables, the row-major world with bounds-checked access, the per-material
// movement rules, the reaction table, reaction placement and heat diffusion.
module Atoms {
  import opened Common
  import opened Grid

  datatype AtomType = Empty | Sand | Water | Acid | Fire | Smoke | Steam | Poison | Stone

  /** Mass per type; the source's `density` table holds the same values. */
  function Mass(t: AtomType): real {
    match t
    case Empty => 0.0
    case Sand => 1.6
    case Water => 1.0
    case Acid => 1.2
    case Fire => 0.1
    case Smoke => 0.05
    case Steam => 0.01
    case Poison => 1.1
    case Stone => 2.5
  }

  predicate CanBurn(t: AtomType) { t == Sand || t == Stone }

  datatype Atom = Atom(atomType: AtomType, velocity: Vec2, mass: real, lifetime: Option<real>, temperature: real)

  /** The empty cell at room temperature. */
  const DefaultAtom: Atom := Atom(Empty, Zero, 0.0, None, 20.0)

  // ---------------------------------------------------------------------
  // Read access to a world given as width, height and its row-major cells
  // ---------------------------------------------------------------------

  /** The source's `get_index`: a position exactly for in-bounds coordinates. */
  function GetIndex(w: nat, h: nat, x: int, y: int): (r: Option<nat>)
    ensures r.Some? <==> 0 <= x < w && 0 <= y < h
    ensures r.Some? ==> r.value < w * h && r.value / w == y && r.value % w == x
  {
    if InBounds(w, h, x, y) then IndexDivMod(w, h, x, y); Index(w, h, x, y) else None
  }

  function GetAtom(w: nat, h: nat, s: seq<Atom>, x: int, y: int): (r: Option<Atom>)
    requires |s| == w * h
    ensures r.Some? <==> InBounds(w, h, x, y)
    ensures r.Some? ==> r.value == s[At(w, h, x, y)]
  {
    match GetIndex(w, h, x, y)
    case None => None
    case Some(i) => Some(s[i])
  }

  /** A cell counts as empty when it holds Empty or lies outside the world. */
  predicate IsEmpty(w: nat, h: nat, s: seq<Atom>, x: int, y: int)
    requires |s| == w * h
    ensures !InBounds(w, h, x, y) ==> IsEmpty(w, h, s, x, y)
    ensures InBounds(w, h, x, y) ==> (IsEmpty(w, h, s, x, y) <==> s[At(w, h, x, y)].atomType == Empty)
  {
    match GetAtom(w, h, s, x, y)
    case None => true
    case Some(a) => a.atomType == Empty
  }

  // ---------------------------------------------------------------------
  // Movement rules
  // ---------------------------------------------------------------------

  /**
   * The first candidate offset whose cell is empty (|offs| when none is).
   * Because outside cells count as empty, the first candidate that leaves
   * the world is chosen too, and the swap that follows is then a no-op.
   */
  function FirstEmpty(w: nat, h: nat, s: seq<Atom>, x: int, y: int, offs: seq<(int, int)>): (k: nat)
    requires |s| == w * h
    ensures k <= |offs|
    ensures k < |offs| ==> IsEmpty(w, h, s, x + offs[k].0, y + offs[k].1)
    ensures forall j :: 0 <= j < k ==> !IsEmpty(w, h, s, x + offs[j].0, y + offs[j].1)
    decreases |offs|
  {
    if offs == [] then 0
    else if IsEmpty(w, h, s, x + offs[0].0, y + offs[0].1) then 0
    else 1 + FirstEmpty(w, h, s, x, y, offs[1..])
  }

  /** Sand's candidates: down, sideways in the direction of a clear horizontal velocity, down-left, down-right. */
  function SandOffsets(vx: real): seq<(int, int)> {
    [(0, 1)] + (if vx > 0.1 then [(1, 0)] else []) + (if vx < -0.1 then [(-1, 0)] else []) + [(-1, 1), (1, 1)]
  }

  /** Liquids: down, then `dir`, then `-dir` on the same row. */
  function FlowOffsets(dir: int): seq<(int, int)> { [(0, 1), (dir, 0), (-dir, 0)] }

  /** Gases and fire: up, then up-`dir`, then up-`-dir`. */
  function RiseOffsets(dir: int): seq<(int, int)> { [(0, -1), (dir, -1), (-dir, -1)] }

  /** The index the atom at (x, y) is swapped with, if the chosen cell is inside the world. */
  function MoveTarget(w: nat, h: nat, s: seq<Atom>, x: int, y: int, offs: seq<(int, int)>): (t: Option<nat>)
    requires |s| == w * h
    ensures t.Some? ==> t.value < w * h && s[t.value].atomType == Empty
  {
    var k := FirstEmpty(w, h, s, x, y, offs);
    if k < |offs| then GetIndex(w, h, x + offs[k].0, y + offs[k].1) else None
  }

  /** One movement attempt: swap with the first empty candidate, flagging both cells. */
  function Move(w: nat, h: nat, s: seq<Atom>, u: seq<bool>, x: int, y: int, offs: seq<(int, int)>): (r: (seq<Atom>, seq<bool>))
    requires |s| == w * h && |u| == w * h
    ensures |r.0| == w * h && |r.1| == w * h
  {
    var k := FirstEmpty(w, h, s, x, y, offs);
    if k < |offs| then
      (SwapCoords(w, h, s, x, y, x + offs[k].0, y + offs[k].1),
       FlagCoords(w, h, u, x, y, x + offs[k].0, y + offs[k].1))
    else (s, u)
  }

  lemma MoveChosen(w: nat, h: nat, s: seq<Atom>, u: seq<bool>, x: int, y: int, offs: seq<(int, int)>, k: nat)
    requires |s| == w * h && |u| == w * h && k < |offs| && FirstEmpty(w, h, s, x, y, offs) == k
    ensures Move(w, h, s, u, x, y, offs) ==
      (SwapCoords(w, h, s, x, y, x + offs[k].0, y + offs[k].1), FlagCoords(w, h, u, x, y, x + offs[k].0, y + offs[k].1))
  {
  }

  /**
   * A move either changes nothing, or is exactly one swap of the atom with
   * an in-bounds Empty cell, and then both cells are flagged as updated.
   */
  lemma MoveEffect(w: nat, h: nat, s: seq<Atom>, u: seq<bool>, x: int, y: int, offs: seq<(int, int)>)
    requires |s| == w * h && |u| == w * h && InBounds(w, h, x, y)
    ensures var r := Move(w, h, s, u, x, y, offs);
      var i := At(w, h, x, y);
      match MoveTarget(w, h, s, x, y, offs)
      case None => r == (s, u)
      case Some(j) =>
        j < w * h && s[j].atomType == Empty &&
        r.0 == SwapAt(s, i, j) && r.1 == u[i := true][j := true]
  {
    assert GetIndex(w, h, x, y) == Some(At(w, h, x, y));
  }

  /** Moving only swaps, so the atoms present are the same multiset. */
  lemma MovePermutes(w: nat, h: nat, s: seq<Atom>, u: seq<bool>, x: int, y: int, offs: seq<(int, int)>)
    requires |s| == w * h && |u| == w * h
    ensures multiset(Move(w, h, s, u, x, y, offs).0) == multiset(s)
  {
    var k := FirstEmpty(w, h, s, x, y, offs);
    if k < |offs| {
      SwapCoordsPermutes(w, h, s, x, y, x + offs[k].0, y + offs[k].1);
    }
  }

  /** Out-of-bounds-as-empty: sand on the bottom row picks the cell below it, so it never moves. */
  lemma BottomRowSandStays(w: nat, h: nat, s: seq<Atom>, u: seq<bool>, x: int, vx: real)
    requires |s| == w * h && |u| == w * h && 0 <= x < w && h > 0
    ensures Move(w, h, s, u, x, h - 1, SandOffsets(vx)) == (s, u)
  {
    assert !InBounds(w, h, x, h);
    assert FirstEmpty(w, h, s, x, h - 1, SandOffsets(vx)) == 0;
  }

  /** Fire ignition order: dx outer, dy inner, skipping the fire's own cell. */
  const NeighbourOffsets: seq<(int, int)> :=
    [(-1, -1), (-1, 0), (-1, 1), (0, -1), (0, 1), (1, -1), (1, 0), (1, 1)]

  function Ignited(a: Atom): Atom { a.(atomType := Fire, lifetime := Some(5.0)) }

  /** The ignition draw `rand::random::<f32>()` for the fire at (x, y) and its neighbour offset (dx, dy). */
  type Rolls = (int, int, int, int) -> real

  /** One ignition attempt at offset o: an in-bounds burnable cell catches fire when its roll is below 0.01. */
  function IgniteOne(w: nat, h: nat, s: seq<Atom>, x: int, y: int, roll: Rolls, o: (int, int)): (r: seq<Atom>)
    requires |s| == w * h
    ensures |r| == |s|
  {
    match GetIndex(w, h, x + o.0, y + o.1)
    case None => s
    case Some(j) => if CanBurn(s[j].atomType) && roll(x, y, o.0, o.1) < 0.01 then s[j := Ignited(s[j])] else s
  }

  /** The ignition attempts for the offsets in `offs`, in order. */
  function IgniteAll(w: nat, h: nat, s: seq<Atom>, x: int, y: int, roll: Rolls, offs: seq<(int, int)>): (r: seq<Atom>)
    requires |s| == w * h
    ensures |r| == |s|
    decreases |offs|
  {
    if offs == [] then s
    else IgniteOne(w, h, IgniteAll(w, h, s, x, y, roll, offs[..|offs| - 1]), x, y, roll, offs[|offs| - 1])
  }

  /** The position of (dx, dy) in NeighbourOffsets, counting as the two nested loops of the source do. */
  function Slot(dx: int, dy: int): int {
    3 * (dx + 1) + (dy + 1) - (if dx > 0 || (dx == 0 && dy > 0) then 1 else 0)
  }

  lemma NeighbourSlot(dx: int, dy: int)
    requires -1 <= dx <= 1 && -1 <= dy <= 1 && !(dx == 0 && dy == 0)
    ensures 0 <= Slot(dx, dy) < 8 && NeighbourOffsets[Slot(dx, dy)] == (dx, dy)
    ensures Slot(dx, dy + 1) == Slot(dx, dy) + 1
  {
  }

  lemma IgniteAllStep(w: nat, h: nat, s: seq<Atom>, x: int, y: int, roll: Rolls, offs: seq<(int, int)>, n: nat)
    requires |s| == w * h && n < |offs|
    ensures IgniteAll(w, h, s, x, y, roll, offs[..n + 1]) ==
      IgniteOne(w, h, IgniteAll(w, h, s, x, y, roll, offs[..n]), x, y, roll, offs[n])
  {
    assert offs[..n + 1][..n] == offs[..n];
  }

  /** An atom left in place, or set alight where it stands. */
  predicate Settled(now: Atom, before: Atom) { now == before || now == Ignited(before) }

  /** Ignition only turns burnable cells into burning copies of themselves. */
  lemma {:induction false} IgniteAllOnlyBurns(w: nat, h: nat, s: seq<Atom>, x: int, y: int, roll: Rolls, offs: seq<(int, int)>)
    requires |s| == w * h
    ensures var r := IgniteAll(w, h, s, x, y, roll, offs);
      forall i :: 0 <= i < |s| ==> r[i] == s[i] || (CanBurn(s[i].atomType) && r[i] == Ignited(s[i]))
    decreases |offs|
  {
    if offs != [] {
      IgniteAllOnlyBurns(w, h, s, x, y, roll, offs[..|offs| - 1]);
    }
  }

  /**
   * One call of `update_atom` at (x, y). `leftFirst` is the coin flip that
   * picks `dir = -1`; `roll` gives the ignition draws.
   * The lifetime countdown at the end of the source function is not modelled.
   */
  function Step(w: nat, h: nat, s: seq<Atom>, u: seq<bool>, x: int, y: int,
                leftFirst: bool, roll: Rolls): (r: (seq<Atom>, seq<bool>))
    requires |s| == w * h && |u| == w * h
    ensures |r.0| == w * h && |r.1| == w * h
  {
    match GetIndex(w, h, x, y)
    case None => (s, u)
    case Some(i) =>
      if u[i] || s[i].atomType == Empty then (s, u)
      else
        var dir := if leftFirst then -1 else 1;
        match s[i].atomType
        case Sand => Move(w, h, s, u, x, y, SandOffsets(s[i].velocity.x))
        case Water => Move(w, h, s, u, x, y, FlowOffsets(dir))
        case Acid => Move(w, h, s, u, x, y, FlowOffsets(dir))
        case Poison => Move(w, h, s, u, x, y, FlowOffsets(dir))
        case Smoke => Move(w, h, s, u, x, y, RiseOffsets(dir))
        case Steam => Move(w, h, s, u, x, y, RiseOffsets(dir))
        case Fire =>
          var m := Move(w, h, s, u, x, y, RiseOffsets(dir));
          (IgniteAll(w, h, m.0, x, y, roll, NeighbourOffsets), m.1)
        case Stone => (s, u)
        case Empty => (s, u)
  }

  /** The step skips cells outside the world, flagged cells and Empty cells. */
  lemma StepSkips(w: nat, h: nat, s: seq<Atom>, u: seq<bool>, x: int, y: int, leftFirst: bool, roll: Rolls)
    requires |s| == w * h && |u| == w * h
    requires !InBounds(w, h, x, y) || u[At(w, h, x, y)] || s[At(w, h, x, y)].atomType == Empty
    ensures Step(w, h, s, u, x, y, leftFirst, roll) == (s, u)
  {
  }

  /**
   * No atom moves twice: a step never unsets a flag, and an atom standing on
   * a flagged cell is still there afterwards (at most set alight).
   */
  lemma StepKeepsSettled(w: nat, h: nat, s: seq<Atom>, u: seq<bool>, x: int, y: int, leftFirst: bool, roll: Rolls)
    requires |s| == w * h && |u| == w * h
    ensures var r := Step(w, h, s, u, x, y, leftFirst, roll);
      (forall i :: 0 <= i < w * h && u[i] ==> r.1[i]) &&
      (forall i :: 0 <= i < w * h && u[i] && s[i].atomType != Empty ==> Settled(r.0[i], s[i]))
  {
    match GetIndex(w, h, x, y)
    case None =>
    case Some(i) =>
      if !(u[i] || s[i].atomType == Empty) {
        var dir := if leftFirst then -1 else 1;
        match s[i].atomType
        case Sand => MoveKeepsSettled(w, h, s, u, x, y, SandOffsets(s[i].velocity.x));
        case Water => MoveKeepsSettled(w, h, s, u, x, y, FlowOffsets(dir));
        case Acid => MoveKeepsSettled(w, h, s, u, x, y, FlowOffsets(dir));
        case Poison => MoveKeepsSettled(w, h, s, u, x, y, FlowOffsets(dir));
        case Smoke => MoveKeepsSettled(w, h, s, u, x, y, RiseOffsets(dir));
        case Steam => MoveKeepsSettled(w, h, s, u, x, y, RiseOffsets(dir));
        case Fire =>
          MoveKeepsSettled(w, h, s, u, x, y, RiseOffsets(dir));
          var m := Move(w, h, s, u, x, y, RiseOffsets(dir));
          IgniteAllOnlyBurns(w, h, m.0, x, y, roll, NeighbourOffsets);
        case Stone =>
      }
  }

  /** A move from an unflagged cell keeps every flag and every flagged atom. */
  lemma MoveKeepsSettled(w: nat, h: nat, s: seq<Atom>, u: seq<bool>, x: int, y: int, offs: seq<(int, int)>)
    requires |s| == w * h && |u| == w * h && InBounds(w, h, x, y) && !u[At(w, h, x, y)]
    ensures var r := Move(w, h, s, u, x, y, offs);
      (forall i :: 0 <= i < w * h && u[i] ==> r.1[i]) &&
      (forall i :: 0 <= i < w * h && u[i] && s[i].atomType != Empty ==> r.0[i] == s[i])
  {
    MoveEffect(w, h, s, u, x, y, offs);
  }

  lemma ScanBounds(w: nat, h: nat)
    ensures forall k :: 0 <= k < w * h ==> w > 0 && InBounds(w, h, w - 1 - k % w, h - 1 - k / w)
  {
    forall k | 0 <= k < w * h
      ensures w > 0 && InBounds(w, h, w - 1 - k % w, h - 1 - k / w)
    {
      IndexOfPosition(w, h, k);
    }
  }

  /** The scan of `update_atoms`: rows from the bottom up, each row right to left. */
  function ScanOrder(w: nat, h: nat): (c: seq<(int, int)>)
    ensures |c| == w * h
    ensures forall k :: 0 <= k < w * h ==> InBounds(w, h, c[k].0, c[k].1)
    ensures forall k :: 0 <= k < w * h ==> c[k] == (w - 1 - k % w, h - 1 - k / w)
  {
    ScanBounds(w, h);
    seq(w * h, k requires 0 <= k < w * h => (w - 1 - k % w, h - 1 - k / w))
  }

  /** Consecutive steps at the given cells, with per-cell coin flips and rolls. */
  function RunSteps(w: nat, h: nat, s: seq<Atom>, u: seq<bool>, cells: seq<(int, int)>,
                    leftFirst: (int, int) -> bool, roll: Rolls): (r: (seq<Atom>, seq<bool>))
    requires |s| == w * h && |u| == w * h
    ensures |r.0| == w * h && |r.1| == w * h
    decreases |cells|
  {
    if cells == [] then (s, u)
    else
      var p := RunSteps(w, h, s, u, cells[..|cells| - 1], leftFirst, roll);
      var c := cells[|cells| - 1];
      Step(w, h, p.0, p.1, c.0, c.1, leftFirst(c.0, c.1), roll)
  }

  /** Over a whole pass, flags stay set and the atom on a flagged cell never moves again. */
  lemma {:induction false} RunStepsKeepsSettled(w: nat, h: nat, s: seq<Atom>, u: seq<bool>, cells: seq<(int, int)>,
                                                leftFirst: (int, int) -> bool, roll: Rolls, i: nat)
    requires |s| == w * h && |u| == w * h && i < w * h && u[i] && s[i].atomType != Empty
    ensures var r := RunSteps(w, h, s, u, cells, leftFirst, roll);
      r.1[i] && Settled(r.0[i], s[i])
    decreases |cells|
  {
    if cells != [] {
      var p := RunSteps(w, h, s, u, cells[..|cells| - 1], leftFirst, roll);
      RunStepsKeepsSettled(w, h, s, u, cells[..|cells| - 1], leftFirst, roll, i);
      var c := cells[|cells| - 1];
      assert p.0[i].atomType != Empty;
      StepKeepsSettled(w, h, p.0, p.1, c.0, c.1, leftFirst(c.0, c.1), roll);
      var r := RunSteps(w, h, s, u, cells, leftFirst, roll);
      assert Settled(r.0[i], p.0[i]);
      assert Ignited(Ignited(s[i])) == Ignited(s[i]);
    }
  }

  /** Running two lists of cells in turn is running their concatenation. */
  lemma {:induction false} RunStepsAppend(w: nat, h: nat, s: seq<Atom>, u: seq<bool>, a: seq<(int, int)>, b: seq<(int, int)>,
                                          leftFirst: (int, int) -> bool, roll: Rolls)
    requires |s| == w * h && |u| == w * h
    ensures var p := RunSteps(w, h, s, u, a, leftFirst, roll);
      RunSteps(w, h, s, u, a + b, leftFirst, roll) == RunSteps(w, h, p.0, p.1, b, leftFirst, roll)
    decreases |b|
  {
    if b == [] {
      assert a + b == a;
    } else {
      assert (a + b)[..|a + b| - 1] == a + b[..|b| - 1];
      RunStepsAppend(w, h, s, u, a, b[..|b| - 1], leftFirst, roll);
    }
  }

  /**
   * A cell flagged after the first k cells of a run stays flagged for the rest
   * of it, and its atom stays there (at most set alight).
   */
  lemma NoDoubleMove(w: nat, h: nat, s: seq<Atom>, u: seq<bool>, cells: seq<(int, int)>,
                     leftFirst: (int, int) -> bool, roll: Rolls, k: nat, i: nat)
    requires |s| == w * h && |u| == w * h && k <= |cells| && i < w * h
    requires var p := RunSteps(w, h, s, u, cells[..k], leftFirst, roll);
      p.1[i] && p.0[i].atomType != Empty
    ensures var p := RunSteps(w, h, s, u, cells[..k], leftFirst, roll);
      var r := RunSteps(w, h, s, u, cells, leftFirst, roll);
      r.1[i] && Settled(r.0[i], p.0[i])
  {
    var p := RunSteps(w, h, s, u, cells[..k], leftFirst, roll);
    SplitJoin(cells, k);
    RunStepsAppend(w, h, s, u, cells[..k], cells[k..], leftFirst, roll);
    RunStepsKeepsSettled(w, h, p.0, p.1, cells[k..], leftFirst, roll, i);
  }

  /**
   * No atom moves twice in one pass of `update_atoms`: the pass starts from
   * cleared flags, and a cell flagged after the first k cells of the scan
   * keeps its flag and its atom (at most set alight) to the end of the pass.
   */
  lemma PassNoDoubleMove(w: nat, h: nat, s: seq<Atom>, u: seq<bool>, leftFirst: (int, int) -> bool, roll: Rolls, k: nat, i: nat)
    requires |s| == w * h && |u| == w * h && k <= w * h && i < w * h
    requires forall j :: 0 <= j < w * h ==> !u[j]
    requires var p := RunSteps(w, h, s, u, ScanOrder(w, h)[..k], leftFirst, roll);
      p.1[i] && p.0[i].atomType != Empty
    ensures var p := RunSteps(w, h, s, u, ScanOrder(w, h)[..k], leftFirst, roll);
      var r := RunSteps(w, h, s, u, ScanOrder(w, h), leftFirst, roll);
      r.1[i] && Settled(r.0[i], p.0[i])
  {
    hide ScanOrder, RunSteps, Step;
    NoDoubleMove(w, h, s, u, ScanOrder(w, h), leftFirst, roll, k, i);
  }

  // ---------------------------------------------------------------------
  // Reactions
  // ---------------------------------------------------------------------

  datatype Product = Product(kind: AtomType, lifetime: Option<real>)

  /** The reaction table: Fire+Water gives Steam, Acid+Water gives Poison, Fire+Sand gives Smoke. */
  function CheckReaction(a: AtomType, b: AtomType): (r: Option<seq<Product>>)
    ensures r.Some? <==> {a, b} == {Fire, Water} || {a, b} == {Acid, Water} || {a, b} == {Fire, Sand}
    ensures {a, b} == {Fire, Water} ==> r == Some([Product(Steam, Some(3.0))])
    ensures {a, b} == {Acid, Water} ==> r == Some([Product(Poison, None)])
    ensures {a, b} == {Fire, Sand} ==> r == Some([Product(Smoke, Some(2.0))])
  {
    match (a, b)
    case (Fire, Water) => Some([Product(Steam, Some(3.0))])
    case (Water, Fire) => Some([Product(Steam, Some(3.0))])
    case (Acid, Water) => Some([Product(Poison, None)])
    case (Water, Acid) => Some([Product(Poison, None)])
    case (Fire, Sand) => Some([Product(Smoke, Some(2.0))])
    case (Sand, Fire) => Some([Product(Smoke, Some(2.0))])
    case _ => None
  }

  /** The table is symmetric in its two arguments. */
  lemma CheckReactionSymmetric(a: AtomType, b: AtomType)
    ensures CheckReaction(a, b) == CheckReaction(b, a)
  {
  }

  datatype Reaction = Reaction(x1: int, y1: int, x2: int, y2: int, products: seq<Product>)

  /** The reactions of the atom at (x, y) with its neighbours at the offsets `offs`, in that order. */
  function CellReactions(w: nat, h: nat, s: seq<Atom>, x: int, y: int, offs: seq<(int, int)>): (r: seq<Reaction>)
    requires |s| == w * h && InBounds(w, h, x, y)
    ensures forall k :: 0 <= k < |r| ==> r[k].x1 == x && r[k].y1 == y && InBounds(w, h, r[k].x2, r[k].y2)
    ensures forall k :: 0 <= k < |r| ==>
      CheckReaction(s[At(w, h, x, y)].atomType, s[At(w, h, r[k].x2, r[k].y2)].atomType) == Some(r[k].products)
    decreases |offs|
  {
    if offs == [] then []
    else
      var p := CellReactions(w, h, s, x, y, offs[..|offs| - 1]);
      var o := offs[|offs| - 1];
      match GetAtom(w, h, s, x + o.0, y + o.1)
      case None => p
      case Some(n) =>
        match CheckReaction(s[At(w, h, x, y)].atomType, n.atomType)
        case None => p
        case Some(ps) => p + [Reaction(x, y, x + o.0, y + o.1, ps)]
  }

  /** The reactions gathered from the first `n` cells in row-major order, skipping Empty cells. */
  function CollectReactions(w: nat, h: nat, s: seq<Atom>, n: nat): (r: seq<Reaction>)
    requires |s| == w * h && n <= w * h
    ensures forall k :: 0 <= k < |r| ==> InBounds(w, h, r[k].x1, r[k].y1) && InBounds(w, h, r[k].x2, r[k].y2)
    ensures forall k :: 0 <= k < |r| ==>
      CheckReaction(s[At(w, h, r[k].x1, r[k].y1)].atomType, s[At(w, h, r[k].x2, r[k].y2)].atomType) == Some(r[k].products)
  {
    if n == 0 then []
    else
      var p := CollectReactions(w, h, s, n - 1);
      var c := n - 1;
      IndexOfPosition(w, h, c);
      if s[c].atomType == Empty then p
      else p + CellReactions(w, h, s, c % w, c / w, NeighbourOffsets)
  }

  /** The atom a product becomes when placed. */
  function ProductAtom(p: Product): Atom { Atom(p.kind, Zero, Mass(p.kind), p.lifetime, 20.0) }

  /**
   * One column of the placement search: the first cell of column x1 + dx,
   * rows y1 - 1 to y1 + 1, that is empty receives the atom; the `break`
   * ends only this column.
   */
  function PlaceInColumn(w: nat, h: nat, s: seq<Atom>, x1: int, y1: int, dx: int, a: Atom): (r: seq<Atom>)
    requires |s| == w * h
    ensures |r| == |s|
  {
    var col := [(dx, -1), (dx, 0), (dx, 1)];
    var k := FirstEmpty(w, h, s, x1, y1, col);
    if k < 3 then SetCell(w, h, s, x1 + dx, y1 + col[k].1, a) else s
  }

  /** A column search writes at most one cell, which lies in that column and was empty. */
  lemma PlaceInColumnEffect(w: nat, h: nat, s: seq<Atom>, x1: int, y1: int, dx: int, a: Atom)
    requires |s| == w * h
    ensures var r := PlaceInColumn(w, h, s, x1, y1, dx, a);
      forall i, j :: 0 <= i < j < |s| && r[i] != s[i] ==> r[j] == s[j]
    ensures var r := PlaceInColumn(w, h, s, x1, y1, dx, a);
      forall i :: 0 <= i < |s| && r[i] != s[i] ==>
        r[i] == a && s[i].atomType == Empty && i % w == x1 + dx && y1 - 1 <= i / w <= y1 + 1
  {
    var col := [(dx, -1), (dx, 0), (dx, 1)];
    var k := FirstEmpty(w, h, s, x1, y1, col);
    if k < 3 {
      match GetIndex(w, h, x1 + dx, y1 + col[k].1)
      case None =>
      case Some(t) =>
        assert IsEmpty(w, h, s, x1 + dx, y1 + col[k].1);
    }
  }

  /** The three columns x1 - 1, x1, x1 + 1 in turn: one product may be written up to three times. */
  function PlaceProduct(w: nat, h: nat, s: seq<Atom>, x1: int, y1: int, a: Atom): (r: seq<Atom>)
    requires |s| == w * h
    ensures |r| == |s|
  {
    var s1 := PlaceInColumn(w, h, s, x1, y1, -1, a);
    var s2 := PlaceInColumn(w, h, s1, x1, y1, 0, a);
    PlaceInColumn(w, h, s2, x1, y1, 1, a)
  }

  /** Every cell a product writes was empty when written and receives exactly the product atom. */
  lemma PlaceProductOnlyIntoEmpty(w: nat, h: nat, s: seq<Atom>, x1: int, y1: int, a: Atom)
    requires |s| == w * h
    ensures var r := PlaceProduct(w, h, s, x1, y1, a);
      forall i :: 0 <= i < |s| && r[i] != s[i] ==>
        r[i] == a && s[i].atomType == Empty && x1 - 1 <= i % w <= x1 + 1 && y1 - 1 <= i / w <= y1 + 1
  {
    var s1 := PlaceInColumn(w, h, s, x1, y1, -1, a);
    var s2 := PlaceInColumn(w, h, s1, x1, y1, 0, a);
    PlaceInColumnEffect(w, h, s, x1, y1, -1, a);
    PlaceInColumnEffect(w, h, s1, x1, y1, 0, a);
    PlaceInColumnEffect(w, h, s2, x1, y1, 1, a);
  }

  /** In an all-empty 3x3 world, the single Steam product around (1, 1) is written into three cells. */
  lemma OneProductThreeCells()
    ensures var s := seq(9, _ => DefaultAtom);
      var a := ProductAtom(Product(Steam, Some(3.0)));
      var r := PlaceProduct(3, 3, s, 1, 1, a);
      r[0] == a && r[1] == a && r[2] == a
  {
    var s := seq(9, _ => DefaultAtom);
    var a := ProductAtom(Product(Steam, Some(3.0)));
    assert IsEmpty(3, 3, s, 0, 0);
    var s1 := PlaceInColumn(3, 3, s, 1, 1, -1, a);
    assert s1 == s[0 := a];
    assert IsEmpty(3, 3, s1, 1, 0);
    var s2 := PlaceInColumn(3, 3, s1, 1, 1, 0, a);
    assert s2 == s1[1 := a];
    assert IsEmpty(3, 3, s2, 2, 0);
  }

  /** All products of a reaction, in order. */
  function PlaceProducts(w: nat, h: nat, s: seq<Atom>, x1: int, y1: int, ps: seq<Product>): (r: seq<Atom>)
    requires |s| == w * h
    ensures |r| == |s|
    decreases |ps|
  {
    if ps == [] then s
    else PlaceProduct(w, h, PlaceProducts(w, h, s, x1, y1, ps[..|ps| - 1]), x1, y1, ProductAtom(ps[|ps| - 1]))
  }

  /** One reaction: its products are placed, then both reactant cells are reset. */
  function ApplyReaction(w: nat, h: nat, s: seq<Atom>, rc: Reaction): (r: seq<Atom>)
    requires |s| == w * h
    ensures |r| == |s|
    ensures GetIndex(w, h, rc.x1, rc.y1).Some? ==> r[GetIndex(w, h, rc.x1, rc.y1).value] == DefaultAtom
    ensures GetIndex(w, h, rc.x2, rc.y2).Some? ==> r[GetIndex(w, h, rc.x2, rc.y2).value] == DefaultAtom
  {
    var placed := PlaceProducts(w, h, s, rc.x1, rc.y1, rc.products);
    SetCell(w, h, SetCell(w, h, placed, rc.x1, rc.y1, DefaultAtom), rc.x2, rc.y2, DefaultAtom)
  }

  function ApplyReactions(w: nat, h: nat, s: seq<Atom>, rs: seq<Reaction>): (r: seq<Atom>)
    requires |s| == w * h
    ensures |r| == |s|
    decreases |rs|
  {
    if rs == [] then s else ApplyReaction(w, h, ApplyReactions(w, h, s, rs[..|rs| - 1]), rs[|rs| - 1])
  }

  // ---------------------------------------------------------------------
  // Heat diffusion
  // ---------------------------------------------------------------------

  /** The four neighbours heat flows to. */
  const HeatOffsets: seq<(int, int)> := [(1, 0), (-1, 0), (0, 1), (0, -1)]

  /** The flows out of cell (x, y) to its first |offs| neighbours, accumulated into `c`. */
  function HeatFrom(w: nat, h: nat, s: seq<Atom>, c: seq<real>, x: int, y: int, offs: seq<(int, int)>, dt: real): (r: seq<real>)
    requires |s| == w * h && |c| == w * h && InBounds(w, h, x, y)
    ensures |r| == |c|
    decreases |offs|
  {
    if offs == [] then c
    else HeatPair(w, h, s, HeatFrom(w, h, s, c, x, y, offs[..|offs| - 1], dt), x, y, offs[|offs| - 1], dt)
  }

  /** The exchange of cell (x, y) with its neighbour at offset o, when that neighbour exists and is not Empty. */
  function HeatPair(w: nat, h: nat, s: seq<Atom>, p: seq<real>, x: int, y: int, o: (int, int), dt: real): (r: seq<real>)
    requires |s| == w * h && |p| == w * h && InBounds(w, h, x, y)
    ensures |r| == |p|
  {
    var i := At(w, h, x, y);
    match GetIndex(w, h, x + o.0, y + o.1)
    case None => p
    case Some(j) =>
      if s[j].atomType == Empty then p
      else Exchange(p, i, j, Flow(s[i].temperature, s[j].temperature, dt))
  }

  /** Heat flowing from a cell at temperature ti to one at tj, with conductivity 2. */
  function Flow(ti: real, tj: real, dt: real): real { (ti - tj) * 2.0 * dt }

  /** `flow` taken from position i and added to position j, one after the other. */
  function Exchange(p: seq<real>, i: nat, j: nat, flow: real): (r: seq<real>)
    requires i < |p| && j < |p|
    ensures |r| == |p| && Sum(r) == Sum(p)
    ensures forall k :: 0 <= k < |p| && k != i && k != j ==> r[k] == p[k]
  {
    var q := p[i := p[i] - flow];
    SumUpdate(p, i, p[i] - flow);
    SumUpdate(q, j, q[j] + flow);
    q[j := q[j] + flow]
  }

  /** The accumulated changes after visiting the first n cells in row-major order. */
  function HeatChanges(w: nat, h: nat, s: seq<Atom>, n: nat, dt: real): (r: seq<real>)
    requires |s| == w * h && n <= w * h
    ensures |r| == w * h
  {
    if n == 0 then seq(w * h, _ => 0.0)
    else
      var p := HeatChanges(w, h, s, n - 1, dt);
      var c := n - 1;
      IndexOfPosition(w, h, c);
      if s[c].atomType == Empty then p else HeatFrom(w, h, s, p, c % w, c / w, HeatOffsets, dt)
  }

  /** Each exchange moves heat between two cells, so the changes keep their total. */
  lemma {:induction false} HeatFromConserves(w: nat, h: nat, s: seq<Atom>, c: seq<real>, x: int, y: int, offs: seq<(int, int)>, dt: real)
    requires |s| == w * h && |c| == w * h && InBounds(w, h, x, y)
    ensures Sum(HeatFrom(w, h, s, c, x, y, offs, dt)) == Sum(c)
    decreases |offs|
  {
    if offs != [] {
      HeatFromConserves(w, h, s, c, x, y, offs[..|offs| - 1], dt);
    }
  }

  /** Heat exchanges only touch non-Empty cells. */
  lemma {:induction false} HeatFromSkipsEmpty(w: nat, h: nat, s: seq<Atom>, c: seq<real>, x: int, y: int, offs: seq<(int, int)>, dt: real, e: nat)
    requires |s| == w * h && |c| == w * h && InBounds(w, h, x, y)
    requires e < w * h && s[e].atomType == Empty && s[At(w, h, x, y)].atomType != Empty
    ensures HeatFrom(w, h, s, c, x, y, offs, dt)[e] == c[e]
    decreases |offs|
  {
    if offs != [] {
      HeatFromSkipsEmpty(w, h, s, c, x, y, offs[..|offs| - 1], dt, e);
    }
  }

  /** The temperature changes of a heat pass sum to zero and are zero on Empty cells. */
  lemma {:induction false} HeatChangesBalanced(w: nat, h: nat, s: seq<Atom>, n: nat, dt: real)
    requires |s| == w * h && n <= w * h
    ensures Sum(HeatChanges(w, h, s, n, dt)) == 0.0
    ensures forall e :: 0 <= e < w * h && s[e].atomType == Empty ==> HeatChanges(w, h, s, n, dt)[e] == 0.0
  {
    if n == 0 {
      SumZeros(w * h);
    } else {
      var p := HeatChanges(w, h, s, n - 1, dt);
      HeatChangesBalanced(w, h, s, n - 1, dt);
      var c := n - 1;
      IndexOfPosition(w, h, c);
      if s[c].atomType != Empty {
        HeatFromConserves(w, h, s, p, c % w, c / w, HeatOffsets, dt);
        forall e | 0 <= e < w * h && s[e].atomType == Empty
          ensures HeatChanges(w, h, s, n, dt)[e] == 0.0
        {
          HeatFromSkipsEmpty(w, h, s, p, c % w, c / w, HeatOffsets, dt, e);
        }
      }
    }
  }

  /** Every atom's temperature after a heat pass. */
  function WithHeat(s: seq<Atom>, d: seq<real>): (r: seq<Atom>)
    requires |d| == |s|
    ensures |r| == |s|
    ensures forall i :: 0 <= i < |s| ==> r[i] == s[i].(temperature := s[i].temperature + d[i])
  {
    seq(|s|, i requires 0 <= i < |s| => s[i].(temperature := s[i].temperature + d[i]))
  }

  // ---------------------------------------------------------------------
  // Loop bookkeeping: each fold above grows by one element per iteration
  // ---------------------------------------------------------------------

  lemma RunStepsStep(w: nat, h: nat, s: seq<Atom>, u: seq<bool>, cells: seq<(int, int)>,
                     leftFirst: (int, int) -> bool, roll: Rolls, k: nat)
    requires |s| == w * h && |u| == w * h && k < |cells|
    ensures var p := RunSteps(w, h, s, u, cells[..k], leftFirst, roll);
      RunSteps(w, h, s, u, cells[..k + 1], leftFirst, roll) ==
        Step(w, h, p.0, p.1, cells[k].0, cells[k].1, leftFirst(cells[k].0, cells[k].1), roll)
  {
    assert cells[..k + 1][..k] == cells[..k];
  }

  /** The rows below row y and row y itself fit in the grid. */
  lemma RowPrefixBound(w: nat, h: nat, y: int)
    requires 0 <= y < h
    ensures (h - 1 - y) * w + w == (h - y) * w <= w * h
  {
    MulMono(h - y, h, w);
    MulComm(h, w);
  }

  /** The k-th cell of the bottom-up, right-to-left scan. */
  lemma ScanPosition(w: nat, h: nat, x: int, y: int, k: int)
    requires InBounds(w, h, x, y) && k == (h - 1 - y) * w + (w - 1 - x)
    ensures 0 <= k < w * h && ScanOrder(w, h)[k] == (x, y)
    ensures k + 1 + x == (h - y) * w
  {
    RowMajor(w, w - 1 - x, h - 1 - y);
    assert (h - 1 - y) * w + w == (h - y) * w;
    MulMono(h - 1 - y, h - 1, w);
    assert (h - 1) * w + w == h * w;
  }

  lemma CellReactionsStep(w: nat, h: nat, s: seq<Atom>, x: int, y: int, offs: seq<(int, int)>, n: nat)
    requires |s| == w * h && InBounds(w, h, x, y) && n < |offs|
    ensures CellReactions(w, h, s, x, y, offs[..n + 1]) ==
      CellReactions(w, h, s, x, y, offs[..n]) +
      match GetAtom(w, h, s, x + offs[n].0, y + offs[n].1)
      case None => []
      case Some(a) =>
        match CheckReaction(s[At(w, h, x, y)].atomType, a.atomType)
        case None => []
        case Some(ps) => [Reaction(x, y, x + offs[n].0, y + offs[n].1, ps)]
  {
    assert offs[..n + 1][..n] == offs[..n];
  }

  lemma HeatFromStep(w: nat, h: nat, s: seq<Atom>, c: seq<real>, x: int, y: int, offs: seq<(int, int)>, dt: real, n: nat)
    requires |s| == w * h && |c| == w * h && InBounds(w, h, x, y) && n < |offs|
    ensures HeatFrom(w, h, s, c, x, y, offs[..n + 1], dt) ==
      HeatPair(w, h, s, HeatFrom(w, h, s, c, x, y, offs[..n], dt), x, y, offs[n], dt)
  {
    assert offs[..n + 1][..n] == offs[..n];
  }

  lemma HeatChangesStep(w: nat, h: nat, s: seq<Atom>, x: int, y: int, dt: real)
    requires |s| == w * h && InBounds(w, h, x, y)
    ensures var n := At(w, h, x, y);
      HeatChanges(w, h, s, n + 1, dt) ==
        if s[n].atomType == Empty then HeatChanges(w, h, s, n, dt)
        else HeatFrom(w, h, s, HeatChanges(w, h, s, n, dt), x, y, HeatOffsets, dt)
  {
    IndexDivMod(w, h, x, y);
  }

  lemma CollectReactionsStep(w: nat, h: nat, s: seq<Atom>, x: int, y: int)
    requires |s| == w * h && InBounds(w, h, x, y)
    ensures var n := At(w, h, x, y);
      CollectReactions(w, h, s, n + 1) ==
        if s[n].atomType == Empty then CollectReactions(w, h, s, n)
        else CollectReactions(w, h, s, n) + CellReactions(w, h, s, x, y, NeighbourOffsets)
  {
    IndexDivMod(w, h, x, y);
  }

  lemma ApplyReactionsStep(w: nat, h: nat, s: seq<Atom>, rs: seq<Reaction>, n: nat)
    requires |s| == w * h && n < |rs|
    ensures ApplyReactions(w, h, s, rs[..n + 1]) == ApplyReaction(w, h, ApplyReactions(w, h, s, rs[..n]), rs[n])
  {
    assert rs[..n + 1][..n] == rs[..n];
  }

  lemma PlaceProductsStep(w: nat, h: nat, s: seq<Atom>, x1: int, y1: int, ps: seq<Product>, n: nat)
    requires |s| == w * h && n < |ps|
    ensures PlaceProducts(w, h, s, x1, y1, ps[..n + 1]) ==
      PlaceProduct(w, h, PlaceProducts(w, h, s, x1, y1, ps[..n]), x1, y1, ProductAtom(ps[n]))
  {
    assert ps[..n + 1][..n] == ps[..n];
  }

  // ---------------------------------------------------------------------
  // The world, updated in place
  // ---------------------------------------------------------------------

  class AtomWorld {
    const width: nat
    const height: nat
    const atoms: array<Atom>
    const updated: array<bool>

    ghost predicate Valid() {
      atoms.Length == width * height && updated.Length == width * height
    }

    constructor (w: nat, h: nat)
      ensures Valid() && width == w && height == h
      ensures atoms[..] == seq(w * h, _ => DefaultAtom) && updated[..] == seq(w * h, _ => false)
    {
      width, height := w, h;
      atoms := new Atom[w * h](_ => DefaultAtom);
      updated := new bool[w * h](_ => false);
    }

    method SetAtom(x: int, y: int, atom: Atom)
      requires Valid()
      modifies atoms
      ensures atoms[..] == SetCell(width, height, old(atoms[..]), x, y, atom)
    {
      match GetIndex(width, height, x, y)
      case None =>
      case Some(i) => atoms[i] := atom;
    }

    method SwapAtoms(x1: int, y1: int, x2: int, y2: int)
      requires Valid()
      modifies atoms, updated
      ensures atoms[..] == SwapCoords(width, height, old(atoms[..]), x1, y1, x2, y2)
      ensures updated[..] == FlagCoords(width, height, old(updated[..]), x1, y1, x2, y2)
    {
      var i1 := GetIndex(width, height, x1, y1);
      var i2 := GetIndex(width, height, x2, y2);
      if i1.Some? && i2.Some? {
        atoms[i1.value], atoms[i2.value] := atoms[i2.value], atoms[i1.value];
        updated[i1.value] := true;
        updated[i2.value] := true;
      }
    }

    method ClearUpdated()
      requires Valid()
      modifies updated
      ensures updated[..] == seq(width * height, _ => false)
    {
      var i := 0;
      while i < updated.Length
        invariant 0 <= i <= updated.Length
        invariant forall k :: 0 <= k < i ==> !updated[k]
      {
        updated[i] := false;
        i := i + 1;
      }
    }

    /**
     * The source's if-else chains of `is_empty` tests, each followed by
     * `swap_atoms`: the chain stops at the first empty candidate.
     */
    method MoveBy(x: int, y: int, offs: seq<(int, int)>)
      requires Valid()
      modifies atoms, updated
      ensures (atoms[..], updated[..]) == Move(width, height, old(atoms[..]), old(updated[..]), x, y, offs)
    {
      var k := FirstEmpty(width, height, atoms[..], x, y, offs);
      if k < |offs| {
        SwapAtoms(x, y, x + offs[k].0, y + offs[k].1);
      }
    }

    method UpdateSand(x: int, y: int)
      requires Valid() && InBounds(width, height, x, y)
      modifies atoms, updated
      ensures (atoms[..], updated[..]) ==
        Move(width, height, old(atoms[..]), old(updated[..]), x, y, SandOffsets(old(atoms[At(width, height, x, y)]).velocity.x))
    {
      MoveBy(x, y, SandOffsets(atoms[At(width, height, x, y)].velocity.x));
    }

    /** Water, acid and poison; `leftFirst` is the coin flip choosing dir = -1. */
    method UpdateWater(x: int, y: int, leftFirst: bool)
      requires Valid()
      modifies atoms, updated
      ensures (atoms[..], updated[..]) ==
        Move(width, height, old(atoms[..]), old(updated[..]), x, y, FlowOffsets(if leftFirst then -1 else 1))
    {
      MoveBy(x, y, FlowOffsets(if leftFirst then -1 else 1));
    }

    /** Smoke and steam rise: up, then up-`dir`, then up-`-dir`. */
    method UpdateGas(x: int, y: int, leftFirst: bool)
      requires Valid()
      modifies atoms, updated
      ensures (atoms[..], updated[..]) ==
        Move(width, height, old(atoms[..]), old(updated[..]), x, y, RiseOffsets(if leftFirst then -1 else 1))
    {
      MoveBy(x, y, RiseOffsets(if leftFirst then -1 else 1));
    }

    /** One neighbour of a burning cell catches fire if it can burn and its roll is below 0.01. */
    method IgniteAt(x: int, y: int, roll: Rolls, dx: int, dy: int)
      requires Valid()
      modifies atoms
      ensures atoms[..] == IgniteOne(width, height, old(atoms[..]), x, y, roll, (dx, dy))
    {
      match GetIndex(width, height, x + dx, y + dy)
      case None =>
      case Some(j) =>
        if CanBurn(atoms[j].atomType) && roll(x, y, dx, dy) < 0.01 {
          atoms[j] := Ignited(atoms[j]);
        }
    }

    /** Fire rises like a gas, then tries to ignite its eight neighbours. */
    method UpdateFire(x: int, y: int, leftFirst: bool, roll: Rolls)
      requires Valid()
      modifies atoms, updated
      ensures var m := Move(width, height, old(atoms[..]), old(updated[..]), x, y, RiseOffsets(if leftFirst then -1 else 1));
        atoms[..] == IgniteAll(width, height, m.0, x, y, roll, NeighbourOffsets) && updated[..] == m.1
    {
      UpdateGas(x, y, leftFirst);
      IgniteNeighbours(x, y, roll);
    }

    /** The dx and dy loops of `update_fire`: an ignition attempt at each of the eight neighbours. */
    method IgniteNeighbours(x: int, y: int, roll: Rolls)
      requires Valid()
      modifies atoms
      ensures atoms[..] == IgniteAll(width, height, old(atoms[..]), x, y, roll, NeighbourOffsets)
    {
      hide IgniteOne;
      ghost var moved := atoms[..];
      var dx := -1;
      while dx <= 1
        invariant -1 <= dx <= 2
        invariant atoms[..] == IgniteAll(width, height, moved, x, y, roll, NeighbourOffsets[..Slot(dx, -1)])
      {
        IgniteColumn(moved, x, y, dx, roll);
        dx := dx + 1;
      }
      assert Slot(dx, -1) == 8;
      assert NeighbourOffsets[..8] == NeighbourOffsets;
    }

    /** The dy loop of column dx of the neighbours of the fire at (x, y). */
    method IgniteColumn(ghost moved: seq<Atom>, x: int, y: int, dx: int, roll: Rolls)
      requires Valid() && |moved| == width * height && -1 <= dx <= 1
      requires atoms[..] == IgniteAll(width, height, moved, x, y, roll, NeighbourOffsets[..Slot(dx, -1)])
      modifies atoms
      ensures atoms[..] == IgniteAll(width, height, moved, x, y, roll, NeighbourOffsets[..Slot(dx + 1, -1)])
    {
      hide IgniteAll, IgniteOne;
      var dy := -1;
      while dy <= 1
        invariant -1 <= dy <= 2
        invariant atoms[..] == IgniteAll(width, height, moved, x, y, roll, NeighbourOffsets[..Slot(dx, dy)])
      {
        if dx == 0 && dy == 0 {
          assert Slot(dx, dy + 1) == Slot(dx, dy);
        } else {
          IgniteSlot(moved, x, y, dx, dy, roll);
        }
        dy := dy + 1;
      }
      assert Slot(dx, dy) == Slot(dx + 1, -1);
    }

    /** The ignition attempt at neighbour (dx, dy) continues the attempts before it. */
    method IgniteSlot(ghost moved: seq<Atom>, x: int, y: int, dx: int, dy: int, roll: Rolls)
      requires Valid() && |moved| == width * height
      requires -1 <= dx <= 1 && -1 <= dy <= 1 && !(dx == 0 && dy == 0)
      requires atoms[..] == IgniteAll(width, height, moved, x, y, roll, NeighbourOffsets[..Slot(dx, dy)])
      modifies atoms
      ensures atoms[..] == IgniteAll(width, height, moved, x, y, roll, NeighbourOffsets[..Slot(dx, dy + 1)])
    {
      hide IgniteAll, IgniteOne;
      NeighbourSlot(dx, dy);
      IgniteAllStep(width, height, moved, x, y, roll, NeighbourOffsets, Slot(dx, dy));
      IgniteAt(x, y, roll, dx, dy);
    }

    /** `update_atom`: skips flagged and Empty cells, then dispatches on the atom's type. */
    method UpdateAtom(x: int, y: int, leftFirst: bool, roll: Rolls)
      requires Valid()
      modifies atoms, updated
      ensures (atoms[..], updated[..]) == Step(width, height, old(atoms[..]), old(updated[..]), x, y, leftFirst, roll)
    {
      match GetIndex(width, height, x, y)
      case None =>
      case Some(idx) =>
        if !updated[idx] {
          var atom := atoms[idx];
          match atom.atomType
          case Sand => UpdateSand(x, y);
          case Water => UpdateWater(x, y, leftFirst);
          case Acid => UpdateWater(x, y, leftFirst);
          case Poison => UpdateWater(x, y, leftFirst);
          case Fire => UpdateFire(x, y, leftFirst, roll);
          case Smoke => UpdateGas(x, y, leftFirst);
          case Steam => UpdateGas(x, y, leftFirst);
          case Stone =>
          case Empty =>
        }
    }

    /**
     * The cell pass of `update_atoms`: clear the flags, then visit rows from
     * the bottom up and each row from right to left.
     */
    method UpdateAtoms(leftFirst: (int, int) -> bool, roll: Rolls)
      requires Valid()
      modifies atoms, updated
      ensures (atoms[..], updated[..]) ==
        RunSteps(width, height, old(atoms[..]), seq(width * height, _ => false), ScanOrder(width, height), leftFirst, roll)
    {
      hide ScanOrder, Step;
      ClearUpdated();
      ghost var s0, u0 := atoms[..], updated[..];
      ghost var k := 0;
      var y := height;
      while y > 0
        invariant 0 <= y <= height
        invariant k == (height - y) * width
        invariant (atoms[..], updated[..]) == RunSteps(width, height, s0, u0, ScanOrder(width, height)[..k], leftFirst, roll)
      {
        y := y - 1;
        RowPrefixBound(width, height, y);
        UpdateAtomsRow(s0, u0, y, k, leftFirst, roll);
        k := k + width;
      }
      assert k == |ScanOrder(width, height)| by { MulComm(height, width); }
      assert ScanOrder(width, height)[..k] == ScanOrder(width, height);
    }

    /** Row y of the cell pass of `update_atoms`, right to left, following the k0 cells of the rows below it. */
    method UpdateAtomsRow(ghost s0: seq<Atom>, ghost u0: seq<bool>, y: int, ghost k0: nat, leftFirst: (int, int) -> bool, roll: Rolls)
      requires Valid() && 0 <= y < height && |s0| == width * height && |u0| == width * height
      requires k0 == (height - 1 - y) * width && k0 + width <= width * height
      requires (atoms[..], updated[..]) == RunSteps(width, height, s0, u0, ScanOrder(width, height)[..k0], leftFirst, roll)
      modifies atoms, updated
      ensures k0 + width == (height - y) * width
      ensures (atoms[..], updated[..]) == RunSteps(width, height, s0, u0, ScanOrder(width, height)[..k0 + width], leftFirst, roll)
    {
      hide RunSteps, ScanOrder, Step;
      assert k0 + width == (height - y) * width;
      ghost var k := k0;
      var x := width;
      while x > 0
        invariant 0 <= x <= width
        invariant k + x == k0 + width
        invariant (atoms[..], updated[..]) == RunSteps(width, height, s0, u0, ScanOrder(width, height)[..k], leftFirst, roll)
      {
        x := x - 1;
        UpdateAtomsAt(s0, u0, x, y, k, leftFirst, roll);
        k := k + 1;
      }
    }

    /** Cell (x, y), the k-th of the scan, continues the cell pass of `update_atoms`. */
    method UpdateAtomsAt(ghost s0: seq<Atom>, ghost u0: seq<bool>, x: int, y: int, ghost k: nat, leftFirst: (int, int) -> bool, roll: Rolls)
      requires Valid() && InBounds(width, height, x, y) && |s0| == width * height && |u0| == width * height
      requires k == (height - 1 - y) * width + (width - 1 - x)
      requires (atoms[..], updated[..]) == RunSteps(width, height, s0, u0, ScanOrder(width, height)[..k], leftFirst, roll)
      modifies atoms, updated
      ensures k < width * height
      ensures (atoms[..], updated[..]) == RunSteps(width, height, s0, u0, ScanOrder(width, height)[..k + 1], leftFirst, roll)
    {
      hide RunSteps, ScanOrder, Step;
      ScanPosition(width, height, x, y, k);
      RunStepsStep(width, height, s0, u0, ScanOrder(width, height), leftFirst, roll, k);
      UpdateAtom(x, y, leftFirst(x, y), roll);
    }

    /**
     * `apply_heat_transfer`: the changes are accumulated in a separate
     * buffer from the unchanged atoms, then added to every temperature.
     */
    method ApplyHeatTransfer(dt: real)
      requires Valid()
      modifies atoms
      ensures atoms[..] == WithHeat(old(atoms[..]), HeatChanges(width, height, old(atoms[..]), width * height, dt))
    {
      var changes := new real[atoms.Length](_ => 0.0);
      ghost var n := 0;
      var y := 0;
      while y < height
        invariant 0 <= y <= height && n == y * width && n <= width * height
        invariant changes[..] == HeatChanges(width, height, atoms[..], n, dt)
        invariant atoms[..] == old(atoms[..])
      {
        AccumulateRow(changes, y, n, dt);
        n := n + width;
        y := y + 1;
      }
      AllRows(width, height, y, n);
      AddTemperatures(changes);
    }

    /** One row of the accumulation loop, left to right; row y starts at position n. */
    method AccumulateRow(changes: array<real>, y: int, ghost n: int, dt: real)
      requires Valid() && changes.Length == width * height && 0 <= y < height && n == y * width
      requires changes[..] == HeatChanges(width, height, atoms[..], n, dt)
      modifies changes
      ensures n + width == (y + 1) * width <= width * height
      ensures changes[..] == HeatChanges(width, height, atoms[..], n + width, dt)
    {
      MulMono(y + 1, height, width);
      ghost var m := n;
      var x := 0;
      while x < width
        invariant 0 <= x <= width && m == n + x && n + width <= width * height
        invariant changes[..] == HeatChanges(width, height, atoms[..], m, dt)
      {
        RowStart(width, height, x, y);
        HeatChangesStep(width, height, atoms[..], x, y, dt);
        var idx := At(width, height, x, y);
        if atoms[idx].atomType != Empty {
          AccumulateHeat(changes, x, y, dt);
        }
        m := m + 1;
        x := x + 1;
      }
    }

    /** The four exchanges of one non-Empty cell with its non-Empty neighbours. */
    method AccumulateHeat(changes: array<real>, x: int, y: int, dt: real)
      requires Valid() && changes.Length == width * height && InBounds(width, height, x, y)
      modifies changes
      ensures changes[..] == HeatFrom(width, height, atoms[..], old(changes[..]), x, y, HeatOffsets, dt)
    {
      ghost var p := changes[..];
      var t := 0;
      while t < 4
        invariant 0 <= t <= 4
        invariant changes[..] == HeatFrom(width, height, atoms[..], p, x, y, HeatOffsets[..t], dt)
      {
        HeatFromStep(width, height, atoms[..], p, x, y, HeatOffsets, dt, t);
        ExchangeWith(changes, x, y, HeatOffsets[t], dt);
        t := t + 1;
      }
      assert HeatOffsets[..t] == HeatOffsets;
    }

    /** One neighbour of the loop: `temp_changes[idx] -= flow; temp_changes[nidx] += flow`. */
    method ExchangeWith(changes: array<real>, x: int, y: int, o: (int, int), dt: real)
      requires Valid() && changes.Length == width * height && InBounds(width, height, x, y)
      modifies changes
      ensures changes[..] == HeatPair(width, height, atoms[..], old(changes[..]), x, y, o, dt)
    {
      var idx := At(width, height, x, y);
      match GetIndex(width, height, x + o.0, y + o.1)
      case None =>
      case Some(nidx) =>
        if atoms[nidx].atomType != Empty {
          var flow := Flow(atoms[idx].temperature, atoms[nidx].temperature, dt);
          ghost var before := changes[..];
          changes[idx] := changes[idx] - flow;
          assert changes[..] == before[idx := before[idx] - flow];
          ghost var mid := changes[..];
          changes[nidx] := changes[nidx] + flow;
          assert changes[..] == mid[nidx := mid[nidx] + flow];
        }
    }

    /** Adds each accumulated change to its atom's temperature. */
    method AddTemperatures(changes: array<real>)
      requires Valid() && changes.Length == width * height
      modifies atoms
      ensures atoms[..] == WithHeat(old(atoms[..]), changes[..])
    {
      var i := 0;
      while i < atoms.Length
        invariant 0 <= i <= atoms.Length
        invariant forall j :: 0 <= j < i ==> atoms[j] == old(atoms[j]).(temperature := old(atoms[j]).temperature + changes[j])
        invariant forall j :: i <= j < atoms.Length ==> atoms[j] == old(atoms[j])
      {
        atoms[i] := atoms[i].(temperature := atoms[i].temperature + changes[i]);
        i := i + 1;
      }
    }

    /** `process_reactions`: gather every reacting pair first, then apply them in order. */
    method ProcessReactions()
      requires Valid()
      modifies atoms
      ensures atoms[..] == ApplyReactions(width, height, old(atoms[..]), CollectReactions(width, height, old(atoms[..]), width * height))
    {
      var reactions := FindReactions();
      var r := 0;
      while r < |reactions|
        invariant 0 <= r <= |reactions|
        invariant atoms[..] == ApplyReactions(width, height, old(atoms[..]), reactions[..r])
      {
        ApplyReactionsStep(width, height, old(atoms[..]), reactions, r);
        ApplyOneReaction(reactions[r]);
        r := r + 1;
      }
      assert reactions[..r] == reactions;
    }

    /** The collection loop: rows top to bottom, each left to right, skipping Empty cells. */
    method FindReactions() returns (reactions: seq<Reaction>)
      requires Valid()
      ensures reactions == CollectReactions(width, height, atoms[..], width * height)
    {
      hide CellReactions;
      reactions := [];
      ghost var n := 0;
      var y := 0;
      while y < height
        invariant 0 <= y <= height && n == y * width && n <= width * height
        invariant reactions == CollectReactions(width, height, atoms[..], n)
      {
        reactions := FindRowReactions(reactions, y, n);
        n := n + width;
        y := y + 1;
      }
      AllRows(width, height, y, n);
    }

    method FindRowReactions(before: seq<Reaction>, y: int, ghost n: nat) returns (reactions: seq<Reaction>)
      requires Valid() && 0 <= y < height && n == y * width && n <= width * height
      requires before == CollectReactions(width, height, atoms[..], n)
      ensures n + width == (y + 1) * width <= width * height
      ensures reactions == CollectReactions(width, height, atoms[..], n + width)
    {
      hide CollectReactions, CellReactions;
      MulMono(y + 1, height, width);
      reactions := before;
      ghost var m := n;
      var x := 0;
      while x < width
        invariant 0 <= x <= width && m == n + x && n + width <= width * height
        invariant reactions == CollectReactions(width, height, atoms[..], m)
      {
        RowStart(width, height, x, y);
        CollectReactionsStep(width, height, atoms[..], x, y);
        var idx := At(width, height, x, y);
        if atoms[idx].atomType != Empty {
          var found := FindCellReactions(x, y);
          reactions := reactions + found;
        }
        m := m + 1;
        x := x + 1;
      }
    }

    /** The neighbour loops of one cell: dx outer, dy inner, skipping (0, 0). */
    method FindCellReactions(x: int, y: int) returns (found: seq<Reaction>)
      requires Valid() && InBounds(width, height, x, y)
      ensures found == CellReactions(width, height, atoms[..], x, y, NeighbourOffsets)
    {
      found := [];
      var dx := -1;
      while dx <= 1
        invariant -1 <= dx <= 2
        invariant found == CellReactions(width, height, atoms[..], x, y, NeighbourOffsets[..Slot(dx, -1)])
      {
        found := FindColumnReactions(x, y, dx, found);
        dx := dx + 1;
      }
      assert Slot(dx, -1) == 8;
      assert NeighbourOffsets[..8] == NeighbourOffsets;
    }

    /** The dy loop of column dx of the neighbours of cell (x, y). */
    method FindColumnReactions(x: int, y: int, dx: int, before: seq<Reaction>) returns (found: seq<Reaction>)
      requires Valid() && InBounds(width, height, x, y) && -1 <= dx <= 1
      requires before == CellReactions(width, height, atoms[..], x, y, NeighbourOffsets[..Slot(dx, -1)])
      ensures found == CellReactions(width, height, atoms[..], x, y, NeighbourOffsets[..Slot(dx + 1, -1)])
    {
      hide CellReactions;
      found := before;
      var dy := -1;
      while dy <= 1
        invariant -1 <= dy <= 2
        invariant found == CellReactions(width, height, atoms[..], x, y, NeighbourOffsets[..Slot(dx, dy)])
      {
        if dx == 0 && dy == 0 {
          assert Slot(dx, dy + 1) == Slot(dx, dy);
        } else {
          found := FindSlotReaction(x, y, dx, dy, found);
        }
        dy := dy + 1;
      }
      assert Slot(dx, dy) == Slot(dx + 1, -1);
    }

    /** The reaction check with neighbour (dx, dy) continues the checks before it. */
    method FindSlotReaction(x: int, y: int, dx: int, dy: int, before: seq<Reaction>) returns (found: seq<Reaction>)
      requires Valid() && InBounds(width, height, x, y)
      requires -1 <= dx <= 1 && -1 <= dy <= 1 && !(dx == 0 && dy == 0)
      requires before == CellReactions(width, height, atoms[..], x, y, NeighbourOffsets[..Slot(dx, dy)])
      ensures found == CellReactions(width, height, atoms[..], x, y, NeighbourOffsets[..Slot(dx, dy + 1)])
    {
      hide CellReactions;
      found := before;
      var kind := atoms[At(width, height, x, y)].atomType;
      NeighbourSlot(dx, dy);
      CellReactionsStep(width, height, atoms[..], x, y, NeighbourOffsets, Slot(dx, dy));
      match GetAtom(width, height, atoms[..], x + dx, y + dy) {
        case None =>
        case Some(neighbour) =>
          match CheckReaction(kind, neighbour.atomType) {
            case None =>
            case Some(ps) => found := found + [Reaction(x, y, x + dx, y + dy, ps)];
          }
      }
    }

    /** Places every product of one reaction, then resets both reactant cells. */
    method ApplyOneReaction(rc: Reaction)
      requires Valid()
      modifies atoms
      ensures atoms[..] == ApplyReaction(width, height, old(atoms[..]), rc)
    {
      var p := 0;
      while p < |rc.products|
        invariant 0 <= p <= |rc.products|
        invariant atoms[..] == PlaceProducts(width, height, old(atoms[..]), rc.x1, rc.y1, rc.products[..p])
      {
        PlaceProductsStep(width, height, old(atoms[..]), rc.x1, rc.y1, rc.products, p);
        PlaceOneProduct(rc.x1, rc.y1, ProductAtom(rc.products[p]));
        p := p + 1;
      }
      assert rc.products[..p] == rc.products;
      SetAtom(rc.x1, rc.y1, DefaultAtom);
      SetAtom(rc.x2, rc.y2, DefaultAtom);
    }

    /** The dx loop of the placement search; the `break` leaves only the dy loop. */
    method PlaceOneProduct(x1: int, y1: int, a: Atom)
      requires Valid()
      modifies atoms
      ensures atoms[..] == PlaceProduct(width, height, old(atoms[..]), x1, y1, a)
    {
      PlaceInColumnOf(x1, y1, -1, a);
      PlaceInColumnOf(x1, y1, 0, a);
      PlaceInColumnOf(x1, y1, 1, a);
    }

    /** The dy loop: the first empty cell of the column receives the atom, then `break`. */
    method PlaceInColumnOf(x1: int, y1: int, dx: int, a: Atom)
      requires Valid()
      modifies atoms
      ensures atoms[..] == PlaceInColumn(width, height, old(atoms[..]), x1, y1, dx, a)
    {
      var col := [(dx, -1), (dx, 0), (dx, 1)];
      var k := FirstEmpty(width, height, atoms[..], x1, y1, col);
      if k < 3 {
        SetAtom(x1 + dx, y1 + col[k].1, a);
      }
    }
  }
}
