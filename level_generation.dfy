// Level generation: the cyclic level manager, the water pass that fills
// empty cells, and the laboratory layout of stone-walled rooms with an
// experiment block in each. The noise-shaped levels are not modelled.
module LevelGeneration {
  import opened Common
  import opened Grid
  import opened Atoms

  datatype LevelType = Cave | Island | Mountain | Volcano | Laboratory

  /** The level list of `LevelManager::default`. */
  const AllLevels: seq<LevelType> := [Cave, Island, Mountain, Volcano, Laboratory]

  /** An atom at rest, as every generator writes it. */
  function Made(t: AtomType, lifetime: Option<real>, temperature: real): Atom {
    Atom(t, Zero, Mass(t), lifetime, temperature)
  }

  // ---------------------------------------------------------------------
  // The level manager
  // ---------------------------------------------------------------------

  /** The index after i in a cycle of n levels. */
  function NextIndex(i: nat, n: nat): (r: nat)
    requires i < n
    ensures r < n
    ensures i + 1 < n ==> r == i + 1
    ensures i + 1 == n ==> r == 0
  {
    (i + 1) % n
  }

  /** The index before i in a cycle of n levels. */
  function PrevIndex(i: nat, n: nat): (r: nat)
    requires i < n
    ensures r < n
  {
    if i == 0 then n - 1 else i - 1
  }

  /** Going forward then back, or back then forward, returns to the same level. */
  lemma NextPrevInverse(i: nat, n: nat)
    requires i < n
    ensures PrevIndex(NextIndex(i, n), n) == i
    ensures NextIndex(PrevIndex(i, n), n) == i
  {
  }

  /** n steps forward around a cycle of n levels come back to the start. */
  lemma {:induction false} NextCycle(i: nat, n: nat, k: nat)
    requires i < n
    ensures Iterate(i, n, k) == (i + k) % n
  {
    if k > 0 {
      NextCycle(i, n, k - 1);
      assert Iterate(i, n, k) == NextIndex((i + k - 1) % n, n);
      ModStep(i + k - 1, n);
    }
  }

  /** k applications of NextIndex. */
  function Iterate(i: nat, n: nat, k: nat): (r: nat)
    requires i < n
    ensures r < n
  {
    if k == 0 then i else NextIndex(Iterate(i, n, k - 1), n)
  }

  lemma ModStep(a: nat, n: nat)
    requires n > 0
    ensures ((a % n) + 1) % n == (a + 1) % n
  {
    var q, r := a / n, a % n;
    assert a == q * n + r;
    if r + 1 == n {
      assert a + 1 == (q + 1) * n + 0;
      RowMajor(n, 0, q + 1);
      RowMajor(n, 0, 1);
    } else {
      assert a + 1 == q * n + (r + 1);
      RowMajor(n, r + 1, q);
      RowMajor(n, r + 1, 0);
    }
  }

  /** The `LevelManager` resource: the index of the current level into the five level types. */
  class LevelManager {
    var currentLevel: nat
    const levelTypes: seq<LevelType>

    ghost predicate Valid()
      reads this
    {
      levelTypes == AllLevels && currentLevel < |levelTypes|
    }

    constructor ()
      ensures Valid() && currentLevel == 0
    {
      currentLevel := 0;
      levelTypes := AllLevels;
    }

    function GetCurrentLevelType(): (t: LevelType)
      requires Valid()
      reads this
      ensures t == AllLevels[currentLevel]
    {
      levelTypes[currentLevel]
    }

    method NextLevel() returns (t: LevelType)
      requires Valid()
      modifies this
      ensures Valid() && currentLevel == NextIndex(old(currentLevel), |AllLevels|) && t == AllLevels[currentLevel]
    {
      currentLevel := (currentLevel + 1) % |levelTypes|;
      t := levelTypes[currentLevel];
    }

    method PreviousLevel() returns (t: LevelType)
      requires Valid()
      modifies this
      ensures Valid() && currentLevel == PrevIndex(old(currentLevel), |AllLevels|) && t == AllLevels[currentLevel]
    {
      if currentLevel == 0 {
        currentLevel := |levelTypes| - 1;
      } else {
        currentLevel := currentLevel - 1;
      }
      t := levelTypes[currentLevel];
    }
  }

  // ---------------------------------------------------------------------
  // Water features
  // ---------------------------------------------------------------------

  const WaterAtom: Atom := Made(Water, None, 20.0)

  /**
   * `s1` is `s0` after the water pass: an Empty cell becomes Water when its
   * draw is below the probability, every other cell is kept.
   */
  ghost predicate Watered(w: nat, h: nat, s0: seq<Atom>, s1: seq<Atom>, p: real, roll: (int, int) -> real)
    requires |s0| == w * h && |s1| == w * h
  {
    forall px, py :: InBounds(w, h, px, py) ==>
      s1[At(w, h, px, py)] ==
        if s0[At(w, h, px, py)].atomType == Empty && roll(px, py) < p then WaterAtom else s0[At(w, h, px, py)]
  }

  /** The water pass writes Water, and only into cells that were Empty. */
  lemma WaterOnlyIntoEmpty(w: nat, h: nat, s0: seq<Atom>, s1: seq<Atom>, p: real, roll: (int, int) -> real, i: nat)
    requires |s0| == w * h && |s1| == w * h && i < w * h
    requires Watered(w, h, s0, s1, p, roll)
    ensures s1[i] != s0[i] ==> s0[i].atomType == Empty && s1[i] == WaterAtom
  {
    IndexOfPosition(w, h, i);
    assert i == At(w, h, i % w, i / w);
  }

  /** `add_water_features`, the draw for cell (x, y) given as roll(x, y). */
  method AddWaterFeatures(world: AtomWorld, p: real, roll: (int, int) -> real)
    requires world.Valid()
    modifies world.atoms
    ensures Watered(world.width, world.height, old(world.atoms[..]), world.atoms[..], p, roll)
  {
    var w, h := world.width, world.height;
    ghost var s0 := world.atoms[..];
    var y := 0;
    while y < h
      invariant 0 <= y <= h
      invariant forall px, py :: InBounds(w, h, px, py) ==>
        world.atoms[At(w, h, px, py)] ==
          if py < y && s0[At(w, h, px, py)].atomType == Empty && roll(px, py) < p then WaterAtom else s0[At(w, h, px, py)]
    {
      var x := 0;
      while x < w
        invariant 0 <= x <= w
        invariant forall px, py :: InBounds(w, h, px, py) ==>
          world.atoms[At(w, h, px, py)] ==
            if (py < y || (py == y && px < x)) && s0[At(w, h, px, py)].atomType == Empty && roll(px, py) < p
            then WaterAtom else s0[At(w, h, px, py)]
      {
        var cell := GetAtom(w, h, world.atoms[..], x, y);
        if cell.value.atomType == Empty && roll(x, y) < p {
          ghost var before := world.atoms[..];
          world.SetAtom(x, y, WaterAtom);
          forall px, py | InBounds(w, h, px, py)
            ensures world.atoms[At(w, h, px, py)] ==
              if (py < y || (py == y && px < x + 1)) && s0[At(w, h, px, py)].atomType == Empty && roll(px, py) < p
              then WaterAtom else s0[At(w, h, px, py)]
          {
            SetCellAt(w, h, before, x, y, WaterAtom, px, py);
          }
        }
        x := x + 1;
      }
      y := y + 1;
    }
  }

  // ---------------------------------------------------------------------
  // The laboratory
  // ---------------------------------------------------------------------

  const RoomWidth: nat := 40
  const RoomHeight: nat := 30
  /** Experiment blocks start 5 cells into the room and are 10 cells wide and high. */
  const ExperimentInset: nat := 5
  const ExperimentSize: nat := 10

  /**
   * What experiment `kind` puts into a cell whose draw is r, or None when it
   * leaves the cell alone: 0 acid (r < 0.6), 1 fire (r < 0.4), 2 water
   * (r < 0.7), 3 a mix of water, acid, fire and sand by quarter.
   */
  function ExperimentAtom(kind: nat, r: real): (a: Option<Atom>)
    requires kind < 4
    ensures kind == 3 ==> a.Some?
    ensures a.Some? ==> a.value.atomType in {Acid, Fire, Water, Sand}
  {
    if kind == 0 then (if r < 0.6 then Some(Made(Acid, None, 20.0)) else None)
    else if kind == 1 then (if r < 0.4 then Some(Made(Fire, Some(10.0), 800.0)) else None)
    else if kind == 2 then (if r < 0.7 then Some(Made(Water, None, 20.0)) else None)
    else if r < 0.25 then Some(Made(Water, None, 20.0))
    else if r < 0.5 then Some(Made(Acid, None, 20.0))
    else if r < 0.75 then Some(Made(Fire, Some(8.0), 700.0))
    else Some(Made(Sand, None, 20.0))
  }

  /** The cell an experiment leaves: its atom, or the old cell when the draw skips it. */
  function ExperimentCell(kind: nat, r: real, old_: Atom): Atom
    requires kind < 4
  {
    match ExperimentAtom(kind, r)
    case Some(a) => a
    case None => old_
  }

  const StoneAtom: Atom := Made(Stone, None, 20.0)

  /** The rim of the room whose top-left corner is (sx, sy). */
  predicate IsWall(sx: int, sy: int, x: int, y: int) {
    x == sx || x == sx + RoomWidth - 1 || y == sy || y == sy + RoomHeight - 1
  }

  predicate InRect(sx: int, sy: int, wd: int, ht: int, x: int, y: int) {
    sx <= x < sx + wd && sy <= y < sy + ht
  }

  /**
   * The laboratory's cell (x, y), given what it held before: the rooms are
   * the full 40-by-30 tiles of the world; a room's rim is Stone, its
   * experiment block gets the experiment of kind (room x + room y) mod 4,
   * and every other cell, in a room or in the leftover strips, is kept.
   */
  function LabCell(w: nat, h: nat, x: int, y: int, before: Atom, roll: (int, int) -> real): Atom
    requires InBounds(w, h, x, y)
  {
    var rx, ry := x / RoomWidth, y / RoomHeight;
    var sx, sy := rx * RoomWidth, ry * RoomHeight;
    if rx < w / RoomWidth && ry < h / RoomHeight then
      if IsWall(sx, sy, x, y) then StoneAtom
      else if InRect(sx + ExperimentInset, sy + ExperimentInset, ExperimentSize, ExperimentSize, x, y) then
        ExperimentCell((rx + ry) % 4, roll(x, y), before)
      else before
    else before
  }

  /** Every rim cell of every full room is Stone. */
  lemma RoomWallsAreStone(w: nat, h: nat, rx: nat, ry: nat, x: int, y: int, before: Atom, roll: (int, int) -> real)
    requires rx < w / RoomWidth && ry < h / RoomHeight
    requires InRect(rx * RoomWidth, ry * RoomHeight, RoomWidth, RoomHeight, x, y)
    requires IsWall(rx * RoomWidth, ry * RoomHeight, x, y)
    ensures InBounds(w, h, x, y) && LabCell(w, h, x, y, before, roll) == StoneAtom
  {
    RoomOfCell(w, h, rx, ry, x, y);
  }

  /** The laboratory changes a cell only on a room's rim or inside the room's experiment block. */
  lemma LabChangesOnlyRoomCells(w: nat, h: nat, x: int, y: int, before: Atom, roll: (int, int) -> real)
    requires InBounds(w, h, x, y) && LabCell(w, h, x, y, before, roll) != before
    ensures var sx, sy := (x / RoomWidth) * RoomWidth, (y / RoomHeight) * RoomHeight;
      x / RoomWidth < w / RoomWidth && y / RoomHeight < h / RoomHeight &&
      (IsWall(sx, sy, x, y) || InRect(sx + ExperimentInset, sy + ExperimentInset, ExperimentSize, ExperimentSize, x, y))
  {
  }

  /** A full room lies inside the world, and its cells name it as their room. */
  lemma RoomOfCell(w: nat, h: nat, rx: nat, ry: nat, x: int, y: int)
    requires rx < w / RoomWidth && ry < h / RoomHeight
    requires InRect(rx * RoomWidth, ry * RoomHeight, RoomWidth, RoomHeight, x, y)
    ensures InBounds(w, h, x, y) && x / RoomWidth == rx && y / RoomHeight == ry
  {
    assert (rx + 1) * RoomWidth <= w by {
      assert rx + 1 <= w / RoomWidth;
    }
    assert (ry + 1) * RoomHeight <= h by {
      assert ry + 1 <= h / RoomHeight;
    }
  }

  /**
   * `generate_laboratory_level` on an existing world, experiment draws given
   * as roll(x, y): the result is LabCell at every cell.
   */
  method GenerateLaboratoryLevel(world: AtomWorld, roll: (int, int) -> real)
    requires world.Valid()
    modifies world.atoms
    ensures forall px, py :: InBounds(world.width, world.height, px, py) ==>
      world.atoms[At(world.width, world.height, px, py)] ==
        LabCell(world.width, world.height, px, py, old(world.atoms[At(world.width, world.height, px, py)]), roll)
  {
    var w, h := world.width, world.height;
    ghost var s0 := world.atoms[..];
    var ry := 0;
    while ry < h / RoomHeight
      invariant 0 <= ry <= h / RoomHeight
      invariant forall px, py :: InBounds(w, h, px, py) ==>
        world.atoms[At(w, h, px, py)] ==
          if py / RoomHeight < ry then LabCell(w, h, px, py, s0[At(w, h, px, py)], roll) else s0[At(w, h, px, py)]
    {
      var rx := 0;
      while rx < w / RoomWidth
        invariant 0 <= rx <= w / RoomWidth
        invariant forall px, py :: InBounds(w, h, px, py) ==>
          world.atoms[At(w, h, px, py)] ==
            if py / RoomHeight < ry || (py / RoomHeight == ry && px / RoomWidth < rx)
            then LabCell(w, h, px, py, s0[At(w, h, px, py)], roll) else s0[At(w, h, px, py)]
      {
        ghost var before := world.atoms[..];
        BuildRoom(world, rx, ry, roll);
        forall px, py | InBounds(w, h, px, py)
          ensures world.atoms[At(w, h, px, py)] ==
            if py / RoomHeight < ry || (py / RoomHeight == ry && px / RoomWidth < rx + 1)
            then LabCell(w, h, px, py, s0[At(w, h, px, py)], roll) else s0[At(w, h, px, py)]
        {
          if px / RoomWidth >= w / RoomWidth {
            assert LabCell(w, h, px, py, s0[At(w, h, px, py)], roll) == s0[At(w, h, px, py)];
          }
        }
        rx := rx + 1;
      }
      forall px, py | InBounds(w, h, px, py)
        ensures world.atoms[At(w, h, px, py)] ==
          if py / RoomHeight < ry + 1 then LabCell(w, h, px, py, s0[At(w, h, px, py)], roll) else s0[At(w, h, px, py)]
      {
        if py / RoomHeight == ry && px / RoomWidth >= w / RoomWidth {
          assert LabCell(w, h, px, py, s0[At(w, h, px, py)], roll) == s0[At(w, h, px, py)];
        }
      }
      ry := ry + 1;
    }
    forall px, py | InBounds(w, h, px, py)
      ensures world.atoms[At(w, h, px, py)] == LabCell(w, h, px, py, s0[At(w, h, px, py)], roll)
    {
      if py / RoomHeight >= ry {
        assert LabCell(w, h, px, py, s0[At(w, h, px, py)], roll) == s0[At(w, h, px, py)];
      }
    }
  }

  /** One room of the laboratory: its walls, then its experiment. */
  method BuildRoom(world: AtomWorld, rx: nat, ry: nat, roll: (int, int) -> real)
    requires world.Valid() && rx < world.width / RoomWidth && ry < world.height / RoomHeight
    modifies world.atoms
    ensures forall px, py :: InBounds(world.width, world.height, px, py) ==>
      world.atoms[At(world.width, world.height, px, py)] ==
        if px / RoomWidth == rx && py / RoomHeight == ry
        then LabCell(world.width, world.height, px, py, old(world.atoms[At(world.width, world.height, px, py)]), roll)
        else old(world.atoms[At(world.width, world.height, px, py)])
  {
    var w, h := world.width, world.height;
    ghost var s0 := world.atoms[..];
    var sx, sy := rx * RoomWidth, ry * RoomHeight;
    BuildWalls(world, sx, sy);
    ghost var s1 := world.atoms[..];
    var kind := (rx + ry) % 4;
    AddExperiment(world, kind, sx + ExperimentInset, sy + ExperimentInset, ExperimentSize, roll);
    forall px, py | InBounds(w, h, px, py)
      ensures world.atoms[At(w, h, px, py)] ==
        if px / RoomWidth == rx && py / RoomHeight == ry
        then LabCell(w, h, px, py, s0[At(w, h, px, py)], roll)
        else s0[At(w, h, px, py)]
    {
      var inRoom := InRect(sx, sy, RoomWidth, RoomHeight, px, py);
      if inRoom {
        RoomOfCell(w, h, rx, ry, px, py);
      } else {
        assert !(px / RoomWidth == rx && py / RoomHeight == ry);
      }
    }
  }

  /** The wall loops of one room: the rim of the 40-by-30 rectangle at (sx, sy) becomes Stone. */
  method BuildWalls(world: AtomWorld, sx: int, sy: int)
    requires world.Valid()
    modifies world.atoms
    ensures forall px, py :: InBounds(world.width, world.height, px, py) ==>
      world.atoms[At(world.width, world.height, px, py)] ==
        if InRect(sx, sy, RoomWidth, RoomHeight, px, py) && IsWall(sx, sy, px, py) then StoneAtom
        else old(world.atoms[At(world.width, world.height, px, py)])
  {
    var w, h := world.width, world.height;
    ghost var s0 := world.atoms[..];
    var x := sx;
    while x < sx + RoomWidth
      invariant sx <= x <= sx + RoomWidth
      invariant forall px, py :: InBounds(w, h, px, py) ==>
        world.atoms[At(w, h, px, py)] ==
          if InRect(sx, sy, RoomWidth, RoomHeight, px, py) && IsWall(sx, sy, px, py) && px < x then StoneAtom
          else s0[At(w, h, px, py)]
    {
      var y := sy;
      while y < sy + RoomHeight
        invariant sy <= y <= sy + RoomHeight
        invariant forall px, py :: InBounds(w, h, px, py) ==>
          world.atoms[At(w, h, px, py)] ==
            if InRect(sx, sy, RoomWidth, RoomHeight, px, py) && IsWall(sx, sy, px, py) && (px < x || (px == x && py < y))
            then StoneAtom else s0[At(w, h, px, py)]
      {
        if IsWall(sx, sy, x, y) {
          ghost var before := world.atoms[..];
          world.SetAtom(x, y, StoneAtom);
          forall px, py | InBounds(w, h, px, py)
            ensures world.atoms[At(w, h, px, py)] ==
              if InRect(sx, sy, RoomWidth, RoomHeight, px, py) && IsWall(sx, sy, px, py) && (px < x || (px == x && py < y + 1))
              then StoneAtom else s0[At(w, h, px, py)]
          {
            SetCellAt(w, h, before, x, y, StoneAtom, px, py);
          }
        }
        y := y + 1;
      }
      x := x + 1;
    }
  }

  /**
   * `add_acid_experiment`, `add_fire_experiment`, `add_water_experiment` and
   * `add_mixed_experiment`, told apart by `kind`: each cell of the size-by-size
   * block at (sx, sy) gets the experiment's atom for its draw.
   */
  method AddExperiment(world: AtomWorld, kind: nat, sx: int, sy: int, size: nat, roll: (int, int) -> real)
    requires world.Valid() && kind < 4
    modifies world.atoms
    ensures forall px, py :: InBounds(world.width, world.height, px, py) ==>
      world.atoms[At(world.width, world.height, px, py)] ==
        if InRect(sx, sy, size, size, px, py)
        then ExperimentCell(kind, roll(px, py), old(world.atoms[At(world.width, world.height, px, py)]))
        else old(world.atoms[At(world.width, world.height, px, py)])
  {
    var w, h := world.width, world.height;
    ghost var s0 := world.atoms[..];
    var x := sx;
    while x < sx + size
      invariant sx <= x <= sx + size
      invariant forall px, py :: InBounds(w, h, px, py) ==>
        world.atoms[At(w, h, px, py)] ==
          if InRect(sx, sy, size, size, px, py) && px < x then ExperimentCell(kind, roll(px, py), s0[At(w, h, px, py)])
          else s0[At(w, h, px, py)]
    {
      var y := sy;
      while y < sy + size
        invariant sy <= y <= sy + size
        invariant forall px, py :: InBounds(w, h, px, py) ==>
          world.atoms[At(w, h, px, py)] ==
            if InRect(sx, sy, size, size, px, py) && (px < x || (px == x && py < y))
            then ExperimentCell(kind, roll(px, py), s0[At(w, h, px, py)]) else s0[At(w, h, px, py)]
      {
        var a := ExperimentAtom(kind, roll(x, y));
        if a.Some? {
          ghost var before := world.atoms[..];
          world.SetAtom(x, y, a.value);
          forall px, py | InBounds(w, h, px, py)
            ensures world.atoms[At(w, h, px, py)] ==
              if InRect(sx, sy, size, size, px, py) && (px < x || (px == x && py < y + 1))
              then ExperimentCell(kind, roll(px, py), s0[At(w, h, px, py)]) else s0[At(w, h, px, py)]
          {
            SetCellAt(w, h, before, x, y, a.value, px, py);
          }
        }
        y := y + 1;
      }
      x := x + 1;
    }
  }
}
