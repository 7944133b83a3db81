// Sleeping atoms: atoms that have not moved for a while stop being updated
// until something wakes them. Each atom is an object whose update moves it
// under gravity inside the world bounds and runs its sleep timer; the world
// holds one atom per cell, swaps them, and reports how many are asleep.
module LetSleepingAtomsLie {
  import opened Common
  import opened Grid

  datatype AtomType = Empty | Sand | Water | Stone

  /** `can_sleep`: only stone ever falls asleep. */
  predicate CanSleep(t: AtomType) {
    t == Stone
  }

  /** Clamp one coordinate of the new position into [0, bound): below 0 to 0, at or past the bound to bound - 1. */
  function ClampAxis(c: real, bound: real): (r: real)
    ensures c < 0.0 ==> r == 0.0
    ensures c >= bound && c >= 0.0 ==> r == bound - 1.0
    ensures 0.0 <= c < bound ==> r == c
  {
    if c < 0.0 then 0.0 else if c >= bound then bound - 1.0 else c
  }

  /** A coordinate that left the bounds bounces back at half speed. */
  function BounceAxis(c: real, bound: real, v: real): real {
    if c < 0.0 || c >= bound then v * -0.5 else v
  }

  /** The unconstrained position after one step: gravity on the velocity, then the velocity times dt. */
  function Gravity(velocity: Vec2, dt: real): Vec2 {
    Vec2(velocity.x, velocity.y - 30.0 * dt)
  }

  function Target(position: Vec2, velocity: Vec2, dt: real): Vec2 {
    Add(position, Scale(Gravity(velocity, dt), dt))
  }

  /**
   * The position after the bounds check as the source writes it: the x
   * clamp only assigns `position.x`, and an in-range y assigns the whole
   * unclamped new position, which overwrites the x clamp; when y is clamped
   * an in-range x is not advanced at all.
   */
  function PositionStepAsWritten(position: Vec2, velocity: Vec2, dt: real, bounds: Vec2): Vec2 {
    var np := Target(position, velocity, dt);
    var x1 := if np.x < 0.0 then 0.0 else if np.x >= bounds.x then bounds.x - 1.0 else position.x;
    if np.y < 0.0 then Vec2(x1, 0.0)
    else if np.y >= bounds.y then Vec2(x1, bounds.y - 1.0)
    else np
  }

  /** The evidently intended bounds check: each coordinate of the new position is clamped on its own. */
  function PositionStep(position: Vec2, velocity: Vec2, dt: real, bounds: Vec2): (r: Vec2)
    ensures bounds.x >= 1.0 ==> 0.0 <= r.x < bounds.x
    ensures bounds.y >= 1.0 ==> 0.0 <= r.y < bounds.y
    ensures var np := Target(position, velocity, dt);
      (0.0 <= np.x < bounds.x ==> r.x == np.x) && (0.0 <= np.y < bounds.y ==> r.y == np.y)
  {
    var np := Target(position, velocity, dt);
    Vec2(ClampAxis(np.x, bounds.x), ClampAxis(np.y, bounds.y))
  }

  /**
   * The source's bounds check leaves an atom outside the world: at x = 0
   * moving left at 10 per second, with y well inside, one 0.1 s step puts
   * it at x = -1.
   */
  lemma AsWrittenEscapesBounds()
    ensures var r := PositionStepAsWritten(Vec2(0.0, 5.0), Vec2(-10.0, 0.0), 0.1, Vec2(100.0, 100.0));
      r.x < 0.0 && r == Vec2(-1.0, 5.0 - 0.3)
    ensures PositionStep(Vec2(0.0, 5.0), Vec2(-10.0, 0.0), 0.1, Vec2(100.0, 100.0)).x == 0.0
  {
    var np := Target(Vec2(0.0, 5.0), Vec2(-10.0, 0.0), 0.1);
    assert np == Vec2(-1.0, 5.0 - 0.3);
  }

  /**
   * The source's bounds check also drops an in-range horizontal move when
   * y is clamped: from (50, 0.5) at velocity (10, -10), one 0.1 s step
   * lands below y = 0, and x stays at 50 instead of advancing to 51.
   */
  lemma AsWrittenDropsMove()
    ensures PositionStepAsWritten(Vec2(50.0, 0.5), Vec2(10.0, -10.0), 0.1, Vec2(100.0, 100.0)) == Vec2(50.0, 0.0)
    ensures PositionStep(Vec2(50.0, 0.5), Vec2(10.0, -10.0), 0.1, Vec2(100.0, 100.0)) == Vec2(51.0, 0.0)
  {
    var np := Target(Vec2(50.0, 0.5), Vec2(10.0, -10.0), 0.1);
    assert np == Vec2(51.0, 0.5 - 1.3);
  }

  /** The velocity after the step: bounced per axis, then 2% friction. */
  function VelocityStep(position: Vec2, velocity: Vec2, dt: real, bounds: Vec2): Vec2 {
    var v := Gravity(velocity, dt);
    var np := Target(position, velocity, dt);
    Scale(Vec2(BounceAxis(np.x, bounds.x, v.x), BounceAxis(np.y, bounds.y, v.y)), 0.98)
  }

  /** Moved means the squared displacement since the last step exceeds 0.001. */
  predicate Moved(position: Vec2, lastPosition: Vec2) {
    DistSq(position, lastPosition) > 0.001
  }

  class SleepingAtom {
    var atomType: AtomType
    var position: Vec2
    var velocity: Vec2
    var sleepTimer: real
    var isSleeping: bool
    var lastPosition: Vec2

    /** `SleepingAtom::new`: at rest, awake, with a fresh timer. */
    constructor (t: AtomType, p: Vec2)
      ensures atomType == t && position == p && velocity == Zero
      ensures sleepTimer == 0.0 && !isSleeping && lastPosition == p
    {
      atomType, position, velocity := t, p, Zero;
      sleepTimer, isSleeping, lastPosition := 0.0, false, p;
    }

    /**
     * `SleepingAtom::update`. Empty and sleeping atoms are left alone. An
     * awake atom takes one physics step; if it did not move and its type can
     * sleep, its timer runs and past 1 s it falls asleep with the timer
     * reset; otherwise the timer is reset. The result is always false: the
     * source never sets its `was_moved` flag.
     */
    method Update(dt: real, bounds: Vec2) returns (wasMoved: bool)
      modifies this
      ensures !wasMoved && atomType == old(atomType)
      ensures old(atomType) == Empty || old(isSleeping) ==>
        position == old(position) && velocity == old(velocity) && sleepTimer == old(sleepTimer) &&
        isSleeping == old(isSleeping) && lastPosition == old(lastPosition)
      ensures old(atomType) != Empty && !old(isSleeping) ==>
        position == PositionStep(old(position), old(velocity), dt, bounds) &&
        velocity == VelocityStep(old(position), old(velocity), dt, bounds) &&
        lastPosition == position &&
        if !Moved(position, old(lastPosition)) && CanSleep(atomType) then
          if old(sleepTimer) + dt > 1.0 then isSleeping && sleepTimer == 0.0
          else !isSleeping && sleepTimer == old(sleepTimer) + dt
        else !isSleeping && sleepTimer == 0.0
    {
      if atomType == Empty {
        return false;
      }
      wasMoved := false;
      if !isSleeping {
        ghost var last := lastPosition;
        Move(dt, bounds);
        var moved := DistSq(position, lastPosition) > 0.001;
        assert moved == Moved(position, last);
        lastPosition := position;
        if !moved && CanSleep(atomType) {
          sleepTimer := sleepTimer + dt;
          if sleepTimer > 1.0 {
            isSleeping := true;
            sleepTimer := 0.0;
          }
        } else {
          sleepTimer := 0.0;
        }
      }
    }

    /** The physics part of `update`: gravity, the move, the bounds check with bounce, then friction. */
    method Move(dt: real, bounds: Vec2)
      modifies this
      ensures position == PositionStep(old(position), old(velocity), dt, bounds)
      ensures velocity == VelocityStep(old(position), old(velocity), dt, bounds)
      ensures atomType == old(atomType) && sleepTimer == old(sleepTimer) && isSleeping == old(isSleeping)
      ensures lastPosition == old(lastPosition)
    {
      velocity := Vec2(velocity.x, velocity.y - 30.0 * dt);
      var newPosition := Add(position, Scale(velocity, dt));
      var vx, vy := velocity.x, velocity.y;
      var px, py := newPosition.x, newPosition.y;
      if newPosition.x < 0.0 {
        px, vx := 0.0, vx * -0.5;
      } else if newPosition.x >= bounds.x {
        px, vx := bounds.x - 1.0, vx * -0.5;
      }
      if newPosition.y < 0.0 {
        py, vy := 0.0, vy * -0.5;
      } else if newPosition.y >= bounds.y {
        py, vy := bounds.y - 1.0, vy * -0.5;
      }
      position := Vec2(px, py);
      velocity := Scale(Vec2(vx, vy), 0.98);
    }

    /** `wake_up`: awake, with the timer reset. */
    method WakeUp()
      modifies this
      ensures !isSleeping && sleepTimer == 0.0
      ensures atomType == old(atomType) && position == old(position) && velocity == old(velocity)
      ensures lastPosition == old(lastPosition)
    {
      isSleeping := false;
      sleepTimer := 0.0;
    }
  }

  /** The terrain of a new world: stone below row 10, sand in rows 10..24 within 20 columns of the middle. */
  function Terrain(width: nat, x: nat, y: nat): AtomType {
    if y < 10 then Stone
    else if y < 25 && x > width / 2 - 20 && x < width / 2 + 20 then Sand
    else Empty
  }

  /** A new atom: awake, at rest, with a fresh timer. */
  ghost predicate Fresh(a: SleepingAtom)
    reads a
  {
    !a.isSleeping && a.sleepTimer == 0.0 && a.velocity == Zero
  }

  /** The atom of cell k of a row-major world w wide: at the cell's coordinates, of its terrain type. */
  ghost predicate Placed(w: nat, a: SleepingAtom, k: nat)
    reads a
  {
    w > 0 && a.position == Vec2((k % w) as real, (k / w) as real) && a.atomType == Terrain(w, k % w, k / w)
  }

  /** The number of sleeping atoms in a list. */
  function SleepingCount(s: seq<SleepingAtom>): nat
    reads s
  {
    if s == [] then 0 else SleepingCount(s[..|s| - 1]) + (if s[|s| - 1].isSleeping then 1 else 0)
  }

  /** The positions in the list whose atom sleeps. */
  ghost function SleepingIndices(s: seq<SleepingAtom>): set<nat>
    reads s
  {
    set i: nat | i < |s| && s[i].isSleeping
  }

  /** The count is the number of sleeping positions, so at most the list's length. */
  lemma {:induction false} SleepingCountIndices(s: seq<SleepingAtom>)
    ensures SleepingCount(s) == |SleepingIndices(s)| <= |s|
  {
    if s != [] {
      var n := |s| - 1;
      SleepingCountIndices(s[..n]);
      var prefix := SleepingIndices(s[..n]);
      assert forall i: nat :: i in prefix <==> i < n && s[i].isSleeping;
      if s[n].isSleeping {
        assert SleepingIndices(s) == prefix + {n};
      } else {
        assert SleepingIndices(s) == prefix;
      }
    }
  }

  /**
   * Row y of `SleepingWorld::new`: one fresh awake atom per column, left to
   * right. A sand row computes `width / 2 - 20` unsigned, so it needs a
   * width of at least 40.
   */
  method NewRow(w: nat, y: nat) returns (row: seq<SleepingAtom>)
    requires 10 <= y < 25 && w > 0 ==> w / 2 >= 20
    ensures |row| == w
    ensures forall k :: 0 <= k < w ==> fresh(row[k]) && Fresh(row[k]) && Placed(w, row[k], y * w + k)
    ensures forall i, j :: 0 <= i < j < w ==> row[i] != row[j]
  {
    row := [];
    var x := 0;
    while x < w
      invariant 0 <= x <= w && |row| == x
      invariant forall k :: 0 <= k < x ==> fresh(row[k]) && Fresh(row[k]) && Placed(w, row[k], y * w + k)
      invariant forall i, j :: 0 <= i < j < x ==> row[i] != row[j]
    {
      var t := Empty;
      if y < 10 {
        t := Stone;
      } else if y < 25 && x > w / 2 - 20 && x < w / 2 + 20 {
        t := Sand;
      }
      var a := new SleepingAtom(t, Vec2(x as real, y as real));
      RowMajor(w, x, y);
      row := row + [a];
      x := x + 1;
    }
  }

  class SleepingWorld {
    const width: nat
    const height: nat
    var atoms: seq<SleepingAtom>
    const bounds: Vec2
    var activeAtoms: set<(nat, nat)>

    /** One distinct atom object per cell, row-major. */
    ghost predicate Valid()
      reads this
    {
      |atoms| == width * height && bounds == Vec2(width as real, height as real) &&
      forall i, j :: 0 <= i < j < |atoms| ==> atoms[i] != atoms[j]
    }

    /**
     * `SleepingWorld::new`: one fresh awake atom at each cell's coordinates,
     * of the terrain type, and no active cells. The source subtracts 20 from
     * `width / 2` in unsigned arithmetic when a sand row exists, so it needs
     * a width of at least 40 there.
     */
    constructor (w: nat, h: nat)
      requires h > 10 && w > 0 ==> w / 2 >= 20
      ensures Valid() && width == w && height == h && activeAtoms == {}
      ensures forall k :: 0 <= k < |atoms| ==> fresh(atoms[k]) && Fresh(atoms[k])
      ensures forall x: nat, y: nat :: InBounds(w, h, x, y) ==>
        atoms[At(w, h, x, y)].position == Vec2(x as real, y as real) &&
        atoms[At(w, h, x, y)].atomType == Terrain(w, x, y)
    {
      width, height := w, h;
      bounds := Vec2(w as real, h as real);
      activeAtoms := {};
      var cells: seq<SleepingAtom> := [];
      var y := 0;
      while y < h
        invariant 0 <= y <= h && |cells| == y * w
        invariant forall k :: 0 <= k < |cells| ==> fresh(cells[k]) && Fresh(cells[k]) && Placed(w, cells[k], k)
        invariant forall i, j :: 0 <= i < j < |cells| ==> cells[i] != cells[j]
      {
        var row := NewRow(w, y);
        assert forall k :: y * w <= k < y * w + w ==> (cells + row)[k] == row[k - y * w];
        cells := cells + row;
        assert |cells| == (y + 1) * w;
        y := y + 1;
      }
      forall x: nat, y: nat | InBounds(w, h, x, y)
        ensures cells[At(w, h, x, y)].position == Vec2(x as real, y as real)
        ensures cells[At(w, h, x, y)].atomType == Terrain(w, x, y)
      {
        RowMajor(w, x, y);
        assert Placed(w, cells[At(w, h, x, y)], At(w, h, x, y));
      }
      atoms := cells;
    }

    /** `is_empty`: out of bounds counts as empty. */
    function IsEmpty(x: nat, y: nat): (r: bool)
      requires Valid()
      reads this, atoms
      ensures r <==> !InBounds(width, height, x, y) || atoms[At(width, height, x, y)].atomType == Empty
    {
      if x < width && y < height then atoms[At(width, height, x, y)].atomType == Empty else true
    }

    /**
     * `swap_atoms`: when both cells are inside, exchange their atoms, mark
     * both cells active and wake both atoms; otherwise do nothing.
     */
    method SwapAtoms(x1: nat, y1: nat, x2: nat, y2: nat)
      requires Valid()
      modifies this, atoms
      ensures Valid()
      ensures !(InBounds(width, height, x1, y1) && InBounds(width, height, x2, y2)) ==>
        atoms == old(atoms) && activeAtoms == old(activeAtoms) &&
        forall k :: 0 <= k < |atoms| ==> (atoms[k].isSleeping == old(atoms[k].isSleeping) &&
          atoms[k].sleepTimer == old(atoms[k].sleepTimer))
      ensures InBounds(width, height, x1, y1) && InBounds(width, height, x2, y2) ==>
        var i1, i2 := At(width, height, x1, y1), At(width, height, x2, y2);
        atoms == SwapAt(old(atoms), i1, i2) && activeAtoms == old(activeAtoms) + {(x1, y1), (x2, y2)} &&
        !atoms[i1].isSleeping && atoms[i1].sleepTimer == 0.0 &&
        !atoms[i2].isSleeping && atoms[i2].sleepTimer == 0.0 &&
        forall k :: 0 <= k < |atoms| && k != i1 && k != i2 ==>
          atoms[k].isSleeping == old(atoms[k].isSleeping) && atoms[k].sleepTimer == old(atoms[k].sleepTimer)
      ensures forall k :: 0 <= k < |old(atoms)| ==>
        old(atoms)[k].atomType == old(atoms[k].atomType) && old(atoms)[k].position == old(atoms[k].position) &&
        old(atoms)[k].velocity == old(atoms[k].velocity)
    {
      if x1 < width && y1 < height && x2 < width && y2 < height {
        var i1 := At(width, height, x1, y1);
        var i2 := At(width, height, x2, y2);
        atoms := SwapAt(atoms, i1, i2);
        activeAtoms := activeAtoms + {(x1, y1)};
        activeAtoms := activeAtoms + {(x2, y2)};
        atoms[i1].WakeUp();
        atoms[i2].WakeUp();
      }
    }

    /**
     * `get_sleeping_stats`: the number of cells, the number of sleeping
     * atoms, and their percentage (None where the source divides zero by
     * zero, for a world with no cells).
     */
    function GetSleepingStats(): (r: (nat, nat, Option<real>))
      requires Valid()
      reads this, atoms
      ensures r.0 == width * height
      ensures r.1 == SleepingCount(atoms)
      ensures r.0 == 0 <==> r.2.None?
      ensures r.2.Some? ==> r.2.value == (r.1 as real / r.0 as real) * 100.0
    {
      var total := width * height;
      var sleeping := SleepingCount(atoms);
      (total, sleeping, if total == 0 then None else Some((sleeping as real / total as real) * 100.0))
    }
  }

  /** The sleeping count of the statistics is the number of sleeping cells, and at most 100% of them sleep. */
  lemma SleepingStatsBounds(w: SleepingWorld)
    requires w.Valid()
    ensures w.GetSleepingStats().1 == |SleepingIndices(w.atoms)| <= w.GetSleepingStats().0
    ensures w.GetSleepingStats().2.Some? ==> 0.0 <= w.GetSleepingStats().2.value <= 100.0
  {
    SleepingCountIndices(w.atoms);
    var r := w.GetSleepingStats();
    if r.0 > 0 {
      PercentBound(r.1, r.0);
    }
  }

  lemma PercentBound(a: nat, b: nat)
    requires 0 < b && a <= b
    ensures 0.0 <= (a as real / b as real) * 100.0 <= 100.0
  {
    assert a as real / b as real <= 1.0;
  }
}
