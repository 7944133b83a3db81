// Terrain-to-collider extraction of the main crate: the solid test and the
// stack-based 8-connected flood fill that groups solid cells into regions.
// The fill works on a mask of solid cells, so the demo world of the physics
// bridge example reuses it with its own atom type.
module Physics {
  import opened Common
  import opened Grid
  import opened Atoms

  /** Stone and Sand are the solid terrain. */
  predicate IsSolid(t: AtomType) {
    t == Stone || t == Sand
  }

  /** Which cells of a world are solid, position by position. */
  function SolidMask(s: seq<Atom>): (m: seq<bool>)
    ensures |m| == |s|
    ensures forall i :: 0 <= i < |s| ==> (m[i] <==> IsSolid(s[i].atomType))
  {
    seq(|s|, i requires 0 <= i < |s| => IsSolid(s[i].atomType))
  }

  type Pos = (int, int)

  /** The nine offsets the neighbour loops visit: dx outer, dy inner, the cell itself included. */
  const AllOffsets: seq<(int, int)> :=
    [(-1, -1), (-1, 0), (-1, 1), (0, -1), (0, 0), (0, 1), (1, -1), (1, 0), (1, 1)]

  /** The in-bounds, not yet visited neighbours at the offsets `offs`, in order: what the fill pushes. */
  function Unvisited(w: nat, h: nat, visited: seq<bool>, x: int, y: int, offs: seq<(int, int)>): (r: seq<Pos>)
    requires |visited| == w * h
    decreases |offs|
  {
    if offs == [] then []
    else
      var p := Unvisited(w, h, visited, x, y, offs[..|offs| - 1]);
      var o := offs[|offs| - 1];
      if InBounds(w, h, x + o.0, y + o.1) && !visited[At(w, h, x + o.0, y + o.1)] then p + [(x + o.0, y + o.1)]
      else p
  }

  /** Only in-bounds, unvisited cells at one of the offsets are pushed. */
  lemma {:induction false} UnvisitedCells(w: nat, h: nat, visited: seq<bool>, x: int, y: int, offs: seq<(int, int)>)
    requires |visited| == w * h
    ensures NoneVisited(w, h, visited, Unvisited(w, h, visited, x, y, offs))
    decreases |offs|
  {
    if offs != [] {
      UnvisitedCells(w, h, visited, x, y, offs[..|offs| - 1]);
    }
  }

  lemma UnvisitedStep(w: nat, h: nat, visited: seq<bool>, x: int, y: int, offs: seq<(int, int)>, n: nat)
    requires |visited| == w * h && n < |offs|
    ensures Unvisited(w, h, visited, x, y, offs[..n + 1]) ==
      Unvisited(w, h, visited, x, y, offs[..n]) +
        if InBounds(w, h, x + offs[n].0, y + offs[n].1) && !visited[At(w, h, x + offs[n].0, y + offs[n].1)]
        then [(x + offs[n].0, y + offs[n].1)] else []
  {
    assert offs[..n + 1][..n] == offs[..n];
  }

  /** A cell the fill visits again is never pushed: the cell itself is skipped once visited. */
  lemma UnvisitedSkipsVisited(w: nat, h: nat, visited: seq<bool>, x: int, y: int)
    requires |visited| == w * h && InBounds(w, h, x, y) && visited[At(w, h, x, y)]
    ensures (x, y) !in Unvisited(w, h, visited, x, y, AllOffsets)
  {
    UnvisitedCells(w, h, visited, x, y, AllOffsets);
  }

  /** No position occurs twice. */
  predicate Distinct(r: seq<Pos>) {
    forall i, j :: 0 <= i < j < |r| ==> r[i] != r[j]
  }

  /** No position occurs in both. */
  predicate Disjoint(a: seq<Pos>, b: seq<Pos>) {
    forall i, j :: 0 <= i < |a| && 0 <= j < |b| ==> a[i] != b[j]
  }

  /** Every cell of `r` is an in-bounds solid cell. */
  predicate AllSolid(w: nat, h: nat, solid: seq<bool>, r: seq<Pos>)
    requires |solid| == w * h
  {
    forall k :: 0 <= k < |r| ==> InBounds(w, h, r[k].0, r[k].1) && solid[At(w, h, r[k].0, r[k].1)]
  }

  /** Every cell of `r` is an in-bounds cell marked in `visited`. */
  predicate AllVisited(w: nat, h: nat, visited: seq<bool>, r: seq<Pos>)
    requires |visited| == w * h
  {
    forall k :: 0 <= k < |r| ==> InBounds(w, h, r[k].0, r[k].1) && visited[At(w, h, r[k].0, r[k].1)]
  }

  /** Every cell of `r` is an in-bounds cell not marked in `visited`. */
  predicate NoneVisited(w: nat, h: nat, visited: seq<bool>, r: seq<Pos>)
    requires |visited| == w * h
  {
    forall k :: 0 <= k < |r| ==> InBounds(w, h, r[k].0, r[k].1) && !visited[At(w, h, r[k].0, r[k].1)]
  }

  /** Visited marks are only ever added. */
  predicate Grows(before: seq<bool>, after: seq<bool>) {
    |before| == |after| && forall i :: 0 <= i < |before| && before[i] ==> after[i]
  }

  /** Cells already visited and cells not visited at the same moment are different cells. */
  lemma VisitedDisjoint(w: nat, h: nat, visited: seq<bool>, a: seq<Pos>, b: seq<Pos>)
    requires |visited| == w * h && AllVisited(w, h, visited, a) && NoneVisited(w, h, visited, b)
    ensures Disjoint(a, b)
  {
    forall i, j | 0 <= i < |a| && 0 <= j < |b|
      ensures a[i] != b[j]
    {
      assert visited[At(w, h, a[i].0, a[i].1)] && !visited[At(w, h, b[j].0, b[j].1)];
    }
  }

  lemma AllVisitedGrows(w: nat, h: nat, before: seq<bool>, after: seq<bool>, r: seq<Pos>)
    requires |before| == w * h && Grows(before, after) && AllVisited(w, h, before, r)
    ensures AllVisited(w, h, after, r)
  {
  }

  /** The flags that are still clear: the fill's measure of remaining work. */
  function Remaining(visited: seq<bool>): nat {
    Count(visited, false)
  }

  /** Marking a clear flag leaves one fewer to mark. */
  lemma MarkDecreases(visited: seq<bool>, i: nat)
    requires i < |visited| && !visited[i]
    ensures Remaining(visited[i := true]) == Remaining(visited) - 1
  {
    CountUpdate(visited, i, true, false);
  }

  lemma AllOffsetsAt(dx: int, dy: int)
    requires -1 <= dx <= 1 && -1 <= dy <= 1
    ensures AllOffsets[3 * (dx + 1) + (dy + 1)] == (dx, dy)
  {
  }

  /** Pushes the in-bounds unvisited cells among the nine around (x, y); the visited array is left alone. */
  method PushNeighbours(w: nat, h: nat, visited: seq<bool>, x: int, y: int, stack: seq<Pos>) returns (r: seq<Pos>)
    requires |visited| == w * h
    ensures r == stack + Unvisited(w, h, visited, x, y, AllOffsets)
  {
    r := stack;
    ghost var n := 0;
    var dx := -1;
    while dx <= 1
      invariant -1 <= dx <= 2 && n == 3 * (dx + 1)
      invariant r == stack + Unvisited(w, h, visited, x, y, AllOffsets[..n])
    {
      var dy := -1;
      while dy <= 1
        invariant -1 <= dy <= 2 && n == 3 * (dx + 1) + (dy + 1)
        invariant r == stack + Unvisited(w, h, visited, x, y, AllOffsets[..n])
      {
        AllOffsetsAt(dx, dy);
        UnvisitedStep(w, h, visited, x, y, AllOffsets, n);
        ghost var u := Unvisited(w, h, visited, x, y, AllOffsets[..n]);
        var nx, ny := x + dx, y + dy;
        if 0 <= nx < w && 0 <= ny < h {
          var nidx := At(w, h, nx, ny);
          if !visited[nidx] {
            r := r + [(nx, ny)];
            assert r == stack + (u + [(nx, ny)]);
          }
        }
        n := n + 1;
        dy := dy + 1;
      }
      dx := dx + 1;
    }
    assert AllOffsets[..n] == AllOffsets;
  }

  /**
   * `flood_fill`: pops cells until the stack is empty; an unvisited popped
   * cell is marked, and when solid it joins the region and its unvisited
   * neighbours are pushed. The cells it adds are solid, distinct and were
   * unvisited when the fill began; visited marks are only added.
   */
  method FloodFill(w: nat, h: nat, solid: seq<bool>, sx: int, sy: int, visited: array<bool>, region0: seq<Pos>)
    returns (region: seq<Pos>)
    requires |solid| == w * h && visited.Length == w * h && InBounds(w, h, sx, sy)
    modifies visited
    ensures Grows(old(visited[..]), visited[..])
    ensures |region| >= |region0| && region[..|region0|] == region0
    ensures AllSolid(w, h, solid, region[|region0|..])
    ensures AllVisited(w, h, visited[..], region[|region0|..])
    ensures NoneVisited(w, h, old(visited[..]), region[|region0|..])
    ensures Distinct(region[|region0|..])
  {
    region := region0;
    var stack: seq<Pos> := [(sx, sy)];
    while |stack| > 0
      invariant forall k :: 0 <= k < |stack| ==> InBounds(w, h, stack[k].0, stack[k].1)
      invariant Grows(old(visited[..]), visited[..])
      invariant |region| >= |region0| && region[..|region0|] == region0
      invariant AllSolid(w, h, solid, region[|region0|..])
      invariant AllVisited(w, h, visited[..], region[|region0|..])
      invariant NoneVisited(w, h, old(visited[..]), region[|region0|..])
      invariant Distinct(region[|region0|..])
      decreases Remaining(visited[..]), |stack|
    {
      var (x, y) := stack[|stack| - 1];
      stack := stack[..|stack| - 1];
      var idx := At(w, h, x, y);
      if !visited[idx] {
        ghost var before := visited[..];
        MarkDecreases(before, idx);
        visited[idx] := true;
        assert visited[..] == before[idx := true];
        if solid[idx] {
          ghost var added := region[|region0|..];
          forall k | 0 <= k < |added|
            ensures added[k] != (x, y)
          {
            assert before[At(w, h, added[k].0, added[k].1)];
          }
          region := region + [(x, y)];
          assert region[|region0|..] == added + [(x, y)];
          var pushed := PushNeighbours(w, h, visited[..], x, y, stack);
          UnvisitedCells(w, h, visited[..], x, y, AllOffsets);
          stack := pushed;
        }
      }
    }
  }

  /** Pairwise disjoint regions. */
  predicate PairwiseDisjoint(rs: seq<seq<Pos>>) {
    forall i, j :: 0 <= i < j < |rs| ==> Disjoint(rs[i], rs[j])
  }

  /** What `find_solid_regions` promises of every region it returns. */
  predicate GoodRegion(w: nat, h: nat, solid: seq<bool>, r: seq<Pos>)
    requires |solid| == w * h
  {
    |r| >= 3 && AllSolid(w, h, solid, r) && Distinct(r)
  }

  /**
   * `find_solid_regions`: a row-major scan starting a fill at every
   * unvisited solid cell and keeping the regions of at least three cells.
   * The visited marks are shared by all fills, so the regions are disjoint.
   */
  method FindSolidRegions(w: nat, h: nat, solid: seq<bool>) returns (regions: seq<seq<Pos>>)
    requires |solid| == w * h
    ensures forall i :: 0 <= i < |regions| ==> GoodRegion(w, h, solid, regions[i])
    ensures PairwiseDisjoint(regions)
  {
    var visited := new bool[w * h](_ => false);
    regions := [];
    var y := 0;
    while y < h
      invariant 0 <= y <= h
      invariant forall i :: 0 <= i < |regions| ==> GoodRegion(w, h, solid, regions[i])
      invariant forall i :: 0 <= i < |regions| ==> AllVisited(w, h, visited[..], regions[i])
      invariant PairwiseDisjoint(regions)
    {
      var x := 0;
      while x < w
        invariant 0 <= x <= w
        invariant forall i :: 0 <= i < |regions| ==> GoodRegion(w, h, solid, regions[i])
        invariant forall i :: 0 <= i < |regions| ==> AllVisited(w, h, visited[..], regions[i])
        invariant PairwiseDisjoint(regions)
      {
        var idx := At(w, h, x, y);
        if !visited[idx] && solid[idx] {
          ghost var before := visited[..];
          var region := FloodFill(w, h, solid, x, y, visited, []);
          assert region[0..] == region;
          forall i | 0 <= i < |regions|
            ensures Disjoint(regions[i], region) && AllVisited(w, h, visited[..], regions[i])
          {
            VisitedDisjoint(w, h, before, regions[i], region);
            AllVisitedGrows(w, h, before, visited[..], regions[i]);
          }
          if |region| >= 3 {
            regions := regions + [region];
          }
        }
        x := x + 1;
      }
      y := y + 1;
    }
  }

  /** The terrain regions of the main crate's world. */
  method FindTerrainRegions(world: AtomWorld) returns (regions: seq<seq<Pos>>)
    requires world.Valid()
    ensures forall i :: 0 <= i < |regions| ==> |regions[i]| >= 3 && Distinct(regions[i])
    ensures forall i, k :: 0 <= i < |regions| && 0 <= k < |regions[i]| ==>
      InBounds(world.width, world.height, regions[i][k].0, regions[i][k].1) &&
      IsSolid(world.atoms[At(world.width, world.height, regions[i][k].0, regions[i][k].1)].atomType)
    ensures PairwiseDisjoint(regions)
  {
    var mask := SolidMask(world.atoms[..]);
    regions := FindSolidRegions(world.width, world.height, mask);
  }
}
