// Steam and poison chemistry: fire boils water into steam, acid and water
// mix into poison. Reacting atoms are consumed, so every atom takes part in
// at most one reaction per pass; the products are placed only into empty
// cells.
module BoilToil {
  import opened Common
  import opened Grid

  datatype Substance = Empty | Stone | Sand | Water | Acid | Fire | Steam | Poison

  function Density(s: Substance): real {
    match s
    case Empty => 0.0
    case Stone => 2.5
    case Sand => 1.6
    case Water => 1.0
    case Acid => 1.2
    case Fire => 0.1
    case Steam => 0.01
    case Poison => 1.1
  }

  predicate IsGas(s: Substance) { s == Steam }

  predicate IsFluid(s: Substance) { s == Water || s == Acid || s == Poison }

  /** The starting temperature of each substance. */
  function Temperature(s: Substance): real {
    match s
    case Acid => 25.0
    case Fire => 800.0
    case Steam => 150.0
    case Poison => 22.0
    case _ => 20.0
  }

  function BoilingPoint(s: Substance): real {
    match s
    case Water => 100.0
    case Acid => 120.0
    case _ => 1000.0
  }

  /** Only water and acid boil, water first. */
  lemma BoilingPoints(s: Substance)
    ensures BoilingPoint(s) < 1000.0 <==> s == Water || s == Acid
    ensures BoilingPoint(Water) < BoilingPoint(Acid) < BoilingPoint(s) || s == Water || s == Acid
  {
  }

  datatype ChemicalAtom = ChemicalAtom(substance: Substance, position: Vec2, velocity: Vec2,
                                       temperature: real, lifetime: Option<real>, mass: real)

  /** `ChemicalAtom::new`: at rest, at the substance's temperature and density, no lifetime. */
  function NewAtom(s: Substance, p: Vec2): (a: ChemicalAtom)
    ensures a.substance == s && a.position == p && a.velocity == Zero
    ensures a.temperature == Temperature(s) && a.lifetime.None? && a.mass == Density(s)
  {
    ChemicalAtom(s, p, Zero, Temperature(s), None, Density(s))
  }

  // ---------------------------------------------------------------------
  // One atom over time
  // ---------------------------------------------------------------------

  /** Steam cools by 50 degrees a second, never below 20, and condenses at 25; fire burns down from 10 s. */
  function ThermalEffects(a: ChemicalAtom, dt: real): (r: ChemicalAtom)
    ensures a.substance == Steam ==> r.temperature >= 20.0
    ensures a.substance == Steam && r.substance == Steam ==> r.temperature > 25.0
    ensures a.substance == Steam && r.substance != Steam ==>
      r == a.(substance := Water, temperature := 20.0, lifetime := None)
    ensures a.substance == Fire ==> r == a.(lifetime := Some(GetOr(a.lifetime, 10.0) - dt))
    ensures a.substance != Steam && a.substance != Fire ==> r == a
  {
    var a1 :=
      if a.substance == Steam then
        var t := MaxR(a.temperature - 50.0 * dt, 20.0);
        if t <= 25.0 then a.(substance := Water, temperature := 20.0, lifetime := None)
        else a.(temperature := t)
      else a;
    if a1.substance == Fire then a1.(lifetime := Some(GetOr(a1.lifetime, 10.0) - dt)) else a1
  }

  /**
   * `ChemicalAtom::update`: nothing for Empty; otherwise gravity (lift for
   * gas) and drag, movement clamped into the bounds, the lifetime countdown
   * that empties the atom at 0, and the thermal effects.
   */
  function UpdateAtom(a: ChemicalAtom, dt: real, bounds: Vec2): (r: ChemicalAtom)
    ensures a.substance == Empty ==> r == a
    ensures a.substance != Empty && bounds.x >= 1.0 && bounds.y >= 1.0 ==>
      0.0 <= r.position.x < bounds.x && 0.0 <= r.position.y < bounds.y
  {
    if a.substance == Empty then a
    else
      var gravity := if IsGas(a.substance) then Vec2(0.0, 10.0) else Vec2(0.0, -30.0);
      var drag := if IsGas(a.substance) then 0.95 else 0.98;
      var v := Scale(Add(a.velocity, Scale(gravity, dt)), drag);
      var p := Add(a.position, Scale(v, dt));
      var bounceX := Bounce(p.x, v.x, bounds.x);
      var bounceY := Bounce(p.y, v.y, bounds.y);
      var moved := a.(position := Vec2(bounceX.0, bounceY.0), velocity := Vec2(bounceX.1, bounceY.1));
      var aged :=
        match moved.lifetime
        case None => moved
        case Some(l) =>
          if l - dt <= 0.0 then moved.(lifetime := Some(l - dt), substance := Empty)
          else moved.(lifetime := Some(l - dt));
      ThermalEffects(aged, dt)
  }

  /** The cleanup of `update`: fire whose lifetime has run out (or is unset and treated as 1) disappears. */
  function Cleanup(a: ChemicalAtom): (r: ChemicalAtom)
    ensures r.substance == Fire ==> GetOr(r.lifetime, 1.0) > 0.0
    ensures r.substance != Empty ==> r == a
  {
    if a.substance == Fire && GetOr(a.lifetime, 1.0) <= 0.0 then a.(substance := Empty) else a
  }

  // ---------------------------------------------------------------------
  // Pairwise reactions
  // ---------------------------------------------------------------------

  /** `can_react_with`. */
  predicate CanReact(a: Substance, b: Substance) {
    match (a, b)
    case (Fire, Water) => true
    case (Water, Fire) => true
    case (Acid, Water) => true
    case (Water, Acid) => true
    case _ => false
  }

  /** Reactivity is symmetric and holds exactly for the pairs {Fire, Water} and {Acid, Water}. */
  lemma CanReactPairs(a: Substance, b: Substance)
    ensures CanReact(a, b) == CanReact(b, a)
    ensures CanReact(a, b) <==> {a, b} == {Fire, Water} || {a, b} == {Acid, Water}
  {
    if {a, b} == {Fire, Water} || {a, b} == {Acid, Water} {
      assert Water in {a, b} && (Fire in {a, b} || Acid in {a, b});
    }
  }

  /** Nothing reacts with an empty cell. */
  lemma EmptyNeverReacts(a: Substance, b: Substance)
    requires a == Empty || b == Empty
    ensures !CanReact(a, b)
  {
  }

  /** The two random draws in [0, 1) for product k of the reaction of cell i with cell j. */
  type Draws = (nat, nat, nat) -> (real, real)

  function SteamVelocity(d: (real, real)): Vec2 {
    Vec2((d.0 - 0.5) * 20.0, d.1 * 30.0 + 10.0)
  }

  function PoisonVelocity(d: (real, real)): Vec2 {
    Vec2((d.0 - 0.5) * 15.0, (d.1 - 0.5) * 15.0)
  }

  /** One product atom: steam is hot, short-lived and rising; poison keeps the fluid's temperature. */
  function ProductAtom(s: Substance, p: Vec2, d: (real, real)): (a: ChemicalAtom)
    requires s == Steam || s == Poison
    ensures a.substance == s && a.position == p && a.mass == Density(s)
    ensures s == Steam ==> a.velocity == SteamVelocity(d) && a.lifetime == Some(5.0) && a.temperature == 150.0
    ensures s == Poison ==> a.velocity == PoisonVelocity(d) && a.lifetime.None? && a.temperature == 22.0
  {
    if s == Steam then NewAtom(Steam, p).(velocity := SteamVelocity(d), lifetime := Some(5.0), temperature := 150.0)
    else NewAtom(Poison, p).(velocity := PoisonVelocity(d), temperature := 22.0)
  }

  /** The first n products of substance s that the reaction of cells i and j releases at p. */
  function Products(s: Substance, p: Vec2, i: nat, j: nat, draws: Draws, n: nat): (r: seq<ChemicalAtom>)
    requires s == Steam || s == Poison
    ensures |r| == n
    ensures forall k :: 0 <= k < n ==> r[k] == ProductAtom(s, p, draws(i, j, k))
  {
    if n == 0 then [] else Products(s, p, i, j, draws, n - 1) + [ProductAtom(s, p, draws(i, j, n - 1))]
  }

  /** Both atoms after a reaction, and the products it releases. */
  datatype Reacted = Reacted(first: ChemicalAtom, second: ChemicalAtom, products: seq<ChemicalAtom>)

  predicate IsPair(a: Substance, b: Substance, p: Substance, q: Substance) {
    (a == p && b == q) || (a == q && b == p)
  }

  /** `react_with` of cell i's atom a with cell j's atom b. */
  function Reaction(a: ChemicalAtom, b: ChemicalAtom, i: nat, j: nat, draws: Draws): Reacted {
    if IsPair(a.substance, b.substance, Fire, Water) then
      Reacted(a.(substance := Empty), b.(substance := Empty), Products(Steam, a.position, i, j, draws, 3))
    else if IsPair(a.substance, b.substance, Acid, Water) then
      Reacted(a.(substance := Empty), b.(substance := Empty), Products(Poison, a.position, i, j, draws, 2))
    else Reacted(a, b, [])
  }

  /** Fire and water, in either order: both cells empty, three puffs of steam at the first atom. */
  lemma FireBoilsWater(a: ChemicalAtom, b: ChemicalAtom, i: nat, j: nat, draws: Draws)
    requires IsPair(a.substance, b.substance, Fire, Water)
    ensures var r := Reaction(a, b, i, j, draws);
      r.first == a.(substance := Empty) && r.second == b.(substance := Empty) && |r.products| == 3
    ensures forall k :: 0 <= k < |Reaction(a, b, i, j, draws).products| ==>
      var p := Reaction(a, b, i, j, draws).products[k];
      p.substance == Steam && p.position == a.position && p.lifetime == Some(5.0) && p.temperature == 150.0
  {
  }

  /** Acid and water, in either order: both cells empty, two drops of poison at the first atom. */
  lemma AcidPoisonsWater(a: ChemicalAtom, b: ChemicalAtom, i: nat, j: nat, draws: Draws)
    requires IsPair(a.substance, b.substance, Acid, Water)
    ensures var r := Reaction(a, b, i, j, draws);
      r.first == a.(substance := Empty) && r.second == b.(substance := Empty) && |r.products| == 2
    ensures forall k :: 0 <= k < |Reaction(a, b, i, j, draws).products| ==>
      var p := Reaction(a, b, i, j, draws).products[k];
      p.substance == Poison && p.position == a.position && p.lifetime.None? && p.temperature == 22.0
  {
  }

  /** Every pair that cannot react is left alone and releases nothing. */
  lemma UnreactivePairsInert(a: ChemicalAtom, b: ChemicalAtom, i: nat, j: nat, draws: Draws)
    requires !CanReact(a.substance, b.substance)
    ensures Reaction(a, b, i, j, draws) == Reacted(a, b, [])
  {
  }

  /** `react_with`, with the product loops of the source. */
  method React(a: ChemicalAtom, b: ChemicalAtom, i: nat, j: nat, draws: Draws) returns (r: Reacted)
    ensures r == Reaction(a, b, i, j, draws)
  {
    var products: seq<ChemicalAtom> := [];
    var first, second := a, b;
    if IsPair(a.substance, b.substance, Fire, Water) {
      for k := 0 to 3
        invariant products == Products(Steam, a.position, i, j, draws, k)
      {
        products := products + [ProductAtom(Steam, a.position, draws(i, j, k))];
      }
      first, second := a.(substance := Empty), b.(substance := Empty);
    } else if IsPair(a.substance, b.substance, Acid, Water) {
      for k := 0 to 2
        invariant products == Products(Poison, a.position, i, j, draws, k)
      {
        products := products + [ProductAtom(Poison, a.position, draws(i, j, k))];
      }
      first, second := a.(substance := Empty), b.(substance := Empty);
    }
    r := Reacted(first, second, products);
  }

  // ---------------------------------------------------------------------
  // The reaction scan
  // ---------------------------------------------------------------------

  /** The first n neighbours of cell (x, y), in loop order, that lie in bounds, as (idx, nidx) pairs. */
  function NeighbourPairs(w: nat, h: nat, x: int, y: int, n: nat): (r: seq<(nat, nat)>)
    requires InBounds(w, h, x, y) && n <= 8
    ensures forall k :: 0 <= k < |r| ==> r[k].0 == At(w, h, x, y) != r[k].1 && r[k].1 < w * h
  {
    if n == 0 then []
    else
      var o := Offsets8[n - 1];
      if InBounds(w, h, x + o.0, y + o.1) then
        NeighbourDiffers(w, h, x, y, n - 1);
        NeighbourPairs(w, h, x, y, n - 1) + [(At(w, h, x, y), At(w, h, x + o.0, y + o.1))]
      else NeighbourPairs(w, h, x, y, n - 1)
  }

  lemma NeighbourDiffers(w: nat, h: nat, x: int, y: int, j: nat)
    requires InBounds(w, h, x, y) && j < 8 && InBounds(w, h, x + Offsets8[j].0, y + Offsets8[j].1)
    ensures At(w, h, x, y) != At(w, h, x + Offsets8[j].0, y + Offsets8[j].1)
  {
    if At(w, h, x, y) == At(w, h, x + Offsets8[j].0, y + Offsets8[j].1) {
      IndexInjective(w, h, x, y, x + Offsets8[j].0, y + Offsets8[j].1);
    }
  }

  /** The pairs of the first x cells of row y. */
  function RowPairs(w: nat, h: nat, y: int, x: int): (r: seq<(nat, nat)>)
    requires 0 <= y < h && 0 <= x <= w
    ensures ValidPairs(w * h, r)
  {
    if x == 0 then [] else RowPairs(w, h, y, x - 1) + NeighbourPairs(w, h, x - 1, y, 8)
  }

  /** The pairs of the first y rows: the scan visits every in-bounds neighbour of every cell. */
  function ScanRows(w: nat, h: nat, y: int): (r: seq<(nat, nat)>)
    requires 0 <= y <= h
    ensures ValidPairs(w * h, r)
  {
    if y == 0 then [] else ScanRows(w, h, y - 1) + RowPairs(w, h, y - 1, w)
  }

  /** Two different cells of the world. */
  predicate ValidPairs(size: nat, ps: seq<(nat, nat)>) {
    forall k :: 0 <= k < |ps| ==> ps[k].0 < size && ps[k].1 < size && ps[k].0 != ps[k].1
  }

  /** The cells, the products gathered so far, and the pairs that reacted. */
  datatype Scan = Scan(cells: seq<ChemicalAtom>, products: seq<ChemicalAtom>, reacted: seq<(nat, nat)>)

  /** Cells i and j react when they can, as they stand. */
  function PairStep(s: Scan, i: nat, j: nat, draws: Draws): (r: Scan)
    requires i < |s.cells| && j < |s.cells| && i != j
    ensures |r.cells| == |s.cells|
  {
    if CanReact(s.cells[i].substance, s.cells[j].substance) then
      var re := Reaction(s.cells[i], s.cells[j], i, j, draws);
      Scan(s.cells[i := re.first][j := re.second], s.products + re.products, s.reacted + [(i, j)])
    else s
  }

  function ReactAll(st: Scan, ps: seq<(nat, nat)>, draws: Draws): (r: Scan)
    requires ValidPairs(|st.cells|, ps)
    ensures |r.cells| == |st.cells|
    decreases |ps|
  {
    if ps == [] then st
    else PairStep(ReactAll(st, ps[..|ps| - 1], draws), ps[|ps| - 1].0, ps[|ps| - 1].1, draws)
  }

  lemma {:induction false} ReactAllAppend(st: Scan, a: seq<(nat, nat)>, b: seq<(nat, nat)>, draws: Draws)
    requires ValidPairs(|st.cells|, a) && ValidPairs(|st.cells|, b)
    ensures ValidPairs(|st.cells|, a + b)
    ensures ReactAll(st, a + b, draws) == ReactAll(ReactAll(st, a, draws), b, draws)
    decreases |b|
  {
    if b != [] {
      var n := |b| - 1;
      assert (a + b)[..|a + b| - 1] == a + b[..n];
      ReactAllAppend(st, a, b[..n], draws);
    } else {
      assert a + b == a;
    }
  }

  /** Pairs all starting at an Empty cell change nothing. */
  lemma {:induction false} ReactAllFromEmpty(st: Scan, ps: seq<(nat, nat)>, i: nat, draws: Draws)
    requires ValidPairs(|st.cells|, ps) && i < |st.cells| && st.cells[i].substance == Empty
    requires forall k :: 0 <= k < |ps| ==> ps[k].0 == i
    ensures ReactAll(st, ps, draws) == st
    decreases |ps|
  {
    if ps != [] {
      ReactAllFromEmpty(st, ps[..|ps| - 1], i, draws);
      EmptyNeverReacts(Empty, st.cells[ps[|ps| - 1].1].substance);
    }
  }

  lemma NeighbourPairsStep(st: Scan, w: nat, h: nat, x: int, y: int, n: nat, draws: Draws)
    requires InBounds(w, h, x, y) && n < 8 && |st.cells| == w * h
    ensures InBounds(w, h, x + Offsets8[n].0, y + Offsets8[n].1) ==>
      ReactAll(st, NeighbourPairs(w, h, x, y, n + 1), draws) ==
        PairStep(ReactAll(st, NeighbourPairs(w, h, x, y, n), draws), At(w, h, x, y), At(w, h, x + Offsets8[n].0, y + Offsets8[n].1), draws)
    ensures !InBounds(w, h, x + Offsets8[n].0, y + Offsets8[n].1) ==>
      ReactAll(st, NeighbourPairs(w, h, x, y, n + 1), draws) == ReactAll(st, NeighbourPairs(w, h, x, y, n), draws)
  {
    var q := NeighbourPairs(w, h, x, y, n + 1);
    if InBounds(w, h, x + Offsets8[n].0, y + Offsets8[n].1) {
      assert q[..|q| - 1] == NeighbourPairs(w, h, x, y, n);
    }
  }

  // ---------------------------------------------------------------------
  // Each atom reacts at most once per pass
  // ---------------------------------------------------------------------

  /** No cell takes part in two of the reactions, and no reaction is of a cell with itself. */
  predicate Disjoint(rs: seq<(nat, nat)>) {
    (forall a :: 0 <= a < |rs| ==> rs[a].0 != rs[a].1) &&
    forall a, b :: 0 <= a < b < |rs| ==>
      rs[a].0 != rs[b].0 && rs[a].0 != rs[b].1 && rs[a].1 != rs[b].0 && rs[a].1 != rs[b].1
  }

  /** Every cell that reacted is now Empty. */
  predicate Consumed(cells: seq<ChemicalAtom>, rs: seq<(nat, nat)>) {
    forall a :: 0 <= a < |rs| ==>
      rs[a].0 < |cells| && rs[a].1 < |cells| && cells[rs[a].0].substance == Empty && cells[rs[a].1].substance == Empty
  }

  /** Two atoms that react both leave their cells empty. */
  lemma ReactionConsumes(a: ChemicalAtom, b: ChemicalAtom, i: nat, j: nat, draws: Draws)
    requires CanReact(a.substance, b.substance)
    ensures Reaction(a, b, i, j, draws).first.substance == Empty && Reaction(a, b, i, j, draws).second.substance == Empty
  {
  }

  lemma PairStepOnce(s: Scan, i: nat, j: nat, draws: Draws)
    requires i < |s.cells| && j < |s.cells| && i != j
    requires Disjoint(s.reacted) && Consumed(s.cells, s.reacted)
    ensures var r := PairStep(s, i, j, draws);
      Disjoint(r.reacted) && Consumed(r.cells, r.reacted) && s.reacted <= r.reacted
  {
    var r := PairStep(s, i, j, draws);
    if CanReact(s.cells[i].substance, s.cells[j].substance) {
      ReactionConsumes(s.cells[i], s.cells[j], i, j, draws);
      hide Reaction;
      assert s.cells[i].substance != Empty && s.cells[j].substance != Empty;
      assert r.reacted == s.reacted + [(i, j)];
      forall a | 0 <= a < |s.reacted|
        ensures s.reacted[a].0 != i && s.reacted[a].0 != j && s.reacted[a].1 != i && s.reacted[a].1 != j
      {
      }
      forall a | 0 <= a < |r.reacted|
        ensures r.cells[r.reacted[a].0].substance == Empty && r.cells[r.reacted[a].1].substance == Empty
      {
        if a < |s.reacted| {
          assert r.reacted[a] == s.reacted[a];
        }
      }
    }
  }

  /** Reacting cells are consumed, so over any sequence of pairs each cell reacts at most once. */
  lemma {:induction false} ReactAllOnce(st: Scan, ps: seq<(nat, nat)>, draws: Draws)
    requires ValidPairs(|st.cells|, ps)
    requires Disjoint(st.reacted) && Consumed(st.cells, st.reacted)
    ensures var r := ReactAll(st, ps, draws);
      Disjoint(r.reacted) && Consumed(r.cells, r.reacted) && st.reacted <= r.reacted
    decreases |ps|
  {
    if ps != [] {
      var n := |ps| - 1;
      ReactAllOnce(st, ps[..n], draws);
      PairStepOnce(ReactAll(st, ps[..n], draws), ps[n].0, ps[n].1, draws);
    }
  }

  /** Every reaction recorded in a whole pass is of two cells that could react, and the first of the pair takes the products' place. */
  lemma {:induction false} ReactAllReactions(st: Scan, ps: seq<(nat, nat)>, draws: Draws)
    requires ValidPairs(|st.cells|, ps)
    ensures var r := ReactAll(st, ps, draws);
      |r.reacted| - |st.reacted| <= |ps| && |st.products| <= |r.products| <= |st.products| + 3 * (|r.reacted| - |st.reacted|)
    decreases |ps|
  {
    if ps != [] {
      ReactAllReactions(st, ps[..|ps| - 1], draws);
    }
  }

  // ---------------------------------------------------------------------
  // Placing products
  // ---------------------------------------------------------------------

  /** The cell a position rounds to. */
  function CellOf(p: Vec2): (nat, nat) {
    (ToUsize(Round(p.x)), ToUsize(Round(p.y)))
  }

  /** Cell c lies in the world and holds nothing. */
  predicate Vacant(w: nat, h: nat, s: seq<ChemicalAtom>, c: (nat, nat))
    requires |s| == w * h
  {
    InBounds(w, h, c.0, c.1) && s[At(w, h, c.0, c.1)].substance == Empty
  }

  /** `add_atom_at_position` on the cell contents: only into an in-bounds Empty cell. */
  function AddAtom(w: nat, h: nat, s: seq<ChemicalAtom>, a: ChemicalAtom): (r: seq<ChemicalAtom>)
    requires |s| == w * h
    ensures |r| == |s|
    ensures Vacant(w, h, s, CellOf(a.position)) ==> r == s[At(w, h, CellOf(a.position).0, CellOf(a.position).1) := a]
    ensures !Vacant(w, h, s, CellOf(a.position)) ==> r == s
  {
    var (x, y) := CellOf(a.position);
    if x < w && y < h && s[At(w, h, x, y)].substance == Empty then s[At(w, h, x, y) := a] else s
  }

  function AddProducts(w: nat, h: nat, s: seq<ChemicalAtom>, ps: seq<ChemicalAtom>): (r: seq<ChemicalAtom>)
    requires |s| == w * h
    ensures |r| == |s|
    decreases |ps|
  {
    if ps == [] then s else AddAtom(w, h, AddProducts(w, h, s, ps[..|ps| - 1]), ps[|ps| - 1])
  }

  /** Placing products never overwrites anything: every changed cell was Empty and now holds a product. */
  lemma {:induction false} AddProductsOnlyEmpty(w: nat, h: nat, s: seq<ChemicalAtom>, ps: seq<ChemicalAtom>)
    requires |s| == w * h
    ensures forall i :: 0 <= i < |s| && AddProducts(w, h, s, ps)[i] != s[i] ==>
      s[i].substance == Empty && AddProducts(w, h, s, ps)[i] in ps
    decreases |ps|
  {
    if ps != [] {
      AddProductsOnlyEmpty(w, h, s, ps[..|ps| - 1]);
      var prev := AddProducts(w, h, s, ps[..|ps| - 1]);
      forall i | 0 <= i < |s| && AddProducts(w, h, s, ps)[i] != s[i]
        ensures s[i].substance == Empty && AddProducts(w, h, s, ps)[i] in ps
      {
        if prev[i] != s[i] {
          assert prev[i] in ps[..|ps| - 1];
          if AddProducts(w, h, s, ps)[i] != prev[i] {
            assert prev[i].substance == Empty;
          }
        }
      }
    }
  }

  /** One reaction pass over a whole world: the scan's reactions, then the products placed in order. */
  function Pass(w: nat, h: nat, s: seq<ChemicalAtom>, draws: Draws): (r: seq<ChemicalAtom>)
    requires |s| == w * h
    ensures |r| == |s|
  {
    var st := ReactAll(Scan(s, [], []), ScanRows(w, h, h), draws);
    AddProducts(w, h, st.cells, st.products)
  }

  /** In a whole pass, no atom takes part in two reactions. */
  lemma PassReactsOnce(w: nat, h: nat, s: seq<ChemicalAtom>, draws: Draws)
    requires |s| == w * h
    ensures Disjoint(ReactAll(Scan(s, [], []), ScanRows(w, h, h), draws).reacted)
  {
    ReactAllOnce(Scan(s, [], []), ScanRows(w, h, h), draws);
  }

  // ---------------------------------------------------------------------
  // The frame
  // ---------------------------------------------------------------------

  function UpdateAll(s: seq<ChemicalAtom>, dt: real, bounds: Vec2): (r: seq<ChemicalAtom>)
    ensures |r| == |s| && forall k :: 0 <= k < |s| ==> r[k] == UpdateAtom(s[k], dt, bounds)
  {
    seq(|s|, k requires 0 <= k < |s| => UpdateAtom(s[k], dt, bounds))
  }

  function CleanupAll(s: seq<ChemicalAtom>): (r: seq<ChemicalAtom>)
    ensures |r| == |s| && forall k :: 0 <= k < |s| ==> r[k] == Cleanup(s[k])
  {
    seq(|s|, k requires 0 <= k < |s| => Cleanup(s[k]))
  }

  /**
   * One frame: every atom's own step, a reaction pass when the 100 ms timer
   * has run down, and the removal of burnt-out fire. Returns the cells and
   * the new timer.
   */
  function WorldStep(w: nat, h: nat, s: seq<ChemicalAtom>, cooldown: real, dt: real, draws: Draws): (r: (seq<ChemicalAtom>, real))
    requires |s| == w * h
    ensures |r.0| == |s| && r.1 > 0.0
    ensures forall k :: 0 <= k < |s| && r.0[k].substance == Fire ==> GetOr(r.0[k].lifetime, 1.0) > 0.0
  {
    var moved := UpdateAll(s, dt, Vec2(w as real, h as real));
    var c := cooldown - dt;
    if c <= 0.0 then (CleanupAll(Pass(w, h, moved, draws)), 0.1) else (CleanupAll(moved), c)
  }

  /** The terrain of a new world: stone below row 8. */
  function Terrain(y: nat): Substance {
    if y < 8 then Stone else Empty
  }

  class ChemicalWorld {
    const width: nat
    const height: nat
    const atoms: array<ChemicalAtom>
    const bounds: Vec2
    var reactionCooldown: real

    ghost predicate Valid()
      reads this
    {
      atoms.Length == width * height && bounds == Vec2(width as real, height as real)
    }

    /** `ChemicalWorld::new`: one new atom per cell at its coordinates, stone in the bottom 8 rows. */
    constructor (w: nat, h: nat)
      ensures Valid() && width == w && height == h && reactionCooldown == 0.0 && fresh(atoms)
      ensures forall x, y :: InBounds(w, h, x, y) ==>
        atoms[At(w, h, x, y)] == NewAtom(Terrain(y), Vec2(x as real, y as real))
    {
      width, height := w, h;
      bounds := Vec2(w as real, h as real);
      reactionCooldown := 0.0;
      atoms := new ChemicalAtom[w * h](k =>
        if w == 0 || k < 0 then NewAtom(Empty, Zero)
        else NewAtom(Terrain(k / w), Vec2((k % w) as real, (k / w) as real)));
      new;
      forall x, y | InBounds(w, h, x, y)
        ensures atoms[At(w, h, x, y)] == NewAtom(Terrain(y), Vec2(x as real, y as real))
      {
        IndexDivMod(w, h, x, y);
      }
    }

    /** `ChemicalWorld::update`. */
    method Update(dt: real, draws: Draws)
      requires Valid()
      modifies this, atoms
      ensures Valid()
      ensures (atoms[..], reactionCooldown) == WorldStep(width, height, old(atoms[..]), old(reactionCooldown), dt, draws)
    {
      UpdateAtoms(dt);
      reactionCooldown := reactionCooldown - dt;
      if reactionCooldown <= 0.0 {
        ProcessReactions(draws);
        reactionCooldown := 0.1;
      }
      CleanupExpired();
    }

    method UpdateAtoms(dt: real)
      requires Valid()
      modifies atoms
      ensures atoms[..] == UpdateAll(old(atoms[..]), dt, bounds)
    {
      var i := 0;
      while i < atoms.Length
        invariant 0 <= i <= atoms.Length
        invariant forall k :: 0 <= k < i ==> atoms[k] == UpdateAtom(old(atoms[k]), dt, bounds)
        invariant forall k :: i <= k < atoms.Length ==> atoms[k] == old(atoms[k])
      {
        atoms[i] := UpdateAtom(atoms[i], dt, bounds);
        i := i + 1;
      }
    }

    /** The cleanup loop of `update`. */
    method CleanupExpired()
      requires Valid()
      modifies atoms
      ensures atoms[..] == CleanupAll(old(atoms[..]))
    {
      var i := 0;
      while i < atoms.Length
        invariant 0 <= i <= atoms.Length
        invariant forall k :: 0 <= k < i ==> atoms[k] == Cleanup(old(atoms[k]))
        invariant forall k :: i <= k < atoms.Length ==> atoms[k] == old(atoms[k])
      {
        if atoms[i].substance == Fire && GetOr(atoms[i].lifetime, 1.0) <= 0.0 {
          atoms[i] := atoms[i].(substance := Empty);
        }
        i := i + 1;
      }
    }

    /** `process_reactions`: every cell against every in-bounds neighbour, then the products placed in order. */
    method ProcessReactions(draws: Draws)
      requires Valid()
      modifies atoms
      ensures atoms[..] == Pass(width, height, old(atoms[..]), draws)
    {
      hide Reaction, PairStep;
      ghost var s0 := atoms[..];
      var products: seq<ChemicalAtom> := [];
      ghost var reacted: seq<(nat, nat)> := [];
      var y := 0;
      while y < height
        invariant 0 <= y <= height
        invariant Scan(atoms[..], products, reacted) == ReactAll(Scan(s0, [], []), ScanRows(width, height, y), draws)
      {
        products, reacted := ReactRow(s0, y, products, reacted, draws);
        y := y + 1;
      }
      ghost var cells := atoms[..];
      var k := 0;
      while k < |products|
        invariant 0 <= k <= |products|
        invariant atoms[..] == AddProducts(width, height, cells, products[..k])
      {
        assert products[..k + 1][..k] == products[..k];
        AddAtomAtPosition(products[k]);
        k := k + 1;
      }
      assert products[..k] == products;
    }

    /** One row of the scan, left to right. */
    method ReactRow(ghost s0: seq<ChemicalAtom>, y: int, before: seq<ChemicalAtom>, ghost done: seq<(nat, nat)>, draws: Draws)
      returns (products: seq<ChemicalAtom>, ghost reacted: seq<(nat, nat)>)
      requires Valid() && |s0| == width * height && 0 <= y < height
      requires Scan(atoms[..], before, done) == ReactAll(Scan(s0, [], []), ScanRows(width, height, y), draws)
      modifies atoms
      ensures Scan(atoms[..], products, reacted) == ReactAll(Scan(s0, [], []), ScanRows(width, height, y + 1), draws)
    {
      hide Reaction, PairStep;
      ghost var st := Scan(atoms[..], before, done);
      products, reacted := before, done;
      var x := 0;
      while x < width
        invariant 0 <= x <= width
        invariant Scan(atoms[..], products, reacted) == ReactAll(st, RowPairs(width, height, y, x), draws)
      {
        products, reacted := ReactCellAt(st, x, y, products, reacted, draws);
        x := x + 1;
      }
      ReactAllAppend(Scan(s0, [], []), ScanRows(width, height, y), RowPairs(width, height, y, width), draws);
    }

    /** Cell (x, y) continues the scan of the cells before it in its row. */
    method ReactCellAt(ghost st: Scan, x: int, y: int, before: seq<ChemicalAtom>, ghost done: seq<(nat, nat)>, draws: Draws)
      returns (products: seq<ChemicalAtom>, ghost reacted: seq<(nat, nat)>)
      requires Valid() && |st.cells| == width * height && 0 <= x < width && 0 <= y < height
      requires Scan(atoms[..], before, done) == ReactAll(st, RowPairs(width, height, y, x), draws)
      modifies atoms
      ensures Scan(atoms[..], products, reacted) == ReactAll(st, RowPairs(width, height, y, x + 1), draws)
    {
      hide Reaction, PairStep;
      ReactAllAppend(st, RowPairs(width, height, y, x), NeighbourPairs(width, height, x, y, 8), draws);
      products, reacted := ReactCell(x, y, before, done, draws);
    }

    /** The neighbour loops of one cell: dy outer, dx inner, skipping (0, 0), and nothing for an Empty cell. */
    method ReactCell(x: int, y: int, before: seq<ChemicalAtom>, ghost done: seq<(nat, nat)>, draws: Draws)
      returns (products: seq<ChemicalAtom>, ghost reacted: seq<(nat, nat)>)
      requires Valid() && InBounds(width, height, x, y)
      modifies atoms
      ensures Scan(atoms[..], products, reacted) == ReactAll(Scan(old(atoms[..]), before, done), NeighbourPairs(width, height, x, y, 8), draws)
    {
      hide Reaction, PairStep;
      products, reacted := before, done;
      ghost var st := Scan(atoms[..], before, done);
      var idx := At(width, height, x, y);
      if atoms[idx].substance == Empty {
        ReactAllFromEmpty(st, NeighbourPairs(width, height, x, y, 8), idx, draws);
        return;
      }
      products, reacted := ReactNeighbours(x, y, before, done, draws);
    }

    /** The dy and dx loops over the neighbours of cell (x, y). */
    method ReactNeighbours(x: int, y: int, before: seq<ChemicalAtom>, ghost done: seq<(nat, nat)>, draws: Draws)
      returns (products: seq<ChemicalAtom>, ghost reacted: seq<(nat, nat)>)
      requires Valid() && InBounds(width, height, x, y)
      modifies atoms
      ensures Scan(atoms[..], products, reacted) == ReactAll(Scan(old(atoms[..]), before, done), NeighbourPairs(width, height, x, y, 8), draws)
    {
      products, reacted := before, done;
      ghost var st := Scan(atoms[..], before, done);
      assert NeighbourPairs(width, height, x, y, 0) == [];
      assert ReactAll(st, [], draws) == st;
      hide Reaction, PairStep, ReactAll, NeighbourPairs;
      var dy := -1;
      while dy <= 1
        invariant -1 <= dy <= 2
        invariant Scan(atoms[..], products, reacted) == ReactAll(st, NeighbourPairs(width, height, x, y, Slot8(-1, dy)), draws)
      {
        products, reacted := ReactNeighbourRow(st, x, y, dy, products, reacted, draws);
        dy := dy + 1;
      }
      assert Slot8(-1, 2) == 8;
    }

    /** The dx loop over row dy of the neighbours of cell (x, y). */
    method ReactNeighbourRow(ghost st: Scan, x: int, y: int, dy: int,
                             before: seq<ChemicalAtom>, ghost done: seq<(nat, nat)>, draws: Draws)
      returns (products: seq<ChemicalAtom>, ghost reacted: seq<(nat, nat)>)
      requires Valid() && InBounds(width, height, x, y) && |st.cells| == width * height && -1 <= dy <= 1
      requires Scan(atoms[..], before, done) == ReactAll(st, NeighbourPairs(width, height, x, y, Slot8(-1, dy)), draws)
      modifies atoms
      ensures Scan(atoms[..], products, reacted) == ReactAll(st, NeighbourPairs(width, height, x, y, Slot8(-1, dy + 1)), draws)
    {
      hide Reaction, PairStep, ReactAll, NeighbourPairs;
      products, reacted := before, done;
      var dx := -1;
      while dx <= 1
        invariant -1 <= dx <= 2
        invariant Scan(atoms[..], products, reacted) == ReactAll(st, NeighbourPairs(width, height, x, y, Slot8(dx, dy)), draws)
      {
        if dx == 0 && dy == 0 {
          assert Slot8(dx + 1, dy) == Slot8(dx, dy);
        } else {
          products, reacted := ReactNeighbourAt(st, x, y, dx, dy, Slot8(dx, dy), products, reacted, draws);
          assert Slot8(dx + 1, dy) == Slot8(dx, dy) + 1;
        }
        dx := dx + 1;
      }
      assert Slot8(dx, dy) == Slot8(-1, dy + 1);
    }

    /** Neighbour slot n of cell (x, y), at offset (dx, dy), continues the scan of the slots before it. */
    method ReactNeighbourAt(ghost st: Scan, x: int, y: int, dx: int, dy: int, ghost n: nat,
                            before: seq<ChemicalAtom>, ghost done: seq<(nat, nat)>, draws: Draws)
      returns (products: seq<ChemicalAtom>, ghost reacted: seq<(nat, nat)>)
      requires Valid() && InBounds(width, height, x, y) && |st.cells| == width * height
      requires !(dx == 0 && dy == 0) && -1 <= dx <= 1 && -1 <= dy <= 1 && n == Slot8(dx, dy)
      requires Scan(atoms[..], before, done) == ReactAll(st, NeighbourPairs(width, height, x, y, n), draws)
      modifies atoms
      ensures n < 8 && Scan(atoms[..], products, reacted) == ReactAll(st, NeighbourPairs(width, height, x, y, n + 1), draws)
    {
      hide Reaction, PairStep;
      Slot8Is(dx, dy);
      NeighbourPairsStep(st, width, height, x, y, n, draws);
      products, reacted := ReactNeighbour(x, y, dx, dy, before, done, draws);
    }

    /** The body of the neighbour loop for offset (dx, dy) of cell (x, y). */
    method ReactNeighbour(x: int, y: int, dx: int, dy: int, before: seq<ChemicalAtom>, ghost done: seq<(nat, nat)>, draws: Draws)
      returns (products: seq<ChemicalAtom>, ghost reacted: seq<(nat, nat)>)
      requires Valid() && InBounds(width, height, x, y) && !(dx == 0 && dy == 0) && -1 <= dx <= 1 && -1 <= dy <= 1
      modifies atoms
      ensures InBounds(width, height, x + dx, y + dy) ==>
        At(width, height, x, y) != At(width, height, x + dx, y + dy) &&
        Scan(atoms[..], products, reacted) == PairStep(Scan(old(atoms[..]), before, done), At(width, height, x, y), At(width, height, x + dx, y + dy), draws)
      ensures !InBounds(width, height, x + dx, y + dy) ==> Scan(atoms[..], products, reacted) == Scan(old(atoms[..]), before, done)
    {
      products, reacted := before, done;
      var idx := At(width, height, x, y);
      var nx, ny := x + dx, y + dy;
      if 0 <= nx < width && 0 <= ny < height {
        var nidx := At(width, height, nx, ny);
        Slot8Is(dx, dy);
        NeighbourDiffers(width, height, x, y, Slot8(dx, dy));
        if CanReact(atoms[idx].substance, atoms[nidx].substance) {
          var r := React(atoms[idx], atoms[nidx], idx, nidx, draws);
          atoms[idx] := r.first;
          atoms[nidx] := r.second;
          products := products + r.products;
          reacted := reacted + [(idx, nidx)];
        }
      }
    }

    /** `add_atom_at_position`. */
    method AddAtomAtPosition(a: ChemicalAtom)
      requires Valid()
      modifies atoms
      ensures atoms[..] == AddAtom(width, height, old(atoms[..]), a)
    {
      var x := ToUsize(Round(a.position.x));
      var y := ToUsize(Round(a.position.y));
      if x < width && y < height {
        var idx := At(width, height, x, y);
        if atoms[idx].substance == Empty {
          atoms[idx] := a;
        }
      }
    }
  }
}
