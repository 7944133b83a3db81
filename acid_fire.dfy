// Reactive elements: acid corrodes stone and dissolves sand, fire ignites
// sand and is put out by water, and burnt-out atoms turn into smoke or
// water. The world reacts neighbouring pairs in one scan, places the
// reaction products, and cleans up dead atoms.
module AcidFire {
  import opened Common
  import opened Grid

  datatype Element = Empty | Stone | Sand | Water | Acid | Fire | Smoke

  /** The starting temperature of each element. */
  function Temperature(e: Element): real {
    match e
    case Acid => 25.0
    case Fire => 800.0
    case Smoke => 100.0
    case _ => 20.0
  }

  function Flammability(e: Element): real {
    match e
    case Sand => 0.1
    case Fire => 1.0
    case _ => 0.0
  }

  predicate Corrosive(e: Element) { e == Acid }

  predicate Burns(e: Element) { e == Fire }

  /** `can_burn`: the element has some flammability. */
  predicate CanBurn(e: Element) { Flammability(e) > 0.0 }

  lemma CanBurnExactly(e: Element)
    ensures CanBurn(e) <==> e == Sand || e == Fire
  {
  }

  datatype ReactiveAtom = ReactiveAtom(element: Element, position: Vec2, velocity: Vec2,
                                       temperature: real, health: real, lifetime: Option<real>)

  /** `ReactiveAtom::new`: at rest, at the element's temperature, full health, no lifetime. */
  function NewAtom(e: Element, p: Vec2): (a: ReactiveAtom)
    ensures a.element == e && a.position == p && a.velocity == Zero
    ensures a.temperature == Temperature(e) && a.health == 100.0 && a.lifetime.None?
  {
    ReactiveAtom(e, p, Zero, Temperature(e), 100.0, None)
  }

  // ---------------------------------------------------------------------
  // One atom over time
  // ---------------------------------------------------------------------

  /** Fire consumes itself and burns out to smoke; acid weakens and turns to water. */
  function TemperatureEffects(a: ReactiveAtom, dt: real): (r: ReactiveAtom)
    ensures a.element !in {Fire, Acid} ==> r == a
  {
    var a1 :=
      if a.element == Fire then
        var h := a.health - 20.0 * dt;
        if h <= 0.0 then a.(health := h, element := Smoke, lifetime := Some(3.0), temperature := 100.0)
        else a.(health := h)
      else a;
    if a1.element == Acid then
      var h := a1.health - 5.0 * dt;
      if h <= 0.0 then a1.(health := h, element := Water) else a1.(health := h)
    else a1
  }

  /**
   * `ReactiveAtom::update`: nothing for Empty; otherwise gravity (or lift
   * for smoke), 2% drag, movement clamped into the bounds, the lifetime
   * countdown that empties the atom at 0, and the temperature effects.
   */
  function UpdateAtom(a: ReactiveAtom, dt: real, bounds: Vec2): (r: ReactiveAtom)
    ensures a.element == Empty ==> r == a
    ensures a.element != Empty && bounds.x >= 1.0 && bounds.y >= 1.0 ==>
      0.0 <= r.position.x < bounds.x && 0.0 <= r.position.y < bounds.y
    ensures a.element != Empty && a.lifetime.Some? ==> r.lifetime.Some?
  {
    if a.element == Empty then a
    else
      var vy := if a.element != Smoke then a.velocity.y - 30.0 * dt else a.velocity.y;
      var vy1 := if a.element == Smoke then vy + 10.0 * dt else vy;
      var v := Scale(Vec2(a.velocity.x, vy1), 0.98);
      var p := Add(a.position, Scale(v, dt));
      var bounceX := Bounce(p.x, v.x, bounds.x);
      var bounceY := Bounce(p.y, v.y, bounds.y);
      var moved := a.(position := Vec2(bounceX.0, bounceY.0), velocity := Vec2(bounceX.1, bounceY.1));
      var aged :=
        match moved.lifetime
        case None => moved
        case Some(l) =>
          if l - dt <= 0.0 then moved.(lifetime := Some(l - dt), element := Empty)
          else moved.(lifetime := Some(l - dt));
      TemperatureEffects(aged, dt)
  }

  // ---------------------------------------------------------------------
  // Pairwise reactions
  // ---------------------------------------------------------------------

  datatype ReactionProduct = ReactionProduct(element: Element, position: Vec2, velocity: Vec2, lifetime: Option<real>)

  /** Both atoms after a reaction, and the products it releases. */
  datatype Reacted = Reacted(first: ReactiveAtom, second: ReactiveAtom, products: seq<ReactionProduct>)

  function Midpoint(a: Vec2, b: Vec2): Vec2 {
    Vec2((a.x + b.x) / 2.0, (a.y + b.y) / 2.0)
  }

  /** The smoke a fire and a water atom release, halfway between them and rising. */
  function SteamSmoke(a: ReactiveAtom, b: ReactiveAtom): ReactionProduct {
    ReactionProduct(Smoke, Midpoint(a.position, b.position), Vec2(0.0, 20.0), Some(2.0))
  }

  function Extinguish(a: ReactiveAtom): ReactiveAtom {
    if a.element == Fire then a.(element := Empty) else a
  }

  /** Acid against stone: stone loses 15 health per second and crumbles to sand with 50 health; acid loses 10. */
  function Corrode(a: ReactiveAtom, dt: real): ReactiveAtom {
    var a1 :=
      if a.element == Stone then
        var h := a.health - 15.0 * dt;
        if h <= 0.0 then a.(element := Sand, health := 50.0) else a.(health := h)
      else a;
    if a1.element == Acid then a1.(health := a1.health - 10.0 * dt) else a1
  }

  /** Sand catching fire. */
  function Ignite(a: ReactiveAtom): ReactiveAtom {
    if a.element == Sand then a.(element := Fire, temperature := 600.0, lifetime := Some(5.0)) else a
  }

  /** Acid against sand: sand loses 25 health per second and vanishes at 0. */
  function Dissolve(a: ReactiveAtom, dt: real): ReactiveAtom {
    if a.element == Sand then
      var h := a.health - 25.0 * dt;
      if h <= 0.0 then a.(health := h, element := Empty) else a.(health := h)
    else a
  }

  predicate IsPair(a: Element, b: Element, p: Element, q: Element) {
    (a == p && b == q) || (a == q && b == p)
  }

  /**
   * `react_with`. `roll` is the random draw that decides whether sand
   * catches fire this frame (it must fall below 6 dt).
   */
  function ReactWith(a: ReactiveAtom, b: ReactiveAtom, dt: real, roll: real): (r: Reacted)
    ensures |r.products| <= 1
    ensures r.first.position == a.position && r.second.position == b.position
  {
    var e, f := a.element, b.element;
    if IsPair(e, f, Fire, Water) then
      Reacted(Extinguish(a), Extinguish(b), [SteamSmoke(a, b)])
    else if IsPair(e, f, Acid, Stone) then
      Reacted(Corrode(a, dt), Corrode(b, dt), [])
    else if IsPair(e, f, Fire, Sand) then
      if roll < 0.1 * dt * 60.0 then Reacted(Ignite(a), Ignite(b), []) else Reacted(a, b, [])
    else if IsPair(e, f, Acid, Sand) then
      Reacted(Dissolve(a, dt), Dissolve(b, dt), [])
    else Reacted(a, b, [])
  }

  /** Reacting b with a mirrors reacting a with b. */
  lemma ReactSymmetric(a: ReactiveAtom, b: ReactiveAtom, dt: real, roll: real)
    ensures var r := ReactWith(a, b, dt, roll);
      ReactWith(b, a, dt, roll) == Reacted(r.second, r.first, r.products)
  {
    assert Midpoint(a.position, b.position) == Midpoint(b.position, a.position);
  }

  /** Fire meeting water: the fire goes out, the water is untouched, and one smoke puff appears between them. */
  lemma FireMeetsWater(fire: ReactiveAtom, water: ReactiveAtom, dt: real, roll: real)
    requires fire.element == Fire && water.element == Water
    ensures var r := ReactWith(fire, water, dt, roll);
      r.first == fire.(element := Empty) && r.second == water &&
      r.products == [ReactionProduct(Smoke, Midpoint(fire.position, water.position), Vec2(0.0, 20.0), Some(2.0))]
  {
  }

  /** Acid meeting stone: the stone wears down and crumbles to sand at 0; the acid loses 10 health per second. */
  lemma AcidMeetsStone(acid: ReactiveAtom, stone: ReactiveAtom, dt: real, roll: real)
    requires acid.element == Acid && stone.element == Stone
    ensures var r := ReactWith(acid, stone, dt, roll);
      r.first == acid.(health := acid.health - 10.0 * dt) && r.products == [] &&
      r.second == if stone.health - 15.0 * dt <= 0.0 then stone.(element := Sand, health := 50.0)
                  else stone.(health := stone.health - 15.0 * dt)
  {
  }

  /** Acid meeting sand: the sand wears down and vanishes at 0; the acid is untouched. */
  lemma AcidMeetsSand(acid: ReactiveAtom, sand: ReactiveAtom, dt: real, roll: real)
    requires acid.element == Acid && sand.element == Sand
    ensures var r := ReactWith(acid, sand, dt, roll);
      var h := sand.health - 25.0 * dt;
      r.first == acid && r.products == [] &&
      r.second == if h <= 0.0 then sand.(health := h, element := Empty) else sand.(health := h)
  {
  }

  /** Fire meeting sand: the sand ignites exactly when the roll falls below 6 dt. */
  lemma FireMeetsSand(fire: ReactiveAtom, sand: ReactiveAtom, dt: real, roll: real)
    requires fire.element == Fire && sand.element == Sand
    ensures var r := ReactWith(fire, sand, dt, roll);
      r.first == fire && r.products == [] &&
      r.second == if roll < 6.0 * dt then sand.(element := Fire, temperature := 600.0, lifetime := Some(5.0)) else sand
  {
  }

  /** Every other pair, including any pair with an Empty cell, reacts not at all. */
  lemma UnlistedPairsInert(a: ReactiveAtom, b: ReactiveAtom, dt: real, roll: real)
    requires !IsPair(a.element, b.element, Fire, Water) && !IsPair(a.element, b.element, Acid, Stone)
    requires !IsPair(a.element, b.element, Fire, Sand) && !IsPair(a.element, b.element, Acid, Sand)
    ensures ReactWith(a, b, dt, roll) == Reacted(a, b, [])
  {
  }

  lemma EmptyInert(a: ReactiveAtom, b: ReactiveAtom, dt: real, roll: real)
    requires a.element == Empty || b.element == Empty
    ensures ReactWith(a, b, dt, roll) == Reacted(a, b, [])
  {
    UnlistedPairsInert(a, b, dt, roll);
  }


  // ---------------------------------------------------------------------
  // The reaction scan
  // ---------------------------------------------------------------------

  /** The random draw for the pair of cells (i, j). */
  type Rolls = (nat, nat) -> real

  /**
   * The pairs (idx, nidx) the scan of cell (x, y) reacts over the first k
   * neighbour offsets: in-bounds neighbours with a larger index.
   */
  function CellPairs(w: nat, h: nat, x: int, y: int, k: nat): (r: seq<(nat, nat)>)
    requires InBounds(w, h, x, y) && k <= 8
    ensures forall i :: 0 <= i < |r| ==> r[i].0 == At(w, h, x, y) < r[i].1 < w * h
  {
    if k == 0 then []
    else
      var p := CellPairs(w, h, x, y, k - 1);
      var o := Offsets8[k - 1];
      if Later(w, h, x, y, o.0, o.1) then p + [(At(w, h, x, y), At(w, h, x + o.0, y + o.1))] else p
  }

  /** The pairs of the first n cells in row-major order. */
  function ScanPairs(w: nat, h: nat, n: nat): (r: seq<(nat, nat)>)
    requires n <= w * h
    ensures forall k :: 0 <= k < |r| ==> r[k].0 < n && r[k].0 < r[k].1 < w * h
  {
    if n == 0 then []
    else
      var c := PositionOf(w, h, n - 1);
      ScanPairs(w, h, n - 1) + CellPairs(w, h, c.0, c.1, 8)
  }

  predicate ValidPairs(size: nat, ps: seq<(nat, nat)>) {
    forall k :: 0 <= k < |ps| ==> ps[k].0 < ps[k].1 < size
  }

  /** The world cells and the products gathered so far. */
  datatype Scan = Scan(cells: seq<ReactiveAtom>, products: seq<ReactionProduct>)

  /** React cells i and j as they stand, and collect the products. */
  function PairStep(s: Scan, i: nat, j: nat, dt: real, roll: Rolls): (r: Scan)
    requires i < j < |s.cells|
    ensures |r.cells| == |s.cells|
  {
    var re := ReactWith(s.cells[i], s.cells[j], dt, roll(i, j));
    Scan(s.cells[i := re.first][j := re.second], s.products + re.products)
  }

  /** A pair with an Empty side changes nothing. */
  lemma PairStepEmpty(s: Scan, i: nat, j: nat, dt: real, roll: Rolls)
    requires i < j < |s.cells| && (s.cells[i].element == Empty || s.cells[j].element == Empty)
    ensures PairStep(s, i, j, dt, roll) == s
  {
    EmptyInert(s.cells[i], s.cells[j], dt, roll(i, j));
    assert s.cells[i := s.cells[i]][j := s.cells[j]] == s.cells;
  }

  /** React the pairs in order, each against the cells as the earlier reactions left them. */
  function ReactAll(st: Scan, ps: seq<(nat, nat)>, dt: real, roll: Rolls): (r: Scan)
    requires ValidPairs(|st.cells|, ps)
    ensures |r.cells| == |st.cells|
    decreases |ps|
  {
    if ps == [] then st
    else PairStep(ReactAll(st, ps[..|ps| - 1], dt, roll), ps[|ps| - 1].0, ps[|ps| - 1].1, dt, roll)
  }

  lemma {:induction false} ReactAllAppend(st: Scan, a: seq<(nat, nat)>, b: seq<(nat, nat)>, dt: real, roll: Rolls)
    requires ValidPairs(|st.cells|, a) && ValidPairs(|st.cells|, b)
    ensures ValidPairs(|st.cells|, a + b)
    ensures ReactAll(st, a + b, dt, roll) == ReactAll(ReactAll(st, a, dt, roll), b, dt, roll)
    decreases |b|
  {
    if b != [] {
      var n := |b| - 1;
      assert (a + b)[..|a + b| - 1] == a + b[..n];
      ReactAllAppend(st, a, b[..n], dt, roll);
    } else {
      assert a + b == a;
    }
  }

  /** Pairs all starting at a cell that is Empty change nothing: reactions with Empty are inert. */
  lemma {:induction false} ReactAllFromEmpty(st: Scan, ps: seq<(nat, nat)>, i: nat, dt: real, roll: Rolls)
    requires ValidPairs(|st.cells|, ps) && i < |st.cells| && st.cells[i].element == Empty
    requires forall k :: 0 <= k < |ps| ==> ps[k].0 == i
    ensures ReactAll(st, ps, dt, roll) == st
    decreases |ps|
  {
    if ps != [] {
      ReactAllFromEmpty(st, ps[..|ps| - 1], i, dt, roll);
      PairStepEmpty(st, ps[|ps| - 1].0, ps[|ps| - 1].1, dt, roll);
    }
  }

  /** (x + dx, y + dy) is in bounds and comes after (x, y) in row-major order. */
  predicate Later(w: nat, h: nat, x: int, y: int, dx: int, dy: int) {
    InBounds(w, h, x, y) && InBounds(w, h, x + dx, y + dy) && At(w, h, x, y) < At(w, h, x + dx, y + dy)
  }

  /** One more offset (dx, dy) of a cell's neighbour loop reacts that neighbour, if it is in bounds and later. */
  lemma CellPairsStep(st: Scan, w: nat, h: nat, x: int, y: int, n: nat, dx: int, dy: int, dt: real, roll: Rolls)
    requires InBounds(w, h, x, y) && n < 8 && Offsets8[n] == (dx, dy) && |st.cells| == w * h
    ensures Later(w, h, x, y, dx, dy) ==>
      ReactAll(st, CellPairs(w, h, x, y, n + 1), dt, roll) ==
        PairStep(ReactAll(st, CellPairs(w, h, x, y, n), dt, roll), At(w, h, x, y), At(w, h, x + dx, y + dy), dt, roll)
    ensures !Later(w, h, x, y, dx, dy) ==>
      ReactAll(st, CellPairs(w, h, x, y, n + 1), dt, roll) == ReactAll(st, CellPairs(w, h, x, y, n), dt, roll)
  {
    var p := CellPairs(w, h, x, y, n);
    var q := CellPairs(w, h, x, y, n + 1);
    if Later(w, h, x, y, dx, dy) {
      assert q == p + [(At(w, h, x, y), At(w, h, x + dx, y + dy))];
      assert q[..|q| - 1] == p;
    } else {
      assert q == p;
    }
  }

  lemma ScanPairsStep(w: nat, h: nat, x: int, y: int)
    requires InBounds(w, h, x, y)
    ensures ScanPairs(w, h, At(w, h, x, y) + 1) == ScanPairs(w, h, At(w, h, x, y)) + CellPairs(w, h, x, y, 8)
  {
    var p := PositionOf(w, h, At(w, h, x, y));
    IndexInjective(w, h, x, y, p.0, p.1);
  }

  /** The pairs of the first x cells of row y. */
  function RowPairs(w: nat, h: nat, y: int, x: int): (r: seq<(nat, nat)>)
    requires 0 <= y < h && 0 <= x <= w
    ensures ValidPairs(w * h, r)
  {
    if x == 0 then [] else RowPairs(w, h, y, x - 1) + CellPairs(w, h, x - 1, y, 8)
  }

  /** The pairs of the first y rows. */
  function ScanRows(w: nat, h: nat, y: int): (r: seq<(nat, nat)>)
    requires 0 <= y <= h
    ensures ValidPairs(w * h, r)
  {
    if y == 0 then [] else ScanRows(w, h, y - 1) + RowPairs(w, h, y - 1, w)
  }

  lemma {:induction false} RowPairsScan(w: nat, h: nat, y: int, x: int, m: nat)
    requires 0 <= y < h && 0 <= x <= w && m == y * w
    ensures m + x <= w * h
    ensures ScanPairs(w, h, m + x) == ScanPairs(w, h, m) + RowPairs(w, h, y, x)
  {
    hide CellPairs, PositionOf, ScanPairs, Index;
    MulMono(y + 1, h, w);
    if x > 0 {
      RowPairsScan(w, h, y, x - 1, m);
      RowStart(w, h, x - 1, y);
      var n := At(w, h, x - 1, y);
      ScanPairsStep(w, h, x - 1, y);
      assert n + 1 == m + x;
      var a, b, c := ScanPairs(w, h, m), RowPairs(w, h, y, x - 1), CellPairs(w, h, x - 1, y, 8);
      assert ScanPairs(w, h, n) == a + b;
      assert ScanPairs(w, h, m + x) == (a + b) + c;
      assert RowPairs(w, h, y, x) == b + c;
      ConcatAssoc(a, b, c);
    } else {
      assert m + x == m;
      assert ScanPairs(w, h, m) + [] == ScanPairs(w, h, m);
    }
  }

  /** The row-by-row scan is the row-major scan. */
  lemma {:induction false} ScanRowsScan(w: nat, h: nat, y: int, m: nat)
    requires 0 <= y <= h && m == y * w
    ensures m <= w * h && ScanRows(w, h, y) == ScanPairs(w, h, m)
  {
    MulMono(y, h, w);
    if y > 0 {
      var m' := (y - 1) * w;
      ScanRowsScan(w, h, y - 1, m');
      RowPairsScan(w, h, y - 1, w, m');
      assert m' + w == m;
    }
  }

  lemma WholeScan(w: nat, h: nat)
    ensures ScanRows(w, h, h) == ScanPairs(w, h, w * h)
  {
    ScanRowsScan(w, h, h, h * w);
  }

  /** One reaction pass over a whole world: the scan's reactions, then the products placed in order. */
  function Pass(w: nat, h: nat, s: seq<ReactiveAtom>, dt: real, roll: Rolls): (r: seq<ReactiveAtom>)
    requires |s| == w * h
    ensures |r| == |s|
  {
    var st := ReactAll(Scan(s, []), ScanPairs(w, h, w * h), dt, roll);
    AddProducts(w, h, st.cells, st.products)
  }

  // ---------------------------------------------------------------------
  // Properties of the scan order
  // ---------------------------------------------------------------------

  /** Neighbour j of (x, y) is in bounds and has index t. */
  predicate Hit(w: nat, h: nat, x: int, y: int, j: int, t: nat) {
    0 <= j < 8 && InBounds(w, h, x + Offsets8[j].0, y + Offsets8[j].1) && t == At(w, h, x + Offsets8[j].0, y + Offsets8[j].1)
  }

  /** Some neighbour among the first k offsets of (x, y) has index t. */
  predicate Targets(w: nat, h: nat, x: int, y: int, k: nat, t: nat) {
    exists j :: 0 <= j < k && Hit(w, h, x, y, j, t)
  }

  predicate AllTargets(w: nat, h: nat, x: int, y: int, k: nat, r: seq<(nat, nat)>) {
    forall i :: 0 <= i < |r| ==> Targets(w, h, x, y, k, r[i].1)
  }

  /** Strictly increasing second components. */
  predicate Ascending(r: seq<(nat, nat)>) {
    forall a, b :: 0 <= a < b < |r| ==> r[a].1 < r[b].1
  }

  predicate Increasing(ps: seq<(nat, nat)>) {
    forall a, b :: 0 <= a < b < |ps| ==> ps[a].0 < ps[b].0 || (ps[a].0 == ps[b].0 && ps[a].1 < ps[b].1)
  }

  /** Each pair of a cell goes to one of the offsets scanned so far. */
  lemma {:induction false} CellPairsTargets(w: nat, h: nat, x: int, y: int, k: nat)
    requires InBounds(w, h, x, y) && k <= 8
    ensures AllTargets(w, h, x, y, k, CellPairs(w, h, x, y, k))
  {
    if k > 0 {
      CellPairsTargets(w, h, x, y, k - 1);
      var r := CellPairs(w, h, x, y, k);
      var p := CellPairs(w, h, x, y, k - 1);
      forall i | 0 <= i < |r|
        ensures Targets(w, h, x, y, k, r[i].1)
      {
        if i < |p| {
          assert Targets(w, h, x, y, k - 1, p[i].1);
          var j :| 0 <= j < k - 1 && Hit(w, h, x, y, j, p[i].1);
          assert Hit(w, h, x, y, j, r[i].1);
        } else {
          assert Hit(w, h, x, y, k - 1, r[i].1);
        }
      }
    }
  }

  /** A neighbour among the first k - 1 offsets comes before the neighbour at offset k - 1. */
  lemma TargetsBefore(w: nat, h: nat, x: int, y: int, k: nat, t: nat)
    requires InBounds(w, h, x, y) && 0 < k <= 8 && Targets(w, h, x, y, k - 1, t)
    requires InBounds(w, h, x + Offsets8[k - 1].0, y + Offsets8[k - 1].1)
    ensures t < At(w, h, x + Offsets8[k - 1].0, y + Offsets8[k - 1].1)
  {
    hide At, Index;
    var j :| 0 <= j < k - 1 && Hit(w, h, x, y, j, t);
    OffsetsOrdered(j, k - 1);
    AtOrder(w, h, x + Offsets8[j].0, y + Offsets8[j].1, x + Offsets8[k - 1].0, y + Offsets8[k - 1].1);
  }

  /** A cell's pairs go to its neighbours in increasing index order. */
  lemma {:induction false} CellPairsIncreasing(w: nat, h: nat, x: int, y: int, k: nat)
    requires InBounds(w, h, x, y) && k <= 8
    ensures Ascending(CellPairs(w, h, x, y, k))
  {
    hide Targets, Hit, Index;
    if k > 0 {
      CellPairsIncreasing(w, h, x, y, k - 1);
      CellPairsTargets(w, h, x, y, k - 1);
      var r := CellPairs(w, h, x, y, k);
      var p := CellPairs(w, h, x, y, k - 1);
      var o := Offsets8[k - 1];
      if Later(w, h, x, y, o.0, o.1) {
        var t := At(w, h, x + o.0, y + o.1);
        assert r == p + [(At(w, h, x, y), t)];
        forall a | 0 <= a < |p|
          ensures r[a].1 < r[|p|].1
        {
          assert r[a] == p[a] && r[|p|].1 == t;
          TargetsBefore(w, h, x, y, k, p[a].1);
        }
      } else {
        assert r == p;
      }
    }
  }

  /** Every in-bounds neighbour with a larger index is among a cell's pairs. */
  lemma {:induction false} CellPairsComplete(w: nat, h: nat, x: int, y: int, k: nat, j: nat)
    requires InBounds(w, h, x, y) && j < k <= 8
    requires InBounds(w, h, x + Offsets8[j].0, y + Offsets8[j].1)
    requires At(w, h, x, y) < At(w, h, x + Offsets8[j].0, y + Offsets8[j].1)
    ensures (At(w, h, x, y), At(w, h, x + Offsets8[j].0, y + Offsets8[j].1)) in CellPairs(w, h, x, y, k)
  {
    if j < k - 1 {
      CellPairsComplete(w, h, x, y, k - 1, j);
    }
  }

  /** The scan visits its pairs in increasing order, so no pair is reacted twice. */
  lemma {:induction false} ScanPairsIncreasing(w: nat, h: nat, n: nat)
    requires n <= w * h
    ensures Increasing(ScanPairs(w, h, n))
  {
    if n > 0 {
      var c := n - 1;
      var pos := PositionOf(w, h, c);
      ScanPairsIncreasing(w, h, c);
      CellPairsIncreasing(w, h, pos.0, pos.1, 8);
      var p := ScanPairs(w, h, c);
      var q := CellPairs(w, h, pos.0, pos.1, 8);
      var r := ScanPairs(w, h, n);
      assert r == p + q;
      forall a, b | 0 <= a < b < |r|
        ensures r[a].0 < r[b].0 || (r[a].0 == r[b].0 && r[a].1 < r[b].1)
      {
        if b < |p| {
          assert r[a] == p[a] && r[b] == p[b];
        } else if a < |p| {
          assert r[a] == p[a] && r[b] == q[b - |p|];
        } else {
          assert r[a] == q[a - |p|] && r[b] == q[b - |p|];
        }
      }
    }
  }

  /** Every pair of adjacent in-bounds cells is in the scan, under the smaller index. */
  lemma {:induction false} ScanPairsComplete(w: nat, h: nat, n: nat, x1: int, y1: int, x2: int, y2: int)
    requires n <= w * h && InBounds(w, h, x1, y1) && InBounds(w, h, x2, y2) && Adjacent(x1, y1, x2, y2)
    requires At(w, h, x1, y1) < At(w, h, x2, y2) && At(w, h, x1, y1) < n
    ensures (At(w, h, x1, y1), At(w, h, x2, y2)) in ScanPairs(w, h, n)
  {
    hide CellPairs, PositionOf, Index;
    if At(w, h, x1, y1) == n - 1 {
      ScanPairsCompleteLast(w, h, x1, y1, x2, y2);
      ScanPairsStep(w, h, x1, y1);
      assert ScanPairs(w, h, n) == ScanPairs(w, h, n - 1) + CellPairs(w, h, x1, y1, 8);
    } else {
      ScanPairsComplete(w, h, n - 1, x1, y1, x2, y2);
    }
  }

  /** The pairs of a cell include each later neighbour. */
  lemma ScanPairsCompleteLast(w: nat, h: nat, x1: int, y1: int, x2: int, y2: int)
    requires InBounds(w, h, x1, y1) && InBounds(w, h, x2, y2) && Adjacent(x1, y1, x2, y2)
    requires At(w, h, x1, y1) < At(w, h, x2, y2)
    ensures (At(w, h, x1, y1), At(w, h, x2, y2)) in CellPairs(w, h, x1, y1, 8)
  {
    var j := Slot8(x2 - x1, y2 - y1);
    Slot8Is(x2 - x1, y2 - y1);
    CellPairsComplete(w, h, x1, y1, 8, j);
  }

  /** The pairs of the whole scan: each couple of neighbours exactly once, smaller index first. */
  lemma ScanPairsExactlyOnce(w: nat, h: nat)
    ensures Increasing(ScanPairs(w, h, w * h))
    ensures ValidPairs(w * h, ScanPairs(w, h, w * h))
    ensures forall x1, y1, x2, y2 ::
      InBounds(w, h, x1, y1) && InBounds(w, h, x2, y2) && Adjacent(x1, y1, x2, y2) &&
      At(w, h, x1, y1) < At(w, h, x2, y2) ==>
        (At(w, h, x1, y1), At(w, h, x2, y2)) in ScanPairs(w, h, w * h)
  {
    ScanPairsIncreasing(w, h, w * h);
    forall x1, y1, x2, y2 |
      InBounds(w, h, x1, y1) && InBounds(w, h, x2, y2) && Adjacent(x1, y1, x2, y2) &&
      At(w, h, x1, y1) < At(w, h, x2, y2)
      ensures (At(w, h, x1, y1), At(w, h, x2, y2)) in ScanPairs(w, h, w * h)
    {
      ScanPairsComplete(w, h, w * h, x1, y1, x2, y2);
    }
  }

  // ---------------------------------------------------------------------
  // Placing products and cleaning up
  // ---------------------------------------------------------------------

  /** The atom `add_atom_at_position` writes: fire at 700 degrees living 8 s, smoke at 100 degrees. */
  function PlacedAtom(e: Element, p: Vec2, v: Vec2, lifetime: Option<real>): (a: ReactiveAtom)
    ensures a.element == e && a.position == p && a.velocity == v && a.health == 100.0
    ensures e == Fire ==> a.temperature == 700.0 && a.lifetime == Some(8.0)
    ensures e == Smoke ==> a.temperature == 100.0 && a.lifetime == lifetime
    ensures e != Fire && e != Smoke ==> a.temperature == Temperature(e) && a.lifetime == lifetime
  {
    var a := NewAtom(e, p).(velocity := v, lifetime := lifetime);
    match e
    case Fire => a.(temperature := 700.0, lifetime := Some(8.0))
    case Smoke => a.(temperature := 100.0)
    case _ => a
  }

  /** The cell a position rounds to. */
  function CellOf(p: Vec2): (nat, nat) {
    (ToUsize(Round(p.x)), ToUsize(Round(p.y)))
  }

  /** Whether an element may be placed over what a cell holds: only into Empty, or fire into something burnable. */
  predicate MayReplace(e: Element, target: Element) {
    target == Empty || (e == Fire && CanBurn(target))
  }

  /** `add_atom_at_position` on the cell contents. */
  function AddAtom(w: nat, h: nat, s: seq<ReactiveAtom>, e: Element, p: Vec2, v: Vec2, lifetime: Option<real>): (r: seq<ReactiveAtom>)
    requires |s| == w * h
    ensures |r| == |s|
    ensures var (x, y) := CellOf(p);
      if InBounds(w, h, x, y) && MayReplace(e, s[At(w, h, x, y)].element)
      then r == s[At(w, h, x, y) := PlacedAtom(e, p, v, lifetime)]
      else r == s
  {
    var (x, y) := CellOf(p);
    if x < w && y < h && MayReplace(e, s[At(w, h, x, y)].element)
    then s[At(w, h, x, y) := PlacedAtom(e, p, v, lifetime)]
    else s
  }

  function AddProducts(w: nat, h: nat, s: seq<ReactiveAtom>, ps: seq<ReactionProduct>): (r: seq<ReactiveAtom>)
    requires |s| == w * h
    ensures |r| == |s|
    decreases |ps|
  {
    if ps == [] then s
    else
      var p := ps[|ps| - 1];
      AddAtom(w, h, AddProducts(w, h, s, ps[..|ps| - 1]), p.element, p.position, p.velocity, p.lifetime)
  }

  /** Placing products only ever fills Empty cells or sets burnable cells alight. */
  lemma {:induction false} AddProductsOnlyReplaces(w: nat, h: nat, s: seq<ReactiveAtom>, ps: seq<ReactionProduct>)
    requires |s| == w * h
    ensures var r := AddProducts(w, h, s, ps);
      forall i :: 0 <= i < |s| && r[i] != s[i] ==> s[i].element == Empty || CanBurn(s[i].element)
    decreases |ps|
  {
    if ps != [] {
      AddProductsOnlyReplaces(w, h, s, ps[..|ps| - 1]);
    }
  }

  /** The cleanup of dead atoms: burnt-out fire leaves smoke, spent acid water, anything else nothing. */
  function Cleanup(a: ReactiveAtom): (r: ReactiveAtom)
    ensures a.element == Empty || a.health > 0.0 ==> r == a
    ensures a.element != Empty && a.health <= 0.0 ==> r.health == a.health
  {
    if a.element != Empty && a.health <= 0.0 then
      match a.element
      case Fire => a.(element := Smoke, lifetime := Some(2.0), temperature := 80.0)
      case Acid => a.(element := Water)
      case _ => a.(element := Empty)
    else a
  }

  /** Two cleanups empty every dead atom, after which cleanup changes nothing. */
  lemma CleanupSettles(a: ReactiveAtom)
    ensures a.health <= 0.0 ==> Cleanup(Cleanup(a)).element == Empty
    ensures Cleanup(Cleanup(Cleanup(a))) == Cleanup(Cleanup(a))
  {
  }

  /** The reaction timer: reactions run when it has run down, which resets it to 50 ms. */
  function ReactionTimer(cooldown: real, dt: real): (r: (bool, real))
    ensures r.0 <==> cooldown - dt <= 0.0
    ensures r.1 == if r.0 then 0.05 else cooldown - dt
  {
    var c := cooldown - dt;
    if c <= 0.0 then (true, 0.05) else (false, c)
  }

  function UpdateAll(s: seq<ReactiveAtom>, dt: real, bounds: Vec2): (r: seq<ReactiveAtom>)
    ensures |r| == |s| && forall k :: 0 <= k < |s| ==> r[k] == UpdateAtom(s[k], dt, bounds)
  {
    seq(|s|, k requires 0 <= k < |s| => UpdateAtom(s[k], dt, bounds))
  }

  function CleanupAll(s: seq<ReactiveAtom>): (r: seq<ReactiveAtom>)
    ensures |r| == |s| && forall k :: 0 <= k < |s| ==> r[k] == Cleanup(s[k])
  {
    seq(|s|, k requires 0 <= k < |s| => Cleanup(s[k]))
  }

  /**
   * One frame of the world: every atom takes its own step at the grid's
   * size as bounds, the reactions run when the timer has run down, and dead
   * atoms are cleaned up. Returns the cells and the new timer.
   */
  function WorldStep(w: nat, h: nat, s: seq<ReactiveAtom>, cooldown: real, dt: real, roll: Rolls): (r: (seq<ReactiveAtom>, real))
    requires |s| == w * h
    ensures |r.0| == |s| && r.1 > 0.0
    ensures forall k :: 0 <= k < |s| && r.0[k].health <= 0.0 ==> r.0[k].element in {Empty, Smoke, Water}
  {
    var moved := UpdateAll(s, dt, Vec2(w as real, h as real));
    var t := ReactionTimer(cooldown, dt);
    (CleanupAll(if t.0 then Pass(w, h, moved, dt, roll) else moved), t.1)
  }

  /** A frame whose timer has not run down reacts nothing: only movement and cleanup. */
  lemma WorldStepBetweenReactions(w: nat, h: nat, s: seq<ReactiveAtom>, cooldown: real, dt: real, roll: Rolls)
    requires |s| == w * h && cooldown - dt > 0.0
    ensures WorldStep(w, h, s, cooldown, dt, roll) == (CleanupAll(UpdateAll(s, dt, Vec2(w as real, h as real))), cooldown - dt)
  {
  }

  // ---------------------------------------------------------------------
  // The world, updated in place
  // ---------------------------------------------------------------------

  /** The terrain of a new world: stone below row 10, sand in rows 10..19 within 10 columns of the middle. */
  function Terrain(width: nat, x: nat, y: nat): Element {
    if y < 10 then Stone
    else if y < 20 && x > width / 2 - 10 && x < width / 2 + 10 then Sand
    else Empty
  }

  class ReactiveWorld {
    const width: nat
    const height: nat
    const atoms: array<ReactiveAtom>
    const bounds: Vec2
    var reactionCooldown: real

    ghost predicate Valid()
      reads this
    {
      atoms.Length == width * height && bounds == Vec2(width as real, height as real)
    }

    /**
     * `ReactiveWorld::new`: one new atom per cell at its coordinates, of the
     * terrain type. The source subtracts 10 from `width / 2` in unsigned
     * arithmetic when a sand row exists, so it needs a width of at least 20.
     */
    constructor (w: nat, h: nat)
      requires h > 10 && w > 0 ==> w / 2 >= 10
      ensures Valid() && width == w && height == h && reactionCooldown == 0.0 && fresh(atoms)
      ensures forall x, y :: InBounds(w, h, x, y) ==>
        atoms[At(w, h, x, y)] == NewAtom(Terrain(w, x, y), Vec2(x as real, y as real))
    {
      width, height := w, h;
      bounds := Vec2(w as real, h as real);
      reactionCooldown := 0.0;
      atoms := new ReactiveAtom[w * h](k =>
        if w == 0 || k < 0 then NewAtom(Empty, Zero)
        else NewAtom(Terrain(w, k % w, k / w), Vec2((k % w) as real, (k / w) as real)));
      new;
      forall x, y | InBounds(w, h, x, y)
        ensures atoms[At(w, h, x, y)] == NewAtom(Terrain(w, x, y), Vec2(x as real, y as real))
      {
        IndexDivMod(w, h, x, y);
      }
    }

    /** `ReactiveWorld::update`. */
    method Update(dt: real, roll: Rolls)
      requires Valid()
      modifies this, atoms
      ensures Valid()
      ensures (atoms[..], reactionCooldown) == WorldStep(width, height, old(atoms[..]), old(reactionCooldown), dt, roll)
    {
      reactionCooldown := reactionCooldown - dt;
      UpdateAtoms(dt);
      if reactionCooldown <= 0.0 {
        ProcessReactions(dt, roll);
        reactionCooldown := 0.05;
      }
      CleanupDead();
    }

    /** The first loop of `update`: each atom's own step. */
    method UpdateAtoms(dt: real)
      requires Valid()
      modifies atoms
      ensures atoms[..] == UpdateAll(old(atoms[..]), dt, bounds)
    {
      var i := 0;
      while i < atoms.Length
        invariant 0 <= i <= atoms.Length
        invariant forall k :: 0 <= k < i ==> atoms[k] == UpdateAtom(old(atoms[k]), dt, bounds)
        invariant forall k :: i <= k < atoms.Length ==> atoms[k] == old(atoms[k])
      {
        atoms[i] := UpdateAtom(atoms[i], dt, bounds);
        i := i + 1;
      }
    }

    /** The cleanup loop of `update`. */
    method CleanupDead()
      requires Valid()
      modifies atoms
      ensures atoms[..] == CleanupAll(old(atoms[..]))
    {
      var i := 0;
      while i < atoms.Length
        invariant 0 <= i <= atoms.Length
        invariant forall k :: 0 <= k < i ==> atoms[k] == Cleanup(old(atoms[k]))
        invariant forall k :: i <= k < atoms.Length ==> atoms[k] == old(atoms[k])
      {
        var a := atoms[i];
        if a.element != Empty && a.health <= 0.0 {
          if a.element == Fire {
            atoms[i] := a.(element := Smoke, lifetime := Some(2.0), temperature := 80.0);
          } else if a.element == Acid {
            atoms[i] := a.(element := Water);
          } else {
            atoms[i] := a.(element := Empty);
          }
        }
        i := i + 1;
      }
    }

    /**
     * `process_reactions`: react every neighbouring pair once, in scan
     * order, against the cells as earlier reactions left them, then place
     * the products.
     */
    method ProcessReactions(dt: real, roll: Rolls)
      requires Valid()
      modifies atoms
      ensures atoms[..] == Pass(width, height, old(atoms[..]), dt, roll)
    {
      hide ReactWith, PairStep;
      ghost var s0 := atoms[..];
      var products: seq<ReactionProduct> := [];
      var y := 0;
      while y < height
        invariant 0 <= y <= height
        invariant Scan(atoms[..], products) == ReactAll(Scan(s0, []), ScanRows(width, height, y), dt, roll)
      {
        products := ReactRow(s0, y, products, dt, roll);
        y := y + 1;
      }
      WholeScan(width, height);
      ghost var cells := atoms[..];
      var k := 0;
      while k < |products|
        invariant 0 <= k <= |products|
        invariant atoms[..] == AddProducts(width, height, cells, products[..k])
      {
        var p := products[k];
        assert products[..k + 1][..k] == products[..k];
        AddAtomAtPosition(p.element, p.position, p.velocity, p.lifetime);
        k := k + 1;
      }
      assert products[..k] == products;
    }

    /** One row of the scan, left to right. */
    method ReactRow(ghost s0: seq<ReactiveAtom>, y: int, before: seq<ReactionProduct>, dt: real, roll: Rolls)
      returns (products: seq<ReactionProduct>)
      requires Valid() && |s0| == width * height && 0 <= y < height
      requires Scan(atoms[..], before) == ReactAll(Scan(s0, []), ScanRows(width, height, y), dt, roll)
      modifies atoms
      ensures Scan(atoms[..], products) == ReactAll(Scan(s0, []), ScanRows(width, height, y + 1), dt, roll)
    {
      hide ReactWith, PairStep;
      ghost var st := Scan(atoms[..], before);
      products := before;
      var x := 0;
      while x < width
        invariant 0 <= x <= width
        invariant Scan(atoms[..], products) == ReactAll(st, RowPairs(width, height, y, x), dt, roll)
      {
        products := ReactCellAt(st, x, y, products, dt, roll);
        x := x + 1;
      }
      ReactAllAppend(Scan(s0, []), ScanRows(width, height, y), RowPairs(width, height, y, width), dt, roll);
    }

    /** Cell (x, y) continues the scan of the cells before it in its row. */
    method ReactCellAt(ghost st: Scan, x: int, y: int, before: seq<ReactionProduct>, dt: real, roll: Rolls)
      returns (products: seq<ReactionProduct>)
      requires Valid() && |st.cells| == width * height && 0 <= x < width && 0 <= y < height
      requires Scan(atoms[..], before) == ReactAll(st, RowPairs(width, height, y, x), dt, roll)
      modifies atoms
      ensures Scan(atoms[..], products) == ReactAll(st, RowPairs(width, height, y, x + 1), dt, roll)
    {
      hide ReactWith, PairStep;
      ReactAllAppend(st, RowPairs(width, height, y, x), CellPairs(width, height, x, y, 8), dt, roll);
      products := ReactCell(x, y, before, dt, roll);
    }

    /** The neighbour loops of one cell: dy outer, dx inner, skipping (0, 0) and Empty cells. */
    method ReactCell(x: int, y: int, before: seq<ReactionProduct>, dt: real, roll: Rolls) returns (products: seq<ReactionProduct>)
      requires Valid() && InBounds(width, height, x, y)
      modifies atoms
      ensures Scan(atoms[..], products) == ReactAll(Scan(old(atoms[..]), before), CellPairs(width, height, x, y, 8), dt, roll)
    {
      hide ReactWith, PairStep;
      products := before;
      ghost var st := Scan(atoms[..], before);
      var idx := At(width, height, x, y);
      if atoms[idx].element == Empty {
        ReactAllFromEmpty(st, CellPairs(width, height, x, y, 8), idx, dt, roll);
        return;
      }
      var dy := -1;
      while dy <= 1
        invariant -1 <= dy <= 2
        invariant Scan(atoms[..], products) == ReactAll(st, CellPairs(width, height, x, y, Slot8(-1, dy)), dt, roll)
      {
        products := ReactNeighbourRow(st, x, y, dy, products, dt, roll);
        dy := dy + 1;
      }
      assert Slot8(-1, 2) == 8;
    }

    /** The inner dx loop of the neighbour loops, for one dy. */
    method ReactNeighbourRow(ghost st: Scan, x: int, y: int, dy: int, before: seq<ReactionProduct>, dt: real, roll: Rolls)
      returns (products: seq<ReactionProduct>)
      requires Valid() && InBounds(width, height, x, y) && |st.cells| == width * height && -1 <= dy <= 1
      requires Scan(atoms[..], before) == ReactAll(st, CellPairs(width, height, x, y, Slot8(-1, dy)), dt, roll)
      modifies atoms
      ensures Scan(atoms[..], products) == ReactAll(st, CellPairs(width, height, x, y, Slot8(-1, dy + 1)), dt, roll)
    {
      hide ReactWith, PairStep;
      products := before;
      var dx := -1;
      while dx <= 1
        invariant -1 <= dx <= 2
        invariant Scan(atoms[..], products) == ReactAll(st, CellPairs(width, height, x, y, Slot8(dx, dy)), dt, roll)
      {
        products := ReactNeighbourSlot(st, x, y, dx, dy, products, dt, roll);
        dx := dx + 1;
      }
      assert Slot8(dx, dy) == Slot8(-1, dy + 1);
    }

    /**
     * One pass of the dx loop: offset (0, 0) is skipped, any other reacts
     * that neighbour, extending the reactions of the offsets before it.
     */
    method ReactNeighbourSlot(ghost st: Scan, x: int, y: int, dx: int, dy: int, before: seq<ReactionProduct>, dt: real, roll: Rolls)
      returns (products: seq<ReactionProduct>)
      requires Valid() && InBounds(width, height, x, y) && |st.cells| == width * height
      requires -1 <= dx <= 1 && -1 <= dy <= 1
      requires Scan(atoms[..], before) == ReactAll(st, CellPairs(width, height, x, y, Slot8(dx, dy)), dt, roll)
      modifies atoms
      ensures Scan(atoms[..], products) == ReactAll(st, CellPairs(width, height, x, y, Slot8(dx + 1, dy)), dt, roll)
    {
      hide ReactWith, PairStep;
      if dx == 0 && dy == 0 {
        assert Slot8(dx + 1, dy) == Slot8(dx, dy);
        products := before;
      } else {
        ghost var n := Slot8(dx, dy);
        assert Slot8(dx + 1, dy) == n + 1;
        Slot8Is(dx, dy);
        CellPairsStep(st, width, height, x, y, n, dx, dy, dt, roll);
        products := ReactNeighbour(x, y, dx, dy, before, dt, roll);
      }
    }

    /** The body of the neighbour loop for offset (dx, dy). */
    method ReactNeighbour(x: int, y: int, dx: int, dy: int, before: seq<ReactionProduct>, dt: real, roll: Rolls)
      returns (products: seq<ReactionProduct>)
      requires Valid() && InBounds(width, height, x, y)
      modifies atoms
      ensures Later(width, height, x, y, dx, dy) ==>
        Scan(atoms[..], products) == PairStep(Scan(old(atoms[..]), before), At(width, height, x, y), At(width, height, x + dx, y + dy), dt, roll)
      ensures !Later(width, height, x, y, dx, dy) ==> Scan(atoms[..], products) == Scan(old(atoms[..]), before)
    {
      products := before;
      var idx := At(width, height, x, y);
      var nx, ny := x + dx, y + dy;
      if 0 <= nx < width && 0 <= ny < height {
        var nidx := At(width, height, nx, ny);
        if atoms[nidx].element != Empty {
          if idx < nidx {
            var r := ReactWith(atoms[idx], atoms[nidx], dt, roll(idx, nidx));
            atoms[idx] := r.first;
            atoms[nidx] := r.second;
            products := products + r.products;
          }
        } else if idx < nidx {
          PairStepEmpty(Scan(atoms[..], products), idx, nidx, dt, roll);
        }
      }
    }

    /** `add_atom_at_position`. */
    method AddAtomAtPosition(e: Element, p: Vec2, v: Vec2, lifetime: Option<real>)
      requires Valid()
      modifies atoms
      ensures atoms[..] == AddAtom(width, height, old(atoms[..]), e, p, v, lifetime)
    {
      var x := ToUsize(Round(p.x));
      var y := ToUsize(Round(p.y));
      if x < width && y < height {
        var idx := At(width, height, x, y);
        if atoms[idx].element == Empty || (e == Fire && CanBurn(atoms[idx].element)) {
          atoms[idx] := NewAtom(e, p);
          atoms[idx] := atoms[idx].(velocity := v, lifetime := lifetime);
          match e {
            case Fire => atoms[idx] := atoms[idx].(temperature := 700.0, lifetime := Some(8.0));
            case Smoke => atoms[idx] := atoms[idx].(temperature := 100.0);
            case _ =>
          }
        }
      }
    }
  }
}
