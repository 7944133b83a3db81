// The perk-based magic system of the main crate: perk costs, spells built
// from perks, casting with a cooldown, the effects and child projectiles a
// spell instance creates, timed spell effects, and mana regeneration.
module Magic {
  import opened Common

  datatype SpellPerk =
    | Projectile | ProjectileGravity | ProjectilePierce | ProjectileBounce | ProjectileHoming
    | Damage | DamageArea | DamagePoison | DamageFire | DamageIce
    | Explosion | ChainReaction | TriggerTimer | TriggerDeath
    | Multiply | Split | Accelerate | Decelerate
    | Teleport | Summon | Shield | Invisibility

  /** The mana cost of each perk. */
  function Cost(p: SpellPerk): nat {
    match p
    case Projectile => 10
    case ProjectileGravity => 5
    case ProjectilePierce => 15
    case ProjectileBounce => 12
    case ProjectileHoming => 20
    case Damage => 8
    case DamageArea => 12
    case DamagePoison => 10
    case DamageFire => 10
    case DamageIce => 10
    case Explosion => 25
    case ChainReaction => 18
    case TriggerTimer => 15
    case TriggerDeath => 15
    case Multiply => 20
    case Split => 16
    case Accelerate => 8
    case Decelerate => 8
    case Teleport => 30
    case Summon => 25
    case Shield => 20
    case Invisibility => 35
  }

  /** The sum of the perk costs. */
  function TotalCost(perks: seq<SpellPerk>): nat {
    if perks == [] then 0 else Cost(perks[0]) + TotalCost(perks[1..])
  }

  /** Every perk costs between 5 and 35 mana, so a spell costs between 5 and 35 per perk. */
  lemma {:induction false} TotalCostBounds(perks: seq<SpellPerk>)
    ensures 5 * |perks| <= TotalCost(perks) <= 35 * |perks|
  {
    if perks != [] {
      TotalCostBounds(perks[1..]);
    }
  }

  /** Costs add up over concatenated perk lists. */
  lemma {:induction false} TotalCostAppend(a: seq<SpellPerk>, b: seq<SpellPerk>)
    ensures TotalCost(a + b) == TotalCost(a) + TotalCost(b)
  {
    if a != [] {
      assert (a + b)[1..] == a[1..] + b;
      TotalCostAppend(a[1..], b);
    } else {
      assert a + b == b;
    }
  }

  lemma TotalCost2(a: SpellPerk, b: SpellPerk)
    ensures TotalCost([a, b]) == Cost(a) + Cost(b) && TotalCost([a]) == Cost(a)
  {
    assert [a, b][1..] == [b];
    assert [b][1..] == [];
    assert [a][1..] == [];
    assert TotalCost([b]) == Cost(b) + TotalCost([]);
    assert TotalCost([a]) == Cost(a) + TotalCost([]);
  }

  lemma TotalCost3(a: SpellPerk, b: SpellPerk, c: SpellPerk)
    ensures TotalCost([a, b, c]) == Cost(a) + Cost(b) + Cost(c)
  {
    assert [a, b, c][1..] == [b, c];
    assert [b, c][1..] == [c];
    assert [c][1..] == [];
    assert TotalCost([c]) == Cost(c) + TotalCost([]);
  }

  /** A caster is an entity id; the placeholder entity is 0 here. */
  type Entity = nat
  const Placeholder: Entity := 0

  datatype Spell = Spell(perks: seq<SpellPerk>, manaCost: nat, cooldown: real, cooldownTimer: real,
                         castPosition: Vec2, caster: Entity)

  /** `Spell::new`: the perks' total cost, a cooldown of 1 s, ready now. */
  function NewSpell(perks: seq<SpellPerk>): (s: Spell)
    ensures s.perks == perks && s.manaCost == TotalCost(perks)
    ensures s.cooldown == 1.0 && s.cooldownTimer == 0.0 && s.castPosition == Zero && s.caster == Placeholder
  {
    Spell(perks, TotalCost(perks), 1.0, 0.0, Zero, Placeholder)
  }

  /** `can_cast`: off cooldown and enough mana. */
  predicate CanCast(s: Spell, mana: nat) {
    s.cooldownTimer <= 0.0 && mana >= s.manaCost
  }

  /** A freshly built spell can be cast exactly when the mana covers its perks. */
  lemma NewSpellCastable(perks: seq<SpellPerk>, mana: nat)
    ensures CanCast(NewSpell(perks), mana) <==> mana >= TotalCost(perks)
  {
  }

  /** The example spells and their costs: 18, 45, 35, 47, 42, 36, 38 and 30. */
  function ExampleSpells(): (r: seq<Spell>)
    ensures |r| == 8
  {
    [NewSpell([Projectile, Damage]),
     NewSpell([Projectile, DamageFire, Explosion]),
     NewSpell([Projectile, DamagePoison, ProjectilePierce]),
     NewSpell([Projectile, ProjectileBounce, Explosion]),
     NewSpell([Projectile, ProjectileHoming, DamageArea]),
     NewSpell([Projectile, ChainReaction, Damage]),
     NewSpell([Projectile, Multiply, Damage]),
     NewSpell([Teleport])]
  }

  lemma ExampleSpellCosts()
    ensures ExampleSpells()[0].manaCost == 18 && ExampleSpells()[1].manaCost == 45
    ensures ExampleSpells()[2].manaCost == 35 && ExampleSpells()[3].manaCost == 47
    ensures ExampleSpells()[4].manaCost == 42 && ExampleSpells()[5].manaCost == 36
    ensures ExampleSpells()[6].manaCost == 38 && ExampleSpells()[7].manaCost == 30
  {
    hide TotalCost;
    TotalCost2(Projectile, Damage);
    TotalCost2(Teleport, Teleport);
    TotalCost3(Projectile, DamageFire, Explosion);
    TotalCost3(Projectile, DamagePoison, ProjectilePierce);
    TotalCost3(Projectile, ProjectileBounce, Explosion);
    TotalCost3(Projectile, ProjectileHoming, DamageArea);
    TotalCost3(Projectile, ChainReaction, Damage);
    TotalCost3(Projectile, Multiply, Damage);
  }

  // ---------------------------------------------------------------------
  // Spell effects
  // ---------------------------------------------------------------------

  datatype SpellEffect =
    | DamageEffect(amount: real)
    | AreaDamage(radius: real, amount: real)
    | FireDamage(amount: real, duration: real)
    | PoisonDamage(amount: real, duration: real)
    | ExplosionEffect(radius: real, damage: real)
    | Heal(amount: real)
    | Buff(stat: string, amount: real, duration: real)
    | Debuff(stat: string, amount: real, duration: real)

  /** Fire, poison, buffs and debuffs run for a duration; the others act at once. */
  predicate Timed(e: SpellEffect) {
    e.FireDamage? || e.PoisonDamage? || e.Buff? || e.Debuff?
  }

  /** `SpellEffect::update`: a timed effect's duration runs down by dt. */
  function UpdateEffect(e: SpellEffect, dt: real): (r: SpellEffect)
    ensures Timed(r) == Timed(e)
    ensures !Timed(e) ==> r == e
    ensures Timed(e) ==> r == e.(duration := e.duration - dt)
  {
    match e
    case FireDamage(a, d) => FireDamage(a, d - dt)
    case PoisonDamage(a, d) => PoisonDamage(a, d - dt)
    case Buff(s, a, d) => Buff(s, a, d - dt)
    case Debuff(s, a, d) => Debuff(s, a, d - dt)
    case _ => e
  }

  /** `SpellEffect::is_alive`: instant effects always, timed ones while time is left. */
  predicate IsAlive(e: SpellEffect) {
    !Timed(e) || e.duration > 0.0
  }

  /** Instant effects never expire; a timed effect survives an update iff more than dt was left. */
  lemma UpdateKeepsAlive(e: SpellEffect, dt: real)
    ensures !Timed(e) ==> IsAlive(UpdateEffect(e, dt))
    ensures Timed(e) ==> (IsAlive(UpdateEffect(e, dt)) <==> e.duration > dt)
  {
  }

  /**
   * The effect part of `SpellInstance::update`: every effect is updated and
   * only those still alive are kept, in order.
   */
  function TickEffects(es: seq<SpellEffect>, dt: real): (r: seq<SpellEffect>)
    ensures |r| <= |es|
    ensures forall k :: 0 <= k < |r| ==> IsAlive(r[k])
    decreases |es|
  {
    if es == [] then []
    else
      var rest := TickEffects(es[..|es| - 1], dt);
      var e := UpdateEffect(es[|es| - 1], dt);
      if IsAlive(e) then rest + [e] else rest
  }

  /** An effect survives a tick exactly when its update is alive, so instant effects always do. */
  lemma {:induction false} TickEffectsMembers(es: seq<SpellEffect>, dt: real, e: SpellEffect)
    ensures e in TickEffects(es, dt) <==> exists k :: 0 <= k < |es| && e == UpdateEffect(es[k], dt) && IsAlive(e)
    ensures forall k :: 0 <= k < |es| && !Timed(es[k]) ==> es[k] in TickEffects(es, dt)
    decreases |es|
  {
    if es != [] {
      var n := |es| - 1;
      TickEffectsMembers(es[..n], dt, e);
      forall k | 0 <= k < |es| && !Timed(es[k])
        ensures es[k] in TickEffects(es, dt)
      {
        if k < n {
          assert es[..n][k] == es[k];
          TickEffectsMembers(es[..n], dt, es[k]);
        }
      }
      if e in TickEffects(es, dt) {
        if e !in TickEffects(es[..n], dt) {
          assert e == UpdateEffect(es[n], dt);
        } else {
          var k :| 0 <= k < n && e == UpdateEffect(es[..n][k], dt) && IsAlive(e);
          assert es[k] == es[..n][k];
        }
      }
      if exists k :: 0 <= k < |es| && e == UpdateEffect(es[k], dt) && IsAlive(e) {
        var k :| 0 <= k < |es| && e == UpdateEffect(es[k], dt) && IsAlive(e);
        if k < n {
          assert es[..n][k] == es[k];
        }
      }
    }
  }

  /** The effect each perk adds when a spell instance creates its effects (none for most perks). */
  function PerkEffect(p: SpellPerk): (r: seq<SpellEffect>)
    ensures |r| <= 1
  {
    match p
    case Damage => [DamageEffect(10.0)]
    case DamageArea => [AreaDamage(20.0, 15.0)]
    case DamageFire => [FireDamage(8.0, 3.0)]
    case DamagePoison => [PoisonDamage(5.0, 5.0)]
    case Explosion => [ExplosionEffect(50.0, 30.0)]
    case _ => []
  }

  /** The effects of a perk list, in perk order. */
  function PerkEffects(perks: seq<SpellPerk>): (r: seq<SpellEffect>)
    decreases |perks|
  {
    if perks == [] then [] else PerkEffects(perks[..|perks| - 1]) + PerkEffect(perks[|perks| - 1])
  }

  lemma PerkEffectsSnoc(perks: seq<SpellPerk>, p: SpellPerk)
    ensures PerkEffects(perks + [p]) == PerkEffects(perks) + PerkEffect(p)
  {
    assert (perks + [p])[..|perks|] == perks;
  }

  /** Exactly the Damage, DamageArea, DamageFire, DamagePoison and Explosion perks add an effect. */
  lemma {:induction false} PerkEffectsCount(perks: seq<SpellPerk>)
    ensures |PerkEffects(perks)| ==
      Count(perks, Damage) + Count(perks, DamageArea) + Count(perks, DamageFire) +
      Count(perks, DamagePoison) + Count(perks, Explosion)
    decreases |perks|
  {
    if perks != [] {
      var n := |perks| - 1;
      assert perks == perks[..n] + [perks[n]];
      PerkEffectsCount(perks[..n]);
      CountSnoc(perks[..n], perks[n], Damage);
      CountSnoc(perks[..n], perks[n], DamageArea);
      CountSnoc(perks[..n], perks[n], DamageFire);
      CountSnoc(perks[..n], perks[n], DamagePoison);
      CountSnoc(perks[..n], perks[n], Explosion);
    }
  }

  // ---------------------------------------------------------------------
  // Spell instances
  // ---------------------------------------------------------------------

  /** Default lifetime of a spell instance, in seconds. */
  const MaxLifetime: real := 5.0

  /** The velocity of the n-th child created by `create_effects`: the pairs alternate between d1 and d2. */
  function ChildVelocity(n: int, d1: Vec2, d2: Vec2): Vec2 {
    Scale(if n % 2 == 0 then d1 else d2, 100.0)
  }

  /** The two children added for one Multiply perk, after c earlier pairs, move along d1 and then d2. */
  lemma ChildVelocityPair(c: int, d1: Vec2, d2: Vec2)
    ensures ChildVelocity(2 * c, d1, d2) == Scale(d1, 100.0)
    ensures ChildVelocity(2 * c + 1, d1, d2) == Scale(d2, 100.0)
  {
  }

  /** A child made by `create_effects`: a new instance of spell s placed at pos, just born, moving at v, with nothing created yet. */
  ghost predicate Spawned(c: SpellInstance, s: Spell, pos: Vec2, v: Vec2)
    reads c
  {
    c.spell == s && c.position == pos && c.velocity == v &&
    c.lifetime == 0.0 && c.maxLifetime == MaxLifetime && c.effects == [] && c.children == []
  }

  /**
   * kids is base followed by the children of `pairs` Multiply perks: each a
   * new instance of spell s at pos, the pairs moving along d1 and then d2.
   */
  ghost predicate Grown(kids: seq<SpellInstance>, base: seq<SpellInstance>, pairs: nat, s: Spell, pos: Vec2, d1: Vec2, d2: Vec2)
    reads kids
  {
    |kids| == |base| + 2 * pairs && kids[..|base|] == base &&
    forall k :: |base| <= k < |kids| ==> Spawned(kids[k], s, pos, ChildVelocity(k - |base|, d1, d2))
  }

  lemma GrownStart(base: seq<SpellInstance>, s: Spell, pos: Vec2, d1: Vec2, d2: Vec2)
    ensures Grown(base, base, 0, s, pos, d1, d2)
  {
    assert base[..|base|] == base;
  }

  /** One more Multiply perk adds one more pair. */
  lemma GrownPair(kids: seq<SpellInstance>, base: seq<SpellInstance>, pairs: nat, s: Spell, pos: Vec2, d1: Vec2, d2: Vec2,
                  pair: seq<SpellInstance>)
    requires Grown(kids, base, pairs, s, pos, d1, d2) && |pair| == 2
    requires Spawned(pair[0], s, pos, Scale(d1, 100.0)) && Spawned(pair[1], s, pos, Scale(d2, 100.0))
    ensures Grown(kids + pair, base, pairs + 1, s, pos, d1, d2)
  {
    ChildVelocityPair(pairs, d1, d2);
    assert (kids + pair)[..|base|] == base;
    forall k | |base| <= k < |kids + pair|
      ensures Spawned((kids + pair)[k], s, pos, ChildVelocity(k - |base|, d1, d2))
    {
      if k < |kids| {
        assert (kids + pair)[k] == kids[k];
      }
    }
  }

  class SpellInstance {
    var spell: Spell
    var position: Vec2
    var velocity: Vec2
    var lifetime: real
    var maxLifetime: real
    var effects: seq<SpellEffect>
    var children: seq<SpellInstance>

    /** `SpellInstance::new`: at the origin, at rest, just born, with nothing created yet. */
    constructor (s: Spell)
      ensures spell == s && position == Zero && velocity == Zero
      ensures lifetime == 0.0 && maxLifetime == MaxLifetime && effects == [] && children == []
    {
      spell, position, velocity := s, Zero, Zero;
      lifetime, maxLifetime := 0.0, MaxLifetime;
      effects, children := [], [];
    }

    /**
     * `create_effects`: each perk adds its effect, and each Multiply perk adds
     * two new child instances of the same spell at this position, moving at
     * 100 along d1 and d2 (the source's directions at 1/3 and 2/3 of a turn,
     * supplied here because trigonometry is not modelled).
     */
    method CreateEffects(d1: Vec2, d2: Vec2)
      modifies this
      ensures spell == old(spell) && position == old(position) && velocity == old(velocity)
      ensures lifetime == old(lifetime) && maxLifetime == old(maxLifetime)
      ensures effects == old(effects) + PerkEffects(spell.perks)
      ensures Grown(children, old(children), Count(spell.perks, Multiply), spell, position, d1, d2)
      ensures forall k :: |old(children)| <= k < |children| ==> fresh(children[k])
    {
      var effs, kids := CollectPerks(d1, d2);
      effects, children := effs, kids;
    }

    /** The perk loop of `create_effects`, gathering the new effect and child lists. */
    method CollectPerks(d1: Vec2, d2: Vec2) returns (effs: seq<SpellEffect>, kids: seq<SpellInstance>)
      ensures effs == effects + PerkEffects(spell.perks)
      ensures Grown(kids, children, Count(spell.perks, Multiply), spell, position, d1, d2)
      ensures forall k :: |children| <= k < |kids| ==> fresh(kids[k])
    {
      var perks := spell.perks;
      effs, kids := effects, children;
      var i := 0;
      assert PerkEffects(perks[..0]) == [] && Count(perks[..0], Multiply) == 0;
      GrownStart(children, spell, position, d1, d2);
      hide ChildVelocity, PerkEffects, Count, Spawned, Grown;
      while i < |perks|
        invariant 0 <= i <= |perks|
        invariant effs == effects + PerkEffects(perks[..i])
        invariant Grown(kids, children, Count(perks[..i], Multiply), spell, position, d1, d2)
        invariant forall k :: |children| <= k < |kids| ==> fresh(kids[k])
      {
        assert perks[..i + 1] == perks[..i] + [perks[i]];
        PerkEffectsSnoc(perks[..i], perks[i]);
        effs, kids := ApplyPerk(perks[..i], perks[i], d1, d2, effs, kids);
        i := i + 1;
      }
      assert perks[..i] == perks;
    }

    /** One perk of `create_effects`, after the perks `done`: Multiply adds a pair of children, every other perk its effect. */
    method ApplyPerk(ghost done: seq<SpellPerk>, p: SpellPerk, d1: Vec2, d2: Vec2, effs0: seq<SpellEffect>, kids0: seq<SpellInstance>)
      returns (effs: seq<SpellEffect>, kids: seq<SpellInstance>)
      requires Grown(kids0, children, Count(done, Multiply), spell, position, d1, d2)
      ensures effs == effs0 + PerkEffect(p)
      ensures Grown(kids, children, Count(done + [p], Multiply), spell, position, d1, d2)
      ensures |kids0| <= |kids| && kids[..|kids0|] == kids0 && forall k :: |kids0| <= k < |kids| ==> fresh(kids[k])
    {
      hide ChildVelocity, Spawned;
      CountSnoc(done, p, Multiply);
      effs, kids := effs0, kids0;
      if p == Multiply {
        var pair := SpawnPair(d1, d2);
        GrownPair(kids, children, Count(done, Multiply), spell, position, d1, d2, pair);
        kids := kids + pair;
      } else {
        effs := effs + PerkEffect(p);
      }
    }

    /** The Multiply arm of `create_effects`: two new child instances of this spell here, moving along d1 and then d2. */
    method SpawnPair(d1: Vec2, d2: Vec2) returns (pair: seq<SpellInstance>)
      ensures |pair| == 2
      ensures fresh(pair[0]) && Spawned(pair[0], spell, position, Scale(d1, 100.0))
      ensures fresh(pair[1]) && Spawned(pair[1], spell, position, Scale(d2, 100.0))
    {
      pair := [];
      var j := 1;
      while j < 3
        invariant 1 <= j <= 3 && |pair| == j - 1
        invariant forall k :: 0 <= k < |pair| ==>
          fresh(pair[k]) && Spawned(pair[k], spell, position, Scale(if k == 0 then d1 else d2, 100.0))
      {
        var child := new SpellInstance(spell);
        child.velocity := Scale(if j == 1 then d1 else d2, 100.0);
        child.position := position;
        pair := pair + [child];
        j := j + 1;
      }
    }
  }

  /**
   * `Spell::cast`: record where and by whom, start the cooldown, and return a
   * new instance holding the updated spell.
   */
  method Cast(s: Spell, position: Vec2, caster: Entity) returns (s': Spell, inst: SpellInstance)
    ensures s' == s.(castPosition := position, caster := caster, cooldownTimer := s.cooldown)
    ensures fresh(inst) && inst.spell == s' && inst.lifetime == 0.0 && inst.maxLifetime == MaxLifetime
    ensures inst.effects == [] && inst.children == []
  {
    s' := s.(castPosition := position, caster := caster, cooldownTimer := s.cooldown);
    inst := new SpellInstance(s');
  }

  // ---------------------------------------------------------------------
  // Magic users
  // ---------------------------------------------------------------------

  /** A float-to-u32 cast: negative values become 0, others are rounded down. */
  function ToU32(r: real): (n: nat)
    ensures n as real <= r || r < 0.0
    ensures 0.0 <= r ==> r < n as real + 1.0
    ensures r < 0.0 ==> n == 0
  {
    if r < 0.0 then 0 else r.Floor
  }

  /** A mana regeneration tick: mana grows by regen * dt but never past the maximum. */
  function Regen(mana: nat, maxMana: nat, regen: real, dt: real): (r: nat)
    ensures r <= maxMana
    ensures 0.0 <= regen * dt && mana <= maxMana ==> mana <= r
  {
    ToU32(MinR(mana as real + regen * dt, maxMana as real))
  }

  /** A cooldown tick: the timer runs down by dt but not below zero. */
  function Cooldown(timer: real, dt: real): (r: real)
    ensures r >= 0.0
    ensures timer - dt >= 0.0 ==> r == timer - dt
    ensures timer - dt < 0.0 ==> r == 0.0
  {
    MaxR(timer - dt, 0.0)
  }

  class MagicUser {
    var mana: nat
    var maxMana: nat
    var manaRegen: real
    var spells: seq<Spell>
    var selectedSpell: nat

    ghost predicate Valid()
      reads this
    {
      spells != [] ==> selectedSpell < |spells|
    }

    /** `MagicUser::default`: 100 of 100 mana, 5 per second, the two starter spells. */
    constructor ()
      ensures Valid() && mana == 100 && maxMana == 100 && manaRegen == 5.0 && selectedSpell == 0
      ensures spells == [NewSpell([Projectile, Damage]), NewSpell([Projectile, Explosion])]
    {
      mana, maxMana, manaRegen := 100, 100, 5.0;
      spells := [NewSpell([Projectile, Damage]), NewSpell([Projectile, Explosion])];
      selectedSpell := 0;
    }

    /** `update_magic_users` for one user: mana regenerates up to the maximum, and every cooldown runs down. */
    method Update(dt: real)
      requires Valid()
      modifies this
      ensures Valid()
      ensures mana == Regen(old(mana), maxMana, manaRegen, dt) && mana <= maxMana
      ensures maxMana == old(maxMana) && manaRegen == old(manaRegen) && selectedSpell == old(selectedSpell)
      ensures |spells| == |old(spells)|
      ensures forall i :: 0 <= i < |spells| ==>
        spells[i] == old(spells[i]).(cooldownTimer := Cooldown(old(spells[i]).cooldownTimer, dt)) &&
        spells[i].cooldownTimer >= 0.0
    {
      mana := Regen(mana, maxMana, manaRegen, dt);
      var i := 0;
      while i < |spells|
        invariant 0 <= i <= |spells| == |old(spells)|
        invariant mana == Regen(old(mana), maxMana, manaRegen, dt)
        invariant maxMana == old(maxMana) && manaRegen == old(manaRegen) && selectedSpell == old(selectedSpell)
        invariant forall k :: 0 <= k < i ==>
          spells[k] == old(spells[k]).(cooldownTimer := Cooldown(old(spells[k]).cooldownTimer, dt))
        invariant forall k :: i <= k < |spells| ==> spells[k] == old(spells[k])
      {
        spells := spells[i := spells[i].(cooldownTimer := Cooldown(spells[i].cooldownTimer, dt))];
        i := i + 1;
      }
    }

    /**
     * The body of `cast_spell` for one user after a right click. With no
     * spells, when the selected spell cannot be cast, or when the cursor has
     * no world position, nothing happens. Otherwise the spell is cast at the
     * cursor by the placeholder entity, the instance starts at the user's
     * position `origin` moving at 200 along `heading` (the normalised
     * direction from the user to the cursor, supplied because square roots
     * are not modelled), and the spell's cost is paid, which the mana covers.
     */
    method CastSelected(cursor: Option<Vec2>, origin: Vec2, heading: Vec2) returns (inst: Option<SpellInstance>)
      requires Valid()
      modifies this
      ensures Valid() && maxMana == old(maxMana) && manaRegen == old(manaRegen)
      ensures selectedSpell == old(selectedSpell) && |spells| == |old(spells)|
      ensures old(spells) == [] || !CanCast(old(spells)[old(selectedSpell)], old(mana)) || cursor.None? ==>
        inst.None? && mana == old(mana) && spells == old(spells)
      ensures old(spells) != [] && CanCast(old(spells)[old(selectedSpell)], old(mana)) && cursor.Some? ==>
        var s := old(spells)[old(selectedSpell)];
        var s' := s.(castPosition := cursor.value, caster := Placeholder, cooldownTimer := s.cooldown);
        inst.Some? && fresh(inst.value) && inst.value.spell == s' &&
        inst.value.position == origin && inst.value.velocity == Scale(heading, 200.0) &&
        inst.value.lifetime == 0.0 && inst.value.effects == [] && inst.value.children == [] &&
        spells == old(spells)[old(selectedSpell) := s'] && mana == old(mana) - s.manaCost
    {
      if spells == [] {
        return None;
      }
      var s := spells[selectedSpell];
      if !CanCast(s, mana) || cursor.None? {
        return None;
      }
      var s', i := Cast(s, cursor.value, Placeholder);
      i.position := origin;
      i.velocity := Scale(heading, 200.0);
      spells := spells[selectedSpell := s'];
      mana := mana - s'.manaCost;
      inst := Some(i);
    }
  }
}
