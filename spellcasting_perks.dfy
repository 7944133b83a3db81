// Perk-built spells: perks and their upgrades, spells whose cost, cast time
// and cooldown grow with their perk count, the spell book that assembles
// perks into spells, and a caster's mana, casting and cooldown.
module SpellcastingPerks {
  import opened Common

  datatype PerkType = Projectile | Homing | Explosive | Chain | Freeze | Burn
                    | Poison | Shield | Teleport | Summon | Lightning | Gravity

  datatype SpellPerk = SpellPerk(perkType: PerkType, level: nat, power: real)

  /** `SpellPerk::new`: level 1 at power 1. */
  function NewPerk(t: PerkType): (p: SpellPerk)
    ensures p.perkType == t && p.level == 1 && p.power == 1.0
  {
    SpellPerk(t, 1, 1.0)
  }

  /** `upgrade`: one level more and 20% more power. */
  function Upgrade(p: SpellPerk): (q: SpellPerk)
    ensures q.perkType == p.perkType && q.level == p.level + 1
    ensures p.power > 0.0 ==> q.power > p.power
  {
    SpellPerk(p.perkType, p.level + 1, p.power * 1.2)
  }

  /** `n` upgrades in a row. */
  function UpgradeTimes(p: SpellPerk, n: nat): SpellPerk
    decreases n
  {
    if n == 0 then p else Upgrade(UpgradeTimes(p, n - 1))
  }

  /** Each upgrade adds exactly one level, and power only grows. */
  lemma {:induction false} UpgradeTimesLevel(p: SpellPerk, n: nat)
    requires p.power > 0.0
    ensures UpgradeTimes(p, n).perkType == p.perkType
    ensures UpgradeTimes(p, n).level == p.level + n
    ensures UpgradeTimes(p, n).power >= p.power
    decreases n
  {
    if n > 0 {
      UpgradeTimesLevel(p, n - 1);
    }
  }

  datatype Spell = Spell(perks: seq<SpellPerk>, manaCost: real, castTime: real, cooldown: real, name: string)

  /** `Spell::new`: 10 mana, 0.2 s of casting and 0.5 s of cooldown per perk. */
  function NewSpell(name: string, perks: seq<SpellPerk>): (s: Spell)
    ensures s.perks == perks && s.name == name
    ensures s.manaCost == 10.0 * |perks| as real && s.castTime == 0.2 * |perks| as real && s.cooldown == 0.5 * |perks| as real
  {
    var n := |perks| as real;
    Spell(perks, n * 10.0, n * 0.2, n * 0.5, name)
  }

  /** A spell made by `Spell::new`. */
  predicate Built(s: Spell) {
    s == NewSpell(s.name, s.perks)
  }

  /** A spell with perks costs mana and has a cast time and a cooldown; one without costs nothing. */
  lemma SpellCosts(name: string, perks: seq<SpellPerk>)
    ensures perks != [] <==> NewSpell(name, perks).manaCost > 0.0
    ensures perks != [] <==> NewSpell(name, perks).cooldown > 0.0
    ensures NewSpell(name, perks).manaCost == 50.0 * NewSpell(name, perks).castTime
  {
  }

  function Powers(perks: seq<SpellPerk>): (r: seq<real>)
    ensures |r| == |perks| && forall k :: 0 <= k < |perks| ==> r[k] == perks[k].power
  {
    if perks == [] then [] else Powers(perks[..|perks| - 1]) + [perks[|perks| - 1].power]
  }

  /**
   * `calculate_spell_power`: the perks' mean power; with no perks the
   * source's division is 0 / 0, which is not a number, here None.
   */
  function SpellPower(s: Spell): (r: Option<real>)
    ensures r.None? <==> s.perks == []
    ensures r.Some? ==> r.value * |s.perks| as real == Sum(Powers(s.perks))
  {
    if s.perks == [] then None else Some(Mean(Powers(s.perks)))
  }

  /** The spell's power lies between its weakest and strongest perk's. */
  lemma SpellPowerWithin(s: Spell, lo: real, hi: real)
    requires s.perks != [] && forall k :: 0 <= k < |s.perks| ==> lo <= s.perks[k].power <= hi
    ensures SpellPower(s).Some? && lo <= SpellPower(s).value <= hi
  {
    var ps := Powers(s.perks);
    assert forall k :: 0 <= k < |ps| ==> lo <= ps[k] <= hi;
    MeanWithin(ps, lo, hi);
  }

  /** A spell of fresh perks has power 1. */
  lemma FreshSpellPower(name: string, types: seq<PerkType>, perks: seq<SpellPerk>)
    requires |types| == |perks| > 0 && forall k :: 0 <= k < |perks| ==> perks[k] == NewPerk(types[k])
    ensures SpellPower(NewSpell(name, perks)) == Some(1.0)
  {
    SpellPowerWithin(NewSpell(name, perks), 1.0, 1.0);
  }

  const MaxPerksPerSpell := 4

  /** `SpellBook`. */
  class SpellBook {
    const availablePerks: seq<PerkType>
    var selectedPerks: seq<SpellPerk>
    var spells: seq<Spell>
    const maxPerksPerSpell: nat

    /** The selection never holds more than four perks, and every stored spell was built from a selection. */
    ghost predicate Valid()
      reads this
    {
      maxPerksPerSpell == MaxPerksPerSpell && |selectedPerks| <= maxPerksPerSpell &&
      forall k :: 0 <= k < |spells| ==> Built(spells[k]) && spells[k].perks != []
    }

    /** `SpellBook::new`: all twelve perks available, nothing selected, no spells. */
    constructor ()
      ensures Valid() && selectedPerks == [] && spells == [] && |availablePerks| == 12
      ensures availablePerks == [Projectile, Homing, Explosive, Chain, Freeze, Burn, Poison, Shield, Teleport, Summon, Lightning, Gravity]
    {
      availablePerks := [Projectile, Homing, Explosive, Chain, Freeze, Burn, Poison, Shield, Teleport, Summon, Lightning, Gravity];
      selectedPerks := [];
      spells := [];
      maxPerksPerSpell := MaxPerksPerSpell;
    }

    /** `add_perk`: a fresh perk is appended only while fewer than four are selected. */
    method AddPerk(t: PerkType)
      requires Valid()
      modifies this
      ensures Valid() && spells == old(spells)
      ensures old(|selectedPerks|) < MaxPerksPerSpell ==> selectedPerks == old(selectedPerks) + [NewPerk(t)]
      ensures old(|selectedPerks|) >= MaxPerksPerSpell ==> selectedPerks == old(selectedPerks)
    {
      if |selectedPerks| < maxPerksPerSpell {
        selectedPerks := selectedPerks + [NewPerk(t)];
      }
    }

    /** `remove_perk`: drops the perk at an in-range index, keeping the others in order; otherwise nothing. */
    method RemovePerk(index: nat)
      requires Valid()
      modifies this
      ensures Valid() && spells == old(spells)
      ensures index < old(|selectedPerks|) ==> selectedPerks == old(selectedPerks[..index] + selectedPerks[index + 1..])
      ensures index >= old(|selectedPerks|) ==> selectedPerks == old(selectedPerks)
    {
      if index < |selectedPerks| {
        selectedPerks := selectedPerks[..index] + selectedPerks[index + 1..];
      }
    }

    /**
     * `create_spell`: None when nothing is selected; otherwise a spell of
     * exactly the selected perks, which is also stored, and the selection
     * is cleared.
     */
    method CreateSpell(name: string) returns (r: Option<Spell>)
      requires Valid()
      modifies this
      ensures Valid()
      ensures r.None? <==> old(selectedPerks) == []
      ensures r.None? ==> selectedPerks == old(selectedPerks) && spells == old(spells)
      ensures r.Some? ==> r.value == NewSpell(name, old(selectedPerks)) && spells == old(spells) + [r.value] && selectedPerks == []
    {
      if selectedPerks == [] {
        return None;
      }
      var spell := NewSpell(name, selectedPerks);
      spells := spells + [spell];
      selectedPerks := [];
      r := Some(spell);
    }
  }

  /** `Player` of the spell demo. */
  class Player {
    const position: Vec2
    var mana: real
    const maxMana: real
    const spellBook: SpellBook
    var castingSpell: Option<Spell>
    var castTimer: real
    var cooldownTimer: real

    /** Mana never exceeds its maximum. */
    ghost predicate Valid()
      reads this
    {
      mana <= maxMana
    }

    /** `Player::new`: full mana of 100, not casting, no cooldown. */
    constructor (position: Vec2)
      ensures Valid() && this.position == position && mana == 100.0 && maxMana == 100.0
      ensures fresh(spellBook) && spellBook.Valid() && spellBook.selectedPerks == [] && spellBook.spells == []
      ensures castingSpell == None && castTimer == 0.0 && cooldownTimer == 0.0
    {
      this.position := position;
      mana := 100.0;
      maxMana := 100.0;
      spellBook := new SpellBook();
      castingSpell := None;
      castTimer := 0.0;
      cooldownTimer := 0.0;
    }

    /** `can_cast_spell`: enough mana, no spell being cast, and the cooldown over. */
    predicate CanCastSpell(spell: Spell)
      reads this
    {
      mana >= spell.manaCost && castingSpell.None? && cooldownTimer <= 0.0
    }

    /** `start_casting`: succeeds exactly when the spell can be cast, then pays its mana and starts its timer. */
    method StartCasting(spell: Spell) returns (started: bool)
      modifies this
      ensures old(Valid()) && spell.manaCost >= 0.0 ==> Valid()
      ensures cooldownTimer == old(cooldownTimer)
      ensures started <==> old(CanCastSpell(spell))
      ensures started ==> mana == old(mana) - spell.manaCost && castingSpell == Some(spell) && castTimer == 0.0
      ensures !started ==> mana == old(mana) && castingSpell == old(castingSpell) && castTimer == old(castTimer)
    {
      if CanCastSpell(spell) {
        mana := mana - spell.manaCost;
        castingSpell := Some(spell);
        castTimer := 0.0;
        started := true;
      } else {
        started := false;
      }
    }

    /** The cast in progress completes within the next `dt`. */
    predicate Finishes(dt: real)
      reads this
    {
      castingSpell.Some? && castTimer + dt >= castingSpell.value.castTime
    }

    /**
     * `update_casting`: the cast timer runs on; a spell whose cast time is
     * reached is returned and its cooldown begins, and nothing else happens
     * this step. Otherwise the cooldown runs down while positive and mana
     * regenerates 10 per second up to the maximum.
     */
    method UpdateCasting(dt: real) returns (finished: Option<Spell>)
      requires Valid()
      modifies this
      ensures Valid()
      ensures castTimer == if old(castingSpell).Some? then old(castTimer) + dt else old(castTimer)
      ensures old(Finishes(dt)) ==> finished == old(castingSpell) && castingSpell == None &&
                                    cooldownTimer == finished.value.cooldown && mana == old(mana)
      ensures !old(Finishes(dt)) ==> finished == None && castingSpell == old(castingSpell) &&
                                     cooldownTimer == (if old(cooldownTimer) > 0.0 then old(cooldownTimer) - dt else old(cooldownTimer)) &&
                                     mana == MinR(old(mana) + dt * 10.0, maxMana)
    {
      if castingSpell.Some? {
        var spell := castingSpell.value;
        castTimer := castTimer + dt;
        if castTimer >= spell.castTime {
          castingSpell := None;
          cooldownTimer := spell.cooldown;
          return Some(spell);
        }
      }
      if cooldownTimer > 0.0 {
        cooldownTimer := cooldownTimer - dt;
      }
      mana := MinR(mana + dt * 10.0, maxMana);
      finished := None;
    }
  }

  /**
   * A built spell with perks, cast and then waited out for its cast time,
   * comes back, and cannot be cast again right away: its cooldown is running.
   */
  method CastAndFinish(p: Player, spell: Spell) returns (started: bool, finished: Option<Spell>)
    requires p.Valid() && Built(spell) && spell.perks != [] && p.CanCastSpell(spell)
    modifies p
    ensures started && finished == Some(spell) && p.castingSpell == None
    ensures p.cooldownTimer > 0.0 && !p.CanCastSpell(spell)
  {
    started := p.StartCasting(spell);
    finished := p.UpdateCasting(spell.castTime);
  }

  /** `SpellcastingDemo`, as far as casting goes. */
  class SpellcastingDemo {
    const player: Player
    var castSpells: seq<(Spell, Vec2)>
    var currentTime: real

    /** `SpellcastingDemo::new`: a player at (400, 300), nothing cast yet. */
    constructor ()
      ensures fresh(player) && player.Valid() && player.position == Vec2(400.0, 300.0) && player.mana == 100.0
      ensures player.castingSpell == None && player.cooldownTimer == 0.0
      ensures castSpells == [] && currentTime == 0.0
    {
      player := new Player(Vec2(400.0, 300.0));
      castSpells := [];
      currentTime := 0.0;
    }

    /** `update` with `execute_spell`: a spell that finishes casting is recorded at the player's position. */
    method Update(dt: real)
      requires player.Valid()
      modifies this, player
      ensures player.Valid() && currentTime == old(currentTime) + dt
      ensures old(player.Finishes(dt)) ==> castSpells == old(castSpells) + [(old(player.castingSpell).value, player.position)]
      ensures !old(player.Finishes(dt)) ==> castSpells == old(castSpells)
    {
      currentTime := currentTime + dt;
      var finished := player.UpdateCasting(dt);
      if finished.Some? {
        castSpells := castSpells + [(finished.value, player.position)];
      }
    }
  }
}
