// Loot and progression: item rarities and values, loot crates that open,
// count down and hand over their items, the player's experience, items and
// gold, and buying from the shop.
module FundingFound {
  import opened Common

  datatype LootRarity = Common | Uncommon | Rare | Epic | Legendary

  /** `LootRarity::value`. */
  function RarityValue(r: LootRarity): nat {
    match r
    case Common => 10
    case Uncommon => 25
    case Rare => 50
    case Epic => 100
    case Legendary => 250
  }

  /** `LootRarity::drop_chance`. */
  function DropChance(r: LootRarity): real {
    match r
    case Common => 0.5
    case Uncommon => 0.25
    case Rare => 0.15
    case Epic => 0.08
    case Legendary => 0.02
  }

  datatype LootType = Currency | HealthPotion | ManaPotion | WeaponUpgrade | SpellUpgrade | Cosmetic

  /** `LootType::name`. */
  function TypeName(t: LootType): string {
    match t
    case Currency => "Gold Coins"
    case HealthPotion => "Health Potion"
    case ManaPotion => "Mana Potion"
    case WeaponUpgrade => "Weapon Upgrade"
    case SpellUpgrade => "Spell Upgrade"
    case Cosmetic => "Cosmetic Item"
  }

  /** Rarer is worth more and drops less often. */
  lemma RarityOrdered()
    ensures RarityValue(Common) < RarityValue(Uncommon) < RarityValue(Rare) < RarityValue(Epic) < RarityValue(Legendary)
    ensures DropChance(Common) > DropChance(Uncommon) > DropChance(Rare) > DropChance(Epic) > DropChance(Legendary)
  {
  }

  datatype LootItem = LootItem(lootType: LootType, rarity: LootRarity, quantity: nat)

  /** `LootItem::new`: gold comes in the rarity's value of coins; anything else singly. */
  function NewItem(t: LootType, r: LootRarity): (i: LootItem)
    ensures i.lootType == t && i.rarity == r
    ensures i.quantity == if t == Currency then RarityValue(r) else 1
  {
    LootItem(t, r, if t.Currency? then RarityValue(r) else 1)
  }

  /** `LootItem::value`. */
  function ItemValue(i: LootItem): nat {
    RarityValue(i.rarity) * i.quantity
  }

  /** A new item is worth its rarity's value, squared for gold. */
  lemma NewItemValue(t: LootType, r: LootRarity)
    ensures ItemValue(NewItem(t, r)) == if t == Currency then RarityValue(r) * RarityValue(r) else RarityValue(r)
  {
  }

  /** The type a crate's random draw in [0, 1) picks. */
  function LootTypeFor(roll: real): LootType {
    if roll < 0.4 then Currency
    else if roll < 0.6 then HealthPotion
    else if roll < 0.7 then ManaPotion
    else if roll < 0.8 then WeaponUpgrade
    else if roll < 0.9 then SpellUpgrade
    else Cosmetic
  }

  /**
   * The rarity a draw picks: checked from Legendary down against each
   * rarity's own drop chance, so a rarity is picked on the draws between the
   * next rarer one's chance and its own.
   */
  function RarityFor(roll: real): (r: LootRarity)
    ensures r == Legendary <==> roll < DropChance(Legendary)
    ensures r == Common <==> roll >= DropChance(Uncommon)
    ensures r != Common && r != Legendary ==> roll < DropChance(r)
  {
    if roll < DropChance(Legendary) then Legendary
    else if roll < DropChance(Epic) then Epic
    else if roll < DropChance(Rare) then Rare
    else if roll < DropChance(Uncommon) then Uncommon
    else Common
  }

  // ---------------------------------------------------------------------
  // Loot crates
  // ---------------------------------------------------------------------

  /** `LootCrate`. */
  class LootCrate {
    const position: Vec2
    const size: Vec2
    var isOpen: bool
    var items: seq<LootItem>
    var openTimer: real

    /** The opening animation's timer never goes negative. */
    ghost predicate Valid()
      reads this
    {
      openTimer >= 0.0
    }

    /**
     * `LootCrate::new`, with its random draws given: `countRoll` picks 3 to
     * 5 items and `rolls(k)` gives the type and rarity draws of item `k`.
     */
    constructor (position: Vec2, countRoll: nat, rolls: nat -> (real, real))
      ensures Valid() && this.position == position && size == Vec2(40.0, 40.0) && !isOpen && openTimer == 0.0
      ensures |items| == 3 + countRoll % 3 && 3 <= |items| <= 5
      ensures forall k :: 0 <= k < |items| ==> items[k] == NewItem(LootTypeFor(rolls(k).0), RarityFor(rolls(k).1))
    {
      this.position := position;
      size := Vec2(40.0, 40.0);
      isOpen := false;
      openTimer := 0.0;
      var generated: seq<LootItem> := [];
      for k := 0 to 3 + countRoll % 3
        invariant |generated| == k
        invariant forall j :: 0 <= j < k ==> generated[j] == NewItem(LootTypeFor(rolls(j).0), RarityFor(rolls(j).1))
      {
        generated := generated + [NewItem(LootTypeFor(rolls(k).0), RarityFor(rolls(k).1))];
      }
      items := generated;
    }

    /** `open`: the first call opens the crate and starts a one-second timer; later calls change nothing. */
    method Open()
      requires Valid()
      modifies this
      ensures Valid() && isOpen && items == old(items)
      ensures !old(isOpen) ==> openTimer == 1.0
      ensures old(isOpen) ==> openTimer == old(openTimer)
    {
      if !isOpen {
        isOpen := true;
        openTimer := 1.0;
      }
    }

    /** `update`: an open crate's timer runs down by `dt`, stopping at 0. */
    method Update(dt: real)
      requires Valid()
      modifies this
      ensures Valid() && isOpen == old(isOpen) && items == old(items)
      ensures old(isOpen) ==> openTimer == MaxR(old(openTimer) - dt, 0.0)
      ensures !old(isOpen) ==> openTimer == old(openTimer)
    {
      if isOpen {
        openTimer := openTimer - dt;
        if openTimer <= 0.0 {
          openTimer := 0.0;
        }
      }
    }

    /** Open and finished opening: the items can be taken. */
    predicate Ready()
      reads this
    {
      isOpen && openTimer <= 0.0
    }

    /** `collect_items`: a ready crate hands over all its items and is left empty; otherwise nothing is taken. */
    method CollectItems() returns (taken: seq<LootItem>)
      modifies this
      ensures isOpen == old(isOpen) && openTimer == old(openTimer)
      ensures old(Ready()) ==> taken == old(items) && items == []
      ensures !old(Ready()) ==> taken == [] && items == old(items)
    {
      if isOpen && openTimer <= 0.0 {
        taken := items;
        items := [];
      } else {
        taken := [];
      }
    }
  }

  /** Opening twice is opening once. */
  method OpenTwice(c: LootCrate)
    requires c.Valid()
    modifies c
    ensures c.Valid() && c.isOpen && c.openTimer == (if old(c.isOpen) then old(c.openTimer) else 1.0)
  {
    c.Open();
    c.Open();
  }

  // ---------------------------------------------------------------------
  // The player
  // ---------------------------------------------------------------------

  /** `Player` of the loot game. */
  class Player {
    var position: Vec2
    var velocity: Vec2
    const size: Vec2
    var currency: nat
    var health: real
    var maxHealth: real
    var experience: nat
    var level: nat
    var inventory: seq<LootItem>

    /** Levels start at 1, so the experience threshold is positive. */
    ghost predicate Valid()
      reads this
    {
      level >= 1
    }

    /** `Player::new`: level 1, no gold, no experience, full health of 100. */
    constructor (position: Vec2)
      ensures Valid() && this.position == position && velocity == Zero && size == Vec2(20.0, 30.0)
      ensures currency == 0 && health == 100.0 && maxHealth == 100.0 && experience == 0 && level == 1 && inventory == []
    {
      this.position := position;
      velocity := Zero;
      size := Vec2(20.0, 30.0);
      currency := 0;
      health := 100.0;
      maxHealth := 100.0;
      experience := 0;
      level := 1;
      inventory := [];
    }

    /**
     * `add_experience`: the threshold is the level at entry times 100, fixed
     * for the whole call, so every level gained costs the same. It ends with
     * less experience than that threshold, one level per threshold's worth
     * used up, 10 more maximum health per level, and full health if any
     * level was gained.
     */
    method AddExperience(exp: nat)
      requires Valid()
      modifies this
      ensures Valid() && level >= old(level)
      ensures experience < old(level) * 100
      ensures (level - old(level)) * (old(level) * 100) + experience == old(experience) + exp
      ensures maxHealth == old(maxHealth) + 10.0 * (level - old(level)) as real
      ensures health == if level > old(level) then maxHealth else old(health)
      ensures currency == old(currency) && inventory == old(inventory)
    {
      experience := experience + exp;
      var needed := level * 100;
      while experience >= needed
        invariant level >= old(level) && needed == old(level) * 100
        invariant (level - old(level)) * needed + experience == old(experience) + exp
        invariant maxHealth == old(maxHealth) + 10.0 * (level - old(level)) as real
        invariant health == if level > old(level) then maxHealth else old(health)
        invariant currency == old(currency) && inventory == old(inventory)
        decreases experience
      {
        experience := experience - needed;
        level := level + 1;
        maxHealth := maxHealth + 10.0;
        health := maxHealth;
      }
    }

    /**
     * `add_item`: gold adds its quantity to the purse, a health potion heals
     * 25 up to the maximum, a mana potion does nothing, and anything else
     * goes into the inventory.
     */
    method AddItem(item: LootItem)
      modifies this
      ensures level == old(level) && experience == old(experience) && maxHealth == old(maxHealth)
      ensures ItemAdded(item, old(currency), old(health), old(inventory))
    {
      if item.lootType.Currency? {
        currency := currency + item.quantity;
      } else if item.lootType.HealthPotion? {
        health := MinR(health + 25.0, maxHealth);
      } else if item.lootType.ManaPotion? {
      } else {
        inventory := inventory + [item];
      }
    }

    /** The purse, health and inventory after `item` is added to the ones given. */
    ghost predicate ItemAdded(item: LootItem, oldCurrency: nat, oldHealth: real, oldInventory: seq<LootItem>)
      reads this
    {
      currency == (if item.lootType.Currency? then oldCurrency + item.quantity else oldCurrency) &&
      health == (if item.lootType.HealthPotion? then MinR(oldHealth + 25.0, maxHealth) else oldHealth) &&
      inventory == (if item.lootType.Currency? || item.lootType.HealthPotion? || item.lootType.ManaPotion?
                    then oldInventory else oldInventory + [item])
    }

    /** `use_currency`: succeeds exactly when the purse holds the amount, which it then pays. */
    method UseCurrency(amount: nat) returns (paid: bool)
      modifies this
      ensures paid <==> old(currency) >= amount
      ensures currency == if paid then old(currency) - amount else old(currency)
      ensures level == old(level) && experience == old(experience) && health == old(health)
      ensures maxHealth == old(maxHealth) && inventory == old(inventory)
    {
      if currency >= amount {
        currency := currency - amount;
        paid := true;
      } else {
        paid := false;
      }
    }
  }

  /** From a fresh level-1 start, experience is spent in whole hundreds: one level per hundred, the rest kept. */
  method ExperienceAtLevelOne(p: Player, exp: nat)
    requires p.Valid() && p.level == 1 && p.experience == 0
    modifies p
    ensures p.experience == exp % 100 && p.level == 1 + exp / 100
  {
    p.AddExperience(exp);
  }

  // ---------------------------------------------------------------------
  // The shop
  // ---------------------------------------------------------------------

  datatype ShopItem = ShopItem(item: LootItem, cost: nat, description: string)

  /** The shop's stock. */
  function Catalogue(): (s: seq<ShopItem>)
    ensures |s| == 3
  {
    [ShopItem(NewItem(WeaponUpgrade, Rare), 200, "Upgrade your weapon damage"),
     ShopItem(NewItem(HealthPotion, Common), 50, "Restore health"),
     ShopItem(NewItem(Cosmetic, Epic), 500, "Fancy cosmetic item")]
  }

  /** `FundingGame`, as far as buying is concerned; its crates are not part of this class. */
  class FundingGame {
    const player: Player
    const shopItems: seq<ShopItem>
    var totalEarnings: nat

    /** `FundingGame::new` for the given player: the fixed catalogue, nothing earned. */
    constructor (player: Player)
      ensures this.player == player && shopItems == Catalogue() && totalEarnings == 0
    {
      this.player := player;
      shopItems := Catalogue();
      totalEarnings := 0;
    }

    /**
     * `buy_item`: an index out of range or a purse short of the cost fails
     * and changes nothing; otherwise the cost is paid and the item added.
     */
    method BuyItem(shopIndex: nat) returns (bought: bool)
      modifies player
      ensures bought <==> shopIndex < |shopItems| && old(player.currency) >= shopItems[shopIndex].cost
      ensures !bought ==> player.currency == old(player.currency) && player.health == old(player.health) &&
                          player.inventory == old(player.inventory)
      ensures bought ==> player.ItemAdded(shopItems[shopIndex].item, old(player.currency) - shopItems[shopIndex].cost,
                                          old(player.health), old(player.inventory))
      ensures player.level == old(player.level) && player.experience == old(player.experience)
      ensures player.maxHealth == old(player.maxHealth)
    {
      if shopIndex < |shopItems| {
        var shopItem := shopItems[shopIndex];
        bought := player.UseCurrency(shopItem.cost);
        if bought {
          player.AddItem(shopItem.item);
        }
      } else {
        bought := false;
      }
    }
  }
}
