// Shooting: the weapon tables, firing (ammunition, rate of fire and the fan
// of projectiles a shot produces), switching and reloading weapons, targets
// taking damage, and projectiles moving and expiring.
module PewPewPew {
  import opened Common

  /** `std::f32::consts::PI`, as a decimal. */
  const Pi: real := 3.1415927

  datatype WeaponType = Pistol | Shotgun | MachineGun | Sniper | RocketLauncher

  /** Seconds between shots. */
  function FireRate(w: WeaponType): real {
    match w
    case Pistol => 0.5
    case Shotgun => 1.0
    case MachineGun => 0.1
    case Sniper => 2.0
    case RocketLauncher => 1.5
  }

  function Damage(w: WeaponType): real {
    match w
    case Pistol => 25.0
    case Shotgun => 15.0
    case MachineGun => 12.0
    case Sniper => 80.0
    case RocketLauncher => 100.0
  }

  function ProjectileCount(w: WeaponType): nat {
    match w
    case Shotgun => 8
    case _ => 1
  }

  /** Half the angle of the fan of projectiles, in radians. */
  function SpreadAngle(w: WeaponType): real {
    match w
    case Pistol => 0.1
    case Shotgun => Pi / 6.0
    case MachineGun => 0.05
    case Sniper => 0.0
    case RocketLauncher => 0.0
  }

  function ProjectileSpeed(w: WeaponType): real {
    match w
    case Pistol => 300.0
    case Shotgun => 250.0
    case MachineGun => 400.0
    case Sniper => 600.0
    case RocketLauncher => 200.0
  }

  function Name(w: WeaponType): string {
    match w
    case Pistol => "Pistol"
    case Shotgun => "Shotgun"
    case MachineGun => "Machine Gun"
    case Sniper => "Sniper Rifle"
    case RocketLauncher => "Rocket Launcher"
  }

  /** The magazine size `Weapon::new` gives each type. */
  function MaxAmmo(w: WeaponType): nat {
    match w
    case Pistol => 12
    case Shotgun => 8
    case MachineGun => 30
    case Sniper => 5
    case RocketLauncher => 4
  }

  /**
   * The table's shape: every weapon has ammunition, a positive rate, damage
   * and speed; only the shotgun fires several projectiles; a shot's total
   * damage is largest for the shotgun (8 × 15) and the rocket launcher (100)
   * comes next.
   */
  lemma WeaponTables(w: WeaponType)
    ensures MaxAmmo(w) > 0 && FireRate(w) > 0.0 && Damage(w) > 0.0 && ProjectileSpeed(w) > 0.0
    ensures ProjectileCount(w) >= 1 && (ProjectileCount(w) > 1 <==> w == Shotgun)
    ensures 0.0 <= SpreadAngle(w) < Pi / 2.0
    ensures ProjectileCount(w) as real * Damage(w) <= ProjectileCount(Shotgun) as real * Damage(Shotgun)
    ensures w != Shotgun ==> Damage(w) <= Damage(RocketLauncher)
  {
  }

  /**
   * The angle by which projectile `i` of `count` turns away from the aim:
   * 0 for a single projectile, otherwise evenly spaced from `-spread` to
   * `spread`.
   */
  function AngleOffset(i: nat, count: nat, spread: real): real {
    if count == 1 then 0.0 else spread * ((i as real) / ((count - 1) as real) - 0.5) * 2.0
  }

  /** The fan spans exactly `-spread` to `spread`, from the first projectile to the last. */
  lemma AngleOffsetFan(i: nat, count: nat, spread: real)
    requires count > 1 && i < count && spread >= 0.0
    ensures -spread <= AngleOffset(i, count, spread) <= spread
    ensures AngleOffset(0, count, spread) == -spread && AngleOffset(count - 1, count, spread) == spread
  {
    var d := (count - 1) as real;
    var q := i as real / d;
    assert 0.0 <= q <= 1.0;
    assert AngleOffset(i, count, spread) == 2.0 * (spread * q) - spread;
    assert 0.0 <= spread * q <= spread * 1.0;
  }

  // ---------------------------------------------------------------------
  // Projectiles
  // ---------------------------------------------------------------------

  /** A projectile; its owner is an entity number, the placeholder 0 for every shot here. */
  datatype Projectile = Projectile(position: Vec2, velocity: Vec2, damage: real, lifetime: real, maxLifetime: real, owner: nat)

  const Placeholder: nat := 0

  /** `Projectile::new`: just fired, living three seconds. */
  function NewProjectile(position: Vec2, velocity: Vec2, damage: real, owner: nat): (p: Projectile)
    ensures p.position == position && p.velocity == velocity && p.damage == damage && p.owner == owner
    ensures p.lifetime == 0.0 && p.maxLifetime == 3.0
  {
    Projectile(position, velocity, damage, 0.0, 3.0, owner)
  }

  /**
   * `Projectile::update`: one step of age and motion; it stays alive while
   * it is inside the square of half-side 500 and younger than its limit.
   */
  function UpdateProjectile(p: Projectile, dt: real): (r: (Projectile, bool))
    ensures r.0 == p.(lifetime := p.lifetime + dt, position := Add(p.position, Scale(p.velocity, dt)))
    ensures r.1 <==> -500.0 <= r.0.position.x <= 500.0 && -500.0 <= r.0.position.y <= 500.0 &&
                     r.0.lifetime < r.0.maxLifetime
  {
    var q := p.(lifetime := p.lifetime + dt, position := Add(p.position, Scale(p.velocity, dt)));
    if q.position.x < -500.0 || q.position.x > 500.0 || q.position.y < -500.0 || q.position.y > 500.0 then (q, false)
    else (q, q.lifetime < q.maxLifetime)
  }

  /** A projectile never outlives its limit: after enough updates with a positive step it is gone. */
  lemma ProjectileExpires(p: Projectile, dt: real)
    requires dt > 0.0 && p.lifetime + dt >= p.maxLifetime
    ensures !UpdateProjectile(p, dt).1
  {
  }

  // ---------------------------------------------------------------------
  // Weapons
  // ---------------------------------------------------------------------

  /**
   * `Weapon`. Turning a direction into a unit vector and rotating it need a
   * square root and trigonometry, so `Fire` is given `normalize` and
   * `rotate` for them.
   */
  class Weapon {
    const weaponType: WeaponType
    var ammo: nat
    var maxAmmo: nat
    var lastFired: real

    /** `Weapon::new`: a full magazine from the table, never fired. */
    constructor (weaponType: WeaponType)
      ensures this.weaponType == weaponType && ammo == MaxAmmo(weaponType) && maxAmmo == MaxAmmo(weaponType)
      ensures lastFired == 0.0
    {
      this.weaponType := weaponType;
      var m := MaxAmmo(weaponType);
      ammo := m;
      maxAmmo := m;
      lastFired := 0.0;
    }

    /** `can_fire`: a round left and the fire rate's interval passed since the last shot. */
    predicate CanFire(currentTime: real)
      reads this
    {
      ammo > 0 && currentTime - lastFired >= FireRate(weaponType)
    }

    /**
     * `fire`: when it cannot fire, no projectiles and nothing changes;
     * otherwise one round is used, the time recorded, and the type's number
     * of projectiles leave `position`, each aimed along the normalised
     * direction turned by its fan angle, at the type's speed and damage.
     */
    method Fire(position: Vec2, direction: Vec2, currentTime: real,
                normalize: Vec2 -> Vec2, rotate: (Vec2, real) -> Vec2) returns (projectiles: seq<Projectile>)
      modifies this
      ensures maxAmmo == old(maxAmmo)
      ensures !old(CanFire(currentTime)) ==> projectiles == [] && ammo == old(ammo) && lastFired == old(lastFired)
      ensures old(CanFire(currentTime)) ==>
        ammo == old(ammo) - 1 && lastFired == currentTime &&
        |projectiles| == ProjectileCount(weaponType) &&
        forall i :: 0 <= i < |projectiles| ==> projectiles[i] == Shot(i, position, direction, normalize, rotate)
    {
      if !CanFire(currentTime) {
        return [];
      }
      lastFired := currentTime;
      ammo := ammo - 1;
      projectiles := [];
      var base := normalize(direction);
      var count := ProjectileCount(weaponType);
      var spread := SpreadAngle(weaponType);
      var damage := Damage(weaponType);
      var speed := ProjectileSpeed(weaponType);
      for i := 0 to count
        invariant |projectiles| == i
        invariant forall k :: 0 <= k < i ==> projectiles[k] == Shot(k, position, direction, normalize, rotate)
      {
        var angle := AngleOffset(i, count, spread);
        var velocity := Scale(rotate(base, angle), speed);
        projectiles := projectiles + [NewProjectile(position, velocity, damage, Placeholder)];
      }
    }

    /** Projectile `i` of a shot from this weapon. */
    function Shot(i: nat, position: Vec2, direction: Vec2,
                  normalize: Vec2 -> Vec2, rotate: (Vec2, real) -> Vec2): Projectile
    {
      var angle := AngleOffset(i, ProjectileCount(weaponType), SpreadAngle(weaponType));
      NewProjectile(position, Scale(rotate(normalize(direction), angle), ProjectileSpeed(weaponType)),
                    Damage(weaponType), Placeholder)
    }
  }

  /** Every projectile of a shot carries the weapon's damage, so a shot deals the table's total. */
  lemma ShotDamage(w: Weapon, i: nat, position: Vec2, direction: Vec2,
                   normalize: Vec2 -> Vec2, rotate: (Vec2, real) -> Vec2)
    ensures w.Shot(i, position, direction, normalize, rotate).damage == Damage(w.weaponType)
    ensures w.Shot(i, position, direction, normalize, rotate).lifetime == 0.0
    ensures w.Shot(i, position, direction, normalize, rotate).position == position
  {
  }

  /** Firing twice within the fire rate's interval yields a single shot. */
  method FireTwice(w: Weapon, position: Vec2, direction: Vec2, t: real,
                   normalize: Vec2 -> Vec2, rotate: (Vec2, real) -> Vec2)
    returns (first: seq<Projectile>, second: seq<Projectile>)
    modifies w
    ensures second == [] && w.ammo == old(w.ammo) - (if |first| > 0 then 1 else 0)
  {
    first := w.Fire(position, direction, t, normalize, rotate);
    WeaponTables(w.weaponType);
    second := w.Fire(position, direction, t, normalize, rotate);
  }

  // ---------------------------------------------------------------------
  // The player and targets
  // ---------------------------------------------------------------------

  /** `Player`: the three weapons it starts with and which one is in hand. */
  class Player {
    var position: Vec2
    const weapons: seq<Weapon>
    var currentWeapon: nat
    var health: real
    var maxHealth: real

    ghost predicate Valid()
      reads this
    {
      currentWeapon < |weapons|
    }

    /** `Player::new`: a pistol, a shotgun and a machine gun, the pistol in hand. */
    constructor (position: Vec2)
      ensures Valid() && this.position == position && currentWeapon == 0 && health == 100.0 && maxHealth == 100.0
      ensures |weapons| == 3 && weapons[0].weaponType == Pistol && weapons[1].weaponType == Shotgun &&
              weapons[2].weaponType == MachineGun
      ensures forall k :: 0 <= k < 3 ==> weapons[k].ammo == weapons[k].maxAmmo == MaxAmmo(weapons[k].weaponType)
      ensures fresh(weapons[0]) && fresh(weapons[1]) && fresh(weapons[2])
      ensures weapons[0] != weapons[1] && weapons[1] != weapons[2] && weapons[0] != weapons[2]
    {
      this.position := position;
      var pistol := new Weapon(Pistol);
      var shotgun := new Weapon(Shotgun);
      var machineGun := new Weapon(MachineGun);
      weapons := [pistol, shotgun, machineGun];
      currentWeapon := 0;
      health := 100.0;
      maxHealth := 100.0;
    }

    /** `switch_weapon`: an index in range selects that weapon; any other is ignored. */
    method SwitchWeapon(index: nat)
      requires Valid()
      modifies this
      ensures Valid() && position == old(position) && health == old(health)
      ensures currentWeapon == if index < |weapons| then index else old(currentWeapon)
    {
      if index < |weapons| {
        currentWeapon := index;
      }
    }

    /** `reload_current_weapon`: the weapon in hand is refilled to its magazine size. */
    method ReloadCurrentWeapon()
      requires Valid()
      modifies weapons[currentWeapon]
      ensures weapons[currentWeapon].ammo == weapons[currentWeapon].maxAmmo == old(weapons[currentWeapon].maxAmmo)
      ensures weapons[currentWeapon].lastFired == old(weapons[currentWeapon].lastFired)
    {
      var weapon := weapons[currentWeapon];
      weapon.ammo := weapon.maxAmmo;
    }
  }

  /**
   * `ShootingGame::player_shoot`: the weapon in hand fires from the
   * player's position, and its projectiles are appended to the game's.
   */
  method PlayerShoot(player: Player, projectiles: seq<Projectile>, direction: Vec2, currentTime: real,
                     normalize: Vec2 -> Vec2, rotate: (Vec2, real) -> Vec2) returns (all: seq<Projectile>)
    requires player.Valid()
    modifies player.weapons[player.currentWeapon]
    ensures var w := player.weapons[player.currentWeapon];
            |all| == |projectiles| + (if old(w.CanFire(currentTime)) then ProjectileCount(w.weaponType) else 0) &&
            all[..|projectiles|] == projectiles &&
            forall i :: |projectiles| <= i < |all| ==> all[i] == w.Shot(i - |projectiles|, player.position, direction, normalize, rotate)
    ensures var w := player.weapons[player.currentWeapon];
            w.maxAmmo == old(w.maxAmmo) &&
            w.ammo == old(w.ammo) - (if old(w.CanFire(currentTime)) then 1 else 0) &&
            w.lastFired == (if old(w.CanFire(currentTime)) then currentTime else old(w.lastFired))
    ensures player.Valid()
  {
    var weapon := player.weapons[player.currentWeapon];
    var fired := weapon.Fire(player.position, direction, currentTime, normalize, rotate);
    all := projectiles + fired;
  }

  datatype Target = Target(position: Vec2, health: real, maxHealth: real, size: real)

  /** `Target::new`: 50 health, size 20. */
  function NewTarget(position: Vec2): (t: Target)
    ensures t.position == position && t.health == t.maxHealth == 50.0 && t.size == 20.0
  {
    Target(position, 50.0, 50.0, 20.0)
  }

  /** `take_damage`: health drops by the damage, and the target is destroyed once it reaches 0. */
  function TakeDamage(t: Target, damage: real): (r: (Target, bool))
    ensures r.0 == t.(health := t.health - damage)
    ensures r.1 <==> t.health <= damage
  {
    var u := t.(health := t.health - damage);
    (u, u.health <= 0.0)
  }

  /** Damage adds up: two hits destroy a target exactly when their sum would. */
  lemma TakeDamageTwice(t: Target, d1: real, d2: real)
    ensures TakeDamage(TakeDamage(t, d1).0, d2) == TakeDamage(t, d1 + d2)
  {
  }

  /** A fresh target survives one pistol shot and falls to a second; one sniper shot destroys it. */
  lemma TargetVersusWeapons(p: Vec2)
    ensures !TakeDamage(NewTarget(p), Damage(Pistol)).1
    ensures TakeDamage(TakeDamage(NewTarget(p), Damage(Pistol)).0, Damage(Pistol)).1
    ensures TakeDamage(NewTarget(p), Damage(Sniper)).1
  {
  }
}
