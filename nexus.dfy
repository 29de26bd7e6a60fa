/**
 * Nexus (models/Nexus.java): a guild's destructible heart, with a level, a
 * health pool and a state. Health is a Java double, modelled as a real.
 */
module NexusModel {

  datatype State = ACTIVE | UNDER_ATTACK | DESTROYED | CONSTRUCTION

  /** Maximum health of a freshly built level-1 Nexus. */
  const InitialMaxHealth: real := 10000.0

  /** Factor by which each upgrade multiplies the maximum health. */
  const UpgradeGrowth: real := 1.2

  class Nexus {
    var guildId: int
    var level: int
    var health: real
    var maxHealth: real
    var state: State
    var lastDestroyed: int
    var createdAt: int

    /** Health lies between 0 and the maximum. */
    predicate HealthInBounds()
      reads this
    {
      0.0 <= health <= maxHealth
    }

    /** New level-1 Nexus at full health; `now` is the clock reading. */
    constructor (guildId: int, now: int)
      ensures this.guildId == guildId && createdAt == now
      ensures level == 1 && maxHealth == InitialMaxHealth && health == maxHealth
      ensures state == ACTIVE && lastDestroyed == 0
      ensures HealthInBounds()
    {
      this.guildId := guildId;
      this.level := 1;
      this.maxHealth := InitialMaxHealth;
      this.health := InitialMaxHealth;
      this.state := ACTIVE;
      this.lastDestroyed := 0;
      this.createdAt := now;
    }

    /** Nexus loaded from storage, fields taken verbatim (no bound is checked). */
    constructor FromDatabase(guildId: int, level: int, health: real, maxHealth: real,
                             state: State, lastDestroyed: int, createdAt: int)
      ensures this.guildId == guildId && this.level == level && this.health == health
      ensures this.maxHealth == maxHealth && this.state == state
      ensures this.lastDestroyed == lastDestroyed && this.createdAt == createdAt
    {
      this.guildId := guildId;
      this.level := level;
      this.health := health;
      this.maxHealth := maxHealth;
      this.state := state;
      this.lastDestroyed := lastDestroyed;
      this.createdAt := createdAt;
    }

    predicate IsActive()
      reads this
    {
      state == ACTIVE
    }

    predicate IsDestroyed()
      reads this
    {
      state == DESTROYED
    }

    predicate IsUnderAttack()
      reads this
    {
      state == UNDER_ATTACK
    }

    /** Takes `amount` of damage, never below 0. Reaching exactly 0 destroys the
        Nexus and stamps the time (again, if it was already at 0); surviving
        damage leaves the state alone: nothing here moves to UNDER_ATTACK. */
    method Damage(amount: real, now: int)
      modifies this`health, this`state, this`lastDestroyed
      ensures health == (if old(health) - amount > 0.0 then old(health) - amount else 0.0)
      ensures health >= 0.0
      ensures health == 0.0 ==> state == DESTROYED && lastDestroyed == now
      ensures health != 0.0 ==> state == old(state) && lastDestroyed == old(lastDestroyed)
      ensures old(HealthInBounds()) && amount >= 0.0 ==> HealthInBounds()
    {
      health := if health - amount > 0.0 then health - amount else 0.0;
      if health == 0.0 {
        state := DESTROYED;
        lastDestroyed := now;
      }
    }

    /** Restores `amount` of health, never above the maximum. The state is not
        touched, so a destroyed Nexus stays DESTROYED even with health above 0. */
    method Heal(amount: real)
      modifies this`health
      ensures health == (if maxHealth < old(health) + amount then maxHealth else old(health) + amount)
      ensures health <= maxHealth
      ensures old(HealthInBounds()) && amount >= 0.0 ==> HealthInBounds()
    {
      health := if maxHealth < health + amount then maxHealth else health + amount;
    }

    /** Raises the level by one (no ceiling is checked), grows the maximum
        health by 20% and heals fully. */
    method Upgrade()
      modifies this`level, this`maxHealth, this`health
      ensures level == old(level) + 1
      ensures maxHealth == old(maxHealth) * UpgradeGrowth
      ensures health == maxHealth
      ensures old(maxHealth) >= 0.0 ==> HealthInBounds() && maxHealth >= old(maxHealth)
    {
      level := level + 1;
      maxHealth := maxHealth * UpgradeGrowth;
      health := maxHealth;
    }

    /** Health as a percentage of the maximum; 0 when the maximum is 0. */
    function HealthPercentage(): (r: real)
      reads this
      ensures maxHealth == 0.0 ==> r == 0.0
      ensures maxHealth != 0.0 ==> r * maxHealth == 100.0 * health
      ensures HealthInBounds() ==> 0.0 <= r <= 100.0
      ensures HealthInBounds() && maxHealth != 0.0 ==> (r == 100.0 <==> health == maxHealth)
    {
      if maxHealth == 0.0 then 0.0 else (health / maxHealth) * 100.0
    }
  }
}
