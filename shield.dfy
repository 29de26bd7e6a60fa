/**
 * Shield (models/Shield.java): a guild's temporary protection, moving
 * INACTIVE -> WARMUP -> ACTIVE -> EXPIRED under explicit calls. Timestamps
 * are epoch milliseconds; `now` stands for the clock reading of each call.
 */
module ShieldModel {

  datatype State = INACTIVE | WARMUP | ACTIVE | EXPIRED | COOLDOWN

  class Shield {
    var guildId: int
    var state: State
    var activatedAt: int
    var expiresAt: int
    var lastUsed: int

    constructor (guildId: int)
      ensures this.guildId == guildId
      ensures state == INACTIVE && activatedAt == 0 && expiresAt == 0 && lastUsed == 0
    {
      this.guildId := guildId;
      this.state := INACTIVE;
      this.activatedAt := 0;
      this.expiresAt := 0;
      this.lastUsed := 0;
    }

    /** Shield loaded from storage, fields taken verbatim. */
    constructor FromDatabase(guildId: int, state: State, activatedAt: int, expiresAt: int, lastUsed: int)
      ensures this.guildId == guildId && this.state == state
      ensures this.activatedAt == activatedAt && this.expiresAt == expiresAt && this.lastUsed == lastUsed
    {
      this.guildId := guildId;
      this.state := state;
      this.activatedAt := activatedAt;
      this.expiresAt := expiresAt;
      this.lastUsed := lastUsed;
    }

    predicate IsActive()
      reads this
    {
      state == ACTIVE
    }

    predicate IsWarmingUp()
      reads this
    {
      state == WARMUP
    }

    predicate IsInactive()
      reads this
    {
      state == INACTIVE
    }

    predicate IsInCooldown()
      reads this
    {
      state == COOLDOWN || state == EXPIRED
    }

    /** The shield protects its Nexus exactly while it is ACTIVE. */
    predicate IsProtecting()
      reads this
    {
      state == ACTIVE
    }

    /** Milliseconds left before expiry at time `now`; 0 when no expiry is set. */
    function RemainingTime(now: int): (r: int)
      reads this
      ensures r >= 0
      ensures expiresAt == 0 || now >= expiresAt ==> r == 0
      ensures expiresAt != 0 && now < expiresAt ==> now + r == expiresAt
    {
      if expiresAt == 0 then 0
      else if expiresAt - now > 0 then expiresAt - now else 0
    }

    /** Whole seconds left before expiry (milliseconds rounded down). */
    function RemainingTimeSeconds(now: int): (r: int)
      reads this
      ensures r >= 0
      ensures r * 1000 <= RemainingTime(now) < (r + 1) * 1000
    {
      RemainingTime(now) / 1000
    }

    /** Whether the expiry time has been reached; never with no expiry set. */
    predicate HasExpired(now: int)
      reads this
      ensures HasExpired(now) ==> RemainingTime(now) == 0
      ensures !HasExpired(now) && expiresAt != 0 ==> RemainingTime(now) > 0
    {
      expiresAt != 0 && now >= expiresAt
    }

    /** Starts the warmup now; the shield expires after warmup plus active
        duration, in seconds. Neither the current state nor any cooldown since
        `lastUsed` is checked. */
    method Activate(warmupSeconds: int, activeDurationSeconds: int, now: int)
      modifies this`state, this`activatedAt, this`expiresAt
      ensures state == WARMUP && activatedAt == now
      ensures expiresAt == now + (warmupSeconds + activeDurationSeconds) * 1000
      ensures now >= 0 && warmupSeconds + activeDurationSeconds > 0 ==> !HasExpired(now) && RemainingTime(now) > 0
    {
      state := WARMUP;
      activatedAt := now;
      expiresAt := activatedAt + (warmupSeconds + activeDurationSeconds) * 1000;
    }

    /** WARMUP becomes ACTIVE; every other state is left as it is. Afterwards the
        shield is never in WARMUP, so a second call changes nothing. */
    method CompleteWarmup()
      modifies this`state
      ensures state == AfterWarmup(old(state))
    {
      if state == WARMUP {
        state := ACTIVE;
      }
    }

    /** Ends protection now; the timestamps of the last activation are kept. */
    method Expire(now: int)
      modifies this`state, this`lastUsed
      ensures state == EXPIRED && lastUsed == now
      ensures IsInCooldown() && !IsProtecting()
    {
      state := EXPIRED;
      lastUsed := now;
    }

    /** Back to INACTIVE with no activation on record; `lastUsed` is kept. */
    method Deactivate()
      modifies this`state, this`activatedAt, this`expiresAt
      ensures state == INACTIVE && activatedAt == 0 && expiresAt == 0
      ensures forall t :: RemainingTime(t) == 0 && !HasExpired(t)
    {
      state := INACTIVE;
      activatedAt := 0;
      expiresAt := 0;
    }
  }

  /** The state after completing the warmup: WARMUP becomes ACTIVE, and
      nothing else moves. */
  function AfterWarmup(s: State): (r: State)
    ensures r != WARMUP
    ensures s != WARMUP ==> r == s
    ensures s == WARMUP ==> r == ACTIVE
  {
    if s == WARMUP then ACTIVE else s
  }

  /** Completing the warmup twice leaves the shield as completing it once. */
  lemma CompleteWarmupIdempotent(s: State)
    ensures AfterWarmup(AfterWarmup(s)) == AfterWarmup(s)
  {
  }
}
