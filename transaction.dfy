/**
 * Transaction (models/Transaction.java): one money movement. Only the id can
 * be changed after construction, so the record is a value; a missing side
 * (a null UUID in Java) marks a system or guild account.
 */
module TransactionModel {
  import opened Common

  datatype Type =
    | PLAYER_TO_PLAYER | PLAYER_TO_GUILD | GUILD_TO_PLAYER
    | SYSTEM_REWARD | SYSTEM_PENALTY | TEAM_SWITCH_FEE | GUILD_CREATION_FEE
    | NEXUS_BUILD_COST | NEXUS_UPGRADE_COST | SHIELD_ACTIVATION_COST
    | MARKET_LISTING_FEE | MARKET_SALE_TAX | MARKET_PURCHASE
    | VIP_DAILY_REWARD | OBJECTIVE_REWARD | OTHER

  datatype Transaction = Transaction(
    id: int,
    from: Option<Uuid>,
    to: Option<Uuid>,
    amount: real,
    kind: Type,
    reason: string,
    timestamp: int)
  {
    predicate IsPlayerToPlayer() {
      kind == PLAYER_TO_PLAYER
    }

    /** A side is missing. */
    predicate IsSystemTransaction() {
      from.None? || to.None?
    }

    /** The player is the sender or the receiver. */
    predicate InvolvesPlayer(player: Uuid) {
      (from.Some? && from.value == player) || (to.Some? && to.value == player)
    }

    /** setId: the only change a transaction admits. */
    function WithId(newId: int): (t: Transaction)
      ensures t.id == newId
      ensures t.from == from && t.to == to && t.amount == amount
      ensures t.kind == kind && t.reason == reason && t.timestamp == timestamp
    {
      this.(id := newId)
    }
  }

  /** A new transaction stamped `now`; the id is Java's default 0 until set. */
  function NewTransaction(from: Option<Uuid>, to: Option<Uuid>, amount: real, kind: Type,
                          reason: string, now: int): (t: Transaction)
    ensures t.from == from && t.to == to && t.amount == amount
    ensures t.kind == kind && t.reason == reason && t.timestamp == now && t.id == 0
  {
    Transaction(0, from, to, amount, kind, reason, now)
  }

  /** Involvement is membership in the set of present sides. */
  lemma InvolvesPlayerMeansPresentSide(t: Transaction, player: Uuid)
    ensures t.InvolvesPlayer(player) <==> player in Sides(t)
    ensures t.from.None? && t.to.None? ==> !t.InvolvesPlayer(player)
  {
  }

  /** The accounts a transaction names; a system transaction names at most one. */
  function Sides(t: Transaction): (s: set<Uuid>)
    ensures t.IsSystemTransaction() ==> |s| <= 1
  {
    (if t.from.Some? then {t.from.value} else {}) + (if t.to.Some? then {t.to.value} else {})
  }

  /** Whether a transaction is player-to-player depends on its type tag alone,
      and changing its id changes none of the classifications. */
  lemma ClassifiersIgnoreOtherFields(t: Transaction, u: Transaction, player: Uuid, newId: int)
    requires t.kind == u.kind
    ensures t.IsPlayerToPlayer() == u.IsPlayerToPlayer()
    ensures t.WithId(newId).IsSystemTransaction() == t.IsSystemTransaction()
    ensures t.WithId(newId).InvolvesPlayer(player) == t.InvolvesPlayer(player)
  {
  }
}
