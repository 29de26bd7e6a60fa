/**
 * NexusPlayer (models/NexusPlayer.java): a player's team, guild, VIP tier and
 * wallet. The balance is a Java double, modelled as a real; the nullable
 * team, guild id and VIP tier are options.
 */
module PlayerModel {
  import opened Common

  class NexusPlayer {
    var uuid: Uuid
    var name: string
    var team: Option<string>
    var guildId: Option<int>
    var balance: real
    var vipTier: Option<string>
    var lastLogin: int
    var lastTeamSwitch: int
    var economyFrozen: bool
    var createdAt: int

    /** A player seen for the first time. The clock is read twice, once for
        the login time and once, a little later, for the creation time, so the
        two readings are separate parameters and may differ. */
    constructor (uuid: Uuid, name: string, loginNow: int, createdNow: int)
      ensures this.uuid == uuid && this.name == name
      ensures team == None && guildId == None && vipTier == None
      ensures balance == 0.0 && !economyFrozen
      ensures lastLogin == loginNow && createdAt == createdNow && lastTeamSwitch == 0
      ensures !HasTeam() && !HasGuild() && !IsVIP()
    {
      this.uuid := uuid;
      this.name := name;
      this.team := None;
      this.guildId := None;
      this.balance := 0.0;
      this.vipTier := None;
      this.lastLogin := loginNow;
      this.lastTeamSwitch := 0;
      this.economyFrozen := false;
      this.createdAt := createdNow;
    }

    /** A team is set and is not the empty string. */
    predicate HasTeam()
      reads this
    {
      team.Some? && team.value != ""
    }

    /** A guild id is set (any id, 0 included). */
    predicate HasGuild()
      reads this
    {
      guildId.Some?
    }

    /** A VIP tier is set and is not the empty string. */
    predicate IsVIP()
      reads this
    {
      vipTier.Some? && vipTier.value != ""
    }

    method AddBalance(amount: real)
      modifies this`balance
      ensures balance == old(balance) + amount
    {
      balance := balance + amount;
    }

    /** Takes money away with no check of the balance or of the frozen flag. */
    method SubtractBalance(amount: real)
      modifies this`balance
      ensures balance == old(balance) - amount
      ensures old(CanAfford(amount)) ==> balance >= 0.0
    {
      balance := balance - amount;
    }

    /** Enough money and an economy that is not frozen: a frozen player can
        afford nothing, whatever the balance. */
    predicate CanAfford(amount: real)
      reads this
      ensures CanAfford(amount) ==> !economyFrozen && balance - amount >= 0.0
    {
      balance >= amount && !economyFrozen
    }
  }

  /** Adding and then subtracting the same amount restores the balance. */
  method AddThenSubtractBalance(p: NexusPlayer, amount: real)
    modifies p
    ensures p.balance == old(p.balance)
  {
    p.AddBalance(amount);
    p.SubtractBalance(amount);
  }
}
