/**
 * AuditEvent (models/AuditEvent.java): one entry of the audit log. Only the
 * id and the origin address can be changed after construction, so the record
 * is a value; the classifiers look at the event type alone.
 */
module AuditModel {
  import opened Common

  datatype EventType =
    | PLAYER_JOIN
    | PLAYER_QUIT
    | MONEY_TRANSFER
    | MONEY_DEPOSIT
    | MONEY_WITHDRAW
    | TEAM_CHOOSE
    | TEAM_SWITCH
    | GUILD_CREATE
    | GUILD_JOIN
    | GUILD_LEAVE
    | GUILD_KICK
    | GUILD_PROMOTE
    | GUILD_DEMOTE
    | NEXUS_BUILD
    | NEXUS_DESTROY
    | NEXUS_UPGRADE
    | NEXUS_DAMAGE
    | SHIELD_ACTIVATE
    | SHIELD_EXPIRE
    | OBJECTIVE_START
    | OBJECTIVE_COMPLETE
    | OBJECTIVE_FAIL
    | PANEL_CREATE
    | PANEL_DELETE
    | VIP_PURCHASE
    | VIP_REWARD_CLAIM
    | MARKET_LIST
    | MARKET_BUY
    | MARKET_SELL
    | ADMIN_COMMAND
    | SUSPICIOUS_ACTIVITY
    | ECONOMY_FREEZE
    | ECONOMY_UNFREEZE

  /** The constant's name, as Enum.name() gives it. */
  function Name(e: EventType): string {
    match e
    case PLAYER_JOIN => "PLAYER_JOIN"
    case PLAYER_QUIT => "PLAYER_QUIT"
    case MONEY_TRANSFER => "MONEY_TRANSFER"
    case MONEY_DEPOSIT => "MONEY_DEPOSIT"
    case MONEY_WITHDRAW => "MONEY_WITHDRAW"
    case TEAM_CHOOSE => "TEAM_CHOOSE"
    case TEAM_SWITCH => "TEAM_SWITCH"
    case GUILD_CREATE => "GUILD_CREATE"
    case GUILD_JOIN => "GUILD_JOIN"
    case GUILD_LEAVE => "GUILD_LEAVE"
    case GUILD_KICK => "GUILD_KICK"
    case GUILD_PROMOTE => "GUILD_PROMOTE"
    case GUILD_DEMOTE => "GUILD_DEMOTE"
    case NEXUS_BUILD => "NEXUS_BUILD"
    case NEXUS_DESTROY => "NEXUS_DESTROY"
    case NEXUS_UPGRADE => "NEXUS_UPGRADE"
    case NEXUS_DAMAGE => "NEXUS_DAMAGE"
    case SHIELD_ACTIVATE => "SHIELD_ACTIVATE"
    case SHIELD_EXPIRE => "SHIELD_EXPIRE"
    case OBJECTIVE_START => "OBJECTIVE_START"
    case OBJECTIVE_COMPLETE => "OBJECTIVE_COMPLETE"
    case OBJECTIVE_FAIL => "OBJECTIVE_FAIL"
    case PANEL_CREATE => "PANEL_CREATE"
    case PANEL_DELETE => "PANEL_DELETE"
    case VIP_PURCHASE => "VIP_PURCHASE"
    case VIP_REWARD_CLAIM => "VIP_REWARD_CLAIM"
    case MARKET_LIST => "MARKET_LIST"
    case MARKET_BUY => "MARKET_BUY"
    case MARKET_SELL => "MARKET_SELL"
    case ADMIN_COMMAND => "ADMIN_COMMAND"
    case SUSPICIOUS_ACTIVITY => "SUSPICIOUS_ACTIVITY"
    case ECONOMY_FREEZE => "ECONOMY_FREEZE"
    case ECONOMY_UNFREEZE => "ECONOMY_UNFREEZE"
  }

  /** Economy events: the three money movements and freezing or unfreezing. */
  predicate IsEconomyType(e: EventType) {
    e == MONEY_TRANSFER || e == MONEY_DEPOSIT || e == MONEY_WITHDRAW ||
    e == ECONOMY_FREEZE || e == ECONOMY_UNFREEZE
  }

  /** Guild events: those whose name starts with "GUILD_". */
  predicate IsGuildType(e: EventType) {
    StartsWith(Name(e), "GUILD_")
  }

  /** String.startsWith. */
  predicate StartsWith(s: string, prefix: string)
    ensures StartsWith(s, prefix) <==> |prefix| <= |s| && s[..|prefix|] == prefix
  {
    prefix == [] || (s != [] && s[0] == prefix[0] && StartsWith(s[1..], prefix[1..]))
  }

  datatype AuditEvent = AuditEvent(
    id: int,
    player: Option<Uuid>,
    eventType: EventType,
    details: string,
    timestamp: int,
    ipAddress: Option<string>)
  {
    predicate IsSuspicious() {
      eventType == SUSPICIOUS_ACTIVITY
    }

    predicate IsEconomyRelated() {
      IsEconomyType(eventType)
    }

    predicate IsGuildRelated() {
      IsGuildType(eventType)
    }

    /** setId. */
    function WithId(newId: int): (e: AuditEvent)
      ensures e.id == newId && e.player == player && e.eventType == eventType
      ensures e.details == details && e.timestamp == timestamp && e.ipAddress == ipAddress
    {
      this.(id := newId)
    }

    /** setIpAddress. */
    function WithIpAddress(address: Option<string>): (e: AuditEvent)
      ensures e.ipAddress == address && e.id == id && e.player == player
      ensures e.eventType == eventType && e.details == details && e.timestamp == timestamp
    {
      this.(ipAddress := address)
    }
  }

  /** A new event stamped `now`, with no origin address and Java's default id 0. */
  function NewAuditEvent(player: Option<Uuid>, eventType: EventType, details: string, now: int): (e: AuditEvent)
    ensures e.player == player && e.eventType == eventType && e.details == details
    ensures e.timestamp == now && e.ipAddress == None && e.id == 0
  {
    AuditEvent(0, player, eventType, details, now, None)
  }

  /** The six guild constants, the only ones whose names start with GUILD_. */
  const GuildTypes: set<EventType> := {GUILD_CREATE, GUILD_JOIN, GUILD_LEAVE, GUILD_KICK, GUILD_PROMOTE, GUILD_DEMOTE}

  /** The name prefix test picks out exactly the six GUILD_ constants. */
  lemma GuildTypesAreTheGuildConstants(e: EventType)
    ensures IsGuildType(e) <==> e in GuildTypes
  {
    if e in GuildTypes {
      GuildConstantsStartWithGuild(e);
    } else {
      OtherConstantsDoNotStartWithGuild(e);
    }
  }

  lemma GuildConstantsStartWithGuild(e: EventType)
    requires e in GuildTypes
    ensures IsGuildType(e)
  {
    match e {
      case GUILD_CREATE =>
      case GUILD_JOIN =>
      case GUILD_LEAVE =>
      case GUILD_KICK =>
      case GUILD_PROMOTE =>
      case GUILD_DEMOTE =>
      case _ =>
    }
  }

  lemma OtherConstantsDoNotStartWithGuild(e: EventType)
    requires e !in GuildTypes
    ensures !IsGuildType(e)
  {
    match e {
      case PLAYER_JOIN =>
      case PLAYER_QUIT =>
      case MONEY_TRANSFER =>
      case MONEY_DEPOSIT =>
      case MONEY_WITHDRAW =>
      case TEAM_CHOOSE =>
      case TEAM_SWITCH =>
      case NEXUS_BUILD =>
      case NEXUS_DESTROY =>
      case NEXUS_UPGRADE =>
      case NEXUS_DAMAGE =>
      case SHIELD_ACTIVATE =>
      case SHIELD_EXPIRE =>
      case OBJECTIVE_START =>
      case OBJECTIVE_COMPLETE =>
      case OBJECTIVE_FAIL =>
      case PANEL_CREATE =>
      case PANEL_DELETE =>
      case VIP_PURCHASE =>
      case VIP_REWARD_CLAIM =>
      case MARKET_LIST =>
      case MARKET_BUY =>
      case MARKET_SELL =>
      case ADMIN_COMMAND =>
      case SUSPICIOUS_ACTIVITY =>
      case ECONOMY_FREEZE =>
      case ECONOMY_UNFREEZE =>
      case _ =>
    }
  }

  /** No event is in two of the three classes. */
  lemma ClassifiersDisjoint(a: AuditEvent)
    ensures !(a.IsSuspicious() && a.IsEconomyRelated())
    ensures !(a.IsSuspicious() && a.IsGuildRelated())
    ensures !(a.IsEconomyRelated() && a.IsGuildRelated())
  {
    GuildTypesAreTheGuildConstants(a.eventType);
  }
}
