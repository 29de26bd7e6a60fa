# Nexus plugin core, modelled in Dafny

This project models the game logic of the Nexus Minecraft plugin
(`backend/plugin/src/main/java/com/nexus`). The plugin has two factions (SOLAR and LUNAR), guilds with
a member list, points and a treasury (the *cofre*), a guild Nexus that can be
damaged, healed and upgraded, a shield with a warmup and an expiry, shared
objectives whose reward pool is split by contribution, player wallets,
transaction and audit records, and three utility classes: input validation,
time formatting and chat colours.

Each Java class is one Dafny module:

| module | Java class | form |
|---|---|---|
| `ObjectiveModel` | `models/Objective.java` | class `Objective`; the contribution table is a `map` field |
| `NexusModel` | `models/Nexus.java` | class `Nexus` |
| `ShieldModel` | `models/Shield.java` | class `Shield` |
| `GuildModel` | `models/Guild.java` | class `Guild`; the member list is a `seq` field |
| `PlayerModel` | `models/NexusPlayer.java` | class `NexusPlayer` |
| `TeamModel` | `models/Team.java` | class `Team` |
| `TransactionModel` | `models/Transaction.java` | datatype: only the id can change after construction |
| `AuditModel` | `models/AuditEvent.java` | datatype: only the id and IP address can change |
| `ValidationUtil` | `utils/ValidationUtil.java` | pure predicates and functions |
| `MessageUtil` | `utils/MessageUtil.java` | pure functions (`formatTime`, `formatTimestamp`) |
| `ColorUtil` | `utils/ColorUtil.java` | lookup functions; `repeat`, `gradient` and `rainbow` are methods with loops |
| `Common` | — | options, UUIDs, Java integer division, decimal printing, ASCII case |

These conventions hold throughout:
- The wall clock (`System.currentTimeMillis`) is a parameter `now`.
- Java `double` is `real`, and Java `int` and `long` are unbounded `int`.
- A Java reference that may be `null` is an `Option`.
- Bukkit's `ChatColor.stripColor` is a function parameter `strip`.

Each method that updates fields states the whole new state. The lemmas beside
it state what the updates keep true:
- An objective's progress stays equal to the sum of the contributions.
- A guild's member list stays free of duplicates.
- Nexus health stays between 0 and the maximum.
- The reward shares add up to the whole pool.

The pure utilities are tied to independent descriptions:
- the duration formatter to a reading of whole units, rounded down;
- the UUID regular expression to a position-by-position check;
- gradient and rainbow to the text that remains once the colour codes are removed.

## Model

| member | source | states |
|---|---|---|
| ObjectiveModel.Objective.constructor | backend/plugin/src/main/java/com/nexus/models/Objective.java:53-65 | A new objective is ACTIVE with progress 0, completedAt 0, id 0 and no participants, and its progress is accounted for by the (empty) contribution table |
| ObjectiveModel.Objective.FromDatabase | backend/plugin/src/main/java/com/nexus/models/Objective.java:68-82 | Stored fields are taken verbatim and the table starts empty, so progress is accounted for exactly when the stored progress is 0 |
| ObjectiveModel.Objective.AddProgress | backend/plugin/src/main/java/com/nexus/models/Objective.java:113-120 | Progress and the player's contribution both rise by exactly `amount`, every other entry is unchanged, the participant count grows only for a new player, reaching the goal completes the objective at `now` (with no state guard, so it can complete again), below the goal state and completedAt are untouched, and progress stays the sum of the contributions |
| ObjectiveModel.Objective.Complete | backend/plugin/src/main/java/com/nexus/models/Objective.java:122-125 | State becomes COMPLETED, stamped `now` |
| ObjectiveModel.Objective.Fail | backend/plugin/src/main/java/com/nexus/models/Objective.java:127-129 | State becomes FAILED |
| ObjectiveModel.Objective.IsActive | backend/plugin/src/main/java/com/nexus/models/Objective.java:105-107 | The state is ACTIVE; the constructor sets it, Complete and Fail leave it |
| ObjectiveModel.Objective.IsCompleted | backend/plugin/src/main/java/com/nexus/models/Objective.java:109-111 | The state is COMPLETED; AddProgress reaching the goal and Complete both set it |
| ObjectiveModel.Objective.ProgressPercentage | backend/plugin/src/main/java/com/nexus/models/Objective.java:131-134 | 0 for a zero goal; otherwise percentage × goal = 100 × progress, within 0..100 while 0 ≤ progress ≤ goal |
| ObjectiveModel.Objective.TotalParticipants | backend/plugin/src/main/java/com/nexus/models/Objective.java:136-138 | The number of distinct contributing players |
| ObjectiveModel.Objective.PlayerContribution | backend/plugin/src/main/java/com/nexus/models/Objective.java:140-142 | The player's table entry, 0 for a non-participant |
| ObjectiveModel.Objective.PlayerRewardShare | backend/plugin/src/main/java/com/nexus/models/Objective.java:144-150 | 0 for a non-participant or zero progress; otherwise share × progress = reward × contribution |
| ObjectiveModel.RewardShare | backend/plugin/src/main/java/com/nexus/models/Objective.java:144-150 | One share: 0 when the contribution or the progress is 0, else proportional to contribution / progress |
| ObjectiveModel.TotalRemove | backend/plugin/src/main/java/com/nexus/models/Objective.java:113-115 | The sum of contributions does not depend on the order the players are added up in |
| ObjectiveModel.TotalAfterAdd | backend/plugin/src/main/java/com/nexus/models/Objective.java:113-115 | Adding `a` to one entry, or creating it at `a`, adds `a` to the sum of contributions |
| ObjectiveModel.TotalSharesScaled | backend/plugin/src/main/java/com/nexus/models/Objective.java:144-150 | All players' shares together times progress equal reward times the total contribution |
| ObjectiveModel.SharesSumToReward | backend/plugin/src/main/java/com/nexus/models/Objective.java:144-150 | When progress is the total contribution, the shares add up to exactly the reward pool |
| ObjectiveModel.Objective.RewardSharesSumToReward | backend/plugin/src/main/java/com/nexus/models/Objective.java:113-150 | For an objective whose progress is accounted for (all built in game), the players' reward shares add up to the whole reward |
| NexusModel.Nexus.constructor | backend/plugin/src/main/java/com/nexus/models/Nexus.java:31-40 | Level 1, full health 10000 of 10000, ACTIVE, never destroyed, created `now`; health within bounds |
| NexusModel.Nexus.FromDatabase | backend/plugin/src/main/java/com/nexus/models/Nexus.java:43-53 | Stored fields taken verbatim |
| NexusModel.Nexus.IsActive | backend/plugin/src/main/java/com/nexus/models/Nexus.java:74-76 | The state is ACTIVE, as the constructor leaves it |
| NexusModel.Nexus.IsDestroyed | backend/plugin/src/main/java/com/nexus/models/Nexus.java:78-80 | The state is DESTROYED, which Damage sets exactly when health reaches 0 and Heal never clears |
| NexusModel.Nexus.IsUnderAttack | backend/plugin/src/main/java/com/nexus/models/Nexus.java:82-84 | The state is UNDER_ATTACK, which no operation of the model sets |
| NexusModel.Nexus.Damage | backend/plugin/src/main/java/com/nexus/models/Nexus.java:86-92 | Health drops by `amount` but not below 0; reaching 0 makes it DESTROYED stamped `now` (again if already destroyed); surviving leaves state and lastDestroyed alone (no UNDER_ATTACK); non-negative damage keeps health within bounds |
| NexusModel.Nexus.Heal | backend/plugin/src/main/java/com/nexus/models/Nexus.java:94-96 | Health rises by `amount` but never above the maximum; the state is untouched; non-negative healing keeps health within bounds |
| NexusModel.Nexus.Upgrade | backend/plugin/src/main/java/com/nexus/models/Nexus.java:98-102 | Level + 1, maximum × 1.2, health restored to the new maximum; the maximum never shrinks |
| NexusModel.Nexus.HealthPercentage | backend/plugin/src/main/java/com/nexus/models/Nexus.java:104-107 | 0 for a zero maximum; otherwise percentage × max = 100 × health, within 0..100 under the bounds, and 100 exactly at full health |
| ShieldModel.Shield.constructor | backend/plugin/src/main/java/com/nexus/models/Shield.java:27-33 | A new shield is INACTIVE with no activation, expiry or last use |
| ShieldModel.Shield.FromDatabase | backend/plugin/src/main/java/com/nexus/models/Shield.java:36-42 | Stored fields taken verbatim |
| ShieldModel.Shield.IsActive | backend/plugin/src/main/java/com/nexus/models/Shield.java:58-60 | The state is ACTIVE, reached only through CompleteWarmup |
| ShieldModel.Shield.IsWarmingUp | backend/plugin/src/main/java/com/nexus/models/Shield.java:62-64 | The state is WARMUP, which Activate sets and CompleteWarmup leaves |
| ShieldModel.Shield.IsInactive | backend/plugin/src/main/java/com/nexus/models/Shield.java:66-68 | The state is INACTIVE, as the constructor and Deactivate leave it |
| ShieldModel.Shield.IsInCooldown | backend/plugin/src/main/java/com/nexus/models/Shield.java:70-72 | The state is COOLDOWN or EXPIRED; Expire establishes it |
| ShieldModel.Shield.IsProtecting | backend/plugin/src/main/java/com/nexus/models/Shield.java:74-76 | Protection means the ACTIVE state; Expire ends it |
| ShieldModel.Shield.RemainingTime | backend/plugin/src/main/java/com/nexus/models/Shield.java:78-81 | Never negative; 0 with no expiry set or once the expiry is reached; otherwise now + remaining = expiry |
| ShieldModel.Shield.RemainingTimeSeconds | backend/plugin/src/main/java/com/nexus/models/Shield.java:83-85 | The remaining milliseconds rounded down to whole seconds |
| ShieldModel.Shield.HasExpired | backend/plugin/src/main/java/com/nexus/models/Shield.java:87-90 | Expired implies no time remains; not expired with an expiry set implies some time remains |
| ShieldModel.Shield.Activate | backend/plugin/src/main/java/com/nexus/models/Shield.java:92-96 | WARMUP from `now`, expiring after warmup + duration seconds, with no state or cooldown check; a positive total leaves it unexpired with time remaining |
| ShieldModel.Shield.CompleteWarmup | backend/plugin/src/main/java/com/nexus/models/Shield.java:98-102 | The state after is AfterWarmup of the state before |
| ShieldModel.AfterWarmup | backend/plugin/src/main/java/com/nexus/models/Shield.java:98-102 | WARMUP becomes ACTIVE, every other state stays; the result is never WARMUP |
| ShieldModel.CompleteWarmupIdempotent | backend/plugin/src/main/java/com/nexus/models/Shield.java:98-102 | Completing the warmup twice is completing it once |
| ShieldModel.Shield.Expire | backend/plugin/src/main/java/com/nexus/models/Shield.java:104-107 | EXPIRED, last used `now`; the shield is then in cooldown and not protecting |
| ShieldModel.Shield.Deactivate | backend/plugin/src/main/java/com/nexus/models/Shield.java:109-113 | INACTIVE with activation and expiry cleared, so at every time no time remains and it has not expired |
| GuildModel.Guild.constructor | backend/plugin/src/main/java/com/nexus/models/Guild.java:29-39 | Limit 20, empty treasury, 0 points, no members (a duplicate-free list), created `now` |
| GuildModel.Guild.FromDatabase | backend/plugin/src/main/java/com/nexus/models/Guild.java:42-53 | Stored fields taken verbatim, member list empty |
| GuildModel.Guild.MemberCount | backend/plugin/src/main/java/com/nexus/models/Guild.java:96-98 | The length of the member list |
| GuildModel.Guild.IsFull | backend/plugin/src/main/java/com/nexus/models/Guild.java:74-76 | The member count has reached the limit; AddMember does not consult it |
| GuildModel.Guild.IsLeader | backend/plugin/src/main/java/com/nexus/models/Guild.java:78-80 | The player is the leader, compared by UUID value |
| GuildModel.Guild.IsMember | backend/plugin/src/main/java/com/nexus/models/Guild.java:82-84 | The player is in the member list; true after AddMember, false after RemoveMember on a duplicate-free list |
| GuildModel.Guild.CanAffordCofre | backend/plugin/src/main/java/com/nexus/models/Guild.java:116-118 | The treasury covers the amount; WithdrawCofre keeps it non-negative exactly under this test |
| GuildModel.Guild.AddMember | backend/plugin/src/main/java/com/nexus/models/Guild.java:86-90 | An absent player is appended, a present one ignored, the limit never consulted; the player is a member afterwards and a duplicate-free list stays so |
| GuildModel.Guild.RemoveMember | backend/plugin/src/main/java/com/nexus/models/Guild.java:92-94 | The first occurrence is dropped; on a duplicate-free list the player is gone, the others keep their order and the list stays duplicate-free |
| GuildModel.RemoveFirst | backend/plugin/src/main/java/com/nexus/models/Guild.java:92-94 | List.remove: an absent player leaves the list unchanged, a present one shortens it by one |
| GuildModel.RemoveFirstTakesOneCopy | backend/plugin/src/main/java/com/nexus/models/Guild.java:92-94 | Removal takes away one copy of the player and nothing else (multisets) |
| GuildModel.IndexOfIsFirst | backend/plugin/src/main/java/com/nexus/models/Guild.java:92-94 | No position before the found index holds the player |
| GuildModel.RemoveFirstSplits | backend/plugin/src/main/java/com/nexus/models/Guild.java:92-94 | Removal is the list cut at the first occurrence and joined |
| GuildModel.RemoveFirstOnDistinct | backend/plugin/src/main/java/com/nexus/models/Guild.java:86-94 | On a duplicate-free list removal equals filtering the player out, leaves no trace of it and keeps the list duplicate-free |
| GuildModel.Guild.AddPoints | backend/plugin/src/main/java/com/nexus/models/Guild.java:100-102 | Points rise by `amount` |
| GuildModel.Guild.SubtractPoints | backend/plugin/src/main/java/com/nexus/models/Guild.java:104-106 | Points fall by `amount` but never below 0 |
| GuildModel.Guild.DepositCofre | backend/plugin/src/main/java/com/nexus/models/Guild.java:108-110 | The treasury rises by `amount` |
| GuildModel.Guild.WithdrawCofre | backend/plugin/src/main/java/com/nexus/models/Guild.java:112-114 | The treasury falls by `amount` without a check; after an affordable withdrawal it is not negative |
| GuildModel.DepositThenWithdrawCofre | backend/plugin/src/main/java/com/nexus/models/Guild.java:108-114 | Depositing and withdrawing the same amount restores the treasury |
| PlayerModel.NexusPlayer.constructor | backend/plugin/src/main/java/com/nexus/models/NexusPlayer.java:27-38 | No team, guild or VIP tier, balance 0, not frozen, no team switch; lastLogin and createdAt are two separate clock readings, which need not be equal |
| PlayerModel.NexusPlayer.HasTeam | backend/plugin/src/main/java/com/nexus/models/NexusPlayer.java:63-65 | A team is set and is not the empty string; false for a new player |
| PlayerModel.NexusPlayer.HasGuild | backend/plugin/src/main/java/com/nexus/models/NexusPlayer.java:67-69 | A guild id is set, whatever its value; false for a new player |
| PlayerModel.NexusPlayer.IsVIP | backend/plugin/src/main/java/com/nexus/models/NexusPlayer.java:71-73 | A VIP tier is set and is not the empty string; false for a new player |
| PlayerModel.NexusPlayer.AddBalance | backend/plugin/src/main/java/com/nexus/models/NexusPlayer.java:75-77 | Balance rises by `amount` |
| PlayerModel.NexusPlayer.SubtractBalance | backend/plugin/src/main/java/com/nexus/models/NexusPlayer.java:79-81 | Balance falls by `amount` without a check; after an affordable payment it is not negative |
| PlayerModel.NexusPlayer.CanAfford | backend/plugin/src/main/java/com/nexus/models/NexusPlayer.java:83-85 | Affordable means enough balance and an economy that is not frozen |
| PlayerModel.AddThenSubtractBalance | backend/plugin/src/main/java/com/nexus/models/NexusPlayer.java:75-81 | Adding and subtracting the same amount restores the balance |
| TeamModel.Team.constructor | backend/plugin/src/main/java/com/nexus/models/Team.java:18-23 | 0 points, 0 members, created `now` |
| TeamModel.Team.FromDatabase | backend/plugin/src/main/java/com/nexus/models/Team.java:26-31 | Stored fields taken verbatim |
| TeamModel.Team.AddPoints | backend/plugin/src/main/java/com/nexus/models/Team.java:44-46 | Points rise by `amount` |
| TeamModel.Team.SubtractPoints | backend/plugin/src/main/java/com/nexus/models/Team.java:48-50 | Points fall by `amount` but never below 0 |
| TeamModel.Team.IncrementMembers | backend/plugin/src/main/java/com/nexus/models/Team.java:52-54 | One member more |
| TeamModel.Team.DecrementMembers | backend/plugin/src/main/java/com/nexus/models/Team.java:56-58 | One member fewer, but never below 0 |
| TeamModel.Team.IsSolar | backend/plugin/src/main/java/com/nexus/models/Team.java:60-62 | "SOLAR".equalsIgnoreCase(name), false for a null name; SolarAndLunarExclusive relates it to the upper-cased name |
| TeamModel.Team.IsLunar | backend/plugin/src/main/java/com/nexus/models/Team.java:64-66 | "LUNAR".equalsIgnoreCase(name), false for a null name; SolarAndLunarExclusive relates it to the upper-cased name |
| TeamModel.Team.SolarAndLunarExclusive | backend/plugin/src/main/java/com/nexus/models/Team.java:60-66 | No team is both SOLAR and LUNAR; each test is comparing the upper-cased name |
| TeamModel.IncrementThenDecrement | backend/plugin/src/main/java/com/nexus/models/Team.java:52-58 | From any count ≥ 0, a join followed by a leave restores the count |
| TransactionModel.NewTransaction | backend/plugin/src/main/java/com/nexus/models/Transaction.java:42-49 | A new record keeps its arguments, is stamped `now` and has id 0 |
| TransactionModel.Transaction.WithId | backend/plugin/src/main/java/com/nexus/models/Transaction.java:72 | setId changes the id and nothing else |
| TransactionModel.Transaction.IsPlayerToPlayer | backend/plugin/src/main/java/com/nexus/models/Transaction.java:75-77 | The type tag is PLAYER_TO_PLAYER, whatever the sides |
| TransactionModel.Transaction.IsSystemTransaction | backend/plugin/src/main/java/com/nexus/models/Transaction.java:79-81 | A side is missing; such a transaction names at most one account (Sides) |
| TransactionModel.Transaction.InvolvesPlayer | backend/plugin/src/main/java/com/nexus/models/Transaction.java:83-86 | The player is a present sender or receiver; InvolvesPlayerMeansPresentSide states it as membership in Sides |
| TransactionModel.Sides | backend/plugin/src/main/java/com/nexus/models/Transaction.java:79-86 | The accounts a transaction names; a system transaction (a missing side) names at most one |
| TransactionModel.InvolvesPlayerMeansPresentSide | backend/plugin/src/main/java/com/nexus/models/Transaction.java:83-86 | A player is involved exactly when it is one of the present sides; with both sides missing nobody is |
| TransactionModel.ClassifiersIgnoreOtherFields | backend/plugin/src/main/java/com/nexus/models/Transaction.java:72-86 | Player-to-player depends on the type alone, and setting the id changes no classification |
| AuditModel.NewAuditEvent | backend/plugin/src/main/java/com/nexus/models/AuditEvent.java:58-64 | A new event keeps its arguments, is stamped `now`, has id 0 and no IP address |
| AuditModel.AuditEvent.WithId | backend/plugin/src/main/java/com/nexus/models/AuditEvent.java:85 | setId changes the id and nothing else |
| AuditModel.AuditEvent.WithIpAddress | backend/plugin/src/main/java/com/nexus/models/AuditEvent.java:86 | setIpAddress changes the address and nothing else |
| AuditModel.AuditEvent.IsSuspicious | backend/plugin/src/main/java/com/nexus/models/AuditEvent.java:89-91 | The event type is SUSPICIOUS_ACTIVITY |
| AuditModel.AuditEvent.IsEconomyRelated | backend/plugin/src/main/java/com/nexus/models/AuditEvent.java:93-99 | The event type is one of the five economy constants; ClassifiersDisjoint separates it from the other classes |
| AuditModel.AuditEvent.IsGuildRelated | backend/plugin/src/main/java/com/nexus/models/AuditEvent.java:101-103 | The event type name starts with GUILD_, which GuildTypesAreTheGuildConstants shows picks exactly the six guild constants |
| AuditModel.StartsWith | backend/plugin/src/main/java/com/nexus/models/AuditEvent.java:102 | String.startsWith: the prefix fits and the string begins with it |
| AuditModel.GuildTypesAreTheGuildConstants | backend/plugin/src/main/java/com/nexus/models/AuditEvent.java:101-103 | The name-prefix test `GUILD_` picks out exactly the six guild constants |
| AuditModel.ClassifiersDisjoint | backend/plugin/src/main/java/com/nexus/models/AuditEvent.java:89-103 | No event is in two of the classes suspicious, economy and guild |
| ValidationUtil.PositiveMoneyIsValidMoney | backend/plugin/src/main/java/com/nexus/utils/ValidationUtil.java:22-37 | isPositiveMoney is isValidMoney (0.01..999999999.99), whose values all lie strictly between 0 and 10^9 |
| ValidationUtil.IsValidMoney | backend/plugin/src/main/java/com/nexus/utils/ValidationUtil.java:22-30 | The amount lies between 0.01 and 999999999.99, both included |
| ValidationUtil.IsPositiveMoney | backend/plugin/src/main/java/com/nexus/utils/ValidationUtil.java:35-37 | Valid money that is also above 0; PositiveMoneyIsValidMoney shows the extra test changes nothing |
| ValidationUtil.IsValidPlayerName | backend/plugin/src/main/java/com/nexus/utils/ValidationUtil.java:59-65 | Present, non-empty and matching [a-zA-Z0-9_]{3,16}; NameChecksArePatternChecks shows the emptiness test is implied |
| ValidationUtil.IsValidGuildName | backend/plugin/src/main/java/com/nexus/utils/ValidationUtil.java:45-54 | Present, non-empty, and matching the name pattern once colour-stripped |
| ValidationUtil.NameChecksArePatternChecks | backend/plugin/src/main/java/com/nexus/utils/ValidationUtil.java:45-65 | A player name is valid exactly when present and matching [a-zA-Z0-9_]{3,16}; a guild name exactly when present, non-empty and valid as a player name once colour-stripped |
| ValidationUtil.ValidTeamNames | backend/plugin/src/main/java/com/nexus/utils/ValidationUtil.java:70-77 | A team name is valid exactly when it spells SOLAR or LUNAR in any mix of cases |
| ValidationUtil.IsValidTeamName | backend/plugin/src/main/java/com/nexus/utils/ValidationUtil.java:70-77 | Present and upper-casing to SOLAR or LUNAR; ValidTeamNames states it letter by letter |
| ValidationUtil.RemoveDangerous | backend/plugin/src/main/java/com/nexus/utils/ValidationUtil.java:90-91 | No character of [';"\\] is left, every other character is kept, and the text never grows |
| ValidationUtil.RemoveDangerousIsFilter | backend/plugin/src/main/java/com/nexus/utils/ValidationUtil.java:90-91 | Removal works character by character: a dangerous character vanishes, any other stays, and removal from a concatenation is the concatenation of the removals, so the kept characters keep their order and number |
| ValidationUtil.Trim | backend/plugin/src/main/java/com/nexus/utils/ValidationUtil.java:93-94 | The result is a slice of the input with only blanks (≤ U+0020) cut from either end, starts and ends with a non-blank, and keeps every non-blank character |
| ValidationUtil.Sanitize | backend/plugin/src/main/java/com/nexus/utils/ValidationUtil.java:82-97 | null gives ""; the result has no dangerous character and no blank at either end, and every character of the colour-stripped input that is neither dangerous nor blank is still in it |
| ValidationUtil.SanitizeKeepsValidNames | backend/plugin/src/main/java/com/nexus/utils/ValidationUtil.java:59-97 | A well-formed player name without colour codes passes sanitize unchanged |
| ValidationUtil.SanitizeKeepsSafeText | backend/plugin/src/main/java/com/nexus/utils/ValidationUtil.java:82-97 | Text with no colour codes, no dangerous character and no blank at either end passes sanitize unchanged |
| ValidationUtil.RemoveDangerousKeeps | backend/plugin/src/main/java/com/nexus/utils/ValidationUtil.java:90-91 | Text without dangerous characters is unchanged by their removal |
| ValidationUtil.ContainsAnyOf | backend/plugin/src/main/java/com/nexus/utils/ValidationUtil.java:116-122 | True exactly when some listed word occurs in the text |
| ValidationUtil.ContainsProfanity | backend/plugin/src/main/java/com/nexus/utils/ValidationUtil.java:103-123 | True exactly when the text is present, non-empty and its lower case contains a blacklisted word; with the shipped empty list, never |
| ValidationUtil.IsPositiveInteger | backend/plugin/src/main/java/com/nexus/utils/ValidationUtil.java:128-130 | The value is above 0 |
| ValidationUtil.IsNonNegativeInteger | backend/plugin/src/main/java/com/nexus/utils/ValidationUtil.java:135-137 | The value is at least 0 |
| ValidationUtil.IsInRange | backend/plugin/src/main/java/com/nexus/utils/ValidationUtil.java:142-144 | min ≤ value ≤ max on ints; EmptyRangeHoldsNothing shows an inverted range holds nothing |
| ValidationUtil.IsInRangeReal | backend/plugin/src/main/java/com/nexus/utils/ValidationUtil.java:149-151 | min ≤ value ≤ max on doubles |
| ValidationUtil.EmptyRangeHoldsNothing | backend/plugin/src/main/java/com/nexus/utils/ValidationUtil.java:142-151 | Both range checks (int and double) hold nothing when min > max |
| ValidationUtil.IsNullOrEmpty | backend/plugin/src/main/java/com/nexus/utils/ValidationUtil.java:156-158 | null, or empty once trimmed; NullOrEmptyMeansBlank shows this is "every character is a blank" |
| ValidationUtil.NullOrEmptyMeansBlank | backend/plugin/src/main/java/com/nexus/utils/ValidationUtil.java:156-158 | A present string is "null or empty" exactly when every character is a blank |
| ValidationUtil.IsValidUUID | backend/plugin/src/main/java/com/nexus/utils/ValidationUtil.java:163-173 | Present and matching the 8-4-4-4-12 hex-group pattern; ValidUUIDByPosition restates it position by position |
| ValidationUtil.ValidUUIDByPosition | backend/plugin/src/main/java/com/nexus/utils/ValidationUtil.java:163-173 | The UUID pattern holds exactly for 36 characters with dashes at 8, 13, 18, 23 and hex digits elsewhere |
| MessageUtil.FormatTime | backend/plugin/src/main/java/com/nexus/utils/MessageUtil.java:108-137 | formatTime, branch for branch; its meaning is stated by FormatTimeIsReading and ReadingRoundsDown |
| MessageUtil.MajorUnit | backend/plugin/src/main/java/com/nexus/utils/MessageUtil.java:108-161 | The unit both formatters count in: minutes, hours or days, never seconds, and never longer than the duration |
| MessageUtil.ReadingOf | backend/plugin/src/main/java/com/nexus/utils/MessageUtil.java:113-136 | The two-unit reading of a duration of at least a minute, with at least one major unit |
| MessageUtil.FormatTimeIsReading | backend/plugin/src/main/java/com/nexus/utils/MessageUtil.java:108-137 | Below 60, the seconds with "s"; from 60 on, formatTime shows the reading of the duration: whole units of the largest of minute, hour and day that fits, then whole units of the next smaller one, left out when 0 |
| MessageUtil.ReadingRoundsDown | backend/plugin/src/main/java/com/nexus/utils/MessageUtil.java:113-136 | The reading never overstates, is short by less than one smaller unit, and its counts stay below 60 minutes, 60 seconds or 24 hours in their bands |
| MessageUtil.FormatTimeExample | backend/plugin/src/main/java/com/nexus/utils/MessageUtil.java:104-137 | 3665 seconds format as "1h 1m", not as the "1h 1m 5s" the comment shows |
| MessageUtil.FormatTimestamp | backend/plugin/src/main/java/com/nexus/utils/MessageUtil.java:142-161 | formatTimestamp at time `now`, branch for branch with truncating division; its meaning is stated by FormatTimestampMeaning |
| MessageUtil.FormatTimestampMeaning | backend/plugin/src/main/java/com/nexus/utils/MessageUtil.java:142-161 | "agora mesmo" exactly when less than a minute has passed (future timestamps included); otherwise a count ≥ 1 of whole minutes, hours or days (the largest that fits), with the plural "s" exactly above 1 |
| MessageUtil.AgoIsNotNow | backend/plugin/src/main/java/com/nexus/utils/MessageUtil.java:149-160 | A counted text is never "agora mesmo" |
| ColorUtil.ColorStringInjective | backend/plugin/src/main/java/com/nexus/utils/ColorUtil.java:87-88 | Distinct colours print as distinct codes |
| ColorUtil.ColorString | backend/plugin/src/main/java/com/nexus/utils/ColorUtil.java:87 | A colour prints as the section sign followed by its one-character code |
| ColorUtil.GetTeamColor | backend/plugin/src/main/java/com/nexus/utils/ColorUtil.java:31-44 | The team colour table; TeamColorMatchesTeamName states which names get which colour |
| ColorUtil.TeamColorMatchesTeamName | backend/plugin/src/main/java/com/nexus/utils/ColorUtil.java:31-44 | Yellow exactly for SOLAR in any case, dark purple exactly for LUNAR, white exactly for null or any name that is not a valid team |
| ColorUtil.GetVIPColor | backend/plugin/src/main/java/com/nexus/utils/ColorUtil.java:49-64 | The VIP tier colour table; VIPColorMeaning states which tiers get which colour |
| ColorUtil.VIPColorMeaning | backend/plugin/src/main/java/com/nexus/utils/ColorUtil.java:49-64 | Gold exactly for GUERREIRO, yellow exactly for MAGO, gray exactly for null or LORDE, white exactly for any other tier |
| ColorUtil.GetPercentageColor | backend/plugin/src/main/java/com/nexus/utils/ColorUtil.java:214-226 | The percentage colour bands; PercentageColorMonotone states their order and range |
| ColorUtil.PercentageColorMonotone | backend/plugin/src/main/java/com/nexus/utils/ColorUtil.java:214-226 | The colour never gets worse as the percentage grows, and 0..100 is exactly the red, yellow and green bands |
| ColorUtil.RepeatedShape | backend/plugin/src/main/java/com/nexus/utils/ColorUtil.java:167-177 | Repeating has length max(n, 0) × \|s\| and holds s[i mod \|s\|] at position i |
| ColorUtil.Repeat | backend/plugin/src/main/java/com/nexus/utils/ColorUtil.java:167-177 | The builder loop returns `str` repeated `times` times, "" for times ≤ 0 |
| ColorUtil.Center | backend/plugin/src/main/java/com/nexus/utils/ColorUtil.java:149-162 | center, with the visible length taken after colour stripping and truncating division for the left padding; CenterMeaning states the result |
| ColorUtil.CenterMeaning | backend/plugin/src/main/java/com/nexus/utils/ColorUtil.java:149-162 | Text whose visible length is at least width − 1 is returned as is; otherwise it is padded with spaces on both sides to visible width exactly, the right side taking the odd space |
| ColorUtil.SpacesAreSpaces | backend/plugin/src/main/java/com/nexus/utils/ColorUtil.java:161 | The padding is made of spaces only |
| ColorUtil.Gradient | backend/plugin/src/main/java/com/nexus/utils/ColorUtil.java:69-91 | The loop builds GradientOf: "" for null or empty text; spaces copied bare; any other character at index i (spaces counted) after the start colour for even i and the end colour for odd i |
| ColorUtil.GradientUncolors | backend/plugin/src/main/java/com/nexus/utils/ColorUtil.java:69-91 | Removing colour codes from a gradient gives the text back, and it is two characters longer per non-space character |
| ColorUtil.Rainbow | backend/plugin/src/main/java/com/nexus/utils/ColorUtil.java:96-125 | The loop builds RainbowOf: the k-th non-space character gets colour k mod 7 of red, gold, yellow, green, aqua, blue, light purple; spaces are copied bare and do not advance the cycle |
| ColorUtil.RainbowUncolors | backend/plugin/src/main/java/com/nexus/utils/ColorUtil.java:96-125 | Removing colour codes from a rainbow gives the text back, and it is two characters longer per non-space character |
| ColorUtil.RainbowCycles | backend/plugin/src/main/java/com/nexus/utils/ColorUtil.java:101-122 | Starting the cycle seven colours later gives the same rainbow |
| ColorUtil.ColouringsShowTheText | backend/plugin/src/main/java/com/nexus/utils/ColorUtil.java:69-125 | Gradient and rainbow of null or "" are ""; of any text they show exactly that text once colour codes are removed |
| Common.JavaDiv | backend/plugin/src/main/java/com/nexus/utils/MessageUtil.java:143 | Java's `/` on longs, truncating toward zero: the remainder a − d·q lies in [0, d) for a non-negative dividend and in (−d, 0] for a negative one, whose quotient is never positive |
| Common.NatToStringRoundTrip | backend/plugin/src/main/java/com/nexus/utils/MessageUtil.java:110-160 | The decimal text of a count reads back as that count |
| Common.EqualsIgnoreCaseIsUpperEquality | backend/plugin/src/main/java/com/nexus/models/Team.java:60-66 | equalsIgnoreCase is equality of the upper-cased strings |

## Left out

- Integer width: Java `int` and `long` are unbounded here. No wrap-around is modelled: in `addProgress`, in points and member counters, or in `(warmupSeconds + activeDurationSeconds) * 1000L`, where the int sum could wrap before the widening.
- Floating point: `double` is `real`. There is no IEEE rounding, NaN or infinity. So `upgrade`'s `maxHealth * 1.2`, both percentages and the reward shares are exact.
- `ChatColor.stripColor` and `translateAlternateColorCodes` belong to Bukkit and are not part of this model. Stripping is a parameter `strip`, and `colorize` and `stripColor` are not modelled. `ColorUtil.Uncolor` only states what gradient and rainbow leave once codes are removed.
- ChatColor codes: the enumeration and its `§x` codes come from Bukkit, not from this repository. Only the 22 classic colours and formats are modelled.
- Case mapping: `toUpperCase`, `toLowerCase` and `equalsIgnoreCase` map ASCII letters only. Locale-dependent and non-ASCII case rules are not modelled.
- Characters: Java strings are UTF-16 code units, while Dafny `char` is a Unicode scalar value. Text with surrogate pairs is not modelled.
- Nexus location: the Bukkit `Location` field of `Nexus` is not modelled.
- Getters, setters and `toString`: not modelled as operations. The setters (for example `Objective.setProgress`) can break the invariants proved here, and the model does not include them.
- `ColorUtil.header`, `separator` and `parseColor` are not modelled. They print box-drawing borders around `center` and `repeat`, and `parseColor` uses `ChatColor.valueOf`, whose name table belongs to Bukkit.
- The rest of `MessageUtil` is not modelled: sending, broadcasting, configured messages, `formatMoney` (`DecimalFormat`) and `progressBar` (floating-point rounding).
- Out of scope: services, `DatabaseService`, `ConfigManager`, `NexusPlugin`, `Panel`, the payment API and the web frontend. They are I/O, configuration or Bukkit glue.
- The Guild leader, the transaction `uuid` argument and the player `uuid` are non-null `Uuid` values. A `null` argument to `isLeader`, `isMember` or `involvesPlayer` is not modelled.
- Objective reward distribution, shield cooldown enforcement and Nexus rebuild exist in the source only as TODOs and are not modelled.

Where the code and its documentation disagree, the model follows the code:
- `addProgress` has no state guard.
- `damage` re-stamps `lastDestroyed` on an already destroyed Nexus.
- `heal` leaves a destroyed Nexus DESTROYED.
- No operation sets UNDER_ATTACK.
- `activate` checks no cooldown.
- `formatTime(3665)` is "1h 1m", although its comment says "1h 1m 5s" (`MessageUtil.FormatTimeExample`).
