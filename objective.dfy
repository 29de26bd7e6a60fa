/**
 * Objective (models/Objective.java): a shared goal with a progress counter,
 * a per-player contribution table and a reward pool that is split in
 * proportion to the contributions.
 */
module ObjectiveModel {
  import opened Common

  datatype Category = PVE | PVP | EXPLORACAO | SUPORTE
  datatype Difficulty = FACIL | MEDIO | DIFICIL | EXTREMO
  datatype State = ACTIVE | COMPLETED | FAILED | EXPIRED

  // ---------------------------------------------------------------------------
  // Sums over a contribution table
  // ---------------------------------------------------------------------------

  /** Some key of a non-empty table; every sum below peels off this same key. */
  ghost function Pick(keys: set<Uuid>): (k: Uuid)
    requires keys != {}
    ensures k in keys
  {
    var k :| k in keys; k
  }

  /** The sum of all contributions in a table. */
  ghost function Total(m: map<Uuid, int>): int
    decreases |m|
  {
    if m == map[] then 0
    else
      var k := Pick(m.Keys);
      m[k] + Total(m - {k})
  }

  /** The sum does not depend on which key is peeled off first. */
  lemma {:induction false} TotalRemove(m: map<Uuid, int>, k: Uuid)
    requires k in m
    ensures Total(m) == m[k] + Total(m - {k})
    decreases |m|
  {
    var j := Pick(m.Keys);
    if j != k {
      assert (m - {j}) - {k} == (m - {k}) - {j};
      TotalRemove(m - {j}, k);
      TotalRemove(m - {k}, j);
    }
  }

  /** Adding `a` to one entry (creating it at `a` if absent) adds `a` to the total. */
  lemma TotalAfterAdd(m: map<Uuid, int>, k: Uuid, a: int)
    ensures Total(m[k := (if k in m then m[k] else 0) + a]) == Total(m) + a
  {
    var m' := m[k := (if k in m then m[k] else 0) + a];
    TotalRemove(m', k);
    assert m' - {k} == m - {k};
    if k in m {
      TotalRemove(m, k);
    } else {
      assert m - {k} == m;
    }
  }

  /** One player's share of `reward` (getPlayerRewardShare): nothing for a
      non-participant or while nothing has been achieved, else the
      proportional part contribution / progress of the pool. */
  function RewardShare(reward: real, contribution: int, progress: int): (r: real)
    ensures contribution == 0 || progress == 0 ==> r == 0.0
    ensures progress != 0 ==> r * (progress as real) == reward * (contribution as real)
  {
    if contribution == 0 || progress == 0 then 0.0
    else reward * ((contribution as real) / (progress as real))
  }

  /** The shares of every player in a table, added up. */
  ghost function TotalShares(m: map<Uuid, int>, reward: real, progress: int): real
    decreases |m|
  {
    if m == map[] then 0.0
    else
      var k := Pick(m.Keys);
      RewardShare(reward, m[k], progress) + TotalShares(m - {k}, reward, progress)
  }

  /** The shares add up to the pool scaled by total contribution / progress. */
  lemma {:induction false} TotalSharesScaled(m: map<Uuid, int>, reward: real, progress: int)
    requires progress != 0
    ensures TotalShares(m, reward, progress) * (progress as real) == reward * (Total(m) as real)
    decreases |m|
  {
    if m != map[] {
      var k := Pick(m.Keys);
      TotalSharesScaled(m - {k}, reward, progress);
      var p := progress as real;
      var rest := TotalShares(m - {k}, reward, progress);
      var share := RewardShare(reward, m[k], progress);
      var c := m[k] as real;
      var t := Total(m - {k}) as real;
      assert share * p == reward * c;
      assert rest * p == reward * t;
      Distribute(share, rest, p);
      Distribute(c, t, reward);
      assert (c + t) * reward == reward * ((m[k] + Total(m - {k})) as real);
    }
  }

  lemma Distribute(x: real, y: real, z: real)
    ensures (x + y) * z == x * z + y * z
  {
  }

  /** When progress is the sum of the contributions, splitting the reward
      hands out exactly the whole pool. */
  lemma SharesSumToReward(m: map<Uuid, int>, reward: real, progress: int)
    requires progress != 0 && progress == Total(m)
    ensures TotalShares(m, reward, progress) == reward
  {
    TotalSharesScaled(m, reward, progress);
    var p := progress as real;
    assert TotalShares(m, reward, progress) * p == reward * p;
  }

  // ---------------------------------------------------------------------------
  // The Objective object
  // ---------------------------------------------------------------------------

  class Objective {
    var id: int
    var name: string
    var description: string
    var category: Category
    var difficulty: Difficulty
    var reward: real
    var state: State
    var progress: int
    var goal: int
    var createdAt: int
    var completedAt: int
    /** Contribution of each participating player. */
    var participants: map<Uuid, int>

    /** Progress is accounted for by the contributions. */
    ghost predicate ProgressIsAccounted()
      reads this
    {
      progress == Total(participants)
    }

    /** New objective created in game; `now` is the clock reading. */
    constructor (name: string, description: string, category: Category, difficulty: Difficulty,
                 goal: int, reward: real, now: int)
      ensures this.name == name && this.description == description
      ensures this.category == category && this.difficulty == difficulty
      ensures this.goal == goal && this.reward == reward
      ensures id == 0 && createdAt == now
      ensures state == ACTIVE && progress == 0 && completedAt == 0 && participants == map[]
      ensures ProgressIsAccounted()
    {
      this.id := 0;
      this.name := name;
      this.description := description;
      this.category := category;
      this.difficulty := difficulty;
      this.goal := goal;
      this.reward := reward;
      this.state := ACTIVE;
      this.progress := 0;
      this.createdAt := now;
      this.completedAt := 0;
      this.participants := map[];
    }

    /** Objective loaded from storage: the stored progress is taken as is and
        the contribution table starts empty, so progress need not be
        accounted for by contributions. */
    constructor FromDatabase(id: int, name: string, description: string, category: Category,
                             difficulty: Difficulty, reward: real, state: State, progress: int,
                             goal: int, createdAt: int, completedAt: int)
      ensures this.id == id && this.name == name && this.description == description
      ensures this.category == category && this.difficulty == difficulty && this.reward == reward
      ensures this.state == state && this.progress == progress && this.goal == goal
      ensures this.createdAt == createdAt && this.completedAt == completedAt
      ensures participants == map[]
      ensures ProgressIsAccounted() <==> progress == 0
    {
      this.id := id;
      this.name := name;
      this.description := description;
      this.category := category;
      this.difficulty := difficulty;
      this.reward := reward;
      this.state := state;
      this.progress := progress;
      this.goal := goal;
      this.createdAt := createdAt;
      this.completedAt := completedAt;
      this.participants := map[];
    }

    predicate IsActive()
      reads this
    {
      state == ACTIVE
    }

    predicate IsCompleted()
      reads this
    {
      state == COMPLETED
    }

    /** Player `player` contributes `amount`. There is no state guard: a
        completed or failed objective keeps accumulating, and reaching the
        goal again completes it again with a new completion time. */
    method AddProgress(player: Uuid, amount: int, now: int)
      modifies this`progress, this`participants, this`state, this`completedAt
      ensures progress == old(progress) + amount
      ensures player in participants
      ensures participants[player] == old(PlayerContribution(player)) + amount
      ensures forall p :: p != player ==> (p in participants <==> p in old(participants))
      ensures forall p :: p != player && p in participants ==> participants[p] == old(participants)[p]
      ensures TotalParticipants() == old(TotalParticipants()) + (if player in old(participants) then 0 else 1)
      ensures progress >= goal ==> state == COMPLETED && completedAt == now
      ensures progress < goal ==> state == old(state) && completedAt == old(completedAt)
      ensures old(ProgressIsAccounted()) ==> ProgressIsAccounted()
    {
      ghost var before := participants;
      progress := progress + amount;
      participants := participants[player := PlayerContribution(player) + amount];
      TotalAfterAdd(before, player, amount);
      if progress >= goal {
        Complete(now);
      }
    }

    method Complete(now: int)
      modifies this`state, this`completedAt
      ensures state == COMPLETED && completedAt == now
    {
      state := COMPLETED;
      completedAt := now;
    }

    method Fail()
      modifies this`state
      ensures state == FAILED
    {
      state := FAILED;
    }

    /** Progress as a percentage of the goal; 0 for a zero goal. */
    function ProgressPercentage(): (r: real)
      reads this
      ensures goal == 0 ==> r == 0.0
      ensures goal != 0 ==> r * (goal as real) == 100.0 * (progress as real)
      ensures 0 <= progress && 0 < goal ==> 0.0 <= r
      ensures 0 <= progress <= goal ==> r <= 100.0
    {
      if goal == 0 then 0.0 else ((progress as real) / (goal as real)) * 100.0
    }

    /** Number of distinct players who contributed. */
    function TotalParticipants(): (n: nat)
      reads this
      ensures n == |participants.Keys|
    {
      |participants|
    }

    function PlayerContribution(player: Uuid): (c: int)
      reads this
      ensures player in participants ==> c == participants[player]
      ensures player !in participants ==> c == 0
    {
      if player in participants then participants[player] else 0
    }

    function PlayerRewardShare(player: Uuid): (r: real)
      reads this
      ensures player !in participants || progress == 0 ==> r == 0.0
      ensures progress != 0 ==> r * (progress as real) == reward * (PlayerContribution(player) as real)
    {
      RewardShare(reward, PlayerContribution(player), progress)
    }

    /** Over exact arithmetic, when progress is the sum of the contributions
        the players' shares add up to the whole reward pool. */
    lemma RewardSharesSumToReward()
      requires ProgressIsAccounted() && progress != 0
      ensures TotalShares(participants, reward, progress) == reward
    {
      SharesSumToReward(participants, reward, progress);
    }
  }
}
