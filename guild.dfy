/**
 * Guild (models/Guild.java): a clan with an ordered member list, points and
 * a treasury (the "cofre", a Java double modelled as a real).
 */
module GuildModel {
  import opened Common

  /** Member limit of a guild created in game. */
  const DefaultMemberLimit: int := 20

  /** No player appears twice in the list. */
  predicate NoDuplicates(s: seq<Uuid>) {
    forall i, j :: 0 <= i < j < |s| ==> s[i] != s[j]
  }

  /** The list after List.remove(x): the first occurrence of `x` is dropped,
      and a list without `x` comes back unchanged. */
  function RemoveFirst(s: seq<Uuid>, x: Uuid): (r: seq<Uuid>)
    ensures x !in s ==> r == s
    ensures x in s ==> |r| == |s| - 1
  {
    if s == [] then []
    else if s[0] == x then s[1..]
    else [s[0]] + RemoveFirst(s[1..], x)
  }

  /** Removal takes away one copy of `x` and nothing else. */
  lemma {:induction false} RemoveFirstTakesOneCopy(s: seq<Uuid>, x: Uuid)
    ensures multiset(RemoveFirst(s, x)) == multiset(s) - multiset{x}
  {
    if s != [] {
      assert s == [s[0]] + s[1..];
      if s[0] != x {
        RemoveFirstTakesOneCopy(s[1..], x);
      }
    }
  }

  /** Position of the first occurrence of `x` (List.indexOf). */
  function IndexOf(s: seq<Uuid>, x: Uuid): (i: nat)
    requires x in s
    ensures i < |s| && s[i] == x
  {
    if s[0] == x then 0 else 1 + IndexOf(s[1..], x)
  }

  /** No earlier position holds `x`. */
  lemma {:induction false} IndexOfIsFirst(s: seq<Uuid>, x: Uuid)
    requires x in s
    ensures x !in s[..IndexOf(s, x)]
  {
    if s[0] != x {
      IndexOfIsFirst(s[1..], x);
      assert s[..IndexOf(s, x)] == [s[0]] + s[1..][..IndexOf(s[1..], x)];
    }
  }

  /** Removal cuts the list at the first occurrence and joins the two sides. */
  lemma {:induction false} RemoveFirstSplits(s: seq<Uuid>, x: Uuid)
    requires x in s
    ensures RemoveFirst(s, x) == s[..IndexOf(s, x)] + s[IndexOf(s, x) + 1..]
  {
    if s[0] != x {
      var t := s[1..];
      RemoveFirstSplits(t, x);
      var i := IndexOf(t, x);
      assert s[..i + 1] == [s[0]] + t[..i];
      assert s[i + 2..] == t[i + 1..];
    }
  }

  /** The players other than `x`, in their order in `s`. */
  function Without(s: seq<Uuid>, x: Uuid): (r: seq<Uuid>)
    ensures x !in r
    ensures forall y :: y != x ==> (y in r <==> y in s)
  {
    if s == [] then []
    else if s[0] == x then Without(s[1..], x)
    else [s[0]] + Without(s[1..], x)
  }

  /** On a duplicate-free list, removing a member takes out every trace of it,
      keeps the other members in their order, and keeps the list free of
      duplicates. */
  lemma RemoveFirstOnDistinct(s: seq<Uuid>, x: Uuid)
    requires NoDuplicates(s)
    ensures RemoveFirst(s, x) == Without(s, x)
    ensures x !in RemoveFirst(s, x)
    ensures NoDuplicates(RemoveFirst(s, x))
  {
    RemoveFirstIsWithout(s, x);
    WithoutKeepsDistinct(s, x);
  }

  lemma {:induction false} RemoveFirstIsWithout(s: seq<Uuid>, x: Uuid)
    requires NoDuplicates(s)
    ensures RemoveFirst(s, x) == Without(s, x)
  {
    if s != [] {
      assert NoDuplicates(s[1..]);
      RemoveFirstIsWithout(s[1..], x);
      if s[0] == x {
        assert x !in s[1..];
        WithoutAbsent(s[1..], x);
      }
    }
  }

  lemma {:induction false} WithoutKeepsDistinct(s: seq<Uuid>, x: Uuid)
    requires NoDuplicates(s)
    ensures NoDuplicates(Without(s, x))
  {
    if s != [] {
      assert NoDuplicates(s[1..]);
      WithoutKeepsDistinct(s[1..], x);
      if s[0] != x {
        var rest := Without(s[1..], x);
        assert s[0] !in s[1..];
        assert s[0] !in rest;
        assert Without(s, x) == [s[0]] + rest;
      }
    }
  }

  /** Removing an absent player changes nothing. */
  lemma {:induction false} WithoutAbsent(s: seq<Uuid>, x: Uuid)
    requires x !in s
    ensures Without(s, x) == s
  {
    if s != [] {
      WithoutAbsent(s[1..], x);
    }
  }

  class Guild {
    var id: int
    var name: string
    /** SOLAR or LUNAR. */
    var team: string
    var leader: Uuid
    var memberLimit: int
    var cofreBalance: real
    var points: int
    var createdAt: int
    var members: seq<Uuid>

    /** New guild created in game; `now` is the clock reading. */
    constructor (id: int, name: string, team: string, leader: Uuid, now: int)
      ensures this.id == id && this.name == name && this.team == team && this.leader == leader
      ensures memberLimit == DefaultMemberLimit && cofreBalance == 0.0 && points == 0
      ensures createdAt == now && members == []
      ensures NoDuplicates(members)
    {
      this.id := id;
      this.name := name;
      this.team := team;
      this.leader := leader;
      this.memberLimit := DefaultMemberLimit;
      this.cofreBalance := 0.0;
      this.points := 0;
      this.createdAt := now;
      this.members := [];
    }

    /** Guild loaded from storage; members are loaded separately, so the list starts empty. */
    constructor FromDatabase(id: int, name: string, team: string, leader: Uuid, memberLimit: int,
                             cofreBalance: real, points: int, createdAt: int)
      ensures this.id == id && this.name == name && this.team == team && this.leader == leader
      ensures this.memberLimit == memberLimit && this.cofreBalance == cofreBalance
      ensures this.points == points && this.createdAt == createdAt && members == []
      ensures NoDuplicates(members)
    {
      this.id := id;
      this.name := name;
      this.team := team;
      this.leader := leader;
      this.memberLimit := memberLimit;
      this.cofreBalance := cofreBalance;
      this.points := points;
      this.createdAt := createdAt;
      this.members := [];
    }

    /** The list has reached the limit (a query only: adding never checks it). */
    predicate IsFull()
      reads this
    {
      |members| >= memberLimit
    }

    predicate IsLeader(player: Uuid)
      reads this
    {
      leader == player
    }

    predicate IsMember(player: Uuid)
      reads this
    {
      player in members
    }

    function MemberCount(): (n: nat)
      reads this
      ensures n == |members|
    {
      |members|
    }

    /** Appends an absent player at the end; a present one is ignored. The
        member limit is not consulted. */
    method AddMember(player: Uuid)
      modifies this`members
      ensures player in old(members) ==> members == old(members)
      ensures player !in old(members) ==> members == old(members) + [player]
      ensures IsMember(player)
      ensures old(NoDuplicates(members)) ==> NoDuplicates(members)
    {
      if player !in members {
        members := members + [player];
      }
    }

    /** Drops the first occurrence of the player, if any. */
    method RemoveMember(player: Uuid)
      modifies this`members
      ensures members == RemoveFirst(old(members), player)
      ensures old(NoDuplicates(members)) ==> !IsMember(player) && NoDuplicates(members)
      ensures old(NoDuplicates(members)) ==> members == Without(old(members), player)
    {
      if NoDuplicates(members) {
        RemoveFirstOnDistinct(members, player);
      }
      members := RemoveFirst(members, player);
    }

    method AddPoints(amount: int)
      modifies this`points
      ensures points == old(points) + amount
    {
      points := points + amount;
    }

    /** Takes points away, never below 0. */
    method SubtractPoints(amount: int)
      modifies this`points
      ensures points == (if old(points) - amount > 0 then old(points) - amount else 0)
      ensures points >= 0
      ensures old(points) >= 0 && amount >= 0 ==> points <= old(points)
    {
      points := if points - amount > 0 then points - amount else 0;
    }

    method DepositCofre(amount: real)
      modifies this`cofreBalance
      ensures cofreBalance == old(cofreBalance) + amount
    {
      cofreBalance := cofreBalance + amount;
    }

    /** Takes money out of the treasury without any check of the balance. */
    method WithdrawCofre(amount: real)
      modifies this`cofreBalance
      ensures cofreBalance == old(cofreBalance) - amount
      ensures old(CanAffordCofre(amount)) ==> cofreBalance >= 0.0
    {
      cofreBalance := cofreBalance - amount;
    }

    predicate CanAffordCofre(amount: real)
      reads this
    {
      cofreBalance >= amount
    }
  }

  /** A deposit followed by a withdrawal of the same amount restores the treasury. */
  method DepositThenWithdrawCofre(g: Guild, amount: real)
    modifies g
    ensures g.cofreBalance == old(g.cofreBalance)
  {
    g.DepositCofre(amount);
    g.WithdrawCofre(amount);
  }
}
