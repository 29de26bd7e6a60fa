/**
 * Team (models/Team.java): one of the two factions, SOLAR or LUNAR, with a
 * point total and a member count.
 */
module TeamModel {
  import opened Common

  class Team {
    /** The team name; Java allows it to be null. */
    var name: Option<string>
    var points: int
    var totalMembers: int
    var createdAt: int

    /** New team; `now` is the clock reading. */
    constructor (name: Option<string>, now: int)
      ensures this.name == name && points == 0 && totalMembers == 0 && createdAt == now
    {
      this.name := name;
      this.points := 0;
      this.totalMembers := 0;
      this.createdAt := now;
    }

    /** Team loaded from storage, fields taken verbatim. */
    constructor FromDatabase(name: Option<string>, points: int, totalMembers: int, createdAt: int)
      ensures this.name == name && this.points == points
      ensures this.totalMembers == totalMembers && this.createdAt == createdAt
    {
      this.name := name;
      this.points := points;
      this.totalMembers := totalMembers;
      this.createdAt := createdAt;
    }

    method AddPoints(amount: int)
      modifies this`points
      ensures points == old(points) + amount
    {
      points := points + amount;
    }

    /** Takes points away, never below 0. */
    method SubtractPoints(amount: int)
      modifies this`points
      ensures points == (if old(points) - amount > 0 then old(points) - amount else 0)
      ensures points >= 0
    {
      points := if points - amount > 0 then points - amount else 0;
    }

    method IncrementMembers()
      modifies this`totalMembers
      ensures totalMembers == old(totalMembers) + 1
    {
      totalMembers := totalMembers + 1;
    }

    /** One member fewer, never below 0: at 0 (or below) the count becomes 0. */
    method DecrementMembers()
      modifies this`totalMembers
      ensures totalMembers == (if old(totalMembers) - 1 > 0 then old(totalMembers) - 1 else 0)
      ensures totalMembers >= 0
      ensures old(totalMembers) == 0 ==> totalMembers == 0
      ensures old(totalMembers) >= 1 ==> totalMembers == old(totalMembers) - 1
    {
      totalMembers := if totalMembers - 1 > 0 then totalMembers - 1 else 0;
    }

    /** "SOLAR".equalsIgnoreCase(name). */
    predicate IsSolar()
      reads this
    {
      EqualsIgnoreCase("SOLAR", name)
    }

    /** "LUNAR".equalsIgnoreCase(name). */
    predicate IsLunar()
      reads this
    {
      EqualsIgnoreCase("LUNAR", name)
    }

    /** A team is never both SOLAR and LUNAR, and either test is the same as
        comparing the upper-cased name. */
    lemma SolarAndLunarExclusive()
      ensures !(IsSolar() && IsLunar())
      ensures IsSolar() <==> name.Some? && ToUpper(name.value) == "SOLAR"
      ensures IsLunar() <==> name.Some? && ToUpper(name.value) == "LUNAR"
    {
      if name.Some? {
        EqualsIgnoreCaseIsUpperEquality("SOLAR", name.value);
        EqualsIgnoreCaseIsUpperEquality("LUNAR", name.value);
        UpperCaseIsFixed("SOLAR");
        UpperCaseIsFixed("LUNAR");
      }
    }
  }

  /** A member joining and then leaving restores the count (from any count >= 0). */
  method IncrementThenDecrement(t: Team)
    requires t.totalMembers >= 0
    modifies t
    ensures t.totalMembers == old(t.totalMembers)
  {
    t.IncrementMembers();
    t.DecrementMembers();
  }
}
