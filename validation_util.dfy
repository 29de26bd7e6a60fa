/**
 * ValidationUtil (utils/ValidationUtil.java): the plugin's input checks.
 * Money is a Java double modelled as a real (NaN and infinities do not
 * arise). Bukkit's ChatColor.stripColor is outside the repository and is
 * taken as a parameter `strip`.
 */
module ValidationUtil {
  import opened Common

  // ---------------------------------------------------------------------------
  // Money
  // ---------------------------------------------------------------------------

  const MinMoney: real := 0.01
  const MaxMoney: real := 999999999.99

  predicate IsValidMoney(amount: real) {
    amount >= MinMoney && amount <= MaxMoney
  }

  predicate IsPositiveMoney(amount: real) {
    IsValidMoney(amount) && amount > 0.0
  }

  /** The extra `> 0` test adds nothing, because the minimum is positive. */
  lemma PositiveMoneyIsValidMoney(amount: real)
    ensures IsPositiveMoney(amount) <==> IsValidMoney(amount)
    ensures IsValidMoney(amount) ==> 0.0 < amount < 1000000000.0
  {
  }

  // ---------------------------------------------------------------------------
  // Names
  // ---------------------------------------------------------------------------

  /** One character of the class [a-zA-Z0-9_]. */
  predicate IsNameChar(c: char) {
    ('a' <= c <= 'z') || ('A' <= c <= 'Z') || ('0' <= c <= '9') || c == '_'
  }

  /** The whole string matches ^[a-zA-Z0-9_]{3,16}$. */
  predicate MatchesNamePattern(s: string) {
    3 <= |s| <= 16 && forall i :: 0 <= i < |s| ==> IsNameChar(s[i])
  }

  predicate IsValidPlayerName(name: Option<string>) {
    name.Some? && name.value != "" && MatchesNamePattern(name.value)
  }

  /** The colour-stripped name must match the pattern; null and "" are
      refused before any stripping. */
  predicate IsValidGuildName(name: Option<string>, strip: string -> string) {
    name.Some? && name.value != "" && MatchesNamePattern(strip(name.value))
  }

  /** The early null/empty test never changes an answer of the pattern, and a
      guild name is judged like a player name once stripped. */
  lemma NameChecksArePatternChecks(name: Option<string>, strip: string -> string)
    ensures IsValidPlayerName(name) <==> name.Some? && MatchesNamePattern(name.value)
    ensures IsValidGuildName(name, strip) <==>
      name.Some? && name.value != "" && IsValidPlayerName(Some(strip(name.value)))
  {
  }

  /** "SOLAR" or "LUNAR" once upper-cased. */
  predicate IsValidTeamName(team: Option<string>) {
    team.Some? && (ToUpper(team.value) == "SOLAR" || ToUpper(team.value) == "LUNAR")
  }

  /** The two accepted spellings, letter by letter in either case. */
  predicate SpellsIgnoringCase(s: string, word: string) {
    |s| == |word| && forall i :: 0 <= i < |s| ==> UpperChar(s[i]) == word[i]
  }

  /** A team name is valid exactly when it spells SOLAR or LUNAR in any mix of cases. */
  lemma ValidTeamNames(team: string)
    ensures IsValidTeamName(Some(team)) <==>
      SpellsIgnoringCase(team, "SOLAR") || SpellsIgnoringCase(team, "LUNAR")
  {
    if SpellsIgnoringCase(team, "SOLAR") {
      assert ToUpper(team) == "SOLAR";
    }
    if SpellsIgnoringCase(team, "LUNAR") {
      assert ToUpper(team) == "LUNAR";
    }
  }

  // ---------------------------------------------------------------------------
  // Sanitising
  // ---------------------------------------------------------------------------

  /** The characters of the class [';"\\] removed by sanitize. */
  predicate IsDangerous(c: char) {
    c == '\'' || c == ';' || c == '"' || c == '\\'
  }

  /** replaceAll("[';\"\\\\]", ""): the string with every dangerous character dropped. */
  function RemoveDangerous(s: string): (r: string)
    ensures forall i :: 0 <= i < |r| ==> !IsDangerous(r[i])
    ensures forall c :: c in r <==> c in s && !IsDangerous(c)
    ensures |r| <= |s|
  {
    if s == [] then []
    else if IsDangerous(s[0]) then RemoveDangerous(s[1..])
    else [s[0]] + RemoveDangerous(s[1..])
  }

  /** String.trim treats every character up to U+0020 as blank. */
  predicate IsTrimmed(c: char) {
    c <= ' '
  }

  /** Number of blanks at the front of `s`. */
  function LeadingBlanks(s: string): (k: nat)
    ensures k <= |s|
    ensures forall i :: 0 <= i < k ==> IsTrimmed(s[i])
    ensures k < |s| ==> !IsTrimmed(s[k])
  {
    if s != [] && IsTrimmed(s[0]) then 1 + LeadingBlanks(s[1..]) else 0
  }

  /** End of `s` once the blanks at its back are cut, never cutting below `start`. */
  function TrailingEnd(s: string, start: nat): (k: nat)
    requires start <= |s|
    ensures start <= k <= |s|
    ensures forall i :: k <= i < |s| ==> IsTrimmed(s[i])
    ensures k > start ==> !IsTrimmed(s[k - 1])
  {
    if |s| > start && IsTrimmed(s[|s| - 1]) then TrailingEnd(s[..|s| - 1], start) else |s|
  }

  /** String.trim: the part of `s` between its leading and its trailing blanks.
      Every character that is not a blank survives. */
  function Trim(s: string): (r: string)
    ensures r == [] || (!IsTrimmed(r[0]) && !IsTrimmed(r[|r| - 1]))
    ensures exists i, j :: 0 <= i <= j <= |s| && r == s[i..j] &&
                           (forall k :: 0 <= k < i ==> IsTrimmed(s[k])) &&
                           (forall k :: j <= k < |s| ==> IsTrimmed(s[k]))
    ensures forall c :: c in s && !IsTrimmed(c) ==> c in r
  {
    var st := LeadingBlanks(s);
    var end := TrailingEnd(s, st);
    assert forall k :: 0 <= k < |s| && !IsTrimmed(s[k]) ==> s[k] == s[st..end][k - st];
    s[st..end]
  }

  /** sanitize: null becomes ""; otherwise strip colours, drop the dangerous
      characters and trim. Every character of the colour-stripped text that is
      neither dangerous nor blank is still there. */
  function Sanitize(input: Option<string>, strip: string -> string): (r: string)
    ensures input.None? ==> r == ""
    ensures forall i :: 0 <= i < |r| ==> !IsDangerous(r[i])
    ensures r == [] || (!IsTrimmed(r[0]) && !IsTrimmed(r[|r| - 1]))
    ensures input.Some? ==> forall c :: c in strip(input.value) && !IsDangerous(c) && !IsTrimmed(c) ==> c in r
  {
    if input.None? then "" else Trim(RemoveDangerous(strip(input.value)))
  }

  /** Text without colour codes, dangerous characters or blanks at its ends
      passes sanitize untouched. */
  lemma SanitizeKeepsSafeText(text: string, strip: string -> string)
    requires strip(text) == text
    requires forall i :: 0 <= i < |text| ==> !IsDangerous(text[i])
    requires text == [] || (!IsTrimmed(text[0]) && !IsTrimmed(text[|text| - 1]))
    ensures Sanitize(Some(text), strip) == text
  {
    RemoveDangerousKeeps(text);
    assert LeadingBlanks(text) == 0;
    assert TrailingEnd(text, 0) == |text|;
  }

  /** A well-formed player name without colour codes passes sanitize untouched. */
  lemma SanitizeKeepsValidNames(name: string, strip: string -> string)
    requires MatchesNamePattern(name) && strip(name) == name
    ensures Sanitize(Some(name), strip) == name
  {
    assert !IsTrimmed(name[0]) && !IsTrimmed(name[|name| - 1]);
    SanitizeKeepsSafeText(name, strip);
  }

  /** Removing the dangerous characters is a filter: it works character by
      character and keeps the order of what it keeps. */
  lemma {:induction false} RemoveDangerousIsFilter(a: string, b: string, c: char)
    ensures RemoveDangerous([c]) == (if IsDangerous(c) then [] else [c])
    ensures RemoveDangerous(a + b) == RemoveDangerous(a) + RemoveDangerous(b)
  {
    assert [c][1..] == [];
    if a == [] {
      assert a + b == b;
    } else {
      assert (a + b)[0] == a[0];
      assert (a + b)[1..] == a[1..] + b;
      RemoveDangerousIsFilter(a[1..], b, c);
    }
  }

  /** A string with no dangerous character is not changed by their removal. */
  lemma {:induction false} RemoveDangerousKeeps(s: string)
    requires forall i :: 0 <= i < |s| ==> !IsDangerous(s[i])
    ensures RemoveDangerous(s) == s
  {
    if s != [] {
      RemoveDangerousKeeps(s[1..]);
    }
  }

  // ---------------------------------------------------------------------------
  // Profanity
  // ---------------------------------------------------------------------------

  /** The blacklist; the repository ships it empty. */
  const BadWords: seq<string> := []

  /** String.toLowerCase on ASCII letters. */
  function ToLower(s: string): (r: string)
    ensures |r| == |s|
    ensures forall i :: 0 <= i < |s| ==> r[i] == LowerChar(s[i])
  {
    if s == [] then [] else [LowerChar(s[0])] + ToLower(s[1..])
  }

  /** `w` occurs in `s` starting at index `i`. */
  predicate OccursAt(s: string, w: string, i: int) {
    0 <= i <= |s| - |w| && s[i..i + |w|] == w
  }

  /** String.contains. */
  predicate ContainsSubstring(s: string, w: string) {
    exists i | 0 <= i <= |s| - |w| :: OccursAt(s, w, i)
  }

  /** Whether the lower-cased text contains one of `words` (the first found wins). */
  function ContainsAnyOf(lower: string, words: seq<string>): (r: bool)
    ensures r <==> exists k :: 0 <= k < |words| && ContainsSubstring(lower, words[k])
  {
    if words == [] then false
    else ContainsSubstring(lower, words[0]) || ContainsAnyOf(lower, words[1..])
  }

  /** null and "" are clean; otherwise look for a blacklisted word. */
  function ContainsProfanity(text: Option<string>): (r: bool)
    ensures r <==> text.Some? && text.value != "" &&
                   exists k :: 0 <= k < |BadWords| && ContainsSubstring(ToLower(text.value), BadWords[k])
    ensures !r
  {
    if text.None? || text.value == "" then false
    else ContainsAnyOf(ToLower(text.value), BadWords)
  }

  // ---------------------------------------------------------------------------
  // Numbers and plain strings
  // ---------------------------------------------------------------------------

  predicate IsPositiveInteger(value: int) {
    value > 0
  }

  predicate IsNonNegativeInteger(value: int) {
    value >= 0
  }

  /** isInRange(int, int, int). */
  predicate IsInRange(value: int, min: int, max: int) {
    value >= min && value <= max
  }

  /** isInRange(double, double, double). */
  predicate IsInRangeReal(value: real, min: real, max: real) {
    value >= min && value <= max
  }

  /** An empty range (min above max) holds nothing. */
  lemma EmptyRangeHoldsNothing(value: int, min: int, max: int)
    ensures IsInRange(value, min, max) ==> min <= max
    ensures min > max ==> !IsInRange(value, min, max) && !IsInRangeReal(value as real, min as real, max as real)
  {
  }

  /** null, or nothing but blanks. */
  predicate IsNullOrEmpty(str: Option<string>) {
    str.None? || Trim(str.value) == ""
  }

  /** Blank-only strings are exactly those whose every character is trimmed away. */
  lemma NullOrEmptyMeansBlank(str: string)
    ensures IsNullOrEmpty(Some(str)) <==> forall i :: 0 <= i < |str| ==> IsTrimmed(str[i])
  {
    var st := LeadingBlanks(str);
    var len := TrailingEnd(str, st);
    assert Trim(str) == str[st..len];
    if Trim(str) == "" {
      assert len == st;
    }
  }

  // ---------------------------------------------------------------------------
  // UUID
  // ---------------------------------------------------------------------------

  predicate IsHexDigit(c: char) {
    ('0' <= c <= '9') || ('a' <= c <= 'f') || ('A' <= c <= 'F')
  }

  predicate AllHex(s: string) {
    forall i :: 0 <= i < |s| ==> IsHexDigit(s[i])
  }

  /** Hex groups of the given lengths separated by single dashes, as the
      regular expression [0-9a-fA-F]{n1}-[0-9a-fA-F]{n2}-... spells them. */
  predicate MatchesGroups(s: string, lengths: seq<nat>)
    requires |lengths| >= 1
    decreases |lengths|
  {
    if |lengths| == 1 then |s| == lengths[0] && AllHex(s)
    else
      |s| > lengths[0] && AllHex(s[..lengths[0]]) && s[lengths[0]] == '-' &&
      MatchesGroups(s[lengths[0] + 1..], lengths[1..])
  }

  const UuidGroups: seq<nat> := [8, 4, 4, 4, 12]

  /** ^[0-9a-fA-F]{8}-[0-9a-fA-F]{4}-[0-9a-fA-F]{4}-[0-9a-fA-F]{4}-[0-9a-fA-F]{12}$; null is refused. */
  predicate IsValidUUID(uuid: Option<string>) {
    uuid.Some? && MatchesGroups(uuid.value, UuidGroups)
  }

  lemma HexSlice(s: string, from: nat, to: nat)
    requires from <= to <= |s|
    requires forall i :: from <= i < to ==> IsHexDigit(s[i])
    ensures AllHex(s[from..to])
  {
    assert forall i :: 0 <= i < to - from ==> s[from..to][i] == s[from + i];
  }

  /** Positions 8, 13, 18 and 23 of a UUID string. */
  predicate IsDashPosition(i: int) {
    i == 8 || i == 13 || i == 18 || i == 23
  }

  /** The same check by position: 36 characters, dashes at the four group
      boundaries and hex digits everywhere else. */
  lemma ValidUUIDByPosition(s: string)
    ensures IsValidUUID(Some(s)) <==>
      |s| == 36 && forall i :: 0 <= i < 36 ==> (if IsDashPosition(i) then s[i] == '-' else IsHexDigit(s[i]))
  {
    var byPosition := |s| == 36 && forall i :: 0 <= i < 36 ==> (if IsDashPosition(i) then s[i] == '-' else IsHexDigit(s[i]));
    assert UuidGroups[1..] == [4, 4, 4, 12];
    assert UuidGroups[1..][1..] == [4, 4, 12];
    assert UuidGroups[1..][1..][1..] == [4, 12];
    assert UuidGroups[1..][1..][1..][1..] == [12];
    if byPosition {
      assert s[9..][5..] == s[14..];
      assert s[14..][5..] == s[19..];
      assert s[19..][5..] == s[24..];
      HexSlice(s, 0, 8);
      HexSlice(s, 9, 13);
      HexSlice(s, 14, 18);
      HexSlice(s, 19, 23);
      HexSlice(s, 24, 36);
      assert s[..8] == s[0..8] && s[9..][..4] == s[9..13] && s[14..][..4] == s[14..18];
      assert s[19..][..4] == s[19..23] && s[24..] == s[24..36];
    }
    if IsValidUUID(Some(s)) {
      var s1 := s[9..];
      var s2 := s1[5..];
      var s3 := s2[5..];
      var s4 := s3[5..];
      assert MatchesGroups(s1, [4, 4, 4, 12]);
      assert MatchesGroups(s2, [4, 4, 12]);
      assert MatchesGroups(s3, [4, 12]);
      assert MatchesGroups(s4, [12]);
      assert |s| == 36;
      forall i | 0 <= i < 36
        ensures if IsDashPosition(i) then s[i] == '-' else IsHexDigit(s[i])
      {
        if i < 8 {
          assert s[i] == s[..8][i];
        } else if 9 <= i < 13 {
          assert s[i] == s1[..4][i - 9];
        } else if 14 <= i < 18 {
          assert s[i] == s2[..4][i - 14];
        } else if 19 <= i < 23 {
          assert s[i] == s3[..4][i - 19];
        } else if 24 <= i {
          assert s[i] == s4[i - 24];
        }
      }
    }
  }
}
