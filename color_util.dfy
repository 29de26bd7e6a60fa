/**
 * ColorUtil (utils/ColorUtil.java): Minecraft chat colours. A colour prints
 * as the section sign followed by its one-character code; the lookup tables
 * pick a colour for a team, a VIP tier or a percentage, and the builders
 * repeat, centre and colour text.
 */
module ColorUtil {
  import opened Common
  import ValidationUtil

  /** Bukkit's ChatColor constants. */
  datatype ChatColor =
    | BLACK | DARK_BLUE | DARK_GREEN | DARK_AQUA | DARK_RED | DARK_PURPLE | GOLD | GRAY
    | DARK_GRAY | BLUE | GREEN | AQUA | RED | LIGHT_PURPLE | YELLOW | WHITE
    | MAGIC | BOLD | STRIKETHROUGH | UNDERLINE | ITALIC | RESET

  const SectionSign: char := '§'

  /** The character after the section sign. */
  function Code(c: ChatColor): char {
    match c
    case BLACK => '0'
    case DARK_BLUE => '1'
    case DARK_GREEN => '2'
    case DARK_AQUA => '3'
    case DARK_RED => '4'
    case DARK_PURPLE => '5'
    case GOLD => '6'
    case GRAY => '7'
    case DARK_GRAY => '8'
    case BLUE => '9'
    case GREEN => 'a'
    case AQUA => 'b'
    case RED => 'c'
    case LIGHT_PURPLE => 'd'
    case YELLOW => 'e'
    case WHITE => 'f'
    case MAGIC => 'k'
    case BOLD => 'l'
    case STRIKETHROUGH => 'm'
    case UNDERLINE => 'n'
    case ITALIC => 'o'
    case RESET => 'r'
  }

  /** The characters that may follow a section sign in a formatting code. */
  predicate IsCodeChar(c: char) {
    '0' <= c <= '9' || 'a' <= c <= 'f' || 'A' <= c <= 'F' || 'k' <= c <= 'o' || 'K' <= c <= 'O' ||
    c == 'r' || c == 'R' || c == 'x' || c == 'X'
  }

  /** How a colour is appended to a string. */
  function ColorString(c: ChatColor): (s: string)
    ensures |s| == 2 && s[0] == SectionSign && s[1] == Code(c)
  {
    [SectionSign, Code(c)]
  }

  /** Every colour's code is one that colour stripping recognises. */
  lemma CodeIsCodeChar(c: ChatColor)
    ensures IsCodeChar(Code(c))
  {
  }

  /** Distinct colours print differently. */
  lemma ColorStringInjective(c: ChatColor, d: ChatColor)
    ensures ColorString(c) == ColorString(d) <==> c == d
  {
    if ColorString(c) == ColorString(d) {
      assert Code(c) == ColorString(c)[1] == ColorString(d)[1] == Code(d);
    }
  }

  /** Text with its formatting codes removed: a section sign and the code
      character after it are dropped, every other character is kept. */
  function Uncolor(s: string): string
    decreases |s|
  {
    if |s| == 0 then ""
    else if |s| >= 2 && s[0] == SectionSign && IsCodeChar(s[1]) then Uncolor(s[2..])
    else [s[0]] + Uncolor(s[1..])
  }

  /** A character not followed by a code character is kept. */
  lemma UncolorKeeps(c: char, rest: string)
    requires |rest| == 0 || !IsCodeChar(rest[0])
    ensures Uncolor([c] + rest) == [c] + Uncolor(rest)
  {
    assert ([c] + rest)[1..] == rest;
  }

  /** A colour code in front of a piece of text is dropped. */
  lemma UncolorDropsCode(col: ChatColor, rest: string)
    ensures Uncolor(ColorString(col) + rest) == Uncolor(rest)
  {
    CodeIsCodeChar(col);
    assert (ColorString(col) + rest)[2..] == rest;
  }

  // ---------------------------------------------------------------------------
  // Lookup tables
  // ---------------------------------------------------------------------------

  /** getTeamColor: SOLAR is yellow, LUNAR dark purple, null and anything else white. */
  function GetTeamColor(team: Option<string>): ChatColor {
    if team.None? then WHITE
    else if ToUpper(team.value) == "SOLAR" then YELLOW
    else if ToUpper(team.value) == "LUNAR" then DARK_PURPLE
    else WHITE
  }

  /** The team colour is yellow exactly for SOLAR spelt in any mix of cases,
      dark purple exactly for LUNAR, and white exactly for names that are not
      a valid team. */
  lemma TeamColorMatchesTeamName(team: Option<string>)
    ensures GetTeamColor(team) == YELLOW <==> team.Some? && ValidationUtil.SpellsIgnoringCase(team.value, "SOLAR")
    ensures GetTeamColor(team) == DARK_PURPLE <==> team.Some? && ValidationUtil.SpellsIgnoringCase(team.value, "LUNAR")
    ensures GetTeamColor(team) == WHITE <==> !ValidationUtil.IsValidTeamName(team)
  {
    if team.Some? {
      SpellsMeansUpperCase(team.value, "SOLAR");
      SpellsMeansUpperCase(team.value, "LUNAR");
    }
  }

  /** Spelling a word letter by letter in any case is upper-casing to it. */
  lemma SpellsMeansUpperCase(text: string, word: string)
    ensures ValidationUtil.SpellsIgnoringCase(text, word) <==> ToUpper(text) == word
  {
    if ValidationUtil.SpellsIgnoringCase(text, word) {
      assert forall i :: 0 <= i < |text| ==> ToUpper(text)[i] == word[i];
    }
  }

  /** getVIPColor: GUERREIRO gold, LORDE gray, MAGO yellow; null is gray but
      an unknown tier is white. */
  function GetVIPColor(tier: Option<string>): ChatColor {
    if tier.None? then GRAY
    else if ToUpper(tier.value) == "GUERREIRO" then GOLD
    else if ToUpper(tier.value) == "LORDE" then GRAY
    else if ToUpper(tier.value) == "MAGO" then YELLOW
    else WHITE
  }

  /** The three tiers, in any case. */
  predicate IsKnownTier(tier: string) {
    ValidationUtil.SpellsIgnoringCase(tier, "GUERREIRO") || ValidationUtil.SpellsIgnoringCase(tier, "LORDE") ||
    ValidationUtil.SpellsIgnoringCase(tier, "MAGO")
  }

  /** White means a tier is given and is none of the three; gray means no
      tier or LORDE. Gold and yellow each belong to one tier. */
  lemma VIPColorMeaning(tier: Option<string>)
    ensures GetVIPColor(tier) == WHITE <==> tier.Some? && !IsKnownTier(tier.value)
    ensures GetVIPColor(tier) == GRAY <==> tier.None? || ValidationUtil.SpellsIgnoringCase(tier.value, "LORDE")
    ensures GetVIPColor(tier) == GOLD <==> tier.Some? && ValidationUtil.SpellsIgnoringCase(tier.value, "GUERREIRO")
    ensures GetVIPColor(tier) == YELLOW <==> tier.Some? && ValidationUtil.SpellsIgnoringCase(tier.value, "MAGO")
  {
    if tier.Some? {
      SpellsMeansUpperCase(tier.value, "GUERREIRO");
      SpellsMeansUpperCase(tier.value, "LORDE");
      SpellsMeansUpperCase(tier.value, "MAGO");
    }
  }

  /** getPercentageColor: below 0 dark red, up to 33 red, up to 66 yellow,
      up to 100 green, above 100 dark green. */
  function GetPercentageColor(percentage: real): ChatColor {
    if percentage < 0.0 then DARK_RED
    else if percentage <= 33.0 then RED
    else if percentage <= 66.0 then YELLOW
    else if percentage <= 100.0 then GREEN
    else DARK_GREEN
  }

  /** The position of a percentage colour on the scale from worst to best. */
  function Rank(c: ChatColor): int {
    match c
    case DARK_RED => 0
    case RED => 1
    case YELLOW => 2
    case GREEN => 3
    case DARK_GREEN => 4
    case _ => -1
  }

  /** The colour only ever improves as the percentage grows, and the bands are
      the documented ones. */
  lemma PercentageColorMonotone(p: real, q: real)
    ensures p <= q ==> Rank(GetPercentageColor(p)) <= Rank(GetPercentageColor(q))
    ensures Rank(GetPercentageColor(p)) >= 0
    ensures 0.0 <= p <= 100.0 <==> Rank(GetPercentageColor(p)) in {1, 2, 3}
  {
  }

  // ---------------------------------------------------------------------------
  // repeat and center
  // ---------------------------------------------------------------------------

  /** `s` written `n` times over; nothing for n <= 0. */
  function Repeated(s: string, n: int): string
    decreases n
  {
    if n <= 0 then "" else Repeated(s, n - 1) + s
  }

  lemma ModAfterWholeRounds(k: nat, m: nat, j: nat)
    requires j < m
    ensures (k * m + j) % m == j
  {
    var x := k * m + j;
    var d := x / m - k;
    assert m * (x / m) + x % m == x;
    assert m * d == m * (x / m) - m * k;
    assert m * d == j - x % m;
  }

  /** Repeating has length max(n, 0) * |s|, and position i holds s[i mod |s|]. */
  lemma {:induction false} RepeatedShape(s: string, n: int)
    ensures |Repeated(s, n)| == (if n <= 0 then 0 else n * |s|)
    ensures forall i :: 0 <= i < |Repeated(s, n)| ==> Repeated(s, n)[i] == s[i % |s|]
    decreases n
  {
    if n > 0 {
      RepeatedShape(s, n - 1);
      var r := Repeated(s, n);
      var front := Repeated(s, n - 1);
      assert r == front + s;
      forall i | 0 <= i < |r|
        ensures r[i] == s[i % |s|]
      {
        if i >= |front| {
          ModAfterWholeRounds(n - 1, |s|, i - |front|);
          assert i == (n - 1) * |s| + (i - |front|);
        }
      }
    }
  }

  /** repeat(str, times), appending to a builder in a loop. */
  method Repeat(str: string, times: int) returns (r: string)
    ensures r == Repeated(str, times)
  {
    if times <= 0 {
      return "";
    }
    var builder := "";
    var i := 0;
    while i < times
      invariant 0 <= i <= times
      invariant builder == Repeated(str, i)
    {
      builder := builder + str;
      i := i + 1;
    }
    return builder;
  }

  /** center(text, width): `strip` is the colour stripper, so padding is
      computed on the visible length. A null text counts as empty. */
  function Center(text: Option<string>, width: int, strip: string -> string): string {
    var t := if text.None? then "" else text.value;
    var visible := |strip(t)|;
    var padding := JavaDiv(width - visible, 2);
    if padding <= 0 then t
    else Repeated(" ", padding) + t + Repeated(" ", width - padding - visible)
  }

  /** When the visible text is at least width - 1 long it comes back unchanged;
      otherwise it is padded with spaces on both sides so that the visible
      length is exactly width, the right side getting the odd space. */
  lemma CenterMeaning(text: Option<string>, width: int, strip: string -> string)
    ensures var t := if text.None? then "" else text.value;
      var visible := |strip(t)|;
      (width - visible < 2 ==> Center(text, width, strip) == t) &&
      (width - visible >= 2 ==>
        exists left: nat, right: nat ::
          Center(text, width, strip) == Repeated(" ", left) + t + Repeated(" ", right) &&
          left + visible + right == width && 1 <= left && (right == left || right == left + 1))
  {
    var t := if text.None? then "" else text.value;
    var visible := |strip(t)|;
    if width - visible >= 2 {
      var left := (width - visible) / 2;
      var right := width - left - visible;
      assert Center(text, width, strip) == Repeated(" ", left) + t + Repeated(" ", right);
    }
  }

  /** A run of spaces is all spaces. */
  lemma SpacesAreSpaces(n: int)
    ensures forall i :: 0 <= i < |Repeated(" ", n)| ==> Repeated(" ", n)[i] == ' '
  {
    RepeatedShape(" ", n);
  }

  // ---------------------------------------------------------------------------
  // gradient and rainbow
  // ---------------------------------------------------------------------------

  /** What gradient appends for the character at index i: a space as it is,
      anything else after the start colour at even i and the end colour at odd i. */
  function GradientPiece(c: char, i: int, startColor: ChatColor, endColor: ChatColor): string {
    if c == ' ' then [c]
    else ColorString(if i % 2 == 0 then startColor else endColor) + [c]
  }

  /** The gradient of text[i..], indices counted from the start of `text`. */
  function GradientFrom(text: string, i: nat, startColor: ChatColor, endColor: ChatColor): (r: string)
    requires i <= |text|
    ensures |r| == 0 || r[0] == SectionSign || r[0] == ' '
    decreases |text| - i
  {
    if i == |text| then ""
    else GradientPiece(text[i], i, startColor, endColor) + GradientFrom(text, i + 1, startColor, endColor)
  }

  /** gradient(text, start, end): "" for null or empty text. */
  function GradientOf(text: Option<string>, startColor: ChatColor, endColor: ChatColor): string {
    if text.None? || |text.value| == 0 then ""
    else GradientFrom(text.value, 0, startColor, endColor)
  }

  /** One step of the gradient loop: appending the piece for index i moves
      it from the part still to be built to the part built. */
  lemma GradientStep(t: string, i: nat, startColor: ChatColor, endColor: ChatColor, built: string, piece: string)
    requires i < |t|
    requires piece == (if t[i] == ' ' then [t[i]] else ColorString(if i % 2 == 0 then startColor else endColor) + [t[i]])
    ensures (built + piece) + GradientFrom(t, i + 1, startColor, endColor) == built + GradientFrom(t, i, startColor, endColor)
  {
    assert GradientFrom(t, i, startColor, endColor) == piece + GradientFrom(t, i + 1, startColor, endColor);
  }

  /** gradient, as the source's loop over the characters. */
  method Gradient(text: Option<string>, startColor: ChatColor, endColor: ChatColor) returns (r: string)
    ensures r == GradientOf(text, startColor, endColor)
  {
    if text.None? || |text.value| == 0 {
      return "";
    }
    var t := text.value;
    var result := "";
    var i := 0;
    while i < |t|
      invariant 0 <= i <= |t|
      invariant result + GradientFrom(t, i, startColor, endColor) == GradientFrom(t, 0, startColor, endColor)
    {
      var c := t[i];
      if c == ' ' {
        GradientStep(t, i, startColor, endColor, result, [c]);
        result := result + [c];
        i := i + 1;
        continue;
      }
      var color := if i % 2 == 0 then startColor else endColor;
      GradientStep(t, i, startColor, endColor, result, ColorString(color) + [c]);
      result := result + (ColorString(color) + [c]);
      i := i + 1;
    }
    return result;
  }

  /** The colours of the rainbow, in order. */
  const RainbowColors: seq<ChatColor> := [RED, GOLD, YELLOW, GREEN, AQUA, BLUE, LIGHT_PURPLE]

  /** The rainbow of text[i..] when the next non-space character takes colour
      number k of the cycle; spaces do not advance it. */
  function RainbowFrom(text: string, i: nat, k: nat): (r: string)
    requires i <= |text|
    ensures |r| == 0 || r[0] == SectionSign || r[0] == ' '
    decreases |text| - i
  {
    if i == |text| then ""
    else if text[i] == ' ' then [' '] + RainbowFrom(text, i + 1, k)
    else ColorString(RainbowColors[k % |RainbowColors|]) + [text[i]] + RainbowFrom(text, i + 1, k + 1)
  }

  /** rainbow(text): "" for null or empty text. */
  function RainbowOf(text: Option<string>): string {
    if text.None? || |text.value| == 0 then "" else RainbowFrom(text.value, 0, 0)
  }

  /** rainbow, as the source's loop with its colour counter. */
  method Rainbow(text: Option<string>) returns (r: string)
    ensures r == RainbowOf(text)
  {
    if text.None? || |text.value| == 0 {
      return "";
    }
    var t := text.value;
    var result := "";
    var colorIndex := 0;
    var i := 0;
    while i < |t|
      invariant 0 <= i <= |t|
      invariant result + RainbowFrom(t, i, colorIndex) == RainbowFrom(t, 0, 0)
    {
      var c := t[i];
      if c == ' ' {
        assert RainbowFrom(t, i, colorIndex) == [c] + RainbowFrom(t, i + 1, colorIndex);
        result := result + [c];
        i := i + 1;
        continue;
      }
      ghost var piece := ColorString(RainbowColors[colorIndex % |RainbowColors|]) + [c];
      assert RainbowFrom(t, i, colorIndex) == piece + RainbowFrom(t, i + 1, colorIndex + 1);
      result := result + ColorString(RainbowColors[colorIndex % |RainbowColors|]) + [c];
      colorIndex := colorIndex + 1;
      i := i + 1;
    }
    return result;
  }

  /** The number of characters of s other than spaces. */
  function NonSpaces(s: string): nat {
    if |s| == 0 then 0 else (if s[0] == ' ' then 0 else 1) + NonSpaces(s[1..])
  }

  /** Removing the colour codes from a gradient gives the text back, and the
      gradient is two characters longer per non-space character. */
  lemma {:induction false} GradientUncolors(text: string, i: nat, startColor: ChatColor, endColor: ChatColor)
    requires i <= |text|
    ensures Uncolor(GradientFrom(text, i, startColor, endColor)) == text[i..]
    ensures |GradientFrom(text, i, startColor, endColor)| == |text| - i + 2 * NonSpaces(text[i..])
    decreases |text| - i
  {
    if i < |text| {
      GradientUncolors(text, i + 1, startColor, endColor);
      var rest := GradientFrom(text, i + 1, startColor, endColor);
      assert text[i..][1..] == text[i + 1..];
      assert text[i..] == [text[i]] + text[i + 1..];
      UncolorKeeps(text[i], rest);
      if text[i] != ' ' {
        var col := if i % 2 == 0 then startColor else endColor;
        assert GradientFrom(text, i, startColor, endColor) == ColorString(col) + ([text[i]] + rest);
        UncolorDropsCode(col, [text[i]] + rest);
      }
    }
  }

  /** The same for the rainbow, whatever colour the cycle starts at. */
  lemma {:induction false} RainbowUncolors(text: string, i: nat, k: nat)
    requires i <= |text|
    ensures Uncolor(RainbowFrom(text, i, k)) == text[i..]
    ensures |RainbowFrom(text, i, k)| == |text| - i + 2 * NonSpaces(text[i..])
    decreases |text| - i
  {
    if i < |text| {
      assert text[i..][1..] == text[i + 1..];
      assert text[i..] == [text[i]] + text[i + 1..];
      if text[i] == ' ' {
        RainbowUncolors(text, i + 1, k);
        UncolorKeeps(' ', RainbowFrom(text, i + 1, k));
      } else {
        RainbowUncolors(text, i + 1, k + 1);
        var rest := RainbowFrom(text, i + 1, k + 1);
        var col := RainbowColors[k % |RainbowColors|];
        assert RainbowFrom(text, i, k) == ColorString(col) + ([text[i]] + rest);
        UncolorKeeps(text[i], rest);
        UncolorDropsCode(col, [text[i]] + rest);
      }
    }
  }

  /** The rainbow repeats after seven colours. */
  lemma {:induction false} RainbowCycles(text: string, i: nat, k: nat)
    requires i <= |text|
    ensures RainbowFrom(text, i, k + |RainbowColors|) == RainbowFrom(text, i, k)
    decreases |text| - i
  {
    if i < |text| {
      if text[i] == ' ' {
        RainbowCycles(text, i + 1, k);
      } else {
        RainbowCycles(text, i + 1, k + 1);
        assert (k + |RainbowColors|) % |RainbowColors| == k % |RainbowColors|;
      }
    }
  }

  /** Gradient and rainbow of null or empty text are empty; of any other text
      they show that text once the colour codes are removed. */
  lemma ColouringsShowTheText(text: Option<string>, startColor: ChatColor, endColor: ChatColor)
    ensures text.None? || text == Some("") ==> GradientOf(text, startColor, endColor) == "" && RainbowOf(text) == ""
    ensures text.Some? ==> Uncolor(GradientOf(text, startColor, endColor)) == text.value
    ensures text.Some? ==> Uncolor(RainbowOf(text)) == text.value
  {
    if text.Some? && |text.value| > 0 {
      GradientUncolors(text.value, 0, startColor, endColor);
      RainbowUncolors(text.value, 0, 0);
      assert text.value[0..] == text.value;
    }
  }
}
