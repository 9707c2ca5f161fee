/**
 * The dice roller: reading an expression such as "2d6+3", validating it, and rolling it with die
 * values supplied by the caller in place of `random.randint`.
 */
module Dice {
  import opened Wrappers
  import opened Text

  /** What `parse_dice_string` returns: `{'num_dice', 'dice_type', 'modifier'}`. */
  datatype DiceSpec = DiceSpec(numDice: nat, diceType: nat, modifier: int)

  /** What `roll` keeps in `last_roll`. */
  datatype RollRecord = RollRecord(expression: string, rolls: seq<int>, modifier: int, total: int)

  // ---- str.strip() and str.lower()

  /** `str.isspace()`: the characters Python's `strip()` removes when given no argument. */
  predicate IsSpace(c: char) {
    var n := c as int;
    (9 <= n <= 13) || (28 <= n <= 32) || n == 0x85 || n == 0xA0 || n == 0x1680
    || (0x2000 <= n <= 0x200A) || n == 0x2028 || n == 0x2029 || n == 0x202F || n == 0x205F || n == 0x3000
  }

  function StripLeft(s: string): string {
    if s != [] && IsSpace(s[0]) then StripLeft(s[1..]) else s
  }

  function StripRight(s: string): string {
    if s != [] && IsSpace(s[|s| - 1]) then StripRight(s[..|s| - 1]) else s
  }

  /** `str.strip()`: the longest slice without white space at either end. */
  function Strip(s: string): string {
    StripRight(StripLeft(s))
  }

  /** `lstrip` drops exactly the white space in front: what is left is a suffix that starts with something else. */
  lemma {:induction false} StripLeftSpec(s: string)
    ensures var r := StripLeft(s);
      && |r| <= |s| && r == s[|s| - |r|..]
      && (r == [] || !IsSpace(r[0]))
      && forall i :: 0 <= i < |s| - |r| ==> IsSpace(s[i])
  {
    if s != [] && IsSpace(s[0]) {
      var t := s[1..];
      StripLeftSpec(t);
      var r := StripLeft(t);
      assert t[|t| - |r|..] == s[|s| - |r|..];
      forall i | 0 <= i < |s| - |r| ensures IsSpace(s[i]) {
        if i > 0 {
          assert s[i] == t[i - 1];
        }
      }
    }
  }

  /** `rstrip` drops exactly the white space at the end: what is left is a prefix that ends with something else. */
  lemma {:induction false} StripRightSpec(s: string)
    ensures var r := StripRight(s);
      && |r| <= |s| && r == s[..|r|]
      && (r == [] || !IsSpace(r[|r| - 1]))
      && forall i :: |r| <= i < |s| ==> IsSpace(s[i])
  {
    if s != [] && IsSpace(s[|s| - 1]) {
      var t := s[..|s| - 1];
      StripRightSpec(t);
      var r := StripRight(t);
      assert t[..|r|] == s[..|r|];
      forall i | |r| <= i < |s| ensures IsSpace(s[i]) {
        if i < |t| {
          assert s[i] == t[i];
        }
      }
    }
  }

  /** A string that starts and ends with something other than white space is its own strip. */
  lemma StripNoSpace(s: string)
    requires s == [] || (!IsSpace(s[0]) && !IsSpace(s[|s| - 1]))
    ensures Strip(s) == s
  {
  }

  function LowerChar(c: char): char {
    if 'A' <= c <= 'Z' then (c as int + 32) as char else c
  }

  /** `str.lower()` on the letters A to Z; see README for the rest of Unicode. */
  function Lower(s: string): string {
    seq(|s|, i requires 0 <= i < |s| => LowerChar(s[i]))
  }

  // ---- the pattern (\d+)d(\d+)([+-]\d+)?, matched at the start of the string

  /** The length of the run of digits starting at `i`. */
  function DigitRun(s: string, i: nat): (n: nat)
    requires i <= |s|
    ensures i + n <= |s|
    decreases |s| - i
  {
    if i < |s| && IsDigit(s[i]) then 1 + DigitRun(s, i + 1) else 0
  }

  /** The run stops at the end of the string or at a character that is not a digit. */
  lemma {:induction false} DigitRunStops(s: string, i: nat)
    requires i <= |s|
    ensures i + DigitRun(s, i) == |s| || !IsDigit(s[i + DigitRun(s, i)])
    decreases |s| - i
  {
    if i < |s| && IsDigit(s[i]) {
      DigitRunStops(s, i + 1);
    }
  }

  /** Everything the run covers is a digit. */
  lemma {:induction false} DigitRunDigits(s: string, i: nat)
    requires i <= |s|
    ensures AllDigits(s[i..i + DigitRun(s, i)])
    decreases |s| - i
  {
    if i < |s| && IsDigit(s[i]) {
      DigitRunDigits(s, i + 1);
      var n := DigitRun(s, i);
      assert s[i..i + n] == [s[i]] + s[i + 1..i + n];
    }
  }

  function Sign(c: char): int {
    if c == '-' then -1 else 1
  }

  /** The text the optional group matched: nothing, or a sign and digits. */
  predicate ModText(m: string) {
    m == [] || (|m| >= 2 && (m[0] == '+' || m[0] == '-') && AllDigits(m[1..]))
  }

  function ModValue(m: string): int
    requires ModText(m)
  {
    if m == [] then 0 else Sign(m[0]) * DigitsValue(m[1..])
  }

  function SpecOf(counts: string, sides: string, m: string): DiceSpec
    requires AllDigits(counts) && AllDigits(sides) && ModText(m)
  {
    DiceSpec(DigitsValue(counts), DigitsValue(sides), ModValue(m))
  }

  /** The text of the optional `([+-]\d+)` group at position `k`: a sign and the digits after it, if any. */
  function ModTextAt(s: string, k: nat): (m: string)
    requires k <= |s|
    ensures ModText(m) && k + |m| <= |s|
  {
    if k < |s| && (s[k] == '+' || s[k] == '-') && DigitRun(s, k + 1) > 0
    then
      var m := s[k..k + 1 + DigitRun(s, k + 1)];
      DigitRunDigits(s, k + 1);
      assert m[1..] == s[k + 1..k + 1 + DigitRun(s, k + 1)];
      m
    else []
  }

  /** The texts the three groups of the pattern matched. */
  datatype Groups = Groups(counts: string, sides: string, modText: string)

  /**
   * `re.match` of the dice pattern. Each `\d+` takes the longest run of digits, which is also
   * the only run the rest of the pattern can follow. Whatever follows the match is ignored.
   */
  function MatchGroups(s: string): (r: Option<Groups>)
    ensures r.Some? ==> AllDigits(r.value.counts) && AllDigits(r.value.sides) && ModText(r.value.modText)
  {
    var a := DigitRun(s, 0);
    if a == 0 || a == |s| || s[a] != 'd' then None
    else
      var b := DigitRun(s, a + 1);
      if b == 0 then None
      else
        DigitRunDigits(s, 0);
        DigitRunDigits(s, a + 1);
        assert s[0..a] == s[..a];
        Some(Groups(s[..a], s[a + 1..a + 1 + b], ModTextAt(s, a + 1 + b)))
  }

  /** The groups converted with `int()`; the modifier defaults to 0 and keeps its sign. */
  function MatchDice(s: string): (r: Option<DiceSpec>)
    ensures r.Some? <==> MatchGroups(s).Some?
  {
    match MatchGroups(s)
    case None => None
    case Some(g) => Some(SpecOf(g.counts, g.sides, g.modText))
  }

  /**
   * `parse_dice_string`: the stripped and lowered text is read as a dice expression exactly when
   * it begins with one, and then as that expression's counts, sides and modifier.
   */
  function ParseDiceString(s: string): (r: Option<DiceSpec>)
    ensures r.Some? ==> exists counts, sides, m, tail ::
      DiceShape(counts, sides, m, tail) && Lower(Strip(s)) == counts + "d" + sides + m + tail && r == Some(SpecOf(counts, sides, m))
    ensures forall counts, sides, m, tail ::
      DiceShape(counts, sides, m, tail) && Lower(Strip(s)) == counts + "d" + sides + m + tail ==> r == Some(SpecOf(counts, sides, m))
  {
    var t := Lower(Strip(s));
    MatchDiceShaped(t);
    MatchDiceAllShapes(t);
    MatchDice(t)
  }

  lemma MatchDiceShaped(t: string)
    ensures MatchDice(t).Some? ==> exists counts, sides, m, tail ::
      DiceShape(counts, sides, m, tail) && t == counts + "d" + sides + m + tail && MatchDice(t) == Some(SpecOf(counts, sides, m))
  {
    if MatchDice(t).Some? {
      var counts, sides, m, tail := MatchDiceSound(t);
      assert DiceShape(counts, sides, m, tail);
    }
  }

  lemma MatchDiceAllShapes(t: string)
    ensures forall counts, sides, m, tail ::
      DiceShape(counts, sides, m, tail) && t == counts + "d" + sides + m + tail ==> MatchDice(t) == Some(SpecOf(counts, sides, m))
  {
    forall counts, sides, m, tail | DiceShape(counts, sides, m, tail) && t == counts + "d" + sides + m + tail
      ensures MatchDice(t) == Some(SpecOf(counts, sides, m))
    {
      MatchDiceComplete(counts, sides, m, tail);
    }
  }

  /** What may follow a match: not another digit, and, after an absent modifier, no signed digits. */
  predicate StopsMatch(m: string, tail: string) {
    tail == []
    || (!IsDigit(tail[0]) && (m != [] || !((tail[0] == '+' || tail[0] == '-') && |tail| >= 2 && IsDigit(tail[1]))))
  }

  /** The pieces of a string that the pattern matches: counts, 'd', sides, modifier, the rest. */
  predicate DiceShape(counts: string, sides: string, m: string, tail: string) {
    && counts != [] && AllDigits(counts)
    && sides != [] && AllDigits(sides)
    && ModText(m) && StopsMatch(m, tail)
  }

  lemma {:induction false} DigitRunExact(s: string, i: nat, n: nat)
    requires i + n <= |s|
    requires forall j :: i <= j < i + n ==> IsDigit(s[j])
    requires i + n == |s| || !IsDigit(s[i + n])
    ensures DigitRun(s, i) == n
    decreases n
  {
    if n > 0 {
      DigitRunExact(s, i + 1, n - 1);
    }
  }

  /** A run of digits that ends where the string or its digits end is read whole. */
  lemma DigitsAt(s: string, i: nat, ds: string, rest: string)
    requires i <= |s| && s[i..] == ds + rest && AllDigits(ds)
    requires rest == [] || !IsDigit(rest[0])
    ensures DigitRun(s, i) == |ds| && s[i..i + |ds|] == ds
  {
    forall j | i <= j < i + |ds| ensures IsDigit(s[j]) {
      assert s[j] == s[i..][j - i];
    }
    if rest != [] {
      assert s[i + |ds|] == s[i..][|ds|];
    }
    DigitRunExact(s, i, |ds|);
    assert s[i..i + |ds|] == s[i..][..|ds|];
  }

  /** The modifier group is the text at `k`. */
  lemma ModTextSlice(s: string, k: nat)
    requires k <= |s|
    ensures ModTextAt(s, k) == s[k..k + |ModTextAt(s, k)|]
  {
  }

  /** The modifier group matches exactly what the documented shape puts after the sides. */
  lemma ModTextOf(s: string, k: nat, m: string, tail: string)
    requires k <= |s| && s[k..] == m + tail && ModText(m) && StopsMatch(m, tail)
    ensures ModTextAt(s, k) == m
  {
    if m != [] {
      assert s[k] == m[0];
      assert s[k + 1..] == m[1..] + tail;
      DigitsAt(s, k + 1, m[1..], tail);
      assert s[k..k + |m|] == m;
    } else if k < |s| && (s[k] == '+' || s[k] == '-') {
      assert s[k] == tail[0];
      if |tail| >= 2 {
        assert s[k + 1] == tail[1];
      }
      DigitRunExact(s, k + 1, 0);
    }
  }

  /** Every string of the documented shape is matched with those groups. */
  lemma MatchGroupsComplete(counts: string, sides: string, m: string, tail: string)
    requires DiceShape(counts, sides, m, tail)
    ensures MatchGroups(counts + "d" + sides + m + tail) == Some(Groups(counts, sides, m))
  {
    var after := m + tail;
    var rest := sides + after;
    assert counts + "d" + sides + m + tail == counts + ("d" + rest);
    MatchGroupsNested(counts, sides, m, tail);
  }

  lemma MatchGroupsNested(counts: string, sides: string, m: string, tail: string)
    requires DiceShape(counts, sides, m, tail)
    ensures MatchGroups(counts + ("d" + (sides + (m + tail)))) == Some(Groups(counts, sides, m))
  {
    var s := counts + ("d" + (sides + (m + tail)));
    CountsAt(s, counts, sides + (m + tail));
    GroupsAfterCounts(s, counts, sides, m, tail);
    MatchGroupsFrom(s, |counts|, |sides|);
  }

  /** Once the count and the 'd' are read, the sides and the modifier follow as the shape says. */
  lemma GroupsAfterCounts(s: string, counts: string, sides: string, m: string, tail: string)
    requires DiceShape(counts, sides, m, tail)
    requires |counts| < |s| && DigitRun(s, 0) == |counts| && s[..|counts|] == counts && s[|counts|] == 'd'
    requires s[|counts| + 1..] == sides + (m + tail)
    ensures DigitRun(s, |counts| + 1) == |sides|
    ensures Groups(s[..|counts|], s[|counts| + 1..|counts| + 1 + |sides|], ModTextAt(s, |counts| + 1 + |sides|)) == Groups(counts, sides, m)
  {
    var a, after := |counts|, m + tail;
    assert after == [] || !IsDigit(after[0]) by {
      if m != [] {
        assert after[0] == m[0];
      }
    }
    SidesAt(s, a, sides, after);
    ModTextOf(s, a + 1 + |sides|, m, tail);
  }

  lemma SidesAt(s: string, a: nat, sides: string, after: string)
    requires a < |s| && s[a + 1..] == sides + after && AllDigits(sides) && (after == [] || !IsDigit(after[0]))
    ensures DigitRun(s, a + 1) == |sides| && s[a + 1..a + 1 + |sides|] == sides && s[a + 1 + |sides|..] == after
  {
    DigitsAt(s, a + 1, sides, after);
    SliceAfter(s, a + 1, sides, after);
  }

  /** The leading count of a string that starts with digits and then 'd'. */
  lemma CountsAt(s: string, counts: string, rest: string)
    requires s == counts + ("d" + rest) && AllDigits(counts)
    ensures DigitRun(s, 0) == |counts| && s[..|counts|] == counts && s[|counts|] == 'd' && s[|counts| + 1..] == rest
  {
    assert s[0..] == counts + ("d" + rest);
    DigitsAt(s, 0, counts, "d" + rest);
  }

  lemma SliceAfter(s: string, i: nat, x: string, y: string)
    requires i <= |s| && s[i..] == x + y
    ensures s[i + |x|..] == y
  {
    assert s[i + |x|..] == s[i..][|x|..];
  }

  /** The matcher's groups once the two runs of digits are known. */
  lemma MatchGroupsFrom(s: string, a: nat, b: nat)
    requires 0 < a < |s| && s[a] == 'd' && DigitRun(s, 0) == a && b > 0 && DigitRun(s, a + 1) == b
    ensures MatchGroups(s) == Some(Groups(s[..a], s[a + 1..a + 1 + b], ModTextAt(s, a + 1 + b)))
  {
  }

  /** Every string of the documented shape is read as its counts, sides and modifier. */
  lemma MatchDiceComplete(counts: string, sides: string, m: string, tail: string)
    requires DiceShape(counts, sides, m, tail)
    ensures MatchDice(counts + "d" + sides + m + tail) == Some(SpecOf(counts, sides, m))
  {
    MatchGroupsComplete(counts, sides, m, tail);
  }

  lemma SplitAt(s: string, a: nat, k: nat, e: nat)
    requires a < k <= e <= |s| && s[a] == 'd'
    ensures s == s[..a] + "d" + s[a + 1..k] + s[k..e] + s[e..]
  {
    assert s[k..] == s[k..e] + s[e..];
    assert s[a + 1..] == s[a + 1..k] + s[k..];
    assert s[a..] == "d" + s[a + 1..];
    assert s == s[..a] + s[a..];
  }

  /** After the sides, the modifier group and what follows it stop the match as the shape requires. */
  lemma StopsAfter(s: string, k: nat)
    requires k <= |s| && (k == |s| || !IsDigit(s[k]))
    ensures StopsMatch(ModTextAt(s, k), s[k + |ModTextAt(s, k)|..])
  {
    var m := ModTextAt(s, k);
    var tail := s[k + |m|..];
    if k < |s| {
      DigitRunStops(s, k + 1);
    }
    if tail != [] {
      assert tail[0] == s[k + |m|];
      if m == [] && |tail| >= 2 {
        assert tail[1] == s[k + 1];
      }
    }
  }

  /** The groups of a match, at the positions the matcher found them. */
  lemma MatchGroupsAt(s: string) returns (a: nat, k: nat)
    requires MatchGroups(s).Some?
    ensures 0 < a < k <= |s| && s[a] == 'd' && (k == |s| || !IsDigit(s[k]))
    ensures MatchGroups(s) == Some(Groups(s[..a], s[a + 1..k], ModTextAt(s, k)))
  {
    a := DigitRun(s, 0);
    k := a + 1 + DigitRun(s, a + 1);
    DigitRunStops(s, a + 1);
  }

  /** Every match comes from a string of the documented shape, split at its groups. */
  lemma MatchGroupsSound(s: string) returns (tail: string)
    requires MatchGroups(s).Some?
    ensures var g := MatchGroups(s).value;
      s == g.counts + "d" + g.sides + g.modText + tail && DiceShape(g.counts, g.sides, g.modText, tail)
  {
    var a, k := MatchGroupsAt(s);
    var m := ModTextAt(s, k);
    tail := s[k + |m|..];
    ModTextSlice(s, k);
    SplitAt(s, a, k, k + |m|);
    StopsAfter(s, k);
  }

  /** Every string the matcher accepts has the documented shape, and is read as it says. */
  lemma MatchDiceSound(s: string) returns (counts: string, sides: string, m: string, tail: string)
    requires MatchDice(s).Some?
    ensures s == counts + "d" + sides + m + tail
    ensures DiceShape(counts, sides, m, tail) && MatchDice(s) == Some(SpecOf(counts, sides, m))
  {
    var g := MatchGroups(s).value;
    counts, sides, m := g.counts, g.sides, g.modText;
    tail := MatchGroupsSound(s);
  }

  /** The canonical text of an expression: no leading zeros, the modifier written only when nonzero. */
  function Render(d: DiceSpec): string {
    NatToString(d.numDice) + "d" + NatToString(d.diceType) + ModifierString(d.modifier)
  }

  function ModifierString(m: int): string {
    if m > 0 then "+" + NatToString(m) else if m < 0 then "-" + NatToString(-m) else ""
  }

  /** The canonical pieces are read back as the numbers they were written from. */
  lemma RenderPieces(d: DiceSpec)
    ensures ModText(ModifierString(d.modifier))
    ensures SpecOf(NatToString(d.numDice), NatToString(d.diceType), ModifierString(d.modifier)) == d
  {
    var m := ModifierString(d.modifier);
    if m != [] {
      var n := if d.modifier > 0 then d.modifier else -d.modifier;
      assert m[1..] == NatToString(n);
      DigitsValueOfNatToString(n);
    }
    DigitsValueOfNatToString(d.numDice);
    DigitsValueOfNatToString(d.diceType);
  }

  lemma LowerAppend(x: string, y: string)
    ensures Lower(x + y) == Lower(x) + Lower(y)
  {
  }

  /** Characters `lower` leaves alone and that cannot begin white space. */
  predicate DiceChar(c: char) {
    IsDigit(c) || c == 'd' || c == '+' || c == '-'
  }

  lemma LowerDiceChars(x: string)
    requires forall i :: 0 <= i < |x| ==> DiceChar(x[i])
    ensures Lower(x) == x
  {
  }

  /** The canonical text is made of digits, 'd' and signs, and begins and ends with a digit. */
  lemma RenderChars(d: DiceSpec)
    ensures var r := Render(d);
      |r| >= 3 && IsDigit(r[0]) && IsDigit(r[|r| - 1]) && forall i :: 0 <= i < |r| ==> DiceChar(r[i])
  {
    var counts, sides, m := NatToString(d.numDice), NatToString(d.diceType), ModifierString(d.modifier);
    var digits := if d.modifier > 0 then d.modifier else -d.modifier;
    assert m == [] || m[1..] == NatToString(digits);
    CharsOfPieces(Render(d), counts, sides, m);
  }

  lemma CharsOfPieces(r: string, counts: string, sides: string, m: string)
    requires r == counts + "d" + sides + m && counts != [] && AllDigits(counts) && sides != [] && AllDigits(sides)
    requires m == [] || ((m[0] == '+' || m[0] == '-') && |m| >= 2 && AllDigits(m[1..]))
    ensures |r| >= 3 && IsDigit(r[0]) && IsDigit(r[|r| - 1]) && forall i :: 0 <= i < |r| ==> DiceChar(r[i])
  {
    assert r[0] == counts[0];
    assert r[|r| - 1] == if m != [] then m[1..][|m| - 2] else sides[|sides| - 1];
    forall i | 0 <= i < |r| ensures DiceChar(r[i]) {
      if i < |counts| {
        assert r[i] == counts[i];
      } else if |counts| < i < |counts| + 1 + |sides| {
        assert r[i] == sides[i - |counts| - 1];
      } else if i > |counts| + 1 + |sides| {
        assert r[i] == m[1..][i - |counts| - 2 - |sides|];
      }
    }
  }

  /** Text that starts with a dice character and ends without white space is left as it is by `strip`. */
  lemma CleanText(r: string, tail: string)
    requires |r| >= 1 && DiceChar(r[0]) && DiceChar(r[|r| - 1]) && forall i :: 0 <= i < |r| ==> DiceChar(r[i])
    requires tail == [] || !IsSpace(tail[|tail| - 1])
    ensures Lower(Strip(r + tail)) == r + Lower(tail)
  {
    var s := r + tail;
    assert s[0] == r[0];
    assert s[|s| - 1] == if tail != [] then tail[|tail| - 1] else r[|r| - 1];
    StripNoSpace(s);
    LowerDiceChars(r);
    LowerAppend(r, tail);
  }

  /** A cleaned-up text of the documented shape is parsed as its counts, sides and modifier. */
  lemma ParseOfShape(s: string, counts: string, sides: string, m: string, tail: string)
    requires Lower(Strip(s)) == counts + "d" + sides + m + tail && DiceShape(counts, sides, m, tail)
    ensures ParseDiceString(s) == Some(SpecOf(counts, sides, m))
  {
    MatchDiceComplete(counts, sides, m, tail);
  }

  /**
   * Writing an expression out and parsing it back gives the same expression, whatever text
   * follows it that begins neither with a digit nor with a sign, and does not end in white space.
   */
  lemma ParseRender(d: DiceSpec, tail: string)
    requires tail == [] || (!IsDigit(tail[0]) && tail[0] != '+' && tail[0] != '-' && !IsSpace(tail[|tail| - 1]))
    ensures ParseDiceString(Render(d) + tail) == Some(d)
  {
    var counts, sides, m := NatToString(d.numDice), NatToString(d.diceType), ModifierString(d.modifier);
    var r, lowered := Render(d), Lower(tail);
    RenderChars(d);
    CleanText(r, tail);
    RenderPieces(d);
    assert lowered == [] || (!IsDigit(lowered[0]) && lowered[0] != '+' && lowered[0] != '-');
    assert r + lowered == counts + "d" + sides + m + lowered;
    ParseOfShape(r + tail, counts, sides, m, lowered);
  }

  // ---- validation and rolling

  datatype Verdict = Accepted(parsed: DiceSpec) | Rejected(message: string)

  /**
   * The checks `roll` makes before rolling, with the message of each refusal; the messages
   * quote the expression as the caller wrote it.
   */
  function Validate(s: string): (v: Verdict)
    ensures v.Accepted? ==> ParseDiceString(s) == Some(v.parsed) && 1 <= v.parsed.numDice <= 100 && v.parsed.diceType >= 1
    ensures ParseDiceString(s).None? ==> v == Rejected("Invalid dice expression: " + s)
    ensures ParseDiceString(s).Some? && (ParseDiceString(s).value.numDice == 0 || ParseDiceString(s).value.diceType == 0)
            ==> v == Rejected("Invalid dice parameters: " + s)
    ensures ParseDiceString(s).Some? && ParseDiceString(s).value.diceType > 0 && ParseDiceString(s).value.numDice > 100
            ==> v == Rejected("Too many dice (max 100): " + s)
    ensures ParseDiceString(s).Some? && 1 <= ParseDiceString(s).value.numDice <= 100 && ParseDiceString(s).value.diceType >= 1
            ==> v == Accepted(ParseDiceString(s).value)
  {
    match ParseDiceString(s)
    case None => Rejected("Invalid dice expression: " + s)
    case Some(d) =>
      if d.numDice <= 0 || d.diceType <= 0 then Rejected("Invalid dice parameters: " + s)
      else if d.numDice > 100 then Rejected("Too many dice (max 100): " + s)
      else Accepted(d)
  }

  /** The die values a roll of `s` may be given: one per die, each a face of the die. */
  predicate DieValuesFit(s: string, values: seq<int>) {
    match Validate(s)
    case Rejected(_) => true
    case Accepted(d) => |values| == d.numDice && forall i :: 0 <= i < |values| ==> 1 <= values[i] <= d.diceType
  }

  function Sum(s: seq<int>): int {
    if s == [] then 0 else Sum(s[..|s| - 1]) + s[|s| - 1]
  }

  /** `" + ".join(str(r) for r in rolls)`. */
  function JoinRolls(s: seq<int>): string {
    if s == [] then ""
    else if |s| == 1 then IntToString(s[0])
    else JoinRolls(s[..|s| - 1]) + " + " + IntToString(s[|s| - 1])
  }

  function ModifierText(m: int): string {
    if m > 0 then " + " + IntToString(m)
    else if m < 0 then " - " + IntToString(-m)
    else ""
  }

  /** The line `roll` reports: the total, then the dice and modifier when there is more than one term. */
  function FormatRoll(expr: string, rolls: seq<int>, m: int, total: int): string {
    Headline(expr, total) + Details(rolls, m)
  }

  function Headline(expr: string, total: int): string {
    "Rolled " + expr + ": " + IntToString(total)
  }

  function Details(rolls: seq<int>, m: int): string {
    if |rolls| > 1 || m != 0 then " (" + JoinRolls(rolls) + ModifierText(m) + ")" else ""
  }

  predicate EndsWithText(s: string, t: string) {
    |t| <= |s| && s[|s| - |t|..] == t
  }

  lemma EndsAppend(front: string, s: string, t: string)
    requires EndsWithText(s, t)
    ensures EndsWithText(front + s, t)
  {
    assert (front + s)[|front + s| - |t|..] == s[|s| - |t|..];
  }

  /**
   * The report always opens with the expression and the total, and has a bracketed detail part
   * exactly when there is more than one die or a nonzero modifier.
   */
  lemma FormatRollShape(expr: string, rolls: seq<int>, m: int, total: int)
    ensures var head, r := Headline(expr, total), FormatRoll(expr, rolls, m, total);
      && |head| <= |r| && r[..|head|] == head
      && (|r| > |head| <==> |rolls| > 1 || m != 0)
      && (|r| > |head| ==> r[|head|..|head| + 2] == " (" && r[|r| - 1] == ')')
  {
    var head, det := Headline(expr, total), Details(rolls, m);
    assert (head + det)[..|head|] == head;
    if det != [] {
      assert (head + det)[|head|..|head| + 2] == det[..2];
      assert (head + det)[|head + det| - 1] == det[|det| - 1];
    }
  }

  /** A negative modifier is shown as a subtraction of its magnitude, just before the closing bracket. */
  lemma NegativeModifierShown(expr: string, rolls: seq<int>, m: int, total: int)
    requires m < 0
    ensures EndsWithText(FormatRoll(expr, rolls, m, total), " - " + NatToString(-m) + ")")
  {
    DetailsNegative(rolls, m);
    EndsAppend(Headline(expr, total), Details(rolls, m), " - " + NatToString(-m) + ")");
  }

  lemma DetailsNegative(rolls: seq<int>, m: int)
    requires m < 0
    ensures EndsWithText(Details(rolls, m), " - " + NatToString(-m) + ")")
  {
    var joined, tail := JoinRolls(rolls), " - " + NatToString(-m) + ")";
    assert Details(rolls, m) == " (" + joined + (" - " + NatToString(-m)) + ")";
    assert " (" + joined + (" - " + NatToString(-m)) + ")" == (" (" + joined) + tail;
    EndsAppend(" (" + joined, tail, tail);
  }

  /** A single die without a modifier is reported as the bare total, which is the die's value. */
  lemma SingleDieReport(expr: string, v: int)
    ensures FormatRoll(expr, [v], 0, Sum([v]) + 0) == "Rolled " + expr + ": " + IntToString(v)
  {
    assert [v][..0] == [];
  }

  /** `sum(rolls)` and the `" + "` join of the rolls, in one pass over them. */
  method AddUp(values: seq<int>) returns (total: int, details: string)
    ensures total == Sum(values) && details == JoinRolls(values)
  {
    total, details := 0, "";
    var i := 0;
    while i < |values|
      invariant 0 <= i <= |values|
      invariant total == Sum(values[..i]) && details == JoinRolls(values[..i])
    {
      assert values[..i + 1][..i] == values[..i];
      details := if i == 0 then IntToString(values[i]) else details + " + " + IntToString(values[i]);
      total := total + values[i];
      i := i + 1;
    }
    assert values[..i] == values;
  }

  /** A roll record whose total adds up, and the report made of it. */
  ghost predicate Reports(r: RollRecord, result: string) {
    && r.total == Sum(r.rolls) + r.modifier
    && result == FormatRoll(r.expression, r.rolls, r.modifier, r.total)
  }

  /** Rolls `values` with modifier `m`: the record `roll` keeps and the line it reports. */
  method RollWith(s: string, m: int, values: seq<int>) returns (record: RollRecord, result: string)
    ensures record == RollRecord(s, values, m, Sum(values) + m)
    ensures result == FormatRoll(s, values, m, Sum(values) + m)
    ensures Reports(record, result)
  {
    var sum, details := AddUp(values);
    var total := sum + m;
    record := RollRecord(s, values, m, total);
    result := "Rolled " + s + ": " + IntToString(total);
    if |values| > 1 || m != 0 {
      result := result + (" (" + details + ModifierText(m) + ")");
    } else {
      assert result + "" == result;
    }
  }

  class DiceRoller {
    var lastRoll: Option<RollRecord>
    var lastResult: Option<string>

    /** The two fields describe the same roll: its record, and the report made of it. */
    ghost predicate Valid()
      reads this
    {
      match lastRoll
      case None => lastResult.None?
      case Some(r) => lastResult.Some? && Reports(r, lastResult.value)
    }

    constructor()
      ensures Valid() && lastRoll.None? && lastResult.None?
    {
      lastRoll := None;
      lastResult := None;
    }

    /**
     * `roll`: a refused expression reports why and leaves the last roll as it was; an accepted
     * one is rolled with `values`, recorded, and reported.
     */
    method Roll(s: string, values: seq<int>) returns (result: string)
      requires Valid() && DieValuesFit(s, values)
      modifies this`lastRoll, this`lastResult
      ensures Valid()
      ensures Validate(s).Rejected? ==>
        result == Validate(s).message && lastRoll == old(lastRoll) && lastResult == old(lastResult)
      ensures Validate(s).Accepted? ==>
        var d := Validate(s).parsed;
        && |values| == d.numDice && (forall i :: 0 <= i < |values| ==> 1 <= values[i] <= d.diceType)
        && lastRoll == Some(RollRecord(s, values, d.modifier, Sum(values) + d.modifier))
        && lastResult == Some(result)
        && result == FormatRoll(s, values, d.modifier, Sum(values) + d.modifier)
    {
      var v := Validate(s);
      if v.Rejected? {
        return v.message;
      }
      var record;
      record, result := RollWith(s, v.parsed.modifier, values);
      lastRoll := Some(record);
      lastResult := Some(result);
    }

    /** `get_last_roll`: its total is always the sum of its dice plus its modifier. */
    function GetLastRoll(): (r: Option<RollRecord>)
      requires Valid()
      reads this
      ensures r.Some? ==> r.value.total == Sum(r.value.rolls) + r.value.modifier
      ensures r == lastRoll
    {
      lastRoll
    }

    /** `get_last_result`: the report of the last roll, or a fixed notice before the first. */
    function GetLastResult(): (r: string)
      requires Valid()
      reads this
      ensures lastRoll.None? ==> r == "No dice rolled yet."
      ensures lastRoll.Some? ==> r == FormatRoll(lastRoll.value.expression, lastRoll.value.rolls, lastRoll.value.modifier, lastRoll.value.total)
    {
      if lastResult.Some? && lastResult.value != "" then lastResult.value else "No dice rolled yet."
    }
  }
}
