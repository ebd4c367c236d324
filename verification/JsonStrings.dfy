/**
 * What wtJsonReadString makes of the string literals of JSON (section 7 of RFC 8259), of which the program's own printer
 * uses only a part.
 */
module JsonStrings {
  import opened Options
  import opened Json

  // A character as it is written in a literal.
  datatype Unit = Plain(c: char) | Escape(c: char) | CodePoint(hex: string)

  predicate IsHex(c: char) { '0' <= c <= '9' || 'a' <= c <= 'f' || 'A' <= c <= 'F' }

  predicate ValidUnit(u: Unit) {
    match u
    case Plain(c) => c != '"' && c != '\\' && c >= ' '
    case Escape(c) => c in ['"', '\\', '/', 'b', 'f', 'n', 'r', 't']
    case CodePoint(hex) => |hex| == 4 && forall i :: 0 <= i < 4 ==> IsHex(hex[i])
  }

  predicate ValidUnits(us: seq<Unit>) { forall i :: 0 <= i < |us| ==> ValidUnit(us[i]) }

  function UnitText(u: Unit): string {
    match u
    case Plain(c) => [c]
    case Escape(c) => ['\\', c]
    case CodePoint(hex) => ['\\', 'u'] + hex
  }

  function Written(us: seq<Unit>): string { if us == [] then "" else UnitText(us[0]) + Written(us[1..]) }

  // What the reader takes the unit for.
  function ReadAs(u: Unit): string {
    match u
    case Plain(c) => [c]
    case Escape('n') => ['\n']
    case Escape('r') => ['\r']
    case Escape('t') => ['\t']
    case Escape(c) => [c]
    case CodePoint(hex) => "u" + hex
  }

  function AllReadAs(us: seq<Unit>): string { if us == [] then "" else ReadAs(us[0]) + AllReadAs(us[1..]) }

  // The value of a hexadecimal digit.
  function HexValue(c: char): (n: nat)
    ensures IsHex(c) ==> n < 16
  {
    if '0' <= c <= '9' then (c - '0') as nat
    else if 'a' <= c <= 'f' then 10 + (c - 'a') as nat
    else if 'A' <= c <= 'F' then 10 + (c - 'A') as nat
    else 0
  }

  // What JSON means by the unit, as a UTF-16 code unit.
  function Meaning(u: Unit): int
    requires ValidUnit(u)
  {
    match u
    case Plain(c) => c as int
    case Escape('b') => 8
    case Escape('t') => 9
    case Escape('n') => 10
    case Escape('f') => 12
    case Escape('r') => 13
    case Escape(c) => c as int
    case CodePoint(hex) => ((HexValue(hex[0]) * 16 + HexValue(hex[1])) * 16 + HexValue(hex[2])) * 16 + HexValue(hex[3])
  }

  // The read text is what JSON means, character by character.
  predicate IsMeant(text: string, us: seq<Unit>)
    requires ValidUnits(us)
  {
    |text| == |us| && forall i :: 0 <= i < |us| ==> text[i] as int == Meaning(us[i])
  }

  predicate ReadRight(u: Unit) { u.Plain? || (u.Escape? && u.c != 'b' && u.c != 'f') }

  lemma ReadUnit(u: Unit, rest: string)
    requires ValidUnit(u)
    ensures ReadText(UnitText(u) + rest) == Prefixed(ReadAs(u), ReadText(rest))
  {
    match u
    case Plain(c) =>
      assert ([c] + rest)[1..] == rest;
    case Escape(c) =>
      assert (['\\', c] + rest)[2..] == rest;
    case CodePoint(hex) =>
      ReadHex(hex, rest);
      assert (['\\', 'u'] + hex + rest)[2..] == hex + rest;
      PrefixedTwice("u", hex, ReadText(rest));
  }

  lemma {:induction false} ReadHex(hex: string, rest: string)
    requires forall i :: 0 <= i < |hex| ==> IsHex(hex[i])
    ensures ReadText(hex + rest) == Prefixed(hex, ReadText(rest))
  {
    if hex == "" {
      assert hex + rest == rest;
      PrefixedTwice("", "", ReadText(rest));
    } else {
      assert (hex + rest)[1..] == hex[1..] + rest;
      ReadHex(hex[1..], rest);
      PrefixedTwice([hex[0]], hex[1..], ReadText(rest));
      assert [hex[0]] + hex[1..] == hex;
    }
  }

  /** A literal reads as its units: \n, \r and \t as these characters, any other escape as the letter behind the backslash. */
  lemma {:induction false} LiteralReads(us: seq<Unit>, tail: string)
    requires ValidUnits(us)
    ensures ReadText(Written(us) + ("\"" + tail)) == Some(AllReadAs(us))
  {
    var rest := "\"" + tail;
    if us == [] {
      assert Written(us) + rest == rest;
    } else {
      hide ReadText, UnitText, ReadAs, ValidUnit;
      var first, written := UnitText(us[0]), Written(us[1..]);
      LiteralReads(us[1..], tail);
      ReadUnit(us[0], written + rest);
      assert Written(us) + rest == first + (written + rest);
    }
  }

  lemma {:induction false} ReadLength(us: seq<Unit>)
    requires ValidUnits(us)
    ensures |AllReadAs(us)| >= |us|
    ensures |AllReadAs(us)| == |us| <==> forall i :: 0 <= i < |us| ==> !us[i].CodePoint?
  {
    if us != [] {
      ReadLength(us[1..]);
      assert forall i :: 1 <= i < |us| ==> us[i] == us[1..][i - 1];
      assert (forall i :: 0 <= i < |us[1..]| ==> !us[1..][i].CodePoint?) && !us[0].CodePoint? ==>
          forall i :: 0 <= i < |us| ==> !us[i].CodePoint?;
    }
  }

  lemma {:induction false} ReadAt(us: seq<Unit>, i: nat)
    requires ValidUnits(us) && i < |us| && forall j :: 0 <= j < |us| ==> !us[j].CodePoint?
    ensures |AllReadAs(us)| == |us| && [AllReadAs(us)[i]] == ReadAs(us[i])
  {
    ReadLength(us);
    if i > 0 {
      ReadAt(us[1..], i - 1);
    }
  }

  lemma UnitIsMeantIff(u: Unit, c: char)
    requires ValidUnit(u) && !u.CodePoint? && ReadAs(u) == [c]
    ensures c as int == Meaning(u) <==> ReadRight(u)
  {
  }

  /**
   * The reader and JSON agree on a literal exactly when it has no \b, \f or \u escape: those it reads as the letters
   * themselves.
   */
  lemma ReadsJsonIff(us: seq<Unit>, tail: string)
    requires ValidUnits(us)
    ensures var text := ReadText(Written(us) + ("\"" + tail));
            text.Some? && (IsMeant(text.value, us) <==> forall i :: 0 <= i < |us| ==> ReadRight(us[i]))
  {
    hide AllReadAs, ReadText, Written, Meaning, ReadAs;
    LiteralReads(us, tail);
    ReadLength(us);
    if forall i :: 0 <= i < |us| ==> !us[i].CodePoint? {
      forall i | 0 <= i < |us|
        ensures |AllReadAs(us)| == |us|
        ensures AllReadAs(us)[i] as int == Meaning(us[i]) <==> ReadRight(us[i])
      {
        ReadAt(us, i);
        UnitIsMeantIff(us[i], AllReadAs(us)[i]);
      }
    }
  }

  // ----- The printer -----

  // The literal the printer writes for a text.
  function UnitOf(c: char): Unit {
    if c in ['"', '\\'] then Escape(c)
    else if c == '\n' then Escape('n')
    else if c == '\r' then Escape('r')
    else if c == '\t' then Escape('t')
    else if c < ' ' then CodePoint(['0', '0', HexDigit(c as int / 16), HexDigit(c as int % 16)])
    else Plain(c)
  }

  lemma HexDigitIs(n: nat)
    requires n < 16
    ensures IsHex(HexDigit(n)) && HexValue(HexDigit(n)) == n
  {
  }

  lemma UnitOfMeans(c: char)
    ensures ValidUnit(UnitOf(c)) && Meaning(UnitOf(c)) == c as int && UnitText(UnitOf(c)) == EscapedChar(c)
  {
    if c < ' ' {
      HexDigitIs(c as int / 16);
      HexDigitIs(c as int % 16);
    }
  }

  // Some JSON literal is written as the escaped text and means the text.
  ghost predicate MeantBy(written: string, text: string) {
    exists us :: ValidUnits(us) && Written(us) == written && IsMeant(text, us)
  }

  lemma {:induction false} UnitsOf(text: string) returns (us: seq<Unit>)
    ensures ValidUnits(us) && Written(us) == Escaped(text) && IsMeant(text, us)
  {
    if text == "" {
      us := [];
    } else {
      hide EscapedChar, UnitText, Meaning, ValidUnit;
      var more := UnitsOf(text[1..]);
      UnitOfMeans(text[0]);
      us := [UnitOf(text[0])] + more;
      assert us[1..] == more;
      assert forall i :: 1 <= i < |us| ==> us[i] == more[i - 1] && text[i] == text[1..][i - 1];
    }
  }

  /** Whatever the text, the printer's escapes are a literal that means it to a JSON reader, odd control bytes included. */
  lemma EscapedMeansText(text: string)
    ensures MeantBy(Escaped(text), text)
  {
    var us := UnitsOf(text);
  }

  // ----- The blanks around a field -----

  // A space, or one of the control characters 9 to 13.
  predicate AllBlank(s: string) { forall k :: 0 <= k < |s| ==> s[k] == ' ' || 9 <= s[k] as int <= 13 }

  lemma {:induction false} SkipsBlanks(blank: string, rest: string)
    requires AllBlank(blank) && (rest != "" ==> rest[0] > ' ')
    ensures SkipSpaces(blank + rest) == rest
  {
    if blank == "" {
      assert blank + rest == rest;
    } else {
      assert (blank + rest)[1..] == blank[1..] + rest;
      SkipsBlanks(blank[1..], rest);
    }
  }

  /** White space around the colon does not matter: the value starts at the first other character. */
  lemma BlanksAroundColon(key: string, before: string, after: string, value: string)
    requires AllBlank(before) && AllBlank(after) && (value != "" ==> value[0] > ' ')
    ensures FindValue("\"" + key + "\"" + (before + (":" + (after + value))), key) == Some(value)
  {
    hide SkipSpaces, FindValue;
    var behind := before + (":" + (after + value));
    var s := "\"" + key + "\"" + behind;
    assert Quoted(key) <= s && s[|key| + 2..] == behind;
    FindAtMatch(s, key);
    SkipsBlanks(before, ":" + (after + value));
    assert (":" + (after + value))[1..] == after + value;
    SkipsBlanks(after, value);
  }
}
