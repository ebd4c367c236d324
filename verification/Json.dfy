/**
 * src/wt_json.c: string escaping and the strstr-based field reader.
 *
 * A C string is a `string`; the end of the sequence stands for the terminator. The functions are
 * written on the text that remains (the C code's `cursor`); the methods are the C loops, proved
 * equal to the functions.
 */
module Json {
  import opened Options

  // isspace in the C locale: space, \t, \n, \v, \f and \r.
  predicate IsSpace(c: char) { c == ' ' || '\t' <= c <= '\r' }

  predicate IsDigit(c: char) { '0' <= c <= '9' }

  predicate IsAlnum(c: char) { IsDigit(c) || 'a' <= c <= 'z' || 'A' <= c <= 'Z' }

  // The field names the program uses are non-empty and alphanumeric.
  predicate IsKey(key: string) { key != "" && forall i :: 0 <= i < |key| ==> IsAlnum(key[i]) }

  // The control bytes that are written as \u00xx.
  predicate IsOddControl(c: char) { c < ' ' && c != '\n' && c != '\r' && c != '\t' }

  predicate Clean(text: string) { forall i :: 0 <= i < |text| ==> !IsOddControl(text[i]) }

  // ----- Escaping -----

  function HexDigit(n: nat): char
    requires n < 16
  {
    "0123456789abcdef"[n]
  }

  function EscapedChar(c: char): (piece: string)
    ensures 1 <= |piece| <= 6
  {
    if c == '"' || c == '\\' then ['\\', c]
    else if c == '\n' then ['\\', 'n']
    else if c == '\r' then ['\\', 'r']
    else if c == '\t' then ['\\', 't']
    else if c < ' ' then ['\\', 'u', '0', '0', HexDigit(c as int / 16), HexDigit(c as int % 16)]
    else [c]
  }

  function Escaped(text: string): string {
    if text == "" then "" else EscapedChar(text[0]) + Escaped(text[1..])
  }

  lemma EscapedOfEmpty()
    ensures Escaped("") == ""
  {
  }

  lemma EscapedFrom(input: string, cursor: nat)
    requires cursor < |input|
    ensures Escaped(input[cursor..]) == EscapedChar(input[cursor]) + Escaped(input[cursor + 1..])
  {
    hide EscapedChar;
    assert input[cursor..][1..] == input[cursor + 1..];
  }

  // wtJsonEscape: fails when the escaped text and its terminator do not fit.
  method Escape(input: string, outputSize: nat) returns (r: Option<string>)
    ensures r == if |Escaped(input)| + 1 <= outputSize then Some(Escaped(input)) else None
  {
    hide EscapedChar, Escaped;
    var output := "";
    var cursor := 0;
    assert input[0..] == input && "" + Escaped(input) == Escaped(input);
    while cursor < |input|
      invariant cursor <= |input|
      invariant output + Escaped(input[cursor..]) == Escaped(input)
      invariant cursor > 0 ==> |output| + 1 <= outputSize
    {
      var piece := EscapedChar(input[cursor]);
      EscapedFrom(input, cursor);
      assert output + (piece + Escaped(input[cursor + 1..])) == (output + piece) + Escaped(input[cursor + 1..]);
      if |output| + |piece| + 1 > outputSize {
        return None;
      }
      output := output + piece;
      cursor := cursor + 1;
    }
    EscapedOfEmpty();
    assert input[cursor..] == "" && output + "" == output;
    if |output| + 1 > outputSize {
      return None;
    }
    return Some(output);
  }

  // ----- Finding a field -----

  function SkipSpaces(s: string): (rest: string)
    ensures |rest| <= |s|
    ensures rest != "" ==> !IsSpace(rest[0])
  {
    if s != "" && IsSpace(s[0]) then SkipSpaces(s[1..]) else s
  }

  function Quoted(key: string): string { "\"" + key + "\"" }

  // findFieldValue: the text after the first occurrence of the quoted key that is followed by a colon.
  function FindValue(s: string, key: string): Option<string>
    decreases |s|
  {
    if s == "" then None
    else if Quoted(key) <= s then
      var after := SkipSpaces(s[|key| + 2..]);
      if after != "" && after[0] == ':' then Some(SkipSpaces(after[1..])) else FindValue(after, key)
    else FindValue(s[1..], key)
  }

  // strstr: the position of the first occurrence of the quoted key at or after `from`, or |s|.
  method FindQuoted(s: string, key: string, from: nat) returns (at: nat)
    requires from <= |s|
    ensures from <= at <= |s|
    ensures FindValue(s[from..], key) == FindValue(s[at..], key)
    ensures at < |s| ==> Quoted(key) <= s[at..]
  {
    at := from;
    while at < |s| && !(Quoted(key) <= s[at..])
      invariant from <= at <= |s|
      invariant FindValue(s[from..], key) == FindValue(s[at..], key)
    {
      assert s[at..][1..] == s[at + 1..];
      at := at + 1;
    }
  }

  method SkipSpacesFrom(s: string, from: nat) returns (at: nat)
    requires from <= |s|
    ensures from <= at <= |s| && s[at..] == SkipSpaces(s[from..])
  {
    at := from;
    while at < |s| && IsSpace(s[at])
      invariant from <= at <= |s|
      invariant SkipSpaces(s[from..]) == SkipSpaces(s[at..])
    {
      assert s[at..][1..] == s[at + 1..];
      at := at + 1;
    }
  }

  lemma FindAtMatch(s: string, key: string)
    requires Quoted(key) <= s
    ensures var after := SkipSpaces(s[|key| + 2..]);
            FindValue(s, key) == if after != "" && after[0] == ':' then Some(SkipSpaces(after[1..])) else FindValue(after, key)
  {
    hide SkipSpaces;
  }

  lemma FindInEmpty(key: string)
    ensures FindValue("", key) == None
  {
  }

  method FindFieldValue(json: string, key: string) returns (found: bool, cursor: nat)
    ensures found ==> cursor <= |json|
    ensures FindValue(json, key) == if found then Some(json[cursor..]) else None
  {
    hide FindValue, SkipSpaces;
    cursor := 0;
    FindInEmpty(key);
    assert json[0..] == json;
    while true
      invariant cursor <= |json|
      invariant FindValue(json, key) == FindValue(json[cursor..], key)
      decreases |json| - cursor
    {
      cursor := FindQuoted(json, key, cursor);
      if cursor == |json| {
        assert json[cursor..] == "";
        return false, cursor;
      }
      FindAtMatch(json[cursor..], key);
      assert json[cursor..][|key| + 2..] == json[cursor + |key| + 2..];
      cursor := SkipSpacesFrom(json, cursor + |key| + 2);
      if cursor < |json| && json[cursor] == ':' {
        assert json[cursor..][1..] == json[cursor + 1..];
        cursor := SkipSpacesFrom(json, cursor + 1);
        return true, cursor;
      }
    }
  }

  // ----- Reading a string -----

  function Unescaped(c: char): char {
    if c == 'n' then '\n' else if c == 'r' then '\r' else if c == 't' then '\t' else c
  }

  function Prefixed(p: string, text: Option<string>): Option<string> {
    if text.None? then None else Some(p + text.value)
  }

  lemma PrefixedTwice(p: string, q: string, text: Option<string>)
    ensures Prefixed(p, Prefixed(q, text)) == Prefixed(p + q, text)
    ensures Prefixed("", text) == text
  {
    if text.Some? {
      assert p + (q + text.value) == (p + q) + text.value;
      assert "" + text.value == text.value;
    }
  }

  // The string literal whose opening quote has been passed; None when it is not closed.
  function ReadText(s: string): Option<string>
    decreases |s|
  {
    if s == "" then None
    else if s[0] == '"' then Some("")
    else if s[0] == '\\' then
      if |s| == 1 then None else Prefixed([Unescaped(s[1])], ReadText(s[2..]))
    else Prefixed([s[0]], ReadText(s[1..]))
  }

  // wtJsonReadString: the first matching field must hold a closed string that fits the buffer.
  function ReadString(json: string, key: string, outputSize: nat): Option<string> {
    var v := FindValue(json, key);
    if v.None? || v.value == "" || v.value[0] != '"' || outputSize == 0 then None
    else
      var text := ReadText(v.value[1..]);
      if text.Some? && |text.value| < outputSize then text else None
  }

  method ReadStringField(json: string, key: string, outputSize: nat) returns (r: Option<string>)
    ensures r == ReadString(json, key, outputSize)
  {
    var found, cursor := FindFieldValue(json, key);
    if !found || cursor == |json| || json[cursor] != '"' || outputSize == 0 {
      return None;
    }
    cursor := cursor + 1;
    ghost var start := json[cursor..];
    var output := "";
    PrefixedTwice("", "", ReadText(start));
    while cursor < |json| && json[cursor] != '"'
      invariant cursor <= |json|
      invariant |output| < outputSize
      invariant ReadText(start) == Prefixed(output, ReadText(json[cursor..]))
    {
      ghost var here := json[cursor..];
      ghost var read := output;
      var value := json[cursor];
      cursor := cursor + 1;
      if value == '\\' {
        if cursor == |json| {
          return None;
        }
        value := Unescaped(json[cursor]);
        cursor := cursor + 1;
        assert json[cursor..] == here[2..];
      } else {
        assert json[cursor..] == here[1..];
      }
      PrefixedTwice(read, [value], ReadText(json[cursor..]));
      if |output| + 1 >= outputSize {
        return None;
      }
      output := output + [value];
    }
    assert output + "" == output;
    return if cursor == |json| then None else Some(output);
  }

  // ----- A text that is not closed -----

  // The C loop behind the opening quote, with room for this many bytes: a backslash in front of the terminator takes the
  // terminator for the escaped character, and when there is room for it the loop goes on behind it.
  predicate LeavesText(s: string, room: nat)
    decreases |s|
  {
    if s == "" || s[0] == '"' || room <= 1 then false
    else s == "\\" || LeavesText(s[if s[0] == '\\' then 2 else 1..], room - 1)
  }

  // The number of backslashes at the end.
  function Backslashes(s: string): (n: nat)
    ensures n <= |s|
  {
    if s == "" || s[|s| - 1] != '\\' then 0 else 1 + Backslashes(s[..|s| - 1])
  }

  // Every quote is escaped: an odd number of backslashes stands in front of it.
  predicate Unclosed(s: string) { forall k :: 0 <= k < |s| && s[k] == '"' ==> Backslashes(s[..k]) % 2 == 1 }

  // One character of the text as it is written.
  predicate IsUnit(c: string) {
    (|c| == 1 && c[0] != '\\' && c[0] != '"') || (|c| == 2 && c[0] == '\\')
  }

  lemma {:induction false} BackslashesBehind(c: char, s: string)
    ensures Backslashes([c] + s) == Backslashes(s) + if c == '\\' && Backslashes(s) == |s| then 1 else 0
  {
    var t := [c] + s;
    if s == "" {
      assert t[..0] == "";
    } else {
      assert t[..|t| - 1] == [c] + s[..|s| - 1];
      BackslashesBehind(c, s[..|s| - 1]);
    }
  }

  lemma UnitKeepsParity(c: string, s: string)
    requires IsUnit(c)
    ensures Backslashes(c + s) % 2 == Backslashes(s) % 2
  {
    hide Backslashes;
    BackslashesBehind(c[|c| - 1], s);
    if |c| == 2 {
      BackslashesBehind(c[0], [c[1]] + s);
      assert c + s == [c[0]] + ([c[1]] + s);
    } else {
      assert c + s == [c[0]] + s;
    }
  }

  lemma EscapedQuote()
    ensures Backslashes("\\") == 1 && Backslashes("") == 0
  {
    assert "\\"[..0] == "";
  }

  lemma UnitKeepsUnclosed(c: string, s: string)
    requires IsUnit(c)
    ensures Unclosed(c + s) <==> Unclosed(s)
  {
    hide Backslashes;
    var t, n := c + s, |c|;
    EscapedQuote();
    forall k | 0 <= k <= |s|
      ensures t[..n + k] == c + s[..k] && Backslashes(t[..n + k]) % 2 == Backslashes(s[..k]) % 2
    {
      assert t[..n + k] == c + s[..k];
      UnitKeepsParity(c, s[..k]);
    }
    if Unclosed(s) {
      forall k | 0 <= k < |t| && t[k] == '"'
        ensures Backslashes(t[..k]) % 2 == 1
      {
        if k >= n {
          assert t[k] == s[k - n] && t[..n + (k - n)] == t[..k];
        } else {
          assert t[..1] == "\\";
        }
      }
    }
    if Unclosed(t) {
      forall k | 0 <= k < |s| && s[k] == '"'
        ensures Backslashes(s[..k]) % 2 == 1
      {
        assert t[n + k] == '"';
      }
    }
  }

  // The text up to a final backslash, as it would be read with a closing quote in the backslash's place.
  function ReadClosed(s: string): Option<string> { if s == "" then None else ReadText(s[..|s| - 1] + "\"") }

  predicate EndsInLoneBackslash(s: string) { Unclosed(s) && Backslashes(s) % 2 == 1 }

  lemma ClosedBehindUnit(c: string, s: string)
    requires IsUnit(c) && s != ""
    ensures ReadClosed(c + s).Some? <==> ReadClosed(s).Some?
    ensures ReadClosed(s).Some? ==> |ReadClosed(c + s).value| == |ReadClosed(s).value| + 1
  {
    var t := s[..|s| - 1] + "\"";
    assert (c + s)[..|c + s| - 1] + "\"" == c + t;
    assert (c + t)[|c|..] == t;
  }

  lemma OnlyBackslash()
    ensures EndsInLoneBackslash("\\") && ReadClosed("\\") == Some("")
  {
    EscapedQuote();
    assert "\\"[..0] + "\"" == "\"";
  }

  lemma UnitAlone(c: string)
    requires IsUnit(c)
    ensures !EndsInLoneBackslash(c)
  {
    UnitKeepsParity(c, "");
    EscapedQuote();
    assert c + "" == c;
  }

  /**
   * The C reader leaves the text it was given exactly when the text ends, without a closing quote, in an odd number
   * of backslashes, and what stands in front of the last one fits with a byte to spare. The model fails there.
   */
  lemma {:induction false} LeavesTextIff(s: string, room: nat)
    ensures LeavesText(s, room) <==>
            EndsInLoneBackslash(s) && ReadClosed(s).Some? && |ReadClosed(s).value| + 1 < room
    ensures EndsInLoneBackslash(s) ==> ReadClosed(s).Some? && ReadText(s) == None
    decreases |s|
  {
    hide Backslashes, Unclosed, ReadClosed;
    EscapedQuote();
    OnlyBackslash();
    if s != "" && s[0] == '"' {
      NotUnclosed(s);
    } else if s != "" && s != "\\" {
      var n := if s[0] == '\\' then 2 else 1;
      var rest := s[n..];
      assert s == s[..n] + rest;
      UnitKeepsParity(s[..n], rest);
      UnitKeepsUnclosed(s[..n], rest);
      LeavesTextIff(rest, if room == 0 then 0 else room - 1);
      if rest == "" {
        UnitAlone(s[..n]);
      } else {
        ClosedBehindUnit(s[..n], rest);
      }
    }
  }

  lemma NotUnclosed(s: string)
    requires s != "" && s[0] == '"'
    ensures !Unclosed(s)
  {
    EscapedQuote();
    assert s[..0] == "";
  }

  // ----- Reading an integer -----

  function DigitsValue(s: string, acc: nat): nat {
    if s != "" && IsDigit(s[0]) then DigitsValue(s[1..], acc * 10 + (s[0] - '0') as nat) else acc
  }

  // strtol in base 10 without the range check.
  function ParseLong(s: string): Option<int> {
    var t := SkipSpaces(s);
    var negative := t != "" && t[0] == '-';
    var u := if t != "" && (t[0] == '-' || t[0] == '+') then t[1..] else t;
    if u == "" || !IsDigit(u[0]) then None
    else
      var value: int := DigitsValue(u, 0);
      Some(if negative then -value else value)
  }

  // wtJsonReadLong and wtJsonReadLongLong.
  function ReadLong(json: string, key: string): Option<int> {
    var v := FindValue(json, key);
    if v.None? then None else ParseLong(v.value)
  }

  // strtol's loop over the digits.
  method ReadDigits(s: string, from: nat) returns (value: nat)
    requires from <= |s|
    ensures value == DigitsValue(s[from..], 0)
  {
    value := 0;
    var i := from;
    while i < |s| && IsDigit(s[i])
      invariant from <= i <= |s|
      invariant DigitsValue(s[from..], 0) == DigitsValue(s[i..], value)
    {
      assert s[i..][1..] == s[i + 1..];
      value := value * 10 + (s[i] - '0') as nat;
      i := i + 1;
    }
  }

  method ReadLongField(json: string, key: string) returns (r: Option<int>)
    ensures r == ReadLong(json, key)
  {
    hide FindValue, SkipSpaces, DigitsValue;
    var found, cursor := FindFieldValue(json, key);
    if !found {
      return None;
    }
    var at := SkipSpacesFrom(json, cursor);
    var t := json[at..];
    var negative := at < |json| && json[at] == '-';
    var digits := at;
    if at < |json| && (json[at] == '-' || json[at] == '+') {
      digits := at + 1;
      assert t[1..] == json[digits..];
    }
    if digits == |json| || !IsDigit(json[digits]) {
      return None;
    }
    var value: int := ReadDigits(json, digits);
    return Some(if negative then -value else value);
  }

  // ----- Printing an integer (%ld) -----

  function NatText(n: nat): (s: string)
    ensures s != "" && forall i :: 0 <= i < |s| ==> IsDigit(s[i])
  {
    (if n < 10 then "" else NatText(n / 10)) + [('0' as int + n % 10) as char]
  }

  function IntText(n: int): string {
    if n < 0 then "-" + NatText(-n) else NatText(n)
  }

  predicate StartsWithDigit(s: string) { s != "" && IsDigit(s[0]) }

  lemma {:induction false} DigitsValueOfNatText(n: nat, rest: string)
    ensures DigitsValue(NatText(n) + rest, 0) == DigitsValue(rest, n)
  {
    var last := [('0' as int + n % 10) as char];
    assert (last + rest)[1..] == rest;
    if n >= 10 {
      assert NatText(n) + rest == NatText(n / 10) + (last + rest);
      DigitsValueOfNatText(n / 10, last + rest);
    } else {
      assert NatText(n) + rest == last + rest;
    }
  }

  lemma NoMoreDigits(rest: string, acc: nat)
    requires !StartsWithDigit(rest)
    ensures DigitsValue(rest, acc) == acc
  {
  }

  lemma SkipSpacesStays(s: string)
    requires s == "" || !IsSpace(s[0])
    ensures SkipSpaces(s) == s
  {
  }

  // strtol gives back any printed integer that is not followed by another digit.
  lemma ParseLongOfIntText(n: int, rest: string)
    requires !StartsWithDigit(rest)
    ensures ParseLong(IntText(n) + rest) == Some(n)
  {
    hide DigitsValue, NatText, SkipSpaces;
    var m := if n < 0 then -n else n;
    DigitsValueOfNatText(m, rest);
    NoMoreDigits(rest, m);
    var s, digits := IntText(n) + rest, NatText(m) + rest;
    assert IsDigit(digits[0]);
    SkipSpacesStays(s);
    if n < 0 {
      assert s[1..] == digits;
    }
  }

  // ----- Flat JSON lines -----

  datatype Value = Text(text: string) | Number(n: int)
  datatype Field = Field(key: string, value: Value)

  function RenderValue(v: Value): string {
    match v
    case Text(text) => "\"" + Escaped(text) + "\""
    case Number(n) => IntText(n)
  }

  function RenderField(f: Field): string { Quoted(f.key) + ":" + RenderValue(f.value) }

  function RenderFields(fs: seq<Field>): string {
    if fs == [] then ""
    else if |fs| == 1 then RenderField(fs[0])
    else RenderField(fs[0]) + "," + RenderFields(fs[1..])
  }

  // The shape of every line the program prints with snprintf.
  function Render(fs: seq<Field>): string { "{" + RenderFields(fs) + "}" }

  predicate AllKeys(fs: seq<Field>) { forall i :: 0 <= i < |fs| ==> IsKey(fs[i].key) }

  // What follows a value in a rendered line.
  function AfterFirst(fs: seq<Field>, tail: string): string
    requires fs != []
  {
    (if |fs| == 1 then "" else "," + RenderFields(fs[1..])) + tail
  }

  function FirstField(fs: seq<Field>, key: string): (i: nat)
    ensures i <= |fs|
    ensures i < |fs| ==> fs[i].key == key
    ensures forall j :: 0 <= j < i ==> fs[j].key != key
  {
    if fs == [] || fs[0].key == key then 0 else 1 + FirstField(fs[1..], key)
  }

  // What is left of a line from inside a printed text: the text still to come, its closing quote, the rest.
  function InText(t: string, rest: string): string { Escaped(t) + ("\"" + rest) }

  lemma InTextUnfolds(t: string, rest: string)
    requires t != ""
    ensures InText(t, rest) == EscapedChar(t[0]) + InText(t[1..], rest)
  {
  }

  // What can follow a printed value: a comma or the closing brace.
  predicate Separated(rest: string) { rest != "" && (rest[0] == ',' || rest[0] == '}') }

  lemma KeyPrefixHead(key: string, s: string)
    ensures key + "\"" <= s ==> s != "" && s[0] == (if key == "" then '"' else key[0])
    ensures key != "" ==> (key + "\"" <= s ==> key[1..] + "\"" <= s[1..])
  {
    var p := key + "\"";
    if p <= s {
      assert s[0] == p[0];
      if key != "" {
        assert p[1..] == key[1..] + "\"";
      }
    }
  }

  lemma QuotedHead(key: string, s: string)
    ensures Quoted(key) <= s ==> s != "" && s[0] == '"' && key + "\"" <= s[1..]
  {
    var p := Quoted(key);
    if p <= s {
      assert s[0] == p[0];
      assert p[1..] == key + "\"";
    }
  }

  // A quote with no letter after it starts no key.
  lemma FindSkipsLoneQuote(s: string, key: string)
    requires IsKey(key)
    requires s != "" && !IsAlnum(s[0])
    ensures FindValue("\"" + s, key) == FindValue(s, key)
  {
    var t := "\"" + s;
    assert t[1..] == s;
    QuotedHead(key, t);
    KeyPrefixHead(key, s);
  }

  lemma FindSkips(c: char, s: string, key: string)
    requires c != '"'
    ensures FindValue([c] + s, key) == FindValue(s, key)
  {
    var t := [c] + s;
    assert t[1..] == s;
    QuotedHead(key, t);
  }

  lemma {:induction false} FindSkipsAll(u: string, s: string, key: string)
    requires forall i :: 0 <= i < |u| ==> u[i] != '"'
    ensures FindValue(u + s, key) == FindValue(s, key)
  {
    if u == "" {
      assert u + s == s;
    } else {
      assert u + s == [u[0]] + (u[1..] + s);
      FindSkips(u[0], u[1..] + s, key);
      FindSkipsAll(u[1..], s, key);
    }
  }

  // A printed text can start with key" only by being the key itself, up to its closing quote.
  lemma {:induction false} EscapedStartsWithKey(t: string, key: string, rest: string)
    requires forall i :: 0 <= i < |key| ==> IsAlnum(key[i])
    ensures key + "\"" <= InText(t, rest) ==> Escaped(t) == key
  {
    var s := InText(t, rest);
    KeyPrefixHead(key, s);
    if t != "" {
      InTextUnfolds(t, rest);
      if key + "\"" <= s {
        assert s[1..] == InText(t[1..], rest);
        EscapedStartsWithKey(t[1..], key[1..], rest);
      }
    }
  }

  lemma FindNoMatch(s: string, key: string)
    requires s != "" && !(Quoted(key) <= s)
    ensures FindValue(s, key) == FindValue(s[1..], key)
  {
  }

  // A quote that opens or sits inside a printed value never yields a field: what follows the value is no colon.
  lemma {:induction false} FindSkipsQuote(t: string, rest: string, key: string)
    requires IsKey(key) && Separated(rest)
    ensures FindValue("\"" + InText(t, rest), key) == FindValue(rest, key)
    decreases |t|, 1
  {
    hide FindValue, SkipSpaces;
    var s := "\"" + InText(t, rest);
    assert s[1..] == InText(t, rest);
    if Quoted(key) <= s {
      QuotedHead(key, s);
      EscapedStartsWithKey(t, key, rest);
      assert s[|key| + 2..] == rest;
      FindAtMatch(s, key);
      SkipSpacesStays(rest);
    } else {
      FindNoMatch(s, key);
      FindSkipsText(t, rest, key);
    }
  }

  // No text printed inside a value can make the lookup stop there, whatever quotes, key names or backslashes it holds.
  lemma {:induction false} FindSkipsText(t: string, rest: string, key: string)
    requires IsKey(key) && Separated(rest)
    ensures FindValue(InText(t, rest), key) == FindValue(rest, key)
    decreases |t|, 0
  {
    if t == "" {
      assert InText(t, rest) == "\"" + rest;
      FindSkipsLoneQuote(rest, key);
    } else {
      var tail := InText(t[1..], rest);
      InTextUnfolds(t, rest);
      if t[0] == '"' {
        assert EscapedChar(t[0]) + tail == ['\\'] + ("\"" + tail);
        FindSkips('\\', "\"" + tail, key);
        FindSkipsQuote(t[1..], rest, key);
      } else {
        FindSkipsAll(EscapedChar(t[0]), tail, key);
        FindSkipsText(t[1..], rest, key);
      }
    }
  }

  lemma FindSkipsValue(v: Value, rest: string, key: string)
    requires IsKey(key) && Separated(rest)
    ensures FindValue(RenderValue(v) + rest, key) == FindValue(rest, key)
  {
    match v
    case Text(t) =>
      assert RenderValue(v) + rest == "\"" + InText(t, rest);
      FindSkipsQuote(t, rest, key);
    case Number(n) => FindSkipsAll(IntText(n), rest, key);
  }

  lemma {:induction false} EscapedOfAlnum(a: string)
    requires forall i :: 0 <= i < |a| ==> IsAlnum(a[i])
    ensures Escaped(a) == a
  {
    if a != "" {
      EscapedOfAlnum(a[1..]);
      assert a == [a[0]] + a[1..];
    }
  }

  lemma FindAtKey(key: string, value: string)
    requires value != "" && !IsSpace(value[0])
    ensures FindValue(Quoted(key) + (":" + value), key) == Some(value)
  {
    var s := Quoted(key) + (":" + value);
    assert s[|key| + 2..] == ":" + value;
    assert (":" + value)[1..] == value;
  }

  lemma FindAtField(f: Field, rest: string)
    requires IsKey(f.key)
    ensures FindValue(RenderField(f) + rest, f.key) == Some(RenderValue(f.value) + rest)
  {
    hide FindValue;
    var value := RenderValue(f.value) + rest;
    assert RenderField(f) + rest == Quoted(f.key) + (":" + value);
    FindAtKey(f.key, value);
  }

  lemma FindPastField(f: Field, rest: string, key: string)
    requires IsKey(f.key) && IsKey(key) && f.key != key && Separated(rest)
    ensures FindValue(RenderField(f) + rest, key) == FindValue(rest, key)
  {
    hide FindValue, Escaped, RenderValue;
    var value := RenderValue(f.value) + rest;
    var s := RenderField(f) + rest;
    EscapedOfAlnum(f.key);
    assert s == "\"" + InText(f.key, ":" + value);
    assert s[1..] == InText(f.key, ":" + value);
    QuotedHead(key, s);
    EscapedStartsWithKey(f.key, key, ":" + value);
    FindNoMatch(s, key);
    assert s[1..] == f.key + ("\"" + (":" + value));
    FindSkipsAll(f.key, "\"" + (":" + value), key);
    FindSkipsLoneQuote(":" + value, key);
    FindSkips(':', value, key);
    FindSkipsValue(f.value, rest, key);
  }

  /**
   * On a rendered line the lookup stops at the value of the first field with that key, or leaves
   * the object: it can land on no other place, whatever texts the fields hold.
   */
  lemma {:induction false} FindInFields(fs: seq<Field>, key: string, tail: string)
    requires fs != [] && AllKeys(fs) && IsKey(key)
    requires tail != "" && tail[0] == '}'
    ensures var i := FirstField(fs, key);
            FindValue(RenderFields(fs) + tail, key) ==
            if i < |fs| then Some(RenderValue(fs[i].value) + AfterFirst(fs[i..], tail)) else FindValue(tail, key)
  {
    hide FindValue, RenderValue, RenderField;
    var rest := AfterFirst(fs, tail);
    assert RenderFields(fs) + tail == RenderField(fs[0]) + rest;
    if fs[0].key == key {
      FindAtField(fs[0], rest);
      assert fs[0..] == fs;
    } else {
      FindPastField(fs[0], rest, key);
      if |fs| > 1 {
        var more := RenderFields(fs[1..]) + tail;
        assert rest == [','] + more;
        FindSkips(',', more, key);
        FindInFields(fs[1..], key, tail);
        var i := FirstField(fs[1..], key);
        assert fs[1..][i..] == fs[i + 1..];
      } else {
        assert fs[1..] == [];
        assert rest == tail;
      }
    }
  }

  // What the reader makes of an escaped text: \u00xx comes back as the letters u00xx.
  function Recoded(text: string): string {
    if text == "" then ""
    else (if IsOddControl(text[0]) then EscapedChar(text[0])[1..] else [text[0]]) + Recoded(text[1..])
  }

  lemma {:induction false} RecodedOfClean(text: string)
    ensures |Recoded(text)| >= |text|
    ensures Recoded(text) == text <==> Clean(text)
  {
    if text != "" {
      RecodedOfClean(text[1..]);
      assert text == [text[0]] + text[1..];
      if IsOddControl(text[0]) {
        assert |Recoded(text)| > |text|;
      } else {
        assert Recoded(text)[1..] == Recoded(text[1..]);
      }
    }
  }

  lemma ReadTextPlain(c: char, s: string)
    requires c != '"' && c != '\\'
    ensures ReadText([c] + s) == Prefixed([c], ReadText(s))
  {
    assert ([c] + s)[1..] == s;
  }

  lemma ReadTextEscape(c: char, s: string)
    ensures ReadText(['\\', c] + s) == Prefixed([Unescaped(c)], ReadText(s))
  {
    assert (['\\', c] + s)[2..] == s;
  }

  lemma {:induction false} ReadTextPlainAll(p: string, s: string)
    requires forall i :: 0 <= i < |p| ==> p[i] != '"' && p[i] != '\\'
    ensures ReadText(p + s) == Prefixed(p, ReadText(s))
  {
    if p == "" {
      assert p + s == s;
      PrefixedTwice("", "", ReadText(s));
    } else {
      assert p + s == [p[0]] + (p[1..] + s);
      ReadTextPlain(p[0], p[1..] + s);
      ReadTextPlainAll(p[1..], s);
      PrefixedTwice([p[0]], p[1..], ReadText(s));
      assert [p[0]] + p[1..] == p;
    }
  }

  lemma ReadTextOfOddControl(c: char, s: string)
    requires IsOddControl(c)
    ensures ReadText(EscapedChar(c) + s) == Prefixed(EscapedChar(c)[1..], ReadText(s))
  {
    var p := EscapedChar(c);
    var more := p[2..];
    assert p + s == ['\\', 'u'] + (more + s);
    ReadTextEscape('u', more + s);
    ReadTextPlainAll(more, s);
    PrefixedTwice(['u'], more, ReadText(s));
    assert ['u'] + more == p[1..];
  }

  lemma {:induction false} ReadTextOfEscaped(text: string, rest: string)
    ensures ReadText(InText(text, rest)) == Some(Recoded(text))
  {
    if text != "" {
      var c := text[0];
      var tail := InText(text[1..], rest);
      ReadTextOfEscaped(text[1..], rest);
      InTextUnfolds(text, rest);
      if IsOddControl(c) {
        ReadTextOfOddControl(c, tail);
      } else if c == '"' || c == '\\' || c < ' ' {
        ReadTextEscape(EscapedChar(c)[1], tail);
      } else {
        ReadTextPlain(c, tail);
      }
    }
  }

  lemma FindInRender(fs: seq<Field>, i: nat, key: string, tail: string)
    requires i < |fs| && AllKeys(fs) && fs[i].key == key
    requires forall j :: 0 <= j < i ==> fs[j].key != key
    ensures FindValue(Render(fs) + tail, key) == Some(RenderValue(fs[i].value) + AfterFirst(fs[i..], "}" + tail))
  {
    hide FindValue, RenderFields, RenderValue, AfterFirst;
    assert Render(fs) + tail == ['{'] + (RenderFields(fs) + ("}" + tail));
    FindSkips('{', RenderFields(fs) + ("}" + tail), key);
    FindInFields(fs, key, "}" + tail);
  }

  lemma ReadStringAtText(json: string, key: string, size: nat, text: string, rest: string)
    requires FindValue(json, key) == Some("\"" + InText(text, rest))
    ensures var back := Recoded(text);
            ReadString(json, key, size) == if |back| < size then Some(back) else None
  {
    hide FindValue, InText, ReadText, Recoded;
    assert ("\"" + InText(text, rest))[1..] == InText(text, rest);
    ReadTextOfEscaped(text, rest);
  }

  lemma ReadBackOfRender(fs: seq<Field>, i: nat, key: string, size: nat, tail: string)
    requires i < |fs| && AllKeys(fs) && fs[i].key == key && fs[i].value.Text?
    requires forall j :: 0 <= j < i ==> fs[j].key != key
    ensures var back := Recoded(fs[i].value.text);
            ReadString(Render(fs) + tail, key, size) == if |back| < size then Some(back) else None
  {
    hide FindValue, ReadString, Recoded, Escaped, Render, AfterFirst, IsKey;
    var text := fs[i].value.text;
    FindInRender(fs, i, key, tail);
    var rest := AfterFirst(fs[i..], "}" + tail);
    assert RenderValue(fs[i].value) + rest == "\"" + InText(text, rest);
    ReadStringAtText(Render(fs) + tail, key, size, text, rest);
  }

  /** Reading a text field of a printed line gives back the text exactly when it holds no odd control byte. */
  lemma ReadStringOfRender(fs: seq<Field>, i: nat, key: string, size: nat, tail: string)
    requires i < |fs| && AllKeys(fs) && fs[i].key == key && fs[i].value.Text?
    requires forall j :: 0 <= j < i ==> fs[j].key != key
    requires |fs[i].value.text| < size
    ensures ReadString(Render(fs) + tail, key, size) == Some(fs[i].value.text) <==> Clean(fs[i].value.text)
  {
    ReadBackOfRender(fs, i, key, size, tail);
    RecodedOfClean(fs[i].value.text);
  }

  /** Reading an integer field of a printed line always gives back the integer. */
  lemma ReadLongOfRender(fs: seq<Field>, i: nat, key: string, tail: string)
    requires i < |fs| && AllKeys(fs) && fs[i].key == key && fs[i].value.Number?
    requires forall j :: 0 <= j < i ==> fs[j].key != key
    ensures ReadLong(Render(fs) + tail, key) == Some(fs[i].value.n)
  {
    FindInRender(fs, i, key, tail);
    ParseLongOfIntText(fs[i].value.n, AfterFirst(fs[i..], "}" + tail));
  }

  // ----- The length of a printed line -----

  lemma {:induction false} EscapedLength(text: string)
    ensures |Escaped(text)| <= 6 * |text|
  {
    if text != "" {
      EscapedLength(text[1..]);
    }
  }

  lemma {:induction false} CleanEscapedLength(text: string)
    requires Clean(text)
    ensures |Escaped(text)| <= 2 * |text|
  {
    if text != "" {
      CleanEscapedLength(text[1..]);
    }
  }

  function Power10(d: nat): nat { if d == 0 then 1 else 10 * Power10(d - 1) }

  lemma Power10OfSix(d: nat)
    ensures Power10(d + 6) == 1_000_000 * Power10(d)
  {
    assert Power10(d + 3) == 10 * Power10(d + 2) == 100 * Power10(d + 1) == 1000 * Power10(d);
    assert Power10(d + 6) == 10 * Power10(d + 5) == 100 * Power10(d + 4) == 1000 * Power10(d + 3);
  }

  lemma {:induction false} NatTextLength(n: nat, d: nat)
    requires d > 0 && n < Power10(d)
    ensures |NatText(n)| <= d
  {
    if n >= 10 {
      NatTextLength(n / 10, d - 1);
    }
  }

  // At most one field longer than 200 characters.
  lemma {:induction false} RenderFieldsLength(fs: seq<Field>, big: nat)
    requires fs != []
    requires forall i :: 0 <= i < |fs| && i != big ==> |RenderField(fs[i])| <= 200
    requires big < |fs| ==> |RenderField(fs[big])| <= 5000
    ensures |RenderFields(fs)| < 201 * |fs| + if big < |fs| then 4800 else 0
  {
    if |fs| > 1 {
      hide RenderField;
      var rest := fs[1..];
      RenderFieldsLength(rest, if big == 0 then |rest| else big - 1);
    }
  }
}
