/**
 * src/wt_roomd.c, compactJsonLine: a posted body becomes one ledger line by dropping the line breaks
 * and tabs outside string literals.
 */
module Compaction {
  import opened Options
  import opened Json

  // The flags `inString` and `escaped`; the second is only ever set inside a string.
  datatype Lex = Outside | InString | AfterBackslash

  function NextLex(st: Lex, c: char): Lex {
    match st
    case AfterBackslash => InString
    case InString => if c == '\\' then AfterBackslash else if c == '"' then Outside else InString
    case Outside => if c == '"' then InString else Outside
  }

  predicate Dropped(st: Lex, c: char) { st == Outside && (c == '\n' || c == '\r' || c == '\t') }

  function Compacted(s: string, st: Lex): string {
    if s == "" then ""
    else (if Dropped(st, s[0]) then "" else [s[0]]) + Compacted(s[1..], NextLex(st, s[0]))
  }

  // compactJsonLine, with its truncation to the output buffer.
  method CompactJsonLine(input: string, outputSize: nat) returns (output: string)
    requires outputSize > 0
    ensures output <= Compacted(input, Outside)
    ensures output == Compacted(input, Outside) || |output| == outputSize - 1
  {
    output := "";
    var inString, escaped := false, false;
    var cursor := 0;
    ghost var st := Outside;
    while cursor < |input| && |output| + 1 < outputSize
      invariant cursor <= |input| && |output| < outputSize
      invariant st == if escaped then AfterBackslash else if inString then InString else Outside
      invariant escaped ==> inString
      invariant output + Compacted(input[cursor..], st) == Compacted(input, Outside)
    {
      hide Compacted;
      var value := input[cursor];
      CompactedUnfolds(input, cursor, st);
      ghost var rest := Compacted(input[cursor + 1..], NextLex(st, value));
      assert output + ("" + rest) == output + rest;
      assert output + ([value] + rest) == (output + [value]) + rest;
      st := NextLex(st, value);
      cursor := cursor + 1;
      if escaped {
        output := output + [value];
        escaped := false;
      } else if value == '\\' && inString {
        output := output + [value];
        escaped := true;
      } else if value == '"' {
        inString := !inString;
        output := output + [value];
      } else if !inString && (value == '\n' || value == '\r' || value == '\t') {
        // not copied
      } else {
        output := output + [value];
      }
    }
    CompactedOfEmpty(st);
    assert cursor == |input| ==> input[cursor..] == "" && output + "" == output;
  }

  lemma CompactedUnfolds(s: string, i: nat, st: Lex)
    requires i < |s|
    ensures Compacted(s[i..], st) == (if Dropped(st, s[i]) then "" else [s[i]]) + Compacted(s[i + 1..], NextLex(st, s[i]))
  {
    assert s[i..][1..] == s[i + 1..];
  }

  // ----- Bodies on which white space only ever surrounds structural characters -----

  predicate IsWhite(c: char) { c == ' ' || c == '\n' || c == '\r' || c == '\t' }

  predicate IsStructural(c: char) { c == '{' || c == '}' || c == '[' || c == ']' || c == ':' || c == ',' }

  // What came last outside strings: nothing or a structural character; a literal such as 12 or true;
  // a literal and then white space; or the end of a string.
  datatype Last = Fresh | Word | WordGap | Closed

  predicate WellSpaced(s: string, st: Lex, last: Last)
    decreases |s|
  {
    s == "" ||
    match st
    case AfterBackslash => WellSpaced(s[1..], InString, last)
    case InString => WellSpaced(s[1..], NextLex(st, s[0]), if s[0] == '"' then Closed else last)
    case Outside =>
      if IsWhite(s[0]) then WellSpaced(s[1..], Outside, if last == Word then WordGap else last)
      else if IsStructural(s[0]) then WellSpaced(s[1..], Outside, Fresh)
      else if s[0] == '"' then last == Fresh && WellSpaced(s[1..], InString, last)
      else !IsSpace(s[0]) && (last == Fresh || last == Word) && WellSpaced(s[1..], Outside, Word)
  }

  // ----- Reading from the compacted text -----

  lemma {:induction false} SkipSpacesAgrees(s: string, last: Last)
    requires WellSpaced(s, Outside, last)
    ensures SkipSpaces(Compacted(s, Outside)) == Compacted(SkipSpaces(s), Outside)
    ensures WellSpaced(SkipSpaces(s), Outside, last) || WellSpaced(SkipSpaces(s), Outside, WordGap)
    ensures last != Word ==> WellSpaced(SkipSpaces(s), Outside, last)
  {
    if s != "" && IsSpace(s[0]) {
      var next := if last == Word then WordGap else last;
      SkipSpacesAgrees(s[1..], next);
      if !Dropped(Outside, s[0]) {
        assert Compacted(s, Outside)[1..] == Compacted(s[1..], Outside);
      } else {
        assert Compacted(s, Outside) == Compacted(s[1..], Outside);
      }
    } else if s != "" {
      assert Compacted(s, Outside)[0] == s[0];
    }
  }

  // Inside a string nothing is dropped up to the closing quote.
  lemma {:induction false} KeyInString(s: string, key: string, last: Last)
    requires WellSpaced(s, InString, last)
    requires forall i :: 0 <= i < |key| ==> IsAlnum(key[i])
    ensures key + "\"" <= s <==> key + "\"" <= Compacted(s, InString)
    ensures key + "\"" <= s ==>
              && WellSpaced(s[|key| + 1..], Outside, Closed)
              && Compacted(s, InString)[|key| + 1..] == Compacted(s[|key| + 1..], Outside)
  {
    var c := Compacted(s, InString);
    KeyPrefixHead(key, s);
    KeyPrefixHead(key, c);
    if s != "" {
      assert c == [s[0]] + Compacted(s[1..], NextLex(InString, s[0]));
      assert c[1..] == Compacted(s[1..], NextLex(InString, s[0]));
      if key == "" {
        PrefixOfQuote(s);
        PrefixOfQuote(c);
      } else if s[0] == key[0] {
        KeyInString(s[1..], key[1..], last);
        PrefixStep(key, s);
        PrefixStep(key, c);
        if key + "\"" <= s {
          assert s[|key| + 1..] == s[1..][|key|..];
          assert c[|key| + 1..] == c[1..][|key|..];
        }
      }
    }
  }

  lemma PrefixOfQuote(s: string)
    ensures "" + "\"" <= s <==> s != "" && s[0] == '"'
  {
  }

  lemma PrefixStep(key: string, s: string)
    requires key != "" && s != "" && s[0] == key[0]
    ensures key + "\"" <= s <==> key[1..] + "\"" <= s[1..]
  {
    assert key + "\"" == [key[0]] + (key[1..] + "\"");
    assert s == [s[0]] + s[1..];
  }

  lemma QuotedStep(key: string, s: string)
    requires s != "" && s[0] == '"'
    ensures Quoted(key) <= s <==> key + "\"" <= s[1..]
  {
    assert Quoted(key) == ['"'] + (key + "\"");
    assert s == [s[0]] + s[1..];
  }

  // After a string has closed, the compacted text goes on with no letter or digit.
  lemma {:induction false} NothingAfterClosed(s: string)
    requires WellSpaced(s, Outside, Closed)
    ensures Compacted(s, Outside) != "" ==> !IsAlnum(Compacted(s, Outside)[0])
    ensures s != "" ==> !IsAlnum(s[0])
  {
    if s != "" && Dropped(Outside, s[0]) {
      NothingAfterClosed(s[1..]);
      assert Compacted(s, Outside) == Compacted(s[1..], Outside);
    }
  }

  // What follows one step of the automaton.
  function NextLast(st: Lex, last: Last, c: char): Last {
    match st
    case AfterBackslash => last
    case InString => if c == '"' then Closed else last
    case Outside =>
      if IsWhite(c) then (if last == Word then WordGap else last)
      else if IsStructural(c) then Fresh
      else if c == '"' then last
      else Word
  }

  lemma WellSpacedStep(s: string, st: Lex, last: Last)
    requires s != "" && WellSpaced(s, st, last)
    ensures WellSpaced(s[1..], NextLex(st, s[0]), NextLast(st, last, s[0]))
  {
  }

  // At a quote the compacted text matches the quoted key exactly when the body does.
  lemma QuoteAgrees(s: string, st: Lex, last: Last, key: string)
    requires s != "" && s[0] == '"' && WellSpaced(s, st, last) && IsKey(key)
    ensures Quoted(key) <= s <==> Quoted(key) <= Compacted(s, st)
    ensures Quoted(key) <= s ==>
              && WellSpaced(s[|key| + 2..], Outside, Closed)
              && Compacted(s, st)[|key| + 2..] == Compacted(s[|key| + 2..], Outside)
  {
    var c := Compacted(s, st);
    var rest := s[1..];
    assert c == ['"'] + Compacted(rest, NextLex(st, '"'));
    assert c[1..] == Compacted(rest, NextLex(st, '"'));
    QuotedStep(key, s);
    QuotedStep(key, c);
    if st == InString {
      NothingAfterClosed(rest);
      KeyPrefixHead(key, rest);
      KeyPrefixHead(key, c[1..]);
    } else {
      KeyInString(rest, key, last);
      if key + "\"" <= rest {
        assert s[|key| + 2..] == rest[|key| + 1..];
        assert c[|key| + 2..] == c[1..][|key| + 1..];
      }
    }
  }

  ghost predicate FoundAgrees(v: Option<string>, c: Option<string>) {
    match v
    case None => c.None?
    case Some(value) => c == Some(Compacted(value, Outside)) && WellSpaced(value, Outside, Fresh)
  }

  /** The lookup finds the same field in the compacted line, and the value that follows is the compacted value. */
  lemma {:induction false} FindAgrees(s: string, st: Lex, last: Last, key: string)
    requires WellSpaced(s, st, last) && IsKey(key)
    ensures FoundAgrees(FindValue(s, key), FindValue(Compacted(s, st), key))
    decreases |s|, 0
  {
    if s == "" {
    } else if s[0] == '"' {
      var c := Compacted(s, st);
      QuoteAgrees(s, st, last, key);
      if Quoted(key) <= s {
        FindAgreesAfterKey(s[|key| + 2..], key);
      } else {
        assert c == ['"'] + Compacted(s[1..], NextLex(st, '"'));
        assert c[1..] == Compacted(s[1..], NextLex(st, '"'));
        WellSpacedStep(s, st, last);
        FindAgrees(s[1..], NextLex(st, '"'), NextLast(st, last, '"'), key);
      }
    } else {
      var rest := Compacted(s[1..], NextLex(st, s[0]));
      WellSpacedStep(s, st, last);
      FindAgrees(s[1..], NextLex(st, s[0]), NextLast(st, last, s[0]), key);
      assert s == [s[0]] + s[1..];
      FindSkips(s[0], s[1..], key);
      if Dropped(st, s[0]) {
        assert Compacted(s, st) == rest;
      } else {
        assert Compacted(s, st) == [s[0]] + rest;
        FindSkips(s[0], rest, key);
      }
    }
  }

  // The part of the lookup behind a matched key.
  function FindAfterKey(s: string, key: string): Option<string> {
    var after := SkipSpaces(s);
    if after != "" && after[0] == ':' then Some(SkipSpaces(after[1..])) else FindValue(after, key)
  }

  lemma {:induction false} FindAgreesAfterKey(s: string, key: string)
    requires WellSpaced(s, Outside, Closed) && IsKey(key)
    ensures FoundAgrees(FindAfterKey(s, key), FindAfterKey(Compacted(s, Outside), key))
    decreases |s|, 1
  {
    SkipSpacesAgrees(s, Closed);
    var after := SkipSpaces(s);
    if after != "" {
      assert Compacted(after, Outside) == [after[0]] + Compacted(after[1..], NextLex(Outside, after[0]));
    }
    if after != "" && after[0] == ':' {
      assert Compacted(after, Outside)[1..] == Compacted(after[1..], Outside);
      SkipSpacesAgrees(after[1..], Fresh);
    } else {
      FindAgrees(after, Outside, Closed, key);
    }
  }

  lemma {:induction false} ReadTextAgrees(s: string, last: Last)
    requires WellSpaced(s, InString, last)
    ensures ReadText(Compacted(s, InString)) == ReadText(s)
    decreases |s|
  {
    if s != "" {
      var c := Compacted(s, InString);
      assert c == [s[0]] + Compacted(s[1..], NextLex(InString, s[0]));
      if s[0] == '\\' {
        if |s| > 1 {
          assert s[1..][1..] == s[2..];
          assert c == ['\\', s[1]] + Compacted(s[2..], InString);
          assert c[2..] == Compacted(s[2..], InString);
          ReadTextAgrees(s[2..], last);
        }
      } else if s[0] != '"' {
        assert c[1..] == Compacted(s[1..], InString);
        ReadTextAgrees(s[1..], last);
      }
    }
  }

  // A literal never continues behind white space.
  lemma {:induction false} NothingAfterGap(s: string)
    requires WellSpaced(s, Outside, WordGap)
    ensures !StartsWithDigit(Compacted(s, Outside))
  {
    if s != "" && Dropped(Outside, s[0]) {
      NothingAfterGap(s[1..]);
      assert Compacted(s, Outside) == Compacted(s[1..], Outside);
    }
  }

  lemma {:induction false} DigitsAgree(s: string, acc: nat)
    requires WellSpaced(s, Outside, Word)
    ensures DigitsValue(Compacted(s, Outside), acc) == DigitsValue(s, acc)
  {
    if s != "" && IsDigit(s[0]) {
      assert Compacted(s, Outside)[1..] == Compacted(s[1..], Outside);
      DigitsAgree(s[1..], acc * 10 + (s[0] - '0') as nat);
    } else if s != "" && Dropped(Outside, s[0]) {
      NothingAfterGap(s[1..]);
      assert Compacted(s, Outside) == Compacted(s[1..], Outside);
    }
  }

  lemma {:induction false} ParseLongAgrees(s: string)
    requires WellSpaced(s, Outside, Fresh)
    ensures ParseLong(Compacted(s, Outside)) == ParseLong(s)
  {
    hide SkipSpaces, DigitsValue;
    SkipSpacesAgrees(s, Fresh);
    var t := SkipSpaces(s);
    if t != "" {
      var c := Compacted(t, Outside);
      assert c == [t[0]] + Compacted(t[1..], NextLex(Outside, t[0]));
      if t[0] == '-' || t[0] == '+' {
        assert c[1..] == Compacted(t[1..], Outside);
        SignedDigitsAgree(t[1..]);
      } else if IsDigit(t[0]) {
        assert WellSpaced(t, Outside, Word);
        DigitsAgree(t, 0);
      }
    }
  }

  lemma SignedDigitsAgree(u: string)
    requires WellSpaced(u, Outside, Word)
    ensures StartsWithDigit(Compacted(u, Outside)) == StartsWithDigit(u)
    ensures DigitsValue(Compacted(u, Outside), 0) == DigitsValue(u, 0)
  {
    DigitsAgree(u, 0);
    if u != "" {
      if Dropped(Outside, u[0]) {
        NothingAfterGap(u[1..]);
        assert Compacted(u, Outside) == Compacted(u[1..], Outside);
      }
    }
  }

  /**
   * Compaction preserves meaning: a string or integer field read from the ledger line is the one
   * read from the posted body, so what a handler validated is what every later scan sees.
   */
  lemma CompactionPreservesFields(body: string, key: string, size: nat)
    requires WellSpaced(body, Outside, Fresh) && IsKey(key)
    ensures ReadString(Compacted(body, Outside), key, size) == ReadString(body, key, size)
    ensures ReadLong(Compacted(body, Outside), key) == ReadLong(body, key)
  {
    FindAgrees(body, Outside, Fresh, key);
    var v := FindValue(body, key);
    if v.Some? {
      ParseLongAgrees(v.value);
      if v.value != "" && v.value[0] == '"' {
        assert Compacted(v.value, Outside)[1..] == Compacted(v.value[1..], InString);
        ReadTextAgrees(v.value[1..], Fresh);
      }
      FoundValueStart(body, key);
    }
  }

  lemma {:induction false} FoundValueStart(s: string, key: string)
    ensures FindValue(s, key).Some? && FindValue(s, key).value != "" ==> !IsSpace(FindValue(s, key).value[0])
    decreases |s|
  {
    if s == "" {
    } else if Quoted(key) <= s {
      FoundValueStart(SkipSpaces(s[|key| + 2..]), key);
    } else {
      FoundValueStart(s[1..], key);
    }
  }

  // ----- Every well-formed JSON text is such a body -----

  // A JSON value with its layout: numbers and the words true, false and null are literals; a string holds
  // the characters between its quotes; white space may stand around every value and member name.
  datatype JsonText =
    | Literal(word: string)
    | Str(raw: string)
    | Array(blank: string, items: Items)
    | Object(blank: string, members: Members)
  datatype Items = NoItem | Item(before: string, value: JsonText, after: string, more: Items)
  datatype Members =
    | NoMember
    | Member(before: string, name: string, afterName: string, beforeValue: string, value: JsonText, after: string, more: Members)

  predicate AllWhite(s: string) { forall i :: 0 <= i < |s| ==> IsWhite(s[i]) }

  predicate IsWord(s: string) {
    s != "" && forall i :: 0 <= i < |s| ==> !IsSpace(s[i]) && !IsStructural(s[i]) && s[i] != '"'
  }

  // The inside of a string literal: quotes are escaped and no escape is left open.
  predicate IsRaw(s: string)
    decreases |s|
  {
    s == "" || (s[0] != '"' && if s[0] == '\\' then |s| > 1 && IsRaw(s[2..]) else IsRaw(s[1..]))
  }

  predicate ValidJson(d: JsonText) {
    match d
    case Literal(word) => IsWord(word)
    case Str(raw) => IsRaw(raw)
    case Array(blank, items) => AllWhite(blank) && ValidItems(items)
    case Object(blank, members) => AllWhite(blank) && ValidMembers(members)
  }

  predicate ValidItems(items: Items) {
    items.NoItem? || (AllWhite(items.before) && ValidJson(items.value) && AllWhite(items.after) && ValidItems(items.more))
  }

  predicate ValidMembers(m: Members) {
    m.NoMember? ||
    (AllWhite(m.before) && IsRaw(m.name) && AllWhite(m.afterName) && AllWhite(m.beforeValue) &&
     ValidJson(m.value) && AllWhite(m.after) && ValidMembers(m.more))
  }

  function ShowString(raw: string, rest: string): string { "\"" + (raw + ("\"" + rest)) }

  // The text of a value followed by `rest`.
  function Show(d: JsonText, rest: string): string {
    match d
    case Literal(word) => word + rest
    case Str(raw) => ShowString(raw, rest)
    case Array(blank, items) => "[" + (if items.NoItem? then blank + ("]" + rest) else ShowItems(items, "]" + rest))
    case Object(blank, members) =>
      "{" + (if members.NoMember? then blank + ("}" + rest) else ShowMembers(members, "}" + rest))
  }

  function ShowItems(items: Items, rest: string): string {
    match items
    case NoItem => rest
    case Item(before, value, after, more) =>
      before + Show(value, after + (if more.NoItem? then rest else "," + ShowItems(more, rest)))
  }

  function ShowMembers(m: Members, rest: string): string {
    match m
    case NoMember => rest
    case Member(before, name, afterName, beforeValue, value, after, more) =>
      before + ShowString(name, afterName + (":" + (beforeValue +
        Show(value, after + (if more.NoMember? then rest else "," + ShowMembers(more, rest))))))
  }

  // The rest of a text behind a complete value.
  predicate Goes(rest: string) { forall last :: WellSpaced(rest, Outside, last) }

  lemma {:induction false} WhiteGoes(w: string, rest: string)
    requires AllWhite(w) && Goes(rest)
    ensures Goes(w + rest)
  {
    if w == "" {
      assert w + rest == rest;
    } else {
      WhiteGoes(w[1..], rest);
      assert (w + rest)[1..] == w[1..] + rest;
    }
  }

  lemma {:induction false} WhiteBefore(w: string, rest: string)
    requires AllWhite(w) && WellSpaced(rest, Outside, Fresh)
    ensures WellSpaced(w + rest, Outside, Fresh)
  {
    if w == "" {
      assert w + rest == rest;
    } else {
      WhiteBefore(w[1..], rest);
      assert (w + rest)[1..] == w[1..] + rest;
    }
  }

  lemma StructuralGoes(c: char, rest: string)
    requires IsStructural(c) && WellSpaced(rest, Outside, Fresh)
    ensures Goes([c] + rest)
  {
    assert ([c] + rest)[1..] == rest;
  }

  lemma {:induction false} WordGoes(w: string, rest: string, last: Last)
    requires forall i :: 0 <= i < |w| ==> !IsSpace(w[i]) && !IsStructural(w[i]) && w[i] != '"'
    requires Goes(rest) && (last == Fresh || last == Word)
    ensures WellSpaced(w + rest, Outside, last)
  {
    if w == "" {
      assert w + rest == rest;
    } else {
      WordGoes(w[1..], rest, Word);
      assert (w + rest)[1..] == w[1..] + rest;
    }
  }

  lemma {:induction false} RawGoes(raw: string, rest: string, last: Last)
    requires IsRaw(raw) && Goes(rest)
    ensures WellSpaced(raw + ("\"" + rest), InString, last)
    decreases |raw|
  {
    var s := raw + ("\"" + rest);
    if raw == "" {
      assert s[1..] == rest;
    } else if raw[0] == '\\' {
      RawGoes(raw[2..], rest, last);
      assert s[1..][1..] == raw[2..] + ("\"" + rest);
    } else {
      RawGoes(raw[1..], rest, last);
      assert s[1..] == raw[1..] + ("\"" + rest);
    }
  }

  lemma StrGoes(raw: string, rest: string)
    requires IsRaw(raw) && Goes(rest)
    ensures WellSpaced(ShowString(raw, rest), Outside, Fresh)
  {
    RawGoes(raw, rest, Fresh);
    assert ShowString(raw, rest)[1..] == raw + ("\"" + rest);
  }

  lemma {:induction false} ShowGoes(d: JsonText, rest: string)
    requires ValidJson(d) && Goes(rest)
    ensures WellSpaced(Show(d, rest), Outside, Fresh)
  {
    match d
    case Literal(word) => WordGoes(word, rest, Fresh);
    case Str(raw) => StrGoes(raw, rest);
    case Array(blank, items) =>
      StructuralGoes(']', rest);
      if items.NoItem? {
        WhiteBefore(blank, "]" + rest);
        StructuralGoes('[', blank + ("]" + rest));
      } else {
        ShowItemsGoes(items, "]" + rest);
        StructuralGoes('[', ShowItems(items, "]" + rest));
      }
    case Object(blank, members) =>
      StructuralGoes('}', rest);
      if members.NoMember? {
        WhiteBefore(blank, "}" + rest);
        StructuralGoes('{', blank + ("}" + rest));
      } else {
        ShowMembersGoes(members, "}" + rest);
        StructuralGoes('{', ShowMembers(members, "}" + rest));
      }
  }

  lemma {:induction false} ShowItemsGoes(items: Items, rest: string)
    requires ValidItems(items) && Goes(rest)
    ensures WellSpaced(ShowItems(items, rest), Outside, Fresh)
  {
    if items.Item? {
      var tail := if items.more.NoItem? then rest else "," + ShowItems(items.more, rest);
      if items.more.Item? {
        ShowItemsGoes(items.more, rest);
        StructuralGoes(',', ShowItems(items.more, rest));
      }
      WhiteGoes(items.after, tail);
      ShowGoes(items.value, items.after + tail);
      WhiteBefore(items.before, Show(items.value, items.after + tail));
    }
  }

  lemma {:induction false} ShowMembersGoes(m: Members, rest: string)
    requires ValidMembers(m) && Goes(rest)
    ensures WellSpaced(ShowMembers(m, rest), Outside, Fresh)
  {
    if m.Member? {
      var tail := if m.more.NoMember? then rest else "," + ShowMembers(m.more, rest);
      if m.more.Member? {
        ShowMembersGoes(m.more, rest);
        StructuralGoes(',', ShowMembers(m.more, rest));
      }
      WhiteGoes(m.after, tail);
      ShowGoes(m.value, m.after + tail);
      var value := m.beforeValue + Show(m.value, m.after + tail);
      WhiteBefore(m.beforeValue, Show(m.value, m.after + tail));
      StructuralGoes(':', value);
      WhiteGoes(m.afterName, ":" + value);
      StrGoes(m.name, m.afterName + (":" + value));
      WhiteBefore(m.before, ShowString(m.name, m.afterName + (":" + value)));
    }
  }

  /** Compaction preserves every field of every well-formed JSON body, whatever its layout. */
  lemma CompactionPreservesJson(before: string, d: JsonText, after: string, key: string, size: nat)
    requires AllWhite(before) && ValidJson(d) && AllWhite(after) && IsKey(key)
    ensures var body := before + Show(d, after);
            && ReadString(Compacted(body, Outside), key, size) == ReadString(body, key, size)
            && ReadLong(Compacted(body, Outside), key) == ReadLong(body, key)
  {
    WhiteGoes(after, "");
    assert after + "" == after;
    ShowGoes(d, after);
    WhiteBefore(before, Show(d, after));
    CompactionPreservesFields(before + Show(d, after), key, size);
  }

  // ----- What compaction drops -----

  // The text without newlines, carriage returns and tabs.
  function Squeezed(s: string): string {
    if s == "" then "" else (if s[0] == '\n' || s[0] == '\r' || s[0] == '\t' then "" else [s[0]]) + Squeezed(s[1..])
  }

  // The same body with its white space squeezed, its words and strings as they are.
  function SqueezedJson(d: JsonText): JsonText {
    match d
    case Literal(word) => d
    case Str(raw) => d
    case Array(blank, items) => Array(Squeezed(blank), SqueezedItems(items))
    case Object(blank, members) => Object(Squeezed(blank), SqueezedMembers(members))
  }

  function SqueezedItems(items: Items): Items {
    match items
    case NoItem => NoItem
    case Item(before, value, after, more) => Item(Squeezed(before), SqueezedJson(value), Squeezed(after), SqueezedItems(more))
  }

  function SqueezedMembers(m: Members): Members {
    match m
    case NoMember => NoMember
    case Member(before, name, afterName, beforeValue, value, after, more) =>
      Member(Squeezed(before), name, Squeezed(afterName), Squeezed(beforeValue), SqueezedJson(value), Squeezed(after), SqueezedMembers(more))
  }

  // One character of the text.
  lemma CompactedCons(c: char, rest: string, st: Lex)
    ensures Compacted([c] + rest, st) == (if Dropped(st, c) then "" else [c]) + Compacted(rest, NextLex(st, c))
  {
    assert ([c] + rest)[1..] == rest;
  }

  lemma SqueezedCons(c: char, rest: string)
    ensures Squeezed([c] + rest) == (if c == '\n' || c == '\r' || c == '\t' then "" else [c]) + Squeezed(rest)
    ensures Squeezed("") == ""
  {
    assert ([c] + rest)[1..] == rest;
  }

  lemma {:induction false} CompactedBlank(w: string, rest: string)
    requires AllWhite(w)
    ensures Compacted(w + rest, Outside) == Squeezed(w) + Compacted(rest, Outside)
  {
    hide Compacted, Squeezed;
    if w == "" {
      assert w + rest == rest;
      SqueezedCons(' ', "");
    } else {
      CompactedBlank(w[1..], rest);
      CompactedCons(w[0], w[1..] + rest, Outside);
      SqueezedCons(w[0], w[1..]);
      assert w == [w[0]] + w[1..] && w + rest == [w[0]] + (w[1..] + rest);
      assert w[0] == ' ' || w[0] == '\n' || w[0] == '\r' || w[0] == '\t';
    }
  }

  lemma {:induction false} CompactedWord(w: string, rest: string)
    requires forall i :: 0 <= i < |w| ==> !IsSpace(w[i]) && w[i] != '"'
    ensures Compacted(w + rest, Outside) == w + Compacted(rest, Outside)
  {
    hide Compacted;
    if w == "" {
      assert w + rest == rest;
    } else {
      CompactedWord(w[1..], rest);
      CompactedCons(w[0], w[1..] + rest, Outside);
      assert w == [w[0]] + w[1..] && w + rest == [w[0]] + (w[1..] + rest);
    }
  }

  lemma {:induction false} CompactedRaw(raw: string, rest: string)
    requires IsRaw(raw)
    ensures Compacted(raw + ("\"" + rest), InString) == raw + ("\"" + Compacted(rest, Outside))
    decreases |raw|
  {
    hide Compacted;
    var t := "\"" + rest;
    if raw == "" {
      assert raw + t == ['"'] + rest;
      CompactedCons('"', rest, InString);
    } else if raw[0] == '\\' {
      var more := raw[2..];
      CompactedRaw(more, rest);
      CompactedCons(raw[0], [raw[1]] + (more + t), InString);
      CompactedCons(raw[1], more + t, AfterBackslash);
      assert raw == [raw[0]] + ([raw[1]] + more) && raw + t == [raw[0]] + ([raw[1]] + (more + t));
    } else {
      var more := raw[1..];
      CompactedRaw(more, rest);
      CompactedCons(raw[0], more + t, InString);
      assert raw == [raw[0]] + more && raw + t == [raw[0]] + (more + t);
    }
  }

  lemma CompactedString(raw: string, rest: string)
    requires IsRaw(raw)
    ensures Compacted(ShowString(raw, rest), Outside) == ShowString(raw, Compacted(rest, Outside))
  {
    CompactedRaw(raw, rest);
    var t := ShowString(raw, rest);
    assert t[1..] == raw + ("\"" + rest);
  }

  lemma CompactedSign(c: char, rest: string)
    requires IsStructural(c)
    ensures Compacted([c] + rest, Outside) == [c] + Compacted(rest, Outside)
  {
    assert ([c] + rest)[1..] == rest;
  }

  lemma {:induction false} CompactedShow(d: JsonText, rest: string)
    requires ValidJson(d)
    ensures Compacted(Show(d, rest), Outside) == Show(SqueezedJson(d), Compacted(rest, Outside))
  {
    hide Compacted;
    match d
    case Literal(word) => CompactedWord(word, rest);
    case Str(raw) => CompactedString(raw, rest);
    case Array(blank, items) =>
      CompactedSign(']', rest);
      if items.NoItem? {
        CompactedBlank(blank, "]" + rest);
        CompactedSign('[', blank + ("]" + rest));
      } else {
        CompactedItems(items, "]" + rest);
        CompactedSign('[', ShowItems(items, "]" + rest));
      }
    case Object(blank, members) =>
      CompactedSign('}', rest);
      if members.NoMember? {
        CompactedBlank(blank, "}" + rest);
        CompactedSign('{', blank + ("}" + rest));
      } else {
        CompactedMembers(members, "}" + rest);
        CompactedSign('{', ShowMembers(members, "}" + rest));
      }
  }

  lemma {:induction false} CompactedItems(items: Items, rest: string)
    requires ValidItems(items)
    ensures Compacted(ShowItems(items, rest), Outside) == ShowItems(SqueezedItems(items), Compacted(rest, Outside))
  {
    hide Compacted;
    match items
    case NoItem =>
    case Item(before, value, after, more) =>
      var tail := if more.NoItem? then rest else "," + ShowItems(more, rest);
      if !more.NoItem? {
        CompactedItems(more, rest);
        CompactedSign(',', ShowItems(more, rest));
      }
      CompactedBlank(after, tail);
      CompactedShow(value, after + tail);
      CompactedBlank(before, Show(value, after + tail));
  }

  lemma {:induction false} CompactedMembers(m: Members, rest: string)
    requires ValidMembers(m)
    ensures Compacted(ShowMembers(m, rest), Outside) == ShowMembers(SqueezedMembers(m), Compacted(rest, Outside))
  {
    hide Compacted;
    match m
    case NoMember =>
    case Member(before, name, afterName, beforeValue, value, after, more) =>
      var tail := if more.NoMember? then rest else "," + ShowMembers(more, rest);
      if !more.NoMember? {
        CompactedMembers(more, rest);
        CompactedSign(',', ShowMembers(more, rest));
      }
      CompactedBlank(after, tail);
      CompactedShow(value, after + tail);
      CompactedBlank(beforeValue, Show(value, after + tail));
      CompactedSign(':', beforeValue + Show(value, after + tail));
      CompactedBlank(afterName, ":" + (beforeValue + Show(value, after + tail)));
      CompactedString(name, afterName + (":" + (beforeValue + Show(value, after + tail))));
      CompactedBlank(before, ShowString(name, afterName + (":" + (beforeValue + Show(value, after + tail)))));
  }

  /**
   * What compaction does to a JSON body: newlines, carriage returns and tabs between its tokens go, and nothing else does.
   * Spaces stay, and so does everything inside strings.
   */
  lemma CompactionSqueezesBlanks(before: string, d: JsonText, after: string)
    requires AllWhite(before) && ValidJson(d) && AllWhite(after)
    ensures Compacted(before + Show(d, after), Outside) == Squeezed(before) + Show(SqueezedJson(d), Squeezed(after))
  {
    hide Compacted;
    CompactedBlank(before, Show(d, after));
    CompactedShow(d, after);
    CompactedBlank(after, "");
    CompactedOfEmpty(Outside);
    assert after + "" == after && Squeezed(after) + "" == Squeezed(after);
  }

  // The layout matters: dropping a line break between two digits joins them.
  lemma IllFormedBodyIsNotPreserved()
    ensures var body := "{\"n\":1\n2}";
            ReadLong(body, "n") == Some(1) && ReadLong(Compacted(body, Outside), "n") == Some(12)
  {
    hide Compacted, FindValue, ParseLong;
    var body, line := "{\"n\":1\n2}", "{\"n\":12}";
    CompactedIllFormedBody();
    assert body == ['{'] + (Quoted("n") + (":" + "1\n2}"));
    assert line == ['{'] + (Quoted("n") + (":" + "12}"));
    FindAtKey("n", "1\n2}");
    FindAtKey("n", "12}");
    FindSkips('{', Quoted("n") + (":" + "1\n2}"), "n");
    FindSkips('{', Quoted("n") + (":" + "12}"), "n");
    IllFormedNumbers();
  }

  lemma IllFormedNumbers()
    ensures ParseLong("1\n2}") == Some(1) && ParseLong("12}") == Some(12)
  {
    assert "12}"[1..] == "2}" && "2}"[1..] == "}";
    assert "1\n2}"[1..] == "\n2}";
    assert DigitsValue("2}", 1) == DigitsValue("}", 12);
  }

  lemma CompactedOfEmpty(st: Lex)
    ensures Compacted("", st) == ""
  {
  }

  lemma CompactedIllFormedTail()
    ensures Compacted("1\n2}", Outside) == "12}"
  {
    hide Compacted;
    var tail := "1\n2}";
    assert tail[0..] == tail && tail[4..] == "";
    CompactedUnfolds(tail, 3, Outside);
    CompactedUnfolds(tail, 2, Outside);
    CompactedUnfolds(tail, 1, Outside);
    CompactedUnfolds(tail, 0, Outside);
    CompactedOfEmpty(Outside);
  }

  lemma CompactedIllFormedBody()
    ensures Compacted("{\"n\":1\n2}", Outside) == "{\"n\":12}"
  {
    hide Compacted;
    var body := "{\"n\":1\n2}";
    assert body[0..] == body && body[5..] == "1\n2}";
    CompactedIllFormedTail();
    CompactedUnfolds(body, 4, Outside);
    CompactedUnfolds(body, 3, InString);
    CompactedUnfolds(body, 2, InString);
    CompactedUnfolds(body, 1, Outside);
    CompactedUnfolds(body, 0, Outside);
  }
}
