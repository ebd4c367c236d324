/** src/wt_config.c: the key=value configuration file, written and loaded. */
module Config {
  import opened Json
  import opened Lines

  // WT_NAME_SIZE, WT_PATH_SIZE and the loader's line buffer.
  const NAME_SIZE: nat := 64
  const PATH_SIZE: nat := 256
  const LINE_SIZE: nat := 512

  datatype Kind = TextOf(size: nat) | Integer | Flag

  datatype Setting = Setting(key: string, kind: Kind)

  const COUNT: nat := 51

  // The written fields in file order, which is also the order of wtConfigSetValue's comparisons.
  function SettingAt(i: nat): Setting
    requires i < COUNT
  {
    match i
    case 0 => Setting("roomName", TextOf(NAME_SIZE))
    case 1 => Setting("roomLogPath", TextOf(PATH_SIZE))
    case 2 => Setting("taskLedgerPath", TextOf(PATH_SIZE))
    case 3 => Setting("taskProjectionDbPath", TextOf(PATH_SIZE))
    case 4 => Setting("httpBindAddress", TextOf(NAME_SIZE))
    case 5 => Setting("httpPort", Integer)
    case 6 => Setting("contextMessageCount", Integer)
    case 7 => Setting("agentPollMilliseconds", Integer)
    case 8 => Setting("adapterTimeoutSeconds", Integer)
    case 9 => Setting("adapterMaxOutputBytes", Integer)
    case 10 => Setting("maxActiveTasksPerAgent", Integer)
    case 11 => Setting("maxSubtasksPerParent", Integer)
    case 12 => Setting("maxTasksPerInitiative", Integer)
    case 13 => Setting("fsyncEachMessage", Flag)
    case 14 => Setting("roleRoutingEnabled", Flag)
    case 15 => Setting("enableCodexAdapter", Flag)
    case 16 => Setting("enableClaudeAdapter", Flag)
    case 17 => Setting("enableGeminiAdapter", Flag)
    case 18 => Setting("tokenTelemetryEnabled", Flag)
    case 19 => Setting("tokenDailyBudget", Integer)
    case 20 => Setting("tokenMonthlyBudget", Integer)
    case 21 => Setting("tokenWarningPercent", Integer)
    case 22 => Setting("tokenCostPerMillionCents", Integer)
    case 23 => Setting("runtimeRootPath", TextOf(PATH_SIZE))
    case 24 => Setting("claudeMode", TextOf(NAME_SIZE))
    case 25 => Setting("chatgptMode", TextOf(NAME_SIZE))
    case 26 => Setting("geminiMode", TextOf(NAME_SIZE))
    case 27 => Setting("claudeCommand", TextOf(PATH_SIZE))
    case 28 => Setting("gptCommand", TextOf(PATH_SIZE))
    case 29 => Setting("geminiCommand", TextOf(PATH_SIZE))
    case 30 => Setting("blockedVendors", TextOf(PATH_SIZE))
    case 31 => Setting("tokenBudgetPerInitiative", Integer)
    case 32 => Setting("tokenBudgetPerModelFamily", Integer)
    case 33 => Setting("heartbeatIntervalSeconds", Integer)
    case 34 => Setting("leaseRenewalIntervalSeconds", Integer)
    case 35 => Setting("leaseDurationSeconds", Integer)
    case 36 => Setting("cancelPollIntervalSeconds", Integer)
    case 37 => Setting("slackWebhookFile", TextOf(PATH_SIZE))
    case 38 => Setting("notificationEscalateKey", TextOf(NAME_SIZE))
    case 39 => Setting("notificationStuckKey", TextOf(NAME_SIZE))
    case 40 => Setting("defaultAutonomyLevel", TextOf(NAME_SIZE))
    case 41 => Setting("claudeDefaultAutonomyLevel", TextOf(NAME_SIZE))
    case 42 => Setting("chatgptDefaultAutonomyLevel", TextOf(NAME_SIZE))
    case 43 => Setting("geminiDefaultAutonomyLevel", TextOf(NAME_SIZE))
    case 44 => Setting("deliverableRoot", TextOf(PATH_SIZE))
    case 45 => Setting("deliverableDefaultMode", TextOf(NAME_SIZE))
    case 46 => Setting("deliverableBranchPrefix", TextOf(NAME_SIZE))
    case 47 => Setting("secretScanPatternsFile", TextOf(PATH_SIZE))
    case 48 => Setting("remoteAllowedIps", TextOf(PATH_SIZE))
    case 49 => Setting("authTokenDefaultTtlSeconds", Integer)
    case _ => Setting("operatorSessionPath", TextOf(PATH_SIZE))
  }

  function Key(i: nat): string
    requires i < COUNT
  {
    SettingAt(i).key
  }

  function KindOf(i: nat): (k: Kind)
    requires i < COUNT
    ensures k.TextOf? ==> 0 < k.size <= PATH_SIZE
  {
    SettingAt(i).kind
  }

  datatype Value = Str(text: string) | Num(n: int) | Bool(on: bool)

  // A value of the right type that its field can hold; a C long prints to at most 20 characters.
  predicate Holds(kind: Kind, v: Value) {
    match kind
    case TextOf(size) => v.Str? && |v.text| < size
    case Integer => v.Num? && |IntText(v.n)| < PATH_SIZE
    case Flag => v.Bool?
  }

  predicate WellTyped(values: seq<Value>) {
    |values| == COUNT && forall i :: 0 <= i < COUNT ==> Holds(KindOf(i), values[i])
  }

  // ----- Trimming -----

  function TrimRight(s: string): (r: string)
    ensures |r| <= |s|
  {
    if s == "" then ""
    else
      var r := TrimRight(s[1..]);
      if r == "" && IsSpace(s[0]) then "" else [s[0]] + r
  }

  function Trim(s: string): string { TrimRight(SkipSpaces(s)) }

  lemma {:induction false} TrimRightSpace(s: string, c: char)
    requires IsSpace(c)
    ensures TrimRight(s + [c]) == TrimRight(s)
  {
    if s == "" {
      assert s + [c] == [c] && [c][1..] == "";
    } else {
      assert (s + [c])[1..] == s[1..] + [c];
      TrimRightSpace(s[1..], c);
    }
  }

  lemma {:induction false} TrimRightBehind(a: string, b: string)
    requires a != "" && !IsSpace(a[|a| - 1])
    ensures TrimRight(a + b) == a + TrimRight(b)
  {
    var s := a + b;
    if |a| == 1 {
      assert s[1..] == b;
    } else {
      assert s[1..] == a[1..] + b;
      TrimRightBehind(a[1..], b);
      assert a == [a[0]] + a[1..];
    }
  }

  lemma TrimRightKeeps(s: string)
    requires s == "" || !IsSpace(s[|s| - 1])
    ensures TrimRight(s) == s
  {
    if s != "" {
      TrimRightBehind(s, "");
      assert s + "" == s;
    }
  }

  lemma {:induction false} TrimsCommute(s: string)
    ensures SkipSpaces(TrimRight(s)) == TrimRight(SkipSpaces(s))
  {
    if s != "" {
      var r := TrimRight(s[1..]);
      TrimsCommute(s[1..]);
      assert ([s[0]] + r)[1..] == r;
    }
  }

  lemma {:induction false} TrimRightTwice(s: string)
    ensures TrimRight(TrimRight(s)) == TrimRight(s)
  {
    if s != "" {
      var r := TrimRight(s[1..]);
      TrimRightTwice(s[1..]);
      assert ([s[0]] + r)[1..] == r;
    }
  }

  lemma TrimOfTrimRight(s: string)
    ensures Trim(TrimRight(s)) == Trim(s)
  {
    TrimsCommute(TrimRight(s));
    TrimRightTwice(s);
    TrimsCommute(s);
  }

  method TrimWhitespace(value: string) returns (r: string)
    ensures r == Trim(value)
  {
    var start := SkipSpacesFrom(value, 0);
    assert value[0..] == value;
    r := value[start..];
    while r != "" && IsSpace(r[|r| - 1])
      invariant TrimRight(r) == Trim(value)
      decreases |r|
    {
      assert r == r[..|r| - 1] + [r[|r| - 1]];
      TrimRightSpace(r[..|r| - 1], r[|r| - 1]);
      r := r[..|r| - 1];
    }
    TrimRightKeeps(r);
  }

  // ----- Setting a value -----

  function Keys(): (keys: seq<string>)
    ensures |keys| == COUNT
  {
    seq(COUNT, i requires 0 <= i < COUNT => Key(i))
  }

  // The comparisons of wtConfigSetValue, in order.
  function IndexIn(keys: seq<string>, key: string, i: nat): (r: nat)
    requires i <= |keys|
    ensures i <= r <= |keys|
    ensures r < |keys| ==> keys[r] == key
    ensures forall j :: i <= j < r ==> keys[j] != key
    decreases |keys| - i
  {
    if i == |keys| || keys[i] == key then i else IndexIn(keys, key, i + 1)
  }

  function IndexOf(key: string): (r: nat)
    ensures r <= COUNT
  {
    IndexIn(Keys(), key, 0)
  }

  // copyString cuts, atoi reads what number there is.
  function ValueOf(kind: Kind, text: string): Value {
    match kind
    case TextOf(size) => Str(if |text| < size then text else if size == 0 then "" else text[..size - 1])
    case Integer => Num(ParseLong(text).GetOr(0))
    case Flag => Bool(ParseLong(text).GetOr(0) != 0)
  }

  // An unknown key changes nothing.
  function Assigned(values: seq<Value>, key: string, text: string): (r: seq<Value>)
    requires |values| == COUNT
    ensures |r| == COUNT
  {
    var i := IndexOf(key);
    if i < COUNT then values[i := ValueOf(KindOf(i), text)] else values
  }

  function EqualsAt(s: string): (n: nat)
    ensures n <= |s| && '=' !in s[..n]
    ensures n < |s| ==> s[n] == '='
  {
    if s == "" || s[0] == '=' then 0 else 1 + EqualsAt(s[1..])
  }

  // One turn of the loader's loop.
  function Loaded(values: seq<Value>, line: string): (r: seq<Value>)
    requires |values| == COUNT
    ensures |r| == COUNT
  {
    var t := Trim(line);
    var e := EqualsAt(t);
    if t == "" || t[0] == '#' || e == |t| then values
    else Assigned(values, Trim(t[..e]), Trim(t[e + 1..]))
  }

  function LoadedAll(values: seq<Value>, text: string): (r: seq<Value>)
    requires |values| == COUNT
    ensures |r| == COUNT
    decreases |text|
  {
    if text == "" then values
    else
      var line := Chunk(text, LINE_SIZE);
      LoadedAll(Loaded(values, line), text[|line|..])
  }

  // A text is cut to its array, a number is what it starts with or 0, and a flag is on when that is not 0.
  lemma ValueIs(kind: Kind, text: string)
    requires kind.TextOf? ==> kind.size > 0
    ensures match kind
            case TextOf(size) => ValueOf(kind, text) == Str(if |text| <= size - 1 then text else text[..size - 1])
            case Integer => ValueOf(kind, text) == Num(if ParseLong(text).Some? then ParseLong(text).value else 0)
            case Flag => ValueOf(kind, text) == Bool(ParseLong(text).Some? && ParseLong(text).value != 0)
  {
  }

  // A space, or one of the control characters 9 to 13.
  predicate AllBlank(s: string) { forall k :: 0 <= k < |s| ==> s[k] == ' ' || 9 <= s[k] as int <= 13 }

  // White space at both ends of a line is ignored.
  lemma {:induction false} TrimmedText(a: string, s: string, b: string)
    requires AllBlank(a)
    requires AllBlank(b)
    requires s != "" && s[0] > ' ' && s[|s| - 1] > ' '
    ensures Trim(a + (s + b)) == s
    decreases |a| + |b|
  {
    hide TrimRight, SkipSpaces;
    if a != "" {
      TrimmedText(a[1..], s, b);
      assert (a + (s + b))[1..] == a[1..] + (s + b);
      SkipsOne(a + (s + b));
    } else if b != "" {
      var n := |b| - 1;
      TrimmedText(a, s, b[..n]);
      assert s + b == (s + b[..n]) + [b[n]];
      assert a + (s + b) == s + b && a + (s + b[..n]) == s + b[..n];
      NoSpaceFirst(s + b);
      NoSpaceFirst(s + b[..n]);
      TrimRightSpace(s + b[..n], b[n]);
    } else {
      assert a + (s + b) == s;
      NoSpaceFirst(s);
      TrimRightKeeps(s);
    }
  }

  lemma SkipsOne(s: string)
    requires s != "" && IsSpace(s[0])
    ensures SkipSpaces(s) == SkipSpaces(s[1..])
  {
  }

  /** What a line of the file does: comments, empty lines and lines without '=' change nothing; "key = text" sets the key's setting. */
  lemma LineIs(values: seq<Value>, a: string, key: string, gap: string, text: string, b: string)
    requires |values| == COUNT && key != "" && key[0] > ' ' && key[|key| - 1] > ' ' && '=' !in key
    requires text != "" && text[0] > ' ' && text[|text| - 1] > ' '
    requires AllBlank(a)
    requires AllBlank(b)
    requires AllBlank(gap)
    ensures key[0] != '#' ==> Loaded(values, a + (key + gap + "=" + gap + text + b)) == Assigned(values, key, text)
    ensures key[0] == '#' ==> Loaded(values, a + (key + gap + "=" + gap + text + b)) == values
    ensures Loaded(values, a + (key + b)) == values
    ensures Loaded(values, a) == values
  {
    hide Assigned, Trim, AllBlank;
    var s := key + gap + "=" + gap + text;
    assert key + gap + "=" + gap + text + b == s + b;
    assert s[0] == key[0] && s[|s| - 1] == text[|text| - 1];
    TrimmedText(a, s, b);
    TrimmedText(a, key, b);
    TrimmedBlank(a);
    assert s[..|key| + |gap|] == key + gap && s[|key| + |gap|] == '=';
    NoEqualsIn(gap);
    EqualsAtIs(s, |key| + |gap|);
    assert s[|key| + |gap| + 1..] == gap + text;
    TrimmedEnds(gap, key, text);
  }

  lemma TrimmedEnds(gap: string, key: string, text: string)
    requires AllBlank(gap) && key != "" && key[0] > ' ' && key[|key| - 1] > ' '
    requires text != "" && text[0] > ' ' && text[|text| - 1] > ' '
    ensures Trim(key + gap) == key && Trim(gap + text) == text
  {
    hide Trim;
    NoEqualsIn(gap);
    TrimmedText("", key, gap);
    assert "" + (key + gap) == key + gap;
    TrimmedText(gap, text, "");
    assert gap + (text + "") == gap + text;
  }

  lemma NoEqualsIn(gap: string)
    requires AllBlank(gap)
    ensures '=' !in gap && AllBlank("")
  {
  }

  lemma {:induction false} TrimmedBlank(a: string)
    requires AllBlank(a)
    ensures Trim(a) == ""
  {
    if a != "" {
      TrimmedBlank(a[1..]);
    }
  }

  /** A line longer than 511 characters is read in pieces of 511, each taken for a line; a shorter one is read whole. */
  lemma LongLinesArePieces(values: seq<Value>, line: string, rest: string)
    requires |values| == COUNT && '\n' !in line
    ensures |line| <= 510 ==> LoadedAll(values, line + "\n" + rest) == LoadedAll(Loaded(values, line + "\n"), rest)
    ensures |line| >= 511 ==>
              LoadedAll(values, line + "\n" + rest) == LoadedAll(Loaded(values, line[..511]), line[511..] + "\n" + rest)
  {
    hide Loaded;
    var text := line + "\n" + rest;
    assert text[..|line|] == line && text[|line|] == '\n';
    NewlineIsAt(text, |line|);
    if |line| <= 510 {
      assert Chunk(text, LINE_SIZE) == line + "\n" && text[|line| + 1..] == rest;
    } else {
      assert Chunk(text, LINE_SIZE) == line[..511] && text[511..] == line[511..] + "\n" + rest;
    }
  }

  lemma NewlineIsAt(s: string, n: nat)
    requires n < |s| && '\n' !in s[..n] && s[n] == '\n'
    ensures NewlineAt(s) == n
  {
  }

  // ----- Writing -----

  function Printed(v: Value): string {
    match v
    case Str(text) => text
    case Num(n) => IntText(n)
    case Bool(on) => if on then "1" else "0"
  }

  function WrittenLine(i: nat, v: Value): (line: string)
    requires i < COUNT
    ensures line != "" && EndsLine(line)
  {
    Key(i) + "=" + Printed(v) + "\n"
  }

  function TextFrom(values: seq<Value>, i: nat): string
    requires |values| == COUNT && i <= COUNT
    decreases COUNT - i
  {
    if i == COUNT then "" else WrittenLine(i, values[i]) + TextFrom(values, i + 1)
  }

  function FileText(values: seq<Value>): string
    requires |values| == COUNT
  {
    TextFrom(values, 0)
  }

  // The settings that are written; configPath, which is not, is left out.
  class WtConfig {
    var values: seq<Value>

    constructor (values: seq<Value>)
      requires |values| == COUNT
      ensures this.values == values
    {
      this.values := values;
    }

    method SetValue(key: string, value: string) returns (known: bool)
      requires |values| == COUNT
      modifies this
      ensures values == Assigned(old(values), key, value) && known == (IndexOf(key) < COUNT)
    {
      hide Key, ValueOf, KindOf;
      var i := 0;
      while i < COUNT && Key(i) != key
        invariant i <= COUNT && IndexOf(key) == IndexIn(Keys(), key, i)
      {
        i := i + 1;
      }
      known := i < COUNT;
      if known {
        values := values[i := ValueOf(KindOf(i), value)];
      }
    }

    method LoadFile(text: string)
      requires |values| == COUNT
      modifies this
      ensures values == LoadedAll(old(values), text)
    {
      hide Trim, Assigned, IndexOf, Chunk, EqualsAt;
      var rest := text;
      while rest != ""
        invariant |values| == COUNT && LoadedAll(old(values), text) == LoadedAll(values, rest)
        decreases |rest|
      {
        var line := Chunk(rest, LINE_SIZE);
        rest := rest[|line|..];
        var trimmed := TrimWhitespace(line);
        if trimmed == "" || trimmed[0] == '#' {
          continue;
        }
        var equals := EqualsAt(trimmed);
        if equals == |trimmed| {
          continue;
        }
        var key := TrimWhitespace(trimmed[..equals]);
        var value := TrimWhitespace(trimmed[equals + 1..]);
        var known := SetValue(key, value);
      }
    }

    // One line per field, in order; loading it back restores plain values over whatever was set.
    method WriteFile() returns (text: string)
      requires |values| == COUNT
      ensures text == FileText(values) && EndsLine(text)
      ensures WellTyped(values) && (forall i :: 0 <= i < COUNT ==> OneLine(values[i]) && Trimmed(values[i])) ==>
                forall current: seq<Value> :: |current| == COUNT ==> LoadedAll(current, text) == values
    {
      hide WellTyped, OneLine, Trimmed, LoadedAll, FileText;
      text := FileText(values);
      var head := FileSplits(values, COUNT);
      if WellTyped(values) {
        forall current: seq<Value> | |current| == COUNT
          ensures LoadedAll(current, text) == values <==> forall i :: 0 <= i < COUNT ==> OneLine(values[i]) && Trimmed(values[i])
        {
          RoundTrip(current, values);
        }
      }
    }
  }

  // ----- The keys -----

  // A number that tells the 51 keys apart, and the place of the key it belongs to.
  function Code(key: string): int
    requires |key| >= 8
  {
    |key| * 11 + key[7] as int + 4 * key[5] as int
  }

  function PlaceOf(code: int): int {
    match code
    case 551 => 13
    case 553 => 19
    case 577 => 0
    case 606 => 35
    case 616 => 20
    case 622 => 37
    case 625 => 24
    case 628 => 31
    case 639 => 32
    case 641 => 26
    case 643 => 28
    case 644 => 30
    case 645 => 1
    case 646 => 25
    case 647 => 22
    case 648 => 5
    case 658 => 27
    case 659 => 7
    case 661 => 2
    case 666 => 44
    case 671 => 21
    case 674 => 29
    case 675 => 18
    case 683 => 23
    case 685 => 4
    case 688 => 48
    case 709 => 11
    case 712 => 9
    case 713 => 15
    case 714 => 17
    case 717 => 40
    case 719 => 8
    case 721 => 16
    case 735 => 34
    case 737 => 39
    case 743 => 45
    case 753 => 33
    case 754 => 46
    case 758 => 14
    case 766 => 6
    case 770 => 38
    case 782 => 3
    case 787 => 50
    case 791 => 41
    case 805 => 47
    case 806 => 12
    case 807 => 43
    case 813 => 42
    case 818 => 36
    case 824 => 10
    case 831 => 49
    case _ => -1
  }

  // Every character of a key comes after '=' and so after white space, the newline and '#'.
  predicate IsPlainKey(key: string) { 8 <= |key| <= 27 && forall k :: 0 <= k < |key| ==> key[k] > '=' }

  predicate GoodKey(key: string, i: nat) { IsPlainKey(key) && PlaceOf(Code(key)) == i }

  lemma GoodKeys0()
    ensures GoodKey("roomName", 0)
    ensures GoodKey("roomLogPath", 1)
    ensures GoodKey("taskLedgerPath", 2)
  {
  }

  lemma GoodKeys3()
    ensures GoodKey("taskProjectionDbPath", 3)
    ensures GoodKey("httpBindAddress", 4)
    ensures GoodKey("httpPort", 5)
  {
  }

  lemma GoodKeys6()
    ensures GoodKey("contextMessageCount", 6)
    ensures GoodKey("agentPollMilliseconds", 7)
    ensures GoodKey("adapterTimeoutSeconds", 8)
  {
  }

  lemma GoodKeys9()
    ensures GoodKey("adapterMaxOutputBytes", 9)
    ensures GoodKey("maxActiveTasksPerAgent", 10)
    ensures GoodKey("maxSubtasksPerParent", 11)
  {
  }

  lemma GoodKeys12()
    ensures GoodKey("maxTasksPerInitiative", 12)
    ensures GoodKey("fsyncEachMessage", 13)
    ensures GoodKey("roleRoutingEnabled", 14)
  {
  }

  lemma GoodKeys15()
    ensures GoodKey("enableCodexAdapter", 15)
    ensures GoodKey("enableClaudeAdapter", 16)
    ensures GoodKey("enableGeminiAdapter", 17)
  {
  }

  lemma GoodKeys18()
    ensures GoodKey("tokenTelemetryEnabled", 18)
    ensures GoodKey("tokenDailyBudget", 19)
    ensures GoodKey("tokenMonthlyBudget", 20)
  {
  }

  lemma GoodKeys21()
    ensures GoodKey("tokenWarningPercent", 21)
    ensures GoodKey("tokenCostPerMillionCents", 22)
    ensures GoodKey("runtimeRootPath", 23)
  {
  }

  lemma GoodKeys24()
    ensures GoodKey("claudeMode", 24)
    ensures GoodKey("chatgptMode", 25)
    ensures GoodKey("geminiMode", 26)
  {
  }

  lemma GoodKeys27()
    ensures GoodKey("claudeCommand", 27)
    ensures GoodKey("gptCommand", 28)
    ensures GoodKey("geminiCommand", 29)
  {
  }

  lemma GoodKeys30()
    ensures GoodKey("blockedVendors", 30)
    ensures GoodKey("tokenBudgetPerInitiative", 31)
    ensures GoodKey("tokenBudgetPerModelFamily", 32)
  {
  }

  lemma GoodKeys33()
    ensures GoodKey("heartbeatIntervalSeconds", 33)
    ensures GoodKey("leaseRenewalIntervalSeconds", 34)
    ensures GoodKey("leaseDurationSeconds", 35)
  {
  }

  lemma GoodKeys36()
    ensures GoodKey("cancelPollIntervalSeconds", 36)
    ensures GoodKey("slackWebhookFile", 37)
    ensures GoodKey("notificationEscalateKey", 38)
  {
  }

  lemma GoodKeys39()
    ensures GoodKey("notificationStuckKey", 39)
    ensures GoodKey("defaultAutonomyLevel", 40)
    ensures GoodKey("claudeDefaultAutonomyLevel", 41)
  {
  }

  lemma GoodKeys42()
    ensures GoodKey("chatgptDefaultAutonomyLevel", 42)
    ensures GoodKey("geminiDefaultAutonomyLevel", 43)
    ensures GoodKey("deliverableRoot", 44)
  {
  }

  lemma GoodKeys45()
    ensures GoodKey("deliverableDefaultMode", 45)
    ensures GoodKey("deliverableBranchPrefix", 46)
    ensures GoodKey("secretScanPatternsFile", 47)
  {
  }

  lemma GoodKeys48()
    ensures GoodKey("remoteAllowedIps", 48)
    ensures GoodKey("authTokenDefaultTtlSeconds", 49)
    ensures GoodKey("operatorSessionPath", 50)
  {
  }

  lemma GoodKeysFrom0(i: nat)
    requires 0 <= i < 12
    ensures GoodKey(Key(i), i)
  {
    hide GoodKey;
    if i < 3 {
      GoodKeys0();
    } else if i < 6 {
      GoodKeys3();
    } else if i < 9 {
      GoodKeys6();
    } else {
      GoodKeys9();
    }
  }

  lemma GoodKeysFrom12(i: nat)
    requires 12 <= i < 24
    ensures GoodKey(Key(i), i)
  {
    hide GoodKey;
    if i < 15 {
      GoodKeys12();
    } else if i < 18 {
      GoodKeys15();
    } else if i < 21 {
      GoodKeys18();
    } else {
      GoodKeys21();
    }
  }

  lemma GoodKeysFrom24(i: nat)
    requires 24 <= i < 36
    ensures GoodKey(Key(i), i)
  {
    hide GoodKey;
    if i < 27 {
      GoodKeys24();
    } else if i < 30 {
      GoodKeys27();
    } else if i < 33 {
      GoodKeys30();
    } else {
      GoodKeys33();
    }
  }

  lemma GoodKeysFrom36(i: nat)
    requires 36 <= i < 45
    ensures GoodKey(Key(i), i)
  {
    hide GoodKey;
    if i < 39 {
      GoodKeys36();
    } else if i < 42 {
      GoodKeys39();
    } else {
      GoodKeys42();
    }
  }

  lemma GoodKeysFrom45(i: nat)
    requires 45 <= i < 51
    ensures GoodKey(Key(i), i)
  {
    hide GoodKey;
    if i < 48 {
      GoodKeys45();
    } else {
      GoodKeys48();
    }
  }

  lemma GoodKeys(i: nat)
    requires i < COUNT
    ensures GoodKey(Key(i), i)
  {
    hide GoodKey, Key;
    if i < 12 {
      GoodKeysFrom0(i);
    } else if i < 24 {
      GoodKeysFrom12(i);
    } else if i < 36 {
      GoodKeysFrom24(i);
    } else if i < 45 {
      GoodKeysFrom36(i);
    } else {
      GoodKeysFrom45(i);
    }
  }

  lemma KeyIsFound(i: nat)
    requires i < COUNT
    ensures IndexOf(Key(i)) == i
  {
    hide Key, PlaceOf, Code;
    var j := IndexOf(Key(i));
    GoodKeys(i);
    assert Keys()[i] == Key(i);
    assert j <= i && Keys()[j] == Key(j);
    GoodKeys(j);
  }

  // ----- Loading what was written -----

  // The setting that a line with the key sets is of the kind.
  predicate IsSetting(key: string, kind: Kind) { IndexOf(key) < COUNT && KindOf(IndexOf(key)) == kind }

  lemma SettingIs(i: nat, key: string, kind: Kind)
    requires i < COUNT && SettingAt(i) == Setting(key, kind)
    ensures IsSetting(key, kind)
  {
    hide IndexOf;
    KeyIsFound(i);
  }

  // The switches.
  lemma FlagSettingsFrom13()
    ensures IsSetting("fsyncEachMessage", Flag) && IsSetting("roleRoutingEnabled", Flag) && IsSetting("enableCodexAdapter", Flag)
    ensures IsSetting("enableClaudeAdapter", Flag) && IsSetting("enableGeminiAdapter", Flag)
  {
    hide IsSetting;
    SettingIs(13, "fsyncEachMessage", Flag);
    SettingIs(14, "roleRoutingEnabled", Flag);
    SettingIs(15, "enableCodexAdapter", Flag);
    SettingIs(16, "enableClaudeAdapter", Flag);
    SettingIs(17, "enableGeminiAdapter", Flag);
  }

  lemma FlagSettingsFrom18()
    ensures IsSetting("tokenTelemetryEnabled", Flag)
  {
    hide IsSetting;
    SettingIs(18, "tokenTelemetryEnabled", Flag);
  }

  // The numbers.
  lemma NumberSettingsFrom5()
    ensures IsSetting("httpPort", Integer) && IsSetting("contextMessageCount", Integer) && IsSetting("agentPollMilliseconds", Integer)
    ensures IsSetting("adapterTimeoutSeconds", Integer) && IsSetting("adapterMaxOutputBytes", Integer)
  {
    hide IsSetting;
    SettingIs(5, "httpPort", Integer);
    SettingIs(6, "contextMessageCount", Integer);
    SettingIs(7, "agentPollMilliseconds", Integer);
    SettingIs(8, "adapterTimeoutSeconds", Integer);
    SettingIs(9, "adapterMaxOutputBytes", Integer);
  }

  lemma NumberSettingsFrom10()
    ensures IsSetting("maxActiveTasksPerAgent", Integer) && IsSetting("maxSubtasksPerParent", Integer)
    ensures IsSetting("maxTasksPerInitiative", Integer) && IsSetting("tokenDailyBudget", Integer)
    ensures IsSetting("tokenMonthlyBudget", Integer)
  {
    hide IsSetting;
    SettingIs(10, "maxActiveTasksPerAgent", Integer);
    SettingIs(11, "maxSubtasksPerParent", Integer);
    SettingIs(12, "maxTasksPerInitiative", Integer);
    SettingIs(19, "tokenDailyBudget", Integer);
    SettingIs(20, "tokenMonthlyBudget", Integer);
  }

  lemma NumberSettingsFrom21()
    ensures IsSetting("tokenWarningPercent", Integer) && IsSetting("tokenCostPerMillionCents", Integer)
    ensures IsSetting("tokenBudgetPerInitiative", Integer) && IsSetting("tokenBudgetPerModelFamily", Integer)
    ensures IsSetting("heartbeatIntervalSeconds", Integer)
  {
    hide IsSetting;
    SettingIs(21, "tokenWarningPercent", Integer);
    SettingIs(22, "tokenCostPerMillionCents", Integer);
    SettingIs(31, "tokenBudgetPerInitiative", Integer);
    SettingIs(32, "tokenBudgetPerModelFamily", Integer);
    SettingIs(33, "heartbeatIntervalSeconds", Integer);
  }

  lemma NumberSettingsFrom34()
    ensures IsSetting("leaseRenewalIntervalSeconds", Integer) && IsSetting("leaseDurationSeconds", Integer)
    ensures IsSetting("cancelPollIntervalSeconds", Integer) && IsSetting("authTokenDefaultTtlSeconds", Integer)
  {
    hide IsSetting;
    SettingIs(34, "leaseRenewalIntervalSeconds", Integer);
    SettingIs(35, "leaseDurationSeconds", Integer);
    SettingIs(36, "cancelPollIntervalSeconds", Integer);
    SettingIs(49, "authTokenDefaultTtlSeconds", Integer);
  }

  // The texts of at most 63 characters.
  lemma NameSettingsFrom0()
    ensures IsSetting("roomName", TextOf(64)) && IsSetting("httpBindAddress", TextOf(64)) && IsSetting("claudeMode", TextOf(64))
    ensures IsSetting("chatgptMode", TextOf(64)) && IsSetting("geminiMode", TextOf(64))
  {
    hide IsSetting;
    SettingIs(0, "roomName", TextOf(64));
    SettingIs(4, "httpBindAddress", TextOf(64));
    SettingIs(24, "claudeMode", TextOf(64));
    SettingIs(25, "chatgptMode", TextOf(64));
    SettingIs(26, "geminiMode", TextOf(64));
  }

  lemma NameSettingsFrom38()
    ensures IsSetting("notificationEscalateKey", TextOf(64)) && IsSetting("notificationStuckKey", TextOf(64))
    ensures IsSetting("defaultAutonomyLevel", TextOf(64)) && IsSetting("claudeDefaultAutonomyLevel", TextOf(64))
    ensures IsSetting("chatgptDefaultAutonomyLevel", TextOf(64))
  {
    hide IsSetting;
    SettingIs(38, "notificationEscalateKey", TextOf(64));
    SettingIs(39, "notificationStuckKey", TextOf(64));
    SettingIs(40, "defaultAutonomyLevel", TextOf(64));
    SettingIs(41, "claudeDefaultAutonomyLevel", TextOf(64));
    SettingIs(42, "chatgptDefaultAutonomyLevel", TextOf(64));
  }

  lemma NameSettingsFrom43()
    ensures IsSetting("geminiDefaultAutonomyLevel", TextOf(64)) && IsSetting("deliverableDefaultMode", TextOf(64))
    ensures IsSetting("deliverableBranchPrefix", TextOf(64))
  {
    hide IsSetting;
    SettingIs(43, "geminiDefaultAutonomyLevel", TextOf(64));
    SettingIs(45, "deliverableDefaultMode", TextOf(64));
    SettingIs(46, "deliverableBranchPrefix", TextOf(64));
  }

  // The texts of at most 255 characters.
  lemma PathSettingsFrom1()
    ensures IsSetting("roomLogPath", TextOf(256)) && IsSetting("taskLedgerPath", TextOf(256))
    ensures IsSetting("taskProjectionDbPath", TextOf(256)) && IsSetting("runtimeRootPath", TextOf(256))
    ensures IsSetting("claudeCommand", TextOf(256))
  {
    hide IsSetting;
    SettingIs(1, "roomLogPath", TextOf(256));
    SettingIs(2, "taskLedgerPath", TextOf(256));
    SettingIs(3, "taskProjectionDbPath", TextOf(256));
    SettingIs(23, "runtimeRootPath", TextOf(256));
    SettingIs(27, "claudeCommand", TextOf(256));
  }

  lemma PathSettingsFrom28()
    ensures IsSetting("gptCommand", TextOf(256)) && IsSetting("geminiCommand", TextOf(256)) && IsSetting("blockedVendors", TextOf(256))
    ensures IsSetting("slackWebhookFile", TextOf(256)) && IsSetting("deliverableRoot", TextOf(256))
  {
    hide IsSetting;
    SettingIs(28, "gptCommand", TextOf(256));
    SettingIs(29, "geminiCommand", TextOf(256));
    SettingIs(30, "blockedVendors", TextOf(256));
    SettingIs(37, "slackWebhookFile", TextOf(256));
    SettingIs(44, "deliverableRoot", TextOf(256));
  }

  lemma PathSettingsFrom47()
    ensures IsSetting("secretScanPatternsFile", TextOf(256)) && IsSetting("remoteAllowedIps", TextOf(256))
    ensures IsSetting("operatorSessionPath", TextOf(256))
  {
    hide IsSetting;
    SettingIs(47, "secretScanPatternsFile", TextOf(256));
    SettingIs(48, "remoteAllowedIps", TextOf(256));
    SettingIs(50, "operatorSessionPath", TextOf(256));
  }

  lemma {:induction false} EqualsAtIs(s: string, n: nat)
    requires n < |s| && '=' !in s[..n] && s[n] == '='
    ensures EqualsAt(s) == n
  {
    if n > 0 {
      assert s[0] == s[..n][0];
      assert s[1..][..n - 1] == s[..n][1..];
      EqualsAtIs(s[1..], n - 1);
    }
  }

  lemma KeyText(i: nat)
    requires i < COUNT
    ensures var key := Key(i);
            && key != "" && |key| <= 27 && '=' !in key && '\n' !in key && key[0] != '#'
            && SkipSpaces(key) == key && TrimRight(key) == key
  {
    hide Key;
    GoodKeys(i);
    var key := Key(i);
    assert key[0] > '=' && key[|key| - 1] > '=';
    assert forall c :: c in key ==> c > '=';
    TrimRightKeeps(key);
  }

  /** Loading one written line sets its field to the trimmed text, whatever the text is made of ('=' and '#' included). */
  lemma LoadedOfLine(values: seq<Value>, i: nat, text: string)
    requires |values| == COUNT && i < COUNT
    ensures Loaded(values, Key(i) + "=" + text + "\n") == values[i := ValueOf(KindOf(i), Trim(text))]
  {
    hide Key, TrimRight, SkipSpaces, EqualsAt, ValueOf, KindOf;
    var key := Key(i);
    var head, line := key + "=", key + "=" + text + "\n";
    KeyText(i);
    KeyIsFound(i);
    assert head[|head| - 1] == '=';
    assert line == head + (text + "\n");
    NoSpaceFirst(line);
    TrimRightBehind(head, text + "\n");
    TrimRightSpace(text, '\n');
    var t := head + TrimRight(text);
    assert Trim(line) == t;
    assert t[..|key|] == key && t[|key|] == '=' && t[|key| + 1..] == TrimRight(text);
    EqualsAtIs(t, |key|);
    TrimOfTrimRight(text);
  }

  lemma NoSpaceFirst(s: string)
    requires s != "" && !IsSpace(s[0])
    ensures SkipSpaces(s) == s
  {
  }

  predicate OneLine(v: Value) { v.Str? ==> '\n' !in v.text }

  predicate OneLiners(values: seq<Value>) { forall i :: 0 <= i < |values| ==> OneLine(values[i]) }

  lemma PrintedFits(i: nat, v: Value)
    requires i < COUNT && Holds(KindOf(i), v) && OneLine(v)
    ensures '\n' !in Printed(v) && |Printed(v)| < PATH_SIZE
  {
    assert KindOf(i).TextOf? ==> KindOf(i).size <= PATH_SIZE;
  }

  // What field i holds after the written file was loaded.
  function Restored(values: seq<Value>, i: nat): Value
    requires |values| == COUNT && i < COUNT
  {
    ValueOf(KindOf(i), Trim(Printed(values[i])))
  }

  lemma LoadedStep(current: seq<Value>, values: seq<Value>, i: nat)
    requires |current| == COUNT && WellTyped(values) && OneLiners(values) && i < COUNT
    ensures LoadedAll(current, TextFrom(values, i)) == LoadedAll(current[i := Restored(values, i)], TextFrom(values, i + 1))
  {
    hide Key, KindOf, Loaded, Trim, ValueOf, Printed, Chunk, Holds;
    var line, rest := Key(i) + "=" + Printed(values[i]), TextFrom(values, i + 1);
    KeyText(i);
    PrintedFits(i, values[i]);
    ChunkOfLine(line, rest, LINE_SIZE);
    LoadedOfLine(current, i, Printed(values[i]));
    var text := line + "\n" + rest;
    assert TextFrom(values, i) == text;
    assert text[|line| + 1..] == rest;
  }

  lemma {:induction false} LoadedFrom(current: seq<Value>, values: seq<Value>, i: nat)
    requires |current| == COUNT && |values| == COUNT && WellTyped(values) && OneLiners(values) && i <= COUNT
    ensures var r := LoadedAll(current, TextFrom(values, i));
            && (forall j :: 0 <= j < i ==> r[j] == current[j])
            && (forall j :: i <= j < COUNT ==> r[j] == Restored(values, j))
    decreases COUNT - i
  {
    hide WellTyped, OneLiners, Restored, LoadedAll, TextFrom;
    if i < COUNT {
      LoadedStep(current, values, i);
      LoadedFrom(current[i := Restored(values, i)], values, i + 1);
    } else {
      NothingToLoad(current, values);
    }
  }

  lemma NothingToLoad(current: seq<Value>, values: seq<Value>)
    requires |current| == COUNT && |values| == COUNT
    ensures LoadedAll(current, TextFrom(values, COUNT)) == current
  {
  }

  // No white space at either end.
  predicate Trimmed(v: Value) { v.Str? ==> Trim(v.text) == v.text }

  lemma DigitsAreTrimmed(s: string)
    requires s != "" && !IsSpace(s[0]) && !IsSpace(s[|s| - 1])
    ensures Trim(s) == s
  {
    NoSpaceFirst(s);
    TrimRightKeeps(s);
  }

  lemma ReadBackOfValue(i: nat, v: Value)
    requires i < COUNT && Holds(KindOf(i), v)
    ensures ValueOf(KindOf(i), Trim(Printed(v))) == v <==> Trimmed(v)
  {
    hide KindOf;
    match v
    case Str(text) =>
      assert |Trim(text)| <= |text|;
    case Num(n) =>
      NumberIsTrimmed(n);
      ParseLongOfIntText(n, "");
      assert IntText(n) + "" == IntText(n);
    case Bool(on) =>
      DigitsAreTrimmed(Printed(v));
      ParseLongOfIntText(if on then 1 else 0, "");
      assert IntText(if on then 1 else 0) + "" == Printed(v);
  }

  lemma NumberIsTrimmed(n: int)
    ensures Trim(IntText(n)) == IntText(n)
  {
    var s := IntText(n);
    var digits := NatText(if n < 0 then -n else n);
    assert s[|s| - 1] == digits[|digits| - 1];
    assert IsDigit(digits[|digits| - 1]) && (s[0] == '-' || s[0] == digits[0]);
    DigitsAreTrimmed(s);
  }

  // ----- A text with a newline is never restored -----

  lemma {:induction false} TrimRightPrefix(s: string)
    ensures TrimRight(s) <= s
  {
    if s != "" {
      TrimRightPrefix(s[1..]);
    }
  }

  lemma {:induction false} SkipSpacesSuffix(s: string, c: char)
    requires c !in s
    ensures c !in SkipSpaces(s)
  {
    if s != "" && IsSpace(s[0]) {
      SkipSpacesSuffix(s[1..], c);
    }
  }

  lemma TrimKeepsOut(s: string, c: char)
    requires c !in s
    ensures c !in Trim(s)
  {
    SkipSpacesSuffix(s, c);
    TrimRightPrefix(SkipSpaces(s));
  }

  lemma TrimDropsNewline(line: string)
    requires line != "" && '\n' !in line[..|line| - 1]
    ensures '\n' !in Trim(line)
  {
    var last := line[|line| - 1];
    if last == '\n' {
      var s := line[..|line| - 1];
      assert line == s + [last];
      TrimsCommute(line);
      TrimRightSpace(s, last);
      TrimRightPrefix(s);
      SkipSpacesSuffix(TrimRight(s), '\n');
    } else {
      assert line == line[..|line| - 1] + [last];
      TrimKeepsOut(line, '\n');
    }
  }

  lemma ChunkHoldsNoInnerNewline(text: string)
    requires text != ""
    ensures '\n' !in Chunk(text, LINE_SIZE)[..|Chunk(text, LINE_SIZE)| - 1]
  {
    var c, n := Chunk(text, LINE_SIZE), NewlineAt(text);
    assert c[..|c| - 1] == text[..n][..|c| - 1];
  }

  // Whatever line is loaded, a field that holds a single line keeps holding one.
  lemma LoadedKeepsOneLine(values: seq<Value>, line: string, k: nat)
    requires |values| == COUNT && k < COUNT && OneLine(values[k]) && line != "" && '\n' !in line[..|line| - 1]
    ensures OneLine(Loaded(values, line)[k])
  {
    hide Key, KindOf, IndexOf, TrimRight, SkipSpaces, EqualsAt;
    TrimDropsNewline(line);
    var t := Trim(line);
    var e := EqualsAt(t);
    if t != "" && e < |t| {
      assert '\n' !in t[e + 1..];
      TrimKeepsOut(t[e + 1..], '\n');
    }
  }

  lemma {:induction false} LoadedAllKeepsOneLine(values: seq<Value>, text: string, k: nat)
    requires |values| == COUNT && k < COUNT && OneLine(values[k])
    ensures OneLine(LoadedAll(values, text)[k])
    decreases |text|
  {
    if text != "" {
      hide Loaded, Chunk, OneLine;
      var line := Chunk(text, LINE_SIZE);
      ChunkHoldsNoInnerNewline(text);
      LoadedKeepsOneLine(values, line, k);
      LoadedAllKeepsOneLine(Loaded(values, line), text[|line|..], k);
    }
  }

  lemma {:induction false} LoadedAllAppend(values: seq<Value>, text: string, more: string)
    requires |values| == COUNT && EndsLine(text)
    ensures LoadedAll(values, text + more) == LoadedAll(LoadedAll(values, text), more)
    decreases |text|
  {
    hide Loaded, Chunk;
    if text == "" {
      assert text + more == more;
    } else {
      var line := Chunk(text, LINE_SIZE);
      ChunkOfWholeLines(text, more, LINE_SIZE);
      assert (text + more)[|line|..] == text[|line|..] + more;
      LoadedAllAppend(Loaded(values, line), text[|line|..], more);
    }
  }

  // The file up to field i.
  lemma {:induction false} FileSplits(values: seq<Value>, i: nat) returns (head: string)
    requires |values| == COUNT && i <= COUNT
    ensures EndsLine(head) && FileText(values) == head + TextFrom(values, i)
  {
    hide WrittenLine, TextFrom;
    if i == 0 {
      head := "";
      assert "" + TextFrom(values, 0) == TextFrom(values, 0);
    } else {
      var before := FileSplits(values, i - 1);
      var line, rest := WrittenLine(i - 1, values[i - 1]), TextFrom(values, i);
      head := before + line;
      TextUnfolds(values, i - 1);
      assert before + (line + rest) == head + rest;
      assert head[|head| - 1] == line[|line| - 1];
    }
  }

  lemma TextUnfolds(values: seq<Value>, i: nat)
    requires |values| == COUNT && i < COUNT
    ensures TextFrom(values, i) == WrittenLine(i, values[i]) + TextFrom(values, i + 1)
  {
    hide WrittenLine;
  }

  // A text with a newline is cut there: the field is set to what stands before it.
  lemma CutAtNewline(i: nat, v: Value, rest: string) returns (cut: string, more: string)
    requires i < COUNT && v.Str? && '\n' in v.text && |v.text| < PATH_SIZE
    ensures var line := Key(i) + "=" + cut + "\n";
            && '\n' !in cut && Chunk(WrittenLine(i, v) + rest, LINE_SIZE) == line
            && WrittenLine(i, v) + rest == line + more
  {
    hide Key, Chunk, NewlineAt;
    var n := NewlineAt(v.text);
    assert v.text[..|v.text|] == v.text;
    cut, more := v.text[..n], v.text[n + 1..] + "\n" + rest;
    assert v.text == cut + "\n" + v.text[n + 1..];
    var line := Key(i) + "=" + cut;
    assert WrittenLine(i, v) + rest == line + "\n" + more;
    KeyText(i);
    ChunkOfLine(line, more, LINE_SIZE);
  }

  lemma NewlineIsNotRestored(current: seq<Value>, values: seq<Value>, i: nat)
    requires |current| == COUNT && WellTyped(values) && i < COUNT && !OneLine(values[i])
    ensures LoadedAll(current, FileText(values))[i] != values[i]
  {
    hide Key, KindOf, Loaded, ValueOf, Trim, Chunk, WrittenLine, TextFrom, FileText, LoadedAll;
    var head := FileSplits(values, i);
    var text, now := TextFrom(values, i), LoadedAll(current, head);
    LoadedAllAppend(current, head, text);
    TextIsShort(values, i);
    TextUnfolds(values, i);
    var cut, more := CutAtNewline(i, values[i], TextFrom(values, i + 1));
    var line := Key(i) + "=" + cut + "\n";
    LoadUnfolds(now, text);
    assert text[|line|..] == more;
    LoadedOfLine(now, i, cut);
    TrimKeepsOut(cut, '\n');
    CutIsOneLine(i, Trim(cut));
    LoadedAllKeepsOneLine(Loaded(now, line), more, i);
  }

  lemma LoadUnfolds(values: seq<Value>, text: string)
    requires |values| == COUNT && text != ""
    ensures var line := Chunk(text, LINE_SIZE); LoadedAll(values, text) == LoadedAll(Loaded(values, line), text[|line|..])
  {
    hide Loaded, Chunk;
  }

  lemma TextIsShort(values: seq<Value>, i: nat)
    requires WellTyped(values) && i < COUNT
    ensures values[i].Str? ==> |values[i].text| < PATH_SIZE
  {
    hide SettingAt;
  }

  lemma CutIsOneLine(i: nat, text: string)
    requires i < COUNT && '\n' !in text
    ensures OneLine(ValueOf(KindOf(i), text))
  {
    hide KindOf;
  }

  /**
   * Loading the written file restores every written field exactly when every text is a single line without white
   * space at its ends, whatever else the texts hold ('=' and nothing at all included) and whatever was set before.
   */
  lemma RoundTrip(current: seq<Value>, values: seq<Value>)
    requires |current| == COUNT && WellTyped(values)
    ensures LoadedAll(current, FileText(values)) == values <==>
            forall i :: 0 <= i < COUNT ==> OneLine(values[i]) && Trimmed(values[i])
  {
    hide KindOf, TextFrom, LoadedAll, Trim, ValueOf, Printed, Holds, OneLine;
    var r := LoadedAll(current, FileText(values));
    if OneLiners(values) {
      LoadedFrom(current, values, 0);
      forall i | 0 <= i < COUNT
        ensures r[i] == values[i] <==> Trimmed(values[i])
      {
        ReadBackOfValue(i, values[i]);
      }
    } else {
      var i :| 0 <= i < COUNT && !OneLine(values[i]);
      NewlineIsNotRestored(current, values, i);
    }
  }
}
