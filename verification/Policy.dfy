/**
 * src/wt_policy.c: the central policy evaluator, its vendor list and the model family.
 */
module Policy {
  import opened Options

  // ----- wtPolicyExtractModelFamily -----

  // The evaluator's modelFamily buffer.
  const FAMILY_SIZE: nat := 64

  function BeforeSlash(modelId: string): (r: Option<string>)
    ensures r.None? <==> '/' !in modelId
    ensures r.Some? ==> r.value + "/" <= modelId && '/' !in r.value
  {
    if modelId == "" then None
    else if modelId[0] == '/' then Some("")
    else
      var rest := BeforeSlash(modelId[1..]);
      if rest.Some? then Some([modelId[0]] + rest.value) else None
  }

  // None when there is no slash or nothing before it; cut to the buffer.
  function ModelFamily(modelId: string): (r: Option<string>)
    ensures r.None? <==> '/' !in modelId || modelId[0] == '/'
    ensures r.Some? ==> 0 < |r.value| <= 63 && r.value <= modelId && '/' !in r.value
    ensures r.Some? && |r.value| < 63 ==> |r.value| < |modelId| && modelId[|r.value|] == '/'
  {
    var before := BeforeSlash(modelId);
    if before.None? || before.value == "" then None
    else Some(if |before.value| >= FAMILY_SIZE then before.value[..FAMILY_SIZE - 1] else before.value)
  }

  // ----- wtPolicyVendorIsBlocked -----

  predicate IsBlank(c: char) { c == ' ' || c == '\t' }

  function TrimLeft(s: string): string { if s != "" && IsBlank(s[0]) then TrimLeft(s[1..]) else s }

  function TrimRight(s: string): (r: string)
    ensures r <= s
  {
    if s != "" && IsBlank(s[|s| - 1]) then TrimRight(s[..|s| - 1]) else s
  }

  function Trim(s: string): string { TrimRight(TrimLeft(s)) }

  // The text before the first comma.
  function FirstToken(s: string): (t: string)
    ensures t <= s && ',' !in t
    ensures |t| < |s| ==> s[|t|] == ','
  {
    if s == "" || s[0] == ',' then "" else [s[0]] + FirstToken(s[1..])
  }

  // The comma-separated entries, trimmed.
  function Vendors(csv: string): seq<string>
    decreases |csv|
  {
    var first := FirstToken(csv);
    [Trim(first)] + if |first| == |csv| then [] else Vendors(csv[|first| + 1..])
  }

  lemma SkipSeparator(s: string, family: string)
    requires s != "" && family != "" && (IsBlank(s[0]) || s[0] == ',')
    ensures family in Vendors(s) <==> family in Vendors(s[1..])
  {
    if s[0] == ',' {
      assert Vendors(s) == [Trim("")] + Vendors(s[1..]);
    } else {
      var first := FirstToken(s[1..]);
      assert FirstToken(s) == [s[0]] + first;
      assert ([s[0]] + first)[1..] == first;
      if |first| < |s| - 1 {
        assert s[|first| + 2..] == s[1..][|first| + 1..];
      }
    }
  }

  lemma {:induction false} FirstTokenAt(s: string, n: nat)
    requires n <= |s| && ',' !in s[..n] && (n < |s| ==> s[n] == ',')
    ensures FirstToken(s) == s[..n]
  {
    if n > 0 {
      assert s[0] == s[..n][0] && s[1..][..n - 1] == s[..n][1..];
      FirstTokenAt(s[1..], n - 1);
    }
  }

  lemma NothingTrimmed()
    ensures Trim("") == ""
  {
  }

  lemma VendorsUnfold(s: string)
    ensures var n := |FirstToken(s)|; Vendors(s) == [Trim(s[..n])] + if n == |s| then [] else Vendors(s[n + 1..])
  {
    hide Trim, FirstToken;
    assert s[..|FirstToken(s)|] == FirstToken(s);
  }

  lemma VendorsCut(s: string, n: nat)
    requires n <= |s| && ',' !in s[..n] && (n < |s| ==> s[n] == ',')
    ensures Vendors(s) == [Trim(s[..n])] + if n == |s| then [] else Vendors(s[n + 1..])
  {
    hide Vendors, Trim, FirstToken;
    FirstTokenAt(s, n);
    VendorsUnfold(s);
  }

  lemma TakeToken(s: string, n: nat, family: string)
    requires family != "" && n <= |s| && ',' !in s[..n] && (n < |s| ==> s[n] == ',')
    ensures family in Vendors(s) <==> Trim(s[..n]) == family || family in Vendors(s[n..])
  {
    hide *;
    var rest := s[n..];
    NothingTrimmed();
    VendorsCut(s, n);
    VendorsCut(rest, 0);
    assert rest[..0] == "";
    assert n < |s| ==> rest[1..] == s[n + 1..];
  }

  // ----- What an entry of the list is -----

  // The text between from and to is the family with blanks around it.
  ghost predicate SpacedFamily(s: string, family: string) {
    exists a, b :: 0 <= a <= b <= |s| && s[a..b] == family &&
      (forall k :: 0 <= k < a ==> s[k] == ' ' || s[k] == '\t') && (forall k :: b <= k < |s| ==> s[k] == ' ' || s[k] == '\t')
  }

  // Some piece of the list between two commas, or an end, is the family with blanks around it.
  ghost predicate Listed(csv: string, family: string) {
    && family != "" && family[0] != ' ' && family[0] != '\t' && family[|family| - 1] != ' ' && family[|family| - 1] != '\t'
    && exists i, j ::
         && 0 <= i <= j <= |csv| && ',' !in csv[i..j] && (i == 0 || csv[i - 1] == ',') && (j == |csv| || csv[j] == ',')
         && SpacedFamily(csv[i..j], family)
  }

  lemma {:induction false} TrimLeftCuts(s: string) returns (a: nat)
    ensures a <= |s| && TrimLeft(s) == s[a..] && (forall k :: 0 <= k < a ==> s[k] == ' ' || s[k] == '\t')
    ensures a < |s| ==> s[a] != ' ' && s[a] != '\t'
  {
    if s != "" && IsBlank(s[0]) {
      a := TrimLeftCuts(s[1..]);
      a := a + 1;
      assert s[1..][a - 1..] == s[a..];
      assert forall k :: 1 <= k < a ==> s[k] == s[1..][k - 1];
    } else {
      a := 0;
    }
  }

  lemma {:induction false} TrimRightCuts(s: string) returns (b: nat)
    ensures b <= |s| && TrimRight(s) == s[..b] && (forall k :: b <= k < |s| ==> s[k] == ' ' || s[k] == '\t')
    ensures b > 0 ==> s[b - 1] != ' ' && s[b - 1] != '\t'
  {
    if s != "" && IsBlank(s[|s| - 1]) {
      b := TrimRightCuts(s[..|s| - 1]);
      assert s[..|s| - 1][..b] == s[..b];
    } else {
      b := |s|;
    }
  }

  lemma TrimIff(s: string, family: string)
    requires family != "" && family[0] != ' ' && family[0] != '\t' && family[|family| - 1] != ' ' && family[|family| - 1] != '\t'
    ensures Trim(s) == family <==> SpacedFamily(s, family)
  {
    hide TrimLeft, TrimRight, SpacedFamily;
    var a := TrimLeftCuts(s);
    var c := TrimRightCuts(s[a..]);
    var b := a + c;
    assert Trim(s) == s[a..b];
    forall k | b <= k < |s|
      ensures s[k] == ' ' || s[k] == '\t'
    {
      assert s[k] == s[a..][k - a];
    }
    if c > 0 {
      assert s[a] == s[a..][0] && s[b - 1] == s[a..][c - 1];
    }
    SpacedAt(s, family, a, b);
  }

  // Only one piece of the text can be the family.
  lemma SpacedAt(s: string, family: string, a: nat, b: nat)
    requires family != "" && family[0] != ' ' && family[0] != '\t' && family[|family| - 1] != ' ' && family[|family| - 1] != '\t'
    requires a <= b <= |s| && (forall k :: 0 <= k < a ==> s[k] == ' ' || s[k] == '\t') && (forall k :: b <= k < |s| ==> s[k] == ' ' || s[k] == '\t')
    requires a < b ==> s[a] != ' ' && s[a] != '\t' && s[b - 1] != ' ' && s[b - 1] != '\t'
    ensures s[a..b] == family <==> SpacedFamily(s, family)
  {
    if SpacedFamily(s, family) {
      var x, y :| 0 <= x <= y <= |s| && s[x..y] == family &&
        (forall k :: 0 <= k < x ==> s[k] == ' ' || s[k] == '\t') && (forall k :: y <= k < |s| ==> s[k] == ' ' || s[k] == '\t');
      assert s[x] == family[0] && s[y - 1] == family[|family| - 1];
      assert x == a && y == b;
    }
  }

  // The text is listed in what is behind position n.
  ghost predicate ListedFrom(csv: string, n: nat, family: string)
    requires n <= |csv| && (n == 0 || csv[n - 1] == ',')
  {
    exists i, j ::
      && n <= i <= j <= |csv| && ',' !in csv[i..j] && (i == 0 || csv[i - 1] == ',') && (j == |csv| || csv[j] == ',')
      && SpacedFamily(csv[i..j], family)
  }

  lemma {:induction false} VendorsFromIff(csv: string, n: nat, family: string)
    requires n <= |csv| && (n == 0 || csv[n - 1] == ',')
    requires family != "" && family[0] != ' ' && family[0] != '\t' && family[|family| - 1] != ' ' && family[|family| - 1] != '\t'
    ensures family in Vendors(csv[n..]) <==> ListedFrom(csv, n, family)
    decreases |csv| - n
  {
    hide Vendors, Trim, SpacedFamily, FirstToken;
    var s := csv[n..];
    var c := |FirstToken(s)|;
    VendorsUnfold(s);
    FirstTokenEnds(s);
    var m := n + c;
    assert s[..c] == csv[n..m] == FirstToken(s);
    TrimIff(csv[n..m], family);
    if c < |s| {
      assert s[c + 1..] == csv[m + 1..] && csv[m] == ',';
      VendorsFromIff(csv, m + 1, family);
    }
    if i, j :| n <= i <= j <= |csv| && ',' !in csv[i..j] && (i == 0 || csv[i - 1] == ',') && (j == |csv| || csv[j] == ',') &&
               SpacedFamily(csv[i..j], family) {
      if i > n {
        PieceStarts(csv, n, m, i);
      } else {
        PieceEnds(csv, n, m, j);
      }
    }
  }

  lemma FirstTokenEnds(s: string)
    ensures FirstToken(s) <= s && ',' !in FirstToken(s) && (|FirstToken(s)| < |s| ==> s[|FirstToken(s)|] == ',')
  {
  }

  // A later piece starts behind the first comma.
  lemma PieceStarts(csv: string, n: nat, m: nat, i: nat)
    requires n <= m <= |csv| && ',' !in csv[n..m] && n < i <= |csv| && csv[i - 1] == ','
    ensures m + 1 <= i
  {
  }

  lemma PieceEnds(csv: string, n: nat, m: nat, j: nat)
    requires n <= m <= |csv| && ',' !in csv[n..m] && (m == |csv| || csv[m] == ',')
    requires n <= j <= |csv| && ',' !in csv[n..j] && (j == |csv| || csv[j] == ',')
    ensures j == m
  {
  }

  // No entry has a blank at its ends.
  lemma {:induction false} EntriesAreTrimmed(csv: string, family: string)
    requires family in Vendors(csv) && family != ""
    ensures family[0] != ' ' && family[0] != '\t' && family[|family| - 1] != ' ' && family[|family| - 1] != '\t'
    decreases |csv|
  {
    hide Vendors, TrimLeft, TrimRight;
    var c := |FirstToken(csv)|;
    VendorsUnfold(csv);
    if family == Trim(csv[..c]) {
      var a := TrimLeftCuts(csv[..c]);
      var b := TrimRightCuts(csv[..c][a..]);
      assert family == csv[..c][a..][..b];
    } else {
      EntriesAreTrimmed(csv[c + 1..], family);
    }
  }

  /** The blocked vendors are the pieces of the list between its commas, without the spaces and tabs around them. */
  lemma VendorsIff(csv: string, family: string)
    requires family != ""
    ensures family in Vendors(csv) <==> Listed(csv, family)
  {
    hide Vendors, SpacedFamily;
    assert csv[0..] == csv;
    if family in Vendors(csv) {
      EntriesAreTrimmed(csv, family);
      VendorsFromIff(csv, 0, family);
    }
    if Listed(csv, family) {
      VendorsFromIff(csv, 0, family);
    }
  }

  // From the token's end back over its trailing blanks.
  method TokenEnd(s: string, start: nat, end: nat) returns (tokenEnd: nat)
    requires start <= end <= |s|
    ensures start <= tokenEnd <= end && s[start..tokenEnd] == TrimRight(s[start..end])
  {
    tokenEnd := end;
    while tokenEnd > start && IsBlank(s[tokenEnd - 1])
      invariant start <= tokenEnd <= end
      invariant TrimRight(s[start..tokenEnd]) == TrimRight(s[start..end])
    {
      assert s[start..tokenEnd][..tokenEnd - 1 - start] == s[start..tokenEnd - 1];
      tokenEnd := tokenEnd - 1;
    }
  }

  method SkipSeparators(s: string, start: nat, family: string) returns (cursor: nat)
    requires start <= |s| && family != ""
    ensures start <= cursor <= |s|
    ensures cursor < |s| ==> !IsBlank(s[cursor]) && s[cursor] != ','
    ensures family in Vendors(s[start..]) <==> family in Vendors(s[cursor..])
  {
    hide Vendors;
    cursor := start;
    while cursor < |s| && (IsBlank(s[cursor]) || s[cursor] == ',')
      invariant start <= cursor <= |s|
      invariant family in Vendors(s[start..]) <==> family in Vendors(s[cursor..])
    {
      SkipSeparator(s[cursor..], family);
      assert s[cursor..][1..] == s[cursor + 1..];
      cursor := cursor + 1;
    }
  }

  method FindComma(s: string, start: nat) returns (cursor: nat)
    requires start <= |s|
    ensures start <= cursor <= |s| && ',' !in s[start..cursor] && (cursor < |s| ==> s[cursor] == ',')
    ensures start < |s| && s[start] != ',' ==> start < cursor
  {
    cursor := start;
    while cursor < |s| && s[cursor] != ','
      invariant start <= cursor <= |s| && ',' !in s[start..cursor]
      invariant start < |s| && s[start] != ',' && cursor == start ==> s[cursor] != ','
    {
      cursor := cursor + 1;
    }
  }

  /** A vendor is blocked exactly when it is one of the trimmed entries of the list. */
  method VendorIsBlocked(blockedVendors: string, modelFamily: string) returns (blocked: bool)
    ensures blocked <==> modelFamily != "" && modelFamily in Vendors(blockedVendors)
    ensures blocked <==> Listed(blockedVendors, modelFamily)
  {
    if modelFamily != "" {
      VendorsIff(blockedVendors, modelFamily);
    }
    if blockedVendors == "" || modelFamily == "" {
      assert Vendors("") == [""];
      return false;
    }
    var cursor := 0;
    assert blockedVendors[0..] == blockedVendors;
    while cursor < |blockedVendors|
      invariant cursor <= |blockedVendors|
      invariant modelFamily in Vendors(blockedVendors) <==> modelFamily in Vendors(blockedVendors[cursor..])
    {
      hide Vendors, TrimRight;
      var tokenStart := SkipSeparators(blockedVendors, cursor, modelFamily);
      if tokenStart == |blockedVendors| {
        cursor := tokenStart;
        break;
      }
      cursor := FindComma(blockedVendors, tokenStart);
      var tokenEnd := TokenEnd(blockedVendors, tokenStart, cursor);
      TakeTokenFrom(blockedVendors, tokenStart, cursor, modelFamily);
      if blockedVendors[tokenStart..tokenEnd] == modelFamily {
        return true;
      }
    }
    assert blockedVendors[cursor..] == "" && Vendors("") == [""];
    return false;
  }

  lemma TakeTokenFrom(s: string, start: nat, end: nat, family: string)
    requires family != "" && start < end <= |s| && !IsBlank(s[start])
    requires ',' !in s[start..end] && (end < |s| ==> s[end] == ',')
    ensures family in Vendors(s[start..]) <==> TrimRight(s[start..end]) == family || family in Vendors(s[end..])
  {
    hide Vendors, TrimRight;
    TakeToken(s[start..], end - start, family);
    assert TrimLeft(s[start..end]) == s[start..end];
    assert s[start..][..end - start] == s[start..end];
    assert s[start..][end - start..] == s[end..];
  }

  // ----- wtPolicyEvaluateTaskPackage -----

  datatype PolicyConfig = PolicyConfig(
    blockedVendors: string, tokenTelemetryEnabled: bool, tokenBudgetPerInitiative: int, tokenBudgetPerModelFamily: int,
    tokenDailyBudget: int, tokenMonthlyBudget: int, maxActiveTasksPerAgent: int, maxTasksPerInitiative: int,
    maxSubtasksPerParent: int)

  datatype Autonomy = Autonomy(level: string, scope: string, ttlSeconds: int, createdAtUnixMs: int, revokedAtUnixMs: int)

  datatype PolicyInput = PolicyInput(
    assignedAgent: string, modelId: string, initiativeId: string, autonomy: Autonomy, maxTokens: int, nowUnixMs: int,
    dayWindowAllocatedTokens: int, monthWindowAllocatedTokens: int, initiativeAllocatedTokens: int,
    modelFamilyAllocatedTokens: int, activeTasksForAgent: int, activeTasksForInitiative: int)

  datatype Decision =
    | Allowed
    | AutonomyRequired | AutonomyRevoked | AutonomyExpired
    | VendorBlocked | ModelAgentMismatch
    | InitiativeBudget | ModelFamilyBudget | DailyBudget | MonthlyBudget
    | CapacityAgent | CapacityInitiative

  predicate LevelIsValid(level: string) { level in ["observe", "ask-each", "ask-batch", "autonomous"] }

  predicate Contains(text: string, part: string) {
    part <= text || (text != "" && Contains(text[1..], part))
  }

  predicate ScopeCoversAdapter(scope: string) {
    Contains(scope, "workspace") || Contains(scope, "adapter") || Contains(scope, "*")
  }

  predicate NamesOneAgent(agent: string) { agent !in ["", "router", "all"] }

  predicate ModelMatchesAgent(agent: string, family: string) {
    (agent == "claude" ==> family == "anthropic") && (agent == "gemini" ==> family == "google") && (agent == "chatgpt" ==> family == "openai")
  }

  // The grant's lifetime starts at its creation time, or now when it carries none.
  function GrantEnd(input: PolicyInput): int {
    (if input.autonomy.createdAtUnixMs > 0 then input.autonomy.createdAtUnixMs else input.nowUnixMs) + input.autonomy.ttlSeconds * 1000
  }

  function JudgeAutonomy(input: PolicyInput): Decision {
    var a := input.autonomy;
    if a.level == "" then Allowed
    else if !LevelIsValid(a.level) then AutonomyRequired
    else if a.level != "autonomous" then Allowed
    else if a.revokedAtUnixMs > 0 then AutonomyRevoked
    else if a.ttlSeconds <= 0 || !ScopeCoversAdapter(a.scope) then AutonomyRequired
    else if input.nowUnixMs > GrantEnd(input) then AutonomyExpired
    else Allowed
  }

  function JudgeModel(config: PolicyConfig, input: PolicyInput): Decision {
    var family := ModelFamily(input.modelId);
    if family.None? then Allowed
    else if family.value in Vendors(config.blockedVendors) then VendorBlocked
    else if NamesOneAgent(input.assignedAgent) && !ModelMatchesAgent(input.assignedAgent, family.value) then ModelAgentMismatch
    else Allowed
  }

  predicate Exceeds(allotted: int, request: int, budget: int) { budget > 0 && allotted + request > budget }

  function JudgeTokens(config: PolicyConfig, input: PolicyInput): Decision {
    if input.maxTokens <= 0 || !config.tokenTelemetryEnabled then Allowed
    else if input.initiativeId != "" && Exceeds(input.initiativeAllocatedTokens, input.maxTokens, config.tokenBudgetPerInitiative)
    then InitiativeBudget
    else if ModelFamily(input.modelId).Some? && Exceeds(input.modelFamilyAllocatedTokens, input.maxTokens, config.tokenBudgetPerModelFamily)
    then ModelFamilyBudget
    else if Exceeds(input.dayWindowAllocatedTokens, input.maxTokens, config.tokenDailyBudget) then DailyBudget
    else if Exceeds(input.monthWindowAllocatedTokens, input.maxTokens, config.tokenMonthlyBudget) then MonthlyBudget
    else Allowed
  }

  function JudgeCapacity(config: PolicyConfig, input: PolicyInput): Decision {
    if config.maxActiveTasksPerAgent > 0 && input.activeTasksForAgent >= config.maxActiveTasksPerAgent then CapacityAgent
    else if input.initiativeId != "" && config.maxTasksPerInitiative > 0 && input.activeTasksForInitiative >= config.maxTasksPerInitiative
    then CapacityInitiative
    else Allowed
  }

  // The first group of checks that denies decides.
  function Evaluate(config: PolicyConfig, input: PolicyInput): Decision {
    if JudgeAutonomy(input) != Allowed then JudgeAutonomy(input)
    else if JudgeModel(config, input) != Allowed then JudgeModel(config, input)
    else if JudgeTokens(config, input) != Allowed then JudgeTokens(config, input)
    else JudgeCapacity(config, input)
  }

  // The C function's cascade of early returns.
  method EvaluateTaskPackage(config: PolicyConfig, input: PolicyInput) returns (decision: Decision)
    ensures decision == Evaluate(config, input)
  {
    hide ModelFamily, Vendors, LevelIsValid, ScopeCoversAdapter, ModelMatchesAgent, NamesOneAgent;
    var family := ModelFamily(input.modelId);
    var a := input.autonomy;
    if a.level != "" {
      if !LevelIsValid(a.level) {
        return AutonomyRequired;
      }
      if a.level == "autonomous" {
        if a.revokedAtUnixMs > 0 {
          return AutonomyRevoked;
        }
        if a.ttlSeconds <= 0 || !ScopeCoversAdapter(a.scope) {
          return AutonomyRequired;
        }
        var grantStart := if a.createdAtUnixMs > 0 then a.createdAtUnixMs else input.nowUnixMs;
        if input.nowUnixMs > grantStart + a.ttlSeconds * 1000 {
          return AutonomyExpired;
        }
      }
    }
    if family.Some? {
      var blocked := VendorIsBlocked(config.blockedVendors, family.value);
      if blocked {
        return VendorBlocked;
      }
    }
    if family.Some? && NamesOneAgent(input.assignedAgent) && !ModelMatchesAgent(input.assignedAgent, family.value) {
      return ModelAgentMismatch;
    }
    if input.maxTokens > 0 && config.tokenTelemetryEnabled {
      if input.initiativeId != "" && config.tokenBudgetPerInitiative > 0 &&
         input.initiativeAllocatedTokens + input.maxTokens > config.tokenBudgetPerInitiative {
        return InitiativeBudget;
      }
      if family.Some? && config.tokenBudgetPerModelFamily > 0 &&
         input.modelFamilyAllocatedTokens + input.maxTokens > config.tokenBudgetPerModelFamily {
        return ModelFamilyBudget;
      }
      if config.tokenDailyBudget > 0 && input.dayWindowAllocatedTokens + input.maxTokens > config.tokenDailyBudget {
        return DailyBudget;
      }
      if config.tokenMonthlyBudget > 0 && input.monthWindowAllocatedTokens + input.maxTokens > config.tokenMonthlyBudget {
        return MonthlyBudget;
      }
    }
    if config.maxActiveTasksPerAgent > 0 && input.activeTasksForAgent >= config.maxActiveTasksPerAgent {
      return CapacityAgent;
    }
    if input.initiativeId != "" && config.maxTasksPerInitiative > 0 &&
       input.activeTasksForInitiative >= config.maxTasksPerInitiative {
      return CapacityInitiative;
    }
    return Allowed;
  }

  // Part stands somewhere in the text.
  ghost predicate Occurs(text: string, part: string) { exists k :: 0 <= k <= |text| && part <= text[k..] }

  lemma {:induction false} ContainsIff(text: string, part: string)
    ensures Contains(text, part) <==> Occurs(text, part)
  {
    if part <= text {
      assert text[0..] == text;
    } else if text != "" {
      ContainsIff(text[1..], part);
      if k :| 0 <= k <= |text| && part <= text[k..] {
        assert k > 0 && text[1..][k - 1..] == text[k..];
      }
      if k :| 0 <= k <= |text[1..]| && part <= text[1..][k..] {
        assert text[1..][k..] == text[k + 1..];
      }
    }
  }

  lemma ScopeIff(scope: string)
    ensures ScopeCoversAdapter(scope) <==> Occurs(scope, "workspace") || Occurs(scope, "adapter") || Occurs(scope, "*")
  {
    hide Contains, Occurs;
    ContainsIff(scope, "workspace");
    ContainsIff(scope, "adapter");
    ContainsIff(scope, "*");
  }

  // An autonomy level is known.
  predicate KnownLevel(level: string) { level == "observe" || level == "ask-each" || level == "ask-batch" || level == "autonomous" }

  // The agent's own vendor, for the three agents with one.
  predicate VendorFits(agent: string, family: string) {
    && (agent == "claude" ==> family == "anthropic") && (agent == "gemini" ==> family == "google")
    && (agent == "chatgpt" ==> family == "openai")
  }

  // The milliseconds at which an autonomous grant ends.
  function GrantExpiry(input: PolicyInput): int {
    if input.autonomy.createdAtUnixMs > 0 then input.autonomy.createdAtUnixMs + 1000 * input.autonomy.ttlSeconds
    else input.nowUnixMs + 1000 * input.autonomy.ttlSeconds
  }

  // The limits with their reasons, each on its own, in the order of precedence.
  ghost function Limits(config: PolicyConfig, input: PolicyInput): (limits: seq<(bool, Decision)>)
    ensures |limits| == 12
  {
    var a, family, asked := input.autonomy, ModelFamily(input.modelId), input.maxTokens;
    var asks := asked > 0 && config.tokenTelemetryEnabled;
    [ (a.level != "" && !KnownLevel(a.level), AutonomyRequired),
      (a.level == "autonomous" && a.revokedAtUnixMs > 0, AutonomyRevoked),
      (a.level == "autonomous" &&
         (a.ttlSeconds <= 0 || !(Occurs(a.scope, "workspace") || Occurs(a.scope, "adapter") || Occurs(a.scope, "*"))), AutonomyRequired),
      (a.level == "autonomous" && input.nowUnixMs > GrantExpiry(input), AutonomyExpired),
      (family.Some? && Listed(config.blockedVendors, family.value), VendorBlocked),
      (family.Some? && input.assignedAgent != "" && input.assignedAgent != "router" && input.assignedAgent != "all" &&
         !VendorFits(input.assignedAgent, family.value), ModelAgentMismatch),
      (asks && input.initiativeId != "" && config.tokenBudgetPerInitiative > 0 &&
         input.initiativeAllocatedTokens + asked > config.tokenBudgetPerInitiative, InitiativeBudget),
      (asks && family.Some? && config.tokenBudgetPerModelFamily > 0 &&
         input.modelFamilyAllocatedTokens + asked > config.tokenBudgetPerModelFamily, ModelFamilyBudget),
      (asks && config.tokenDailyBudget > 0 && input.dayWindowAllocatedTokens + asked > config.tokenDailyBudget, DailyBudget),
      (asks && config.tokenMonthlyBudget > 0 && input.monthWindowAllocatedTokens + asked > config.tokenMonthlyBudget, MonthlyBudget),
      (config.maxActiveTasksPerAgent > 0 && input.activeTasksForAgent >= config.maxActiveTasksPerAgent, CapacityAgent),
      (input.initiativeId != "" && config.maxTasksPerInitiative > 0 &&
         input.activeTasksForInitiative >= config.maxTasksPerInitiative, CapacityInitiative) ]
  }

  // The reason of the first limit that is broken.
  ghost function FirstBroken(limits: seq<(bool, Decision)>): Decision {
    if limits == [] then Allowed else if limits[0].0 then limits[0].1 else FirstBroken(limits[1..])
  }

  lemma FirstBrokenUnfolds(limits: seq<(bool, Decision)>, k: nat)
    requires k < |limits|
    ensures FirstBroken(limits[k..]) == if limits[k].0 then limits[k].1 else FirstBroken(limits[k + 1..])
  {
    assert limits[k..][1..] == limits[k + 1..];
  }

  lemma FirstBrokenOfTwelve(limits: seq<(bool, Decision)>)
    requires |limits| == 12
    ensures FirstBroken(limits) ==
            if limits[0].0 then limits[0].1 else if limits[1].0 then limits[1].1
            else if limits[2].0 then limits[2].1 else if limits[3].0 then limits[3].1
            else if limits[4].0 then limits[4].1 else if limits[5].0 then limits[5].1
            else if limits[6].0 then limits[6].1 else if limits[7].0 then limits[7].1
            else if limits[8].0 then limits[8].1 else if limits[9].0 then limits[9].1
            else if limits[10].0 then limits[10].1 else if limits[11].0 then limits[11].1 else Allowed
  {
    hide FirstBroken;
    assert limits[0..] == limits;
    FirstBrokenUnfolds(limits, 0);
    FirstBrokenUnfolds(limits, 1);
    FirstBrokenUnfolds(limits, 2);
    FirstBrokenUnfolds(limits, 3);
    FirstBrokenUnfolds(limits, 4);
    FirstBrokenUnfolds(limits, 5);
    FirstBrokenUnfolds(limits, 6);
    FirstBrokenUnfolds(limits, 7);
    FirstBrokenUnfolds(limits, 8);
    FirstBrokenUnfolds(limits, 9);
    FirstBrokenUnfolds(limits, 10);
    FirstBrokenUnfolds(limits, 11);
    NothingBroken(limits[12..]);
  }

  lemma NothingBroken(limits: seq<(bool, Decision)>)
    requires limits == []
    ensures FirstBroken(limits) == Allowed
  {
  }

  lemma FamilyIsNotEmpty(config: PolicyConfig, modelId: string)
    ensures ModelFamily(modelId).Some? ==>
              (ModelFamily(modelId).value in Vendors(config.blockedVendors) <==> Listed(config.blockedVendors, ModelFamily(modelId).value))
  {
    hide Vendors, Listed;
    if ModelFamily(modelId).Some? {
      VendorsIff(config.blockedVendors, ModelFamily(modelId).value);
    }
  }

  /** The decision is the reason of the first of the twelve limits that is broken, and Allowed when none is. */
  lemma DecidedByFirstBroken(config: PolicyConfig, input: PolicyInput)
    ensures Evaluate(config, input) == FirstBroken(Limits(config, input))
  {
    hide Vendors, Listed, ScopeCoversAdapter, ModelFamily, Occurs, FirstBroken;
    FirstBrokenOfTwelve(Limits(config, input));
    ScopeIff(input.autonomy.scope);
    FamilyIsNotEmpty(config, input.modelId);
    assert LevelIsValid("autonomous");
  }

  /** A package is allowed exactly when every switched-on limit leaves room for it; the order of the checks does not matter. */
  lemma AllowedIff(config: PolicyConfig, input: PolicyInput)
    ensures Evaluate(config, input) == Allowed <==>
            && (input.autonomy.level == "" || KnownLevel(input.autonomy.level))
            && (input.autonomy.level == "autonomous" ==>
                  && input.autonomy.revokedAtUnixMs <= 0 && input.autonomy.ttlSeconds > 0 && input.nowUnixMs <= GrantExpiry(input)
                  && (Occurs(input.autonomy.scope, "workspace") || Occurs(input.autonomy.scope, "adapter") || Occurs(input.autonomy.scope, "*")))
            && (ModelFamily(input.modelId).Some? ==>
                  && !Listed(config.blockedVendors, ModelFamily(input.modelId).value)
                  && (input.assignedAgent in ["", "router", "all"] || VendorFits(input.assignedAgent, ModelFamily(input.modelId).value)))
            && (input.maxTokens > 0 && config.tokenTelemetryEnabled ==>
                  && (input.initiativeId == "" || config.tokenBudgetPerInitiative <= 0 ||
                      input.initiativeAllocatedTokens + input.maxTokens <= config.tokenBudgetPerInitiative)
                  && (ModelFamily(input.modelId).None? || config.tokenBudgetPerModelFamily <= 0 ||
                      input.modelFamilyAllocatedTokens + input.maxTokens <= config.tokenBudgetPerModelFamily)
                  && (config.tokenDailyBudget <= 0 || input.dayWindowAllocatedTokens + input.maxTokens <= config.tokenDailyBudget)
                  && (config.tokenMonthlyBudget <= 0 || input.monthWindowAllocatedTokens + input.maxTokens <= config.tokenMonthlyBudget))
            && (config.maxActiveTasksPerAgent <= 0 || input.activeTasksForAgent < config.maxActiveTasksPerAgent)
            && (input.initiativeId == "" || config.maxTasksPerInitiative <= 0 || input.activeTasksForInitiative < config.maxTasksPerInitiative)
  {
    hide Evaluate, Occurs, Listed, ModelFamily, FirstBroken;
    DecidedByFirstBroken(config, input);
    FirstBrokenOfTwelve(Limits(config, input));
  }

  /** Every reason given is true: a limit with that reason is broken. */
  lemma ReasonsAreTrue(config: PolicyConfig, input: PolicyInput)
    ensures Evaluate(config, input) != Allowed ==>
              exists k :: 0 <= k < 12 && Limits(config, input)[k].0 && Limits(config, input)[k].1 == Evaluate(config, input)
  {
    hide Evaluate, Occurs, Listed, ModelFamily, FirstBroken;
    DecidedByFirstBroken(config, input);
    FirstBrokenOfTwelve(Limits(config, input));
  }

  // A prefix that fits the buffer is the family.
  lemma ShortFamilyIsWholePrefix(modelId: string, family: string)
    requires 0 < |family| < FAMILY_SIZE && '/' !in family && family + "/" <= modelId
    ensures ModelFamily(modelId) == Some(family)
  {
    BeforeSlashAt(modelId, family);
  }

  lemma {:induction false} BeforeSlashAt(modelId: string, family: string)
    requires '/' !in family && family + "/" <= modelId
    ensures BeforeSlash(modelId) == Some(family)
  {
    if family == "" {
      assert modelId[0] == '/';
    } else {
      assert modelId[0] == family[0];
      assert family[1..] + "/" <= modelId[1..] by {
        assert (family + "/")[1..] == family[1..] + "/";
      }
      assert modelId[0] != '/';
      BeforeSlashAt(modelId[1..], family[1..]);
      assert family == [family[0]] + family[1..];
    }
  }
}
