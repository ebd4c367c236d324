/**
 * Admission control in src/wt_roomd.c (preparePolicyInput, handlePostTaskPackage, handlePostTaskRequest), fed by
 * the sliding-window sums of src/wt_task_store.c and the active sums of src/wt_task_projection.c.
 * One request is one atomic step.
 */
module Admission {
  import opened Options
  import opened Ledger
  import opened Scanners
  import Leases
  import opened Projection
  import opened Policy

  // ----- wtTaskSummarizeTokenBudgets -----

  const DAY_MS: int := 24 * 60 * 60 * 1000
  const MONTH_MS: int := 30 * DAY_MS

  function AtLeastZero(n: int): nat { if n < 0 then 0 else n }

  predicate InWindow(r: Record, now: int, window: int)
    requires r.Package?
  {
    r.createdAt.GetOr(0) > 0 && r.createdAt.GetOr(0) >= now - window
  }

  function WindowTokens(r: Record, now: int, window: int): nat {
    if r.Package? && InWindow(r, now, window) then AtLeastZero(r.maxTokens.GetOr(0)) else 0
  }

  // The tokens of the packages whose creation time lies in the window that ends now.
  function WindowSum(ledger: seq<Record>, now: int, window: int): nat {
    if ledger == [] then 0
    else
      var n := |ledger| - 1;
      WindowSum(ledger[..n], now, window) + WindowTokens(ledger[n], now, window)
  }

  method SummarizeTokenBudgets(ledger: seq<Record>, now: int) returns (day: int, month: int)
    ensures day == WindowSum(ledger, now, DAY_MS) && month == WindowSum(ledger, now, MONTH_MS)
  {
    day, month := 0, 0;
    for n := 0 to |ledger|
      invariant day == WindowSum(ledger[..n], now, DAY_MS) && month == WindowSum(ledger[..n], now, MONTH_MS)
    {
      assert ledger[..n + 1][..n] == ledger[..n];
      var r := ledger[n];
      if r.Package? {
        var maxTokens := r.maxTokens.GetOr(0);
        if maxTokens < 0 {
          maxTokens := 0;
        }
        if InWindow(r, now, MONTH_MS) {
          month := month + maxTokens;
        }
        if InWindow(r, now, DAY_MS) {
          day := day + maxTokens;
        }
      }
    }
    assert ledger[..|ledger|] == ledger;
  }

  lemma WindowSumAppend(ledger: seq<Record>, r: Record, now: int, window: int)
    ensures WindowSum(ledger + [r], now, window) == WindowSum(ledger, now, window) + WindowTokens(r, now, window)
  {
    assert (ledger + [r])[..|ledger|] == ledger;
  }

  // As time passes packages only leave the window.
  lemma {:induction false} WindowOnlyShrinks(ledger: seq<Record>, now: int, later: int, window: int)
    requires now <= later
    ensures WindowSum(ledger, later, window) <= WindowSum(ledger, now, window)
  {
    if ledger != [] {
      WindowOnlyShrinks(ledger[..|ledger| - 1], now, later, window);
    }
  }

  // ----- The active sums and counts of the tasks table -----

  predicate Active(row: Row) { !Terminal(row.status) }

  function Total(rows: seq<Row>, weight: Row -> int): int {
    if rows == [] then 0 else Total(rows[..|rows| - 1], weight) + weight(rows[|rows| - 1])
  }

  // SQLite's LIKE: case-insensitive for ASCII letters, '%' stands for any text and '_' for any character.
  function LowerCase(c: char): char { if 'A' <= c <= 'Z' then c - 'A' + 'a' else c }

  predicate Like(pattern: string, s: string)
    decreases |pattern| + |s|
  {
    if pattern == "" then s == ""
    else if pattern[0] == '%' then Like(pattern[1..], s) || (s != "" && Like(pattern, s[1..]))
    else s != "" && (pattern[0] == '_' || LowerCase(pattern[0]) == LowerCase(s[0])) && Like(pattern[1..], s[1..])
  }

  predicate InFamily(modelId: string, family: string) { Like(family + "/%", modelId) }

  /**
   * What the caps limit, over the active rows: the tokens and the tasks of an initiative, the tokens of a model family,
   * the subtasks of a parent, and the tasks of an agent.
   */
  datatype Measure =
    | InitiativeTokens(initiative: string) | InitiativeTasks(initiative: string)
    | FamilyTokens(family: string) | Subtasks(parent: string) | AgentTasks(agent: string)

  predicate CountsTokens(m: Measure) { m.InitiativeTokens? || m.FamilyTokens? }

  // The measure's WHERE clause.
  predicate Covers(m: Measure, initiativeId: string, modelId: string, parentTaskId: string, assignedAgent: string) {
    match m
    case InitiativeTokens(i) => initiativeId == i
    case InitiativeTasks(i) => initiativeId == i
    case FamilyTokens(f) => InFamily(modelId, f)
    case Subtasks(p) => parentTaskId == p
    case AgentTasks(a) => assignedAgent == a
  }

  predicate CoversRow(m: Measure, row: Row) { Covers(m, row.initiativeId, row.modelId, row.parentTaskId, row.assignedAgent) }

  predicate Counts(m: Measure, row: Row) { Active(row) && CoversRow(m, row) }

  // SUM(max_tokens) or COUNT(*).
  function Weight(m: Measure): Row -> int {
    (row: Row) => if Counts(m, row) then if CountsTokens(m) then row.maxTokens else 1 else 0
  }

  function Measured(ledger: seq<Record>, m: Measure): int { Total(Rows(ledger), Weight(m)) }

  function AllocatedTokens(ledger: seq<Record>, initiative: string): int { Measured(ledger, InitiativeTokens(initiative)) }

  function ActiveTasks(ledger: seq<Record>, initiative: string): int { Measured(ledger, InitiativeTasks(initiative)) }

  // What one row, or none, adds to a total.
  function Share(row: Option<Row>, weight: Row -> int): int { if row.Some? then weight(row.value) else 0 }

  lemma {:induction false} TotalUpdate(rows: seq<Row>, i: nat, row: Row, weight: Row -> int)
    requires i < |rows|
    ensures Total(rows[i := row], weight) == Total(rows, weight) - weight(rows[i]) + weight(row)
  {
    var n := |rows| - 1;
    if i < n {
      TotalUpdate(rows[..n], i, row, weight);
      assert rows[i := row][..n] == rows[..n][i := row];
    } else {
      assert rows[i := row][..n] == rows[..n];
    }
  }

  // The task a record is about.
  predicate Concerns(r: Record, t: string) { (r.Package? || r.Event? || r.Request?) && r.taskId == t }

  lemma TotalRowsStep(rows: seq<Row>, r: Record, t: string, weight: Row -> int)
    requires Concerns(r, t)
    ensures Total(RowsStep(rows, r), weight) ==
            Total(rows, weight) - Share(Lookup(rows, t), weight) + Share(RowStep(Lookup(rows, t), r, t), weight)
  {
    hide IndexOf, UpsertPackage, UpdateForEvent;
    var i := IndexOf(rows, t);
    if i < |rows| {
      if r.Package? {
        TotalUpdate(rows, i, UpsertPackage(rows[i], r), weight);
      } else {
        TotalUpdate(rows, i, UpdateForEvent(rows[i], r), weight);
      }
    } else if r.Package? {
      var row := UpsertPackage(NewRow(t), r);
      assert (rows + [row])[..|rows|] == rows;
    }
  }

  /** A record changes a total exactly by what its task's row adds after and before it; other records change nothing. */
  lemma RecordChangesTotalByItsRow(ledger: seq<Record>, r: Record, weight: Row -> int)
    ensures var before, after := Total(Rows(ledger), weight), Total(Rows(ledger + [r]), weight);
            if r.Package? || r.Event? || r.Request?
            then after == before - Share(RowOf(ledger, r.taskId), weight) + Share(RowOf(ledger + [r], r.taskId), weight)
            else after == before
  {
    hide RowsStep, RowStep, Total, RowOf, Lookup;
    assert (ledger + [r])[..|ledger|] == ledger;
    assert Rows(ledger + [r]) == RowsStep(Rows(ledger), r);
    if r.Package? || r.Event? || r.Request? {
      TotalRowsStep(Rows(ledger), r, r.taskId, weight);
      TableIsFold(ledger, r.taskId);
      RowOfAppend(ledger, r, r.taskId);
    } else {
      OtherRecordsKeepRows(Rows(ledger), r);
    }
  }

  // ----- Requests -----

  /**
   * A posted body after routing: routedAgent and modelId are what routeAgentForTask and the model defaults made of
   * it, and capable is the host profile check. A package keeps the body's own model id for the ledger.
   */
  datatype Post =
    | PackagePost(
        taskId: string, initiativeId: string, bodyAgent: Option<string>, routedAgent: string, status: Option<Status>,
        executionHost: string, maxTokens: Option<int>, createdAt: Option<int>, dependencies: seq<string>,
        bodyModelId: string, modelId: string, parentTaskId: string, autonomy: Autonomy, capable: bool)
    | RequestPost(
        taskId: string, initiativeId: string, routedAgent: string, executionHost: string, maxTokens: Option<int>,
        parentTaskId: string, modelId: string, autonomy: Autonomy, capable: bool)

  // The tokens the evaluator is told of: a negative request counts as zero.
  function Asked(post: Post): nat {
    AtLeastZero(post.maxTokens.GetOr(if post.RequestPost? then 2000000 else 0))
  }

  predicate ShouldRoute(agent: string) { agent in ["", "all", "router"] }

  // The allocated tokens of the judged model's family.
  function FamilyAllocated(rows: seq<Row>, modelId: string): nat {
    var family := ModelFamily(modelId);
    if family.Some? then AtLeastZero(Total(rows, Weight(FamilyTokens(family.value)))) else 0
  }

  // preparePolicyInput
  function Prepared(ledger: seq<Record>, post: Post, now: int): PolicyInput {
    var rows, i := Rows(ledger), post.initiativeId;
    PolicyInput(
      post.routedAgent, post.modelId, i, post.autonomy, Asked(post), now,
      WindowSum(ledger, now, DAY_MS), WindowSum(ledger, now, MONTH_MS),
      if i != "" then AtLeastZero(Total(rows, Weight(InitiativeTokens(i)))) else 0,
      FamilyAllocated(rows, post.modelId),
      if post.routedAgent != "" then Total(rows, Weight(AgentTasks(post.routedAgent))) else 0,
      if i != "" then Total(rows, Weight(InitiativeTasks(i))) else 0)
  }

  datatype Answer = Accepted | Refused(decision: Decision) | CapabilityUnmet | AgentFull | InitiativeFull | ParentFull

  // enforceCapacity, for requests only.
  function Capacity(config: PolicyConfig, ledger: seq<Record>, post: Post): Answer
    requires post.RequestPost?
  {
    var rows := Rows(ledger);
    if config.maxActiveTasksPerAgent > 0 && Total(rows, Weight(AgentTasks(post.routedAgent))) >= config.maxActiveTasksPerAgent then AgentFull
    else if post.initiativeId != "" && config.maxTasksPerInitiative > 0 &&
            Total(rows, Weight(InitiativeTasks(post.initiativeId))) >= config.maxTasksPerInitiative then InitiativeFull
    else if post.parentTaskId != "" && config.maxSubtasksPerParent > 0 &&
            Total(rows, Weight(Subtasks(post.parentTaskId))) >= config.maxSubtasksPerParent then ParentFull
    else Accepted
  }

  function AnswerTo(config: PolicyConfig, ledger: seq<Record>, post: Post, now: int): Answer {
    var decision := Evaluate(config, Prepared(ledger, post, now));
    if decision != Allowed then Refused(decision)
    else if post.executionHost != "" && !post.capable then CapabilityUnmet
    else if post.RequestPost? then Capacity(config, ledger, post)
    else Accepted
  }

  // The package line of a posted package is the compacted body, so its tokens and its model id are the raw ones.
  function PackageOf(post: Post, now: int): Record {
    match post
    case PackagePost(t, i, bodyAgent, _, status, host, maxTokens, createdAt, dependencies, bodyModelId, _, parent, _, _) =>
      Package(t, bodyAgent, status, host, i, bodyModelId, parent, maxTokens, createdAt, dependencies)
    case RequestPost(t, i, agent, host, _, parent, modelId, _, _) =>
      Package(t, Some(agent), Some(Queued), host, i, modelId, parent, Some(Asked(post)), Some(now), [parent])
  }

  function AdmittedRecords(post: Post, now: int): seq<Record> {
    if post.RequestPost? then [Request(post.taskId, Some(post.routedAgent)), PackageOf(post, now)]
    else if ShouldRoute(post.routedAgent) then [PackageOf(post, now)]
    else [PackageOf(post, now), Event(post.taskId, Routing, Some(Assigned), Some(post.routedAgent), None, None)]
  }

  // A denial by policy or capability leaves a policy_decision record.
  function PostRecords(config: PolicyConfig, ledger: seq<Record>, post: Post, now: int): seq<Record> {
    match AnswerTo(config, ledger, post, now)
    case Accepted => AdmittedRecords(post, now)
    case Refused(_) => [OtherRecord]
    case CapabilityUnmet => [OtherRecord]
    case _ => []
  }

  method PreparePolicyInput(ledger: Leases.TaskLedger, db: Database, post: Post, now: int) returns (input: PolicyInput)
    requires db.tasks == Rows(ledger.records)
    ensures input == Prepared(ledger.records, post, now)
  {
    hide Rows, Total, WindowSum;
    var day, month := SummarizeTokenBudgets(ledger.records, now);
    var perInitiative, perFamily, activeAgent, activeInitiative := 0, 0, 0, 0;
    if post.initiativeId != "" {
      perInitiative := Total(db.tasks, Weight(InitiativeTokens(post.initiativeId)));
      if perInitiative < 0 {
        perInitiative := 0;
      }
    }
    var family := ModelFamily(post.modelId);
    if family.Some? {
      perFamily := Total(db.tasks, Weight(FamilyTokens(family.value)));
      if perFamily < 0 {
        perFamily := 0;
      }
    }
    if post.routedAgent != "" {
      activeAgent := Total(db.tasks, Weight(AgentTasks(post.routedAgent)));
    }
    if post.initiativeId != "" {
      activeInitiative := Total(db.tasks, Weight(InitiativeTasks(post.initiativeId)));
    }
    input := PolicyInput(post.routedAgent, post.modelId, post.initiativeId, post.autonomy, Asked(post), now,
                         day, month, perInitiative, perFamily, activeAgent, activeInitiative);
  }

  // handlePostTaskPackage and handlePostTaskRequest.
  method HandlePost(ledger: Leases.TaskLedger, db: Database, config: PolicyConfig, post: Post, now: int) returns (answer: Answer)
    modifies ledger, db
    ensures answer == AnswerTo(config, old(ledger.records), post, now)
    ensures ledger.records == old(ledger.records) + PostRecords(config, old(ledger.records), post, now)
    ensures db.tasks == Rows(old(ledger.records))
  {
    hide Rows, Evaluate, Total, WindowSum;
    db.Rebuild(ledger.records);
    var input := PreparePolicyInput(ledger, db, post, now);
    var decision := EvaluateTaskPackage(config, input);
    if decision != Allowed {
      ledger.AppendRecord(OtherRecord);
      return Refused(decision);
    }
    if post.executionHost != "" && !post.capable {
      ledger.AppendRecord(OtherRecord);
      return CapabilityUnmet;
    }
    if post.RequestPost? {
      var full := Capacity(config, ledger.records, post);
      if full != Accepted {
        assert ledger.records + [] == ledger.records;
        return full;
      }
      ledger.AppendRecord(Request(post.taskId, Some(post.routedAgent)));
      ledger.AppendRecord(PackageOf(post, now));
    } else {
      ledger.AppendRecord(PackageOf(post, now));
      if !ShouldRoute(post.routedAgent) {
        ledger.AppendRecord(Event(post.taskId, Routing, Some(Assigned), Some(post.routedAgent), None, None));
      }
    }
    return Accepted;
  }

  // ----- What the sums are -----

  /** A window grows with each package of positive tokens whose creation time is set and not before it, by those tokens. */
  lemma WindowGrows(ledger: seq<Record>, r: Record, now: int, window: int)
    ensures WindowSum([], now, window) == 0
    ensures WindowSum(ledger + [r], now, window) == WindowSum(ledger, now, window) +
            if r.Package? && r.createdAt.Some? && r.createdAt.value > 0 && r.createdAt.value + window >= now &&
               r.maxTokens.Some? && r.maxTokens.value > 0
            then r.maxTokens.value else 0
  {
    WindowSumAppend(ledger, r, now, window);
  }

  /** What a row counts for: its tokens for its initiative and its model's family, one for its initiative, parent and agent, until it is done. */
  lemma RowCounts(row: Row, name: string)
    ensures var open := row.status !in [Complete, Failed, Cancelled, Closed];
            && Weight(InitiativeTokens(name))(row) == (if open && row.initiativeId == name then row.maxTokens else 0)
            && Weight(FamilyTokens(name))(row) == (if open && InFamily(row.modelId, name) then row.maxTokens else 0)
            && Weight(InitiativeTasks(name))(row) == (if open && row.initiativeId == name then 1 else 0)
            && Weight(Subtasks(name))(row) == (if open && row.parentTaskId == name then 1 else 0)
            && Weight(AgentTasks(name))(row) == (if open && row.assignedAgent == name then 1 else 0)
  {
    hide InFamily;
  }

  // ----- What the answer depends on -----

  // What the evaluator is told, over the ledger: the requested tokens, the two windows that end now, and the active sums and counts.
  ghost function Judged(ledger: seq<Record>, post: Post, now: int): PolicyInput {
    var requested := post.maxTokens.GetOr(if post.RequestPost? then 2_000_000 else 0);
    var initiative, family := post.initiativeId, ModelFamily(post.modelId);
    PolicyInput(
      post.routedAgent, post.modelId, initiative, post.autonomy, if requested < 0 then 0 else requested, now,
      WindowSum(ledger, now, 86_400_000), WindowSum(ledger, now, 2_592_000_000),
      if initiative == "" || Measured(ledger, InitiativeTokens(initiative)) < 0 then 0 else Measured(ledger, InitiativeTokens(initiative)),
      if family.None? || Measured(ledger, FamilyTokens(family.value)) < 0 then 0 else Measured(ledger, FamilyTokens(family.value)),
      if post.routedAgent == "" then 0 else Measured(ledger, AgentTasks(post.routedAgent)),
      if initiative == "" then 0 else Measured(ledger, InitiativeTasks(initiative)))
  }

  lemma PreparedIsJudged(ledger: seq<Record>, post: Post, now: int)
    ensures Prepared(ledger, post, now) == Judged(ledger, post, now)
  {
    hide Rows, Total, WindowSum, ModelFamily, Weight;
  }

  // A request must fit each cap that is switched on; zero or less switches a cap off, and so does a blank name, except for agents.
  predicate AgentHasRoom(config: PolicyConfig, ledger: seq<Record>, agent: string) {
    config.maxActiveTasksPerAgent > 0 ==> Measured(ledger, AgentTasks(agent)) < config.maxActiveTasksPerAgent
  }

  predicate InitiativeHasRoom(config: PolicyConfig, ledger: seq<Record>, initiative: string) {
    initiative != "" && config.maxTasksPerInitiative > 0 ==> Measured(ledger, InitiativeTasks(initiative)) < config.maxTasksPerInitiative
  }

  predicate ParentHasRoom(config: PolicyConfig, ledger: seq<Record>, parent: string) {
    parent != "" && config.maxSubtasksPerParent > 0 ==> Measured(ledger, Subtasks(parent)) < config.maxSubtasksPerParent
  }

  /**
   * Every answer exactly: the policy's reason if one of its limits is broken; else that the host cannot do it; else, for
   * requests, the first of the three caps that has no room; else the posting is accepted.
   */
  lemma AnswerIff(config: PolicyConfig, ledger: seq<Record>, post: Post, now: int)
    ensures var reason := FirstBroken(Limits(config, Judged(ledger, post, now)));
            var able := post.executionHost == "" || post.capable;
            var answer := AnswerTo(config, ledger, post, now);
            && (answer == Refused(reason) <==> reason != Allowed)
            && (answer.Refused? ==> answer == Refused(reason))
            && (answer == CapabilityUnmet <==> reason == Allowed && !able)
            && (answer == AgentFull <==> reason == Allowed && able && post.RequestPost? && !AgentHasRoom(config, ledger, post.routedAgent))
            && (answer == InitiativeFull <==>
                  reason == Allowed && able && post.RequestPost? && AgentHasRoom(config, ledger, post.routedAgent) &&
                  !InitiativeHasRoom(config, ledger, post.initiativeId))
            && (answer == ParentFull <==>
                  reason == Allowed && able && post.RequestPost? && AgentHasRoom(config, ledger, post.routedAgent) &&
                  InitiativeHasRoom(config, ledger, post.initiativeId) && !ParentHasRoom(config, ledger, post.parentTaskId))
            && (answer == Accepted <==>
                  reason == Allowed && able &&
                  (post.RequestPost? ==>
                     && AgentHasRoom(config, ledger, post.routedAgent) && InitiativeHasRoom(config, ledger, post.initiativeId)
                     && ParentHasRoom(config, ledger, post.parentTaskId)))
  {
    hide Evaluate, FirstBroken, Limits, Prepared, Judged, Rows, Total, Weight;
    PreparedIsJudged(ledger, post, now);
    DecidedByFirstBroken(config, Prepared(ledger, post, now));
  }

  /** A posting is accepted exactly when it passes every rule that is switched on, over the ledger as it stands. */
  lemma AcceptedIff(config: PolicyConfig, ledger: seq<Record>, post: Post, now: int)
    ensures var a, family, input := post.autonomy, ModelFamily(post.modelId), Judged(ledger, post, now);
            AnswerTo(config, ledger, post, now) == Accepted <==>
            && (a.level == "" || KnownLevel(a.level))
            && (a.level == "autonomous" ==>
                  && a.revokedAtUnixMs <= 0 && a.ttlSeconds > 0
                  && now <= (if a.createdAtUnixMs > 0 then a.createdAtUnixMs else now) + 1000 * a.ttlSeconds
                  && (Occurs(a.scope, "workspace") || Occurs(a.scope, "adapter") || Occurs(a.scope, "*")))
            && (family.Some? ==>
                  && !Listed(config.blockedVendors, family.value)
                  && (post.routedAgent in ["", "router", "all"] || VendorFits(post.routedAgent, family.value)))
            && (input.maxTokens > 0 && config.tokenTelemetryEnabled ==>
                  && (post.initiativeId != "" && config.tokenBudgetPerInitiative > 0 ==>
                        input.initiativeAllocatedTokens + input.maxTokens <= config.tokenBudgetPerInitiative)
                  && (family.Some? && config.tokenBudgetPerModelFamily > 0 ==>
                        input.modelFamilyAllocatedTokens + input.maxTokens <= config.tokenBudgetPerModelFamily)
                  && (config.tokenDailyBudget > 0 ==> WindowSum(ledger, now, 86_400_000) + input.maxTokens <= config.tokenDailyBudget)
                  && (config.tokenMonthlyBudget > 0 ==>
                        WindowSum(ledger, now, 2_592_000_000) + input.maxTokens <= config.tokenMonthlyBudget))
            && (config.maxActiveTasksPerAgent > 0 ==> input.activeTasksForAgent < config.maxActiveTasksPerAgent)
            && InitiativeHasRoom(config, ledger, post.initiativeId)
            && (post.executionHost == "" || post.capable)
            && (post.RequestPost? ==> AgentHasRoom(config, ledger, post.routedAgent) && ParentHasRoom(config, ledger, post.parentTaskId))
  {
    hide Evaluate, Prepared, WindowSum, Measured, ModelFamily, Occurs, Listed, VendorFits, Limits, FirstBroken;
    hide AgentHasRoom, ParentHasRoom, KnownLevel, AnswerTo;
    var input := Judged(ledger, post, now);
    PreparedIsJudged(ledger, post, now);
    AnswerIff(config, ledger, post, now);
    DecidedByFirstBroken(config, input);
    AllowedIff(config, input);
  }

  /** A refused posting changes no sum: it leaves one decision record when the policy or the host refused it, else nothing. */
  lemma RefusedChangesNothing(config: PolicyConfig, ledger: seq<Record>, post: Post, clock: nat, now: int, window: int)
    requires AnswerTo(config, ledger, post, clock) != Accepted
    ensures var written := PostRecords(config, ledger, post, clock);
            var next := ledger + written;
            && |written| == (if AnswerTo(config, ledger, post, clock) in [AgentFull, InitiativeFull, ParentFull] then 0 else 1)
            && Rows(next) == Rows(ledger) && WindowSum(next, now, window) == WindowSum(ledger, now, window)
  {
    hide AnswerTo, WindowSum, Rows;
    var written := PostRecords(config, ledger, post, clock);
    if written == [] {
      assert ledger + written == ledger;
    } else {
      assert written == [OtherRecord];
      WindowSumAppend(ledger, OtherRecord, now, window);
      OtherRecordKeepsRows(ledger);
    }
  }

  lemma OtherRecordKeepsRows(ledger: seq<Record>)
    ensures Rows(ledger + [OtherRecord]) == Rows(ledger)
  {
    assert (ledger + [OtherRecord])[..|ledger|] == ledger;
  }

  lemma AdmittedFold(ledger: seq<Record>, post: Post, clock: nat, agent: string, host: string, now: int)
    requires post.RequestPost? || !ShouldRoute(post.routedAgent)
    ensures var e := Fold(HostScan, ledger + AdmittedRecords(post, clock), post.taskId);
            && e.Some?
            && (OfferedOnHost(e.value, agent, host, now) <==>
                agent == post.routedAgent && (post.executionHost == "" || post.executionHost == host))
  {
    hide Fold;
    var written := AdmittedRecords(post, clock);
    FoldStep(HostScan, ledger, written[0], post.taskId);
    FoldStep(HostScan, ledger + [written[0]], written[1], post.taskId);
    assert ledger + written == ledger + [written[0]] + [written[1]];
  }

  /**
   * An admitted task that was routed to an agent, also one that had finished before, is at once what the host scan
   * returns to that agent on the host it asks for, or on any, unless an earlier task is offered first; it is returned
   * to nobody else. With at most 256 tasks the agent gets some task.
   */
  lemma AdmittedTaskIsOfferedToItsAgent(ledger: seq<Record>, post: Post, clock: nat, agent: string, host: string, now: int)
    requires post.RequestPost? || !ShouldRoute(post.routedAgent)
    ensures var next := ledger + AdmittedRecords(post, clock);
            var offer, fits := HostOffer(next, agent, host, now), post.executionHost == "" || post.executionHost == host;
            && (offer.Some? && offer.value.taskId == post.taskId <==>
                agent == post.routedAgent && fits && NothingEarlier(HostScan, next, post.taskId, e => OfferedOnHost(e, agent, host, now)))
            && (agent == post.routedAgent && fits && |Packaged(next)| <= TABLE_SIZE ==> offer.Some?)
  {
    hide Fold, Packaged, Table, First, AdmittedRecords, OfferedOnHost;
    var next := ledger + AdmittedRecords(post, clock);
    AdmittedFold(ledger, post, clock, agent, host, now);
    ScanFindsIff(HostScan, next, post.taskId, e => OfferedOnHost(e, agent, host, now));
    ScanRefinesFold(HostScan, next, e => OfferedOnHost(e, agent, host, now));
    PackagedIffFold(HostScan, next, post.taskId);
  }

  // ----- Runs -----

  datatype Action = Admit(post: Post) | Write(record: Record)

  datatype Step = Step(action: Action, clock: nat)

  // Only admissions write packages, and the clock never goes back.
  predicate IsRun(steps: seq<Step>) {
    && (forall i :: 0 <= i < |steps| && steps[i].action.Write? ==> !steps[i].action.record.Package?)
    && (forall i, j :: 0 <= i < j < |steps| ==> steps[i].clock <= steps[j].clock)
  }

  function StepRecords(config: PolicyConfig, ledger: seq<Record>, step: Step): seq<Record> {
    match step.action
    case Admit(post) => PostRecords(config, ledger, post, step.clock)
    case Write(r) => [r]
  }

  function RunLedger(config: PolicyConfig, steps: seq<Step>): seq<Record> {
    if steps == [] then []
    else
      var before := RunLedger(config, steps[..|steps| - 1]);
      before + StepRecords(config, before, steps[|steps| - 1])
  }

  // ----- Sliding windows -----

  // A posting adds at most what it asked for to the sum of any window.
  lemma PostAddsAtMostAsked(config: PolicyConfig, ledger: seq<Record>, post: Post, clock: nat, now: int, window: int)
    ensures WindowSum(ledger + PostRecords(config, ledger, post, clock), now, window) <=
            WindowSum(ledger, now, window) + if AnswerTo(config, ledger, post, clock) == Accepted then Asked(post) else 0
  {
    hide AnswerTo, WindowSum;
    var written := PostRecords(config, ledger, post, clock);
    if |written| == 2 {
      WindowSumAppend(ledger, written[0], now, window);
      WindowSumAppend(ledger + [written[0]], written[1], now, window);
      assert ledger + written == ledger + [written[0]] + [written[1]];
    } else if |written| == 1 {
      WindowSumAppend(ledger, written[0], now, window);
    } else {
      assert ledger + written == ledger;
    }
  }

  predicate WithinBudget(sum: int, budget: int) { budget > 0 ==> sum <= budget }

  // What the policy promises about the windows at the moment of admission.
  lemma AdmissionFitsWindows(config: PolicyConfig, ledger: seq<Record>, post: Post, clock: nat)
    requires config.tokenTelemetryEnabled && AnswerTo(config, ledger, post, clock) == Accepted && Asked(post) > 0
    ensures WithinBudget(WindowSum(ledger, clock, DAY_MS) + Asked(post), config.tokenDailyBudget)
    ensures WithinBudget(WindowSum(ledger, clock, MONTH_MS) + Asked(post), config.tokenMonthlyBudget)
  {
    hide WindowSum, Rows, Total, Evaluate, Capacity;
    AllowedIff(config, Prepared(ledger, post, clock));
  }

  // Both windows are within their budgets when measured now.
  predicate WindowsFit(config: PolicyConfig, ledger: seq<Record>, now: int) {
    && WithinBudget(WindowSum(ledger, now, DAY_MS), config.tokenDailyBudget)
    && WithinBudget(WindowSum(ledger, now, MONTH_MS), config.tokenMonthlyBudget)
  }

  lemma StepKeepsWindows(config: PolicyConfig, ledger: seq<Record>, step: Step)
    requires config.tokenTelemetryEnabled && WindowsFit(config, ledger, step.clock)
    requires step.action.Write? ==> !step.action.record.Package?
    ensures WindowsFit(config, ledger + StepRecords(config, ledger, step), step.clock)
  {
    hide WindowSum, AnswerTo, PostRecords;
    match step.action
    case Write(r) =>
      WindowSumAppend(ledger, r, step.clock, DAY_MS);
      WindowSumAppend(ledger, r, step.clock, MONTH_MS);
    case Admit(post) =>
      PostAddsAtMostAsked(config, ledger, post, step.clock, step.clock, DAY_MS);
      PostAddsAtMostAsked(config, ledger, post, step.clock, step.clock, MONTH_MS);
      if AnswerTo(config, ledger, post, step.clock) == Accepted && Asked(post) > 0 {
        AdmissionFitsWindows(config, ledger, post, step.clock);
      }
  }

  lemma WindowsFitLater(config: PolicyConfig, ledger: seq<Record>, now: int, later: int)
    requires WindowsFit(config, ledger, now) && now <= later
    ensures WindowsFit(config, ledger, later)
  {
    hide WindowSum;
    WindowOnlyShrinks(ledger, now, later, DAY_MS);
    WindowOnlyShrinks(ledger, now, later, MONTH_MS);
  }

  lemma NothingAllocated(config: PolicyConfig, now: int)
    ensures WindowsFit(config, [], now)
  {
  }

  /**
   * In every run the allocations measured over the last 24 hours and the last 30 days stay within their
   * budgets at every later time, whatever creation times the packages carry.
   */
  lemma {:induction false} WindowsStayWithinBudgets(config: PolicyConfig, steps: seq<Step>, now: int)
    requires IsRun(steps) && config.tokenTelemetryEnabled
    requires steps != [] ==> steps[|steps| - 1].clock <= now
    ensures WindowsFit(config, RunLedger(config, steps), now)
  {
    hide WindowsFit, StepRecords;
    if steps == [] {
      NothingAllocated(config, now);
    } else {
      var n := |steps| - 1;
      var before, step := RunLedger(config, steps[..n]), steps[n];
      WindowsStayWithinBudgets(config, steps[..n], step.clock);
      StepKeepsWindows(config, before, step);
      WindowsFitLater(config, RunLedger(config, steps), step.clock, now);
    }
  }

  /**
   * Which admitted packages a window measures: exactly those whose creation time is positive and not before the window.
   * Any other escapes measurement, whatever it asks for.
   */
  lemma PackageIsMeasuredIff(ledger: seq<Record>, post: Post, clock: nat, now: int, window: int)
    requires Asked(post) > 0
    ensures var createdAt := if post.RequestPost? then clock else post.createdAt.GetOr(0);
            var before, after := WindowSum(ledger, now, window), WindowSum(ledger + AdmittedRecords(post, clock), now, window);
            && (after == before || after == before + Asked(post))
            && (after == before + Asked(post) <==> createdAt > 0 && createdAt >= now - window)
  {
    hide WindowSum;
    var written := AdmittedRecords(post, clock);
    WindowSumAppend(ledger, written[0], now, window);
    if |written| == 2 {
      WindowSumAppend(ledger + [written[0]], written[1], now, window);
      assert ledger + written == ledger + [written[0]] + [written[1]];
    } else {
      assert written == [written[0]];
    }
  }

  // ----- Caps -----

  predicate RowsNonNegative(ledger: seq<Record>) {
    forall k :: 0 <= k < |ledger| && ledger[k].Package? ==> ledger[k].maxTokens.GetOr(0) >= 0
  }

  lemma {:induction false} RowTokensNonNegative(ledger: seq<Record>, t: string)
    requires RowsNonNegative(ledger)
    ensures RowOf(ledger, t).Some? ==> RowOf(ledger, t).value.maxTokens >= 0
  {
    if ledger != [] {
      RowTokensNonNegative(ledger[..|ledger| - 1], t);
    }
  }

  // The record makes an inactive task active again.
  predicate Reactivates(ledger: seq<Record>, r: Record) {
    Concerns(r, TaskOf(r)) && RowOf(ledger, TaskOf(r)).Some? && !Active(RowOf(ledger, TaskOf(r)).value) &&
    RowOf(ledger + [r], TaskOf(r)).Some? && Active(RowOf(ledger + [r], TaskOf(r)).value)
  }

  function TaskOf(r: Record): string { if r.Package? || r.Event? || r.Request? then r.taskId else "" }

  // Requests are non-negative and no other record moves a task from terminal back to active.
  predicate IsOrderly(config: PolicyConfig, steps: seq<Step>) {
    && IsRun(steps)
    && (forall i :: 0 <= i < |steps| && steps[i].action.Admit? ==> steps[i].action.post.maxTokens.GetOr(0) >= 0)
    && (forall i :: 0 <= i < |steps| && steps[i].action.Write? ==>
          !Reactivates(RunLedger(config, steps[..i]), steps[i].action.record))
  }

  // The record brings a task into the measure that did not count there before.
  predicate Enters(ledger: seq<Record>, r: Record, m: Measure) {
    var before, after := RowOf(ledger, TaskOf(r)), RowOf(ledger + [r], TaskOf(r));
    Concerns(r, TaskOf(r)) && after.Some? && Counts(m, after.value) && !(before.Some? && Counts(m, before.value))
  }

  // Except for agents, only a reactivation brings a task into a measure.
  lemma OnlyReactivationEnters(ledger: seq<Record>, r: Record, m: Measure)
    requires !r.Package? && !m.AgentTasks? && Enters(ledger, r, m)
    ensures Reactivates(ledger, r)
  {
    hide RowOf, InFamily;
    RowOfAppend(ledger, r, TaskOf(r));
  }

  lemma WriteRaisesNothing(ledger: seq<Record>, r: Record, m: Measure)
    requires !r.Package? && RowsNonNegative(ledger) && !Enters(ledger, r, m)
    ensures Measured(ledger + [r], m) <= Measured(ledger, m)
  {
    hide Rows, RowOf, Total, Counts;
    RecordChangesTotalByItsRow(ledger, r, Weight(m));
    if r.Event? || r.Request? {
      RowTokensNonNegative(ledger, r.taskId);
      RowOfAppend(ledger, r, r.taskId);
    }
  }

  function StoredModel(post: Post): string { if post.PackagePost? then post.bodyModelId else post.modelId }

  // The agent the row holds after the posting's records; the routing event updates no row without a task id.
  function StoredAgent(post: Post): string {
    var chosen := post.routedAgent != "" && post.routedAgent != "all" && post.routedAgent != "router";
    if post.PackagePost? && (!chosen || post.taskId == "") then post.bodyAgent.GetOr("all") else post.routedAgent
  }

  // The status the row holds after the posting's records.
  function FinalStatus(post: Post): Status {
    if post.RequestPost? then Queued
    else if post.routedAgent != "" && post.routedAgent != "all" && post.routedAgent != "router" && post.taskId != "" then Assigned
    else post.status.GetOr(Queued)
  }

  // The tokens the row holds after the posting's records.
  function StoredTokens(post: Post): int { if post.RequestPost? then Asked(post) else post.maxTokens.GetOr(0) }

  predicate CoversPost(m: Measure, post: Post) {
    Covers(m, post.initiativeId, StoredModel(post), post.parentTaskId, StoredAgent(post))
  }

  // What a posting adds to a measure, and what it takes from it when the task was posted before.
  function PostAdds(m: Measure, post: Post): int {
    if Terminal(FinalStatus(post)) || !CoversPost(m, post) then 0 else if CountsTokens(m) then StoredTokens(post) else 1
  }

  function PostOverwrites(ledger: seq<Record>, m: Measure, post: Post): int { Share(RowOf(ledger, post.taskId), Weight(m)) }

  /** An admitted posting, its routing event included, changes every measure exactly by what it stores less what it overwrites. */
  lemma PostingChangesMeasure(ledger: seq<Record>, post: Post, clock: nat, m: Measure)
    ensures Measured(ledger + AdmittedRecords(post, clock), m) == Measured(ledger, m) - PostOverwrites(ledger, m, post) + PostAdds(m, post)
  {
    hide Rows, RowOf, Total, InFamily;
    var t, written := post.taskId, AdmittedRecords(post, clock);
    RowOfAppend(ledger, written[0], t);
    RecordChangesTotalByItsRow(ledger, written[0], Weight(m));
    if |written| == 2 {
      var middle := ledger + [written[0]];
      RowOfAppend(middle, written[1], t);
      RecordChangesTotalByItsRow(middle, written[1], Weight(m));
      assert ledger + written == middle + [written[1]];
    } else {
      assert written == [written[0]];
    }
  }

  /** What a posting appends: a request and its package, or the package and, once an agent is chosen, the routing event. */
  lemma PostingWrites(post: Post, clock: nat)
    ensures var written := AdmittedRecords(post, clock);
            var chosen := post.routedAgent != "" && post.routedAgent != "all" && post.routedAgent != "router";
            && (post.RequestPost? ==>
                  && |written| == 2 && written[0] == Request(post.taskId, Some(post.routedAgent)) && written[1].Package?
                  && written[1].agent == Some(post.routedAgent) && written[1].status == Some(Queued) && written[1].createdAt == Some(clock)
                  && written[1].dependencies == [post.parentTaskId])
            && (post.PackagePost? ==>
                  && |written| == (if chosen then 2 else 1) && written[0].Package?
                  && written[0].agent == post.bodyAgent && written[0].status == post.status && written[0].createdAt == post.createdAt
                  && written[0].maxTokens == post.maxTokens && written[0].dependencies == post.dependencies
                  && (chosen ==> written[1] == Event(post.taskId, Routing, Some(Assigned), Some(post.routedAgent), None, None)))
  {
  }

  // What the row of the posted task holds afterwards; no other row changes.
  lemma PostingStores(ledger: seq<Record>, post: Post, clock: nat)
    ensures var next := ledger + AdmittedRecords(post, clock);
            && RowOf(next, post.taskId).Some?
            && var row := RowOf(next, post.taskId).value;
               && row.status == FinalStatus(post) && row.maxTokens == StoredTokens(post) && row.initiativeId == post.initiativeId
               && row.modelId == StoredModel(post) && row.parentTaskId == post.parentTaskId && row.assignedAgent == StoredAgent(post)
    ensures forall u :: u != post.taskId ==> RowOf(ledger + AdmittedRecords(post, clock), u) == RowOf(ledger, u)
  {
    hide RowOf;
    var written := AdmittedRecords(post, clock);
    var middle := ledger + [written[0]];
    assert ledger + written == if |written| == 2 then middle + [written[1]] else middle;
    forall u
      ensures RowOf(middle, u) == RowStep(RowOf(ledger, u), written[0], u)
      ensures |written| == 2 ==> RowOf(ledger + written, u) == RowStep(RowOf(middle, u), written[1], u)
    {
      RowOfAppend(ledger, written[0], u);
      if |written| == 2 {
        RowOfAppend(middle, written[1], u);
      }
    }
  }

  /** When an admitted posting keeps a cap: exactly when what it stores, less what it overwrites, still fits. */
  lemma PostingKeepsCapIff(config: PolicyConfig, ledger: seq<Record>, post: Post, clock: nat, m: Measure, cap: int)
    requires AnswerTo(config, ledger, post, clock) == Accepted
    ensures Measured(ledger + PostRecords(config, ledger, post, clock), m) <= cap <==>
            Measured(ledger, m) - PostOverwrites(ledger, m, post) + PostAdds(m, post) <= cap
  {
    hide AnswerTo, Measured, PostOverwrites, PostAdds, AdmittedRecords;
    PostingChangesMeasure(ledger, post, clock, m);
  }

  // The most a posting may add to a measure: what it asked for, or one task, if its package counts there at all.
  function Added(m: Measure, post: Post): nat {
    if !CoversPost(m, post) then 0 else if CountsTokens(m) then Asked(post) else 1
  }

  /** An admission adds at most its request, or one task, and only to the measures its package counts for, also when the task existed. */
  lemma AdmissionRaisesItsMeasuresOnly(ledger: seq<Record>, post: Post, clock: nat, m: Measure)
    requires RowsNonNegative(ledger) && post.maxTokens.GetOr(0) >= 0
    ensures Measured(ledger + AdmittedRecords(post, clock), m) <= Measured(ledger, m) + Added(m, post)
  {
    hide Rows, RowOf, Total, CoversPost, Counts, AdmittedRecords, Measured;
    RowTokensNonNegative(ledger, post.taskId);
    PostingChangesMeasure(ledger, post, clock, m);
  }

  // The configured cap of a measure; zero or less switches it off.
  function CapOf(config: PolicyConfig, m: Measure): int {
    match m
    case InitiativeTokens(_) => if config.tokenTelemetryEnabled then config.tokenBudgetPerInitiative else 0
    case InitiativeTasks(_) => config.maxTasksPerInitiative
    case FamilyTokens(_) => if config.tokenTelemetryEnabled then config.tokenBudgetPerModelFamily else 0
    case Subtasks(_) => config.maxSubtasksPerParent
    case AgentTasks(_) => config.maxActiveTasksPerAgent
  }

  predicate WithinCap(config: PolicyConfig, ledger: seq<Record>, m: Measure) { WithinBudget(Measured(ledger, m), CapOf(config, m)) }

  // The initiative, the parent and the agent are named, and the family is one that LIKE takes literally.
  predicate IsPlainFamily(f: string) { 0 < |f| < FAMILY_SIZE && '/' !in f && '%' !in f && '_' !in f }

  predicate Proper(m: Measure) {
    match m
    case InitiativeTokens(i) => i != ""
    case InitiativeTasks(i) => i != ""
    case FamilyTokens(f) => IsPlainFamily(f)
    case Subtasks(p) => p != ""
    case AgentTasks(a) => a != ""
  }

  // The handler judges the measure by what the ledger will store: a package of the family by its own model id, a
  // package of the agent by that agent, and a package of the parent as a request.
  predicate JudgedFor(m: Measure, post: Post) {
    match m
    case FamilyTokens(f) => InFamily(StoredModel(post), f) ==> post.modelId == StoredModel(post)
    case Subtasks(p) => post.parentTaskId == p ==> post.RequestPost?
    case AgentTasks(a) => StoredAgent(post) == a ==> post.routedAgent == a
    case _ => true
  }

  // ----- Model families -----

  lemma {:induction false} LikeAny(s: string)
    ensures Like("%", s)
  {
    if s != "" {
      LikeAny(s[1..]);
    }
  }

  predicate SameLetters(f: string, g: string) { |f| == |g| && forall k :: 0 <= k < |f| ==> LowerCase(f[k]) == LowerCase(g[k]) }

  lemma {:induction false} InFamilyIff(modelId: string, f: string)
    requires '%' !in f && '_' !in f
    ensures InFamily(modelId, f) <==> |f| < |modelId| && SameLetters(f, modelId[..|f|]) && modelId[|f|] == '/'
  {
    var pattern := f + "/%";
    if f == "" {
      assert pattern == "/%" && "/%"[1..] == "%";
      if modelId != "" {
        LikeAny(modelId[1..]);
      }
    } else {
      assert pattern[1..] == f[1..] + "/%";
      if modelId != "" {
        InFamilyIff(modelId[1..], f[1..]);
        if |f| < |modelId| {
          assert modelId[1..][..|f| - 1] == modelId[..|f|][1..];
          SameLettersCons(f, modelId[..|f|]);
        }
      }
    }
  }

  lemma SameLettersCons(f: string, g: string)
    requires f != "" && |f| == |g|
    ensures SameLetters(f, g) <==> LowerCase(f[0]) == LowerCase(g[0]) && SameLetters(f[1..], g[1..])
  {
    if LowerCase(f[0]) == LowerCase(g[0]) && SameLetters(f[1..], g[1..]) {
      forall k | 0 <= k < |f|
        ensures LowerCase(f[k]) == LowerCase(g[k])
      {
        if k > 0 {
          assert f[k] == f[1..][k - 1] && g[k] == g[1..][k - 1];
        }
      }
    }
    if SameLetters(f, g) {
      forall k | 0 <= k < |f| - 1
        ensures LowerCase(f[1..][k]) == LowerCase(g[1..][k])
      {
        assert f[k + 1] == f[1..][k] && g[k + 1] == g[1..][k];
      }
    }
  }

  // The same character, or the same ASCII letter in the other case.
  predicate SameLetter(c: char, d: char) {
    c == d || ('A' <= c <= 'Z' && d as int == c as int + 32) || ('A' <= d <= 'Z' && c as int == d as int + 32)
  }

  lemma LowerCaseIff(c: char, d: char)
    ensures LowerCase(c) == LowerCase(d) <==> SameLetter(c, d)
  {
  }

  /** The LIKE pattern of a family selects the model ids that start with its letters, in either case, and a slash. */
  lemma InFamilyMeans(modelId: string, f: string)
    requires '%' !in f && '_' !in f
    ensures InFamily(modelId, f) <==>
            |f| < |modelId| && modelId[|f|] == '/' && forall k :: 0 <= k < |f| ==> SameLetter(f[k], modelId[k])
  {
    hide InFamily, LowerCase, SameLetter;
    InFamilyIff(modelId, f);
    if |f| < |modelId| {
      forall k | 0 <= k < |f|
        ensures LowerCase(f[k]) == LowerCase(modelId[..|f|][k]) <==> SameLetter(f[k], modelId[k])
      {
        LowerCaseIff(f[k], modelId[k]);
      }
    }
  }

  // Letters of either case make the same family.
  lemma SameFamily(f: string, g: string, modelId: string)
    requires '%' !in f && '_' !in f && SameLetters(f, g)
    ensures InFamily(modelId, f) <==> InFamily(modelId, g)
  {
    forall c | c in g
      ensures c != '%' && c != '_'
    {
      var k :| 0 <= k < |g| && g[k] == c;
      assert LowerCase(f[k]) == LowerCase(c) && f[k] in f;
    }
    InFamilyIff(modelId, f);
    InFamilyIff(modelId, g);
    if |f| < |modelId| {
      var p := modelId[..|f|];
      assert SameLetters(f, p) ==> forall k :: 0 <= k < |f| ==> LowerCase(g[k]) == LowerCase(p[k]);
      assert SameLetters(g, p) ==> forall k :: 0 <= k < |f| ==> LowerCase(f[k]) == LowerCase(p[k]);
    }
  }

  // The family that the policy reads off a model id of the family is the family, up to case.
  lemma FamilyOfMember(modelId: string, f: string) returns (g: string)
    requires IsPlainFamily(f) && InFamily(modelId, f)
    ensures ModelFamily(modelId) == Some(g) && SameLetters(f, g)
  {
    InFamilyIff(modelId, f);
    g := modelId[..|f|];
    forall c | c in g
      ensures c != '/'
    {
      var k :| 0 <= k < |g| && g[k] == c;
      assert LowerCase(f[k]) == LowerCase(c) && f[k] in f;
    }
    assert g + "/" == modelId[..|f| + 1];
    ShortFamilyIsWholePrefix(modelId, g);
  }

  lemma {:induction false} TotalSame(rows: seq<Row>, v: Row -> int, w: Row -> int)
    requires forall k :: 0 <= k < |rows| ==> v(rows[k]) == w(rows[k])
    ensures Total(rows, v) == Total(rows, w)
  {
    if rows != [] {
      TotalSame(rows[..|rows| - 1], v, w);
    }
  }

  lemma FamilyTotal(rows: seq<Row>, f: string, g: string)
    requires '%' !in f && '_' !in f && SameLetters(f, g)
    ensures Total(rows, Weight(FamilyTokens(f))) == Total(rows, Weight(FamilyTokens(g)))
  {
    hide InFamily, SameLetters, Total;
    forall k | 0 <= k < |rows|
      ensures Weight(FamilyTokens(f))(rows[k]) == Weight(FamilyTokens(g))(rows[k])
    {
      SameFamily(f, g, rows[k].modelId);
    }
    TotalSame(rows, Weight(FamilyTokens(f)), Weight(FamilyTokens(g)));
  }

  // ----- The caps over runs -----

  lemma AdmissionFitsFamily(config: PolicyConfig, ledger: seq<Record>, post: Post, clock: nat, f: string)
    requires IsPlainFamily(f) && InFamily(post.modelId, f) && Asked(post) > 0 && config.tokenTelemetryEnabled
    requires AnswerTo(config, ledger, post, clock) == Accepted
    ensures WithinBudget(Measured(ledger, FamilyTokens(f)) + Asked(post), config.tokenBudgetPerModelFamily)
  {
    hide WindowSum, Rows, Total, Evaluate, Capacity, InFamily, ModelFamily, Vendors, IsPlainFamily, SameLetters;
    AllowedIff(config, Prepared(ledger, post, clock));
    var g := FamilyOfMember(post.modelId, f);
    PlainFamilyParts(f);
    FamilyTotal(Rows(ledger), f, g);
  }

  lemma PlainFamilyParts(f: string)
    requires IsPlainFamily(f)
    ensures '%' !in f && '_' !in f
  {
  }

  lemma AdmissionFitsCap(config: PolicyConfig, ledger: seq<Record>, post: Post, clock: nat, m: Measure)
    requires Proper(m) && JudgedFor(m, post) && Added(m, post) > 0
    requires AnswerTo(config, ledger, post, clock) == Accepted
    ensures WithinBudget(Measured(ledger, m) + Added(m, post), CapOf(config, m))
  {
    match m
    case FamilyTokens(f) =>
      hide AnswerTo, Measured, InFamily;
      if config.tokenTelemetryEnabled {
        AdmissionFitsFamily(config, ledger, post, clock, f);
      }
    case Subtasks(p) =>
      hide WindowSum, Rows, Total, Evaluate;
      assert post.parentTaskId == p;
    case InitiativeTokens(i) =>
      hide WindowSum, Rows, Total, Evaluate, Capacity, Vendors, ModelFamily;
      AllowedIff(config, Prepared(ledger, post, clock));
    case InitiativeTasks(i) =>
      hide WindowSum, Rows, Total, Evaluate, Capacity, Vendors, ModelFamily;
      AllowedIff(config, Prepared(ledger, post, clock));
    case AgentTasks(a) =>
      hide WindowSum, Rows, Total, Evaluate, Capacity, Vendors, ModelFamily;
      AllowedIff(config, Prepared(ledger, post, clock));
  }

  lemma PostKeepsCap(config: PolicyConfig, ledger: seq<Record>, post: Post, clock: nat, m: Measure)
    requires Proper(m) && JudgedFor(m, post)
    requires RowsNonNegative(ledger) && post.maxTokens.GetOr(0) >= 0 && WithinCap(config, ledger, m)
    ensures RowsNonNegative(ledger + PostRecords(config, ledger, post, clock))
    ensures WithinCap(config, ledger + PostRecords(config, ledger, post, clock), m)
  {
    hide AnswerTo, Measured, Added, CapOf, Proper, JudgedFor;
    var answer := AnswerTo(config, ledger, post, clock);
    if answer == Accepted {
      AdmissionRaisesItsMeasuresOnly(ledger, post, clock, m);
      if Added(m, post) > 0 {
        AdmissionFitsCap(config, ledger, post, clock, m);
      }
    } else if answer.Refused? || answer == CapabilityUnmet {
      WriteRaisesNothing(ledger, OtherRecord, m);
    } else {
      assert ledger + [] == ledger;
    }
  }

  // Requests are non-negative and judged for the measure, and no other record brings a task into it.
  predicate IsOrderlyFor(config: PolicyConfig, steps: seq<Step>, m: Measure) {
    && IsRun(steps)
    && (forall i :: 0 <= i < |steps| ==> OrderlyStep(RunLedger(config, steps[..i]), steps[i], m))
  }

  // One such step.
  predicate OrderlyStep(ledger: seq<Record>, step: Step, m: Measure) {
    match step.action
    case Admit(post) => post.maxTokens.GetOr(0) >= 0 && JudgedFor(m, post)
    case Write(r) => !r.Package? && !Enters(ledger, r, m)
  }

  /**
   * In every run that is orderly for a measure it stays within its cap, also when a package is posted again for a task
   * that exists. Any initiative is judged by what is stored; a model family is when each of its packages was judged by
   * the model id it stores, a parent when each subtask was requested, an agent when the router left each package with it.
   */
  lemma {:induction false} MeasuresStayWithinCaps(config: PolicyConfig, steps: seq<Step>, m: Measure)
    requires Proper(m) && IsOrderlyFor(config, steps, m)
    ensures WithinCap(config, RunLedger(config, steps), m) && RowsNonNegative(RunLedger(config, steps))
  {
    if steps == [] {
      NothingWithinCap(config, m);
    } else {
      hide *;
      var n := |steps| - 1;
      var before, step := RunLedger(config, steps[..n]), steps[n];
      OrderlyBefore(config, steps, m);
      MeasuresStayWithinCaps(config, steps[..n], m);
      RunLedgerUnfolds(config, steps);
      StepKeepsCap(config, before, step, m);
    }
  }

  lemma OrderlyForInitiative(config: PolicyConfig, steps: seq<Step>, m: Measure)
    requires IsOrderly(config, steps) && (m.InitiativeTokens? || m.InitiativeTasks?)
    ensures IsOrderlyFor(config, steps, m)
  {
    hide RunLedger, Reactivates, Enters;
    forall k | 0 <= k < |steps|
      ensures OrderlyStep(RunLedger(config, steps[..k]), steps[k], m)
    {
      if steps[k].action.Write? && Enters(RunLedger(config, steps[..k]), steps[k].action.record, m) {
        OnlyReactivationEnters(RunLedger(config, steps[..k]), steps[k].action.record, m);
      }
    }
  }

  /** In every orderly run the token sum and the number of active tasks of every initiative stay within their caps. */
  lemma InitiativesStayWithinCaps(config: PolicyConfig, steps: seq<Step>, i: string)
    requires i != "" && IsOrderly(config, steps)
    ensures config.tokenTelemetryEnabled ==>
              WithinBudget(AllocatedTokens(RunLedger(config, steps), i), config.tokenBudgetPerInitiative)
    ensures WithinBudget(ActiveTasks(RunLedger(config, steps), i), config.maxTasksPerInitiative)
  {
    hide IsOrderly, IsOrderlyFor, RunLedger, Measured;
    OrderlyForInitiative(config, steps, InitiativeTokens(i));
    OrderlyForInitiative(config, steps, InitiativeTasks(i));
    MeasuresStayWithinCaps(config, steps, InitiativeTokens(i));
    MeasuresStayWithinCaps(config, steps, InitiativeTasks(i));
  }

  lemma RunLedgerUnfolds(config: PolicyConfig, steps: seq<Step>)
    requires steps != []
    ensures var before := RunLedger(config, steps[..|steps| - 1]);
            RunLedger(config, steps) == before + StepRecords(config, before, steps[|steps| - 1])
  {
    hide StepRecords;
  }

  lemma NothingWithinCap(config: PolicyConfig, m: Measure)
    ensures WithinCap(config, RunLedger(config, []), m) && RowsNonNegative(RunLedger(config, []))
  {
    assert Rows([]) == [];
  }

  lemma OrderlyBefore(config: PolicyConfig, steps: seq<Step>, m: Measure)
    requires steps != [] && IsOrderlyFor(config, steps, m)
    ensures IsOrderlyFor(config, steps[..|steps| - 1], m)
    ensures OrderlyStep(RunLedger(config, steps[..|steps| - 1]), steps[|steps| - 1], m)
  {
    hide RunLedger, OrderlyStep;
    var n := |steps| - 1;
    forall k | 0 <= k < n
      ensures steps[..n][..k] == steps[..k] && steps[..n][k] == steps[k]
    {
    }
  }

  lemma StepKeepsCap(config: PolicyConfig, ledger: seq<Record>, step: Step, m: Measure)
    requires Proper(m) && WithinCap(config, ledger, m) && RowsNonNegative(ledger) && OrderlyStep(ledger, step, m)
    ensures var next := ledger + StepRecords(config, ledger, step); WithinCap(config, next, m) && RowsNonNegative(next)
  {
    hide PostRecords, Enters, Measured, CapOf, Proper, JudgedFor;
    match step.action
    case Write(r) => WriteRaisesNothing(ledger, r, m);
    case Admit(post) => PostKeepsCap(config, ledger, post, step.clock, m);
  }

  // ----- Where the conditions fail -----

  /**
   * Why reactivation is excluded: an event that gives a finished task an active status again (a review-gate
   * decision, a reclaim) adds its tokens, or the task, to every measure that covers it without asking the policy,
   * so a cap holds afterwards exactly when that room was left.
   */
  lemma ReopeningAddsItsTokens(ledger: seq<Record>, t: string, r: Record, m: Measure, cap: int)
    requires t != "" && RowOf(ledger, t).Some? && !Active(RowOf(ledger, t).value)
    requires IsEventOf(r, t) && r.status.Some? && r.status.value != NoText && !Terminal(r.status.value)
    ensures var after, next := RowOf(ledger + [r], t), ledger + [r];
            && after.Some? && Reactivates(ledger, r)
            && var added := if !CoversRow(m, after.value) then 0 else if CountsTokens(m) then RowOf(ledger, t).value.maxTokens else 1;
               && Measured(next, m) == Measured(ledger, m) + added
               && (Measured(next, m) <= cap <==> Measured(ledger, m) + added <= cap)
  {
    hide Rows, RowOf, Total, InFamily;
    RowOfAppend(ledger, r, t);
    RecordChangesTotalByItsRow(ledger, r, Weight(m));
  }

  /** When finishing a task keeps a cap: exactly when the measure without the task, or its raw tokens, does. */
  lemma FinishingKeepsCapIff(ledger: seq<Record>, t: string, status: Status, m: Measure, cap: int)
    requires t != "" && RowOf(ledger, t).Some? && Active(RowOf(ledger, t).value) && Terminal(status)
    ensures var row, next := RowOf(ledger, t).value, ledger + [StatusRecord(t, status)];
            && RowOf(next, t) == Some(row.(status := status))
            && Measured(next, m) == Measured(ledger, m) - Weight(m)(row)
            && (Measured(next, m) <= cap <==> Measured(ledger, m) - Weight(m)(row) <= cap)
  {
    hide Rows, RowOf, Total, InFamily;
    RowOfAppend(ledger, StatusRecord(t, status), t);
    RecordChangesTotalByItsRow(ledger, StatusRecord(t, status), Weight(m));
  }

  /** When a package keeps a measure within a cap: what it asks for counts if it is active and covered, what it overwrites no longer. */
  lemma PackageKeepsCapIff(ledger: seq<Record>, r: Record, m: Measure, cap: int)
    requires r.Package?
    ensures var before, covered := RowOf(ledger, r.taskId), Covers(m, r.initiativeId, r.modelId, r.parentTaskId, r.agent.GetOr("all"));
            var overwritten := if before.Some? && Counts(m, before.value) then (if CountsTokens(m) then before.value.maxTokens else 1) else 0;
            var added := if Terminal(r.status.GetOr(Queued)) || !covered then 0 else if CountsTokens(m) then r.maxTokens.GetOr(0) else 1;
            Measured(ledger + [r], m) <= cap <==> Measured(ledger, m) - overwritten + added <= cap
  {
    hide Rows, RowOf, Total, Covers;
    RowOfAppend(ledger, r, r.taskId);
    RecordChangesTotalByItsRow(ledger, r, Weight(m));
  }

  // A package for everyone, without a model of its own choice.
  function PlainPost(t: string, i: string, tokens: int): Post {
    PackagePost(t, i, None, "all", None, "", Some(tokens), None, [], "", "", "", Autonomy("", "", 0, 0, 0), true)
  }

  // Only the budget per initiative is switched on.
  function InitiativeCapOnly(cap: int): PolicyConfig { PolicyConfig("", true, cap, 0, 0, 0, 0, 0, 0) }

  lemma PlainPostAccepted(cap: int, ledger: seq<Record>, t: string, i: string, tokens: int, clock: nat)
    requires i != "" && cap > 0
    requires tokens > 0 ==> AtLeastZero(AllocatedTokens(ledger, i)) + tokens <= cap
    ensures AnswerTo(InitiativeCapOnly(cap), ledger, PlainPost(t, i, tokens), clock) == Accepted
  {
    hide Evaluate, Rows, Total, WindowSum;
    AllowedIff(InitiativeCapOnly(cap), Prepared(ledger, PlainPost(t, i, tokens), clock));
  }

  lemma PlainPostAdds(cap: int, ledger: seq<Record>, t: string, i: string, tokens: int, clock: nat)
    requires i != "" && cap > 0 && RowOf(ledger, t).None?
    requires tokens > 0 ==> AtLeastZero(AllocatedTokens(ledger, i)) + tokens <= cap
    ensures var next := ledger + PostRecords(InitiativeCapOnly(cap), ledger, PlainPost(t, i, tokens), clock);
            && AnswerTo(InitiativeCapOnly(cap), ledger, PlainPost(t, i, tokens), clock) == Accepted
            && AllocatedTokens(next, i) == AllocatedTokens(ledger, i) + tokens
            && RowOf(next, t).Some? && RowOf(next, t).value.initiativeId == i
            && RowOf(next, t).value.maxTokens == tokens && Active(RowOf(next, t).value)
            && forall u :: u != t ==> RowOf(next, u) == RowOf(ledger, u)
  {
    hide RowOf, AnswerTo, Measured, AdmittedRecords;
    PlainPostAccepted(cap, ledger, t, i, tokens, clock);
    PostingChangesMeasure(ledger, PlainPost(t, i, tokens), clock, InitiativeTokens(i));
    PostingStores(ledger, PlainPost(t, i, tokens), clock);
  }

  // Three packages of one initiative, the first with a negative request; then the first task finishes.
  function NegativeRun(t: string, u: string, v: string, i: string): seq<Step> {
    [ Step(Admit(PlainPost(t, i, -100)), 0), Step(Admit(PlainPost(u, i, 100)), 0), Step(Admit(PlainPost(v, i, 100)), 0),
      Step(Write(StatusRecord(t, Complete)), 0) ]
  }

  lemma RunThen(config: PolicyConfig, steps: seq<Step>, step: Step)
    ensures RunLedger(config, steps + [step]) == RunLedger(config, steps) + StepRecords(config, RunLedger(config, steps), step)
  {
    hide StepRecords;
    assert (steps + [step])[..|steps|] == steps;
  }

  lemma EmptyRun(config: PolicyConfig, i: string)
    ensures RunLedger(config, []) == [] && AllocatedTokens([], i) == 0 && forall t :: RowOf([], t).None?
  {
    assert Rows([]) == [];
  }

  /**
   * Why negative requests are excluded: the evaluator sees zero but the table stores the raw number. Under a cap of 100
   * the packages of -100, 100 and 100 tokens are all admitted, and when the first task finishes the sum is 200.
   */
  lemma NegativeRequestBreaksCap(t: string, u: string, v: string, i: string)
    requires i != "" && t != "" && t != u && t != v && u != v
    ensures var config, run := InitiativeCapOnly(100), NegativeRun(t, u, v, i);
            && IsRun(run)
            && (forall k :: 0 <= k < 3 ==> AnswerTo(config, RunLedger(config, run[..k]), run[k].action.post, 0) == Accepted)
            && AllocatedTokens(RunLedger(config, run[..3]), i) == 100
            && AllocatedTokens(RunLedger(config, run), i) == 200
  {
    hide AnswerTo, AllocatedTokens, RowOf, RunLedger, PostRecords, InitiativeCapOnly, PlainPost;
    var config, run := InitiativeCapOnly(100), NegativeRun(t, u, v, i);
    assert run[..0] == [] && run[..1] == [] + [run[0]] && run[..2] == run[..1] + [run[1]] && run[..3] == run[..2] + [run[2]];
    assert run == run[..3] + [run[3]];
    EmptyRun(config, i);
    RunThen(config, [], run[0]);
    RunThen(config, run[..1], run[1]);
    RunThen(config, run[..2], run[2]);
    RunThen(config, run[..3], run[3]);
    PlainPostAdds(100, [], t, i, -100, 0);
    PlainPostAdds(100, RunLedger(config, run[..1]), u, i, 100, 0);
    PlainPostAdds(100, RunLedger(config, run[..2]), v, i, 100, 0);
    Finishes(RunLedger(config, run[..3]), t, i);
  }

  lemma Finishes(ledger: seq<Record>, t: string, i: string)
    requires t != "" && RowOf(ledger, t).Some? && Active(RowOf(ledger, t).value) && RowOf(ledger, t).value.initiativeId == i
    ensures var row, next := RowOf(ledger, t).value, ledger + [StatusRecord(t, Complete)];
            && AllocatedTokens(next, i) == AllocatedTokens(ledger, i) - row.maxTokens
            && RowOf(next, t) == Some(row.(status := Complete))
            && forall u :: u != t ==> RowOf(next, u) == RowOf(ledger, u)
  {
    hide Rows, RowOf, Total;
    FinishingKeepsCapIff(ledger, t, Complete, InitiativeTokens(i), 0);
    forall u | u != t
      ensures RowOf(ledger + [StatusRecord(t, Complete)], u) == RowOf(ledger, u)
    {
      RowOfAppend(ledger, StatusRecord(t, Complete), u);
    }
  }

  // handlePostTaskGate's record of an approval.
  function ApprovalRecord(t: string): Record { Event(t, OtherEvent, Some(Other("approved")), None, None, None) }

  // A package finishes, another takes its place, and the review gate approves the first.
  function ReopeningRun(t: string, u: string, i: string): seq<Step> {
    [ Step(Admit(PlainPost(t, i, 100)), 0), Step(Write(StatusRecord(t, Complete)), 0),
      Step(Admit(PlainPost(u, i, 100)), 0), Step(Write(ApprovalRecord(t)), 0) ]
  }

  lemma Reopens(ledger: seq<Record>, t: string, i: string)
    requires t != "" && RowOf(ledger, t).Some? && !Active(RowOf(ledger, t).value) && RowOf(ledger, t).value.initiativeId == i
    ensures AllocatedTokens(ledger + [ApprovalRecord(t)], i) == AllocatedTokens(ledger, i) + RowOf(ledger, t).value.maxTokens
  {
    hide Rows, RowOf, Total;
    RowOfAppend(ledger, ApprovalRecord(t), t);
    ReopeningAddsItsTokens(ledger, t, ApprovalRecord(t), InitiativeTokens(i), 0);
  }

  /** Such a run: under a cap of 100 two packages of 100 tokens are admitted one after the other, and the sum ends at 200. */
  lemma ReopeningBreaksCap(t: string, u: string, i: string)
    requires i != "" && t != "" && t != u
    ensures var config, run := InitiativeCapOnly(100), ReopeningRun(t, u, i);
            && IsRun(run)
            && AllocatedTokens(RunLedger(config, run[..1]), i) == 100 && AllocatedTokens(RunLedger(config, run[..2]), i) == 0
            && AllocatedTokens(RunLedger(config, run[..3]), i) == 100 && AllocatedTokens(RunLedger(config, run), i) == 200
  {
    hide AnswerTo, AllocatedTokens, RowOf, RunLedger, PostRecords, InitiativeCapOnly, PlainPost;
    var config, run := InitiativeCapOnly(100), ReopeningRun(t, u, i);
    assert run[..1] == [] + [run[0]] && run[..2] == run[..1] + [run[1]] && run[..3] == run[..2] + [run[2]];
    assert run == run[..3] + [run[3]];
    EmptyRun(config, i);
    RunThen(config, [], run[0]);
    RunThen(config, run[..1], run[1]);
    RunThen(config, run[..2], run[2]);
    RunThen(config, run[..3], run[3]);
    PlainPostAdds(100, [], t, i, 100, 0);
    Finishes(RunLedger(config, run[..1]), t, i);
    PlainPostAdds(100, RunLedger(config, run[..2]), u, i, 100, 0);
    Reopens(RunLedger(config, run[..3]), t, i);
  }

  // A package whose body names one model while the router's agent made the policy judge another.
  function RoutedPost(t: string, status: Option<Status>, tokens: int): Post {
    PackagePost(t, "", None, "claude", status, "", Some(tokens), None, [], "openai/gpt", "anthropic/claude-sonnet", "",
                Autonomy("", "", 0, 0, 0), true)
  }

  // The routing event makes any posted task with an id active.
  predicate ActiveAfterRouting(t: string, status: Option<Status>) { t == "" ==> !Terminal(status.GetOr(Queued)) }

  // Only the budget per model family is switched on.
  function FamilyCapOnly(cap: int): PolicyConfig { PolicyConfig("", true, 0, cap, 0, 0, 0, 0, 0) }

  function OpenAiTokens(ledger: seq<Record>): int { Measured(ledger, FamilyTokens("openai")) }

  function AnthropicTokens(ledger: seq<Record>): int { Measured(ledger, FamilyTokens("anthropic")) }

  lemma JudgedFamily()
    ensures ModelFamily("anthropic/claude-sonnet") == Some("anthropic")
  {
    hide ModelFamily;
    ShortFamilyIsWholePrefix("anthropic/claude-sonnet", "anthropic");
  }

  lemma StoredFamilies()
    ensures InFamily("openai/gpt", "openai") && !InFamily("openai/gpt", "anthropic")
  {
    hide InFamily;
    InFamilyIff("openai/gpt", "openai");
    InFamilyIff("openai/gpt", "anthropic");
    assert "openai/gpt"[..6] == "openai" && "openai/gpt"[6] == '/';
    assert "openai/gpt"[..9][0] == 'o' && "anthropic"[0] == 'a';
  }

  lemma NothingBlocked(family: string)
    requires family != ""
    ensures family !in Vendors("")
  {
    assert Vendors("") == [""];
  }

  lemma RoutedPostAdds(ledger: seq<Record>, t: string, status: Option<Status>, clock: nat)
    requires RowOf(ledger, t).None? && ActiveAfterRouting(t, status) && AnthropicTokens(ledger) == 0
    ensures var next := ledger + PostRecords(FamilyCapOnly(100), ledger, RoutedPost(t, status, 100), clock);
            && AnswerTo(FamilyCapOnly(100), ledger, RoutedPost(t, status, 100), clock) == Accepted
            && AnthropicTokens(next) == 0 && OpenAiTokens(next) == OpenAiTokens(ledger) + 100
            && forall u :: u != t ==> RowOf(next, u) == RowOf(ledger, u)
  {
    hide AnswerTo, RoutedPost, FamilyCapOnly, Measured, InFamily, RowOf, AdmittedRecords;
    RoutedPostAccepted(ledger, t, status, clock);
    StoredFamilies();
    RoutedPackageAdds(ledger, t, status, clock, "openai");
    RoutedPackageAdds(ledger, t, status, clock, "anthropic");
  }

  lemma RoutedPostAccepted(ledger: seq<Record>, t: string, status: Option<Status>, clock: nat)
    requires AnthropicTokens(ledger) == 0
    ensures AnswerTo(FamilyCapOnly(100), ledger, RoutedPost(t, status, 100), clock) == Accepted
  {
    hide Evaluate, Rows, Total, WindowSum, ModelFamily, Vendors, Weight;
    JudgedFamily();
    NothingBlocked("anthropic");
    assert ModelMatchesAgent("claude", "anthropic");
    AllowedIff(FamilyCapOnly(100), Prepared(ledger, RoutedPost(t, status, 100), clock));
  }

  lemma RoutedPackageAdds(ledger: seq<Record>, t: string, status: Option<Status>, clock: nat, f: string)
    requires RowOf(ledger, t).None? && ActiveAfterRouting(t, status)
    ensures var next := ledger + AdmittedRecords(RoutedPost(t, status, 100), clock);
            && Measured(next, FamilyTokens(f)) == Measured(ledger, FamilyTokens(f)) + (if InFamily("openai/gpt", f) then 100 else 0)
            && forall u :: u != t ==> RowOf(next, u) == RowOf(ledger, u)
  {
    hide Measured, RowOf, InFamily, AdmittedRecords;
    PostingChangesMeasure(ledger, RoutedPost(t, status, 100), clock, FamilyTokens(f));
    PostingStores(ledger, RoutedPost(t, status, 100), clock);
  }

  /**
   * Why a family's packages must be judged by the model they store: a body that names one vendor's model but leaves the
   * agent to the router is judged by the routed agent's default model, and stored with its own. Two such packages of 100
   * tokens are admitted under a family cap of 100, whatever their status: the routing event makes them active.
   */
  lemma RoutedModelBreaksFamilyCap(t: string, u: string, status: Option<Status>)
    requires t != u && ActiveAfterRouting(t, status) && ActiveAfterRouting(u, status)
    ensures var config, run := FamilyCapOnly(100), [Step(Admit(RoutedPost(t, status, 100)), 0), Step(Admit(RoutedPost(u, status, 100)), 0)];
            && IsOrderly(config, run)
            && OpenAiTokens(RunLedger(config, run)) == 200
  {
    hide AnswerTo, OpenAiTokens, AnthropicTokens, RowOf, RunLedger, PostRecords, Reactivates;
    var config, run := FamilyCapOnly(100), [Step(Admit(RoutedPost(t, status, 100)), 0), Step(Admit(RoutedPost(u, status, 100)), 0)];
    assert run[..1] == [] + [run[0]] && run == run[..1] + [run[1]];
    EmptyRun(config, "");
    EmptyFamilies();
    RunThen(config, [], run[0]);
    RunThen(config, run[..1], run[1]);
    RoutedPostAdds([], t, status, 0);
    RoutedPostAdds(RunLedger(config, run[..1]), u, status, 0);
  }

  lemma EmptyFamilies()
    ensures OpenAiTokens([]) == 0 && AnthropicTokens([]) == 0
  {
    assert Rows([]) == [];
  }

  // A package for one agent.
  function AgentPost(t: string, agent: string): Post {
    PackagePost(t, "", Some(agent), agent, None, "", None, None, [], "", "", "", Autonomy("", "", 0, 0, 0), true)
  }

  // Only the cap per agent is switched on.
  function AgentCapOnly(cap: int): PolicyConfig { PolicyConfig("", false, 0, 0, 0, 0, cap, 0, 0) }

  function TasksOf(ledger: seq<Record>, agent: string): int { Measured(ledger, AgentTasks(agent)) }

  lemma AgentPostAdds(ledger: seq<Record>, t: string, agent: string, other: string, clock: nat)
    requires t != "" && !ShouldRoute(agent) && RowOf(ledger, t).None? && TasksOf(ledger, agent) == 0
    ensures var next := ledger + PostRecords(AgentCapOnly(1), ledger, AgentPost(t, agent), clock);
            && TasksOf(next, other) == TasksOf(ledger, other) + (if other == agent then 1 else 0)
            && RowOf(next, t).Some? && Active(RowOf(next, t).value) && RowOf(next, t).value.assignedAgent == agent
            && forall u :: u != t ==> RowOf(next, u) == RowOf(ledger, u)
  {
    AgentPostAccepted(ledger, t, agent, clock);
    AgentPackageAdds(ledger, t, agent, other, clock);
  }

  lemma AgentPostAccepted(ledger: seq<Record>, t: string, agent: string, clock: nat)
    requires TasksOf(ledger, agent) == 0
    ensures AnswerTo(AgentCapOnly(1), ledger, AgentPost(t, agent), clock) == Accepted
  {
    hide Evaluate, Rows, Total, WindowSum, Vendors, Weight;
    AllowedIff(AgentCapOnly(1), Prepared(ledger, AgentPost(t, agent), clock));
  }

  lemma AgentPackageAdds(ledger: seq<Record>, t: string, agent: string, other: string, clock: nat)
    requires t != "" && !ShouldRoute(agent) && RowOf(ledger, t).None?
    ensures var next := ledger + AdmittedRecords(AgentPost(t, agent), clock);
            && TasksOf(next, other) == TasksOf(ledger, other) + (if other == agent then 1 else 0)
            && RowOf(next, t).Some? && Active(RowOf(next, t).value) && RowOf(next, t).value.assignedAgent == agent
            && forall u :: u != t ==> RowOf(next, u) == RowOf(ledger, u)
  {
    hide Measured, RowOf, AdmittedRecords;
    PostingChangesMeasure(ledger, AgentPost(t, agent), clock, AgentTasks(other));
    PostingStores(ledger, AgentPost(t, agent), clock);
  }

  /** A reroute to another agent keeps that agent's cap exactly when it has room for the task. */
  lemma RerouteKeepsAgentCapIff(ledger: seq<Record>, t: string, agent: string, cap: int)
    requires t != "" && agent != "" && RowOf(ledger, t).Some? && !Counts(AgentTasks(agent), RowOf(ledger, t).value)
    ensures Enters(ledger, RerouteRecord(t, agent), AgentTasks(agent))
    ensures TasksOf(ledger + [RerouteRecord(t, agent)], agent) <= cap <==> TasksOf(ledger, agent) + 1 <= cap
  {
    hide Rows, RowOf, Total;
    RowOfAppend(ledger, RerouteRecord(t, agent), t);
    RecordChangesTotalByItsRow(ledger, RerouteRecord(t, agent), Weight(AgentTasks(agent)));
  }

  // One task each for agents a and b; the operator then reroutes b's to a.
  function CrowdingRun(t: string, u: string, a: string, b: string): seq<Step> {
    [ Step(Admit(AgentPost(t, a)), 0), Step(Admit(AgentPost(u, b)), 0), Step(Write(RerouteRecord(u, a)), 0) ]
  }

  /** Why reroutes are excluded: under a cap of one task per agent the agent ends with two. */
  lemma RerouteBreaksAgentCap(t: string, u: string, a: string, b: string)
    requires t != "" && u != "" && t != u && a != b && !ShouldRoute(a) && !ShouldRoute(b)
    ensures var config, run := AgentCapOnly(1), CrowdingRun(t, u, a, b);
            IsRun(run) && TasksOf(RunLedger(config, run[..2]), a) == 1 && TasksOf(RunLedger(config, run), a) == 2
  {
    hide TasksOf, RowOf, RunLedger, PostRecords, AgentCapOnly, AgentPost, Counts;
    var config, run := AgentCapOnly(1), CrowdingRun(t, u, a, b);
    assert run[..1] == [] + [run[0]] && run[..2] == run[..1] + [run[1]] && run == run[..2] + [run[2]];
    EmptyRun(config, "");
    NoTasks(a);
    NoTasks(b);
    RunThen(config, [], run[0]);
    RunThen(config, run[..1], run[1]);
    RunThen(config, run[..2], run[2]);
    AgentPostAdds([], t, a, a, 0);
    AgentPostAdds([], t, a, b, 0);
    AgentPostAdds(RunLedger(config, run[..1]), u, b, a, 0);
    NotCounted(RunLedger(config, run[..2]), u, a);
    RerouteKeepsAgentCapIff(RunLedger(config, run[..2]), u, a, 1);
    RerouteKeepsAgentCapIff(RunLedger(config, run[..2]), u, a, 2);
  }

  lemma NotCounted(ledger: seq<Record>, t: string, agent: string)
    requires RowOf(ledger, t).Some? && RowOf(ledger, t).value.assignedAgent != agent
    ensures !Counts(AgentTasks(agent), RowOf(ledger, t).value)
  {
  }

  lemma NoTasks(agent: string)
    ensures TasksOf([], agent) == 0
  {
    assert Rows([]) == [];
  }

  // A package for everyone, with a parent.
  function SubtaskPost(t: string, p: string): Post {
    PackagePost(t, "", None, "all", None, "", None, None, [], "", "", p, Autonomy("", "", 0, 0, 0), true)
  }

  // Only the cap per parent is switched on.
  function ParentCapOnly(cap: int): PolicyConfig { PolicyConfig("", false, 0, 0, 0, 0, 0, 0, cap) }

  function SubtasksOf(ledger: seq<Record>, p: string): int { Measured(ledger, Subtasks(p)) }

  /** The answer to a posted package does not depend on the cap per parent at all. */
  lemma PackagesIgnoreParentCap(config: PolicyConfig, cap: int, ledger: seq<Record>, post: Post, now: int)
    requires post.PackagePost?
    ensures AnswerTo(config.(maxSubtasksPerParent := cap), ledger, post, now) == AnswerTo(config, ledger, post, now)
  {
    hide Prepared, ModelFamily, Vendors, GrantEnd, LevelIsValid;
  }

  lemma SubtaskPostAdds(cap: int, ledger: seq<Record>, t: string, p: string, clock: nat)
    requires RowOf(ledger, t).None?
    ensures var next := ledger + PostRecords(ParentCapOnly(cap), ledger, SubtaskPost(t, p), clock);
            && AnswerTo(ParentCapOnly(cap), ledger, SubtaskPost(t, p), clock) == Accepted
            && SubtasksOf(next, p) == SubtasksOf(ledger, p) + 1
            && forall u :: u != t ==> RowOf(next, u) == RowOf(ledger, u)
  {
    hide RowOf, AnswerTo, Measured, AdmittedRecords;
    SubtaskPostAccepted(cap, ledger, t, p, clock);
    PostingChangesMeasure(ledger, SubtaskPost(t, p), clock, Subtasks(p));
    PostingStores(ledger, SubtaskPost(t, p), clock);
  }

  lemma SubtaskPostAccepted(cap: int, ledger: seq<Record>, t: string, p: string, clock: nat)
    ensures AnswerTo(ParentCapOnly(cap), ledger, SubtaskPost(t, p), clock) == Accepted
  {
    hide Evaluate, Rows, Total, WindowSum;
    AllowedIff(ParentCapOnly(cap), Prepared(ledger, SubtaskPost(t, p), clock));
  }

  // One package for each task, all of one parent.
  function SubtaskRun(tasks: seq<string>, p: string): seq<Step> {
    seq(|tasks|, k requires 0 <= k < |tasks| => Step(Admit(SubtaskPost(tasks[k], p)), 0))
  }

  /** Why packages are excluded for parents: under any cap per parent any number of packages of one parent is admitted. */
  lemma {:induction false} PackagesBreakParentCap(cap: int, tasks: seq<string>, p: string)
    requires forall j, k :: 0 <= j < k < |tasks| ==> tasks[j] != tasks[k]
    ensures var config, run := ParentCapOnly(cap), SubtaskRun(tasks, p);
            && IsOrderly(config, run) && SubtasksOf(RunLedger(config, run), p) == |tasks|
            && forall u :: u !in tasks ==> RowOf(RunLedger(config, run), u).None?
  {
    hide SubtasksOf, RowOf, PostRecords, AnswerTo, ParentCapOnly, SubtaskPost, IsOrderly;
    var config, run := ParentCapOnly(cap), SubtaskRun(tasks, p);
    SubtaskRunIsOrderly(config, tasks, p);
    if tasks == [] {
      NoSubtasks(config, p);
    } else {
      var n := |tasks| - 1;
      PackagesBreakParentCap(cap, tasks[..n], p);
      assert run[..n] == SubtaskRun(tasks[..n], p);
      assert tasks[n] !in tasks[..n];
      SubtaskPostAdds(cap, RunLedger(config, run[..n]), tasks[n], p, 0);
    }
  }

  lemma SubtaskRunIsOrderly(config: PolicyConfig, tasks: seq<string>, p: string)
    ensures IsOrderly(config, SubtaskRun(tasks, p))
  {
  }

  lemma NoSubtasks(config: PolicyConfig, p: string)
    ensures RunLedger(config, []) == [] && SubtasksOf([], p) == 0 && forall t :: RowOf([], t).None?
  {
    assert Rows([]) == [];
  }
}
