/**
 * src/wt_task_projection.c: the tasks table rebuilt from the ledger, with its own upsert and CASE rules,
 * and its agreement with the claim scanners and the lease fold.
 */
module Projection {
  import opened Options
  import opened Ledger
  import opened Scanners
  import opened Leases

  // The columns of the tasks table that admission and the lease protocol depend on.
  datatype Row = Row(
    taskId: string, initiativeId: string, parentTaskId: string, assignedAgent: string, modelId: string, status: Status,
    maxTokens: int, leaseOwner: string, leaseExpiresAt: int, attemptCount: int)

  function NewRow(t: string): Row { Row(t, "", "", "", "", NoText, 0, "", 0, 0) }

  // projectPackage: ON CONFLICT keeps the lease columns and the attempt count.
  function UpsertPackage(row: Row, r: Record): (next: Row)
    requires r.Package?
    ensures next.taskId == row.taskId
  {
    row.(initiativeId := r.initiativeId, parentTaskId := r.parentTaskId, assignedAgent := r.agent.GetOr("all"),
         modelId := r.modelId, status := r.status.GetOr(Queued), maxTokens := r.maxTokens.GetOr(0))
  }

  function Max(a: int, b: int): int { if a >= b then a else b }

  // insertEvent's UPDATE. The artifact and priority branches touch none of these columns.
  function UpdateForEvent(row: Row, r: Record): (next: Row)
    requires r.Event? || r.Request?
    ensures next.taskId == row.taskId
  {
    var agent := r.agent.GetOr("");
    if r.Request? then row.(assignedAgent := if agent != "" then agent else row.assignedAgent)
    else
      var status := r.status.GetOr(NoText);
      if status == NoText && agent == "" && r.eventType != Reclaim then row
      else
        row.(
          status := if status != NoText then status else row.status,
          assignedAgent := if agent != "" then agent else row.assignedAgent,
          leaseOwner := if r.eventType == Lease then agent else if r.eventType == Reclaim then "" else row.leaseOwner,
          leaseExpiresAt :=
            if r.eventType == Lease then r.leaseExpiresAt.GetOr(0) else if r.eventType == Reclaim then 0 else row.leaseExpiresAt,
          attemptCount := if r.eventType == Lease then Max(row.attemptCount + 1, r.attempt.GetOr(0)) else row.attemptCount)
  }

  // ----- One row as a fold over the ledger -----

  // An event without a task id updates no row.
  predicate Updates(r: Record, t: string) { t != "" && (r.Event? || r.Request?) && r.taskId == t }

  function RowStep(row: Option<Row>, r: Record, t: string): Option<Row> {
    if IsPackageOf(r, t) then Some(UpsertPackage(row.GetOr(NewRow(t)), r))
    else if Updates(r, t) && row.Some? then Some(UpdateForEvent(row.value, r))
    else row
  }

  function RowOf(ledger: seq<Record>, t: string): (row: Option<Row>)
    ensures row.Some? ==> row.value.taskId == t
  {
    if ledger == [] then None
    else RowStep(RowOf(ledger[..|ledger| - 1], t), ledger[|ledger| - 1], t)
  }

  lemma RowOfAppend(ledger: seq<Record>, r: Record, t: string)
    ensures RowOf(ledger + [r], t) == RowStep(RowOf(ledger, t), r, t)
  {
    assert (ledger + [r])[..|ledger|] == ledger;
  }

  // ----- The table -----

  // The position of the row with the primary key t.
  function IndexOf(rows: seq<Row>, t: string): (i: nat)
    ensures i <= |rows|
    ensures i < |rows| ==> rows[i].taskId == t
    ensures forall j :: 0 <= j < i ==> rows[j].taskId != t
  {
    if rows == [] || rows[0].taskId == t then 0 else 1 + IndexOf(rows[1..], t)
  }

  function Lookup(rows: seq<Row>, t: string): Option<Row> {
    var i := IndexOf(rows, t);
    if i < |rows| then Some(rows[i]) else None
  }

  function RowsStep(rows: seq<Row>, r: Record): seq<Row> {
    if r.Package? then
      var i := IndexOf(rows, r.taskId);
      if i < |rows| then rows[i := UpsertPackage(rows[i], r)] else rows + [UpsertPackage(NewRow(r.taskId), r)]
    else if r.Event? || r.Request? then
      var i := IndexOf(rows, r.taskId);
      if r.taskId != "" && i < |rows| then rows[i := UpdateForEvent(rows[i], r)] else rows
    else rows
  }

  function Rows(ledger: seq<Record>): seq<Row> {
    if ledger == [] then [] else RowsStep(Rows(ledger[..|ledger| - 1]), ledger[|ledger| - 1])
  }

  predicate DistinctIds(rows: seq<Row>) {
    forall i, j :: 0 <= i < j < |rows| ==> rows[i].taskId != rows[j].taskId
  }

  lemma LookupAt(rows: seq<Row>, t: string, i: nat)
    requires DistinctIds(rows) && i < |rows| && rows[i].taskId == t
    ensures IndexOf(rows, t) == i
  {
    var j := IndexOf(rows, t);
    assert j <= i;
  }

  lemma RowsStepLookup(rows: seq<Row>, r: Record, t: string)
    requires DistinctIds(rows)
    ensures DistinctIds(RowsStep(rows, r))
    ensures Lookup(RowsStep(rows, r), t) == RowStep(Lookup(rows, t), r, t)
  {
    hide UpsertPackage, UpdateForEvent;
    var next := RowsStep(rows, r);
    var i, j := IndexOf(rows, t), IndexOf(next, t);
    if j < |next| {
      LookupAt(next, t, j);
    }
    if i < |rows| {
      LookupAt(next, t, i);
    } else if |rows| < |next| && r.taskId == t {
      LookupAt(next, t, |rows|);
    }
  }

  lemma OtherRecordsKeepRows(rows: seq<Row>, r: Record)
    requires !r.Package? && !r.Event? && !r.Request?
    ensures RowsStep(rows, r) == rows
  {
  }

  // What an event may do to the row of its task.
  predicate EventMoves(before: Row, after: Row, r: Record)
    requires r.Event? || r.Request?
  {
    var names := r.agent.GetOr("") != "" || (r.Event? && r.status.GetOr(NoText) != NoText);
    && after.taskId == before.taskId && after.initiativeId == before.initiativeId && after.parentTaskId == before.parentTaskId
    && after.modelId == before.modelId && after.maxTokens == before.maxTokens
    && after.assignedAgent == (if r.agent.GetOr("") != "" then r.agent.value else before.assignedAgent)
    && after.status == (if r.Event? && r.status.GetOr(NoText) != NoText then r.status.value else before.status)
    && (if r.Event? && r.eventType == Lease && names then
          && after.leaseOwner == r.agent.GetOr("") && after.leaseExpiresAt == r.leaseExpiresAt.GetOr(0)
          && after.attemptCount > before.attemptCount && after.attemptCount >= r.attempt.GetOr(0)
          && (after.attemptCount == before.attemptCount + 1 || after.attemptCount == r.attempt.GetOr(0))
        else if r.Event? && r.eventType == Reclaim then
          after.leaseOwner == "" && after.leaseExpiresAt == 0 && after.attemptCount == before.attemptCount
        else
          && after.leaseOwner == before.leaseOwner && after.leaseExpiresAt == before.leaseExpiresAt
          && after.attemptCount == before.attemptCount)
  }

  class Database {
    var tasks: seq<Row>

    constructor ()
      ensures tasks == []
    {
      tasks := [];
    }

    /**
     * The upsert leaves every other row and the order alone and keeps the lease columns and the attempt count of the
     * task's row; a task without a row gets one at the end, unleased and unattempted. The other columns come from the package.
     */
    method ProjectPackage(r: Record)
      requires r.Package? && DistinctIds(tasks)
      modifies this
      ensures tasks == RowsStep(old(tasks), r)
      ensures DistinctIds(tasks) && Lookup(tasks, r.taskId).Some?
      ensures forall t :: t != r.taskId ==> Lookup(tasks, t) == Lookup(old(tasks), t)
      ensures |tasks| == |old(tasks)| + if Lookup(old(tasks), r.taskId).Some? then 0 else 1
      ensures forall i :: 0 <= i < |old(tasks)| ==> tasks[i].taskId == old(tasks)[i].taskId
      ensures var row, before := Lookup(tasks, r.taskId).value, Lookup(old(tasks), r.taskId).GetOr(NewRow(r.taskId));
              && row.leaseOwner == before.leaseOwner && row.leaseExpiresAt == before.leaseExpiresAt
              && row.attemptCount == before.attemptCount
              && row.initiativeId == r.initiativeId && row.parentTaskId == r.parentTaskId && row.modelId == r.modelId
              && row.assignedAgent == r.agent.GetOr("all") && row.status == r.status.GetOr(Queued)
              && row.maxTokens == r.maxTokens.GetOr(0)
    {
      ghost var before := tasks;
      forall t
        ensures DistinctIds(RowsStep(before, r)) && Lookup(RowsStep(before, r), t) == RowStep(Lookup(before, t), r, t)
      {
        RowsStepLookup(before, r, t);
      }
      var i := IndexOf(tasks, r.taskId);
      if i < |tasks| {
        tasks := tasks[i := UpsertPackage(tasks[i], r)];
      } else {
        tasks := tasks + [UpsertPackage(NewRow(r.taskId), r)];
      }
    }

    /**
     * The update changes the row of the event's task only, and nothing when there is none or the id is empty. A lease
     * sets owner and expiry and counts an attempt, a reclaim clears them, no other event moves them, and no event
     * moves the initiative, the parent, the model or the tokens. A lease that names neither status nor agent is passed
     * over. The result is false for the error return, which the rebuild loop ignores.
     */
    method InsertEvent(r: Record) returns (ok: bool)
      requires (r.Event? || r.Request?) && DistinctIds(tasks)
      modifies this
      ensures tasks == RowsStep(old(tasks), r)
      ensures ok <==> r.taskId != ""
      ensures DistinctIds(tasks) && |tasks| == |old(tasks)|
      ensures forall t :: t != r.taskId ==> Lookup(tasks, t) == Lookup(old(tasks), t)
      ensures !ok || Lookup(old(tasks), r.taskId).None? ==> tasks == old(tasks)
      ensures ok && Lookup(old(tasks), r.taskId).Some? ==>
                Lookup(tasks, r.taskId).Some? && EventMoves(Lookup(old(tasks), r.taskId).value, Lookup(tasks, r.taskId).value, r)
    {
      ghost var before := tasks;
      forall t
        ensures DistinctIds(RowsStep(before, r)) && Lookup(RowsStep(before, r), t) == RowStep(Lookup(before, t), r, t)
      {
        RowsStepLookup(before, r, t);
      }
      if r.taskId == "" {
        return false;
      }
      var i := IndexOf(tasks, r.taskId);
      if i < |tasks| {
        tasks := tasks[i := UpdateForEvent(tasks[i], r)];
      }
      return true;
    }

    method Rebuild(ledger: seq<Record>)
      modifies this
      ensures tasks == Rows(ledger)
    {
      tasks := [];
      for n := 0 to |ledger|
        invariant tasks == Rows(ledger[..n]) && DistinctIds(tasks)
      {
        hide RowsStep, Lookup, RowStep, EventMoves;
        assert ledger[..n + 1][..n] == ledger[..n];
        if !ledger[n].Package? && !ledger[n].Event? && !ledger[n].Request? {
          OtherRecordsKeepRows(tasks, ledger[n]);
        }
        if ledger[n].Package? {
          ProjectPackage(ledger[n]);
        } else if ledger[n].Event? || ledger[n].Request? {
          var ok := InsertEvent(ledger[n]);
        }
      }
      assert ledger[..|ledger|] == ledger;
    }
  }

  /** The rebuilt table holds exactly one row for each packaged task: the fold of that task's records. */
  lemma {:induction false} TableIsFold(ledger: seq<Record>, t: string)
    ensures DistinctIds(Rows(ledger))
    ensures Lookup(Rows(ledger), t) == RowOf(ledger, t)
  {
    if ledger != [] {
      hide RowsStep, RowStep, Lookup, DistinctIds;
      var n := |ledger| - 1;
      TableIsFold(ledger[..n], t);
      RowsStepLookup(Rows(ledger[..n]), ledger[n], t);
    } else {
      assert Rows(ledger) == [];
    }
  }

  // ----- Status: the projection and the claim scanners -----

  predicate NoEmptyStatus(ledger: seq<Record>, t: string) {
    forall n :: 0 <= n < |ledger| && IsEventOf(ledger[n], t) ==> ledger[n].status != Some(NoText)
  }

  predicate StatusesAgree(row: Option<Row>, e: Option<Entry>, noEmpty: bool) {
    && row.Some? == e.Some?
    && (row.Some? && (e.value.status != NoText || noEmpty) ==> row.value.status == e.value.status)
  }

  lemma StatusStep(scan: Scan, row: Option<Row>, e: Option<Entry>, r: Record, t: string, noEmpty: bool)
    requires t != "" && StatusesAgree(row, e, noEmpty)
    requires noEmpty && IsEventOf(r, t) ==> r.status != Some(NoText)
    ensures StatusesAgree(RowStep(row, r, t), Apply(scan, e, r, t), noEmpty)
  {
  }

  /**
   * The row and the scanners know the same tasks, and their statuses agree unless the scanners see the empty
   * text; when no event carries an empty status they always agree.
   */
  lemma {:induction false} StatusAgrees(scan: Scan, ledger: seq<Record>, t: string)
    requires t != ""
    ensures StatusesAgree(RowOf(ledger, t), Fold(scan, ledger, t), NoEmptyStatus(ledger, t))
  {
    if ledger != [] {
      hide Fold, RowOf, RowStep, Apply;
      var n := |ledger| - 1;
      var before, r := ledger[..n], ledger[n];
      assert ledger == before + [r];
      StatusAgrees(scan, before, t);
      RowOfAppend(before, r, t);
      FoldStep(scan, before, r, t);
      assert NoEmptyStatus(ledger, t) ==> NoEmptyStatus(before, t);
      StatusStep(scan, RowOf(before, t), Fold(scan, before, t), r, t, NoEmptyStatus(ledger, t));
      StatusStep(scan, RowOf(before, t), Fold(scan, before, t), r, t, false);
    }
  }

  // ----- What a row's status and agent were last set by -----

  // A package, or an event with a status that is not empty.
  function StatusNamers(t: string): Record -> bool {
    (r: Record) => IsPackageOf(r, t) || (IsEventOf(r, t) && r.status.GetOr(NoText) != NoText)
  }

  // A package, or an event or request with an agent that is not empty.
  function AgentNamers(t: string): Record -> bool {
    (r: Record) => IsPackageOf(r, t) || ((r.Event? || r.Request?) && r.taskId == t && r.agent.GetOr("") != "")
  }

  function RowAgentSetBy(r: Record): string
    requires r.Package? || r.Event? || r.Request?
  {
    if r.Package? then r.agent.GetOr("all") else r.agent.GetOr("")
  }

  predicate RowSetByLast(ledger: seq<Record>, t: string, row: Row) {
    var s, a := LastWhere(ledger, StatusNamers(t)), LastWhere(ledger, AgentNamers(t));
    && s >= 0 && a >= 0
    && row.status == StatusSetBy(ledger[s]) && row.assignedAgent == RowAgentSetBy(ledger[a])
  }

  lemma RowSetStep(ledger: seq<Record>, r: Record, t: string, row: Option<Row>)
    requires t != "" && (row.Some? ==> RowSetByLast(ledger, t, row.value))
    ensures var next := RowStep(row, r, t); next.Some? ==> RowSetByLast(ledger + [r], t, next.value)
  {
    hide LastWhere;
    FieldSet(ledger, r, t, StatusNamers(t));
    FieldSet(ledger, r, t, AgentNamers(t));
  }

  /** A row's status and agent are those of the last package, event or request of the task that names one. */
  lemma {:induction false} RowIsSetByLast(ledger: seq<Record>, t: string)
    requires t != ""
    ensures RowOf(ledger, t).Some? ==> RowSetByLast(ledger, t, RowOf(ledger, t).value)
  {
    if ledger != [] {
      hide RowOf, RowSetByLast, RowStep;
      var n := |ledger| - 1;
      assert ledger == ledger[..n] + [ledger[n]];
      RowIsSetByLast(ledger[..n], t);
      RowOfAppend(ledger[..n], ledger[n], t);
      RowSetStep(ledger[..n], ledger[n], t, RowOf(ledger[..n], t));
    }
  }

  /**
   * Exactly when the statuses agree: the last package or event of the task that carries a status carries a non-empty
   * one, or the row was never told any, because its last naming record is a package with an empty status.
   */
  lemma StatusAgreesIff(scan: Scan, ledger: seq<Record>, t: string)
    requires t != "" && RowOf(ledger, t).Some?
    ensures Fold(scan, ledger, t).Some?
    ensures LastWhere(ledger, StatusSetters(t)) >= 0 && LastWhere(ledger, StatusNamers(t)) >= 0
    ensures RowOf(ledger, t).value.status == Fold(scan, ledger, t).value.status <==>
            || ledger[LastWhere(ledger, StatusSetters(t))].status != Some(NoText)
            || ledger[LastWhere(ledger, StatusNamers(t))].status == Some(NoText)
  {
    hide Fold, RowOf, LastWhere, StandingExpiry;
    StatusAgrees(scan, ledger, t);
    FoldIsSetByLast(scan, ledger, t);
    RowIsSetByLast(ledger, t);
    var s, z := LastWhere(ledger, StatusSetters(t)), LastWhere(ledger, StatusNamers(t));
    assert StatusSetters(t)(ledger[z]) && StatusSetters(t)(ledger[s]);
    assert ledger[s].status != Some(NoText) ==> StatusNamers(t)(ledger[s]);
  }

  /** The row of the empty task id follows packages only, so the statuses agree exactly when no event has changed the package's. */
  lemma {:induction false} EmptyTaskIdAgreesIff(scan: Scan, ledger: seq<Record>)
    requires RowOf(ledger, "").Some?
    ensures Fold(scan, ledger, "").Some?
    ensures LastWhere(ledger, StatusSetters("")) >= 0 && LastWhere(ledger, Packages("")) >= 0
    ensures RowOf(ledger, "").value.status == Fold(scan, ledger, "").value.status <==>
            StatusSetBy(ledger[LastWhere(ledger, StatusSetters(""))]) == StatusSetBy(ledger[LastWhere(ledger, Packages(""))])
  {
    hide Fold, RowOf, LastWhere, StandingExpiry;
    EmptyIdRow(scan, ledger);
    FoldIsSetByLast(scan, ledger, "");
  }

  lemma {:induction false} EmptyIdRow(scan: Scan, ledger: seq<Record>)
    ensures RowOf(ledger, "").Some? ==>
              && Fold(scan, ledger, "").Some?
              && LastWhere(ledger, Packages("")) >= 0
              && RowOf(ledger, "").value.status == StatusSetBy(ledger[LastWhere(ledger, Packages(""))])
  {
    if ledger != [] {
      hide RowOf, LastWhere, Fold;
      var n := |ledger| - 1;
      assert ledger == ledger[..n] + [ledger[n]];
      EmptyIdRow(scan, ledger[..n]);
      RowOfAppend(ledger[..n], ledger[n], "");
      FoldStep(scan, ledger[..n], ledger[n], "");
      FieldSet(ledger[..n], ledger[n], "", Packages(""));
    }
  }

  /** An event with an empty status makes the scanners forget a status the row keeps. */
  lemma EmptyStatusDiffers(scan: Scan, ledger: seq<Record>, t: string, r: Record)
    requires t != "" && IsEventOf(r, t) && r.status == Some(NoText)
    requires RowOf(ledger, t).Some? && RowOf(ledger, t).value.status != NoText
    ensures Fold(scan, ledger + [r], t).Some? && RowOf(ledger + [r], t).Some?
    ensures Fold(scan, ledger + [r], t).value.status == NoText != RowOf(ledger + [r], t).value.status == RowOf(ledger, t).value.status
  {
    hide Fold, RowOf;
    StatusAgrees(scan, ledger, t);
    RowOfAppend(ledger, r, t);
    FoldStep(scan, ledger, r, t);
  }

  /** The scanners follow the events of a task with the empty id, the row never does. */
  lemma EmptyTaskIdDiffers(scan: Scan, ledger: seq<Record>, status: Status)
    requires RowOf(ledger, "").Some? && RowOf(ledger, "").value.status != status
    ensures var next := ledger + [StatusRecord("", status)];
            && RowOf(next, "") == RowOf(ledger, "") && Fold(scan, next, "").Some?
            && Fold(scan, next, "").value.status == status != RowOf(next, "").value.status
  {
    hide Fold, RowOf;
    EmptyIdRow(scan, ledger);
    RowOfAppend(ledger, StatusRecord("", status), "");
    FoldStep(scan, ledger, StatusRecord("", status), "");
  }

  // ----- The assigned agent: the projection and the queued scan -----

  /**
   * Exactly when the row and the queued scan hold the same agent. Let c be the last package or event that carries an
   * agent and a the last package, event or request that names one. If c names an agent, no later request may name
   * another; if it carries the empty text, the row must come from a package that carries it too.
   */
  lemma AgentsAgreeIff(ledger: seq<Record>, t: string)
    requires t != "" && RowOf(ledger, t).Some?
    ensures Fold(QueuedScan, ledger, t).Some?
    ensures LastWhere(ledger, AgentCarriers(t)) >= 0 && LastWhere(ledger, AgentNamers(t)) >= 0
    ensures var c, a := LastWhere(ledger, AgentCarriers(t)), LastWhere(ledger, AgentNamers(t));
            RowOf(ledger, t).value.assignedAgent == Fold(QueuedScan, ledger, t).value.assignedAgent <==>
            if ledger[c].agent.GetOr("") != "" then a == c || (c < a && ledger[a].Request? && ledger[a].agent == ledger[c].agent)
            else ledger[a].Package? && ledger[a].agent == Some("")
  {
    hide Fold, RowOf, LastWhere, StandingExpiry;
    StatusAgrees(QueuedScan, ledger, t);
    FoldIsSetByLast(QueuedScan, ledger, t);
    RowIsSetByLast(ledger, t);
    var c, a := LastWhere(ledger, AgentCarriers(t)), LastWhere(ledger, AgentNamers(t));
    assert AgentCarriers(t)(ledger[c]) && AgentNamers(t)(ledger[a]);
    assert ledger[c].agent.GetOr("") != "" ==> AgentNamers(t)(ledger[c]);
    assert !ledger[a].Request? ==> AgentCarriers(t)(ledger[a]);
  }

  /**
   * The failing record is one the daemon writes: an operator's reclaim of a task without a lease carries an empty agent.
   * The queued scan then offers the task to nobody named, while the row and the host scan keep the routed owner.
   */
  lemma ReclaimWithoutLeaseDiffers(t: string, a: string)
    requires t != "" && a != ""
    ensures var ledger := [PackageFor(t, a), ReclaimRecord(t, LeaseOf([PackageFor(t, a)], t).holder)];
            && RowOf(ledger, t).Some? && Fold(QueuedScan, ledger, t).Some? && Fold(HostScan, ledger, t).Some?
            && RowOf(ledger, t).value.assignedAgent == a && Fold(HostScan, ledger, t).value.ownerAgent == a
            && Fold(QueuedScan, ledger, t).value.assignedAgent == ""
            && !QueuedFor(Fold(QueuedScan, ledger, t).value, a)
  {
    hide Fold, RowOf, LeaseOf;
    var p := PackageFor(t, a);
    assert [] + [p] == [p];
    LeaseOfAppend([], p, t);
    NothingKnown(t);
    var r := ReclaimRecord(t, "");
    assert [p] + [r] == [p, r];
    RowOfAppend([], p, t);
    RowOfAppend([p], r, t);
    FoldStep(QueuedScan, [], p, t);
    FoldStep(QueuedScan, [p], r, t);
    FoldStep(HostScan, [], p, t);
    FoldStep(HostScan, [p], r, t);
  }

  lemma NothingKnown(t: string)
    ensures RowOf([], t) == None && Fold(QueuedScan, [], t) == None && Fold(HostScan, [], t) == None
    ensures LeaseOf([], t) == LeaseState(false, "", 0, 0)
  {
  }

  /** A package without an agent belongs to everyone in the table and to nobody in the scan. */
  lemma UnassignedPackageDiffers(ledger: seq<Record>, r: Record, t: string)
    requires IsPackageOf(r, t) && r.agent.None?
    ensures RowOf(ledger + [r], t).Some? && RowOf(ledger + [r], t).value.assignedAgent == "all"
    ensures Fold(QueuedScan, ledger + [r], t).Some? && Fold(QueuedScan, ledger + [r], t).value.assignedAgent == ""
  {
    hide Fold, RowOf;
    RowOfAppend(ledger, r, t);
    FoldStep(QueuedScan, ledger, r, t);
  }

  // ----- Leases: the projection and wtTaskFindActiveLease -----

  ghost predicate PackagedBefore(ledger: seq<Record>, t: string, p: int) {
    exists m :: 0 <= m < p && m < |ledger| && IsPackageOf(ledger[m], t)
  }

  lemma {:induction false} RowIffPackaged(ledger: seq<Record>, t: string)
    ensures RowOf(ledger, t).Some? <==> PackagedBefore(ledger, t, |ledger|)
  {
    if ledger != [] {
      var n := |ledger| - 1;
      var before := ledger[..n];
      RowIffPackaged(before, t);
      if IsPackageOf(ledger[n], t) {
        assert PackagedBefore(ledger, t, n + 1);
      }
      if PackagedBefore(before, t, n) {
        var m :| 0 <= m < n && IsPackageOf(before[m], t);
        assert IsPackageOf(ledger[m], t);
      }
      if PackagedBefore(ledger, t, n + 1) && !IsPackageOf(ledger[n], t) {
        var m :| 0 <= m < n + 1 && IsPackageOf(ledger[m], t);
        assert IsPackageOf(before[m], t);
      }
    }
  }

  // The row's lease columns show this lease.
  predicate ShowsLease(row: Option<Row>, lease: LeaseState) {
    row.Some? && row.value.leaseOwner == lease.holder && row.value.leaseExpiresAt == lease.expires
  }

  // The last lease of t stands before every package of t, so that no row took it up.
  ghost predicate Missed(ledger: seq<Record>, t: string) {
    exists p :: LastLease(ledger, t, p) && !PackagedBefore(ledger, t, p)
  }

  lemma LastLeaseUnique(ledger: seq<Record>, t: string, p: int, q: int)
    requires LastLease(ledger, t, p) && LastLease(ledger, t, q)
    ensures p == q
  {
  }

  lemma MissedStep(ledger: seq<Record>, r: Record, t: string)
    ensures Missed(ledger + [r], t) <==> if IsLeaseOf(r, t) then RowOf(ledger, t).None? else Missed(ledger, t)
  {
    hide RowOf;
    var next, n := ledger + [r], |ledger|;
    RowIffPackaged(ledger, t);
    assert forall p :: 0 <= p <= n ==> (PackagedBefore(next, t, p) <==> PackagedBefore(ledger, t, p)) by {
      forall p | 0 <= p <= n
        ensures PackagedBefore(next, t, p) <==> PackagedBefore(ledger, t, p)
      {
        if PackagedBefore(ledger, t, p) {
          var m :| 0 <= m < p && m < n && IsPackageOf(ledger[m], t);
          assert IsPackageOf(next[m], t);
        }
        if PackagedBefore(next, t, p) {
          var m :| 0 <= m < p && m < n + 1 && IsPackageOf(next[m], t);
          assert IsPackageOf(ledger[m], t);
        }
      }
    }
    if IsLeaseOf(r, t) {
      assert LastLease(next, t, n);
      if Missed(next, t) {
        var p :| LastLease(next, t, p) && !PackagedBefore(next, t, p);
        LastLeaseUnique(next, t, p, n);
      }
    } else {
      if Missed(ledger, t) {
        var p :| LastLease(ledger, t, p) && !PackagedBefore(ledger, t, p);
        assert LastLease(next, t, p);
      }
      if Missed(next, t) {
        var p :| LastLease(next, t, p) && !PackagedBefore(next, t, p);
        forall k | p < k < n
          ensures !IsLeaseOf(ledger[k], t)
        {
          assert !IsLeaseOf(next[k], t);
        }
        assert IsLeaseOf(next[p], t) && next[p] == ledger[p];
        assert LastLease(ledger, t, p);
      }
    }
  }

  // Every lease record carries an agent or a status, so that the UPDATE takes it up; both claim procedures write the status leased.
  predicate LeasesUpdate(ledger: seq<Record>, t: string) {
    forall n :: 0 <= n < |ledger| && IsLeaseOf(ledger[n], t) ==> LeaseUpdates(ledger[n])
  }

  predicate LeaseUpdates(r: Record)
    requires r.Event?
  {
    r.status.GetOr(NoText) != NoText || r.agent.GetOr("") != ""
  }

  lemma {:induction false} LeaseColumns(ledger: seq<Record>, t: string)
    requires t != "" && LeasesUpdate(ledger, t)
    ensures LeaseOf(ledger, t).active && !Missed(ledger, t) ==> ShowsLease(RowOf(ledger, t), LeaseOf(ledger, t))
    ensures RowOf(ledger, t).Some? && Missed(ledger, t) ==>
              RowOf(ledger, t).value.leaseOwner == "" && RowOf(ledger, t).value.leaseExpiresAt == 0
  {
    if ledger != [] {
      hide LeaseOf, RowOf, Missed;
      var n := |ledger| - 1;
      var before, r := ledger[..n], ledger[n];
      assert ledger == before + [r];
      LeaseColumns(before, t);
      LeaseOfAppend(before, r, t);
      RowOfAppend(before, r, t);
      MissedStep(before, r, t);
    }
  }

  /**
   * When wtTaskFindActiveLease reports an active lease, the row shows its owner and expiry exactly when a
   * package of the task stands before that lease in the ledger, or the lease names neither and there is a row at all.
   */
  lemma ActiveLeaseIsProjectedIff(ledger: seq<Record>, t: string) returns (p: int)
    requires t != "" && LeasesUpdate(ledger, t) && LeaseOf(ledger, t).active
    ensures LastLease(ledger, t, p)
    ensures var row, lease := RowOf(ledger, t), LeaseOf(ledger, t);
            ShowsLease(row, lease) <==> PackagedBefore(ledger, t, p) || (row.Some? && lease.holder == "" && lease.expires == 0)
  {
    p := LeaseOfMeaning(ledger, t);
    LeaseColumns(ledger, t);
    if Missed(ledger, t) {
      var q :| LastLease(ledger, t, q) && !PackagedBefore(ledger, t, q);
      LastLeaseUnique(ledger, t, p, q);
    }
  }

  // ----- Attempts: the projected count and the lease records -----

  predicate AttemptsProjected(ledger: seq<Record>, t: string) {
    LeaseCount(ledger, t) == if RowOf(ledger, t).Some? then RowOf(ledger, t).value.attemptCount else 0
  }

  lemma LeaseCountAppend(ledger: seq<Record>, r: Record, t: string)
    ensures LeaseCount(ledger + [r], t) == LeaseCount(ledger, t) + if IsLeaseOf(r, t) then 1 else 0
  {
    assert (ledger + [r])[..|ledger|] == ledger;
  }

  lemma AttemptsProjectedAfter(ledger: seq<Record>, r: Record, t: string)
    requires t != "" && AttemptsProjected(ledger, t)
    requires IsLeaseOf(r, t) ==> RowOf(ledger, t).Some? && r.status == Some(Leased) && r.attempt == Some(LeaseCount(ledger, t) + 1)
    ensures AttemptsProjected(ledger + [r], t)
  {
    hide RowOf, LeaseCount;
    RowOfAppend(ledger, r, t);
    LeaseCountAppend(ledger, r, t);
  }

  // Both scanners offer only packaged tasks.
  lemma OfferedIsProjected(ledger: seq<Record>, agent: string, host: string, now: int)
    ensures LocalOffer(ledger, agent, now).Some? && LocalOffer(ledger, agent, now).value.taskId != "" ==>
              RowOf(ledger, LocalOffer(ledger, agent, now).value.taskId).Some?
    ensures HostOffer(ledger, agent, host, now).Some? && HostOffer(ledger, agent, host, now).value.taskId != "" ==>
              RowOf(ledger, HostOffer(ledger, agent, host, now).value.taskId).Some?
  {
    hide Fold, RowOf, Table;
    ScanRefinesFold(QueuedScan, ledger, e => QueuedFor(e, agent));
    ScanRefinesFold(LocalScan, ledger, e => StuckFor(e, agent, now));
    ScanRefinesFold(HostScan, ledger, e => OfferedOnHost(e, agent, host, now));
    forall scan, t | t != "" && Fold(scan, ledger, t).Some?
      ensures RowOf(ledger, t).Some?
    {
      StatusAgrees(scan, ledger, t);
    }
  }

  lemma ClaimIsProjected(ledger: seq<Record>, step: Step, durationMs: int) returns (u: string)
    ensures step.action.Append? ==> StepRecords(ledger, step, durationMs) == [step.action.record]
    ensures !step.action.Append? && StepRecords(ledger, step, durationMs) != [] ==>
              && StepRecords(ledger, step, durationMs) ==
                 ClaimRecords(LeaseOf(ledger, u), u, ClaimAgent(step.action), ClaimClock(step), durationMs)
              && (u != "" ==> RowOf(ledger, u).Some?)
  {
    hide LeaseOf, RowOf, LocalOffer, HostOffer;
    u := "";
    match step.action
    case LocalClaim(agent) =>
      var now := WholeSeconds(step.clock);
      OfferedIsProjected(ledger, agent, "", now);
      if LocalOffer(ledger, agent, now).Some? { u := LocalOffer(ledger, agent, now).value.taskId; }
    case RemoteClaim(agent, host, capable) =>
      OfferedIsProjected(ledger, agent, host, step.clock);
      if HostOffer(ledger, agent, host, step.clock).Some? { u := HostOffer(ledger, agent, host, step.clock).value.taskId; }
    case Append(r) =>
  }

  lemma AttemptsProjectedAfterClaim(ledger: seq<Record>, u: string, agent: string, now: int, durationMs: int, t: string)
    requires t != "" && AttemptsProjected(ledger, t) && LeaseOf(ledger, t).attempt == LeaseCount(ledger, t)
    requires u == t ==> RowOf(ledger, t).Some?
    ensures AttemptsProjected(ledger + ClaimRecords(LeaseOf(ledger, u), u, agent, now, durationMs), t)
  {
    hide RowOf, LeaseCount, LeaseOf;
    var lease := LeaseOf(ledger, u);
    if !ForeignLease(lease, agent, now) {
      var r := LeaseRecord(u, agent, lease.attempt + 1, now + durationMs);
      var middle := ledger;
      if StaleLease(lease, now) {
        var reclaim := ReclaimRecord(u, lease.holder);
        middle := ledger + [reclaim];
        AttemptsProjectedAfter(ledger, reclaim, t);
        LeaseCountAppend(ledger, reclaim, t);
        RowOfAppend(ledger, reclaim, t);
      }
      AttemptsProjectedAfter(middle, r, t);
      assert ledger + ClaimRecords(lease, u, agent, now, durationMs) == middle + [r];
    } else {
      assert ledger + [] == ledger;
    }
  }

  lemma StepProjectsAttempts(ledger: seq<Record>, step: Step, durationMs: int, t: string)
    requires t != "" && AttemptsProjected(ledger, t) && LeaseOf(ledger, t).attempt == LeaseCount(ledger, t)
    requires step.action.Append? ==> !(step.action.record.Event? && step.action.record.eventType == Lease)
    ensures AttemptsProjected(ledger + StepRecords(ledger, step, durationMs), t)
  {
    hide LeaseOf, RowOf, LeaseCount, AttemptsProjected, StepRecords;
    var u := ClaimIsProjected(ledger, step, durationMs);
    if step.action.Append? {
      AttemptsProjectedAfter(ledger, step.action.record, t);
    } else if StepRecords(ledger, step, durationMs) == [] {
      assert ledger + [] == ledger;
    } else {
      AttemptsProjectedAfterClaim(ledger, u, ClaimAgent(step.action), ClaimClock(step), durationMs, t);
    }
  }

  lemma NothingProjected(t: string)
    ensures AttemptsProjected([], t)
  {
  }

  /** In every run where only claims write leases the projected attempt count equals the number of leases. */
  lemma {:induction false} RunProjectsAttempts(steps: seq<Step>, durationMs: int, t: string)
    requires t != "" && IsRun(steps)
    ensures AttemptsProjected(RunLedger(steps, durationMs), t)
  {
    if steps == [] {
      NothingProjected(t);
    } else {
      hide LeaseOf, RowOf, LeaseCount, AttemptsProjected, StepRecords, IsRun;
      var n := |steps| - 1;
      RunUnfolds(steps, durationMs);
      RunProjectsAttempts(steps[..n], durationMs, t);
      RunCountsAttempts(steps[..n], durationMs, t);
      AttemptIsCount(RunLedger(steps[..n], durationMs), t);
      StepProjectsAttempts(RunLedger(steps[..n], durationMs), steps[n], durationMs, t);
    }
  }

  // ----- Leases in runs -----

  lemma MissedAfterClaim(ledger: seq<Record>, u: string, agent: string, now: int, durationMs: int, t: string)
    requires !Missed(ledger, t) && LeasesUpdate(ledger, t)
    requires u == t ==> RowOf(ledger, t).Some?
    ensures var next := ledger + ClaimRecords(LeaseOf(ledger, u), u, agent, now, durationMs);
            !Missed(next, t) && LeasesUpdate(next, t)
  {
    hide RowOf, LeaseOf, Missed;
    var lease := LeaseOf(ledger, u);
    if !ForeignLease(lease, agent, now) {
      var r := LeaseRecord(u, agent, lease.attempt + 1, now + durationMs);
      var middle := ledger;
      if StaleLease(lease, now) {
        var reclaim := ReclaimRecord(u, lease.holder);
        middle := ledger + [reclaim];
        MissedStep(ledger, reclaim, t);
        RowOfAppend(ledger, reclaim, t);
      }
      MissedStep(middle, r, t);
      assert ledger + ClaimRecords(lease, u, agent, now, durationMs) == middle + [r];
    } else {
      assert ledger + [] == ledger;
    }
  }

  lemma {:induction false} RunMissesNoLease(steps: seq<Step>, durationMs: int, t: string)
    requires t != "" && IsRun(steps)
    ensures !Missed(RunLedger(steps, durationMs), t) && LeasesUpdate(RunLedger(steps, durationMs), t)
  {
    if steps == [] {
      assert RunLedger(steps, durationMs) == [];
    } else {
      hide *;
      var n := |steps| - 1;
      RunUnfolds(steps, durationMs);
      RunMissesNoLease(steps[..n], durationMs, t);
      StepMissesNoLease(RunLedger(steps[..n], durationMs), steps[n], durationMs, t);
    }
  }

  lemma StepMissesNoLease(ledger: seq<Record>, step: Step, durationMs: int, t: string)
    requires t != "" && !Missed(ledger, t) && LeasesUpdate(ledger, t)
    requires step.action.Append? ==> !(step.action.record.Event? && step.action.record.eventType == Lease)
    ensures var next := ledger + StepRecords(ledger, step, durationMs); !Missed(next, t) && LeasesUpdate(next, t)
  {
    hide LeaseOf, RowOf, Missed, StepRecords;
    var u := ClaimIsProjected(ledger, step, durationMs);
    if step.action.Append? {
      MissedStep(ledger, step.action.record, t);
    } else if StepRecords(ledger, step, durationMs) == [] {
      assert ledger + [] == ledger;
    } else {
      MissedAfterClaim(ledger, u, ClaimAgent(step.action), ClaimClock(step), durationMs, t);
    }
  }

  /** In every run the row of a task with an active lease shows the lease's owner and expiry. */
  lemma RunProjectsActiveLease(steps: seq<Step>, durationMs: int, t: string)
    requires t != "" && IsRun(steps)
    ensures var ledger := RunLedger(steps, durationMs);
            LeaseOf(ledger, t).active ==> ShowsLease(RowOf(ledger, t), LeaseOf(ledger, t))
  {
    RunMissesNoLease(steps, durationMs, t);
    LeaseColumns(RunLedger(steps, durationMs), t);
  }
}
