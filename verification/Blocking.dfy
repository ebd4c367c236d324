/**
 * src/wt_task_store.c, wtTaskAppendBlockedDependents: when a task is blocked, the tasks that list it among
 * their dependencies are blocked too.
 */
module Blocking {
  import opened Options
  import opened Ledger
  import opened Scanners
  import opened Leases

  // The list of dependents holds this many entries.
  const DEPENDENTS_SIZE: nat := 256

  predicate ListsDependency(r: Record, blocked: string) { r.Package? && blocked in r.dependencies }

  predicate InTable(table: seq<Entry>, t: string) { Find(table, t) < |table| }

  // The dependents as the scan collects them: one entry per listing package of a task in the table.
  function Dependents(ledger: seq<Record>, blocked: string): (ids: seq<string>)
    ensures |ids| <= DEPENDENTS_SIZE
  {
    if ledger == [] then []
    else
      var n := |ledger| - 1;
      var before := Dependents(ledger[..n], blocked);
      if ListsDependency(ledger[n], blocked) && InTable(Table(QueuedScan, ledger), ledger[n].taskId) && |before| < DEPENDENTS_SIZE
      then before + [ledger[n].taskId]
      else before
  }

  predicate Settled(s: Status) { Terminal(s) || s == BlockedStatus }

  predicate SettledIn(table: seq<Entry>, t: string) {
    var i := Find(table, t);
    i == |table| || Settled(table[i].status)
  }

  // The dependents that are neither terminal nor blocked.
  function Unsettled(ids: seq<string>, table: seq<Entry>): seq<string> {
    if ids == [] then []
    else
      var n := |ids| - 1;
      Unsettled(ids[..n], table) + if SettledIn(table, ids[n]) then [] else [ids[n]]
  }

  function BlockAll(ids: seq<string>): (records: seq<Record>)
    ensures |records| == |ids|
  {
    seq(|ids|, i requires 0 <= i < |ids| => StatusRecord(ids[i], BlockedStatus))
  }

  // What the call appends: statuses are those read before its first append.
  function BlockRecords(ledger: seq<Record>, blocked: string): seq<Record> {
    BlockAll(Unsettled(Dependents(ledger, blocked), Table(QueuedScan, ledger)))
  }

  // The dependents' part of one turn of the loop.
  method NoteDependent(
      tasks: array<Entry>, count: nat, dependsOnBlocked: array<string>, dependentCount: nat, ghost seen: seq<Record>, r: Record,
      blocked: string)
    returns (next: nat)
    requires count <= tasks.Length && dependsOnBlocked.Length == DEPENDENTS_SIZE && dependentCount <= DEPENDENTS_SIZE
    requires seen != [] && r == seen[|seen| - 1] && tasks[..count] == Table(QueuedScan, seen)
    requires dependsOnBlocked[..dependentCount] == Dependents(seen[..|seen| - 1], blocked)
    modifies dependsOnBlocked
    ensures next <= DEPENDENTS_SIZE && dependsOnBlocked[..next] == Dependents(seen, blocked)
  {
    hide Table;
    next := dependentCount;
    if r.Package? {
      var index := FindKnownTask(tasks, count, r.taskId);
      if index < count && ListsDependency(r, blocked) && dependentCount < DEPENDENTS_SIZE {
        dependsOnBlocked[dependentCount] := r.taskId;
        next := dependentCount + 1;
      }
    }
  }

  method CollectDependents(ledger: seq<Record>, blocked: string)
    returns (tasks: array<Entry>, count: nat, dependsOnBlocked: array<string>, dependentCount: nat)
    ensures fresh(tasks) && tasks.Length == TABLE_SIZE && count <= TABLE_SIZE
    ensures fresh(dependsOnBlocked) && dependsOnBlocked.Length == DEPENDENTS_SIZE && dependentCount <= DEPENDENTS_SIZE
    ensures tasks[..count] == Table(QueuedScan, ledger)
    ensures dependsOnBlocked[..dependentCount] == Dependents(ledger, blocked)
  {
    tasks := new Entry[TABLE_SIZE](_ => BlankEntry(""));
    dependsOnBlocked := new string[DEPENDENTS_SIZE](_ => "");
    count, dependentCount := 0, 0;
    for n := 0 to |ledger|
      invariant count <= TABLE_SIZE && dependentCount <= DEPENDENTS_SIZE
      invariant tasks[..count] == Table(QueuedScan, ledger[..n])
      invariant dependsOnBlocked[..dependentCount] == Dependents(ledger[..n], blocked)
    {
      hide Table, TableStep, Dependents;
      count := ScanRecord(QueuedScan, tasks, count, ledger[n]);
      TableTurn(QueuedScan, ledger, n);
      dependentCount := NoteDependent(tasks, count, dependsOnBlocked, dependentCount, ledger[..n + 1], ledger[n], blocked);
    }
    assert ledger[..|ledger|] == ledger;
  }

  lemma NothingYet(table: seq<Entry>)
    ensures Unsettled([], table) == [] && BlockAll([]) == []
  {
  }

  lemma BlockAllStep(ids: seq<string>, t: string)
    ensures BlockAll(ids + [t]) == BlockAll(ids) + [StatusRecord(t, BlockedStatus)]
  {
  }

  lemma UnsettledStep(ids: seq<string>, n: nat, table: seq<Entry>)
    requires n < |ids|
    ensures Unsettled(ids[..n + 1], table) == if SettledIn(table, ids[n]) then Unsettled(ids[..n], table) else Unsettled(ids[..n], table) + [ids[n]]
  {
    hide SettledIn;
    assert ids[..n + 1][..n] == ids[..n];
    assert Unsettled(ids[..n], table) + [] == Unsettled(ids[..n], table);
  }

  method IsSettled(tasks: array<Entry>, count: nat, t: string) returns (settled: bool)
    requires count <= tasks.Length
    ensures settled == SettledIn(tasks[..count], t)
  {
    var taskIndex := FindKnownTask(tasks, count, t);
    settled := taskIndex == count || Settled(tasks[taskIndex].status);
  }

  method AppendBlockedDependents(ledger: TaskLedger, blockedTaskId: string) returns (appended: nat)
    modifies ledger
    ensures ledger.records == old(ledger.records) + BlockRecords(old(ledger.records), blockedTaskId)
    ensures appended == |BlockRecords(old(ledger.records), blockedTaskId)|
  {
    hide BlockAll, Table, Dependents, Settled, Find, SettledIn, Unsettled;
    var tasks, count, dependsOnBlocked, dependentCount := CollectDependents(ledger.records, blockedTaskId);
    ghost var records, table, ids := ledger.records, tasks[..count], dependsOnBlocked[..dependentCount];
    NothingYet(table);
    appended := 0;
    for depIndex := 0 to dependentCount
      invariant tasks[..count] == table && dependsOnBlocked[..dependentCount] == ids
      invariant ledger.records == records + BlockAll(Unsettled(ids[..depIndex], table))
      invariant appended == |Unsettled(ids[..depIndex], table)|
    {
      UnsettledStep(ids, depIndex, table);
      assert ids[depIndex] == dependsOnBlocked[depIndex];
      var settled := IsSettled(tasks, count, dependsOnBlocked[depIndex]);
      if !settled {
        ledger.AppendRecord(StatusRecord(dependsOnBlocked[depIndex], BlockedStatus));
        BlockAllStep(Unsettled(ids[..depIndex], table), ids[depIndex]);
        appended := appended + 1;
      }
    }
    assert ids[..dependentCount] == ids;
  }

  // ----- What the call means -----

  // The task of every package that lists the blocked task, in ledger order.
  function Listings(ledger: seq<Record>, blocked: string): seq<string> {
    if ledger == [] then []
    else
      var n := |ledger| - 1;
      Listings(ledger[..n], blocked) + if ListsDependency(ledger[n], blocked) then [ledger[n].taskId] else []
  }

  // Nothing is cut off: at most 256 tasks and at most 256 listing packages.
  predicate Fits(ledger: seq<Record>, blocked: string) {
    |Packaged(ledger)| <= 256 && |Listings(ledger, blocked)| <= 256
  }

  lemma InTableIffPackaged(ledger: seq<Record>, t: string)
    requires |Packaged(ledger)| <= TABLE_SIZE
    ensures InTable(Table(QueuedScan, ledger), t) <==> t in Packaged(ledger)
    ensures InTable(Table(QueuedScan, ledger), t) ==>
              Fold(QueuedScan, ledger, t) == Some(Table(QueuedScan, ledger)[Find(Table(QueuedScan, ledger), t)])
  {
    hide Fold, Packaged, Table;
    TableRefinesFold(QueuedScan, ledger);
    FindInKnown(QueuedScan, ledger, Table(QueuedScan, ledger), t);
  }

  /** Only the first 256 listings are looked at, however many there are. */
  lemma {:induction false} DependentsAreFirst256(ledger: seq<Record>, blocked: string)
    requires |Packaged(ledger)| <= 256
    ensures var all := Listings(ledger, blocked); Dependents(ledger, blocked) == all[..if |all| <= 256 then |all| else 256]
  {
    if ledger != [] {
      hide Table, Packaged;
      var n := |ledger| - 1;
      PackagedGrows(ledger);
      DependentsAreFirst256(ledger[..n], blocked);
      if ledger[n].Package? {
        InTableIffPackaged(ledger, ledger[n].taskId);
        PackagedHas(ledger);
      }
    }
  }

  lemma DependentsAreListings(ledger: seq<Record>, blocked: string)
    requires Fits(ledger, blocked)
    ensures Dependents(ledger, blocked) == Listings(ledger, blocked)
  {
    DependentsAreFirst256(ledger, blocked);
  }

  lemma PackagedGrows(ledger: seq<Record>)
    requires ledger != []
    ensures |Packaged(ledger[..|ledger| - 1])| <= |Packaged(ledger)|
  {
  }

  lemma PackagedHas(ledger: seq<Record>)
    requires ledger != [] && ledger[|ledger| - 1].Package?
    ensures ledger[|ledger| - 1].taskId in Packaged(ledger)
  {
  }

  lemma {:induction false} UnsettledMembers(ids: seq<string>, table: seq<Entry>, t: string)
    ensures t in Unsettled(ids, table) <==> t in ids && !SettledIn(table, t)
  {
    if ids != [] {
      var n := |ids| - 1;
      UnsettledMembers(ids[..n], table, t);
      assert ids == ids[..n] + [ids[n]];
    }
  }

  lemma FoldAfterBlockOne(scan: Scan, ledger: seq<Record>, id: string, t: string)
    ensures var before := Fold(scan, ledger, t);
            Fold(scan, ledger + [StatusRecord(id, BlockedStatus)], t) ==
            if before.Some? && t == id then Some(before.value.(status := BlockedStatus)) else before
  {
    hide Fold;
    FoldStep(scan, ledger, StatusRecord(id, BlockedStatus), t);
  }

  lemma {:induction false} FoldAfterBlockAll(scan: Scan, ledger: seq<Record>, ids: seq<string>, t: string)
    ensures var before, after := Fold(scan, ledger, t), Fold(scan, ledger + BlockAll(ids), t);
            after == if before.Some? && t in ids then Some(before.value.(status := BlockedStatus)) else before
  {
    hide Fold, BlockAll;
    if ids == [] {
      NothingYet([]);
      assert ledger + [] == ledger;
    } else {
      var n := |ids| - 1;
      var head := ids[..n];
      FoldAfterBlockAll(scan, ledger, head, t);
      BlockAllStep(head, ids[n]);
      assert ids == head + [ids[n]];
      FoldAfterBlockOne(scan, ledger + BlockAll(head), ids[n], t);
      assert ledger + BlockAll(ids) == ledger + BlockAll(head) + [StatusRecord(ids[n], BlockedStatus)];
    }
  }

  // Task t lists the blocked task and is neither terminal nor blocked.
  predicate Affected(ledger: seq<Record>, blocked: string, t: string) {
    && t in Listings(ledger, blocked) && Fold(QueuedScan, ledger, t).Some?
    && Fold(QueuedScan, ledger, t).value.status !in [Complete, Failed, Cancelled, Closed, BlockedStatus]
  }

  lemma SettledIff(s: Status)
    ensures Settled(s) <==> s in [Complete, Failed, Cancelled, Closed, BlockedStatus]
  {
  }

  lemma UnsettledIffAffected(ledger: seq<Record>, blocked: string, t: string)
    requires Fits(ledger, blocked)
    ensures t in Unsettled(Dependents(ledger, blocked), Table(QueuedScan, ledger)) <==> Affected(ledger, blocked, t)
  {
    hide Fold, Table, Packaged, Listings, Dependents, Unsettled, Settled;
    DependentsAreListings(ledger, blocked);
    UnsettledMembers(Dependents(ledger, blocked), Table(QueuedScan, ledger), t);
    InTableIffPackaged(ledger, t);
    PackagedIffFold(QueuedScan, ledger, t);
    if Fold(QueuedScan, ledger, t).Some? {
      SettledIff(Fold(QueuedScan, ledger, t).value.status);
    }
  }

  /**
   * Blocking propagates exactly: for every scanner an affected task becomes blocked and nothing else about it or
   * about any other task changes; afterwards every task that lists the blocked one is blocked or terminal.
   */
  lemma BlockingIsExact(scan: Scan, ledger: seq<Record>, blocked: string, t: string)
    requires Fits(ledger, blocked)
    ensures var before, after := Fold(scan, ledger, t), Fold(scan, ledger + BlockRecords(ledger, blocked), t);
            && after == (if before.Some? && Affected(ledger, blocked, t) then Some(before.value.(status := BlockedStatus)) else before)
            && (t in Listings(ledger, blocked) ==>
                  after.Some? && after.value.status in [Complete, Failed, Cancelled, Closed, BlockedStatus])
  {
    hide Fold, Table, Dependents, Unsettled, Listings;
    var ids := Unsettled(Dependents(ledger, blocked), Table(QueuedScan, ledger));
    FoldAfterBlockAll(scan, ledger, ids, t);
    UnsettledIffAffected(ledger, blocked, t);
    StatusIsCommon(scan, ledger, t);
    ListedIsPackaged(ledger, blocked, t);
  }

  lemma {:induction false} ListedIsPackaged(ledger: seq<Record>, blocked: string, t: string)
    ensures t in Listings(ledger, blocked) ==> Fold(QueuedScan, ledger, t).Some?
  {
    if ledger != [] {
      ListedIsPackaged(ledger[..|ledger| - 1], blocked, t);
    }
  }

  // ----- How many records -----

  function Times(ids: seq<string>, t: string): nat {
    if ids == [] then 0 else Times(ids[..|ids| - 1], t) + if ids[|ids| - 1] == t then 1 else 0
  }

  lemma {:induction false} UnsettledTimes(ids: seq<string>, table: seq<Entry>, t: string)
    ensures Times(Unsettled(ids, table), t) == if SettledIn(table, t) then 0 else Times(ids, t)
  {
    if ids != [] {
      var n := |ids| - 1;
      UnsettledTimes(ids[..n], table, t);
      var before := Unsettled(ids[..n], table);
      assert (before + [ids[n]])[..|before|] == before && before + [] == before;
      assert SettledIn(table, ids[n]) ==> Unsettled(ids, table) == before;
      assert !SettledIn(table, ids[n]) ==> Unsettled(ids, table) == before + [ids[n]];
    }
  }

  /**
   * An affected task gets one record per package of it that lists the blocked task, any other task none: so one
   * record each exactly when each dependent was packaged once.
   */
  lemma RecordsPerTask(ledger: seq<Record>, blocked: string, t: string)
    requires Fits(ledger, blocked)
    ensures Times(Unsettled(Dependents(ledger, blocked), Table(QueuedScan, ledger)), t) ==
            if Affected(ledger, blocked, t) then Times(Listings(ledger, blocked), t) else 0
  {
    hide Fold, Table, Packaged;
    DependentsAreListings(ledger, blocked);
    UnsettledTimes(Dependents(ledger, blocked), Table(QueuedScan, ledger), t);
    UnsettledIffAffected(ledger, blocked, t);
    UnsettledMembers(Dependents(ledger, blocked), Table(QueuedScan, ledger), t);
    NotInMeansZero(Listings(ledger, blocked), t);
  }

  lemma {:induction false} NotInMeansZero(ids: seq<string>, t: string)
    ensures t in ids <==> Times(ids, t) > 0
  {
    if ids != [] {
      NotInMeansZero(ids[..|ids| - 1], t);
      assert ids == ids[..|ids| - 1] + [ids[|ids| - 1]];
    }
  }

  // ----- The second call -----

  lemma {:induction false} BlockingKeepsPackages(ledger: seq<Record>, ids: seq<string>, blocked: string)
    ensures Packaged(ledger + BlockAll(ids)) == Packaged(ledger)
    ensures Listings(ledger + BlockAll(ids), blocked) == Listings(ledger, blocked)
  {
    if ids == [] {
      assert ledger + BlockAll(ids) == ledger;
    } else {
      hide BlockAll;
      var n := |ids| - 1;
      BlockingKeepsPackages(ledger, ids[..n], blocked);
      BlockAllStep(ids[..n], ids[n]);
      assert ids == ids[..n] + [ids[n]];
      var before := ledger + BlockAll(ids[..n]);
      assert ledger + BlockAll(ids) == before + [StatusRecord(ids[n], BlockedStatus)];
      assert (before + [StatusRecord(ids[n], BlockedStatus)])[..|before|] == before;
    }
  }

  /** A second call appends nothing. */
  lemma SecondCallAddsNothing(ledger: seq<Record>, blocked: string)
    requires Fits(ledger, blocked)
    ensures BlockRecords(ledger + BlockRecords(ledger, blocked), blocked) == []
  {
    hide Fold, Table, Packaged, Listings, Dependents;
    var ids := Unsettled(Dependents(ledger, blocked), Table(QueuedScan, ledger));
    var after := ledger + BlockRecords(ledger, blocked);
    BlockingKeepsPackages(ledger, ids, blocked);
    var again := Unsettled(Dependents(after, blocked), Table(QueuedScan, after));
    if again != [] {
      var t := again[0];
      UnsettledIffAffected(after, blocked, t);
      BlockingIsExact(QueuedScan, ledger, blocked, t);
      assert false;
    }
  }
}
