/**
 * src/wt_task_store.c: the scanners that look for a task an agent may claim. The three C loops over
 * the ledger are one loop here, with the differences between them in ApplyEvent.
 */
module Scanners {
  import opened Options
  import opened Ledger

  // The tables hold this many distinct packaged tasks.
  const TABLE_SIZE: nat := 256

  // What a table row keeps: the fields of WtTaskSummary that decide an offer, ownerAgent and leaseExpiresAt.
  datatype Entry = Entry(
    taskId: string, status: Status, assignedAgent: string, ownerAgent: string, executionHost: string, leaseExpiresAt: int)

  // wtTaskFindQueuedForAgent, the second pass of wtTaskFindClaimableForAgent, wtTaskFindClaimableForAgentOnHost.
  datatype Scan = QueuedScan | LocalScan | HostScan

  function BlankEntry(t: string): Entry { Entry(t, NoText, "", "", "", 0) }

  // populateTaskPackageFields; a second package keeps the lease expiry.
  function ApplyPackage(e: Entry, r: Record): Entry
    requires r.Package?
  {
    var agent := r.agent.GetOr("");
    e.(assignedAgent := agent, ownerAgent := agent, status := r.status.GetOr(Queued), executionHost := r.executionHost)
  }

  function ApplyEvent(scan: Scan, e: Entry, r: Record): Entry
    requires r.Event?
  {
    var e1 := e.(status := r.status.GetOr(e.status));
    if scan == QueuedScan then e1.(assignedAgent := r.agent.GetOr(e.assignedAgent))
    else
      var e2 :=
        if r.eventType == Routing || r.eventType == Assignment
        then e1.(ownerAgent := r.agent.GetOr(e.ownerAgent), assignedAgent := r.agent.GetOr(e.assignedAgent))
        else e1;
      if r.eventType == Lease || (scan == HostScan && r.eventType == LeaseRenewal)
      then e2.(leaseExpiresAt := r.leaseExpiresAt.GetOr(e.leaseExpiresAt))
      else if r.eventType == Reclaim then e2.(leaseExpiresAt := 0)
      else e2
  }

  // ----- The fold over one task's records -----

  function Apply(scan: Scan, e: Option<Entry>, r: Record, t: string): Option<Entry> {
    if IsPackageOf(r, t) then Some(ApplyPackage(e.GetOr(BlankEntry(t)), r))
    else if IsEventOf(r, t) && e.Some? then Some(ApplyEvent(scan, e.value, r))
    else e
  }

  // What a scan without a table limit knows about task t.
  function Fold(scan: Scan, ledger: seq<Record>, t: string): (e: Option<Entry>)
    ensures e.Some? ==> e.value.taskId == t
  {
    if ledger == [] then None
    else
      var n := |ledger| - 1;
      Apply(scan, Fold(scan, ledger[..n], t), ledger[n], t)
  }

  // The distinct packaged tasks in the order of their first package.
  function Packaged(ledger: seq<Record>): seq<string> {
    if ledger == [] then []
    else
      var n := |ledger| - 1;
      var ids := Packaged(ledger[..n]);
      if ledger[n].Package? && ledger[n].taskId !in ids then ids + [ledger[n].taskId] else ids
  }

  // The tasks that fit the table.
  function Known(ledger: seq<Record>): seq<string> {
    var ids := Packaged(ledger);
    if |ids| <= TABLE_SIZE then ids else ids[..TABLE_SIZE]
  }

  lemma {:induction false} PackagedIffFold(scan: Scan, ledger: seq<Record>, t: string)
    ensures t in Packaged(ledger) <==> Fold(scan, ledger, t).Some?
  {
    if ledger != [] {
      PackagedIffFold(scan, ledger[..|ledger| - 1], t);
    }
  }

  lemma {:induction false} PackagedDistinct(ledger: seq<Record>)
    ensures forall i, j :: 0 <= i < j < |Packaged(ledger)| ==> Packaged(ledger)[i] != Packaged(ledger)[j]
  {
    if ledger != [] {
      PackagedDistinct(ledger[..|ledger| - 1]);
    }
  }

  // ----- The table -----

  function Find(table: seq<Entry>, t: string): (i: nat)
    ensures i <= |table|
    ensures i < |table| ==> table[i].taskId == t
    ensures forall j :: 0 <= j < i ==> table[j].taskId != t
  {
    if table == [] || table[0].taskId == t then 0 else 1 + Find(table[1..], t)
  }

  // One turn of the scan loop.
  function TableStep(scan: Scan, table: seq<Entry>, r: Record): (next: seq<Entry>)
    requires |table| <= TABLE_SIZE
    ensures |next| <= TABLE_SIZE
  {
    if r.Package? then
      var i := Find(table, r.taskId);
      if i < |table| then table[i := ApplyPackage(table[i], r)]
      else if |table| < TABLE_SIZE then table + [ApplyPackage(BlankEntry(r.taskId), r)]
      else table
    else if r.Event? then
      var i := Find(table, r.taskId);
      if i < |table| then table[i := ApplyEvent(scan, table[i], r)] else table
    else table
  }

  function Table(scan: Scan, ledger: seq<Record>): (table: seq<Entry>)
    ensures |table| <= TABLE_SIZE
  {
    if ledger == [] then [] else TableStep(scan, Table(scan, ledger[..|ledger| - 1]), ledger[|ledger| - 1])
  }

  method FindKnownTask(tasks: array<Entry>, count: nat, t: string) returns (index: nat)
    requires count <= tasks.Length
    ensures index == Find(tasks[..count], t)
  {
    index := 0;
    while index < count && tasks[index].taskId != t
      invariant index <= count
      invariant Find(tasks[..count], t) == index + Find(tasks[index..count], t)
    {
      assert tasks[index..count][1..] == tasks[index + 1..count];
      index := index + 1;
    }
  }

  // One turn of the loop.
  method ScanRecord(scan: Scan, tasks: array<Entry>, count: nat, r: Record) returns (next: nat)
    requires tasks.Length == TABLE_SIZE && count <= TABLE_SIZE
    modifies tasks
    ensures next <= TABLE_SIZE && tasks[..next] == TableStep(scan, old(tasks[..count]), r)
  {
    hide ApplyPackage, ApplyEvent;
    next := count;
    if r.Package? {
      var index := FindKnownTask(tasks, count, r.taskId);
      if index == count && count < TABLE_SIZE {
        tasks[count] := BlankEntry(r.taskId);
        next := count + 1;
      }
      if index < next {
        tasks[index] := ApplyPackage(tasks[index], r);
      }
    } else if r.Event? {
      var index := FindKnownTask(tasks, count, r.taskId);
      if index < count {
        tasks[index] := ApplyEvent(scan, tasks[index], r);
      }
    }
  }

  lemma TableTurn(scan: Scan, ledger: seq<Record>, n: nat)
    requires n < |ledger|
    ensures ledger[..n + 1][..n] == ledger[..n]
    ensures Table(scan, ledger[..n + 1]) == TableStep(scan, Table(scan, ledger[..n]), ledger[n])
  {
    hide TableStep;
    assert ledger[..n + 1][..n] == ledger[..n];
  }

  // The loop the three scanners share.
  method ScanLedger(scan: Scan, ledger: seq<Record>) returns (tasks: array<Entry>, count: nat)
    ensures fresh(tasks) && tasks.Length == TABLE_SIZE && count <= TABLE_SIZE
    ensures tasks[..count] == Table(scan, ledger)
  {
    tasks := new Entry[TABLE_SIZE](_ => BlankEntry(""));
    count := 0;
    for n := 0 to |ledger|
      invariant count <= TABLE_SIZE
      invariant tasks[..count] == Table(scan, ledger[..n])
    {
      hide Table, TableStep;
      count := ScanRecord(scan, tasks, count, ledger[n]);
      TableTurn(scan, ledger, n);
    }
    assert ledger[..|ledger|] == ledger;
  }

  /** The table holds the fold of each of the first 256 packaged tasks, in the order they were packaged. */
  lemma {:induction false} TableRefinesFold(scan: Scan, ledger: seq<Record>)
    ensures |Table(scan, ledger)| == |Known(ledger)|
    ensures forall i :: 0 <= i < |Known(ledger)| ==> Fold(scan, ledger, Known(ledger)[i]) == Some(Table(scan, ledger)[i])
  {
    if ledger != [] {
      var n := |ledger| - 1;
      var before, r := ledger[..n], ledger[n];
      TableRefinesFold(scan, before);
      TableStepRefines(scan, before, r);
      assert ledger == before + [r];
    }
  }

  lemma KnownStep(ledger: seq<Record>, r: Record)
    ensures var ids, next := Known(ledger), Known(ledger + [r]);
            next == if r.Package? && r.taskId !in Packaged(ledger) && |ids| < TABLE_SIZE then ids + [r.taskId] else ids
  {
    assert (ledger + [r])[..|ledger|] == ledger;
  }

  lemma FoldStep(scan: Scan, ledger: seq<Record>, r: Record, t: string)
    ensures Fold(scan, ledger + [r], t) == Apply(scan, Fold(scan, ledger, t), r, t)
  {
    assert (ledger + [r])[..|ledger|] == ledger;
  }

  predicate Refines(scan: Scan, ledger: seq<Record>, table: seq<Entry>) {
    && |table| == |Known(ledger)|
    && forall i :: 0 <= i < |table| ==> Fold(scan, ledger, Known(ledger)[i]) == Some(table[i])
  }

  lemma FindInKnown(scan: Scan, ledger: seq<Record>, table: seq<Entry>, t: string)
    requires Refines(scan, ledger, table)
    ensures var i := Find(table, t);
            && (i < |table| ==> Known(ledger)[i] == t)
            && (i == |table| ==> t !in Known(ledger))
  {
    var ids := Known(ledger);
    assert forall j :: 0 <= j < |table| ==> table[j].taskId == ids[j];
  }

  lemma TableStepRefines(scan: Scan, ledger: seq<Record>, r: Record)
    requires Refines(scan, ledger, Table(scan, ledger))
    ensures Refines(scan, ledger + [r], TableStep(scan, Table(scan, ledger), r))
  {
    KnownStep(ledger, r);
    if r.Package? {
      PackageStepRefines(scan, ledger, Table(scan, ledger), r);
    } else if r.Event? {
      EventStepRefines(scan, ledger, Table(scan, ledger), r);
    } else {
      forall i | 0 <= i < |Known(ledger)|
        ensures Fold(scan, ledger + [r], Known(ledger)[i]) == Some(Table(scan, ledger)[i])
      {
        FoldStep(scan, ledger, r, Known(ledger)[i]);
      }
    }
  }

  lemma EventStepRefines(scan: Scan, ledger: seq<Record>, table: seq<Entry>, r: Record)
    requires r.Event? && |table| <= TABLE_SIZE && Refines(scan, ledger, table)
    ensures Refines(scan, ledger + [r], TableStep(scan, table, r))
  {
    hide Fold, Packaged, ApplyEvent;
    var ids, next := Known(ledger), TableStep(scan, table, r);
    KnownStep(ledger, r);
    FindInKnown(scan, ledger, table, r.taskId);
    KnownDistinct(ledger);
    forall i | 0 <= i < |ids|
      ensures Fold(scan, ledger + [r], ids[i]) == Some(next[i])
    {
      FoldStep(scan, ledger, r, ids[i]);
    }
  }

  lemma KnownDistinct(ledger: seq<Record>)
    ensures forall i, j :: 0 <= i < j < |Known(ledger)| ==> Known(ledger)[i] != Known(ledger)[j]
  {
    PackagedDistinct(ledger);
  }

  lemma PackageStepRefines(scan: Scan, ledger: seq<Record>, table: seq<Entry>, r: Record)
    requires r.Package? && |table| <= TABLE_SIZE && Refines(scan, ledger, table)
    ensures Refines(scan, ledger + [r], TableStep(scan, table, r))
  {
    hide Fold, Packaged, ApplyPackage;
    var ids, next := Known(ledger), TableStep(scan, table, r);
    KnownStep(ledger, r);
    FindInKnown(scan, ledger, table, r.taskId);
    KnownDistinct(ledger);
    PackagedIffFold(scan, ledger, r.taskId);
    forall i | 0 <= i < |ids|
      ensures Fold(scan, ledger + [r], ids[i]) == Some(next[i])
    {
      FoldStep(scan, ledger, r, ids[i]);
    }
    FoldStep(scan, ledger, r, r.taskId);
    if |table| < TABLE_SIZE {
      assert ids == Packaged(ledger);
    }
  }

  // The tasks that are known: the first 256 packaged ones, in the order of their first package.
  lemma KnownAre256(scan: Scan, ledger: seq<Record>)
    ensures var n := if |Packaged(ledger)| <= 256 then |Packaged(ledger)| else 256;
            && |Table(scan, ledger)| == n && Known(ledger) == Packaged(ledger)[..n]
            && forall i :: 0 <= i < n ==> Table(scan, ledger)[i].taskId == Packaged(ledger)[i]
  {
    hide Fold, Packaged;
    TableRefinesFold(scan, ledger);
  }

  // ----- The three scanners -----

  // The final loops: the first row that satisfies p.
  function First(table: seq<Entry>, p: Entry -> bool): (e: Option<Entry>)
  {
    if table == [] then None
    else if p(table[0]) then Some(table[0])
    else First(table[1..], p)
  }

  predicate IsQueued(e: Entry) { e.status == Queued || e.status == Assigned }

  predicate IsStuck(e: Entry, now: int) {
    (e.status == Leased || e.status == Running) && 0 < e.leaseExpiresAt <= now
  }

  predicate QueuedFor(e: Entry, agent: string) {
    e.executionHost == "" && e.assignedAgent == agent && IsQueued(e)
  }

  predicate StuckFor(e: Entry, agent: string, now: int) {
    IsStuck(e, now) && e.executionHost == "" && e.ownerAgent == agent
  }

  predicate OfferedOnHost(e: Entry, agent: string, host: string, now: int) {
    (IsQueued(e) || IsStuck(e, now)) && e.ownerAgent == agent && (e.executionHost == "" || e.executionHost == host)
  }

  function ForOwner(e: Option<Entry>): Option<Entry> {
    if e.None? then None else Some(e.value.(assignedAgent := e.value.ownerAgent))
  }

  function QueuedOffer(ledger: seq<Record>, agent: string): Option<Entry> {
    First(Table(QueuedScan, ledger), e => QueuedFor(e, agent))
  }

  function LocalOffer(ledger: seq<Record>, agent: string, now: int): Option<Entry> {
    var queued := QueuedOffer(ledger, agent);
    if queued.Some? then queued else ForOwner(First(Table(LocalScan, ledger), e => StuckFor(e, agent, now)))
  }

  function HostOffer(ledger: seq<Record>, agent: string, host: string, now: int): Option<Entry> {
    ForOwner(First(Table(HostScan, ledger), e => OfferedOnHost(e, agent, host, now)))
  }

  method FirstInTable(tasks: array<Entry>, count: nat, p: Entry -> bool) returns (e: Option<Entry>)
    requires count <= tasks.Length
    ensures e == First(tasks[..count], p)
  {
    var index := 0;
    assert tasks[0..count] == tasks[..count];
    while index < count
      invariant index <= count
      invariant First(tasks[..count], p) == First(tasks[index..count], p)
    {
      assert tasks[index..count][1..] == tasks[index + 1..count];
      if p(tasks[index]) {
        return Some(tasks[index]);
      }
      index := index + 1;
    }
    return None;
  }

  method FindQueuedForAgent(ledger: seq<Record>, agent: string) returns (task: Option<Entry>)
    ensures task == QueuedOffer(ledger, agent)
  {
    var tasks, count := ScanLedger(QueuedScan, ledger);
    task := FirstInTable(tasks, count, e => QueuedFor(e, agent));
  }

  method FindClaimableForAgent(ledger: seq<Record>, agent: string, now: int) returns (task: Option<Entry>)
    ensures task == LocalOffer(ledger, agent, now)
  {
    task := FindQueuedForAgent(ledger, agent);
    if task.Some? {
      return task;
    }
    var tasks, count := ScanLedger(LocalScan, ledger);
    task := FirstInTable(tasks, count, e => StuckFor(e, agent, now));
    if task.Some? {
      task := Some(task.value.(assignedAgent := task.value.ownerAgent));
    }
  }

  method FindClaimableForAgentOnHost(ledger: seq<Record>, agent: string, host: string, now: int) returns (task: Option<Entry>)
    ensures task == HostOffer(ledger, agent, host, now)
  {
    var tasks, count := ScanLedger(HostScan, ledger);
    task := FirstInTable(tasks, count, e => OfferedOnHost(e, agent, host, now));
    if task.Some? {
      task := Some(task.value.(assignedAgent := task.value.ownerAgent));
    }
  }

  // ----- What an offer means for the per-task folds -----

  // Task t is known and its fold satisfies p.
  ghost predicate Matches(scan: Scan, ledger: seq<Record>, t: string, p: Entry -> bool) {
    t in Known(ledger) && Fold(scan, ledger, t).Some? && p(Fold(scan, ledger, t).value)
  }

  lemma {:induction false} FirstIsEarliest(table: seq<Entry>, p: Entry -> bool)
    ensures match First(table, p)
            case None => forall i :: 0 <= i < |table| ==> !p(table[i])
            case Some(e) => exists i :: 0 <= i < |table| && table[i] == e && p(e) && forall j :: 0 <= j < i ==> !p(table[j])
  {
    if table != [] && !p(table[0]) {
      FirstIsEarliest(table[1..], p);
      match First(table, p)
      case None =>
        forall i | 0 <= i < |table|
          ensures !p(table[i])
        {
          assert i > 0 ==> table[i] == table[1..][i - 1];
        }
      case Some(e) =>
        var i :| 0 <= i < |table[1..]| && table[1..][i] == e && p(e) && forall j :: 0 <= j < i ==> !p(table[1..][j]);
        forall j | 0 <= j < i + 1
          ensures !p(table[j])
        {
          assert j > 0 ==> table[j] == table[1..][j - 1];
        }
        assert table[i + 1] == e;
    }
  }

  /**
   * The array-table scan refines the per-task fold: it returns the fold of the earliest-packaged known
   * task that matches, or nothing when no known task matches.
   */
  lemma ScanRefinesFold(scan: Scan, ledger: seq<Record>, p: Entry -> bool)
    ensures var ids := Known(ledger);
            match First(Table(scan, ledger), p)
            case None => forall t :: t in ids ==> !Matches(scan, ledger, t, p)
            case Some(e) =>
              exists i :: 0 <= i < |ids| && Matches(scan, ledger, ids[i], p) && Fold(scan, ledger, ids[i]) == Some(e) &&
                forall j :: 0 <= j < i ==> !Matches(scan, ledger, ids[j], p)
  {
    var table, ids := Table(scan, ledger), Known(ledger);
    TableRefinesFold(scan, ledger);
    FirstIsEarliest(table, p);
    if First(table, p).Some? {
      var e := First(table, p).value;
      var i :| 0 <= i < |table| && table[i] == e && p(e) && forall j :: 0 <= j < i ==> !p(table[j]);
      assert Fold(scan, ledger, ids[i]) == Some(e);
      assert Matches(scan, ledger, ids[i], p);
      forall j | 0 <= j < i
        ensures !Matches(scan, ledger, ids[j], p)
      {
        assert Fold(scan, ledger, ids[j]) == Some(table[j]);
      }
    }
  }

  /** With at most 256 packaged tasks the queued scan returns the earliest-packaged task it may offer, or nothing. */
  lemma QueuedOfferIsEarliest(ledger: seq<Record>, agent: string)
    requires |Packaged(ledger)| <= 256
    ensures var ids := Packaged(ledger);
            var p := (e: Entry) => e.executionHost == "" && e.assignedAgent == agent && (e.status == Queued || e.status == Assigned);
            match QueuedOffer(ledger, agent)
            case None => forall t :: t in ids ==> !Matches(QueuedScan, ledger, t, p)
            case Some(e) =>
              exists i :: 0 <= i < |ids| && Matches(QueuedScan, ledger, ids[i], p) && Fold(QueuedScan, ledger, ids[i]) == Some(e) &&
                forall j :: 0 <= j < i ==> !Matches(QueuedScan, ledger, ids[j], p)
  {
    ScanRefinesFold(QueuedScan, ledger, e => QueuedFor(e, agent));
  }

  /** Whatever scan finds a task, the offer names the agent that asked: the stuck and the host scan report the owner as the agent. */
  lemma OffersNameTheAgent(ledger: seq<Record>, agent: string, host: string, now: int)
    ensures LocalOffer(ledger, agent, now).Some? ==> LocalOffer(ledger, agent, now).value.assignedAgent == agent
    ensures HostOffer(ledger, agent, host, now).Some? ==> HostOffer(ledger, agent, host, now).value.assignedAgent == agent
  {
    hide Table;
    FirstIsEarliest(Table(QueuedScan, ledger), e => QueuedFor(e, agent));
    FirstIsEarliest(Table(LocalScan, ledger), e => StuckFor(e, agent, now));
    FirstIsEarliest(Table(HostScan, ledger), e => OfferedOnHost(e, agent, host, now));
  }

  // Task t is the earliest-packaged known task that matches.
  ghost predicate FirstMatch(scan: Scan, ledger: seq<Record>, t: string, p: Entry -> bool) {
    exists i :: 0 <= i < |Known(ledger)| && Known(ledger)[i] == t && Matches(scan, ledger, t, p) &&
      forall j :: 0 <= j < i ==> !Matches(scan, ledger, Known(ledger)[j], p)
  }

  // Task t is in the table and no task before it matches.
  ghost predicate NothingEarlier(scan: Scan, ledger: seq<Record>, t: string, p: Entry -> bool) {
    exists i :: 0 <= i < |Known(ledger)| && Known(ledger)[i] == t && forall j :: 0 <= j < i ==> !Matches(scan, ledger, Known(ledger)[j], p)
  }

  // Only what the predicate says matters.
  lemma SameMatches(scan: Scan, ledger: seq<Record>, t: string, p: Entry -> bool, q: Entry -> bool)
    requires forall e :: p(e) == q(e)
    ensures forall u :: Matches(scan, ledger, u, p) == Matches(scan, ledger, u, q)
    ensures FirstMatch(scan, ledger, t, p) <==> FirstMatch(scan, ledger, t, q)
    ensures NothingEarlier(scan, ledger, t, p) <==> NothingEarlier(scan, ledger, t, q)
  {
    hide Known, Fold;
    assert forall u :: Matches(scan, ledger, u, p) == Matches(scan, ledger, u, q);
  }

  /** A scan returns task t exactly when t is the earliest-packaged known task that matches. */
  lemma ScanFindsIff(scan: Scan, ledger: seq<Record>, t: string, p: Entry -> bool)
    ensures First(Table(scan, ledger), p).Some? && First(Table(scan, ledger), p).value.taskId == t <==> FirstMatch(scan, ledger, t, p)
  {
    hide Table, Fold, Packaged, First;
    ScanRefinesFold(scan, ledger, p);
    KnownDistinct(ledger);
    var ids := Known(ledger);
    if FirstMatch(scan, ledger, t, p) {
      var i :| 0 <= i < |ids| && ids[i] == t && Matches(scan, ledger, t, p) && forall j :: 0 <= j < i ==> !Matches(scan, ledger, ids[j], p);
      assert ids[i] in ids;
      var e := First(Table(scan, ledger), p).value;
      var k :| 0 <= k < |ids| && Matches(scan, ledger, ids[k], p) && Fold(scan, ledger, ids[k]) == Some(e) &&
            forall j :: 0 <= j < k ==> !Matches(scan, ledger, ids[j], p);
      assert i == k;
    }
  }

  // ----- The two-pass local scan and the one-pass host scan -----

  predicate Routes(r: Record) { r.Event? && (r.eventType == Routing || r.eventType == Assignment) }

  // Every other record that carries an agent names the task's routed owner.
  ghost predicate NamesOwner(ledger: seq<Record>) {
    forall n :: 0 <= n < |ledger| && ledger[n].Event? && !Routes(ledger[n]) && ledger[n].agent.Some? ==>
      var owner := Fold(HostScan, ledger[..n], ledger[n].taskId);
      owner.Some? ==> ledger[n].agent == Some(owner.value.ownerAgent)
  }

  predicate NoRenewals(ledger: seq<Record>) {
    forall n :: 0 <= n < |ledger| && ledger[n].Event? ==> ledger[n].eventType != LeaseRenewal
  }

  predicate NoHosts(ledger: seq<Record>) {
    forall n :: 0 <= n < |ledger| && ledger[n].Package? ==> ledger[n].executionHost == ""
  }

  // What the two scans must agree on to offer the same tasks.
  predicate Agree(q: Option<Entry>, l: Option<Entry>, h: Option<Entry>) {
    && q.Some? == l.Some? == h.Some?
    && (h.Some? ==>
          && q.value.status == l.value.status == h.value.status
          && q.value.assignedAgent == l.value.ownerAgent == h.value.ownerAgent
          && q.value.executionHost == l.value.executionHost == h.value.executionHost == ""
          && l.value.leaseExpiresAt == h.value.leaseExpiresAt)
  }

  ghost predicate FoldsAgree(ledger: seq<Record>, t: string) {
    Agree(Fold(QueuedScan, ledger, t), Fold(LocalScan, ledger, t), Fold(HostScan, ledger, t))
  }

  lemma AgreeStep(q: Option<Entry>, l: Option<Entry>, h: Option<Entry>, r: Record, t: string)
    requires Agree(q, l, h)
    requires r.Package? ==> r.executionHost == ""
    requires IsEventOf(r, t) ==> r.eventType != LeaseRenewal
    requires IsEventOf(r, t) && !Routes(r) && r.agent.Some? && h.Some? ==> r.agent.value == h.value.ownerAgent
    ensures Agree(Apply(QueuedScan, q, r, t), Apply(LocalScan, l, r, t), Apply(HostScan, h, r, t))
  {
  }

  lemma NamesOwnerBefore(ledger: seq<Record>, r: Record)
    requires NamesOwner(ledger + [r])
    ensures NamesOwner(ledger)
    ensures r.Event? && !Routes(r) && r.agent.Some? && Fold(HostScan, ledger, r.taskId).Some? ==>
              r.agent.value == Fold(HostScan, ledger, r.taskId).value.ownerAgent
  {
    hide Fold;
    var next, n := ledger + [r], |ledger|;
    assert next[..n] == ledger && next[n] == r;
    forall m | 0 <= m < n && ledger[m].Event? && !Routes(ledger[m]) && ledger[m].agent.Some?
      ensures var owner := Fold(HostScan, ledger[..m], ledger[m].taskId);
              owner.Some? ==> ledger[m].agent == Some(owner.value.ownerAgent)
    {
      assert ledger[..m] == next[..m] && ledger[m] == next[m];
    }
  }

  lemma {:induction false} FoldsAgreeWhenNamed(ledger: seq<Record>, t: string)
    requires NamesOwner(ledger) && NoRenewals(ledger) && NoHosts(ledger)
    ensures FoldsAgree(ledger, t)
  {
    if ledger != [] {
      hide Fold, NamesOwner, Apply, Agree;
      var n := |ledger| - 1;
      var before, r := ledger[..n], ledger[n];
      assert ledger == before + [r];
      NamesOwnerBefore(before, r);
      FoldsAgreeWhenNamed(before, t);
      FoldStep(QueuedScan, before, r, t);
      FoldStep(LocalScan, before, r, t);
      FoldStep(HostScan, before, r, t);
      AgreeStep(Fold(QueuedScan, before, t), Fold(LocalScan, before, t), Fold(HostScan, before, t), r, t);
    } else {
      assert Fold(QueuedScan, ledger, t).None? && Fold(LocalScan, ledger, t).None? && Fold(HostScan, ledger, t).None?;
    }
  }

  /**
   * For tasks without an execution host, when records name the routed owner and no lease was renewed, the
   * two-pass local scan finds a task exactly when the one-pass host scan does.
   */
  lemma TwoPassFindsIffOnePass(ledger: seq<Record>, agent: string, host: string, now: int)
    requires NamesOwner(ledger) && NoRenewals(ledger) && NoHosts(ledger)
    ensures LocalOffer(ledger, agent, now).Some? <==> HostOffer(ledger, agent, host, now).Some?
  {
    var q, l, h := Table(QueuedScan, ledger), Table(LocalScan, ledger), Table(HostScan, ledger);
    var ids := Known(ledger);
    TableRefinesFold(QueuedScan, ledger);
    TableRefinesFold(LocalScan, ledger);
    TableRefinesFold(HostScan, ledger);
    forall i | 0 <= i < |ids|
      ensures OfferedOnHost(h[i], agent, host, now) <==> QueuedFor(q[i], agent) || StuckFor(l[i], agent, now)
    {
      FoldsAgreeWhenNamed(ledger, ids[i]);
      assert Fold(HostScan, ledger, ids[i]) == Some(h[i]) && Fold(LocalScan, ledger, ids[i]) == Some(l[i]);
      assert Fold(QueuedScan, ledger, ids[i]) == Some(q[i]);
    }
    FirstIsEarliest(q, e => QueuedFor(e, agent));
    FirstIsEarliest(l, e => StuckFor(e, agent, now));
    FirstIsEarliest(h, e => OfferedOnHost(e, agent, host, now));
  }

  // One package of task t for agent a and the records that follow.
  function PackageFor(t: string, a: string): Record { Package(t, Some(a), None, "", "", "", "", None, None, []) }

  lemma FoldOfFour(scan: Scan, p: Record, r1: Record, r2: Record, r3: Record, t: string)
    ensures Fold(scan, [p, r1, r2, r3], t) ==
            Apply(scan, Apply(scan, Apply(scan, Apply(scan, None, p, t), r1, t), r2, t), r3, t)
  {
    assert Fold(scan, [], t) == None;
    FoldStep(scan, [], p, t);
    FoldStep(scan, [p], r1, t);
    FoldStep(scan, [p, r1], r2, t);
    FoldStep(scan, [p, r1, r2], r3, t);
    assert [] + [p] == [p] && [p] + [r1] == [p, r1] && [p, r1] + [r2] == [p, r1, r2];
    assert [p, r1, r2] + [r3] == [p, r1, r2, r3];
  }

  /**
   * The condition is needed: a reclaim record names the previous holder. After a reroute from `a` to `b`
   * and an operator reclaim, the queued scan takes `a` for the owner where the host scan takes `b`.
   */
  lemma ReclaimAfterRerouteMisleadsQueuedScan(t: string, a: string, b: string, expires: int)
    requires a != b
    ensures var ledger := [PackageFor(t, a), LeaseRecord(t, a, 1, expires), RerouteRecord(t, b), ReclaimRecord(t, a)];
            && Fold(QueuedScan, ledger, t).Some? && Fold(HostScan, ledger, t).Some?
            && QueuedFor(Fold(QueuedScan, ledger, t).value, a) && !QueuedFor(Fold(QueuedScan, ledger, t).value, b)
            && forall host, now ::
                 && OfferedOnHost(Fold(HostScan, ledger, t).value, b, host, now)
                 && !OfferedOnHost(Fold(HostScan, ledger, t).value, a, host, now)
  {
    var p, r1, r2, r3 := PackageFor(t, a), LeaseRecord(t, a, 1, expires), RerouteRecord(t, b), ReclaimRecord(t, a);
    FoldOfFour(QueuedScan, p, r1, r2, r3, t);
    FoldOfFour(HostScan, p, r1, r2, r3, t);
  }

  // ----- What each field of a fold was last set by -----

  lemma {:induction false} StatusIsCommon(scan: Scan, ledger: seq<Record>, t: string)
    ensures Fold(scan, ledger, t).Some? == Fold(QueuedScan, ledger, t).Some?
    ensures Fold(scan, ledger, t).Some? ==> Fold(scan, ledger, t).value.status == Fold(QueuedScan, ledger, t).value.status
  {
    if ledger != [] {
      hide Fold;
      var n := |ledger| - 1;
      StatusIsCommon(scan, ledger[..n], t);
      assert ledger == ledger[..n] + [ledger[n]];
      FoldStep(scan, ledger[..n], ledger[n], t);
      FoldStep(QueuedScan, ledger[..n], ledger[n], t);
    }
  }

  lemma {:induction false} OwnerIsCommon(ledger: seq<Record>, t: string)
    ensures Fold(LocalScan, ledger, t).Some? ==>
              && Fold(HostScan, ledger, t).Some?
              && Fold(LocalScan, ledger, t).value.ownerAgent == Fold(HostScan, ledger, t).value.ownerAgent
  {
    if ledger != [] {
      hide Fold;
      var n := |ledger| - 1;
      OwnerIsCommon(ledger[..n], t);
      StatusIsCommon(LocalScan, ledger[..n], t);
      StatusIsCommon(HostScan, ledger[..n], t);
      assert ledger == ledger[..n] + [ledger[n]];
      FoldStep(LocalScan, ledger[..n], ledger[n], t);
      FoldStep(HostScan, ledger[..n], ledger[n], t);
    }
  }

  // A package, or an event that carries a status.
  function StatusSetters(t: string): Record -> bool {
    (r: Record) => IsPackageOf(r, t) || (IsEventOf(r, t) && r.status.Some?)
  }

  function StatusSetBy(r: Record): Status
    requires r.Package? || r.Event?
  {
    r.status.GetOr(Queued)
  }

  // A package, or an event that carries an agent.
  function AgentCarriers(t: string): Record -> bool {
    (r: Record) => IsPackageOf(r, t) || (IsEventOf(r, t) && r.agent.Some?)
  }

  // A package, or a routing or assignment that carries an agent.
  function OwnerSetters(t: string): Record -> bool {
    (r: Record) => IsPackageOf(r, t) || (IsEventOf(r, t) && Routes(r) && r.agent.Some?)
  }

  function Packages(t: string): Record -> bool { (r: Record) => IsPackageOf(r, t) }

  // A reclaim, or a lease with an expiry; the host scan also counts renewals.
  function ExpirySetters(scan: Scan, t: string): Record -> bool {
    (r: Record) =>
      IsEventOf(r, t) &&
      (r.eventType == Reclaim || ((r.eventType == Lease || (scan == HostScan && r.eventType == LeaseRenewal)) && r.leaseExpiresAt.Some?))
  }

  // The expiry that stands in the ledger: 0 when none was set or a reclaim came last.
  function StandingExpiry(scan: Scan, ledger: seq<Record>, t: string): int {
    var tracked := Tracked(ledger, t);
    var k := LastWhere(tracked, ExpirySetters(scan, t));
    if k < 0 || tracked[k].eventType == Reclaim then 0 else tracked[k].leaseExpiresAt.GetOr(0)
  }

  // Every field of the fold is what the last record that sets it says.
  predicate SetByLast(scan: Scan, ledger: seq<Record>, t: string, e: Entry) {
    var s, c, w, p := LastWhere(ledger, StatusSetters(t)), LastWhere(ledger, AgentCarriers(t)),
                      LastWhere(ledger, OwnerSetters(t)), LastWhere(ledger, Packages(t));
    && s >= 0 && c >= 0 && w >= 0 && p >= 0
    && e.status == StatusSetBy(ledger[s])
    && (scan == QueuedScan ==> e.assignedAgent == ledger[c].agent.GetOr(""))
    && (scan != QueuedScan ==> e.ownerAgent == ledger[w].agent.GetOr(""))
    && e.executionHost == ledger[p].executionHost
    && (scan != QueuedScan ==> e.leaseExpiresAt == StandingExpiry(scan, ledger, t))
  }

  lemma FieldSet(ledger: seq<Record>, r: Record, t: string, p: Record -> bool)
    ensures var k, next := LastWhere(ledger, p), LastWhere(ledger + [r], p);
            && (p(r) ==> next == |ledger| && (ledger + [r])[next] == r)
            && (!p(r) ==> next == k && (k >= 0 ==> (ledger + [r])[next] == ledger[k]))
  {
    LastWhereAppend(ledger, r, p);
  }

  lemma ExpiryStep(scan: Scan, ledger: seq<Record>, r: Record, t: string)
    requires Tracked(ledger, t) != []
    ensures StandingExpiry(scan, ledger + [r], t) ==
            if !ExpirySetters(scan, t)(r) then StandingExpiry(scan, ledger, t)
            else if r.eventType == Reclaim then 0
            else r.leaseExpiresAt.GetOr(0)
  {
    hide Tracked, LastWhere;
    TrackedAppend(ledger, r, t);
    FieldSet(Tracked(ledger, t), r, t, ExpirySetters(scan, t));
  }

  lemma ExpiryStart(scan: Scan, ledger: seq<Record>, r: Record, t: string)
    requires Tracked(ledger, t) == [] && IsPackageOf(r, t)
    ensures StandingExpiry(scan, ledger + [r], t) == 0
  {
    TrackedAppend(ledger, r, t);
    assert [] + [r] == [r];
    var k := LastWhere([r], ExpirySetters(scan, t));
  }

  lemma SetByLastStep(scan: Scan, ledger: seq<Record>, r: Record, t: string, e: Option<Entry>)
    requires e.Some? ==> SetByLast(scan, ledger, t, e.value)
    requires e.Some? <==> Tracked(ledger, t) != []
    requires e.None? ==> LastWhere(ledger, Packages(t)) < 0
    requires e.None? && IsPackageOf(r, t) ==> e.GetOr(BlankEntry(t)).leaseExpiresAt == 0
    ensures var next := Apply(scan, e, r, t); next.Some? ==> SetByLast(scan, ledger + [r], t, next.value)
  {
    hide Tracked, LastWhere, StandingExpiry;
    FieldSet(ledger, r, t, StatusSetters(t));
    FieldSet(ledger, r, t, AgentCarriers(t));
    FieldSet(ledger, r, t, OwnerSetters(t));
    FieldSet(ledger, r, t, Packages(t));
    if e.Some? {
      ExpiryStep(scan, ledger, r, t);
    } else if IsPackageOf(r, t) {
      ExpiryStart(scan, ledger, r, t);
    }
  }

  /**
   * What a fold knows of a task was set by the last record that could set it: the status by a package or an event with
   * a status, the owner by a package, routing or assignment, the queued scan's agent by a package or any event with
   * an agent, and the expiry by a lease or reclaim, or in the host scan also by a renewal.
   */
  lemma {:induction false} FoldIsSetByLast(scan: Scan, ledger: seq<Record>, t: string)
    ensures Fold(scan, ledger, t).Some? <==> Tracked(ledger, t) != []
    ensures Fold(scan, ledger, t).None? ==> LastWhere(ledger, Packages(t)) < 0
    ensures Fold(scan, ledger, t).Some? ==> SetByLast(scan, ledger, t, Fold(scan, ledger, t).value)
  {
    if ledger != [] {
      hide Fold, Tracked, LastWhere, SetByLast;
      var n := |ledger| - 1;
      var before, r := ledger[..n], ledger[n];
      assert ledger == before + [r];
      FoldIsSetByLast(scan, before, t);
      FoldStep(scan, before, r, t);
      TrackedAppend(before, r, t);
      FieldSet(before, r, t, Packages(t));
      SetByLastStep(scan, before, r, t, Fold(scan, before, t));
    } else {
      NothingTracked(scan, t);
    }
  }

  lemma NothingTracked(scan: Scan, t: string)
    ensures Fold(scan, [], t) == None && Tracked([], t) == [] && LastWhere([], Packages(t)) == -1
  {
  }

  /** Only a renewal makes the two expiries differ: it is then the last record the host scan took one from. */
  lemma OnlyRenewalsDiffer(ledger: seq<Record>, t: string)
    ensures StandingExpiry(LocalScan, ledger, t) != StandingExpiry(HostScan, ledger, t) ==>
              var tracked := Tracked(ledger, t);
              var k := LastWhere(tracked, ExpirySetters(HostScan, t));
              k >= 0 && tracked[k].Event? && tracked[k].eventType == LeaseRenewal
  {
    hide Tracked, LastWhere;
    var tracked := Tracked(ledger, t);
    var j, k := LastWhere(tracked, ExpirySetters(LocalScan, t)), LastWhere(tracked, ExpirySetters(HostScan, t));
    assert j >= 0 ==> ExpirySetters(HostScan, t)(tracked[j]);
    if k >= 0 && tracked[k].eventType != LeaseRenewal {
      assert ExpirySetters(LocalScan, t)(tracked[k]);
    }
  }

  // Every agent is offered the same at every time, without an execution host.
  ghost predicate SameOffers(q: Entry, l: Entry, h: Entry) {
    forall agent, now :: (QueuedFor(q, agent) || StuckFor(l, agent, now)) <==> OfferedOnHost(h, agent, "", now)
  }

  lemma SameOffersIff(q: Entry, l: Entry, h: Entry)
    requires q.status == l.status == h.status && l.ownerAgent == h.ownerAgent
    requires q.executionHost == "" && l.executionHost == "" && h.executionHost == ""
    ensures SameOffers(q, l, h) <==>
            && (IsQueued(h) ==> q.assignedAgent == h.ownerAgent)
            && (h.status == Leased || h.status == Running ==>
                  l.leaseExpiresAt == h.leaseExpiresAt || (l.leaseExpiresAt <= 0 && h.leaseExpiresAt <= 0))
  {
    if SameOffers(q, l, h) {
      var a, b := l.leaseExpiresAt, h.leaseExpiresAt;
      assert (QueuedFor(q, h.ownerAgent) || StuckFor(l, h.ownerAgent, a)) <==> OfferedOnHost(h, h.ownerAgent, "", a);
      assert (QueuedFor(q, h.ownerAgent) || StuckFor(l, h.ownerAgent, b)) <==> OfferedOnHost(h, h.ownerAgent, "", b);
    }
  }

  /**
   * On every ledger the two scans offer a task without an execution host to the same agents at the same times exactly
   * when, if it was last queued or assigned, the last record that carries an agent names the routed owner, and, if it
   * was last leased or running, no renewal stands that moved the expiry.
   */
  lemma OffersAgreeIff(ledger: seq<Record>, t: string)
    requires LastWhere(ledger, Packages(t)) >= 0 && ledger[LastWhere(ledger, Packages(t))].executionHost == ""
    ensures Fold(QueuedScan, ledger, t).Some? && Fold(LocalScan, ledger, t).Some? && Fold(HostScan, ledger, t).Some?
    ensures LastWhere(ledger, StatusSetters(t)) >= 0 && LastWhere(ledger, AgentCarriers(t)) >= 0 && LastWhere(ledger, OwnerSetters(t)) >= 0
    ensures var status := StatusSetBy(ledger[LastWhere(ledger, StatusSetters(t))]);
            var local, host := StandingExpiry(LocalScan, ledger, t), StandingExpiry(HostScan, ledger, t);
            SameOffers(Fold(QueuedScan, ledger, t).value, Fold(LocalScan, ledger, t).value, Fold(HostScan, ledger, t).value) <==>
            && (status == Queued || status == Assigned ==>
                  ledger[LastWhere(ledger, AgentCarriers(t))].agent.GetOr("") == ledger[LastWhere(ledger, OwnerSetters(t))].agent.GetOr(""))
            && (status == Leased || status == Running ==> local == host || (local <= 0 && host <= 0))
  {
    hide Fold, LastWhere, StandingExpiry, SameOffers;
    FoldIsSetByLast(QueuedScan, ledger, t);
    FoldIsSetByLast(LocalScan, ledger, t);
    FoldIsSetByLast(HostScan, ledger, t);
    SameOffersIff(Fold(QueuedScan, ledger, t).value, Fold(LocalScan, ledger, t).value, Fold(HostScan, ledger, t).value);
  }
}
