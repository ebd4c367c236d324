/**
 * The task lease protocol: claims by the local agent (src/wt_agent.c, handleAssignedTask) and by the
 * remote-claim handler (src/wt_roomd.c, handlePostRemoteClaim) over the shared ledger, and what every run keeps.
 */
module Leases {
  import opened Options
  import opened Ledger
  import opened Scanners

  // ----- wtTaskFindActiveLease -----

  // hasActiveLease, the holder and expiry of the last lease, and its attempt, which outlives the lease.
  datatype LeaseState = LeaseState(active: bool, holder: string, expires: int, attempt: int)

  function LeaseStep(s: LeaseState, r: Record, t: string): LeaseState {
    if IsLeaseOf(r, t) then LeaseState(true, r.agent.GetOr(""), r.leaseExpiresAt.GetOr(0), r.attempt.GetOr(0))
    else if Releases(r, t) then s.(active := false)
    else s
  }

  function LeaseOf(ledger: seq<Record>, t: string): LeaseState {
    if ledger == [] then LeaseState(false, "", 0, 0)
    else LeaseStep(LeaseOf(ledger[..|ledger| - 1], t), ledger[|ledger| - 1], t)
  }

  method FindActiveLease(ledger: seq<Record>, t: string)
    returns (hasActiveLease: bool, leaseHolder: string, leaseExpiresAt: int, attempt: int)
    ensures LeaseState(hasActiveLease, leaseHolder, leaseExpiresAt, attempt) == LeaseOf(ledger, t)
  {
    hasActiveLease, leaseHolder, leaseExpiresAt, attempt := false, "", 0, 0;
    for n := 0 to |ledger|
      invariant LeaseState(hasActiveLease, leaseHolder, leaseExpiresAt, attempt) == LeaseOf(ledger[..n], t)
    {
      var r := ledger[n];
      assert ledger[..n + 1][..n] == ledger[..n];
      if r.Event? && r.taskId == t {
        if r.eventType == Lease {
          leaseHolder := r.agent.GetOr("");
          leaseExpiresAt := r.leaseExpiresAt.GetOr(0);
          attempt := r.attempt.GetOr(0);
          hasActiveLease := true;
        } else if r.eventType == Reclaim || r.eventType == StatusChange {
          if r.eventType == Reclaim {
            hasActiveLease := false;
          } else if r.status.Some? && Terminal(r.status.value) {
            hasActiveLease := false;
          }
        }
      }
    }
    assert ledger[..|ledger|] == ledger;
  }

  lemma LeaseOfAppend(ledger: seq<Record>, r: Record, t: string)
    ensures LeaseOf(ledger + [r], t) == LeaseStep(LeaseOf(ledger, t), r, t)
  {
    assert (ledger + [r])[..|ledger|] == ledger;
  }

  // Position p holds the last lease of t.
  ghost predicate LastLease(ledger: seq<Record>, t: string, p: int) {
    && 0 <= p < |ledger| && IsLeaseOf(ledger[p], t)
    && forall k :: p < k < |ledger| ==> !IsLeaseOf(ledger[k], t)
  }

  // A record between two positions releases t.
  ghost predicate ReleasedBetween(ledger: seq<Record>, t: string, i: int, j: int) {
    exists k :: i < k < j && 0 <= k < |ledger| && Releases(ledger[k], t)
  }

  // The fold reports the last lease, active exactly when nothing after it releases the task.
  lemma {:induction false} LeaseOfMeaning(ledger: seq<Record>, t: string) returns (p: int)
    ensures p == -1 ==> (forall k :: 0 <= k < |ledger| ==> !IsLeaseOf(ledger[k], t)) && LeaseOf(ledger, t) == LeaseState(false, "", 0, 0)
    ensures p != -1 ==>
              && LastLease(ledger, t, p)
              && LeaseOf(ledger, t) ==
                 LeaseState(!ReleasedBetween(ledger, t, p, |ledger|), ledger[p].agent.GetOr(""),
                            ledger[p].leaseExpiresAt.GetOr(0), ledger[p].attempt.GetOr(0))
  {
    if ledger == [] {
      p := -1;
    } else {
      var n := |ledger| - 1;
      var before := ledger[..n];
      p := LeaseOfMeaning(before, t);
      if IsLeaseOf(ledger[n], t) {
        p := n;
      } else if p != -1 {
        assert ReleasedBetween(ledger, t, p, n + 1) <==> ReleasedBetween(before, t, p, n) || Releases(ledger[n], t) by {
          if Releases(ledger[n], t) {
            assert p < n < n + 1;
          }
          if ReleasedBetween(before, t, p, n) {
            var k :| p < k < n && 0 <= k < |before| && Releases(before[k], t);
            assert Releases(ledger[k], t);
          }
          if ReleasedBetween(ledger, t, p, n + 1) && !Releases(ledger[n], t) {
            var k :| p < k < n + 1 && 0 <= k < |ledger| && Releases(ledger[k], t);
            assert Releases(before[k], t);
          }
        }
      }
    }
  }

  // ----- wtTaskCancelRequested -----

  function CancelStep(seen: bool, r: Record, t: string): bool {
    if r.Kill? && r.taskId == t then true
    else if IsLeaseOf(r, t) then false
    else seen
  }

  function CancelRequested(ledger: seq<Record>, t: string): bool {
    if ledger == [] then false
    else CancelStep(CancelRequested(ledger[..|ledger| - 1], t), ledger[|ledger| - 1], t)
  }

  method FindCancelRequest(ledger: seq<Record>, t: string) returns (cancelSeen: bool)
    ensures cancelSeen == CancelRequested(ledger, t)
  {
    cancelSeen := false;
    for n := 0 to |ledger|
      invariant cancelSeen == CancelRequested(ledger[..n], t)
    {
      var r := ledger[n];
      assert ledger[..n + 1][..n] == ledger[..n];
      if (r.Kill? || r.Event?) && r.taskId == t {
        if r.Kill? {
          cancelSeen := true;
        } else if r.eventType == Lease {
          cancelSeen := false;
        }
      }
    }
    assert ledger[..|ledger|] == ledger;
  }

  lemma CancelAppend(ledger: seq<Record>, r: Record, t: string)
    ensures CancelRequested(ledger + [r], t) == CancelStep(CancelRequested(ledger, t), r, t)
  {
    assert (ledger + [r])[..|ledger|] == ledger;
  }

  // Position i holds a kill record of t that no lease of t follows.
  ghost predicate StandingKill(ledger: seq<Record>, t: string, i: int) {
    0 <= i < |ledger| && ledger[i] == Kill(t) && forall k :: i < k < |ledger| ==> !IsLeaseOf(ledger[k], t)
  }

  lemma StandingKillStep(ledger: seq<Record>, r: Record, t: string, i: int)
    ensures StandingKill(ledger + [r], t, i) <==>
            (i == |ledger| && r == Kill(t)) || (StandingKill(ledger, t, i) && !IsLeaseOf(r, t))
  {
    hide IsLeaseOf;
    var next, n := ledger + [r], |ledger|;
    assert next[n] == r && forall k :: 0 <= k < n ==> next[k] == ledger[k];
    if 0 <= i < n {
      if StandingKill(next, t, i) {
        assert !IsLeaseOf(next[n], t);
        forall k | i < k < n
          ensures !IsLeaseOf(ledger[k], t)
        {
          assert !IsLeaseOf(next[k], t);
        }
      }
    }
  }

  /** A cancel request holds exactly from a kill record to the next lease of the task. */
  lemma {:induction false} CancelHoldsUntilNextLease(ledger: seq<Record>, t: string)
    ensures CancelRequested(ledger, t) <==> exists i :: StandingKill(ledger, t, i)
  {
    if ledger != [] {
      hide StandingKill;
      var n := |ledger| - 1;
      var before, r := ledger[..n], ledger[n];
      assert ledger == before + [r];
      CancelHoldsUntilNextLease(before, t);
      forall i
        ensures StandingKill(ledger, t, i) <==> (i == n && r == Kill(t)) || (StandingKill(before, t, i) && !IsLeaseOf(r, t))
      {
        StandingKillStep(before, r, t, i);
      }
      if r == Kill(t) {
        assert StandingKill(ledger, t, n);
      }
      if CancelRequested(before, t) && !IsLeaseOf(r, t) {
        var i :| StandingKill(before, t, i);
        assert StandingKill(ledger, t, i);
      }
    }
  }

  // ----- wtTaskAgentPaused -----

  function Paused(ledger: seq<Record>, agent: string): bool {
    if ledger == [] then false
    else
      var n := |ledger| - 1;
      if ledger[n].AgentControl? && ledger[n].agentName == agent then ledger[n].pause else Paused(ledger[..n], agent)
  }

  method AgentPaused(ledger: seq<Record>, agent: string) returns (paused: bool)
    ensures paused == Paused(ledger, agent)
  {
    paused := false;
    for n := 0 to |ledger|
      invariant paused == Paused(ledger[..n], agent)
    {
      assert ledger[..n + 1][..n] == ledger[..n];
      if ledger[n].AgentControl? && ledger[n].agentName == agent {
        paused := ledger[n].pause;
      }
    }
    assert ledger[..|ledger|] == ledger;
  }

  // ----- A claim -----

  // leaseDurationSeconds with its default, in milliseconds.
  function LeaseMs(leaseDurationSeconds: int): (ms: int)
    ensures ms >= 1000
  {
    (if leaseDurationSeconds > 0 then leaseDurationSeconds else 900) * 1000
  }

  // A valid lease of another agent stops the claim.
  predicate ForeignLease(lease: LeaseState, agent: string, now: int) {
    lease.active && lease.expires > now && lease.holder != agent
  }

  // A stale lease is reclaimed before the new one is written.
  predicate StaleLease(lease: LeaseState, now: int) { lease.active && lease.expires <= now }

  // What the two claim procedures append for an offered task.
  function ClaimRecords(lease: LeaseState, t: string, agent: string, now: int, durationMs: int): seq<Record> {
    if ForeignLease(lease, agent, now) then []
    else
      (if StaleLease(lease, now) then [ReclaimRecord(t, lease.holder)] else []) +
      [LeaseRecord(t, agent, lease.attempt + 1, now + durationMs)]
  }

  // The agent's clock is time(NULL) * 1000.
  function WholeSeconds(clock: nat): (ms: nat)
    ensures ms <= clock
  {
    clock / 1000 * 1000
  }

  function LocalClaimRecords(ledger: seq<Record>, agent: string, clock: nat, durationMs: int): seq<Record> {
    if Paused(ledger, agent) then []
    else
      var now := WholeSeconds(clock);
      var task := LocalOffer(ledger, agent, now);
      if task.None? then []
      else ClaimRecords(LeaseOf(ledger, task.value.taskId), task.value.taskId, agent, now, durationMs)
  }

  // `capable` is the answer of readHostProfiles and profileInList for the host.
  function RemoteClaimRecords(ledger: seq<Record>, agent: string, host: string, capable: bool, clock: nat, durationMs: int): seq<Record> {
    var task := HostOffer(ledger, agent, host, clock);
    if task.None? || !capable then []
    else ClaimRecords(LeaseOf(ledger, task.value.taskId), task.value.taskId, agent, clock, durationMs)
  }

  // The ledger file. Each claim is one atomic step: the C code takes the lock per append only.
  class TaskLedger {
    var records: seq<Record>

    constructor ()
      ensures records == []
    {
      records := [];
    }

    // wtTaskAppendRecord
    method AppendRecord(r: Record)
      modifies this
      ensures records == old(records) + [r]
    {
      records := records + [r];
    }

    // handleAssignedTask up to the lease record.
    method HandleAssignedTask(agent: string, clock: nat, leaseDurationSeconds: int) returns (claimed: Option<string>)
      modifies this
      ensures records == old(records) + LocalClaimRecords(old(records), agent, clock, LeaseMs(leaseDurationSeconds))
      ensures claimed.Some? <==> records != old(records)
      ensures claimed.Some? ==> IsLeaseOf(records[|records| - 1], claimed.value)
      ensures claimed.Some? ==>
                records[|records| - 1].leaseExpiresAt ==
                Some((clock / 1000 + if leaseDurationSeconds > 0 then leaseDurationSeconds else 900) * 1000)
    {
      var paused := AgentPaused(records, agent);
      if paused {
        return None;
      }
      var now := WholeSeconds(clock);
      var task := FindClaimableForAgent(records, agent, now);
      if task.None? {
        return None;
      }
      var written := Claim(task.value.taskId, agent, now, LeaseMs(leaseDurationSeconds));
      return if written then Some(task.value.taskId) else None;
    }

    // The common part of the two claim procedures.
    method Claim(t: string, agent: string, now: int, durationMs: int) returns (written: bool)
      modifies this
      ensures records == old(records) + ClaimRecords(LeaseOf(old(records), t), t, agent, now, durationMs)
      ensures written <==> records != old(records)
      ensures written ==> IsLeaseOf(records[|records| - 1], t)
      ensures written ==> records[|records| - 1].leaseExpiresAt == Some(now + durationMs)
    {
      var hasActiveLease, leaseHolder, previousLeaseExpiresAt, previousAttempt := FindActiveLease(records, t);
      if hasActiveLease && previousLeaseExpiresAt > now && leaseHolder != agent {
        return false;
      }
      if hasActiveLease && previousLeaseExpiresAt <= now {
        AppendRecord(ReclaimRecord(t, leaseHolder));
      }
      AppendRecord(LeaseRecord(t, agent, previousAttempt + 1, now + durationMs));
      return true;
    }

    // handlePostRemoteClaim up to the lease record.
    method HandlePostRemoteClaim(agent: string, host: string, capable: bool, clock: nat, leaseDurationSeconds: int)
      returns (claimed: Option<string>)
      modifies this
      ensures records == old(records) + RemoteClaimRecords(old(records), agent, host, capable, clock, LeaseMs(leaseDurationSeconds))
      ensures claimed.Some? <==> records != old(records)
      ensures claimed.Some? ==> IsLeaseOf(records[|records| - 1], claimed.value)
      ensures claimed.Some? ==>
                records[|records| - 1].leaseExpiresAt == Some(clock + 1000 * if leaseDurationSeconds > 0 then leaseDurationSeconds else 900)
    {
      var task := FindClaimableForAgentOnHost(records, agent, host, clock);
      if task.None? || !capable {
        return None;
      }
      var written := Claim(task.value.taskId, agent, clock, LeaseMs(leaseDurationSeconds));
      return if written then Some(task.value.taskId) else None;
    }
  }

  // ----- Runs -----

  // Append stands for every other writer: operator reclaims, status, routing, renewal, kill, control and package records.
  datatype Action =
    | LocalClaim(agent: string)
    | RemoteClaim(agent: string, host: string, capable: bool)
    | Append(record: Record)

  datatype Step = Step(action: Action, clock: nat)

  // Only claims write lease records (HoldersSeparatedIff says what others may write), and the clock never goes back.
  predicate IsRun(steps: seq<Step>) {
    && (forall i :: 0 <= i < |steps| && steps[i].action.Append? ==>
          !(steps[i].action.record.Event? && steps[i].action.record.eventType == Lease))
    && (forall i, j :: 0 <= i < j < |steps| ==> steps[i].clock <= steps[j].clock)
  }

  function StepRecords(ledger: seq<Record>, step: Step, durationMs: int): seq<Record> {
    match step.action
    case LocalClaim(agent) => LocalClaimRecords(ledger, agent, step.clock, durationMs)
    case RemoteClaim(agent, host, capable) => RemoteClaimRecords(ledger, agent, host, capable, step.clock, durationMs)
    case Append(r) => [r]
  }

  // The ledger after a run that starts with an empty file.
  function RunLedger(steps: seq<Step>, durationMs: int): seq<Record> {
    if steps == [] then []
    else
      var before := RunLedger(steps[..|steps| - 1], durationMs);
      before + StepRecords(before, steps[|steps| - 1], durationMs)
  }

  // A run, and the run before its last step.
  lemma RunUnfolds(steps: seq<Step>, durationMs: int)
    requires steps != []
    ensures var n := |steps| - 1;
            && RunLedger(steps, durationMs) ==
               RunLedger(steps[..n], durationMs) + StepRecords(RunLedger(steps[..n], durationMs), steps[n], durationMs)
            && (IsRun(steps) ==>
                  && IsRun(steps[..n])
                  && (steps[n].action.Append? ==> !(steps[n].action.record.Event? && steps[n].action.record.eventType == Lease)))
  {
    hide StepRecords;
  }

  function ClaimClock(step: Step): nat { if step.action.LocalClaim? then WholeSeconds(step.clock) else step.clock }

  function ClaimAgent(action: Action): string
    requires !action.Append?
  {
    action.agent
  }

  // Every step appends the records of one claim, or one record that is no lease.
  lemma StepShape(ledger: seq<Record>, step: Step, durationMs: int) returns (t: string)
    ensures step.action.Append? ==> StepRecords(ledger, step, durationMs) == [step.action.record]
    ensures !step.action.Append? && StepRecords(ledger, step, durationMs) != [] ==>
              StepRecords(ledger, step, durationMs) ==
              ClaimRecords(LeaseOf(ledger, t), t, ClaimAgent(step.action), ClaimClock(step), durationMs)
  {
    t := "";
    match step.action
    case LocalClaim(agent) =>
      var task := LocalOffer(ledger, agent, WholeSeconds(step.clock));
      if task.Some? { t := task.value.taskId; }
    case RemoteClaim(agent, host, capable) =>
      var task := HostOffer(ledger, agent, host, step.clock);
      if task.Some? { t := task.value.taskId; }
    case Append(r) =>
  }

  // ----- Safety -----

  function HolderOf(r: Record): string
    requires r.Event?
  {
    r.agent.GetOr("")
  }

  // Two leases of one task with different holders have a reclaim or terminal status record between them.
  ghost predicate HoldersSeparated(ledger: seq<Record>, t: string) {
    forall i, j ::
      0 <= i < j < |ledger| && IsLeaseOf(ledger[i], t) && IsLeaseOf(ledger[j], t) && HolderOf(ledger[i]) != HolderOf(ledger[j]) ==>
        ReleasedBetween(ledger, t, i, j)
  }

  // A lease of t may follow when no other agent's lease is active.
  predicate LeaseFits(ledger: seq<Record>, r: Record, t: string) {
    IsLeaseOf(r, t) && LeaseOf(ledger, t).active ==> LeaseOf(ledger, t).holder == HolderOf(r)
  }

  lemma ReleasedBetweenAppend(ledger: seq<Record>, r: Record, t: string, i: int, j: int)
    requires j <= |ledger|
    ensures ReleasedBetween(ledger + [r], t, i, j) <==> ReleasedBetween(ledger, t, i, j)
  {
    var next := ledger + [r];
    if ReleasedBetween(ledger, t, i, j) {
      var k :| i < k < j && 0 <= k < |ledger| && Releases(ledger[k], t);
      assert Releases(next[k], t);
    }
    if ReleasedBetween(next, t, i, j) {
      var k :| i < k < j && 0 <= k < |next| && Releases(next[k], t);
      assert Releases(ledger[k], t);
    }
  }

  // A later lease is separated from all earlier ones when it is from the last one.
  lemma SeparatedStep(ledger: seq<Record>, r: Record, t: string)
    ensures HoldersSeparated(ledger + [r], t) <==> HoldersSeparated(ledger, t) && LeaseFits(ledger, r, t)
  {
    hide LeaseOf, Releases, ReleasedBetween;
    var next, n := ledger + [r], |ledger|;
    forall i, j | j <= n
      ensures ReleasedBetween(next, t, i, j) <==> ReleasedBetween(ledger, t, i, j)
    {
      ReleasedBetweenAppend(ledger, r, t, i, j);
    }
    assert forall i :: 0 <= i < n ==> next[i] == ledger[i];
    if HoldersSeparated(next, t) {
      forall i, j | 0 <= i < j < n && IsLeaseOf(ledger[i], t) && IsLeaseOf(ledger[j], t) && HolderOf(ledger[i]) != HolderOf(ledger[j])
        ensures ReleasedBetween(ledger, t, i, j)
      {
        assert IsLeaseOf(next[i], t) && IsLeaseOf(next[j], t);
      }
    }
    if IsLeaseOf(r, t) {
      var p := LeaseOfMeaning(ledger, t);
      if p != -1 {
        if HoldersSeparated(next, t) && HolderOf(ledger[p]) != HolderOf(r) {
          assert IsLeaseOf(next[p], t) && IsLeaseOf(next[n], t);
          assert ReleasedBetween(next, t, p, n);
        }
      }
      if HoldersSeparated(ledger, t) && LeaseFits(ledger, r, t) {
        forall i | 0 <= i < n && IsLeaseOf(ledger[i], t) && HolderOf(ledger[i]) != HolderOf(r)
          ensures ReleasedBetween(ledger, t, i, n)
        {
          SeparatedFromLast(ledger, t, i, p);
        }
      }
    }
  }

  lemma SeparatedFromLast(ledger: seq<Record>, t: string, i: int, p: int)
    requires HoldersSeparated(ledger, t) && 0 <= i < |ledger| && IsLeaseOf(ledger[i], t) && LastLease(ledger, t, p)
    requires HolderOf(ledger[i]) == HolderOf(ledger[p]) ==> ReleasedBetween(ledger, t, p, |ledger|)
    ensures ReleasedBetween(ledger, t, i, |ledger|)
  {
    assert i <= p;
    if HolderOf(ledger[i]) != HolderOf(ledger[p]) {
      assert ReleasedBetween(ledger, t, i, p);
    }
  }

  // A claim's lease always fits, because a stale lease is reclaimed first.
  lemma ClaimKeepsSeparation(ledger: seq<Record>, u: string, agent: string, now: int, durationMs: int, t: string)
    ensures HoldersSeparated(ledger + ClaimRecords(LeaseOf(ledger, u), u, agent, now, durationMs), t) <==> HoldersSeparated(ledger, t)
  {
    hide LeaseOf, HoldersSeparated;
    var lease := LeaseOf(ledger, u);
    if !ForeignLease(lease, agent, now) {
      var r := LeaseRecord(u, agent, lease.attempt + 1, now + durationMs);
      var middle := ledger;
      if StaleLease(lease, now) {
        middle := ledger + [ReclaimRecord(u, lease.holder)];
        SeparatedStep(ledger, ReclaimRecord(u, lease.holder), t);
        LeaseOfAppend(ledger, ReclaimRecord(u, lease.holder), u);
      }
      SeparatedStep(middle, r, t);
      assert ledger + ClaimRecords(lease, u, agent, now, durationMs) == middle + [r];
    } else {
      assert ledger + [] == ledger;
    }
  }

  // Every lease record of t that was posted, not claimed, fits the ledger it was appended to.
  predicate PostedLeasesFit(steps: seq<Step>, durationMs: int, t: string) {
    forall i :: 0 <= i < |steps| && steps[i].action.Append? ==> LeaseFits(RunLedger(steps[..i], durationMs), steps[i].action.record, t)
  }

  lemma PostedLeasesUnfold(steps: seq<Step>, durationMs: int, t: string)
    requires steps != []
    ensures var n := |steps| - 1;
            PostedLeasesFit(steps, durationMs, t) <==>
            && PostedLeasesFit(steps[..n], durationMs, t)
            && (steps[n].action.Append? ==> LeaseFits(RunLedger(steps[..n], durationMs), steps[n].action.record, t))
  {
    hide LeaseFits, RunLedger;
    var n := |steps| - 1;
    forall i | 0 <= i < n
      ensures steps[..n][i] == steps[i] && steps[..n][..i] == steps[..i]
    {
    }
  }

  lemma StepKeepsSeparation(before: seq<Record>, step: Step, durationMs: int, t: string)
    ensures HoldersSeparated(before + StepRecords(before, step, durationMs), t) <==>
            HoldersSeparated(before, t) && (step.action.Append? ==> LeaseFits(before, step.action.record, t))
  {
    hide HoldersSeparated, LeaseFits, StepRecords, ClaimRecords, LeaseOf;
    var u := StepShape(before, step, durationMs);
    if step.action.Append? {
      SeparatedStep(before, step.action.record, t);
    } else if StepRecords(before, step, durationMs) == [] {
      assert before + [] == before;
    } else {
      ClaimKeepsSeparation(before, u, ClaimAgent(step.action), ClaimClock(step), durationMs, t);
    }
  }

  /**
   * Claims never break the separation of holders, whatever other processes append and whatever the clocks say: it is
   * kept exactly when every lease record that was posted as an event names the holder of the lease active at that time.
   */
  lemma {:induction false} HoldersSeparatedIff(steps: seq<Step>, durationMs: int, t: string)
    ensures HoldersSeparated(RunLedger(steps, durationMs), t) <==> PostedLeasesFit(steps, durationMs, t)
  {
    if steps != [] {
      hide *;
      var n := |steps| - 1;
      RunUnfolds(steps, durationMs);
      HoldersSeparatedIff(steps[..n], durationMs, t);
      PostedLeasesUnfold(steps, durationMs, t);
      StepKeepsSeparation(RunLedger(steps[..n], durationMs), steps[n], durationMs, t);
    }
  }

  // Lease records carry an agent.
  predicate LeasesNamed(ledger: seq<Record>) {
    forall i :: 0 <= i < |ledger| && ledger[i].Event? && ledger[i].eventType == Lease ==> ledger[i].agent.Some?
  }

  lemma StepNamesHolder(before: seq<Record>, step: Step, durationMs: int)
    requires LeasesNamed(before)
    requires step.action.Append? ==> !(step.action.record.Event? && step.action.record.eventType == Lease)
    ensures LeasesNamed(before + StepRecords(before, step, durationMs))
  {
    hide StepRecords, LeaseOf;
    var u := StepShape(before, step, durationMs);
  }

  lemma {:induction false} RunNamesHolders(steps: seq<Step>, durationMs: int)
    requires IsRun(steps)
    ensures LeasesNamed(RunLedger(steps, durationMs))
  {
    if steps != [] {
      hide StepRecords, LeasesNamed;
      var n := |steps| - 1;
      RunNamesHolders(steps[..n], durationMs);
      StepNamesHolder(RunLedger(steps[..n], durationMs), steps[n], durationMs);
    } else {
      assert RunLedger(steps, durationMs) == [];
    }
  }

  /** In every run two leases of one task with different holders have a reclaim or terminal status record between them. */
  lemma RunKeepsHoldersSeparated(steps: seq<Step>, durationMs: int, t: string)
    requires IsRun(steps)
    ensures HoldersSeparated(RunLedger(steps, durationMs), t) && LeasesNamed(RunLedger(steps, durationMs))
  {
    hide HoldersSeparated, LeasesNamed, RunLedger;
    HoldersSeparatedIff(steps, durationMs, t);
    RunNamesHolders(steps, durationMs);
  }

  // The lease at position i is unexpired and unreleased at the given time.
  ghost predicate Holds(ledger: seq<Record>, t: string, i: int, now: int) {
    && 0 <= i < |ledger| && IsLeaseOf(ledger[i], t)
    && !ReleasedBetween(ledger, t, i, |ledger|)
    && ledger[i].leaseExpiresAt.GetOr(0) > now
  }

  // Of two leases that hold at the same time neither is released, so their holders are not separated.
  lemma SeparatedHoldersAgree(ledger: seq<Record>, t: string, now: int, i: int, j: int)
    requires HoldersSeparated(ledger, t) && Holds(ledger, t, i, now) && Holds(ledger, t, j, now)
    ensures HolderOf(ledger[i]) == HolderOf(ledger[j])
  {
    ReleasedForGood(ledger, t, i, j);
    ReleasedForGood(ledger, t, j, i);
  }

  /** In every run at most one agent at any moment holds a lease on a task that is unexpired and unreleased. */
  lemma AtMostOneHolder(steps: seq<Step>, durationMs: int, t: string, now: int, i: int, j: int)
    requires IsRun(steps)
    requires Holds(RunLedger(steps, durationMs), t, i, now) && Holds(RunLedger(steps, durationMs), t, j, now)
    ensures RunLedger(steps, durationMs)[i].agent == RunLedger(steps, durationMs)[j].agent
  {
    hide HoldersSeparated, RunLedger;
    RunKeepsHoldersSeparated(steps, durationMs, t);
    SeparatedHoldersAgree(RunLedger(steps, durationMs), t, now, i, j);
  }

  // Two lease events posted for one task.
  function PostedLeases(t: string, a: string, b: string, expires: int): seq<Step> {
    [Step(Append(LeaseRecord(t, a, 1, expires)), 0), Step(Append(LeaseRecord(t, b, 1, expires)), 0)]
  }

  /** Why lease events that are posted must fit: the event handler appends whatever is posted, so two agents can hold a task at once. */
  lemma PostedLeasesBreakSeparation(t: string, a: string, b: string, expires: int, now: int, durationMs: int)
    requires a != b && now < expires
    ensures var ledger := RunLedger(PostedLeases(t, a, b, expires), durationMs);
            && |ledger| == 2 && Holds(ledger, t, 0, now) && Holds(ledger, t, 1, now)
            && ledger[0].agent == Some(a) && ledger[1].agent == Some(b)
  {
    var run := PostedLeases(t, a, b, expires);
    assert run[..1] == [run[0]] && run[..1][..0] == [];
    RunUnfolds(run, durationMs);
    RunUnfolds(run[..1], durationMs);
  }

  lemma ReleasedForGood(ledger: seq<Record>, t: string, i: int, j: int)
    ensures ReleasedBetween(ledger, t, i, j) ==> ReleasedBetween(ledger, t, i, |ledger|)
  {
    if ReleasedBetween(ledger, t, i, j) {
      var k :| i < k < j && 0 <= k < |ledger| && Releases(ledger[k], t);
      assert i < k < |ledger|;
    }
  }

  // Who wrote a record of the run's ledger, and when.
  datatype Stamp = Stamp(automatic: bool, clock: nat)

  function RunStamps(steps: seq<Step>, durationMs: int): (stamps: seq<Stamp>)
    ensures |stamps| == |RunLedger(steps, durationMs)|
  {
    if steps == [] then []
    else
      var n := |steps| - 1;
      var written := StepRecords(RunLedger(steps[..n], durationMs), steps[n], durationMs);
      RunStamps(steps[..n], durationMs) + seq(|written|, i => Stamp(!steps[n].action.Append?, steps[n].clock))
  }

  // The record at k reclaims the lease at p, the last one, not released before, and its expiry has passed.
  ghost predicate ReclaimsExpired(ledger: seq<Record>, k: int, p: int, clock: nat)
    requires 0 <= k < |ledger| && ledger[k].Event?
  {
    var t := ledger[k].taskId;
    && 0 <= p < k && IsLeaseOf(ledger[p], t)
    && (forall m :: p < m < k ==> !IsLeaseOf(ledger[m], t) && !Releases(ledger[m], t))
    && ledger[k].agent == Some(ledger[p].agent.GetOr(""))
    && ledger[p].leaseExpiresAt.GetOr(0) <= clock
  }

  /** In every run an automatic reclaim names the holder of the last lease and never comes before that lease's expiry. */
  lemma {:induction false} AutomaticReclaimOnlyAfterExpiry(steps: seq<Step>, durationMs: int, k: int) returns (p: int)
    requires IsRun(steps) && 0 <= k < |RunLedger(steps, durationMs)|
    requires RunLedger(steps, durationMs)[k].Event? && RunLedger(steps, durationMs)[k].eventType == Reclaim
    requires RunStamps(steps, durationMs)[k].automatic
    ensures ReclaimsExpired(RunLedger(steps, durationMs), k, p, RunStamps(steps, durationMs)[k].clock)
  {
    hide LeaseOf, LocalClaimRecords, RemoteClaimRecords;
    var n := |steps| - 1;
    var before, step := RunLedger(steps[..n], durationMs), steps[n];
    var written := StepRecords(before, step, durationMs);
    var ledger := RunLedger(steps, durationMs);
    if k < |before| {
      p := AutomaticReclaimOnlyAfterExpiry(steps[..n], durationMs, k);
      assert forall m :: 0 <= m <= k ==> ledger[m] == before[m];
    } else {
      var t := StepShape(before, step, durationMs);
      p := LeaseOfMeaning(before, t);
      assert ledger[k] == written[k - |before|];
      assert forall m :: 0 <= m < |before| ==> ledger[m] == before[m];
      assert forall m :: p < m < |before| && Releases(before[m], t) ==> ReleasedBetween(before, t, p, |before|);
    }
  }

  // ----- Attempts -----

  function LeaseCount(ledger: seq<Record>, t: string): nat {
    if ledger == [] then 0
    else
      var n := |ledger| - 1;
      LeaseCount(ledger[..n], t) + if IsLeaseOf(ledger[n], t) then 1 else 0
  }

  // The k-th lease of a task carries attempt k.
  ghost predicate AttemptsCounted(ledger: seq<Record>, t: string) {
    forall i :: 0 <= i < |ledger| && IsLeaseOf(ledger[i], t) ==> ledger[i].attempt == Some(LeaseCount(ledger[..i], t) + 1)
  }

  lemma {:induction false} AttemptIsCount(ledger: seq<Record>, t: string)
    requires AttemptsCounted(ledger, t)
    ensures LeaseOf(ledger, t).attempt == LeaseCount(ledger, t)
  {
    if ledger != [] {
      var n := |ledger| - 1;
      assert forall i :: 0 <= i < n ==> ledger[..n][..i] == ledger[..i];
      AttemptIsCount(ledger[..n], t);
    }
  }

  lemma AttemptsAfter(ledger: seq<Record>, r: Record, t: string)
    requires AttemptsCounted(ledger, t)
    requires IsLeaseOf(r, t) ==> r.attempt == Some(LeaseOf(ledger, t).attempt + 1)
    ensures AttemptsCounted(ledger + [r], t)
  {
    var next := ledger + [r];
    AttemptIsCount(ledger, t);
    forall i | 0 <= i < |next| && IsLeaseOf(next[i], t)
      ensures next[i].attempt == Some(LeaseCount(next[..i], t) + 1)
    {
      assert next[..i] == ledger[..i];
      assert i == |ledger| ==> ledger[..i] == ledger;
    }
  }

  /** Attempts are gap-free: in every run the k-th lease of a task carries attempt k, across reclaims, failures and retries. */
  lemma {:induction false} RunCountsAttempts(steps: seq<Step>, durationMs: int, t: string)
    requires IsRun(steps)
    ensures AttemptsCounted(RunLedger(steps, durationMs), t)
  {
    if steps != [] {
      var n := |steps| - 1;
      var before, step := RunLedger(steps[..n], durationMs), steps[n];
      RunCountsAttempts(steps[..n], durationMs, t);
      var u := StepShape(before, step, durationMs);
      if step.action.Append? {
        AttemptsAfter(before, step.action.record, t);
      } else if StepRecords(before, step, durationMs) == [] {
        assert before + [] == before;
      } else {
        AttemptsAfterClaim(before, u, ClaimAgent(step.action), ClaimClock(step), durationMs, t);
      }
    }
  }

  lemma AttemptsAfterClaim(ledger: seq<Record>, u: string, agent: string, now: int, durationMs: int, t: string)
    requires AttemptsCounted(ledger, t)
    ensures AttemptsCounted(ledger + ClaimRecords(LeaseOf(ledger, u), u, agent, now, durationMs), t)
  {
    var lease := LeaseOf(ledger, u);
    if !ForeignLease(lease, agent, now) {
      var r := LeaseRecord(u, agent, lease.attempt + 1, now + durationMs);
      var middle := ledger;
      if StaleLease(lease, now) {
        var reclaim := ReclaimRecord(u, lease.holder);
        middle := ledger + [reclaim];
        AttemptsAfter(ledger, reclaim, t);
        LeaseOfAppend(ledger, reclaim, u);
      }
      AttemptsAfter(middle, r, t);
      assert ledger + ClaimRecords(lease, u, agent, now, durationMs) == middle + [r];
    } else {
      assert ledger + [] == ledger;
    }
  }

  // ----- Who is refused -----

  // The lease record at i is the last of t, and no reclaim or terminal status record follows it.
  predicate StandsUnreleased(ledger: seq<Record>, t: string, i: int) {
    && 0 <= i < |ledger| && ledger[i].Event? && ledger[i].taskId == t && ledger[i].eventType == Lease
    && UndisturbedFrom(ledger, t, i)
  }

  predicate UndisturbedFrom(ledger: seq<Record>, t: string, i: int) {
    forall k :: i < k < |ledger| && 0 <= k && ledger[k].Event? && ledger[k].taskId == t ==>
      && ledger[k].eventType != Lease && ledger[k].eventType != Reclaim
      && (ledger[k].eventType == StatusChange ==>
            ledger[k].status !in [Some(Complete), Some(Failed), Some(Cancelled), Some(Closed)])
  }

  // Such a lease of another agent that expires later than now.
  ghost predicate HeldByAnother(ledger: seq<Record>, t: string, agent: string, now: int) {
    exists i :: StandsUnreleased(ledger, t, i) && ledger[i].agent.GetOr("") != agent && ledger[i].leaseExpiresAt.GetOr(0) > now
  }

  lemma StandsUnreleasedIff(ledger: seq<Record>, t: string, i: int)
    ensures StandsUnreleased(ledger, t, i) <==> LastLease(ledger, t, i) && !ReleasedBetween(ledger, t, i, |ledger|)
  {
    if StandsUnreleased(ledger, t, i) {
      assert forall k :: i < k < |ledger| ==> !IsLeaseOf(ledger[k], t) && !Releases(ledger[k], t);
    }
    if LastLease(ledger, t, i) && !ReleasedBetween(ledger, t, i, |ledger|) {
      assert forall k :: i < k < |ledger| ==> !IsLeaseOf(ledger[k], t) && !Releases(ledger[k], t);
    }
  }

  lemma OneLastLease(ledger: seq<Record>, t: string, i: int, j: int)
    requires LastLease(ledger, t, i) && LastLease(ledger, t, j)
    ensures i == j
  {
  }

  // The fold in terms of the records.
  lemma ActiveLeaseIs(ledger: seq<Record>, t: string, i: int)
    ensures StandsUnreleased(ledger, t, i) ==>
              var lease := LeaseOf(ledger, t);
              lease.active && lease.holder == ledger[i].agent.GetOr("") && lease.expires == ledger[i].leaseExpiresAt.GetOr(0)
    ensures LeaseOf(ledger, t).active ==> exists j :: StandsUnreleased(ledger, t, j)
  {
    hide UndisturbedFrom, LeaseOf, LastLease, ReleasedBetween;
    var p := LeaseOfMeaning(ledger, t);
    StandsUnreleasedIff(ledger, t, i);
    StandsUnreleasedIff(ledger, t, p);
    if StandsUnreleased(ledger, t, i) {
      LastLeaseAt(ledger, t, i);
      OneLastLease(ledger, t, i, p);
    }
  }

  lemma LastLeaseAt(ledger: seq<Record>, t: string, i: int)
    requires LastLease(ledger, t, i)
    ensures 0 <= i < |ledger| && IsLeaseOf(ledger[i], t)
  {
  }

  lemma ForeignLeaseIff(ledger: seq<Record>, t: string, agent: string, now: int)
    ensures ForeignLease(LeaseOf(ledger, t), agent, now) <==> HeldByAnother(ledger, t, agent, now)
  {
    hide UndisturbedFrom, LeaseOf;
    forall i
      ensures StandsUnreleased(ledger, t, i) ==>
                var lease := LeaseOf(ledger, t);
                lease.active && lease.holder == ledger[i].agent.GetOr("") && lease.expires == ledger[i].leaseExpiresAt.GetOr(0)
    {
      ActiveLeaseIs(ledger, t, i);
    }
    ActiveLeaseIs(ledger, t, 0);
  }

  /**
   * What a claim that is offered t writes. Nothing exactly when another agent's lease stands unreleased and unexpired;
   * else a lease, and in front of it a reclaim of its last holder exactly when a lease stands unreleased but expired.
   */
  lemma ClaimWrites(ledger: seq<Record>, t: string, agent: string, now: int, durationMs: int)
    ensures var written := ClaimRecords(LeaseOf(ledger, t), t, agent, now, durationMs);
            && (written == [] <==> HeldByAnother(ledger, t, agent, now))
            && (written != [] ==>
                  && written[|written| - 1].Event? && written[|written| - 1].taskId == t && written[|written| - 1].eventType == Lease
                  && written[|written| - 1].status == Some(Leased) && written[|written| - 1].agent == Some(agent)
                  && written[|written| - 1].leaseExpiresAt == Some(now + durationMs)
                  && (|written| == 2 <==> exists i :: StandsUnreleased(ledger, t, i) && ledger[i].leaseExpiresAt.GetOr(0) <= now)
                  && forall i :: |written| != 1 && StandsUnreleased(ledger, t, i) ==>
                       |written| == 2 && written[0] == Event(t, Reclaim, Some(Queued), Some(ledger[i].agent.GetOr("")), None, None))
  {
    hide UndisturbedFrom, LeaseOf, HeldByAnother;
    ForeignLeaseIff(ledger, t, agent, now);
    forall i
      ensures StandsUnreleased(ledger, t, i) ==>
                var lease := LeaseOf(ledger, t);
                lease.active && lease.holder == ledger[i].agent.GetOr("") && lease.expires == ledger[i].leaseExpiresAt.GetOr(0)
    {
      ActiveLeaseIs(ledger, t, i);
    }
    ActiveLeaseIs(ledger, t, 0);
  }

  /** The holder of a lease is never refused its own task, expired or not. */
  lemma HolderIsNeverRefused(ledger: seq<Record>, t: string, i: int, now: int, durationMs: int)
    requires StandsUnreleased(ledger, t, i)
    ensures WritesLease(ClaimRecords(LeaseOf(ledger, t), t, ledger[i].agent.GetOr(""), now, durationMs), t)
  {
    hide UndisturbedFrom, LeaseOf, WritesLease;
    ActiveLeaseIs(ledger, t, i);
    ClaimWritesLeaseIff(LeaseOf(ledger, t), t, ledger[i].agent.GetOr(""), now, durationMs, t);
  }

  // Of the leases of t none expires before an earlier one.
  predicate ExpiriesInOrder(ledger: seq<Record>, t: string) {
    forall i, j :: 0 <= i < j < |ledger| && IsLeaseOf(ledger[i], t) && IsLeaseOf(ledger[j], t) ==>
      ledger[i].leaseExpiresAt.GetOr(0) <= ledger[j].leaseExpiresAt.GetOr(0)
  }

  /** With separated holders and expiries in order a claim is refused exactly when any lease of another agent holds. */
  lemma RefusedWhileAnyoneHolds(ledger: seq<Record>, t: string, agent: string, now: int)
    requires HoldersSeparated(ledger, t) && ExpiriesInOrder(ledger, t)
    ensures HeldByAnother(ledger, t, agent, now) <==> exists i :: Holds(ledger, t, i, now) && HolderOf(ledger[i]) != agent
  {
    hide Releases;
    if HeldByAnother(ledger, t, agent, now) {
      var i :| StandsUnreleased(ledger, t, i) && ledger[i].agent.GetOr("") != agent && ledger[i].leaseExpiresAt.GetOr(0) > now;
      StandsUnreleasedIff(ledger, t, i);
      assert Holds(ledger, t, i, now);
    }
    if i :| Holds(ledger, t, i, now) && HolderOf(ledger[i]) != agent {
      var p := LeaseOfMeaning(ledger, t);
      assert i <= p;
      ReleasedForGood(ledger, t, i, p);
      StandsUnreleasedIff(ledger, t, p);
    }
  }

  /** Without that order a lease that outlasts the last one refuses nobody: only the last lease counts. */
  lemma EarlierLeaseRefusesNobody(t: string, a: string, b: string)
    requires a != b
    ensures var ledger := [LeaseRecord(t, a, 1, 900), LeaseRecord(t, b, 2, 100)];
            Holds(ledger, t, 0, 500) && HolderOf(ledger[0]) != b && !HeldByAnother(ledger, t, b, 500)
  {
    var ledger := [LeaseRecord(t, a, 1, 900), LeaseRecord(t, b, 2, 100)];
    assert ledger[1].eventType == Lease;
    assert forall i :: StandsUnreleased(ledger, t, i) ==> i == 1;
  }

  // ----- Renewals -----

  // The last pause or resume record of the agent is a pause.
  ghost predicate LastPauses(ledger: seq<Record>, agent: string) {
    exists i :: 0 <= i < |ledger| && ledger[i] == AgentControl(agent, true) &&
      forall k :: i < k < |ledger| ==> !(ledger[k].AgentControl? && ledger[k].agentName == agent)
  }

  /** An agent is paused exactly when its last control record pauses it. */
  lemma {:induction false} PausedIff(ledger: seq<Record>, agent: string)
    ensures Paused(ledger, agent) <==> LastPauses(ledger, agent)
  {
    if ledger != [] {
      hide LastPauses;
      var n := |ledger| - 1;
      PausedIff(ledger[..n], agent);
      LastPausesStep(ledger[..n], ledger[n], agent);
      assert ledger == ledger[..n] + [ledger[n]];
    } else {
      assert !LastPauses(ledger, agent);
    }
  }

  lemma LastPausesStep(ledger: seq<Record>, r: Record, agent: string)
    ensures LastPauses(ledger + [r], agent) <==>
            if r.AgentControl? && r.agentName == agent then r.pause else LastPauses(ledger, agent)
  {
    var next, n := ledger + [r], |ledger|;
    if r.AgentControl? && r.agentName == agent {
      assert next[n] == r;
    } else {
      if LastPauses(ledger, agent) {
        var i :| 0 <= i < n && ledger[i] == AgentControl(agent, true) &&
          forall k :: i < k < n ==> !(ledger[k].AgentControl? && ledger[k].agentName == agent);
        assert next[i] == AgentControl(agent, true);
      }
      if LastPauses(next, agent) {
        var i :| 0 <= i < |next| && next[i] == AgentControl(agent, true) &&
          forall k :: i < k < |next| ==> !(next[k].AgentControl? && next[k].agentName == agent);
        assert ledger[i] == AgentControl(agent, true);
        forall k | i < k < n
          ensures !(ledger[k].AgentControl? && ledger[k].agentName == agent)
        {
          assert next[k] == ledger[k];
        }
      }
    }
  }

  // A task the host scan takes for the agent on the host: queued or assigned, or underway with a set expiry that has passed.
  function HostTakes(agent: string, host: string, now: int): Entry -> bool {
    (e: Entry) =>
      && (e.status == Queued || e.status == Assigned || ((e.status == Leased || e.status == Running) && 0 < e.leaseExpiresAt <= now))
      && e.ownerAgent == agent && (e.executionHost == "" || e.executionHost == host)
  }

  // What the two passes of the local scan take: tasks without a host only, by the agent last named, and by the owner.
  function QueuedTakes(agent: string): Entry -> bool {
    (e: Entry) => (e.status == Queued || e.status == Assigned) && e.assignedAgent == agent && e.executionHost == ""
  }

  function StuckTakes(agent: string, now: int): Entry -> bool {
    (e: Entry) => (e.status == Leased || e.status == Running) && 0 < e.leaseExpiresAt <= now && e.ownerAgent == agent && e.executionHost == ""
  }

  ghost predicate WritesLease(records: seq<Record>, t: string) {
    exists k :: 0 <= k < |records| && IsLeaseOf(records[k], t)
  }

  lemma ClaimWritesLeaseIff(lease: LeaseState, u: string, agent: string, now: int, durationMs: int, t: string)
    ensures WritesLease(ClaimRecords(lease, u, agent, now, durationMs), t) <==> u == t && !ForeignLease(lease, agent, now)
  {
    var records := ClaimRecords(lease, u, agent, now, durationMs);
    if !ForeignLease(lease, agent, now) {
      assert IsLeaseOf(records[|records| - 1], u);
    }
  }

  lemma NothingWritten(t: string)
    ensures !WritesLease([], t)
  {
  }

  lemma HostTakesIff(ledger: seq<Record>, t: string, agent: string, host: string, now: int)
    ensures FirstMatch(HostScan, ledger, t, e => OfferedOnHost(e, agent, host, now)) <==>
            FirstMatch(HostScan, ledger, t, HostTakes(agent, host, now))
    ensures NothingEarlier(HostScan, ledger, t, e => OfferedOnHost(e, agent, host, now)) <==>
            NothingEarlier(HostScan, ledger, t, HostTakes(agent, host, now))
  {
    hide FirstMatch, NothingEarlier;
    SameMatches(HostScan, ledger, t, e => OfferedOnHost(e, agent, host, now), HostTakes(agent, host, now));
  }

  lemma LocalTakesIff(ledger: seq<Record>, t: string, agent: string, now: int)
    ensures FirstMatch(QueuedScan, ledger, t, e => QueuedFor(e, agent)) <==> FirstMatch(QueuedScan, ledger, t, QueuedTakes(agent))
    ensures NothingEarlier(QueuedScan, ledger, t, e => QueuedFor(e, agent)) <==> NothingEarlier(QueuedScan, ledger, t, QueuedTakes(agent))
    ensures FirstMatch(LocalScan, ledger, t, e => StuckFor(e, agent, now)) <==> FirstMatch(LocalScan, ledger, t, StuckTakes(agent, now))
    ensures NothingEarlier(LocalScan, ledger, t, e => StuckFor(e, agent, now)) <==>
            NothingEarlier(LocalScan, ledger, t, StuckTakes(agent, now))
  {
    hide FirstMatch, NothingEarlier;
    SameMatches(QueuedScan, ledger, t, e => QueuedFor(e, agent), QueuedTakes(agent));
    SameMatches(LocalScan, ledger, t, e => StuckFor(e, agent, now), StuckTakes(agent, now));
  }

  /** A remote claim leases task t exactly when the host is capable, t is the first task the host scan takes, and nobody else holds it. */
  lemma RemoteClaimLeasesIff(ledger: seq<Record>, agent: string, host: string, capable: bool, clock: nat, durationMs: int, t: string)
    ensures WritesLease(RemoteClaimRecords(ledger, agent, host, capable, clock, durationMs), t) <==>
            && capable
            && FirstMatch(HostScan, ledger, t, HostTakes(agent, host, clock))
            && !HeldByAnother(ledger, t, agent, clock)
  {
    hide Table, LeaseOf, First, FirstMatch, WritesLease, ClaimRecords, OfferedOnHost, HeldByAnother;
    ScanFindsIff(HostScan, ledger, t, e => OfferedOnHost(e, agent, host, clock));
    HostTakesIff(ledger, t, agent, host, clock);
    ForeignLeaseIff(ledger, t, agent, clock);
    NothingWritten(t);
    var task := HostOffer(ledger, agent, host, clock);
    if task.Some? && capable {
      var u := task.value.taskId;
      ClaimWritesLeaseIff(LeaseOf(ledger, u), u, agent, clock, durationMs, t);
    }
  }

  // No known task is queued for the agent.
  ghost predicate NothingQueued(ledger: seq<Record>, agent: string) {
    forall t :: t in Known(ledger) ==> !Matches(QueuedScan, ledger, t, QueuedTakes(agent))
  }

  lemma QueuedOfferNoneIff(ledger: seq<Record>, agent: string)
    ensures QueuedOffer(ledger, agent).None? <==> NothingQueued(ledger, agent)
  {
    hide Table, Fold, First, Known, Matches;
    ScanRefinesFold(QueuedScan, ledger, e => QueuedFor(e, agent));
    SameMatches(QueuedScan, ledger, "", e => QueuedFor(e, agent), QueuedTakes(agent));
    if QueuedOffer(ledger, agent).Some? {
      var i :| 0 <= i < |Known(ledger)| && Matches(QueuedScan, ledger, Known(ledger)[i], e => QueuedFor(e, agent));
      assert Known(ledger)[i] in Known(ledger);
    }
  }

  /**
   * A local claim leases task t exactly when the agent is not paused, no foreign lease stands, and t is the first task
   * queued for the agent, or nothing is queued for it and t is its first task stuck by the local expiry.
   */
  lemma LocalClaimLeasesIff(ledger: seq<Record>, agent: string, clock: nat, durationMs: int, t: string)
    ensures WritesLease(LocalClaimRecords(ledger, agent, clock, durationMs), t) <==>
            && !LastPauses(ledger, agent)
            && !HeldByAnother(ledger, t, agent, clock / 1000 * 1000)
            && (FirstMatch(QueuedScan, ledger, t, QueuedTakes(agent)) ||
                (NothingQueued(ledger, agent) && FirstMatch(LocalScan, ledger, t, StuckTakes(agent, clock / 1000 * 1000))))
  {
    hide Table, LeaseOf, First, FirstMatch, WritesLease, ClaimRecords, QueuedFor, StuckFor, NothingQueued, Paused, HeldByAnother;
    var now := WholeSeconds(clock);
    ScanFindsIff(QueuedScan, ledger, t, e => QueuedFor(e, agent));
    ScanFindsIff(LocalScan, ledger, t, e => StuckFor(e, agent, now));
    QueuedOfferNoneIff(ledger, agent);
    LocalTakesIff(ledger, t, agent, now);
    PausedIff(ledger, agent);
    ForeignLeaseIff(ledger, t, agent, now);
    NothingWritten(t);
    var task := LocalOffer(ledger, agent, now);
    if task.Some? && !Paused(ledger, agent) {
      var u := task.value.taskId;
      ClaimWritesLeaseIff(LeaseOf(ledger, u), u, agent, now, durationMs, t);
    }
  }

  /**
   * When a renewed lease protects its task from remote claims: while the host scan's expiry is ahead a remote claim
   * leases the task exactly when its status went back to queued or assigned (and it is the agent's, on this host, no
   * earlier task is offered, and no foreign lease stands by the expiry of the lease record itself).
   */
  lemma RemoteClaimOfRenewedIff(ledger: seq<Record>, agent: string, host: string, capable: bool, clock: nat, durationMs: int, t: string)
    requires Fold(HostScan, ledger, t).Some? && Fold(HostScan, ledger, t).value.leaseExpiresAt > clock
    ensures var e := Fold(HostScan, ledger, t).value;
            WritesLease(RemoteClaimRecords(ledger, agent, host, capable, clock, durationMs), t) <==>
            && (e.status == Queued || e.status == Assigned) && e.ownerAgent == agent && (e.executionHost == "" || e.executionHost == host)
            && capable && !HeldByAnother(ledger, t, agent, clock)
            && NothingEarlier(HostScan, ledger, t, HostTakes(agent, host, clock))
  {
    hide Fold, LeaseOf, WritesLease, Known, HeldByAnother;
    RemoteClaimLeasesIff(ledger, agent, host, capable, clock, durationMs, t);
  }

  /**
   * A renewed lease does not protect its task from local claims of the owner: whatever was renewed, a local claim leases
   * the task exactly when it has no host and is queued for the agent, or leased or running with the agent as owner
   * and the expiry that the last lease record itself set has passed.
   */
  lemma LocalClaimOfRenewedIff(ledger: seq<Record>, agent: string, clock: nat, durationMs: int, t: string)
    requires Fold(HostScan, ledger, t).Some? && Fold(HostScan, ledger, t).value.leaseExpiresAt > clock / 1000 * 1000
    ensures Fold(QueuedScan, ledger, t).Some?
    ensures var now, e, expires := clock / 1000 * 1000, Fold(HostScan, ledger, t).value, StandingExpiry(LocalScan, ledger, t);
            WritesLease(LocalClaimRecords(ledger, agent, clock, durationMs), t) <==>
            && e.executionHost == "" && !LastPauses(ledger, agent) && !HeldByAnother(ledger, t, agent, now)
            && (|| ((e.status == Queued || e.status == Assigned) && Fold(QueuedScan, ledger, t).value.assignedAgent == agent &&
                    NothingEarlier(QueuedScan, ledger, t, QueuedTakes(agent)))
                || ((e.status == Leased || e.status == Running) && e.ownerAgent == agent && 0 < expires <= now &&
                    NothingQueued(ledger, agent) && NothingEarlier(LocalScan, ledger, t, StuckTakes(agent, now))))
  {
    hide Fold, LeaseOf, WritesLease, Known, LastWhere, StandingExpiry, LastPauses, NothingQueued, HeldByAnother;
    LocalClaimLeasesIff(ledger, agent, clock, durationMs, t);
    StatusIsCommon(LocalScan, ledger, t);
    StatusIsCommon(HostScan, ledger, t);
    OwnerIsCommon(ledger, t);
    FoldIsSetByLast(QueuedScan, ledger, t);
    FoldIsSetByLast(LocalScan, ledger, t);
    FoldIsSetByLast(HostScan, ledger, t);
  }

  // A record of another task, or a renewal or running status of t.
  predicate KeepsRunning(r: Record, t: string) {
    && !IsPackageOf(r, t)
    && (IsEventOf(r, t) ==> r.status == Some(Running) && (r.eventType == StatusChange || r.eventType == LeaseRenewal))
  }

  // The step leaves t alone: such a record, a local claim of an agent that does not own t, or a remote claim before the expiry.
  ghost predicate Spares(ledger: seq<Record>, step: Step, t: string) {
    match step.action
    case Append(r) => KeepsRunning(r, t)
    case LocalClaim(agent) => Fold(HostScan, ledger, t).Some? ==> agent != Fold(HostScan, ledger, t).value.ownerAgent
    case RemoteClaim(_, _, _) => Fold(HostScan, ledger, t).Some? ==> step.clock < Fold(HostScan, ledger, t).value.leaseExpiresAt
  }

  ghost predicate Underway(ledger: seq<Record>, t: string) {
    var e := Fold(HostScan, ledger, t);
    e.Some? && (e.value.status == Leased || e.value.status == Running)
  }

  lemma SparedStep(ledger: seq<Record>, step: Step, durationMs: int, t: string)
    requires Underway(ledger, t) && Spares(ledger, step, t)
    ensures !WritesLease(StepRecords(ledger, step, durationMs), t)
    ensures Untouching(StepRecords(ledger, step, durationMs), t)
  {
    hide Fold, LeaseOf, Known, LocalClaimRecords, RemoteClaimRecords;
    match step.action
    case Append(r) =>
    case LocalClaim(agent) =>
      SparedByOwner(ledger, agent, step.clock, durationMs, t);
      LocalClaimShape(ledger, agent, step.clock, durationMs);
    case RemoteClaim(agent, host, capable) =>
      RemoteClaimOfRenewedIff(ledger, agent, host, capable, step.clock, durationMs, t);
      RemoteClaimShape(ledger, agent, host, capable, step.clock, durationMs);
  }

  lemma SparedByOwner(ledger: seq<Record>, agent: string, clock: nat, durationMs: int, t: string)
    requires Underway(ledger, t) && Fold(HostScan, ledger, t).value.ownerAgent != agent
    ensures !WritesLease(LocalClaimRecords(ledger, agent, clock, durationMs), t)
  {
    hide Fold, LeaseOf, Known, WritesLease;
    LocalClaimLeasesIff(ledger, agent, clock, durationMs, t);
    StatusIsCommon(LocalScan, ledger, t);
    StatusIsCommon(HostScan, ledger, t);
    OwnerIsCommon(ledger, t);
  }

  // Renewals and running statuses are all that is written about t.
  ghost predicate Untouching(records: seq<Record>, t: string) {
    forall k :: 0 <= k < |records| ==> KeepsRunning(records[k], t)
  }

  // A claim writes about one task only, and leases it when it writes at all.
  ghost predicate OneClaim(records: seq<Record>) {
    records != [] ==> exists u :: WritesLease(records, u) && forall k, t :: 0 <= k < |records| && t != u ==> KeepsRunning(records[k], t)
  }

  lemma ClaimShape(lease: LeaseState, u: string, agent: string, now: int, durationMs: int)
    ensures OneClaim(ClaimRecords(lease, u, agent, now, durationMs))
  {
    ClaimWritesLeaseIff(lease, u, agent, now, durationMs, u);
  }

  lemma LocalClaimShape(ledger: seq<Record>, agent: string, clock: nat, durationMs: int)
    ensures OneClaim(LocalClaimRecords(ledger, agent, clock, durationMs))
  {
    hide OneClaim, LocalOffer, ClaimRecords, LeaseOf;
    NoClaim();
    var task := LocalOffer(ledger, agent, WholeSeconds(clock));
    if task.Some? {
      ClaimShape(LeaseOf(ledger, task.value.taskId), task.value.taskId, agent, WholeSeconds(clock), durationMs);
    }
  }

  lemma RemoteClaimShape(ledger: seq<Record>, agent: string, host: string, capable: bool, clock: nat, durationMs: int)
    ensures OneClaim(RemoteClaimRecords(ledger, agent, host, capable, clock, durationMs))
  {
    hide OneClaim, HostOffer, ClaimRecords, LeaseOf;
    NoClaim();
    var task := HostOffer(ledger, agent, host, clock);
    if task.Some? {
      ClaimShape(LeaseOf(ledger, task.value.taskId), task.value.taskId, agent, clock, durationMs);
    }
  }

  lemma NoClaim()
    ensures OneClaim([])
  {
  }

  lemma {:induction false} StaysUnderway(ledger: seq<Record>, records: seq<Record>, t: string)
    requires Underway(ledger, t) && Untouching(records, t)
    ensures Underway(ledger + records, t)
  {
    if records == [] {
      assert ledger + records == ledger;
    } else {
      hide Fold;
      var n := |records| - 1;
      StaysUnderway(ledger, records[..n], t);
      FoldStep(HostScan, ledger + records[..n], records[n], t);
      assert ledger + records == ledger + records[..n] + [records[n]];
    }
  }

  ghost predicate AllSpare(past: seq<Step>, later: seq<Step>, durationMs: int, t: string) {
    forall i :: 0 <= i < |later| ==> Spares(RunLedger(past + later[..i], durationMs), later[i], t)
  }

  /**
   * A renewed lease is kept: from any moment of a run at which task t is leased or running, as long as only renewals and
   * running statuses are appended for it, every remote claim comes before the expiry the host scan sees, and the
   * routed owner makes no local claim, no claim writes a lease on t.
   */
  lemma {:induction false} RenewedLeaseIsKept(past: seq<Step>, later: seq<Step>, durationMs: int, t: string)
    requires Underway(RunLedger(past, durationMs), t) && AllSpare(past, later, durationMs, t)
    ensures var before, after := RunLedger(past, durationMs), RunLedger(past + later, durationMs);
            before <= after && Underway(after, t) && !WritesLease(after[|before|..], t)
  {
    var before := RunLedger(past, durationMs);
    if later == [] {
      assert past + later == past;
      NothingWritten(t);
    } else {
      hide *;
      var n := |later| - 1;
      AllSpareBefore(past, later, durationMs, t);
      RenewedLeaseIsKept(past, later[..n], durationMs, t);
      var middle := RunLedger(past + later[..n], durationMs);
      SparedStep(middle, later[n], durationMs, t);
      RunExtends(past, later, durationMs);
      KeptStep(before, middle, StepRecords(middle, later[n], durationMs), t);
    }
  }

  lemma AllSpareBefore(past: seq<Step>, later: seq<Step>, durationMs: int, t: string)
    requires later != [] && AllSpare(past, later, durationMs, t)
    ensures var n := |later| - 1;
            AllSpare(past, later[..n], durationMs, t) && Spares(RunLedger(past + later[..n], durationMs), later[n], t)
  {
    hide Spares, RunLedger;
    var n := |later| - 1;
    assert forall i :: 0 <= i < n ==> later[..n][..i] == later[..i];
  }

  lemma KeptStep(before: seq<Record>, middle: seq<Record>, written: seq<Record>, t: string)
    requires before <= middle && Underway(middle, t) && !WritesLease(middle[|before|..], t)
    requires Untouching(written, t) && !WritesLease(written, t)
    ensures var after := middle + written; before <= after && Underway(after, t) && !WritesLease(after[|before|..], t)
  {
    hide Underway, Untouching, WritesLease;
    StaysUnderway(middle, written, t);
    assert (middle + written)[|before|..] == middle[|before|..] + written;
    WritesLeaseInEither(middle[|before|..], written, t);
  }

  lemma RunExtends(past: seq<Step>, later: seq<Step>, durationMs: int)
    requires later != []
    ensures var middle := RunLedger(past + later[..|later| - 1], durationMs);
            RunLedger(past + later, durationMs) == middle + StepRecords(middle, later[|later| - 1], durationMs)
  {
    hide StepRecords;
    var n := |later| - 1;
    assert (past + later)[..|past + later| - 1] == past + later[..n];
  }

  lemma WritesLeaseInEither(a: seq<Record>, b: seq<Record>, t: string)
    ensures WritesLease(a + b, t) ==> WritesLease(a, t) || WritesLease(b, t)
  {
    if WritesLease(a + b, t) {
      var k :| 0 <= k < |a + b| && IsLeaseOf((a + b)[k], t);
      if k < |a| {
        assert IsLeaseOf(a[k], t);
      } else {
        assert IsLeaseOf(b[k - |a|], t);
      }
    }
  }

  lemma OfferOfOneTask(ledger: seq<Record>, t: string, scan: Scan, p: Entry -> bool)
    requires Packaged(ledger) == [t]
    ensures First(Table(scan, ledger), p) ==
            if Fold(scan, ledger, t).Some? && p(Fold(scan, ledger, t).value) then Fold(scan, ledger, t) else None
  {
    TableRefinesFold(scan, ledger);
    assert Known(ledger) == [t];
    var table := Table(scan, ledger);
    assert Fold(scan, ledger, Known(ledger)[0]) == Some(table[0]);
    assert table[1..] == [];
  }

  lemma PackagedStep(ledger: seq<Record>, r: Record)
    requires !r.Package?
    ensures Packaged(ledger + [r]) == Packaged(ledger)
  {
    assert (ledger + [r])[..|ledger|] == ledger;
  }

  lemma PackagedFirst(t: string, a: string)
    ensures Packaged([PackageFor(t, a)]) == [t]
  {
    var ledger := [PackageFor(t, a)];
    assert ledger[..0] == [];
    assert Packaged(ledger[..0]) == [];
  }

  lemma PackagedOnce(t: string, a: string, r1: Record, r2: Record, r3: Record)
    requires !r1.Package? && !r2.Package? && !r3.Package?
    ensures Packaged([PackageFor(t, a), r1, r2, r3]) == [t]
  {
    hide Packaged, PackageFor;
    var p := PackageFor(t, a);
    PackagedFirst(t, a);
    PackagedStep([p], r1);
    PackagedStep([p, r1], r2);
    PackagedStep([p, r1, r2], r3);
    assert [p] + [r1] == [p, r1] && [p, r1] + [r2] == [p, r1, r2] && [p, r1, r2] + [r3] == [p, r1, r2, r3];
  }

  // A task of agent a whose lease a renewed before the operator rerouted it to b.
  function ReroutedLedger(t: string, a: string, b: string): seq<Record> {
    [PackageFor(t, a), LeaseRecord(t, a, 1, 900000), LeaseRenewalRecord(t, a, 1, 1500000), RerouteRecord(t, b)]
  }

  lemma ReroutedFold(t: string, a: string, b: string)
    ensures Packaged(ReroutedLedger(t, a, b)) == [t]
    ensures Fold(HostScan, ReroutedLedger(t, a, b), t) == Some(Entry(t, Queued, b, b, "", 1500000))
  {
    hide Fold, Packaged;
    var r1, r2, r3 := LeaseRecord(t, a, 1, 900000), LeaseRenewalRecord(t, a, 1, 1500000), RerouteRecord(t, b);
    FoldOfFour(HostScan, PackageFor(t, a), r1, r2, r3, t);
    PackagedOnce(t, a, r1, r2, r3);
  }

  lemma ReroutedLease(t: string, a: string, b: string)
    ensures LeaseOf(ReroutedLedger(t, a, b), t) == LeaseState(true, a, 900000, 1)
  {
    hide LeaseOf;
    LeaseOfFour(PackageFor(t, a), LeaseRecord(t, a, 1, 900000), LeaseRenewalRecord(t, a, 1, 1500000), RerouteRecord(t, b), t);
  }

  // Agent a claims its task and renews the lease; the operator then reroutes the task to b, which claims it from a host.
  function RerouteRun(t: string, a: string, b: string, host: string): seq<Step> {
    [ Step(Append(PackageFor(t, a)), 0), Step(LocalClaim(a), 0), Step(Append(LeaseRenewalRecord(t, a, 1, 1500000)), 600000),
      Step(Append(RerouteRecord(t, b)), 700000), Step(RemoteClaim(b, host, true), 1000000) ]
  }

  lemma {:induction false} NeverPaused(ledger: seq<Record>, agent: string)
    requires forall k :: 0 <= k < |ledger| ==> !ledger[k].AgentControl?
    ensures !Paused(ledger, agent)
  {
    if ledger != [] {
      NeverPaused(ledger[..|ledger| - 1], agent);
    }
  }

  lemma FirstClaim(t: string, a: string)
    ensures LocalClaimRecords([PackageFor(t, a)], a, 0, 900000) == [LeaseRecord(t, a, 1, 900000)]
  {
    hide Table, First, Packaged, Paused;
    var ledger := [PackageFor(t, a)];
    assert [] + [PackageFor(t, a)] == ledger;
    FoldStep(QueuedScan, [], PackageFor(t, a), t);
    LeaseOfAppend([], PackageFor(t, a), t);
    NeverPaused(ledger, a);
    PackagedFirst(t, a);
    OfferOfOneTask(ledger, t, QueuedScan, e => QueuedFor(e, a));
  }

  lemma RunOfOne(step: Step, durationMs: int)
    ensures RunLedger([step], durationMs) == StepRecords([], step, durationMs)
  {
    assert [step][..0] == [];
    assert [] + StepRecords([], step, durationMs) == StepRecords([], step, durationMs);
  }

  lemma RunThen(steps: seq<Step>, step: Step, durationMs: int)
    ensures RunLedger(steps + [step], durationMs) ==
            RunLedger(steps, durationMs) + StepRecords(RunLedger(steps, durationMs), step, durationMs)
  {
    hide StepRecords;
    assert (steps + [step])[..|steps|] == steps;
  }

  lemma ClaimedLedger(t: string, a: string)
    ensures RunLedger([Step(Append(PackageFor(t, a)), 0), Step(LocalClaim(a), 0)], 900000) ==
            [PackageFor(t, a), LeaseRecord(t, a, 1, 900000)]
  {
    hide LocalClaimRecords;
    var s1, s2 := Step(Append(PackageFor(t, a)), 0), Step(LocalClaim(a), 0);
    RunOfOne(s1, 900000);
    RunThen([s1], s2, 900000);
    FirstClaim(t, a);
    assert [s1] + [s2] == [s1, s2];
  }

  lemma RerouteRunLedger(t: string, a: string, b: string, host: string)
    ensures RunLedger(RerouteRun(t, a, b, host)[..4], 900000) == ReroutedLedger(t, a, b)
    ensures RunLedger(RerouteRun(t, a, b, host), 900000) ==
            ReroutedLedger(t, a, b) + RemoteClaimRecords(ReroutedLedger(t, a, b), b, host, true, 1000000, 900000)
  {
    hide LocalClaimRecords, RemoteClaimRecords, RunLedger;
    var run := RerouteRun(t, a, b, host);
    ClaimedLedger(t, a);
    assert run[..2] == [run[0], run[1]] && run[..3] == run[..2] + [run[2]] && run[..4] == run[..3] + [run[3]] && run == run[..4] + [run[4]];
    RunThen(run[..2], run[2], 900000);
    RunThen(run[..3], run[3], 900000);
    RunThen(run[..4], run[4], 900000);
  }

  /** A run in which that happens: after a reroute an agent on another host takes over a lease that stands until 1500000 at 1000000. */
  lemma RerouteTakesOverRenewedLease(t: string, a: string, b: string, host: string)
    requires a != b
    ensures IsRun(RerouteRun(t, a, b, host))
    ensures var before := RunLedger(RerouteRun(t, a, b, host)[..4], 900000);
            && Fold(HostScan, before, t).Some? && Fold(HostScan, before, t).value.leaseExpiresAt == 1500000
            && RunLedger(RerouteRun(t, a, b, host), 900000) == before + [ReclaimRecord(t, a), LeaseRecord(t, b, 2, 1900000)]
  {
    RerouteRunLedger(t, a, b, host);
    hide Fold, Packaged, Table, LeaseOf, ReroutedLedger, RunLedger, First;
    ReroutedFold(t, a, b);
    ReroutedLease(t, a, b);
    OfferOfOneTask(ReroutedLedger(t, a, b), t, HostScan, e => OfferedOnHost(e, b, host, 1000000));
  }

  lemma LeaseOfFour(p: Record, r1: Record, r2: Record, r3: Record, t: string)
    ensures LeaseOf([p, r1, r2, r3], t) ==
            LeaseStep(LeaseStep(LeaseStep(LeaseStep(LeaseState(false, "", 0, 0), p, t), r1, t), r2, t), r3, t)
  {
    LeaseOfAppend([], p, t);
    LeaseOfAppend([p], r1, t);
    LeaseOfAppend([p, r1], r2, t);
    LeaseOfAppend([p, r1, r2], r3, t);
    assert [] + [p] == [p] && [p] + [r1] == [p, r1] && [p, r1] + [r2] == [p, r1, r2] && [p, r1, r2] + [r3] == [p, r1, r2, r3];
  }

  // A running task whose holder has renewed its lease.
  function RenewedLedger(t: string, a: string): seq<Record> {
    [PackageFor(t, a), LeaseRecord(t, a, 1, 900000), StatusRecord(t, Running), LeaseRenewalRecord(t, a, 1, 1500000)]
  }

  lemma RenewedFold(scan: Scan, t: string, a: string)
    ensures Packaged(RenewedLedger(t, a)) == [t]
    ensures scan != QueuedScan ==>
              Fold(scan, RenewedLedger(t, a), t) == Some(Entry(t, Running, a, a, "", if scan == HostScan then 1500000 else 900000))
    ensures Fold(QueuedScan, RenewedLedger(t, a), t) == Some(Entry(t, Running, a, a, "", 0))
  {
    hide Fold, Packaged;
    var r1, r2, r3 := LeaseRecord(t, a, 1, 900000), StatusRecord(t, Running), LeaseRenewalRecord(t, a, 1, 1500000);
    FoldOfFour(scan, PackageFor(t, a), r1, r2, r3, t);
    FoldOfFour(QueuedScan, PackageFor(t, a), r1, r2, r3, t);
    PackagedOnce(t, a, r1, r2, r3);
  }

  // Agent a claims its task, runs it and renews the lease; then a local claim of a comes at the given clock.
  function RenewedRun(t: string, a: string, clock: nat): seq<Step> {
    [ Step(Append(PackageFor(t, a)), 0), Step(LocalClaim(a), 0), Step(Append(StatusRecord(t, Running)), 1000),
      Step(Append(LeaseRenewalRecord(t, a, 1, 1500000)), 600000), Step(LocalClaim(a), clock) ]
  }

  lemma RenewedRunLedger(t: string, a: string, clock: nat)
    ensures RunLedger(RenewedRun(t, a, clock)[..4], 900000) == RenewedLedger(t, a)
    ensures RunLedger(RenewedRun(t, a, clock), 900000) ==
            RenewedLedger(t, a) + LocalClaimRecords(RenewedLedger(t, a), a, clock, 900000)
  {
    hide LocalClaimRecords, RunLedger;
    var run := RenewedRun(t, a, clock);
    ClaimedLedger(t, a);
    assert run[..2] == [run[0], run[1]] && run[..3] == run[..2] + [run[2]] && run[..4] == run[..3] + [run[3]] && run == run[..4] + [run[4]];
    RunThen(run[..2], run[2], 900000);
    RunThen(run[..3], run[3], 900000);
    RunThen(run[..4], run[4], 900000);
  }

  lemma RenewedLease(t: string, a: string)
    ensures LeaseOf(RenewedLedger(t, a), t) == LeaseState(true, a, 900000, 1)
    ensures !Paused(RenewedLedger(t, a), a)
  {
    hide LeaseOf;
    LeaseOfFour(PackageFor(t, a), LeaseRecord(t, a, 1, 900000), StatusRecord(t, Running), LeaseRenewalRecord(t, a, 1, 1500000), t);
    NeverPaused(RenewedLedger(t, a), a);
  }

  /**
   * A run in which a local claim takes over a renewed lease: once the first expiry has passed, a second process of the
   * owner leases the running task again, though its lease was renewed until 1500000 and no host is offered it.
   */
  lemma LocalScanIgnoresRenewal(t: string, a: string, host: string, clock: nat)
    requires 900000 <= WholeSeconds(clock) < 1500000
    ensures IsRun(RenewedRun(t, a, clock))
    ensures var before, now := RunLedger(RenewedRun(t, a, clock)[..4], 900000), WholeSeconds(clock);
            && HostOffer(before, a, host, now).None?
            && RunLedger(RenewedRun(t, a, clock), 900000) == before + [ReclaimRecord(t, a), LeaseRecord(t, a, 2, now + 900000)]
  {
    RenewedRunLedger(t, a, clock);
    hide Table, Fold, Packaged, RenewedLedger, RunLedger, LeaseOf, Paused, First;
    var ledger, now := RenewedLedger(t, a), WholeSeconds(clock);
    RenewedFold(LocalScan, t, a);
    RenewedFold(HostScan, t, a);
    RenewedLease(t, a);
    OfferOfOneTask(ledger, t, QueuedScan, e => QueuedFor(e, a));
    OfferOfOneTask(ledger, t, LocalScan, e => StuckFor(e, a, now));
    OfferOfOneTask(ledger, t, HostScan, e => OfferedOnHost(e, a, host, now));
  }
}
