/**
 * The task ledger as a sequence of typed records, one per line. A record holds what the readers of
 * src/wt_task_store.c and src/wt_task_projection.c take from a line; a field the line may lack is an Option.
 */
module Ledger {
  import opened Options

  // The status texts the program compares with; NoText is the empty text, Other any further one.
  datatype Status =
    | Queued | Assigned | Leased | Running | BlockedStatus
    | Complete | Failed | Cancelled | Closed
    | NoText | Other(text: string)

  predicate Terminal(s: Status) { s.Complete? || s.Failed? || s.Cancelled? || s.Closed? }

  // OtherEvent stands for every other event type and for a missing one.
  datatype EventType = Lease | LeaseRenewal | Reclaim | StatusChange | Routing | Assignment | OtherEvent

  datatype Record =
    | Package(
        taskId: string, agent: Option<string>, status: Option<Status>, executionHost: string,
        initiativeId: string, modelId: string, parentTaskId: string, maxTokens: Option<int>, createdAt: Option<int>,
        dependencies: seq<string>)
    | Event(
        taskId: string, eventType: EventType, status: Option<Status>, agent: Option<string>,
        leaseExpiresAt: Option<int>, attempt: Option<int>)
    | Request(taskId: string, agent: Option<string>)
    | Kill(taskId: string)
    | AgentControl(agentName: string, pause: bool)
    | OtherRecord

  predicate IsPackageOf(r: Record, t: string) { r.Package? && r.taskId == t }

  predicate IsEventOf(r: Record, t: string) { r.Event? && r.taskId == t }

  predicate IsLeaseOf(r: Record, t: string) { IsEventOf(r, t) && r.eventType == Lease }

  // wtTaskFindActiveLease: a reclaim, or a status record with a terminal status.
  predicate Releases(r: Record, t: string) {
    IsEventOf(r, t) &&
    (r.eventType == Reclaim || (r.eventType == StatusChange && r.status.Some? && Terminal(r.status.value)))
  }

  // ----- The event writers of src/wt_task_store.c -----

  function LeaseRecord(t: string, agent: string, attempt: int, expires: int): Record {
    Event(t, Lease, Some(Leased), Some(agent), Some(expires), Some(attempt))
  }

  function LeaseRenewalRecord(t: string, agent: string, attempt: int, expires: int): Record {
    Event(t, LeaseRenewal, Some(Running), Some(agent), Some(expires), Some(attempt))
  }

  function ReclaimRecord(t: string, previousAgent: string): Record {
    Event(t, Reclaim, Some(Queued), Some(previousAgent), None, None)
  }

  function StatusRecord(t: string, status: Status): Record {
    Event(t, StatusChange, Some(status), None, None, None)
  }

  // The operator's reroute in src/wt_roomd.c.
  function RerouteRecord(t: string, agent: string): Record {
    Event(t, Routing, Some(Queued), Some(agent), None, None)
  }

  // ----- The last record that matters -----

  // The position of the last record that satisfies p, or -1.
  function LastWhere(ledger: seq<Record>, p: Record -> bool): (k: int)
    ensures -1 <= k < |ledger|
    ensures k >= 0 ==> p(ledger[k])
    ensures forall j :: k < j < |ledger| ==> !p(ledger[j])
  {
    if ledger == [] then -1
    else
      var n := |ledger| - 1;
      if p(ledger[n]) then n else LastWhere(ledger[..n], p)
  }

  lemma LastWhereAppend(ledger: seq<Record>, r: Record, p: Record -> bool)
    ensures LastWhere(ledger + [r], p) == if p(r) then |ledger| else LastWhere(ledger, p)
  {
    assert (ledger + [r])[..|ledger|] == ledger;
  }

  // The records from the first package of t on: the scanners and the tasks table ignore what comes before it.
  function Tracked(ledger: seq<Record>, t: string): seq<Record> {
    if ledger == [] then []
    else
      var n := |ledger| - 1;
      var before := Tracked(ledger[..n], t);
      if before != [] || IsPackageOf(ledger[n], t) then before + [ledger[n]] else []
  }

  lemma TrackedAppend(ledger: seq<Record>, r: Record, t: string)
    ensures Tracked(ledger + [r], t) ==
            if Tracked(ledger, t) != [] || IsPackageOf(r, t) then Tracked(ledger, t) + [r] else []
  {
    assert (ledger + [r])[..|ledger|] == ledger;
  }
}
