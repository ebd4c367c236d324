/**
 * src/wt_agent.c, waitForAdapterChild: the agent waits for its adapter while it renews the lease, polls for
 * a cancel request and watches the timeout. The renewal arithmetic is tied to the host scanner's expiry fold.
 */
module WaitLoop {
  import opened Options
  import opened Ledger
  import opened Scanners
  import opened Leases

  datatype Config = Config(leaseRenewalIntervalSeconds: int, cancelPollIntervalSeconds: int, leaseDurationSeconds: int) {
    function RenewalInterval(): (r: int)
      ensures r > 0
    {
      if leaseRenewalIntervalSeconds > 0 then leaseRenewalIntervalSeconds else 600
    }

    function CancelInterval(): (r: int)
      ensures r > 0
    {
      if cancelPollIntervalSeconds > 0 then cancelPollIntervalSeconds else 5
    }
  }

  // What waitpid says of the child.
  datatype Child = Alive | Exited | WaitError

  // One turn of the loop: the records other processes appended since the last turn, waitpid's answer and the millisecond clock.
  datatype Turn = Turn(arrived: seq<Record>, child: Child, clock: nat)

  datatype Outcome = Waiting | ChildExited | WaitFailed | TimedOut | CancelledByOperator

  datatype State = State(records: seq<Record>, lastRenewal: int, lastCancelCheck: int, expiry: int, outcome: Outcome)

  // time(NULL)
  function Seconds(clock: nat): (s: nat)
    ensures s * 1000 <= clock < (s + 1) * 1000
  {
    clock / 1000
  }

  function Begin(config: Config, records: seq<Record>, startClock: nat): State {
    var start := Seconds(startClock);
    State(records, start, start, start * 1000 + LeaseMs(config.leaseDurationSeconds), Waiting)
  }

  function Renewed(config: Config, s: State, t: string, agent: string, now: int): State {
    if now - s.lastRenewal < config.RenewalInterval() then s
    else
      var expiry := now * 1000 + LeaseMs(config.leaseDurationSeconds);
      s.(records := s.records + [LeaseRenewalRecord(t, agent, 1, expiry)], lastRenewal := now, expiry := expiry)
  }

  function TurnStep(config: Config, start: int, timeoutSeconds: int, s: State, t: string, agent: string, turn: Turn): State {
    var s1 := s.(records := s.records + turn.arrived);
    var now := Seconds(turn.clock);
    var poll := now - s.lastCancelCheck >= config.CancelInterval();
    var s2 := if poll then s1.(lastCancelCheck := now) else s1;
    if s.outcome != Waiting then s
    else if turn.child == Exited then s1.(outcome := ChildExited)
    else if turn.child == WaitError then s1.(outcome := WaitFailed)
    else if now - start >= timeoutSeconds then s1.(outcome := TimedOut)
    else if poll && CancelRequested(s1.records, t) then s2.(outcome := CancelledByOperator)
    else Renewed(config, s2, t, agent, now)
  }

  // The loop after the given turns.
  function After(config: Config, records: seq<Record>, startClock: nat, timeoutSeconds: int, t: string, agent: string, turns: seq<Turn>): State {
    if turns == [] then Begin(config, records, startClock)
    else
      var n := |turns| - 1;
      TurnStep(config, Seconds(startClock), timeoutSeconds,
               After(config, records, startClock, timeoutSeconds, t, agent, turns[..n]), t, agent, turns[n])
  }

  lemma {:induction false} NothingAfterTheEnd(
      config: Config, records: seq<Record>, startClock: nat, timeoutSeconds: int, t: string, agent: string, turns: seq<Turn>, n: nat)
    requires n <= |turns| && After(config, records, startClock, timeoutSeconds, t, agent, turns[..n]).outcome != Waiting
    ensures After(config, records, startClock, timeoutSeconds, t, agent, turns) ==
            After(config, records, startClock, timeoutSeconds, t, agent, turns[..n])
  {
    if n == |turns| {
      assert turns[..n] == turns;
    } else {
      assert turns[..|turns| - 1][..n] == turns[..n];
      NothingAfterTheEnd(config, records, startClock, timeoutSeconds, t, agent, turns[..|turns| - 1], n);
    }
  }

  // The loop runs until it ends or the turns do; finalExpiry is left unset when waitpid fails.
  method WaitForAdapterChild(
      ledger: TaskLedger, config: Config, agent: string, t: string, timeoutSeconds: int, startClock: nat, turns: seq<Turn>)
    returns (outcome: Outcome, finalExpiry: Option<int>)
    modifies ledger
    ensures var s := After(config, old(ledger.records), startClock, timeoutSeconds, t, agent, turns);
            && ledger.records == s.records && outcome == s.outcome
            && finalExpiry == if s.outcome == WaitFailed then None else Some(s.expiry)
  {
    var start := Seconds(startClock);
    var lastRenewal, lastCancelCheck := start, start;
    var renewalInterval, cancelInterval := config.RenewalInterval(), config.CancelInterval();
    var leaseDuration := LeaseMs(config.leaseDurationSeconds);
    var currentLeaseExpiry := start * 1000 + leaseDuration;
    outcome := Waiting;
    ghost var records := ledger.records;
    var i := 0;
    while i < |turns| && outcome == Waiting
      invariant i <= |turns|
      invariant State(ledger.records, lastRenewal, lastCancelCheck, currentLeaseExpiry, outcome) ==
                After(config, records, startClock, timeoutSeconds, t, agent, turns[..i])
    {
      hide CancelRequested;
      assert turns[..i + 1][..i] == turns[..i];
      ledger.records := ledger.records + turns[i].arrived;
      var now := Seconds(turns[i].clock);
      if turns[i].child == Exited {
        outcome := ChildExited;
      } else if turns[i].child == WaitError {
        outcome := WaitFailed;
      } else if now - start >= timeoutSeconds {
        outcome := TimedOut;
      } else {
        if now - lastCancelCheck >= cancelInterval {
          lastCancelCheck := now;
          var cancelled := FindCancelRequest(ledger.records, t);
          if cancelled {
            outcome := CancelledByOperator;
          }
        }
        if outcome == Waiting && now - lastRenewal >= renewalInterval {
          lastRenewal := now;
          currentLeaseExpiry := now * 1000 + leaseDuration;
          ledger.AppendRecord(LeaseRenewalRecord(t, agent, 1, currentLeaseExpiry));
        }
      }
      i := i + 1;
    }
    assert turns[..|turns|] == turns;
    if outcome != Waiting {
      NothingAfterTheEnd(config, records, startClock, timeoutSeconds, t, agent, turns, i);
    }
    finalExpiry := if outcome == WaitFailed then None else Some(currentLeaseExpiry);
  }

  // ----- The host scanner while the loop waits -----

  // No package or event record of task t.
  predicate Untouched(records: seq<Record>, t: string) {
    forall k :: 0 <= k < |records| ==> !IsPackageOf(records[k], t) && !IsEventOf(records[k], t)
  }

  predicate Quiet(turns: seq<Turn>, t: string) {
    forall i :: 0 <= i < |turns| ==> Untouched(turns[i].arrived, t)
  }

  function LastClock(startClock: nat, turns: seq<Turn>): nat {
    if turns == [] then startClock else turns[|turns| - 1].clock
  }

  lemma {:induction false} UntouchedFold(records: seq<Record>, others: seq<Record>, t: string)
    requires Untouched(others, t)
    ensures Fold(HostScan, records + others, t) == Fold(HostScan, records, t)
  {
    if others == [] {
      assert records + others == records;
    } else {
      var n := |others| - 1;
      UntouchedFold(records, others[..n], t);
      FoldStep(HostScan, records + others[..n], others[n], t);
      assert records + others == (records + others[..n]) + [others[n]];
    }
  }

  /** A claim leaves the task leased, until the lease duration after the claim's clock, in the host scanner's fold. */
  lemma ClaimSetsExpiry(ledger: seq<Record>, t: string, agent: string, now: int, durationMs: int)
    requires Fold(HostScan, ledger, t).Some? && !ForeignLease(LeaseOf(ledger, t), agent, now)
    ensures var next := Fold(HostScan, ledger + ClaimRecords(LeaseOf(ledger, t), t, agent, now, durationMs), t);
            next.Some? && next.value.status == Leased && next.value.leaseExpiresAt == now + durationMs
  {
    hide LeaseOf, Fold;
    var lease := LeaseOf(ledger, t);
    var r := LeaseRecord(t, agent, lease.attempt + 1, now + durationMs);
    var middle := if StaleLease(lease, now) then ledger + [ReclaimRecord(t, lease.holder)] else ledger;
    FoldStep(HostScan, ledger, ReclaimRecord(t, lease.holder), t);
    FoldStep(HostScan, middle, r, t);
    assert ledger + ClaimRecords(lease, t, agent, now, durationMs) == middle + [r];
  }

  // The task is leased or running, with the given expiry.
  ghost predicate LeasedUntil(ledger: seq<Record>, t: string, expires: int) {
    var e := Fold(HostScan, ledger, t);
    e.Some? && (e.value.status == Leased || e.value.status == Running) && e.value.leaseExpiresAt == expires
  }

  // What each turn keeps: the folded expiry is that of the last renewal or, before any, of the claim.
  ghost predicate Keeps(config: Config, s: State, t: string, delay: nat, now: int) {
    && now - s.lastRenewal < config.RenewalInterval()
    && exists expires ::
         && LeasedUntil(s.records, t, expires)
         && expires >= (s.lastRenewal - delay) * 1000 + LeaseMs(config.leaseDurationSeconds)
  }

  lemma TurnKeeps(config: Config, start: int, timeoutSeconds: int, s: State, t: string, agent: string, turn: Turn, delay: nat, now: int)
    requires Keeps(config, s, t, delay, now) && Untouched(turn.arrived, t)
    requires TurnStep(config, start, timeoutSeconds, s, t, agent, turn).outcome == Waiting
    ensures Keeps(config, TurnStep(config, start, timeoutSeconds, s, t, agent, turn), t, delay, Seconds(turn.clock))
  {
    hide Fold, CancelRequested;
    var next := Seconds(turn.clock);
    var expires :| LeasedUntil(s.records, t, expires) && expires >= (s.lastRenewal - delay) * 1000 + LeaseMs(config.leaseDurationSeconds);
    UntouchedFold(s.records, turn.arrived, t);
    var arrived := s.records + turn.arrived;
    assert LeasedUntil(arrived, t, expires);
    if next - s.lastRenewal >= config.RenewalInterval() {
      var renewed := next * 1000 + LeaseMs(config.leaseDurationSeconds);
      FoldStep(HostScan, arrived, LeaseRenewalRecord(t, agent, 1, renewed), t);
      assert LeasedUntil(arrived + [LeaseRenewalRecord(t, agent, 1, renewed)], t, renewed);
    }
  }

  lemma {:induction false} LoopKeeps(
      config: Config, records: seq<Record>, startClock: nat, timeoutSeconds: int, t: string, agent: string, turns: seq<Turn>, delay: nat)
    requires LeasedUntil(records, t, (Seconds(startClock) - delay) * 1000 + LeaseMs(config.leaseDurationSeconds))
    requires Quiet(turns, t)
    requires After(config, records, startClock, timeoutSeconds, t, agent, turns).outcome == Waiting
    ensures Keeps(config, After(config, records, startClock, timeoutSeconds, t, agent, turns), t, delay, Seconds(LastClock(startClock, turns)))
  {
    hide LeasedUntil, Renewed;
    if turns != [] {
      var n := |turns| - 1;
      LoopKeeps(config, records, startClock, timeoutSeconds, t, agent, turns[..n], delay);
      TurnKeeps(config, Seconds(startClock), timeoutSeconds, After(config, records, startClock, timeoutSeconds, t, agent, turns[..n]),
                t, agent, turns[n], delay, Seconds(LastClock(startClock, turns[..n])));
    }
  }

  lemma NotOfferedBeforeExpiry(ledger: seq<Record>, t: string, expires: int, other: string, host: string, m: int)
    requires LeasedUntil(ledger, t, expires) && m < expires
    ensures HostOffer(ledger, other, host, m).Some? ==> HostOffer(ledger, other, host, m).value.taskId != t
  {
    ScanRefinesFold(HostScan, ledger, e => OfferedOnHost(e, other, host, m));
  }

  /**
   * While the loop waits and no other process writes a package or event of the task, the host scanner offers
   * the task to nobody, at any moment up to gapMs after the last turn, provided the delay from the claim to the
   * loop, the renewal interval and the gap together fit in the lease duration.
   */
  lemma NeverOfferedWhileWaiting(
      config: Config, records: seq<Record>, startClock: nat, timeoutSeconds: int, t: string, agent: string, turns: seq<Turn>,
      delay: nat, gapMs: int, other: string, host: string, m: int)
    requires LeasedUntil(records, t, (Seconds(startClock) - delay) * 1000 + LeaseMs(config.leaseDurationSeconds))
    requires Quiet(turns, t)
    requires (delay + config.RenewalInterval()) * 1000 + gapMs <= LeaseMs(config.leaseDurationSeconds)
    requires After(config, records, startClock, timeoutSeconds, t, agent, turns).outcome == Waiting
    requires m <= LastClock(startClock, turns) + gapMs
    ensures var offer := HostOffer(After(config, records, startClock, timeoutSeconds, t, agent, turns).records, other, host, m);
            offer.Some? ==> offer.value.taskId != t
  {
    hide LeasedUntil, HostOffer, After;
    var s := After(config, records, startClock, timeoutSeconds, t, agent, turns);
    var now := Seconds(LastClock(startClock, turns));
    LoopKeeps(config, records, startClock, timeoutSeconds, t, agent, turns, delay);
    var expires :| LeasedUntil(s.records, t, expires) && expires >= (s.lastRenewal - delay) * 1000 + LeaseMs(config.leaseDurationSeconds);
    assert m < expires;
    NotOfferedBeforeExpiry(s.records, t, expires, other, host, m);
  }

  // What is written between the claim and the loop: of task t running statuses only.
  predicate OnlyRunning(records: seq<Record>, t: string) {
    forall k :: 0 <= k < |records| ==>
      !IsPackageOf(records[k], t) && (IsEventOf(records[k], t) ==> records[k] == StatusRecord(t, Running))
  }

  lemma {:induction false} RunningKeepsLease(ledger: seq<Record>, records: seq<Record>, t: string, expires: int)
    requires LeasedUntil(ledger, t, expires) && OnlyRunning(records, t)
    ensures LeasedUntil(ledger + records, t, expires)
  {
    if records == [] {
      assert ledger + records == ledger;
    } else {
      hide Fold;
      var n := |records| - 1;
      RunningKeepsLease(ledger, records[..n], t, expires);
      FoldStep(HostScan, ledger + records[..n], records[n], t);
      assert ledger + records == (ledger + records[..n]) + [records[n]];
    }
  }

  lemma LocalClaimLeasesUntil(ledger: seq<Record>, agent: string, clock: nat, durationMs: int, t: string)
    requires WritesLease(LocalClaimRecords(ledger, agent, clock, durationMs), t)
    ensures LeasedUntil(ledger + LocalClaimRecords(ledger, agent, clock, durationMs), t, Seconds(clock) * 1000 + durationMs)
  {
    hide Fold, LeaseOf, LocalOffer, ClaimRecords, WritesLease, First;
    var now := WholeSeconds(clock);
    LocalClaimLeasesIff(ledger, agent, clock, durationMs, t);
    PackagedIffFold(QueuedScan, ledger, t);
    PackagedIffFold(LocalScan, ledger, t);
    PackagedIffFold(HostScan, ledger, t);
    NothingWritten(t);
    var u := LocalOffer(ledger, agent, now).value.taskId;
    ClaimWritesLeaseIff(LeaseOf(ledger, u), u, agent, now, durationMs, t);
    ClaimSetsExpiry(ledger, t, agent, now, durationMs);
  }

  /**
   * From the claim on: a task that an agent claimed locally and then ran, with nothing but running statuses written
   * about it, is offered to nobody as long as its wait loop goes on, provided the whole seconds from claim to loop, the
   * renewal interval and the gap after the last turn together fit in the lease duration.
   */
  lemma ClaimedTaskStaysUnoffered(
      config: Config, ledger: seq<Record>, agent: string, claimClock: nat, t: string, between: seq<Record>, startClock: nat,
      timeoutSeconds: int, turns: seq<Turn>, gapMs: int, other: string, host: string, m: int)
    requires WritesLease(LocalClaimRecords(ledger, agent, claimClock, LeaseMs(config.leaseDurationSeconds)), t)
    requires OnlyRunning(between, t) && Quiet(turns, t) && Seconds(claimClock) <= Seconds(startClock)
    requires (Seconds(startClock) - Seconds(claimClock) + config.RenewalInterval()) * 1000 + gapMs <= LeaseMs(config.leaseDurationSeconds)
    requires var records := ledger + LocalClaimRecords(ledger, agent, claimClock, LeaseMs(config.leaseDurationSeconds)) + between;
             After(config, records, startClock, timeoutSeconds, t, agent, turns).outcome == Waiting
    requires m <= LastClock(startClock, turns) + gapMs
    ensures var records := ledger + LocalClaimRecords(ledger, agent, claimClock, LeaseMs(config.leaseDurationSeconds)) + between;
            var offer := HostOffer(After(config, records, startClock, timeoutSeconds, t, agent, turns).records, other, host, m);
            offer.Some? ==> offer.value.taskId != t
  {
    hide LeasedUntil, HostOffer, After, WritesLease, LocalClaimRecords;
    var durationMs := LeaseMs(config.leaseDurationSeconds);
    var claimed := ledger + LocalClaimRecords(ledger, agent, claimClock, durationMs);
    LocalClaimLeasesUntil(ledger, agent, claimClock, durationMs, t);
    RunningKeepsLease(claimed, between, t, Seconds(claimClock) * 1000 + durationMs);
    NeverOfferedWhileWaiting(config, claimed + between, startClock, timeoutSeconds, t, agent, turns,
                             Seconds(startClock) - Seconds(claimClock), gapMs, other, host, m);
  }

  // ----- The bound is exact -----

  // A turn every millisecond, and no other process writes.
  function EveryMillisecond(startClock: nat, n: nat): seq<Turn> {
    seq(n, i requires 0 <= i < n => Turn([], Alive, startClock + i + 1))
  }

  // Consecutive turns are at most gapMs apart.
  predicate GapsWithin(startClock: nat, turns: seq<Turn>, gapMs: int) {
    forall i :: 0 <= i < |turns| ==> 0 <= turns[i].clock - LastClock(startClock, turns[..i]) <= gapMs
  }

  lemma {:induction false} NoRenewalBeforeInterval(
      config: Config, records: seq<Record>, start: nat, timeoutSeconds: int, t: string, agent: string, n: nat)
    requires n < config.RenewalInterval() * 1000 && timeoutSeconds >= config.RenewalInterval()
    requires !CancelRequested(records, t)
    ensures var s := After(config, records, start * 1000, timeoutSeconds, t, agent, EveryMillisecond(start * 1000, n));
            s.records == records && s.outcome == Waiting && s.lastRenewal == start
  {
    hide CancelRequested;
    if n > 0 {
      NoRenewalBeforeInterval(config, records, start, timeoutSeconds, t, agent, n - 1);
      var turns := EveryMillisecond(start * 1000, n);
      assert turns[..n - 1] == EveryMillisecond(start * 1000, n - 1);
      assert records + [] == records;
      assert Seconds(turns[n - 1].clock) - start < config.RenewalInterval();
    }
  }

  /**
   * The bound is exact: as soon as it is exceeded, some schedule within the gap lets the task be offered to its
   * owner on any host while the loop still waits.
   */
  lemma LongerGapLetsTaskBeOffered(
      config: Config, records: seq<Record>, start: nat, timeoutSeconds: int, t: string, agent: string, delay: nat, gapMs: int, m: int)
    returns (turns: seq<Turn>)
    requires LeasedUntil(records, t, (start - delay) * 1000 + LeaseMs(config.leaseDurationSeconds))
    requires delay <= start && !CancelRequested(records, t)
    requires timeoutSeconds >= config.RenewalInterval() && gapMs >= 1
    requires (delay + config.RenewalInterval()) * 1000 + gapMs > LeaseMs(config.leaseDurationSeconds)
    requires m == (start + config.RenewalInterval()) * 1000 - 1 + gapMs
    ensures Quiet(turns, t) && GapsWithin(start * 1000, turns, gapMs) && m == LastClock(start * 1000, turns) + gapMs
    ensures var s := After(config, records, start * 1000, timeoutSeconds, t, agent, turns);
            && s.outcome == Waiting && s.records == records
            && OfferedOnHost(Fold(HostScan, records, t).value, Fold(HostScan, records, t).value.ownerAgent,
                             Fold(HostScan, records, t).value.executionHost, m)
  {
    hide After;
    var n := config.RenewalInterval() * 1000 - 1;
    turns := EveryMillisecond(start * 1000, n);
    NoRenewalBeforeInterval(config, records, start, timeoutSeconds, t, agent, n);
  }

  // ----- The timeout and the cancel poll -----

  predicate NoLeases(records: seq<Record>, t: string) { forall k :: 0 <= k < |records| ==> !IsLeaseOf(records[k], t) }

  lemma {:induction false} CancelStays(records: seq<Record>, others: seq<Record>, t: string)
    requires CancelRequested(records, t) && NoLeases(others, t)
    ensures CancelRequested(records + others, t)
  {
    if others == [] {
      assert records + others == records;
    } else {
      hide CancelRequested, IsLeaseOf;
      var n := |others| - 1;
      CancelStays(records, others[..n], t);
      CancelAppend(records + others[..n], others[n], t);
      assert records + others == records + others[..n] + [others[n]];
    }
  }

  // The clock does not go back.
  predicate ClocksGrow(startClock: nat, turns: seq<Turn>) {
    forall i :: 0 <= i < |turns| ==> LastClock(startClock, turns[..i]) <= turns[i].clock
  }

  lemma ClocksGrowBefore(startClock: nat, turns: seq<Turn>)
    requires turns != [] && ClocksGrow(startClock, turns)
    ensures ClocksGrow(startClock, turns[..|turns| - 1])
    ensures LastClock(startClock, turns[..|turns| - 1]) <= turns[|turns| - 1].clock
  {
    var n := |turns| - 1;
    assert forall i :: 0 <= i < n ==> turns[..n][..i] == turns[..i];
  }

  lemma {:induction false} LastCheckIsPast(
      config: Config, records: seq<Record>, startClock: nat, timeoutSeconds: int, t: string, agent: string, turns: seq<Turn>)
    requires ClocksGrow(startClock, turns)
    ensures After(config, records, startClock, timeoutSeconds, t, agent, turns).lastCancelCheck <= Seconds(LastClock(startClock, turns))
  {
    hide CancelRequested;
    if turns != [] {
      ClocksGrowBefore(startClock, turns);
      LastCheckIsPast(config, records, startClock, timeoutSeconds, t, agent, turns[..|turns| - 1]);
    }
  }

  // A standing cancel request that the loop has not noticed was last looked for before it arrived.
  lemma WaitingTurn(config: Config, start: int, timeoutSeconds: int, s: State, t: string, agent: string, turn: Turn)
    requires TurnStep(config, start, timeoutSeconds, s, t, agent, turn).outcome == Waiting
    ensures s.outcome == Waiting && turn.child == Alive && Seconds(turn.clock) - start < timeoutSeconds
    ensures CancelRequested(s.records + turn.arrived, t) ==>
              && Seconds(turn.clock) - s.lastCancelCheck < config.CancelInterval()
              && TurnStep(config, start, timeoutSeconds, s, t, agent, turn).lastCancelCheck == s.lastCancelCheck
              && CancelRequested(TurnStep(config, start, timeoutSeconds, s, t, agent, turn).records, t)
  {
    hide CancelRequested;
    CancelAppend(s.records + turn.arrived,
                 LeaseRenewalRecord(t, agent, 1, Seconds(turn.clock) * 1000 + LeaseMs(config.leaseDurationSeconds)), t);
  }

  lemma {:induction false} UnnoticedCancel(
      config: Config, records: seq<Record>, startClock: nat, timeoutSeconds: int, t: string, agent: string, turns: seq<Turn>, i: nat)
    requires i < |turns| && ClocksGrow(startClock, turns)
    requires CancelRequested(After(config, records, startClock, timeoutSeconds, t, agent, turns[..i]).records + turns[i].arrived, t)
    requires forall j :: i < j < |turns| ==> NoLeases(turns[j].arrived, t)
    requires After(config, records, startClock, timeoutSeconds, t, agent, turns).outcome == Waiting
    ensures var s := After(config, records, startClock, timeoutSeconds, t, agent, turns);
            && CancelRequested(s.records, t) && s.lastCancelCheck <= Seconds(turns[i].clock)
            && Seconds(turns[|turns| - 1].clock) - s.lastCancelCheck < config.CancelInterval()
  {
    hide CancelRequested, TurnStep;
    var n := |turns| - 1;
    var before := turns[..n];
    var s := After(config, records, startClock, timeoutSeconds, t, agent, before);
    ClocksGrowBefore(startClock, turns);
    WaitingTurn(config, Seconds(startClock), timeoutSeconds, s, t, agent, turns[n]);
    if i == n {
      LastCheckIsPast(config, records, startClock, timeoutSeconds, t, agent, before);
    } else {
      assert before[..i] == turns[..i];
      UnnoticedCancel(config, records, startClock, timeoutSeconds, t, agent, before, i);
      CancelStays(s.records, turns[n].arrived, t);
    }
  }

  /**
   * The loop waits past neither the timeout nor a cancel request: once a kill record of the task has arrived, and
   * no new lease does, it is noticed by the first turn that comes a poll interval later.
   */
  lemma WaitEndsInTime(
      config: Config, records: seq<Record>, startClock: nat, timeoutSeconds: int, t: string, agent: string, turns: seq<Turn>, i: nat)
    requires i < |turns| && ClocksGrow(startClock, turns)
    requires After(config, records, startClock, timeoutSeconds, t, agent, turns).outcome == Waiting
    ensures Seconds(turns[|turns| - 1].clock) - Seconds(startClock) < timeoutSeconds
    ensures CancelRequested(After(config, records, startClock, timeoutSeconds, t, agent, turns[..i]).records + turns[i].arrived, t) &&
            (forall j :: i < j < |turns| ==> NoLeases(turns[j].arrived, t)) ==>
              Seconds(turns[|turns| - 1].clock) < Seconds(turns[i].clock) + config.CancelInterval()
  {
    hide CancelRequested, TurnStep;
    var n := |turns| - 1;
    WaitingTurn(config, Seconds(startClock), timeoutSeconds,
                After(config, records, startClock, timeoutSeconds, t, agent, turns[..n]), t, agent, turns[n]);
    if CancelRequested(After(config, records, startClock, timeoutSeconds, t, agent, turns[..i]).records + turns[i].arrived, t) &&
       (forall j :: i < j < |turns| ==> NoLeases(turns[j].arrived, t)) {
      UnnoticedCancel(config, records, startClock, timeoutSeconds, t, agent, turns, i);
    }
  }
}
