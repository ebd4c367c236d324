/**
 * How waitForAdapterChild ends, read off its turns: which turn ends the loop and why, what the loop has written by then,
 * and which expiry it reports.
 */
module WaitOutcomes {
  import opened Options
  import opened Ledger
  import opened Leases
  import opened WaitLoop

  // The second of the last tick: the start, or the last turn that came a whole interval after the tick before it.
  function LastTick(start: int, interval: int, turns: seq<Turn>): int {
    if turns == [] then start
    else
      var n := |turns| - 1;
      var last := LastTick(start, interval, turns[..n]);
      if turns[n].clock / 1000 - last >= interval then turns[n].clock / 1000 else last
  }

  // The ledger without the loop's own records.
  function Heard(records: seq<Record>, turns: seq<Turn>): seq<Record> {
    if turns == [] then records else Heard(records, turns[..|turns| - 1]) + turns[|turns| - 1].arrived
  }

  function PollEvery(config: Config): int { if config.cancelPollIntervalSeconds > 0 then config.cancelPollIntervalSeconds else 5 }

  function RenewEvery(config: Config): int { if config.leaseRenewalIntervalSeconds > 0 then config.leaseRenewalIntervalSeconds else 600 }

  function LeaseSeconds(config: Config): int { if config.leaseDurationSeconds > 0 then config.leaseDurationSeconds else 900 }

  // What the last of these turns writes when it leaves the loop waiting.
  function RenewalOf(config: Config, startClock: nat, t: string, agent: string, turns: seq<Turn>): seq<Record>
    requires turns != []
  {
    var n := |turns| - 1;
    var now := turns[n].clock / 1000;
    if now - LastTick(startClock / 1000, RenewEvery(config), turns[..n]) >= RenewEvery(config)
    then [Event(t, LeaseRenewal, Some(Running), Some(agent), Some((now + LeaseSeconds(config)) * 1000), Some(1))]
    else []
  }

  // The renewals over turns that all leave the loop waiting.
  function Renewals(config: Config, startClock: nat, t: string, agent: string, turns: seq<Turn>): seq<Record> {
    if turns == [] then []
    else Renewals(config, startClock, t, agent, turns[..|turns| - 1]) + RenewalOf(config, startClock, t, agent, turns)
  }

  // The ledger after such turns: what arrived in each, then its renewal.
  function Written(config: Config, records: seq<Record>, startClock: nat, t: string, agent: string, turns: seq<Turn>): seq<Record> {
    if turns == [] then records
    else
      var n := |turns| - 1;
      Written(config, records, startClock, t, agent, turns[..n]) + turns[n].arrived + RenewalOf(config, startClock, t, agent, turns)
  }

  // A kill record of t that no lease follows.
  ghost predicate KillStands(ledger: seq<Record>, t: string) {
    exists i :: 0 <= i < |ledger| && ledger[i] == Kill(t) &&
      forall k :: i < k < |ledger| ==> !(ledger[k].Event? && ledger[k].taskId == t && ledger[k].eventType == Lease)
  }

  // The child is gone or lost, the timeout has passed, or a poll is due and finds a kill record.
  ghost predicate EndsLoop(config: Config, records: seq<Record>, startClock: nat, timeoutSeconds: int, t: string, turns: seq<Turn>, i: int)
    requires 0 <= i < |turns|
  {
    || turns[i].child == Exited || turns[i].child == WaitError
    || turns[i].clock / 1000 - startClock / 1000 >= timeoutSeconds
    || (turns[i].clock / 1000 - LastTick(startClock / 1000, PollEvery(config), turns[..i]) >= PollEvery(config) &&
        KillStands(Heard(records, turns[..i + 1]), t))
  }

  ghost predicate NoneEnds(config: Config, records: seq<Record>, startClock: nat, timeoutSeconds: int, t: string, turns: seq<Turn>) {
    forall j :: 0 <= j < |turns| ==> !EndsLoop(config, records, startClock, timeoutSeconds, t, turns, j)
  }

  // Turn i is the first that ends the loop.
  ghost predicate EndsFirst(config: Config, records: seq<Record>, startClock: nat, timeoutSeconds: int, t: string, turns: seq<Turn>, i: int) {
    && 0 <= i < |turns| && EndsLoop(config, records, startClock, timeoutSeconds, t, turns, i)
    && forall j :: 0 <= j < i ==> !EndsLoop(config, records, startClock, timeoutSeconds, t, turns, j)
  }

  lemma {:induction false} CancelIgnoresRenewals(a: seq<Record>, b: seq<Record>, others: seq<Record>, t: string)
    requires CancelRequested(a, t) == CancelRequested(b, t)
    ensures CancelRequested(a + others, t) == CancelRequested(b + others, t)
  {
    if others == [] {
      assert a + others == a && b + others == b;
    } else {
      hide CancelRequested, CancelStep;
      var before, last := others[..|others| - 1], others[|others| - 1];
      assert others == before + [last];
      CancelIgnoresRenewals(a, b, before, t);
      CancelAppend(a + before, last, t);
      CancelAppend(b + before, last, t);
      assert a + others == (a + before) + [last] && b + others == (b + before) + [last];
    }
  }

  lemma KillStandsIff(ledger: seq<Record>, t: string)
    ensures KillStands(ledger, t) <==> CancelRequested(ledger, t)
  {
    hide CancelRequested;
    CancelHoldsUntilNextLease(ledger, t);
    if i :| StandingKill(ledger, t, i) {
      assert ledger[i] == Kill(t);
    }
    if KillStands(ledger, t) {
      var i :| 0 <= i < |ledger| && ledger[i] == Kill(t) &&
        forall k :: i < k < |ledger| ==> !(ledger[k].Event? && ledger[k].taskId == t && ledger[k].eventType == Lease);
      assert StandingKill(ledger, t, i);
    }
  }

  // The state of a loop that waits.
  predicate IsWaiting(config: Config, records: seq<Record>, startClock: nat, t: string, agent: string, turns: seq<Turn>, s: State) {
    var start, renewals := startClock / 1000, Renewals(config, startClock, t, agent, turns);
    && s.outcome == Waiting
    && s.lastCancelCheck == LastTick(start, PollEvery(config), turns)
    && s.lastRenewal == LastTick(start, RenewEvery(config), turns)
    && s.records == Written(config, records, startClock, t, agent, turns)
    && CancelRequested(s.records, t) == CancelRequested(Heard(records, turns), t)
    && ReportsExpiry(config, startClock, renewals, s.expiry)
  }

  // The expiry of the last renewal, or of a lease from the loop's start.
  predicate ReportsExpiry(config: Config, startClock: nat, renewals: seq<Record>, expiry: int) {
    if renewals == [] then expiry == (startClock / 1000 + LeaseSeconds(config)) * 1000
    else renewals[|renewals| - 1].Event? && renewals[|renewals| - 1].leaseExpiresAt == Some(expiry)
  }

  lemma LastTickUnfolds(start: int, interval: int, turns: seq<Turn>)
    requires turns != []
    ensures var last, now := LastTick(start, interval, turns[..|turns| - 1]), turns[|turns| - 1].clock / 1000;
            LastTick(start, interval, turns) == if now - last >= interval then now else last
  {
  }

  lemma WrittenUnfolds(config: Config, records: seq<Record>, startClock: nat, t: string, agent: string, turns: seq<Turn>)
    requires turns != []
    ensures var n := |turns| - 1;
            && Heard(records, turns) == Heard(records, turns[..n]) + turns[n].arrived
            && Renewals(config, startClock, t, agent, turns) ==
               Renewals(config, startClock, t, agent, turns[..n]) + RenewalOf(config, startClock, t, agent, turns)
            && Written(config, records, startClock, t, agent, turns) ==
               Written(config, records, startClock, t, agent, turns[..n]) + turns[n].arrived + RenewalOf(config, startClock, t, agent, turns)
  {
    hide RenewalOf;
  }

  lemma TurnWaits(
      config: Config, records: seq<Record>, startClock: nat, timeoutSeconds: int, t: string, agent: string, turns: seq<Turn>, s: State)
    requires turns != [] && IsWaiting(config, records, startClock, t, agent, turns[..|turns| - 1], s)
    requires !EndsLoop(config, records, startClock, timeoutSeconds, t, turns, |turns| - 1)
    ensures IsWaiting(config, records, startClock, t, agent, turns,
                      TurnStep(config, startClock / 1000, timeoutSeconds, s, t, agent, turns[|turns| - 1]))
  {
    hide CancelRequested, KillStands, LastTick, Heard, Renewals, Written;
    LastTickUnfolds(startClock / 1000, PollEvery(config), turns);
    LastTickUnfolds(startClock / 1000, RenewEvery(config), turns);
    WrittenUnfolds(config, records, startClock, t, agent, turns);
    var n := |turns| - 1;
    var turn := turns[n];
    var heard := Heard(records, turns[..n]);
    assert turns[..n + 1] == turns;
    CancelIgnoresRenewals(s.records, heard, turn.arrived, t);
    KillStandsIff(heard + turn.arrived, t);
    var arrived := s.records + turn.arrived;
    CancelAppend(arrived, LeaseRenewalRecord(t, agent, 1, Seconds(turn.clock) * 1000 + LeaseMs(config.leaseDurationSeconds)), t);
    assert arrived + [] == arrived;
  }

  // Why the loop ends at a turn, in the order of the checks.
  function Ending(startClock: nat, timeoutSeconds: int, turn: Turn): Outcome {
    if turn.child == Exited then ChildExited
    else if turn.child == WaitError then WaitFailed
    else if turn.clock / 1000 - startClock / 1000 >= timeoutSeconds then TimedOut
    else CancelledByOperator
  }

  lemma TurnEnds(
      config: Config, records: seq<Record>, startClock: nat, timeoutSeconds: int, t: string, agent: string, turns: seq<Turn>, s: State)
    requires turns != [] && IsWaiting(config, records, startClock, t, agent, turns[..|turns| - 1], s)
    requires EndsLoop(config, records, startClock, timeoutSeconds, t, turns, |turns| - 1)
    ensures var turn := turns[|turns| - 1];
            var next := TurnStep(config, startClock / 1000, timeoutSeconds, s, t, agent, turn);
            && next.outcome == Ending(startClock, timeoutSeconds, turn)
            && next.records == s.records + turn.arrived && next.expiry == s.expiry
  {
    hide CancelRequested, KillStands, LastTick, Heard, Renewals, Written, ReportsExpiry;
    WrittenUnfolds(config, records, startClock, t, agent, turns);
    var n := |turns| - 1;
    var heard := Heard(records, turns[..n]);
    assert turns[..n + 1] == turns;
    CancelIgnoresRenewals(s.records, heard, turns[n].arrived, t);
    KillStandsIff(heard + turns[n].arrived, t);
  }

  lemma NoneEndsBefore(config: Config, records: seq<Record>, startClock: nat, timeoutSeconds: int, t: string, turns: seq<Turn>, n: nat)
    requires n <= |turns|
    ensures NoneEnds(config, records, startClock, timeoutSeconds, t, turns[..n]) <==>
            forall j :: 0 <= j < n ==> !EndsLoop(config, records, startClock, timeoutSeconds, t, turns, j)
    ensures forall j :: 0 <= j < n ==>
              (EndsLoop(config, records, startClock, timeoutSeconds, t, turns[..n], j) <==>
               EndsLoop(config, records, startClock, timeoutSeconds, t, turns, j))
  {
    hide KillStands, Heard, LastTick;
    forall j | 0 <= j < n
      ensures EndsLoop(config, records, startClock, timeoutSeconds, t, turns[..n], j) <==>
              EndsLoop(config, records, startClock, timeoutSeconds, t, turns, j)
    {
      assert turns[..n][..j] == turns[..j] && turns[..n][..j + 1] == turns[..j + 1];
    }
  }

  lemma {:induction false} WaitsWhileNoneEnds(
      config: Config, records: seq<Record>, startClock: nat, timeoutSeconds: int, t: string, agent: string, turns: seq<Turn>)
    requires NoneEnds(config, records, startClock, timeoutSeconds, t, turns)
    ensures IsWaiting(config, records, startClock, t, agent, turns, After(config, records, startClock, timeoutSeconds, t, agent, turns))
  {
    if turns != [] {
      hide IsWaiting, TurnStep, EndsLoop;
      var n := |turns| - 1;
      assert turns[..n + 1] == turns;
      NoneEndsBefore(config, records, startClock, timeoutSeconds, t, turns, n);
      WaitsWhileNoneEnds(config, records, startClock, timeoutSeconds, t, agent, turns[..n]);
      TurnWaits(config, records, startClock, timeoutSeconds, t, agent, turns,
                After(config, records, startClock, timeoutSeconds, t, agent, turns[..n]));
    }
  }

  /**
   * How the loop ends: at its first ending turn, as the child of that turn, the timeout or else the cancel request says.
   * By then it has written one renewal per tick of the turns before, it has written nothing in the ending turn, and the
   * expiry it reports is that of its last renewal, or of the start.
   */
  lemma EndsAtFirst(
      config: Config, records: seq<Record>, startClock: nat, timeoutSeconds: int, t: string, agent: string, turns: seq<Turn>, i: int)
    requires EndsFirst(config, records, startClock, timeoutSeconds, t, turns, i)
    ensures var s := After(config, records, startClock, timeoutSeconds, t, agent, turns);
            && s.outcome == Ending(startClock, timeoutSeconds, turns[i])
            && s.records == Written(config, records, startClock, t, agent, turns[..i]) + turns[i].arrived
            && ReportsExpiry(config, startClock, Renewals(config, startClock, t, agent, turns[..i]), s.expiry)
  {
    hide TurnStep, EndsLoop, ReportsExpiry, Written, Renewals;
    var upTo := turns[..i + 1];
    assert upTo[..|upTo| - 1] == turns[..i];
    NoneEndsBefore(config, records, startClock, timeoutSeconds, t, turns, i);
    NoneEndsBefore(config, records, startClock, timeoutSeconds, t, turns, i + 1);
    WaitsWhileNoneEnds(config, records, startClock, timeoutSeconds, t, agent, turns[..i]);
    TurnEnds(config, records, startClock, timeoutSeconds, t, agent, upTo,
             After(config, records, startClock, timeoutSeconds, t, agent, turns[..i]));
    NothingAfterTheEnd(config, records, startClock, timeoutSeconds, t, agent, turns, i + 1);
  }

  lemma {:induction false} FirstEnding(
      config: Config, records: seq<Record>, startClock: nat, timeoutSeconds: int, t: string, turns: seq<Turn>, n: nat) returns (i: int)
    requires n <= |turns|
    ensures i == -1 ==> forall j :: 0 <= j < n ==> !EndsLoop(config, records, startClock, timeoutSeconds, t, turns, j)
    ensures i != -1 ==> EndsFirst(config, records, startClock, timeoutSeconds, t, turns, i)
  {
    hide EndsLoop;
    if n == 0 {
      i := -1;
    } else {
      i := FirstEnding(config, records, startClock, timeoutSeconds, t, turns, n - 1);
      if i == -1 && EndsLoop(config, records, startClock, timeoutSeconds, t, turns, n - 1) {
        i := n - 1;
      }
    }
  }

  /** Each outcome exactly: the loop waits while no turn ends it, and else the first that does decides. */
  lemma OutcomeIff(
      config: Config, records: seq<Record>, startClock: nat, timeoutSeconds: int, t: string, agent: string, turns: seq<Turn>)
    ensures var outcome := After(config, records, startClock, timeoutSeconds, t, agent, turns).outcome;
            && (outcome == Waiting <==> forall i :: !EndsFirst(config, records, startClock, timeoutSeconds, t, turns, i))
            && (outcome == ChildExited <==>
                  exists i :: EndsFirst(config, records, startClock, timeoutSeconds, t, turns, i) && turns[i].child == Exited)
            && (outcome == WaitFailed <==>
                  exists i :: EndsFirst(config, records, startClock, timeoutSeconds, t, turns, i) && turns[i].child == WaitError)
            && (outcome == TimedOut <==>
                  exists i :: EndsFirst(config, records, startClock, timeoutSeconds, t, turns, i) && turns[i].child == Alive &&
                    turns[i].clock / 1000 - startClock / 1000 >= timeoutSeconds)
            && (outcome == CancelledByOperator <==>
                  exists i :: EndsFirst(config, records, startClock, timeoutSeconds, t, turns, i) && turns[i].child == Alive &&
                    turns[i].clock / 1000 - startClock / 1000 < timeoutSeconds)
  {
    hide EndsLoop, After;
    var i := FirstEnding(config, records, startClock, timeoutSeconds, t, turns, |turns|);
    if i == -1 {
      WaitsWhileNoneEnds(config, records, startClock, timeoutSeconds, t, agent, turns);
    } else {
      EndsAtFirst(config, records, startClock, timeoutSeconds, t, agent, turns, i);
      assert forall j :: EndsFirst(config, records, startClock, timeoutSeconds, t, turns, j) ==> j == i;
    }
  }
}
