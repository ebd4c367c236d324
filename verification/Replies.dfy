/**
 * src/wt_agent.c, handleOnce and shouldHandle: each agent answers the newest room message that addresses it.
 * Over every run of the agents on the shared log replies cannot loop.
 */
module Replies {
  import Json
  import Lines
  import opened Options
  import opened Message
  import opened Room

  predicate IsKnownAgent(agent: string) { agent in ["claude", "chatgpt", "gemini"] }

  // A message of the ceo or the system to everyone or to the agent.
  predicate Addresses(m: WtMessage, agent: string) {
    && (m.senderName == "ceo" || m.senderName == "system")
    && (m.targetName == "all" || m.targetName == agent)
  }

  predicate ShouldHandle(agent: string, m: WtMessage, lastHandledId: int) {
    m.messageId > lastHandledId && Addresses(m, agent)
  }

  // The loop of handleOnce, from the newest message back.
  function NewestTrigger(agent: string, ms: seq<WtMessage>, lastHandledId: int): Option<WtMessage> {
    if ms == [] then None
    else
      var n := |ms| - 1;
      if ShouldHandle(agent, ms[n], lastHandledId) then Some(ms[n]) else NewestTrigger(agent, ms[..n], lastHandledId)
  }

  lemma TriggerStep(agent: string, ms: seq<WtMessage>, k: nat, lastHandledId: int)
    requires k < |ms|
    ensures NewestTrigger(agent, ms[..k + 1], lastHandledId) ==
            if ShouldHandle(agent, ms[k], lastHandledId) then Some(ms[k]) else NewestTrigger(agent, ms[..k], lastHandledId)
  {
    hide ShouldHandle;
    assert ms[..k + 1][..k] == ms[..k];
  }

  lemma NoTrigger(agent: string, lastHandledId: int)
    ensures NewestTrigger(agent, [], lastHandledId) == None
  {
  }

  // buildStubReply
  function StubBody(agent: string, id: int): string {
    if agent == "claude" then
      "[stub claude] I received messageId " + Json.IntText(id) + (" and can respond from" + " the shared room transcript.")
    else if agent == "chatgpt" then
      "[stub chatgpt] I can see messageId " + Json.IntText(id) +
      (" in the same durable room state" + " and will treat it as authoritative.")
    else
      ("[stub gemini] I confirm the message bus" + " is working from shared" + " transcript messageId ") + Json.IntText(id) + "."
  }

  function Reply(agent: string, roomName: string, trigger: WtMessage): WtMessage {
    WtMessage(0, roomName, agent, "ceo", "chat", StubBody(agent, trigger.messageId), 0, trigger.messageId)
  }

  // contextMessageCount with its default and its bound.
  function ContextLimit(contextMessageCount: int): (n: nat)
    ensures 0 < n <= 256
  {
    if contextMessageCount <= 0 then 20 else if contextMessageCount > 256 then 256 else contextMessageCount
  }

  function Recent(ms: seq<WtMessage>, n: nat): seq<WtMessage> { if |ms| < n then ms else ms[|ms| - n..] }

  // One agent with the id in its state file.
  class Agent {
    const name: string
    var lastHandledId: int

    constructor (name: string)
      ensures this.name == name && lastHandledId == 0
    {
      this.name := name;
      lastHandledId := 0;
    }

    // handleOnce after its task part; the reply that does not print leaves the state file alone.
    method HandleOnce(log: RoomLog, roomName: string, contextMessageCount: int, now: int) returns (replied: bool)
      modifies this, log
      ensures var text := old(log.text);
              var trigger := NewestTrigger(name, Recent(MessagesIn(text), ContextLimit(contextMessageCount)), old(lastHandledId));
              && replied == (trigger.Some? && Prints(NewMessage(text, Reply(name, roomName, trigger.value), now), JSON_SIZE))
              && log.text == (if trigger.Some? then Appended(text, Reply(name, roomName, trigger.value), now) else text)
              && lastHandledId == if replied then trigger.value.messageId else old(lastHandledId)
    {
      hide MessagesIn, Prints, Appended, NewMessage, Reply, ShouldHandle, NewestTrigger;
      var messages := new WtMessage[256](_ => WtMessage(0, "", "", "", "", "", 0, 0));
      var limit := ContextLimit(contextMessageCount);
      var count := log.ReadRecent(limit, messages);
      ghost var recent := Recent(MessagesIn(log.text), limit);
      assert messages[..count] == recent && recent[..count] == recent;
      var index := count;
      while index > 0
        invariant index <= count && messages[..count] == recent
        invariant log.text == old(log.text) && lastHandledId == old(lastHandledId)
        invariant NewestTrigger(name, recent, lastHandledId) == NewestTrigger(name, recent[..index], lastHandledId)
      {
        index := index - 1;
        TriggerStep(name, recent, index, lastHandledId);
        assert messages[index] == messages[..count][index];
        if ShouldHandle(name, messages[index], lastHandledId) {
          var written := log.AppendNewMessage(Reply(name, roomName, messages[index]), now);
          if written.None? {
            return false;
          }
          lastHandledId := messages[index].messageId;
          return true;
        }
      }
      NoTrigger(name, lastHandledId);
      assert recent[..0] == [];
      return false;
    }
  }

  // ----- Runs of all agents on the shared log -----

  // Say stands for every other writer: the ceo, the system, and the agents' task messages.
  datatype Action = Say(message: WtMessage, clock: int) | Handle(agent: string, roomName: string, contextMessageCount: int, clock: int)

  datatype Sent = Sent(agent: string, to: int)

  // The messages of the log, the state files, and who has answered what.
  datatype State = State(log: seq<WtMessage>, handled: map<string, int>, replies: seq<Sent>) {
    function LastHandled(agent: string): int { if agent in handled then handled[agent] else 0 }
  }

  function Next(s: State, a: Action): State {
    match a
    case Say(m, clock) => s.(log := s.log + [Numbered(m, |s.log|, clock)])
    case Handle(agent, roomName, contextMessageCount, clock) =>
      var trigger := NewestTrigger(agent, Recent(s.log, ContextLimit(contextMessageCount)), s.LastHandled(agent));
      if trigger.None? then s
      else
        State(s.log + [Numbered(Reply(agent, roomName, trigger.value), |s.log|, clock)],
              s.handled[agent := trigger.value.messageId], s.replies + [Sent(agent, trigger.value.messageId)])
  }

  function After(s: State, actions: seq<Action>): State {
    if actions == [] then s else Next(After(s, actions[..|actions| - 1]), actions[|actions| - 1])
  }

  // Only the three agents handle messages.
  predicate AgentsOnly(actions: seq<Action>) {
    forall i :: 0 <= i < |actions| && actions[i].Handle? ==> IsKnownAgent(actions[i].agent)
  }

  const START := State([], map[], [])

  /**
   * The step of the run is what HandleOnce does: without a trigger both leave the log and the stored ids alone; with one,
   * when the reply is clean and prints, both append the same message, store the trigger's id for this agent and no
   * other, and note one reply to it.
   */
  lemma HandleStepIsHandleOnce(text: string, s: State, agent: string, roomName: string, contextMessageCount: int, clock: int)
    requires Lines.EndsLine(text) && MessagesIn(text) == s.log && NumberedFrom(s.log, 0)
    ensures var trigger := NewestTrigger(agent, Recent(MessagesIn(text), ContextLimit(contextMessageCount)), s.LastHandled(agent));
            var next := Next(s, Handle(agent, roomName, contextMessageCount, clock));
            && (trigger.None? ==> next == s)
            && (trigger.Some? ==>
                  && next.LastHandled(agent) == trigger.value.messageId > s.LastHandled(agent)
                  && (forall other :: other != agent ==> next.LastHandled(other) == s.LastHandled(other))
                  && next.replies == s.replies + [Sent(agent, trigger.value.messageId)])
            && (trigger.Some? && CleanMessage(Reply(agent, roomName, trigger.value)) && FitsStruct(Reply(agent, roomName, trigger.value)) &&
                Prints(NewMessage(text, Reply(agent, roomName, trigger.value), clock), JSON_SIZE) ==>
                  MessagesIn(Appended(text, Reply(agent, roomName, trigger.value), clock)) == next.log)
  {
    hide MessagesIn, Reply, Prints, CleanMessage, FitsStruct, Appended, NewestTrigger, Addresses;
    var recent := Recent(MessagesIn(text), ContextLimit(contextMessageCount));
    var trigger := NewestTrigger(agent, recent, s.LastHandled(agent));
    var k := NewestTriggerMeaning(agent, recent, s.LastHandled(agent));
    if trigger.Some? {
      var reply := Reply(agent, roomName, trigger.value);
      AppendedMessages(text, reply, clock);
      MaxIdOfNumbered(s.log, 0);
      CleanIsRecovered(reply, clock, |s.log|);
    }
  }

  // Ids and clock readings of up to 18 digits.
  const LONGEST: nat := 1_000_000_000_000_000_000

  lemma NumberText(n: nat)
    requires n < LONGEST
    ensures Json.IntText(n) == Json.NatText(n) && |Json.NatText(n)| <= 18
  {
    Json.Power10OfSix(0);
    Json.Power10OfSix(6);
    Json.Power10OfSix(12);
    Json.NatTextLength(n, 18);
  }

  lemma NumberIsClean(n: nat)
    ensures Json.Clean(Json.NatText(n))
  {
  }

  lemma CleanTogether(a: string, b: string)
    requires Json.Clean(a) && Json.Clean(b)
    ensures Json.Clean(a + b)
  {
  }

  lemma ClaudeIsClean()
    ensures Json.Clean("[stub claude] I received messageId ")
    ensures Json.Clean(" and can respond from") && Json.Clean(" the shared room transcript.")
  {
  }

  lemma ChatgptIsClean()
    ensures Json.Clean("[stub chatgpt] I can see messageId ")
    ensures Json.Clean(" in the same durable room state") && Json.Clean(" and will treat it as authoritative.")
  {
  }

  lemma GeminiIsClean()
    ensures Json.Clean("[stub gemini] I confirm the message bus")
    ensures Json.Clean(" is working from shared") && Json.Clean(" transcript messageId ") && Json.Clean(".")
  {
  }

  lemma AroundNumber(a: string, b: string, id: nat, text: string)
    requires id < LONGEST && Json.Clean(a) && Json.Clean(b) && text == a + Json.IntText(id) + b
    ensures Json.Clean(text) && |text| <= |a| + |b| + 18
  {
    hide Json.Clean, Json.NatText, Json.IntText;
    NumberText(id);
    NumberIsClean(id);
    CleanTogether(a, Json.IntText(id));
    CleanTogether(a + Json.IntText(id), b);
  }

  lemma StubBodyIsShort(agent: string, id: nat)
    requires id < LONGEST
    ensures Json.Clean(StubBody(agent, id)) && |StubBody(agent, id)| <= 140
  {
    hide Json.Clean, Json.IntText;
    if agent == "claude" {
      ClaudeIsClean();
      CleanTogether(" and can respond from", " the shared room transcript.");
      AroundNumber("[stub claude] I received messageId ", " and can respond from" + " the shared room transcript.", id, StubBody(agent, id));
    } else if agent == "chatgpt" {
      ChatgptIsClean();
      CleanTogether(" in the same durable room state", " and will treat it as authoritative.");
      AroundNumber("[stub chatgpt] I can see messageId ",
                   " in the same durable room state" + " and will treat it as authoritative.", id, StubBody(agent, id));
    } else {
      GeminiIsClean();
      var before := "[stub gemini] I confirm the message bus" + " is working from shared";
      CleanTogether("[stub gemini] I confirm the message bus", " is working from shared");
      CleanTogether(before, " transcript messageId ");
      AroundNumber(before + " transcript messageId ", ".", id, StubBody(agent, id));
    }
  }

  // What an agent's reply looks like on its line.
  lemma ReplyPrints(agent: string, roomName: string, trigger: WtMessage, id: nat, clock: nat)
    requires IsKnownAgent(agent) && Json.Clean(roomName) && |roomName| < NAME_SIZE
    requires 0 <= trigger.messageId < LONGEST && id < LONGEST && clock < LONGEST
    ensures var reply := Reply(agent, roomName, trigger);
            && CleanMessage(reply) && FitsStruct(reply)
            && Prints(reply.(messageId := id, createdAtUnixMs := clock), JSON_SIZE)
  {
    hide Json.Escaped, Json.RenderFields, Json.NatText, Json.IntText, StubBody;
    var m := Reply(agent, roomName, trigger).(messageId := id, createdAtUnixMs := clock);
    StubBodyIsShort(agent, trigger.messageId);
    Json.CleanEscapedLength(roomName);
    Json.CleanEscapedLength(agent);
    Json.CleanEscapedLength("ceo");
    Json.CleanEscapedLength("chat");
    Json.CleanEscapedLength(m.messageBody);
    NumberText(id);
    NumberText(clock);
    NumberText(trigger.messageId);
    LineIsShort(m);
  }

  lemma CleanIsRecovered(m: WtMessage, now: int, lastId: int)
    ensures CleanMessage(m) && FitsStruct(m) ==> Readable(m) && Recovered(Numbered(m, lastId, now)) == Numbered(m, lastId, now)
  {
    RecoveredOfClean(m);
    RecoveredOfClean(Numbered(m, lastId, now));
  }

  // A log shorter than LONGEST numbers its messages below it.
  lemma TriggerIsNumbered(log: seq<WtMessage>, agent: string, contextMessageCount: int, lastHandledId: int)
    requires NumberedFrom(log, 0)
    ensures var trigger := NewestTrigger(agent, Recent(log, ContextLimit(contextMessageCount)), lastHandledId);
            trigger.Some? ==> 0 < trigger.value.messageId <= |log|
  {
    hide NewestTrigger, ShouldHandle, ContextLimit;
    var k := NewestTriggerMeaning(agent, Recent(log, ContextLimit(contextMessageCount)), lastHandledId);
  }

  /**
   * The three agents' replies always reach the log: under a clean room name, and with ids and clock of at most 18 digits,
   * each reply prints and reads back, so that the log after the step of the run is what its readers see.
   */
  lemma RepliesReachTheLog(text: string, s: State, agent: string, roomName: string, contextMessageCount: int, clock: nat)
    requires Lines.EndsLine(text) && MessagesIn(text) == s.log && NumberedFrom(s.log, 0)
    requires IsKnownAgent(agent) && Json.Clean(roomName) && |roomName| < NAME_SIZE && |s.log| + 1 < LONGEST && clock < LONGEST
    ensures var trigger := NewestTrigger(agent, Recent(MessagesIn(text), ContextLimit(contextMessageCount)), s.LastHandled(agent));
            var after := if trigger.Some? then Appended(text, Reply(agent, roomName, trigger.value), clock) else text;
            && (trigger.Some? ==> Prints(NewMessage(text, Reply(agent, roomName, trigger.value), clock), JSON_SIZE))
            && MessagesIn(after) == Next(s, Handle(agent, roomName, contextMessageCount, clock)).log
  {
    hide MessagesIn, Prints, CleanMessage, FitsStruct, Appended, NewestTrigger, NumberedFrom, StubBody;
    var trigger := NewestTrigger(agent, Recent(MessagesIn(text), ContextLimit(contextMessageCount)), s.LastHandled(agent));
    HandleStepIsHandleOnce(text, s, agent, roomName, contextMessageCount, clock);
    TriggerIsNumbered(s.log, agent, contextMessageCount, s.LastHandled(agent));
    MaxIdOfNumbered(s.log, 0);
    if trigger.Some? {
      ReplyPrints(agent, roomName, trigger.value, |s.log| + 1, clock);
    }
  }

  lemma {:induction false} NewestTriggerMeaning(agent: string, ms: seq<WtMessage>, lastHandledId: int) returns (k: int)
    ensures var trigger := NewestTrigger(agent, ms, lastHandledId);
            && (trigger.None? ==> k == -1)
            && (trigger.Some? ==> 0 <= k < |ms| && trigger.value == ms[k] && ShouldHandle(agent, ms[k], lastHandledId))
            && forall i :: k < i < |ms| ==> !ShouldHandle(agent, ms[i], lastHandledId)
  {
    hide ShouldHandle;
    k := |ms| - 1;
    if ms != [] && !ShouldHandle(agent, ms[k], lastHandledId) {
      k := NewestTriggerMeaning(agent, ms[..|ms| - 1], lastHandledId);
    }
  }

  // Every reply answered a message of the log addressed to its agent, up to the id in the agent's state file.
  ghost predicate Inv(s: State) {
    && NumberedFrom(s.log, 0)
    && forall i :: 0 <= i < |s.replies| ==>
         && 1 <= s.replies[i].to <= |s.log|
         && s.replies[i].to <= s.LastHandled(s.replies[i].agent)
         && Addresses(s.log[s.replies[i].to - 1], s.replies[i].agent)
  }

  // The replies of one agent answer messages with growing ids.
  predicate RepliesGrow(s: State) {
    forall i, j :: 0 <= i < j < |s.replies| && s.replies[i].agent == s.replies[j].agent ==> s.replies[i].to < s.replies[j].to
  }

  // What one handling does, with the trigger's position in the log.
  lemma HandleMeaning(s: State, agent: string, contextMessageCount: int) returns (k: int)
    requires NumberedFrom(s.log, 0)
    ensures var trigger := NewestTrigger(agent, Recent(s.log, ContextLimit(contextMessageCount)), s.LastHandled(agent));
            trigger.Some? ==>
              && 0 <= k < |s.log| && trigger.value == s.log[k] && k + 1 > s.LastHandled(agent) && Addresses(s.log[k], agent)
              && forall i :: k < i < |s.log| ==> !Addresses(s.log[i], agent)
  {
    hide Addresses, NewestTrigger;
    var recent := Recent(s.log, ContextLimit(contextMessageCount));
    var from := |s.log| - |recent|;
    var j := NewestTriggerMeaning(agent, recent, s.LastHandled(agent));
    k := from + j;
    if j >= 0 {
      forall i | k < i < |s.log|
        ensures !Addresses(s.log[i], agent)
      {
        assert s.log[i] == recent[i - from];
        assert s.log[i].messageId == i + 1 && s.log[k].messageId == k + 1;
      }
    }
  }

  lemma NextKeepsInv(s: State, a: Action)
    requires Inv(s) && RepliesGrow(s)
    ensures Inv(Next(s, a)) && RepliesGrow(Next(s, a))
  {
    hide Addresses, Reply, Recent, NewestTrigger;
    var next := Next(s, a);
    if a.Handle? {
      var k := HandleMeaning(s, a.agent, a.contextMessageCount);
    }
    assert forall i :: 0 <= i < |s.log| ==> next.log[i] == s.log[i];
  }

  lemma {:induction false} RunKeepsInv(actions: seq<Action>)
    ensures Inv(After(START, actions)) && RepliesGrow(After(START, actions))
  {
    if actions != [] {
      RunKeepsInv(actions[..|actions| - 1]);
      NextKeepsInv(After(START, actions[..|actions| - 1]), actions[|actions| - 1]);
    }
  }

  /** In every run an agent replies at most once to any message. */
  lemma AtMostOneReply(actions: seq<Action>, i: int, j: int)
    requires 0 <= i < j < |After(START, actions).replies|
    ensures After(START, actions).replies[i] != After(START, actions).replies[j]
  {
    RunKeepsInv(actions);
  }

  lemma ReplyAddressesNobody(agent: string, roomName: string, trigger: WtMessage, other: string)
    requires IsKnownAgent(agent)
    ensures !Addresses(Reply(agent, roomName, trigger), other)
  {
    assert |"claude"| == 6 && |"chatgpt"| == 7 && |"gemini"| == 6 && |"system"| == 6 && |"ceo"| == 3;
    assert "claude"[0] == 'c' && "gemini"[0] == 'g' && "system"[0] == 's';
  }

  /** No reply ever triggers an agent: every answered message is one of the ceo or the system, and no reply is. */
  lemma RepliesNeverTrigger(actions: seq<Action>, i: int, agent: string, other: string, roomName: string, trigger: WtMessage)
    requires 0 <= i < |After(START, actions).replies| && IsKnownAgent(agent)
    ensures var s := After(START, actions);
            && 1 <= s.replies[i].to <= |s.log|
            && Addresses(s.log[s.replies[i].to - 1], s.replies[i].agent)
    ensures !Addresses(Reply(agent, roomName, trigger), other)
  {
    hide Reply, After, Addresses, RepliesGrow, IsKnownAgent;
    RunKeepsInv(actions);
    ReplyAddressesNobody(agent, roomName, trigger, other);
  }

  // ----- At most one more reply -----

  function RepliesBy(replies: seq<Sent>, agent: string): nat {
    if replies == [] then 0
    else RepliesBy(replies[..|replies| - 1], agent) + if replies[|replies| - 1].agent == agent then 1 else 0
  }

  // A message the agent has not handled yet addresses it.
  predicate Pending(s: State, agent: string) {
    exists i :: s.LastHandled(agent) <= i < |s.log| && 0 <= i && Addresses(s.log[i], agent)
  }

  function Due(s: State, agent: string): nat { if Pending(s, agent) then 1 else 0 }

  // The actions say nothing more to the agent.
  predicate SilentTo(actions: seq<Action>, agent: string) {
    forall i :: 0 <= i < |actions| && actions[i].Say? ==> !Addresses(actions[i].message, agent)
  }

  lemma RepliesByLast(replies: seq<Sent>, sent: Sent, agent: string)
    ensures RepliesBy(replies + [sent], agent) == RepliesBy(replies, agent) + if sent.agent == agent then 1 else 0
  {
    assert (replies + [sent])[..|replies|] == replies;
  }

  lemma StillNotPending(s: State, next: State, agent: string)
    requires !Pending(s, agent) && next.LastHandled(agent) == s.LastHandled(agent)
    requires |next.log| == |s.log| + 1 && next.log[..|s.log|] == s.log && !Addresses(next.log[|s.log|], agent)
    ensures !Pending(next, agent)
  {
    hide Addresses;
    forall i | 0 <= i < |next.log| && next.LastHandled(agent) <= i
      ensures !Addresses(next.log[i], agent)
    {
      assert next.log[..|s.log|] == s.log;
      assert i < |s.log| ==> next.log[..|s.log|][i] == s.log[i];
    }
  }

  lemma SilentStep(s: State, a: Action, agent: string)
    requires Inv(s) && IsKnownAgent(agent)
    requires a.Say? ==> !Addresses(a.message, agent)
    requires a.Handle? ==> IsKnownAgent(a.agent)
    ensures RepliesBy(Next(s, a).replies, agent) + Due(Next(s, a), agent) <= RepliesBy(s.replies, agent) + Due(s, agent)
  {
    hide Recent, NewestTrigger, StubBody;
    var next := Next(s, a);
    match a
    case Say(m, clock) =>
      if !Pending(s, agent) {
        StillNotPending(s, next, agent);
      }
    case Handle(other, roomName, contextMessageCount, clock) =>
      var k := HandleMeaning(s, other, contextMessageCount);
      if next != s {
        RepliesByLast(s.replies, Sent(other, s.log[k].messageId), agent);
        ReplyAddressesNobody(other, roomName, s.log[k], agent);
        if other != agent {
          if !Pending(s, agent) {
            StillNotPending(s, next, agent);
          }
        } else {
          assert Addresses(s.log[k], agent);
          assert Pending(s, agent);
          assert !Pending(next, agent);
        }
      }
  }

  /** Once nothing more is said to an agent it sends at most one more reply, and none when no message waits. */
  lemma {:induction false} AtMostOneMoreReply(past: seq<Action>, actions: seq<Action>, agent: string)
    requires AgentsOnly(past) && AgentsOnly(actions) && IsKnownAgent(agent) && SilentTo(actions, agent)
    ensures var s, later := After(START, past), After(After(START, past), actions);
            Inv(later) && RepliesBy(later.replies, agent) + Due(later, agent) <= RepliesBy(s.replies, agent) + Due(s, agent)
  {
    RunKeepsInv(past);
    if actions != [] {
      hide Inv, Addresses, Next, Due, RepliesBy;
      var n := |actions| - 1;
      AtMostOneMoreReply(past, actions[..n], agent);
      InvAfter(past, actions[..n]);
      SilentStep(After(After(START, past), actions[..n]), actions[n], agent);
      InvAfter(past, actions);
    }
  }

  lemma {:induction false} InvAfter(past: seq<Action>, actions: seq<Action>)
    ensures Inv(After(After(START, past), actions)) && RepliesGrow(After(After(START, past), actions))
  {
    RunKeepsInv(past);
    if actions != [] {
      hide Inv, RepliesGrow, Next;
      var n := |actions| - 1;
      InvAfter(past, actions[..n]);
      NextKeepsInv(After(After(START, past), actions[..n]), actions[n]);
    }
  }

  // ----- Messages in the context are answered -----

  // How many messages handleOnce looks back.
  function Context(contextMessageCount: int): nat {
    if contextMessageCount <= 0 then 20 else if contextMessageCount <= 256 then contextMessageCount else 256
  }

  predicate IsFor(m: WtMessage, agent: string) {
    (m.senderName == "ceo" || m.senderName == "system") && (m.targetName == "all" || m.targetName == agent)
  }

  // The message at i is the newest of the context that is for the agent and has an id above the stored one.
  predicate NewestDue(agent: string, ms: seq<WtMessage>, contextMessageCount: int, lastId: int, i: int) {
    && 0 <= i < |ms| && |ms| - Context(contextMessageCount) <= i && IsFor(ms[i], agent) && ms[i].messageId > lastId
    && forall j :: i < j < |ms| ==> !(IsFor(ms[j], agent) && ms[j].messageId > lastId)
  }

  lemma RecentIs(ms: seq<WtMessage>, contextMessageCount: int)
    ensures var recent, c := Recent(ms, ContextLimit(contextMessageCount)), Context(contextMessageCount);
            recent == ms[if |ms| <= c then 0 else |ms| - c..]
  {
    assert ms[0..] == ms;
  }

  lemma ShouldHandleIff(agent: string, m: WtMessage, lastId: int)
    ensures ShouldHandle(agent, m, lastId) <==> IsFor(m, agent) && m.messageId > lastId
  {
  }

  // The trigger is that message.
  lemma TriggerIsNewestDue(agent: string, ms: seq<WtMessage>, contextMessageCount: int, lastId: int) returns (i: int)
    ensures var trigger := NewestTrigger(agent, Recent(ms, ContextLimit(contextMessageCount)), lastId);
            && (trigger.None? ==> forall j :: !NewestDue(agent, ms, contextMessageCount, lastId, j))
            && (trigger.Some? ==> NewestDue(agent, ms, contextMessageCount, lastId, i) && trigger.value == ms[i])
            && forall j :: NewestDue(agent, ms, contextMessageCount, lastId, j) ==> trigger == Some(ms[j])
  {
    hide NewestTrigger, ShouldHandle, IsFor, Recent, Context, ContextLimit;
    RecentIs(ms, contextMessageCount);
    var recent := Recent(ms, ContextLimit(contextMessageCount));
    var from := |ms| - |recent|;
    var k := NewestTriggerMeaning(agent, recent, lastId);
    i := from + k;
    forall j | 0 <= j < |ms|
      ensures ShouldHandle(agent, ms[j], lastId) <==> IsFor(ms[j], agent) && ms[j].messageId > lastId
      ensures from <= j ==> ms[j] == recent[j - from]
    {
      ShouldHandleIff(agent, ms[j], lastId);
    }
  }

  // The agent's messages from position n on are handled.
  predicate HandledUpTo(s: State, agent: string, n: int) {
    forall k :: 0 <= k < |s.log| && s.LastHandled(agent) <= k < n ==> !IsFor(s.log[k], agent)
  }

  // A handling that sees everything that is pending leaves nothing pending.
  lemma HandlingClears(s: State, agent: string, roomName: string, contextMessageCount: int, clock: int)
    requires NumberedFrom(s.log, 0) && IsKnownAgent(agent)
    requires HandledUpTo(s, agent, |s.log| - Context(contextMessageCount))
    ensures !Pending(Next(s, Handle(agent, roomName, contextMessageCount, clock)), agent)
  {
    hide NewestTrigger, Reply, IsKnownAgent, Context, ContextLimit, Recent;
    var next := Next(s, Handle(agent, roomName, contextMessageCount, clock));
    var i := TriggerIsNewestDue(agent, s.log, contextMessageCount, s.LastHandled(agent));
    if next == s {
      NothingDue(s, agent, contextMessageCount, |s.log|);
    } else {
      ReplyAddressesNobody(agent, roomName, s.log[i], agent);
      assert s.log[i].messageId == i + 1;
      forall k | 0 <= k < |next.log| && next.LastHandled(agent) <= k
        ensures !Addresses(next.log[k], agent)
      {
        if k < |s.log| {
          assert next.log[k] == s.log[k] && s.log[k].messageId == k + 1;
        }
      }
    }
  }

  // Without a newest due message none of the context is due.
  lemma {:induction false} NothingDue(s: State, agent: string, contextMessageCount: int, n: nat)
    requires n <= |s.log| && NumberedFrom(s.log, 0)
    requires forall j :: !NewestDue(agent, s.log, contextMessageCount, s.LastHandled(agent), j)
    requires HandledUpTo(s, agent, |s.log| - Context(contextMessageCount))
    requires forall k :: n <= k < |s.log| && s.LastHandled(agent) <= k ==> !IsFor(s.log[k], agent)
    ensures forall k :: 0 <= k < |s.log| && s.LastHandled(agent) <= k ==> !IsFor(s.log[k], agent)
  {
    hide IsFor, Context;
    if n > 0 && n > |s.log| - Context(contextMessageCount) {
      assert !NewestDue(agent, s.log, contextMessageCount, s.LastHandled(agent), n - 1);
      NothingDue(s, agent, contextMessageCount, n - 1);
    }
  }

  lemma {:induction false} RunsOnlyGrow(past: seq<Action>, more: seq<Action>, agent: string)
    ensures var s, later := After(START, past), After(START, past + more);
            s.log <= later.log && s.LastHandled(agent) <= later.LastHandled(agent)
  {
    if more == [] {
      assert past + more == past;
    } else {
      hide Next;
      var n := |more| - 1;
      RunsOnlyGrow(past, more[..n], agent);
      assert (past + more)[..|past + more| - 1] == past + more[..n];
      RunKeepsInv(past + more[..n]);
      NextOnlyGrows(After(START, past + more[..n]), more[n], agent);
    }
  }

  lemma NextOnlyGrows(s: State, a: Action, agent: string)
    requires Inv(s)
    ensures s.log <= Next(s, a).log && s.LastHandled(agent) <= Next(s, a).LastHandled(agent)
  {
    hide NewestTrigger, Reply, Addresses;
    if a.Handle? {
      var k := HandleMeaning(s, a.agent, a.contextMessageCount);
    }
  }

  // One more handling, with at most a context of messages since a moment at which nothing was pending.
  lemma HandlingInTime(
      past: seq<Action>, more: seq<Action>, agent: string, roomName: string, contextMessageCount: int, clock: int)
    requires IsKnownAgent(agent) && !Pending(After(START, past), agent)
    requires |After(START, past + more).log| - |After(START, past).log| <= Context(contextMessageCount)
    ensures !Pending(After(START, past + more + [Handle(agent, roomName, contextMessageCount, clock)]), agent)
  {
    hide After, Next, Context, IsKnownAgent;
    var handling := Handle(agent, roomName, contextMessageCount, clock);
    var s, later := After(START, past), After(START, past + more);
    RunsOnlyGrow(past, more, agent);
    RunKeepsInv(past + more);
    assert forall k :: 0 <= k < |s.log| ==> later.log[k] == s.log[k];
    HandlingClears(later, agent, roomName, contextMessageCount, clock);
    AfterOneMore(past + more, handling);
  }

  lemma AfterOneMore(actions: seq<Action>, a: Action)
    ensures After(START, actions + [a]) == Next(After(START, actions), a)
  {
    hide Next;
    assert (actions + [a])[..|actions|] == actions;
  }

  predicate Handles(a: Action, agent: string) { a.Handle? && a.agent == agent }

  predicate NoneHandles(actions: seq<Action>, agent: string, j: int, i: int) {
    forall k :: 0 <= j <= k < i <= |actions| ==> !Handles(actions[k], agent)
  }

  // Before each handling at most a context of messages was added since the agent's last one, or since the start.
  predicate HandledInTime(actions: seq<Action>, agent: string) {
    forall i, j ::
      && 0 <= j <= i < |actions| && Handles(actions[i], agent) && (j == 0 || Handles(actions[j - 1], agent))
      && NoneHandles(actions, agent, j, i) ==>
        |After(START, actions[..i]).log| - |After(START, actions[..j]).log| <= Context(actions[i].contextMessageCount)
  }

  lemma {:induction false} LastHandling(actions: seq<Action>, agent: string, i: nat) returns (j: nat)
    requires i <= |actions|
    ensures j <= i && (j == 0 || Handles(actions[j - 1], agent)) && NoneHandles(actions, agent, j, i)
  {
    if i == 0 || Handles(actions[i - 1], agent) {
      j := i;
    } else {
      j := LastHandling(actions, agent, i - 1);
    }
  }

  /** An agent that handles before its context is full misses nothing: after each handling no message for it is pending. */
  lemma {:induction false} NothingIsMissed(actions: seq<Action>, agent: string, i: nat)
    requires IsKnownAgent(agent) && HandledInTime(actions, agent) && i < |actions| && Handles(actions[i], agent)
    ensures !Pending(After(START, actions[..i + 1]), agent)
    decreases i
  {
    hide Pending, Next, IsKnownAgent, Context;
    var j := LastHandling(actions, agent, i);
    if j == 0 {
      NothingPendingAtStart(agent);
    } else {
      NothingIsMissed(actions, agent, j - 1);
      assert actions[..j - 1 + 1] == actions[..j];
    }
    assert actions[..j] + actions[j..i] == actions[..i] && actions[..i] + [actions[i]] == actions[..i + 1];
    InTimeAt(actions, agent, j, i);
    match actions[i]
    case Handle(_, roomName, contextMessageCount, clock) =>
      HandlingInTime(actions[..j], actions[j..i], agent, roomName, contextMessageCount, clock);
  }

  lemma InTimeAt(actions: seq<Action>, agent: string, j: nat, i: nat)
    requires HandledInTime(actions, agent) && j <= i < |actions| && Handles(actions[i], agent)
    requires (j == 0 || Handles(actions[j - 1], agent)) && NoneHandles(actions, agent, j, i)
    ensures |After(START, actions[..i]).log| - |After(START, actions[..j]).log| <= Context(actions[i].contextMessageCount)
  {
    hide After, Context;
  }

  lemma NothingPendingAtStart(agent: string)
    ensures !Pending(After(START, []), agent)
  {
  }

  // ----- The runs on the log file itself -----

  // The room log and the state files.
  datatype Files = Files(text: string, handled: map<string, int>) {
    function LastHandled(agent: string): int { if agent in handled then handled[agent] else 0 }
  }

  // One append, or what HandleOnce ensures.
  function FilesNext(f: Files, a: Action): Files {
    match a
    case Say(m, clock) => f.(text := Appended(f.text, m, clock))
    case Handle(agent, roomName, contextMessageCount, clock) =>
      var trigger := NewestTrigger(agent, Recent(MessagesIn(f.text), ContextLimit(contextMessageCount)), f.LastHandled(agent));
      if trigger.None? then f
      else
        var reply := Reply(agent, roomName, trigger.value);
        Files(Appended(f.text, reply, clock),
              if Prints(NewMessage(f.text, reply, clock), JSON_SIZE) then f.handled[agent := trigger.value.messageId] else f.handled)
  }

  function FilesAfter(actions: seq<Action>): Files {
    if actions == [] then Files("", map[]) else FilesNext(FilesAfter(actions[..|actions| - 1]), actions[|actions| - 1])
  }

  // What is said is clean and prints; only the three agents handle messages, under a clean room name.
  predicate Proper(f: Files, a: Action) {
    match a
    case Say(m, clock) => CleanMessage(m) && FitsStruct(m) && Prints(NewMessage(f.text, m, clock), JSON_SIZE)
    case Handle(agent, roomName, _, clock) =>
      IsKnownAgent(agent) && Json.Clean(roomName) && |roomName| < NAME_SIZE && 0 <= clock < LONGEST
  }

  predicate AllProper(actions: seq<Action>) {
    forall i :: 0 <= i < |actions| ==> Proper(FilesAfter(actions[..i]), actions[i])
  }

  predicate Agree(f: Files, s: State) {
    Lines.EndsLine(f.text) && MessagesIn(f.text) == s.log && NumberedFrom(s.log, 0) && f.handled == s.handled
  }

  lemma SayAgrees(f: Files, s: State, m: WtMessage, clock: int)
    requires Agree(f, s) && Proper(f, Say(m, clock))
    ensures Agree(FilesNext(f, Say(m, clock)), Next(s, Say(m, clock)))
  {
    hide MessagesIn, Prints, CleanMessage, FitsStruct, Appended;
    AppendedMessages(f.text, m, clock);
    MaxIdOfNumbered(s.log, 0);
    CleanIsRecovered(m, clock, |s.log|);
  }

  lemma HandleAgrees(f: Files, s: State, agent: string, roomName: string, contextMessageCount: int, clock: int)
    requires Agree(f, s) && Proper(f, Handle(agent, roomName, contextMessageCount, clock)) && |s.log| + 1 < LONGEST
    ensures Agree(FilesNext(f, Handle(agent, roomName, contextMessageCount, clock)), Next(s, Handle(agent, roomName, contextMessageCount, clock)))
  {
    hide MessagesIn, Prints, Appended, NewestTrigger, Reply, Json.Clean;
    var trigger := NewestTrigger(agent, Recent(MessagesIn(f.text), ContextLimit(contextMessageCount)), s.LastHandled(agent));
    RepliesReachTheLog(f.text, s, agent, roomName, contextMessageCount, clock);
    if trigger.Some? {
      AppendedMessages(f.text, Reply(agent, roomName, trigger.value), clock);
    }
  }

  lemma AllProperUnfolds(actions: seq<Action>)
    requires actions != [] && AllProper(actions)
    ensures AllProper(actions[..|actions| - 1]) && Proper(FilesAfter(actions[..|actions| - 1]), actions[|actions| - 1])
  {
    hide Proper, FilesAfter;
    var n := |actions| - 1;
    assert forall i :: 0 <= i < n ==> actions[..n][..i] == actions[..i];
  }

  lemma NextAddsAtMostOne(s: State, a: Action)
    ensures |Next(s, a).log| <= |s.log| + 1
  {
    hide NewestTrigger, Reply;
  }

  /**
   * The runs are what happens in the files: as long as what others say is clean and prints, after any number of actions
   * the log file holds the messages of the run's log and the state files hold its ids.
   */
  lemma {:induction false} RunsAreOnTheFiles(actions: seq<Action>)
    requires AllProper(actions) && |actions| < LONGEST
    ensures Agree(FilesAfter(actions), After(START, actions)) && |After(START, actions).log| <= |actions|
  {
    hide Proper, AllProper, Agree, Next, FilesNext;
    if actions == [] {
      NoFiles();
    } else {
      var n := |actions| - 1;
      AllProperUnfolds(actions);
      RunsAreOnTheFiles(actions[..n]);
      var f, s := FilesAfter(actions[..n]), After(START, actions[..n]);
      NextAddsAtMostOne(s, actions[n]);
      match actions[n]
      case Say(m, clock) => SayAgrees(f, s, m, clock);
      case Handle(agent, roomName, contextMessageCount, clock) => HandleAgrees(f, s, agent, roomName, contextMessageCount, clock);
    }
  }

  lemma NoFiles()
    ensures Agree(FilesAfter([]), After(START, []))
  {
    NoMessages();
  }

  /**
   * One handling answers the newest message of its context that is for the agent and above the stored id: it appends
   * the reply, to the ceo and to that message's id, and stores the id if the reply prints.
   */
  lemma HandlingAnswersNewest(f: Files, agent: string, roomName: string, contextMessageCount: int, clock: int, i: int)
    requires NewestDue(agent, MessagesIn(f.text), contextMessageCount, f.LastHandled(agent), i)
    ensures var next, m := FilesNext(f, Handle(agent, roomName, contextMessageCount, clock)), MessagesIn(f.text)[i];
            && exists reply: WtMessage ::
                 && reply.roomName == roomName && reply.senderName == agent && reply.targetName == "ceo" && reply.messageType == "chat"
                 && reply.replyToMessageId == m.messageId
                 && next.text == Appended(f.text, reply, clock)
                 && next.handled == if Prints(NewMessage(f.text, reply, clock), JSON_SIZE) then f.handled[agent := m.messageId] else f.handled
  {
    hide MessagesIn, Prints, Appended, NewMessage, NewestTrigger, StubBody, NewestDue, Recent, ContextLimit;
    var j := TriggerIsNewestDue(agent, MessagesIn(f.text), contextMessageCount, f.LastHandled(agent));
    DueIsInside(agent, MessagesIn(f.text), contextMessageCount, f.LastHandled(agent), i);
    var reply := Reply(agent, roomName, MessagesIn(f.text)[i]);
    assert reply.targetName == "ceo";
  }

  lemma DueIsInside(agent: string, ms: seq<WtMessage>, contextMessageCount: int, lastId: int, i: int)
    requires NewestDue(agent, ms, contextMessageCount, lastId, i)
    ensures 0 <= i < |ms|
  {
  }
}
