/** src/wt_room_store.c: the room log, its locked append, its readers, and the polling event stream of src/wt_roomd.c. */
module Room {
  import opened Options
  import opened Lines
  import opened Message

  // ----- Reading the log -----

  function IfSome(m: Option<WtMessage>): seq<WtMessage> { if m.Some? then [m.value] else [] }

  // The messages the readers see, in file order: every piece fgets delivers that parses.
  function MessagesIn(text: string): seq<WtMessage>
    decreases |text|
  {
    if text == "" then []
    else
      var line := Chunk(text, JSON_SIZE);
      IfSome(Parsed(line)) + MessagesIn(text[|line|..])
  }

  lemma MessagesUnfold(text: string)
    requires text != ""
    ensures var line := Chunk(text, JSON_SIZE);
            MessagesIn(text) == IfSome(Parsed(line)) + MessagesIn(text[|line|..])
  {
  }

  lemma {:induction false} MessagesAppend(text: string, more: string)
    requires EndsLine(text)
    ensures MessagesIn(text + more) == MessagesIn(text) + MessagesIn(more)
    decreases |text|
  {
    hide Parsed, Chunk, MessagesIn;
    if text == "" {
      NoMessages();
      assert text + more == more;
      assert [] + MessagesIn(more) == MessagesIn(more);
    } else {
      var line := Chunk(text, JSON_SIZE);
      ChunkOfWholeLines(text, more, JSON_SIZE);
      MessagesUnfold(text);
      MessagesUnfold(text + more);
      assert (text + more)[|line|..] == text[|line|..] + more;
      MessagesAppend(text[|line|..], more);
    }
  }

  lemma NoMessages()
    ensures MessagesIn("") == []
  {
  }

  // A bare newline is no message.
  lemma NewlineIsNoMessage()
    ensures Parsed("\n").None?
  {
    var key := Json.Quoted("messageId");
    assert |key| == 11;
    assert Json.FindValue("\n"[1..], "messageId").None?;
    assert Json.FindValue("\n", "messageId").None?;
  }

  /** One printed line adds what is read back of it, also when the buffer has no room left for its newline. */
  lemma MessagesOfLine(m: WtMessage)
    requires |Line(m)| < 8192
    ensures MessagesIn(Line(m) + "\n") == if FitsStruct(Recovered(m)) then [Recovered(m)] else []
  {
    hide Parsed, Line, Chunk, MessagesIn, Recovered;
    var text := Line(m) + "\n";
    LineHasNoNewline(m);
    MessagesUnfold(text);
    NoMessages();
    assert text == Line(m) + "\n" + "";
    if |Line(m)| + 1 < JSON_SIZE {
      ChunkOfLine(Line(m), "", JSON_SIZE);
      ReadBack(m, "\n");
      assert text[|text|..] == "";
    } else {
      ChunkOfFullLine(Line(m), "", JSON_SIZE);
      ReadBack(m, "");
      assert Line(m) + "" == Line(m);
      assert text[|Line(m)|..] == "\n";
      MessagesUnfold("\n");
      ChunkOfLine("", "", JSON_SIZE);
      assert "" + "\n" + "" == "\n" && "" + "\n" == "\n";
      NewlineIsNoMessage();
    }
  }

  // ----- The last id -----

  function MaxId(ms: seq<WtMessage>, lastId: int): int {
    if ms == [] then lastId else MaxId(ms[1..], if ms[0].messageId > lastId then ms[0].messageId else lastId)
  }

  // The greatest id of the messages, and no less than where the search started.
  lemma {:induction false} MaxIdIsGreatest(ms: seq<WtMessage>, lastId: int)
    ensures MaxId(ms, lastId) >= lastId && forall k :: 0 <= k < |ms| ==> ms[k].messageId <= MaxId(ms, lastId)
    ensures MaxId(ms, lastId) == lastId || exists k :: 0 <= k < |ms| && ms[k].messageId == MaxId(ms, lastId)
  {
    if ms != [] {
      var next := if ms[0].messageId > lastId then ms[0].messageId else lastId;
      MaxIdIsGreatest(ms[1..], next);
      assert forall k :: 1 <= k < |ms| ==> ms[k] == ms[1..][k - 1];
      if k :| 0 <= k < |ms[1..]| && ms[1..][k].messageId == MaxId(ms[1..], next) {
        assert ms[k + 1].messageId == MaxId(ms, lastId);
      }
    }
  }

  lemma MaxIdStep(m: Option<WtMessage>, rest: seq<WtMessage>, lastId: int)
    ensures MaxId(IfSome(m) + rest, lastId) == MaxId(rest, if m.Some? && m.value.messageId > lastId then m.value.messageId else lastId)
  {
    assert m.None? ==> IfSome(m) + rest == rest;
    assert m.Some? ==> (IfSome(m) + rest)[1..] == rest;
  }

  // What wtRoomAppendNewMessage makes of the message it is given.
  function Numbered(m: WtMessage, lastId: int, now: int): WtMessage {
    m.(messageId := lastId + 1, createdAtUnixMs := if m.createdAtUnixMs == 0 then now else m.createdAtUnixMs)
  }

  function NewMessage(text: string, m: WtMessage, now: int): WtMessage { Numbered(m, MaxId(MessagesIn(text), 0), now) }

  // The log after one append under the lock; a message that does not print leaves it alone.
  function Appended(text: string, m: WtMessage, now: int): string {
    var stamped := NewMessage(text, m, now);
    if Prints(stamped, JSON_SIZE) then text + (Line(stamped) + "\n") else text
  }

  class RoomLog {
    var text: string

    constructor ()
      ensures text == ""
    {
      text := "";
    }

    // wtRoomReadLastMessageId, and the loop of wtRoomAppendNewMessage.
    method ReadLastMessageId() returns (lastId: int)
      ensures lastId == MaxId(MessagesIn(text), 0)
    {
      hide MessagesIn, Parsed, Chunk, MaxId;
      lastId := 0;
      var rest := text;
      while rest != ""
        invariant MaxId(MessagesIn(text), 0) == MaxId(MessagesIn(rest), lastId)
        decreases |rest|
      {
        var line := Chunk(rest, JSON_SIZE);
        MessagesUnfold(rest);
        rest := rest[|line|..];
        var message := FromJsonLine(line);
        MaxIdStep(message, MessagesIn(rest), lastId);
        if message.Some? && message.value.messageId > lastId {
          lastId := message.value.messageId;
        }
      }
      NoMessages();
      NoMaxId(lastId);
    }

    method AppendNewMessage(m: WtMessage, now: int) returns (written: Option<WtMessage>)
      modifies this
      ensures text == Appended(old(text), m, now)
      ensures written == if Prints(NewMessage(old(text), m, now), JSON_SIZE) then Some(NewMessage(old(text), m, now)) else None
      ensures written.Some? ==>
                && written.value == m.(messageId := written.value.messageId, createdAtUnixMs := written.value.createdAtUnixMs)
                && written.value.createdAtUnixMs == (if m.createdAtUnixMs == 0 then now else m.createdAtUnixMs)
                && written.value.messageId > 0 && |Line(written.value)| < 8192
                && forall k :: 0 <= k < |MessagesIn(old(text))| ==> MessagesIn(old(text))[k].messageId < written.value.messageId
    {
      MaxIdIsGreatest(MessagesIn(text), 0);
      hide MessagesIn, MaxId, Line, Prints;
      var lastId := ReadLastMessageId();
      var message := m.(messageId := lastId + 1);
      if message.createdAtUnixMs == 0 {
        message := message.(createdAtUnixMs := now);
      }
      var json := ToJson(message, JSON_SIZE);
      if json.None? {
        return None;
      }
      text := text + (json.value + "\n");
      return Some(message);
    }

    // wtRoomReadRecent; the ring array holds the last `limit` messages while the log is read.
    method ReadRecent(limit: int, messages: array<WtMessage>) returns (count: nat)
      requires messages.Length > 0
      modifies messages
      ensures var all, n := MessagesIn(text), if 0 < limit <= messages.Length then limit else messages.Length;
              count <= messages.Length && messages[..count] == all[if |all| < n then 0 else |all| - n..]
    {
      hide MessagesIn, Parsed, Chunk, InRing;
      var size := RecentLimit(limit, messages.Length);
      var ring, seen := FillRing(size);
      ghost var all := MessagesIn(text);
      count := if seen < size then seen else size;
      var start := if seen < size then 0 else seen % size;
      ghost var last := all[|all| - count..];
      for index := 0 to count
        invariant messages[..index] == last[..index]
        invariant InRing(ring[..], all)
      {
        RingSlot(seen, size, index);
        InRingAt(ring[..], all, seen - count + index);
        messages[index] := ring[(start + index) % size];
        assert messages[index] == last[index];
      }
    }

    method FillRing(size: nat) returns (ring: array<WtMessage>, seen: nat)
      requires size > 0
      ensures fresh(ring) && ring.Length == size && seen == |MessagesIn(text)|
      ensures InRing(ring[..], MessagesIn(text))
    {
      hide MessagesIn, Parsed, Chunk, InRing;
      ring := new WtMessage[size](_ => WtMessage(0, "", "", "", "", "", 0, 0));
      seen := 0;
      ghost var done: seq<WtMessage> := [];
      var rest := text;
      EmptyRing(ring[..]);
      assert [] + MessagesIn(rest) == MessagesIn(text);
      while rest != ""
        invariant MessagesIn(text) == done + MessagesIn(rest) && seen == |done|
        invariant InRing(ring[..], done)
        decreases |rest|
      {
        var line := Chunk(rest, JSON_SIZE);
        MessagesUnfold(rest);
        rest := rest[|line|..];
        var message := FromJsonLine(line);
        assert done + (IfSome(message) + MessagesIn(rest)) == (done + IfSome(message)) + MessagesIn(rest);
        if message.Some? {
          RingTakes(ring[..], done, message.value);
          ring[seen % size] := message.value;
          seen := seen + 1;
        } else {
          assert done + [] == done;
        }
        done := done + IfSome(message);
      }
      NoMessages();
      assert done + [] == done;
    }

    // wtRoomReadMessagesAfter
    method ReadMessagesAfter(afterMessageId: int, messages: array<WtMessage>) returns (count: nat)
      modifies messages
      ensures count <= messages.Length
      ensures messages[..count] == FirstAfter(MessagesIn(text), afterMessageId, messages.Length)
    {
      hide MessagesIn, Parsed, Chunk, FirstAfter, IfSome, Completes;
      count := 0;
      ghost var all, room := MessagesIn(text), messages.Length;
      var rest := text;
      NothingFound(all, afterMessageId, room);
      while count < messages.Length && rest != ""
        invariant count <= messages.Length
        invariant Completes(all, afterMessageId, room, messages[..count], MessagesIn(rest))
        decreases |rest|
      {
        var line := Chunk(rest, JSON_SIZE);
        MessagesUnfold(rest);
        rest := rest[|line|..];
        var message := FromJsonLine(line);
        ghost var found := messages[..count];
        CompletesStep(all, afterMessageId, room, found, message, MessagesIn(rest));
        if message.Some? && message.value.messageId > afterMessageId {
          messages[count] := message.value;
          count := count + 1;
          assert messages[..count] == found + [message.value];
        }
      }
      NoMessages();
      CompletesEnd(all, afterMessageId, room, messages[..count], MessagesIn(rest));
    }
  }

  // What was found, and what will be found in the messages that are left, is the answer.
  predicate Completes(all: seq<WtMessage>, id: int, room: nat, found: seq<WtMessage>, rest: seq<WtMessage>) {
    |found| <= room && FirstAfter(all, id, room) == found + FirstAfter(rest, id, room - |found|)
  }

  lemma NothingFound(all: seq<WtMessage>, id: int, room: nat)
    ensures Completes(all, id, room, [], all)
  {
    hide FirstAfter;
    assert [] + FirstAfter(all, id, room) == FirstAfter(all, id, room);
  }

  lemma CompletesStep(all: seq<WtMessage>, id: int, room: nat, found: seq<WtMessage>, m: Option<WtMessage>, rest: seq<WtMessage>)
    requires |found| < room && Completes(all, id, room, found, IfSome(m) + rest)
    ensures Completes(all, id, room, if m.Some? && m.value.messageId > id then found + [m.value] else found, rest)
  {
    hide FirstAfter, IfSome;
    FirstAfterStep(m, rest, id, room - |found|);
    if m.Some? && m.value.messageId > id {
      var more := FirstAfter(rest, id, room - |found| - 1);
      assert found + ([m.value] + more) == (found + [m.value]) + more;
    }
  }

  lemma CompletesEnd(all: seq<WtMessage>, id: int, room: nat, found: seq<WtMessage>, rest: seq<WtMessage>)
    requires Completes(all, id, room, found, rest) && (rest == [] || |found| == room)
    ensures FirstAfter(all, id, room) == found
  {
    FirstAfterEnd(rest, id, room - |found|);
  }

  lemma NoMaxId(lastId: int)
    ensures MaxId([], lastId) == lastId
  {
  }

  // ----- The ring array -----

  function RecentLimit(limit: int, maxMessages: nat): (n: nat)
    requires maxMessages > 0
    ensures 0 < n <= maxMessages
  {
    if limit <= 0 || limit > maxMessages then maxMessages else limit
  }

  // The ring holds the last messages, each at its position modulo the size.
  ghost predicate InRing(ring: seq<WtMessage>, done: seq<WtMessage>) {
    |ring| > 0 && forall k :: |done| - |ring| <= k < |done| && 0 <= k ==> ring[k % |ring|] == done[k]
  }

  lemma InRingAt(ring: seq<WtMessage>, done: seq<WtMessage>, k: nat)
    requires InRing(ring, done) && |done| - |ring| <= k < |done|
    ensures ring[k % |ring|] == done[k]
  {
  }

  lemma EmptyRing(ring: seq<WtMessage>)
    requires |ring| > 0
    ensures InRing(ring, [])
  {
  }

  // A multiple of the size that is smaller than the size is zero.
  lemma SmallMultiple(d: int, size: int)
    requires size > 0
    ensures -size < size * d < size ==> d == 0
  {
    if d >= 1 {
      assert size * (d - 1) >= 0;
      assert size * d >= size;
    } else if d <= -1 {
      assert size * (-d - 1) >= 0;
      assert size * d <= -size;
    }
  }

  lemma SameSlot(a: nat, b: nat, d: int, size: nat)
    requires size > 0 && b == a + size * d
    ensures a % size == b % size
  {
    var p, q := a / size, b / size;
    assert a == size * p + a % size && b == size * q + b % size;
    assert size * (q - p - d) == size * q - size * p - size * d;
    SmallMultiple(q - p - d, size);
    assert size * (q - p - d) == 0;
  }

  lemma SlotsDiffer(k: nat, n: nat, size: nat)
    requires k < n < k + size
    ensures k % size != n % size
  {
    var p, q := k / size, n / size;
    assert k == size * p + k % size && n == size * q + n % size;
    if k % size == n % size {
      assert size * (q - p) == size * q - size * p;
      SmallMultiple(q - p, size);
    }
  }

  lemma RingTakes(ring: seq<WtMessage>, done: seq<WtMessage>, m: WtMessage)
    requires InRing(ring, done)
    ensures InRing(ring[|done| % |ring| := m], done + [m])
  {
    var next := ring[|done| % |ring| := m];
    forall k | |done| + 1 - |ring| <= k <= |done| && 0 <= k
      ensures next[k % |ring|] == (done + [m])[k]
    {
      if k < |done| {
        SlotsDiffer(k, |done|, |ring|);
      }
    }
  }

  lemma RingSlot(seen: nat, size: nat, index: nat)
    requires 0 < size && index < (if seen < size then seen else size)
    ensures seen < size ==> index % size == index
    ensures seen >= size ==> (seen % size + index) % size == (seen - size + index) % size
  {
    if seen >= size {
      var q := seen / size;
      assert seen == size * q + seen % size;
      assert seen - size + index == (seen % size + index) + size * (q - 1);
      SameSlot(seen % size + index, seen - size + index, q - 1, size);
    }
  }

  // ----- Reading after an id -----

  // The first `room` messages with a greater id.
  function FirstAfter(ms: seq<WtMessage>, id: int, room: nat): seq<WtMessage> {
    if ms == [] || room == 0 then []
    else if ms[0].messageId > id then [ms[0]] + FirstAfter(ms[1..], id, room - 1)
    else FirstAfter(ms[1..], id, room)
  }

  // In order, the messages with a greater id; the room is all that cuts them short.
  lemma {:induction false} FirstAfterIs(ms: seq<WtMessage>, id: int, room: nat)
    ensures var found := FirstAfter(ms, id, room);
            && |found| <= room && (forall k :: 0 <= k < |found| ==> found[k].messageId > id && found[k] in ms)
            && (|found| < room ==> forall k :: 0 <= k < |ms| && ms[k].messageId > id ==> ms[k] in found)
  {
    if ms != [] && room > 0 {
      FirstAfterIs(ms[1..], id, if ms[0].messageId > id then room - 1 else room);
      assert forall k :: 1 <= k < |ms| ==> ms[k] == ms[1..][k - 1];
    }
  }

  lemma FirstAfterStep(m: Option<WtMessage>, rest: seq<WtMessage>, id: int, room: nat)
    requires room > 0
    ensures FirstAfter(IfSome(m) + rest, id, room) ==
            if m.Some? && m.value.messageId > id then [m.value] + FirstAfter(rest, id, room - 1) else FirstAfter(rest, id, room)
  {
    assert m.None? ==> IfSome(m) + rest == rest;
    assert m.Some? ==> (IfSome(m) + rest)[1..] == rest;
  }

  lemma FirstAfterEnd(ms: seq<WtMessage>, id: int, room: nat)
    requires ms == [] || room == 0
    ensures FirstAfter(ms, id, room) == []
  {
  }

  // ----- Ids over every sequence of locked appends -----

  datatype Posting = Posting(message: WtMessage, clock: int)

  // The log after the postings, starting from an empty file.
  function LogText(posts: seq<Posting>): string {
    if posts == [] then ""
    else
      var n := |posts| - 1;
      Appended(LogText(posts[..n]), posts[n].message, posts[n].clock)
  }

  // The postings that print, numbered 1, 2, 3 and so on.
  function Stored(posts: seq<Posting>): seq<WtMessage> {
    if posts == [] then []
    else
      var n := |posts| - 1;
      var before := Stored(posts[..n]);
      var m := Numbered(posts[n].message, |before|, posts[n].clock);
      if Prints(m, JSON_SIZE) then before + [m] else before
  }

  // What is read back of the message still fits its arrays.
  predicate Readable(m: WtMessage) { FitsStruct(Recovered(m)) }

  function RecoveredAll(ms: seq<WtMessage>): (r: seq<WtMessage>)
    ensures |r| == |ms|
  {
    seq(|ms|, i requires 0 <= i < |ms| => Recovered(ms[i]))
  }

  predicate NumberedFrom(ms: seq<WtMessage>, base: int) { forall k :: 0 <= k < |ms| ==> ms[k].messageId == base + k + 1 }

  lemma {:induction false} MaxIdOfNumbered(ms: seq<WtMessage>, base: int)
    requires NumberedFrom(ms, base)
    ensures MaxId(ms, base) == base + |ms|
  {
    if ms != [] {
      assert ms[0].messageId == base + 1;
      assert forall k :: 0 <= k < |ms| - 1 ==> ms[1..][k] == ms[k + 1];
      MaxIdOfNumbered(ms[1..], base + 1);
    }
  }

  lemma AppendedMessages(text: string, m: WtMessage, now: int)
    requires EndsLine(text)
    ensures EndsLine(Appended(text, m, now))
    ensures var stamped := NewMessage(text, m, now);
            MessagesIn(Appended(text, m, now)) ==
            MessagesIn(text) + if Prints(stamped, JSON_SIZE) && Readable(m) then [Recovered(stamped)] else []
  {
    hide MessagesIn, MaxId, Line, Recovered;
    var stamped := NewMessage(text, m, now);
    StampsDoNotMatter(m, MaxId(MessagesIn(text), 0), now);
    if Prints(stamped, JSON_SIZE) {
      MessagesAppend(text, Line(stamped) + "\n");
      MessagesOfLine(stamped);
    } else {
      assert MessagesIn(text) + [] == MessagesIn(text);
    }
  }

  lemma StampsDoNotMatter(m: WtMessage, lastId: int, now: int)
    ensures Readable(Numbered(m, lastId, now)) == Readable(m)
  {
  }

  /**
   * Starting from an empty log, any sequence of locked appends of readable messages is numbered 1, 2, 3 and so
   * on in file order, and the readers see exactly the messages that were stored.
   */
  lemma {:induction false} IdsAreSequential(posts: seq<Posting>)
    requires forall i :: 0 <= i < |posts| ==> Readable(posts[i].message)
    ensures EndsLine(LogText(posts)) && NumberedFrom(Stored(posts), 0)
    ensures MessagesIn(LogText(posts)) == RecoveredAll(Stored(posts))
  {
    if posts == [] {
      NoMessages();
    } else {
      hide MessagesIn, Appended, NumberedFrom, RecoveredAll, Readable, Prints, LogText, Stored, EndsLine;
      var n := |posts| - 1;
      IdsAreSequential(posts[..n]);
      LogUnfolds(posts);
      IdsStep(LogText(posts[..n]), Stored(posts[..n]), posts[n].message, posts[n].clock);
    }
  }

  lemma LogUnfolds(posts: seq<Posting>)
    requires posts != []
    ensures var n := |posts| - 1;
            var before, stamped := Stored(posts[..n]), Numbered(posts[n].message, |Stored(posts[..n])|, posts[n].clock);
            && LogText(posts) == Appended(LogText(posts[..n]), posts[n].message, posts[n].clock)
            && Stored(posts) == if Prints(stamped, JSON_SIZE) then before + [stamped] else before
  {
    hide Appended, Prints;
  }

  lemma IdsStep(text: string, before: seq<WtMessage>, m: WtMessage, now: int)
    requires EndsLine(text) && NumberedFrom(before, 0) && MessagesIn(text) == RecoveredAll(before) && Readable(m)
    ensures var stamped := Numbered(m, |before|, now);
            var after := if Prints(stamped, JSON_SIZE) then before + [stamped] else before;
            && EndsLine(Appended(text, m, now)) && NumberedFrom(after, 0)
            && MessagesIn(Appended(text, m, now)) == RecoveredAll(after)
  {
    hide MessagesIn, MaxId, Appended, Recovered, Readable, Prints;
    var stamped := Numbered(m, |before|, now);
    RecoveredKeepsIds(before);
    MaxIdOfNumbered(RecoveredAll(before), 0);
    AppendedMessages(text, m, now);
    assert NewMessage(text, m, now) == stamped;
    assert RecoveredAll(before + [stamped]) == RecoveredAll(before) + [Recovered(stamped)];
    assert RecoveredAll(before) + [] == RecoveredAll(before);
  }

  lemma RecoveredKeepsIds(ms: seq<WtMessage>)
    ensures NumberedFrom(RecoveredAll(ms), 0) == NumberedFrom(ms, 0)
  {
    assert forall k :: 0 <= k < |ms| ==> RecoveredAll(ms)[k].messageId == ms[k].messageId;
  }

  /** Within the round-trip text set the readers see the stored messages themselves. */
  lemma CleanMessagesAreReadExactly(posts: seq<Posting>)
    requires forall i :: 0 <= i < |posts| ==> FitsStruct(posts[i].message) && CleanMessage(posts[i].message)
    ensures MessagesIn(LogText(posts)) == Stored(posts) && NumberedFrom(Stored(posts), 0)
  {
    forall i | 0 <= i < |posts|
      ensures Readable(posts[i].message)
    {
      RecoveredOfClean(posts[i].message);
    }
    IdsAreSequential(posts);
    StoredIsClean(posts);
    forall k | 0 <= k < |Stored(posts)|
      ensures Recovered(Stored(posts)[k]) == Stored(posts)[k]
    {
      RecoveredOfClean(Stored(posts)[k]);
    }
  }

  lemma {:induction false} StoredIsClean(posts: seq<Posting>)
    requires forall i :: 0 <= i < |posts| ==> CleanMessage(posts[i].message)
    ensures forall k :: 0 <= k < |Stored(posts)| ==> CleanMessage(Stored(posts)[k])
  {
    if posts != [] {
      hide CleanMessage, Prints;
      StoredIsClean(posts[..|posts| - 1]);
    }
  }

  /** After any printed message the next append takes a fresh id exactly when the message can be read back; otherwise it takes the same one again. */
  lemma NextIdIsFreshIff(text: string, m: WtMessage, now: int, next: WtMessage, later: int)
    requires EndsLine(text) && Prints(NewMessage(text, m, now), 8192)
    ensures var id := NewMessage(text, m, now).messageId;
            NewMessage(Appended(text, m, now), next, later).messageId == if Readable(m) then id + 1 else id
  {
    hide MessagesIn, Line, Recovered, Readable, Prints;
    var stamped, before := NewMessage(text, m, now), MessagesIn(text);
    AppendedMessages(text, m, now);
    assert before + [] == before;
    RecoveredId(stamped);
    MaxIdOfLast(before, Recovered(stamped), 0);
  }

  lemma RecoveredId(m: WtMessage)
    ensures Recovered(m).messageId == m.messageId
  {
  }

  lemma {:induction false} MaxIdOfLast(ms: seq<WtMessage>, m: WtMessage, lastId: int)
    ensures MaxId(ms + [m], lastId) == if m.messageId > MaxId(ms, lastId) then m.messageId else MaxId(ms, lastId)
  {
    if ms == [] {
      assert ms + [m] == [m] && [m][1..] == [];
    } else {
      assert (ms + [m])[1..] == ms[1..] + [m];
      MaxIdOfLast(ms[1..], m, if ms[0].messageId > lastId then ms[0].messageId else lastId);
    }
  }

  /** Such messages exist: 820 odd control bytes come back as 4100 letters, more than the body array holds. */
  lemma OddBodyIsUnreadable(m: WtMessage)
    requires |m.messageBody| >= 820 && forall i :: 0 <= i < |m.messageBody| ==> Json.IsOddControl(m.messageBody[i])
    ensures !Readable(m)
  {
    OddTextGrows(m.messageBody);
  }

  // A message of the ceo to all with 820 control bytes in its body.
  function OddMessage(): WtMessage {
    WtMessage(0, "phase0", "ceo", "all", "chat", seq(820, i => 1 as char), 1, 0)
  }

  lemma LineIsShort(m: WtMessage)
    requires |Json.IntText(m.messageId)| <= 18 && |Json.IntText(m.createdAtUnixMs)| <= 18 && |Json.IntText(m.replyToMessageId)| <= 18
    requires |Json.Escaped(m.roomName)| <= 130 && |Json.Escaped(m.senderName)| <= 130 && |Json.Escaped(m.targetName)| <= 130
    requires |Json.Escaped(m.messageType)| <= 130 && |Json.Escaped(m.messageBody)| <= 4950
    ensures |Line(m)| < JSON_SIZE
  {
    hide Json.Escaped, Json.RenderFields, Json.NatText, Json.IntText;
    var fs := Fields(m);
    assert |"messageId"| == 9 && |"roomName"| == 8 && |"senderName"| == 10 && |"targetName"| == 10;
    assert |"messageType"| == 11 && |"messageBody"| == 11 && |"createdAtUnixMs"| == 15 && |"replyToMessageId"| == 16;
    assert |Json.RenderField(fs[0])| <= 200 && |Json.RenderField(fs[1])| <= 200 && |Json.RenderField(fs[2])| <= 200;
    assert |Json.RenderField(fs[3])| <= 200 && |Json.RenderField(fs[4])| <= 200;
    assert |Json.RenderField(fs[5])| <= 5000;
    assert |Json.RenderField(fs[6])| <= 200 && |Json.RenderField(fs[7])| <= 200;
    Json.RenderFieldsLength(fs, 5);
  }

  lemma OddMessagePrints(m: WtMessage)
    requires m == OddMessage().(messageId := 1)
    ensures FitsStruct(m) && Prints(m, JSON_SIZE)
  {
    hide Json.Escaped, Line;
    Json.EscapedLength("phase0");
    Json.EscapedLength("ceo");
    Json.EscapedLength("all");
    Json.EscapedLength("chat");
    Json.EscapedLength(m.messageBody);
    assert |Json.NatText(1)| == 1 && |Json.NatText(0)| == 1;
    LineIsShort(m);
  }

  /**
   * Such a message is accepted: from an empty log it is printed as message 1, which no reader sees, and whatever is
   * appended next is numbered 1 again.
   */
  lemma OddMessageRepeatsItsId(now: int, next: WtMessage, later: int)
    ensures var m := OddMessage();
            && FitsStruct(m) && !Readable(m) && Prints(NewMessage("", m, now), JSON_SIZE)
            && NewMessage("", m, now).messageId == 1 && MessagesIn(Appended("", m, now)) == []
            && NewMessage(Appended("", m, now), next, later).messageId == 1
  {
    hide Prints, Readable, MessagesIn, OddMessage;
    var m := OddMessage();
    OddMessageStamped(now);
    NextIdIsFreshIff("", m, now, next, later);
    AppendedMessages("", m, now);
    NoMessages();
  }

  lemma OddMessageStamped(now: int)
    ensures var m := OddMessage();
            && FitsStruct(m) && !Readable(m) && NewMessage("", m, now) == m.(messageId := 1)
            && Prints(NewMessage("", m, now), JSON_SIZE)
  {
    hide Prints, Readable, MessagesIn;
    NoMessages();
    NoMaxId(0);
    OddBodyIsUnreadable(OddMessage());
    OddMessagePrints(OddMessage().(messageId := 1));
  }

  lemma {:induction false} OddTextGrows(text: string)
    requires forall i :: 0 <= i < |text| ==> Json.IsOddControl(text[i])
    ensures |Json.Recoded(text)| == 5 * |text|
  {
    if text != "" {
      OddTextGrows(text[1..]);
    }
  }

  // ----- The event stream -----

  const BATCH: nat := 64

  // The message part of handleEvents for one client.
  class EventStream {
    var lastSentId: int
    var sent: seq<WtMessage>

    constructor ()
      ensures lastSentId == 0 && sent == []
    {
      lastSentId, sent := 0, [];
    }

    // One tick.
    method SendNewMessages(log: RoomLog) returns (count: nat)
      modifies this
      ensures var news := FirstAfter(MessagesIn(log.text), old(lastSentId), BATCH);
              && sent == old(sent) + news && count == |news|
              && lastSentId == if news == [] then old(lastSentId) else news[|news| - 1].messageId
    {
      hide MessagesIn, FirstAfter;
      var messages := new WtMessage[BATCH](_ => WtMessage(0, "", "", "", "", "", 0, 0));
      count := log.ReadMessagesAfter(lastSentId, messages);
      ghost var before, batch := sent, messages[..count];
      assert before + batch[..0] == before;
      for index := 0 to count
        modifies this
        invariant messages[..count] == batch && sent == before + batch[..index]
        invariant lastSentId == if index == 0 then old(lastSentId) else batch[index - 1].messageId
      {
        sent := sent + [messages[index]];
        lastSentId := messages[index].messageId;
        assert batch[..index + 1] == batch[..index] + [batch[index]];
      }
      assert batch[..count] == batch;
    }
  }

  datatype Event = Post(posting: Posting) | Tick

  datatype Stream = Stream(posts: seq<Posting>, sent: seq<WtMessage>, lastSentId: int)

  // Any interleaving of appends and ticks, from an empty log and a client that connects to it.
  function Run(events: seq<Event>): Stream {
    if events == [] then Stream([], [], 0)
    else
      var n := |events| - 1;
      var s := Run(events[..n]);
      match events[n]
      case Post(p) => s.(posts := s.posts + [p])
      case Tick =>
        var news := FirstAfter(MessagesIn(LogText(s.posts)), s.lastSentId, BATCH);
        Stream(s.posts, s.sent + news, if news == [] then s.lastSentId else news[|news| - 1].messageId)
  }

  lemma {:induction false} AllAfter(ms: seq<WtMessage>, id: int, room: nat)
    requires forall k :: 0 <= k < |ms| ==> ms[k].messageId > id
    ensures FirstAfter(ms, id, room) == ms[..if room < |ms| then room else |ms|]
  {
    if ms != [] && room > 0 {
      AllAfter(ms[1..], id, room - 1);
      assert ms == [ms[0]] + ms[1..];
    }
  }

  lemma {:induction false} FirstAfterNumbered(ms: seq<WtMessage>, base: int, k: nat, room: nat)
    requires NumberedFrom(ms, base) && k <= |ms|
    ensures FirstAfter(ms, base + k, room) == ms[k..if k + room < |ms| then k + room else |ms|]
  {
    hide FirstAfter, NumberedFrom;
    if k == 0 {
      AllNumberedAfter(ms, base);
      AllAfter(ms, base, room);
    } else {
      NumberedTail(ms, base);
      FirstAfterSkips(ms, base + k, room);
      FirstAfterNumbered(ms[1..], base + 1, k - 1, room);
      assert ms[1..][k - 1..] == ms[k..];
    }
  }

  lemma AllNumberedAfter(ms: seq<WtMessage>, base: int)
    requires NumberedFrom(ms, base)
    ensures forall k :: 0 <= k < |ms| ==> ms[k].messageId > base
  {
  }

  lemma NumberedTail(ms: seq<WtMessage>, base: int)
    requires ms != [] && NumberedFrom(ms, base)
    ensures ms[0].messageId == base + 1 && NumberedFrom(ms[1..], base + 1)
  {
  }

  lemma FirstAfterSkips(ms: seq<WtMessage>, id: int, room: nat)
    requires ms != [] && ms[0].messageId <= id
    ensures FirstAfter(ms, id, room) == FirstAfter(ms[1..], id, room)
  {
  }

  // What the client was sent is the start of what the readers see, and the last id says how far it got.
  predicate InStep(s: Stream, ms: seq<WtMessage>) { s.lastSentId == |s.sent| && s.sent <= ms }

  lemma TickSendsTheNext(s: Stream, ms: seq<WtMessage>)
    requires NumberedFrom(ms, 0) && InStep(s, ms)
    ensures var news := FirstAfter(ms, s.lastSentId, BATCH);
            var next := Stream(s.posts, s.sent + news, if news == [] then s.lastSentId else news[|news| - 1].messageId);
            && InStep(next, ms)
            && |next.sent| == if |s.sent| + BATCH < |ms| then |s.sent| + BATCH else |ms|
  {
    FirstAfterNumbered(ms, 0, |s.sent|, BATCH);
  }

  function Posts(events: seq<Event>): seq<Posting> { Run(events).posts }

  predicate AllReadable(events: seq<Event>) {
    forall i :: 0 <= i < |events| && events[i].Post? ==> Readable(events[i].posting.message)
  }

  lemma {:induction false} PostsAreReadable(events: seq<Event>)
    requires AllReadable(events)
    ensures forall i :: 0 <= i < |Posts(events)| ==> Readable(Posts(events)[i].message)
  {
    if events != [] {
      hide Readable, FirstAfter, MessagesIn;
      var n := |events| - 1;
      PostsAreReadable(events[..n]);
      var before := Posts(events[..n]);
      assert Posts(events) == if events[n].Post? then before + [events[n].posting] else before;
      assert events[n].Post? ==> Readable(events[n].posting.message);
    }
  }

  lemma StoredGrows(posts: seq<Posting>, p: Posting)
    ensures RecoveredAll(Stored(posts)) <= RecoveredAll(Stored(posts + [p]))
  {
    hide Prints, Recovered;
    assert (posts + [p])[..|posts|] == posts;
  }

  lemma PostInRun(events: seq<Event>, p: Posting)
    requires InStep(Run(events), RecoveredAll(Stored(Posts(events))))
    ensures InStep(Run(events + [Post(p)]), RecoveredAll(Stored(Posts(events + [Post(p)]))))
  {
    hide Stored, MessagesIn, FirstAfter, LogText, RecoveredAll;
    assert (events + [Post(p)])[..|events|] == events;
    StoredGrows(Posts(events), p);
    var before, after := RecoveredAll(Stored(Posts(events))), RecoveredAll(Stored(Posts(events) + [p]));
    assert after[..|before|][..|Run(events).sent|] == after[..|Run(events).sent|];
  }

  lemma TickInRun(events: seq<Event>)
    requires AllReadable(events)
    requires InStep(Run(events), RecoveredAll(Stored(Posts(events))))
    ensures Posts(events + [Tick]) == Posts(events)
    ensures var ms := RecoveredAll(Stored(Posts(events)));
            && InStep(Run(events + [Tick]), ms)
            && |Run(events + [Tick]).sent| == if |Run(events).sent| + BATCH < |ms| then |Run(events).sent| + BATCH else |ms|
  {
    hide Stored, MessagesIn, FirstAfter, LogText, RecoveredAll, NumberedFrom;
    assert (events + [Tick])[..|events|] == events;
    PostsAreReadable(events);
    IdsAreSequential(Posts(events));
    RecoveredKeepsIds(Stored(Posts(events)));
    TickSendsTheNext(Run(events), RecoveredAll(Stored(Posts(events))));
  }

  lemma {:induction false} StreamStaysInStep(events: seq<Event>)
    requires AllReadable(events)
    ensures InStep(Run(events), RecoveredAll(Stored(Posts(events))))
  {
    if events == [] {
      assert Run(events).sent == [];
    } else {
      hide *;
      var n := |events| - 1;
      var before, e := events[..n], events[n];
      assert events == before + [e];
      AllReadableBefore(before, e);
      StreamStaysInStep(before);
      if e.Post? {
        PostInRun(before, e.posting);
        assert e == Post(e.posting);
      } else {
        TickInRun(before);
        assert e == Tick;
      }
    }
  }

  lemma AllReadableBefore(events: seq<Event>, e: Event)
    requires AllReadable(events + [e])
    ensures AllReadable(events)
  {
    hide Readable;
    assert forall i :: 0 <= i < |events| ==> (events + [e])[i] == events[i];
  }

  /**
   * A client that polls in batches of 64 by last id receives every message exactly once and in order: at every
   * moment it was sent a prefix of the stored messages, and each tick sends the next 64 of them, or all that are left.
   */
  lemma DeliveredOnceInOrder(events: seq<Event>)
    requires AllReadable(events)
    ensures var ms, n := RecoveredAll(Stored(Posts(events))), |Run(events).sent|;
            && Run(events).sent <= ms
            && Run(events + [Tick]).sent == ms[..if n + 64 < |ms| then n + 64 else |ms|]
  {
    hide Stored, Run, RecoveredAll;
    StreamStaysInStep(events);
    TickInRun(events);
  }
}
