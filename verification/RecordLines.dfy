/**
 * The ledger lines that src/wt_task_store.c prints, and what its scanners read from them: the typed records of
 * the Ledger module are exactly what every reader sees of a printed event.
 */
module RecordLines {
  import opened Options
  import opened Json
  import opened Ledger

  // WT_TASK_ID_SIZE, WT_TASK_AGENT_SIZE, WT_TASK_STATUS_SIZE and the scanners' schema and eventType arrays.
  const ID_SIZE: nat := 128
  const AGENT_SIZE: nat := 64
  const STATUS_SIZE: nat := 32
  const SCHEMA_SIZE: nat := 128
  const TYPE_SIZE: nat := 32

  const EVENT_SCHEMA := "woventeam.task_event.v0.1"
  const KILL_SCHEMA := "woventeam.kill_event.v0.1"

  function StatusText(s: Status): string {
    match s
    case Queued => "queued"
    case Assigned => "assigned"
    case Leased => "leased"
    case Running => "running"
    case BlockedStatus => "blocked"
    case Complete => "complete"
    case Failed => "failed"
    case Cancelled => "cancelled"
    case Closed => "closed"
    case NoText => ""
    case Other(text) => text
  }

  function StatusOf(text: string): Status {
    if text == "queued" then Queued
    else if text == "assigned" then Assigned
    else if text == "leased" then Leased
    else if text == "running" then Running
    else if text == "blocked" then BlockedStatus
    else if text == "complete" then Complete
    else if text == "failed" then Failed
    else if text == "cancelled" then Cancelled
    else if text == "closed" then Closed
    else if text == "" then NoText
    else Other(text)
  }

  function TypeOf(text: string): EventType {
    if text == "lease" then Lease
    else if text == "lease_renewal" then LeaseRenewal
    else if text == "reclaim" then Reclaim
    else if text == "status" then StatusChange
    else if text == "routing" then Routing
    else if text == "assignment" then Assignment
    else OtherEvent
  }

  // ----- What the scanners read -----

  // The record that the reads of one line make.
  function RecordFrom(
      schema: Option<string>, taskId: Option<string>, eventType: Option<string>, status: Option<string>,
      agent: Option<string>, expires: Option<int>, attempt: Option<int>): Option<Record>
  {
    if schema.None? || taskId.None? then None
    else if schema.value == KILL_SCHEMA then Some(Kill(taskId.value))
    else if schema.value == EVENT_SCHEMA then
      Some(Event(taskId.value, TypeOf(eventType.GetOr("")),
                 if status.Some? then Some(StatusOf(status.value)) else None, agent, expires, attempt))
    else None
  }

  // An event or kill record as the scanners read it from a line.
  function Decoded(line: string): Option<Record> {
    RecordFrom(
      ReadString(line, "schema", SCHEMA_SIZE), ReadString(line, "taskId", ID_SIZE), ReadString(line, "eventType", TYPE_SIZE),
      ReadString(line, "status", STATUS_SIZE), ReadString(line, "assignedAgent", AGENT_SIZE),
      ReadLong(line, "leaseExpiresAtUnixMs"), ReadLong(line, "attempt"))
  }

  // ----- Reading a printed line by its fields -----

  function FieldOf(fs: seq<Field>, key: string): Option<Value> {
    if fs == [] then None else if fs[0].key == key then Some(fs[0].value) else FieldOf(fs[1..], key)
  }

  function TextOf(fs: seq<Field>, key: string, size: nat): Option<string> {
    match FieldOf(fs, key)
    case Some(Text(text)) => if |Recoded(text)| < size then Some(Recoded(text)) else None
    case _ => None
  }

  function NumberOf(fs: seq<Field>, key: string): Option<int> {
    match FieldOf(fs, key)
    case Some(Number(n)) => Some(n)
    case _ => None
  }

  lemma {:induction false} FieldOfFirst(fs: seq<Field>, key: string)
    ensures var i := FirstField(fs, key);
            && i <= |fs|
            && FieldOf(fs, key) == (if i < |fs| then Some(fs[i].value) else None)
            && (i < |fs| ==> fs[i].key == key)
            && forall j :: 0 <= j < i ==> fs[j].key != key
  {
    if fs != [] && fs[0].key != key {
      FieldOfFirst(fs[1..], key);
    }
  }

  lemma FieldOfAt(fs: seq<Field>, i: nat)
    requires i < |fs| && forall j :: 0 <= j < i ==> fs[j].key != fs[i].key
    ensures FieldOf(fs, fs[i].key) == Some(fs[i].value)
  {
    FieldOfFirst(fs, fs[i].key);
  }

  lemma FieldOfNone(fs: seq<Field>, key: string)
    requires forall j :: 0 <= j < |fs| ==> fs[j].key != key
    ensures FieldOf(fs, key) == None
  {
    FieldOfFirst(fs, key);
  }

  // The record that the fields make.
  function FieldsDecoded(fs: seq<Field>): Option<Record> {
    RecordFrom(
      TextOf(fs, "schema", SCHEMA_SIZE), TextOf(fs, "taskId", ID_SIZE), TextOf(fs, "eventType", TYPE_SIZE),
      TextOf(fs, "status", STATUS_SIZE), TextOf(fs, "assignedAgent", AGENT_SIZE),
      NumberOf(fs, "leaseExpiresAtUnixMs"), NumberOf(fs, "attempt"))
  }

  lemma NothingAfterTheBrace(key: string, tail: string)
    requires IsKey(key) && (tail == "" || tail == "\n")
    ensures FindValue("}" + tail, key) == None
  {
    assert ("}" + tail)[1..] == tail;
    if tail == "\n" {
      assert "\n"[1..] == "";
    }
  }

  // The lookup finds the field, or nothing.
  lemma FindOnLine(fs: seq<Field>, key: string, tail: string)
    requires fs != [] && AllKeys(fs) && IsKey(key) && (tail == "" || tail == "\n")
    ensures var i := FirstField(fs, key);
            && i <= |fs|
            && FindValue(Render(fs) + tail, key) ==
               if i < |fs| then Some(RenderValue(fs[i].value) + AfterFirst(fs[i..], "}" + tail)) else None
  {
    hide FindValue, RenderFields, RenderValue, AfterFirst, IsKey;
    FieldOfFirst(fs, key);
    assert Render(fs) + tail == ['{'] + (RenderFields(fs) + ("}" + tail));
    FindSkips('{', RenderFields(fs) + ("}" + tail), key);
    FindInFields(fs, key, "}" + tail);
    NothingAfterTheBrace(key, tail);
  }

  lemma NumberIsNoText(n: int, rest: string)
    ensures IntText(n) + rest != "" && (IntText(n) + rest)[0] != '"'
  {
  }

  lemma TextIsNoNumber(text: string, rest: string)
    ensures ParseLong("\"" + text + rest) == None
  {
    var s := "\"" + text + rest;
    assert s[0] == '"' && SkipSpaces(s) == s;
  }

  lemma ReadTextOnLine(fs: seq<Field>, key: string, size: nat, tail: string)
    requires fs != [] && AllKeys(fs) && IsKey(key) && (tail == "" || tail == "\n")
    ensures ReadString(Render(fs) + tail, key, size) == TextOf(fs, key, size)
  {
    hide FindValue, Render, IsKey, Recoded, IntText;
    var i := FirstField(fs, key);
    FieldOfFirst(fs, key);
    FindOnLine(fs, key, tail);
    if i < |fs| {
      match fs[i].value
      case Text(text) => ReadBackOfRender(fs, i, key, size, tail);
      case Number(n) => NumberIsNoText(n, AfterFirst(fs[i..], "}" + tail));
    }
  }

  /** Reading a key of a printed line gives what its first field with that key says, and nothing when there is none. */
  lemma ReadOnLine(fs: seq<Field>, key: string, size: nat, tail: string)
    requires fs != [] && AllKeys(fs) && IsKey(key) && (tail == "" || tail == "\n")
    ensures ReadString(Render(fs) + tail, key, size) == TextOf(fs, key, size)
    ensures ReadLong(Render(fs) + tail, key) == NumberOf(fs, key)
  {
    hide FindValue, Render, IsKey, ReadString, TextOf, ParseLong, IntText, Escaped, AfterFirst;
    var i := FirstField(fs, key);
    FieldOfFirst(fs, key);
    ReadTextOnLine(fs, key, size, tail);
    FindOnLine(fs, key, tail);
    if i < |fs| {
      var rest := AfterFirst(fs[i..], "}" + tail);
      match fs[i].value
      case Text(text) =>
        assert RenderValue(fs[i].value) + rest == "\"" + Escaped(text) + ("\"" + rest);
        TextIsNoNumber(Escaped(text), "\"" + rest);
      case Number(n) => ReadLongOfRender(fs, i, key, tail);
    }
  }

  lemma ReaderKeys()
    ensures IsKey("schema") && IsKey("taskId") && IsKey("eventType") && IsKey("status") && IsKey("assignedAgent")
    ensures IsKey("attempt") && IsKey("leaseExpiresAtUnixMs")
  {
  }

  lemma DecodedByFields(fs: seq<Field>, tail: string)
    requires fs != [] && AllKeys(fs) && (tail == "" || tail == "\n")
    ensures Decoded(Render(fs) + tail) == FieldsDecoded(fs)
  {
    hide Render, IsKey, ReadString, ReadLong, TextOf, NumberOf, AllKeys;
    ReaderKeys();
    ReadOnLine(fs, "schema", SCHEMA_SIZE, tail);
    ReadOnLine(fs, "taskId", ID_SIZE, tail);
    ReadOnLine(fs, "eventType", TYPE_SIZE, tail);
    ReadOnLine(fs, "status", STATUS_SIZE, tail);
    ReadOnLine(fs, "assignedAgent", AGENT_SIZE, tail);
    ReadOnLine(fs, "attempt", 0, tail);
    ReadOnLine(fs, "leaseExpiresAtUnixMs", 0, tail);
  }

  // ----- The writers -----

  // "wt-agent@" before the escaped name is the escape of the whole text.
  function LeaseFields(
      kind: string, status: string, t: string, agent: string, message: string, attempt: int, expires: int, now: int): (fs: seq<Field>)
    ensures fs != []
  {
    [ Field("schema", Text("woventeam.task_event.v0.1")), Field("taskId", Text(t)), Field("eventType", Text(kind)),
      Field("status", Text(status)), Field("assignedAgent", Text(agent)), Field("message", Text(message)),
      Field("createdBy", Text("wt-agent@" + agent)), Field("attempt", Number(attempt)),
      Field("leaseExpiresAtUnixMs", Number(expires)), Field("createdAtUnixMs", Number(now)) ]
  }

  function ReclaimFields(t: string, previousAgent: string, reason: string, message: string, reclaimedBy: string, now: int): (fs: seq<Field>)
    ensures fs != []
  {
    [ Field("schema", Text("woventeam.task_event.v0.1")), Field("taskId", Text(t)), Field("eventType", Text("reclaim")),
      Field("status", Text("queued")), Field("assignedAgent", Text(previousAgent)), Field("reclaimReason", Text(reason)),
      Field("message", Text(message)), Field("createdBy", Text(reclaimedBy)), Field("createdAtUnixMs", Number(now)) ]
  }

  // retryCause is printed only when it is not empty.
  function StatusFields(t: string, status: string, message: string, retryCause: string, createdBy: string, now: int): (fs: seq<Field>)
    ensures fs != []
  {
    [ Field("schema", Text("woventeam.task_event.v0.1")), Field("taskId", Text(t)), Field("eventType", Text("status")),
      Field("status", Text(status)), Field("message", Text(message)) ] +
    (if retryCause == "" then [] else [Field("retryCause", Text(retryCause))]) +
    [ Field("createdBy", Text(createdBy)), Field("createdAtUnixMs", Number(now)) ]
  }

  function KillFields(t: string, reason: string, createdBy: string, now: int): (fs: seq<Field>)
    ensures fs != []
  {
    [ Field("schema", Text("woventeam.kill_event.v0.1")), Field("taskId", Text(t)), Field("reason", Text(reason)),
      Field("createdBy", Text(createdBy)), Field("createdAtUnixMs", Number(now)) ]
  }

  lemma WriterKeys()
    ensures IsKey("message") && IsKey("createdBy") && IsKey("createdAtUnixMs") && IsKey("retryCause") && IsKey("reclaimReason") && IsKey("reason")
  {
  }

  // A text that fits its array and is read back as it was printed.
  predicate Plain(text: string, size: nat) { Clean(text) && |text| < size }

  lemma TextAt(fs: seq<Field>, i: nat, size: nat)
    requires i < |fs| && fs[i].value.Text? && Plain(fs[i].value.text, size)
    requires forall j :: 0 <= j < i ==> fs[j].key != fs[i].key
    ensures TextOf(fs, fs[i].key, size) == Some(fs[i].value.text)
  {
    FieldOfAt(fs, i);
    RecodedOfClean(fs[i].value.text);
  }

  lemma NumberAt(fs: seq<Field>, i: nat)
    requires i < |fs| && fs[i].value.Number?
    requires forall j :: 0 <= j < i ==> fs[j].key != fs[i].key
    ensures NumberOf(fs, fs[i].key) == Some(fs[i].value.n)
  {
    FieldOfAt(fs, i);
  }

  lemma Missing(fs: seq<Field>, key: string, size: nat)
    requires forall j :: 0 <= j < |fs| ==> fs[j].key != key
    ensures TextOf(fs, key, size) == None && NumberOf(fs, key) == None
  {
    FieldOfNone(fs, key);
  }

  lemma SchemasAreClean()
    ensures Plain(EVENT_SCHEMA, SCHEMA_SIZE) && Plain(KILL_SCHEMA, SCHEMA_SIZE) && EVENT_SCHEMA != KILL_SCHEMA
  {
  }

  lemma LeaseTextsAreClean()
    ensures Plain("lease", TYPE_SIZE) && Plain("lease_renewal", TYPE_SIZE) && Plain("leased", STATUS_SIZE) && Plain("running", STATUS_SIZE)
  {
  }

  lemma OtherTextsAreClean()
    ensures Plain("reclaim", TYPE_SIZE) && Plain("queued", STATUS_SIZE) && Plain("status", TYPE_SIZE)
  {
  }

  lemma LeaseFieldsDecode(kind: string, status: string, t: string, agent: string, message: string, attempt: int, expires: int, now: int)
    requires Plain(t, ID_SIZE) && Plain(agent, AGENT_SIZE) && Plain(kind, TYPE_SIZE) && Plain(status, STATUS_SIZE)
    ensures var fs := LeaseFields(kind, status, t, agent, message, attempt, expires, now);
            && AllKeys(fs)
            && FieldsDecoded(fs) == Some(Event(t, TypeOf(kind), Some(StatusOf(status)), Some(agent), Some(expires), Some(attempt)))
  {
    hide IsKey, TypeOf, StatusOf, Plain, TextOf, NumberOf;
    var fs := LeaseFields(kind, status, t, agent, message, attempt, expires, now);
    ReaderKeys();
    WriterKeys();
    SchemasAreClean();
    TextAt(fs, 0, SCHEMA_SIZE);
    TextAt(fs, 1, ID_SIZE);
    TextAt(fs, 2, TYPE_SIZE);
    TextAt(fs, 3, STATUS_SIZE);
    TextAt(fs, 4, AGENT_SIZE);
    NumberAt(fs, 7);
    NumberAt(fs, 8);
  }

  lemma ReclaimFieldsDecode(t: string, previousAgent: string, reason: string, message: string, reclaimedBy: string, now: int)
    requires Plain(t, ID_SIZE) && Plain(previousAgent, AGENT_SIZE)
    ensures var fs := ReclaimFields(t, previousAgent, reason, message, reclaimedBy, now);
            && AllKeys(fs)
            && FieldsDecoded(fs) == Some(Event(t, TypeOf("reclaim"), Some(StatusOf("queued")), Some(previousAgent), None, None))
  {
    hide IsKey, TypeOf, StatusOf, Plain, TextOf, NumberOf;
    var fs := ReclaimFields(t, previousAgent, reason, message, reclaimedBy, now);
    ReaderKeys();
    WriterKeys();
    SchemasAreClean();
    OtherTextsAreClean();
    TextAt(fs, 0, SCHEMA_SIZE);
    TextAt(fs, 1, ID_SIZE);
    TextAt(fs, 2, TYPE_SIZE);
    TextAt(fs, 3, STATUS_SIZE);
    TextAt(fs, 4, AGENT_SIZE);
    Missing(fs, "leaseExpiresAtUnixMs", 0);
    Missing(fs, "attempt", 0);
  }

  lemma StatusFieldsDecode(t: string, status: string, message: string, retryCause: string, createdBy: string, now: int)
    requires Plain(t, ID_SIZE) && Plain(status, STATUS_SIZE)
    ensures var fs := StatusFields(t, status, message, retryCause, createdBy, now);
            && AllKeys(fs)
            && FieldsDecoded(fs) == Some(Event(t, TypeOf("status"), Some(StatusOf(status)), None, None, None))
  {
    hide IsKey, TypeOf, StatusOf, Plain, TextOf, NumberOf;
    var fs := StatusFields(t, status, message, retryCause, createdBy, now);
    ReaderKeys();
    WriterKeys();
    SchemasAreClean();
    OtherTextsAreClean();
    TextAt(fs, 0, SCHEMA_SIZE);
    TextAt(fs, 1, ID_SIZE);
    TextAt(fs, 2, TYPE_SIZE);
    TextAt(fs, 3, STATUS_SIZE);
    Missing(fs, "assignedAgent", AGENT_SIZE);
    Missing(fs, "leaseExpiresAtUnixMs", 0);
    Missing(fs, "attempt", 0);
  }

  lemma KillFieldsDecode(t: string, reason: string, createdBy: string, now: int)
    requires Plain(t, ID_SIZE)
    ensures AllKeys(KillFields(t, reason, createdBy, now)) && FieldsDecoded(KillFields(t, reason, createdBy, now)) == Some(Kill(t))
  {
    hide IsKey, Plain, TextOf, NumberOf;
    var fs := KillFields(t, reason, createdBy, now);
    ReaderKeys();
    WriterKeys();
    SchemasAreClean();
    TextAt(fs, 0, SCHEMA_SIZE);
    TextAt(fs, 1, ID_SIZE);
  }

  // The status and event type texts of the writers stand for themselves.
  lemma TextsOfStatuses(s: Status)
    requires !s.Other?
    ensures StatusOf(StatusText(s)) == s && Plain(StatusText(s), STATUS_SIZE)
  {
  }

  lemma TextsOfTypes()
    ensures TypeOf("lease") == Lease && TypeOf("lease_renewal") == LeaseRenewal && TypeOf("reclaim") == Reclaim && TypeOf("status") == StatusChange
  {
  }

  /**
   * Every scanner reads a printed lease, renewal, reclaim, status or kill line as the record it stands for, whatever
   * the message, reason, cause and actor texts hold, provided the id and the agent are clean and fit their arrays.
   */
  lemma LeaseLineReadsBack(t: string, agent: string, message: string, attempt: int, expires: int, now: int, tail: string)
    requires Plain(t, 128) && Plain(agent, 64) && (tail == "" || tail == "\n")
    ensures Decoded(Render(LeaseFields("lease", "leased", t, agent, message, attempt, expires, now)) + tail) ==
            Some(LeaseRecord(t, agent, attempt, expires))
    ensures Decoded(Render(LeaseFields("lease_renewal", "running", t, agent, message, attempt, expires, now)) + tail) ==
            Some(LeaseRenewalRecord(t, agent, attempt, expires))
  {
    hide Decoded, FieldsDecoded, Render, LeaseFields, TypeOf, StatusOf, Plain, AllKeys;
    LeaseTextsAreClean();
    TextsOfTypes();
    TextsOfStatuses(Leased);
    TextsOfStatuses(Running);
    QueuedText();
    LeaseFieldsDecode("lease", "leased", t, agent, message, attempt, expires, now);
    LeaseFieldsDecode("lease_renewal", "running", t, agent, message, attempt, expires, now);
    DecodedByFields(LeaseFields("lease", "leased", t, agent, message, attempt, expires, now), tail);
    DecodedByFields(LeaseFields("lease_renewal", "running", t, agent, message, attempt, expires, now), tail);
  }

  /** The same for reclaim, status and kill lines, with any clean status text that fits, and the fields they do not carry. */
  lemma OtherLinesReadBack(
      t: string, previousAgent: string, status: string, reason: string, message: string, retryCause: string, actor: string, now: int, tail: string)
    requires Plain(t, 128) && Plain(previousAgent, 64) && Plain(status, 32) && (tail == "" || tail == "\n")
    ensures Decoded(Render(ReclaimFields(t, previousAgent, reason, message, actor, now)) + tail) == Some(ReclaimRecord(t, previousAgent))
    ensures Decoded(Render(StatusFields(t, status, message, retryCause, actor, now)) + tail) == Some(StatusRecord(t, StatusOf(status)))
    ensures Decoded(Render(KillFields(t, reason, actor, now)) + tail) == Some(Kill(t))
  {
    hide Decoded, FieldsDecoded, Render, ReclaimFields, StatusFields, KillFields, TypeOf, StatusOf, Plain, AllKeys;
    TextsOfTypes();
    TextsOfStatuses(Queued);
    QueuedText();
    ReclaimFieldsDecode(t, previousAgent, reason, message, actor, now);
    StatusFieldsDecode(t, status, message, retryCause, actor, now);
    KillFieldsDecode(t, reason, actor, now);
    DecodedByFields(ReclaimFields(t, previousAgent, reason, message, actor, now), tail);
    DecodedByFields(StatusFields(t, status, message, retryCause, actor, now), tail);
    DecodedByFields(KillFields(t, reason, actor, now), tail);
  }

  lemma LongTextAt(fs: seq<Field>, i: nat, size: nat)
    requires i < |fs| && fs[i].value.Text? && |Recoded(fs[i].value.text)| >= size
    requires forall j :: 0 <= j < i ==> fs[j].key != fs[i].key
    ensures TextOf(fs, fs[i].key, size) == None
  {
    hide FieldOf;
    FieldOfAt(fs, i);
  }

  /** What does not fit when read back: with a long id the line is no record, and a long agent or status is missing from it. */
  lemma LongTextsAreNotRead(
      kind: string, status: string, t: string, agent: string, message: string, attempt: int, expires: int, now: int, tail: string)
    requires tail == "" || tail == "\n"
    ensures var record := Decoded(Render(LeaseFields(kind, status, t, agent, message, attempt, expires, now)) + tail);
            && (|Recoded(t)| >= 128 ==> record.None?)
            && (record.Some? && record.value.Event? && |Recoded(agent)| >= 64 ==> record.value.agent.None?)
            && (record.Some? && record.value.Event? && |Recoded(status)| >= 32 ==> record.value.status.None?)
            && (record.Some? && record.value.Event? && |Recoded(kind)| >= 32 ==> record.value.eventType == OtherEvent)
  {
    hide Decoded, IsKey, StatusOf, TextOf, NumberOf, Recoded, Render;
    var fs := LeaseFields(kind, status, t, agent, message, attempt, expires, now);
    ReaderKeys();
    WriterKeys();
    DecodedByFields(fs, tail);
    if |Recoded(t)| >= 128 {
      LongTextAt(fs, 1, 128);
    }
    if |Recoded(kind)| >= 32 {
      LongTextAt(fs, 2, 32);
    }
    if |Recoded(status)| >= 32 {
      LongTextAt(fs, 3, 32);
    }
    if |Recoded(agent)| >= 64 {
      LongTextAt(fs, 4, 64);
    }
  }

  // The routing records of src/wt_roomd.c, after an admission and after a reroute, which also names a host.
  function RoutingFields(t: string, status: string, agent: string, host: Option<string>, message: string, actor: string, now: int): (fs: seq<Field>)
    ensures fs != []
  {
    [ Field("schema", Text("woventeam.task_event.v0.1")), Field("taskId", Text(t)), Field("eventType", Text("routing")),
      Field("status", Text(status)), Field("assignedAgent", Text(agent)) ] +
    (if host.None? then [] else [Field("executionHost", Text(host.value))]) +
    [ Field("message", Text(message)), Field("createdBy", Text(actor)), Field("createdAtUnixMs", Number(now)) ]
  }

  // The review gate's record.
  function GateFields(t: string, status: string, message: string, actor: string, now: int): (fs: seq<Field>)
    ensures fs != []
  {
    [ Field("schema", Text("woventeam.task_event.v0.1")), Field("taskId", Text(t)), Field("eventType", Text("review_gate")),
      Field("status", Text(status)), Field("message", Text(message)), Field("createdBy", Text(actor)),
      Field("createdAtUnixMs", Number(now)) ]
  }

  lemma RoutingFieldsDecode(t: string, status: string, agent: string, host: Option<string>, message: string, actor: string, now: int)
    requires Plain(t, ID_SIZE) && Plain(agent, AGENT_SIZE) && Plain(status, STATUS_SIZE)
    ensures var fs := RoutingFields(t, status, agent, host, message, actor, now);
            && AllKeys(fs)
            && FieldsDecoded(fs) == Some(Event(t, TypeOf("routing"), Some(StatusOf(status)), Some(agent), None, None))
  {
    hide IsKey, TextOf, NumberOf, TypeOf, StatusOf, Plain;
    var fs := RoutingFields(t, status, agent, host, message, actor, now);
    ReaderKeys();
    WriterKeys();
    RoutingTextsAreClean();
    SchemasAreClean();
    TextAt(fs, 0, SCHEMA_SIZE);
    TextAt(fs, 1, ID_SIZE);
    TextAt(fs, 2, TYPE_SIZE);
    TextAt(fs, 3, STATUS_SIZE);
    TextAt(fs, 4, AGENT_SIZE);
    Missing(fs, "leaseExpiresAtUnixMs", 0);
    Missing(fs, "attempt", 0);
  }

  lemma GateFieldsDecode(t: string, status: string, message: string, actor: string, now: int)
    requires Plain(t, ID_SIZE) && Plain(status, STATUS_SIZE)
    ensures var fs := GateFields(t, status, message, actor, now);
            && AllKeys(fs)
            && FieldsDecoded(fs) == Some(Event(t, TypeOf("review_gate"), Some(StatusOf(status)), None, None, None))
  {
    hide IsKey, TextOf, NumberOf, TypeOf, StatusOf, Plain;
    var fs := GateFields(t, status, message, actor, now);
    ReaderKeys();
    WriterKeys();
    RoutingTextsAreClean();
    SchemasAreClean();
    TextAt(fs, 0, SCHEMA_SIZE);
    TextAt(fs, 1, ID_SIZE);
    TextAt(fs, 2, TYPE_SIZE);
    TextAt(fs, 3, STATUS_SIZE);
    Missing(fs, "assignedAgent", AGENT_SIZE);
    Missing(fs, "leaseExpiresAtUnixMs", 0);
    Missing(fs, "attempt", 0);
  }

  lemma RoutingTextsAreClean()
    ensures Plain("routing", TYPE_SIZE) && Plain("review_gate", TYPE_SIZE) && IsKey("executionHost")
  {
  }

  lemma RoutingTypes()
    ensures TypeOf("routing") == Routing && TypeOf("assignment") == Assignment && TypeOf("review_gate") == OtherEvent
  {
  }

  /** The same for the daemon's own events: both routing lines and the review gate's. */
  lemma RoutingLinesReadBack(t: string, agent: string, host: string, status: string, message: string, actor: string, now: int, tail: string)
    requires Plain(t, 128) && Plain(agent, 64) && Plain(status, 32) && (tail == "" || tail == "\n")
    ensures Decoded(Render(RoutingFields(t, "assigned", agent, None, message, actor, now)) + tail) ==
            Some(Event(t, Routing, Some(Assigned), Some(agent), None, None))
    ensures Decoded(Render(RoutingFields(t, "queued", agent, Some(host), message, actor, now)) + tail) == Some(RerouteRecord(t, agent))
    ensures Decoded(Render(GateFields(t, status, message, actor, now)) + tail) ==
            Some(Event(t, OtherEvent, Some(StatusOf(status)), None, None, None))
  {
    hide Decoded, FieldsDecoded, Render, RoutingFields, GateFields, TypeOf, StatusOf, Plain, AllKeys;
    RoutingTypes();
    TextsOfStatuses(Queued);
    TextsOfStatuses(Assigned);
    QueuedText();
    RoutingFieldsDecode(t, "assigned", agent, None, message, actor, now);
    RoutingFieldsDecode(t, "queued", agent, Some(host), message, actor, now);
    GateFieldsDecode(t, status, message, actor, now);
    DecodedByFields(RoutingFields(t, "assigned", agent, None, message, actor, now), tail);
    DecodedByFields(RoutingFields(t, "queued", agent, Some(host), message, actor, now), tail);
    DecodedByFields(GateFields(t, status, message, actor, now), tail);
  }

  lemma QueuedText()
    ensures StatusText(Queued) == "queued" && StatusText(Leased) == "leased" && StatusText(Running) == "running"
    ensures StatusText(Assigned) == "assigned"
  {
  }
}
