/** src/wt_message.c: a room message as one JSON line, printed and parsed. */
module Message {
  import opened Options
  import opened Json

  // WT_MESSAGE_NAME_SIZE, WT_MESSAGE_TYPE_SIZE, WT_MESSAGE_BODY_SIZE and WT_MESSAGE_JSON_SIZE.
  const NAME_SIZE: nat := 64
  const TYPE_SIZE: nat := 48
  const BODY_SIZE: nat := 4096
  const JSON_SIZE: nat := 8192

  datatype WtMessage = WtMessage(
    messageId: int,
    roomName: string,
    senderName: string,
    targetName: string,
    messageType: string,
    messageBody: string,
    createdAtUnixMs: int,
    replyToMessageId: int)

  // The texts of a WtMessage are C strings inside fixed arrays.
  predicate FitsStruct(m: WtMessage) {
    && |m.roomName| < NAME_SIZE && |m.senderName| < NAME_SIZE && |m.targetName| < NAME_SIZE
    && |m.messageType| < TYPE_SIZE && |m.messageBody| < BODY_SIZE
  }

  // No text holds a control byte other than \n, \r and \t.
  predicate CleanMessage(m: WtMessage) {
    Clean(m.roomName) && Clean(m.senderName) && Clean(m.targetName) && Clean(m.messageType) && Clean(m.messageBody)
  }

  function Fields(m: WtMessage): (fs: seq<Field>)
    ensures |fs| == 8
  {
    [ Field("messageId", Number(m.messageId)),
      Field("roomName", Text(m.roomName)),
      Field("senderName", Text(m.senderName)),
      Field("targetName", Text(m.targetName)),
      Field("messageType", Text(m.messageType)),
      Field("messageBody", Text(m.messageBody)),
      Field("createdAtUnixMs", Number(m.createdAtUnixMs)),
      Field("replyToMessageId", Number(m.replyToMessageId)) ]
  }

  function Line(m: WtMessage): string { Render(Fields(m)) }

  predicate Prints(m: WtMessage, bufferSize: nat) {
    && |Escaped(m.roomName)| + 1 <= NAME_SIZE * 2
    && |Escaped(m.senderName)| + 1 <= NAME_SIZE * 2
    && |Escaped(m.targetName)| + 1 <= NAME_SIZE * 2
    && |Escaped(m.messageType)| + 1 <= TYPE_SIZE * 2
    && |Escaped(m.messageBody)| + 1 <= BODY_SIZE * 2
    && |Line(m)| < bufferSize
  }

  // wtMessageToJson: every text goes through wtJsonEscape into a double-size array, then snprintf.
  method ToJson(m: WtMessage, bufferSize: nat) returns (line: Option<string>)
    ensures line == if Prints(m, bufferSize) then Some(Line(m)) else None
    ensures line.Some? <==>
              && |Escaped(m.roomName)| <= 127 && |Escaped(m.senderName)| <= 127 && |Escaped(m.targetName)| <= 127
              && |Escaped(m.messageType)| <= 95 && |Escaped(m.messageBody)| <= 8191 && |Line(m)| < bufferSize
  {
    var roomName := Escape(m.roomName, NAME_SIZE * 2);
    var senderName := Escape(m.senderName, NAME_SIZE * 2);
    var targetName := Escape(m.targetName, NAME_SIZE * 2);
    var messageType := Escape(m.messageType, TYPE_SIZE * 2);
    var messageBody := Escape(m.messageBody, BODY_SIZE * 2);
    if roomName.None? || senderName.None? || targetName.None? || messageType.None? || messageBody.None? {
      return None;
    }
    var written := Line(m);
    return if |written| < bufferSize then Some(written) else None;
  }

  // What the eight reads of wtMessageFromJsonLine make of a line.
  function Parsed(line: string): Option<WtMessage> {
    var messageId := ReadLong(line, "messageId");
    var roomName := ReadString(line, "roomName", NAME_SIZE);
    var senderName := ReadString(line, "senderName", NAME_SIZE);
    var targetName := ReadString(line, "targetName", NAME_SIZE);
    var messageType := ReadString(line, "messageType", TYPE_SIZE);
    var messageBody := ReadString(line, "messageBody", BODY_SIZE);
    var createdAtUnixMs := ReadLong(line, "createdAtUnixMs");
    var replyToMessageId := ReadLong(line, "replyToMessageId");
    if messageId.Some? && roomName.Some? && senderName.Some? && targetName.Some? && messageType.Some? &&
       messageBody.Some? && createdAtUnixMs.Some? && replyToMessageId.Some?
    then Some(WtMessage(messageId.value, roomName.value, senderName.value, targetName.value, messageType.value,
                        messageBody.value, createdAtUnixMs.value, replyToMessageId.value))
    else None
  }

  // wtMessageFromJsonLine: the reads stop at the first field that is missing or does not fit.
  method FromJsonLine(line: string) returns (message: Option<WtMessage>)
    ensures message == Parsed(line)
  {
    var m := WtMessage(0, "phase0", "system", "all", "chat", "", 0, 0);
    var messageId := ReadLongField(line, "messageId");
    if messageId.None? { return None; }
    m := m.(messageId := messageId.value);
    var text := ReadStringField(line, "roomName", NAME_SIZE);
    if text.None? { return None; }
    m := m.(roomName := text.value);
    text := ReadStringField(line, "senderName", NAME_SIZE);
    if text.None? { return None; }
    m := m.(senderName := text.value);
    text := ReadStringField(line, "targetName", NAME_SIZE);
    if text.None? { return None; }
    m := m.(targetName := text.value);
    text := ReadStringField(line, "messageType", TYPE_SIZE);
    if text.None? { return None; }
    m := m.(messageType := text.value);
    text := ReadStringField(line, "messageBody", BODY_SIZE);
    if text.None? { return None; }
    m := m.(messageBody := text.value);
    var createdAtUnixMs := ReadLongField(line, "createdAtUnixMs");
    if createdAtUnixMs.None? { return None; }
    m := m.(createdAtUnixMs := createdAtUnixMs.value);
    var replyToMessageId := ReadLongField(line, "replyToMessageId");
    if replyToMessageId.None? { return None; }
    m := m.(replyToMessageId := replyToMessageId.value);
    return Some(m);
  }

  lemma LettersMakeKey(key: string)
    requires key != "" && forall i :: 0 <= i < |key| ==> 'a' <= key[i] <= 'z' || 'A' <= key[i] <= 'Z'
    ensures IsKey(key)
  {
  }

  lemma FieldKeys(m: WtMessage)
    ensures AllKeys(Fields(m))
    ensures forall i, j :: 0 <= i < j < 8 ==> Fields(m)[i].key != Fields(m)[j].key
  {
    var fs := Fields(m);
    LettersMakeKey("messageId");
    LettersMakeKey("roomName");
    LettersMakeKey("senderName");
    LettersMakeKey("targetName");
    LettersMakeKey("messageType");
    LettersMakeKey("messageBody");
    LettersMakeKey("createdAtUnixMs");
    LettersMakeKey("replyToMessageId");
    assert "senderName"[0] == 's' && "targetName"[0] == 't';
    assert "messageType"[7] == 'T' && "messageBody"[7] == 'B';
    assert |"messageId"| == 9 && |"roomName"| == 8 && |"senderName"| == 10 && |"targetName"| == 10;
    assert |"messageType"| == 11 && |"messageBody"| == 11 && |"createdAtUnixMs"| == 15 && |"replyToMessageId"| == 16;
  }

  // What is read back of a printed message: odd control bytes come back as the letters of their escapes.
  function Recovered(m: WtMessage): WtMessage {
    m.(roomName := Recoded(m.roomName), senderName := Recoded(m.senderName), targetName := Recoded(m.targetName),
       messageType := Recoded(m.messageType), messageBody := Recoded(m.messageBody))
  }

  /**
   * Reading back a printed line, with anything after its closing brace (fgets keeps the newline). No text in one
   * field, quoted key names and trailing backslashes included, moves another field's lookup.
   */
  lemma ReadBack(m: WtMessage, tail: string)
    ensures Parsed(Line(m) + tail) == if FitsStruct(Recovered(m)) then Some(Recovered(m)) else None
    ensures Parsed(Line(m) + tail).Some? <==>
              && |Recoded(m.roomName)| <= 63 && |Recoded(m.senderName)| <= 63 && |Recoded(m.targetName)| <= 63
              && |Recoded(m.messageType)| <= 47 && |Recoded(m.messageBody)| <= 4095
  {
    hide Render, Recoded, ReadString, ReadLong;
    var fs := Fields(m);
    FieldKeys(m);
    ReadLongOfRender(fs, 0, "messageId", tail);
    ReadBackOfRender(fs, 1, "roomName", NAME_SIZE, tail);
    ReadBackOfRender(fs, 2, "senderName", NAME_SIZE, tail);
    ReadBackOfRender(fs, 3, "targetName", NAME_SIZE, tail);
    ReadBackOfRender(fs, 4, "messageType", TYPE_SIZE, tail);
    ReadBackOfRender(fs, 5, "messageBody", BODY_SIZE, tail);
    ReadLongOfRender(fs, 6, "createdAtUnixMs", tail);
    ReadLongOfRender(fs, 7, "replyToMessageId", tail);
  }

  lemma RecoveredOfClean(m: WtMessage)
    ensures Recovered(m) == m <==> CleanMessage(m)
    ensures FitsStruct(Recovered(m)) ==> FitsStruct(m)
  {
    hide Recoded, Clean;
    RecodedOfClean(m.roomName);
    RecodedOfClean(m.senderName);
    RecodedOfClean(m.targetName);
    RecodedOfClean(m.messageType);
    RecodedOfClean(m.messageBody);
  }

  /** Parsing undoes printing exactly on the messages without odd control bytes. */
  lemma RoundTrip(m: WtMessage, tail: string)
    requires FitsStruct(m)
    ensures Parsed(Line(m) + tail) == Some(m) <==> CleanMessage(m)
  {
    ReadBack(m, tail);
    RecoveredOfClean(m);
  }

  // ----- A printed line is one line -----

  lemma {:induction false} EscapedHasNoNewline(text: string)
    ensures '\n' !in Escaped(text)
  {
    if text != "" {
      EscapedHasNoNewline(text[1..]);
      var piece := EscapedChar(text[0]);
      assert '\n' !in piece;
    }
  }

  lemma {:induction false} RenderFieldsHasNoNewline(fs: seq<Field>)
    requires AllKeys(fs)
    ensures '\n' !in RenderFields(fs)
  {
    if fs != [] {
      var f := fs[0];
      if f.value.Text? {
        EscapedHasNoNewline(f.value.text);
      }
      assert '\n' !in f.key;
      assert '\n' !in RenderField(f);
      RenderFieldsHasNoNewline(fs[1..]);
    }
  }

  lemma LineHasNoNewline(m: WtMessage)
    ensures '\n' !in Line(m)
  {
    FieldKeys(m);
    RenderFieldsHasNoNewline(Fields(m));
  }
}
