/** src/wt_roomd.c, streamLedgerDelta: the incremental ledger tail behind the event stream. */
module LedgerTail {
  import opened Lines

  // WT_TASK_LEDGER_LINE_SIZE
  const LINE_SIZE: nat := 16384

  // The frame of a complete line: none for an empty one; one carriage return at the end is dropped.
  function Frame(line: string): (r: seq<string>)
    ensures '\r' !in line ==> r == if line == "" then [] else [line]
  {
    if line == "" then []
    else if line[|line| - 1] == '\r' then [line[..|line| - 1]]
    else [line]
  }

  // The frames of all complete lines of a text, of whatever length.
  function Records(s: string): seq<string>
    decreases |s|
  {
    var n := NewlineAt(s);
    if n == |s| then [] else Frame(s[..n]) + Records(s[n + 1..])
  }

  // The frames sent and the characters consumed.
  datatype Delta = Delta(sent: seq<string>, consumed: nat)

  // The loop on the unread text, of which the file's measured size covers the first `room` characters.
  function Read(rest: string, room: int): (d: Delta)
    ensures d.consumed <= |rest|
    decreases |rest|
  {
    if room <= 0 || rest == "" then Delta([], 0)
    else
      var line := Chunk(rest, LINE_SIZE);
      if line[|line| - 1] != '\n' then Delta([], 0)
      else
        var more := Read(rest[|line|..], room - |line|);
        Delta(Frame(line[..|line| - 1]) + more.sent, |line| + more.consumed)
  }

  function Stream(text: string, end: nat, offset: nat): (next: (seq<string>, nat))
    requires end <= |text|
  {
    if offset > end then ([], end)
    else
      var d := Read(text[offset..], end - offset);
      (d.sent, offset + d.consumed)
  }

  lemma ReadUnfolds(rest: string, room: int)
    requires room > 0 && rest != ""
    ensures var line := Chunk(rest, LINE_SIZE);
            Read(rest, room) ==
            if line[|line| - 1] != '\n' then Delta([], 0)
            else
              var more := Read(rest[|line|..], room - |line|);
              Delta(Frame(line[..|line| - 1]) + more.sent, |line| + more.consumed)
  {
  }

  // What is left to do at `pos`, with `shown` already sent, completes what was to do at `start`.
  predicate Consumes(text: string, start: nat, end: nat, shown: seq<string>, pos: nat)
    requires start <= pos <= |text|
  {
    var d, more := Read(text[start..], end - start), Read(text[pos..], end - pos);
    d.sent == shown + more.sent && d.consumed == pos - start + more.consumed
  }

  lemma ReadFromStart(text: string, start: nat, end: nat)
    requires start <= |text|
    ensures Consumes(text, start, end, [], start)
  {
    hide Read;
    var more := Read(text[start..], end - start).sent;
    assert [] + more == more;
  }

  lemma ReadTurn(text: string, start: nat, end: nat, shown: seq<string>, pos: nat)
    requires start <= pos < end <= |text| && Consumes(text, start, end, shown, pos)
    ensures var line := Chunk(text[pos..], LINE_SIZE);
            if line[|line| - 1] == '\n' then Consumes(text, start, end, shown + Frame(line[..|line| - 1]), pos + |line|)
            else Read(text[pos..], end - pos) == Delta([], 0)
  {
    hide Read, Chunk, Frame;
    var line := Chunk(text[pos..], LINE_SIZE);
    ReadUnfolds(text[pos..], end - pos);
    assert text[pos..][|line|..] == text[pos + |line|..];
    var news, more := Frame(line[..|line| - 1]), Read(text[pos + |line|..], end - (pos + |line|)).sent;
    assert shown + (news + more) == (shown + news) + more;
  }

  class Client {
    var offset: nat
    var frames: seq<string>

    // A client that connects is seeded with the ledger's current size.
    constructor (text: string)
      ensures offset == |text| && frames == []
    {
      offset, frames := |text|, [];
    }

    // One tick: `end` is the size measured first, `text` what the reads see; the file may have grown between.
    method StreamLedgerDelta(text: string, end: nat) returns (sent: nat)
      requires end <= |text|
      modifies this
      ensures var (news, next) := Stream(text, end, old(offset));
              frames == old(frames) + news && offset == next && sent == |news|
    {
      hide Read, Chunk, Frame;
      sent := 0;
      if offset > end {
        offset := end;
        return;
      }
      ghost var start, before, shown: seq<string> := offset, frames, [];
      var pos := offset;
      ReadFromStart(text, start, end);
      while pos < end
        invariant start <= pos <= |text| && offset == pos && frames == before + shown && sent == |shown|
        invariant Consumes(text, start, end, shown, pos)
        decreases |text| - pos
      {
        hide Consumes;
        var line := Chunk(text[pos..], LINE_SIZE);
        ReadTurn(text, start, end, shown, pos);
        if line[|line| - 1] != '\n' {
          break;
        }
        var news := FrameOf(line[..|line| - 1]);
        frames, shown := frames + news, shown + news;
        sent := sent + |news|;
        pos := pos + |line|;
        offset := pos;
      }
      if pos >= end {
        ReadStops(text[pos..], end - pos);
      }
      assert shown + [] == shown;
    }

    // The C code overwrites the line's last characters and skips the send for an empty line.
    static method FrameOf(line: string) returns (news: seq<string>)
      ensures news == Frame(line)
    {
      var length := |line|;
      var data := line;
      if length > 0 && line[length - 1] == '\r' {
        data := line[..length - 1];
      }
      if length == 0 {
        return [];
      }
      return [data];
    }
  }

  lemma ReadStops(rest: string, room: int)
    requires room <= 0 || rest == "" || Chunk(rest, LINE_SIZE)[|Chunk(rest, LINE_SIZE)| - 1] != '\n'
    ensures Read(rest, room) == Delta([], 0)
  {
  }

  // ----- What one tick forwards and what it leaves -----

  lemma RecordsAt(s: string, n: nat)
    requires n < |s| && '\n' !in s[..n] && s[n] == '\n'
    ensures Records(s) == Frame(s[..n]) + Records(s[n + 1..])
  {
    hide Frame;
    NewlineAtIs(s, n);
  }

  lemma NoRecords(s: string)
    requires '\n' !in s
    ensures Records(s) == []
  {
  }

  lemma {:induction false} RecordsAppend(s: string, more: string)
    requires EndsLine(s)
    ensures Records(s + more) == Records(s) + Records(more)
    decreases |s|
  {
    hide Frame, Records, NewlineAt;
    if s == "" {
      assert s + more == more;
      NoRecords("");
      assert [] + Records(more) == Records(more);
    } else {
      var n := NewlineAt(s);
      assert s[|s| - 1] in s && s[..|s|] == s;
      assert (s + more)[..n] == s[..n];
      RecordsAt(s, n);
      RecordsAt(s + more, n);
      assert (s + more)[n + 1..] == s[n + 1..] + more;
      RecordsAppend(s[n + 1..], more);
      assert Frame(s[..n]) + (Records(s[n + 1..]) + Records(more)) == (Frame(s[..n]) + Records(s[n + 1..])) + Records(more);
    }
  }

  lemma RecordsOfLine(line: string, more: string)
    requires '\n' !in line
    ensures Records(line + "\n" + more) == Frame(line) + Records(more)
  {
    hide Frame, Records;
    var s := line + "\n" + more;
    assert s[..|line|] == line && s[|line|] == '\n';
    RecordsAt(s, |line|);
    assert s[|line| + 1..] == more;
  }

  /** The records are the lines, without the carriage return one may end in, and without the empty ones. */
  lemma RecordsOfNextLine(line: string, more: string)
    requires '\n' !in line
    ensures Records(line + "\n" + more) ==
            (if line == "" then [] else if line[|line| - 1] == '\r' then [line[..|line| - 1]] else [line]) + Records(more)
    ensures Records(line) == []
  {
    hide Records;
    RecordsOfLine(line, more);
    NoRecords(line);
  }

  // A piece with a newline is a whole line; one without is the start of a line that is too long, or unfinished.
  lemma ChunkEnds(s: string)
    requires s != ""
    ensures var c := Chunk(s, LINE_SIZE);
            if c[|c| - 1] == '\n' then '\n' !in c[..|c| - 1] && |c| == NewlineAt(s) + 1
            else '\n' !in s || NewlineAt(s) >= LINE_SIZE - 1
  {
    var n := NewlineAt(s);
    var c := Chunk(s, LINE_SIZE);
    assert s[..|s|] == s;
    if n < |s| && n + 1 < LINE_SIZE {
      assert c[..n] == s[..n];
    } else {
      assert c[|c| - 1] == s[..n][|c| - 1];
    }
  }

  // The unread text holds no complete line, or its first line is too long for the buffer.
  // No newline, or none among the first 16383 characters.
  predicate NothingReadable(left: string) { '\n' !in left || NewlineAt(left) >= 16383 }

  lemma NothingIsUnreadable()
    ensures NothingReadable("")
  {
  }

  lemma UnreadableIf(s: string)
    requires '\n' !in s || NewlineAt(s) >= LINE_SIZE - 1
    ensures NothingReadable(s)
  {
  }

  lemma {:induction false} ReadMeaning(rest: string, room: int)
    ensures var d := Read(rest, room);
            && EndsLine(rest[..d.consumed]) && d.sent == Records(rest[..d.consumed])
            && (d.consumed >= room || NothingReadable(rest[d.consumed..]))
    decreases |rest|
  {
    hide Frame, Chunk, Read, Records, NothingReadable, NewlineAt;
    var d := Read(rest, room);
    NoRecords("");
    if room <= 0 || rest == "" {
      ReadStops(rest, room);
      NothingIsUnreadable();
      assert d.consumed == 0 && rest[..0] == "" && rest[0..] == rest;
    } else {
      var c := Chunk(rest, LINE_SIZE);
      ChunkEnds(rest);
      ReadUnfolds(rest, room);
      if c[|c| - 1] == '\n' {
        ReadMeaning(rest[|c|..], room - |c|);
        var more := Read(rest[|c|..], room - |c|);
        var line := c[..|c| - 1];
        assert c == line + "\n";
        assert rest[..d.consumed] == line + "\n" + rest[|c|..][..more.consumed];
        RecordsOfLine(line, rest[|c|..][..more.consumed]);
        assert rest[d.consumed..] == rest[|c|..][more.consumed..];
      } else {
        UnreadableIf(rest);
        assert rest[..0] == "" && rest[0..] == rest;
      }
    }
  }

  // Some complete line of the text does not fit the buffer with its newline.
  predicate HasLongLine(s: string)
    decreases |s|
  {
    var n := NewlineAt(s);
    n < |s| && (n >= 16383 || HasLongLine(s[n + 1..]))
  }

  lemma LongLineAt(s: string, n: nat)
    requires n < |s| && '\n' !in s[..n] && s[n] == '\n'
    ensures HasLongLine(s) <==> n >= LINE_SIZE - 1 || HasLongLine(s[n + 1..])
  {
    NewlineAtIs(s, n);
  }

  lemma NoLine(s: string)
    requires '\n' !in s
    ensures !HasLongLine(s) && NewlineAt(s) == |s|
  {
  }

  lemma {:induction false} LongLineAppend(s: string, more: string)
    requires EndsLine(s)
    ensures HasLongLine(s + more) <==> HasLongLine(s) || HasLongLine(more)
    decreases |s|
  {
    hide HasLongLine, NewlineAt;
    if s == "" {
      assert s + more == more;
      NoLine("");
    } else {
      var n := NewlineAt(s);
      assert s[|s| - 1] in s && s[..|s|] == s;
      assert (s + more)[..n] == s[..n];
      LongLineAt(s, n);
      LongLineAt(s + more, n);
      assert (s + more)[n + 1..] == s[n + 1..] + more;
      LongLineAppend(s[n + 1..], more);
    }
  }

  // A long line of the start of a text is one of the text.
  lemma {:induction false} LongLineOfPrefix(s: string, k: nat)
    requires k <= |s| && HasLongLine(s[..k])
    ensures HasLongLine(s)
    decreases |s|
  {
    var n := NewlineAt(s[..k]);
    assert s[..k][..n] == s[..n];
    LongLineAt(s, n);
    if n < LINE_SIZE - 1 {
      assert s[..k][n + 1..] == s[n + 1..][..k - n - 1];
      LongLineOfPrefix(s[n + 1..], k - n - 1);
    }
  }

  // Lines that a tick consumes are short.
  lemma {:induction false} ConsumedIsShort(rest: string, room: int)
    ensures !HasLongLine(rest[..Read(rest, room).consumed])
    decreases |rest|
  {
    hide Frame, Chunk, Read, HasLongLine, NewlineAt;
    var d := Read(rest, room);
    if room <= 0 || rest == "" {
      ReadStops(rest, room);
      NoLine(rest[..0]);
    } else {
      var c := Chunk(rest, LINE_SIZE);
      ChunkEnds(rest);
      ReadUnfolds(rest, room);
      if c[|c| - 1] == '\n' {
        ConsumedIsShort(rest[|c|..], room - |c|);
        var s := rest[..d.consumed];
        assert s[..|c| - 1] == c[..|c| - 1] && s[|c| - 1] == '\n';
        LongLineAt(s, |c| - 1);
        assert s[|c|..] == rest[|c|..][..d.consumed - |c|];
      } else {
        NoLine(rest[..0]);
      }
    }
  }

  // What is left of an unreadable text holds a complete line only if its first line is long.
  lemma LeftOver(rest: string, left: string)
    requires NothingReadable(rest) && left <= rest
    ensures '\n' in left <==> HasLongLine(left)
  {
    var n := NewlineAt(left);
    assert left[..|left|] == left;
    if n < |left| {
      assert rest[..n] == left[..n] && rest[n] in rest;
      NewlineAtIs(rest, n);
    }
  }

  lemma FallsBehindIff(seed: nat, text: string, offset: nat, end: nat)
    requires seed <= offset <= |text| && seed <= end <= |text|
    requires EndsLine(text[seed..offset]) && !HasLongLine(text[seed..offset])
    requires offset >= end || NothingReadable(text[offset..])
    ensures (offset <= end && '\n' in text[offset..end]) <==> HasLongLine(text[seed..end])
  {
    hide HasLongLine, NothingReadable;
    var done, present := text[seed..offset], text[seed..end];
    if offset >= end {
      assert done[..end - seed] == present;
      if HasLongLine(present) {
        LongLineOfPrefix(done, end - seed);
      }
      assert offset == end ==> text[offset..end] == "";
    } else {
      var left := text[offset..end];
      assert present == done + left;
      LongLineAppend(done, left);
      LeftOver(text[offset..], left);
    }
  }

  /**
   * A tick that measured `room` characters of the unread text leaves a complete line of them behind exactly when one of
   * those lines is too long for the buffer.
   */
  lemma LeftBehindIff(rest: string, room: nat)
    requires room <= |rest|
    ensures var consumed := Read(rest, room).consumed;
            (consumed <= room && '\n' in rest[consumed..room]) <==> HasLongLine(rest[..room])
  {
    hide Read, HasLongLine, Records, NewlineAt, NothingReadable, EndsLine;
    var consumed := Read(rest, room).consumed;
    ReadMeaning(rest, room);
    ConsumedIsShort(rest, room);
    assert rest[0..consumed] == rest[..consumed] && rest[0..room] == rest[..room];
    FallsBehindIff(0, rest, consumed, room);
  }

  /** A tick that measured the whole unread text leaves a complete line behind exactly when some line of that text is too long for the buffer. */
  lemma NothingLeftBehindIff(rest: string)
    ensures '\n' in rest[Read(rest, |rest|).consumed..] <==> HasLongLine(rest)
  {
    hide Read, HasLongLine;
    LeftBehindIff(rest, |rest|);
    assert rest[..|rest|] == rest;
  }

  lemma OverlongLineBlocksForever(text: string, offset: nat, more: string, end: nat)
    requires offset < |text| && NewlineAt(text[offset..]) >= 16383
    requires offset <= end <= |text + more|
    ensures Stream(text + more, end, offset) == ([], offset)
  {
    hide Read, Chunk, NewlineAt;
    var left := text[offset..];
    assert (text + more)[offset..] == left + more;
    NewlineOnlyLater(left, more);
    ChunkEnds(left + more);
    ReadStops(left + more, end - offset);
  }

  lemma {:induction false} NewlineOnlyLater(s: string, more: string)
    ensures NewlineAt(s + more) >= NewlineAt(s)
  {
    if s != "" && s[0] != '\n' {
      assert (s + more)[1..] == s[1..] + more;
      NewlineOnlyLater(s[1..], more);
    }
  }

  // ----- Any interleaving of file growth and ticks -----

  datatype Tick = Tick(text: string, end: nat)

  // The file only grows: every tick sees at least what the one before saw, and measures no less.
  predicate Grows(seed: string, ticks: seq<Tick>) {
    forall i :: 0 <= i < |ticks| ==>
      && Before(seed, ticks, i) <= ticks[i].text
      && |Before(seed, ticks, i)| <= ticks[i].end <= |ticks[i].text|
  }

  // The file as it was seen before tick i.
  function Before(seed: string, ticks: seq<Tick>, i: nat): string
    requires i <= |ticks|
  {
    if i == 0 then seed else ticks[i - 1].text
  }

  function RunTail(seed: string, ticks: seq<Tick>): (seq<string>, nat) {
    if ticks == [] then ([], |seed|)
    else
      var n := |ticks| - 1;
      var (frames, offset) := RunTail(seed, ticks[..n]);
      if ticks[n].end > |ticks[n].text| then (frames, offset)
      else
        var (news, next) := Stream(ticks[n].text, ticks[n].end, offset);
        (frames + news, next)
  }

  /** After a truncation the tail starts afresh: it sends nothing and goes on as if the shorter file were its seed. */
  lemma TruncationStartsAfresh(text: string, end: nat, offset: nat)
    requires end <= |text| && end < offset
    ensures Stream(text, end, offset) == RunTail(text[..end], []) == ([], end)
  {
  }

  lemma TickDelivers(seed: string, text: string, frames: seq<string>, offset: nat, next: string, end: nat)
    requires |seed| <= offset <= |text| && text <= next && |text| <= end <= |next|
    requires EndsLine(text[|seed|..offset]) && frames == Records(text[|seed|..offset])
    ensures var (news, after) := Stream(next, end, offset);
            && |seed| <= after <= |next|
            && EndsLine(next[|seed|..after]) && frames + news == Records(next[|seed|..after])
            && (after >= end || NothingReadable(next[after..]))
  {
    hide Read, Records;
    var rest := next[offset..];
    var d := Read(rest, end - offset);
    ReadMeaning(rest, end - offset);
    var after := offset + d.consumed;
    assert next[|seed|..offset] == text[|seed|..offset];
    assert next[|seed|..after] == next[|seed|..offset] + rest[..d.consumed];
    assert rest[d.consumed..] == next[after..];
    RecordsAppend(next[|seed|..offset], rest[..d.consumed]);
  }

  /**
   * Over any interleaving of file growth, half-written lines included, and ticks, the forwarded frames are exactly
   * those of the complete lines between the seed offset and the current offset, in order; and after each tick
   * nothing that can be read is left below the size it measured.
   */
  lemma {:induction false} TailDeliversOnce(seed: string, ticks: seq<Tick>)
    requires Grows(seed, ticks)
    ensures var (frames, offset) := RunTail(seed, ticks);
            var text := Before(seed, ticks, |ticks|);
            && |seed| <= offset <= |text|
            && EndsLine(text[|seed|..offset]) && frames == Records(text[|seed|..offset])
            && (ticks != [] ==> offset >= ticks[|ticks| - 1].end || NothingReadable(text[offset..]))
  {
    if ticks == [] {
      assert seed[|seed|..|seed|] == "" && Records("") == [];
    } else {
      hide Stream, Records, NothingReadable, EndsLine;
      var n := |ticks| - 1;
      GrowsBefore(seed, ticks);
      TailDeliversOnce(seed, ticks[..n]);
      var text := Before(seed, ticks, n);
      assert text == Before(seed, ticks[..n], n);
      TickDelivers(seed, text, RunTail(seed, ticks[..n]).0, RunTail(seed, ticks[..n]).1, ticks[n].text, ticks[n].end);
    }
  }

  lemma TickStaysShort(seed: nat, text: string, offset: nat, next: string, end: nat)
    requires seed <= offset <= |text| && text <= next && |text| <= end <= |next|
    requires EndsLine(text[seed..offset]) && !HasLongLine(text[seed..offset])
    ensures var after := Stream(next, end, offset).1; seed <= after <= |next| && !HasLongLine(next[seed..after])
  {
    hide Read, HasLongLine;
    var rest := next[offset..];
    var d := Read(rest, end - offset);
    ConsumedIsShort(rest, end - offset);
    var after := offset + d.consumed;
    assert next[seed..offset] == text[seed..offset];
    assert next[seed..after] == next[seed..offset] + rest[..d.consumed];
    LongLineAppend(next[seed..offset], rest[..d.consumed]);
  }

  lemma RunTailStep(seed: string, ticks: seq<Tick>)
    requires ticks != [] && Grows(seed, ticks)
    ensures var n := |ticks| - 1;
            var before, last := Before(seed, ticks[..n], n), ticks[n];
            && before <= last.text && |before| <= last.end <= |last.text|
            && Before(seed, ticks, n + 1) == last.text
            && RunTail(seed, ticks).1 == Stream(last.text, last.end, RunTail(seed, ticks[..n]).1).1
  {
    hide Stream;
    assert Before(seed, ticks, |ticks| - 1) == Before(seed, ticks[..|ticks| - 1], |ticks| - 1);
  }

  lemma {:induction false} SentLinesAreShort(seed: string, ticks: seq<Tick>)
    requires Grows(seed, ticks)
    ensures var offset := RunTail(seed, ticks).1;
            |seed| <= offset <= |Before(seed, ticks, |ticks|)| && !HasLongLine(Before(seed, ticks, |ticks|)[|seed|..offset])
  {
    if ticks == [] {
      NoLine(seed[|seed|..|seed|]);
    } else {
      hide *;
      var n := |ticks| - 1;
      GrowsBefore(seed, ticks);
      SentLinesAreShort(seed, ticks[..n]);
      TailDeliversOnce(seed, ticks[..n]);
      RunTailStep(seed, ticks);
      TickStaysShort(|seed|, Before(seed, ticks[..n], n), RunTail(seed, ticks[..n]).1, ticks[n].text, ticks[n].end);
    }
  }

  /**
   * When the tail falls behind: after any interleaving of growth and ticks a complete line that the last tick found
   * present is unsent exactly when some line written since the seed was by then too long for the buffer.
   */
  lemma TailFallsBehindIff(seed: string, ticks: seq<Tick>)
    requires ticks != [] && Grows(seed, ticks)
    ensures var last, offset := ticks[|ticks| - 1], RunTail(seed, ticks).1;
            && |seed| <= last.end <= |last.text| && |seed| <= offset
            && ((offset <= last.end && '\n' in last.text[offset..last.end]) <==> HasLongLine(last.text[|seed|..last.end]))
  {
    hide Records, HasLongLine, NothingReadable, EndsLine, RunTail, Grows;
    SentLinesAreShort(seed, ticks);
    TailDeliversOnce(seed, ticks);
    SeedIsPrefix(seed, ticks, |ticks| - 1);
    GrowsAt(seed, ticks, |ticks| - 1);
    var last := ticks[|ticks| - 1];
    assert last.text == Before(seed, ticks, |ticks|);
    FallsBehindIff(|seed|, last.text, RunTail(seed, ticks).1, last.end);
  }

  lemma {:induction false} SeedIsPrefix(seed: string, ticks: seq<Tick>, i: nat)
    requires Grows(seed, ticks) && i < |ticks|
    ensures seed <= Before(seed, ticks, i) && |seed| <= ticks[i].end
  {
    hide Grows;
    GrowsAt(seed, ticks, i);
    if i > 0 {
      SeedIsPrefix(seed, ticks, i - 1);
      GrowsAt(seed, ticks, i - 1);
    }
  }

  lemma GrowsAt(seed: string, ticks: seq<Tick>, i: nat)
    requires Grows(seed, ticks) && i < |ticks|
    ensures Before(seed, ticks, i) <= ticks[i].text && |Before(seed, ticks, i)| <= ticks[i].end <= |ticks[i].text|
  {
    hide Before;
  }

  lemma GrowsBefore(seed: string, ticks: seq<Tick>)
    requires ticks != [] && Grows(seed, ticks)
    ensures Grows(seed, ticks[..|ticks| - 1])
  {
    forall i | 0 <= i < |ticks| - 1
      ensures Before(seed, ticks[..|ticks| - 1], i) == Before(seed, ticks, i)
    {
    }
  }
}
