/** The JSONL session file, the readers over it and the appending writer. */
module SessionLog {
  import opened Prelude
  import opened Messages

  /** A line after trimming: empty, the metadata record, text that is not a JSON object, or a message. */
  datatype Line = BlankLine | MetadataLine | MalformedLine(raw: string) | MessageLine(message: Message)

  /** What Stream and LoadRange use for "to the tail". */
  const TAIL: int := 0x4000_0000

  // ----- what a file holds -----

  predicate IsRecord(line: Line) {
    line.MalformedLine? || line.MessageLine?
  }

  /** The lines that get an index. */
  function Records(lines: seq<Line>): seq<Line> {
    if lines == [] then []
    else
      var last := lines[|lines| - 1];
      Records(lines[..|lines| - 1]) + (if IsRecord(last) then [last] else [])
  }

  /** The messages among some records: malformed ones have an index but yield nothing. */
  function Decoded(records: seq<Line>): seq<Message> {
    if records == [] then []
    else
      var last := records[|records| - 1];
      Decoded(records[..|records| - 1]) + (if last.MessageLine? then [last.message] else [])
  }

  function Clamp(i: int, n: nat): (r: nat)
    ensures r <= n
  {
    if i < 0 then 0 else if i > n then n else i
  }

  function Window<T>(items: seq<T>, start: int, end: int): seq<T> {
    var lo, hi := Clamp(start, |items|), Clamp(end, |items|);
    if lo <= hi then items[lo..hi] else []
  }

  /** The messages with an index in [start, end). */
  function Range(lines: seq<Line>, start: int, end: int): seq<Message> {
    Decoded(Window(Records(lines), start, end))
  }

  /** The number the file scan reports: metadata is only skipped ahead of the first record. */
  function Scanned(lines: seq<Line>): nat {
    if lines == [] then 0
    else
      var before := Scanned(lines[..|lines| - 1]);
      var last := lines[|lines| - 1];
      if IsRecord(last) || (last.MetadataLine? && before > 0) then before + 1 else before
  }

  /** A message whose own keys make it look like the metadata record is read back as one. */
  predicate LooksLikeMetadata(m: Message) {
    "_type" in m.extra && m.extra["_type"] == "metadata"
  }

  function Encode(m: Message): Line {
    if LooksLikeMetadata(m) then MetadataLine else MessageLine(m)
  }

  function EncodeAll(messages: seq<Message>): (r: seq<Line>)
    ensures |r| == |messages| && forall i | 0 <= i < |messages| :: r[i] == Encode(messages[i])
  {
    seq(|messages|, i requires 0 <= i < |messages| => Encode(messages[i]))
  }

  // ----- the file and its readers -----

  /** One session's file, and the total that a cached in-memory session would report. */
  class SessionFile {
    var lines: Option<seq<Line>>
    var cachedTotal: Option<nat>

    constructor ()
      ensures lines == None && cachedTotal == None
    {
      lines, cachedTotal := None, None;
    }

    method LoadRange(start: int, end: int) returns (messages: seq<Message>)
      ensures messages == if lines.Some? then Range(lines.value, start, end) else []
    {
      messages := [];
      if lines.None? {
        return;
      }
      var file, idx, i := lines.value, 0, 0;
      while i < |file|
        invariant i <= |file| && idx == |Records(file[..i])|
        invariant messages == Range(file[..i], start, end)
      {
        assert file[..i + 1] == file[..i] + [file[i]] && file[..i + 1][..i] == file[..i];
        RangeStep(file[..i], file[i], start, end);
        if !IsRecord(file[i]) {
          i := i + 1;
          continue;
        }
        if idx >= end {
          RangeIsSettled(file, i, start, end);
          return;
        }
        if idx >= start {
          if file[i].MessageLine? {
            messages := messages + [file[i].message];
          }
        }
        idx := idx + 1;
        i := i + 1;
      }
      assert file[..|file|] == file;
    }

    /** The same messages, delivered one by one; a negative end means "to the tail". */
    method Stream(start: int, end: int) returns (messages: seq<Message>)
      ensures messages == if lines.Some? then Range(lines.value, start, if end < 0 then TAIL else end) else []
    {
      messages := [];
      var stop := end;
      if stop < 0 {
        stop := TAIL;
      }
      if lines.None? {
        return;
      }
      var file, idx := lines.value, 0;
      for i := 0 to |file|
        invariant idx == |Records(file[..i])| && messages == Range(file[..i], start, stop)
      {
        assert file[..i + 1] == file[..i] + [file[i]] && file[..i + 1][..i] == file[..i];
        RangeStep(file[..i], file[i], start, stop);
        if IsRecord(file[i]) {
          if idx >= stop {
            RangeIsSettled(file, i, start, stop);
            return;
          }
          if idx >= start && file[i].MessageLine? {
            messages := messages + [file[i].message];
          }
          idx := idx + 1;
        }
      }
      assert file[..|file|] == file;
    }

    /** The message at an index, if that line holds one. Below -1 the open end makes it the first message of the file. */
    method At(index: int) returns (m: Option<Message>)
      ensures index >= 0 ==>
        m == if lines.Some? && index < |Records(lines.value)| && Records(lines.value)[index].MessageLine?
             then Some(Records(lines.value)[index].message) else None
      ensures index == -1 ==> m == None
      ensures index < -1 ==>
        var all := if lines.Some? then Range(lines.value, 0, TAIL) else [];
        m == if all == [] then None else Some(all[0])
    {
      var found := Stream(index, index + 1);
      if lines.Some? && index >= 0 {
        RangeOfOne(lines.value, index);
      }
      if lines.Some? && index < 0 {
        assert Window(Records(lines.value), index, TAIL) == Window(Records(lines.value), 0, TAIL);
      }
      m := if found == [] then None else Some(found[0]);
    }

    method Count() returns (total: nat)
      ensures total == if cachedTotal.Some? then cachedTotal.value
                       else if lines.Some? then Scanned(lines.value) else 0
    {
      if cachedTotal.Some? {
        return cachedTotal.value;
      }
      total := 0;
      if lines.Some? {
        var file := lines.value;
        for i := 0 to |file|
          invariant total == Scanned(file[..i])
        {
          assert file[..i + 1][..i] == file[..i];
          if !file[i].BlankLine? && !(total == 0 && file[i].MetadataLine?) {
            total := total + 1;
          }
        }
        assert file[..|file|] == file;
      }
    }

    /** Loads the session into the cache unless it is already there. */
    method GetOrCreate()
      modifies this`cachedTotal
      ensures cachedTotal == if old(cachedTotal).Some? then old(cachedTotal)
                             else Some(if lines.Some? then Scanned(lines.value) else 0)
    {
      var total := Count();
      cachedTotal := Some(total);
    }

    /** Rewrites the file as a bare header and drops the cached session. */
    method Clear()
      modifies this
      ensures lines == Some([MetadataLine]) && cachedTotal == None
    {
      lines := Some([MetadataLine]);
      cachedTotal := None;
    }

    /** Appends without reading; a missing file first gets its metadata header. */
    method SaveAppend(messages: seq<Message>)
      modifies this`lines
      ensures lines == Some((if old(lines).Some? then old(lines.value) else [MetadataLine]) + EncodeAll(messages))
    {
      var file := if lines.Some? then lines.value else [MetadataLine];
      for i := 0 to |messages|
        invariant file == (if old(lines).Some? then old(lines.value) else [MetadataLine]) + EncodeAll(messages[..i])
      {
        file := file + [Encode(messages[i])];
      }
      assert messages[..|messages|] == messages;
      lines := Some(file);
    }
  }

  /** `reader` serves the message sequence `log`; a cached total may lag behind it but is never ahead. */
  ghost predicate Serves(reader: SessionFile, log: seq<Message>)
    reads reader
  {
    && Holds(reader.lines, log)
    && NoMetadata(log)
    && (reader.cachedTotal.Some? ==> reader.cachedTotal.value <= |log|)
  }

  // ----- steps of the range loop -----

  lemma RangeOfOne(lines: seq<Line>, index: nat)
    ensures Range(lines, index, index + 1) ==
            if index < |Records(lines)| && Records(lines)[index].MessageLine? then [Records(lines)[index].message] else []
  {
    var records := Records(lines);
    var window := Window(records, index, index + 1);
    if index < |records| {
      assert window == [records[index]] && window[..0] == [];
    } else {
      assert window == [];
    }
  }

  lemma WindowStep<T>(items: seq<T>, item: T, start: int, end: int)
    ensures Window(items + [item], start, end) == Window(items, start, end) + (if start <= |items| < end then [item] else [])
  {
    var n := |items|;
    var lo, hi := Clamp(start, n + 1), Clamp(end, n + 1);
    if start <= n < end {
      assert (items + [item])[lo..hi] == items[lo..n] + [item];
    } else if lo <= hi <= n {
      assert (items + [item])[lo..hi] == items[lo..hi];
    }
  }

  lemma DecodedStep(records: seq<Line>, record: Line)
    ensures Decoded(records + [record]) == Decoded(records) + (if record.MessageLine? then [record.message] else [])
  {
    assert (records + [record])[..|records|] == records;
  }

  lemma RecordsStep(file: seq<Line>, line: Line)
    ensures Records(file + [line]) == Records(file) + (if IsRecord(line) then [line] else [])
  {
    assert (file + [line])[..|file|] == file;
  }

  lemma DecodedWindowStep(records: seq<Line>, record: Line, start: int, end: int)
    ensures Decoded(Window(records + [record], start, end)) ==
            Decoded(Window(records, start, end)) +
            (if start <= |records| < end && record.MessageLine? then [record.message] else [])
  {
    var window := Window(records, start, end);
    WindowStep(records, record, start, end);
    if start <= |records| < end {
      DecodedStep(window, record);
    } else {
      assert window + [] == window;
    }
  }

  lemma RangeStep(file: seq<Line>, line: Line, start: int, end: int)
    ensures Range(file + [line], start, end) == Range(file, start, end) +
            (if start <= |Records(file)| < end && line.MessageLine? then [line.message] else [])
  {
    RecordsStep(file, line);
    if IsRecord(line) {
      DecodedWindowStep(Records(file), line, start, end);
    } else {
      assert Records(file) + [] == Records(file);
    }
  }

  lemma {:induction false} RangeIsSettled(file: seq<Line>, i: nat, start: int, end: int)
    requires i <= |file| && |Records(file[..i])| >= end
    ensures Range(file, start, end) == Range(file[..i], start, end)
    decreases |file| - i
  {
    if i == |file| {
      assert file[..i] == file;
    } else {
      assert file[..i + 1] == file[..i] + [file[i]] && file[..i + 1][..i] == file[..i];
      RangeStep(file[..i], file[i], start, end);
      RangeIsSettled(file, i + 1, start, end);
    }
  }

  // ----- what readers agree on -----

  lemma {:induction false} DecodedConcat(a: seq<Line>, b: seq<Line>)
    ensures Decoded(a + b) == Decoded(a) + Decoded(b)
  {
    if b == [] {
      assert a + b == a;
    } else {
      assert (a + b)[..|a + b| - 1] == a + b[..|b| - 1];
      DecodedConcat(a, b[..|b| - 1]);
    }
  }

  /** Reading [a, b) and then [b, c) is reading [a, c), for any file. */
  lemma AdjacentRangesCompose(lines: seq<Line>, a: int, b: int, c: int)
    requires a <= b <= c
    ensures Range(lines, a, b) + Range(lines, b, c) == Range(lines, a, c)
  {
    var records := Records(lines);
    var i, j, k := Clamp(a, |records|), Clamp(b, |records|), Clamp(c, |records|);
    assert records[i..j] + records[j..k] == records[i..k];
    DecodedConcat(records[i..j], records[j..k]);
  }

  function LateMetadata(lines: seq<Line>): nat {
    if lines == [] then 0
    else
      var front, last := lines[..|lines| - 1], lines[|lines| - 1];
      LateMetadata(front) + (if last.MetadataLine? && Records(front) != [] then 1 else 0)
  }

  /** The scan counts every record, and a metadata line behind a record as well. */
  lemma {:induction false} ScanCountsRecords(lines: seq<Line>)
    ensures Scanned(lines) == |Records(lines)| + LateMetadata(lines)
    ensures Records(lines) == [] ==> Scanned(lines) == 0
  {
    if lines != [] {
      ScanCountsRecords(lines[..|lines| - 1]);
    }
  }

  // ----- what counts -----

  /** The lines that get an index are all but blank ones and metadata records, in order. */
  lemma {:induction false} RecordsExactly(lines: seq<Line>) returns (at: seq<nat>)
    ensures StandAt(Records(lines), lines, at)
    ensures forall i | 0 <= i < |lines| :: i in at <==> lines[i] != BlankLine && lines[i] != MetadataLine
  {
    at := [];
    if lines != [] {
      var front, last := lines[..|lines| - 1], lines[|lines| - 1];
      at := RecordsExactly(front);
      StandAtExtends(Records(front), front, at, last, IsRecord(last));
      at := at + if IsRecord(last) then [|front|] else [];
      assert lines == front + [last];
    }
  }

  /** A range query yields the messages among the records with an index from `start` up to, not including, `end`. */
  lemma RangeExactly(lines: seq<Line>, start: int, end: int) returns (at: seq<nat>)
    ensures Increasing(at, |Records(lines)|) && |Range(lines, start, end)| == |at|
    ensures forall k | 0 <= k < |at| :: Records(lines)[at[k]] == MessageLine(Range(lines, start, end)[k])
    ensures forall i | 0 <= i < |Records(lines)| :: i in at <==> start <= i < end && Records(lines)[i].MessageLine?
  {
    at := DecodedExactly(Records(lines), start, end);
  }

  predicate MessagesAt(messages: seq<Message>, records: seq<Line>, at: seq<nat>) {
    && Increasing(at, |records|) && |messages| == |at|
    && forall k | 0 <= k < |at| :: records[at[k]] == MessageLine(messages[k])
  }

  lemma MessagesAtExtends(messages: seq<Message>, records: seq<Line>, at: seq<nat>, record: Line, taken: bool)
    requires MessagesAt(messages, records, at) && (taken ==> record.MessageLine?)
    ensures MessagesAt(messages + (if taken then [record.message] else []), records + [record],
                       at + if taken then [|records|] else [])
  {
  }

  predicate TakesWindow(records: seq<Line>, start: int, end: int, at: seq<nat>) {
    forall i | 0 <= i < |records| :: i in at <==> start <= i < end && records[i].MessageLine?
  }

  lemma TakesOneMore(records: seq<Line>, record: Line, start: int, end: int, at: seq<nat>)
    requires Increasing(at, |records|) && TakesWindow(records, start, end, at)
    ensures TakesWindow(records + [record], start, end,
                        at + if start <= |records| < end && record.MessageLine? then [|records|] else [])
  {
    var all, taken := records + [record], start <= |records| < end && record.MessageLine?;
    var more := at + if taken then [|records|] else [];
    forall i | 0 <= i < |all| ensures i in more <==> start <= i < end && all[i].MessageLine? {
      if i < |records| {
        assert i in more <==> i in at;
      } else {
        assert i in more <==> taken;
      }
    }
  }

  lemma DecodesOneMore(records: seq<Line>, record: Line, start: int, end: int, before: seq<nat>) returns (at: seq<nat>)
    requires MessagesAt(Decoded(Window(records, start, end)), records, before) && TakesWindow(records, start, end, before)
    ensures MessagesAt(Decoded(Window(records + [record], start, end)), records + [record], at)
    ensures TakesWindow(records + [record], start, end, at)
  {
    var taken := start <= |records| < end && record.MessageLine?;
    DecodedWindowStep(records, record, start, end);
    MessagesAtExtends(Decoded(Window(records, start, end)), records, before, record, taken);
    TakesOneMore(records, record, start, end, before);
    at := before + if taken then [|records|] else [];
  }

  lemma {:induction false} DecodedExactly(records: seq<Line>, start: int, end: int) returns (at: seq<nat>)
    ensures MessagesAt(Decoded(Window(records, start, end)), records, at) && TakesWindow(records, start, end, at)
  {
    at := [];
    if records != [] {
      var front := records[..|records| - 1];
      at := DecodedExactly(front, start, end);
      at := DecodesOneMore(front, records[|front|], start, end, at);
      assert front + [records[|front|]] == records;
    }
  }

  /** The file scan counts every line but blank ones and the metadata records ahead of everything else. */
  lemma ScannedExactly(lines: seq<Line>, line: Line)
    ensures Scanned([]) == 0
    ensures Scanned(lines + [line]) == Scanned(lines) + if
            line == BlankLine ||
            (line == MetadataLine && forall i | 0 <= i < |lines| :: lines[i] == BlankLine || lines[i] == MetadataLine) then 0 else 1
  {
    assert (lines + [line])[..|lines|] == lines;
    NothingScanned(lines);
  }

  lemma {:induction false} NothingScanned(lines: seq<Line>)
    ensures Scanned(lines) == 0 <==> forall i | 0 <= i < |lines| :: lines[i] == BlankLine || lines[i] == MetadataLine
  {
    if lines != [] {
      var n := |lines| - 1;
      NothingScanned(lines[..n]);
      assert forall i | 0 <= i < n :: lines[..n][i] == lines[i];
    }
  }

  // ----- files made by SaveAppend -----

  /** The file holds exactly these messages behind its header. */
  predicate Holds(lines: Option<seq<Line>>, messages: seq<Message>) {
    match lines
    case None => messages == []
    case Some(file) => file == [MetadataLine] + EncodeAll(messages)
  }

  predicate NoMetadata(messages: seq<Message>) {
    forall m | m in messages :: !LooksLikeMetadata(m)
  }

  function Regular(messages: seq<Message>): seq<Message> {
    if messages == [] then []
    else
      var last := messages[|messages| - 1];
      Regular(messages[..|messages| - 1]) + (if LooksLikeMetadata(last) then [] else [last])
  }

  function AsLines(messages: seq<Message>): (r: seq<Line>)
    ensures |r| == |messages| && forall i | 0 <= i < |messages| :: r[i] == MessageLine(messages[i])
  {
    seq(|messages|, i requires 0 <= i < |messages| => MessageLine(messages[i]))
  }

  lemma {:induction false} WrittenRecords(messages: seq<Message>)
    ensures Records([MetadataLine] + EncodeAll(messages)) == AsLines(Regular(messages))
  {
    var file := [MetadataLine] + EncodeAll(messages);
    if messages == [] {
      assert file == [MetadataLine] && file[..0] == [];
    } else {
      var front := messages[..|messages| - 1];
      WrittenRecords(front);
      assert file[..|file| - 1] == [MetadataLine] + EncodeAll(front);
    }
  }

  lemma {:induction false} DecodedMessages(messages: seq<Message>)
    ensures Decoded(AsLines(messages)) == messages
  {
    if messages != [] {
      var front := messages[..|messages| - 1];
      DecodedMessages(front);
      assert AsLines(messages)[..|front|] == AsLines(front);
    }
  }

  lemma WindowOfWritten(messages: seq<Message>, start: nat, end: int)
    requires start <= |messages| && start <= end
    ensures Decoded(Window(AsLines(messages), start, end)) == messages[start..Clamp(end, |messages|)]
  {
    var part := messages[start..Clamp(end, |messages|)];
    assert Window(AsLines(messages), start, end) == AsLines(part);
    DecodedMessages(part);
  }

  lemma {:induction false} RegularIsAll(messages: seq<Message>)
    ensures |Regular(messages)| <= |messages|
    ensures Regular(messages) == messages <==> NoMetadata(messages)
    ensures |Regular(messages)| == |messages| ==> Regular(messages) == messages
  {
    if messages != [] {
      var front, last := messages[..|messages| - 1], messages[|messages| - 1];
      RegularIsAll(front);
      assert messages == front + [last];
    }
  }

  /** Reading back a written file, over its whole length, gives the messages exactly when none poses as metadata. */
  lemma WrittenFileReadsBack(messages: seq<Message>)
    ensures var file := [MetadataLine] + EncodeAll(messages);
      Range(file, 0, |messages|) == messages <==> NoMetadata(messages)
  {
    var file, regular := [MetadataLine] + EncodeAll(messages), Regular(messages);
    WrittenRecords(messages);
    RegularIsAll(messages);
    WindowOfWritten(regular, 0, |messages|);
    assert regular[0..|regular|] == regular;
  }

  /** A written file answers every range query, the tail query and the count like the message sequence itself. */
  lemma WrittenFileIsTheSequence(lines: Option<seq<Line>>, messages: seq<Message>, start: nat, end: nat)
    requires Holds(lines, messages) && NoMetadata(messages) && start <= end <= |messages|
    ensures lines.Some? ==> Range(lines.value, start, end) == messages[start..end]
    ensures lines.Some? && |messages| <= TAIL ==> Range(lines.value, start, TAIL) == messages[start..]
    ensures (if lines.Some? then Scanned(lines.value) else 0) == |messages|
  {
    if lines.Some? {
      HeldRecords(lines.value, messages);
      WindowOfWritten(messages, start, end);
      assert Clamp(end, |messages|) == end;
      if |messages| <= TAIL {
        WindowOfWritten(messages, start, TAIL);
        assert messages[start..|messages|] == messages[start..];
      }
    }
  }

  lemma HeldRecords(file: seq<Line>, messages: seq<Message>)
    requires file == [MetadataLine] + EncodeAll(messages) && NoMetadata(messages)
    ensures Records(file) == AsLines(messages) && Scanned(file) == |messages|
  {
    WrittenRecords(messages);
    RegularIsAll(messages);
    ScanCountsRecords(file);
    NoLateMetadata(messages);
  }

  lemma {:induction false} NoLateMetadata(messages: seq<Message>)
    requires NoMetadata(messages)
    ensures LateMetadata([MetadataLine] + EncodeAll(messages)) == 0
  {
    var file := [MetadataLine] + EncodeAll(messages);
    if messages == [] {
      assert file[..0] == [] && file == [MetadataLine];
    } else {
      var front := messages[..|messages| - 1];
      NoLateMetadata(front);
      assert file[..|file| - 1] == [MetadataLine] + EncodeAll(front);
    }
  }

  /** Appending extends the held sequence and leaves old indices where they were. */
  lemma AppendExtends(before: Option<seq<Line>>, after: seq<Line>, held: seq<Message>, added: seq<Message>)
    requires Holds(before, held)
    requires after == (if before.Some? then before.value else [MetadataLine]) + EncodeAll(added)
    ensures Holds(Some(after), held + added)
  {
    assert EncodeAll(held + added) == EncodeAll(held) + EncodeAll(added);
  }
}
