/** The widget's event-stream reader (the read loop inside ask() in
    frontend/public/embed.js): decoded text is appended to a buffer, the
    buffer is cut at every "\n\n", every complete record is parsed and its data
    appended to the answer text, and the unfinished tail stays buffered.
    Reads arrive as already-decoded text. */
module WidgetStream {
  import opened Wrappers
  import opened Text
  import opened EmbedIngest

  const RecordSep: string := "\n\n"

  // ---------------------------------------------------------------------------
  // Records of a text

  /** The complete records of a text: everything before its last "\n\n",
      cut at each "\n\n". */
  function Records(t: string): seq<string> {
    var parts := Split(t, RecordSep);
    parts[..|parts| - 1]
  }

  /** The unfinished tail: the text after the last "\n\n". */
  function Pending(t: string): (r: string)
    ensures !Contains(r, RecordSep)
  {
    var parts := Split(t, RecordSep);
    LastPartFree(t, RecordSep);
    parts[|parts| - 1]
  }

  lemma {:induction false} LastPartFree(s: string, sep: string)
    requires |sep| > 0
    ensures !Contains(Split(s, sep)[|Split(s, sep)| - 1], sep)
    decreases |s|
  {
    match IndexOf(s, sep)
    case None =>
      assert Split(s, sep) == [s];
    case Some(i) =>
      var rest := s[i + |sep|..];
      var ps := Split(rest, sep);
      LastPartFree(rest, sep);
      assert Split(s, sep) == [s[..i]] + ps;
      assert Split(s, sep)[|Split(s, sep)| - 1] == ps[|ps| - 1];
  }

  /** A first occurrence stays the first when text is appended. */
  lemma IndexOfExtend(s: string, c: string, pat: string)
    requires |pat| > 0 && IndexOf(s, pat).Some?
    ensures IndexOf(s + c, pat) == IndexOf(s, pat)
  {
    var i := IndexOf(s, pat).value;
    var t := s + c;
    assert t[i..i + |pat|] == s[i..i + |pat|];
    assert OccursAt(t, pat, i);
    forall j | 0 <= j < i ensures !OccursAt(t, pat, j) {
      assert !OccursAt(s, pat, j);
      assert t[j..j + |pat|] == s[j..j + |pat|];
    }
    var k := IndexOf(t, pat);
    assert k.Some?;
    assert k.value <= i;
    assert k.value >= i;
  }

  /** Splitting after more text has arrived: the complete records of what was
      there are kept, and only the old tail joined with the new text is cut
      again. */
  lemma {:induction false} SplitAppend(s: string, c: string)
    ensures Split(s + c, RecordSep) == Records(s) + Split(Pending(s) + c, RecordSep)
    decreases |s|
  {
    match IndexOf(s, RecordSep)
    case None =>
      assert Split(s, RecordSep) == [s];
    case Some(i) =>
      IndexOfExtend(s, c, RecordSep);
      var tail := s[i + 2..];
      assert (s + c)[..i] == s[..i];
      assert (s + c)[i + 2..] == tail + c;
      assert Split(s + c, RecordSep) == [s[..i]] + Split(tail + c, RecordSep);
      SplitAppend(tail, c);
      RecordsFirst(s, i);
      assert [s[..i]] + (Records(tail) + Split(Pending(tail) + c, RecordSep))
          == ([s[..i]] + Records(tail)) + Split(Pending(tail) + c, RecordSep);
  }

  /** Cutting at the first "\n\n": that record, then the records and the tail
      of the rest. */
  lemma RecordsFirst(s: string, i: nat)
    requires IndexOf(s, RecordSep) == Some(i)
    ensures Records(s) == [s[..i]] + Records(s[i + 2..])
    ensures Pending(s) == Pending(s[i + 2..])
  {
    var ps := Split(s[i + 2..], RecordSep);
    assert Split(s, RecordSep) == [s[..i]] + ps;
    assert ([s[..i]] + ps)[..|ps|] == [s[..i]] + ps[..|ps| - 1];
  }

  // ---------------------------------------------------------------------------
  // One record

  /** The event name an `event:` line sets: the trimmed rest of the line. */
  function LineEvent(line: string): Option<string> {
    if StartsWith(line, "event:") then Some(JsTrim(line[6..])) else None
  }

  /** The event name of a record's lines: the one of its last `event:` line. */
  function EventOf(lines: seq<string>): Option<string>
    decreases |lines|
  {
    if |lines| == 0 then None
    else match LineEvent(lines[|lines| - 1])
      case Some(e) => Some(e)
      case None => EventOf(lines[..|lines| - 1])
  }

  /** The data of a record's lines: each `data:` line (that is not an `event:`
      line) without its prefix and leading whitespace, in order. Other lines,
      comments among them, contribute nothing. */
  function DataOf(lines: seq<string>): seq<string>
    decreases |lines|
  {
    if |lines| == 0 then []
    else
      var line := lines[|lines| - 1];
      DataOf(lines[..|lines| - 1])
        + (if !StartsWith(line, "event:") && StartsWith(line, "data:") then [JsTrimStart(line[5..])] else [])
  }

  /** The inner loop over a record's lines. */
  method ParseRecord(rec: string) returns (eventName: Option<string>, dataLines: seq<string>)
    ensures eventName == EventOf(Split(rec, "\n"))
    ensures dataLines == DataOf(Split(rec, "\n"))
  {
    var lines := Split(rec, "\n");
    eventName := None;
    dataLines := [];
    var i := 0;
    while i < |lines|
      invariant 0 <= i <= |lines|
      invariant eventName == EventOf(lines[..i])
      invariant dataLines == DataOf(lines[..i])
    {
      var line := lines[i];
      LinesSnoc(lines, i);
      if StartsWith(line, "event:") {
        eventName := Some(JsTrim(line[6..]));
      } else if StartsWith(line, "data:") {
        dataLines := dataLines + [JsTrimStart(line[5..])];
      }
      i := i + 1;
    }
    assert lines[..|lines|] == lines;
  }

  /** One more line: an `event:` line sets the event name, a `data:` line
      adds its data, and any other line changes neither. */
  lemma LinesSnoc(lines: seq<string>, i: nat)
    requires i < |lines|
    ensures StartsWith(lines[i], "event:") ==> EventOf(lines[..i + 1]) == Some(JsTrim(lines[i][6..]))
    ensures !StartsWith(lines[i], "event:") ==> EventOf(lines[..i + 1]) == EventOf(lines[..i])
    ensures DataOf(lines[..i + 1]) == DataOf(lines[..i])
      + (if !StartsWith(lines[i], "event:") && StartsWith(lines[i], "data:") then [JsTrimStart(lines[i][5..])] else [])
  {
    var pre := lines[..i + 1];
    assert pre[..i] == lines[..i];
    assert pre[i] == lines[i];
  }

  /** What a record adds to the answer text: nothing for a `citations`
      event; otherwise its data lines joined by "\n" and followed by "\n",
      or nothing when that data is empty. */
  function RecordText(rec: string): (r: string)
    ensures r == "" || r[|r| - 1] == '\n'
  {
    var lines := Split(rec, "\n");
    if EventOf(lines) == Some("citations") then ""
    else
      var d := Join(DataOf(lines), "\n");
      if d == "" then "" else d + "\n"
  }

  /** The text of a series of records: what each adds, in order. */
  function TextOf(recs: seq<string>): string
    decreases |recs|
  {
    if |recs| == 0 then "" else TextOf(recs[..|recs| - 1]) + RecordText(recs[|recs| - 1])
  }

  lemma {:induction false} TextOfAppend(a: seq<string>, b: seq<string>)
    ensures TextOf(a + b) == TextOf(a) + TextOf(b)
    decreases |b|
  {
    if |b| == 0 {
      assert a + b == a;
    } else {
      var b' := b[..|b| - 1];
      var x := b[|b| - 1];
      assert (a + b)[..|a + b| - 1] == a + b';
      assert (a + b)[|a + b| - 1] == x;
      TextOfAppend(a, b');
      AppendAssoc(TextOf(a), TextOf(b'), RecordText(x));
    }
  }

  lemma TextOfOne(rec: string)
    ensures TextOf([rec]) == RecordText(rec)
  {
    assert [rec][..0] == [];
  }

  lemma TextOfSnoc(recs: seq<string>, j: nat)
    requires j < |recs|
    ensures TextOf(recs[..j + 1]) == TextOf(recs[..j]) + RecordText(recs[j])
  {
    assert recs[..j + 1] == recs[..j] + [recs[j]];
    TextOfAppend(recs[..j], [recs[j]]);
    TextOfOne(recs[j]);
  }

  lemma AppendAssoc(a: string, b: string, c: string)
    ensures (a + b) + c == a + (b + c)
  {
  }

  /** The answer text shown once the text t has been received. */
  function Received(t: string): string {
    TextOf(Records(t))
  }

  // ---------------------------------------------------------------------------
  // The read loop

  /** Parses one record and returns what it adds to the answer text. */
  method HandleRecord(rec: string) returns (added: string)
    ensures added == RecordText(rec)
  {
    var eventName, dataLines := ParseRecord(rec);
    added := "";
    if eventName != Some("citations") {
      var dataStr := Join(dataLines, "\n");
      added := if dataStr != "" then dataStr + "\n" else "";
    }
  }

  /** Handles the records cut from the buffer after one read. */
  method HandleRecords(aiText: string, recs: seq<string>) returns (r: string)
    ensures r == aiText + TextOf(recs)
  {
    r := aiText;
    var j := 0;
    while j < |recs|
      invariant 0 <= j <= |recs|
      invariant r == aiText + TextOf(recs[..j])
    {
      var added := HandleRecord(recs[j]);
      TextOfSnoc(recs, j);
      AppendAssoc(aiText, TextOf(recs[..j]), added);
      r := r + added;
      j := j + 1;
    }
    assert recs[..j] == recs;
  }

  /** The read loop: chunks is the decoded text of each read, in order. The
      answer text and the buffer depend only on the concatenation of the reads,
      never on where the reads split it: every complete record is handled
      exactly once, and the text after the last "\n\n" is left in the buffer
      and never shown. */
  method ConsumeStream(chunks: seq<string>) returns (aiText: string, buf: string, gotFirstByte: bool)
    ensures aiText == Received(Concat(chunks))
    ensures buf == Pending(Concat(chunks))
    ensures gotFirstByte <==> |chunks| > 0
  {
    aiText := "";
    buf := "";
    gotFirstByte := false;
    var i := 0;
    assert Split("", RecordSep) == [""];
    while i < |chunks|
      invariant 0 <= i <= |chunks|
      invariant buf == Pending(Concat(chunks[..i]))
      invariant aiText == Received(Concat(chunks[..i]))
      invariant gotFirstByte <==> i > 0
    {
      var value := chunks[i];
      gotFirstByte := true;
      ghost var before := Concat(chunks[..i]);
      assert chunks[..i + 1][..i] == chunks[..i];
      assert Concat(chunks[..i + 1]) == before + value;
      ReadStep(before, value);
      buf := buf + value;
      var parts := Split(buf, RecordSep);
      buf := parts[|parts| - 1];
      aiText := HandleRecords(aiText, parts[..|parts| - 1]);
      i := i + 1;
    }
    assert chunks[..|chunks|] == chunks;
  }

  /** One read: the records completed by the new text are shown after the
      ones shown before, and the buffer keeps the new tail. */
  lemma ReadStep(before: string, value: string)
    ensures var parts := Split(Pending(before) + value, RecordSep);
            Received(before + value) == Received(before) + TextOf(parts[..|parts| - 1])
            && Pending(before + value) == parts[|parts| - 1]
  {
    var parts := Split(Pending(before) + value, RecordSep);
    SplitAppend(before, value);
    TextOfAppend(Records(before), parts[..|parts| - 1]);
    assert Records(before + value) == Records(before) + parts[..|parts| - 1];
  }

  /** Text received after a complete record that never completes another is
      never shown. */
  lemma PendingNotShown(t: string, tail: string)
    requires !Contains(Pending(t) + tail, RecordSep)
    ensures Received(t + tail) == Received(t)
  {
    SplitAppend(t, tail);
    var u := Pending(t) + tail;
    assert forall j :: 0 <= j <= |u| ==> !OccursAt(u, RecordSep, j);
    assert IndexOf(u, RecordSep).None?;
    assert Split(u, RecordSep) == [u];
    assert Records(t + tail) == Records(t);
  }

  // ---------------------------------------------------------------------------
  // Round trip with the server's framing

  /** What an answer line shows: its left-trimmed text and a newline, or
      nothing when that is empty. */
  function LineText(line: string): (r: string)
    ensures r == "" || r == JsTrimStart(line) + "\n"
  {
    var t := JsTrimStart(line);
    if t == "" then "" else t + "\n"
  }

  /** The shown text of a series of answer lines. */
  function LinesText(lines: seq<string>): string
    decreases |lines|
  {
    if |lines| == 0 then "" else LinesText(lines[..|lines| - 1]) + LineText(lines[|lines| - 1])
  }

  /** No "\n\n" inside and no "\n" at the end: the text before a "\n\n" is
      then cut exactly there. */
  predicate RecordShaped(x: string) {
    (forall j :: 0 <= j < |x| - 1 ==> !(x[j] == '\n' && x[j + 1] == '\n'))
    && (|x| == 0 || x[|x| - 1] != '\n')
  }

  lemma SplitAfterRecord(x: string, rest: string)
    requires RecordShaped(x)
    ensures Split(x + RecordSep + rest, RecordSep) == [x] + Split(rest, RecordSep)
  {
    var s := x + RecordSep + rest;
    assert s[|x|..|x| + 2] == RecordSep;
    assert OccursAt(s, RecordSep, |x|);
    forall j | 0 <= j < |x| ensures !OccursAt(s, RecordSep, j) {
      assert s[j] == x[j];
      if j + 1 < |x| {
        assert s[j + 1] == x[j + 1];
        assert !(s[j] == '\n' && s[j + 1] == '\n');
      } else {
        assert s[j] != '\n';
      }
      assert s[j..j + 2] != RecordSep by {
        assert s[j..j + 2][0] == s[j] && s[j..j + 2][1] == s[j + 1];
      }
    }
    var k := IndexOf(s, RecordSep);
    assert k == Some(|x|);
    assert s[..|x|] == x;
    assert s[|x| + 2..] == rest;
  }

  function DataRecords(lines: seq<string>): (r: seq<string>)
    ensures |r| == |lines| && forall k :: 0 <= k < |lines| ==> r[k] == DataRecord(lines[k])
  {
    seq(|lines|, k requires 0 <= k < |lines| => DataRecord(lines[k]))
  }

  /** The data line of an answer line holds no newline. */
  lemma DataLineShaped(l: string)
    requires NoBreak(l)
    ensures '\n' !in "data: " + l && RecordShaped("data: " + l)
  {
    var x := "data: " + l;
    forall j | 0 <= j < |x| ensures x[j] != '\n' {
      if j >= 6 {
        assert x[j] == l[j - 6];
        assert !IsLineBreak(l[j - 6]);
      }
    }
  }

  /** The data line of each answer line. */
  function DataLines(lines: seq<string>): (r: seq<string>)
    ensures |r| == |lines| && forall k :: 0 <= k < |lines| ==> r[k] == "data: " + lines[k]
  {
    seq(|lines|, k requires 0 <= k < |lines| => "data: " + lines[k])
  }

  lemma DataRecordsCons(lines: seq<string>)
    requires |lines| > 0
    ensures DataRecords(lines) == [DataRecord(lines[0])] + DataRecords(lines[1..])
  {
    var a := DataRecords(lines);
    var b := [DataRecord(lines[0])] + DataRecords(lines[1..]);
    forall k | 0 <= k < |a| ensures a[k] == b[k] {
      if k > 0 {
        assert b[k] == DataRecords(lines[1..])[k - 1];
        assert lines[1..][k - 1] == lines[k];
      }
    }
  }

  lemma DataLinesCons(lines: seq<string>)
    requires |lines| > 0
    ensures DataLines(lines) == ["data: " + lines[0]] + DataLines(lines[1..])
  {
    var a := DataLines(lines);
    var b := ["data: " + lines[0]] + DataLines(lines[1..]);
    forall k | 0 <= k < |a| ensures a[k] == b[k] {
      if k > 0 {
        assert b[k] == DataLines(lines[1..])[k - 1];
        assert lines[1..][k - 1] == lines[k];
      }
    }
  }

  /** The first answer line's record, then the others'. */
  lemma DataRecordsHead(lines: seq<string>)
    requires |lines| > 0
    ensures Concat(DataRecords(lines)) == "data: " + lines[0] + RecordSep + Concat(DataRecords(lines[1..]))
    ensures DataLines(lines) == ["data: " + lines[0]] + DataLines(lines[1..])
  {
    var x := DataRecord(lines[0]);
    DataRecordsCons(lines);
    DataLinesCons(lines);
    ConcatAppend([x], DataRecords(lines[1..]));
    assert Concat([x]) == x by {
      assert [x][..0] == [];
      assert Concat([x]) == "" + x;
    }
  }

  /** A record in front of a text whose cut is known. */
  lemma SplitRecordThen(x: string, rest: string, recs: seq<string>, after: seq<string>)
    requires RecordShaped(x) && Split(rest, RecordSep) == recs + after
    ensures Split(x + RecordSep + rest, RecordSep) == ([x] + recs) + after
  {
    SplitAfterRecord(x, rest);
  }

  /** The server's answer records, cut by the client. */
  lemma {:induction false} SplitDataRecords(lines: seq<string>, tail: string)
    requires forall k :: 0 <= k < |lines| ==> NoBreak(lines[k])
    ensures Split(Concat(DataRecords(lines)) + tail, RecordSep) == DataLines(lines) + Split(tail, RecordSep)
    decreases |lines|
  {
    if |lines| > 0 {
      var x := "data: " + lines[0];
      var rest := Concat(DataRecords(lines[1..])) + tail;
      DataRecordsHead(lines);
      DataLineShaped(lines[0]);
      assert Concat(DataRecords(lines)) + tail == x + RecordSep + rest;
      SplitDataRecords(lines[1..], tail);
      SplitRecordThen(x, rest, DataLines(lines[1..]), Split(tail, RecordSep));
    } else {
      assert Concat(DataRecords(lines)) + tail == tail;
    }
  }

  lemma NoNewlineSplit(x: string)
    requires '\n' !in x
    ensures Split(x, "\n") == [x]
  {
    forall j | 0 <= j < |x| ensures !OccursAt(x, "\n", j) {
      assert x[j..j + 1][0] == x[j];
    }
    assert IndexOf(x, "\n").None?;
  }

  lemma TrimStartSpace(l: string)
    ensures JsTrimStart(" " + l) == JsTrimStart(l)
  {
    assert (" " + l)[1..] == l;
  }

  /** A data record of an answer line shows what the line shows. */
  lemma DataRecordText(l: string)
    requires NoBreak(l)
    ensures RecordText("data: " + l) == LineText(l)
  {
    var x := "data: " + l;
    DataLineShaped(l);
    NoNewlineSplit(x);
    DataLineFields(l);
    var t := JsTrimStart(l);
    assert Join([t], "\n") == t;
    assert RecordText(x) == (if t == "" then "" else t + "\n");
  }

  /** The one line of a data record: no event name, and the line's text as
      its data. */
  lemma DataLineFields(l: string)
    ensures EventOf(["data: " + l]) == None
    ensures DataOf(["data: " + l]) == [JsTrimStart(l)]
  {
    var x := "data: " + l;
    assert !StartsWith(x, "event:") by {
      assert x[0] == 'd';
    }
    assert StartsWith(x, "data:") by {
      assert x[..5] == "data:";
    }
    assert x[5..] == " " + l;
    TrimStartSpace(l);
    assert [x][..0] == [];
  }

  const CitationsLine: string := "event: citations"

  /** The citations record's two lines. */
  lemma CitationsLines(payloadJson: string)
    requires '\n' !in payloadJson
    ensures Split(CitationsEvent + "data: " + payloadJson, "\n") == [CitationsLine, "data: " + payloadJson]
  {
    var b := "data: " + payloadJson;
    assert CitationsEvent == CitationsLine + "\n";
    assert CitationsEvent + "data: " + payloadJson == CitationsLine + "\n" + b;
    assert '\n' !in b by {
      forall j | 0 <= j < |b| ensures b[j] != '\n' {
        if j >= 6 {
          assert b[j] == payloadJson[j - 6];
        }
      }
    }
    assert '\n' !in CitationsLine;
    assert Join([CitationsLine, b], "\n") == CitationsLine + "\n" + b by {
      assert [CitationsLine, b][1..] == [b];
    }
    SplitJoin([CitationsLine, b], "\n");
  }

  lemma DataLineNoEvent(b: string)
    requires StartsWith(b, "data:")
    ensures LineEvent(b) == None
  {
    assert b[..5][0] == 'd';
    assert !StartsWith(b, "event:") by {
      if |b| >= 6 {
        assert b[..6][0] == b[..5][0];
      }
    }
  }

  lemma CitationsLineEvent()
    ensures LineEvent(CitationsLine) == Some("citations")
  {
    var name := "citations";
    assert StartsWith(CitationsLine, "event:");
    assert CitationsLine[6..] == [' '] + name;
    assert ([' '] + name)[1..] == name;
    assert !IsJsSpace(name[0]) && !IsJsSpace(name[|name| - 1]);
    assert TrimStart(name, IsJsSpace) == name;
    assert TrimStart([' '] + name, IsJsSpace) == name;
    assert TrimEnd(name, IsJsSpace) == name;
  }

  lemma CitationsEventName(b: string)
    requires StartsWith(b, "data:")
    ensures EventOf([CitationsLine, b]) == Some("citations")
  {
    DataLineNoEvent(b);
    CitationsLineEvent();
    assert [CitationsLine, b][..1] == [CitationsLine];
    assert EventOf([CitationsLine, b]) == EventOf([CitationsLine]);
  }

  /** The citations record shows nothing. */
  lemma CitationsRecordText(payloadJson: string)
    requires '\n' !in payloadJson
    ensures RecordText(CitationsEvent + "data: " + payloadJson) == ""
  {
    CitationsLines(payloadJson);
    CitationsEventName("data: " + payloadJson);
  }

  lemma {:induction false} DataRecordsText(lines: seq<string>)
    requires forall k :: 0 <= k < |lines| ==> NoBreak(lines[k])
    ensures TextOf(DataLines(lines)) == LinesText(lines)
    decreases |lines|
  {
    if |lines| > 0 {
      var n := |lines| - 1;
      var recs := DataLines(lines);
      assert recs[..n] == DataLines(lines[..n]);
      assert recs == recs[..n] + [recs[n]];
      TextOfAppend(recs[..n], [recs[n]]);
      TextOfOne(recs[n]);
      DataRecordsText(lines[..n]);
      DataRecordText(lines[n]);
    }
  }

  /** The citations record, as the client cuts it out of the stream. */
  function CitationsRecord(payloadJson: string): string {
    CitationsEvent + "data: " + payloadJson
  }

  lemma CitationsShaped(payloadJson: string)
    requires '\n' !in payloadJson
    ensures RecordShaped(CitationsRecord(payloadJson))
  {
    var last := CitationsRecord(payloadJson);
    var a := CitationsEvent + "data: ";
    assert last == a + payloadJson;
    forall j | 0 <= j < |last| - 1 ensures !(last[j] == '\n' && last[j + 1] == '\n') {
      if j + 1 >= |a| {
        assert last[j + 1] == payloadJson[j + 1 - |a|];
      } else {
        assert last[j + 1] == a[j + 1];
      }
    }
    if |payloadJson| > 0 {
      assert last[|last| - 1] == payloadJson[|payloadJson| - 1];
    }
  }

  lemma ConcatPair(a: string, b: string)
    ensures Concat([a, b]) == a + b
  {
    assert [a, b][..1] == [a];
    assert [a][..0] == [];
    assert Concat([a]) == "" + a == a;
  }

  /** The generator's records: the answer lines' records, then the two of the
      citations event. */
  lemma ChunksSplit(answer: string, payloadJson: string)
    ensures SseChunks(answer, payloadJson)
            == DataRecords(SplitLines(answer)) + [CitationsEvent, DataRecord(payloadJson)]
  {
  }

  /** The stream is the answer lines' records followed by the citations record. */
  lemma SseBodyShape(answer: string, payloadJson: string)
    ensures SseBody(answer, payloadJson)
            == Concat(DataRecords(SplitLines(answer))) + (CitationsRecord(payloadJson) + RecordSep + "")
  {
    var dr := DataRecords(SplitLines(answer));
    var d := DataRecord(payloadJson);
    ChunksSplit(answer, payloadJson);
    ConcatAppend(dr, [CitationsEvent, d]);
    ConcatPair(CitationsEvent, d);
    assert CitationsEvent + d == CitationsRecord(payloadJson) + RecordSep + "";
  }

  /** Answer records, then one more record and its "\n\n", as the client cuts
      them. */
  lemma SplitShape(lines: seq<string>, last: string)
    requires forall k :: 0 <= k < |lines| ==> NoBreak(lines[k])
    requires RecordShaped(last)
    ensures Split(Concat(DataRecords(lines)) + (last + RecordSep + ""), RecordSep)
            == DataLines(lines) + [last, ""]
  {
    SplitDataRecords(lines, last + RecordSep + "");
    SplitAfterRecord(last, "");
    assert Split("", RecordSep) == [""];
  }

  /** The records the client cuts out of the whole stream. */
  lemma SseRecords(answer: string, payloadJson: string)
    requires '\n' !in payloadJson
    ensures var lines := SplitLines(answer);
            Records(SseBody(answer, payloadJson))
            == DataLines(lines) + [CitationsRecord(payloadJson)]
    ensures Pending(SseBody(answer, payloadJson)) == ""
  {
    var lines := SplitLines(answer);
    var recs := DataLines(lines);
    var last := CitationsRecord(payloadJson);
    SseBodyShape(answer, payloadJson);
    CitationsShaped(payloadJson);
    SplitShape(lines, last);
    assert (recs + [last, ""])[..|recs| + 1] == recs + [last];
  }

  /** The server's stream, read by the widget in any number of reads of any
      size, shows every answer line whose left-trim is non-empty, left-trimmed
      and followed by "\n", in order; the citations record adds nothing and the
      buffer ends empty. This holds for any payload without a raw newline,
      which json.dumps never emits. */
  lemma StreamRoundTrip(answer: string, payloadJson: string)
    requires '\n' !in payloadJson
    ensures Received(SseBody(answer, payloadJson)) == LinesText(SplitLines(answer))
    ensures Pending(SseBody(answer, payloadJson)) == ""
  {
    var lines := SplitLines(answer);
    var recs := DataLines(lines);
    var last := CitationsRecord(payloadJson);
    SseRecords(answer, payloadJson);
    TextOfAppend(recs, [last]);
    TextOfOne(last);
    CitationsRecordText(payloadJson);
    DataRecordsText(lines);
  }
}
