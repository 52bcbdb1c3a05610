/** Event files as bytes: the writer appends a line feed to every JSON line, and the reader takes a file
    apart again. A JSON line is any text without line breaks; its own syntax is not modelled. */
module EvidenceFraming {
  import opened Options
  import opened EvidenceModel

  const LF: char := '\n'
  const CR: char := '\r'

  // ---------------------------------------------------------------- writing

  /** The file after these lines were written one by one. */
  function Framed(lines: seq<string>): string {
    if lines == [] then "" else Framed(lines[..|lines| - 1]) + lines[|lines| - 1] + [LF]
  }

  /** One line is appended. */
  method AppendLine(file: string, line: string, ghost lines: seq<string>) returns (after: string)
    requires file == Framed(lines)
    ensures after == Framed(lines + [line])
  {
    assert (lines + [line])[..|lines|] == lines;
    after := file + (line + [LF]);
    assert file + (line + [LF]) == file + line + [LF];
  }

  // ---------------------------------------------------------------- reading

  /** `bytes.Split(data, "\n")` */
  function SplitLines(data: string): (lines: seq<string>)
    ensures lines != []
    ensures forall line | line in lines :: LF !in line
  {
    if data == "" then [""]
    else
      var rest, last := SplitLines(data[..|data| - 1]), data[|data| - 1];
      if last == LF then rest + [""] else rest[..|rest| - 1] + [rest[|rest| - 1] + [last]]
  }

  ghost predicate HasCrLf(data: string) { exists i :: 0 <= i < |data| - 1 && data[i] == CR && data[i + 1] == LF }

  /** The lines of a file; None when it is framed badly. */
  ghost function LinesOf(data: string): Option<seq<string>> {
    if data == "" then Some([])
    else if data[|data| - 1] != LF || HasCrLf(data) || "" in SplitLines(data[..|data| - 1]) then None
    else Some(SplitLines(data[..|data| - 1]))
  }

  method ContainsCrLf(data: string) returns (found: bool)
    ensures found == HasCrLf(data)
  {
    for i := 0 to |data| - (if data == "" then 0 else 1)
      invariant forall j | 0 <= j < i :: !(data[j] == CR && data[j + 1] == LF)
    {
      if data[i] == CR && data[i + 1] == LF {
        return true;
      }
    }
    return false;
  }

  /** The framing checks of the reader, and its loop over the lines. */
  method ReadLines(data: string) returns (result: Option<seq<string>>)
    ensures result == LinesOf(data)
  {
    if data == "" {
      return Some([]);
    }
    if data[|data| - 1] != LF {
      return None;
    }
    var crlf := ContainsCrLf(data);
    if crlf {
      return None;
    }
    var lines := SplitLines(data[..|data| - 1]);
    for i := 0 to |lines|
      invariant forall j | 0 <= j < i :: lines[j] != ""
    {
      if lines[i] == "" {
        return None;
      }
    }
    return Some(lines);
  }

  // ---------------------------------------------------------------- round trips

  /** The lines joined by line feeds: the file without its last one. */
  function Joined(lines: seq<string>): string
    requires lines != []
  {
    Framed(lines[..|lines| - 1]) + lines[|lines| - 1]
  }

  lemma {:induction false} SplitAppends(data: string, line: string)
    requires LF !in line
    ensures var rest := SplitLines(data); SplitLines(data + line) == rest[..|rest| - 1] + [rest[|rest| - 1] + line]
  {
    if line == "" {
      var rest := SplitLines(data);
      assert data + line == data && rest[|rest| - 1] + line == rest[|rest| - 1];
    } else {
      var front, last := line[..|line| - 1], line[|line| - 1];
      assert line == front + [last];
      SplitAppends(data, front);
      assert (data + line)[..|data + line| - 1] == data + front;
      assert SplitLines(data)[|SplitLines(data)| - 1] + line == SplitLines(data)[|SplitLines(data)| - 1] + front + [last];
    }
  }

  lemma {:induction false} SplitUndoesJoin(lines: seq<string>)
    requires lines != [] && forall line | line in lines :: LF !in line
    ensures SplitLines(Joined(lines)) == lines
  {
    var front, last := lines[..|lines| - 1], lines[|lines| - 1];
    assert lines == front + [last];
    SplitAppends(Framed(front), last);
    assert "" + last == last;
    if front == [] {
      assert Framed(front) == "";
    } else {
      SplitUndoesJoin(front);
      assert Framed(front) == Joined(front) + [LF];
      assert Framed(front)[..|Framed(front)| - 1] == Joined(front);
      assert SplitLines(Framed(front)) == front + [""];
      assert (front + [""])[..|front|] == front;
    }
  }

  lemma {:induction false} JoinUndoesSplit(data: string)
    ensures Joined(SplitLines(data)) == data
  {
    var lines := SplitLines(data);
    if data == "" {
      assert lines[..0] == [];
    } else {
      var rest, last := SplitLines(data[..|data| - 1]), data[|data| - 1];
      JoinUndoesSplit(data[..|data| - 1]);
      assert data == data[..|data| - 1] + [last];
      if last == LF {
        assert lines[..|lines| - 1] == rest;
        assert Framed(rest) == Joined(rest) + [LF];
      } else {
        assert lines[..|lines| - 1] == rest[..|rest| - 1];
      }
    }
  }

  predicate EndsInCr(line: string) { line != "" && line[|line| - 1] == CR }

  /** A carriage return before a line feed in a file is one at the end of a line. */
  lemma {:induction false} CrLfIsAtALineEnd(lines: seq<string>)
    requires forall line | line in lines :: LF !in line
    ensures HasCrLf(Framed(lines)) <==> exists line :: line in lines && EndsInCr(line)
  {
    if lines != [] {
      var front, last := lines[..|lines| - 1], lines[|lines| - 1];
      assert lines == front + [last];
      CrLfIsAtALineEnd(front);
      CrLfAfterLine(Framed(front), last);
      EndsInLf(front);
    }
  }

  lemma EndsInLf(lines: seq<string>)
    ensures lines == [] <==> Framed(lines) == ""
    ensures lines != [] ==> Framed(lines)[|Framed(lines)| - 1] == LF
  {
  }

  lemma CrLfAfterLine(file: string, line: string)
    requires LF !in line && (file == "" || file[|file| - 1] == LF)
    ensures HasCrLf(file + line + [LF]) <==> HasCrLf(file) || EndsInCr(line)
  {
    var after := file + line + [LF];
    if HasCrLf(file) {
      var i :| 0 <= i < |file| - 1 && file[i] == CR && file[i + 1] == LF;
      assert after[i] == CR && after[i + 1] == LF;
    }
    if EndsInCr(line) {
      var i := |file| + |line| - 1;
      assert after[i] == CR && after[i + 1] == LF;
    }
    forall k | |file| <= k < |file| + |line| ensures after[k] != LF {
      assert after[k] == line[k - |file|];
    }
    if HasCrLf(after) {
      var i :| 0 <= i < |after| - 1 && after[i] == CR && after[i + 1] == LF;
      if i + 1 < |file| {
        assert file[i] == CR && file[i + 1] == LF;
      }
    }
  }

  /** A file reads back as the lines that were written exactly when no line is empty, has a line feed, or
      ends in a carriage return. */
  lemma FileReadsBack(lines: seq<string>)
    ensures LinesOf(Framed(lines)) == Some(lines) <==> forall line | line in lines :: line != "" && LF !in line && !EndsInCr(line)
  {
    if lines != [] && forall line | line in lines :: LF !in line {
      EndsInLf(lines);
      CrLfIsAtALineEnd(lines);
      SplitUndoesJoin(lines);
      assert Framed(lines) == Joined(lines) + [LF];
      assert Framed(lines)[..|Framed(lines)| - 1] == Joined(lines);
    }
  }

  /** An accepted file is the one file of its lines: nothing else is read the same way. */
  lemma AcceptedFileIsCanonical(data: string)
    requires LinesOf(data).Some?
    ensures data == Framed(LinesOf(data).value)
  {
    if data != "" {
      var body := data[..|data| - 1];
      JoinUndoesSplit(body);
      assert data == body + [LF];
      assert Framed(SplitLines(body)) == Joined(SplitLines(body)) + [LF];
    }
  }

  // ---------------------------------------------------------------- events

  /** The lines of a list of events under some encoding. */
  function EncodeAll(events: seq<Event>, encode: Event -> string): seq<string> {
    seq(|events|, i requires 0 <= i < |events| => encode(events[i]))
  }

  /** Compact JSON: a non-empty text without line breaks that settles the event. */
  ghost predicate IsLine(line: string) { line != "" && LF !in line && CR !in line }

  ghost predicate IsLineEncoding(encode: Event -> string) {
    (forall e :: IsLine(encode(e))) && forall d, e | encode(d) == encode(e) :: d == e
  }

  lemma EncodedReadsBack(events: seq<Event>, encode: Event -> string)
    requires forall e :: IsLine(encode(e))
    ensures LinesOf(Framed(EncodeAll(events, encode))) == Some(EncodeAll(events, encode))
  {
    var lines := EncodeAll(events, encode);
    forall line | line in lines ensures IsLine(line) && !EndsInCr(line) {
      var i :| 0 <= i < |lines| && lines[i] == line;
      assert IsLine(encode(events[i]));
    }
    FileReadsBack(lines);
  }

  lemma EncodingSettlesEvent(encode: Event -> string, d: Event, e: Event)
    requires IsLineEncoding(encode) && encode(d) == encode(e)
    ensures d == e
  {
  }

  /** The bytes of an event file settle its events, in order. */
  lemma FileSettlesEvents(events: seq<Event>, others: seq<Event>, encode: Event -> string)
    requires IsLineEncoding(encode) && Framed(EncodeAll(events, encode)) == Framed(EncodeAll(others, encode))
    ensures events == others
  {
    var lines, same := EncodeAll(events, encode), EncodeAll(others, encode);
    EncodedReadsBack(events, encode);
    EncodedReadsBack(others, encode);
    assert |events| == |lines| == |same| == |others|;
    forall i | 0 <= i < |events| ensures events[i] == others[i] {
      assert lines[i] == same[i];
      EncodingSettlesEvent(encode, events[i], others[i]);
    }
  }
}
