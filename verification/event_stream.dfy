/**
 * The `text/event-stream` framing the backend writes, and the part of the
 * event-stream interpretation of section 9.2.6 of the WHATWG HTML Living
 * Standard that a client applies to it: lines end at CRLF, LF or CR, a line starting
 * with ':' is a comment, `data` lines append their value and an LF to the
 * data buffer, and a blank line dispatches the buffer (minus its final LF)
 * unless the buffer is empty.
 */
module EventStream {
  import opened Common

  /** The record that closes a successful stream. */
  const DoneRecord: string := "data: [DONE]\n\n"

  /** One record carrying `payload` in a single `data` field. */
  function Frame(payload: string): string {
    "data: " + payload + "\n\n"
  }

  /** The closing record frames the payload `[DONE]`. */
  lemma DoneFrame()
    ensures DoneRecord == Frame("[DONE]") && OneLine("[DONE]")
  {
    assert "data: " + "[DONE]" + "\n\n" == DoneRecord;
  }

  /** The stream text made of one record per payload, in order. */
  function Frames(payloads: seq<string>): string {
    if payloads == [] then "" else Frame(payloads[0]) + Frames(payloads[1..])
  }

  /** The records themselves, concatenated as the response body sends them. */
  function Concat(records: seq<string>): string {
    if records == [] then "" else records[0] + Concat(records[1..])
  }

  /** A payload that fits on one line: it holds neither a line feed nor a carriage return. */
  predicate OneLine(p: string) {
    '\n' !in p && '\r' !in p
  }

  /** The position of the first CR or LF in `s`, or `|s|`. */
  function LineEnd(s: string): (k: nat)
    ensures k <= |s|
    ensures k < |s| ==> s[k] == '\n' || s[k] == '\r'
    ensures forall i :: 0 <= i < k ==> s[i] != '\n' && s[i] != '\r'
  {
    if |s| == 0 || s[0] == '\n' || s[0] == '\r' then 0 else 1 + LineEnd(s[1..])
  }

  /**
   * The complete lines of `s`: each ends at CRLF, at LF or at CR; a trailing
   * line without its end is never processed.
   */
  function Lines(s: string): (ls: seq<string>)
    ensures forall i :: 0 <= i < |ls| ==> OneLine(ls[i])
    decreases |s|
  {
    var k := LineEnd(s);
    if k == |s| then []
    else
      var next := if s[k] == '\r' && k + 1 < |s| && s[k + 1] == '\n' then k + 2 else k + 1;
      [s[..k]] + Lines(s[next..])
  }

  /** Field name and value of a non-blank, non-comment line; one leading space of the value is dropped. */
  function Field(line: string): (string, string) {
    var k := IndexOf(line, ':');
    if k == |line| then (line, "")
    else
      var v := line[k + 1..];
      (line[..k], if |v| > 0 && v[0] == ' ' then v[1..] else v)
  }

  /** The data of each dispatched event, given the lines still to read and the data buffer. */
  function Interpret(lines: seq<string>, data: string): seq<string> {
    if lines == [] then []
    else
      var line := lines[0];
      if line == "" then
        var dispatched :=
          if data == "" then []
          else if data[|data| - 1] == '\n' then [data[..|data| - 1]]
          else [data];
        dispatched + Interpret(lines[1..], "")
      else if line[0] == ':' then Interpret(lines[1..], data)
      else
        var (name, value) := Field(line);
        Interpret(lines[1..], if name == "data" then data + value + "\n" else data)
  }

  /** The data of every event a client receives from stream text `s`. */
  function Parse(s: string): seq<string> {
    Interpret(Lines(s), "")
  }

  lemma LinesOfFrame(p: string, rest: string)
    requires OneLine(p)
    ensures Lines(Frame(p) + rest) == ["data: " + p, ""] + Lines(rest)
  {
    LinesOfFrameHead(p, rest);
    LinesOfBlank(rest);
  }

  lemma LinesOfFrameHead(p: string, rest: string)
    requires OneLine(p)
    ensures Lines(Frame(p) + rest) == ["data: " + p] + Lines("\n" + rest)
  {
    var line := "data: " + p;
    assert OneLine(line);
    assert Frame(p) + rest == line + "\n" + ("\n" + rest);
    LinesHead(line, "\n" + rest);
  }

  lemma LinesOfBlank(rest: string)
    ensures Lines("\n" + rest) == [""] + Lines(rest)
  {
    assert "\n" + rest == "" + "\n" + rest;
    LinesHead("", rest);
  }

  /** Text without a line end before `b` moves the first line end by its length. */
  lemma {:induction false} LineEndAfter(a: string, b: string)
    requires OneLine(a)
    ensures LineEnd(a + b) == |a| + LineEnd(b)
  {
    if a != [] {
      assert (a + b)[1..] == a[1..] + b;
      LineEndAfter(a[1..], b);
    } else {
      assert a + b == b;
    }
  }

  /** A line without line ends, followed by LF, is the first line of the text. */
  lemma LinesHead(line: string, rest: string)
    requires OneLine(line)
    ensures Lines(line + "\n" + rest) == [line] + Lines(rest)
  {
    var s := line + "\n" + rest;
    assert s == line + ("\n" + rest);
    LineEndAfter(line, "\n" + rest);
    assert s[|line|] == '\n';
    assert s[..|line|] == line;
    assert s[|line| + 1..] == rest;
  }

  /** CRLF ends one line, not two; a CR not followed by LF ends a line on its own. */
  lemma LinesHeadCr(line: string, rest: string)
    requires OneLine(line)
    ensures Lines(line + "\r\n" + rest) == [line] + Lines(rest)
    ensures |rest| == 0 || rest[0] != '\n' ==> Lines(line + "\r" + rest) == [line] + Lines(rest)
  {
    var s := line + "\r\n" + rest;
    LineEndAfter(line, "\r\n" + rest);
    assert s == line + ("\r\n" + rest);
    assert s[|line|] == '\r' && s[|line| + 1] == '\n';
    assert s[..|line|] == line;
    assert s[|line| + 2..] == rest;
    var t := line + "\r" + rest;
    LineEndAfter(line, "\r" + rest);
    assert t == line + ("\r" + rest);
    assert t[|line|] == '\r';
    assert t[..|line|] == line;
    assert t[|line| + 1..] == rest;
  }

  lemma FieldOfData(p: string)
    ensures Field("data: " + p) == ("data", p)
  {
    var line := "data: " + p;
    assert line == "data" + (": " + p);
    IndexOfAfter("data", ": " + p, ':');
    assert line[..4] == "data";
    assert line[5..] == " " + p;
  }

  /**
   * Every record reaches the client as exactly its payload, in order,
   * provided no payload contains a line feed or a carriage return.
   */
  lemma {:induction false} ParseFrames(payloads: seq<string>)
    requires forall i :: 0 <= i < |payloads| ==> OneLine(payloads[i])
    ensures Parse(Frames(payloads)) == payloads
  {
    if payloads != [] {
      var p := payloads[0];
      var rest := Frames(payloads[1..]);
      LinesOfFrame(p, rest);
      FieldOfData(p);
      var ls := Lines(rest);
      calc {
        Parse(Frames(payloads));
        Interpret(["data: " + p, ""] + ls, "");
        { assert (["data: " + p, ""] + ls)[1..] == [""] + ls; }
        Interpret([""] + ls, "" + p + "\n");
        { assert ("" + p + "\n")[..|p|] == p; assert ([""] + ls)[1..] == ls; }
        [p] + Interpret(ls, "");
        { ParseFrames(payloads[1..]); }
        [p] + payloads[1..];
      }
    } else {
      assert Frames(payloads) == "";
    }
  }

  lemma {:induction false} ConcatOfFrames(payloads: seq<string>, records: seq<string>)
    requires |records| == |payloads|
    requires forall i :: 0 <= i < |records| ==> records[i] == Frame(payloads[i])
    ensures Concat(records) == Frames(payloads)
  {
    if records != [] {
      ConcatOfFrames(payloads[1..], records[1..]);
    }
  }

  /** Records that each frame one payload without CR or LF are read back as exactly those payloads. */
  lemma ParseRecords(payloads: seq<string>, records: seq<string>)
    requires |records| == |payloads|
    requires forall i :: 0 <= i < |records| ==> records[i] == Frame(payloads[i])
    requires forall i :: 0 <= i < |payloads| ==> OneLine(payloads[i])
    ensures Parse(Concat(records)) == payloads
  {
    ConcatOfFrames(payloads, records);
    ParseFrames(payloads);
  }
}
