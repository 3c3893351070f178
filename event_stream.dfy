/** The event-stream framing the chat endpoint writes, as in the Server-sent
    events section (section 9.2) of the WHATWG HTML Living Standard: each
    event is one `data: ` line followed by a blank line. The reader here
    splits the body into lines at line feeds only (the standard's parser also
    ends a line at a carriage return) and takes the value of each `data: `
    line; the round trip below shows that it gets back exactly the payloads
    that were framed, for payloads without a line feed. */
module EventStream {

  const DataPrefix: string := "data: "
  const DoneSentinel: string := "[DONE]"

  /** One event: `data: <payload>` and the blank line that ends it. */
  function Frame(payload: string): (r: string)
    ensures |r| == |payload| + 8
    ensures IsFrame(r) && r[6..|r| - 2] == payload
  {
    var r := DataPrefix + payload + "\n\n";
    assert r[..6] == DataPrefix && r[|r| - 2..] == "\n\n" && r[6..|r| - 2] == payload;
    r
  }

  predicate IsFrame(s: string) {
    |s| >= 8 && s[..6] == DataPrefix && s[|s| - 2..] == "\n\n"
  }

  predicate HasNoNewline(s: string) {
    forall i :: 0 <= i < |s| ==> s[i] != '\n'
  }

  /** The body a sequence of writes produces. */
  function Join(writes: seq<string>): string {
    if writes == [] then [] else writes[0] + Join(writes[1..])
  }

  /** The frames of a sequence of payloads. */
  function Framed(payloads: seq<string>): (r: seq<string>)
    ensures |r| == |payloads|
    ensures forall k :: 0 <= k < |r| ==> r[k] == Frame(payloads[k])
  {
    if payloads == [] then [] else [Frame(payloads[0])] + Framed(payloads[1..])
  }

  /** The reader's line split: on every line feed (and on nothing else), the
      text after the last line feed being the final line. */
  function Lines(s: string): (r: seq<string>)
    ensures |r| >= 1
  {
    if s == [] then [[]]
    else if s[0] == '\n' then [[]] + Lines(s[1..])
    else
      var rest := Lines(s[1..]);
      [[s[0]] + rest[0]] + rest[1..]
  }

  predicate IsDataLine(line: string) {
    |line| >= 6 && line[..6] == DataPrefix
  }

  /** The values of the `data: ` lines, in order; other lines are skipped. */
  function DataValues(lines: seq<string>): seq<string> {
    if lines == [] then []
    else (if IsDataLine(lines[0]) then [lines[0][6..]] else []) + DataValues(lines[1..])
  }

  /** The payloads a reader recovers from a body. */
  function Events(body: string): seq<string> {
    DataValues(Lines(body))
  }

  /** A line without a line feed, then a line feed, splits off as one line. */
  lemma {:induction false} LinesAfterLine(line: string, rest: string)
    requires HasNoNewline(line)
    ensures Lines(line + "\n" + rest) == [line] + Lines(rest)
  {
    if line == [] {
      assert line + "\n" + rest == "\n" + rest;
      assert ("\n" + rest)[1..] == rest;
    } else {
      var s := line + "\n" + rest;
      assert s[1..] == line[1..] + "\n" + rest;
      LinesAfterLine(line[1..], rest);
      assert [s[0]] + line[1..] == line;
    }
  }

  /** A framed payload without line feeds reads back as one data line and one
      blank line. */
  lemma LinesAfterFrame(payload: string, rest: string)
    requires HasNoNewline(payload)
    ensures Lines(Frame(payload) + rest) == [DataPrefix + payload, []] + Lines(rest)
  {
    var line := DataPrefix + payload;
    assert HasNoNewline(line) by {
      forall i | 0 <= i < |line| ensures line[i] != '\n' {
        if i >= 6 { assert line[i] == payload[i - 6]; }
      }
    }
    assert Frame(payload) + rest == line + "\n" + ("\n" + rest);
    LinesAfterLine(line, "\n" + rest);
    assert ("\n" + rest)[1..] == rest;
  }

  /** Reading back the body of framed payloads gives the payloads, provided
      none of them holds a line feed. */
  lemma {:induction false} EventsOfFramed(payloads: seq<string>)
    requires forall k :: 0 <= k < |payloads| ==> HasNoNewline(payloads[k])
    ensures Events(Join(Framed(payloads))) == payloads
  {
    if payloads != [] {
      var p := payloads[0];
      var frames := Framed(payloads);
      assert frames[1..] == Framed(payloads[1..]);
      var rest := Join(frames[1..]);
      assert Join(frames) == Frame(p) + rest;
      LinesAfterFrame(p, rest);
      var lines := Lines(Join(frames));
      assert lines == [DataPrefix + p, []] + Lines(rest);
      assert (DataPrefix + p)[6..] == p;
      assert lines[1..] == [[]] + Lines(rest);
      assert lines[1..][1..] == Lines(rest);
      EventsOfFramed(payloads[1..]);
      assert DataValues(lines[1..]) == DataValues(Lines(rest));
      assert DataValues(lines) == [p] + DataValues(lines[1..]);
      assert payloads == [p] + payloads[1..];
    } else {
      assert Lines([]) == [[]];
    }
  }

  /** Framing distributes over concatenation. */
  lemma FramedAppend(a: seq<string>, b: seq<string>)
    ensures Framed(a + b) == Framed(a) + Framed(b)
  {
  }
}
