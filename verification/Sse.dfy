/** The server-sent event printer of the streams and the line parser of the certification client. */
module Sse {
  import opened PyValues
  import opened Text

  /** `format_sse`, with the payload as the text of its JSON. */
  function FormatSse(name: string, data: string): string {
    "event: " + name + "\n" + ("data: " + data + "\n" + "\n")
  }

  /** How much of the text a `readline` takes: up to and with the first line break. */
  function LineEnd(s: string): (n: nat)
    ensures n <= |s| && (s != "" ==> n > 0)
  {
    if s == "" then 0 else if s[0] == '\n' then 1 else 1 + LineEnd(s[1..])
  }

  datatype Reading =
    | Parsed(name: Option<string>, data: string, rest: string)
    | Ended(name: Option<string>)

  const EVENT := "event:"

  const DATA := "data:"

  /** What reading lines gives, from the fields read so far. */
  function Read(s: string, name: Option<string>, lines: seq<string>): Reading
    decreases |s|
  {
    if s == "" then Ended(name)
    else
      var line, rest := Strip(s[..LineEnd(s)]), s[LineEnd(s)..];
      if line == "" then if lines != [] then Parsed(name, Join(lines, '\n'), rest) else Read(rest, None, [])
      else if EVENT <= line then Read(rest, Some(Strip(line[6..])), lines)
      else if DATA <= line then Read(rest, name, lines + [Strip(line[5..])])
      else Read(rest, name, lines)
  }

  /** The parser's loop. */
  method HttpSseEvent(input: string) returns (reading: Reading)
    ensures reading == Read(input, None, [])
  {
    var s, name: Option<string>, lines: seq<string> := input, None, [];
    while s != ""
      invariant Read(input, None, []) == Read(s, name, lines)
      decreases |s|
    {
      var n := LineEnd(s);
      var line := Strip(s[..n]);
      s := s[n..];
      if line == "" {
        if lines != [] {
          return Parsed(name, Join(lines, '\n'), s);
        }
        name, lines := None, [];
      } else if EVENT <= line {
        name := Some(Strip(line[6..]));
      } else if DATA <= line {
        lines := lines + [Strip(line[5..])];
      }
    }
    reading := Ended(name);
  }

  /** Text that fits in one field: one line, no white space at its ends. */
  predicate Clean(s: string) {
    '\n' !in s && Trimmed(s)
  }

  lemma {:induction false} LineEndOf(line: string, rest: string)
    requires '\n' !in line
    ensures LineEnd(line + "\n" + rest) == |line| + 1
  {
    if line == "" {
      assert line + "\n" + rest == "\n" + rest;
    } else {
      assert line[0] in line && forall c :: c in line[1..] ==> c in line;
      LineEndOf(line[1..], rest);
      assert (line + "\n" + rest)[1..] == line[1..] + "\n" + rest;
    }
  }

  lemma OneLine(line: string, rest: string)
    requires '\n' !in line
    ensures var s := line + "\n" + rest; s[..LineEnd(s)] == line + "\n" && s[LineEnd(s)..] == rest
  {
    LineEndOf(line, rest);
  }

  lemma StripBreak(s: string)
    requires s == "" || !IsSpace(s[0])
    ensures Strip(s + "\n") == RStrip(s)
  {
    assert (s + "\n")[..|s|] == s;
    assert "\n"[1..] == "";
  }

  /** A field line, stripped, gives back its key and its value. */
  lemma FieldLine(key: string, value: string)
    requires key != "" && Trimmed(key) && Clean(value)
    ensures var line := Strip(key + " " + value + "\n"); line != "" && key <= line && Strip(line[|key|..]) == value
  {
    var s := key + " " + value;
    StripBreak(s);
    if value == "" {
      assert s == key + " " && s[..|key|] == key;
      assert RStrip(s) == RStrip(key) == key;
    } else {
      assert s[|s| - 1] == value[|value| - 1];
      assert RStrip(s) == s && s[|key|..] == " " + value;
      StripBlank(value);
    }
  }

  lemma StripBlank(value: string)
    requires Trimmed(value)
    ensures Strip(" " + value) == value
  {
    assert (" " + value)[1..] == value;
  }

  lemma ReadEventLine(name: string, rest: string, was: Option<string>, lines: seq<string>)
    requires Clean(name)
    ensures Read("event: " + name + "\n" + rest, was, lines) == Read(rest, Some(name), lines)
  {
    var line := "event: " + name;
    assert line == EVENT + " " + name;
    OneLine(line, rest);
    FieldLine(EVENT, name);
    hide Strip, LineEnd;
  }

  lemma ReadDataLine(data: string, rest: string, was: Option<string>, lines: seq<string>)
    requires Clean(data)
    ensures Read("data: " + data + "\n" + rest, was, lines) == Read(rest, was, lines + [data])
  {
    var line := "data: " + data;
    assert line == DATA + " " + data;
    OneLine(line, rest);
    FieldLine(DATA, data);
    hide LineEnd;
    var stripped := Strip(line + "\n");
    assert stripped[0] == 'd';
    hide Strip;
  }

  lemma ReadBlankLine(rest: string, was: Option<string>, lines: seq<string>)
    requires lines != []
    ensures Read("\n" + rest, was, lines) == Parsed(was, Join(lines, '\n'), rest)
  {
    OneLine("", rest);
    assert "" + "\n" + rest == "\n" + rest;
    StripBreak("");
  }

  /** The parser gives back the name and the data of a printed frame and stops right behind it, whatever follows. */
  lemma RoundTrip(name: string, data: string, more: string)
    requires Clean(name) && Clean(data)
    ensures Read(FormatSse(name, data) + more, None, []) == Parsed(Some(name), data, more)
  {
    hide Read, Clean, Strip;
    var end := "\n" + more;
    var tail := "data: " + data + "\n" + end;
    assert FormatSse(name, data) + more == "event: " + name + "\n" + tail;
    ReadEventLine(name, tail, None, []);
    ReadDataLine(data, end, Some(name), []);
    assert [] + [data] == [data];
    ReadBlankLine(more, Some(name), [data]);
    assert Join([data], '\n') == data;
  }

  lemma {:induction false} BreakAtEnd(s: string)
    ensures var n := LineEnd(s); forall i :: 0 <= i < n - 1 ==> s[i] != '\n'
  {
    if s != "" && s[0] != '\n' {
      BreakAtEnd(s[1..]);
    }
  }

  lemma {:induction false} StrippedParts(s: string)
    ensures forall c :: c in LStrip(s) ==> c in s
    ensures forall c :: c in RStrip(s) ==> c in s
  {
    if s == "" {
    } else {
      StrippedParts(s[1..]);
      StrippedParts(s[..|s| - 1]);
      assert forall c :: c in s[1..] || c in s[..|s| - 1] ==> c in s;
    }
  }

  /** A stripped line has no line break in it. */
  lemma LineIsClean(s: string)
    ensures Clean(Strip(s[..LineEnd(s)]))
  {
    var line := s[..LineEnd(s)];
    BreakAtEnd(s);
    hide LineEnd;
    if line != "" && line[|line| - 1] == '\n' {
      var body := line[..|line| - 1];
      assert line == body + "\n" && '\n' !in body;
      TrailingBreak(body);
    } else {
      assert '\n' !in line;
      StrippedParts(line);
      StrippedParts(LStrip(line));
    }
  }

  lemma TrailingBreak(body: string)
    requires '\n' !in body
    ensures '\n' !in Strip(body + "\n")
  {
    LeadingStripped(body);
    var inner := LStrip(body);
    StrippedParts(body);
    StrippedParts(inner);
    if inner != "" {
      assert (inner + "\n")[..|inner|] == inner;
    }
  }

  lemma {:induction false} LeadingStripped(body: string)
    ensures LStrip(body + "\n") == if LStrip(body) == "" then "" else LStrip(body) + "\n"
  {
    if body == "" {
      assert "\n"[1..] == "" && body + "\n" == "\n";
    } else if IsSpace(body[0]) {
      LeadingStripped(body[1..]);
      assert (body + "\n")[1..] == body[1..] + "\n";
    }
  }

  lemma CleanTail(line: string, n: nat)
    requires Clean(line) && n <= |line|
    ensures Clean(Strip(line[n..]))
  {
    StrippedParts(line[n..]);
    StrippedParts(LStrip(line[n..]));
  }

  /** A name the parser returns is clean. */
  lemma {:induction false} NamesAreClean(s: string, name: Option<string>, lines: seq<string>)
    requires name.Some? ==> Clean(name.value)
    ensures Read(s, name, lines).name.Some? ==> Clean(Read(s, name, lines).name.value)
    decreases |s|
  {
    if s == "" {
    } else {
      LineIsClean(s);
      var line, rest := Strip(s[..LineEnd(s)]), s[LineEnd(s)..];
      hide Clean, Strip, LineEnd;
      if line == "" {
        if lines == [] {
          NamesAreClean(rest, None, []);
        }
      } else if EVENT <= line {
        CleanTail(line, 6);
        NamesAreClean(rest, Some(Strip(line[6..])), lines);
      } else if DATA <= line {
        NamesAreClean(rest, name, lines + [Strip(line[5..])]);
      } else {
        NamesAreClean(rest, name, lines);
      }
    }
  }

  lemma {:induction false} KeyStays(key: string, value: string)
    requires key != "" && Trimmed(key)
    ensures key <= RStrip(key + value)
  {
    if value == "" {
      assert key + value == key;
    } else {
      KeyStays(key, value[..|value| - 1]);
      assert (key + value)[..|key + value| - 1] == key + value[..|value| - 1];
    }
  }

  /** A data line, stripped, still starts with its key. */
  lemma DataLineStays(data: string)
    requires '\n' !in data
    ensures var stripped := Strip(DATA + " " + data + "\n"); stripped != "" && DATA <= stripped && stripped[0] == 'd'
  {
    assert DATA + " " + data == DATA + (" " + data);
    StripBreak(DATA + " " + data);
    KeyStays(DATA, " " + data);
    hide RStrip, Strip;
  }

  /** One line of data is read as trimmed text. */
  lemma ReadAnyDataLine(data: string, rest: string, was: Option<string>) returns (read: string)
    requires '\n' !in data
    ensures Trimmed(read) && Read("data: " + data + "\n" + rest, was, []) == Read(rest, was, [read])
  {
    var line := DATA + " " + data;
    assert "data: " + data == line;
    DataLineStays(data);
    OneLine(line, rest);
    var stripped := Strip(line + "\n");
    read := Strip(stripped[5..]);
    assert [] + [read] == [read];
    hide Strip, LineEnd;
    assert !(EVENT <= stripped) by {
      assert EVENT[0] == 'e';
    }
  }

  /** For one-line data the frame is read back if and only if the name and the data are clean. */
  lemma RoundTripExactly(name: string, data: string, more: string)
    requires '\n' !in data
    ensures Read(FormatSse(name, data) + more, None, []) == Parsed(Some(name), data, more)
            <==> Clean(name) && Clean(data)
  {
    NamesAreClean(FormatSse(name, data) + more, None, []);
    if Clean(name) {
      if Clean(data) {
        RoundTrip(name, data, more);
      } else {
        var end := "\n" + more;
        var tail := "data: " + data + "\n" + end;
        assert FormatSse(name, data) + more == "event: " + name + "\n" + tail;
        ReadEventLine(name, tail, None, []);
        var read := ReadAnyDataLine(data, end, Some(name));
        ReadBlankLine(more, Some(name), [read]);
        assert Join([read], '\n') == read;
      }
    }
  }

  datatype Frame = Frame(name: string, data: string)

  function PrintAll(frames: seq<Frame>): string {
    if frames == [] then "" else FormatSse(frames[0].name, frames[0].data) + PrintAll(frames[1..])
  }

  /** Reading one frame after the other, at most `n` of them; what is left. */
  function ReadAll(s: string, n: nat): (seq<Frame>, string)
    decreases n
  {
    if n == 0 then ([], s)
    else
      var reading := Read(s, None, []);
      if reading.Ended? || reading.name.None? then ([], s)
      else
        var (frames, rest) := ReadAll(reading.rest, n - 1);
        ([Frame(reading.name.value, reading.data)] + frames, rest)
  }

  lemma ReadFirst(s: string, n: nat, name: string, data: string, rest: string)
    requires n > 0 && Read(s, None, []) == Parsed(Some(name), data, rest)
    ensures ReadAll(s, n) == var (frames, left) := ReadAll(rest, n - 1); ([Frame(name, data)] + frames, left)
  {
    hide Read;
  }

  lemma PrintFirst(frames: seq<Frame>, more: string)
    requires frames != []
    ensures PrintAll(frames) + more
            == FormatSse(frames[0].name, frames[0].data) + (PrintAll(frames[1..]) + more)
  {
    hide FormatSse;
  }

  lemma ReadNone(s: string)
    ensures PrintAll([]) + s == s && ReadAll(s, 0) == ([], s)
  {
  }

  /** A whole sequence of frames is read back in order. */
  lemma {:induction false} StreamRoundTrip(frames: seq<Frame>, more: string)
    requires forall f :: f in frames ==> Clean(f.name) && Clean(f.data)
    ensures ReadAll(PrintAll(frames) + more, |frames|) == (frames, more)
    decreases |frames|
  {
    hide Read, Clean, FormatSse, PrintAll, ReadAll;
    if frames == [] {
      ReadNone(more);
    } else {
      var f, rest := frames[0], frames[1..];
      assert f in frames && forall g :: g in rest ==> g in frames;
      assert frames == [f] + rest;
      PrintFirst(frames, more);
      RoundTrip(f.name, f.data, PrintAll(rest) + more);
      ReadFirst(PrintAll(frames) + more, |frames|, f.name, f.data, PrintAll(rest) + more);
      StreamRoundTrip(rest, more);
    }
  }
}
