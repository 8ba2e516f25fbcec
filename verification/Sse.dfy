/** The wire format of the event stream: the server's printer (`_sse` in src/autoswe/api/jobs.py) and
    the client's incremental parser (`parseSSE` in frontend/src/lib/sse.ts). */
module Sse {
  import opened Letters
  import opened Options

  datatype RawEvent = RawEvent(id: Option<string>, event: string, data: string)

  datatype Parsed = Parsed(events: seq<RawEvent>, rest: string)

  // ------------------------------------------------------------------ text

  /** How many characters the first character of the normalised text stands for. */
  function Width(s: string): (k: nat)
    requires s != ""
    ensures 1 <= k <= |s|
  {
    if s[0] == '\r' && |s| > 1 && s[1] == '\n' then 2 else 1
  }

  /** Every CR LF, and every other CR, becomes LF. */
  function Normalised(s: string): string {
    if s == "" then "" else [if s[0] == '\r' then '\n' else s[0]] + Normalised(s[Width(s)..])
  }

  /** Where the first blank line begins; the length when there is none. */
  function FirstBlank(s: string): (i: nat)
    ensures i <= |s| && (i < |s| ==> i + 1 < |s| && s[i] == '\n' && s[i + 1] == '\n')
  {
    if |s| < 2 then |s|
    else if s[0] == '\n' && s[1] == '\n' then 0
    else 1 + FirstBlank(s[1..])
  }

  /** `split("\n\n")` */
  function Blocks(s: string): (bs: seq<string>)
    ensures |bs| >= 1
  {
    var i := FirstBlank(s);
    if i == |s| then [s] else [s[..i]] + Blocks(s[i + 2..])
  }

  /** `split("\n")` */
  function Lines(s: string): (ls: seq<string>)
    ensures |ls| >= 1
  {
    var i := Find(s, '\n');
    if i == |s| then [s] else [s[..i]] + Lines(s[i + 1..])
  }

  function Join(parts: seq<string>): string {
    if parts == [] then ""
    else if |parts| == 1 then parts[0]
    else Join(parts[..|parts| - 1]) + "\n" + parts[|parts| - 1]
  }

  // ------------------------------------------------------------------ one block

  datatype Fields = Fields(id: Option<string>, event: string, data: seq<string>)

  function StripOneSpace(value: string): string {
    if value != "" && value[0] == ' ' then value[1..] else value
  }

  function WithLine(f: Fields, line: string): Fields {
    if line == "" || line[0] == ':' then f
    else
      var colon := Find(line, ':');
      var field := line[..colon];
      var value := StripOneSpace(if colon == |line| then "" else line[colon + 1..]);
      if field == "id" then f.(id := Some(value))
      else if field == "event" then f.(event := value)
      else if field == "data" then f.(data := f.data + [value])
      else f
  }

  function FieldsOf(lines: seq<string>): Fields {
    if lines == [] then Fields(None, "message", [])
    else WithLine(FieldsOf(lines[..|lines| - 1]), lines[|lines| - 1])
  }

  /** A block without data is no event. */
  function EventOf(block: string): seq<RawEvent> {
    var f := FieldsOf(Lines(block));
    if f.data == [] then [] else [RawEvent(f.id, f.event, Join(f.data))]
  }

  function EventsOf(blocks: seq<string>): seq<RawEvent> {
    if blocks == [] then [] else EventsOf(blocks[..|blocks| - 1]) + EventOf(blocks[|blocks| - 1])
  }

  function ParsedText(s: string): Parsed {
    Parsed(EventsOf(Complete(Blocks(s))), Tail(Blocks(s)))
  }

  function Parse(buffer: string): Parsed {
    ParsedText(Normalised(buffer))
  }

  method ParseSSE(buffer: string) returns (p: Parsed)
    ensures p == Parse(buffer)
  {
    var blocks := Blocks(Normalised(buffer));
    var rest := blocks[|blocks| - 1];
    blocks := blocks[..|blocks| - 1];
    var events: seq<RawEvent> := [];
    for i := 0 to |blocks|
      invariant events == EventsOf(blocks[..i])
    {
      assert blocks[..i + 1][..i] == blocks[..i];
      var lines := Lines(blocks[i]);
      var f := Fields(None, "message", []);
      for j := 0 to |lines|
        invariant f == FieldsOf(lines[..j])
      {
        assert lines[..j + 1][..j] == lines[..j];
        f := WithLine(f, lines[j]);
      }
      assert lines[..|lines|] == lines;
      if f.data != [] { events := events + [RawEvent(f.id, f.event, Join(f.data))]; }
    }
    assert blocks[..|blocks|] == blocks;
    return Parsed(events, rest);
  }

  // ------------------------------------------------------------------ incremental parsing

  /** The boundary between two chunks does not fall inside a CR LF. */
  predicate Clean(a: string, b: string) {
    !(a != "" && b != "" && a[|a| - 1] == '\r' && b[0] == '\n')
  }

  lemma SameWidth(a: string, b: string)
    requires a != "" && (|a| > 1 || Clean(a, b))
    ensures Width(a + b) == Width(a) && (a + b)[0] == a[0] && (a + b)[Width(a)..] == a[Width(a)..] + b
  {
  }

  lemma {:induction false} NormalisedCleanConcat(a: string, b: string)
    requires Clean(a, b)
    ensures Normalised(a + b) == Normalised(a) + Normalised(b)
    decreases |a|
  {
    if a == "" {
      assert a + b == b;
    } else {
      SameWidth(a, b);
      NormalisedCleanConcat(a[Width(a)..], b);
    }
  }

  lemma {:induction false} NormalisedCutConcat(a: string, b: string)
    requires !Clean(a, b)
    ensures |Normalised(a + b)| == |Normalised(a)| + |Normalised(b)| - 1
    decreases |a|
  {
    if |a| == 1 {
      assert (a + b)[2..] == b[1..] && a[1..] == "";
      assert Width(a + b) == 2 && Width(a) == 1 && Width(b) == 1;
    } else {
      SameWidth(a, b);
      assert a[Width(a)..][|a[Width(a)..]| - 1] == '\r';
      NormalisedCutConcat(a[Width(a)..], b);
    }
  }

  /** Normalising piece by piece is right exactly when no CR LF is cut in two. */
  lemma NormalisedConcat(a: string, b: string)
    ensures Normalised(a + b) == Normalised(a) + Normalised(b) <==> Clean(a, b)
  {
    if Clean(a, b) { NormalisedCleanConcat(a, b); } else { NormalisedCutConcat(a, b); }
  }

  lemma {:induction false} NoCRIsNormal(s: string)
    requires '\r' !in s
    ensures Normalised(s) == s
  {
    if s != "" {
      assert s[0] in s && Width(s) == 1;
      NoCRIsNormal(s[1..]);
      assert s == [s[0]] + s[1..];
    }
  }

  lemma {:induction false} CRIsGone(s: string)
    ensures '\r' !in Normalised(s)
    decreases |s|
  {
    if s != "" { CRIsGone(s[Width(s)..]); }
  }

  lemma NormalisedHasNoCR(s: string)
    ensures '\r' !in Normalised(s)
    ensures '\r' !in s ==> Normalised(s) == s
  {
    CRIsGone(s);
    if '\r' !in s { NoCRIsNormal(s); }
  }

  lemma {:induction false} FirstBlankConcat(a: string, b: string)
    requires FirstBlank(a) < |a|
    ensures FirstBlank(a + b) == FirstBlank(a)
  {
    assert (a + b)[0] == a[0] && (a + b)[1] == a[1];
    if FirstBlank(a) != 0 {
      assert (a + b)[1..] == a[1..] + b;
      FirstBlankConcat(a[1..], b);
    }
  }

  function Complete(bs: seq<string>): seq<string>
    requires |bs| >= 1
  {
    bs[..|bs| - 1]
  }

  function Tail(bs: seq<string>): string
    requires |bs| >= 1
  {
    bs[|bs| - 1]
  }

  lemma CompleteConcat(a: seq<string>, b: seq<string>)
    requires |b| >= 1
    ensures Complete(a + b) == a + Complete(b) && Tail(a + b) == Tail(b)
  {
  }

  lemma Glue(head: string, rest: seq<string>, more: seq<string>, first: seq<string>, both: seq<string>)
    requires |rest| >= 1 && first == [head] + rest && both == [head] + (Complete(rest) + more)
    ensures both == Complete(first) + more && Tail(first) == Tail(rest)
  {
  }

  lemma BlocksHead(s: string, head: string, tail: string)
    requires FirstBlank(s) < |s| && head == s[..FirstBlank(s)] && tail == s[FirstBlank(s) + 2..]
    ensures Blocks(s) == [head] + Blocks(tail)
  {
  }

  lemma FirstBlock(a: string, b: string)
    requires FirstBlank(a) < |a|
    ensures var i := FirstBlank(a);
      Blocks(a) == [a[..i]] + Blocks(a[i + 2..]) && Blocks(a + b) == [a[..i]] + Blocks(a[i + 2..] + b)
  {
    var i := FirstBlank(a);
    FirstBlankConcat(a, b);
    BlocksHead(a, a[..i], a[i + 2..]);
    assert (a + b)[..i] == a[..i] && (a + b)[i + 2..] == a[i + 2..] + b;
    BlocksHead(a + b, a[..i], a[i + 2..] + b);
  }

  /** Only the last, incomplete block depends on what comes next. */
  lemma {:induction false} BlocksConcat(a: string, b: string)
    ensures Blocks(a + b) == Complete(Blocks(a)) + Blocks(Tail(Blocks(a)) + b)
    decreases |a|
  {
    var i := FirstBlank(a);
    if i < |a| {
      var rest := Blocks(a[i + 2..]);
      var more := Blocks(Tail(rest) + b);
      FirstBlock(a, b);
      BlocksConcat(a[i + 2..], b);
      assert Blocks(a[i + 2..] + b) == Complete(rest) + more;
      Glue(a[..i], rest, more, Blocks(a), Blocks(a + b));
    } else {
      assert Blocks(a) == [a] && Complete([a]) == [] && Tail([a]) == a;
    }
  }

  lemma {:induction false} EventsConcat(a: seq<string>, b: seq<string>)
    ensures EventsOf(a + b) == EventsOf(a) + EventsOf(b)
    decreases |b|
  {
    if b == [] {
      assert a + b == a;
    } else {
      assert (a + b)[..|a + b| - 1] == a + b[..|b| - 1];
      EventsConcat(a, b[..|b| - 1]);
    }
  }

  lemma ParsedTextConcat(a: string, b: string)
    ensures var p := ParsedText(a); var q := ParsedText(p.rest + b);
      ParsedText(a + b) == Parsed(p.events + q.events, q.rest)
  {
    var init, cs := Complete(Blocks(a)), Blocks(Tail(Blocks(a)) + b);
    BlocksConcat(a, b);
    CompleteConcat(init, cs);
    EventsConcat(init, Complete(cs));
  }

  lemma {:induction false} BlocksKeepNoCR(s: string)
    requires '\r' !in s
    ensures '\r' !in Tail(Blocks(s))
    decreases |s|
  {
    var i := FirstBlank(s);
    if i < |s| { BlocksKeepNoCR(s[i + 2..]); }
  }

  /** Carrying the unparsed tail over to the next chunk loses and invents nothing. */
  lemma ParseConcat(a: string, b: string)
    requires Clean(a, b)
    ensures var p := Parse(a); var q := Parse(p.rest + b);
      Parse(a + b) == Parsed(p.events + q.events, q.rest)
  {
    NormalisedConcat(a, b);
    ParsedTextConcat(Normalised(a), Normalised(b));
    var rest := Parse(a).rest;
    NormalisedHasNoCR(a);
    BlocksKeepNoCR(Normalised(a));
    NormalisedHasNoCR(rest);
    NormalisedConcat(rest, b);
    assert Normalised(rest + b) == rest + Normalised(b) by {
      if rest != "" { assert rest[|rest| - 1] in rest; }
    }
  }

  function Concat(chunks: seq<string>): string {
    if chunks == [] then "" else Concat(chunks[..|chunks| - 1]) + chunks[|chunks| - 1]
  }

  /** The client's loop: every chunk is parsed together with what the previous ones left. */
  function Fed(chunks: seq<string>): Parsed {
    if chunks == [] then Parsed([], "")
    else
      var before := Fed(chunks[..|chunks| - 1]);
      var p := Parse(before.rest + chunks[|chunks| - 1]);
      Parsed(before.events + p.events, p.rest)
  }

  /** The text with the line ends of every chunk normalised by themselves. */
  function EachNormalised(chunks: seq<string>): string {
    if chunks == [] then "" else EachNormalised(chunks[..|chunks| - 1]) + Normalised(chunks[|chunks| - 1])
  }

  lemma RestThenChunk(x: string, chunk: string)
    requires '\r' !in x
    ensures Parse(ParsedText(x).rest + chunk) == ParsedText(ParsedText(x).rest + Normalised(chunk))
  {
    var rest := ParsedText(x).rest;
    BlocksKeepNoCR(x);
    assert Clean(rest, chunk) by { if rest != "" { assert rest[|rest| - 1] in rest; } }
    NormalisedConcat(rest, chunk);
    NormalisedHasNoCR(rest);
  }

  /** What any chunking parses to, wherever it cuts: the whole text, in which a CR LF that was cut in two
      counts as two line ends. */
  lemma {:induction false} ChunksParse(chunks: seq<string>)
    ensures Fed(chunks) == ParsedText(EachNormalised(chunks)) && '\r' !in EachNormalised(chunks)
  {
    if chunks == [] {
      NoTail();
    } else {
      var init, last := chunks[..|chunks| - 1], chunks[|chunks| - 1];
      ChunksParse(init);
      RestThenChunk(EachNormalised(init), last);
      NormalisedHasNoCR(last);
      ParsedTextConcat(EachNormalised(init), Normalised(last));
    }
  }

  /** Any chunking gives the events of the whole text, as long as it cuts no CR LF in two. */
  lemma {:induction false} ChunkingIsInvisible(chunks: seq<string>)
    requires forall i :: 0 <= i < |chunks| ==> Clean(Concat(chunks[..i]), chunks[i])
    ensures Fed(chunks) == Parse(Concat(chunks))
  {
    if chunks != [] {
      var init := chunks[..|chunks| - 1];
      assert forall i :: 0 <= i < |init| ==> init[..i] == chunks[..i];
      ChunkingIsInvisible(init);
      ParseConcat(Concat(init), chunks[|chunks| - 1]);
    }
  }

  // ------------------------------------------------------------------ printing

  function Digit(d: nat): char
    requires d < 10
  {
    '0' + d as char
  }

  /** Decimal notation, as `str` and `String` print it. */
  function Decimal(n: nat): string {
    if n < 10 then [Digit(n)] else Decimal(n / 10) + [Digit(n % 10)]
  }

  predicate AllDigits(s: string) {
    s != "" && forall i :: 0 <= i < |s| ==> '0' <= s[i] <= '9'
  }

  function Number(s: string): nat
    requires AllDigits(s)
  {
    var d := s[|s| - 1] as int - '0' as int;
    if |s| == 1 then d else 10 * Number(s[..|s| - 1]) + d
  }

  lemma {:induction false} NumberOfDecimal(n: nat)
    ensures AllDigits(Decimal(n)) && Number(Decimal(n)) == n
  {
    if n >= 10 {
      NumberOfDecimal(n / 10);
      assert Decimal(n)[..|Decimal(n)| - 1] == Decimal(n / 10);
    }
  }

  /** A value that stays on its line. */
  predicate OneLine(s: string) {
    '\n' !in s && '\r' !in s
  }

  function Line(name: string, value: string): string {
    name + ": " + value
  }

  /** `_sse` without its final blank line. */
  function Body(id: Option<nat>, event: string, data: string): string {
    var both := Line("event", event) + "\n" + Line("data", data);
    if id.Some? then Line("id", Decimal(id.value)) + "\n" + both else both
  }

  // ------------------------------------------------------------------ printing, then parsing

  /** Text that is one block when a blank line follows it. */
  predicate Solid(body: string) {
    FirstBlank(body) == |body| && (body == "" || body[|body| - 1] != '\n')
  }

  lemma {:induction false} SolidEnds(body: string, tail: string)
    requires Solid(body)
    ensures FirstBlank(body + "\n\n" + tail) == |body|
    decreases |body|
  {
    var s := body + "\n\n" + tail;
    if body == "" {
      assert s[0] == '\n' && s[1] == '\n';
    } else {
      assert s[1..] == body[1..] + "\n\n" + tail;
      if |body| == 1 {
        assert s[0] == body[0] && body[1..] == "";
      } else {
        assert s[0] == body[0] && s[1] == body[1];
      }
      SolidEnds(body[1..], tail);
    }
  }

  lemma SolidBlock(body: string, tail: string)
    requires Solid(body)
    ensures ParsedText(body + "\n\n" + tail) == Parsed(EventOf(body) + ParsedText(tail).events, ParsedText(tail).rest)
  {
    var s := body + "\n\n" + tail;
    SolidEnds(body, tail);
    assert s[..|body|] == body && s[|body| + 2..] == tail;
    assert Blocks(s) == [body] + Blocks(tail);
    CompleteConcat([body], Blocks(tail));
    EventsConcat([body], Complete(Blocks(tail)));
    assert [body][..0] == [];
    assert EventsOf([body]) == EventOf(body);
  }

  lemma {:induction false} SolidLine(line: string, rest: string)
    requires '\n' !in line && line != "" && (rest == "" || (Solid(rest) && rest[0] != '\n'))
    ensures Solid(if rest == "" then line else line + "\n" + rest)
    decreases |line|
  {
    var s := if rest == "" then line else line + "\n" + rest;
    assert s[0] == line[0] != '\n';
    if |line| == 1 {
      if rest != "" {
        assert s[1..] == "\n" + rest;
        assert ("\n" + rest)[1..] == rest && ("\n" + rest)[0] == '\n';
        assert FirstBlank("\n" + rest) == 1 + |rest|;
        assert s[|s| - 1] == rest[|rest| - 1];
      }
    } else {
      SolidLine(line[1..], rest);
      assert s[1..] == if rest == "" then line[1..] else line[1..] + "\n" + rest;
      assert s[|s| - 1] == s[1..][|s| - 2];
    }
  }

  lemma {:induction false} FindConcat(a: string, c: char, b: string)
    requires c !in a
    ensures Find(a + [c] + b, c) == |a| && Find(a, c) == |a|
    decreases |a|
  {
    if a != "" {
      assert (a + [c] + b)[1..] == a[1..] + [c] + b;
      FindConcat(a[1..], c, b);
    }
  }

  lemma FirstLine(line: string, rest: string)
    requires '\n' !in line
    ensures Lines(line + "\n" + rest) == [line] + Lines(rest) && Lines(line) == [line]
  {
    FindConcat(line, '\n', rest);
    assert (line + "\n" + rest)[..|line|] == line && (line + "\n" + rest)[|line| + 1..] == rest;
  }

  /** A printed line splits at its first colon into the name and the value. */
  lemma LineParts(name: string, value: string, line: string)
    requires ':' !in name && line == Line(name, value)
    ensures Find(line, ':') == |name| < |line| && line[..|name|] == name
    ensures StripOneSpace(line[|name| + 1..]) == value
  {
    assert line == name + [':'] + (" " + value);
    FindConcat(name, ':', " " + value);
    assert line[|name| + 1..] == " " + value;
    assert (" " + value)[1..] == value;
  }

  lemma KnownNames(name: string)
    requires name == "id" || name == "event" || name == "data"
    ensures name != "" && ':' !in name && name[0] != ':' && OneLine(name)
  {
  }

  lemma FieldLine(f: Fields, name: string, value: string)
    requires name == "id" || name == "event" || name == "data"
    ensures Line(name, value) != "" && (OneLine(value) ==> OneLine(Line(name, value)))
    ensures WithLine(f, Line(name, value)) ==
      if name == "id" then f.(id := Some(value))
      else if name == "event" then f.(event := value)
      else f.(data := f.data + [value])
  {
    var line := Line(name, value);
    KnownNames(name);
    LineParts(name, value, line);
    assert line[0] == name[0];
  }

  lemma FieldsOfTwo(a: string, b: string)
    ensures FieldsOf([a, b]) == WithLine(WithLine(Fields(None, "message", []), a), b)
  {
    assert [a, b][..1] == [a] && [a][..0] == [];
    assert FieldsOf([a]) == WithLine(FieldsOf([]), a);
  }

  lemma FieldsOfThree(a: string, b: string, c: string)
    ensures FieldsOf([a, b, c]) == WithLine(WithLine(WithLine(Fields(None, "message", []), a), b), c)
  {
    assert [a, b, c][..2] == [a, b];
    FieldsOfTwo(a, b);
  }

  function Raw(id: Option<nat>, event: string, data: string): RawEvent {
    RawEvent(if id.Some? then Some(Decimal(id.value)) else None, event, data)
  }

  lemma TwoLines(a: string, b: string)
    requires '\n' !in a && '\n' !in b && a != "" && b != ""
    ensures Solid(a + "\n" + b) && Lines(a + "\n" + b) == [a, b]
  {
    SolidLine(b, "");
    SolidLine(a, b);
    FirstLine(b, "");
    FirstLine(a, b);
  }

  lemma ThreeLines(a: string, b: string, c: string)
    requires '\n' !in a && '\n' !in b && '\n' !in c && a != "" && b != "" && c != ""
    ensures Solid(a + "\n" + (b + "\n" + c)) && Lines(a + "\n" + (b + "\n" + c)) == [a, b, c]
  {
    TwoLines(b, c);
    SolidLine(a, b + "\n" + c);
    FirstLine(a, b + "\n" + c);
  }

  lemma EventAndData(event: string, data: string)
    requires OneLine(event) && OneLine(data)
    ensures Solid(Body(None, event, data)) && EventOf(Body(None, event, data)) == [Raw(None, event, data)]
  {
    var e, d := Line("event", event), Line("data", data);
    FieldLine(Fields(None, "message", []), "event", event);
    FieldLine(Fields(None, event, []), "data", data);
    TwoLines(e, d);
    FieldsOfTwo(e, d);
  }

  lemma IdEventAndData(id: nat, event: string, data: string)
    requires OneLine(event) && OneLine(data)
    ensures Solid(Body(Some(id), event, data)) && EventOf(Body(Some(id), event, data)) == [Raw(Some(id), event, data)]
  {
    var i, e, d := Line("id", Decimal(id)), Line("event", event), Line("data", data);
    NumberOfDecimal(id);
    FieldLine(Fields(None, "message", []), "id", Decimal(id));
    FieldLine(Fields(Some(Decimal(id)), "message", []), "event", event);
    FieldLine(Fields(Some(Decimal(id)), event, []), "data", data);
    ThreeLines(i, e, d);
    FieldsOfThree(i, e, d);
  }

  lemma BodyIsOneEvent(id: Option<nat>, event: string, data: string)
    requires OneLine(event) && OneLine(data)
    ensures Solid(Body(id, event, data)) && EventOf(Body(id, event, data)) == [Raw(id, event, data)]
  {
    if id.Some? { IdEventAndData(id.value, event, data); } else { EventAndData(event, data); }
  }

  // ------------------------------------------------------------------ why the condition is needed

  lemma {:induction false} NoBlankAtEnd(line: string)
    requires '\n' !in line
    ensures ParsedText(line + "\n") == Parsed([], line + "\n")
    ensures FirstBlank(line + "\n") == |line| + 1
    decreases |line|
  {
    var s := line + "\n";
    if line != "" {
      assert s[0] == line[0] != '\n';
      assert s[1..] == line[1..] + "\n";
      NoBlankAtEnd(line[1..]);
    }
    assert Complete([s]) == [];
  }

  lemma NoTail()
    ensures ParsedText("") == Parsed([], "")
  {
    assert Complete([""]) == [];
  }

  lemma OneDataLine(a: string)
    requires OneLine(a)
    ensures Solid(Line("data", a)) && EventOf(Line("data", a)) == [RawEvent(None, "message", a)]
  {
    var x := Line("data", a);
    FieldLine(Fields(None, "message", []), "data", a);
    SolidLine(x, "");
    FirstLine(x, "");
    assert [x][..0] == [];
    assert FieldsOf([x]) == WithLine(FieldsOf([]), x);
  }

  lemma JoinTwo(a: string, b: string)
    ensures Join([a, b]) == a + "\n" + b
  {
    assert [a, b][..1] == [a];
    assert Join([a]) == a;
  }

  lemma TwoDataFields(a: string, b: string)
    requires OneLine(a) && OneLine(b)
    ensures var body := Line("data", a) + "\n" + Line("data", b);
      Solid(body) && FieldsOf(Lines(body)) == Fields(None, "message", [a, b])
  {
    var x, y := Line("data", a), Line("data", b);
    FieldLine(Fields(None, "message", []), "data", a);
    FieldLine(Fields(None, "message", [a]), "data", b);
    TwoLines(x, y);
    FieldsOfTwo(x, y);
    assert [] + [a] == [a] && [a] + [b] == [a, b];
  }

  lemma TwoDataLines(a: string, b: string)
    requires OneLine(a) && OneLine(b)
    ensures var body := Line("data", a) + "\n" + Line("data", b);
      Solid(body) && EventOf(body) == [RawEvent(None, "message", a + "\n" + b)]
  {
    TwoDataFields(a, b);
    JoinTwo(a, b);
  }

  lemma NormalisedCR(x: string)
    requires '\r' !in x
    ensures Normalised(x + "\r") == x + "\n"
  {
    NormalisedCleanConcat(x, "\r");
    NormalisedHasNoCR(x);
    assert "\r"[1..] == "";
  }

  lemma NormalisedCRLF(x: string, y: string)
    requires '\r' !in x && '\r' !in y
    ensures Normalised(x + ("\r\n" + y)) == x + ("\n" + y)
  {
    var z := "\r\n" + y;
    NormalisedCleanConcat(x, z);
    NormalisedHasNoCR(x);
    NormalisedHasNoCR(y);
    assert z[0] == '\r' && z[1] == '\n' && z[2..] == y;
  }

  lemma WholeCRLF(a: string, b: string)
    requires OneLine(a) && OneLine(b)
    ensures Parse(Line("data", a) + ("\r\n" + (Line("data", b) + "\n\n"))).events
      == [RawEvent(None, "message", a + "\n" + b)]
  {
    var x, y := Line("data", a), Line("data", b);
    var whole := x + "\n" + y;
    NormalisedCRLF(x, y + "\n\n");
    assert x + ("\n" + (y + "\n\n")) == whole + "\n\n" + "";
    TwoDataLines(a, b);
    SolidBlock(whole, "");
    NoTail();
  }

  lemma FedTwo(a: string, b: string)
    ensures Fed([a, b]) == var p := Parse(a); var q := Parse(p.rest + b); Parsed(p.events + q.events, q.rest)
  {
    assert [a, b][..1] == [a] && [a][..0] == [];
    assert Fed([]).rest + a == a;
    assert Fed([a]) == Parse(a);
  }

  lemma TwoBlocks(x: string, y: string)
    requires Solid(x) && Solid(y)
    ensures ParsedText(x + "\n\n" + (y + "\n\n" + "")).events == EventOf(x) + EventOf(y)
  {
    SolidBlock(x, y + "\n\n" + "");
    SolidBlock(y, "");
    NoTail();
  }

  lemma SecondHalf(a: string, b: string)
    requires OneLine(a) && OneLine(b)
    ensures Parse(Line("data", a) + "\n" + ("\n" + (Line("data", b) + "\n\n"))).events ==
      [RawEvent(None, "message", a), RawEvent(None, "message", b)]
  {
    var x, y := Line("data", a), Line("data", b);
    OneDataLine(a);
    OneDataLine(b);
    TwoBlocks(x, y);
    FieldLine(Fields(None, "message", []), "data", a);
    FieldLine(Fields(None, "message", []), "data", b);
    Regrouped(x, y);
  }

  lemma Regrouped(x: string, y: string)
    requires '\r' !in x && '\r' !in y
    ensures Parse(x + "\n" + ("\n" + (y + "\n\n"))) == ParsedText(x + "\n\n" + (y + "\n\n" + ""))
  {
    var text := x + "\n" + ("\n" + (y + "\n\n"));
    assert text == x + "\n\n" + (y + "\n\n" + "");
    NormalisedHasNoCR(text);
  }

  /** A boundary inside a CR LF makes two events out of one. */
  lemma CutCRLFSplitsEvent(a: string, b: string)
    requires OneLine(a) && OneLine(b)
    ensures var first, second := Line("data", a) + "\r", "\n" + (Line("data", b) + "\n\n");
      && Parse(first + second).events == [RawEvent(None, "message", a + "\n" + b)]
      && Fed([first, second]).events == [RawEvent(None, "message", a), RawEvent(None, "message", b)]
  {
    var x, y := Line("data", a), Line("data", b);
    var first, second := x + "\r", "\n" + (y + "\n\n");
    WholeCRLF(a, b);
    assert first + second == x + ("\r\n" + (y + "\n\n"));
    FedTwo(first, second);
    NormalisedCR(x);
    FieldLine(Fields(None, "message", []), "data", a);
    NoBlankAtEnd(x);
    SecondHalf(a, b);
  }
}
