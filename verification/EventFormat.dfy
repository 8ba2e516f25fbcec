/** What a text means as an event stream, in the terms of section 9.2 of the WHATWG HTML Living Standard:
    where it is cut into blocks and lines, and which event a block stands for. */
module EventFormat {
  import opened Letters
  import opened Options
  import opened Sse

  // ------------------------------------------------------------------ where the text is cut

  /** The parts of a text, with `mark` between them. */
  function Between(parts: seq<string>, mark: string): string {
    if parts == [] then "" else if |parts| == 1 then parts[0] else parts[0] + mark + Between(parts[1..], mark)
  }

  /** No blank line begins here. */
  ghost predicate NoBlank(s: string) {
    forall i :: 0 <= i < |s| - 1 ==> s[i] != '\n' || s[i + 1] != '\n'
  }

  lemma {:induction false} FirstBlankIsFirst(s: string)
    ensures NoBlank(s[..FirstBlank(s)]) && (FirstBlank(s) == |s| <==> NoBlank(s))
    ensures 0 < FirstBlank(s) < |s| ==> s[FirstBlank(s) - 1] != '\n'
  {
    if |s| >= 2 && (s[0] != '\n' || s[1] != '\n') {
      var rest := s[1..];
      var n := FirstBlank(rest);
      FirstBlankIsFirst(rest);
      var head := s[..n + 1];
      assert head == [s[0]] + rest[..n];
      forall i | 0 <= i < |head| - 1 ensures head[i] != '\n' || head[i + 1] != '\n' {
        if i > 0 { assert rest[..n][i - 1] != '\n' || rest[..n][i] != '\n'; }
      }
      if NoBlank(s) {
        forall i | 0 <= i < |rest| - 1 ensures rest[i] != '\n' || rest[i + 1] != '\n' {
          assert s[i + 1] == rest[i] && s[i + 2] == rest[i + 1];
        }
      }
      if n == |rest| { assert s[..n + 1] == s; }
    }
  }

  lemma {:induction false} BlocksTogether(s: string)
    ensures Between(Blocks(s), "\n\n") == s
  {
    var n := FirstBlank(s);
    if n < |s| {
      BlocksTogether(s[n + 2..]);
      BlocksHead(s, s[..n], s[n + 2..]);
      BetweenFirst(s[..n], Blocks(s[n + 2..]), "\n\n");
      CutApart(s, n, "\n\n");
    }
  }

  /** Without a blank line in it, nor a line end before the one that follows. */
  ghost predicate Whole(block: string, last: bool) {
    NoBlank(block) && (last || block == "" || block[|block| - 1] != '\n')
  }

  lemma {:induction false} BlocksAreWhole(s: string, i: nat)
    requires i < |Blocks(s)|
    ensures Whole(Blocks(s)[i], i == |Blocks(s)| - 1)
    decreases |s|
  {
    var n := FirstBlank(s);
    FirstBlankIsFirst(s);
    if n < |s| {
      BlocksHead(s, s[..n], s[n + 2..]);
      if i > 0 { BlocksAreWhole(s[n + 2..], i - 1); }
    }
  }

  /** The blocks are the text between blank lines: put together again they are the text, none of them has a
      blank line in it, and each but the last ends before the first line end of the blank line behind it. */
  lemma BlocksAreCut(s: string)
    ensures var bs := Blocks(s);
      Between(bs, "\n\n") == s && forall i :: 0 <= i < |bs| ==> Whole(bs[i], i == |bs| - 1)
  {
    BlocksTogether(s);
    forall i | 0 <= i < |Blocks(s)| ensures Whole(Blocks(s)[i], i == |Blocks(s)| - 1) { BlocksAreWhole(s, i); }
  }

  lemma BetweenFirst(head: string, rest: seq<string>, mark: string)
    requires rest != []
    ensures Between([head] + rest, mark) == head + mark + Between(rest, mark)
  {
    assert ([head] + rest)[1..] == rest;
  }

  lemma CutApart(s: string, n: nat, mark: string)
    requires n + |mark| <= |s| && s[n..n + |mark|] == mark
    ensures s[..n] + mark + s[n + |mark|..] == s
  {
  }

  /** The lines of a block are the text between its line ends. */
  lemma {:induction false} LinesAreCut(s: string)
    ensures var ls := Lines(s);
      Between(ls, "\n") == s && forall i :: 0 <= i < |ls| ==> '\n' !in ls[i]
  {
    var n := Find(s, '\n');
    if n < |s| {
      var head, tail := s[..n], s[n + 1..];
      LinesAreCut(tail);
      BetweenFirst(head, Lines(tail), "\n");
      CutApart(s, n, "\n");
    } else {
      assert s[..n] == s;
    }
  }

  // ------------------------------------------------------------------ what a block means

  /** The line gives the field this value: after the first colon, and after one space if there is one. */
  ghost predicate Gives(line: string, field: string, value: string) {
    || (line == field && value == "")
    || line == field + ": " + value
    || (line == field + ":" + value && (value == "" || value[0] != ' '))
  }

  ghost predicate Mentions(line: string, field: string) {
    exists value :: Gives(line, field, value)
  }

  ghost predicate Known(field: string) {
    field == "id" || field == "event" || field == "data"
  }

  /** The name of a line's field ends at its first colon. */
  function NameOf(line: string): string {
    line[..Find(line, ':')]
  }

  /** Its value begins behind it, or behind the space that follows. */
  function Value(line: string): string {
    if NameOf(line) == line then "" else StripOneSpace(line[|NameOf(line)| + 1..])
  }

  lemma GivenAre(line: string, field: string, value: string)
    requires Known(field) && Gives(line, field, value)
    ensures NameOf(line) == field && Value(line) == value
  {
    if line == field {
      assert Find(line, ':') == |line|;
    } else {
      var tail := if line == field + ": " + value then " " + value else value;
      assert line == field + [':'] + tail;
      FindConcat(field, ':', tail);
      assert line[|field| + 1..] == tail;
    }
  }

  lemma NamedGives(line: string)
    ensures Gives(line, NameOf(line), Value(line))
  {
    var name := NameOf(line);
    if name != line {
      var tail := line[|name| + 1..];
      assert line == name + ":" + tail;
      if tail != "" && tail[0] == ' ' {
        assert tail == " " + tail[1..];
        assert line == name + ": " + tail[1..];
      }
    }
  }

  ghost function ValueOf(line: string, field: string): string
    requires Mentions(line, field)
  {
    var value :| Gives(line, field, value);
    value
  }

  /** The values that the lines give a field, in order. */
  ghost function Values(lines: seq<string>, field: string): seq<string> {
    if lines == [] then []
    else (if Mentions(lines[0], field) then [ValueOf(lines[0], field)] else []) + Values(lines[1..], field)
  }

  lemma {:induction false} ValuesOfMore(lines: seq<string>, line: string, field: string)
    ensures Values(lines + [line], field)
      == Values(lines, field) + if Mentions(line, field) then [ValueOf(line, field)] else []
  {
    if lines == [] {
      assert [] + [line] == [line] && [line][1..] == [];
    } else {
      assert (lines + [line])[1..] == lines[1..] + [line] && (lines + [line])[0] == lines[0];
      ValuesOfMore(lines[1..], line, field);
    }
  }

  /** A line mentions a field exactly if the field is its name, and then gives it one value. */
  lemma MentionsItsName(line: string, field: string)
    requires Known(field)
    ensures Mentions(line, field) <==> NameOf(line) == field
    ensures Mentions(line, field) ==> ValueOf(line, field) == Value(line)
  {
    NamedGives(line);
    forall v | Gives(line, field, v) ensures NameOf(line) == field && v == Value(line) { GivenAre(line, field, v); }
  }

  lemma LineMeans(f: Fields, line: string)
    ensures WithLine(f, line) == Fields(
      if Mentions(line, "id") then Some(ValueOf(line, "id")) else f.id,
      if Mentions(line, "event") then ValueOf(line, "event") else f.event,
      f.data + if Mentions(line, "data") then [ValueOf(line, "data")] else [])
  {
    MentionsItsName(line, "id");
    MentionsItsName(line, "event");
    MentionsItsName(line, "data");
    assert line == "" || line[0] == ':' <==> NameOf(line) == "";
  }

  ghost function LastOf(values: seq<string>, otherwise: string): string {
    if values == [] then otherwise else values[|values| - 1]
  }

  lemma {:induction false} FieldsMean(lines: seq<string>)
    ensures FieldsOf(lines) == Fields(
      if Values(lines, "id") == [] then None else Some(LastOf(Values(lines, "id"), "")),
      LastOf(Values(lines, "event"), "message"), Values(lines, "data"))
  {
    if lines != [] {
      var init, line := lines[..|lines| - 1], lines[|lines| - 1];
      assert lines == init + [line];
      FieldsMean(init);
      LineMeans(FieldsOf(init), line);
      ValuesOfMore(init, line, "id");
      ValuesOfMore(init, line, "event");
      ValuesOfMore(init, line, "data");
    }
  }

  lemma {:induction false} JoinIsBetween(parts: seq<string>)
    ensures Join(parts) == Between(parts, "\n")
  {
    if |parts| > 1 {
      JoinIsBetween(parts[..|parts| - 1]);
      BetweenMore(parts[..|parts| - 1], parts[|parts| - 1], "\n");
      assert parts == parts[..|parts| - 1] + [parts[|parts| - 1]];
    }
  }

  lemma {:induction false} BetweenMore(parts: seq<string>, part: string, mark: string)
    requires parts != []
    ensures Between(parts + [part], mark) == Between(parts, mark) + mark + part
  {
    if |parts| == 1 {
      assert (parts + [part])[1..] == [part];
    } else {
      assert (parts + [part])[1..] == parts[1..] + [part] && (parts + [part])[0] == parts[0];
      BetweenMore(parts[1..], part, mark);
    }
  }

  /** A block is an event exactly if it gives data: all of it, a line each, with the last id and the last type
      that it gives, if any; comments and other fields mean nothing. */
  lemma BlockMeans(block: string)
    ensures var ls := Lines(block);
      EventOf(block) ==
        if Values(ls, "data") == [] then []
        else [RawEvent(if Values(ls, "id") == [] then None else Some(LastOf(Values(ls, "id"), "")),
                       LastOf(Values(ls, "event"), "message"), Between(Values(ls, "data"), "\n"))]
  {
    FieldsMean(Lines(block));
    JoinIsBetween(Values(Lines(block), "data"));
  }

  ghost function Meaning(blocks: seq<string>): seq<RawEvent> {
    if blocks == [] then [] else EventOf(blocks[0]) + Meaning(blocks[1..])
  }

  /** What is parsed are the events of the complete blocks, one after the other; what is left is the last one. */
  lemma {:induction false} TextMeans(s: string)
    requires '\r' !in s
    ensures Parse(s) == Parsed(Meaning(Complete(Blocks(s))), Tail(Blocks(s)))
  {
    NormalisedHasNoCR(s);
    EventsAre(Complete(Blocks(s)));
  }

  lemma OneBlock(block: string)
    ensures EventsOf([block]) == EventOf(block)
  {
    assert [block][..0] == [];
  }

  lemma {:induction false} EventsAre(blocks: seq<string>)
    ensures EventsOf(blocks) == Meaning(blocks)
  {
    if blocks != [] {
      EventsAre(blocks[1..]);
      var first := [blocks[0]];
      EventsConcat(first, blocks[1..]);
      assert blocks == first + blocks[1..] && first[..0] == [];
      OneBlock(blocks[0]);
    }
  }
}
