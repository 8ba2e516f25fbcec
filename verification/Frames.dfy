/** What the server writes on an event stream, frame by frame, and what any prefix of it parses to. */
module Frames {
  import opened Options
  import opened Sse

  /** The frames of `generate` in src/autoswe/api/jobs.py. `data` is one line of JSON. */
  datatype Frame = Retry | KeepAlive | Ev(id: nat, kind: string, data: string) | End(status: string)

  function EndData(status: string): string {
    "{\"status\": \"" + status + "\"}"
  }

  function BodyOf(f: Frame): string {
    match f
    case Retry => "retry: 2000"
    case KeepAlive => ": keep-alive"
    case Ev(id, kind, data) => Body(Some(id), kind, data)
    case End(status) => Body(None, "end", EndData(status))
  }

  function Text(f: Frame): string {
    BodyOf(f) + "\n\n"
  }

  function RawOf(f: Frame): seq<RawEvent> {
    match f
    case Retry => []
    case KeepAlive => []
    case Ev(id, kind, data) => [Raw(Some(id), kind, data)]
    case End(status) => [Raw(None, "end", EndData(status))]
  }

  /** json.dumps and the event types never produce a line break. */
  predicate Printable(f: Frame) {
    match f
    case Ev(_, kind, data) => OneLine(kind) && OneLine(data)
    case End(status) => OneLine(status)
    case _ => true
  }

  ghost predicate AllPrintable(fs: seq<Frame>) {
    forall i :: 0 <= i < |fs| ==> Printable(fs[i])
  }

  function Print(fs: seq<Frame>): string {
    if fs == [] then "" else Text(fs[0]) + Print(fs[1..])
  }

  function Raws(fs: seq<Frame>): seq<RawEvent> {
    if fs == [] then [] else RawOf(fs[0]) + Raws(fs[1..])
  }

  lemma OtherField(f: Fields, name: string, value: string)
    requires name != "" && ':' !in name && name != "id" && name != "event" && name != "data"
    ensures WithLine(f, Line(name, value)) == f
  {
    var line := Line(name, value);
    FindConcat(name, ':', " " + value);
    assert line == name + [':'] + (" " + value);
    assert line[..|name|] == name && line[0] == name[0];
  }

  lemma OneIdleLine(line: string)
    requires line != "" && '\n' !in line && WithLine(Fields(None, "message", []), line) == Fields(None, "message", [])
    ensures Solid(line) && EventOf(line) == []
  {
    SolidLine(line, "");
    FirstLine(line, "");
    assert [line][..0] == [];
    assert FieldsOf([line]) == WithLine(FieldsOf([]), line);
  }

  lemma RetryBlock()
    ensures Solid("retry: 2000") && EventOf("retry: 2000") == []
  {
    var x := Line("retry", "2000");
    assert x == "retry: 2000";
    OtherField(Fields(None, "message", []), "retry", "2000");
    OneIdleLine(x);
  }

  lemma KeepAliveBlock()
    ensures Solid(": keep-alive") && EventOf(": keep-alive") == []
  {
    OneIdleLine(": keep-alive");
  }

  lemma FrameBlock(f: Frame)
    requires Printable(f)
    ensures Solid(BodyOf(f)) && EventOf(BodyOf(f)) == RawOf(f)
  {
    match f
    case Retry => RetryBlock();
    case KeepAlive => KeepAliveBlock();
    case Ev(id, kind, data) => BodyIsOneEvent(Some(id), kind, data);
    case End(status) => BodyIsOneEvent(None, "end", EndData(status));
  }

  lemma NoCRInBody(id: Option<nat>, event: string, data: string)
    requires OneLine(event) && OneLine(data)
    ensures '\r' !in Body(id, event, data)
  {
    if id.Some? {
      NumberOfDecimal(id.value);
      assert OneLine(Line("id", Decimal(id.value)));
    }
    assert OneLine(Line("event", event)) && OneLine(Line("data", data));
  }

  lemma NoCRInText(f: Frame)
    requires Printable(f)
    ensures '\r' !in Text(f)
  {
    match f
    case Ev(id, kind, data) => NoCRInBody(Some(id), kind, data);
    case End(status) => NoCRInBody(None, "end", EndData(status));
    case _ =>
  }

  lemma {:induction false} NoCRInPrint(fs: seq<Frame>)
    requires AllPrintable(fs)
    ensures '\r' !in Print(fs)
  {
    if fs != [] {
      NoCRInText(fs[0]);
      NoCRInPrint(fs[1..]);
    }
  }

  /** How many frames lie wholly within the first `n` characters. */
  function Whole(fs: seq<Frame>, n: nat): (k: nat)
    ensures k <= |fs|
  {
    if fs == [] || n < |Text(fs[0])| then 0 else 1 + Whole(fs[1..], n - |Text(fs[0])|)
  }

  lemma {:induction false} CutFirstBlank(s: string, n: nat)
    requires n <= FirstBlank(s) + 1 && n <= |s|
    ensures FirstBlank(s[..n]) == n
    decreases |s|
  {
    if n >= 2 {
      assert s[..n][1..] == s[1..][..n - 1];
      CutFirstBlank(s[1..], n - 1);
    }
  }

  /** A frame that is not complete yet yields nothing. */
  lemma PartOfFrame(f: Frame, tail: string, n: nat)
    requires Printable(f) && n < |Text(f)|
    ensures ParsedText((Text(f) + tail)[..n]) == Parsed([], (Text(f) + tail)[..n])
  {
    var s := Text(f) + tail;
    FrameBlock(f);
    SolidEnds(BodyOf(f), tail);
    CutFirstBlank(s, n);
    assert Complete([s[..n]]) == [];
  }

  /** Whatever has arrived of the stream parses to the events of the complete frames, in order. */
  lemma {:induction false} PrefixParses(fs: seq<Frame>, n: nat, s: string)
    requires AllPrintable(fs) && n <= |Print(fs)| && s == Print(fs)[..n]
    ensures ParsedText(s).events == Raws(fs[..Whole(fs, n)])
    decreases |fs|
  {
    if fs == [] {
      NoTail();
      assert s == "";
    } else if n < |Text(fs[0])| {
      PartOfFrame(fs[0], Print(fs[1..]), n);
      assert fs[..0] == [];
    } else {
      var rest, m := fs[1..], n - |Text(fs[0])|;
      var t := Print(rest)[..m];
      PrefixParses(rest, m, t);
      FirstFrame(fs[0], Print(rest), m, s, t);
      FirstRaw(fs, Whole(rest, m));
    }
  }

  lemma FirstRaw(fs: seq<Frame>, k: nat)
    requires k < |fs|
    ensures Raws(fs[..k + 1]) == RawOf(fs[0]) + Raws(fs[1..][..k])
  {
    assert fs[..k + 1][0] == fs[0] && fs[..k + 1][1..] == fs[1..][..k];
  }

  lemma FirstFrame(f: Frame, tail: string, m: nat, s: string, t: string)
    requires Printable(f) && m <= |tail| && s == (Text(f) + tail)[..|Text(f)| + m] && t == tail[..m]
    ensures ParsedText(s).events == RawOf(f) + ParsedText(t).events
  {
    assert s == BodyOf(f) + "\n\n" + t;
    FrameBlock(f);
    SolidBlock(BodyOf(f), t);
  }

  /** Printing frames and parsing the text gives back exactly the printed events, in order. */
  lemma {:induction false} RoundTrip(fs: seq<Frame>)
    requires AllPrintable(fs)
    ensures Parse(Print(fs)) == Parsed(Raws(fs), "")
    decreases |fs|
  {
    NoCRInPrint(fs);
    NormalisedHasNoCR(Print(fs));
    if fs == [] {
      NoTail();
    } else {
      NoCRInPrint(fs[1..]);
      NormalisedHasNoCR(Print(fs[1..]));
      RoundTrip(fs[1..]);
      FrameBlock(fs[0]);
      SolidBlock(BodyOf(fs[0]), Print(fs[1..]));
    }
  }

  lemma {:induction false} RawsConcat(a: seq<Frame>, b: seq<Frame>)
    ensures Raws(a + b) == Raws(a) + Raws(b)
    decreases |a|
  {
    if a == [] {
      assert a + b == b;
    } else {
      assert (a + b)[1..] == a[1..] + b;
      RawsConcat(a[1..], b);
    }
  }

  lemma {:induction false} WholeGrows(fs: seq<Frame>, m: nat, n: nat)
    requires m <= n
    ensures Whole(fs, m) <= Whole(fs, n)
    decreases |fs|
  {
    if fs != [] && m >= |Text(fs[0])| { WholeGrows(fs[1..], m - |Text(fs[0])|, n - |Text(fs[0])|); }
  }

  lemma {:induction false} WholeOfAll(fs: seq<Frame>)
    ensures Whole(fs, |Print(fs)|) == |fs|
  {
    if fs != [] { WholeOfAll(fs[1..]); }
  }

  /** The server writing more does not change what has already arrived. */
  lemma {:induction false} WholeKeeps(fs: seq<Frame>, more: seq<Frame>, n: nat)
    requires n <= |Print(fs)|
    ensures Whole(fs + more, n) == Whole(fs, n)
    ensures n <= |Print(fs + more)| && Print(fs + more)[..n] == Print(fs)[..n]
    decreases |fs|
  {
    if fs == [] {
      if more != [] { assert |Text(more[0])| >= 2; }
      assert fs + more == more;
    } else {
      assert (fs + more)[1..] == fs[1..] + more;
      var t := Text(fs[0]);
      if n >= |t| {
        WholeKeeps(fs[1..], more, n - |t|);
        assert Print(fs)[..n] == t + Print(fs[1..])[..n - |t|];
        assert Print(fs + more)[..n] == t + Print(fs[1..] + more)[..n - |t|];
      } else {
        assert Print(fs)[..n] == t[..n];
        assert Print(fs + more)[..n] == t[..n];
      }
    }
  }

  lemma ParseAfterRest(a: string, b: string)
    requires '\r' !in a && '\r' !in b
    ensures Parse(ParsedText(a).rest + b) == ParsedText(ParsedText(a).rest + b)
  {
    BlocksKeepNoCR(a);
    NormalisedHasNoCR(ParsedText(a).rest + b);
  }

  /** One more chunk `y` after `x`: the frames it completes are exactly the ones newly parsed. */
  lemma NextChunk(fs: seq<Frame>, m: nat, n: nat, x: string, y: string)
    requires AllPrintable(fs) && m <= n <= |Print(fs)| && x == Print(fs)[..m] && x + y == Print(fs)[..n]
    ensures Whole(fs, m) <= Whole(fs, n)
    ensures Parse(ParsedText(x).rest + y) == Parsed(Raws(fs[Whole(fs, m)..Whole(fs, n)]), ParsedText(x + y).rest)
  {
    NoCRInPrint(fs);
    assert '\r' !in x + y;
    ParseAfterRest(x, y);
    ParsedTextConcat(x, y);
    WholeGrows(fs, m, n);
    PrefixParses(fs, m, x);
    PrefixParses(fs, n, x + y);
    RawsBetween(fs, Whole(fs, m), Whole(fs, n), ParsedText(ParsedText(x).rest + y).events);
  }

  lemma RawsBetween(fs: seq<Frame>, a: nat, b: nat, events: seq<RawEvent>)
    requires a <= b <= |fs| && Raws(fs[..b]) == Raws(fs[..a]) + events
    ensures events == Raws(fs[a..b])
  {
    var before, between := Raws(fs[..a]), Raws(fs[a..b]);
    assert fs[..b] == fs[..a] + fs[a..b];
    RawsConcat(fs[..a], fs[a..b]);
    assert events == (before + events)[|before|..];
    assert between == (before + between)[|before|..];
  }
}
