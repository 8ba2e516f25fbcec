/** The replaying server and the reconnecting client of a job's event stream, over any interleaving of
    publications, polls, partial arrivals, dropped connections and reconnections.
    Models `stream_events` in src/autoswe/api/jobs.py and `followJobEvents` in frontend/src/lib/sse.ts. */
module Delivery {
  import opened Options
  import opened Sse
  import opened Frames

  // ------------------------------------------------------------------ the job's log

  /** A persisted event; `ends` is the terminal status committed with it, if any. */
  datatype Entry = Entry(id: nat, kind: string, data: string, ends: Option<string>)

  predicate Terminal(status: string) {
    status == "succeeded" || status == "failed" || status == "cancelled"
  }

  ghost predicate Sorted(log: seq<Entry>) {
    forall i, j :: 0 <= i < j < |log| ==> log[i].id < log[j].id
  }

  /** `events_after` without its limit. */
  function After(log: seq<Entry>, cursor: nat): seq<Entry> {
    if log == [] then []
    else
      var last := log[|log| - 1];
      After(log[..|log| - 1], cursor) + if last.id > cursor then [last] else []
  }

  const BATCH := 200

  function Batch(log: seq<Entry>, cursor: nat): seq<Entry> {
    var all := After(log, cursor);
    if |all| <= BATCH then all else all[..BATCH]
  }

  /** A poll takes the first two hundred of the later events, or all if there are no more. */
  lemma BatchIsFirst(log: seq<Entry>, cursor: nat)
    ensures Batch(log, cursor) <= After(log, cursor)
    ensures |Batch(log, cursor)| == if |After(log, cursor)| > 200 then 200 else |After(log, cursor)|
  {
  }

  function FramesOf(entries: seq<Entry>): seq<Frame> {
    seq(|entries|, i requires 0 <= i < |entries| => Ev(entries[i].id, entries[i].kind, entries[i].data))
  }

  lemma {:induction false} AfterIsLater(log: seq<Entry>, cursor: nat)
    ensures forall e :: e in After(log, cursor) <==> e in log && e.id > cursor
  {
    if log != [] {
      AfterIsLater(log[..|log| - 1], cursor);
      assert log == log[..|log| - 1] + [log[|log| - 1]];
    }
  }

  lemma {:induction false} NothingAfterLast(log: seq<Entry>, cursor: nat)
    requires forall i :: 0 <= i < |log| ==> log[i].id <= cursor
    ensures After(log, cursor) == []
  {
    if log != [] { NothingAfterLast(log[..|log| - 1], cursor); }
  }

  /** Moving the cursor to the `m`-th event leaves exactly the events behind it. */
  lemma {:induction false} AfterDrop(log: seq<Entry>, cursor: nat, m: nat)
    requires Sorted(log) && 0 < m <= |After(log, cursor)|
    ensures After(log, After(log, cursor)[m - 1].id) == After(log, cursor)[m..]
  {
    if log != [] {
      var init, last := log[..|log| - 1], log[|log| - 1];
      var before := After(init, cursor);
      if m <= |before| {
        AfterDrop(init, cursor, m);
        AfterIsLater(init, cursor);
        assert before[m - 1] in before;
        assert before[m - 1] in init;
        assert After(log, cursor)[m - 1] == before[m - 1];
      } else {
        NothingAfterLast(log, last.id);
      }
    }
  }

  // ------------------------------------------------------------------ the server

  /** What a poll has read of the job before it reads the events. */
  datatype Seen = NotRead | Read(status: Option<string>, upto: nat)

  /** The poll that ended a stream: the status it read, how much was committed by then, the cursor it
      read events after, and whether the job was gone by the time it did. */
  datatype Ending = Ending(status: Option<string>, upto: nat, cursor: nat, deleted: bool)

  datatype Conn = Conn(cursor: nat, frames: seq<Frame>, received: nat, seen: Seen, ending: Option<Ending>)

  function EndStatus(status: Option<string>): string {
    if status.Some? then status.value else "deleted"
  }

  predicate Ends(status: Option<string>, events: seq<Entry>) {
    status.None? || (Terminal(status.value) && events == [])
  }

  function Polled(status: Option<string>, events: seq<Entry>): seq<Frame> {
    FramesOf(events) + if Ends(status, events) then [End(EndStatus(status))] else []
  }

  /** What one poll writes: the batch, an event a frame; then, for a deleted job, and for a finished one without
      further events, the end with that status; nothing else. */
  lemma PollWrites(status: Option<string>, events: seq<Entry>)
    ensures var frames := Polled(status, events);
      && (forall i :: 0 <= i < |events| ==>
            i < |frames| && frames[i] == Ev(events[i].id, events[i].kind, events[i].data))
      && (status == None ==> frames[|events|..] == [End("deleted")])
      && (forall s :: status == Some(s) && events == [] && s in {"succeeded", "failed", "cancelled"} ==>
            frames == [End(s)])
      && (forall s :: status == Some(s) && (events != [] || s !in {"succeeded", "failed", "cancelled"}) ==>
            |frames| == |events|)
  {
  }

  /** The bytes of an event, as section 9.2 of the WHATWG HTML Living Standard writes it. */
  lemma EventOnTheWire(id: nat, kind: string, data: string)
    ensures Print([Ev(id, kind, data)])
      == ("id: " + Decimal(id)) + "\n" + (("event: " + kind) + "\n" + ("data: " + data)) + "\n\n"
  {
    PrintOne(Ev(id, kind, data));
    Labels();
  }

  /** The other three frames. */
  lemma OthersOnTheWire(status: string)
    ensures Print([End(status)]) == "event: end\ndata: {\"status\": \"" + status + "\"}\n\n"
    ensures Print([Retry]) == "retry: 2000\n\n" && Print([KeepAlive]) == ": keep-alive\n\n"
  {
    PrintOne(Retry);
    PrintOne(KeepAlive);
    PrintOne(End(status));
    Labels();
    EndText(status, "event: end", "data: ", "{\"status\": \"", "\"}");
  }

  lemma Labels()
    ensures forall name, value :: Line(name, value) == name + ": " + value
    ensures "id" + ": " == "id: " && "event" + ": " == "event: " && "data" + ": " == "data: "
    ensures "event: " + "end" == "event: end"
  {
  }

  lemma EndText(status: string, event: string, data: string, open: string, close: string)
    requires event == "event: end" && data == "data: " && open == "{\"status\": \"" && close == "\"}"
    ensures event + "\n" + (data + (open + status + close)) + "\n\n" ==
      "event: end\ndata: {\"status\": \"" + status + "\"}\n\n"
  {
    assert event + "\n" + data + open == "event: end\ndata: {\"status\": \"";
    assert close + "\n\n" == "\"}\n\n";
  }

  lemma PrintOne(f: Frame)
    ensures Print([f]) == Text(f)
  {
    assert [f][1..] == [];
  }

  function NextCursor(cursor: nat, events: seq<Entry>): nat {
    if events == [] then cursor else events[|events| - 1].id
  }

  /** The generator's state across polls. */
  class Generator {
    var cursor: nat

    constructor (lastEventId: nat)
      ensures cursor == lastEventId
    {
      cursor := lastEventId;
    }

    /** One round of `generate` after both reads: what it yields, and whether it returned. */
    method Poll(status: Option<string>, events: seq<Entry>) returns (text: string, over: bool)
      modifies this
      ensures text == Print(Polled(status, events)) && (over <==> Ends(status, events))
      ensures cursor == NextCursor(old(cursor), events)
    {
      text := Replay(events);
      over := status.None? || (Terminal(status.value) && events == []);
      if over {
        PrintSnoc(FramesOf(events), End(EndStatus(status)));
        text := text + Text(End(EndStatus(status)));
      } else {
        assert FramesOf(events) + [] == FramesOf(events);
      }
    }

    method Replay(events: seq<Entry>) returns (text: string)
      modifies this
      ensures text == Print(FramesOf(events)) && cursor == NextCursor(old(cursor), events)
    {
      text := "";
      var frames := FramesOf(events);
      for i := 0 to |events|
        invariant text == Print(frames[..i])
        invariant cursor == if i == 0 then old(cursor) else events[i - 1].id
      {
        cursor := events[i].id;
        text := Yield(text, frames, i);
      }
      assert frames[..|events|] == frames;
    }
  }

  /** Adds one frame to what has been written. */
  method Yield(text: string, frames: seq<Frame>, i: nat) returns (longer: string)
    requires i < |frames| && text == Print(frames[..i])
    ensures longer == Print(frames[..i + 1])
  {
    ghost var before, f := frames[..i], frames[i];
    assert frames[..i + 1] == before + [f];
    PrintSnoc(before, f);
    assert Print(before + [f]) == text + Text(f);
    longer := text + Text(frames[i]);
  }

  lemma {:induction false} PrintSnoc(fs: seq<Frame>, f: Frame)
    ensures Print(fs + [f]) == Print(fs) + Text(f)
    decreases |fs|
  {
    if fs == [] {
      assert [f][1..] == [] && [] + [f] == [f];
    } else {
      assert (fs + [f])[1..] == fs[1..] + [f];
      PrintSnoc(fs[1..], f);
    }
  }

  // ------------------------------------------------------------------ the client

  datatype JobEvent = JobEvent(id: Option<nat>, event: string, data: string)

  /** `toJobEvent`: None when the data is not JSON. */
  function ToJobEvent(json: string -> bool, raw: RawEvent): Option<JobEvent> {
    if !json(raw.data) then None
    else Some(JobEvent(if raw.id.Some? && AllDigits(raw.id.value) then Some(Number(raw.id.value)) else None,
      raw.event, raw.data))
  }

  datatype ClientState = ClientState(lastId: nat, buffer: string, handed: seq<JobEvent>, ended: Option<string>)

  function Handled(json: string -> bool, c: ClientState, events: seq<RawEvent>): ClientState
    decreases |events|
  {
    if events == [] || c.ended.Some? then c
    else
      var raw := events[0];
      if raw.event == "end" then c.(ended := Some(raw.data))
      else
        Handled(json, HandedOne(json, c, raw), events[1..])
  }

  function HandedOne(json: string -> bool, c: ClientState, raw: RawEvent): ClientState {
    var e := ToJobEvent(json, raw);
    if e.None? then c
    else
      c.(lastId := if e.value.id.Some? then e.value.id.value else c.lastId, handed := c.handed + [e.value])
  }

  function Received(json: string -> bool, c: ClientState, value: string): ClientState {
    var p := Parse(c.buffer + value);
    Handled(json, c.(buffer := p.rest), p.events)
  }

  /** The first `end` among the events; their number when there is none. */
  ghost function FirstEnd(events: seq<RawEvent>): (n: nat)
    ensures n <= |events| && (n < |events| ==> events[n].event == "end")
    ensures forall i :: 0 <= i < n ==> events[i].event != "end"
  {
    if events == [] || events[0].event == "end" then 0 else 1 + FirstEnd(events[1..])
  }

  /** How many of the events carry JSON. */
  ghost function JsonCount(json: string -> bool, events: seq<RawEvent>): nat {
    if events == [] then 0 else (if json(events[0].data) then 1 else 0) + JsonCount(json, events[1..])
  }

  /** An event for the client whose id is a number. */
  ghost predicate Numbered(json: string -> bool, e: RawEvent) {
    json(e.data) && e.id.Some? && AllDigits(e.id.value)
  }

  ghost predicate LastNumber(json: string -> bool, events: seq<RawEvent>, n: nat, i: nat) {
    i < n <= |events| && Numbered(json, events[i]) && forall j :: i < j < n ==> !Numbered(json, events[j])
  }

  ghost predicate HandedAs(e: RawEvent, handed: JobEvent) {
    && handed.event == e.event && handed.data == e.data
    && handed.id == if e.id.Some? && AllDigits(e.id.value) then Some(Number(e.id.value)) else None
  }

  /** Events up to the first `end` whose data is JSON are handed on, each once and in order, with their types and
      data; the end, if there is one, ends the stream. */
  lemma {:induction false} HandedOn(json: string -> bool, c: ClientState, events: seq<RawEvent>)
    requires c.ended.None?
    ensures var c', n := Handled(json, c, events), FirstEnd(events);
      && c'.buffer == c.buffer && c'.ended == (if n < |events| then Some(events[n].data) else None)
      && |c'.handed| == |c.handed| + JsonCount(json, events[..n]) && c.handed <= c'.handed
      && forall i :: 0 <= i < n && json(events[i].data) ==>
            var k := |c.handed| + JsonCount(json, events[..i]);
            k < |c'.handed| && HandedAs(events[i], c'.handed[k])
    decreases |events|
  {
    var c', n := Handled(json, c, events), FirstEnd(events);
    if n > 0 {
      var rest := events[1..];
      var next := HandedOne(json, c, events[0]);
      HandedOn(json, next, rest);
      assert events[..n][1..] == rest[..n - 1];
      forall i | 0 <= i < n && json(events[i].data)
        ensures var k := |c.handed| + JsonCount(json, events[..i]);
          k < |c'.handed| && HandedAs(events[i], c'.handed[k])
      {
        if i > 0 {
          assert events[..i][1..] == rest[..i - 1] && events[i] == rest[i - 1];
        }
      }
    }
  }

  /** The last number among the ids of what was handed on becomes the last id. */
  lemma {:induction false} LastIdIs(json: string -> bool, c: ClientState, events: seq<RawEvent>)
    requires c.ended.None?
    ensures var c', n := Handled(json, c, events), FirstEnd(events);
      && (forall i: nat :: LastNumber(json, events, n, i) ==> c'.lastId == Number(events[i].id.value))
      && ((forall i :: 0 <= i < n ==> !Numbered(json, events[i])) ==> c'.lastId == c.lastId)
    decreases |events|
  {
    var c', n := Handled(json, c, events), FirstEnd(events);
    if n > 0 {
      var rest := events[1..];
      var next := HandedOne(json, c, events[0]);
      LastIdIs(json, next, rest);
      assert forall i :: 0 <= i < n - 1 ==> rest[i] == events[i + 1];
      forall i: nat | LastNumber(json, events, n, i) ensures c'.lastId == Number(events[i].id.value) {
        if i > 0 { assert LastNumber(json, rest, n - 1, i - 1); }
      }
    }
  }

  class Client {
    const json: string -> bool
    var lastId: nat
    var buffer: string
    var handed: seq<JobEvent>
    var ended: Option<string>

    constructor (json: string -> bool, lastEventId: nat)
      ensures this.json == json && State() == ClientState(lastEventId, "", [], None)
    {
      this.json := json;
      lastId, buffer, handed, ended := lastEventId, "", [], None;
    }

    function State(): ClientState
      reads this
    {
      ClientState(lastId, buffer, handed, ended)
    }

    /** A new connection: it asks for what follows `lastId`, with an empty buffer. */
    method Connect() returns (lastEventId: string)
      modifies this`buffer
      ensures State() == old(State()).(buffer := "") && lastEventId == Decimal(lastId)
    {
      buffer := "";
      lastEventId := Decimal(lastId);
    }

    /** One chunk of the response body. */
    method Receive(value: string)
      requires ended.None?
      modifies this
      ensures State() == Received(json, old(State()), value)
    {
      var parsed := ParseSSE(buffer + value);
      buffer := parsed.rest;
      ghost var begin := State();
      var events := parsed.events;
      var i := 0;
      while i < |events|
        invariant 0 <= i <= |events| && ended.None?
        invariant Handled(json, State(), events[i..]) == Handled(json, begin, events)
      {
        var raw := events[i];
        assert events[i..][1..] == events[i + 1..];
        if raw.event == "end" {
          ended := Some(raw.data);
          return;
        }
        var event := ToJobEvent(json, raw);
        if event.Some? {
          if event.value.id.Some? { lastId := event.value.id.value; }
          handed := handed + [event.value];
        }
        i := i + 1;
      }
    }
  }

  /** `_event_cursor`: a header of decimal digits wins over `?after=`, any other header is ignored. */
  function EventCursor(strip: string -> string, header: Option<string>, after: Option<nat>): nat {
    var value := strip(if header.Some? then header.value else "");
    if AllDigits(value) then Number(value) else if after.Some? then after.value else 0
  }

  /** Where a request's replay begins: after the header's number if it is one; else after `?after=`, if given; else
      at the beginning. */
  lemma CursorOfRequest(strip: string -> string, header: Option<string>, after: Option<nat>)
    ensures header.Some? && AllDigits(strip(header.value)) ==>
      EventCursor(strip, header, after) == Number(strip(header.value))
    ensures (header.None? && strip("") == "") || (header.Some? && !AllDigits(strip(header.value))) ==>
      (forall n :: after == Some(n) ==> EventCursor(strip, header, after) == n) &&
      (after == None ==> EventCursor(strip, header, after) == 0)
  {
  }

  /** The client's header is read back as the client's last id, whatever `after` says. */
  lemma HeaderRoundTrip(strip: string -> string, lastId: nat, after: Option<nat>)
    requires strip(Decimal(lastId)) == Decimal(lastId)
    ensures EventCursor(strip, Some(Decimal(lastId)), after) == lastId
  {
    NumberOfDecimal(lastId);
  }

  // ------------------------------------------------------------------ the protocol

  /** `finale` is the poll whose `end` has reached the client. */
  datatype World = World(
    log: seq<Entry>, status: Option<string>, conn: Option<Conn>, client: ClientState, finale: Option<Ending>)

  datatype Step =
    | Publish(entry: Entry)                 // an event; with `ends`, the terminal status in the same commit
    | Restatus(status: string)              // a change of status that is not terminal
    | Delete
    | Connect
    | ReadStatus
    | ReadEvents
    | Beat                                  // a keep-alive frame
    | Arrive(count: nat)                    // so many more characters reach the client
    | Drop

  ghost predicate Possible(json: string -> bool, w: World, step: Step) {
    match step
    case Publish(e) =>
      && w.status.Some? && (forall i :: 0 <= i < |w.log| ==> w.log[i].id < e.id)
      && OneLine(e.kind) && OneLine(e.data) && e.kind != "end" && json(e.data)
      && (e.ends.Some? ==> Terminal(e.ends.value))
    case Restatus(status) => w.status.Some? && !Terminal(status) && OneLine(status)
    case Connect => w.client.ended.None?
    case ReadStatus => w.conn.Some? && w.conn.value.ending.None? && w.conn.value.seen.NotRead?
    case ReadEvents => w.conn.Some? && w.conn.value.ending.None? && w.conn.value.seen.Read?
    case Beat => w.conn.Some? && w.conn.value.ending.None?
    case Arrive(n) =>
      w.conn.Some? && w.client.ended.None? && w.conn.value.received + n <= |Print(w.conn.value.frames)|
    case _ => true
  }

  function Visible(w: World, cursor: nat): seq<Entry> {
    if w.status.None? then [] else Batch(w.log, cursor)
  }

  function EndingOf(w: World, c: Conn): Option<Ending>
    requires c.seen.Read?
  {
    if Ends(c.seen.status, Visible(w, c.cursor))
    then Some(Ending(c.seen.status, c.seen.upto, c.cursor, w.status.None?)) else None
  }

  function AfterPoll(w: World, c: Conn): World
    requires c.seen.Read?
  {
    var events := Visible(w, c.cursor);
    w.(conn := Some(c.(cursor := NextCursor(c.cursor, events), frames := c.frames + Polled(c.seen.status, events),
                       seen := NotRead, ending := EndingOf(w, c))))
  }

  function AfterArrival(json: string -> bool, w: World, c: Conn, n: nat): World
    requires c.received + n <= |Print(c.frames)|
  {
    var client := Received(json, w.client, Print(c.frames)[c.received..c.received + n]);
    w.(conn := Some(c.(received := c.received + n)), client := client,
       finale := if client.ended.Some? then c.ending else w.finale)
  }

  ghost function Next(json: string -> bool, w: World, step: Step): World
    requires Possible(json, w, step)
  {
    match step
    case Publish(e) => w.(log := w.log + [e], status := if e.ends.Some? then e.ends else w.status)
    case Restatus(status) => w.(status := Some(status))
    case Delete => w.(status := None)
    case Connect =>
      w.(conn := Some(Conn(w.client.lastId, [Retry], 0, NotRead, None)), client := w.client.(buffer := ""))
    case ReadStatus => w.(conn := Some(w.conn.value.(seen := Read(w.status, |w.log|))))
    case ReadEvents => AfterPoll(w, w.conn.value)
    case Beat => w.(conn := Some(w.conn.value.(frames := w.conn.value.frames + [KeepAlive])))
    case Arrive(n) => AfterArrival(json, w, w.conn.value, n)
    case Drop => w.(conn := None)
  }
}
