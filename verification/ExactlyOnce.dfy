/** Exactly-once, in-order delivery over every run of the event stream protocol. */
module ExactlyOnce {
  import opened Options
  import opened Sse
  import opened Frames
  import opened Delivery

  function EventOfEntry(e: Entry): JobEvent {
    JobEvent(Some(e.id), e.kind, e.data)
  }

  function EventsOfEntries(es: seq<Entry>): seq<JobEvent> {
    seq(|es|, i requires 0 <= i < |es| => EventOfEntry(es[i]))
  }

  // ------------------------------------------------------------------ invariants

  ghost predicate LogOk(json: string -> bool, log: seq<Entry>) {
    && Sorted(log)
    && forall i :: 0 <= i < |log| ==>
        OneLine(log[i].kind) && OneLine(log[i].data) && log[i].kind != "end" && json(log[i].data)
  }

  /** The last status the log announces is `status`. */
  ghost predicate Announced(log: seq<Entry>, status: string) {
    exists i :: 0 <= i < |log| && log[i].ends == Some(status) && forall j :: i < j < |log| ==> log[j].ends.None?
  }

  /** A cursor is the start cursor or the id of an event behind it. */
  ghost predicate Mark(log: seq<Entry>, start: nat, x: nat) {
    x == start || (x > start && exists i :: 0 <= i < |log| && log[i].id == x)
  }

  /** What the client was handed is the log after the start cursor, up to its last id. */
  ghost predicate ClientOk(log: seq<Entry>, start: nat, c: ClientState) {
    var all := After(log, start);
    && Mark(log, start, c.lastId)
    && |c.handed| <= |all|
    && c.handed == EventsOfEntries(all[..|c.handed|])
    && After(log, c.lastId) == all[|c.handed|..]
  }

  function OnlyEvents(fs: seq<Frame>): seq<Frame> {
    if fs == [] then []
    else if fs[0].Ev? then [fs[0]] + OnlyEvents(fs[1..]) else OnlyEvents(fs[1..])
  }

  /** The frames still to arrive, then the log after the server's cursor, follow the client's last id. */
  ghost predicate Ahead(log: seq<Entry>, fs: seq<Frame>, cursor: nat, lastId: nat) {
    OnlyEvents(fs) + FramesOf(After(log, cursor)) == FramesOf(After(log, lastId))
  }

  /** Everything in the log lies at or before the mark. */
  ghost predicate Behind(log: seq<Entry>, mark: nat) {
    forall j :: 0 <= j < |log| ==> log[j].id <= mark
  }

  /** What a stream's end is worth: for a terminal status, nothing committed when that status was read
      lies behind the mark, exactly when the job still existed at the poll's second read or the
      poll had nothing left to read. */
  ghost predicate EndingOk(log: seq<Entry>, e: Ending, mark: nat) {
    && e.upto <= |log|
    && (e.status.Some? ==>
        && Terminal(e.status.value) && Announced(log[..e.upto], e.status.value)
        && (Behind(log[..e.upto], mark) <==> !e.deleted || After(log[..e.upto], e.cursor) == []))
  }

  ghost predicate FramesOk(log: seq<Entry>, c: Conn) {
    && AllPrintable(c.frames)
    && (forall i :: 0 <= i < |c.frames| && c.frames[i].End? ==>
        c.ending.Some? && i == |c.frames| - 1 && c.frames[i].status == EndStatus(c.ending.value.status))
    && (forall i :: 0 <= i < |c.frames| && c.frames[i].Ev? ==> c.frames[i].kind != "end")
    && (c.ending.Some? ==> EndingOk(log, c.ending.value, c.cursor))
  }

  ghost predicate SeenOk(log: seq<Entry>, seen: Seen) {
    && (seen.Read? ==> seen.upto <= |log|)
    && (seen.Read? && seen.status.Some? ==> OneLine(seen.status.value))
    && (seen.Read? && seen.status.Some? && Terminal(seen.status.value) ==>
        Announced(log[..seen.upto], seen.status.value))
  }

  ghost predicate ConnOk(w: World, start: nat, c: Conn) {
    && FramesOk(w.log, c) && SeenOk(w.log, c.seen) && Mark(w.log, start, c.cursor)
    && c.received <= |Print(c.frames)|
    && (w.client.ended.None? ==>
        && w.client.buffer == ParsedText(Print(c.frames)[..c.received]).rest
        && Ahead(w.log, Unsent(c), c.cursor, w.client.lastId))
  }

  /** A terminal status is the last one the log announces. */
  ghost predicate StatusOk(log: seq<Entry>, status: Option<string>) {
    status.Some? ==> OneLine(status.value) && (Terminal(status.value) ==> Announced(log, status.value))
  }

  ghost predicate Inv(json: string -> bool, w: World, start: nat) {
    && LogOk(json, w.log)
    && StatusOk(w.log, w.status)
    && ClientOk(w.log, start, w.client)
    && (w.conn.Some? ==> ConnOk(w, start, w.conn.value))
    && FinaleOk(w)
  }

  ghost predicate FinaleOk(w: World) {
    w.client.ended.Some? ==>
      && w.finale.Some? && w.client.ended == Some(EndData(EndStatus(w.finale.value.status)))
      && EndingOk(w.log, w.finale.value, w.client.lastId)
  }

  // ------------------------------------------------------------------ appending to the log

  lemma AfterAppend(log: seq<Entry>, e: Entry, start: nat, x: nat)
    requires Mark(log, start, x) && forall i :: 0 <= i < |log| ==> log[i].id < e.id
    ensures After(log + [e], x) == After(log, x) + (if e.id > start then [e] else [])
    ensures Mark(log + [e], start, x)
  {
    assert (log + [e])[..|log|] == log;
    if x != start {
      var i :| 0 <= i < |log| && log[i].id == x;
      assert (log + [e])[i] == log[i];
    }
  }

  lemma FramesConcat(a: seq<Entry>, b: seq<Entry>)
    ensures FramesOf(a + b) == FramesOf(a) + FramesOf(b)
  {
  }

  lemma AppendKeepsClient(log: seq<Entry>, e: Entry, start: nat, c: ClientState)
    requires ClientOk(log, start, c) && forall i :: 0 <= i < |log| ==> log[i].id < e.id
    ensures ClientOk(log + [e], start, c)
  {
    AfterAppend(log, e, start, start);
    AfterAppend(log, e, start, c.lastId);
    var all, more := After(log, start), if e.id > start then [e] else [];
    assert (all + more)[..|c.handed|] == all[..|c.handed|];
    assert (all + more)[|c.handed|..] == all[|c.handed|..] + more;
  }

  lemma AppendKeepsAhead(log: seq<Entry>, e: Entry, start: nat, fs: seq<Frame>, cursor: nat, lastId: nat)
    requires Mark(log, start, cursor) && Mark(log, start, lastId) && Ahead(log, fs, cursor, lastId)
    requires forall i :: 0 <= i < |log| ==> log[i].id < e.id
    ensures Ahead(log + [e], fs, cursor, lastId)
  {
    AfterAppend(log, e, start, cursor);
    AfterAppend(log, e, start, lastId);
    var more := if e.id > start then [e] else [];
    FramesConcat(After(log, cursor), more);
    FramesConcat(After(log, lastId), more);
    assert OnlyEvents(fs) + (FramesOf(After(log, cursor)) + FramesOf(more)) ==
      OnlyEvents(fs) + FramesOf(After(log, cursor)) + FramesOf(more);
  }

  lemma AppendKeepsEnding(log: seq<Entry>, e: Entry, ending: Ending, mark: nat)
    requires EndingOk(log, ending, mark)
    ensures EndingOk(log + [e], ending, mark)
  {
    assert (log + [e])[..ending.upto] == log[..ending.upto];
  }

  // ------------------------------------------------------------------ every step

  lemma PublishKeepsStatus(log: seq<Entry>, status: Option<string>, e: Entry)
    requires StatusOk(log, status) && OneLine(e.kind) && (e.ends.Some? ==> Terminal(e.ends.value))
    ensures StatusOk(log + [e], if e.ends.Some? then e.ends else status)
  {
    if e.ends.Some? {
      assert (log + [e])[|log|].ends == e.ends;
    } else if status.Some? && Terminal(status.value) {
      AnnouncedStays(log, e, status.value);
    }
  }

  lemma PublishKeepsFinale(w: World, w': World, e: Entry)
    requires FinaleOk(w) && w'.log == w.log + [e] && w'.client == w.client && w'.finale == w.finale
    ensures FinaleOk(w')
  {
    if w.client.ended.Some? { AppendKeepsEnding(w.log, e, w.finale.value, w.client.lastId); }
  }

  lemma PublishKeepsInv(json: string -> bool, w: World, start: nat, e: Entry)
    requires Inv(json, w, start) && Possible(json, w, Publish(e))
    ensures Inv(json, Next(json, w, Publish(e)), start)
  {
    var w' := Next(json, w, Publish(e));
    AppendKeepsClient(w.log, e, start, w.client);
    PublishKeepsStatus(w.log, w.status, e);
    PublishKeepsFinale(w, w', e);
    if w.conn.Some? { PublishKeepsConn(w, w', start, e, w.conn.value); }
  }

  lemma AnnouncedStays(log: seq<Entry>, e: Entry, status: string)
    requires Announced(log, status) && e.ends.None?
    ensures Announced(log + [e], status)
  {
    var i :| 0 <= i < |log| && log[i].ends == Some(status) && forall j :: i < j < |log| ==> log[j].ends.None?;
    assert (log + [e])[i].ends == Some(status);
  }

  lemma PublishKeepsConn(w: World, w': World, start: nat, e: Entry, c: Conn)
    requires ConnOk(w, start, c) && ClientOk(w.log, start, w.client)
    requires w'.log == w.log + [e] && w'.client == w.client && w.status.Some?
    requires forall i :: 0 <= i < |w.log| ==> w.log[i].id < e.id
    ensures ConnOk(w', start, c)
  {
    if c.ending.Some? { AppendKeepsEnding(w.log, e, c.ending.value, c.cursor); }
    if c.seen.Read? { assert w'.log[..c.seen.upto] == w.log[..c.seen.upto]; }
    AfterAppend(w.log, e, start, c.cursor);
    if w.client.ended.None? {
      AppendKeepsAhead(w.log, e, start, Unsent(c), c.cursor, w.client.lastId);
    }
  }

  /** Steps that touch neither the log nor the connection's frames. */
  lemma StatusKeepsInv(json: string -> bool, w: World, start: nat, step: Step)
    requires Inv(json, w, start) && Possible(json, w, step) && (step.Restatus? || step.Delete? || step.Drop?)
    ensures Inv(json, Next(json, w, step), start)
  {
  }

  lemma ConnectKeepsInv(json: string -> bool, w: World, start: nat)
    requires Inv(json, w, start) && Possible(json, w, Connect)
    ensures Inv(json, Next(json, w, Connect), start)
  {
    var w' := Next(json, w, Connect);
    var c := w'.conn.value;
    var text := Print(c.frames);
    assert text[..0] == "";
    NoTail();
    assert Whole(c.frames, 0) == 0 by { assert |Text(Retry)| > 0; }
    assert c.frames[0..] == c.frames && c.frames[1..] == [];
    assert OnlyEvents(c.frames) == [];
    assert Ahead(w'.log, Unsent(c), c.cursor, w'.client.lastId);
  }

  lemma ReadStatusKeepsInv(json: string -> bool, w: World, start: nat)
    requires Inv(json, w, start) && Possible(json, w, ReadStatus)
    ensures Inv(json, Next(json, w, ReadStatus), start)
  {
    assert w.log[..|w.log|] == w.log;
    assert ConnOk(w, start, w.conn.value);
  }

  // ------------------------------------------------------------------ the server writes

  lemma {:induction false} OnlyEventsConcat(a: seq<Frame>, b: seq<Frame>)
    ensures OnlyEvents(a + b) == OnlyEvents(a) + OnlyEvents(b)
    decreases |a|
  {
    if a == [] {
      assert a + b == b;
    } else {
      assert (a + b)[1..] == a[1..] + b;
      OnlyEventsConcat(a[1..], b);
    }
  }

  lemma {:induction false} EventsAreEvents(es: seq<Entry>)
    ensures OnlyEvents(FramesOf(es)) == FramesOf(es)
    decreases |es|
  {
    if es != [] {
      assert FramesOf(es)[1..] == FramesOf(es[1..]);
      EventsAreEvents(es[1..]);
    }
  }

  /** Frames that carry the next events keep the client's view in step with the server's cursor. */
  lemma AheadWrite(log: seq<Entry>, rest: seq<Frame>, more: seq<Frame>, events: seq<Entry>, before: nat, cursor: nat,
                   lastId: nat)
    requires Ahead(log, rest, before, lastId)
    requires After(log, before) == events + After(log, cursor) && OnlyEvents(more) == FramesOf(events)
    ensures Ahead(log, rest + more, cursor, lastId)
  {
    OnlyEventsConcat(rest, more);
    FramesConcat(events, After(log, cursor));
    Regroup(OnlyEvents(rest), FramesOf(events), FramesOf(After(log, cursor)));
  }

  /** The frames that have not arrived yet. */
  function Unsent(c: Conn): seq<Frame> {
    c.frames[Whole(c.frames, c.received)..]
  }

  lemma UnsentGrows(c: Conn, more: seq<Frame>)
    requires c.received <= |Print(c.frames)|
    ensures Unsent(c.(frames := c.frames + more)) == Unsent(c) + more
  {
    WholeKeeps(c.frames, more, c.received);
  }

  lemma Regroup(a: seq<Frame>, b: seq<Frame>, c: seq<Frame>)
    ensures a + b + c == a + (b + c)
  {
  }

  lemma KeepAliveIsIdle(log: seq<Entry>, rest: seq<Frame>, cursor: nat, lastId: nat)
    requires Ahead(log, rest, cursor, lastId)
    ensures Ahead(log, rest + [KeepAlive], cursor, lastId)
  {
    assert OnlyEvents([KeepAlive]) == OnlyEvents([]) by { assert [KeepAlive][1..] == []; }
    assert FramesOf([]) == [];
    assert [] + After(log, cursor) == After(log, cursor);
    AheadWrite(log, rest, [KeepAlive], [], cursor, cursor, lastId);
  }

  lemma KeepAliveConn(w: World, w': World, start: nat, c: Conn)
    requires ConnOk(w, start, c) && c.ending.None?
    requires w' == w.(conn := Some(c.(frames := c.frames + [KeepAlive])))
    ensures ConnOk(w', start, w'.conn.value)
  {
    WholeKeeps(c.frames, [KeepAlive], c.received);
    if w.client.ended.None? {
      UnsentGrows(c, [KeepAlive]);
      KeepAliveIsIdle(w.log, Unsent(c), c.cursor, w.client.lastId);
    }
  }

  lemma BeatKeepsInv(json: string -> bool, w: World, start: nat)
    requires Inv(json, w, start) && Possible(json, w, Beat)
    ensures Inv(json, Next(json, w, Beat), start)
  {
    KeepAliveConn(w, Next(json, w, Beat), start, w.conn.value);
  }

  lemma VisibleSplits(w: World, start: nat, cursor: nat)
    requires Sorted(w.log) && Mark(w.log, start, cursor)
    ensures var events := Visible(w, cursor); var next := NextCursor(cursor, events);
      && After(w.log, cursor) == events + After(w.log, next) && Mark(w.log, start, next)
      && (w.status.Some? && events == [] ==> After(w.log, cursor) == [])
  {
    var events := Visible(w, cursor);
    AfterIsLater(w.log, cursor);
    if events != [] {
      var all := After(w.log, cursor);
      AfterDrop(w.log, cursor, |events|);
      assert all == all[..|events|] + all[|events|..];
      assert all[|events| - 1] in all;
      assert all[|events| - 1] in w.log;
    } else {
      assert [] + After(w.log, cursor) == After(w.log, cursor);
    }
  }

  ghost predicate SafeFrame(f: Frame) {
    Printable(f) && (f.Ev? ==> f.kind != "end")
  }

  lemma VisibleFrames(json: string -> bool, w: World, cursor: nat, i: nat)
    requires LogOk(json, w.log) && i < |Visible(w, cursor)|
    ensures SafeFrame(FramesOf(Visible(w, cursor))[i])
  {
    AfterIsLater(w.log, cursor);
    assert Visible(w, cursor)[i] in After(w.log, cursor);
    assert Visible(w, cursor)[i] in w.log;
  }

  lemma PolledEvents(status: Option<string>, events: seq<Entry>)
    ensures OnlyEvents(Polled(status, events)) == FramesOf(events)
  {
    EventsAreEvents(events);
    var last := End(EndStatus(status));
    assert [last][1..] == [];
    OnlyEventsConcat(FramesOf(events), if Ends(status, events) then [last] else []);
  }

  lemma PolledFrames(json: string -> bool, w: World, cursor: nat, status: Option<string>)
    requires LogOk(json, w.log) && (status.Some? ==> OneLine(status.value))
    ensures var events := Visible(w, cursor); var fs := Polled(status, events);
      && (forall i :: 0 <= i < |fs| ==> SafeFrame(fs[i]))
      && (forall i :: 0 <= i < |fs| && fs[i].End? ==>
          Ends(status, events) && i == |fs| - 1 && fs[i] == End(EndStatus(status)))
  {
    var events := Visible(w, cursor);
    var fs := Polled(status, events);
    forall i | 0 <= i < |fs|
      ensures SafeFrame(fs[i])
    {
      if i < |events| { VisibleFrames(json, w, cursor, i); }
    }
  }

  lemma NothingAfterIsBehind(log: seq<Entry>, mark: nat)
    ensures After(log, mark) == [] <==> Behind(log, mark)
  {
    AfterIsLater(log, mark);
    if Behind(log, mark) {
      NothingAfterLast(log, mark);
    } else {
      var j :| 0 <= j < |log| && log[j].id > mark;
      assert log[j] in After(log, mark);
    }
  }

  /** A poll that ends the stream for a terminal status leaves nothing unsent of what was committed
      when it read that status, exactly when the job was still there for its second read or
      nothing of that was left to send. */
  lemma EndIsExact(json: string -> bool, w: World, start: nat, c: Conn)
    requires Inv(json, w, start) && w.conn == Some(c) && c.ending.None? && c.seen.Read?
    requires c.seen.status.Some? && Terminal(c.seen.status.value) && AfterPoll(w, c).conn.value.ending.Some?
    ensures c.seen.upto <= |w.log| && Announced(w.log[..c.seen.upto], c.seen.status.value)
    ensures AfterPoll(w, c).conn.value.cursor == c.cursor
    ensures Behind(w.log[..c.seen.upto], c.cursor) <==>
      w.status.Some? || After(w.log[..c.seen.upto], c.cursor) == []
  {
    NothingAfterIsBehind(w.log[..c.seen.upto], c.cursor);
    if w.status.Some? {
      VisibleSplits(w, start, c.cursor);
      NothingAfterIsBehind(w.log, c.cursor);
    }
  }

  lemma PolledEnding(json: string -> bool, w: World, start: nat, c: Conn, c': Conn)
    requires Inv(json, w, start) && w.conn == Some(c) && c.ending.None? && c.seen.Read?
    requires AfterPoll(w, c) == w.(conn := Some(c'))
    ensures c'.ending.Some? ==> EndingOk(w.log, c'.ending.value, c'.cursor)
  {
    if c'.ending.Some? && c.seen.status.Some? { EndIsExact(json, w, start, c); }
  }

  lemma PollFrames(json: string -> bool, w: World, start: nat, c: Conn, c': Conn)
    requires Inv(json, w, start) && w.conn == Some(c) && c.ending.None? && c.seen.Read?
    requires AfterPoll(w, c) == w.(conn := Some(c'))
    ensures FramesOk(w.log, c') && c.received <= |Print(c'.frames)|
    ensures Print(c'.frames)[..c.received] == Print(c.frames)[..c.received]
  {
    var more := Polled(c.seen.status, Visible(w, c.cursor));
    PolledFrames(json, w, c.cursor, c.seen.status);
    WholeKeeps(c.frames, more, c.received);
    PolledEnding(json, w, start, c, c');
    FramesStayOk(w.log, c, c', more);
  }

  lemma PollAhead(json: string -> bool, w: World, start: nat, c: Conn, c': Conn)
    requires Inv(json, w, start) && w.conn == Some(c) && c.ending.None? && c.seen.Read?
    requires AfterPoll(w, c) == w.(conn := Some(c'))
    ensures Mark(w.log, start, c'.cursor)
    ensures w.client.ended.None? ==> Ahead(w.log, Unsent(c'), c'.cursor, w.client.lastId)
  {
    var events := Visible(w, c.cursor);
    var more := Polled(c.seen.status, events);
    VisibleSplits(w, start, c.cursor);
    PolledEvents(c.seen.status, events);
    UnsentGrows(c, more);
    if w.client.ended.None? {
      AheadWrite(w.log, Unsent(c), more, events, c.cursor, c'.cursor, w.client.lastId);
    }
  }

  lemma ReadEventsKeepsInv(json: string -> bool, w: World, start: nat, c: Conn, c': Conn, w': World)
    requires Inv(json, w, start) && w.conn == Some(c) && c.ending.None? && c.seen.Read?
    requires w' == AfterPoll(w, c) == w.(conn := Some(c'))
    ensures Inv(json, w', start)
  {
    PollFrames(json, w, start, c, c');
    PollAhead(json, w, start, c, c');
  }

  lemma FramesStayOk(log: seq<Entry>, c: Conn, c': Conn, more: seq<Frame>)
    requires FramesOk(log, c) && c.ending.None? && c'.frames == c.frames + more
    requires c'.ending.Some? ==> EndingOk(log, c'.ending.value, c'.cursor)
    requires forall i :: 0 <= i < |more| ==> SafeFrame(more[i])
    requires forall i :: 0 <= i < |more| && more[i].End? ==>
      c'.ending.Some? && i == |more| - 1 && more[i].status == EndStatus(c'.ending.value.status)
    ensures FramesOk(log, c')
  {
    forall i | 0 <= i < |c'.frames| && c'.frames[i].End?
      ensures c'.ending.Some? && i == |c'.frames| - 1 && c'.frames[i].status == EndStatus(c'.ending.value.status)
    {
      assert i >= |c.frames|;
      assert c'.frames[i] == more[i - |c.frames|];
    }
    forall i | 0 <= i < |c'.frames|
      ensures Printable(c'.frames[i]) && (c'.frames[i].Ev? ==> c'.frames[i].kind != "end")
    {
      if i >= |c.frames| { assert c'.frames[i] == more[i - |c.frames|]; }
    }
  }

  // ------------------------------------------------------------------ the client reads

  /** The next event frame is the next event of the log. */
  lemma NextEvent(log: seq<Entry>, lastId: nat, f: Frame, rest: seq<Frame>, cursor: nat) returns (e: Entry)
    requires Sorted(log) && f.Ev? && Ahead(log, [f] + rest, cursor, lastId)
    ensures e in log && f == Ev(e.id, e.kind, e.data) && e.id > lastId
    ensures After(log, lastId) == [e] + After(log, e.id)
    ensures Ahead(log, rest, cursor, e.id)
  {
    var ahead := After(log, lastId);
    assert ([f] + rest)[0] == f && ([f] + rest)[1..] == rest;
    var tail := OnlyEvents(rest) + FramesOf(After(log, cursor));
    assert FramesOf(ahead) == [f] + tail;
    e := ahead[0];
    AfterIsLater(log, lastId);
    assert e in ahead;
    assert FramesOf(ahead)[0] == f;
    AfterDrop(log, lastId, 1);
    assert FramesOf(ahead)[1..] == FramesOf(ahead[1..]);
    assert ([f] + tail)[1..] == tail;
  }

  lemma HandOver(all: seq<Entry>, handed: seq<JobEvent>, e: Entry, rest: seq<Entry>)
    requires |handed| <= |all| && handed == EventsOfEntries(all[..|handed|]) && all[|handed|..] == [e] + rest
    ensures |handed| < |all| && rest == all[|handed| + 1..]
    ensures handed + [EventOfEntry(e)] == EventsOfEntries(all[..|handed| + 1])
  {
    var n := |handed|;
    assert all[n..][0] == e && all[n..][1..] == rest;
    assert all[..n + 1] == all[..n] + [e];
  }

  lemma HandledOne(json: string -> bool, c: ClientState, id: nat, kind: string, data: string, more: seq<RawEvent>)
    requires c.ended.None? && kind != "end" && json(data)
    ensures Handled(json, c, [Raw(Some(id), kind, data)] + more) ==
      Handled(json, c.(lastId := id, handed := c.handed + [JobEvent(Some(id), kind, data)]), more)
  {
    NumberOfDecimal(id);
    var events := [Raw(Some(id), kind, data)] + more;
    assert events[0] == Raw(Some(id), kind, data) && events[1..] == more;
  }

  ghost predicate EndsLast(fs: seq<Frame>) {
    forall i :: 0 <= i < |fs| && fs[i].End? ==> i == |fs| - 1
  }

  /** What the client looks like after complete frames `fs`, with `tail` still to come. */
  ghost predicate HandledWell(log: seq<Entry>, start: nat, c: ClientState, c': ClientState, fs: seq<Frame>,
                              tail: seq<Frame>, cursor: nat) {
    && ClientOk(log, start, c') && c'.buffer == c.buffer
    && Ahead(log, tail, cursor, c'.lastId)
    && c'.ended == if fs != [] && fs[|fs| - 1].End? then Some(EndData(fs[|fs| - 1].status)) else None
  }

  lemma {:induction false} HandleFrames(json: string -> bool, log: seq<Entry>, start: nat, c: ClientState,
                                        fs: seq<Frame>, tail: seq<Frame>, cursor: nat)
    requires LogOk(json, log) && ClientOk(log, start, c) && c.ended.None? && Ahead(log, fs + tail, cursor, c.lastId)
    requires EndsLast(fs)
    ensures HandledWell(log, start, c, Handled(json, c, Raws(fs)), fs, tail, cursor)
    decreases |fs|, 1
  {
    if fs == [] {
      assert fs + tail == tail;
    } else {
      var f, rest := fs[0], fs[1..];
      assert (fs + tail)[1..] == rest + tail && (fs + tail)[0] == f;
      assert EndsLast(rest) by { assert forall i :: 0 <= i < |rest| ==> rest[i] == fs[i + 1]; }
      match f
      case Ev(id, kind, data) =>
        assert fs + tail == [f] + (rest + tail);
        HandleEvent(json, log, start, c, f, rest, tail, cursor);
      case End(status) =>
        assert rest == [];
        HandledEnd(json, c, status);
        assert fs == [f];
      case _ =>
        assert fs + tail == [f] + (rest + tail);
        assert fs == [f] + rest;
        HandleIdle(json, log, start, c, f, rest, tail, cursor);
    }
  }

  /** One frame that is not an end, before frames that are handled well. */
  lemma HandledOneMore(log: seq<Entry>, start: nat, c: ClientState, c1: ClientState, c': ClientState,
                       f: Frame, rest: seq<Frame>, tail: seq<Frame>, cursor: nat)
    requires HandledWell(log, start, c1, c', rest, tail, cursor) && c1.buffer == c.buffer && !f.End?
    ensures HandledWell(log, start, c, c', [f] + rest, tail, cursor)
  {
    var fs := [f] + rest;
    if rest == [] { assert fs[|fs| - 1] == f; } else { assert fs[|fs| - 1] == rest[|rest| - 1]; }
  }

  lemma RawsFirst(f: Frame, rest: seq<Frame>)
    ensures Raws([f] + rest) == RawOf(f) + Raws(rest)
  {
    assert ([f] + rest)[0] == f && ([f] + rest)[1..] == rest;
  }

  lemma HandleIdle(json: string -> bool, log: seq<Entry>, start: nat, c: ClientState,
                   f: Frame, rest: seq<Frame>, tail: seq<Frame>, cursor: nat)
    requires LogOk(json, log) && ClientOk(log, start, c) && c.ended.None? && (f.Retry? || f.KeepAlive?)
    requires Ahead(log, [f] + (rest + tail), cursor, c.lastId) && EndsLast(rest)
    ensures HandledWell(log, start, c, Handled(json, c, Raws([f] + rest)), [f] + rest, tail, cursor)
    decreases |rest| + 1, 0
  {
    assert ([f] + (rest + tail))[0] == f && ([f] + (rest + tail))[1..] == rest + tail;
    RawsFirst(f, rest);
    assert Raws([f] + rest) == Raws(rest);
    HandleFrames(json, log, start, c, rest, tail, cursor);
    HandledOneMore(log, start, c, c, Handled(json, c, Raws(rest)), f, rest, tail, cursor);
  }

  lemma HandledEnd(json: string -> bool, c: ClientState, status: string)
    requires c.ended.None?
    ensures Handled(json, c, Raws([End(status)])) == c.(ended := Some(EndData(status)))
  {
    assert [End(status)][1..] == [];
    assert Raws([End(status)]) == [Raw(None, "end", EndData(status))];
  }

  lemma HandledEvent(json: string -> bool, log: seq<Entry>, c: ClientState, e: Entry, f: Frame, rest: seq<Frame>)
    requires LogOk(json, log) && e in log && c.ended.None? && f == Ev(e.id, e.kind, e.data)
    ensures Handled(json, c, Raws([f] + rest)) ==
      Handled(json, c.(lastId := e.id, handed := c.handed + [EventOfEntry(e)]), Raws(rest))
  {
    var i :| 0 <= i < |log| && log[i] == e;
    RawsFirst(f, rest);
    HandledOne(json, c, e.id, e.kind, e.data, Raws(rest));
  }

  lemma HandleEvent(json: string -> bool, log: seq<Entry>, start: nat, c: ClientState,
                    f: Frame, rest: seq<Frame>, tail: seq<Frame>, cursor: nat)
    requires LogOk(json, log) && ClientOk(log, start, c) && c.ended.None? && f.Ev?
    requires Ahead(log, [f] + (rest + tail), cursor, c.lastId) && EndsLast(rest)
    ensures HandledWell(log, start, c, Handled(json, c, Raws([f] + rest)), [f] + rest, tail, cursor)
    decreases |rest| + 1, 0
  {
    var e := NextEvent(log, c.lastId, f, rest + tail, cursor);
    HandOver(After(log, start), c.handed, e, After(log, e.id));
    assert Mark(log, start, e.id) by {
      var i :| 0 <= i < |log| && log[i] == e;
    }
    HandledEvent(json, log, c, e, f, rest);
    var c1 := c.(lastId := e.id, handed := c.handed + [EventOfEntry(e)]);
    HandleFrames(json, log, start, c1, rest, tail, cursor);
    HandledOneMore(log, start, c, c1, Handled(json, c1, Raws(rest)), f, rest, tail, cursor);
  }

  lemma SameFramesSameIds(log: seq<Entry>, a: nat, b: nat)
    requires FramesOf(After(log, a)) == FramesOf(After(log, b))
    ensures forall e :: e in log && e.id > a ==> e.id > b
  {
    var later, other := After(log, a), After(log, b);
    AfterIsLater(log, a);
    AfterIsLater(log, b);
    forall e | e in log && e.id > a
      ensures e.id > b
    {
      var k :| 0 <= k < |later| && later[k] == e;
      assert FramesOf(later)[k] == FramesOf(other)[k];
      assert other[k] in other;
    }
  }

  /** With nothing left to send, the client's last id is as far as the server's cursor. */
  lemma CaughtUp(log: seq<Entry>, e: Ending, cursor: nat, lastId: nat)
    requires EndingOk(log, e, cursor) && Ahead(log, [], cursor, lastId)
    ensures EndingOk(log, e, lastId)
  {
    var early := log[..e.upto];
    assert OnlyEvents([]) == [];
    assert FramesOf(After(log, cursor)) == FramesOf(After(log, lastId));
    SameFramesSameIds(log, cursor, lastId);
    SameFramesSameIds(log, lastId, cursor);
    forall j | 0 <= j < |early|
      ensures early[j].id <= cursor <==> early[j].id <= lastId
    {
      assert early[j] == log[j] && log[j] in log;
    }
  }

  /** The client after a chunk that completes the frames `fs`. */
  lemma ChunkHandled(json: string -> bool, w: World, start: nat, fs: seq<Frame>, tail: seq<Frame>, cursor: nat,
                     value: string, rest: string)
    requires LogOk(json, w.log) && ClientOk(w.log, start, w.client) && w.client.ended.None?
    requires Ahead(w.log, fs + tail, cursor, w.client.lastId) && EndsLast(fs)
    requires Parse(w.client.buffer + value) == Parsed(Raws(fs), rest)
    ensures var c' := Received(json, w.client, value);
      && ClientOk(w.log, start, c') && c'.buffer == rest && Ahead(w.log, tail, cursor, c'.lastId)
      && c'.ended == if fs != [] && fs[|fs| - 1].End? then Some(EndData(fs[|fs| - 1].status)) else None
  {
    var ready := w.client.(buffer := rest);
    assert ClientOk(w.log, start, ready);
    HandleFrames(json, w.log, start, ready, fs, tail, cursor);
  }

  lemma CompletedEndsLast(frames: seq<Frame>, a: nat, b: nat)
    requires a <= b <= |frames|
    requires EndsLast(frames)
    ensures frames[a..] == frames[a..b] + frames[b..] && EndsLast(frames[a..b])
    ensures a < b ==> frames[a..b][b - a - 1] == frames[b - 1]
    ensures a < b && frames[b - 1].End? ==> b == |frames|
  {
    var fs := frames[a..b];
    assert forall i :: 0 <= i < |fs| ==> fs[i] == frames[a + i];
  }

  /** A chunk `y`: `m` characters had arrived, the text `x` with `a` whole frames; now there are `n`,
      the text `all` with `b` whole frames. */
  datatype Chunk = Chunk(frames: seq<Frame>, m: nat, n: nat, a: nat, b: nat, x: string, y: string, all: string)

  ghost predicate IsChunk(k: Chunk) {
    && k.m <= k.n <= |Print(k.frames)| && k.a == Whole(k.frames, k.m) && k.b == Whole(k.frames, k.n)
    && k.x == Print(k.frames)[..k.m] && k.y == Print(k.frames)[k.m..k.n] && k.all == Print(k.frames)[..k.n]
  }

  lemma ChunkOf(frames: seq<Frame>, m: nat, n: nat, text: string) returns (k: Chunk)
    requires m <= n <= |text| && text == Print(frames)
    ensures IsChunk(k) && k.frames == frames && k.m == m && k.n == n && k.y == text[m..n]
  {
    k := Chunk(frames, m, n, Whole(frames, m), Whole(frames, n), text[..m], text[m..n], text[..n]);
  }

  /** The frames a chunk completes are the ones newly parsed. */
  lemma ChunkParses(k: Chunk, buffer: string)
    requires IsChunk(k) && AllPrintable(k.frames) && buffer == ParsedText(k.x).rest
    ensures k.a <= k.b <= |k.frames|
    ensures Parse(buffer + k.y) == Parsed(Raws(k.frames[k.a..k.b]), ParsedText(k.all).rest)
  {
    assert k.x + k.y == k.all;
    NextChunk(k.frames, k.m, k.n, k.x, k.y);
  }

  function EndWithin(frames: seq<Frame>, a: nat, b: nat): Option<string>
    requires a <= b <= |frames|
  {
    if a < b && frames[b - 1].End? then Some(EndData(frames[b - 1].status)) else None
  }

  /** What the client makes of a chunk that completes the frames from `a` to `b`. */
  ghost predicate TookFrames(log: seq<Entry>, start: nat, c': ClientState, frames: seq<Frame>, a: nat, b: nat,
                             cursor: nat) {
    && a <= b <= |frames| && ClientOk(log, start, c') && Ahead(log, frames[b..], cursor, c'.lastId)
    && c'.ended == EndWithin(frames, a, b) && (c'.ended.Some? ==> b == |frames|)
  }

  lemma FramesTaken(json: string -> bool, w: World, start: nat, frames: seq<Frame>, a: nat, b: nat, cursor: nat,
                    y: string, rest: string)
    requires LogOk(json, w.log) && ClientOk(w.log, start, w.client) && w.client.ended.None?
    requires a <= b <= |frames| && EndsLast(frames) && Ahead(w.log, frames[a..], cursor, w.client.lastId)
    requires Parse(w.client.buffer + y) == Parsed(Raws(frames[a..b]), rest)
    ensures TookFrames(w.log, start, Received(json, w.client, y), frames, a, b, cursor)
    ensures Received(json, w.client, y).buffer == rest
  {
    CompletedEndsLast(frames, a, b);
    ChunkHandled(json, w, start, frames[a..b], frames[b..], cursor, y, rest);
  }

  /** The client and the wire agree before a chunk. */
  ghost predicate Ready(json: string -> bool, w: World, start: nat, k: Chunk, cursor: nat) {
    && LogOk(json, w.log) && ClientOk(w.log, start, w.client) && w.client.ended.None?
    && AllPrintable(k.frames) && EndsLast(k.frames) && IsChunk(k) && k.a <= |k.frames|
    && w.client.buffer == ParsedText(k.x).rest && Ahead(w.log, k.frames[k.a..], cursor, w.client.lastId)
  }

  lemma ChunkTaken(json: string -> bool, w: World, start: nat, k: Chunk, cursor: nat)
    requires Ready(json, w, start, k, cursor)
    ensures TookFrames(w.log, start, Received(json, w.client, k.y), k.frames, k.a, k.b, cursor)
    ensures Received(json, w.client, k.y).buffer == ParsedText(k.all).rest
  {
    ChunkParses(k, w.client.buffer);
    FramesTaken(json, w, start, k.frames, k.a, k.b, cursor, k.y, ParsedText(k.all).rest);
  }

  lemma ConnIsReady(json: string -> bool, w: World, start: nat, c: Conn, k: Chunk)
    requires Inv(json, w, start) && w.conn == Some(c) && w.client.ended.None?
    requires IsChunk(k) && k.frames == c.frames && k.m == c.received
    ensures Ready(json, w, start, k, c.cursor)
  {
  }

  /** `w'` is `w` after chunk `k` on connection `c`. */
  ghost predicate Arrived(json: string -> bool, w: World, w': World, c: Conn, k: Chunk) {
    && w.conn == Some(c) && IsChunk(k) && k.frames == c.frames && k.m == c.received
    && w'.log == w.log && w'.status == w.status && w'.conn == Some(c.(received := k.n))
    && w'.client == Received(json, w.client, k.y)
    && w'.finale == if w'.client.ended.Some? then c.ending else w.finale
  }

  lemma ArrivalIs(json: string -> bool, w: World, w': World, c: Conn, n: nat, k: Chunk)
    requires w.conn == Some(c) && c.received + n <= |Print(c.frames)| && w' == AfterArrival(json, w, c, n)
    requires IsChunk(k) && k.frames == c.frames && k.m == c.received && k.n == c.received + n
    requires k.y == Print(c.frames)[c.received..c.received + n]
    ensures Arrived(json, w, w', c, k)
  {
  }

  lemma ArrivedConn(w: World, w': World, start: nat, c: Conn, k: Chunk)
    requires ConnOk(w, start, c) && IsChunk(k) && k.frames == c.frames && k.b <= |k.frames|
    requires w'.log == w.log && w'.client.buffer == ParsedText(k.all).rest
    requires Ahead(w.log, k.frames[k.b..], c.cursor, w'.client.lastId)
    ensures ConnOk(w', start, c.(received := k.n))
  {
  }

  lemma ArrivedFinale(w: World, w': World, start: nat, c: Conn, k: Chunk)
    requires ConnOk(w, start, c) && k.frames == c.frames && w'.log == w.log
    requires TookFrames(w.log, start, w'.client, k.frames, k.a, k.b, c.cursor)
    requires w'.client.ended.Some? ==> w'.finale == c.ending
    ensures FinaleOk(w')
  {
    if w'.client.ended.Some? {
      assert k.frames[k.b..] == [];
      CaughtUp(w.log, c.ending.value, c.cursor, w'.client.lastId);
    }
  }

  lemma ArrivedKeepsInv(json: string -> bool, w: World, w': World, start: nat, c: Conn, k: Chunk)
    requires Inv(json, w, start) && w.client.ended.None? && Arrived(json, w, w', c, k)
    ensures Inv(json, w', start) && TookFrames(w.log, start, w'.client, k.frames, k.a, k.b, c.cursor)
  {
    ConnIsReady(json, w, start, c, k);
    ChunkTaken(json, w, start, k, c.cursor);
    ArrivedConn(w, w', start, c, k);
    ArrivedFinale(w, w', start, c, k);
  }

  lemma ArriveKeepsInv(json: string -> bool, w: World, start: nat, n: nat, c: Conn, w': World) returns (k: Chunk)
    requires Inv(json, w, start) && w.conn == Some(c) && w.client.ended.None?
    requires c.received + n <= |Print(c.frames)| && w' == AfterArrival(json, w, c, n)
    ensures Inv(json, w', start)
    ensures IsChunk(k) && k.frames == c.frames && k.m == c.received && k.n == c.received + n
    ensures TookFrames(w.log, start, w'.client, k.frames, k.a, k.b, c.cursor)
  {
    k := ChunkOf(c.frames, c.received, c.received + n, Print(c.frames));
    ArrivalIs(json, w, w', c, n, k);
    ArrivedKeepsInv(json, w, w', start, c, k);
  }

  lemma StepKeepsInv(json: string -> bool, w: World, start: nat, step: Step)
    requires Inv(json, w, start) && Possible(json, w, step)
    ensures Inv(json, Next(json, w, step), start)
  {
    match step
    case Publish(e) => PublishKeepsInv(json, w, start, e);
    case Connect => ConnectKeepsInv(json, w, start);
    case ReadStatus => ReadStatusKeepsInv(json, w, start);
    case ReadEvents =>
      var w' := Next(json, w, step);
      ReadEventsKeepsInv(json, w, start, w.conn.value, w'.conn.value, w');
    case Beat => BeatKeepsInv(json, w, start);
    case Arrive(n) => var _ := ArriveKeepsInv(json, w, start, n, w.conn.value, Next(json, w, step));
    case _ => StatusKeepsInv(json, w, start, step);
  }

  // ------------------------------------------------------------------ every run

  /** A job with a log that matches its status, a client that has a start cursor, no connection. */
  ghost predicate Begins(json: string -> bool, w: World, start: nat) {
    && LogOk(json, w.log) && w.conn.None? && w.client == ClientState(start, "", [], None) && w.finale.None?
    && StatusOk(w.log, w.status)
  }

  ghost predicate IsRun(json: string -> bool, steps: seq<Step>, worlds: seq<World>, start: nat) {
    && |worlds| == |steps| + 1 && Begins(json, worlds[0], start)
    && forall i :: 0 <= i < |steps| ==>
        Possible(json, worlds[i], steps[i]) && worlds[i + 1] == Next(json, worlds[i], steps[i])
  }

  lemma BeginsWell(json: string -> bool, w: World, start: nat)
    requires Begins(json, w, start)
    ensures Inv(json, w, start)
  {
    var all := After(w.log, start);
    assert all[..0] == [] && all[0..] == all;
  }

  lemma {:induction false} EveryRunKeepsInv(json: string -> bool, steps: seq<Step>, worlds: seq<World>, start: nat,
                                            i: nat)
    requires IsRun(json, steps, worlds, start) && i < |worlds|
    ensures Inv(json, worlds[i], start)
  {
    if i == 0 {
      BeginsWell(json, worlds[0], start);
    } else {
      EveryRunKeepsInv(json, steps, worlds, start, i - 1);
      StepKeepsInv(json, worlds[i - 1], start, steps[i - 1]);
    }
  }

  /** Whatever is cut, repeated or published in between, the client is handed a gap-free,
      duplicate-free, in-order prefix of the log after its start cursor, and what it would ask for
      next is exactly the rest. */
  lemma DeliveredIsPrefix(json: string -> bool, steps: seq<Step>, worlds: seq<World>, start: nat, i: nat)
    requires IsRun(json, steps, worlds, start) && i < |worlds|
    ensures var w := worlds[i];
      w.client.handed + EventsOfEntries(After(w.log, w.client.lastId)) == EventsOfEntries(After(w.log, start))
  {
    EveryRunKeepsInv(json, steps, worlds, start, i);
    var w := worlds[i];
    var all, n := After(w.log, start), |w.client.handed|;
    assert all == all[..n] + all[n..];
  }

  // ------------------------------------------------------------------ where a run's end comes from

  lemma {:induction false} LogGrows(json: string -> bool, steps: seq<Step>, worlds: seq<World>, start: nat, i: nat,
                                    j: nat)
    requires IsRun(json, steps, worlds, start) && i <= j < |worlds|
    ensures worlds[i].log <= worlds[j].log
    decreases j - i
  {
    if i < j { LogGrows(json, steps, worlds, start, i, j - 1); }
  }

  /** What a poll has read of the job was read at an earlier step. */
  lemma {:induction false} SeenAt(json: string -> bool, steps: seq<Step>, worlds: seq<World>, start: nat, i: nat)
    returns (j: nat)
    requires IsRun(json, steps, worlds, start) && i < |worlds|
    requires worlds[i].conn.Some? && worlds[i].conn.value.seen.Read?
    ensures j < i && steps[j].ReadStatus?
    ensures worlds[i].conn.value.seen == Read(worlds[j].status, |worlds[j].log|)
  {
    if steps[i - 1].ReadStatus? { j := i - 1; } else { j := SeenAt(json, steps, worlds, start, i - 1); }
  }

  /** Step `k` is the events read of the poll that ended a stream. */
  ghost predicate EndedAt(steps: seq<Step>, worlds: seq<World>, k: nat, e: Ending) {
    && k < |steps| && k < |worlds| && steps[k].ReadEvents?
    && worlds[k].conn.Some? && worlds[k].conn.value.seen.Read?
    && e.status == worlds[k].conn.value.seen.status && e.upto == worlds[k].conn.value.seen.upto
    && e.cursor == worlds[k].conn.value.cursor && (e.deleted <==> worlds[k].status.None?)
  }

  lemma {:induction false} ConnEndedAt(json: string -> bool, steps: seq<Step>, worlds: seq<World>, start: nat,
                                       i: nat) returns (k: nat)
    requires IsRun(json, steps, worlds, start) && i < |worlds|
    requires worlds[i].conn.Some? && worlds[i].conn.value.ending.Some?
    ensures k < i && EndedAt(steps, worlds, k, worlds[i].conn.value.ending.value)
  {
    if steps[i - 1].ReadEvents? { k := i - 1; } else { k := ConnEndedAt(json, steps, worlds, start, i - 1); }
  }

  lemma FinaleComesFromConn(json: string -> bool, w: World, step: Step)
    requires Possible(json, w, step) && Next(json, w, step).finale != w.finale
    ensures w.conn.Some? && Next(json, w, step).finale == w.conn.value.ending
  {
  }

  lemma {:induction false} FinaleAt(json: string -> bool, steps: seq<Step>, worlds: seq<World>, start: nat, i: nat)
    returns (k: nat)
    requires IsRun(json, steps, worlds, start) && i < |worlds| && worlds[i].finale.Some?
    ensures k < i && EndedAt(steps, worlds, k, worlds[i].finale.value)
  {
    if i > 0 {
      var before := worlds[i - 1];
      assert worlds[i] == Next(json, before, steps[i - 1]) && Possible(json, before, steps[i - 1]);
      if before.finale == worlds[i].finale {
        k := FinaleAt(json, steps, worlds, start, i - 1);
      } else {
        FinaleComesFromConn(json, before, steps[i - 1]);
        k := ConnEndedAt(json, steps, worlds, start, i - 1);
      }
    }
  }

  /** When the client has seen the end, some poll read the status it carries at step `j` and the events
      at step `k`. A terminal status comes after everything committed by step `j`, the event that
      announced it included, exactly when the job still existed at step `k` or the poll had nothing
      left to send of that. Nothing that happens later, a deletion least of all, changes this. */
  lemma EndComesLast(json: string -> bool, steps: seq<Step>, worlds: seq<World>, start: nat, i: nat)
    returns (j: nat, k: nat)
    requires IsRun(json, steps, worlds, start) && i < |worlds| && worlds[i].client.ended.Some?
    ensures j < k < i && steps[j].ReadStatus? && steps[k].ReadEvents? && worlds[k].conn.Some?
    ensures worlds[i].client.ended == Some(EndData(EndStatus(worlds[j].status)))
    ensures worlds[j].status.Some? ==>
      && Terminal(worlds[j].status.value) && Announced(worlds[j].log, worlds[j].status.value)
      && (Behind(worlds[j].log, worlds[i].client.lastId) <==>
          worlds[k].status.Some? || After(worlds[j].log, worlds[k].conn.value.cursor) == [])
  {
    EveryRunKeepsInv(json, steps, worlds, start, i);
    k := FinaleAt(json, steps, worlds, start, i);
    j := SeenAt(json, steps, worlds, start, k);
    LogGrows(json, steps, worlds, start, j, i);
    assert worlds[i].log[..|worlds[j].log|] == worlds[j].log;
  }
}
