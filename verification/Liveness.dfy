/** What can still happen on an event stream: the whole log can always be delivered while the job
    exists, and a deletion at the wrong moment loses it. */
module Liveness {
  import opened Options
  import opened Sse
  import opened Frames
  import opened Delivery
  import opened ExactlyOnce

  /** These steps are possible one after the other and lead from `w` to `w'`. */
  ghost predicate Leads(json: string -> bool, w: World, steps: seq<Step>, w': World)
    decreases |steps|
  {
    if steps == [] then w' == w
    else Possible(json, w, steps[0]) && Leads(json, Next(json, w, steps[0]), steps[1..], w')
  }

  lemma OneStep(json: string -> bool, w: World, step: Step)
    requires Possible(json, w, step)
    ensures Leads(json, w, [step], Next(json, w, step))
  {
    assert [step][1..] == [];
  }

  lemma {:induction false} LeadsOn(json: string -> bool, w: World, a: seq<Step>, m: World, b: seq<Step>, w': World)
    requires Leads(json, w, a, m) && Leads(json, m, b, w')
    ensures Leads(json, w, a + b, w')
    decreases |a|
  {
    if a == [] {
      assert a + b == b;
    } else {
      assert (a + b)[1..] == a[1..] + b;
      LeadsOn(json, Next(json, w, a[0]), a[1..], m, b, w');
    }
  }

  lemma StepOn(json: string -> bool, w: World, a: seq<Step>, m: World, step: Step)
    requires Leads(json, w, a, m) && Possible(json, m, step)
    ensures Leads(json, w, a + [step], Next(json, m, step))
  {
    OneStep(json, m, step);
    LeadsOn(json, w, a, m, [step], Next(json, m, step));
  }

  // ------------------------------------------------------------------ polling and receiving

  /** A live connection between two polls. */
  ghost predicate Idle(json: string -> bool, w: World, start: nat, c: Conn) {
    Inv(json, w, start) && w.conn == Some(c) && c.ending.None? && c.seen.NotRead?
  }

  ghost predicate PolledInto(w: World, c: Conn, c': Conn) {
    var events := Visible(w, c.cursor);
    && c'.cursor == NextCursor(c.cursor, events) && c'.frames == c.frames + Polled(w.status, events)
    && c'.received == c.received && c'.seen.NotRead? && (c'.ending.Some? <==> Ends(w.status, events))
  }

  lemma PollOnce(json: string -> bool, w: World, start: nat, c: Conn) returns (w': World, c': Conn)
    requires Idle(json, w, start, c)
    ensures Leads(json, w, [ReadStatus, ReadEvents], w') && Inv(json, w', start)
    ensures w' == w.(conn := Some(c')) && PolledInto(w, c, c')
  {
    var read := Next(json, w, ReadStatus);
    StepKeepsInv(json, w, start, ReadStatus);
    OneStep(json, w, ReadStatus);
    w' := Next(json, read, ReadEvents);
    c' := w'.conn.value;
    StepKeepsInv(json, read, start, ReadEvents);
    StepOn(json, w, [ReadStatus], read, ReadEvents);
    assert [ReadStatus] + [ReadEvents] == [ReadStatus, ReadEvents];
  }

  /** Batch by batch, the server gets to the end of the log. */
  lemma {:induction false} CatchUp(json: string -> bool, w: World, start: nat, c: Conn)
    returns (steps: seq<Step>, w': World, c': Conn)
    requires Idle(json, w, start, c) && w.status.Some?
    ensures Leads(json, w, steps, w') && Idle(json, w', start, c') && w' == w.(conn := Some(c'))
    ensures c'.received == c.received && c.frames <= c'.frames && After(w.log, c'.cursor) == []
    decreases |After(w.log, c.cursor)|
  {
    if After(w.log, c.cursor) == [] {
      steps, w', c' := [], w, c;
    } else {
      VisibleSplits(w, start, c.cursor);
      var w1, c1 := PollOnce(json, w, start, c);
      assert |After(w.log, c.cursor)| == |Visible(w, c.cursor)| + |After(w.log, c1.cursor)|;
      steps, w', c' := CatchUp(json, w1, start, c1);
      LeadsOn(json, w, [ReadStatus, ReadEvents], w1, steps, w');
      steps := [ReadStatus, ReadEvents] + steps;
    }
  }

  /** Everything the server has written reaches the client at once. */
  lemma ReceiveAll(json: string -> bool, w: World, start: nat, c: Conn) returns (step: Step, w': World)
    requires Inv(json, w, start) && w.conn == Some(c) && w.client.ended.None?
    ensures Possible(json, w, step) && w' == Next(json, w, step) && w'.log == w.log && w'.status == w.status
    ensures Whole(c.frames, c.received) <= |c.frames|
    ensures TookFrames(w.log, start, w'.client, c.frames, Whole(c.frames, c.received), |c.frames|, c.cursor)
  {
    var n := |Print(c.frames)| - c.received;
    step := Arrive(n);
    w' := Next(json, w, step);
    var k := ArriveKeepsInv(json, w, start, n, c, w');
    WholeOfAll(c.frames);
  }

  /** With nothing under way the client has exactly what lies before the server's cursor. */
  lemma TookEverything(log: seq<Entry>, start: nat, client: ClientState, cursor: nat)
    requires ClientOk(log, start, client) && Ahead(log, [], cursor, client.lastId)
    ensures After(log, cursor) == [] ==> client.handed == EventsOfEntries(After(log, start))
    ensures After(log, cursor) == After(log, start) ==>
      client.handed == [] && After(log, client.lastId) == After(log, start)
  {
    var all := After(log, start);
    assert OnlyEvents([]) == [];
    assert FramesOf(After(log, cursor)) == FramesOf(After(log, client.lastId));
    assert |After(log, cursor)| == |After(log, client.lastId)|;
    assert all[..|all|] == all && all[0..] == all;
  }

  // ------------------------------------------------------------------ nothing stays behind for ever

  /** A fresh connection that has polled up to the end of the log. */
  lemma ConnectAndCatchUp(json: string -> bool, w: World, start: nat) returns (steps: seq<Step>, w': World, c': Conn)
    requires Inv(json, w, start) && w.status.Some? && w.client.ended.None?
    ensures Leads(json, w, steps, w') && Idle(json, w', start, c') && w'.client.ended.None?
    ensures w'.log == w.log && w'.status == w.status && After(w.log, c'.cursor) == []
    ensures c'.received == 0 && c'.frames != []
  {
    var w1 := Next(json, w, Connect);
    StepKeepsInv(json, w, start, Connect);
    OneStep(json, w, Connect);
    steps, w', c' := CatchUp(json, w1, start, w1.conn.value);
    LeadsOn(json, w, [Connect], w1, steps, w');
    steps := [Connect] + steps;
  }

  /** Of a finished job, one more poll writes the end. */
  lemma LastPoll(json: string -> bool, w: World, start: nat, c: Conn) returns (w': World, c': Conn)
    requires Idle(json, w, start, c) && w.status.Some? && Terminal(w.status.value) && After(w.log, c.cursor) == []
    ensures Leads(json, w, [ReadStatus, ReadEvents], w') && Inv(json, w', start) && w' == w.(conn := Some(c'))
    ensures c'.frames == c.frames + [End(w.status.value)] && c'.cursor == c.cursor && c'.received == c.received
  {
    w', c' := PollOnce(json, w, start, c);
    assert Visible(w, c.cursor) == [];
    assert FramesOf([]) == [];
    assert Polled(w.status, []) == [End(w.status.value)];
  }

  lemma ReadToTheEnd(json: string -> bool, w: World, start: nat) returns (steps: seq<Step>, w': World, c': Conn)
    requires Inv(json, w, start) && w.status.Some? && w.client.ended.None?
    ensures Leads(json, w, steps, w') && Inv(json, w', start) && w'.conn == Some(c') && w'.client.ended.None?
    ensures w'.log == w.log && w'.status == w.status && After(w.log, c'.cursor) == []
    ensures c'.received == 0 && c'.frames != []
    ensures Terminal(w.status.value) ==> c'.frames[|c'.frames| - 1] == End(w.status.value)
  {
    steps, w', c' := ConnectAndCatchUp(json, w, start);
    if Terminal(w.status.value) {
      var m := w';
      w', c' := LastPoll(json, m, start, c');
      LeadsOn(json, w, steps, m, [ReadStatus, ReadEvents], w');
      steps := steps + [ReadStatus, ReadEvents];
    }
  }

  /** While the job exists and its stream has not ended, some continuation hands the client the whole
      log after its start cursor, and ends the stream if the job is in a terminal status. */
  lemma CanDeliverAll(json: string -> bool, w: World, start: nat) returns (steps: seq<Step>, w': World)
    requires Inv(json, w, start) && w.status.Some? && w.client.ended.None?
    ensures Leads(json, w, steps, w') && w'.log == w.log
    ensures w'.client.handed == EventsOfEntries(After(w.log, start))
    ensures Terminal(w.status.value) ==> w'.client.ended == Some(EndData(w.status.value))
  {
    var before, m, c := ReadToTheEnd(json, w, start);
    var last, after := ReceiveAll(json, m, start, c);
    StepOn(json, w, before, m, last);
    steps, w' := before + [last], after;
    assert c.frames[|c.frames|..] == [];
    TookEverything(w.log, start, w'.client, c.cursor);
    assert Whole(c.frames, 0) == 0 by { assert |Text(c.frames[0])| > 0; }
  }

  /** Progress in every run: nothing published is out of reach of a client that keeps following. */
  lemma EveryRunCanDeliverAll(json: string -> bool, steps: seq<Step>, worlds: seq<World>, start: nat, i: nat)
    returns (more: seq<Step>, w': World)
    requires IsRun(json, steps, worlds, start) && i < |worlds|
    requires worlds[i].status.Some? && worlds[i].client.ended.None?
    ensures Leads(json, worlds[i], more, w') && w'.log == worlds[i].log
    ensures w'.client.handed == EventsOfEntries(After(w'.log, start))
    ensures Terminal(worlds[i].status.value) ==> w'.client.ended == Some(EndData(worlds[i].status.value))
  {
    EveryRunKeepsInv(json, steps, worlds, start, i);
    more, w' := CanDeliverAll(json, worlds[i], start);
  }

  // ------------------------------------------------------------------ the deletion that loses the rest

  lemma ReadThenDelete(json: string -> bool, w: World, start: nat) returns (steps: seq<Step>, w': World, c': Conn)
    requires Inv(json, w, start) && w.status.Some? && w.client.ended.None?
    ensures Leads(json, w, steps, w') && Inv(json, w', start) && w'.conn == Some(c') && w'.client.ended.None?
    ensures w'.log == w.log && w'.status.None?
    ensures c' == Conn(w.client.lastId, [Retry], 0, Read(w.status, |w.log|), None)
  {
    var w1 := Next(json, w, Connect);
    StepKeepsInv(json, w, start, Connect);
    OneStep(json, w, Connect);
    var w2 := Next(json, w1, ReadStatus);
    StepKeepsInv(json, w1, start, ReadStatus);
    StepOn(json, w, [Connect], w1, ReadStatus);
    w' := Next(json, w2, Delete);
    c' := w'.conn.value;
    StepKeepsInv(json, w2, start, Delete);
    StepOn(json, w, [Connect] + [ReadStatus], w2, Delete);
    steps := [Connect] + [ReadStatus] + [Delete];
  }

  lemma PollAfterDeletion(json: string -> bool, w: World, start: nat, status: string)
    returns (steps: seq<Step>, w': World, c': Conn)
    requires Inv(json, w, start) && w.status == Some(status) && Terminal(status) && w.client.ended.None?
    ensures Leads(json, w, steps, w') && Inv(json, w', start) && w'.conn == Some(c') && w'.client.ended.None?
    ensures w'.log == w.log && c'.cursor == w.client.lastId && c'.received == 0 && c'.frames == [Retry, End(status)]
  {
    var before, m, c := ReadThenDelete(json, w, start);
    w' := Next(json, m, ReadEvents);
    c' := w'.conn.value;
    StepKeepsInv(json, m, start, ReadEvents);
    StepOn(json, w, before, m, ReadEvents);
    steps := before + [ReadEvents];
    assert FramesOf([]) == [];
    assert Polled(Some(status), []) == [End(status)];
    assert c'.frames == [Retry] + [End(status)];
  }

  /** The exception of EndComesLast is real: for any finished job and any cursor, a deletion between the
      two reads of the first poll makes the client see the end with the job's status and not one of
      the events behind its cursor, the one that announced the status among them. */
  lemma DeletionLosesTheRest(json: string -> bool, w: World, start: nat, status: string)
    returns (steps: seq<Step>, w': World)
    requires Begins(json, w, start) && w.status == Some(status) && Terminal(status)
    ensures Leads(json, w, steps, w') && w'.log == w.log
    ensures w'.client.ended == Some(EndData(status)) && w'.client.handed == []
    ensures forall e :: e in w.log && e.id > start ==> e.id > w'.client.lastId
  {
    BeginsWell(json, w, start);
    var before, m, c := PollAfterDeletion(json, w, start, status);
    var last, after := ReceiveAll(json, m, start, c);
    StepOn(json, w, before, m, last);
    steps, w' := before + [last], after;
    assert c.frames[|c.frames|..] == [];
    TookEverything(w.log, start, w'.client, c.cursor);
    assert Whole(c.frames, 0) == 0 by { assert |Text(Retry)| > 0; }
    AfterIsLater(w.log, start);
    AfterIsLater(w.log, w'.client.lastId);
  }

  /** The smallest case: a failed job's only event is never delivered, although the stream says failed. */
  lemma FailureNeverDelivered(json: string -> bool, data: string) returns (w: World, steps: seq<Step>, w': World)
    requires json(data) && OneLine(data)
    ensures Begins(json, w, 0) && w.log == [Entry(1, "job.failed", data, Some("failed"))]
    ensures Leads(json, w, steps, w') && w'.client.ended == Some(EndData("failed"))
    ensures w'.client.handed == [] && !Behind(w.log, w'.client.lastId)
  {
    w := World([Entry(1, "job.failed", data, Some("failed"))], Some("failed"),
      None, ClientState(0, "", [], None), None);
    assert w.log[0].ends == Some("failed");
    steps, w' := DeletionLosesTheRest(json, w, 0, "failed");
    assert w.log[0] in w.log;
  }
}
