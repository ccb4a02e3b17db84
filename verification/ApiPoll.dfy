/** The poll timer of the API server: two channels, readings and alarms, each following a
    table by id and broadcasting what is new.

    Rows may be edited in place between queries (an alarm can be acknowledged), but ids
    only ever appear at the end. */
module ApiPoll {
  import opened CommitLog
  import opened Wrappers

  datatype Item = Item(timestamp: int, text: string)

  type Table = seq<Row<Item>>

  /** The two queries behind a start cursor: the catch-up window and, if that query fails,
      the greatest id. */
  datatype Lookup = Lookup(since: int, window: Table, windowOk: bool, whole: Table, wholeOk: bool)

  datatype ChannelTick = ChannelTick(lookup: Lookup, fetch: Table, fetchOk: bool)

  predicate InWindow(r: Row<Item>, since: int) { r.data.timestamp >= since }

  /** The least id in the catch-up window, if there is one. */
  function FirstInWindow(rows: Table, since: int): Option<int> {
    if rows == [] then None
    else
      var before, last := FirstInWindow(rows[..|rows| - 1], since), rows[|rows| - 1];
      if before.Some? then before else if InWindow(last, since) then Some(last.id) else None
  }

  function PollCursor(q: Lookup): Option<int> {
    if q.windowOk then
      var first := FirstInWindow(q.window, q.since);
      Some(if first.Some? then first.value - 1 else LastId(q.window))
    else if q.wholeOk then Some(LastId(q.whole))
    else None
  }

  /** What the timer does for one channel. */
  function Polled(c: Option<int>, t: ChannelTick): (Option<int>, seq<Row<Item>>) {
    var from := if c.Some? then c else PollCursor(t.lookup);
    if from.None? || !t.fetchOk then (from, [])
    else
      var rows := After(t.fetch, from.value);
      (if rows == [] then from else Some(rows[|rows| - 1].id), rows)
  }

  /** What became of one channel: its lookup at startup, its ticks since, and all it sent. */
  datatype Channel = Channel(start: Lookup, ticks: seq<ChannelTick>, sent: seq<Row<Item>>)

  ghost predicate Follows(c: Channel, cursor: Option<int>) {
    cursor == CursorAfter(PollCursor(c.start), c.ticks) && c.sent == Sent(PollCursor(c.start), c.ticks)
  }

  function Extended(c: Channel, t: ChannelTick, rows: seq<Row<Item>>): Channel {
    c.(ticks := c.ticks + [t], sent := c.sent + rows)
  }

  lemma FollowsOn(c: Channel, cursor: Option<int>, t: ChannelTick, next: Option<int>, rows: seq<Row<Item>>)
    requires Follows(c, cursor) && (next, rows) == Polled(cursor, t)
    ensures Follows(Extended(c, t, rows), next)
  {
    hide Polled;
    assert (c.ticks + [t])[..|c.ticks|] == c.ticks;
  }

  class ApiServer {
    var lastReadingId: Option<int>
    var lastAlarmId: Option<int>
    ghost var readingChannel: Channel
    ghost var alarmChannel: Channel

    /** Cursors and broadcasts are those of the whole life of the server. */
    ghost predicate Valid()
      reads this
    {
      Follows(readingChannel, lastReadingId) && Follows(alarmChannel, lastAlarmId)
    }

    constructor Start(readings: Lookup, alarms: Lookup)
      ensures Valid() && readingChannel == Channel(readings, [], []) && alarmChannel == Channel(alarms, [], [])
    {
      lastReadingId := PollCursor(readings);
      lastAlarmId := PollCursor(alarms);
      readingChannel, alarmChannel := Channel(readings, [], []), Channel(alarms, [], []);
    }

    static method Broadcast(rows: seq<Row<Item>>) returns (sent: seq<Row<Item>>)
      ensures sent == rows
    {
      sent := [];
      for i := 0 to |rows|
        invariant sent == rows[..i]
      {
        sent := sent + [rows[i]];
      }
    }

    method OnTimer(readings: ChannelTick, alarms: ChannelTick)
      returns (sentReadings: seq<Row<Item>>, sentAlarms: seq<Row<Item>>)
      requires Valid()
      modifies this
      ensures Valid()
      ensures readingChannel == Extended(old(readingChannel), readings, sentReadings)
      ensures alarmChannel == Extended(old(alarmChannel), alarms, sentAlarms)
    {
      hide Follows;
      ghost var before, beforeAlarm := lastReadingId, lastAlarmId;
      sentReadings, sentAlarms := [], [];
      if lastReadingId.None? { lastReadingId := PollCursor(readings.lookup); }
      if lastReadingId.Some? {
        var rows := if readings.fetchOk then After(readings.fetch, lastReadingId.value) else [];
        if rows != [] {
          lastReadingId := Some(rows[|rows| - 1].id);
          sentReadings := Broadcast(rows);
        }
      }
      if lastAlarmId.None? { lastAlarmId := PollCursor(alarms.lookup); }
      if lastAlarmId.Some? {
        var rows := if alarms.fetchOk then After(alarms.fetch, lastAlarmId.value) else [];
        if rows != [] {
          lastAlarmId := Some(rows[|rows| - 1].id);
          sentAlarms := Broadcast(rows);
        }
      }
      FollowsOn(readingChannel, before, readings, lastReadingId, sentReadings);
      FollowsOn(alarmChannel, beforeAlarm, alarms, lastAlarmId, sentAlarms);
      readingChannel := Extended(readingChannel, readings, sentReadings);
      alarmChannel := Extended(alarmChannel, alarms, sentAlarms);
    }
  }

  // ---- The start cursor ----

  lemma {:induction false} FirstInWindowIsLeast(rows: Table, since: int)
    requires Log(rows)
    ensures var first := FirstInWindow(rows, since);
            && (first.None? ==> forall i | 0 <= i < |rows| :: !InWindow(rows[i], since))
            && (first.Some? ==> exists i :: 0 <= i < |rows| && rows[i].id == first.value && InWindow(rows[i], since))
            && (first.Some? ==> forall i | 0 <= i < |rows| && InWindow(rows[i], since) :: first.value <= rows[i].id)
  {
    if rows != [] {
      var last := |rows| - 1;
      var before := rows[..last];
      LogPrefix(rows, last);
      FirstInWindowIsLeast(before, since);
      if FirstInWindow(before, since).Some? {
        var i :| 0 <= i < |before| && before[i].id == FirstInWindow(before, since).value && InWindow(before[i], since);
        assert rows[i] == before[i];
      } else if InWindow(rows[last], since) {
        assert rows[last].id == FirstInWindow(rows, since).value;
      }
      forall i | 0 <= i < last ensures rows[i] == before[i] {}
    }
  }

  /** When the window query succeeds, the cursor lies below every row of the window and
      directly below one of them; when the window is empty, nothing is replayed. */
  lemma CursorCoversWindow(q: Lookup)
    requires q.windowOk && Log(q.window)
    ensures PollCursor(q).Some? && 0 <= PollCursor(q).value <= LastId(q.window)
    ensures forall i | 0 <= i < |q.window| && InWindow(q.window[i], q.since) :: PollCursor(q).value < q.window[i].id
    ensures After(q.window, PollCursor(q).value) == []
       <==> forall i | 0 <= i < |q.window| :: !InWindow(q.window[i], q.since)
    ensures After(q.window, PollCursor(q).value) != [] ==>
              InWindow(After(q.window, PollCursor(q).value)[0], q.since)
  {
    var c := PollCursor(q).value;
    var after := After(q.window, c);
    FirstInWindowIsLeast(q.window, q.since);
    LogPrefix(q.window, |q.window|);
    AfterReadsToTheEnd(q.window, c);
    BetweenIsExact(q.window, c, LastId(q.window));
    if FirstInWindow(q.window, q.since).Some? {
      var i :| 0 <= i < |q.window| && q.window[i].id == c + 1 && InWindow(q.window[i], q.since);
      assert q.window[i] in after;
      var j :| 0 <= j < |after| && after[j] == q.window[i];
      assert after[0] in after && after[0].id > c;
      assert j == 0;
    }
  }

  /** When the window query fails, the cursor is the end of the table, so that nothing is
      replayed, neither what the window would have held nor anything else; when the second
      query fails too there is no cursor. */
  lemma FallbackReplaysNothing(q: Lookup)
    requires !q.windowOk && Log(q.whole)
    ensures q.wholeOk ==>
              && PollCursor(q).Some? && After(q.whole, PollCursor(q).value) == []
              && (forall i | 0 <= i < |q.whole| :: q.whole[i].id <= PollCursor(q).value)
              && (if q.whole == [] then PollCursor(q).value == 0
                  else exists i :: 0 <= i < |q.whole| && q.whole[i].id == PollCursor(q).value)
    ensures !q.wholeOk ==> PollCursor(q).None?
  {
    LogPrefix(q.whole, |q.whole|);
    AfterReadsToTheEnd(q.whole, LastId(q.whole));
    if q.whole != [] { assert q.whole[|q.whole| - 1].id == LastId(q.whole); }
  }

  // ---- A run of one channel ----

  /** `b` has the ids of `a`, and perhaps more after them. */
  ghost predicate Extends(a: Table, b: Table) { Ids(a) <= Ids(b) }

  ghost predicate TickGrows(table: Table, t: ChannelTick) {
    && Extends(table, t.lookup.window) && Extends(t.lookup.window, t.lookup.whole)
    && Extends(t.lookup.whole, t.fetch)
    && Log(t.lookup.window) && Log(t.lookup.whole) && Log(t.fetch)
  }

  function TableAfter(table: Table, ticks: seq<ChannelTick>): Table {
    if ticks == [] then table else ticks[|ticks| - 1].fetch
  }

  ghost predicate Growing(table: Table, ticks: seq<ChannelTick>) {
    if ticks == [] then Log(table)
    else
      var before := ticks[..|ticks| - 1];
      Growing(table, before) && TickGrows(TableAfter(table, before), ticks[|ticks| - 1])
  }

  function CursorAfter(c: Option<int>, ticks: seq<ChannelTick>): Option<int> {
    if ticks == [] then c else Polled(CursorAfter(c, ticks[..|ticks| - 1]), ticks[|ticks| - 1]).0
  }

  function Sent(c: Option<int>, ticks: seq<ChannelTick>): seq<Row<Item>> {
    if ticks == [] then []
    else
      var before := ticks[..|ticks| - 1];
      Sent(c, before) + Polled(CursorAfter(c, before), ticks[|ticks| - 1]).1
  }

  /** The first cursor the channel had. */
  function StartOf(c: Option<int>, ticks: seq<ChannelTick>): Option<int> {
    if ticks == [] then c
    else
      var before := StartOf(c, ticks[..|ticks| - 1]);
      if before.Some? then before else PollCursor(ticks[|ticks| - 1].lookup)
  }

  /** What is broadcast is a row as some fetch returned it. */
  lemma {:induction false} SentRowsAreFetched(c: Option<int>, ticks: seq<ChannelTick>, i: nat) returns (k: nat)
    requires i < |Sent(c, ticks)|
    ensures k < |ticks| && ticks[k].fetchOk && Sent(c, ticks)[i] in ticks[k].fetch
  {
    var last := |ticks| - 1;
    var before := Sent(c, ticks[..last]);
    if i < |before| {
      k := SentRowsAreFetched(c, ticks[..last], i);
    } else {
      k := last;
      hide After, PollCursor;
      var from := CursorAfter(c, ticks[..last]);
      var cursor := if from.Some? then from else PollCursor(ticks[last].lookup);
      assert Polled(from, ticks[last]).1[i - |before|] == Sent(c, ticks)[i];
      AfterHolds(ticks[last].fetch, cursor.value, Sent(c, ticks)[i]);
    }
  }

  lemma IdsOfPart(a: Table, b: Table, n: nat)
    requires n <= |a| && n <= |b| && Ids(a)[..n] == Ids(b)[..n]
    ensures Ids(a[..n]) == Ids(b[..n])
  {
    forall i | 0 <= i < n ensures a[i].id == b[i].id {
      assert Ids(a)[..n][i] == Ids(b)[..n][i];
    }
  }

  /** Which ids lie in an interval depends on the ids alone. */
  lemma {:induction false} IdsBetween(a: Table, b: Table, lo: int, hi: int)
    requires Ids(a) == Ids(b)
    ensures Ids(Between(a, lo, hi)) == Ids(Between(b, lo, hi))
  {
    if a != [] {
      var last := |a| - 1;
      assert Ids(a)[last] == Ids(b)[last];
      IdsOfPart(a, b, last);
      IdsBetween(a[..last], b[..last], lo, hi);
      IdsConcat(Between(a[..last], lo, hi), if lo < a[last].id <= hi then [a[last]] else []);
      IdsConcat(Between(b[..last], lo, hi), if lo < b[last].id <= hi then [b[last]] else []);
    }
  }

  lemma IdsConcat(a: Table, b: Table)
    ensures Ids(a + b) == Ids(a) + Ids(b)
  {
  }

  lemma ExtendsLast(a: Table, b: Table)
    requires Extends(a, b) && Log(b)
    ensures Log(a) && 0 <= LastId(a) <= LastId(b) && |a| <= |b| && Ids(b[..|a|]) == Ids(a)
  {
    assert |Ids(a)| <= |Ids(b)|;
    assert Ids(a) == Ids(b)[..|a|];
    assert Ids(a)[..|a|] == Ids(a);
    IdsOfPart(a, b, |a|);
    assert a[..|a|] == a;
    forall i | 0 <= i < |a| ensures a[i].id == b[i].id { assert Ids(a)[i] == Ids(b)[i]; }
    LogPrefix(b, |a|);
  }

  lemma ExtendsTrans(a: Table, b: Table, c: Table)
    requires Extends(a, b) && Extends(b, c)
    ensures Extends(a, c)
  {
  }

  /** The ids read so far are the ids of the table between start and cursor. */
  ghost predicate ReadUpTo(table: Table, start: int, c: int, sent: Table) {
    0 <= start <= c <= LastId(table) && Ids(sent) == Ids(Between(table, start, c))
  }

  lemma ReadUpToStays(table: Table, grown: Table, start: int, c: int, sent: Table)
    requires ReadUpTo(table, start, c, sent) && Extends(table, grown) && Log(grown)
    ensures ReadUpTo(grown, start, c, sent)
  {
    ExtendsLast(table, grown);
    IdsBetween(table, grown[..|table|], start, c);
    SameLast(table, grown[..|table|]);
    BetweenStays(grown[..|table|], grown, start, c);
  }

  lemma SameLast(a: Table, b: Table)
    requires Ids(a) == Ids(b)
    ensures LastId(a) == LastId(b)
  {
    if a != [] { assert Ids(a)[|a| - 1] == Ids(b)[|a| - 1]; }
  }

  lemma CursorInTable(table: Table, q: Lookup, fetch: Table)
    requires Log(fetch) && Log(q.window) && Log(q.whole) && Extends(q.window, q.whole) && Extends(q.whole, fetch)
    ensures PollCursor(q).Some? ==> 0 <= PollCursor(q).value <= LastId(fetch)
  {
    ExtendsLast(q.window, q.whole);
    ExtendsLast(q.whole, fetch);
    if q.windowOk { CursorCoversWindow(q); }
  }

  /** Reading the rest of the table. */
  lemma ReadRest(table: Table, start: int, c: int, sent: Table)
    requires Log(table) && ReadUpTo(table, start, c, sent)
    ensures var rows := After(table, c);
            var last := if rows == [] then c else rows[|rows| - 1].id;
            last == LastId(table) && ReadUpTo(table, start, last, sent + rows)
  {
    hide Between, After;
    var rows := After(table, c);
    AfterReadsToTheEnd(table, c);
    assert table == table[..|table|];
    PollExtends(table, table, start, c);
    IdsConcat(sent, rows);
    IdsConcat(Between(table, start, c), rows);
  }

  ghost predicate ChannelOk(table: Table, c0: Option<int>, ticks: seq<ChannelTick>) {
    var start, c, now := StartOf(c0, ticks), CursorAfter(c0, ticks), TableAfter(table, ticks);
    && (start.Some? <==> c.Some?)
    && (c.None? ==> Sent(c0, ticks) == [])
    && (c.Some? ==> ReadUpTo(now, start.value, c.value, Sent(c0, ticks)))
    && (c.Some? && ticks != [] && ticks[|ticks| - 1].fetchOk ==> c.value == LastId(now))
  }

  lemma StepOk(table: Table, t: ChannelTick, start: Option<int>, c: Option<int>, sent: Table)
    requires Log(table) && TickGrows(table, t)
    requires (start.Some? <==> c.Some?) && (c.None? ==> sent == [])
    requires c.Some? ==> ReadUpTo(table, start.value, c.value, sent)
    ensures var s := if start.Some? then start else PollCursor(t.lookup);
            var (d, rows) := Polled(c, t);
            && (s.Some? <==> d.Some?)
            && (d.None? ==> sent + rows == [])
            && (d.Some? ==> ReadUpTo(t.fetch, s.value, d.value, sent + rows))
            && (d.Some? && t.fetchOk ==> d.value == LastId(t.fetch))
  {
    hide Between, After, PollCursor, ReadUpTo, Extends;
    var s, from := if start.Some? then start else PollCursor(t.lookup), if c.Some? then c else PollCursor(t.lookup);
    CursorInTable(table, t.lookup, t.fetch);
    ExtendsTrans(table, t.lookup.window, t.lookup.whole);
    ExtendsTrans(table, t.lookup.whole, t.fetch);
    if c.Some? {
      ReadUpToStays(table, t.fetch, start.value, c.value, sent);
    } else if from.Some? {
      NothingReadYet(t.fetch, from.value);
    }
    assert sent + [] == sent;
    if from.Some? { ReadRest(t.fetch, s.value, from.value, sent); }
  }

  lemma NothingReadYet(table: Table, c: int)
    requires Log(table) && 0 <= c <= LastId(table)
    ensures ReadUpTo(table, c, c, [])
  {
    BetweenEmpty(table, c, c);
  }

  /** Over any run of one channel, with any queries failing: the ids broadcast are exactly
      those between the start cursor and the current one, each once and in id order; and
      after a fetch that succeeds nothing is left. */
  lemma {:induction false} ChannelIsExact(table: Table, c0: Option<int>, ticks: seq<ChannelTick>)
    requires Growing(table, ticks)
    requires c0.Some? ==> 0 <= c0.value <= LastId(table)
    ensures ChannelOk(table, c0, ticks)
  {
    if ticks == [] {
      if c0.Some? { NothingReadYet(table, c0.value); }
    } else {
      var before := ticks[..|ticks| - 1];
      ChannelIsExact(table, c0, before);
      hide Polled, ReadUpTo, TickGrows;
      GrowingLog(table, before);
      StepOk(TableAfter(table, before), ticks[|ticks| - 1], StartOf(c0, before), CursorAfter(c0, before),
             Sent(c0, before));
    }
  }

  lemma GrowingLog(table: Table, ticks: seq<ChannelTick>)
    requires Growing(table, ticks)
    ensures Log(TableAfter(table, ticks))
  {
  }

  /** The cursor never decreases, and once set stays set. */
  lemma CursorNeverDecreases(table: Table, c0: Option<int>, ticks: seq<ChannelTick>)
    requires ticks != [] && Growing(table, ticks)
    requires c0.Some? ==> 0 <= c0.value <= LastId(table)
    ensures var before, after := CursorAfter(c0, ticks[..|ticks| - 1]), CursorAfter(c0, ticks);
            before.Some? ==> after.Some? && before.value <= after.value
  {
    var last := ticks[|ticks| - 1];
    var before := CursorAfter(c0, ticks[..|ticks| - 1]);
    GrowingLog(table, ticks);
    if before.Some? { AfterReadsToTheEnd(last.fetch, before.value); }
    if before.Some? && last.fetchOk && After(last.fetch, before.value) != [] {
      var rows := After(last.fetch, before.value);
      BetweenIsExact(last.fetch, before.value, LastId(last.fetch));
      assert rows[|rows| - 1] in rows;
    }
  }

  // ---- The life of a channel ----

  /** The tables of a channel only grow, from the lookup at startup on. */
  ghost predicate ChannelGrows(c: Channel) {
    && Log(c.start.window) && Log(c.start.whole) && Extends(c.start.window, c.start.whole)
    && Growing(c.start.whole, c.ticks)
  }

  lemma StartInTable(c: Channel)
    requires ChannelGrows(c)
    ensures PollCursor(c.start).Some? ==> 0 <= PollCursor(c.start).value <= LastId(c.start.whole)
  {
    ExtendsLast(c.start.window, c.start.whole);
    LogPrefix(c.start.whole, |c.start.whole|);
    if c.start.windowOk { CursorCoversWindow(c.start); }
  }

  lemma {:induction false} CursorOnlyGrows(table: Table, c0: Option<int>, ticks: seq<ChannelTick>, k: nat)
    requires k <= |ticks| && Growing(table, ticks)
    requires c0.Some? ==> 0 <= c0.value <= LastId(table)
    ensures Growing(table, ticks[..k])
    ensures var earlier, now := CursorAfter(c0, ticks[..k]), CursorAfter(c0, ticks);
            earlier.Some? ==> now.Some? && earlier.value <= now.value
    decreases |ticks|
  {
    if k < |ticks| {
      var before := ticks[..|ticks| - 1];
      CursorOnlyGrows(table, c0, before, k);
      assert before[..k] == ticks[..k];
      hide CursorAfter, Growing;
      CursorNeverDecreases(table, c0, ticks);
    } else {
      assert ticks[..k] == ticks;
    }
  }

  /** The table after any number of ticks is extended by the later ones. */
  lemma {:induction false} RowsStay(table: Table, ticks: seq<ChannelTick>, k: nat)
    requires k <= |ticks| && Growing(table, ticks)
    ensures Growing(table, ticks[..k])
    ensures Extends(TableAfter(table, ticks[..k]), TableAfter(table, ticks)) && Log(TableAfter(table, ticks))
    decreases |ticks|
  {
    if k < |ticks| {
      var before, last := ticks[..|ticks| - 1], ticks[|ticks| - 1];
      assert before[..k] == ticks[..k];
      RowsStay(table, before, k);
      hide Extends, Log;
      ExtendsTrans(TableAfter(table, before), last.lookup.window, last.lookup.whole);
      ExtendsTrans(TableAfter(table, before), last.lookup.whole, last.fetch);
      ExtendsTrans(TableAfter(table, ticks[..k]), TableAfter(table, before), last.fetch);
    } else {
      assert ticks[..k] == ticks;
    }
  }

  lemma IdStays(a: Table, b: Table, i: nat)
    requires Extends(a, b) && i < |a|
    ensures i < |b| && b[i].id == a[i].id
  {
    assert Ids(a)[i] == Ids(b)[i];
  }

  ghost predicate SentOnce(sent: Table, id: int) {
    && (exists j :: 0 <= j < |sent| && sent[j].id == id)
    && (forall j, k | 0 <= j < k < |sent| :: sent[j].id != sent[k].id)
  }

  lemma ReadMeansSent(table: Table, start: int, c: int, sent: Table, i: nat)
    requires Log(table) && ReadUpTo(table, start, c, sent) && i < |table| && start < table[i].id <= c
    ensures SentOnce(sent, table[i].id)
  {
    var read := Between(table, start, c);
    BetweenIsExact(table, start, c);
    assert table[i] in table && table[i] in read;
    assert |Ids(sent)| == |Ids(read)|;
    forall j | 0 <= j < |sent| ensures sent[j].id == read[j].id { assert Ids(sent)[j] == Ids(read)[j]; }
    var j :| 0 <= j < |read| && read[j] == table[i];
    assert sent[j].id == table[i].id;
  }

  lemma StartedMeansRead(table: Table, c0: Option<int>, ticks: seq<ChannelTick>)
    requires Growing(table, ticks) && (c0.Some? ==> 0 <= c0.value <= LastId(table))
    requires StartOf(c0, ticks).Some?
    ensures CursorAfter(c0, ticks).Some?
    ensures ReadUpTo(TableAfter(table, ticks), StartOf(c0, ticks).value, CursorAfter(c0, ticks).value, Sent(c0, ticks))
    ensures ticks != [] && ticks[|ticks| - 1].fetchOk ==>
              CursorAfter(c0, ticks).value == LastId(ticks[|ticks| - 1].fetch)
  {
    hide Growing, CursorAfter, Sent, ReadUpTo, StartOf;
    ChannelIsExact(table, c0, ticks);
  }

  /** Tick `k` fetches after the cursor has been set by the lookup `q`: from then on the
      cursor is past the table of that fetch. */
  lemma CursorPasses(c: Channel, cursor: Option<int>, q: Lookup, k: nat)
    requires ChannelGrows(c) && Follows(c, cursor) && PollCursor(q).Some?
    requires k < |c.ticks| && c.ticks[k].fetchOk
    requires StartOf(PollCursor(c.start), c.ticks[..k + 1]) == PollCursor(q)
    ensures cursor.Some? && LastId(c.ticks[k].fetch) <= cursor.value
    ensures ReadUpTo(TableAfter(c.start.whole, c.ticks), PollCursor(q).value, cursor.value, c.sent)
  {
    var c0, table, first := PollCursor(c.start), c.start.whole, c.ticks[..k + 1];
    StartInTable(c);
    assert Growing(table, c.ticks) && cursor == CursorAfter(c0, c.ticks) && c.sent == Sent(c0, c.ticks);
    hide *;
    assert first[|first| - 1] == c.ticks[k];
    CursorOnlyGrows(table, c0, c.ticks, k + 1);
    StartedMeansRead(table, c0, first);
    StartStays(c0, c.ticks, k + 1);
    StartedMeansRead(table, c0, c.ticks);
  }

  /** From then on every row in the window of `q` has been sent once. */
  lemma WindowIsSent(c: Channel, cursor: Option<int>, q: Lookup, k: nat, i: nat)
    requires ChannelGrows(c) && Follows(c, cursor) && q.windowOk && Log(q.window)
    requires k < |c.ticks| && c.ticks[k].fetchOk && Extends(q.window, c.ticks[k].fetch)
    requires StartOf(PollCursor(c.start), c.ticks[..k + 1]) == PollCursor(q)
    requires i < |q.window| && InWindow(q.window[i], q.since)
    ensures SentOnce(c.sent, q.window[i].id)
  {
    var table, fetch := c.start.whole, c.ticks[k].fetch;
    var now := TableAfter(table, c.ticks);
    CursorCoversWindow(q);
    hide Follows, Growing, CursorAfter, Sent, ReadUpTo, Extends, PollCursor, Log, StartOf, After;
    CursorPasses(c, cursor, q, k);
    RowsStay(table, c.ticks, k + 1);
    assert TableAfter(table, c.ticks[..k + 1]) == fetch;
    ExtendsTrans(q.window, fetch, now);
    IdStays(q.window, fetch, i);
    IdStays(q.window, now, i);
    LogEarlier(fetch, now);
    IdAtMostLast(fetch, i);
    ReadMeansSent(now, PollCursor(q).value, cursor.value, c.sent, i);
  }

  lemma LogEarlier(a: Table, b: Table)
    requires Extends(a, b) && Log(b)
    ensures Log(a)
  {
    ExtendsLast(a, b);
  }

  /** Every row in the catch-up window of a lookup that succeeds at startup is broadcast
      exactly once in each run that has a fetch that succeeds, whatever else fails. */
  lemma WindowIsBroadcastOnce(c: Channel, cursor: Option<int>, k: nat, i: nat)
    requires ChannelGrows(c) && Follows(c, cursor) && c.start.windowOk
    requires k < |c.ticks| && c.ticks[k].fetchOk
    requires i < |c.start.window| && InWindow(c.start.window[i], c.start.since)
    ensures SentOnce(c.sent, c.start.window[i].id)
  {
    var first := c.ticks[..k + 1];
    CursorCoversWindow(c.start);
    assert Log(c.start.window);
    StartFetchGrows(c, k);
    assert StartOf(PollCursor(c.start), []) == PollCursor(c.start);
    hide *;
    assert first[..0] == [];
    StartStays(PollCursor(c.start), first, 0);
    WindowIsSent(c, cursor, c.start, k, i);
  }

  lemma StartFetchGrows(c: Channel, k: nat)
    requires ChannelGrows(c) && k < |c.ticks|
    ensures Extends(c.start.window, c.ticks[k].fetch)
  {
    var table, first := c.start.whole, c.ticks[..k + 1];
    hide Growing, Extends, Log;
    assert first[..0] == [] && TableAfter(table, []) == table;
    RowsStay(table, c.ticks, k + 1);
    RowsStay(table, first, 0);
    ExtendsTrans(c.start.window, table, c.ticks[k].fetch);
  }

  /** A channel without a cursor takes the one of the next tick's lookup as its start. */
  lemma LookupOfTick(c: Channel, j: nat)
    requires ChannelGrows(c) && j < |c.ticks| && c.ticks[j].lookup.windowOk
    requires CursorAfter(PollCursor(c.start), c.ticks[..j]).None?
    ensures var q, c0 := c.ticks[j].lookup, PollCursor(c.start);
            && Log(q.window) && Extends(q.window, c.ticks[j].fetch)
            && StartOf(c0, c.ticks[..j + 1]) == PollCursor(q) && PollCursor(q).Some?
  {
    var c0, upTo := PollCursor(c.start), c.ticks[..j + 1];
    assert upTo[..j] == c.ticks[..j] && upTo[j] == c.ticks[j];
    assert PollCursor(c.ticks[j].lookup).Some?;
    LookupTables(c, j);
    hide Extends, Log, PollCursor, CursorAfter, ChannelGrows;
    NotStarted(c, j);
    assert StartOf(c0, upTo) == PollCursor(upTo[j].lookup);
  }

  lemma NotStarted(c: Channel, j: nat)
    requires ChannelGrows(c) && j <= |c.ticks| && CursorAfter(PollCursor(c.start), c.ticks[..j]).None?
    ensures StartOf(PollCursor(c.start), c.ticks[..j]).None?
  {
    var c0, table := PollCursor(c.start), c.start.whole;
    StartInTable(c);
    hide PollCursor, Growing, StartOf, CursorAfter, Extends, Log;
    CursorOnlyGrows(table, c0, c.ticks, j);
    if StartOf(c0, c.ticks[..j]).Some? { StartedMeansRead(table, c0, c.ticks[..j]); }
  }

  lemma LookupTables(c: Channel, j: nat)
    requires ChannelGrows(c) && j < |c.ticks|
    ensures Log(c.ticks[j].lookup.window) && Extends(c.ticks[j].lookup.window, c.ticks[j].fetch)
  {
    var upTo := c.ticks[..j + 1];
    hide Extends, Log;
    RowsStay(c.start.whole, c.ticks, j + 1);
    assert upTo[j] == c.ticks[j];
    ExtendsTrans(c.ticks[j].lookup.window, c.ticks[j].lookup.whole, c.ticks[j].fetch);
  }

  lemma FetchesGrow(c: Channel, j: nat, k: nat)
    requires ChannelGrows(c) && j <= k < |c.ticks|
    ensures Extends(c.ticks[j].fetch, c.ticks[k].fetch)
  {
    var table, first := c.start.whole, c.ticks[..k + 1];
    hide Growing, Extends, Log;
    RowsStay(table, c.ticks, k + 1);
    RowsStay(table, first, j + 1);
    assert first[..j + 1] == c.ticks[..j + 1];
    assert TableAfter(table, first[..j + 1]) == c.ticks[j].fetch;
  }

  /** The same when no lookup worked before tick `j` and the one of that tick does: its
      window is broadcast once, by whichever fetch succeeds first from there on. */
  lemma LaterWindowIsBroadcastOnce(c: Channel, cursor: Option<int>, j: nat, k: nat, i: nat)
    requires ChannelGrows(c) && Follows(c, cursor)
    requires j <= k < |c.ticks| && c.ticks[k].fetchOk && c.ticks[j].lookup.windowOk
    requires CursorAfter(PollCursor(c.start), c.ticks[..j]).None?
    requires i < |c.ticks[j].lookup.window| && InWindow(c.ticks[j].lookup.window[i], c.ticks[j].lookup.since)
    ensures SentOnce(c.sent, c.ticks[j].lookup.window[i].id)
  {
    hide *;
    LookupOfTick(c, j);
    FetchesGrow(c, j, k);
    var first := c.ticks[..k + 1];
    assert first[..j + 1] == c.ticks[..j + 1];
    StartStays(PollCursor(c.start), first, j + 1);
    ExtendsTrans(c.ticks[j].lookup.window, c.ticks[j].fetch, c.ticks[k].fetch);
    WindowIsSent(c, cursor, c.ticks[j].lookup, k, i);
  }

  lemma IdAtMostLast(table: Table, i: nat)
    requires Log(table) && i < |table|
    ensures table[i].id <= LastId(table)
  {
  }

  /** Once a channel has a start cursor it keeps it. */
  lemma {:induction false} StartStays(c0: Option<int>, ticks: seq<ChannelTick>, k: nat)
    requires k <= |ticks| && StartOf(c0, ticks[..k]).Some?
    ensures StartOf(c0, ticks) == StartOf(c0, ticks[..k])
    decreases |ticks|
  {
    if k < |ticks| {
      var before := ticks[..|ticks| - 1];
      assert before[..k] == ticks[..k];
      StartStays(c0, before, k);
    } else {
      assert ticks[..k] == ticks;
    }
  }
}
