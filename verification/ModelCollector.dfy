/** The collector that reads event pages, and the fetch loop that feeds it. */
module ModelCollector {
  import opened Common
  import opened ModelEvents

  /** The collector's table of sequence numbers already seen. */
  function Seen(log: seq<Entry>): map<int, Fact>
  {
    if log == [] then map[]
    else Seen(log[..|log| - 1])[log[|log| - 1].sequence := log[|log| - 1].fact]
  }

  lemma {:induction false} SeenMeans(log: seq<Entry>, sequence: int)
    requires Increasing(log)
    ensures sequence in Seen(log) <==> exists i :: 0 <= i < |log| && log[i].sequence == sequence
    ensures sequence in Seen(log) ==> Entry(sequence, Seen(log)[sequence]) in log
  {
    if log != [] {
      var fewer := log[..|log| - 1];
      SeenMeans(fewer, sequence);
      assert forall i :: 0 <= i < |fewer| ==> fewer[i] == log[i];
    }
  }

  lemma SeenNext(log: seq<Entry>, entry: Entry)
    ensures Seen(log + [entry]) == Seen(log)[entry.sequence := entry.fact]
    ensures Count(log + [entry]) == Tally(Count(log), entry.fact)
  {
    assert (log + [entry])[..|log|] == log;
  }

  lemma FreshNext(events: seq<Event>, i: nat, cursor: int)
    requires i < |events|
    ensures Fresh(events[..i + 1], cursor)
         == Fresh(events[..i], cursor) + (if events[i].sequence > cursor then [EntryOf(events[i])] else [])
  {
    assert events[..i + 1][..i] == events[..i];
  }

  lemma ThreadsNext(events: seq<Event>, i: nat)
    requires i < |events|
    ensures var kind := events[i].kind;
            ThreadsIn(events[..i + 1]) == ThreadsIn(events[..i])
              + (if kind.TurnStarted? && kind.thread.Some? then {kind.thread.value} else {})
  {
    assert events[..i + 1][..i] == events[..i];
  }

  /** Whether a sequence is in the table, when it lies beyond everything added since the cursor. */
  lemma SeenDecides(log: seq<Entry>, added: seq<Entry>, cursor: int, entry: Entry)
    requires Increasing(log) && Increasing(added) && Bounded(log, cursor) && Beyond(added, cursor)
    requires Bounded(added, entry.sequence - 1)
    ensures entry.sequence > cursor ==> entry.sequence !in Seen(log + added)
    ensures entry.sequence <= cursor ==>
              (entry in log <==> entry.sequence in Seen(log + added) && Seen(log + added)[entry.sequence] == entry.fact)
  {
    hide Seen;
    var all := log + added;
    IncreasingConcat(log, added, cursor);
    SeenMeans(all, entry.sequence);
    if entry in log {
      var k :| 0 <= k < |log| && log[k] == entry;
      assert all[k] == entry;
    }
  }

  /** The entries fresh among the first events of a page lie beyond the cursor and before the next event. */
  lemma FreshBehind(events: seq<Event>, i: nat, cursor: int, log: seq<Entry>, job: string)
    requires i < |events| && FirstFit(events, i, cursor, log, job)
    requires i > 0 ==> events[i - 1].sequence < events[i].sequence
    ensures var added := Fresh(events[..i], cursor);
            Increasing(added) && Beyond(added, cursor) && Bounded(added, events[i].sequence - 1)
  {
    var first := events[..i];
    forall k | 0 < k < |first| ensures first[k - 1].sequence < first[k].sequence {
      assert EventFits(events, k, cursor, log, job);
    }
    FreshOrdered(first, cursor);
  }

  /** The first `i` events of a page fit. */
  ghost predicate FirstFit(events: seq<Event>, i: nat, cursor: int, log: seq<Entry>, job: string)
  {
    forall k {:trigger EventFits(events, k, cursor, log, job)} ::
      0 <= k < i && k < |events| ==> EventFits(events, k, cursor, log, job)
  }

  /** What decides about the next event, and what reading it adds. */
  lemma ReadNext(events: seq<Event>, i: nat, cursor: int, log: seq<Entry>, all: seq<Entry>, job: string)
    requires i < |events| && FirstFit(events, i, cursor, log, job)
    requires i > 0 ==> events[i - 1].sequence < events[i].sequence
    requires Increasing(log) && Bounded(log, cursor) && all == log + Fresh(events[..i], cursor)
    ensures events[i].sequence > cursor ==>
              && events[i].sequence !in Seen(all)
              && log + Fresh(events[..i + 1], cursor) == all + [EntryOf(events[i])]
    ensures events[i].sequence <= cursor ==>
              && log + Fresh(events[..i + 1], cursor) == all
              && (EntryOf(events[i]) in log <==>
                    events[i].sequence in Seen(all) && Seen(all)[events[i].sequence] == FactOf(events[i]))
  {
    hide Seen, Increasing, Bounded, Beyond;
    FreshBehind(events, i, cursor, log, job);
    SeenDecides(log, Fresh(events[..i], cursor), cursor, EntryOf(events[i]));
    FreshNext(events, i, cursor);
  }

  /**
   One page's events against the table. It accepts exactly the events that fit, counts those beyond the
   cursor once each, and leaves replays alone.
   */
  method ReadEvents(events: seq<Event>, cursor: int, seen: map<int, Fact>, totals: Totals, expected: string,
                    ghost log: seq<Entry>)
    returns (ok: bool, seen': map<int, Fact>, totals': Totals, threads: set<string>)
    requires Increasing(log) && Bounded(log, cursor)
    requires seen == Seen(log) && totals == Count(log)
    ensures ok <==> EventsFit(events, cursor, log, expected)
    ensures ok ==> seen' == Seen(log + Fresh(events, cursor)) && totals' == Count(log + Fresh(events, cursor))
    ensures ok ==> threads == ThreadsIn(events)
  {
    ok, seen', totals', threads := true, seen, totals, {};
    ghost var all := log;
    assert log + [] == log;
    var i := 0;
    while i < |events|
      invariant i <= |events| && ok
      invariant FirstFit(events, i, cursor, log, expected)
      invariant all == log + Fresh(events[..i], cursor) && seen' == Seen(all) && totals' == Count(all)
      invariant threads == ThreadsIn(events[..i])
    {
      hide Seen, Fresh, Count, ThreadsIn, Increasing, Bounded, Sane;
      var event := events[i];
      if (i > 0 && event.sequence <= events[i - 1].sequence) || !Sane(event) || event.job != expected {
        assert !EventFits(events, i, cursor, log, expected);
        ok := false;
        return;
      }
      ThreadsNext(events, i);
      if event.kind.TurnStarted? && event.kind.thread.Some? {
        threads := threads + {event.kind.thread.value};
      }
      ReadNext(events, i, cursor, log, all, expected);
      assert EventFits(events, i, cursor, log, expected)
        <==> (event.sequence <= cursor ==> EntryOf(event) in log);
      if event.sequence in seen' {
        if seen'[event.sequence] != FactOf(event) {
          ok := false;
          return;
        }
      } else if event.sequence <= cursor {
        ok := false;
        return;
      } else {
        SeenNext(all, EntryOf(event));
        all := all + [EntryOf(event)];
        seen' := seen'[event.sequence := FactOf(event)];
        totals' := Tally(totals', FactOf(event));
      }
      i := i + 1;
    }
    assert events[..i] == events;
  }

  /** The job the events of a stream must all belong to: the one expected, else the first one seen. */
  function JobOf(expected: Option<string>, pages: seq<Page>): string
  {
    if expected.Some? then expected.value
    else if pages != [] && pages[0].events != [] then pages[0].events[0].job
    else ""
  }

  /** What the page loop hands on: the totals, and the threads whose rollouts may be asked for. */
  datatype Reading = Reading(totals: Totals, threads: set<string>)

  /** What the page loop holds after these pages. */
  ghost predicate ReadTo(done: seq<Page>, job: string, seen: map<int, Fact>, totals: Totals, threads: set<string>,
                         cursor: int, ended: bool)
  {
    && InOrder(done, job) && Cursor(done) == cursor
    && seen == Seen(LogOf(done)) && totals == Count(LogOf(done)) && threads == ThreadsOf(done)
    && (ended <==> done != [] && done[|done| - 1].events == [])
  }

  lemma NothingRead(job: string)
    ensures ReadTo([], job, map[], NOTHING, {}, 0, false)
  {
  }

  /** The collector's page loop: it accepts exactly the complete streams, with the totals of the log they carry. */
  method CollectPages(pages: seq<Page>, expected: Option<string>) returns (result: Option<Reading>)
    ensures result.Some? <==> Complete(pages, JobOf(expected, pages))
    ensures result.Some? ==> result.value == Reading(Count(LogOf(pages)), ThreadsOf(pages))
    ensures result.Some? ==> exists counted :: CountsOnce(pages, counted) && TotalsOf(result.value.totals, counted)
    ensures result.Some? ==> forall thread :: thread in result.value.threads <==> StartsThread(pages, thread)
  {
    hide CountsOnce, TotalsOf, LogsEvents, StartsThread, Seen, Count, LogOf, ThreadsOf, Cursor, InOrder, Increasing, Bounded, EventsFit, JobOf;
    var job := JobOf(expected, pages);
    var seen: map<int, Fact>, totals, threads: set<string>, cursor, ended, p := map[], NOTHING, {}, 0, false, 0;
    ghost var done: seq<Page> := [];
    NothingRead(job);
    while p < |pages|
      invariant p <= |pages| && done == pages[..p] && ReadTo(done, job, seen, totals, threads, cursor, ended)
    {
      var page := pages[p];
      CursorIsLargest(done, job);
      OnePageMore(done, page, job);
      assert pages[..p + 1] == done + [page];
      var ok, more := false, {};
      if !ended {
        ok, seen, totals, more := ReadEvents(page.events, cursor, seen, totals, job, LogOf(done));
      }
      if !ok
         || (page.events == [] && page.nextCursor != cursor)
         || (page.events != [] && (page.nextCursor != page.events[|page.events| - 1].sequence || page.nextCursor <= cursor))
      {
        StaysOutOfOrder(pages, p + 1, job);
        return None;
      }
      ended := page.events == [];
      cursor := if ended then cursor else page.nextCursor;
      p, done, threads := p + 1, done + [page], threads + more;
    }
    assert done == pages;
    if |pages| == 0 || !ended {
      return None;
    }
    ghost var counted := PagesCounted(pages, job);
    CountIsTotals(LogOf(pages), counted);
    forall thread ensures thread in threads <==> StartsThread(pages, thread) {
      ThreadsMeans(pages, thread);
    }
    result := Some(Reading(totals, threads));
  }

  lemma OnePageMore(before: seq<Page>, page: Page, job: string)
    ensures InOrder(before + [page], job) <==>
              && InOrder(before, job)
              && (before != [] ==> before[|before| - 1].events != [])
              && PageFits(page, Cursor(before), LogOf(before), job)
    ensures LogOf(before + [page]) == LogOf(before) + Fresh(page.events, Cursor(before))
    ensures ThreadsOf(before + [page]) == ThreadsOf(before) + ThreadsIn(page.events)
    ensures Cursor(before + [page]) == if page.events == [] then Cursor(before) else page.nextCursor
  {
    assert (before + [page])[..|before|] == before;
  }

  /** A stream out of order stays out of order. */
  lemma {:induction false} StaysOutOfOrder(pages: seq<Page>, p: nat, job: string)
    requires p <= |pages| && !InOrder(pages[..p], job)
    ensures !InOrder(pages, job)
    decreases |pages| - p
  {
    if p == |pages| {
      assert pages[..p] == pages;
    } else {
      OnePageMore(pages[..p], pages[p], job);
      assert pages[..p + 1] == pages[..p] + [pages[p]];
      StaysOutOfOrder(pages, p + 1, job);
    }
  }

  // ---------------------------------------------------------------------------------------------
  // Fetching
  // ---------------------------------------------------------------------------------------------

  /** A job's event log as the server keeps it. */
  ghost predicate ServerLog(log: seq<Event>, job: string)
  {
    Ascending(log) && forall i :: 0 <= i < |log| ==> Sane(log[i]) && log[i].job == job
  }

  /** The events after the cursor. */
  function Newer(log: seq<Event>, cursor: int): seq<Event>
  {
    if log == [] || log[0].sequence > cursor then log else Newer(log[1..], cursor)
  }

  /** The server's answer: the next `limit` events after the cursor, and the cursor to ask with next. */
  function Serve(log: seq<Event>, cursor: int, limit: nat): Page
  {
    var newer := Newer(log, cursor);
    var events := if |newer| <= limit then newer else newer[..limit];
    Page(events, if events == [] then cursor else events[|events| - 1].sequence)
  }

  function Entries(events: seq<Event>): seq<Entry>
  {
    if events == [] then [] else Entries(events[..|events| - 1]) + [EntryOf(events[|events| - 1])]
  }

  /** Where a server log cut at `k` events leaves the cursor. */
  function CutAt(log: seq<Event>, k: nat): int
    requires k <= |log|
  {
    if k == 0 then 0 else log[k - 1].sequence
  }

  lemma {:induction false} NewerIsTheRest(log: seq<Event>, k: nat, cursor: int)
    requires Ascending(log) && k <= |log|
    requires (k > 0 ==> log[k - 1].sequence == cursor) && (k == 0 && log != [] ==> log[0].sequence > cursor)
    ensures Newer(log, cursor) == log[k..]
  {
    if k > 0 {
      AscendingApart(log, 0, k - 1);
      var rest := log[1..];
      assert forall i :: 0 <= i < |rest| ==> rest[i] == log[i + 1];
      assert Ascending(rest) by {
        forall i | 0 < i < |rest| ensures rest[i - 1].sequence < rest[i].sequence {
          assert log[i].sequence < log[i + 1].sequence;
        }
      }
      NewerIsTheRest(rest, k - 1, cursor);
      assert rest[k - 1..] == log[k..];
    }
  }

  lemma {:induction false} AscendingApart(log: seq<Event>, i: nat, j: nat)
    requires Ascending(log) && i <= j < |log|
    ensures log[i].sequence <= log[j].sequence && (i < j ==> log[i].sequence < log[j].sequence)
  {
    if i < j {
      AscendingApart(log, i, j - 1);
    }
  }

  lemma {:induction false} AllFresh(log: seq<Event>, k: nat, n: nat)
    requires Ascending(log) && (log != [] ==> log[0].sequence > 0) && k + n <= |log|
    ensures Entries(log[..k]) + Fresh(log[k..k + n], CutAt(log, k)) == Entries(log[..k + n])
  {
    hide EntryOf, Fresh, Entries, Ascending;
    if n == 0 {
      NoneFresh(CutAt(log, k));
      assert log[k..k] == [] && log[..k + 0] == log[..k];
    } else {
      AllFresh(log, k, n - 1);
      AscendingApart(log, if k == 0 then 0 else k - 1, k + n - 1);
      FreshOne(log, k, n - 1, CutAt(log, k));
      EntriesOne(log, k + n - 1);
      Associated(Entries(log[..k]), Fresh(log[k..k + n - 1], CutAt(log, k)), [EntryOf(log[k + n - 1])]);
    }
  }

  lemma NoneFresh(cursor: int)
    ensures Fresh([], cursor) == []
  {
  }

  lemma FreshOne(log: seq<Event>, k: nat, n: nat, cursor: int)
    requires k + n < |log| && log[k + n].sequence > cursor
    ensures Fresh(log[k..k + n + 1], cursor) == Fresh(log[k..k + n], cursor) + [EntryOf(log[k + n])]
  {
    assert log[k..k + n + 1][..n] == log[k..k + n];
  }

  lemma EntriesOne(log: seq<Event>, n: nat)
    requires n < |log|
    ensures Entries(log[..n + 1]) == Entries(log[..n]) + [EntryOf(log[n])]
  {
    assert log[..n + 1][..n] == log[..n];
  }

  /** The next `n` events of a server log fit behind what has been read of it. */
  lemma ServedEventFits(log: seq<Event>, k: nat, n: nat, i: nat, job: string)
    requires ServerLog(log, job) && k + n <= |log| && i < n
    ensures EventFits(log[k..k + n], i, CutAt(log, k), Entries(log[..k]), job)
  {
    hide Entries;
    assert log[k..k + n][i] == log[k + i];
    AscendingApart(log, if k == 0 then 0 else k - 1, k + i);
    if i > 0 {
      assert log[k..k + n][i - 1] == log[k + i - 1];
    }
  }

  lemma Served(log: seq<Event>, k: nat, limit: nat)
    requires Ascending(log) && (log != [] ==> log[0].sequence > 0) && k <= |log| && limit >= 1
    ensures var page := Serve(log, CutAt(log, k), limit);
            var n := |page.events|;
            && k + n <= |log| && (n == 0 <==> k == |log|)
            && page.events == log[k..k + n]
            && page.nextCursor == CutAt(log, k + n)
            && (n > 0 ==> page.nextCursor > CutAt(log, k)) && CutAt(log, k) >= 0
  {
    hide Newer;
    if k > 0 {
      AscendingApart(log, 0, k - 1);
    }
    NewerIsTheRest(log, k, CutAt(log, k));
    var n := |Serve(log, CutAt(log, k), limit).events|;
    if n > 0 {
      AscendingApart(log, if k == 0 then 0 else k - 1, k + n - 1);
    }
  }

  lemma ServedPageFits(log: seq<Event>, k: nat, limit: nat, job: string)
    requires ServerLog(log, job) && k <= |log| && limit >= 1
    ensures var page := Serve(log, CutAt(log, k), limit);
            && k + |page.events| <= |log|
            && PageFits(page, CutAt(log, k), Entries(log[..k]), job)
            && Entries(log[..k]) + Fresh(page.events, CutAt(log, k)) == Entries(log[..k + |page.events|])
  {
    hide Entries, Serve, Fresh, EventFits, Ascending;
    Served(log, k, limit);
    var page := Serve(log, CutAt(log, k), limit);
    var n := |page.events|;
    AllFresh(log, k, n);
    forall i: nat | i < n ensures EventFits(page.events, i, CutAt(log, k), Entries(log[..k]), job) {
      ServedEventFits(log, k, n, i, job);
    }
  }

  lemma {:induction false} ThreadsSplit(log: seq<Event>, k: nat, n: nat)
    requires k + n <= |log|
    ensures ThreadsIn(log[..k]) + ThreadsIn(log[k..k + n]) == ThreadsIn(log[..k + n])
  {
    if n > 0 {
      ThreadsSplit(log, k, n - 1);
      assert log[k..k + n][..n - 1] == log[k..k + n - 1];
      assert log[..k + n][..k + n - 1] == log[..k + n - 1];
    }
  }

  /** The pages fetched so far carry the first `k` events of the server's log. */
  ghost predicate FetchedTo(log: seq<Event>, k: int, got: seq<Page>, job: string)
  {
    && 0 <= k <= |log|
    && InOrder(got, job) && Cursor(got) == CutAt(log, k) && LogOf(got) == Entries(log[..k])
    && ThreadsOf(got) == ThreadsIn(log[..k])
    && (got != [] ==> got[|got| - 1].events != [])
  }

  lemma FetchOne(log: seq<Event>, k: nat, got: seq<Page>, limit: nat, job: string)
    requires ServerLog(log, job) && FetchedTo(log, k, got, job) && limit >= 1
    ensures var page := Serve(log, CutAt(log, k), limit);
            if k == |log| then
              && page.events == []
              && Complete(got + [page], job)
              && LogOf(got + [page]) == Entries(log) && ThreadsOf(got + [page]) == ThreadsIn(log)
            else
              && page.events != []
              && k + |page.events| <= |log| && page.nextCursor == CutAt(log, k + |page.events|) > CutAt(log, k)
              && CutAt(log, k) >= 0 && FetchedTo(log, k + |page.events|, got + [page], job)
  {
    hide InOrder, LogOf, Cursor, Entries, Serve, Fresh, PageFits, ThreadsOf, ThreadsIn, CutAt, ServerLog;
    var page := Serve(log, CutAt(log, k), limit);
    LogShape(log, job);
    Served(log, k, limit);
    ServedPageFits(log, k, limit, job);
    OnePageMore(got, page, job);
    ThreadsSplit(log, k, |page.events|);
    if k == |log| {
      assert log[..k] == log;
    }
  }

  lemma LogShape(log: seq<Event>, job: string)
    requires ServerLog(log, job)
    ensures Ascending(log) && (log != [] ==> log[0].sequence > 0)
  {
  }

  /** What a request came back with: the events, unless they are not a list, and the cursor, unless it is no integer. */
  datatype Reply = Reply(events: Option<seq<Event>>, nextCursor: Option<int>)

  /** What the fetch loop does next: ask from a cursor, end, or refuse the reply. */
  datatype Ask = AskFrom(cursor: int) | EndHere | Refuse

  function AfterReply(cursor: int, reply: Reply): Ask
  {
    if reply.events.None? then Refuse
    else if reply.events.value == [] then EndHere
    else if reply.nextCursor.None? || reply.nextCursor.value < 1 || reply.nextCursor.value <= cursor then Refuse
    else AskFrom(reply.nextCursor.value)
  }

  /**
   The fetch loop against a server that may answer anything, and differently each time. It asks from one cursor
   after another, each beyond the last, so it makes at most one request more than the largest cursor it asks from;
   it ends at the first reply without events and refuses the first reply it cannot go on from.
   */
  method FetchReplies(replies: seq<Reply>) returns (asked: seq<int>, next: Ask)
    ensures asked != [] && asked[0] == 0 && |asked| <= asked[|asked| - 1] + 1
    ensures forall k {:trigger asked[k]} :: 0 <= k < |asked| - 1 ==>
              k < |replies| && asked[k] < asked[k + 1] && AfterReply(asked[k], replies[k]) == AskFrom(asked[k + 1])
    ensures |asked| <= |replies| + 1 && (next.AskFrom? <==> |asked| == |replies| + 1)
    ensures next == if next.AskFrom? then AskFrom(asked[|asked| - 1])
                    else AfterReply(asked[|asked| - 1], replies[|asked| - 1])
  {
    asked, next := [0], AskFrom(0);
    var i := 0;
    while i < |replies|
      invariant 0 <= i <= |replies| && |asked| == i + 1 && asked[0] == 0 && asked[i] >= i && next == AskFrom(asked[i])
      invariant forall k {:trigger asked[k]} :: 0 <= k < i ==>
                  asked[k] < asked[k + 1] && AfterReply(asked[k], replies[k]) == AskFrom(asked[k + 1])
    {
      next := AfterReply(asked[i], replies[i]);
      if !next.AskFrom? {
        return;
      }
      asked, i := asked + [next.cursor], i + 1;
    }
  }

  /**
   The fetch loop. For every server log and every page limit from 1 to 1000 it ends, and the pages it yields
   are a complete stream carrying exactly that log; other limits are refused.
   */
  method FetchPages(log: seq<Event>, limit: int, ghost job: string) returns (pages: Option<seq<Page>>)
    requires ServerLog(log, job)
    ensures pages.Some? <==> 1 <= limit <= 1000
    ensures pages.Some? ==> Complete(pages.value, job) && LogOf(pages.value) == Entries(log)
    ensures pages.Some? ==> ThreadsOf(pages.value) == ThreadsIn(log)
  {
    if limit < 1 || limit > 1000 {
      return None;
    }
    var got: seq<Page>, cursor := [], 0;
    ghost var k := 0;
    while true
      invariant FetchedTo(log, k, got, job) && 0 <= k <= |log| && cursor == CutAt(log, k)
      decreases |log| - k
    {
      hide FetchedTo, Complete, LogOf, Entries, Serve, ThreadsOf, ThreadsIn, ServerLog, CutAt;
      var page := Serve(log, cursor, limit);
      FetchOne(log, k, got, limit, job);
      got := got + [page];
      var next := AfterReply(cursor, Reply(Some(page.events), Some(page.nextCursor)));
      if next.EndHere? {
        return Some(got);
      }
      assert next.AskFrom?;
      cursor := next.cursor;
      k := k + |page.events|;
    }
  }

  /** Fetching and collecting give the totals and the threads of the server's log, whatever the page limit. */
  method CollectJob(log: seq<Event>, limit: int, job: string) returns (result: Option<Reading>)
    requires ServerLog(log, job)
    ensures result == if 1 <= limit <= 1000 then Some(Reading(Count(Entries(log)), ThreadsIn(log))) else None
    ensures result.Some? ==> TotalsOf(result.value.totals, log)
    ensures result.Some? ==> forall thread ::
              thread in result.value.threads <==> exists event :: event in log && event.kind == TurnStarted(Some(thread))
  {
    hide TotalsOf, CountsOnce, StartsThread, InOrder, LogOf, Cursor, Entries, Count, ThreadsOf, ThreadsIn;
    var pages := FetchPages(log, limit, job);
    if pages.None? {
      return None;
    }
    result := CollectPages(pages.value, Some(job));
    EntriesLog(log, job);
    CountIsTotals(Entries(log), log);
    forall thread
      ensures thread in ThreadsIn(log) <==> exists event :: event in log && event.kind == TurnStarted(Some(thread))
    {
      ThreadsInMeans(log, thread);
    }
  }

  lemma {:induction false} EntriesAt(events: seq<Event>, i: nat)
    requires i < |events|
    ensures |Entries(events)| == |events| && Entries(events)[i] == EntryOf(events[i])
  {
    var n := |events| - 1;
    if n > 0 {
      EntriesAt(events[..n], if i < n then i else 0);
    }
  }

  lemma EntriesLog(log: seq<Event>, job: string)
    requires ServerLog(log, job)
    ensures LogsEvents(Entries(log), log)
  {
    hide Entries, EntryOf;
    forall i | 0 <= i < |log| ensures |Entries(log)| == |log| && Entries(log)[i] == EntryOf(log[i]) {
      EntriesAt(log, i);
    }
    if log == [] {
      NoEntries();
    } else {
      EntriesAt(log, 0);
    }
  }

  lemma NoEntries()
    ensures Entries([]) == []
  {
  }
}
