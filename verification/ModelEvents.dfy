/**
 The collector's event protocol: pages of job events read behind a cursor, replayed events tolerated and
 counted once, and the aggregate they reduce to. And the fetch loop that produces such pages from a server.
 */
module ModelEvents {
  import opened Common

  /** Token counts of one response, in the order the collector names them. */
  datatype Usage = Usage(total: int, input: int, cached: int, cacheWrite: int, output: int, reasoning: int)

  /** An event's kind with the part of its payload the collector reads; `None` is a missing or malformed part. */
  datatype Kind =
    | ModelUsage(usage: Option<Usage>)
    | TurnStarted(thread: Option<string>)
    | ToolStarted
    | ContextCompacted
    | OtherKind(name: string)

  /** `wellFormed` stands for the checks on keys, optional ids and the timestamp. */
  datatype Event = Event(sequence: int, job: string, kind: Kind, wellFormed: bool)

  datatype Page = Page(events: seq<Event>, nextCursor: int)

  /** What an event's fingerprint covers: its kind and its usage, but not the thread it starts. */
  datatype Fact = UsageFact(usage: Usage) | TurnFact | ToolFact | CompactionFact | OtherFact(name: string)

  /** A sequence number and the fact recorded under it. */
  datatype Entry = Entry(sequence: int, fact: Fact)

  datatype Totals = Totals(responses: int, usage: Usage, tools: int, compactions: int)

  const NO_USAGE := Usage(0, 0, 0, 0, 0, 0)
  const NOTHING := Totals(0, NO_USAGE, 0, 0)

  function Add(a: Usage, b: Usage): Usage
  {
    Usage(a.total + b.total, a.input + b.input, a.cached + b.cached,
          a.cacheWrite + b.cacheWrite, a.output + b.output, a.reasoning + b.reasoning)
  }

  predicate NonNegative(u: Usage)
  {
    u.total >= 0 && u.input >= 0 && u.cached >= 0 && u.cacheWrite >= 0 && u.output >= 0 && u.reasoning >= 0
  }

  // ---------------------------------------------------------------------------------------------
  // The aggregate of a log of facts
  // ---------------------------------------------------------------------------------------------

  function Tally(totals: Totals, fact: Fact): Totals
  {
    match fact
    case UsageFact(usage) => totals.(usage := Add(totals.usage, usage), responses := totals.responses + 1)
    case ToolFact => totals.(tools := totals.tools + 1)
    case CompactionFact => totals.(compactions := totals.compactions + 1)
    case TurnFact => totals
    case OtherFact(_) => totals
  }

  /** The totals of a log, each entry counted once. */
  function Count(log: seq<Entry>): Totals
  {
    if log == [] then NOTHING else Tally(Count(log[..|log| - 1]), log[|log| - 1].fact)
  }

  predicate Increasing(log: seq<Entry>)
  {
    forall i, j :: 0 <= i < j < |log| ==> log[i].sequence < log[j].sequence
  }

  lemma BeforeLast(log: seq<Entry>, entry: Entry)
    requires Increasing(log) && log != []
    ensures entry in log[..|log| - 1] <==> entry in log && entry.sequence < log[|log| - 1].sequence
  {
    if entry in log {
      var i :| 0 <= i < |log| && log[i] == entry;
      assert i < |log| - 1 ==> log[..|log| - 1][i] == entry;
    }
  }

  /** Two increasing logs of the same facts are the same log. */
  lemma {:induction false} SameFactsSameLog(a: seq<Entry>, b: seq<Entry>)
    requires Increasing(a) && Increasing(b)
    requires forall e :: e in a <==> e in b
    ensures a == b
  {
    assert |b| > 0 ==> b[0] in a;
    if a != [] {
      assert a[|a| - 1] in b;
      var x, y := a[|a| - 1], b[|b| - 1];
      assert y in a;
      assert x == y;
      var fewerA, fewerB := a[..|a| - 1], b[..|b| - 1];
      forall e ensures e in fewerA <==> e in fewerB {
        BeforeLast(a, e);
        BeforeLast(b, e);
      }
      SameFactsSameLog(fewerA, fewerB);
      assert a == fewerA + [x] && b == fewerB + [y];
    }
  }

  // ---------------------------------------------------------------------------------------------
  // Which page streams are accepted, and the log they carry
  // ---------------------------------------------------------------------------------------------

  function FactOf(event: Event): Fact
  {
    match event.kind
    case ModelUsage(usage) => UsageFact(if usage.Some? then usage.value else NO_USAGE)
    case TurnStarted(_) => TurnFact
    case ToolStarted => ToolFact
    case ContextCompacted => CompactionFact
    case OtherKind(name) => OtherFact(name)
  }

  /** The checks on an event by itself. */
  predicate Sane(event: Event)
  {
    && event.wellFormed && event.sequence >= 1 && event.job != ""
    && (event.kind.ModelUsage? ==> event.kind.usage.Some? && NonNegative(event.kind.usage.value))
    && (event.kind.TurnStarted? ==> event.kind.thread.Some? && event.kind.thread.value != "")
    && (event.kind.OtherKind? ==> event.kind.name != "")
  }

  /** The entries of the events beyond the cursor, in order. */
  function Fresh(events: seq<Event>, cursor: int): seq<Entry>
  {
    if events == [] then []
    else
      var last := events[|events| - 1];
      Fresh(events[..|events| - 1], cursor)
      + if last.sequence > cursor then [EntryOf(last)] else []
  }

  /** The cursor after these pages. */
  function Cursor(pages: seq<Page>): int
  {
    if pages == [] then 0
    else if pages[|pages| - 1].events == [] then Cursor(pages[..|pages| - 1])
    else pages[|pages| - 1].nextCursor
  }

  /** The log these pages carry: of each page, the part beyond the cursor before it. */
  function LogOf(pages: seq<Page>): seq<Entry>
  {
    if pages == [] then []
    else LogOf(pages[..|pages| - 1]) + Fresh(pages[|pages| - 1].events, Cursor(pages[..|pages| - 1]))
  }

  /** Event `i` of a page may follow these entries: it is sane, of the job, in order, and new or a faithful replay. */
  ghost predicate EventFits(events: seq<Event>, i: nat, cursor: int, log: seq<Entry>, job: string)
    requires i < |events|
  {
    && Sane(events[i])
    && events[i].job == job
    && (i > 0 ==> events[i - 1].sequence < events[i].sequence)
    && (events[i].sequence <= cursor ==> EntryOf(events[i]) in log)
  }

  ghost predicate EventsFit(events: seq<Event>, cursor: int, log: seq<Entry>, job: string)
  {
    forall i {:trigger EventFits(events, i, cursor, log, job)} ::
      0 <= i < |events| ==> EventFits(events, i, cursor, log, job)
  }

  ghost predicate PageFits(page: Page, cursor: int, log: seq<Entry>, job: string)
  {
    && EventsFit(page.events, cursor, log, job)
    && (page.events == [] ==> page.nextCursor == cursor)
    && (page.events != [] ==> page.nextCursor == page.events[|page.events| - 1].sequence > cursor)
  }

  /** The pages read so far are in order: each fits what came before it, and none follows an empty page. */
  ghost predicate InOrder(pages: seq<Page>, job: string)
  {
    pages == [] ||
    var fewer := pages[..|pages| - 1];
    && InOrder(fewer, job)
    && (fewer != [] ==> fewer[|fewer| - 1].events != [])
    && PageFits(pages[|pages| - 1], Cursor(fewer), LogOf(fewer), job)
  }

  /** A complete stream: in order, and closed by its one empty page. */
  ghost predicate Complete(pages: seq<Page>, job: string)
  {
    InOrder(pages, job) && pages != [] && pages[|pages| - 1].events == []
  }

  /** An event of some page, as the entry it stands for. */
  function EntryOf(event: Event): Entry
  {
    Entry(event.sequence, FactOf(event))
  }

  ghost predicate PageCarries(page: Page, entry: Entry)
  {
    exists i :: 0 <= i < |page.events| && EntryOf(page.events[i]) == entry
  }

  ghost predicate Carries(pages: seq<Page>, entry: Entry)
  {
    exists p :: 0 <= p < |pages| && PageCarries(pages[p], entry)
  }

  /** The threads the events start. Replays count here too, whatever thread they name. */
  function ThreadsIn(events: seq<Event>): set<string>
  {
    if events == [] then {}
    else
      var kind := events[|events| - 1].kind;
      ThreadsIn(events[..|events| - 1])
      + if kind.TurnStarted? && kind.thread.Some? then {kind.thread.value} else {}
  }

  function ThreadsOf(pages: seq<Page>): set<string>
  {
    if pages == [] then {} else ThreadsOf(pages[..|pages| - 1]) + ThreadsIn(pages[|pages| - 1].events)
  }

  // ---------------------------------------------------------------------------------------------
  // Each fact is counted once
  // ---------------------------------------------------------------------------------------------

  ghost predicate Bounded(log: seq<Entry>, cursor: int)
  {
    forall i :: 0 <= i < |log| ==> log[i].sequence <= cursor
  }

  ghost predicate Beyond(log: seq<Entry>, cursor: int)
  {
    forall i :: 0 <= i < |log| ==> cursor < log[i].sequence
  }

  ghost predicate Ascending(events: seq<Event>)
  {
    forall i :: 0 < i < |events| ==> events[i - 1].sequence < events[i].sequence
  }

  lemma {:induction false} FreshOrdered(events: seq<Event>, cursor: int)
    requires Ascending(events)
    ensures Increasing(Fresh(events, cursor)) && Beyond(Fresh(events, cursor), cursor)
    ensures events != [] ==> Bounded(Fresh(events, cursor), events[|events| - 1].sequence)
  {
    hide FactOf;
    if events != [] {
      var fewer, last := events[..|events| - 1], events[|events| - 1];
      FreshOrdered(fewer, cursor);
      if last.sequence > cursor {
        OrderedNext(Fresh(fewer, cursor), EntryOf(last), cursor);
      } else {
        assert Fresh(fewer, cursor) + [] == Fresh(fewer, cursor);
      }
    }
  }

  lemma OrderedNext(log: seq<Entry>, entry: Entry, cursor: int)
    requires Increasing(log) && Beyond(log, cursor) && Bounded(log, entry.sequence - 1) && entry.sequence > cursor
    ensures Increasing(log + [entry]) && Beyond(log + [entry], cursor) && Bounded(log + [entry], entry.sequence)
  {
  }

  /** The fresh entries are those of the events beyond the cursor. */
  lemma {:induction false} FreshMembers(events: seq<Event>, cursor: int, entry: Entry)
    ensures entry in Fresh(events, cursor)
       <==> entry.sequence > cursor && exists i :: 0 <= i < |events| && EntryOf(events[i]) == entry
  {
    if events != [] {
      var fewer := events[..|events| - 1];
      FreshMembers(fewer, cursor, entry);
      if i :| 0 <= i < |fewer| && EntryOf(fewer[i]) == entry {
        assert events[i] == fewer[i];
      }
      if i :| 0 <= i < |events| && EntryOf(events[i]) == entry {
        assert i < |fewer| ==> fewer[i] == events[i];
      }
    }
  }

  lemma IncreasingConcat(a: seq<Entry>, b: seq<Entry>, cursor: int)
    requires Increasing(a) && Increasing(b) && Bounded(a, cursor) && Beyond(b, cursor)
    ensures Increasing(a + b)
  {
  }

  lemma FitsAscends(events: seq<Event>, cursor: int, log: seq<Entry>, job: string)
    requires EventsFit(events, cursor, log, job)
    ensures Ascending(events)
  {
    forall i | 0 < i < |events| ensures events[i - 1].sequence < events[i].sequence {
      assert EventFits(events, i, cursor, log, job);
    }
  }

  /** At every page boundary the cursor is the largest sequence seen, and the log has no sequence twice. */
  lemma {:induction false} CursorIsLargest(pages: seq<Page>, job: string)
    requires InOrder(pages, job)
    ensures Increasing(LogOf(pages)) && Bounded(LogOf(pages), Cursor(pages)) && Cursor(pages) >= 0
    ensures LogOf(pages) != [] ==> LogOf(pages)[|LogOf(pages)| - 1].sequence == Cursor(pages)
  {
    if pages != [] {
      var fewer, page := pages[..|pages| - 1], pages[|pages| - 1];
      CursorIsLargest(fewer, job);
      var cursor, log := Cursor(fewer), LogOf(fewer);
      FitsAscends(page.events, cursor, log, job);
      FreshOrdered(page.events, cursor);
      IncreasingConcat(log, Fresh(page.events, cursor), cursor);
    }
  }

  /** The log holds exactly the facts the pages carry, replays included once. */
  lemma {:induction false} LogIsWhatPagesCarry(pages: seq<Page>, job: string, entry: Entry)
    requires InOrder(pages, job)
    ensures entry in LogOf(pages) <==> Carries(pages, entry)
  {
    if pages != [] {
      var fewer, page := pages[..|pages| - 1], pages[|pages| - 1];
      var cursor, log := Cursor(fewer), LogOf(fewer);
      LogIsWhatPagesCarry(fewer, job, entry);
      FreshMembers(page.events, cursor, entry);
      CarriesSplit(pages, entry);
      if i :| 0 <= i < |page.events| && EntryOf(page.events[i]) == entry {
        assert EventFits(page.events, i, cursor, log, job);
      }
    }
  }

  lemma CarriesSplit(pages: seq<Page>, entry: Entry)
    requires pages != []
    ensures Carries(pages, entry)
       <==> Carries(pages[..|pages| - 1], entry) || PageCarries(pages[|pages| - 1], entry)
  {
    var fewer := pages[..|pages| - 1];
    if p :| 0 <= p < |fewer| && PageCarries(fewer[p], entry) {
      assert PageCarries(pages[p], entry);
    }
    if p :| 0 <= p < |pages| && PageCarries(pages[p], entry) {
      assert p < |fewer| ==> PageCarries(fewer[p], entry);
    }
  }

  /** However the same facts are split into pages or replayed, the totals are the same. */
  lemma SplitAndReplayIndependent(a: seq<Page>, b: seq<Page>, jobA: string, jobB: string)
    requires InOrder(a, jobA) && InOrder(b, jobB)
    requires forall entry :: Carries(a, entry) <==> Carries(b, entry)
    ensures LogOf(a) == LogOf(b) && Count(LogOf(a)) == Count(LogOf(b))
  {
    CursorIsLargest(a, jobA);
    CursorIsLargest(b, jobB);
    forall entry ensures entry in LogOf(a) <==> entry in LogOf(b) {
      LogIsWhatPagesCarry(a, jobA, entry);
      LogIsWhatPagesCarry(b, jobB, entry);
    }
    SameFactsSameLog(LogOf(a), LogOf(b));
  }

  // ---------------------------------------------------------------------------------------------
  // The totals, said of the events themselves
  // ---------------------------------------------------------------------------------------------

  /** One part of the usage of these events, added up. */
  function SumOf(events: seq<Event>, part: Usage -> int): int
  {
    if events == [] then 0
    else
      var kind := events[|events| - 1].kind;
      SumOf(events[..|events| - 1], part) + if kind.ModelUsage? && kind.usage.Some? then part(kind.usage.value) else 0
  }

  /** How many of these events pass. */
  ghost function HowMany(events: seq<Event>, passes: Kind -> bool): int
  {
    |set i | 0 <= i < |events| && passes(events[i].kind)|
  }

  /** The usage and the number of responses of these events. */
  ghost predicate UsageOf(responses: int, usage: Usage, events: seq<Event>)
  {
    && responses == HowMany(events, (kind: Kind) => kind.ModelUsage?)
    && usage.total == SumOf(events, (u: Usage) => u.total) && usage.input == SumOf(events, (u: Usage) => u.input)
    && usage.cached == SumOf(events, (u: Usage) => u.cached) && usage.cacheWrite == SumOf(events, (u: Usage) => u.cacheWrite)
    && usage.output == SumOf(events, (u: Usage) => u.output) && usage.reasoning == SumOf(events, (u: Usage) => u.reasoning)
  }

  /** The tools started and the compactions among these events. */
  ghost predicate StepsOf(tools: int, compactions: int, events: seq<Event>)
  {
    tools == HowMany(events, (kind: Kind) => kind.ToolStarted?) && compactions == HowMany(events, (kind: Kind) => kind.ContextCompacted?)
  }

  ghost predicate TotalsOf(totals: Totals, events: seq<Event>)
  {
    UsageOf(totals.responses, totals.usage, events) && StepsOf(totals.tools, totals.compactions, events)
  }

  lemma HowManyNext(events: seq<Event>, event: Event, passes: Kind -> bool)
    ensures HowMany(events + [event], passes) == HowMany(events, passes) + if passes(event.kind) then 1 else 0
  {
    var more, n := events + [event], |events|;
    var some := set i | 0 <= i < n && passes(events[i].kind);
    var all := set i | 0 <= i < |more| && passes(more[i].kind);
    assert forall i :: 0 <= i < n ==> more[i] == events[i];
    assert all == if passes(event.kind) then some + {n} else some;
  }

  lemma NoneOf(passes: Kind -> bool)
    ensures HowMany([], passes) == 0
  {
    var none: seq<Event> := [];
    assert (set i | 0 <= i < |none| && passes(none[i].kind)) == {};
  }

  lemma SumOfNext(events: seq<Event>, event: Event, part: Usage -> int)
    ensures SumOf(events + [event], part)
         == SumOf(events, part)
            + if event.kind.ModelUsage? && event.kind.usage.Some? then part(event.kind.usage.value) else 0
  {
    assert (events + [event])[..|events|] == events;
  }

  lemma UsageNext(responses: int, usage: Usage, events: seq<Event>, event: Event)
    requires UsageOf(responses, usage, events) && (event.kind.ModelUsage? ==> event.kind.usage.Some?)
    ensures event.kind.ModelUsage? ==> UsageOf(responses + 1, Add(usage, event.kind.usage.value), events + [event])
    ensures !event.kind.ModelUsage? ==> UsageOf(responses, usage, events + [event])
  {
    hide SumOf, HowMany;
    HowManyNext(events, event, (kind: Kind) => kind.ModelUsage?);
    SumOfNext(events, event, (u: Usage) => u.total);
    SumOfNext(events, event, (u: Usage) => u.input);
    SumOfNext(events, event, (u: Usage) => u.cached);
    SumOfNext(events, event, (u: Usage) => u.cacheWrite);
    SumOfNext(events, event, (u: Usage) => u.output);
    SumOfNext(events, event, (u: Usage) => u.reasoning);
  }

  lemma StepsNext(tools: int, compactions: int, events: seq<Event>, event: Event)
    requires StepsOf(tools, compactions, events)
    ensures StepsOf(tools + (if event.kind.ToolStarted? then 1 else 0),
                    compactions + (if event.kind.ContextCompacted? then 1 else 0), events + [event])
  {
    hide HowMany;
    HowManyNext(events, event, (kind: Kind) => kind.ToolStarted?);
    HowManyNext(events, event, (kind: Kind) => kind.ContextCompacted?);
  }

  /** The log holds the entries of these events. */
  ghost predicate LogsEvents(log: seq<Entry>, events: seq<Event>)
  {
    && |log| == |events|
    && forall i :: 0 <= i < |events| ==>
         log[i] == EntryOf(events[i]) && (events[i].kind.ModelUsage? ==> events[i].kind.usage.Some?)
  }

  /** Counting a log is adding up its events. */
  lemma {:induction false} CountIsTotals(log: seq<Entry>, events: seq<Event>)
    requires LogsEvents(log, events)
    ensures TotalsOf(Count(log), events)
  {
    hide UsageOf, StepsOf;
    if log == [] {
      NothingTotals();
      assert events == [];
    } else {
      var n := |log| - 1;
      var before, event, totals := events[..n], events[n], Count(log[..n]);
      CountIsTotals(log[..n], before);
      assert events == before + [event];
      UsageNext(totals.responses, totals.usage, before, event);
      StepsNext(totals.tools, totals.compactions, before, event);
    }
  }

  lemma NothingTotals()
    ensures TotalsOf(NOTHING, [])
  {
    hide HowMany;
    NoneOf((kind: Kind) => kind.ModelUsage?);
    NoneOf((kind: Kind) => kind.ToolStarted?);
    NoneOf((kind: Kind) => kind.ContextCompacted?);
  }

  ghost predicate OnPages(pages: seq<Page>, event: Event)
  {
    exists p :: 0 <= p < |pages| && event in pages[p].events
  }

  /** The same thing happened, though it may be told of another thread. */
  predicate SameKind(a: Event, b: Event)
  {
    a.kind == b.kind || (a.kind.TurnStarted? && b.kind.TurnStarted?)
  }

  ghost predicate Represented(counted: seq<Event>, event: Event)
  {
    exists i :: 0 <= i < |counted| && counted[i].sequence == event.sequence && SameKind(counted[i], event)
  }

  /** These are the events of the pages, one for each sequence number, in its order. */
  ghost predicate CountsOnce(pages: seq<Page>, counted: seq<Event>)
  {
    && Ascending(counted)
    && (forall i :: 0 <= i < |counted| ==> OnPages(pages, counted[i]))
    && (forall event :: OnPages(pages, event) ==> Represented(counted, event))
  }

  lemma {:induction false} AllSane(pages: seq<Page>, job: string, event: Event)
    requires InOrder(pages, job) && OnPages(pages, event)
    ensures Sane(event)
  {
    hide Sane, LogOf, Cursor, EntryOf;
    var p :| 0 <= p < |pages| && event in pages[p].events;
    var n := |pages| - 1;
    if p == n {
      var i :| 0 <= i < |pages[n].events| && pages[n].events[i] == event;
      assert EventFits(pages[n].events, i, Cursor(pages[..n]), LogOf(pages[..n]), job);
    } else {
      assert pages[..n][p] == pages[p];
      AllSane(pages[..n], job, event);
    }
  }

  lemma CarriedIsOn(pages: seq<Page>, entry: Entry) returns (event: Event)
    requires Carries(pages, entry)
    ensures OnPages(pages, event) && EntryOf(event) == entry
  {
    hide EntryOf;
    var p :| 0 <= p < |pages| && PageCarries(pages[p], entry);
    var i :| 0 <= i < |pages[p].events| && EntryOf(pages[p].events[i]) == entry;
    event := pages[p].events[i];
    assert event in pages[p].events;
  }

  lemma OnIsCarried(pages: seq<Page>, event: Event)
    requires OnPages(pages, event)
    ensures Carries(pages, EntryOf(event))
  {
    hide EntryOf;
    var p :| 0 <= p < |pages| && event in pages[p].events;
    var i :| 0 <= i < |pages[p].events| && pages[p].events[i] == event;
    assert PageCarries(pages[p], EntryOf(event));
  }

  lemma {:induction false} PickEvents(pages: seq<Page>, log: seq<Entry>) returns (events: seq<Event>)
    requires forall k :: 0 <= k < |log| ==> Carries(pages, log[k])
    ensures |events| == |log|
    ensures forall k :: 0 <= k < |log| ==> OnPages(pages, events[k]) && EntryOf(events[k]) == log[k]
  {
    hide EntryOf, Carries, OnPages;
    events := [];
    if log != [] {
      var n := |log| - 1;
      assert forall k :: 0 <= k < n ==> log[..n][k] == log[k];
      var fewer := PickEvents(pages, log[..n]);
      var event := CarriedIsOn(pages, log[n]);
      events := fewer + [event];
    }
  }

  lemma SameEntry(a: Event, b: Event)
    requires EntryOf(a) == EntryOf(b) && Sane(a) && Sane(b)
    ensures a.sequence == b.sequence && SameKind(a, b)
  {
  }

  /** The log of a stream in order logs each of its events once. */
  lemma PagesCounted(pages: seq<Page>, job: string) returns (counted: seq<Event>)
    requires InOrder(pages, job)
    ensures CountsOnce(pages, counted) && LogsEvents(LogOf(pages), counted)
  {
    hide EntryOf, Carries, OnPages, InOrder, LogOf, Cursor, SameKind, Sane;
    CursorIsLargest(pages, job);
    var log := LogOf(pages);
    forall k | 0 <= k < |log| ensures Carries(pages, log[k]) {
      LogIsWhatPagesCarry(pages, job, log[k]);
    }
    counted := PickEvents(pages, log);
    forall k | 0 <= k < |log|
      ensures counted[k].sequence == log[k].sequence && (counted[k].kind.ModelUsage? ==> counted[k].kind.usage.Some?)
    {
      AllSane(pages, job, counted[k]);
      SaneEntry(counted[k]);
    }
    forall event | OnPages(pages, event) ensures Represented(counted, event) {
      OnIsCarried(pages, event);
      LogIsWhatPagesCarry(pages, job, EntryOf(event));
      var i :| 0 <= i < |log| && log[i] == EntryOf(event);
      AllSane(pages, job, event);
      AllSane(pages, job, counted[i]);
      SameEntry(counted[i], event);
    }
  }

  lemma SaneEntry(event: Event)
    requires Sane(event)
    ensures EntryOf(event).sequence == event.sequence && (event.kind.ModelUsage? ==> event.kind.usage.Some?)
  {
  }

  /** What is asked of an event by itself. */
  lemma SaneMeans(event: Event)
    ensures Sane(event) <==>
              && event.wellFormed && event.sequence >= 1 && event.job != ""
              && match event.kind
                 case ModelUsage(usage) =>
                   usage.Some? && 0 <= usage.value.total && 0 <= usage.value.input && 0 <= usage.value.cached
                   && 0 <= usage.value.cacheWrite && 0 <= usage.value.output && 0 <= usage.value.reasoning
                 case TurnStarted(thread) => thread.Some? && thread.value != ""
                 case OtherKind(name) => name != ""
                 case ToolStarted => true
                 case ContextCompacted => true
  {
  }

  ghost predicate StartsThread(pages: seq<Page>, thread: string)
  {
    exists event :: OnPages(pages, event) && event.kind == TurnStarted(Some(thread))
  }

  lemma {:induction false} ThreadsInMeans(events: seq<Event>, thread: string)
    ensures thread in ThreadsIn(events) <==> exists event :: event in events && event.kind == TurnStarted(Some(thread))
  {
    if events != [] {
      var n := |events| - 1;
      ThreadsInMeans(events[..n], thread);
      assert events == events[..n] + [events[n]];
    }
  }

  /** The threads of a stream are those some event on its pages starts. */
  lemma {:induction false} ThreadsMeans(pages: seq<Page>, thread: string)
    ensures thread in ThreadsOf(pages) <==> StartsThread(pages, thread)
  {
    hide ThreadsIn;
    if pages != [] {
      var n := |pages| - 1;
      ThreadsMeans(pages[..n], thread);
      ThreadsInMeans(pages[n].events, thread);
      forall event ensures OnPages(pages, event) <==> OnPages(pages[..n], event) || event in pages[n].events {
        if p :| 0 <= p < n && event in pages[..n][p].events {
          assert pages[p] == pages[..n][p];
        }
        if p :| 0 <= p < |pages| && event in pages[p].events {
          assert p < n ==> pages[..n][p] == pages[p];
        }
      }
      hide OnPages;
    }
  }
}
