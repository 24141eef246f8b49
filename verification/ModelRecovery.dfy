/** The collector's recovery loops, and the metrics of a whole model observation. */
module ModelRecovery {
  import opened Common
  import opened ModelEvents
  import opened ModelCollector
  import opened ModelRollouts

  lemma SnapshotsNext(records: seq<Record>, i: nat)
    requires i < |records|
    ensures var r := records[i];
            SnapshotsOf(records[..i + 1]) == SnapshotsOf(records[..i])
              + (if r.TokenCount? && Coherent(r.total) && Coherent(r.last)
                 then [Snapshot(r.total.value, r.last.value)] else [])
  {
    assert records[..i + 1][..i] == records[..i];
  }

  /** The first `i` records fit the thread named so far, and name no thread while it is unknown. */
  ghost predicate ReadTo(records: seq<Record>, i: nat, thread: Option<string>)
    requires i <= |records|
  {
    && (forall k {:trigger records[k]} :: 0 <= k < i ==>
          if thread.Some? then RecordFits(records[k], thread.value)
          else !records[k].SessionMeta? && RecordFits(records[k], ""))
    && (thread.Some? ==> thread.value != "" && exists k :: 0 <= k < i && records[k] == SessionMeta(thread))
  }

  /** A record that does not fit settles that the rollout cannot be read. */
  lemma Unreadable(records: seq<Record>, i: nat, thread: Option<string>)
    requires i < |records| && ReadTo(records, i, thread)
    requires match records[i]
             case SessionMeta(id) => id.None? || id.value == "" || (thread.Some? && id != thread)
             case TokenCount(total, last) => !Coherent(total) || !Coherent(last)
             case Skipped => false
             case Malformed => true
    ensures forall t :: !Reads(records, t)
  {
    if thread.Some? {
      var k :| 0 <= k < i && records[k] == SessionMeta(thread);
      forall t ensures !Reads(records, t) {
        assert Reads(records, t) ==> RecordFits(records[k], t) && RecordFits(records[i], t);
      }
    } else {
      forall t ensures !Reads(records, t) {
        assert Reads(records, t) ==> RecordFits(records[i], t);
      }
    }
  }

  lemma ReadToTheEnd(records: seq<Record>, thread: Option<string>)
    requires ReadTo(records, |records|, thread)
    ensures thread.Some? ==> Reads(records, thread.value)
    ensures thread.None? ==> forall t :: !Reads(records, t)
  {
  }

  /** One rollout's records: read exactly when they all fit one thread that some record names. */
  method ReadRecords(records: seq<Record>) returns (thread: Option<string>, snapshots: seq<Snapshot>)
    ensures thread.Some? <==> exists t :: Reads(records, t)
    ensures thread.Some? ==> Reads(records, thread.value) && snapshots == SnapshotsOf(records)
  {
    thread, snapshots := None, [];
    var i := 0;
    while i < |records|
      invariant i <= |records| && ReadTo(records, i, thread)
      invariant snapshots == SnapshotsOf(records[..i])
    {
      hide SnapshotsOf, Coherent, Reads;
      SnapshotsNext(records, i);
      match records[i] {
        case SessionMeta(id) =>
          if id.None? || id.value == "" || (thread.Some? && id != thread) {
            Unreadable(records, i, thread);
            thread := None;
            return;
          }
          thread := id;
        case TokenCount(total, last) =>
          if !Coherent(total) || !Coherent(last) {
            Unreadable(records, i, thread);
            thread := None;
            return;
          }
          snapshots := snapshots + [Snapshot(total.value, last.value)];
        case Skipped =>
        case Malformed =>
          Unreadable(records, i, thread);
          thread := None;
          return;
      }
      i := i + 1;
    }
    ReadToTheEnd(records, thread);
    assert records[..i] == records;
  }

  lemma {:induction false} SnapshotsCoherent(records: seq<Record>, i: nat)
    requires i < |SnapshotsOf(records)|
    ensures Coherent(Some(SnapshotsOf(records)[i].total)) && Coherent(Some(SnapshotsOf(records)[i].last))
  {
    if i < |SnapshotsOf(records[..|records| - 1])| {
      SnapshotsCoherent(records[..|records| - 1], i);
    }
  }

  predicate AtLeast(a: Usage, b: Usage)
  {
    && a.total >= b.total && a.input >= b.input && a.cached >= b.cached
    && a.cacheWrite >= b.cacheWrite && a.output >= b.output && a.reasoning >= b.reasoning
  }

  function Subtract(a: Usage, b: Usage): Usage
  {
    Usage(a.total - b.total, a.input - b.input, a.cached - b.cached,
          a.cacheWrite - b.cacheWrite, a.output - b.output, a.reasoning - b.reasoning)
  }

  lemma MovesBy(total: Usage, previous: Usage, last: Usage)
    requires NonNegative(last)
    ensures AtLeast(total, previous) && Subtract(total, previous) == last <==> total == Add(previous, last)
  {
  }

  /** The counter loop: it accepts exactly the ledgers, and counts each response once. */
  method CountResponses(snapshots: seq<Snapshot>) returns (result: Option<Recovered>)
    requires forall i :: 0 <= i < |snapshots| ==> NonNegative(snapshots[i].last)
    ensures result.Some? <==> Ledger(snapshots)
    ensures result.Some? ==> result.value == Recovered(|Responses(snapshots)|, Sum(Responses(snapshots)))
  {
    assert Responses(snapshots[..0]) == [];
    hide Responses, Sum, Add, NonNegative, AtLeast, Subtract;
    var previous, previousLast: Option<Usage>, count, i := NO_USAGE, None, 0, 0;
    while i < |snapshots|
      invariant i <= |snapshots| && count == |Responses(snapshots[..i])|
      invariant forall k {:trigger Accounted(snapshots, k)} :: 0 <= k < i ==> Accounted(snapshots, k)
      invariant previous == Before(snapshots, i)
      invariant previousLast == if i == 0 then None else Some(snapshots[i - 1].last)
    {
      var total, last := snapshots[i].total, snapshots[i].last;
      ResponsesNext(snapshots, i);
      MovesBy(total, previous, last);
      assert Accounted(snapshots, i) <==>
        if total == previous then previousLast == Some(last)
        else AtLeast(total, previous) && Subtract(total, previous) == last;
      if total == previous {
        if previousLast != Some(last) {
          return None;
        }
      } else {
        if !AtLeast(total, previous) || Subtract(total, previous) != last {
          return None;
        }
        previous, previousLast, count := total, Some(last), count + 1;
      }
      i := i + 1;
    }
    CounterIsSumOfResponses(snapshots, i);
    assert snapshots[..i] == snapshots;
    return Some(Recovered(count, previous));
  }

  // ---------------------------------------------------------------------------------------------
  // All rollouts
  // ---------------------------------------------------------------------------------------------

  /** The rollouts read so far are usable, and their threads are expected ones, each seen once. */
  ghost predicate RecoveredTo(done: seq<seq<Record>>, seen: set<string>, expected: set<string>)
  {
    AllUsable(done) && Threads(done) == multiset(seen) && seen <= expected
  }

  lemma ThreadsWithin(done: seq<seq<Record>>, rest: seq<seq<Record>>)
    ensures Threads(done) <= Threads(done + rest)
    decreases |rest|
  {
    hide ThreadOf;
    if rest == [] {
      assert done + rest == done;
    } else {
      var all := done + rest;
      assert all[..|all| - 1] == done + rest[..|rest| - 1];
      ThreadsWithin(done, rest[..|rest| - 1]);
    }
  }

  /** One more rollout: what it takes to go on, and that nothing later can make up for a bad one. */
  lemma RecoverNext(rollouts: seq<seq<Record>>, i: nat, seen: set<string>, expected: set<string>)
    requires i < |rollouts| && RecoveredTo(rollouts[..i], seen, expected)
    ensures var thread := ThreadOf(rollouts[i]);
            if Usable(rollouts[i]) && thread in expected && thread !in seen
            then RecoveredTo(rollouts[..i + 1], seen + {thread}, expected)
            else !Covers(rollouts, expected)
  {
    hide Usable, ThreadOf;
    var thread := ThreadOf(rollouts[i]);
    var next := rollouts[..i + 1];
    assert next == rollouts[..i] + [rollouts[i]] && next[..i] == rollouts[..i];
    assert Threads(next) == multiset(seen) + multiset{thread};
    ThreadsWithin(next, rollouts[i + 1..]);
    assert rollouts == next + rollouts[i + 1..];
    assert rollouts[i] in rollouts;
    assert Threads(next)[thread] <= Threads(rollouts)[thread];
    assert thread !in seen ==> multiset(seen) + multiset{thread} == multiset(seen + {thread});
  }

  lemma ThreadRead(records: seq<Record>, thread: string)
    requires Reads(records, thread)
    ensures ThreadOf(records) == thread
  {
    OneThread(records, ThreadOf(records), thread);
  }

  /** Recovery: it succeeds exactly when the rollouts cover the threads, and reports every response once. */
  method Recover(rollouts: seq<seq<Record>>, expected: set<string>) returns (result: Option<Recovered>)
    ensures result.Some? <==> Covers(rollouts, expected)
    ensures result.Some? ==> result.value == Recovery(rollouts)
    ensures result.Some? ==> RecoveredFrom(result.value.responses, result.value.usage, rollouts)
  {
    hide RecoveredFrom;
    if expected == {} {
      return None;
    }
    var recovered, seen: set<string>, i := NOTHING_RECOVERED, {}, 0;
    assert RecoveredTo(rollouts[..0], seen, expected);
    assert Recovery(rollouts[..0]) == NOTHING_RECOVERED;
    hide RecoveredTo, Covers, Recovery, Share, Plus, SnapshotsOf, Ledger, Reads, Responses, Sum, ThreadOf;
    while i < |rollouts|
      invariant i <= |rollouts| && RecoveredTo(rollouts[..i], seen, expected)
      invariant recovered == Recovery(rollouts[..i])
    {
      var records := rollouts[i];
      RecoverNext(rollouts, i, seen, expected);
      var thread, snapshots := ReadRecords(records);
      if thread.None? {
        return None;
      }
      ThreadRead(records, thread.value);
      if thread.value !in expected || thread.value in seen || snapshots == [] {
        return None;
      }
      forall k | 0 <= k < |snapshots| ensures NonNegative(snapshots[k].last) {
        SnapshotsCoherent(records, k);
      }
      var counted := CountResponses(snapshots);
      if counted.None? {
        return None;
      }
      ShareNext(rollouts, i);
      seen := seen + {thread.value};
      recovered := Recovered(recovered.responses + counted.value.responses, Add(recovered.usage, counted.value.usage));
      i := i + 1;
    }
    assert rollouts[..i] == rollouts;
    Finished(rollouts, seen, expected);
    if seen != expected {
      return None;
    }
    CoveredIsUsable(rollouts, expected);
    RecoveryMeans(rollouts);
    return Some(recovered);
  }

  lemma CoveredIsUsable(rollouts: seq<seq<Record>>, expected: set<string>)
    requires Covers(rollouts, expected)
    ensures AllUsable(rollouts)
  {
  }

  lemma ShareNext(rollouts: seq<seq<Record>>, i: nat)
    requires i < |rollouts|
    ensures var responses := Responses(SnapshotsOf(rollouts[i]));
            var sofar := Recovery(rollouts[..i]);
            Recovery(rollouts[..i + 1])
              == Recovered(sofar.responses + |responses|, Add(sofar.usage, Sum(responses)))
  {
    hide Recovery;
    RecoveryNext(rollouts[..i + 1]);
    assert rollouts[..i + 1][..i] == rollouts[..i];
  }

  lemma Finished(rollouts: seq<seq<Record>>, seen: set<string>, expected: set<string>)
    requires expected != {} && RecoveredTo(rollouts, seen, expected)
    ensures Covers(rollouts, expected) <==> seen == expected
  {
    if multiset(seen) == multiset(expected) {
      forall t ensures t in seen <==> t in expected {
        assert t in seen <==> t in multiset(seen);
        assert t in expected <==> t in multiset(expected);
      }
    }
  }

  // ---------------------------------------------------------------------------------------------
  // The whole observation
  // ---------------------------------------------------------------------------------------------

  /** The totals with the recovered usage in place of the events' own. */
  function Updated(totals: Totals, recovered: Recovered): Totals
  {
    totals.(responses := recovered.responses, usage := recovered.usage)
  }

  /** The checks every published model observation passes. */
  predicate Publishable(totals: Totals)
  {
    && totals.responses >= 1
    && totals.usage.total == totals.usage.input + totals.usage.output
    && totals.usage.cached <= totals.usage.input
    && totals.usage.reasoning <= totals.usage.output
  }

  /** When the rollouts may stand beside the events: they cover the threads, and no event usage contradicts them. */
  ghost predicate Agree(pages: seq<Page>, rollouts: seq<seq<Record>>)
  {
    var totals := Count(LogOf(pages));
    && Covers(rollouts, ThreadsOf(pages))
    && (totals.responses != 0 ==> Recovery(rollouts) == Recovered(totals.responses, totals.usage))
  }

  ghost function Observed(pages: seq<Page>, rollouts: Option<seq<seq<Record>>>): Totals
  {
    var totals := Count(LogOf(pages));
    if rollouts.Some? then Updated(totals, Recovery(rollouts.value)) else totals
  }

  /**
   The tools and compactions are those of the events, one for each sequence number; so are the responses and their
   usage, unless there are rollouts: then they are the rollouts'.
   */
  ghost predicate ObservedFrom(totals: Totals, pages: seq<Page>, rollouts: Option<seq<seq<Record>>>)
  {
    exists counted ::
      && CountsOnce(pages, counted) && StepsOf(totals.tools, totals.compactions, counted)
      && if rollouts.Some? then RecoveredFrom(totals.responses, totals.usage, rollouts.value)
         else UsageOf(totals.responses, totals.usage, counted)
  }

  /** The collector's model observation. */
  method CollectModel(pages: seq<Page>, rollouts: Option<seq<seq<Record>>>, expected: Option<string>)
    returns (result: Option<Totals>)
    ensures result.Some? <==>
              && Complete(pages, JobOf(expected, pages))
              && (rollouts.Some? ==> Agree(pages, rollouts.value))
              && var totals := Observed(pages, rollouts);
                 && totals.responses >= 1 && totals.usage.total == totals.usage.input + totals.usage.output
                 && totals.usage.cached <= totals.usage.input && totals.usage.reasoning <= totals.usage.output
    ensures result.Some? ==> result.value == Observed(pages, rollouts)
    ensures result.Some? ==> ObservedFrom(result.value, pages, rollouts)
  {
    hide CountsOnce, UsageOf, StepsOf, RecoveredFrom, StartsThread, Complete, Covers, Recovery, LogOf, Count, ThreadsOf, JobOf;
    var reading := CollectPages(pages, expected);
    if reading.None? {
      return None;
    }
    var totals := reading.value.totals;
    if rollouts.Some? {
      var recovered := Recover(rollouts.value, reading.value.threads);
      if recovered.None? || (totals.responses != 0 && recovered.value != Recovered(totals.responses, totals.usage)) {
        return None;
      }
      totals := Updated(totals, recovered.value);
    }
    if totals.responses == 0 || !Publishable(totals) {
      return None;
    }
    return Some(totals);
  }

  /**
   Splitting the log into other pages, replaying events, and reordering the rollouts change neither whether
   the observation is accepted nor what it says, as long as the streams start the same threads.
   */
  lemma ObservationIndependent(a: seq<Page>, b: seq<Page>, jobA: string, jobB: string,
                               rolloutsA: seq<seq<Record>>, rolloutsB: seq<seq<Record>>)
    requires InOrder(a, jobA) && InOrder(b, jobB) && (forall e :: Carries(a, e) <==> Carries(b, e))
    requires multiset(rolloutsA) == multiset(rolloutsB)
    requires ThreadsOf(a) == ThreadsOf(b)
    ensures Agree(a, rolloutsA) <==> Agree(b, rolloutsB)
    ensures Observed(a, Some(rolloutsA)) == Observed(b, Some(rolloutsB)) && Observed(a, None) == Observed(b, None)
  {
    hide Covers, Recovery, InOrder, Carries, LogOf, Count, ThreadsOf;
    SplitAndReplayIndependent(a, b, jobA, jobB);
    OrderIrrelevant(rolloutsA, rolloutsB, ThreadsOf(a));
  }

  /** The condition is needed: no rollouts stand beside two streams that start different threads. */
  lemma ThreadsDecide(a: seq<Page>, b: seq<Page>, rollouts: seq<seq<Record>>)
    requires Agree(a, rollouts) && Agree(b, rollouts)
    ensures ThreadsOf(a) == ThreadsOf(b)
  {
    assert multiset(ThreadsOf(a)) == multiset(ThreadsOf(b));
    forall t ensures t in ThreadsOf(a) <==> t in ThreadsOf(b) {
      assert t in ThreadsOf(a) <==> t in multiset(ThreadsOf(a));
      assert t in ThreadsOf(b) <==> t in multiset(ThreadsOf(b));
    }
  }

  /**
   So of two streams with the same facts, rollouts that agree with the one agree with the other exactly when both
   start the same threads.
   */
  lemma AgreeExactly(a: seq<Page>, b: seq<Page>, jobA: string, jobB: string, rollouts: seq<seq<Record>>)
    requires InOrder(a, jobA) && InOrder(b, jobB) && (forall e :: Carries(a, e) <==> Carries(b, e))
    requires Agree(a, rollouts)
    ensures Agree(b, rollouts) <==> ThreadsOf(a) == ThreadsOf(b)
  {
    hide Agree, InOrder, Carries, ThreadsOf;
    if ThreadsOf(a) == ThreadsOf(b) {
      ObservationIndependent(a, b, jobA, jobB, rollouts, rollouts);
    }
    if Agree(b, rollouts) {
      ThreadsDecide(a, b, rollouts);
    }
  }

  const START_A := Event(1, "j", TurnStarted(Some("a")), true)
  const START_B := Event(1, "j", TurnStarted(Some("b")), true)
  const TOOL := Event(2, "j", ToolStarted, true)
  const STARTED := Entry(1, TurnFact)

  /** A turn is started, then something happens, then the stream ends. */
  function Stream(events: seq<Event>): seq<Page>
  {
    [Page([START_A], 1)] + [Page(events, 2)] + [Page([], 2)]
  }

  lemma FirstPageRead()
    ensures var first := [Page([START_A], 1)];
            InOrder(first, "j") && LogOf(first) == [STARTED] && Cursor(first) == 1 && ThreadsOf(first) == {"a"}
  {
    var page := Page([START_A], 1);
    OnePageMore([], page, "j");
    assert [] + [page] == [page];
    assert EventFits([START_A], 0, 0, [], "j");
    assert [START_A][..0] == [];
  }

  lemma StreamRead(events: seq<Event>)
    requires PageFits(Page(events, 2), 1, [STARTED], "j") && events != []
    ensures Complete(Stream(events), "j") && LogOf(Stream(events)) == [STARTED] + Fresh(events, 1)
    ensures ThreadsOf(Stream(events)) == {"a"} + ThreadsIn(events)
  {
    hide InOrder, LogOf, ThreadsOf, Cursor, Fresh, ThreadsIn, EventsFit;
    var first, page, end := [Page([START_A], 1)], Page(events, 2), Page([], 2);
    FirstPageRead();
    OnePageMore(first, page, "j");
    OnePageMore(first + [page], end, "j");
    assert EventsFit([], 2, LogOf(first + [page]), "j") by { NoEventsFit(LogOf(first + [page])); }
    NothingInside();
    assert LogOf(first + [page]) + [] == LogOf(first + [page]);
  }

  lemma NoEventsFit(log: seq<Entry>)
    ensures EventsFit([], 2, log, "j")
  {
  }

  lemma NothingInside()
    ensures Fresh([], 2) == [] && ThreadsIn([]) == {}
  {
  }

  lemma ReplayRead()
    ensures PageFits(Page([TOOL], 2), 1, [STARTED], "j") && PageFits(Page([START_B, TOOL], 2), 1, [STARTED], "j")
    ensures Fresh([TOOL], 1) == Fresh([START_B, TOOL], 1)
    ensures ThreadsIn([TOOL]) == {} && ThreadsIn([START_B, TOOL]) == {"b"}
  {
    var plain, replayed := [TOOL], [START_B, TOOL];
    assert plain[..0] == replayed[..0] == [] && plain[..1] == plain && replayed[..1] == [START_B] && replayed[..2] == replayed;
    FreshNext(plain, 0, 1);
    FreshNext(replayed, 0, 1);
    FreshNext(replayed, 1, 1);
    ThreadsNext(plain, 0);
    ThreadsNext(replayed, 0);
    ThreadsNext(replayed, 1);
  }

  /** Carrying the same facts is not enough: a replayed turn may name another thread, and it is taken in. */
  lemma ReplayMayAddThread()
    ensures var plain, replayed := Stream([TOOL]), Stream([START_B, TOOL]);
            && Complete(plain, "j") && Complete(replayed, "j") && LogOf(plain) == LogOf(replayed)
            && ThreadsOf(plain) == {"a"} && ThreadsOf(replayed) == {"a", "b"}
  {
    hide Stream, Complete, LogOf, ThreadsOf, Fresh, ThreadsIn, PageFits;
    ReplayRead();
    StreamRead([TOOL]);
    StreamRead([START_B, TOOL]);
  }

  lemma CoherentAdd(a: Usage, b: Usage)
    requires Coherent(Some(a)) && Coherent(Some(b))
    ensures Coherent(Some(Add(a, b)))
  {
  }

  lemma {:induction false} ResponsesCoherent(snapshots: seq<Snapshot>, n: nat)
    requires n <= |snapshots|
    requires forall k :: 0 <= k < |snapshots| ==> Coherent(Some(snapshots[k].last))
    ensures Coherent(Some(Sum(Responses(snapshots[..n]))))
  {
    if n == 0 {
      assert Sum(Responses(snapshots[..0])) == NO_USAGE;
    } else {
      hide Coherent, Add, Sum, Responses;
      ResponsesCoherent(snapshots, n - 1);
      ResponsesNext(snapshots, n - 1);
      var sofar := Responses(snapshots[..n - 1]);
      SumNext(sofar, snapshots[n - 1].last);
      CoherentAdd(Sum(sofar), snapshots[n - 1].last);
      assert sofar + [] == sofar;
    }
  }

  lemma ShareCoherent(records: seq<Record>)
    ensures Coherent(Some(Share(records).usage))
  {
    hide Responses, Sum, SnapshotsOf, Coherent;
    var snapshots := SnapshotsOf(records);
    forall k | 0 <= k < |snapshots| ensures Coherent(Some(snapshots[k].last)) {
      SnapshotsCoherent(records, k);
    }
    ResponsesCoherent(snapshots, |snapshots|);
    assert snapshots[..|snapshots|] == snapshots;
  }

  lemma NothingCoherent()
    ensures Coherent(Some(Recovery([]).usage))
  {
  }

  /** Whatever the rollouts hold, the usage recovered is coherent: its total is its input plus its output. */
  lemma {:induction false} RecoveryCoherent(rollouts: seq<seq<Record>>)
    ensures Coherent(Some(Recovery(rollouts).usage))
  {
    hide Recovery, Share, Coherent, Add;
    if rollouts == [] {
      NothingCoherent();
    } else {
      var fewer, last := rollouts[..|rollouts| - 1], rollouts[|rollouts| - 1];
      RecoveryCoherent(fewer);
      ShareCoherent(last);
      RecoveryNext(rollouts);
      CoherentAdd(Recovery(fewer).usage, Share(last).usage);
    }
  }
}
