/**
 Recovering a job's usage from its rollouts: cumulative token counters, one file per thread, whose steps must
 account for every response.
 */
module ModelRollouts {
  import opened Common
  import opened ModelEvents

  /** A rollout record as far as recovery reads it; `None` is a missing or malformed part. */
  datatype Record =
    | SessionMeta(id: Option<string>)
    | TokenCount(total: Option<Usage>, last: Option<Usage>)
    | Skipped
    | Malformed

  /** A cumulative counter, and the usage of the response that brought it there. */
  datatype Snapshot = Snapshot(total: Usage, last: Usage)

  datatype Recovered = Recovered(responses: int, usage: Usage)

  const NOTHING_RECOVERED := Recovered(0, NO_USAGE)

  predicate Coherent(usage: Option<Usage>)
  {
    usage.Some? && NonNegative(usage.value) && usage.value.total == usage.value.input + usage.value.output
  }

  // ---------------------------------------------------------------------------------------------
  // One rollout: its thread and its snapshots
  // ---------------------------------------------------------------------------------------------

  predicate RecordFits(record: Record, thread: string)
  {
    match record
    case SessionMeta(id) => id == Some(thread)
    case TokenCount(total, last) => Coherent(total) && Coherent(last)
    case Skipped => true
    case Malformed => false
  }

  function SnapshotsOf(records: seq<Record>): seq<Snapshot>
  {
    if records == [] then []
    else
      var last := records[|records| - 1];
      SnapshotsOf(records[..|records| - 1])
      + if last.TokenCount? && Coherent(last.total) && Coherent(last.last)
        then [Snapshot(last.total.value, last.last.value)] else []
  }

  /** Every record fits the thread, and some record names it. */
  ghost predicate Reads(records: seq<Record>, thread: string)
  {
    && thread != ""
    && SessionMeta(Some(thread)) in records
    && forall i {:trigger RecordFits(records[i], thread)} :: 0 <= i < |records| ==> RecordFits(records[i], thread)
  }

  // ---------------------------------------------------------------------------------------------
  // Counters
  // ---------------------------------------------------------------------------------------------

  /** The counter before snapshot `i`. */
  function Before(snapshots: seq<Snapshot>, i: nat): Usage
    requires i <= |snapshots|
  {
    if i == 0 then NO_USAGE else snapshots[i - 1].total
  }

  /** Snapshot `i` either repeats the one before it, or moves the counter by exactly its own usage. */
  predicate Accounted(snapshots: seq<Snapshot>, i: nat)
    requires i < |snapshots|
  {
    if snapshots[i].total == Before(snapshots, i) then i > 0 && snapshots[i] == snapshots[i - 1]
    else snapshots[i].total == Add(Before(snapshots, i), snapshots[i].last)
  }

  ghost predicate Ledger(snapshots: seq<Snapshot>)
  {
    forall i {:trigger Accounted(snapshots, i)} :: 0 <= i < |snapshots| ==> Accounted(snapshots, i)
  }

  /** The snapshots that are not repeats: one per response. */
  function Responses(snapshots: seq<Snapshot>): seq<Usage>
  {
    if snapshots == [] then []
    else
      var n := |snapshots| - 1;
      Responses(snapshots[..n])
      + if snapshots[n].total == Before(snapshots, n) then [] else [snapshots[n].last]
  }

  function Sum(usages: seq<Usage>): Usage
  {
    if usages == [] then NO_USAGE else Add(Sum(usages[..|usages| - 1]), usages[|usages| - 1])
  }

  lemma ResponsesNext(snapshots: seq<Snapshot>, i: nat)
    requires i < |snapshots|
    ensures Responses(snapshots[..i + 1]) == Responses(snapshots[..i])
              + (if snapshots[i].total == Before(snapshots, i) then [] else [snapshots[i].last])
  {
    assert snapshots[..i + 1][..i] == snapshots[..i];
  }

  lemma SumNext(usages: seq<Usage>, usage: Usage)
    ensures Sum(usages + [usage]) == Add(Sum(usages), usage)
  {
    assert (usages + [usage])[..|usages|] == usages;
  }

  /** Repeated snapshots add nothing: the counter reached is the sum over the responses, each counted once. */
  lemma {:induction false} CounterIsSumOfResponses(snapshots: seq<Snapshot>, n: nat)
    requires Ledger(snapshots) && n <= |snapshots|
    ensures Before(snapshots, n) == Sum(Responses(snapshots[..n]))
  {
    if n == 0 {
      assert snapshots[..0] == [];
    } else {
      CounterIsSumOfResponses(snapshots, n - 1);
      ResponsesNext(snapshots, n - 1);
      assert Accounted(snapshots, n - 1);
      assert Responses(snapshots[..n - 1]) + [] == Responses(snapshots[..n - 1]);
      SumNext(Responses(snapshots[..n - 1]), snapshots[n - 1].last);
    }
  }

  /** A snapshot written twice in a row counts once. */
  lemma RepeatsAddNothing(snapshots: seq<Snapshot>)
    requires snapshots != []
    ensures Responses(snapshots + [snapshots[|snapshots| - 1]]) == Responses(snapshots)
  {
    assert (snapshots + [snapshots[|snapshots| - 1]])[..|snapshots|] == snapshots;
  }

  // ---------------------------------------------------------------------------------------------
  // All rollouts
  // ---------------------------------------------------------------------------------------------

  /** A rollout is usable: it reads as one thread, and its counter accounts for every step. */
  ghost predicate Usable(records: seq<Record>)
  {
    && (exists thread :: Reads(records, thread))
    && SnapshotsOf(records) != [] && Ledger(SnapshotsOf(records))
  }

  ghost function ThreadOf(records: seq<Record>): (thread: string)
    ensures Usable(records) ==> Reads(records, thread)
  {
    if t :| Reads(records, t) then t else ""
  }

  /** The responses of all rollouts, rollout by rollout. */
  function AllResponses(rollouts: seq<seq<Record>>): seq<Usage>
  {
    if rollouts == [] then []
    else AllResponses(rollouts[..|rollouts| - 1]) + Responses(SnapshotsOf(rollouts[|rollouts| - 1]))
  }

  ghost function Threads(rollouts: seq<seq<Record>>): multiset<string>
  {
    if rollouts == [] then multiset{}
    else Threads(rollouts[..|rollouts| - 1]) + multiset{ThreadOf(rollouts[|rollouts| - 1])}
  }

  ghost predicate AllUsable(rollouts: seq<seq<Record>>)
  {
    forall r :: r in rollouts ==> Usable(r)
  }

  /** What recovery demands: every rollout usable, and each expected thread in exactly one of them. */
  ghost predicate Covers(rollouts: seq<seq<Record>>, expected: set<string>)
  {
    expected != {} && AllUsable(rollouts) && Threads(rollouts) == multiset(expected)
  }

  /** What recovery reports. */
  function Recovery(rollouts: seq<seq<Record>>): Recovered
  {
    Recovered(|AllResponses(rollouts)|, Sum(AllResponses(rollouts)))
  }

  function Plus(a: Recovered, b: Recovered): Recovered
  {
    Recovered(a.responses + b.responses, Add(a.usage, b.usage))
  }

  /** What one rollout contributes. */
  function Share(records: seq<Record>): Recovered
  {
    Recovered(|Responses(SnapshotsOf(records))|, Sum(Responses(SnapshotsOf(records))))
  }

  lemma RecoveryNext(rollouts: seq<seq<Record>>)
    requires rollouts != []
    ensures Recovery(rollouts) == Plus(Recovery(rollouts[..|rollouts| - 1]), Share(rollouts[|rollouts| - 1]))
  {
    hide Sum, SnapshotsOf, Responses;
    SumConcat(AllResponses(rollouts[..|rollouts| - 1]), Responses(SnapshotsOf(rollouts[|rollouts| - 1])));
  }

  lemma OneThread(records: seq<Record>, s: string, t: string)
    requires Reads(records, s) && Reads(records, t)
    ensures s == t
  {
    var i :| 0 <= i < |records| && records[i] == SessionMeta(Some(s));
    assert RecordFits(records[i], t);
  }

  lemma AddLaws(a: Usage, b: Usage, c: Usage)
    ensures Add(Add(a, b), c) == Add(a, Add(b, c)) && Add(a, NO_USAGE) == a && Add(a, b) == Add(b, a)
  {
  }

  lemma PlusSwap(a: Recovered, b: Recovered, c: Recovered)
    ensures Plus(Plus(a, b), c) == Plus(Plus(a, c), b)
  {
  }

  lemma {:induction false} SumConcat(a: seq<Usage>, b: seq<Usage>)
    ensures Sum(a + b) == Add(Sum(a), Sum(b))
  {
    hide Add;
    AddLaws(Sum(a), NO_USAGE, NO_USAGE);
    if b == [] {
      assert a + b == a;
    } else {
      SumConcat(a, b[..|b| - 1]);
      assert (a + b)[..|a + b| - 1] == a + b[..|b| - 1];
      AddLaws(Sum(a), Sum(b[..|b| - 1]), b[|b| - 1]);
    }
  }

  // ---------------------------------------------------------------------------------------------
  // The order of the rollouts is irrelevant
  // ---------------------------------------------------------------------------------------------

  lemma {:induction false} SetAside(rollouts: seq<seq<Record>>, j: nat)
    requires j < |rollouts|
    ensures Recovery(rollouts) == Plus(Recovery(Without(rollouts, j)), Share(rollouts[j]))
    ensures Threads(rollouts) == Threads(Without(rollouts, j)) + multiset{ThreadOf(rollouts[j])}
    decreases |rollouts|
  {
    hide Recovery, Plus, Share, ThreadOf, Without;
    var n := |rollouts| - 1;
    RecoveryNext(rollouts);
    WithoutShape(rollouts, j);
    if j < n {
      SetAside(rollouts[..n], j);
      RecoveryNext(Without(rollouts, j));
      PlusSwap(Recovery(Without(rollouts[..n], j)), Share(rollouts[j]), Share(rollouts[n]));
    }
  }

  lemma {:induction false} Permuted(a: seq<seq<Record>>, b: seq<seq<Record>>)
    requires multiset(a) == multiset(b)
    ensures Recovery(a) == Recovery(b) && Threads(a) == Threads(b)
    decreases |a|
  {
    hide Recovery, Plus, Share, ThreadOf, Without;
    if a == [] {
      assert multiset(b) == multiset{} && b == [];
    } else {
      var j := SetAsideLast(a, b);
      Permuted(a[..|a| - 1], Without(b, j));
      SetAside(b, j);
      RecoveryNext(a);
    }
  }

  /** Reordering the rollouts changes neither whether they are accepted nor what is recovered. */
  lemma OrderIrrelevant(a: seq<seq<Record>>, b: seq<seq<Record>>, expected: set<string>)
    requires multiset(a) == multiset(b)
    ensures Covers(a, expected) <==> Covers(b, expected)
    ensures Recovery(a) == Recovery(b)
  {
    hide Recovery, Threads, Usable;
    Permuted(a, b);
    forall r ensures r in a <==> r in b {
      assert r in a <==> r in multiset(a);
      assert r in b <==> r in multiset(b);
    }
  }

  // ---------------------------------------------------------------------------------------------
  // What is recovered, said of the records themselves
  // ---------------------------------------------------------------------------------------------

  /** The counter the records end on. */
  function Final(records: seq<Record>): Usage
  {
    if records == [] then Usage(0, 0, 0, 0, 0, 0)
    else
      var last := records[|records| - 1];
      if last.TokenCount? && last.total.Some? then last.total.value else Final(records[..|records| - 1])
  }

  /** Record `i` moves the counter. */
  predicate MovesAt(records: seq<Record>, i: nat)
    requires i < |records|
  {
    records[i].TokenCount? && records[i].total.Some? && records[i].total.value != Final(records[..i])
  }

  /** How many records move the counter. */
  ghost function Moves(records: seq<Record>): int
  {
    |set i | 0 <= i < |records| && MovesAt(records, i)|
  }

  function SumOver(rollouts: seq<seq<Record>>, part: seq<Record> -> int): int
  {
    if rollouts == [] then 0
    else SumOver(rollouts[..|rollouts| - 1], part) + part(rollouts[|rollouts| - 1])
  }

  /** The moves of all rollouts, and the counters they end on, added up field by field. */
  ghost predicate RecoveredFrom(responses: int, usage: Usage, rollouts: seq<seq<Record>>)
  {
    && responses == SumOver(rollouts, r => Moves(r))
    && usage.total == SumOver(rollouts, r => Final(r).total) && usage.input == SumOver(rollouts, r => Final(r).input)
    && usage.cached == SumOver(rollouts, r => Final(r).cached)
    && usage.cacheWrite == SumOver(rollouts, r => Final(r).cacheWrite)
    && usage.output == SumOver(rollouts, r => Final(r).output)
    && usage.reasoning == SumOver(rollouts, r => Final(r).reasoning)
  }

  ghost predicate AllFit(records: seq<Record>, thread: string)
  {
    forall i {:trigger RecordFits(records[i], thread)} :: 0 <= i < |records| ==> RecordFits(records[i], thread)
  }

  lemma FewerFit(records: seq<Record>, thread: string)
    requires AllFit(records, thread) && records != []
    ensures AllFit(records[..|records| - 1], thread) && RecordFits(records[|records| - 1], thread)
  {
    hide RecordFits;
    var fewer := records[..|records| - 1];
    forall i | 0 <= i < |fewer| ensures RecordFits(fewer[i], thread) {
      assert fewer[i] == records[i];
    }
  }

  lemma {:induction false} FinalIs(records: seq<Record>, thread: string)
    requires AllFit(records, thread)
    ensures Before(SnapshotsOf(records), |SnapshotsOf(records)|) == Final(records)
  {
    if records != [] {
      FewerFit(records, thread);
      FinalIs(records[..|records| - 1], thread);
    }
  }

  lemma MovesNext(records: seq<Record>)
    requires records != []
    ensures var n := |records| - 1;
            Moves(records) == Moves(records[..n]) + if MovesAt(records, n) then 1 else 0
  {
    hide Final;
    var n := |records| - 1;
    var fewer := records[..n];
    var some := set i | 0 <= i < n && MovesAt(fewer, i);
    var all := set i | 0 <= i < |records| && MovesAt(records, i);
    forall i | 0 <= i < n ensures MovesAt(fewer, i) <==> MovesAt(records, i) {
      assert fewer[..i] == records[..i];
    }
    assert all == if MovesAt(records, n) then some + {n} else some;
  }

  lemma {:induction false} MovesIs(records: seq<Record>, thread: string)
    requires AllFit(records, thread)
    ensures |Responses(SnapshotsOf(records))| == Moves(records)
  {
    if records != [] {
      var n := |records| - 1;
      var fewer := records[..n];
      FewerFit(records, thread);
      MovesIs(fewer, thread);
      FinalIs(fewer, thread);
      MovesNext(records);
      OneResponseMore(records, thread);
    }
  }

  lemma OneResponseMore(records: seq<Record>, thread: string)
    requires AllFit(records, thread) && records != []
    ensures var n := |records| - 1;
            |Responses(SnapshotsOf(records))|
              == |Responses(SnapshotsOf(records[..n]))|
                 + if records[n].TokenCount? && records[n].total.Some?
                      && records[n].total.value != Before(SnapshotsOf(records[..n]), |SnapshotsOf(records[..n])|)
                   then 1 else 0
  {
    var n := |records| - 1;
    FewerFit(records, thread);
    var before := SnapshotsOf(records[..n]);
    if records[n].TokenCount? {
      var snapshot := Snapshot(records[n].total.value, records[n].last.value);
      var all := before + [snapshot];
      assert SnapshotsOf(records) == all;
      assert all[..|before|] == before && Before(all, |before|) == Before(before, |before|);
    } else {
      assert SnapshotsOf(records) == before + [] == before;
    }
  }

  /** What recovery reports is what the records' counters say. */
  lemma {:induction false} RecoveryMeans(rollouts: seq<seq<Record>>)
    requires AllUsable(rollouts)
    ensures RecoveredFrom(Recovery(rollouts).responses, Recovery(rollouts).usage, rollouts)
  {
    hide Recovery, Share, Moves, Final, Usable;
    if rollouts == [] {
      NothingRecovered();
    } else {
      var n := |rollouts| - 1;
      assert forall r :: r in rollouts[..n] ==> r in rollouts;
      RecoveryMeans(rollouts[..n]);
      RecoveryNext(rollouts);
      ShareMeans(rollouts[n]);
    }
  }

  lemma NothingRecovered()
    ensures Recovery([]) == Recovered(0, Usage(0, 0, 0, 0, 0, 0))
  {
  }

  lemma ShareMeans(records: seq<Record>)
    requires Usable(records)
    ensures Share(records) == Recovered(Moves(records), Final(records))
  {
    hide Final, Moves, Responses, Sum, SnapshotsOf;
    var thread :| Reads(records, thread);
    var snapshots := SnapshotsOf(records);
    CounterIsSumOfResponses(snapshots, |snapshots|);
    assert snapshots[..|snapshots|] == snapshots;
    FinalIs(records, thread);
    MovesIs(records, thread);
  }
}
