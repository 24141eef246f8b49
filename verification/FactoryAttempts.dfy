/**
 Factory evidence: four operations in their fixed order, the attempts that were made at each, and the
 checkpoints that close the stages.
 */
module FactoryAttempts {
  import opened Common

  datatype Kind = Plan | Execute | Review | Remediate

  /** The kinds in the order a job goes through them. */
  const STAGES := [Plan, Execute, Review, Remediate]

  datatype Operation = Operation(id: string, kind: Kind, succeeded: bool)

  datatype AttemptState = Running | Succeeded | Failed | Abandoned | UnknownState

  datatype Attempt = Attempt(id: string, operation: string, number: int, state: AttemptState)

  /** Where a job works: the root of its workspace and the revision it starts from. */
  datatype Site = Site(root: string, revision: string)

  /** A record's own fields, then those of the checkpoint in it; `created` is its timestamp, if it can be read. */
  datatype Checkpoint = Checkpoint(operation: string, ordinal: int, kind: Kind, id: string, attempt: string,
                                   sequence: int, ofStage: bool, payloadKind: Kind, completed: bool, site: Site,
                                   created: Option<int>)

  datatype Counts = Counts(operations: int, completed: int, checkpoints: int, attempts: int, retries: int)

  // ---------------------------------------------------------------------------------------------
  // What evidence is accepted
  // ---------------------------------------------------------------------------------------------

  ghost predicate OperationsFit(operations: seq<Operation>)
  {
    && |operations| == |STAGES|
    && (forall k :: 0 <= k < |operations| ==>
          operations[k].id != "" && operations[k].kind == STAGES[k] && operations[k].succeeded)
    && (forall j, k :: 0 <= j < k < |operations| ==> operations[j].id != operations[k].id)
  }

  predicate AttemptFits(attempt: Attempt, ids: set<string>)
  {
    attempt.id != "" && attempt.operation in ids && attempt.number >= 1 && !attempt.state.UnknownState?
  }

  predicate SameKey(a: Attempt, b: Attempt)
  {
    a.operation == b.operation && a.number == b.number
  }

  /** No two attempts at an operation have the same number. */
  ghost predicate DistinctNumbers(attempts: seq<Attempt>)
  {
    forall i, j :: 0 <= i < j < |attempts| ==> !SameKey(attempts[i], attempts[j])
  }

  /** The attempts at an operation, in the order listed. */
  function AttemptsAt(attempts: seq<Attempt>, operation: string): seq<Attempt>
  {
    if attempts == [] then []
    else
      var last := attempts[|attempts| - 1];
      AttemptsAt(attempts[..|attempts| - 1], operation) + if last.operation == operation then [last] else []
  }

  predicate LinkFits(attempt: Attempt, n: int)
  {
    && 1 <= attempt.number <= n
    && if attempt.number == n then attempt.state.Succeeded? else attempt.state.Failed? || attempt.state.Abandoned?
  }

  /** Numbered 1 to `n`, and only the last succeeded. */
  ghost predicate Chain(attempts: seq<Attempt>, n: nat)
  {
    && n >= 1
    && (forall i :: 0 <= i < |attempts| ==> LinkFits(attempts[i], n))
    && forall m {:trigger HasNumber(attempts, m)} :: 1 <= m <= n ==> HasNumber(attempts, m)
  }

  ghost predicate HasNumber(attempts: seq<Attempt>, m: int)
  {
    exists i :: 0 <= i < |attempts| && attempts[i].number == m
  }

  // ---------------------------------------------------------------------------------------------
  // Sorting by number
  // ---------------------------------------------------------------------------------------------

  function Insert(attempt: Attempt, sorted: seq<Attempt>): seq<Attempt>
  {
    if sorted == [] || sorted[|sorted| - 1].number <= attempt.number then sorted + [attempt]
    else Insert(attempt, sorted[..|sorted| - 1]) + [sorted[|sorted| - 1]]
  }

  /** The attempts in order of their numbers. */
  function Sorted(attempts: seq<Attempt>): seq<Attempt>
  {
    if attempts == [] then [] else Insert(attempts[|attempts| - 1], Sorted(attempts[..|attempts| - 1]))
  }

  ghost predicate Ascending(attempts: seq<Attempt>)
  {
    forall i :: 0 < i < |attempts| ==> attempts[i - 1].number <= attempts[i].number
  }

  lemma {:induction false} InsertPermutes(attempt: Attempt, sorted: seq<Attempt>)
    ensures multiset(Insert(attempt, sorted)) == multiset(sorted) + multiset{attempt}
    decreases |sorted|
  {
    if sorted != [] && sorted[|sorted| - 1].number > attempt.number {
      var fewer, last := sorted[..|sorted| - 1], sorted[|sorted| - 1];
      InsertPermutes(attempt, fewer);
      assert sorted == fewer + [last];
    }
  }

  lemma {:induction false} InsertAscends(attempt: Attempt, sorted: seq<Attempt>)
    requires Ascending(sorted)
    ensures var all := Insert(attempt, sorted);
            && Ascending(all) && all != []
            && all[|all| - 1].number
               == if sorted == [] || sorted[|sorted| - 1].number <= attempt.number then attempt.number
                  else sorted[|sorted| - 1].number
    decreases |sorted|
  {
    if sorted != [] && sorted[|sorted| - 1].number > attempt.number {
      InsertAscends(attempt, sorted[..|sorted| - 1]);
    }
  }

  lemma {:induction false} SortedPermutes(attempts: seq<Attempt>)
    ensures multiset(Sorted(attempts)) == multiset(attempts)
  {
    hide Insert;
    if attempts != [] {
      var fewer := attempts[..|attempts| - 1];
      SortedPermutes(fewer);
      InsertPermutes(attempts[|attempts| - 1], Sorted(fewer));
      assert attempts == fewer + [attempts[|attempts| - 1]];
    }
  }

  lemma {:induction false} SortedAscends(attempts: seq<Attempt>)
    ensures Ascending(Sorted(attempts))
  {
    if attempts != [] {
      hide Insert, Ascending;
      SortedAscends(attempts[..|attempts| - 1]);
      InsertAscends(attempts[|attempts| - 1], Sorted(attempts[..|attempts| - 1]));
    }
  }

  // ---------------------------------------------------------------------------------------------
  // One operation
  // ---------------------------------------------------------------------------------------------

  /** The collector's test on an operation's attempts, once sorted. */
  predicate InSequence(sorted: seq<Attempt>)
  {
    && sorted != []
    && (forall i :: 0 <= i < |sorted| ==> sorted[i].number == i + 1)
    && sorted[|sorted| - 1].state.Succeeded?
    && forall i :: 0 <= i < |sorted| - 1 ==> sorted[i].state.Failed? || sorted[i].state.Abandoned?
  }

  ghost predicate Increasing(attempts: seq<Attempt>)
  {
    forall i :: 0 < i < |attempts| ==> attempts[i - 1].number < attempts[i].number
  }

  lemma {:induction false} AtLeast(sorted: seq<Attempt>, i: nat)
    requires Increasing(sorted) && i < |sorted| && sorted[0].number >= 1
    ensures sorted[i].number >= i + 1
  {
    if i > 0 {
      AtLeast(sorted, i - 1);
    }
  }

  lemma {:induction false} Exactly(sorted: seq<Attempt>, n: nat, i: nat)
    requires Increasing(sorted) && i < |sorted| && sorted[0].number >= 1 && i < n
    requires forall m {:trigger HasNumber(sorted, m)} :: 1 <= m <= n ==> HasNumber(sorted, m)
    ensures sorted[i].number == i + 1
  {
    assert HasNumber(sorted, i + 1);
    var k :| 0 <= k < |sorted| && sorted[k].number == i + 1;
    AtLeast(sorted, k);
    if k < i {
      Exactly(sorted, n, k);
    }
  }

  /** Increasing numbers that are the numbers 1 to `n` are in their places. */
  lemma InTheirPlaces(sorted: seq<Attempt>, n: nat)
    requires Increasing(sorted) && sorted != [] && sorted[0].number >= 1 && sorted[|sorted| - 1].number <= n
    requires forall m {:trigger HasNumber(sorted, m)} :: 1 <= m <= n ==> HasNumber(sorted, m)
    ensures |sorted| == n && forall i :: 0 <= i < n ==> sorted[i].number == i + 1
  {
    AtLeast(sorted, |sorted| - 1);
    forall i | 0 <= i < |sorted| ensures sorted[i].number == i + 1 {
      Exactly(sorted, n, i);
    }
    assert HasNumber(sorted, n);
  }

  lemma SameNumbers(a: seq<Attempt>, b: seq<Attempt>, n: nat)
    requires multiset(a) == multiset(b)
    ensures Chain(a, n) ==> Chain(b, n)
  {
    hide LinkFits;
    forall i | 0 <= i < |b| ensures b[i] in a {
      assert b[i] in multiset(b);
    }
    forall m | HasNumber(a, m) ensures HasNumber(b, m) {
      var i :| 0 <= i < |a| && a[i].number == m;
      assert a[i] in multiset(b);
    }
  }

  lemma SequenceIsChain(sorted: seq<Attempt>)
    requires InSequence(sorted)
    ensures Chain(sorted, |sorted|)
  {
    forall m | 1 <= m <= |sorted| ensures HasNumber(sorted, m) {
      assert sorted[m - 1].number == m;
    }
  }

  lemma ChainIsSequence(sorted: seq<Attempt>, n: nat)
    requires Increasing(sorted) && Chain(sorted, n)
    ensures InSequence(sorted) && |sorted| == n
  {
    assert HasNumber(sorted, n);
    InTheirPlaces(sorted, n);
  }

  // ---------------------------------------------------------------------------------------------
  // Grouping by operation
  // ---------------------------------------------------------------------------------------------

  lemma {:induction false} AtCounts(attempts: seq<Attempt>, operation: string, a: Attempt)
    ensures multiset(AttemptsAt(attempts, operation))[a] == if a.operation == operation then multiset(attempts)[a] else 0
  {
    if attempts != [] {
      var fewer, last := attempts[..|attempts| - 1], attempts[|attempts| - 1];
      AtCounts(fewer, operation, a);
      assert attempts == fewer + [last];
    }
  }

  lemma AtMembers(attempts: seq<Attempt>, operation: string, a: Attempt)
    ensures a in AttemptsAt(attempts, operation) <==> a in attempts && a.operation == operation
  {
    hide AttemptsAt;
    AtCounts(attempts, operation, a);
    assert a in attempts <==> a in multiset(attempts);
    assert a in AttemptsAt(attempts, operation) <==> a in multiset(AttemptsAt(attempts, operation));
  }

  lemma AtPermuted(a: seq<Attempt>, b: seq<Attempt>, operation: string)
    requires multiset(a) == multiset(b)
    ensures multiset(AttemptsAt(a, operation)) == multiset(AttemptsAt(b, operation))
  {
    hide AttemptsAt;
    forall x ensures multiset(AttemptsAt(a, operation))[x] == multiset(AttemptsAt(b, operation))[x] {
      AtCounts(a, operation, x);
      AtCounts(b, operation, x);
    }
  }

  lemma DistinctNext(attempts: seq<Attempt>, attempt: Attempt)
    ensures DistinctNumbers(attempts + [attempt])
       <==> DistinctNumbers(attempts) && forall a :: a in attempts ==> !SameKey(a, attempt)
  {
    hide DistinctNumbers, SameKey;
    var all, n := attempts + [attempt], |attempts|;
    assert Without(all, n) == attempts;
    DistinctWithout(all, n);
  }

  lemma {:induction false} DistinctAt(attempts: seq<Attempt>, operation: string)
    requires DistinctNumbers(attempts)
    ensures DistinctNumbers(AttemptsAt(attempts, operation))
  {
    if attempts != [] {
      var fewer, last := attempts[..|attempts| - 1], attempts[|attempts| - 1];
      assert attempts == fewer + [last];
      DistinctNext(fewer, last);
      hide DistinctNumbers, SameKey;
      DistinctAt(fewer, operation);
      forall a | a in AttemptsAt(fewer, operation) ensures !SameKey(a, last) {
        AtMembers(fewer, operation, a);
      }
      DistinctNext(AttemptsAt(fewer, operation), last);
    }
  }

  /** Where the other elements of a sequence are found without one of them, and back. */
  lemma WithoutAt(attempts: seq<Attempt>, j: nat, i: nat)
    requires j < |attempts|
    ensures i < j ==> Without(attempts, j)[i] == attempts[i]
    ensures j < i < |attempts| ==> Without(attempts, j)[i - 1] == attempts[i]
  {
  }

  lemma FewerDistinct(attempts: seq<Attempt>, j: nat)
    requires j < |attempts| && DistinctNumbers(attempts)
    ensures DistinctNumbers(Without(attempts, j))
    ensures forall a :: a in Without(attempts, j) ==> !SameKey(a, attempts[j])
  {
    hide SameKey;
    var rest := Without(attempts, j);
    forall i, k | 0 <= i < k < |rest| ensures !SameKey(rest[i], rest[k]) {
      WithoutAt(attempts, j, if i < j then i else i + 1);
      WithoutAt(attempts, j, if k < j then k else k + 1);
    }
    forall a | a in rest ensures !SameKey(a, attempts[j]) {
      var i :| 0 <= i < |rest| && rest[i] == a;
      WithoutAt(attempts, j, if i < j then i else i + 1);
      KeyIsMutual(a, attempts[j]);
    }
  }

  lemma DistinctAgain(attempts: seq<Attempt>, j: nat)
    requires j < |attempts| && DistinctNumbers(Without(attempts, j))
    requires forall a :: a in Without(attempts, j) ==> !SameKey(a, attempts[j])
    ensures DistinctNumbers(attempts)
  {
    hide SameKey;
    forall i, k | 0 <= i < k < |attempts| ensures !SameKey(attempts[i], attempts[k]) {
      WithoutAt(attempts, j, i);
      WithoutAt(attempts, j, k);
      KeyIsMutual(attempts[i], attempts[k]);
    }
  }

  lemma DistinctWithout(attempts: seq<Attempt>, j: nat)
    requires j < |attempts|
    ensures DistinctNumbers(attempts)
       <==> DistinctNumbers(Without(attempts, j)) && forall a :: a in Without(attempts, j) ==> !SameKey(a, attempts[j])
  {
    hide DistinctNumbers, SameKey, Without;
    if DistinctNumbers(attempts) {
      FewerDistinct(attempts, j);
    } else if DistinctNumbers(Without(attempts, j)) && forall a :: a in Without(attempts, j) ==> !SameKey(a, attempts[j]) {
      DistinctAgain(attempts, j);
    }
  }

  lemma KeyIsMutual(a: Attempt, b: Attempt)
    ensures SameKey(a, b) <==> SameKey(b, a)
  {
  }

  lemma {:induction false} DistinctPermuted(a: seq<Attempt>, b: seq<Attempt>)
    requires multiset(a) == multiset(b) && DistinctNumbers(a)
    ensures DistinctNumbers(b)
    decreases |a|
  {
    if a == [] {
      assert multiset(b) == multiset{} && b == [];
    } else {
      var fewer, last := a[..|a| - 1], a[|a| - 1];
      assert a == fewer + [last];
      DistinctNext(fewer, last);
      hide DistinctNumbers, SameKey, Without;
      var j := SetAsideLast(a, b);
      DistinctPermuted(fewer, Without(b, j));
      forall x | x in Without(b, j) ensures !SameKey(x, last) {
        assert x in multiset(Without(b, j));
        assert x in multiset(fewer);
      }
      DistinctWithout(b, j);
    }
  }

  /** Sorted, the attempts at an operation have increasing numbers. */
  lemma SortedIncreases(attempts: seq<Attempt>, operation: string)
    requires DistinctNumbers(attempts)
    ensures Increasing(Sorted(AttemptsAt(attempts, operation)))
  {
    hide Sorted, AttemptsAt;
    var group := AttemptsAt(attempts, operation);
    var sorted := Sorted(group);
    DistinctAt(attempts, operation);
    SortedPermutes(group);
    SortedAscends(group);
    DistinctPermuted(group, sorted);
    forall i | 0 <= i < |sorted| ensures sorted[i].operation == operation {
      assert sorted[i] in multiset(sorted);
      AtMembers(attempts, operation, sorted[i]);
    }
  }

  /** The collector's test on the sorted attempts is that they form a chain. */
  lemma TestIsChain(attempts: seq<Attempt>, operation: string)
    requires DistinctNumbers(attempts)
    ensures var group := AttemptsAt(attempts, operation);
            InSequence(Sorted(group)) <==> Chain(group, |group|)
    ensures forall n :: Chain(AttemptsAt(attempts, operation), n) ==> n == |AttemptsAt(attempts, operation)|
  {
    hide Sorted, AttemptsAt, InSequence, Chain, Increasing;
    var group := AttemptsAt(attempts, operation);
    var sorted := Sorted(group);
    SortedIncreases(attempts, operation);
    SortedPermutes(group);
    assert |multiset(sorted)| == |sorted| && |multiset(group)| == |group|;
    forall n: nat ensures Chain(group, n) ==> n == |group| && InSequence(sorted) {
      SameNumbers(group, sorted, n);
      if Chain(sorted, n) {
        ChainIsSequence(sorted, n);
      }
    }
    if InSequence(sorted) {
      SequenceIsChain(sorted);
      SameNumbers(sorted, group, |sorted|);
    }
  }

  // ---------------------------------------------------------------------------------------------
  // The whole evidence
  // ---------------------------------------------------------------------------------------------

  function IdsOf(operations: seq<Operation>): set<string>
  {
    set k | 0 <= k < |operations| :: operations[k].id
  }

  ghost predicate AttemptsFit(attempts: seq<Attempt>, ids: set<string>)
  {
    (forall a :: a in attempts ==> AttemptFits(a, ids)) && DistinctNumbers(attempts)
  }

  /** The attempts at the operation are numbered 1 to some `n`, and only the last succeeded. */
  ghost predicate Succeeds(attempts: seq<Attempt>, operation: string)
  {
    exists n: nat :: Chain(AttemptsAt(attempts, operation), n)
  }

  ghost predicate AllSucceed(operations: seq<Operation>, attempts: seq<Attempt>)
  {
    forall k {:trigger operations[k]} :: 0 <= k < |operations| ==> Succeeds(attempts, operations[k].id)
  }

  /** The name of the attempt at the operation that succeeded. */
  ghost predicate NamesSuccess(attempts: seq<Attempt>, operation: string, id: string)
  {
    exists a :: a in attempts && a.operation == operation && a.state.Succeeded? && a.id == id
  }

  /** The checkpoint closes stage `k` of a job that works at this site. */
  predicate Closes(checkpoint: Checkpoint, k: nat, site: Site)
    requires k < |STAGES|
  {
    && checkpoint.sequence >= 1 && checkpoint.ofStage && checkpoint.payloadKind == STAGES[k] && checkpoint.completed
    && checkpoint.site == site && checkpoint.created.Some?
  }

  ghost predicate CheckpointFits(checkpoint: Checkpoint, k: nat, operation: string, attempts: seq<Attempt>, site: Site)
    requires k < |STAGES|
  {
    && checkpoint.operation == operation && checkpoint.ordinal == k && checkpoint.kind == STAGES[k]
    && checkpoint.id != "" && Closes(checkpoint, k, site)
    && NamesSuccess(attempts, operation, checkpoint.attempt)
  }

  ghost predicate CheckpointsFit(operations: seq<Operation>, attempts: seq<Attempt>, checkpoints: seq<Checkpoint>, site: Site)
    requires |operations| == |STAGES|
  {
    && |checkpoints| == |STAGES|
    && forall k {:trigger checkpoints[k]} :: 0 <= k < |checkpoints| ==>
         CheckpointFits(checkpoints[k], k, operations[k].id, attempts, site)
  }

  ghost predicate Accepted(operations: seq<Operation>, attempts: seq<Attempt>, checkpoints: seq<Checkpoint>, site: Site)
  {
    && OperationsFit(operations)
    && AttemptsFit(attempts, IdsOf(operations))
    && AllSucceed(operations, attempts)
    && CheckpointsFit(operations, attempts, checkpoints, site)
  }

  // ---------------------------------------------------------------------------------------------
  // The same, said of the records themselves
  // ---------------------------------------------------------------------------------------------

  ghost predicate HasAttempt(attempts: seq<Attempt>, operation: string, number: int)
  {
    exists a :: a in attempts && a.operation == operation && a.number == number
  }

  /** The attempts at the operation are numbered exactly 1 to `n`; attempt `n` succeeded, the others did not. */
  ghost predicate NumberedTo(attempts: seq<Attempt>, operation: string, n: int)
  {
    && n >= 1
    && (forall a :: a in attempts && a.operation == operation ==>
          && 1 <= a.number <= n
          && (a.number == n ==> a.state == Succeeded)
          && (a.number < n ==> a.state == Failed || a.state == Abandoned))
    && (forall m {:trigger HasAttempt(attempts, operation, m)} :: 1 <= m <= n ==> HasAttempt(attempts, operation, m))
  }

  ghost predicate AttemptIs(a: Attempt, operations: seq<Operation>)
  {
    && a.id != "" && a.number >= 1 && a.state != UnknownState
    && exists k :: 0 <= k < |operations| && operations[k].id == a.operation
  }

  /** The checkpoint closes the operation, in the job's workspace, and names the attempt that succeeded. */
  ghost predicate CheckpointIs(checkpoint: Checkpoint, k: int, operation: Operation, attempts: seq<Attempt>, site: Site)
  {
    && checkpoint.operation == operation.id && checkpoint.ordinal == k && checkpoint.kind == operation.kind
    && checkpoint.id != "" && checkpoint.sequence >= 1 && checkpoint.ofStage && checkpoint.completed
    && checkpoint.payloadKind == operation.kind && checkpoint.site == site && checkpoint.created != None
    && exists a :: a in attempts && a.operation == operation.id && a.state == Succeeded && a.id == checkpoint.attempt
  }

  ghost predicate Evidence(operations: seq<Operation>, attempts: seq<Attempt>, checkpoints: seq<Checkpoint>, site: Site)
  {
    && |operations| == 4 && |checkpoints| == 4
    && operations[0].kind == Plan && operations[1].kind == Execute
    && operations[2].kind == Review && operations[3].kind == Remediate
    && (forall k :: 0 <= k < 4 ==> operations[k].id != "" && operations[k].succeeded)
    && (forall j, k :: 0 <= j < k < 4 ==> operations[j].id != operations[k].id)
    && (forall a :: a in attempts ==> AttemptIs(a, operations))
    && (forall i, j :: 0 <= i < j < |attempts| ==>
          attempts[i].operation != attempts[j].operation || attempts[i].number != attempts[j].number)
    && (forall k {:trigger operations[k]} :: 0 <= k < 4 ==> exists n :: NumberedTo(attempts, operations[k].id, n))
    && (forall k {:trigger checkpoints[k]} :: 0 <= k < 4 ==>
          CheckpointIs(checkpoints[k], k, operations[k], attempts, site))
  }

  lemma ChainMeans(attempts: seq<Attempt>, operation: string, n: nat)
    ensures Chain(AttemptsAt(attempts, operation), n) <==> NumberedTo(attempts, operation, n)
  {
    hide AttemptsAt;
    var group := AttemptsAt(attempts, operation);
    forall a ensures a in group <==> a in attempts && a.operation == operation {
      AtMembers(attempts, operation, a);
    }
    forall m ensures HasNumber(group, m) <==> HasAttempt(attempts, operation, m) {
      if HasNumber(group, m) {
        var i :| 0 <= i < |group| && group[i].number == m;
        assert group[i] in group;
      }
      if HasAttempt(attempts, operation, m) {
        var a :| a in attempts && a.operation == operation && a.number == m;
        assert a in group;
      }
    }
    if Chain(group, n) {
      forall a | a in group ensures LinkFits(a, n) {
        var i :| 0 <= i < |group| && group[i] == a;
      }
    }
    if NumberedTo(attempts, operation, n) {
      forall i | 0 <= i < |group| ensures LinkFits(group[i], n) {
        assert group[i] in group;
      }
    }
  }

  lemma SucceedsMeans(attempts: seq<Attempt>, operation: string)
    ensures Succeeds(attempts, operation) <==> exists n :: NumberedTo(attempts, operation, n)
  {
    hide AttemptsAt, Chain;
    if n: nat :| Chain(AttemptsAt(attempts, operation), n) {
      ChainMeans(attempts, operation, n);
    }
    if n :| NumberedTo(attempts, operation, n) {
      ChainMeans(attempts, operation, n);
    }
  }

  lemma StagesAre()
    ensures STAGES == [Plan, Execute, Review, Remediate]
  {
  }

  lemma CheckpointMeans(checkpoint: Checkpoint, k: nat, operation: Operation, attempts: seq<Attempt>, site: Site)
    requires k < |STAGES| && operation.kind == STAGES[k]
    ensures CheckpointFits(checkpoint, k, operation.id, attempts, site)
       <==> CheckpointIs(checkpoint, k, operation, attempts, site)
  {
  }

  lemma AttemptsMean(attempts: seq<Attempt>, operations: seq<Operation>)
    ensures AttemptsFit(attempts, IdsOf(operations)) <==>
              && (forall a :: a in attempts ==> AttemptIs(a, operations))
              && (forall i, j :: 0 <= i < j < |attempts| ==>
                    attempts[i].operation != attempts[j].operation || attempts[i].number != attempts[j].number)
  {
    forall a ensures AttemptFits(a, IdsOf(operations)) <==> AttemptIs(a, operations) {
    }
    assert DistinctNumbers(attempts) <==> forall i, j :: 0 <= i < j < |attempts| ==>
      attempts[i].operation != attempts[j].operation || attempts[i].number != attempts[j].number;
  }

  lemma OperationsMean(operations: seq<Operation>)
    ensures OperationsFit(operations) <==>
              && |operations| == 4
              && operations[0].kind == Plan && operations[1].kind == Execute
              && operations[2].kind == Review && operations[3].kind == Remediate
              && (forall k :: 0 <= k < 4 ==> operations[k].id != "" && operations[k].succeeded)
              && (forall j, k :: 0 <= j < k < 4 ==> operations[j].id != operations[k].id)
  {
    StagesAre();
    if |operations| == 4 && operations[0].kind == Plan && operations[1].kind == Execute
       && operations[2].kind == Review && operations[3].kind == Remediate
    {
      forall k | 0 <= k < 4 ensures operations[k].kind == STAGES[k] {
        if k == 0 { } else if k == 1 { } else if k == 2 { } else { }
      }
    }
  }

  /** What is accepted, record by record. */
  lemma AcceptedMeans(operations: seq<Operation>, attempts: seq<Attempt>, checkpoints: seq<Checkpoint>, site: Site)
    ensures Accepted(operations, attempts, checkpoints, site) <==> Evidence(operations, attempts, checkpoints, site)
  {
    hide AttemptsFit, Succeeds, CheckpointFits, CheckpointIs, AttemptIs, NumberedTo, IdsOf;
    OperationsMean(operations);
    AttemptsMean(attempts, operations);
    if OperationsFit(operations) {
      forall k | 0 <= k < |operations|
        ensures Succeeds(attempts, operations[k].id) <==> exists n :: NumberedTo(attempts, operations[k].id, n)
      {
        SucceedsMeans(attempts, operations[k].id);
      }
      forall k | 0 <= k < |operations| && k < |checkpoints|
        ensures CheckpointFits(checkpoints[k], k, operations[k].id, attempts, site)
           <==> CheckpointIs(checkpoints[k], k, operations[k], attempts, site)
      {
        CheckpointMeans(checkpoints[k], k, operations[k], attempts, site);
      }
    }
  }

  /** The order in which attempts are listed is irrelevant. */
  lemma OrderIrrelevant(operations: seq<Operation>, a: seq<Attempt>, b: seq<Attempt>, checkpoints: seq<Checkpoint>, site: Site)
    requires multiset(a) == multiset(b) && Accepted(operations, a, checkpoints, site)
    ensures Accepted(operations, b, checkpoints, site)
  {
    hide AttemptFits, DistinctNumbers, Chain, IdsOf;
    DistinctPermuted(a, b);
    forall x ensures x in a <==> x in b {
      assert x in a <==> x in multiset(a);
      assert x in b <==> x in multiset(b);
    }
    forall k | 0 <= k < |operations| ensures Succeeds(b, operations[k].id) {
      var n: nat :| Chain(AttemptsAt(a, operations[k].id), n);
      AtPermuted(a, b, operations[k].id);
      SameNumbers(AttemptsAt(a, operations[k].id), AttemptsAt(b, operations[k].id), n);
    }
    forall k | 0 <= k < |checkpoints| ensures CheckpointFits(checkpoints[k], k, operations[k].id, b, site) {
      assert CheckpointFits(checkpoints[k], k, operations[k].id, a, site);
    }
  }

  // ---------------------------------------------------------------------------------------------
  // Retries
  // ---------------------------------------------------------------------------------------------

  /** How many attempts there are at these operations together. */
  function Together(ids: seq<string>, attempts: seq<Attempt>): int
  {
    if ids == [] then 0 else Together(ids[..|ids| - 1], attempts) + |AttemptsAt(attempts, ids[|ids| - 1])|
  }

  lemma {:induction false} TogetherNext(ids: seq<string>, attempts: seq<Attempt>, attempt: Attempt)
    requires forall j, k :: 0 <= j < k < |ids| ==> ids[j] != ids[k]
    ensures Together(ids, attempts + [attempt]) == Together(ids, attempts) + if attempt.operation in ids then 1 else 0
    decreases |ids|
  {
    if ids != [] {
      var fewer, last := ids[..|ids| - 1], ids[|ids| - 1];
      TogetherNext(fewer, attempts, attempt);
      assert (attempts + [attempt])[..|attempts|] == attempts;
      assert ids == fewer + [last];
      assert last !in fewer;
    }
  }

  /** Every attempt is at one of the operations, so together they are all the attempts. */
  lemma {:induction false} TogetherIsAll(ids: seq<string>, attempts: seq<Attempt>)
    requires forall j, k :: 0 <= j < k < |ids| ==> ids[j] != ids[k]
    requires forall a :: a in attempts ==> a.operation in ids
    ensures Together(ids, attempts) == |attempts|
    decreases |attempts|
  {
    if attempts == [] {
      NoneTogether(ids);
    } else {
      var fewer, last := attempts[..|attempts| - 1], attempts[|attempts| - 1];
      assert attempts == fewer + [last];
      TogetherIsAll(ids, fewer);
      TogetherNext(ids, fewer, last);
    }
  }

  lemma {:induction false} NoneTogether(ids: seq<string>)
    ensures Together(ids, []) == 0
  {
    if ids != [] {
      NoneTogether(ids[..|ids| - 1]);
    }
  }
}
