/** The collector's passes over factory evidence. */
module FactoryCollector {
  import opened Common
  import opened FactoryAttempts

  /** The operations in their order, with distinct names, all succeeded. */
  method CheckOperations(operations: seq<Operation>) returns (ok: bool, ids: set<string>, ordered: seq<string>)
    ensures ok <==> OperationsFit(operations)
    ensures ok ==> ids == IdsOf(operations)
    ensures ok ==> |ordered| == |operations| && forall k :: 0 <= k < |operations| ==> ordered[k] == operations[k].id
  {
    ids, ordered := {}, [];
    if |operations| != |STAGES| {
      ok := false;
      return;
    }
    for k := 0 to |operations|
      invariant |ordered| == k && forall j :: 0 <= j < k ==> ordered[j] == operations[j].id
      invariant ids == set j | 0 <= j < k :: operations[j].id
      invariant forall j :: 0 <= j < k ==>
        operations[j].id != "" && operations[j].kind == STAGES[j] && operations[j].succeeded
      invariant forall i, j :: 0 <= i < j < k ==> operations[i].id != operations[j].id
    {
      var operation := operations[k];
      if operation.id == "" || operation.id in ids || operation.kind != STAGES[k] || !operation.succeeded {
        ok := false;
        return;
      }
      ids, ordered := ids + {operation.id}, ordered + [operation.id];
    }
    ok := true;
  }

  type Groups = map<string, seq<Attempt>>

  /** The groups hold each operation's attempts, in the order listed. */
  ghost predicate Grouped(groups: Groups, attempts: seq<Attempt>, ids: set<string>)
  {
    groups.Keys == ids && forall id :: id in ids ==> groups[id] == AttemptsAt(attempts, id)
  }

  ghost predicate Seen(seen: set<(string, int)>, attempts: seq<Attempt>)
  {
    forall key :: key in seen <==> exists a :: a in attempts && (a.operation, a.number) == key
  }

  /** The first attempts are taken in. */
  ghost predicate TakenTo(attempts: seq<Attempt>, ids: set<string>, seen: set<(string, int)>, groups: Groups)
  {
    AttemptsFit(attempts, ids) && Seen(seen, attempts) && Grouped(groups, attempts, ids)
  }

  lemma TakeNext(attempts: seq<Attempt>, attempt: Attempt, ids: set<string>, seen: set<(string, int)>, groups: Groups)
    requires TakenTo(attempts, ids, seen, groups)
    ensures var key := (attempt.operation, attempt.number);
            if AttemptFits(attempt, ids) && key !in seen
            then attempt.operation in groups
                 && TakenTo(attempts + [attempt], ids, seen + {key},
                            groups[attempt.operation := groups[attempt.operation] + [attempt]])
            else !AttemptsFit(attempts + [attempt], ids)
  {
    hide AttemptsAt;
    var all := attempts + [attempt];
    DistinctNext(attempts, attempt);
    hide DistinctNumbers;
    assert forall a :: a in all <==> a in attempts || a == attempt;
    forall id ensures AttemptsAt(all, id) == AttemptsAt(attempts, id) + if attempt.operation == id then [attempt] else [] {
      AtNext(attempts, attempt, id);
    }
  }

  lemma AtNext(attempts: seq<Attempt>, attempt: Attempt, id: string)
    ensures AttemptsAt(attempts + [attempt], id) == AttemptsAt(attempts, id) + if attempt.operation == id then [attempt] else []
  {
    assert (attempts + [attempt])[..|attempts|] == attempts;
  }

  /** A bad attempt spoils every longer list. */
  lemma Spoiled(attempts: seq<Attempt>, i: nat, ids: set<string>)
    requires i <= |attempts| && !AttemptsFit(attempts[..i], ids)
    ensures !AttemptsFit(attempts, ids)
  {
    var first := attempts[..i];
    assert forall a :: a in first ==> a in attempts;
    assert forall k :: 0 <= k < i ==> first[k] == attempts[k];
  }

  method GroupAttempts(attempts: seq<Attempt>, ids: set<string>) returns (ok: bool, groups: Groups)
    ensures ok <==> AttemptsFit(attempts, ids)
    ensures ok ==> Grouped(groups, attempts, ids)
  {
    hide AttemptsFit, Seen, Grouped, AttemptsAt;
    groups := map id | id in ids :: [];
    var seen: set<(string, int)> := {};
    NothingTaken(ids);
    assert attempts[..0] == [];
    for i := 0 to |attempts|
      invariant TakenTo(attempts[..i], ids, seen, groups)
    {
      var attempt := attempts[i];
      var key := (attempt.operation, attempt.number);
      assert attempts[..i + 1] == attempts[..i] + [attempt];
      TakeNext(attempts[..i], attempt, ids, seen, groups);
      if !AttemptFits(attempt, ids) || key in seen {
        Spoiled(attempts, i + 1, ids);
        ok := false;
        return;
      }
      seen := seen + {key};
      groups := groups[attempt.operation := groups[attempt.operation] + [attempt]];
    }
    assert attempts[..|attempts|] == attempts;
    ok := true;
  }

  lemma NothingTaken(ids: set<string>)
    ensures TakenTo([], ids, {}, map id | id in ids :: [])
  {
  }

  /** The last of a sequence is the one attempt at the operation that succeeded. */
  lemma FinalIsSuccess(attempts: seq<Attempt>, operation: string, id: string)
    requires InSequence(Sorted(AttemptsAt(attempts, operation)))
    ensures var sorted := Sorted(AttemptsAt(attempts, operation));
            NamesSuccess(attempts, operation, id) <==> sorted[|sorted| - 1].id == id
  {
    hide Sorted, AttemptsAt;
    var group := AttemptsAt(attempts, operation);
    var sorted := Sorted(group);
    SortedPermutes(group);
    forall a ensures a in attempts && a.operation == operation <==> a in sorted {
      AtMembers(attempts, operation, a);
      assert a in group <==> a in multiset(group);
      assert a in sorted <==> a in multiset(sorted);
    }
    var last := sorted[|sorted| - 1];
    assert last in sorted;
    forall a | a in sorted && a.state.Succeeded? ensures a == last {
      var i :| 0 <= i < |sorted| && sorted[i] == a;
    }
  }

  /** The map names the attempt at the operation that succeeded. */
  ghost predicate FinalNamed(finals: map<string, string>, attempts: seq<Attempt>, operation: string)
  {
    operation in finals && forall id :: NamesSuccess(attempts, operation, id) <==> finals[operation] == id
  }

  /** The final attempts' names, and the retries before them. */
  method FinalAttempts(ordered: seq<string>, groups: Groups, ghost attempts: seq<Attempt>, ghost ids: set<string>)
    returns (ok: bool, retries: int, finals: map<string, string>)
    requires Grouped(groups, attempts, ids) && DistinctNumbers(attempts) && forall k :: 0 <= k < |ordered| ==> ordered[k] in ids
    requires forall j, k :: 0 <= j < k < |ordered| ==> ordered[j] != ordered[k]
    ensures ok <==> forall k {:trigger ordered[k]} :: 0 <= k < |ordered| ==> Succeeds(attempts, ordered[k])
    ensures ok ==> retries == Together(ordered, attempts) - |ordered|
    ensures ok ==> forall k {:trigger ordered[k]} :: 0 <= k < |ordered| ==> FinalNamed(finals, attempts, ordered[k])
  {
    hide AttemptsAt, Sorted, InSequence, Chain, DistinctNumbers, NamesSuccess;
    retries, finals := 0, map[];
    for k := 0 to |ordered|
      invariant forall j {:trigger ordered[j]} :: 0 <= j < k ==> Succeeds(attempts, ordered[j])
      invariant retries == Together(ordered[..k], attempts) - k
      invariant forall j {:trigger ordered[j]} :: 0 <= j < k ==> FinalNamed(finals, attempts, ordered[j])
    {
      var group := groups[ordered[k]];
      var sorted := Sorted(group);
      TestIsChain(attempts, ordered[k]);
      if !InSequence(sorted) {
        ok := false;
        return;
      }
      SequenceLasts(sorted);
      SortedLength(group);
      forall id ensures NamesSuccess(attempts, ordered[k], id) <==> sorted[|sorted| - 1].id == id {
        FinalIsSuccess(attempts, ordered[k], id);
      }
      assert ordered[..k + 1][..k] == ordered[..k];
      retries := retries + |sorted| - 1;
      finals := finals[ordered[k] := sorted[|sorted| - 1].id];
    }
    assert ordered[..|ordered|] == ordered;
    ok := true;
  }

  lemma SequenceLasts(sorted: seq<Attempt>)
    requires InSequence(sorted)
    ensures sorted != []
  {
  }

  lemma SortedLength(attempts: seq<Attempt>)
    ensures |Sorted(attempts)| == |attempts|
  {
    hide Sorted;
    SortedPermutes(attempts);
    assert |multiset(Sorted(attempts))| == |Sorted(attempts)| && |multiset(attempts)| == |attempts|;
  }

  /** The checkpoints, one for each operation in order, each naming the attempt that succeeded. */
  method CheckCheckpoints(operations: seq<Operation>, ordered: seq<string>, checkpoints: seq<Checkpoint>,
                          finals: map<string, string>, site: Site, ghost attempts: seq<Attempt>)
    returns (ok: bool)
    requires |ordered| == |operations| == |STAGES| && forall k :: 0 <= k < |operations| ==> ordered[k] == operations[k].id
    requires forall k {:trigger ordered[k]} :: 0 <= k < |ordered| ==> FinalNamed(finals, attempts, ordered[k])
    ensures ok <==> CheckpointsFit(operations, attempts, checkpoints, site)
  {
    hide NamesSuccess, Closes;
    if |checkpoints| != |STAGES| {
      return false;
    }
    for k := 0 to |checkpoints|
      invariant forall j {:trigger checkpoints[j]} :: 0 <= j < k ==>
        CheckpointFits(checkpoints[j], j, operations[j].id, attempts, site)
    {
      var checkpoint := checkpoints[k];
      assert FinalNamed(finals, attempts, ordered[k]);
      if || checkpoint.operation != ordered[k] || checkpoint.ordinal != k || checkpoint.kind != STAGES[k]
         || checkpoint.id == "" || !Closes(checkpoint, k, site) || finals[ordered[k]] != checkpoint.attempt
      {
        return false;
      }
    }
    return true;
  }

  /** Collecting factory evidence: it accepts exactly what fits, and each attempt beyond the first is a retry. */
  method CollectFactory(operations: seq<Operation>, attempts: seq<Attempt>, checkpoints: seq<Checkpoint>, site: Site)
    returns (result: Option<Counts>)
    ensures result.Some? <==> Accepted(operations, attempts, checkpoints, site)
    ensures result.Some? <==> Evidence(operations, attempts, checkpoints, site)
    ensures result.Some? ==> result.value == Counts(4, 4, 4, |attempts|, |attempts| - 4)
  {
    hide Evidence, AttemptsAt, IdsOf, DistinctNumbers, Succeeds, CheckpointFits, Together;
    AcceptedMeans(operations, attempts, checkpoints, site);
    var ok, ids, ordered := CheckOperations(operations);
    if !ok {
      return None;
    }
    OrderedIds(operations, ordered);
    var groups: Groups;
    ok, groups := GroupAttempts(attempts, ids);
    if !ok {
      return None;
    }
    var retries, finals;
    ok, retries, finals := FinalAttempts(ordered, groups, attempts, ids);
    if !ok {
      return None;
    }
    ok := CheckCheckpoints(operations, ordered, checkpoints, finals, site, attempts);
    if !ok {
      return None;
    }
    TogetherIsAll(ordered, attempts);
    assert |STAGES| == 4;
    return Some(Counts(|operations|, |operations|, |checkpoints|, |attempts|, retries));
  }

  lemma OrderedIds(operations: seq<Operation>, ordered: seq<string>)
    requires |ordered| == |operations| && forall k :: 0 <= k < |operations| ==> ordered[k] == operations[k].id
    ensures forall id :: id in IdsOf(operations) <==> id in ordered
  {
  }
}
