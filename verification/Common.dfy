/** Vocabulary shared by the models: optional values, results, and labelled effect logs. */
module Common {

  datatype Option<+T> = None | Some(value: T)

  /** The sequence holding an optional value, or nothing. */
  function Listed<T>(option: Option<T>): seq<T>
  {
    if option.Some? then [option.value] else []
  }

  datatype Result<+T, +E> = Ok(value: T) | Err(error: E)

  /** A log of effects. Each entry names the turn (or the reply channel) it belongs to, its tag. */
  type Log<T> = seq<(int, T)>

  /** The effects logged under one tag, in order. */
  function At<T>(log: Log<T>, tag: int): (r: seq<T>)
  {
    if log == [] then []
    else
      var last := log[|log| - 1];
      At(log[..|log| - 1], tag) + (if last.0 == tag then [last.1] else [])
  }

  /** Appending one effect changes what is logged under its own tag only. */
  lemma AtAppend<T>(log: Log<T>, entry: (int, T), tag: int)
    ensures At(log + [entry], tag)
         == At(log, tag) + (if entry.0 == tag then [entry.1] else [])
  {
    assert (log + [entry])[..|log + [entry]| - 1] == log;
  }

  lemma AtOne<T>(entry: (int, T), tag: int)
    ensures At([entry], tag) == if entry.0 == tag then [entry.1] else []
  {
    AtAppend([], entry, tag);
    assert [] + [entry] == [entry];
  }

  lemma {:induction false} AtConcat<T>(log: Log<T>, more: Log<T>, tag: int)
    ensures At(log + more, tag) == At(log, tag) + At(more, tag)
  {
    if more == [] {
      assert log + more == log;
    } else {
      var fewer := more[..|more| - 1];
      assert log + more == (log + fewer) + [more[|more| - 1]];
      AtAppend(log + fewer, more[|more| - 1], tag);
      AtConcat(log, fewer, tag);
    }
  }

  /** A log whose every entry carries a tag below the bound. */
  ghost predicate LabelsBelow<T>(log: Log<T>, bound: int)
  {
    forall i :: 0 <= i < |log| ==> 0 <= log[i].0 < bound
  }

  /** Nothing is logged under a tag that no entry carries. */
  lemma {:induction false} AtFresh<T>(log: Log<T>, tag: int)
    requires LabelsBelow(log, tag)
    ensures At(log, tag) == []
  {
    if log != [] {
      AtFresh(log[..|log| - 1], tag);
    }
  }

  /** A sequence cut at `h`, at its successor, and `k` further on. */
  lemma Rejoined<T>(s: seq<T>, h: nat, k: nat)
    requires h + 1 + k <= |s|
    ensures s == s[..h] + (([s[h]] + s[h + 1..][..k]) + s[h + 1..][k..])
  {
    var rest := s[h + 1..];
    assert rest == rest[..k] + rest[k..];
    assert s == s[..h] + ([s[h]] + rest);
    assert ([s[h]] + rest[..k]) + rest[k..] == [s[h]] + rest;
  }

  lemma Halves<T>(s: seq<T>, n: nat)
    requires n <= |s|
    ensures s == s[..n] + ([] + s[n..])
  {
  }

  /** Where the parts of a sequence put together are found again. */
  lemma Placed<T>(a: seq<T>, b: seq<T>, x: T, c: seq<T>)
    ensures var s, k := a + (b + ([x] + c)), |a| + |b|;
            k < |s| && s[..k] == a + b && s[k] == x && s[k + 1..] == c
  {
    var s, k := a + (b + ([x] + c)), |a| + |b|;
    assert s == (a + b) + ([x] + c);
  }

  /** An element between two sequences, and what stands before and behind it. */
  lemma Between<T>(a: seq<T>, x: T, c: seq<T>)
    ensures var s := a + ([x] + c); |a| < |s| && s[..|a|] == a && s[|a|] == x && s[|a| + 1..] == c
  {
  }

  lemma Associated<T>(a: seq<T>, b: seq<T>, c: seq<T>)
    ensures (a + b) + c == a + (b + c)
  {
  }

  lemma Regrouped<T>(a: seq<T>, b: seq<T>, c: seq<T>)
    ensures (a + b) + ([] + c) == a + (b + c)
  {
  }

  // ---------------------------------------------------------------------------------------------
  // Permutations
  // ---------------------------------------------------------------------------------------------

  function Without<T>(s: seq<T>, j: nat): seq<T>
    requires j < |s|
  {
    s[..j] + s[j + 1..]
  }

  lemma WithoutShape<T>(s: seq<T>, j: nat)
    requires j < |s|
    ensures j == |s| - 1 ==> Without(s, j) == s[..|s| - 1]
    ensures j < |s| - 1 ==>
              var rest := Without(s, j);
              && rest != [] && rest[|rest| - 1] == s[|s| - 1]
              && rest[..|rest| - 1] == Without(s[..|s| - 1], j)
  {
  }

  /** The last element of a sequence sits somewhere in any permutation of it, and can be set aside in both. */
  lemma SetAsideLast<T>(a: seq<T>, b: seq<T>) returns (j: nat)
    requires a != [] && multiset(a) == multiset(b)
    ensures j < |b| && b[j] == a[|a| - 1]
    ensures multiset(a[..|a| - 1]) == multiset(Without(b, j))
  {
    var x := a[|a| - 1];
    assert x in multiset(b);
    j :| 0 <= j < |b| && b[j] == x;
    assert a == a[..|a| - 1] + [x];
    assert multiset(a) == multiset(a[..|a| - 1]) + multiset{x};
    assert b == b[..j] + ([x] + b[j + 1..]);
    assert multiset(b) == multiset(b[..j]) + (multiset{x} + multiset(b[j + 1..]));
    assert multiset(Without(b, j)) == multiset(b[..j]) + multiset(b[j + 1..]);
    assert multiset(Without(b, j)) == multiset(b) - multiset{x};
    assert multiset(a[..|a| - 1]) == multiset(a) - multiset{x};
  }

  // ---------------------------------------------------------------------------------------------
  // Characters
  // ---------------------------------------------------------------------------------------------

  predicate IsDigit(c: char)
  {
    '0' <= c <= '9'
  }

  predicate IsDigits(s: string)
  {
    s != "" && forall i :: 0 <= i < |s| ==> IsDigit(s[i])
  }

  /** The characters Python counts as whitespace, in `strip`, in `split` and in the pattern `\s`. */
  predicate IsSpace(c: char)
  {
    || '\t' <= c <= '\r' || '\U{1c}' <= c <= ' ' || c == '\U{85}' || c == '\U{a0}' || c == '\U{1680}'
    || '\U{2000}' <= c <= '\U{200a}' || c == '\U{2028}' || c == '\U{2029}' || c == '\U{202f}'
    || c == '\U{205f}' || c == '\U{3000}'
  }

  /** Some of the positions below `n`, in order. */
  ghost predicate Places(at: seq<int>, n: nat)
  {
    && (forall j :: 0 <= j < |at| ==> 0 <= at[j] < n)
    && (forall i, j :: 0 <= i < j < |at| ==> at[i] < at[j])
  }

  lemma InAppended(at: seq<int>, n: int, i: int)
    ensures i in at + [n] <==> i in at || i == n
  {
    if i in at {
      var j :| 0 <= j < |at| && at[j] == i;
      assert (at + [n])[j] == i;
    }
    assert (at + [n])[|at|] == n;
  }
}
