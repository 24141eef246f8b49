/**
 The sets that keep a turn from reporting the same app or plugin twice. A set that has grown to its limit is
 cleared before the next key goes in; the two kinds differ in whether a call without an id can clear it.
 */
module AnalyticsDedupe {
  import opened Common

  const MAX_KEYS := 4096

  datatype Kind = App | Plugin

  datatype Call = Call(turn: string, id: Option<string>)

  type Key = (string, string)

  /** The call clears the set first. */
  predicate Clears(kind: Kind, keys: set<Key>, call: Call)
  {
    |keys| >= MAX_KEYS && (kind.App? ==> call.id.Some?)
  }

  function KeysAfter(kind: Kind, calls: seq<Call>): set<Key>
  {
    if calls == [] then {}
    else
      var before, call := KeysAfter(kind, calls[..|calls| - 1]), calls[|calls| - 1];
      (if Clears(kind, before, call) then {} else before)
      + if call.id.Some? then {(call.turn, call.id.value)} else {}
  }

  /** Call `k` cleared the set. */
  ghost predicate Reset(kind: Kind, calls: seq<Call>, k: nat)
    requires k < |calls|
  {
    Clears(kind, KeysAfter(kind, calls[..k]), calls[k])
  }

  /** Call `k` was told to report. */
  ghost predicate Admitted(kind: Kind, calls: seq<Call>, k: nat)
    requires k < |calls|
  {
    calls[k].id.None? || Reset(kind, calls, k) || (calls[k].turn, calls[k].id.value) !in KeysAfter(kind, calls[..k])
  }

  lemma KeysNext(kind: Kind, calls: seq<Call>, k: nat)
    requires k < |calls|
    ensures KeysAfter(kind, calls[..k + 1])
         == (if Reset(kind, calls, k) then {} else KeysAfter(kind, calls[..k]))
            + (if calls[k].id.Some? then {(calls[k].turn, calls[k].id.value)} else {})
  {
    assert calls[..k + 1][..k] == calls[..k];
  }

  /** A set never holds more than its limit. */
  lemma {:induction false} NeverAboveLimit(kind: Kind, calls: seq<Call>)
    ensures |KeysAfter(kind, calls)| <= 4096
  {
    if calls != [] {
      NeverAboveLimit(kind, calls[..|calls| - 1]);
    }
  }

  /** A set is cleared exactly when it holds 4096 keys: by the next call for a plugin, by the next id for an app. */
  lemma ResetMeans(kind: Kind, calls: seq<Call>, k: nat)
    requires k < |calls|
    ensures Reset(kind, calls, k) <==> |KeysAfter(kind, calls[..k])| == 4096 && (kind == Plugin || calls[k].id.Some?)
  {
    NeverAboveLimit(kind, calls[..k]);
  }

  lemma {:induction false} OneKeyACall(kind: Kind, calls: seq<Call>)
    ensures |KeysAfter(kind, calls)| <= |calls|
  {
    if calls != [] {
      OneKeyACall(kind, calls[..|calls| - 1]);
    }
  }

  /** Since call `j` no call up to `k` cleared the set. */
  ghost predicate Undisturbed(kind: Kind, calls: seq<Call>, j: nat, k: nat)
    requires j <= k <= |calls|
  {
    forall m {:trigger Reset(kind, calls, m)} :: j < m < k ==> !Reset(kind, calls, m)
  }

  ghost predicate AdmittedKey(kind: Kind, calls: seq<Call>, j: nat, key: Key)
    requires j < |calls|
  {
    calls[j].id == Some(key.1) && calls[j].turn == key.0 && Admitted(kind, calls, j)
  }

  /** A key is in the set exactly when a call admitted it and none has cleared the set since. */
  lemma {:induction false} HeldMeans(kind: Kind, calls: seq<Call>, k: nat, key: Key)
    requires k <= |calls|
    ensures key in KeysAfter(kind, calls[..k])
       <==> exists j :: 0 <= j < k && AdmittedKey(kind, calls, j, key) && Undisturbed(kind, calls, j, k)
  {
    hide KeysAfter, Reset;
    if k == 0 {
      NothingHeld(kind, calls);
    } else {
      var n := k - 1;
      HeldMeans(kind, calls, n, key);
      KeysNext(kind, calls, n);
      if key in KeysAfter(kind, calls[..k]) {
        if AdmittedKey(kind, calls, n, key) {
          assert Undisturbed(kind, calls, n, k);
        } else {
          var j :| 0 <= j < n && AdmittedKey(kind, calls, j, key) && Undisturbed(kind, calls, j, n);
          assert Undisturbed(kind, calls, j, k);
        }
      }
      if j :| 0 <= j < k && AdmittedKey(kind, calls, j, key) && Undisturbed(kind, calls, j, k) {
        assert j < n ==> Undisturbed(kind, calls, j, n) && !Reset(kind, calls, n);
      }
    }
  }

  lemma NothingHeld(kind: Kind, calls: seq<Call>)
    ensures KeysAfter(kind, calls[..0]) == {}
  {
  }

  /**
   A call is suppressed exactly when an earlier call with the same turn and id was admitted and no call since,
   itself included, cleared the set. So between two clearings each key is admitted once, and a call without an
   id always is.
   */
  lemma SuppressedMeans(kind: Kind, calls: seq<Call>, k: nat)
    requires k < |calls|
    ensures !Admitted(kind, calls, k)
       <==> && calls[k].id.Some?
            && exists j :: 0 <= j < k && AdmittedKey(kind, calls, j, (calls[k].turn, calls[k].id.value))
                           && Undisturbed(kind, calls, j, k + 1)
  {
    hide KeysAfter, Reset;
    if calls[k].id.Some? {
      var key := (calls[k].turn, calls[k].id.value);
      HeldMeans(kind, calls, k, key);
      if !Admitted(kind, calls, k) {
        var j :| 0 <= j < k && AdmittedKey(kind, calls, j, key) && Undisturbed(kind, calls, j, k);
        assert Undisturbed(kind, calls, j, k + 1);
      }
      if j :| 0 <= j < k && AdmittedKey(kind, calls, j, key) && Undisturbed(kind, calls, j, k + 1) {
        assert Undisturbed(kind, calls, j, k) && !Reset(kind, calls, k);
      }
    }
  }

  /** Among the first 4096 calls, one is suppressed exactly when an earlier one had the same turn and id. */
  lemma FirstCallsMean(kind: Kind, calls: seq<Call>, k: nat)
    requires k < |calls| && k < 4096
    ensures !Admitted(kind, calls, k) <==> calls[k].id.Some? && exists j :: 0 <= j < k && calls[j] == calls[k]
  {
    hide KeysAfter, Reset, Undisturbed, Admitted;
    SuppressedMeans(kind, calls, k);
    Undisturbing(kind, calls, k + 1);
    if j :| 0 <= j < k && calls[j] == calls[k] && calls[k].id.Some? {
      FirstOfKind(kind, calls, j, k);
    }
  }

  lemma Undisturbing(kind: Kind, calls: seq<Call>, n: nat)
    requires n <= |calls| && n <= 4096
    ensures forall j :: 0 <= j <= n ==> Undisturbed(kind, calls, j, n)
  {
    hide KeysAfter, Reset;
    forall m | 0 <= m < n ensures !Reset(kind, calls, m) {
      ResetMeans(kind, calls, m);
      OneKeyACall(kind, calls[..m]);
    }
  }

  /** The earliest of equal calls was admitted. */
  lemma FirstOfKind(kind: Kind, calls: seq<Call>, j: nat, k: nat)
    requires j < k < |calls| && k < 4096 && calls[j] == calls[k] && calls[k].id.Some?
    ensures exists i :: 0 <= i < k && AdmittedKey(kind, calls, i, (calls[k].turn, calls[k].id.value))
                     && Undisturbed(kind, calls, i, k + 1)
  {
    hide KeysAfter, Reset, Undisturbed;
    Undisturbing(kind, calls, k + 1);
    if Admitted(kind, calls, j) {
      assert AdmittedKey(kind, calls, j, (calls[k].turn, calls[k].id.value));
    } else {
      SuppressedMeans(kind, calls, j);
      var i :| 0 <= i < j && AdmittedKey(kind, calls, i, (calls[j].turn, calls[j].id.value))
            && Undisturbed(kind, calls, i, j + 1);
      assert AdmittedKey(kind, calls, i, (calls[k].turn, calls[k].id.value));
    }
  }

  /** The set behind its lock, with the calls it has answered. */
  class EmittedKeys {
    const kind: Kind
    var keys: set<Key>
    ghost var calls: seq<Call>

    ghost predicate Valid()
      reads this
    {
      keys == KeysAfter(kind, calls) && |keys| <= MAX_KEYS
    }

    constructor (kind: Kind)
      ensures this.kind == kind && calls == [] && Valid()
    {
      this.kind := kind;
      keys, calls := {}, [];
    }

    method Insert(key: Key) returns (isNew: bool)
      modifies this
      ensures keys == old(keys) + {key} && isNew == (key !in old(keys)) && calls == old(calls)
    {
      isNew := key !in keys;
      keys := keys + {key};
    }

    /** Whether an app or a plugin used in a turn is to be reported. */
    method ShouldEnqueue(turn: string, id: Option<string>) returns (admitted: bool)
      requires Valid()
      modifies this
      ensures Valid() && calls == old(calls) + [Call(turn, id)]
      ensures admitted <==> Admitted(kind, calls, |old(calls)|)
    {
      ghost var before := calls;
      calls := calls + [Call(turn, id)];
      assert calls[..|before|] == before && calls[..|calls|] == calls;
      KeysNext(kind, calls, |before|);
      NeverAboveLimit(kind, calls);
      if kind.App? {
        if id.None? {
          return true;
        }
        if |keys| >= MAX_KEYS {
          keys := {};
        }
        admitted := Insert((turn, id.value));
      } else {
        if |keys| >= MAX_KEYS {
          keys := {};
        }
        if id.None? {
          return true;
        }
        admitted := Insert((turn, id.value));
      }
    }
  }
}
