/**
 * The shapes shared by the client's loops: walk a list in order and append an
 * item for each element that yields one, dropping the others (the extractor's
 * row loop, the estimator's holding loop); or write a key and value into a map
 * for each element that yields one, a later write replacing an earlier one
 * (the quote feed's line loop).
 */
module Filtering {
  import opened Optional

  /** The items `f` yields along `s`, in order. */
  function FilterMap<T, U>(s: seq<T>, f: T -> Option<U>): seq<U>
  {
    if |s| == 0 then []
    else
      FilterMap(s[..|s| - 1], f) +
      (match f(s[|s| - 1]) case Some(u) => [u] case None => [])
  }

  /** The positions of `s` at which `f` yields an item: increasing, and all of them. */
  function KeptIndices<T, U>(s: seq<T>, f: T -> Option<U>): (ks: seq<nat>)
    ensures forall k :: 0 <= k < |ks| ==> ks[k] < |s| && f(s[ks[k]]).Some?
    ensures forall k, l :: 0 <= k < l < |ks| ==> ks[k] < ks[l]
    ensures forall i :: 0 <= i < |s| && f(s[i]).Some? ==> i in ks
  {
    if |s| == 0 then []
    else
      var ks := KeptIndices(s[..|s| - 1], f);
      if f(s[|s| - 1]).Some? then ks + [|s| - 1] else ks
  }

  /**
   * Every element that yields an item contributes exactly one, at its own
   * place in the order, and nothing else is in the result.
   */
  lemma {:induction false} FilterMapFollowsKept<T, U>(s: seq<T>, f: T -> Option<U>)
    ensures |FilterMap(s, f)| == |KeptIndices(s, f)|
    ensures forall k :: 0 <= k < |KeptIndices(s, f)| ==>
      FilterMap(s, f)[k] == f(s[KeptIndices(s, f)[k]]).value
  {
    if |s| > 0 {
      var init := s[..|s| - 1];
      FilterMapFollowsKept(init, f);
      forall k | 0 <= k < |KeptIndices(init, f)|
        ensures init[KeptIndices(init, f)[k]] == s[KeptIndices(init, f)[k]]
      {
      }
    }
  }

  /** The loop step: one more element handled. */
  lemma {:induction false} FilterMapStep<T, U>(s: seq<T>, i: nat, f: T -> Option<U>)
    requires i < |s|
    ensures FilterMap(s[..i + 1], f) ==
      FilterMap(s[..i], f) + (match f(s[i]) case Some(u) => [u] case None => [])
  {
    assert s[..i + 1][..i] == s[..i];
  }

  /** The map written by the entries `f` yields along `s`, in order. */
  function Overwrites<T, K, V>(s: seq<T>, f: T -> Option<(K, V)>): map<K, V>
  {
    if |s| == 0 then map[]
    else
      var m := Overwrites(s[..|s| - 1], f);
      match f(s[|s| - 1])
      case None => m
      case Some((k, v)) => m[k := v]
  }

  /** The loop step: one more element written. */
  lemma {:induction false} OverwritesStep<T, K, V>(s: seq<T>, i: nat, f: T -> Option<(K, V)>)
    requires i < |s|
    ensures Overwrites(s[..i + 1], f) ==
      match f(s[i])
      case None => Overwrites(s[..i], f)
      case Some((k, v)) => Overwrites(s[..i], f)[k := v]
  {
    assert s[..i + 1][..i] == s[..i];
  }

  /** The keys written are exactly the keys of the elements that yield an entry. */
  lemma {:induction false} OverwritesKeys<T, K, V>(s: seq<T>, f: T -> Option<(K, V)>, k: K)
    ensures k in Overwrites(s, f) <==>
      exists i :: 0 <= i < |s| && f(s[i]).Some? && f(s[i]).value.0 == k
  {
    if |s| > 0 {
      var init := s[..|s| - 1];
      OverwritesKeys(init, f, k);
      if k in Overwrites(init, f) {
        var i :| 0 <= i < |init| && f(init[i]).Some? && f(init[i]).value.0 == k;
        assert s[i] == init[i];
      }
      if exists i :: 0 <= i < |s| && f(s[i]).Some? && f(s[i]).value.0 == k {
        var i :| 0 <= i < |s| && f(s[i]).Some? && f(s[i]).value.0 == k;
        if i < |init| {
          assert init[i] == s[i];
        }
      }
    }
  }

  /**
   * A key's value is the one written by the last element with that key:
   * later writes replace it, writes to other keys leave it alone.
   */
  lemma {:induction false} LastWriteWins<T, K, V>(s: seq<T>, f: T -> Option<(K, V)>, j: nat, k: K, v: V)
    requires j < |s| && f(s[j]) == Some((k, v))
    requires forall i :: j < i < |s| ==> f(s[i]).None? || f(s[i]).value.0 != k
    ensures k in Overwrites(s, f) && Overwrites(s, f)[k] == v
  {
    var init := s[..|s| - 1];
    if j < |s| - 1 {
      forall i | j < i < |init| ensures f(init[i]).None? || f(init[i]).value.0 != k {
        assert init[i] == s[i];
      }
      LastWriteWins(init, f, j, k, v);
    }
  }
}
