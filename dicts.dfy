/**
 * Python dictionaries from string labels to integer codes, as the encoder's
 * module-level tables use them: an insertion-ordered list of entries, a
 * lookup that raises KeyError on a missing key, and the key list that a
 * selectbox offers as its options.
 */
module Dicts {

  datatype Option<+T> = None | Some(value: T)

  /** The exceptions the encoder and the packaging step can raise. */
  datatype Error =
    | KeyError(key: string)   // a dictionary subscript with a key the dictionary lacks
    | IndexError              // a subscript past the end of a list or row

  /** A value or the exception raised while computing it; usable with `:-`. */
  datatype Result<+T> = Success(value: T) | Failure(error: Error) {
    predicate IsFailure() { Failure? }

    function PropagateFailure<U>(): Result<U>
      requires Failure?
    {
      Failure(error)
    }

    function Extract(): T
      requires Success?
    {
      value
    }
  }

  /**
   * A dict literal: its entries in insertion order. A Python literal that
   * repeated a key would keep one entry with the last value; this list would
   * keep both and `Get` would find the first. The tables never repeat a key
   * (Tables.AllTablesWellFormed), so the two agree wherever the model uses them.
   */
  type Dict = seq<(string, int)>

  /** `list(d.keys())`: the keys in insertion order. */
  function Keys(d: Dict): (ks: seq<string>)
    ensures |ks| == |d|
    ensures forall i :: 0 <= i < |d| ==> ks[i] == d[i].0
  {
    seq(|d|, i requires 0 <= i < |d| => d[i].0)
  }

  /** `k in d`: the key is listed, so a selectbox over `d` can offer it. */
  predicate IsOption(d: Dict, k: string) {
    k in Keys(d)
  }

  /** No key is listed twice (so first-match and Python's last-wins agree). */
  predicate DistinctKeys(d: Dict) {
    forall i, j :: 0 <= i < j < |d| ==> d[i].0 != d[j].0
  }

  /** The code of each entry is its position: codes are exactly 0..|d|-1, in listing order. */
  predicate CodesAreIndices(d: Dict) {
    forall i :: 0 <= i < |d| ==> d[i].1 == i
  }

  /** The value stored under `k`, if `k` is a key (the first entry listing it). */
  function Get(d: Dict, k: string): Option<int> {
    if d == [] then None
    else if d[0].0 == k then Some(d[0].1)
    else Get(d[1..], k)
  }

  /** `d[k]`: the value under `k`, or KeyError(k) when `k` is not a key. */
  function Subscript(d: Dict, k: string): (r: Result<int>)
    ensures r.Failure? <==> Get(d, k).None?
    ensures r.Failure? ==> r.error == KeyError(k)
    ensures r.Success? ==> Get(d, k) == Some(r.value)
  {
    match Get(d, k)
    case Some(v) => Success(v)
    case None => Failure(KeyError(k))
  }

  /**
   * A lookup finds a value exactly when the key is listed, and what it finds
   * is the value of an entry listing that key.
   */
  lemma {:induction false} GetSpec(d: Dict, k: string)
    ensures Get(d, k).None? <==> k !in Keys(d)
    ensures Get(d, k).Some? ==> exists i :: 0 <= i < |d| && d[i] == (k, Get(d, k).value)
  {
    if d != [] {
      GetSpec(d[1..], k);
      assert Keys(d) == [d[0].0] + Keys(d[1..]);
      if d[0].0 != k && Get(d, k).Some? {
        var i :| 0 <= i < |d| - 1 && d[1..][i] == (k, Get(d, k).value);
        assert d[i + 1] == d[1..][i];
      }
    }
  }

  /** `d[k]` raises KeyError(k) exactly when `k` is not a key, and otherwise yields a listed value. */
  lemma SubscriptSpec(d: Dict, k: string)
    ensures Subscript(d, k).Failure? <==> k !in Keys(d)
    ensures Subscript(d, k).Failure? ==> Subscript(d, k).error == KeyError(k)
    ensures Subscript(d, k).Success? ==> exists i :: 0 <= i < |d| && d[i] == (k, Subscript(d, k).value)
  {
    GetSpec(d, k);
  }

  /** With distinct keys, every listed entry is found under its own key. */
  lemma {:induction false} GetEntry(d: Dict, i: nat)
    requires DistinctKeys(d)
    requires i < |d|
    ensures Get(d, d[i].0) == Some(d[i].1)
  {
    if i > 0 {
      assert d[0].0 != d[i].0;
      assert DistinctKeys(d[1..]) by {
        forall p, q | 0 <= p < q < |d| - 1 ensures d[1..][p].0 != d[1..][q].0 {
          assert d[1..][p] == d[p + 1] && d[1..][q] == d[q + 1];
        }
      }
      GetEntry(d[1..], i - 1);
      assert d[1..][i - 1] == d[i];
    }
  }

  /**
   * A table with distinct keys whose codes are its positions is a bijection
   * from its keys onto 0..n-1: every found code is in range, the c-th listed
   * key has code c, and no two keys share a code.
   */
  ghost predicate BijectionOnto(d: Dict, n: nat) {
    && |d| == n
    && (forall k :: Get(d, k).Some? ==> 0 <= Get(d, k).value < n)
    && (forall c :: 0 <= c < n ==> Get(d, Keys(d)[c]) == Some(c))
    && (forall k1, k2 :: Get(d, k1).Some? && Get(d, k1) == Get(d, k2) ==> k1 == k2)
  }

  lemma TableIsBijection(d: Dict)
    requires DistinctKeys(d) && CodesAreIndices(d)
    ensures BijectionOnto(d, |d|)
    ensures forall i :: 0 <= i < |d| ==> Get(d, d[i].0) == Some(i)
  {
    EveryPositionFound(d);
    FoundCodesInRange(d);
    forall k1, k2 | Get(d, k1).Some? && Get(d, k1) == Get(d, k2) ensures k1 == k2 {
      UniqueKeyForCode(d, k1, k2);
    }
  }

  lemma EveryPositionFound(d: Dict)
    requires DistinctKeys(d) && CodesAreIndices(d)
    ensures forall i :: 0 <= i < |d| ==> Get(d, d[i].0) == Some(i)
  {
    forall i | 0 <= i < |d| ensures Get(d, d[i].0) == Some(i) {
      GetEntry(d, i);
    }
  }

  lemma FoundCodesInRange(d: Dict)
    requires CodesAreIndices(d)
    ensures forall k :: Get(d, k).Some? ==> 0 <= Get(d, k).value < |d|
  {
    forall k | Get(d, k).Some? ensures 0 <= Get(d, k).value < |d| {
      GetSpec(d, k);
      var i :| 0 <= i < |d| && d[i] == (k, Get(d, k).value);
    }
  }

  lemma UniqueKeyForCode(d: Dict, k1: string, k2: string)
    requires CodesAreIndices(d)
    requires Get(d, k1).Some? && Get(d, k1) == Get(d, k2)
    ensures k1 == k2
  {
    GetSpec(d, k1);
    GetSpec(d, k2);
    var i :| 0 <= i < |d| && d[i] == (k1, Get(d, k1).value);
    var j :| 0 <= j < |d| && d[j] == (k2, Get(d, k2).value);
    assert i == j;
  }

  /** Listing order is code order: a later key always has a larger code. */
  lemma CodesFollowListingOrder(d: Dict, i: nat, j: nat)
    requires DistinctKeys(d) && CodesAreIndices(d)
    requires i < j < |d|
    ensures Get(d, d[i].0).Some? && Get(d, d[j].0).Some?
    ensures Get(d, d[i].0).value < Get(d, d[j].0).value
  {
    GetEntry(d, i);
    GetEntry(d, j);
  }
}
