/** Binary search by key, as the cursors use it: `std::upper_bound` over segment starts or
    integration-point times, then one step back. */
module Search {

  ghost predicate Increasing(keys: seq<real>) {
    forall i, j :: 0 <= i < j < |keys| ==> keys[i] < keys[j]
  }

  /** The number of keys not greater than v, counted from the back as long as keys exceed v. */
  function UpperBound(keys: seq<real>, v: real): (n: nat)
    ensures n <= |keys|
    ensures n < |keys| ==> v < keys[n]
    ensures 0 < n ==> keys[n - 1] <= v
  {
    if keys == [] then 0
    else if keys[|keys| - 1] <= v then |keys|
    else UpperBound(keys[..|keys| - 1], v)
  }

  /** k is the slot that holds v: the last key not greater than v. */
  ghost predicate Holds(keys: seq<real>, k: nat, v: real) {
    k < |keys| && keys[k] <= v && (k + 1 < |keys| ==> v < keys[k + 1])
  }

  /** Where keys increase, the slot that holds a value is unique and is the one upper_bound finds. */
  lemma HoldsIsUpperBound(keys: seq<real>, k: nat, v: real)
    requires Increasing(keys)
    ensures Holds(keys, k, v) <==> k + 1 == UpperBound(keys, v)
  {
    var n := UpperBound(keys, v);
    assert n <= k < |keys| ==> keys[n] <= keys[k];
    assert k + 1 < n ==> keys[k + 1] <= keys[n - 1];
  }

  /** Exactly the keys up to the slot that holds v are not greater than v. */
  lemma HeldSplits(keys: seq<real>, k: nat, v: real, j: nat)
    requires Increasing(keys) && Holds(keys, k, v) && j < |keys|
    ensures keys[j] <= v <==> j <= k
  {
    assert j < k ==> keys[j] < keys[k];
    assert k + 1 < j ==> keys[k + 1] < keys[j];
  }
}
