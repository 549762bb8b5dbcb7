/** Sequences of addresses, as the linked lists of the kernel form them. */
module Seqs {
  /** The k-th element, or the null pointer beyond the ends. */
  function At(s: seq<int>, k: int): int {
    if 0 <= k < |s| then s[k] else 0
  }

  function Last(s: seq<int>): int {
    At(s, |s| - 1)
  }

  ghost predicate Distinct(s: seq<int>) {
    forall i, j :: 0 <= i < j < |s| ==> s[i] != s[j]
  }

  /** The k-th element of s is a node, and its next field leads to the element after it. */
  ghost predicate LinkAt(next: map<int, int>, s: seq<int>, k: nat)
    requires k < |s|
  {
    s[k] != 0 && s[k] in next && next[s[k]] == At(s, k + 1)
  }

  function InsertAt<T>(s: seq<T>, k: nat, x: T): seq<T>
    requires k <= |s|
  {
    s[..k] + [x] + s[k..]
  }

  function RemoveAt<T>(s: seq<T>, k: nat): seq<T>
    requires k < |s|
  {
    s[..k] + s[k + 1..]
  }
}
