/** Taking one entry out of a list: as a sequence, and in place. */
module Sequences {

  function Removed<T>(s: seq<T>, i: nat): (r: seq<T>)
    requires i < |s|
    ensures |r| == |s| - 1
  {
    s[..i] + s[i + 1..]
  }

  lemma RemovedEntries<T>(s: seq<T>, i: nat)
    requires i < |s|
    ensures forall k :: 0 <= k < |s| - 1 ==> Removed(s, i)[k] == s[if k < i then k else k + 1]
  {
  }

  lemma RemovedBag<T>(s: seq<T>, i: nat)
    requires i < |s|
    ensures multiset(s) == multiset{s[i]} + multiset(Removed(s, i))
  {
    assert s == s[..i] + [s[i]] + s[i + 1..];
  }

  /** The n - 1 - i entries behind i move up by one. */
  method CloseGap<T>(a: array<T>, i: nat, n: nat)
    requires i < n <= a.Length
    modifies a
    ensures a[..n - 1] == Removed(old(a[..n]), i)
  {
    ghost var before := a[..n];
    var k := i;
    while k + 1 < n
      invariant i <= k < n
      invariant forall j :: 0 <= j < k ==> a[j] == before[if j < i then j else j + 1]
      invariant forall j :: k <= j < n ==> a[j] == before[j]
    {
      a[k] := a[k + 1];
      k := k + 1;
    }
    RemovedEntries(before, i);
    hide Removed;
    assert a[..n - 1] == Removed(before, i);
  }
}
