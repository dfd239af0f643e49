/** Facts about sequences that are taken apart and put together again. */
module Sequences {

  lemma Reassociate<T>(a: seq<T>, b: seq<T>, c: seq<T>)
    ensures a + (b + c) == (a + b) + c
  {
  }

  lemma Regroup<T>(a: seq<T>, x: T, b: seq<T>)
    ensures a + ([x] + b) == (a + [x]) + b
  {
  }

  lemma MoveOver<T>(done: seq<T>, items: seq<T>, j: nat, later: seq<T>)
    requires j < |items|
    ensures done + (items[j..] + later) == (done + [items[j]]) + (items[j + 1..] + later)
  {
  }

  lemma NextPending<T>(items: seq<T>, j: nat, after: seq<T>)
    requires j < |items|
    ensures items[j..] + after == [items[j]] + (items[j + 1..] + after)
  {
  }

  lemma NextDone<T>(done: seq<T>, items: seq<T>, i: nat)
    requires i < |items|
    ensures done + items[i..] == (done + [items[i]]) + items[i + 1..]
  {
  }

  lemma SuffixHead<T>(s: seq<T>, i: nat)
    requires i < |s|
    ensures s[i..] == [s[i]] + s[i + 1..]
  {
  }

  lemma TwoSlices<T>(s: seq<T>, n: nat, m: nat)
    requires n + m <= |s|
    ensures s[..n + m] == s[..n] + s[n..][..m]
  {
    assert s[n..][..m] == s[n..n + m];
  }

  lemma SliceOfSlice<T>(s: seq<T>, from: nat, to: nat, i: nat, j: nat)
    requires i <= j <= to - from && to <= |s|
    ensures s[from..to][i..j] == s[from + i..from + j]
  {
    var outer := s[from..to];
    assert forall k :: i <= k < j ==> outer[k] == s[from + k];
  }

  lemma SuffixSlice<T>(s: seq<T>, k: nat, i: nat, j: nat)
    requires i <= j && k + j <= |s|
    ensures s[k..][i..j] == s[k + i..k + j]
  {
    var suffix := s[k..];
    assert forall h :: i <= h < j ==> suffix[h] == s[k + h];
  }
}
