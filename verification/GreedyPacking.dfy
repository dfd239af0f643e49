/**
 Greedy packing of a sequence into groups, for any test that says whether a group, coming after
 the groups before it, may hold the given elements.  A group always takes its first element.
 Also the making of one item per group when an item depends on the items before it.
 */
module GreedyPacking {
  import opened Sequences

  type Fit<!T> = (seq<seq<T>>, seq<T>) -> bool

  function Flatten<T>(groups: seq<seq<T>>): seq<T> {
    if groups == [] then [] else groups[0] + Flatten(groups[1..])
  }

  lemma {:induction false} FlattenSnoc<T>(groups: seq<seq<T>>, last: seq<T>)
    ensures Flatten(groups + [last]) == Flatten(groups) + last
  {
    if groups != [] {
      FlattenSnoc(groups[1..], last);
      assert (groups + [last])[1..] == groups[1..] + [last];
    }
  }

  lemma {:induction false} FlattenAppend<T>(a: seq<seq<T>>, b: seq<seq<T>>)
    ensures Flatten(a + b) == Flatten(a) + Flatten(b)
  {
    if a == [] {
      assert a + b == b;
    } else {
      FlattenAppend(a[1..], b);
      assert (a + b)[1..] == a[1..] + b;
      Reassociate(a[0], Flatten(a[1..]), Flatten(b));
    }
  }

  /** How many units the packer puts into the group it starts here, having already put `k`. */
  ghost function GroupLength<T>(fits: Fit<T>, before: seq<seq<T>>, units: seq<T>, k: nat): (n: nat)
    requires 1 <= k <= |units|
    ensures k <= n <= |units|
    ensures forall j :: k < j <= n ==> fits(before, units[..j])
    ensures n < |units| ==> !fits(before, units[..n + 1])
    decreases |units| - k
  {
    if k < |units| && fits(before, units[..k + 1]) then GroupLength(fits, before, units, k + 1) else k
  }

  ghost function Pack<T>(fits: Fit<T>, before: seq<seq<T>>, units: seq<T>): seq<seq<T>>
    decreases |units|
  {
    if units == [] then []
    else
      var n := GroupLength(fits, before, units, 1);
      [units[..n]] + Pack(fits, before + [units[..n]], units[n..])
  }

  /** A group that grew unit by unit within the size. */
  ghost predicate Grown<T>(fits: Fit<T>, before: seq<seq<T>>, group: seq<T>) {
    forall j :: 2 <= j <= |group| ==> fits(before, group[..j])
  }

  lemma PackFlush<T>(fits: Fit<T>, before: seq<seq<T>>, group: seq<T>, next: T, rest: seq<T>)
    requires group != [] && Grown(fits, before, group) && !fits(before, group + [next])
    ensures Pack(fits, before, group + ([next] + rest)) == [group] + Pack(fits, before + [group], [next] + rest)
  {
    var units := group + ([next] + rest);
    assert units[..|group| + 1] == group + [next];
    assert forall j :: 2 <= j <= |group| ==> units[..j] == group[..j];
    GroupLengthIs(fits, before, units, |group|);
    assert units[..|group|] == group && units[|group|..] == [next] + rest;
  }

  lemma PackLast<T>(fits: Fit<T>, before: seq<seq<T>>, group: seq<T>)
    requires group != [] && Grown(fits, before, group)
    ensures Pack(fits, before, group) == [group]
  {
    GroupLengthIs(fits, before, group, |group|);
    assert group[..|group|] == group && group[|group|..] == [];
  }

  lemma GroupLengthIs<T>(fits: Fit<T>, before: seq<seq<T>>, units: seq<T>, n: nat)
    requires 1 <= n <= |units|
    requires forall j :: 2 <= j <= n ==> fits(before, units[..j])
    requires n < |units| ==> !fits(before, units[..n + 1])
    ensures GroupLength(fits, before, units, 1) == n
  {
    var m := GroupLength(fits, before, units, 1);
  }

  lemma {:induction false} PackFlattens<T>(fits: Fit<T>, before: seq<seq<T>>, units: seq<T>)
    ensures Flatten(Pack(fits, before, units)) == units
    decreases |units|
  {
    if units != [] {
      var n := GroupLength(fits, before, units, 1);
      PackFlattens(fits, before + [units[..n]], units[n..]);
      assert units[..n] + units[n..] == units;
    }
  }

  /** No group is empty, each grew within the size, and none could have taken the unit after it. */
  ghost predicate GreedyGroups<T>(fits: Fit<T>, before: seq<seq<T>>, groups: seq<seq<T>>) {
    && (forall k :: 0 <= k < |groups| ==> groups[k] != [] && Grown(fits, before + groups[..k], groups[k]))
    && (forall k :: 0 <= k < |groups| - 1 && groups[k + 1] != [] ==>
        !fits(before + groups[..k], groups[k] + [groups[k + 1][0]]))
  }

  lemma ShiftGroups<T>(before: seq<seq<T>>, groups: seq<seq<T>>, k: nat)
    requires 1 <= k <= |groups|
    ensures before + [groups[0]] + groups[1..][..k - 1] == before + groups[..k]
  {
  }

  lemma {:induction false} PackIsGreedy<T>(fits: Fit<T>, before: seq<seq<T>>, units: seq<T>)
    ensures GreedyGroups(fits, before, Pack(fits, before, units))
    decreases |units|
  {
    if units != [] {
      var n := GroupLength(fits, before, units, 1);
      var head, tail := units[..n], Pack(fits, before + [units[..n]], units[n..]);
      var groups := [head] + tail;
      PackIsGreedy(fits, before + [head], units[n..]);
      assert before + groups[..0] == before;
      assert forall j :: 2 <= j <= n ==> head[..j] == units[..j];
      forall k | 0 <= k < |groups|
        ensures groups[k] != [] && Grown(fits, before + groups[..k], groups[k])
      {
        if k > 0 {
          ShiftGroups(before, groups, k);
          assert groups[k] == tail[k - 1];
        }
      }
      forall k | 0 <= k < |groups| - 1 && groups[k + 1] != []
        ensures !fits(before + groups[..k], groups[k] + [groups[k + 1][0]])
      {
        if k > 0 {
          ShiftGroups(before, groups, k);
          assert groups[k] == tail[k - 1] && groups[k + 1] == tail[k];
        } else {
          PackFlattens(fits, before + [head], units[n..]);
          assert tail[0][0] == units[n..][0];
          assert units[..n + 1] == head + [tail[0][0]];
        }
      }
    }
  }

  /** The greedy conditions leave no choice: they determine the grouping. */
  lemma {:induction false} GreedyGroupsUnique<T>(fits: Fit<T>, before: seq<seq<T>>, groups: seq<seq<T>>)
    requires GreedyGroups(fits, before, groups)
    ensures groups == Pack(fits, before, Flatten(groups))
    decreases |groups|
  {
    if groups != [] {
      var head, tail := groups[0], groups[1..];
      assert before + groups[..0] == before;
      TailIsGreedy(fits, before, groups);
      GreedyGroupsUnique(fits, before + [head], tail);
      if tail == [] {
        assert Flatten(groups) == head;
        PackLast(fits, before, head);
      } else {
        var later := Flatten(tail);
        assert later == [tail[0][0]] + later[1..];
        PackFlush(fits, before, head, tail[0][0], later[1..]);
      }
      assert groups == [head] + tail;
    }
  }

  lemma TailIsGreedy<T>(fits: Fit<T>, before: seq<seq<T>>, groups: seq<seq<T>>)
    requires groups != [] && GreedyGroups(fits, before, groups)
    ensures GreedyGroups(fits, before + [groups[0]], groups[1..])
  {
    var tail := groups[1..];
    forall k | 0 <= k < |tail|
      ensures before + [groups[0]] + tail[..k] == before + groups[..k + 1]
    {
      ShiftGroups(before, groups, k + 1);
    }
  }

  // ----- one item per group, each made from the items before it

  function Chain<T, C>(make: (seq<C>, seq<T>) -> C, groups: seq<seq<T>>): (items: seq<C>)
    ensures |items| == |groups|
  {
    if groups == [] then []
    else
      var before := Chain(make, groups[..|groups| - 1]);
      before + [make(before, groups[|groups| - 1])]
  }

  lemma ChainSnoc<T, C>(make: (seq<C>, seq<T>) -> C, groups: seq<seq<T>>, last: seq<T>)
    ensures Chain(make, groups + [last]) == Chain(make, groups) + [make(Chain(make, groups), last)]
  {
    assert (groups + [last])[..|groups|] == groups;
  }

  lemma {:induction false} ChainAt<T, C>(make: (seq<C>, seq<T>) -> C, groups: seq<seq<T>>, k: nat)
    requires k < |groups|
    ensures Chain(make, groups)[..k] == Chain(make, groups[..k])
    ensures Chain(make, groups)[k] == make(Chain(make, groups[..k]), groups[k])
    decreases |groups|
  {
    var shorter := groups[..|groups| - 1];
    if k < |groups| - 1 {
      ChainAt(make, shorter, k);
      assert shorter[..k] == groups[..k];
    } else {
      assert shorter == groups[..k];
    }
  }
}
