/** Grouping a list by session, in the order a dictionary of lists is filled and then read back sorted. */
module Grouping {
  import opened FiniteSums
  import opened Ordering

  /** The members of one group, in list order. */
  function Of<T(!new)>(xs: seq<T>, group: T -> int, g: int): (r: seq<T>)
    ensures forall x :: x in r <==> x in xs && group(x) == g
  {
    if xs == [] then [] else
      assert xs == xs[..|xs| - 1] + [xs[|xs| - 1]];
      var init := Of(xs[..|xs| - 1], group, g);
      if group(xs[|xs| - 1]) == g then init + [xs[|xs| - 1]] else init
  }

  function GroupsOf<T(!new)>(xs: seq<T>, group: T -> int): set<int> {
    set i | 0 <= i < |xs| :: group(xs[i])
  }

  /** Concatenation of the listed groups. */
  function Flatten<T(!new)>(xs: seq<T>, group: T -> int, gs: seq<int>): seq<T> {
    if gs == [] then [] else Flatten(xs, group, gs[..|gs| - 1]) + Of(xs, group, gs[|gs| - 1])
  }

  method GroupBy<T(!new)>(xs: seq<T>, group: T -> int) returns (groups: map<int, seq<T>>)
    ensures groups.Keys == GroupsOf(xs, group)
    ensures forall g | g in groups :: groups[g] == Of(xs, group, g)
  {
    GroupingStart(xs, group);
    groups := map[];
    for i := 0 to |xs|
      invariant IsGrouping(groups, xs[..i], group)
    {
      var g := group(xs[i]);
      var before := if g in groups then groups[g] else [];
      NextGrouping(groups, xs, group, i);
      groups := groups[g := before + [xs[i]]];
    }
    assert xs[..|xs|] == xs;
  }

  ghost predicate IsGrouping<T(!new)>(groups: map<int, seq<T>>, xs: seq<T>, group: T -> int) {
    groups.Keys == GroupsOf(xs, group) && forall g | g in groups :: groups[g] == Of(xs, group, g)
  }

  lemma GroupingStart<T(!new)>(xs: seq<T>, group: T -> int)
    ensures IsGrouping(map[], xs[..0], group)
  {
  }

  lemma {:induction false} OfAppended<T(!new)>(xs: seq<T>, group: T -> int, x: T, g: int)
    ensures Of(xs + [x], group, g) == Of(xs, group, g) + if group(x) == g then [x] else []
  {
    assert (xs + [x])[..|xs|] == xs;
  }

  lemma GroupsAppended<T(!new)>(xs: seq<T>, group: T -> int, x: T)
    ensures GroupsOf(xs + [x], group) == GroupsOf(xs, group) + {group(x)}
  {
    var all := xs + [x];
    forall g ensures g in GroupsOf(all, group) <==> g in GroupsOf(xs, group) + {group(x)} {
      if g in GroupsOf(xs, group) {
        var i :| 0 <= i < |xs| && group(xs[i]) == g;
        assert all[i] == xs[i];
      }
      assert all[|xs|] == x;
    }
    SameSet(GroupsOf(all, group), GroupsOf(xs, group) + {group(x)});
  }

  lemma GroupingStep<T(!new)>(groups: map<int, seq<T>>, xs: seq<T>, group: T -> int, x: T)
    requires IsGrouping(groups, xs, group)
    ensures var g := group(x);
      IsGrouping(groups[g := (if g in groups then groups[g] else []) + [x]], xs + [x], group)
  {
    var g := group(x);
    GroupsAppended(xs, group, x);
    OfMissing(xs, group, g);
    var after := groups[g := (if g in groups then groups[g] else []) + [x]];
    forall h | h in after ensures after[h] == Of(xs + [x], group, h) {
      OfAppended(xs, group, x, h);
    }
  }

  lemma NextGrouping<T(!new)>(groups: map<int, seq<T>>, xs: seq<T>, group: T -> int, i: nat)
    requires i < |xs| && IsGrouping(groups, xs[..i], group)
    ensures var g := group(xs[i]);
      IsGrouping(groups[g := (if g in groups then groups[g] else []) + [xs[i]]], xs[..i + 1], group)
  {
    GroupingStep(groups, xs[..i], group, xs[i]);
    assert xs[..i + 1] == xs[..i] + [xs[i]];
  }

  lemma {:induction false} OfMissing<T(!new)>(xs: seq<T>, group: T -> int, g: int)
    ensures g !in GroupsOf(xs, group) ==> Of(xs, group, g) == []
  {
    if Of(xs, group, g) != [] {
      var x := Of(xs, group, g)[0];
      assert x in Of(xs, group, g);
      var i :| 0 <= i < |xs| && xs[i] == x;
      assert group(xs[i]) in GroupsOf(xs, group);
    }
  }

  lemma {:induction false} OfCount<T(!new)>(xs: seq<T>, group: T -> int, g: int, x: T)
    ensures multiset(Of(xs, group, g))[x] == if group(x) == g then multiset(xs)[x] else 0
  {
    if xs != [] {
      var init, last := xs[..|xs| - 1], xs[|xs| - 1];
      OfCount(init, group, g, x);
      assert xs == init + [last];
    }
  }

  lemma {:induction false} FlattenCount<T(!new)>(xs: seq<T>, group: T -> int, gs: seq<int>, x: T)
    requires Distinct(gs)
    ensures multiset(Flatten(xs, group, gs))[x] == if group(x) in gs then multiset(xs)[x] else 0
  {
    if gs != [] {
      var init, last := gs[..|gs| - 1], gs[|gs| - 1];
      assert gs == init + [last];
      FlattenCount(xs, group, init, x);
      OfCount(xs, group, last, x);
      assert last !in init;
    }
  }

  ghost predicate SortsByGroup<T(!new)>(group: T -> int, key: T -> Key) {
    forall x :: key(x).value == 0.0 && key(x).group == group(x)
  }

  lemma {:induction false} OfSorted<T(!new)>(xs: seq<T>, group: T -> int, key: T -> Key, g: int)
    requires Sorted(xs, key)
    ensures Sorted(Of(xs, group, g), key)
  {
    if xs != [] {
      var init, last := xs[..|xs| - 1], xs[|xs| - 1];
      OfSorted(init, group, key, g);
      forall x | x in Of(init, group, g) ensures AtMost(key(x), key(last)) {
        var i :| 0 <= i < |init| && init[i] == x;
        assert xs[i] == x;
      }
    }
  }

  lemma {:induction false} FlattenMembers<T(!new)>(xs: seq<T>, group: T -> int, gs: seq<int>)
    ensures forall x | x in Flatten(xs, group, gs) :: group(x) in gs
  {
    if gs != [] {
      FlattenMembers(xs, group, gs[..|gs| - 1]);
      assert gs == gs[..|gs| - 1] + [gs[|gs| - 1]];
    }
  }

  lemma {:induction false} FlattenSorted<T(!new)>(xs: seq<T>, group: T -> int, key: T -> Key, gs: seq<int>)
    requires Sorted(xs, key) && SortsByGroup(group, key) && Increasing(gs)
    ensures Sorted(Flatten(xs, group, gs), key)
  {
    if gs != [] {
      var init, last := gs[..|gs| - 1], gs[|gs| - 1];
      FlattenSorted(xs, group, key, init);
      FlattenMembers(xs, group, init);
      OfSorted(xs, group, key, last);
      var a, b := Flatten(xs, group, init), Of(xs, group, last);
      forall x, y | x in a && y in b ensures AtMost(key(x), key(y)) {
        assert group(x) in init;
      }
      ConcatSorted(a, b, key);
    }
  }

  lemma ConcatSorted<T(!new)>(a: seq<T>, b: seq<T>, key: T -> Key)
    requires Sorted(a, key) && Sorted(b, key)
    requires forall x, y | x in a && y in b :: AtMost(key(x), key(y))
    ensures Sorted(a + b, key)
  {
  }

  /** Reading the groups back in session order restores the sorted list. */
  lemma {:induction false} GroupsRestoreOrder<T(!new)>(xs: seq<T>, group: T -> int, key: T -> Key)
    requires Sorted(xs, key) && SortsByGroup(group, key) && KeysDiffer(xs, key)
    ensures Flatten(xs, group, SortedSeq(GroupsOf(xs, group))) == xs
  {
    var gs := SortedSeq(GroupsOf(xs, group));
    var flat := Flatten(xs, group, gs);
    IncreasingDistinct(gs);
    forall x ensures multiset(flat)[x] == multiset(xs)[x] {
      FlattenCount(xs, group, gs, x);
      GroupListed(xs, group, x);
    }
    FlattenSorted(xs, group, key, gs);
    SortedUnique(xs, flat, key);
  }

  lemma GroupListed<T(!new)>(xs: seq<T>, group: T -> int, x: T)
    ensures x in xs ==> group(x) in SortedSeq(GroupsOf(xs, group))
    ensures x !in xs ==> multiset(xs)[x] == 0
  {
    if x in xs {
      var i :| 0 <= i < |xs| && xs[i] == x;
      assert group(xs[i]) in GroupsOf(xs, group);
    } else {
      assert x !in multiset(xs);
    }
  }

  lemma IncreasingDistinct(gs: seq<int>)
    requires Increasing(gs)
    ensures Distinct(gs)
  {
  }
}
