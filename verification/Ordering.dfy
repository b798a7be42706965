/** Sorting by key. Every sort in the modelled programs orders by a number, then by a group (a session or a run),
    then by a name (a symbol, a time or an identity), so one key type serves all. */
module Ordering {
  import opened FiniteSums

  datatype Key = Key(value: real, group: int, name: int)

  predicate AtMost(a: Key, b: Key) {
    a.value < b.value ||
    (a.value == b.value && (a.group < b.group || (a.group == b.group && a.name <= b.name)))
  }

  const NUMBER_KEY: int -> Key := (n: int) => Key(0.0, 0, n)

  ghost predicate Sorted<T>(s: seq<T>, key: T -> Key) {
    forall i, j | 0 <= i < j < |s| :: AtMost(key(s[i]), key(s[j]))
  }

  /** No two members share a key. */
  ghost predicate KeysDiffer<T>(s: seq<T>, key: T -> Key) {
    forall x, y | x in s && y in s && key(x) == key(y) :: x == y
  }

  ghost predicate Distinct<T>(s: seq<T>) {
    forall i, j | 0 <= i < j < |s| :: s[i] != s[j]
  }

  function Elements<T(==)>(s: seq<T>): set<T> {
    set x | x in s
  }

  function Insert<T>(x: T, s: seq<T>, key: T -> Key): (r: seq<T>)
    requires Sorted(s, key)
    ensures Sorted(r, key)
    ensures multiset(r) == multiset{x} + multiset(s)
  {
    if s == [] || AtMost(key(x), key(s[0])) then
      assert forall i | 0 <= i < |s| :: AtMost(key(x), key(s[i]));
      [x] + s
    else
      var rest := Insert(x, s[1..], key);
      HeadStaysFirst(x, s, rest, key);
      assert s == [s[0]] + s[1..];
      [s[0]] + rest
  }

  /** The head of a sorted list precedes its tail and anything it does not exceed. */
  lemma HeadStaysFirst<T>(x: T, s: seq<T>, rest: seq<T>, key: T -> Key)
    requires s != [] && Sorted(s, key) && AtMost(key(s[0]), key(x))
    requires multiset(rest) == multiset{x} + multiset(s[1..])
    ensures forall i | 0 <= i < |rest| :: AtMost(key(s[0]), key(rest[i]))
  {
    forall i | 0 <= i < |rest| ensures AtMost(key(s[0]), key(rest[i])) {
      assert rest[i] in multiset(rest);
      if rest[i] != x {
        assert rest[i] in s[1..];
        var j :| 0 <= j < |s[1..]| && s[1..][j] == rest[i];
        assert s[j + 1] == rest[i];
      }
    }
  }

  /** The library's stable sort. */
  function Sort<T>(s: seq<T>, key: T -> Key): (r: seq<T>)
    ensures Sorted(r, key)
    ensures multiset(r) == multiset(s)
  {
    if s == [] then [] else
      assert s == [s[0]] + s[1..];
      Insert(s[0], Sort(s[1..], key), key)
  }

  lemma SameMembers<T>(a: seq<T>, b: seq<T>)
    requires multiset(a) == multiset(b)
    ensures |a| == |b|
    ensures Elements(a) == Elements(b)
    ensures forall x :: x in a <==> x in b
  {
    assert |multiset(a)| == |a| && |multiset(b)| == |b|;
    forall x
      ensures x in a <==> x in b
    {
      assert x in a <==> x in multiset(a);
      assert x in b <==> x in multiset(b);
    }
  }

  lemma SameHead<T>(a: seq<T>, b: seq<T>, key: T -> Key)
    requires multiset(a) == multiset(b) && a != []
    requires Sorted(a, key) && Sorted(b, key)
    ensures b != [] && key(a[0]) == key(b[0]) && b[0] in a
  {
    SameMembers(a, b);
    assert a[0] in b && b[0] in a;
    var i :| 0 <= i < |b| && b[i] == a[0];
    var j :| 0 <= j < |a| && a[j] == b[0];
    assert AtMost(key(b[0]), key(b[i])) && AtMost(key(a[0]), key(a[j]));
  }

  lemma SortedTail<T>(a: seq<T>, key: T -> Key)
    requires a != [] && Sorted(a, key)
    ensures Sorted(a[1..], key)
    ensures multiset(a[1..]) == multiset(a) - multiset{a[0]}
  {
    assert a == [a[0]] + a[1..];
  }

  /** A permutation sorted by a key that tells its members apart is unique. */
  lemma {:induction false} SortedUnique<T>(a: seq<T>, b: seq<T>, key: T -> Key)
    requires multiset(a) == multiset(b)
    requires Sorted(a, key) && Sorted(b, key)
    requires KeysDiffer(a, key)
    ensures a == b
    decreases |a|
  {
    SameMembers(a, b);
    if a != [] {
      SameHead(a, b, key);
      assert a[0] == b[0];
      SortedTail(a, key);
      SortedTail(b, key);
      KeysDifferTail(a, key);
      SortedUnique(a[1..], b[1..], key);
      assert a == [a[0]] + a[1..] && b == [b[0]] + b[1..];
    }
  }

  lemma KeysDifferTail<T>(a: seq<T>, key: T -> Key)
    requires a != [] && KeysDiffer(a, key)
    ensures KeysDiffer(a[1..], key)
  {
    forall x, y | x in a[1..] && y in a[1..] && key(x) == key(y)
      ensures x == y
    {
      assert x in a && y in a;
    }
  }

  lemma KeysDifferPermutation<T>(a: seq<T>, b: seq<T>, key: T -> Key)
    requires multiset(a) == multiset(b) && KeysDiffer(a, key)
    ensures KeysDiffer(b, key)
  {
    SameMembers(a, b);
  }

  lemma {:induction false} SortUnique<T>(s: seq<T>, t: seq<T>, key: T -> Key)
    requires multiset(s) == multiset(t)
    requires KeysDiffer(s, key)
    ensures Sort(s, key) == Sort(t, key)
  {
    KeysDifferPermutation(s, Sort(s, key), key);
    SortedUnique(Sort(s, key), Sort(t, key), key);
  }

  lemma {:induction false} DistinctByMultiset<T>(s: seq<T>)
    ensures Distinct(s) <==> forall x | x in multiset(s) :: multiset(s)[x] == 1
  {
    if s != [] {
      var rest := s[1..];
      DistinctByMultiset(rest);
      assert s == [s[0]] + rest;
      assert multiset(s) == multiset{s[0]} + multiset(rest);
      if Distinct(s) {
        assert Distinct(rest);
        assert s[0] !in rest;
      }
      if forall x | x in multiset(s) :: multiset(s)[x] == 1 {
        assert multiset(s)[s[0]] == 1;
        assert s[0] !in rest;
        forall x | x in multiset(rest) ensures multiset(rest)[x] == 1 {
          assert x in multiset(s);
        }
        assert Distinct(rest);
        forall i, j | 0 <= i < j < |s| ensures s[i] != s[j] {
          assert s[j] == rest[j - 1];
          if i > 0 {
            assert s[i] == rest[i - 1];
          }
        }
      }
    }
  }

  lemma PermutationDistinct<T>(a: seq<T>, b: seq<T>)
    requires multiset(a) == multiset(b)
    requires Distinct(a)
    ensures Distinct(b)
  {
    DistinctByMultiset(a);
    DistinctByMultiset(b);
  }

  lemma {:induction false} DistinctCardinality<T>(s: seq<T>)
    requires Distinct(s)
    ensures |Elements(s)| == |s|
  {
    if s == [] {
      assert Elements(s) == {};
    } else {
      DistinctCardinality(s[1..]);
      assert s[0] !in s[1..];
      assert Elements(s) == Elements(s[1..]) + {s[0]};
    }
  }

  /** Counting distinct members detects every duplicate. */
  lemma {:induction false} CardinalityDetectsDuplicates<T>(s: seq<T>)
    ensures |Elements(s)| <= |s|
    ensures |Elements(s)| == |s| <==> Distinct(s)
  {
    if s == [] {
      assert Elements(s) == {};
    } else {
      CardinalityDetectsDuplicates(s[1..]);
      assert Elements(s) == Elements(s[1..]) + {s[0]};
      assert Distinct(s) <==> s[0] !in s[1..] && Distinct(s[1..]) by {
        TailDistinct(s);
      }
    }
  }

  lemma TailDistinct<T>(s: seq<T>)
    requires s != []
    ensures Distinct(s) <==> s[0] !in s[1..] && Distinct(s[1..])
  {
    assert forall i | 0 < i < |s| :: s[i] == s[1..][i - 1];
    if s[0] !in s[1..] && Distinct(s[1..]) {
      forall i, j | 0 <= i < j < |s| ensures s[i] != s[j] {
        assert s[j] == s[1..][j - 1];
        if i > 0 {
          assert s[i] == s[1..][i - 1];
        }
      }
    }
  }

  /** A list already sorted by a telling key is what sorting returns. */
  lemma {:induction false} SortOfSorted<T>(s: seq<T>, key: T -> Key)
    requires Sorted(s, key) && KeysDiffer(s, key)
    ensures Sort(s, key) == s
  {
    SortedUnique(s, Sort(s, key), key);
  }

  // ---- sorted(set) ----

  ghost predicate Increasing(s: seq<int>) {
    forall i, j | 0 <= i < j < |s| :: s[i] < s[j]
  }

  ghost predicate IsSortedSet(r: seq<int>, s: set<int>) {
    Increasing(r) && forall x :: x in r <==> x in s
  }

  lemma EmptySortedSet(a: seq<int>, s: set<int>)
    requires IsSortedSet(a, s)
    ensures a == [] <==> s == {}
  {
    if a == [] {
      assert forall x :: x !in s;
    } else {
      assert a[0] in a;
    }
  }

  /** The members of a sorted enumeration are determined by the set. */
  lemma {:induction false} SortedSetUnique(a: seq<int>, b: seq<int>, s: set<int>)
    requires IsSortedSet(a, s) && IsSortedSet(b, s)
    ensures a == b
    decreases |a|
  {
    EmptySortedSet(a, s);
    EmptySortedSet(b, s);
    if a != [] {
      assert a[0] in b && b[0] in a;
      assert a[0] == b[0];
      forall x ensures x in a[1..] <==> x in s - {a[0]} {
        assert a == [a[0]] + a[1..];
        assert forall i | 0 <= i < |a[1..]| :: a[1..][i] == a[i + 1] > a[0];
      }
      forall x ensures x in b[1..] <==> x in s - {a[0]} {
        assert b == [b[0]] + b[1..];
        assert forall i | 0 <= i < |b[1..]| :: b[1..][i] == b[i + 1] > b[0];
      }
      SortedSetUnique(a[1..], b[1..], s - {a[0]});
      assert a == [a[0]] + a[1..] && b == [b[0]] + b[1..];
    }
  }

  function SortedSeq(s: set<int>): (r: seq<int>)
    ensures IsSortedSet(r, s)
    ensures |r| == |s|
    decreases |s|
  {
    if s == {} then [] else
      var m := MinOf(s);
      var rest := SortedSeq(s - {m});
      assert forall i | 0 <= i < |rest| :: rest[i] in rest;
      [m] + rest
  }
}
