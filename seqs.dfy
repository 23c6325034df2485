/** Sequence, set and option helpers shared by the previewer modules. */
module Seqs {

  datatype Option<+T> = None | Some(value: T)

  /** No element occurs twice (Python lists used as work queues). */
  predicate Distinct<T(==)>(s: seq<T>)
  {
    forall i, j | 0 <= i < j < |s| :: s[i] != s[j]
  }

  /** `s` read from the back: the order in which `list.pop()` hands out elements. */
  function Reverse<T>(s: seq<T>): (r: seq<T>)
    ensures |r| == |s|
  {
    if s == [] then [] else Reverse(s[1..]) + [s[0]]
  }

  lemma {:induction false} ReverseAt<T>(s: seq<T>, k: nat)
    requires k < |s|
    ensures Reverse(s)[k] == s[|s| - 1 - k]
  {
    if k < |s| - 1 {
      ReverseAt(s[1..], k);
    }
  }

  /** Reversal keeps exactly the same elements and keeps them distinct. */
  lemma ReverseElements<T>(s: seq<T>)
    ensures forall x :: x in Reverse(s) <==> x in s
    ensures Distinct(s) ==> Distinct(Reverse(s))
  {
    forall k | 0 <= k < |s| ensures Reverse(s)[k] == s[|s| - 1 - k] {
      ReverseAt(s, k);
    }
    forall x | x in s ensures x in Reverse(s) {
      var i :| 0 <= i < |s| && s[i] == x;
      assert Reverse(s)[|s| - 1 - i] == x;
    }
  }

  /** Inserting at the front (`insert(0, x)`) puts `x` last in pop order. */
  lemma ReverseCons<T>(x: T, s: seq<T>)
    ensures Reverse([x] + s) == Reverse(s) + [x]
  {
    assert ([x] + s)[1..] == s;
  }

  /** `pop()` takes the first element in pop order and leaves the rest in order. */
  lemma {:induction false} ReverseDropLast<T>(s: seq<T>)
    requires s != []
    ensures Reverse(s)[0] == s[|s| - 1]
    ensures Reverse(s[..|s| - 1]) == Reverse(s)[1..]
  {
    ReverseAt(s, 0);
    if |s| > 1 {
      ReverseDropLast(s[1..]);
      assert s[1..][..|s| - 2] == s[..|s| - 1][1..];
      assert s[..|s| - 1][0] == s[0];
    } else {
      assert s[..|s| - 1] == [];
    }
  }

  lemma DropHead<T>(a: seq<T>, b: seq<T>)
    requires a != []
    ensures (a + b)[1..] == a[1..] + b
  {
  }

  /** Python's `list.remove(x)`: drop the first occurrence of `x`, if any. */
  function RemoveFirst<T(==)>(s: seq<T>, x: T): (r: seq<T>)
    ensures multiset(r) == multiset(s) - multiset{x}
    ensures x !in s ==> r == s
  {
    if s == [] then []
    else if s[0] == x then
      assert s == [s[0]] + s[1..];
      s[1..]
    else
      assert s == [s[0]] + s[1..];
      [s[0]] + RemoveFirst(s[1..], x)
  }

  /** `list.index(x)`: the position of the first occurrence of `x`. */
  function FirstIndex<T(==)>(s: seq<T>, x: T): (i: nat)
    requires x in s
    ensures i < |s| && s[i] == x && x !in s[..i]
  {
    if s[0] == x then 0
    else
      var j := FirstIndex(s[1..], x);
      assert s[..j + 1] == [s[0]] + s[1..][..j];
      j + 1
  }

  /**
   * `remove` takes out the first occurrence of `x` and keeps every other
   * element in its order.
   */
  lemma {:induction false} RemoveFirstKeepsOrder<T>(s: seq<T>, x: T)
    requires x in s
    ensures var i := FirstIndex(s, x); RemoveFirst(s, x) == s[..i] + s[i + 1..]
  {
    if s[0] == x {
      assert s[..0] + s[1..] == s[1..];
    } else {
      var j := FirstIndex(s[1..], x);
      RemoveFirstKeepsOrder(s[1..], x);
      SkipInTail(s, j);
    }
  }

  /** Skipping index `j` of the tail is skipping index `j + 1` of the whole. */
  lemma SkipInTail<T>(s: seq<T>, j: nat)
    requires j + 1 < |s|
    ensures [s[0]] + (s[1..][..j] + s[1..][j + 1..]) == s[..j + 1] + s[j + 2..]
  {
    assert s[..j + 1] == [s[0]] + s[1..][..j];
    assert s[j + 2..] == s[1..][j + 1..];
  }

  /** `remove` never introduces an element. */
  lemma {:induction false} RemoveFirstSubset<T>(s: seq<T>, x: T, y: T)
    requires y in RemoveFirst(s, x)
    ensures y in s
  {
    if s != [] && s[0] != x && y != s[0] {
      assert y in RemoveFirst(s[1..], x);
      RemoveFirstSubset(s[1..], x, y);
    }
  }

  /** On a list without repetitions, `remove(x)` takes `x` out completely. */
  lemma {:induction false} RemoveFirstDistinct<T>(s: seq<T>, x: T)
    requires Distinct(s)
    ensures Distinct(RemoveFirst(s, x)) && x !in RemoveFirst(s, x)
  {
    if s != [] {
      var tail := s[1..];
      assert Distinct(tail);
      if s[0] == x {
        assert x !in tail;
      } else {
        RemoveFirstDistinct(tail, x);
        var r := RemoveFirst(tail, x);
        assert s[0] !in r by {
          if s[0] in r {
            RemoveFirstSubset(tail, x, s[0]);
            assert false;
          }
        }
        assert RemoveFirst(s, x) == [s[0]] + r;
        DistinctCons(s[0], r);
      }
    }
  }

  lemma DistinctCons<T>(a: T, s: seq<T>)
    requires a !in s && Distinct(s)
    ensures Distinct([a] + s)
  {
    forall i, j | 0 <= i < j < |[a] + s| ensures ([a] + s)[i] != ([a] + s)[j] {
      if i == 0 {
        assert s[j - 1] in s;
      }
    }
  }

  ghost predicate StrictlyAscending(s: seq<int>)
  {
    forall i, j | 0 <= i < j < |s| :: s[i] < s[j]
  }

  /** `s` lists the elements of `keys` in ascending order, each once. */
  ghost predicate AscendingOf(s: seq<int>, keys: set<int>)
  {
    StrictlyAscending(s) && forall x :: x in s <==> x in keys
  }

  /** The head of an ascending listing is the least key; the tail lists the rest. */
  lemma AscendingOfTail(s: seq<int>, keys: set<int>)
    requires AscendingOf(s, keys) && s != []
    ensures s[0] in keys && forall y | y in keys :: s[0] <= y
    ensures AscendingOf(s[1..], keys - {s[0]})
  {
    assert s[0] in s;
    forall y | y in keys ensures s[0] <= y {
      var k :| 0 <= k < |s| && s[k] == y;
      if k > 0 { assert s[0] < s[k]; }
    }
    forall x ensures x in s[1..] <==> x in keys - {s[0]} {
      if x in s[1..] {
        var k :| 1 <= k < |s| && s[k] == x;
        assert s[0] < s[k];
      }
      if x in keys - {s[0]} {
        var k :| 0 <= k < |s| && s[k] == x;
        assert s[1..][k - 1] == x;
      }
    }
  }

  /** There is only one ascending listing of a finite set. */
  lemma {:induction false} AscendingUnique(s1: seq<int>, s2: seq<int>, keys: set<int>)
    requires AscendingOf(s1, keys) && AscendingOf(s2, keys)
    ensures s1 == s2
    decreases |s1|
  {
    if s1 == [] || s2 == [] {
      assert forall x :: x in keys ==> x in s1 && x in s2;
      if s1 != [] {
        AscendingOfTail(s1, keys);
        assert false;
      }
      if s2 != [] {
        AscendingOfTail(s2, keys);
        assert false;
      }
    } else {
      AscendingOfTail(s1, keys);
      AscendingOfTail(s2, keys);
      assert s1[0] == s2[0];
      AscendingUnique(s1[1..], s2[1..], keys - {s1[0]});
      assert s1 == [s1[0]] + s1[1..];
      assert s2 == [s2[0]] + s2[1..];
    }
  }

  lemma NonEmptyHasElement(keys: set<int>)
    requires keys != {}
    ensures exists x :: x in keys
  {
    if forall x :: x !in keys {
      assert false;
    }
  }

  /** Every non-empty finite set of integers has a least element. */
  lemma {:induction false} HasMinimum(keys: set<int>)
    requires keys != {}
    ensures exists m :: m in keys && forall y | y in keys :: m <= y
    decreases |keys|
  {
    NonEmptyHasElement(keys);
    var x :| x in keys;
    if keys == {x} {
      assert forall y | y in keys :: x <= y;
    } else {
      var rest := keys - {x};
      HasMinimum(rest);
      var m :| m in rest && forall y | y in rest :: m <= y;
      var least := if m <= x then m else x;
      forall y | y in keys ensures least <= y {
        if y != x { assert y in rest; }
      }
      assert least in keys;
    }
  }

  /** Putting a key below all others in front of an ascending listing. */
  lemma ConsAscending(m: int, rest: seq<int>, keys: set<int>)
    requires m in keys && forall y | y in keys :: m <= y
    requires AscendingOf(rest, keys - {m})
    ensures AscendingOf([m] + rest, keys)
  {
    forall i, j | 0 <= i < j < |[m] + rest| ensures ([m] + rest)[i] < ([m] + rest)[j] {
      if i == 0 {
        assert rest[j - 1] in rest;
      }
    }
  }

  /** The ascending listing of a finite set of integers. */
  ghost function Ascending(keys: set<int>): (s: seq<int>)
    ensures AscendingOf(s, keys) && |s| == |keys|
    ensures forall i | 0 <= i < |s| :: s[i] in keys
    decreases |keys|
  {
    if keys == {} then []
    else
      HasMinimum(keys);
      var m :| m in keys && forall y | y in keys :: m <= y;
      var rest := Ascending(keys - {m});
      ConsAscending(m, rest, keys);
      [m] + rest
  }

  /** Selection sort so far: `s` lists, ascending, the keys not in `remaining`, all below it. */
  ghost predicate SortedPrefix(s: seq<int>, remaining: set<int>, keys: set<int>)
  {
    && remaining <= keys
    && StrictlyAscending(s)
    && (forall x :: x in s <==> x in keys && x !in remaining)
    && (forall x, y | x in s && y in remaining :: x < y)
    && |s| + |remaining| == |keys|
  }

  /** Moving the least remaining key to the end of `s` keeps `SortedPrefix`. */
  lemma SortStep(s: seq<int>, remaining: set<int>, keys: set<int>, m: int)
    requires SortedPrefix(s, remaining, keys)
    requires m in remaining && forall y | y in remaining :: m <= y
    ensures SortedPrefix(s + [m], remaining - {m}, keys)
  {
    assert forall x | x in s :: x < m;
    forall i, j | 0 <= i < j < |s| + 1 ensures (s + [m])[i] < (s + [m])[j] {
      if j == |s| { assert s[i] in s; }
    }
  }

  /** `sorted(keys)` for a set of integer times. */
  method SortedKeys(keys: set<int>) returns (s: seq<int>)
    ensures s == Ascending(keys)
  {
    s := [];
    var remaining := keys;
    while remaining != {}
      invariant SortedPrefix(s, remaining, keys)
      decreases |remaining|
    {
      HasMinimum(remaining);
      var m :| m in remaining && forall y | y in remaining :: m <= y;
      SortStep(s, remaining, keys, m);
      s := s + [m];
      remaining := remaining - {m};
    }
    AscendingUnique(s, Ascending(keys), keys);
  }
}
