/** The contract of Go's slices.SortFunc, used by the engine to sort hands and candidate
    melds. For slices of at most twelve elements the library runs a stable insertion sort:
    every element moves left past the elements it compares strictly below. SortFunc below
    is that insertion sort. */
module Slices {

  /** No later element compares strictly below an earlier one. */
  ghost predicate SortedBy<T>(s: seq<T>, cmp: (T, T) -> int)
  {
    forall i, j | 0 <= i < j < |s| :: cmp(s[i], s[j]) <= 0
  }

  /** cmp is a consistent comparison on the elements of s: the sign of cmp(a, b) is the
      opposite of the sign of cmp(b, a), and "not after" is transitive. */
  ghost predicate OrderOn<T>(s: seq<T>, cmp: (T, T) -> int)
  {
    && (forall a, b {:trigger a in s, b in s} | a in s && b in s :: cmp(a, b) <= 0 <==> cmp(b, a) >= 0)
    && (forall a, b, c {:trigger a in s, b in s, c in s} | a in s && b in s && c in s ::
          cmp(a, b) <= 0 && cmp(b, c) <= 0 ==> cmp(a, c) <= 0)
  }

  /** Only equal elements compare as 0. */
  ghost predicate StrictOn<T>(s: seq<T>, cmp: (T, T) -> int)
  {
    forall a, b {:trigger a in s, b in s} | a in s && b in s :: cmp(a, b) == 0 ==> a == b
  }

  lemma OrderOnSubset<T>(s: seq<T>, t: seq<T>, cmp: (T, T) -> int)
    requires OrderOn(s, cmp)
    requires forall a | a in t :: a in s
    ensures OrderOn(t, cmp)
  {
  }

  /** One pass of the insertion sort: the new last element moves left past every element
      that it compares strictly below. */
  function InsertLast<T>(s: seq<T>, x: T, cmp: (T, T) -> int): (r: seq<T>)
    ensures multiset(r) == multiset(s) + multiset{x}
  {
    if s == [] || !(cmp(x, s[|s| - 1]) < 0) then s + [x]
    else
      assert s == s[..|s| - 1] + [s[|s| - 1]];
      InsertLast(s[..|s| - 1], x, cmp) + [s[|s| - 1]]
  }

  /** The new element stays last when it does not compare below the current last one. */
  lemma AppendSorted<T>(s: seq<T>, x: T, cmp: (T, T) -> int)
    requires SortedBy(s, cmp) && OrderOn(s + [x], cmp)
    requires s != [] && !(cmp(x, s[|s| - 1]) < 0)
    ensures SortedBy(s + [x], cmp)
  {
    var last := s[|s| - 1];
    assert last in s + [x] && x in s + [x];
    forall i | 0 <= i < |s| ensures cmp(s[i], x) <= 0 {
      assert s[i] in s + [x];
    }
  }

  /** The current last element stays last when the new one compares below it. */
  lemma KeepLastSorted<T>(s: seq<T>, x: T, cmp: (T, T) -> int)
    requires SortedBy(s, cmp) && OrderOn(s + [x], cmp)
    requires s != [] && cmp(x, s[|s| - 1]) < 0
    requires SortedBy(InsertLast(s[..|s| - 1], x, cmp), cmp)
    ensures SortedBy(InsertLast(s, x, cmp), cmp)
  {
    var init, last := s[..|s| - 1], s[|s| - 1];
    var p := InsertLast(init, x, cmp);
    assert InsertLast(s, x, cmp) == p + [last];
    assert last in s + [x] && x in s + [x];
    forall i | 0 <= i < |p| ensures cmp(p[i], last) <= 0 {
      assert p[i] in multiset(p);
      if p[i] != x {
        assert p[i] in multiset(init);
        var k :| 0 <= k < |init| && init[k] == p[i];
        assert s[k] == p[i];
      }
    }
  }

  lemma {:induction false} InsertLastSorted<T>(s: seq<T>, x: T, cmp: (T, T) -> int)
    requires SortedBy(s, cmp) && OrderOn(s + [x], cmp)
    ensures SortedBy(InsertLast(s, x, cmp), cmp)
  {
    if s == [] {
    } else if !(cmp(x, s[|s| - 1]) < 0) {
      AppendSorted(s, x, cmp);
    } else {
      var init := s[..|s| - 1];
      assert s == init + [s[|s| - 1]];
      OrderOnSubset(s + [x], init + [x], cmp);
      InsertLastSorted(init, x, cmp);
      KeepLastSorted(s, x, cmp);
    }
  }

  /** Go's slices.SortFunc as the stable insertion sort it runs on short slices. */
  function SortFunc<T>(s: seq<T>, cmp: (T, T) -> int): (r: seq<T>)
    ensures multiset(r) == multiset(s)
    ensures OrderOn(s, cmp) ==> SortedBy(r, cmp)
  {
    if |s| == 0 then s
    else
      var init, x := s[..|s| - 1], s[|s| - 1];
      assert s == init + [x];
      var p := SortFunc(init, cmp);
      var r := InsertLast(p, x, cmp);
      assert OrderOn(s, cmp) ==> SortedBy(r, cmp) by {
        if OrderOn(s, cmp) {
          OrderOnSubset(s, init, cmp);
          forall a | a in p + [x] ensures a in s {
            if a != x {
              assert a in multiset(p);
            }
          }
          OrderOnSubset(s, p + [x], cmp);
          InsertLastSorted(p, x, cmp);
        }
      }
      r
  }

  /** The first elements of two sorted arrangements of one multiset agree. */
  lemma SortedHeadsAgree<T>(a: seq<T>, b: seq<T>, cmp: (T, T) -> int)
    requires multiset(a) == multiset(b) && a != []
    requires SortedBy(a, cmp) && SortedBy(b, cmp)
    requires OrderOn(a, cmp) && StrictOn(a, cmp)
    ensures b != [] && a[0] == b[0]
  {
    assert |b| == |multiset(b)| == |a|;
    assert a[0] in multiset(b) && b[0] in multiset(a);
    var j :| 0 <= j < |b| && b[j] == a[0];
    var k :| 0 <= k < |a| && a[k] == b[0];
    assert cmp(a[0], a[k]) <= 0 by { assert a[0] in a && a[k] in a; }
    assert cmp(b[0], b[j]) <= 0 by { assert b[0] in a && b[j] in a; }
    assert a[0] in a && b[0] in a;
  }

  lemma TailsAgree<T>(a: seq<T>, b: seq<T>)
    requires multiset(a) == multiset(b) && a != [] && b != [] && a[0] == b[0]
    ensures multiset(a[1..]) == multiset(b[1..])
  {
    RemoveAt(a, 0);
    RemoveAt(b, 0);
    assert a[..0] + a[1..] == a[1..] && b[..0] + b[1..] == b[1..];
  }

  lemma TailOrdered<T>(a: seq<T>, cmp: (T, T) -> int)
    requires a != [] && SortedBy(a, cmp) && OrderOn(a, cmp) && StrictOn(a, cmp)
    ensures SortedBy(a[1..], cmp) && OrderOn(a[1..], cmp) && StrictOn(a[1..], cmp)
  {
    forall x | x in a[1..] ensures x in a {
      var k :| 0 <= k < |a[1..]| && a[1..][k] == x;
      assert a[k + 1] == x;
    }
    OrderOnSubset(a, a[1..], cmp);
    forall i, j | 0 <= i < j < |a[1..]| ensures cmp(a[1..][i], a[1..][j]) <= 0 {
      assert a[1..][i] == a[i + 1] && a[1..][j] == a[j + 1];
    }
  }

  /** Under a strict comparison a multiset has only one sorted arrangement, so the tie order
      of the library sort cannot change the result. */
  lemma {:induction false} SortedUnique<T>(a: seq<T>, b: seq<T>, cmp: (T, T) -> int)
    requires multiset(a) == multiset(b)
    requires SortedBy(a, cmp) && SortedBy(b, cmp)
    requires OrderOn(a, cmp) && StrictOn(a, cmp)
    ensures a == b
  {
    if a != [] {
      SortedHeadsAgree(a, b, cmp);
      TailsAgree(a, b);
      TailOrdered(a, cmp);
      assert SortedBy(b[1..], cmp) by {
        forall i, j | 0 <= i < j < |b[1..]| ensures cmp(b[1..][i], b[1..][j]) <= 0 {
          assert b[1..][i] == b[i + 1] && b[1..][j] == b[j + 1];
        }
      }
      SortedUnique(a[1..], b[1..], cmp);
      assert a == [a[0]] + a[1..] && b == [b[0]] + b[1..];
    } else {
      assert |b| == |multiset(b)| == 0;
    }
  }

  /** Removing the element at index j takes one copy of it out of the multiset. */
  lemma RemoveAt<T>(b: seq<T>, j: nat)
    requires j < |b|
    ensures multiset(b[..j] + b[j + 1..]) == multiset(b) - multiset{b[j]}
    ensures b == b[..j] + [b[j]] + b[j + 1..]
  {
    assert b == b[..j] + [b[j]] + b[j + 1..];
    assert multiset(b) == multiset(b[..j]) + multiset{b[j]} + multiset(b[j + 1..]);
  }

  /** slices.Delete(s, i, i+1): the element at index i is gone, the elements before it stay
      where they were, and the elements after it move one place to the left. */
  function Delete<T>(s: seq<T>, i: nat): (r: seq<T>)
    requires i < |s|
    ensures |r| == |s| - 1
    ensures forall k | 0 <= k < |r| :: r[k] == if k < i then s[k] else s[k + 1]
    ensures multiset(r) == multiset(s) - multiset{s[i]}
  {
    RemoveAt(s, i);
    s[..i] + s[i + 1..]
  }
}
