/** Order-preserving sub-lists: what remains of a list after deleting some of its elements.
    permuteSet in old-script.js enumerates them by deleting one element at a time. */
module Subsequences {
  import opened Slices

  /** sub is s with some elements deleted and the others kept in order. */
  predicate IsSub<T(==)>(sub: seq<T>, s: seq<T>)
    decreases |s|
  {
    if sub == [] then true
    else if s == [] then false
    else (sub[0] == s[0] && IsSub(sub[1..], s[1..])) || IsSub(sub, s[1..])
  }

  /** A sub-list is no longer than the list. */
  lemma {:induction false} SubLength<T>(sub: seq<T>, s: seq<T>)
    requires IsSub(sub, s)
    ensures |sub| <= |s|
    decreases |s|
  {
    if sub != [] {
      if sub[0] == s[0] && IsSub(sub[1..], s[1..]) {
        SubLength(sub[1..], s[1..]);
      } else {
        SubLength(sub, s[1..]);
      }
    }
  }

  /** Every list is a sub-list of itself. */
  lemma {:induction false} SubRefl<T>(s: seq<T>)
    ensures IsSub(s, s)
    decreases |s|
  {
    if s != [] {
      SubRefl(s[1..]);
    }
  }

  /** A sub-list as long as the list is the list itself. */
  lemma {:induction false} SubFull<T>(sub: seq<T>, s: seq<T>)
    requires IsSub(sub, s) && |sub| == |s|
    ensures sub == s
    decreases |s|
  {
    if sub != [] {
      if sub[0] == s[0] && IsSub(sub[1..], s[1..]) {
        SubFull(sub[1..], s[1..]);
        assert sub == [sub[0]] + sub[1..];
        assert s == [s[0]] + s[1..];
      } else {
        SubLength(sub, s[1..]);
        assert false;
      }
    }
  }

  /** A sub-list of a sub-list is a sub-list. */
  lemma {:induction false} SubTrans<T>(a: seq<T>, b: seq<T>, c: seq<T>)
    requires IsSub(a, b) && IsSub(b, c)
    ensures IsSub(a, c)
    decreases |c|
  {
    if a != [] {
      assert b != [] && c != [];
      if b[0] == c[0] && IsSub(b[1..], c[1..]) {
        if a[0] == b[0] && IsSub(a[1..], b[1..]) {
          SubTrans(a[1..], b[1..], c[1..]);
        } else {
          SubTrans(a, b[1..], c[1..]);
        }
      } else {
        SubTrans(a, b, c[1..]);
      }
    }
  }

  /** Putting the first element of a list in front of a sub-list of its tail gives a
      sub-list. */
  lemma Cons<T>(sub: seq<T>, s: seq<T>)
    requires s != [] && IsSub(sub, s[1..])
    ensures IsSub([s[0]] + sub, s)
  {
    assert ([s[0]] + sub)[1..] == sub;
  }

  /** Deleting past the first element keeps the first element in front. */
  lemma DeleteCons<T>(s: seq<T>, i: nat)
    requires 0 < i < |s|
    ensures Delete(s, i) == [s[0]] + Delete(s[1..], i - 1)
  {
    assert s[1..][..i - 1] == s[1..i];
    assert s[1..][i..] == s[i + 1..];
    assert s[..i] == [s[0]] + s[1..i];
  }

  /** Deleting the element at index i leaves a sub-list. */
  lemma {:induction false} DeleteSub<T>(s: seq<T>, i: nat)
    requires i < |s|
    ensures IsSub(Delete(s, i), s)
    decreases |s|
  {
    if i == 0 {
      assert Delete(s, i) == s[1..];
      SubRefl(s[1..]);
    } else {
      DeleteSub(s[1..], i - 1);
      DeleteCons(s, i);
      Cons(Delete(s[1..], i - 1), s);
    }
  }

  /** A sub-list shorter than the list is a sub-list of the list with one element deleted. */
  lemma {:induction false} SubOfDelete<T>(sub: seq<T>, s: seq<T>) returns (i: nat)
    requires IsSub(sub, s) && |sub| < |s|
    ensures i < |s| && IsSub(sub, Delete(s, i))
    decreases |s|
  {
    if sub == [] {
      i := 0;
    } else if sub[0] == s[0] && IsSub(sub[1..], s[1..]) {
      var j := SubOfDelete(sub[1..], s[1..]);
      i := j + 1;
      var d := Delete(s, i);
      assert d[0] == s[0];
      assert d[1..] == Delete(s[1..], j);
    } else {
      i := 0;
      assert Delete(s, 0) == s[1..];
    }
  }
}
