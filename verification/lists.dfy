/**
 * Python list behaviour the handlers depend on: `list.remove` (first
 * occurrence only), order-preserving sub-lists, and a mutable list object
 * that several names can share.
 */
module Lists {

  /** Python's `list.remove(x)` on a value: the first occurrence of `x` is taken
      out and the rest keeps its order; a list without `x` comes back as it is
      (where Python would raise ValueError, which MutableList.Remove reports). */
  function RemoveFirst<T(==)>(s: seq<T>, x: T): (r: seq<T>)
    ensures x !in s ==> r == s
    ensures x in s ==> |r| == |s| - 1
    ensures multiset(r) == multiset(s) - multiset{x}
  {
    if s == [] then []
    else
      assert s == [s[0]] + s[1..];
      if s[0] == x then s[1..] else [s[0]] + RemoveFirst(s[1..], x)
  }

  /** Cutting position `i` out of `s` keeps the head and cuts position `i - 1` out of the tail. */
  lemma CutCons<T>(s: seq<T>, i: nat)
    requires 0 < i < |s|
    ensures s[..i] + s[i + 1..] == [s[0]] + (s[1..][..i - 1] + s[1..][i..])
    ensures s[..i] == [s[0]] + s[1..][..i - 1]
  {
    assert s[..i] == [s[0]] + s[1..][..i - 1];
    assert s[i + 1..] == s[1..][i..];
  }

  /** The element taken out is the first occurrence: `i` is its position,
      nothing before it is `x`, and the result is `s` with position `i` cut out. */
  lemma {:induction false} RemoveFirstIsFirst<T>(s: seq<T>, x: T) returns (i: nat)
    requires x in s
    ensures i < |s| && s[i] == x && x !in s[..i] && RemoveFirst(s, x) == s[..i] + s[i + 1..]
  {
    if s[0] == x {
      i := 0;
    } else {
      var t := s[1..];
      assert x in t by {
        assert s == [s[0]] + t;
      }
      var j := RemoveFirstIsFirst(t, x);
      i := j + 1;
      CutCons(s, i);
    }
  }

  /** No element occurs twice, as with the names of a cluster's namespaces. */
  predicate Distinct<T(==)>(s: seq<T>)
  {
    forall i, j :: 0 <= i < j < |s| ==> s[i] != s[j]
  }

  /** Membership in a non-empty list: in the front part or the last element. */
  lemma InLast<T>(s: seq<T>, x: T)
    requires s != []
    ensures x in s <==> x in s[..|s| - 1] || x == s[|s| - 1]
  {
    assert s == s[..|s| - 1] + [s[|s| - 1]];
  }

  /** How many times `x` occurs in `s` after removing the first `y`. */
  lemma RemoveFirstCount<T>(s: seq<T>, y: T, x: T)
    ensures multiset(RemoveFirst(s, y))[x]
         == if x != y then multiset(s)[x] else if multiset(s)[x] >= 1 then multiset(s)[x] - 1 else 0
  {
  }

  /** One more element at the end counts once more for itself only. */
  lemma CountLast<T>(s: seq<T>, x: T)
    requires s != []
    ensures multiset(s)[x] == multiset(s[..|s| - 1])[x] + if x == s[|s| - 1] then 1 else 0
  {
    assert s == s[..|s| - 1] + [s[|s| - 1]];
  }

  /** Removing the first occurrence from a list without repetitions removes the element entirely. */
  lemma {:induction false} RemoveFirstDistinct<T>(s: seq<T>, x: T)
    requires Distinct(s)
    ensures x !in RemoveFirst(s, x)
    ensures forall y :: y in RemoveFirst(s, x) <==> y in s && y != x
  {
    if s != [] && s[0] != x {
      assert Distinct(s[1..]) by {
        forall i, j | 0 <= i < j < |s[1..]| ensures s[1..][i] != s[1..][j] {
          assert s[1..][i] == s[i + 1] && s[1..][j] == s[j + 1];
        }
      }
      RemoveFirstDistinct(s[1..], x);
    } else if s != [] {
      forall y | y in s[1..] ensures y != x {
        var j :| 0 <= j < |s[1..]| && s[1..][j] == y;
        assert s[j + 1] == y;
      }
      assert s == [s[0]] + s[1..];
    }
  }

  /** `idx` lists, in increasing order, positions of `b` that spell out `a`. */
  ghost predicate Embedding<T>(idx: seq<nat>, a: seq<T>, b: seq<T>)
  {
    && |idx| == |a|
    && (forall i, j :: 0 <= i < j < |idx| ==> idx[i] < idx[j])
    && (forall i :: 0 <= i < |idx| ==> idx[i] < |b| && a[i] == b[idx[i]])
  }

  /** `a` is `b` with some elements left out and the rest in their original order. */
  ghost predicate IsSubsequence<T>(a: seq<T>, b: seq<T>)
  {
    exists idx :: Embedding(idx, a, b)
  }

  lemma SubsequenceRefl<T>(a: seq<T>)
    ensures IsSubsequence(a, a)
  {
    var idx := seq(|a|, k requires 0 <= k < |a| => k as nat);
    assert Embedding(idx, a, a);
  }

  /** Appending the same element to both sides, or only to the longer one, keeps a sub-list a sub-list. */
  lemma SubsequenceSnoc<T>(a: seq<T>, b: seq<T>, x: T)
    requires IsSubsequence(a, b)
    ensures IsSubsequence(a + [x], b + [x])
    ensures IsSubsequence(a, b + [x])
  {
    var idx :| Embedding(idx, a, b);
    var end: nat := |b|;
    var extended := idx + [end];
    assert Embedding(extended, a + [x], b + [x]);
    assert Embedding(idx, a, b + [x]);
  }

  /** Putting the same element in front of both sides keeps a sub-list a sub-list. */
  lemma SubsequenceCons<T>(a: seq<T>, b: seq<T>, x: T)
    requires IsSubsequence(a, b)
    ensures IsSubsequence([x] + a, [x] + b)
  {
    var idx :| Embedding(idx, a, b);
    var shifted := [0] + seq(|idx|, k requires 0 <= k < |idx| => idx[k] + 1);
    assert Embedding(shifted, [x] + a, [x] + b);
  }

  /** A sub-list of a sub-list is a sub-list. */
  lemma SubsequenceTrans<T>(a: seq<T>, b: seq<T>, c: seq<T>)
    requires IsSubsequence(a, b) && IsSubsequence(b, c)
    ensures IsSubsequence(a, c)
  {
    var ab :| Embedding(ab, a, b);
    var bc :| Embedding(bc, b, c);
    var ac := seq(|ab|, k requires 0 <= k < |ab| => bc[ab[k]]);
    assert Embedding(ac, a, c);
  }

  /** Removing the first occurrence keeps the order of everything else. */
  lemma {:induction false} RemoveFirstSubsequence<T>(s: seq<T>, x: T)
    ensures IsSubsequence(RemoveFirst(s, x), s)
  {
    if s == [] {
      SubsequenceRefl(s);
    } else if s[0] == x {
      var idx := seq(|s| - 1, k requires 0 <= k < |s| - 1 => (k + 1) as nat);
      assert Embedding(idx, s[1..], s);
    } else {
      RemoveFirstSubsequence(s[1..], x);
      SubsequenceCons(RemoveFirst(s[1..], x), s[1..], s[0]);
      assert [s[0]] + s[1..] == s;
    }
  }

  /** A Python list object: a mutable sequence that several variables may name at once. */
  class MutableList<T(==)> {
    var items: seq<T>

    constructor (items: seq<T>)
      ensures this.items == items
    {
      this.items := items;
    }

    /** `list.append(x)`. */
    method Append(x: T)
      modifies this
      ensures items == old(items) + [x]
    {
      items := items + [x];
    }

    /** `list.remove(x)`: `found` is false where Python raises ValueError, and then nothing changes. */
    method Remove(x: T) returns (found: bool)
      modifies this
      ensures found == (x in old(items))
      ensures items == RemoveFirst(old(items), x)
    {
      found := x in items;
      items := RemoveFirst(items, x);
    }
  }
}
