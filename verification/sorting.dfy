/** A descending sort of a sequence on a real-valued key.

    The host's `Array.prototype.sort` with a comparator `(a, b) => key(b) - key(a)`
    promises a permutation of its input that is non-increasing on the key and
    nothing about the order of ties. `SortDescending` is one such permutation
    (an insertion sort); `KeysDetermined` shows that every other admissible
    result carries the same key at every position, so nothing a caller can
    observe through the key depends on which one the host picks. */
module Sorting {

  /** No element of `s` is followed by one with a larger key. */
  ghost predicate Descending<T>(s: seq<T>, key: T -> real) {
    forall i, j :: 0 <= i < j < |s| ==> key(s[i]) >= key(s[j])
  }

  /** `x` placed into the descending sequence `s` in front of the first element
      whose key is smaller. */
  function Insert<T>(x: T, s: seq<T>, key: T -> real): (r: seq<T>)
    ensures multiset(r) == multiset(s) + multiset{x}
    ensures |r| == |s| + 1
    ensures r[0] == x || (|s| > 0 && r[0] == s[0])
    ensures Descending(s, key) ==> Descending(r, key)
  {
    if |s| == 0 || key(x) >= key(s[0]) then
      [x] + s
    else
      assert s == [s[0]] + s[1..];
      [s[0]] + Insert(x, s[1..], key)
  }

  /** A copy of `s` ordered from the largest key to the smallest. */
  function SortDescending<T>(s: seq<T>, key: T -> real): (r: seq<T>)
    ensures multiset(r) == multiset(s)
    ensures |r| == |s|
    ensures Descending(r, key)
  {
    if |s| == 0 then
      []
    else
      assert s == [s[0]] + s[1..];
      Insert(s[0], SortDescending(s[1..], key), key)
  }

  /** Dropping one element keeps a sequence descending. */
  lemma DescendingWithout<T>(s: seq<T>, j: nat, key: T -> real)
    requires j < |s|
    requires Descending(s, key)
    ensures Descending(s[..j] + s[j + 1..], key)
  {
  }

  /** Two descending orderings of the same elements start with the same key. */
  lemma HeadKeysAgree<T>(a: seq<T>, b: seq<T>, key: T -> real)
    requires multiset(a) == multiset(b)
    requires Descending(a, key) && Descending(b, key)
    requires |a| > 0 && |b| > 0
    ensures key(a[0]) == key(b[0])
  {
    assert a[0] in multiset(b);
    var j :| 0 <= j < |b| && b[j] == a[0];
    assert b[0] in multiset(a);
    var k :| 0 <= k < |a| && a[k] == b[0];
  }

  /** Removing the element at `j` removes one occurrence of it from the multiset. */
  lemma MultisetWithout<T>(s: seq<T>, j: nat)
    requires j < |s|
    ensures multiset(s[..j] + s[j + 1..]) == multiset(s) - multiset{s[j]}
  {
    assert s == s[..j] + [s[j]] + s[j + 1..];
  }

  /** If `b'`, which is `b` with its element at `j` removed, agrees key by key
      with `a[1..]`, and every element of `b` up to `j` has the key of `a[0]`,
      then `b` agrees key by key with `a`. */
  lemma ReinsertKeys<T>(a: seq<T>, b: seq<T>, b': seq<T>, j: nat, key: T -> real)
    requires |a| == |b| && j < |b| && b' == b[..j] + b[j + 1..]
    requires forall i :: 0 <= i <= j ==> key(b[i]) == key(a[0])
    requires forall i :: 0 <= i < |b'| ==> key(a[i + 1]) == key(b'[i])
    ensures forall i :: 0 <= i < |a| ==> key(a[i]) == key(b[i])
  {
    forall i | 0 <= i < |a|
      ensures key(a[i]) == key(b[i])
    {
      if i == 0 {
      } else if i <= j {
        assert b'[i - 1] == b[i - 1];
      } else {
        assert b'[i - 1] == b[i];
      }
    }
  }

  /** In a descending sequence whose first and `j`-th keys are equal, every key
      in between equals them too. */
  lemma FlatPrefix<T>(b: seq<T>, j: nat, key: T -> real)
    requires j < |b| && Descending(b, key) && key(b[0]) == key(b[j])
    ensures forall i :: 0 <= i <= j ==> key(b[i]) == key(b[0])
  {
  }

  /** Matching `a[0]` with its occurrence at `j` in `b` and dropping both leaves
      the same multiset on each side. */
  lemma DropMatched<T>(a: seq<T>, b: seq<T>, j: nat)
    requires multiset(a) == multiset(b)
    requires 0 < |a| && j < |b| && b[j] == a[0]
    ensures multiset(a[1..]) == multiset(b[..j] + b[j + 1..])
  {
    MultisetWithout(b, j);
    MultisetWithout(a, 0);
    assert a[..0] + a[1..] == a[1..];
  }

  /** Two descending orderings of the same multiset of elements agree on the key
      at every position: they can differ only by the order of equal-key ties. */
  lemma {:induction false} KeysDetermined<T>(a: seq<T>, b: seq<T>, key: T -> real)
    requires multiset(a) == multiset(b)
    requires Descending(a, key) && Descending(b, key)
    ensures |a| == |b|
    ensures forall i :: 0 <= i < |a| ==> key(a[i]) == key(b[i])
    decreases |a|
  {
    assert |a| == |multiset(a)| == |multiset(b)| == |b|;
    if |a| > 0 {
      assert a[0] in multiset(b);
      var j :| 0 <= j < |b| && b[j] == a[0];
      HeadKeysAgree(a, b, key);
      FlatPrefix(b, j, key);
      DropMatched(a, b, j);
      DescendingWithout(a, 0, key);
      DescendingWithout(b, j, key);
      assert a[..0] + a[1..] == a[1..];
      var b' := b[..j] + b[j + 1..];
      KeysDetermined(a[1..], b', key);
      assert forall i :: 0 <= i < |b'| ==> key(a[i + 1]) == key(b'[i]) by {
        forall i | 0 <= i < |b'| ensures key(a[i + 1]) == key(b'[i]) {
          assert a[1..][i] == a[i + 1];
        }
      }
      ReinsertKeys(a, b, b', j, key);
    }
  }
}
