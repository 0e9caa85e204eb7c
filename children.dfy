/**
  The ordered child collection of a layout panel, reduced to the three operations
  the dialog rewriter uses on it: `IndexOf` (position of the first occurrence, or -1),
  `Remove` (drops the first occurrence, does nothing when the element is absent) and
  `Insert` (places an element at an index, shifting the rest right by one).
 */
module Children {

  /** No element occurs twice: a visual element has at most one parent slot. */
  predicate Distinct<T(==)>(s: seq<T>) {
    forall i, j :: 0 <= i < j < |s| ==> s[i] != s[j]
  }

  function IndexOf<T(==)>(s: seq<T>, x: T): (r: int)
    ensures -1 <= r < |s|
    ensures r == -1 <==> x !in s
    ensures 0 <= r ==> s[r] == x
    decreases |s|
  {
    if |s| == 0 then -1
    else if s[0] == x then 0
    else
      var k := IndexOf(s[1..], x);
      if k < 0 then -1 else k + 1
  }

  /** The index found is that of the first occurrence. */
  lemma {:induction false} IndexOfIsFirst<T>(s: seq<T>, x: T)
    requires x in s
    ensures x !in s[..IndexOf(s, x)]
    decreases |s|
  {
    if s[0] != x {
      var k := IndexOf(s[1..], x);
      IndexOfIsFirst(s[1..], x);
      assert s[..k + 1] == [s[0]] + s[1..][..k];
    }
  }

  function Remove<T(==)>(s: seq<T>, x: T): (r: seq<T>)
    ensures x !in s ==> r == s
    ensures x in s ==> |r| == |s| - 1
    decreases |s|
  {
    if |s| == 0 then s
    else if s[0] == x then s[1..]
    else
      assert s == [s[0]] + s[1..];
      [s[0]] + Remove(s[1..], x)
  }

  /** Removing a present element cuts it out at its index. */
  lemma {:induction false} RemoveSplit<T>(s: seq<T>, x: T)
    requires x in s
    ensures Remove(s, x) == s[..IndexOf(s, x)] + s[IndexOf(s, x) + 1..]
    decreases |s|
  {
    if s[0] != x {
      var k := IndexOf(s[1..], x);
      RemoveSplit(s[1..], x);
      assert s[..k + 1] == [s[0]] + s[1..][..k];
      assert s[k + 2..] == s[1..][k + 1..];
    }
  }

  /** Removing drops exactly one occurrence, none when the element is absent. */
  lemma {:induction false} RemoveMultiset<T>(s: seq<T>, x: T)
    ensures multiset(Remove(s, x)) == multiset(s) - multiset{x}
    decreases |s|
  {
    if |s| > 0 {
      assert s == [s[0]] + s[1..];
      if s[0] != x {
        RemoveMultiset(s[1..], x);
        assert multiset(Remove(s, x)) == multiset{s[0]} + multiset(Remove(s[1..], x));
      }
    }
  }

  /** Where each element of a removal's result comes from. */
  lemma {:induction false} RemoveAt<T>(s: seq<T>, x: T, k: nat)
    requires x in s && k < |s| - 1
    ensures Remove(s, x)[k] == if k < IndexOf(s, x) then s[k] else s[k + 1]
    decreases |s|
  {
    if s[0] != x && k > 0 {
      RemoveAt(s[1..], x, k - 1);
    }
  }

  /** In a collection without duplicates the removed element is gone and no duplicate appears. */
  lemma RemoveDistinct<T>(s: seq<T>, x: T)
    requires Distinct(s)
    ensures x !in Remove(s, x) && Distinct(Remove(s, x))
  {
    var i := IndexOf(s, x);
    if i >= 0 {
      var r := Remove(s, x);
      forall k | 0 <= k < |r| ensures r[k] != x {
        RemoveAt(s, x, k);
        if k >= i { assert s[i] != s[k + 1]; }
      }
      forall a, b | 0 <= a < b < |r| ensures r[a] != r[b] {
        RemoveAt(s, x, a);
        RemoveAt(s, x, b);
      }
    }
  }

  function Insert<T>(s: seq<T>, i: nat, x: T): (r: seq<T>)
    requires i <= |s|
    ensures |r| == |s| + 1 && r[i] == x
    decreases i
  {
    if i == 0 then [x] + s else [s[0]] + Insert(s[1..], i - 1, x)
  }

  /** Inserting keeps the prefix before the index and the suffix from it, in order. */
  lemma {:induction false} InsertSplit<T>(s: seq<T>, i: nat, x: T)
    requires i <= |s|
    ensures Insert(s, i, x) == s[..i] + [x] + s[i..]
    decreases i
  {
    if i > 0 {
      InsertSplit(s[1..], i - 1, x);
      assert s[..i] == [s[0]] + s[1..][..i - 1];
      assert s[i..] == s[1..][i - 1..];
    }
  }

  /**
    Removing an element and inserting another at the removed element's former
    index replaces it in place: same length, every other position untouched.
   */
  lemma {:induction false} ReplaceInPlace<T>(s: seq<T>, x: T, y: T)
    requires x in s
    ensures IndexOf(s, x) <= |Remove(s, x)|
    ensures Insert(Remove(s, x), IndexOf(s, x), y) == s[IndexOf(s, x) := y]
  {
    var i := IndexOf(s, x);
    var r := Remove(s, x);
    RemoveSplit(s, x);
    var t := Insert(r, i, y);
    InsertSplit(r, i, y);
    assert |t| == |s|;
    forall k | 0 <= k < |s| ensures t[k] == s[i := y][k] {
      if k > i { assert t[k] == r[k - 1]; }
    }
  }

  /** Inserting an absent element and removing it again gives back the original sequence. */
  lemma {:induction false} InsertThenRemove<T>(s: seq<T>, i: nat, x: T)
    requires i <= |s| && x !in s
    ensures IndexOf(Insert(s, i, x), x) == i
    ensures Remove(Insert(s, i, x), x) == s
    decreases i
  {
    if i > 0 {
      var u := Insert(s, i, x);
      var t := Insert(s[1..], i - 1, x);
      InsertThenRemove(s[1..], i - 1, x);
      assert s[0] != x;
      assert u[0] == s[0] && u[1..] == t;
      assert IndexOf(u, x) == IndexOf(t, x) + 1;
      assert Remove(u, x) == [s[0]] + Remove(t, x);
      assert [s[0]] + s[1..] == s;
    }
  }

  /** The index of an element is the one position holding it with no earlier occurrence. */
  lemma {:induction false} IndexOfFirst<T>(s: seq<T>, i: nat, x: T)
    requires i < |s| && s[i] == x && x !in s[..i]
    ensures IndexOf(s, x) == i
    decreases i
  {
    if i > 0 {
      assert s[0] in s[..i];
      assert s[1..][..i - 1] == s[1..i];
      IndexOfFirst(s[1..], i - 1, x);
    }
  }

  /**
    Overwriting index `li` and then inserting at another index `ci`: every original
    position other than `li` keeps its element, shifted right by one from `ci` on.
   */
  lemma InsertAfterReplace<T>(s: seq<T>, li: nat, ci: nat, y: T, z: T)
    requires li < |s| && ci < |s| && li != ci
    ensures var r := Insert(s[li := y], ci, z);
      |r| == |s| + 1 && r[ci] == z && r[ci + 1] == s[ci]
      && r[if li < ci then li else li + 1] == y
      && forall k :: 0 <= k < |s| && k != li ==> r[if k < ci then k else k + 1] == s[k]
  {
    var t := s[li := y];
    var r := Insert(t, ci, z);
    forall k | 0 <= k < |s| && k != li ensures r[if k < ci then k else k + 1] == s[k] {
      InsertAt(t, ci, z, if k < ci then k else k + 1);
    }
    InsertAt(t, ci, z, if li < ci then li else li + 1);
    InsertAt(t, ci, z, ci + 1);
  }

  /** Where each element of an insertion's result comes from. */
  lemma {:induction false} InsertAt<T>(s: seq<T>, i: nat, x: T, k: nat)
    requires i <= |s| && k <= |s|
    ensures Insert(s, i, x)[k] == if k < i then s[k] else if k == i then x else s[k - 1]
    decreases i
  {
    if i > 0 && k > 0 {
      InsertAt(s[1..], i - 1, x, k - 1);
    }
  }
}
