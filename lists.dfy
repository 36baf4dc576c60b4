/** Python list operations used by the picker: `list.remove` and the order
    relation it preserves. */
module Lists {

  /** No two positions of `s` hold the same value. */
  predicate Distinct<T(==)>(s: seq<T>) {
    forall i, j :: 0 <= i < j < |s| ==> s[i] != s[j]
  }

  /** The position of the first occurrence of `x` in `s`. */
  function IndexOf<T(==)>(s: seq<T>, x: T): (i: nat)
    requires x in s
    ensures i < |s| && s[i] == x
    ensures x !in s[..i]
  {
    if s[0] == x then 0
    else
      var j := IndexOf(s[1..], x);
      assert s[..j + 1] == [s[0]] + s[1..][..j];
      1 + j
  }

  /** `list.remove(x)`: deletes the first element equal to `x`. Python raises
      ValueError when `x` is absent, which is this function's precondition. */
  function RemoveFirst<T(==)>(s: seq<T>, x: T): (r: seq<T>)
    requires x in s
    ensures |r| == |s| - 1
    ensures multiset(r) == multiset(s) - multiset{x}
  {
    var i := IndexOf(s, x);
    assert s == s[..i] + [s[i]] + s[i + 1..];
    s[..i] + s[i + 1..]
  }

  /** Removes the elements of `xs` from `s` one after the other, each with
      `list.remove`, in the order of `xs`. */
  function RemoveEach<T(==)>(s: seq<T>, xs: seq<T>): seq<T>
    requires multiset(xs) <= multiset(s)
    decreases |xs|
  {
    if xs == [] then s
    else
      assert xs == [xs[0]] + xs[1..];
      assert xs[0] in multiset(s);
      RemoveEach(RemoveFirst(s, xs[0]), xs[1..])
  }

  /** Removing the elements of `xs` one by one takes away exactly `xs`,
      counted with multiplicity. */
  lemma {:induction false} RemoveEachCounts<T>(s: seq<T>, xs: seq<T>)
    requires multiset(xs) <= multiset(s)
    ensures |RemoveEach(s, xs)| == |s| - |xs|
    ensures multiset(RemoveEach(s, xs)) == multiset(s) - multiset(xs)
    decreases |xs|
  {
    if xs != [] {
      assert xs == [xs[0]] + xs[1..];
      assert xs[0] in multiset(s);
      RemoveEachCounts(RemoveFirst(s, xs[0]), xs[1..]);
    }
  }

  /** `a` is obtained from `b` by deleting elements, keeping the order of the
      ones that are left. */
  predicate IsSubsequence<T(==)>(a: seq<T>, b: seq<T>)
    decreases |b|
  {
    |a| <= |b| &&
    (a == [] ||
     (a[0] == b[0] && IsSubsequence(a[1..], b[1..])) ||
     IsSubsequence(a, b[1..]))
  }

  lemma {:induction false} SubsequenceRefl<T>(s: seq<T>)
    ensures IsSubsequence(s, s)
    decreases |s|
  {
    if s != [] {
      SubsequenceRefl(s[1..]);
    }
  }

  lemma {:induction false} SubsequenceTrans<T>(a: seq<T>, b: seq<T>, c: seq<T>)
    requires IsSubsequence(a, b) && IsSubsequence(b, c)
    ensures IsSubsequence(a, c)
    decreases |c|
  {
    if a == [] {
    } else if b[0] == c[0] && IsSubsequence(b[1..], c[1..]) {
      if a[0] == b[0] && IsSubsequence(a[1..], b[1..]) {
        SubsequenceTrans(a[1..], b[1..], c[1..]);
      } else {
        SubsequenceTrans(a, b[1..], c[1..]);
      }
    } else {
      SubsequenceTrans(a, b, c[1..]);
    }
  }

  /** Deleting the element at one position keeps the order of the others. */
  lemma {:induction false} DeleteAtKeepsOrder<T>(s: seq<T>, i: nat)
    requires i < |s|
    ensures IsSubsequence(s[..i] + s[i + 1..], s)
    decreases i
  {
    if i == 0 {
      assert s[..0] + s[1..] == s[1..];
      SubsequenceRefl(s[1..]);
    } else {
      DeleteAtKeepsOrder(s[1..], i - 1);
      var r := s[..i] + s[i + 1..];
      assert r[0] == s[0];
      assert r[1..] == s[1..][..i - 1] + s[1..][i..];
    }
  }

  /** `list.remove` keeps the relative order of the elements it leaves. */
  lemma RemoveFirstKeepsOrder<T>(s: seq<T>, x: T)
    requires x in s
    ensures IsSubsequence(RemoveFirst(s, x), s)
  {
    DeleteAtKeepsOrder(s, IndexOf(s, x));
  }

  /** Removing several elements one by one keeps the order of the survivors. */
  lemma {:induction false} RemoveEachKeepsOrder<T>(s: seq<T>, xs: seq<T>)
    requires multiset(xs) <= multiset(s)
    ensures IsSubsequence(RemoveEach(s, xs), s)
    decreases |xs|
  {
    if xs == [] {
      SubsequenceRefl(s);
    } else {
      assert xs == [xs[0]] + xs[1..];
      assert xs[0] in multiset(s);
      var t := RemoveFirst(s, xs[0]);
      RemoveFirstKeepsOrder(s, xs[0]);
      RemoveEachKeepsOrder(t, xs[1..]);
      SubsequenceTrans(RemoveEach(t, xs[1..]), t, s);
    }
  }
}
