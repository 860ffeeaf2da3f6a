/** `Array.prototype.filter`: keep, in order, the elements a predicate accepts. */
module Seqs {

  /** The elements of `s` that satisfy `p`, in their original order. */
  function Filter<T>(p: T -> bool, s: seq<T>): (r: seq<T>)
    ensures |r| <= |s|
    ensures forall i :: 0 <= i < |r| ==> p(r[i])
  {
    if s == [] then []
    else if p(s[0]) then [s[0]] + Filter(p, s[1..])
    else Filter(p, s[1..])
  }

  /** `r` is obtained from `s` by deleting elements, without reordering the rest. */
  ghost predicate IsSubsequence<T>(r: seq<T>, s: seq<T>)
    decreases |s|
  {
    r == [] || (s != [] && ((r[0] == s[0] && IsSubsequence(r[1..], s[1..])) || IsSubsequence(r, s[1..])))
  }

  /** Filtering deletes elements and never reorders them. */
  lemma {:induction false} FilterIsSubsequence<T>(p: T -> bool, s: seq<T>)
    ensures IsSubsequence(Filter(p, s), s)
  {
    if s != [] {
      FilterIsSubsequence(p, s[1..]);
      if !p(s[0]) {
        var r := Filter(p, s[1..]);
        assert r == [] || IsSubsequence(r, s[1..]);
      }
    }
  }

  /** An element survives filtering exactly when it occurs in the input and satisfies `p`. */
  lemma {:induction false} FilterMember<T>(p: T -> bool, s: seq<T>, x: T)
    ensures x in Filter(p, s) <==> x in s && p(x)
  {
    if s != [] {
      FilterMember(p, s[1..], x);
      assert x in s <==> x == s[0] || x in s[1..];
    }
  }

  /** Filtering a concatenation filters each part. */
  lemma {:induction false} FilterAppend<T>(p: T -> bool, a: seq<T>, b: seq<T>)
    ensures Filter(p, a + b) == Filter(p, a) + Filter(p, b)
  {
    if a == [] {
      assert a + b == b;
    } else {
      assert (a + b)[0] == a[0];
      assert (a + b)[1..] == a[1..] + b;
      FilterAppend(p, a[1..], b);
    }
  }

  /** Nothing is dropped when every element satisfies `p`. */
  lemma {:induction false} FilterKeepsAll<T>(p: T -> bool, s: seq<T>)
    requires forall i :: 0 <= i < |s| ==> p(s[i])
    ensures Filter(p, s) == s
  {
    if s != [] {
      FilterKeepsAll(p, s[1..]);
      assert s == [s[0]] + s[1..];
    }
  }

  /** The filtered sequence is empty exactly when no element satisfies `p`. */
  lemma {:induction false} FilterEmpty<T>(p: T -> bool, s: seq<T>)
    ensures Filter(p, s) == [] <==> forall i :: 0 <= i < |s| ==> !p(s[i])
  {
    if s != [] {
      FilterEmpty(p, s[1..]);
      assert forall i :: 1 <= i < |s| ==> s[i] == s[1..][i - 1];
    }
  }

  /** A concatenation ending in `z` ends in `z`. */
  lemma EndsWith<T>(x: seq<T>, y: seq<T>, z: seq<T>)
    ensures |x + (y + z)| >= |z| && (x + (y + z))[|x + (y + z)| - |z|..] == z
  {
    var s := x + (y + z);
    assert s == (x + y) + z;
  }

  /** Splitting the tail of a non-empty sequence at `k` is splitting the whole at `k + 1`. */
  lemma ConsSplit<T>(s: seq<T>, k: nat, x: T)
    requires k < |s|
    ensures [s[0]] + (s[1..][..k] + [x] + s[1..][k..]) == s[..k + 1] + [x] + s[k + 1..]
  {
    assert s[1..][..k] == s[1..k + 1] && s[1..][k..] == s[k + 1..];
    assert s[..k + 1] == [s[0]] + s[1..k + 1];
  }

  /** In `h + (x + a + y + c + z)`, the parts `x` and `a` follow `h`. */
  lemma LeadingParts<T>(h: seq<T>, x: seq<T>, a: seq<T>, y: seq<T>, c: seq<T>, z: seq<T>)
    ensures var s := h + (x + a + y + c + z);
            s[|h|..|h| + |x|] == x && s[|h| + |x|..|h| + |x| + |a|] == a
  {
    var s := h + (x + a + y + c + z);
    assert s == h + x + a + (y + c + z);
  }

  /** In `h + (x + a + y + c + z)`, the parts `y` and `c` come right before `z`. */
  lemma TrailingParts<T>(s: seq<T>, h: seq<T>, x: seq<T>, a: seq<T>, y: seq<T>, c: seq<T>, z: seq<T>)
    requires s == h + (x + a + y + c + z)
    ensures var k := |s| - |z| - |c|;
            |y| <= k && s[k - |y|..k] == y && s[k..|s| - |z|] == c && s[k..] == c + z
  {
    assert s == (h + x + a) + y + (c + z);
  }

  /** The first and last parts of a three-part concatenation are its ends. */
  lemma Middle<T>(p: seq<T>, x: seq<T>, q: seq<T>)
    ensures (p + x + q)[..|p|] == p && (p + x + q)[|p| + |x|..] == q
  {
  }
}
