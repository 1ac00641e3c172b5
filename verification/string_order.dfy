/**
 Byte-wise string ordering, the sort of a string slice, and joining.

 Strings are sequences of Unicode scalar values; for UTF-8 text, comparing
 code points lexicographically gives the same order as comparing the encoded
 bytes, which is the order Go's string comparison uses.
 */
module StringOrder {
  import opened SeqFacts

  /** `a` sorts no later than `b`: lexicographic, a proper prefix first. */
  predicate Below(a: string, b: string) {
    |a| == 0 || (|b| > 0 && (a[0] < b[0] || (a[0] == b[0] && Below(a[1..], b[1..]))))
  }

  lemma {:induction false} BelowReflexive(a: string)
    ensures Below(a, a)
  {
    if |a| > 0 {
      BelowReflexive(a[1..]);
    }
  }

  lemma {:induction false} BelowAntisymmetric(a: string, b: string)
    requires Below(a, b) && Below(b, a)
    ensures a == b
  {
    if |a| > 0 {
      BelowAntisymmetric(a[1..], b[1..]);
      assert a == [a[0]] + a[1..] && b == [b[0]] + b[1..];
    }
  }

  lemma {:induction false} BelowTransitive(a: string, b: string, c: string)
    requires Below(a, b) && Below(b, c)
    ensures Below(a, c)
  {
    if |a| > 0 && a[0] == b[0] && b[0] == c[0] {
      BelowTransitive(a[1..], b[1..], c[1..]);
    }
  }

  lemma {:induction false} BelowTotal(a: string, b: string)
    ensures Below(a, b) || Below(b, a)
  {
    if |a| > 0 && |b| > 0 && a[0] == b[0] {
      BelowTotal(a[1..], b[1..]);
    }
  }

  predicate Sorted(s: seq<string>) {
    forall i, j :: 0 <= i < j < |s| ==> Below(s[i], s[j])
  }

  /** Every element of `s` sorts no earlier than `lo`. */
  predicate AllAbove(lo: string, s: seq<string>) {
    forall k :: 0 <= k < |s| ==> Below(lo, s[k])
  }

  lemma AllAbovePermutation(lo: string, s: seq<string>, t: seq<string>)
    requires AllAbove(lo, s) && multiset(s) == multiset(t)
    ensures AllAbove(lo, t)
  {
    forall k | 0 <= k < |t|
      ensures Below(lo, t[k])
    {
      assert t[k] in multiset(s);
      var j :| 0 <= j < |s| && s[j] == t[k];
    }
  }

  /** Inserts `x` into a sorted sequence, before the first element it sorts below. */
  function Insert(x: string, s: seq<string>): (r: seq<string>)
    requires Sorted(s)
    ensures Sorted(r)
    ensures multiset(r) == multiset(s) + multiset{x}
    decreases |s|
  {
    if |s| == 0 then [x]
    else if Below(x, s[0]) then
      assert AllAbove(x, s) by {
        forall j | 0 < j < |s|
          ensures Below(x, s[j])
        {
          BelowTransitive(x, s[0], s[j]);
        }
      }
      [x] + s
    else
      BelowTotal(x, s[0]);
      var rest := Insert(x, s[1..]);
      assert s == [s[0]] + s[1..];
      assert AllAbove(s[0], s[1..] + [x]);
      AllAbovePermutation(s[0], s[1..] + [x], rest);
      [s[0]] + rest
  }

  /** The sort of `sort.Strings`: a sorted permutation of its input. */
  function Sort(s: seq<string>): (r: seq<string>)
    ensures Sorted(r)
    ensures multiset(r) == multiset(s)
    decreases |s|
  {
    if |s| == 0 then []
    else
      assert s == [s[0]] + s[1..];
      Insert(s[0], Sort(s[1..]))
  }

  /** Two sorted arrangements of the same strings start with the same string. */
  lemma SortedHeads(a: seq<string>, b: seq<string>)
    requires Sorted(a) && Sorted(b) && |a| > 0
    requires multiset(a) == multiset(b)
    ensures |b| > 0 && a[0] == b[0]
  {
    assert a[0] in multiset(b);
    var j :| 0 <= j < |b| && b[j] == a[0];
    assert b[0] in multiset(a);
    var i :| 0 <= i < |a| && a[i] == b[0];
    if j > 0 { assert Below(b[0], a[0]); } else { BelowReflexive(a[0]); }
    if i > 0 { assert Below(a[0], b[0]); } else { BelowReflexive(b[0]); }
    BelowAntisymmetric(a[0], b[0]);
  }

  lemma SortedTail(s: seq<string>)
    requires Sorted(s) && |s| > 0
    ensures Sorted(s[1..])
  {
    forall i, j | 0 <= i < j < |s[1..]|
      ensures Below(s[1..][i], s[1..][j])
    {
      assert s[1..][i] == s[i + 1] && s[1..][j] == s[j + 1];
    }
  }

  /** A sorted arrangement of a multiset of strings is unique. */
  lemma {:induction false} SortedUnique(a: seq<string>, b: seq<string>)
    requires Sorted(a) && Sorted(b)
    requires multiset(a) == multiset(b)
    ensures a == b
    decreases |a|
  {
    if |a| == 0 {
      assert |multiset(b)| == 0;
    } else {
      SortedHeads(a, b);
      RemoveOne(a, b, 0);
      assert b[..0] + b[1..] == b[1..];
      SortedTail(a);
      SortedTail(b);
      SortedUnique(a[1..], b[1..]);
      assert a == [a[0]] + a[1..] && b == [b[0]] + b[1..];
    }
  }

  /** Every permutation of the same strings sorts to the same sequence. */
  lemma SortPermutationInvariant(s: seq<string>, t: seq<string>)
    requires multiset(s) == multiset(t)
    ensures Sort(s) == Sort(t)
  {
    SortedUnique(Sort(s), Sort(t));
  }

  /** `strings.Join`: the elements with `sep` between consecutive ones. */
  function Join(s: seq<string>, sep: string): string
    decreases |s|
  {
    if |s| == 0 then ""
    else if |s| == 1 then s[0]
    else s[0] + sep + Join(s[1..], sep)
  }
}
