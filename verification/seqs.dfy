/** Sequence helpers shared by every component: order-preserving filtering,
    in-order subsequences, contiguous containment and bounded prefixes. */
module Seqs {

  function Min(a: int, b: int): (m: int)
    ensures m <= a && m <= b
    ensures m == a || m == b
  {
    if a <= b then a else b
  }

  /** `Array.prototype.filter`: keeps the elements satisfying `p`, in order. */
  function Filter<T>(s: seq<T>, p: T -> bool): (r: seq<T>)
    ensures |r| <= |s|
  {
    if |s| == 0 then []
    else if p(s[0]) then [s[0]] + Filter(s[1..], p)
    else Filter(s[1..], p)
  }

  /** Every kept element comes from `s` and satisfies `p`, and every element
      of `s` satisfying `p` is kept. */
  lemma {:induction false} FilterMembers<T>(s: seq<T>, p: T -> bool)
    ensures forall i :: 0 <= i < |Filter(s, p)| ==> Filter(s, p)[i] in s && p(Filter(s, p)[i])
    ensures forall i :: 0 <= i < |s| && p(s[i]) ==> s[i] in Filter(s, p)
  {
    if |s| > 0 {
      FilterMembers(s[1..], p);
      assert s == [s[0]] + s[1..];
    }
  }

  /** `a` occurs in `b` in order, not necessarily contiguously: every element
      of `a` is either matched against the head of `b` or the head of `b` is
      skipped. */
  predicate IsSubsequence<T(==)>(a: seq<T>, b: seq<T>)
    decreases |b|
  {
    if |a| == 0 then true
    else if |b| == 0 then false
    else (a[0] == b[0] && IsSubsequence(a[1..], b[1..])) || IsSubsequence(a, b[1..])
  }

  /** `t` occurs contiguously in `s` (`String.prototype.includes`). */
  predicate Contains<T(==)>(s: seq<T>, t: seq<T>)
    decreases |s|
  {
    t <= s || (|s| > 0 && Contains(s[1..], t))
  }

  /** `slice(0, n)`: the first `min(n, |s|)` elements. */
  function Take<T>(s: seq<T>, n: nat): (r: seq<T>)
    ensures |r| == Min(n, |s|)
    ensures r <= s
  {
    if n <= |s| then s[..n] else s
  }

  /** `t` sits in `s` starting at index `i`. */
  predicate WindowAt<T(==)>(s: seq<T>, t: seq<T>, i: int) {
    0 <= i <= |s| - |t| && s[i..i + |t|] == t
  }

  /** `Contains` agrees with the index-based reading of `includes`: some
      window of `s` equals `t`. */
  lemma {:induction false} ContainsIffWindow<T>(s: seq<T>, t: seq<T>)
    ensures Contains(s, t) <==> exists i :: WindowAt(s, t, i)
    decreases |s|
  {
    if t <= s {
      assert WindowAt(s, t, 0);
    } else if |s| > 0 {
      ContainsIffWindow(s[1..], t);
      if exists i :: WindowAt(s, t, i) {
        var i :| WindowAt(s, t, i);
        assert i != 0;
        WindowShift(s, t, i);
      }
      if Contains(s[1..], t) {
        var i :| WindowAt(s[1..], t, i);
        WindowShift(s, t, i + 1);
      }
    }
  }

  /** A window past the first index is a window of the tail, one index
      earlier. */
  lemma WindowShift<T>(s: seq<T>, t: seq<T>, i: int)
    requires |s| > 0 && i >= 1
    ensures WindowAt(s, t, i) <==> WindowAt(s[1..], t, i - 1)
  {
    if 0 <= i <= |s| - |t| {
      assert s[1..][i - 1..i - 1 + |t|] == s[i..i + |t|];
    }
  }

  /** A prefix is a subsequence. */
  lemma {:induction false} PrefixIsSubsequence<T>(t: seq<T>, s: seq<T>)
    requires t <= s
    ensures IsSubsequence(t, s)
    decreases |s|
  {
    if |t| > 0 {
      PrefixIsSubsequence(t[1..], s[1..]);
    }
  }

  /** Contiguous containment implies in-order containment. */
  lemma {:induction false} ContainsIsSubsequence<T>(s: seq<T>, t: seq<T>)
    requires Contains(s, t)
    ensures IsSubsequence(t, s)
    decreases |s|
  {
    if t <= s {
      PrefixIsSubsequence(t, s);
    } else {
      ContainsIsSubsequence(s[1..], t);
    }
  }

  /** Dropping the first element of `a` keeps it a subsequence of `b`. */
  lemma {:induction false} SubsequenceDropHead<T>(a: seq<T>, b: seq<T>)
    requires |a| > 0 && IsSubsequence(a, b)
    ensures IsSubsequence(a[1..], b)
    decreases |b|
  {
    if |a| > 1 {
      if a[0] == b[0] && IsSubsequence(a[1..], b[1..]) {
        SubsequenceDropHead(a[1..], b[1..]);
      } else {
        SubsequenceDropHead(a, b[1..]);
      }
    }
  }

  /** Matching equal heads greedily never loses a subsequence embedding. */
  lemma SubsequenceGreedy<T>(a: seq<T>, b: seq<T>)
    requires |a| > 0 && |b| > 0 && a[0] == b[0]
    ensures IsSubsequence(a, b) <==> IsSubsequence(a[1..], b[1..])
  {
    if IsSubsequence(a, b) && !IsSubsequence(a[1..], b[1..]) {
      SubsequenceDropHead(a, b[1..]);
    }
  }

  /** Filtering keeps the surviving elements in their original order. */
  lemma {:induction false} FilterIsSubsequence<T>(s: seq<T>, p: T -> bool)
    ensures IsSubsequence(Filter(s, p), s)
  {
    if |s| > 0 {
      FilterIsSubsequence(s[1..], p);
      if !p(s[0]) && |Filter(s, p)| > 0 {
        assert Filter(s, p) == Filter(s[1..], p);
      }
    }
  }

  /** A filter that drops an element is strictly shorter than its input. */
  lemma {:induction false} FilterDropShortens<T>(s: seq<T>, p: T -> bool, j: int)
    requires 0 <= j < |s| && !p(s[j])
    ensures |Filter(s, p)| < |s|
  {
    if j > 0 {
      FilterDropShortens(s[1..], p, j - 1);
    }
  }

  /** Filtering distributes over concatenation. */
  lemma {:induction false} FilterConcat<T>(a: seq<T>, b: seq<T>, p: T -> bool)
    ensures Filter(a + b, p) == Filter(a, p) + Filter(b, p)
  {
    if |a| > 0 {
      assert (a + b)[1..] == a[1..] + b;
      FilterConcat(a[1..], b, p);
    } else {
      assert a + b == b;
    }
  }

  /** Filtering never makes an element occur more often than it does in `s`;
      in particular it keeps distinct elements distinct. */
  lemma {:induction false} FilterMultiset<T>(s: seq<T>, p: T -> bool)
    ensures multiset(Filter(s, p)) <= multiset(s)
  {
    if |s| > 0 {
      FilterMultiset(s[1..], p);
      assert s == [s[0]] + s[1..];
    }
  }

  /** Filters whose predicates agree on every element give the same result. */
  lemma {:induction false} FilterSame<T>(s: seq<T>, p: T -> bool, q: T -> bool)
    requires forall i :: 0 <= i < |s| ==> p(s[i]) == q(s[i])
    ensures Filter(s, p) == Filter(s, q)
  {
    if |s| > 0 {
      FilterSame(s[1..], p, q);
    }
  }

  /** A filter every element passes keeps the whole sequence. */
  lemma {:induction false} FilterKeepsAll<T>(s: seq<T>, p: T -> bool)
    requires forall i :: 0 <= i < |s| ==> p(s[i])
    ensures Filter(s, p) == s
  {
    if |s| > 0 {
      FilterKeepsAll(s[1..], p);
    }
  }

  /** Two successive filters are one filter by the conjunction. */
  lemma {:induction false} FilterTwice<T>(s: seq<T>, p: T -> bool, q: T -> bool, pq: T -> bool)
    requires forall i :: 0 <= i < |s| ==> pq(s[i]) == (p(s[i]) && q(s[i]))
    ensures Filter(Filter(s, p), q) == Filter(s, pq)
  {
    if |s| > 0 {
      FilterTwice(s[1..], p, q, pq);
    }
  }

  /** A sequence that contains `t + u` contiguously contains `t`. */
  lemma {:induction false} ContainsPrefix<T>(s: seq<T>, t: seq<T>, u: seq<T>)
    requires Contains(s, t + u)
    ensures Contains(s, t)
    decreases |s|
  {
    if !(t + u <= s) {
      ContainsPrefix(s[1..], t, u);
    } else {
      assert t == (t + u)[..|t|];
    }
  }

  /** Filtering a prefix extended by the next slice adds the filtered slice. */
  lemma FilterExtend<T>(s: seq<T>, lo: int, hi: int, p: T -> bool)
    requires 0 <= lo <= hi <= |s|
    ensures Filter(s[..hi], p) == Filter(s[..lo], p) + Filter(s[lo..hi], p)
  {
    assert s[..hi] == s[..lo] + s[lo..hi];
    FilterConcat(s[..lo], s[lo..hi], p);
  }

  /** A filtered prefix never holds an element more often than the whole
      sequence does. */
  lemma FilterPrefixMultiset<T>(s: seq<T>, n: int, p: T -> bool)
    requires 0 <= n <= |s|
    ensures multiset(Filter(s[..n], p)) <= multiset(s)
  {
    FilterMultiset(s[..n], p);
    assert s == s[..n] + s[n..];
  }
}
