/** Row selection on a table, the model of a boolean-mask selection
    `df[mask]`: the rows for which the mask holds, in table order. */
module Rows {

  /** The rows of `s` that satisfy `keep`, in their original order. */
  function Where<T>(s: seq<T>, keep: T -> bool): (r: seq<T>)
    ensures |r| <= |s|
    ensures forall x :: x in r ==> x in s && keep(x)
    ensures forall x :: x in s && keep(x) ==> x in r
  {
    if s == [] then []
    else (if keep(s[0]) then [s[0]] else []) + Where(s[1..], keep)
  }

  /** `a` can be obtained from `b` by deleting elements, without reordering. */
  predicate IsSubsequence<T(==)>(a: seq<T>, b: seq<T>)
    decreases |b|
  {
    a == [] || (b != [] && ((a[0] == b[0] && IsSubsequence(a[1..], b[1..])) || IsSubsequence(a, b[1..])))
  }

  lemma {:induction false} SubsequenceLength<T>(a: seq<T>, b: seq<T>)
    requires IsSubsequence(a, b)
    ensures |a| <= |b|
    decreases |b|
  {
    if a != [] {
      if a[0] == b[0] && IsSubsequence(a[1..], b[1..]) {
        SubsequenceLength(a[1..], b[1..]);
      } else {
        SubsequenceLength(a, b[1..]);
      }
    }
  }

  /** A selection keeps the table's order: its result is a subsequence. */
  lemma {:induction false} WhereIsSubsequence<T>(s: seq<T>, keep: T -> bool)
    ensures IsSubsequence(Where(s, keep), s)
  {
    if s != [] {
      WhereIsSubsequence(s[1..], keep);
      assert Where(s, keep) == (if keep(s[0]) then [s[0]] else []) + Where(s[1..], keep);
      var r := Where(s, keep);
      if keep(s[0]) {
        assert r[0] == s[0] && r[1..] == Where(s[1..], keep);
        assert IsSubsequence(r[1..], s[1..]);
      } else {
        assert r == Where(s[1..], keep);
        assert IsSubsequence(r, s[1..]);
      }
    }
  }

  /** Selecting twice is selecting once with the conjunction of the masks. */
  lemma {:induction false} WhereWhere<T>(s: seq<T>, p: T -> bool, q: T -> bool, both: T -> bool)
    requires forall x :: both(x) == (p(x) && q(x))
    ensures Where(Where(s, p), q) == Where(s, both)
  {
    if s != [] {
      WhereWhere(s[1..], p, q, both);
      var head := if p(s[0]) then [s[0]] else [];
      WhereAppend(head, Where(s[1..], p), q);
    }
  }

  /** Selection distributes over concatenation. */
  lemma {:induction false} WhereAppend<T>(a: seq<T>, b: seq<T>, keep: T -> bool)
    ensures Where(a + b, keep) == Where(a, keep) + Where(b, keep)
  {
    if a != [] {
      assert (a + b)[1..] == a[1..] + b;
      WhereAppend(a[1..], b, keep);
    } else {
      assert a + b == b;
    }
  }

  /** Only the mask's values on the table's own rows matter. */
  lemma {:induction false} WhereCongruent<T>(s: seq<T>, p: T -> bool, q: T -> bool)
    requires forall x :: x in s ==> p(x) == q(x)
    ensures Where(s, p) == Where(s, q)
  {
    if s != [] {
      WhereCongruent(s[1..], p, q);
    }
  }

  /** A mask that every row satisfies selects the whole table. */
  lemma {:induction false} WhereAll<T>(s: seq<T>, keep: T -> bool)
    requires forall x :: x in s ==> keep(x)
    ensures Where(s, keep) == s
  {
    if s != [] {
      WhereAll(s[1..], keep);
    }
  }

  /** A weaker mask keeps at least the rows a stronger one keeps, in order. */
  lemma {:induction false} WhereNarrower<T>(s: seq<T>, p: T -> bool, q: T -> bool)
    requires forall x :: p(x) ==> q(x)
    ensures IsSubsequence(Where(s, p), Where(s, q))
  {
    if s != [] {
      WhereNarrower(s[1..], p, q);
      var rp, rq := Where(s, p), Where(s, q);
      if p(s[0]) {
        assert rp[0] == rq[0] && rp[1..] == Where(s[1..], p) && rq[1..] == Where(s[1..], q);
      } else if q(s[0]) {
        assert rq != [] && rq[1..] == Where(s[1..], q);
        assert rp == Where(s[1..], p);
        assert IsSubsequence(rp, rq[1..]);
      } else {
        assert rp == Where(s[1..], p) && rq == Where(s[1..], q);
      }
    }
  }
}
