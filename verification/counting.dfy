/**
  Counting and summing over an index range [0, n). Every feature of the
  feature bank is a count (or a weighted sum) of the squares, files or moves
  that pass a test; the tests are passed around as `int -> bool` selectors so
  that the laws below apply to all of them.
 */
module Counting {

  /** Number of indices i in [0, n) for which p(i) holds. */
  function Count(n: nat, p: int -> bool): (r: nat)
    ensures r <= n
  {
    if n == 0 then 0
    else Count(n - 1, p) + (if p(n - 1) then 1 else 0)
  }

  /** 1 for true, 0 for false. */
  function Indicator(x: bool): nat
  {
    if x then 1 else 0
  }

  /** One more index adds one exactly when it passes. */
  lemma CountStep(n: nat, p: int -> bool)
    requires n > 0
    ensures Count(n, p) == Count(n - 1, p) + Indicator(p(n - 1))
  {
  }

  /** The count is zero exactly when no index passes. */
  lemma {:induction false} CountZero(n: nat, p: int -> bool)
    ensures Count(n, p) == 0 <==> forall i :: 0 <= i < n ==> !p(i)
  {
    if n > 0 {
      CountZero(n - 1, p);
    }
  }

  /** The count is n exactly when every index passes. */
  lemma {:induction false} CountAll(n: nat, p: int -> bool)
    ensures Count(n, p) == n <==> forall i :: 0 <= i < n ==> p(i)
  {
    if n > 0 {
      CountAll(n - 1, p);
    }
  }

  /** Sum of w(i) over the indices i in [0, n). */
  function Sum(n: nat, w: int -> int): int
  {
    if n == 0 then 0 else Sum(n - 1, w) + w(n - 1)
  }

  /** A sum of non-negative terms is zero exactly when every term is. */
  lemma {:induction false} SumZero(n: nat, w: int -> int)
    requires forall i :: 0 <= i < n ==> 0 <= w(i)
    ensures 0 <= Sum(n, w)
    ensures Sum(n, w) == 0 <==> forall i :: 0 <= i < n ==> w(i) == 0
  {
    if n > 0 {
      SumZero(n - 1, w);
    }
  }

  /** One more index adds its weight. */
  lemma SumStep(n: nat, w: int -> int)
    requires n > 0
    ensures Sum(n, w) == Sum(n - 1, w) + w(n - 1)
  {
  }

  /** A weaker test never counts more. */
  lemma {:induction false} CountMono(n: nat, p: int -> bool, q: int -> bool)
    requires forall i :: 0 <= i < n && p(i) ==> q(i)
    ensures Count(n, p) <= Count(n, q)
  {
    if n > 0 {
      CountMono(n - 1, p, q);
    }
  }

  /** Tests that agree on the range count the same. */
  lemma {:induction false} CountExt(n: nat, p: int -> bool, q: int -> bool)
    requires forall i :: 0 <= i < n ==> (p(i) <==> q(i))
    ensures Count(n, p) == Count(n, q)
  {
    if n > 0 {
      CountExt(n - 1, p, q);
    }
  }

  /** A test that is the disjoint union of two others counts their sum. */
  lemma {:induction false} CountSplit(n: nat, p: int -> bool, q: int -> bool, r: int -> bool)
    requires forall i :: 0 <= i < n ==> (p(i) <==> q(i) || r(i))
    requires forall i :: 0 <= i < n ==> !(q(i) && r(i))
    ensures Count(n, p) == Count(n, q) + Count(n, r)
  {
    if n > 0 {
      CountSplit(n - 1, p, q, r);
    }
  }

  /** Two disjoint tests that both imply a third count at most as much as it. */
  lemma {:induction false} CountDisjoint(n: nat, p: int -> bool, q: int -> bool, r: int -> bool)
    requires forall i :: 0 <= i < n && p(i) ==> r(i)
    requires forall i :: 0 <= i < n && q(i) ==> r(i)
    requires forall i :: 0 <= i < n ==> !(p(i) && q(i))
    ensures Count(n, p) + Count(n, q) <= Count(n, r)
  {
    if n > 0 {
      CountDisjoint(n - 1, p, q, r);
    }
  }

  /** A sum whose terms vanish outside p and are at most k inside p is at most k per index passing p. */
  lemma {:induction false} SumBound(n: nat, w: int -> int, p: int -> bool, k: int)
    requires forall i :: 0 <= i < n ==> 0 <= w(i)
    requires forall i :: 0 <= i < n && p(i) ==> w(i) <= k
    requires forall i :: 0 <= i < n && !p(i) ==> w(i) == 0
    ensures 0 <= Sum(n, w) <= k * Count(n, p)
  {
    if n > 0 {
      SumBound(n - 1, w, p, k);
    }
  }

  /** Terms that vanish everywhere on the range except at `t` sum to the term at `t` (or to 0 when `t` lies beyond). */
  lemma {:induction false} SumSingle(n: nat, w: int -> int, t: int)
    requires 0 <= t
    requires forall i :: 0 <= i < n && i != t ==> w(i) == 0
    ensures Sum(n, w) == if t < n then w(t) else 0
  {
    if n > 0 {
      SumSingle(n - 1, w, t);
    }
  }

  /** A weaker test that also admits one index the stronger test rejects counts strictly more. */
  lemma {:induction false} CountStrict(n: nat, p: int -> bool, q: int -> bool, t: int)
    requires forall i :: 0 <= i < n && p(i) ==> q(i)
    requires 0 <= t < n && q(t) && !p(t)
    ensures Count(n, p) < Count(n, q)
  {
    if t == n - 1 {
      CountMono(n - 1, p, q);
    } else {
      CountStrict(n - 1, p, q, t);
    }
  }

  /** A test that holds at exactly one index of the range counts 1. */
  lemma {:induction false} CountSingle(n: nat, p: int -> bool, t: int)
    requires 0 <= t < n
    requires forall i :: 0 <= i < n ==> (p(i) <==> i == t)
    ensures Count(n, p) == 1
  {
    if t < n - 1 {
      CountSingle(n - 1, p, t);
    } else {
      assert Count(n - 1, p) == 0 by {
        CountZero(n - 1, p);
      }
    }
  }

  /** A test that holds exactly from index m on counts n - m. */
  lemma {:induction false} CountSuffix(n: nat, p: int -> bool, m: nat)
    requires m <= n
    requires forall i :: 0 <= i < n ==> (p(i) <==> m <= i)
    ensures Count(n, p) == n - m
  {
    if n > m {
      CountSuffix(n - 1, p, m);
    } else {
      CountZero(n, p);
    }
  }

  /** A test that holds exactly below index m counts m. */
  lemma {:induction false} CountPrefix(n: nat, p: int -> bool, m: nat)
    requires m <= n
    requires forall i :: 0 <= i < n ==> (p(i) <==> i < m)
    ensures Count(n, p) == m
  {
    if n > m {
      CountPrefix(n - 1, p, m);
    } else {
      CountAll(n, p);
    }
  }

  /** A test whose passing indices all lie in a set counts at most that set's size. */
  lemma {:induction false} CountWithin(n: nat, p: int -> bool, s: set<int>)
    requires forall i :: 0 <= i < n && p(i) ==> i in s
    ensures Count(n, p) <= |s|
  {
    if n > 0 {
      var s' := s - {n - 1};
      CountWithin(n - 1, p, s');
    }
  }

  /** A sequence holds at most as many distinct values as it has entries. */
  lemma {:induction false} SeqSetSize(s: seq<int>)
    ensures |set x | x in s| <= |s|
  {
    if |s| > 0 {
      SeqSetSize(s[1..]);
      assert (set x | x in s) == (set x | x in s[1..]) + {s[0]};
    }
  }

  /** A test whose passing indices all occur in a sequence counts at most that sequence's length. */
  lemma CountWithinSeq(n: nat, p: int -> bool, s: seq<int>)
    requires forall i :: 0 <= i < n && p(i) ==> i in s
    ensures Count(n, p) <= |s|
  {
    CountWithin(n, p, set x | x in s);
    SeqSetSize(s);
  }

  /** The indices in [lo, lo + k). */
  function Interval(lo: int, k: nat): int -> bool
  {
    i => lo <= i < lo + k
  }

  /** An interval of k indices counts at most k times, and not at all below its start. */
  lemma {:induction false} CountInterval(n: nat, lo: int, k: nat)
    ensures Count(n, Interval(lo, k)) <= k
    ensures n <= lo ==> Count(n, Interval(lo, k)) == 0
    ensures lo < n ==> Count(n, Interval(lo, k)) <= n - lo
  {
    if n > 0 {
      CountInterval(n - 1, lo, k);
    }
  }

  /** A count of at least two is witnessed by two different indices. */
  lemma {:induction false} CountTwo(n: nat, p: int -> bool)
    requires Count(n, p) >= 2
    ensures exists i, j :: 0 <= i < j < n && p(i) && p(j)
  {
    if p(n - 1) {
      assert Count(n - 1, p) >= 1;
      CountZero(n - 1, p);
      var i :| 0 <= i < n - 1 && p(i);
      assert p(n - 1);
    } else {
      CountTwo(n - 1, p);
    }
  }

  /** A count of exactly two names the only two indices that pass. */
  lemma {:induction false} CountExactlyTwo(n: nat, p: int -> bool)
    requires Count(n, p) == 2
    ensures exists i, j :: 0 <= i < j < n && p(i) && p(j)
                           && forall k :: 0 <= k < n && p(k) ==> k == i || k == j
  {
    if p(n - 1) {
      assert Count(n - 1, p) == 1;
      CountOne(n - 1, p);
      var i :| 0 <= i < n - 1 && p(i) && forall k :: 0 <= k < n - 1 && p(k) ==> k == i;
      assert forall k :: 0 <= k < n && p(k) ==> k == i || k == n - 1;
    } else {
      CountExactlyTwo(n - 1, p);
    }
  }

  /** A count of exactly one names the only index that passes. */
  lemma {:induction false} CountOne(n: nat, p: int -> bool)
    requires Count(n, p) == 1
    ensures exists i :: 0 <= i < n && p(i) && forall k :: 0 <= k < n && p(k) ==> k == i
  {
    if p(n - 1) {
      CountZero(n - 1, p);
      assert forall k :: 0 <= k < n && p(k) ==> k == n - 1;
    } else {
      CountOne(n - 1, p);
    }
  }
}
