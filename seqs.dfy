/** JavaScript's `Array.prototype.filter`, and what it promises. */
module Seqs {

  /** `s.filter(keep)`: the elements of `s` that `keep` accepts, in their original order. */
  function Filter<T>(s: seq<T>, keep: T -> bool): (r: seq<T>)
    ensures |r| <= |s|
  {
    if s == [] then [] else (if keep(s[0]) then [s[0]] else []) + Filter(s[1..], keep)
  }

  /** An element is in the result exactly when it was in the input and is accepted. */
  lemma {:induction false} FilterMembership<T>(s: seq<T>, keep: T -> bool, x: T)
    ensures x in Filter(s, keep) <==> x in s && keep(x)
  {
    if s != [] {
      FilterMembership(s[1..], keep, x);
      assert s == [s[0]] + s[1..];
    }
  }

  /** Nothing the predicate rejects survives. */
  lemma FilterAllAccepted<T>(s: seq<T>, keep: T -> bool)
    ensures forall x :: x in Filter(s, keep) ==> keep(x)
  {
    forall x | x in Filter(s, keep) ensures keep(x) {
      FilterMembership(s, keep, x);
    }
  }

  /** Each accepted value occurs as often as before, each rejected one not at all. */
  lemma {:induction false} FilterCount<T>(s: seq<T>, keep: T -> bool, x: T)
    ensures multiset(Filter(s, keep))[x] == if keep(x) then multiset(s)[x] else 0
  {
    if s != [] {
      FilterCount(s[1..], keep, x);
      assert s == [s[0]] + s[1..];
    }
  }

  /** Filtering a concatenation filters each part: relative order is kept. */
  lemma {:induction false} FilterAppend<T>(a: seq<T>, b: seq<T>, keep: T -> bool)
    ensures Filter(a + b, keep) == Filter(a, keep) + Filter(b, keep)
  {
    if a != [] {
      assert (a + b)[1..] == a[1..] + b;
      FilterAppend(a[1..], b, keep);
    } else {
      assert a + b == b;
    }
  }

  /** The filter leaves a sequence as it is exactly when it accepts every element. */
  lemma {:induction false} FilterUnchanged<T>(s: seq<T>, keep: T -> bool)
    ensures Filter(s, keep) == s <==> forall i :: 0 <= i < |s| ==> keep(s[i])
  {
    if s != [] {
      FilterUnchanged(s[1..], keep);
      if !keep(s[0]) {
        // the result is shorter than the input
        assert |Filter(s, keep)| == |Filter(s[1..], keep)| <= |s| - 1;
      }
    }
  }

  /** Filtering twice with the same predicate is filtering once. */
  lemma FilterIdempotent<T>(s: seq<T>, keep: T -> bool)
    ensures Filter(Filter(s, keep), keep) == Filter(s, keep)
  {
    var r := Filter(s, keep);
    FilterAllAccepted(s, keep);
    FilterUnchanged(r, keep);
  }

  /** Changing only elements that are rejected both before and after does not change the filter's output. */
  lemma {:induction false} FilterIgnoresRejectedChanges<T>(s: seq<T>, t: seq<T>, keep: T -> bool)
    requires |s| == |t|
    requires forall i :: 0 <= i < |s| && (keep(s[i]) || keep(t[i])) ==> s[i] == t[i]
    ensures Filter(s, keep) == Filter(t, keep)
  {
    if s != [] {
      FilterIgnoresRejectedChanges(s[1..], t[1..], keep);
    }
  }
}
