/**
 * `Array.prototype.filter` on sequences, with what it promises: it keeps
 * exactly the elements that pass, in their original order.
 */
module Collections {

  /** `s.filter(p)`. */
  function Keep<T(==,!new)>(s: seq<T>, p: T -> bool): (r: seq<T>)
    ensures |r| <= |s|
    ensures forall x :: x in r <==> x in s && p(x)
  {
    if s == [] then []
    else
      var init := s[..|s| - 1];
      assert s == init + [s[|s| - 1]];
      Keep(init, p) + (if p(s[|s| - 1]) then [s[|s| - 1]] else [])
  }

  /** No element occurs twice. */
  predicate Distinct<T(==)>(s: seq<T>) {
    forall i, j :: 0 <= i < j < |s| ==> s[i] != s[j]
  }

  /** Strictly increasing positions, all below `n`. */
  predicate Ascending(idx: seq<nat>, n: nat) {
    && (forall i :: 0 <= i < |idx| ==> idx[i] < n)
    && (forall i, j :: 0 <= i < j < |idx| ==> idx[i] < idx[j])
  }

  /** The positions of `s` whose element passes `p`, in ascending order. */
  function Passing<T>(s: seq<T>, p: T -> bool): seq<nat> {
    if s == [] then []
    else Passing(s[..|s| - 1], p) + (if p(s[|s| - 1]) then [|s| - 1] else [])
  }

  lemma {:induction false} PassingAscending<T>(s: seq<T>, p: T -> bool)
    ensures Ascending(Passing(s, p), |s|)
  {
    if s != [] {
      PassingAscending(s[..|s| - 1], p);
    }
  }

  lemma {:induction false} PassingComplete<T>(s: seq<T>, p: T -> bool, j: nat)
    requires j < |s| && p(s[j])
    ensures j in Passing(s, p)
  {
    var n := |s| - 1;
    if j < n {
      assert s[..n][j] == s[j];
      PassingComplete(s[..n], p, j);
    }
  }

  lemma {:induction false} PassingSelects<T(!new)>(s: seq<T>, p: T -> bool)
    ensures |Passing(s, p)| == |Keep(s, p)|
    ensures forall i :: 0 <= i < |Passing(s, p)| ==> Passing(s, p)[i] < |s| && Keep(s, p)[i] == s[Passing(s, p)[i]]
  {
    if s != [] {
      var n := |s| - 1;
      PassingSelects(s[..n], p);
      PassingAscending(s[..n], p);
    }
  }

  /**
   * The filter's result is the subsequence of `s` at ascending positions
   * `idx`, and `idx` holds every position whose element passes.
   */
  lemma KeepPositions<T(!new)>(s: seq<T>, p: T -> bool) returns (idx: seq<nat>)
    ensures |idx| == |Keep(s, p)| && Ascending(idx, |s|)
    ensures forall i :: 0 <= i < |idx| ==> Keep(s, p)[i] == s[idx[i]]
    ensures forall j :: 0 <= j < |s| && p(s[j]) ==> j in idx
  {
    idx := Passing(s, p);
    PassingAscending(s, p);
    PassingSelects(s, p);
    forall j | 0 <= j < |s| && p(s[j]) ensures j in idx {
      PassingComplete(s, p, j);
    }
  }

  /** Filtering a sequence without repetitions gives one without repetitions. */
  lemma KeepDistinct<T(!new)>(s: seq<T>, p: T -> bool)
    requires Distinct(s)
    ensures Distinct(Keep(s, p))
  {
    var idx := KeepPositions(s, p);
  }

  /** The parts put end to end, in order. */
  function Flatten<T>(parts: seq<seq<T>>): seq<T> {
    if parts == [] then [] else Flatten(parts[..|parts| - 1]) + parts[|parts| - 1]
  }

  /** When every part has one or two elements, `n` parts flatten to between `n` and `2 * n`. */
  lemma {:induction false} FlattenLength<T>(parts: seq<seq<T>>)
    requires forall i :: 0 <= i < |parts| ==> 1 <= |parts[i]| <= 2
    ensures |parts| <= |Flatten(parts)| <= 2 * |parts|
  {
    if parts != [] {
      FlattenLength(parts[..|parts| - 1]);
    }
  }
}
