/**
 * Sequence helpers standing in for JavaScript's `Array.prototype.filter`
 * and `slice(0, n)`, with the facts about them used throughout the model.
 */
module Seqs {

  /** `s.filter(p)`: the elements of `s` satisfying `p`, in their order in `s`. */
  function Filter<T>(s: seq<T>, p: T -> bool): (r: seq<T>)
    ensures |r| <= |s|
    ensures forall i :: 0 <= i < |r| ==> r[i] in s && p(r[i])
    ensures forall i :: 0 <= i < |s| && p(s[i]) ==> s[i] in r
  {
    if s == [] then [] else (if p(s[0]) then [s[0]] else []) + Filter(s[1..], p)
  }

  /** `s.slice(0, n)`: the first `n` elements, or all of `s` when it is shorter. */
  function Take<T>(s: seq<T>, n: nat): (r: seq<T>)
    ensures |r| == if |s| <= n then |s| else n
    ensures r <= s
  {
    if |s| <= n then s else s[..n]
  }

  /** Filtering a non-empty sequence: its head, when it survives, then the filter of its tail. */
  lemma FilterCons<T>(s: seq<T>, p: T -> bool)
    requires s != []
    ensures Filter(s, p) == (if p(s[0]) then [s[0]] else []) + Filter(s[1..], p)
  {
  }

  /** The prefix `s[..j + 1]` filters to the head's contribution and the tail prefix's filter. */
  lemma FilterConsPrefix<T>(s: seq<T>, p: T -> bool, j: nat)
    requires j < |s|
    ensures Filter(s[..j + 1], p) == (if p(s[0]) then [s[0]] else []) + Filter(s[1..][..j], p)
  {
    var u := s[..j + 1];
    assert u[0] == s[0] && u[1..] == s[1..][..j];
    FilterCons(u, p);
  }

  /** Taking `n` elements after a head of length `|n - m|` takes `m` of the rest. */
  lemma TakeAfterHead<T>(h: seq<T>, x: seq<T>, n: nat, m: nat)
    requires n == |h| + m && m <= |x|
    ensures (h + x)[..n] == h + x[..m]
  {
  }

  /** The first `n` survivors of a filter are exactly the survivors of the prefix `s[..k]`. */
  lemma {:induction false} FilterPrefixAt<T>(s: seq<T>, p: T -> bool, n: nat) returns (k: nat)
    requires n <= |Filter(s, p)|
    ensures k <= |s| && Filter(s[..k], p) == Filter(s, p)[..n]
  {
    if n == 0 {
      k := 0;
      assert s[..0] == [];
    } else {
      FilterCons(s, p);
      var h := if p(s[0]) then [s[0]] else [];
      var m := if p(s[0]) then n - 1 else n;
      var j := FilterPrefixAt(s[1..], p, m);
      FilterConsPrefix(s, p, j);
      TakeAfterHead(h, Filter(s[1..], p), n, m);
      k := j + 1;
    }
  }

  /** The first `n` survivors of a filter are exactly the survivors of some prefix of the input. */
  lemma FilterPrefix<T>(s: seq<T>, p: T -> bool, n: nat)
    requires n <= |Filter(s, p)|
    ensures exists k :: 0 <= k <= |s| && Filter(s[..k], p) == Filter(s, p)[..n]
  {
    var k := FilterPrefixAt(s, p, n);
  }

  /** A filter whose predicate holds of no element keeps nothing. */
  lemma FilterNone<T>(s: seq<T>, p: T -> bool)
    requires forall i :: 0 <= i < |s| ==> !p(s[i])
    ensures Filter(s, p) == []
  {
  }

  /** `s[i]` is the one element of `s` satisfying `p`. */
  predicate OnlyAt<T>(s: seq<T>, p: T -> bool, i: int) {
    0 <= i < |s| && p(s[i]) && forall j :: 0 <= j < |s| && j != i ==> !p(s[j])
  }

  /** A filter keeps exactly one element iff exactly one element satisfies the predicate. */
  lemma {:induction false} FilterSingle<T>(s: seq<T>, p: T -> bool)
    ensures |Filter(s, p)| == 1 <==> exists i :: OnlyAt(s, p, i)
  {
    if s != [] {
      FilterCons(s, p);
      var t := s[1..];
      FilterSingle(t, p);
      if p(s[0]) {
        if |Filter(s, p)| == 1 {
          assert Filter(t, p) == [];
          forall j | 0 < j < |s| ensures !p(s[j]) {
            assert s[j] == t[j - 1];
          }
          assert OnlyAt(s, p, 0);
        }
        if exists i :: OnlyAt(s, p, i) {
          var i :| OnlyAt(s, p, i);
          assert i == 0;
          forall j | 0 <= j < |t| ensures !p(t[j]) {
            assert t[j] == s[j + 1];
          }
          FilterNone(t, p);
        }
      } else {
        if exists i :: OnlyAt(t, p, i) {
          var i :| OnlyAt(t, p, i);
          forall j | 0 <= j < |s| && j != i + 1 ensures !p(s[j]) {
            if j > 0 {
              assert s[j] == t[j - 1];
            }
          }
          assert OnlyAt(s, p, i + 1);
        }
        if exists i :: OnlyAt(s, p, i) {
          var i :| OnlyAt(s, p, i);
          forall j | 0 <= j < |t| && j != i - 1 ensures !p(t[j]) {
            assert t[j] == s[j + 1];
          }
          assert OnlyAt(t, p, i - 1);
        }
      }
    }
  }

  /** A filter whose predicate holds of every element keeps everything. */
  lemma {:induction false} FilterAll<T>(s: seq<T>, p: T -> bool)
    requires forall i :: 0 <= i < |s| ==> p(s[i])
    ensures Filter(s, p) == s
  {
    if s != [] {
      FilterAll(s[1..], p);
    }
  }

  /** Two predicates that agree on every element give the same filter. */
  lemma {:induction false} FilterCongruent<T>(s: seq<T>, p: T -> bool, q: T -> bool)
    requires forall i :: 0 <= i < |s| ==> p(s[i]) == q(s[i])
    ensures Filter(s, p) == Filter(s, q)
  {
    if s != [] {
      FilterCongruent(s[1..], p, q);
    }
  }

  /** Filtering by a stronger predicate is filtering the weaker filter's result again. */
  lemma {:induction false} FilterRefines<T>(s: seq<T>, p: T -> bool, q: T -> bool)
    requires forall i :: 0 <= i < |s| ==> p(s[i]) ==> q(s[i])
    ensures Filter(s, p) == Filter(Filter(s, q), p)
  {
    if s != [] {
      FilterRefines(s[1..], p, q);
      if q(s[0]) {
        assert Filter(s, q) == [s[0]] + Filter(s[1..], q);
        assert Filter(s, q)[1..] == Filter(s[1..], q);
      } else {
        assert Filter(s, q) == Filter(s[1..], q);
        assert Filter(s, p) == Filter(s[1..], p);
      }
    }
  }
}
