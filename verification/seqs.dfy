/** Order-preserving filtering of sequences (the source's `Array.prototype.filter`). */
module Seqs {

  /** The elements of `s` that satisfy `p`, in their original order. */
  function Filter<T>(s: seq<T>, p: T -> bool): (r: seq<T>)
    ensures |r| <= |s|
    decreases |s|
  {
    if |s| == 0 then []
    else (if p(s[0]) then [s[0]] else []) + Filter(s[1..], p)
  }

  /** The filter keeps exactly the elements satisfying `p`. */
  lemma {:induction false} FilterMembers<T>(s: seq<T>, p: T -> bool)
    ensures forall i :: 0 <= i < |Filter(s, p)| ==> Filter(s, p)[i] in s && p(Filter(s, p)[i])
    ensures forall i :: 0 <= i < |s| && p(s[i]) ==> s[i] in Filter(s, p)
    decreases |s|
  {
    if |s| > 0 {
      FilterMembers(s[1..], p);
      var r := Filter(s, p);
      if p(s[0]) {
        assert r == [s[0]] + Filter(s[1..], p);
      } else {
        assert r == Filter(s[1..], p);
      }
      forall i | 0 <= i < |r|
        ensures r[i] in s && p(r[i])
      {
        if p(s[0]) && i == 0 {
        } else if p(s[0]) {
          assert r[i] == Filter(s[1..], p)[i - 1];
          assert r[i] in s[1..];
        } else {
          assert r[i] in s[1..];
        }
      }
      forall i | 0 <= i < |s| && p(s[i])
        ensures s[i] in r
      {
        if i > 0 {
          assert s[i] == s[1..][i - 1];
        }
      }
    }
  }

  /** Filtering distributes over concatenation. */
  lemma {:induction false} FilterConcat<T>(a: seq<T>, b: seq<T>, p: T -> bool)
    ensures Filter(a + b, p) == Filter(a, p) + Filter(b, p)
    decreases |a|
  {
    if |a| == 0 {
      assert a + b == b;
    } else {
      assert (a + b)[1..] == a[1..] + b;
      FilterConcat(a[1..], b, p);
      var head := if p(a[0]) then [a[0]] else [];
      calc {
        Filter(a + b, p);
        head + Filter(a[1..] + b, p);
        head + (Filter(a[1..], p) + Filter(b, p));
        (head + Filter(a[1..], p)) + Filter(b, p);
      }
    }
  }

  /** A filter whose predicate holds of every element keeps the sequence unchanged. */
  lemma {:induction false} FilterAll<T>(s: seq<T>, p: T -> bool)
    requires forall i :: 0 <= i < |s| ==> p(s[i])
    ensures Filter(s, p) == s
    decreases |s|
  {
    if |s| > 0 {
      FilterAll(s[1..], p);
    }
  }

  /** A filter whose predicate holds of no element yields the empty sequence. */
  lemma {:induction false} FilterNone<T>(s: seq<T>, p: T -> bool)
    requires forall i :: 0 <= i < |s| ==> !p(s[i])
    ensures Filter(s, p) == []
    decreases |s|
  {
    if |s| > 0 {
      FilterNone(s[1..], p);
    }
  }

  /** Filtering by `p` and then by `q` is filtering once by their conjunction `pq`. */
  lemma {:induction false} FilterFilter<T>(s: seq<T>, p: T -> bool, q: T -> bool, pq: T -> bool)
    requires forall i :: 0 <= i < |s| ==> pq(s[i]) == (p(s[i]) && q(s[i]))
    ensures Filter(Filter(s, p), q) == Filter(s, pq)
    decreases |s|
  {
    if |s| > 0 {
      FilterFilter(s[1..], p, q, pq);
      if p(s[0]) {
        assert Filter(s, p) == [s[0]] + Filter(s[1..], p);
        assert Filter(s, p)[1..] == Filter(s[1..], p);
      } else {
        assert Filter(s, p) == Filter(s[1..], p);
      }
    }
  }

  /** The concatenation of a sequence of sequences. */
  function Flatten<T>(ss: seq<seq<T>>): (r: seq<T>)
    decreases |ss|
  {
    if |ss| == 0 then [] else ss[0] + Flatten(ss[1..])
  }

  /**
   * If `p` holds of every element of block `k` and of no element of any other block,
   * filtering the concatenation by `p` yields exactly block `k`.
   */
  lemma {:induction false} FilterSelectsBlock<T>(ss: seq<seq<T>>, k: nat, p: T -> bool)
    requires k < |ss|
    requires forall i :: 0 <= i < |ss[k]| ==> p(ss[k][i])
    requires forall j, i :: 0 <= j < |ss| && j != k && 0 <= i < |ss[j]| ==> !p(ss[j][i])
    ensures Filter(Flatten(ss), p) == ss[k]
    decreases |ss|
  {
    FilterConcat(ss[0], Flatten(ss[1..]), p);
    if k == 0 {
      FilterAll(ss[0], p);
      FilterSelectsNone(ss[1..], p);
    } else {
      FilterNone(ss[0], p);
      FilterSelectsBlock(ss[1..], k - 1, p);
    }
  }

  /** If `p` holds of no element of any block, filtering the concatenation by `p` yields nothing. */
  lemma {:induction false} FilterSelectsNone<T>(ss: seq<seq<T>>, p: T -> bool)
    requires forall j, i :: 0 <= j < |ss| && 0 <= i < |ss[j]| ==> !p(ss[j][i])
    ensures Filter(Flatten(ss), p) == []
    decreases |ss|
  {
    if |ss| > 0 {
      FilterConcat(ss[0], Flatten(ss[1..]), p);
      FilterNone(ss[0], p);
      FilterSelectsNone(ss[1..], p);
    }
  }

  /** `rel` holds between every earlier and every later element of `s`. */
  predicate Pairwise<T>(s: seq<T>, rel: (T, T) -> bool) {
    forall i, j :: 0 <= i < j < |s| ==> rel(s[i], s[j])
  }

  /** Two sequences each ordered by `rel`, and ordered by it against each other, concatenate to one ordered by it. */
  lemma ConcatPairwise<T>(a: seq<T>, b: seq<T>, rel: (T, T) -> bool)
    requires Pairwise(a, rel) && Pairwise(b, rel)
    requires forall i, j :: 0 <= i < |a| && 0 <= j < |b| ==> rel(a[i], b[j])
    ensures Pairwise(a + b, rel)
  {
    var c := a + b;
    forall i, j | 0 <= i < j < |c|
      ensures rel(c[i], c[j])
    {
      if j < |a| {
        assert c[i] == a[i] && c[j] == a[j];
      } else if i < |a| {
        assert c[i] == a[i] && c[j] == b[j - |a|];
      } else {
        assert c[i] == b[i - |a|] && c[j] == b[j - |a|];
      }
    }
  }

  /** The first `n` elements of `s`, or all of it when it is shorter (JavaScript `slice(0, n)`). */
  function Take<T>(s: seq<T>, n: nat): (r: seq<T>)
    ensures |r| == if n < |s| then n else |s|
    ensures forall i :: 0 <= i < |r| ==> r[i] == s[i]
  {
    if n < |s| then s[..n] else s
  }

  /** `s` without its first `n` elements, or empty when it is shorter (JavaScript `slice(n)`). */
  function Drop<T>(s: seq<T>, n: nat): (r: seq<T>)
    ensures |r| == if n < |s| then |s| - n else 0
    ensures forall i :: 0 <= i < |r| ==> r[i] == s[n + i]
  {
    if n < |s| then s[n..] else []
  }

  /** Taking and dropping the same count splits a sequence without losing or reordering anything. */
  lemma TakeDropSplit<T>(s: seq<T>, n: nat)
    ensures Take(s, n) + Drop(s, n) == s
  {
  }

  /** A relation that holds between every earlier and later element of `s` still holds after filtering. */
  lemma {:induction false} FilterKeepsPairwise<T>(s: seq<T>, p: T -> bool, rel: (T, T) -> bool)
    requires Pairwise(s, rel)
    ensures Pairwise(Filter(s, p), rel)
    decreases |s|
  {
    if |s| > 0 {
      var tail := Filter(s[1..], p);
      FilterKeepsPairwise(s[1..], p, rel);
      FilterMembers(s[1..], p);
      if p(s[0]) {
        var r := Filter(s, p);
        assert r == [s[0]] + tail;
        forall i, j | 0 <= i < j < |r|
          ensures rel(r[i], r[j])
        {
          if i == 0 {
            assert r[j] == tail[j - 1];
            assert tail[j - 1] in s[1..];
            var k :| 0 <= k < |s[1..]| && s[1..][k] == tail[j - 1];
            assert s[k + 1] == r[j];
          } else {
            assert r[i] == tail[i - 1] && r[j] == tail[j - 1];
          }
        }
      } else {
        assert Filter(s, p) == tail;
      }
    }
  }

  /** When each element satisfies exactly one of `p`, `q` and `r`, the three filters together are as long as `s`. */
  lemma {:induction false} FilterPartitionLength<T>(s: seq<T>, p: T -> bool, q: T -> bool, r: T -> bool)
    requires forall i :: 0 <= i < |s| ==> (if p(s[i]) then 1 else 0) + (if q(s[i]) then 1 else 0) + (if r(s[i]) then 1 else 0) == 1
    ensures |Filter(s, p)| + |Filter(s, q)| + |Filter(s, r)| == |s|
    decreases |s|
  {
    if |s| > 0 {
      FilterPartitionLength(s[1..], p, q, r);
    }
  }
}
