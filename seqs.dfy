/** Sequence operations the store and the handlers are built from: the first match
    of a lookup, an order-preserving filter, MongoDB's `$pull` (and JavaScript's
    `filter(x => x !== v)`), and the subsequence relation that says "in the order of
    the input". */
module Seqs {
  import opened Wrappers

  /** Index of the first element satisfying `p`, as `findOne` / `findById` return the
      first document matching a filter. */
  function FirstIndex<T>(s: seq<T>, p: T -> bool): (r: Option<nat>)
    ensures r.Some? ==> r.value < |s| && p(s[r.value])
    ensures r.Some? ==> forall k :: 0 <= k < r.value ==> !p(s[k])
    ensures r.None? <==> forall k :: 0 <= k < |s| ==> !p(s[k])
  {
    if |s| == 0 then None
    else if p(s[0]) then Some(0)
    else match FirstIndex(s[1..], p)
      case None => None
      case Some(i) => Some(i + 1)
  }

  /** `a` is obtained from `b` by deleting elements: `a` lists some of `b`'s elements
      in `b`'s order. */
  predicate Subseq<T(==)>(a: seq<T>, b: seq<T>)
  {
    if |b| == 0 then |a| == 0
    else (|a| > 0 && a[0] == b[0] && Subseq(a[1..], b[1..])) || Subseq(a, b[1..])
  }

  /** The elements of `s` that satisfy `keep`, in their original order. */
  function Filter<T(!new)>(s: seq<T>, keep: T -> bool): (r: seq<T>)
    ensures |r| <= |s|
    ensures forall i :: 0 <= i < |r| ==> r[i] in s && keep(r[i])
    ensures forall i :: 0 <= i < |s| && keep(s[i]) ==> s[i] in r
    ensures Subseq(r, s)
    ensures forall x :: multiset(r)[x] == if keep(x) then multiset(s)[x] else 0
  {
    if |s| == 0 then []
    else
      var rest := Filter(s[1..], keep);
      FilterStep(s, rest, keep);
      if keep(s[0]) then [s[0]] + rest else rest
  }

  /** What `Filter` promises of `r` as the filtering of `s`. */
  ghost predicate Selects<T(!new)>(r: seq<T>, s: seq<T>, keep: T -> bool)
  {
    SelectsInOrder(r, s, keep) && KeepsCounts(r, s, keep)
  }

  ghost predicate SelectsInOrder<T>(r: seq<T>, s: seq<T>, keep: T -> bool)
  {
    && |r| <= |s|
    && (forall i :: 0 <= i < |r| ==> r[i] in s && keep(r[i]))
    && (forall i :: 0 <= i < |s| && keep(s[i]) ==> s[i] in r)
    && Subseq(r, s)
  }

  ghost predicate KeepsCounts<T(!new)>(r: seq<T>, s: seq<T>, keep: T -> bool)
  {
    forall x :: multiset(r)[x] == if keep(x) then multiset(s)[x] else 0
  }

  /** One step of `Filter`: the head is kept in front of the filtered tail, or
      dropped. */
  lemma FilterStep<T(!new)>(s: seq<T>, rest: seq<T>, keep: T -> bool)
    requires |s| > 0 && Selects(rest, s[1..], keep)
    ensures Selects(if keep(s[0]) then [s[0]] + rest else rest, s, keep)
  {
    OrderStep(s, rest, keep);
    CountStep(s, rest, keep);
  }

  lemma OrderStep<T>(s: seq<T>, rest: seq<T>, keep: T -> bool)
    requires |s| > 0 && SelectsInOrder(rest, s[1..], keep)
    ensures SelectsInOrder(if keep(s[0]) then [s[0]] + rest else rest, s, keep)
  {
    var x, tail := s[0], s[1..];
    assert s == [x] + tail;
    if keep(x) {
      var r := [x] + rest;
      assert r[1..] == rest;
      forall i | 0 <= i < |r| ensures r[i] in s && keep(r[i]) {
        if i > 0 {
          assert r[i] == rest[i - 1];
        }
      }
      forall i | 0 <= i < |s| && keep(s[i]) ensures s[i] in r {
        if i > 0 {
          assert s[i] == tail[i - 1];
        }
      }
    } else {
      forall i | 0 <= i < |s| && keep(s[i]) ensures s[i] in rest {
        assert i > 0 && s[i] == tail[i - 1];
      }
    }
  }

  lemma CountStep<T(!new)>(s: seq<T>, rest: seq<T>, keep: T -> bool)
    requires |s| > 0 && KeepsCounts(rest, s[1..], keep)
    ensures KeepsCounts(if keep(s[0]) then [s[0]] + rest else rest, s, keep)
  {
    MultisetOfCons(s);
    assert multiset([s[0]] + rest) == multiset{s[0]} + multiset(rest);
  }

  lemma MultisetOfCons<T>(s: seq<T>)
    requires |s| > 0
    ensures multiset(s) == multiset{s[0]} + multiset(s[1..])
  {
    assert s == [s[0]] + s[1..];
  }

  /** Every occurrence of `x` removed: MongoDB's `$pull: {field: x}`. */
  function Without<T(==)>(s: seq<T>, x: T): (r: seq<T>)
    ensures multiset(r) == multiset(s)[x := 0]
    ensures Subseq(r, s)
  {
    if |s| == 0 then []
    else
      assert s == [s[0]] + s[1..];
      var rest := Without(s[1..], x);
      if s[0] == x then rest
      else
        assert ([s[0]] + rest)[1..] == rest;
        [s[0]] + rest
  }

  predicate NoDuplicates<T(==)>(s: seq<T>)
  {
    forall i, j :: 0 <= i < j < |s| ==> s[i] != s[j]
  }

  lemma {:induction false} SubseqOfEmpty<T>(b: seq<T>)
    ensures Subseq([], b)
    decreases |b|
  {
    if |b| > 0 {
      SubseqOfEmpty(b[1..]);
    }
  }

  /** A prefix of a subsequence is a subsequence: taking the first k of an
      order-preserving selection keeps the order. */
  lemma {:induction false} PrefixOfSubseq<T>(a: seq<T>, b: seq<T>, k: nat)
    requires Subseq(a, b) && k <= |a|
    ensures Subseq(a[..k], b)
    decreases |b|
  {
    if k == 0 {
      assert a[..k] == [];
      SubseqOfEmpty(b);
    } else if |a| > 0 && a[0] == b[0] && Subseq(a[1..], b[1..]) {
      PrefixOfSubseq(a[1..], b[1..], k - 1);
      assert a[..k][1..] == a[1..][..k - 1];
    } else {
      PrefixOfSubseq(a, b[1..], k);
    }
  }

  /** Removing something that is absent changes nothing. */
  lemma {:induction false} WithoutAbsent<T>(s: seq<T>, x: T)
    requires x !in s
    ensures Without(s, x) == s
    decreases |s|
  {
    if |s| > 0 {
      WithoutAbsent(s[1..], x);
    }
  }

  /** `$pull` distributes over concatenation. */
  lemma {:induction false} WithoutConcat<T>(a: seq<T>, b: seq<T>, x: T)
    ensures Without(a + b, x) == Without(a, x) + Without(b, x)
    decreases |a|
  {
    if |a| == 0 {
      assert a + b == b;
    } else {
      assert (a + b)[0] == a[0];
      assert (a + b)[1..] == a[1..] + b;
      WithoutConcat(a[1..], b, x);
    }
  }

  /** Pushing an absent element and then pulling it restores the sequence: the
      heart of every like/unlike and follow/unfollow round trip. */
  lemma PullAfterPush<T>(s: seq<T>, x: T)
    requires x !in s
    ensures Without(s + [x], x) == s
  {
    WithoutConcat(s, [x], x);
    WithoutAbsent(s, x);
    assert Without([x], x) == [];
  }

  /** Pulling never introduces a duplicate. */
  lemma {:induction false} WithoutKeepsNoDuplicates<T>(s: seq<T>, x: T)
    requires NoDuplicates(s)
    ensures NoDuplicates(Without(s, x))
    decreases |s|
  {
    if |s| > 0 {
      WithoutKeepsNoDuplicates(s[1..], x);
      var rest := Without(s[1..], x);
      if s[0] != x {
        assert s[0] !in s[1..];
        assert multiset(rest)[s[0]] == 0;
        assert s[0] !in rest;
        var r := [s[0]] + rest;
        forall i, j | 0 <= i < j < |r| ensures r[i] != r[j] {
          if i == 0 {
            assert r[j] == rest[j - 1];
          } else {
            assert r[i] == rest[i - 1] && r[j] == rest[j - 1];
          }
        }
      }
    }
  }
}
