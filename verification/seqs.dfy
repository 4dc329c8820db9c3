/**
 * Order relations between lists: "keeps the relative order of what it keeps"
 * (subsequence) and "is split into two lists" (interleaving). The filter stages
 * of the postprocessing pipeline are specified with them.
 */
module Seqs {

  /** `a` is `b` with some entries removed and the rest kept in their order. */
  ghost predicate IsSubsequence<T>(a: seq<T>, b: seq<T>)
    decreases |b|
  {
    a == [] || (b != [] && ((a[0] == b[0] && IsSubsequence(a[1..], b[1..])) || IsSubsequence(a, b[1..])))
  }

  lemma {:induction false} SubsequenceReflexive<T>(a: seq<T>)
    ensures IsSubsequence(a, a)
    decreases |a|
  {
    if a != [] {
      SubsequenceReflexive(a[1..]);
    }
  }

  lemma {:induction false} SubsequenceTransitive<T>(a: seq<T>, b: seq<T>, c: seq<T>)
    requires IsSubsequence(a, b) && IsSubsequence(b, c)
    ensures IsSubsequence(a, c)
    decreases |c|
  {
    if a != [] {
      if IsSubsequence(b, c[1..]) {
        SubsequenceTransitive(a, b, c[1..]);
      } else if a[0] == b[0] && IsSubsequence(a[1..], b[1..]) {
        SubsequenceTransitive(a[1..], b[1..], c[1..]);
      } else {
        SubsequenceTransitive(a, b[1..], c[1..]);
      }
    }
  }

  /** Appending the same entry to both keeps a subsequence one, and appending to the longer one alone does too. */
  lemma {:induction false} SubsequenceSnoc<T>(a: seq<T>, b: seq<T>, x: T)
    requires IsSubsequence(a, b)
    ensures IsSubsequence(a, b + [x]) && IsSubsequence(a + [x], b + [x])
    decreases |b|
  {
    if b == [] {
      assert a + [x] == [x] && [x][1..] == [];
    } else {
      assert (b + [x])[1..] == b[1..] + [x];
      if a == [] {
        SubsequenceSnoc(a, b[1..], x);
        assert a + [x] == [x];
      } else {
        assert (a + [x])[1..] == a[1..] + [x];
        if a[0] == b[0] && IsSubsequence(a[1..], b[1..]) {
          SubsequenceSnoc(a[1..], b[1..], x);
        } else {
          SubsequenceSnoc(a, b[1..], x);
        }
      }
    }
  }

  lemma {:induction false} SubsequenceLength<T>(a: seq<T>, b: seq<T>)
    requires IsSubsequence(a, b)
    ensures |a| <= |b|
    decreases |b|
  {
    if a != [] {
      if a[0] == b[0] && IsSubsequence(a[1..], b[1..]) {
        SubsequenceLength(a[1..], b[1..]);
      } else {
        SubsequenceLength(a, b[1..]);
      }
    }
  }

  /**
   * `xs` is an interleaving of `a` and `b`: walking `xs` from the front, each
   * entry is the next entry of `a` or the next entry of `b`.
   */
  ghost predicate Interleaves<T>(xs: seq<T>, a: seq<T>, b: seq<T>)
    decreases |xs|
  {
    if xs == [] then a == [] && b == []
    else
      (a != [] && a[0] == xs[0] && Interleaves(xs[1..], a[1..], b))
      || (b != [] && b[0] == xs[0] && Interleaves(xs[1..], a, b[1..]))
  }

  lemma {:induction false} InterleavesAppendLeft<T>(xs: seq<T>, a: seq<T>, b: seq<T>, x: T)
    requires Interleaves(xs, a, b)
    ensures Interleaves(xs + [x], a + [x], b)
    decreases |xs|
  {
    if xs == [] {
      assert Interleaves<T>([], [], []);
      assert ([x] + [])[1..] == [];
    } else {
      assert (xs + [x])[1..] == xs[1..] + [x];
      if a != [] && a[0] == xs[0] && Interleaves(xs[1..], a[1..], b) {
        InterleavesAppendLeft(xs[1..], a[1..], b, x);
        assert (a + [x])[1..] == a[1..] + [x];
      } else {
        InterleavesAppendLeft(xs[1..], a, b[1..], x);
      }
    }
  }

  lemma {:induction false} InterleavesAppendRight<T>(xs: seq<T>, a: seq<T>, b: seq<T>, x: T)
    requires Interleaves(xs, a, b)
    ensures Interleaves(xs + [x], a, b + [x])
    decreases |xs|
  {
    if xs == [] {
      assert Interleaves<T>([], [], []);
    } else {
      assert (xs + [x])[1..] == xs[1..] + [x];
      if a != [] && a[0] == xs[0] && Interleaves(xs[1..], a[1..], b) {
        InterleavesAppendRight(xs[1..], a[1..], b, x);
      } else {
        InterleavesAppendRight(xs[1..], a, b[1..], x);
        assert (b + [x])[1..] == b[1..] + [x];
      }
    }
  }

  /** An interleaving loses and invents nothing: it holds exactly the entries of its two parts. */
  lemma {:induction false} InterleavesMultiset<T>(xs: seq<T>, a: seq<T>, b: seq<T>)
    requires Interleaves(xs, a, b)
    ensures multiset(xs) == multiset(a) + multiset(b)
    decreases |xs|
  {
    if xs != [] {
      assert xs == [xs[0]] + xs[1..];
      if a != [] && a[0] == xs[0] && Interleaves(xs[1..], a[1..], b) {
        InterleavesMultiset(xs[1..], a[1..], b);
        assert a == [a[0]] + a[1..];
      } else {
        InterleavesMultiset(xs[1..], a, b[1..]);
        assert b == [b[0]] + b[1..];
      }
    }
  }

  /** Each part of an interleaving keeps the relative order it had in the whole. */
  lemma {:induction false} InterleavesSubsequences<T>(xs: seq<T>, a: seq<T>, b: seq<T>)
    requires Interleaves(xs, a, b)
    ensures IsSubsequence(a, xs) && IsSubsequence(b, xs)
    decreases |xs|
  {
    if xs != [] {
      if a != [] && a[0] == xs[0] && Interleaves(xs[1..], a[1..], b) {
        InterleavesSubsequences(xs[1..], a[1..], b);
      } else {
        InterleavesSubsequences(xs[1..], a, b[1..]);
      }
    }
  }
}
