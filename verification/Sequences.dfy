/** Subsequences (elements in order, some left out) and counting, shared by the channel and frame models. */
module Sequences {

  function Last<T>(s: seq<T>): T
    requires s != []
  {
    s[|s| - 1]
  }

  function Init<T>(s: seq<T>): seq<T>
    requires s != []
  {
    s[..|s| - 1]
  }

  /** `a` can be obtained from `b` by leaving elements out. */
  predicate Subsequence<T(==)>(a: seq<T>, b: seq<T>)
    decreases |b|
  {
    a == [] || (b != [] && ((Last(a) == Last(b) && Subsequence(Init(a), Init(b))) || Subsequence(a, Init(b))))
  }

  lemma SubsequenceExtend<T>(a: seq<T>, b: seq<T>, x: T)
    requires Subsequence(a, b)
    ensures Subsequence(a, b + [x])
    ensures Subsequence(a + [x], b + [x])
  {
    assert Init(b + [x]) == b && Init(a + [x]) == a;
  }

  /** Leaving out one more element keeps a subsequence. */
  lemma {:induction false} SubsequenceRemove<T>(a: seq<T>, x: T, c: seq<T>, b: seq<T>)
    requires Subsequence(a + [x] + c, b)
    ensures Subsequence(a + c, b)
    decreases |b|, |c|
  {
    var w := a + [x] + c;
    if a + c != [] {
      if Last(w) == Last(b) && Subsequence(Init(w), Init(b)) {
        if c == [] {
          assert Init(w) == a + c;
          SubsequenceExtend(a + c, Init(b), Last(b));
          assert Init(b) + [Last(b)] == b;
        } else {
          assert Init(w) == a + [x] + Init(c);
          SubsequenceRemove(a, x, Init(c), Init(b));
          assert Init(a + c) == a + Init(c);
        }
      } else {
        SubsequenceRemove(a, x, c, Init(b));
      }
    }
  }

  lemma {:induction false} SubsequenceTransitive<T>(a: seq<T>, b: seq<T>, c: seq<T>)
    requires Subsequence(a, b) && Subsequence(b, c)
    ensures Subsequence(a, c)
    decreases |c|
  {
    if a != [] {
      if Last(b) == Last(c) && Subsequence(Init(b), Init(c)) {
        if Last(a) == Last(b) && Subsequence(Init(a), Init(b)) {
          SubsequenceTransitive(Init(a), Init(b), Init(c));
        } else {
          SubsequenceTransitive(a, Init(b), Init(c));
        }
      } else {
        SubsequenceTransitive(a, b, Init(c));
      }
    }
  }

  lemma {:induction false} SubsequenceRefl<T>(a: seq<T>)
    ensures Subsequence(a, a)
    decreases |a|
  {
    if a != [] {
      SubsequenceRefl(Init(a));
    }
  }

  lemma {:induction false} SubsequenceOfPrefix<T>(a: seq<T>, b: seq<T>)
    requires a <= b
    ensures Subsequence(a, b)
    decreases |b|
  {
    if |a| == |b| {
      assert a == b;
      SubsequenceRefl(b);
    } else {
      SubsequenceOfPrefix(a, Init(b));
      SubsequenceExtend(a, Init(b), Last(b));
      assert Init(b) + [Last(b)] == b;
    }
  }
}
