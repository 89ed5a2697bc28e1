/** Sequences that keep the order of a longer one. */
module Sequences {

  // `a` is `b` with some elements left out.
  ghost predicate Subsequence<T>(a: seq<T>, b: seq<T>) {
    if a == [] then true
    else if |a| > |b| then false
    else (a[|a| - 1] == b[|b| - 1] && Subsequence(a[..|a| - 1], b[..|b| - 1])) || Subsequence(a, b[..|b| - 1])
  }

  lemma {:induction false} SubsequenceSnoc<T>(a: seq<T>, b: seq<T>, e: T)
    requires Subsequence(a, b)
    ensures Subsequence(a, b + [e]) && Subsequence(a + [e], b + [e])
    ensures |a| <= |b| && (|a| == |b| ==> a == b)
  {
    assert (a + [e])[..|a|] == a && (b + [e])[..|b|] == b;
    SubsequenceIsShorter(a, b);
  }

  lemma {:induction false} SubsequenceIsShorter<T>(a: seq<T>, b: seq<T>)
    requires Subsequence(a, b)
    ensures |a| <= |b| && (|a| == |b| ==> a == b)
  {
    if a != [] {
      if a[|a| - 1] == b[|b| - 1] && Subsequence(a[..|a| - 1], b[..|b| - 1]) {
        SubsequenceIsShorter(a[..|a| - 1], b[..|b| - 1]);
      } else {
        SubsequenceIsShorter(a, b[..|b| - 1]);
      }
    }
  }

  lemma {:induction false} SubsequenceTransitive<T>(a: seq<T>, b: seq<T>, c: seq<T>)
    requires Subsequence(a, b) && Subsequence(b, c)
    ensures Subsequence(a, c)
    decreases |b| + |c|
  {
    if a != [] {
      SubsequenceIsShorter(a, b);
      SubsequenceIsShorter(b, c);
      var b', c' := b[..|b| - 1], c[..|c| - 1];
      if b[|b| - 1] == c[|c| - 1] && Subsequence(b', c') {
        if a[|a| - 1] == b[|b| - 1] && Subsequence(a[..|a| - 1], b') {
          SubsequenceTransitive(a[..|a| - 1], b', c');
        } else {
          SubsequenceTransitive(a, b', c');
        }
      } else {
        SubsequenceTransitive(a, b, c');
      }
    }
  }

  function Without<T>(s: seq<T>, i: nat): (r: seq<T>)
    requires i < |s|
  {
    seq(|s| - 1, j requires 0 <= j < |s| - 1 => if j < i then s[j] else s[j + 1])
  }

  lemma {:induction false} SubsequenceOfItself<T>(s: seq<T>)
    ensures Subsequence(s, s)
  {
    if s != [] {
      SubsequenceOfItself(s[..|s| - 1]);
    }
  }

  lemma {:induction false} WithoutIsSubsequence<T>(s: seq<T>, i: nat)
    requires i < |s|
    ensures Subsequence(Without(s, i), s)
  {
    var init := s[..|s| - 1];
    if i == |init| {
      assert Without(s, i) == init;
      SubsequenceOfItself(init);
      SubsequenceSnoc(init, init, s[i]);
      assert s == init + [s[i]];
    } else {
      WithoutIsSubsequence(init, i);
      SubsequenceSnoc(Without(init, i), init, s[|init|]);
      assert Without(s, i) == Without(init, i) + [s[|init|]] && s == init + [s[|init|]];
    }
  }

  lemma WithoutIsOneLess<T>(s: seq<T>, k: nat)
    requires k < |s|
    ensures multiset(s) == multiset(Without(s, k)) + multiset{s[k]}
  {
    assert s == s[..k] + [s[k]] + s[k + 1..];
    assert Without(s, k) == s[..k] + s[k + 1..];
  }

  lemma {:induction false} SubsequenceConcat<T>(a: seq<T>, b: seq<T>, c: seq<T>, d: seq<T>)
    requires Subsequence(a, b) && Subsequence(c, d)
    ensures Subsequence(a + c, b + d)
    decreases |d|
  {
    if d == [] {
      assert a + c == a && b + d == b;
    } else {
      var d', e := d[..|d| - 1], d[|d| - 1];
      assert b + d == (b + d') + [e];
      if c != [] && c[|c| - 1] == e && Subsequence(c[..|c| - 1], d') {
        SubsequenceConcat(a, b, c[..|c| - 1], d');
        assert a + c == (a + c[..|c| - 1]) + [e];
        SubsequenceSnoc(a + c[..|c| - 1], b + d', e);
      } else {
        SubsequenceConcat(a, b, c, d');
        SubsequenceSnoc(a + c, b + d', e);
      }
    }
  }

  lemma {:induction false} SubsequenceElement<T>(a: seq<T>, b: seq<T>, i: nat) returns (j: nat)
    requires Subsequence(a, b) && i < |a|
    ensures j < |b| && b[j] == a[i]
    decreases |b|
  {
    var b' := b[..|b| - 1];
    if a[|a| - 1] == b[|b| - 1] && Subsequence(a[..|a| - 1], b') {
      if i == |a| - 1 {
        j := |b| - 1;
      } else {
        j := SubsequenceElement(a[..|a| - 1], b', i);
      }
    } else {
      j := SubsequenceElement(a, b', i);
    }
  }

  lemma {:induction false} SubsequenceHasFewer<T>(a: seq<T>, b: seq<T>, e: T)
    requires Subsequence(a, b)
    ensures multiset(a)[e] <= multiset(b)[e]
    decreases |b|
  {
    if a != [] {
      var a', b' := a[..|a| - 1], b[..|b| - 1];
      assert a == a' + [a[|a| - 1]] && b == b' + [b[|b| - 1]];
      if a[|a| - 1] == b[|b| - 1] && Subsequence(a', b') {
        SubsequenceHasFewer(a', b', e);
      } else {
        SubsequenceHasFewer(a, b', e);
      }
    }
  }
}
