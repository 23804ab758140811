/** Datatypes and sequence lemmas shared by every module of the model. */
module Common {
  datatype Option<+T> = None | Some(value: T)

  function Last<T>(s: seq<T>): T
    requires s != []
  {
    s[|s| - 1]
  }

  function Min(a: int, b: int): int {
    if a < b then a else b
  }

  /** `s` without its element `i`. */
  function Except<T>(s: seq<T>, i: nat): seq<T>
    requires i < |s|
  {
    s[..i] + s[i + 1..]
  }

  /** How often `x` is in `s`. */
  function Times<T(==)>(x: T, s: seq<T>): nat {
    multiset(s)[x]
  }

  lemma TimesConcat<T>(x: T, s: seq<T>, t: seq<T>)
    ensures Times(x, s + t) == Times(x, s) + Times(x, t)
  {
  }

  lemma TimesAppend<T>(x: T, s: seq<T>, y: T)
    ensures Times(x, s + [y]) == Times(x, s) + if x == y then 1 else 0
  {
  }

  lemma CancelOne<T(!new)>(m: multiset<T>, n: multiset<T>, x: T)
    requires m + multiset{x} == n + multiset{x}
    ensures m == n
  {
    forall y ensures m[y] == n[y] {
      assert (m + multiset{x})[y] == (n + multiset{x})[y];
    }
  }

  lemma TakeOut<T(!new)>(pre: seq<T>, x: T, post: seq<T>)
    ensures multiset(pre + ([x] + post)) == multiset(pre + post) + multiset{x}
  {
    assert multiset(pre + ([x] + post)) == multiset(pre) + multiset([x] + post);
    assert multiset([x] + post) == multiset([x]) + multiset(post);
    assert multiset([x]) == multiset{x};
    assert multiset(pre + post) == multiset(pre) + multiset(post);
  }

  lemma TakeOutAt<T(!new)>(s: seq<T>, i: nat)
    requires i < |s|
    ensures s == s[..i] + ([s[i]] + s[i + 1..])
    ensures multiset(s) == multiset(s[..i] + s[i + 1..]) + multiset{s[i]}
  {
    assert s == s[..i] + ([s[i]] + s[i + 1..]);
    TakeOut(s[..i], s[i], s[i + 1..]);
  }

  /** Takes the last element of `a` out of the permutation `b`. */
  lemma Without<T(!new)>(a: seq<T>, b: seq<T>) returns (pre: seq<T>, post: seq<T>)
    requires a != [] && multiset(a) == multiset(b)
    ensures b == pre + ([Last(a)] + post)
    ensures multiset(a[..|a| - 1]) == multiset(pre + post)
  {
    var x, n := Last(a), |a| - 1;
    assert x in multiset(b);
    var i :| 0 <= i < |b| && b[i] == x;
    pre, post := b[..i], b[i + 1..];
    TakeOutAt(b, i);
    TakeOutAt(a, n);
    assert a[..n] + a[n + 1..] == a[..n];
    CancelOne(multiset(a[..n]), multiset(pre + post), x);
  }
}
