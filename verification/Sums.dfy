/** Sums of a real-valued measure over a sequence. */
module Sums {

  function Sum<T>(f: T -> real, s: seq<T>): real {
    if s == [] then 0.0 else f(s[0]) + Sum(f, s[1..])
  }

  lemma {:induction false} SumOfConcat<T>(f: T -> real, a: seq<T>, b: seq<T>)
    ensures Sum(f, a + b) == Sum(f, a) + Sum(f, b)
  {
    if a == [] {
      assert a + b == b;
    } else {
      SumOfConcat(f, a[1..], b);
      assert (a + b)[1..] == a[1..] + b;
    }
  }

  /** The same terms without one occurrence of x. */
  lemma WithoutOne<T>(a: seq<T>, x: T, front: seq<T>, back: seq<T>)
    requires a != [] && a[0] == x && multiset(a) == multiset(front + ([x] + back))
    ensures multiset(a[1..]) == multiset(front + back)
  {
    assert a == [x] + a[1..];
    assert multiset(a) == multiset{x} + multiset(a[1..]);
    assert multiset(front + ([x] + back)) == multiset{x} + (multiset(front) + multiset(back));
    assert multiset(front + back) == multiset(front) + multiset(back);
    assert multiset(a[1..]) == multiset(a) - multiset{x};
    assert multiset(front + back) == multiset(front + ([x] + back)) - multiset{x};
  }

  /** A sum does not depend on the order of its terms. */
  lemma {:induction false} SumOfPermutation<T>(f: T -> real, a: seq<T>, b: seq<T>)
    requires multiset(a) == multiset(b)
    ensures Sum(f, a) == Sum(f, b)
  {
    if a == [] {
      assert |b| == |multiset(b)|;
    } else {
      assert a[0] in multiset(b);
      var k :| 0 <= k < |b| && b[k] == a[0];
      var front, back := b[..k], b[k + 1..];
      assert b == front + ([a[0]] + back);
      WithoutOne(a, a[0], front, back);
      SumOfPermutation(f, a[1..], front + back);
      SumOfConcat(f, front, back);
      SumOfConcat(f, front, [a[0]] + back);
      assert ([a[0]] + back)[1..] == back;
    }
  }

  lemma {:induction false} SumsAgree<T>(f: T -> real, g: T -> real, s: seq<T>)
    requires forall x :: x in s ==> f(x) == g(x)
    ensures Sum(f, s) == Sum(g, s)
  {
    if s != [] { SumsAgree(f, g, s[1..]); }
  }
}
