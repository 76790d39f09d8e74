/** Sorting by a key: stable insertion, ties in the order given. */
module Sorting {

  predicate Ordered<T>(key: T -> nat, s: seq<T>) {
    |s| > 1 ==> key(s[0]) <= key(s[1]) && Ordered(key, s[1..])
  }

  lemma {:induction false} OrderedPairs<T>(key: T -> nat, s: seq<T>, i: nat, j: nat)
    requires Ordered(key, s) && i <= j < |s|
    ensures key(s[i]) <= key(s[j])
  {
    if 0 < i {
      OrderedPairs(key, s[1..], i - 1, j - 1);
    } else if 0 < j {
      OrderedPairs(key, s[1..], 0, j - 1);
    }
  }

  function Insert<T>(key: T -> nat, x: T, sorted: seq<T>): (r: seq<T>)
    requires Ordered(key, sorted)
    ensures multiset(r) == multiset(sorted) + multiset{x} && Ordered(key, r)
    ensures r[0] == x || (sorted != [] && r[0] == sorted[0])
  {
    if sorted == [] then [x]
    else if key(x) < key(sorted[0]) then
      assert ([x] + sorted)[1..] == sorted;
      [x] + sorted
    else
      assert sorted == [sorted[0]] + sorted[1..];
      var rest := Insert(key, x, sorted[1..]);
      assert ([sorted[0]] + rest)[1..] == rest;
      [sorted[0]] + rest
  }

  function Sort<T>(key: T -> nat, s: seq<T>): (r: seq<T>)
    ensures multiset(r) == multiset(s) && Ordered(key, r)
  {
    if s == [] then []
    else
      assert s == s[..|s| - 1] + [s[|s| - 1]];
      Insert(key, s[|s| - 1], Sort(key, s[..|s| - 1]))
  }
}
