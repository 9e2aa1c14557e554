/** How often something comes in a sequence, by a key of its elements. */
module Counting {

  function Count<T>(s: seq<T>, key: T -> nat, k: nat): nat {
    if s == [] then 0 else (if key(s[0]) == k then 1 else 0) + Count(s[1..], key, k)
  }

  lemma {:induction false} CountAppend<T>(a: seq<T>, b: seq<T>, key: T -> nat, k: nat)
    ensures Count(a + b, key, k) == Count(a, key, k) + Count(b, key, k)
  {
    if a == [] {
      assert a + b == b;
    } else {
      assert (a + b)[1..] == a[1..] + b;
      CountAppend(a[1..], b, key, k);
    }
  }

  lemma {:induction false} CountIn<T>(s: seq<T>, key: T -> nat, k: nat)
    ensures Count(s, key, k) > 0 <==> exists x :: x in s && key(x) == k
  {
    if s != [] {
      CountIn(s[1..], key, k);
      assert s == [s[0]] + s[1..];
    }
  }
}
