/** Counting the elements of a sequence that satisfy a predicate. */
module Counting {

  function Count<T>(s: seq<T>, p: T -> bool): (n: nat)
    ensures n <= |s|
  {
    if |s| == 0 then 0 else (if p(s[0]) then 1 else 0) + Count(s[1..], p)
  }

  lemma CountCons<T>(first: T, rest: seq<T>, p: T -> bool)
    ensures Count([first] + rest, p) == (if p(first) then 1 else 0) + Count(rest, p)
  {
    assert ([first] + rest)[1..] == rest;
  }

  lemma {:induction false} CountAll<T>(s: seq<T>, p: T -> bool)
    ensures Count(s, p) == |s| <==> forall x :: x in s ==> p(x)
  {
    if |s| > 0 {
      CountAll(s[1..], p);
      assert forall x :: x in s <==> x == s[0] || x in s[1..];
    }
  }

  lemma {:induction false} CountNone<T>(s: seq<T>, p: T -> bool)
    ensures Count(s, p) == 0 <==> forall x :: x in s ==> !p(x)
  {
    if |s| > 0 {
      CountNone(s[1..], p);
      assert forall x :: x in s <==> x == s[0] || x in s[1..];
    }
  }

  lemma {:induction false} CountWeaker<T>(s: seq<T>, p: T -> bool, q: T -> bool)
    requires forall x :: x in s && p(x) ==> q(x)
    ensures Count(s, p) <= Count(s, q)
  {
    if |s| > 0 {
      CountWeaker(s[1..], p, q);
    }
  }

  lemma {:induction false} CountConcat<T>(a: seq<T>, b: seq<T>, p: T -> bool)
    ensures Count(a + b, p) == Count(a, p) + Count(b, p)
  {
    if |a| == 0 {
      assert a + b == b;
    } else {
      CountConcat(a[1..], b, p);
      assert (a + b)[1..] == a[1..] + b;
    }
  }

  /** Changing one element changes the count by that element alone. */
  lemma {:induction false} CountMove<T>(s: seq<T>, i: nat, to: T, p: T -> bool)
    requires i < |s|
    ensures Count(s[i := to], p) == Count(s, p) - (if p(s[i]) then 1 else 0) + (if p(to) then 1 else 0)
  {
    if i == 0 {
      assert s[i := to][1..] == s[1..];
    } else {
      CountMove(s[1..], i - 1, to, p);
      assert s[i := to][1..] == s[1..][i - 1 := to];
    }
  }
}
