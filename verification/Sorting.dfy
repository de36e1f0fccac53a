/** `sorted(set(values))`: ascending and without repetitions, for any strict total order. */
module Sorting {

  function InsertOnce<T(==)>(v: T, s: seq<T>, less: (T, T) -> bool): seq<T> {
    if |s| == 0 || less(v, s[0]) then [v] + s else if v == s[0] then s else [s[0]] + InsertOnce(v, s[1..], less)
  }

  function SortedSet<T(==)>(values: seq<T>, less: (T, T) -> bool): seq<T> {
    if |values| == 0 then [] else InsertOnce(values[0], SortedSet(values[1..], less), less)
  }

  ghost predicate StrictTotal<T(!new)>(less: (T, T) -> bool) {
    (forall a, b :: less(a, b) ==> !less(b, a) && a != b) &&
    (forall a, b :: less(a, b) || a == b || less(b, a)) &&
    (forall a, b, c :: less(a, b) && less(b, c) ==> less(a, c))
  }

  ghost predicate Ascending<T>(s: seq<T>, less: (T, T) -> bool) {
    forall i, j :: 0 <= i < j < |s| ==> less(s[i], s[j])
  }

  lemma {:induction false} InsertOnceSorts<T(!new)>(v: T, s: seq<T>, less: (T, T) -> bool)
    requires StrictTotal(less) && Ascending(s, less)
    ensures Ascending(InsertOnce(v, s, less), less)
    ensures forall x :: x in InsertOnce(v, s, less) <==> x == v || x in s
  {
    if |s| > 0 && !less(v, s[0]) && v != s[0] {
      var r := InsertOnce(v, s[1..], less);
      InsertOnceSorts(v, s[1..], less);
      forall i | 0 <= i < |r| ensures less(s[0], r[i]) {
        assert r[i] in r;
        if r[i] != v {
          var j :| 0 <= j < |s[1..]| && s[1..][j] == r[i];
          assert less(s[0], s[j + 1]);
        }
      }
      assert forall x :: x in s <==> x == s[0] || x in s[1..];
    }
  }

  lemma {:induction false} SortedSetSorts<T(!new)>(values: seq<T>, less: (T, T) -> bool)
    requires StrictTotal(less)
    ensures Ascending(SortedSet(values, less), less) && forall x :: x in SortedSet(values, less) <==> x in values
  {
    if |values| > 0 {
      SortedSetSorts(values[1..], less);
      InsertOnceSorts(values[0], SortedSet(values[1..], less), less);
      assert forall x :: x in values <==> x == values[0] || x in values[1..];
    }
  }

  /** Integers by size, strings by code point. */
  predicate IntLess(a: int, b: int) { a < b }

  predicate TextLess(a: string, b: string) {
    |b| > 0 && (|a| == 0 || a[0] < b[0] || (a[0] == b[0] && TextLess(a[1..], b[1..])))
  }

  lemma {:induction false} TextLessOne(a: string, b: string)
    ensures TextLess(a, b) ==> !TextLess(b, a) && a != b
    ensures TextLess(a, b) || a == b || TextLess(b, a)
  {
    if |a| > 0 && |b| > 0 {
      TextLessOne(a[1..], b[1..]);
      assert a == [a[0]] + a[1..] && b == [b[0]] + b[1..];
    }
  }

  lemma {:induction false} TextLessChain(a: string, b: string, c: string)
    requires TextLess(a, b) && TextLess(b, c)
    ensures TextLess(a, c)
  {
    if |a| > 0 && a[0] == b[0] == c[0] {
      TextLessChain(a[1..], b[1..], c[1..]);
    }
  }

  lemma OrdersAreTotal()
    ensures StrictTotal(IntLess) && StrictTotal(TextLess)
  {
    forall a, b ensures TextLess(a, b) ==> !TextLess(b, a) && a != b {
      TextLessOne(a, b);
    }
    forall a, b ensures TextLess(a, b) || a == b || TextLess(b, a) {
      TextLessOne(a, b);
    }
    forall a, b, c | TextLess(a, b) && TextLess(b, c) ensures TextLess(a, c) {
      TextLessChain(a, b, c);
    }
  }
}
