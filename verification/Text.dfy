/** The Python string operations the sources use, on `seq<char>`. */
module Text {

  /** `s.replace(pat, rep)`: every occurrence, left to right, without overlaps. */
  function Replace(s: string, pat: string, rep: string): string
    requires |pat| > 0
  {
    if |s| < |pat| then s
    else if pat <= s then rep + Replace(s[|pat|..], pat, rep)
    else [s[0]] + Replace(s[1..], pat, rep)
  }

  /** A stretch without the pattern's first character is copied as it is. */
  lemma {:induction false} ReplaceSkips(a: string, rest: string, pat: string, rep: string)
    requires |pat| > 0 && pat[0] !in a
    ensures Replace(a + rest, pat, rep) == a + Replace(rest, pat, rep)
  {
    var s := a + rest;
    if |a| == 0 {
      assert s == rest;
    } else if |s| < |pat| {
      assert Replace(rest, pat, rep) == rest;
    } else {
      assert s[0] == a[0] && a[0] in a;
      assert s[1..] == a[1..] + rest;
      ReplaceSkips(a[1..], rest, pat, rep);
      ReplaceMiss(s, pat, rep);
      assert [a[0]] + (a[1..] + Replace(rest, pat, rep)) == a + Replace(rest, pat, rep);
    }
  }

  lemma ReplaceMiss(s: string, pat: string, rep: string)
    requires |s| >= |pat| > 0 && s[0] != pat[0]
    ensures Replace(s, pat, rep) == [s[0]] + Replace(s[1..], pat, rep)
  {
  }

  /** `s.split(sep)` for a one-character separator. */
  function Split(s: string, sep: char): (parts: seq<string>)
    ensures |parts| > 0
  {
    if |s| == 0 then [""]
    else
      var rest := Split(s[1..], sep);
      if s[0] == sep then [""] + rest else [[s[0]] + rest[0]] + rest[1..]
  }

  /** `sep.join(parts)`. */
  function Join(parts: seq<string>, sep: char): string {
    if |parts| == 0 then ""
    else if |parts| == 1 then parts[0]
    else parts[0] + [sep] + Join(parts[1..], sep)
  }

  lemma {:induction false} SplitJoin(parts: seq<string>, sep: char)
    requires |parts| > 0 && forall p :: p in parts ==> sep !in p
    ensures Split(Join(parts, sep), sep) == parts
  {
    if |parts| == 1 {
      SplitPiece(parts[0], sep);
    } else {
      SplitJoin(parts[1..], sep);
      SplitFirst(parts[0], Join(parts[1..], sep), sep);
      assert parts[0] + [sep] + Join(parts[1..], sep) == parts[0] + ([sep] + Join(parts[1..], sep));
    }
  }

  lemma {:induction false} SplitPiece(p: string, sep: char)
    requires sep !in p
    ensures Split(p, sep) == [p]
  {
    if |p| > 0 {
      SplitPiece(p[1..], sep);
      assert [p[0]] + p[1..] == p;
    }
  }

  lemma {:induction false} SplitFirst(p: string, rest: string, sep: char)
    requires sep !in p
    ensures Split(p + ([sep] + rest), sep) == [p] + Split(rest, sep)
  {
    var s := p + ([sep] + rest);
    if |p| == 0 {
      assert s == [sep] + rest && s[1..] == rest;
    } else {
      SplitFirst(p[1..], rest, sep);
      assert s[1..] == p[1..] + ([sep] + rest);
      assert s[0] == p[0] && [p[0]] + p[1..] == p;
    }
  }

  /** Splitting and joining, the other way round: for every text. */
  lemma {:induction false} JoinSplit(s: string, sep: char)
    ensures Join(Split(s, sep), sep) == s && forall p :: p in Split(s, sep) ==> sep !in p
  {
    if |s| > 0 {
      JoinSplit(s[1..], sep);
      var rest := Split(s[1..], sep);
      JoinFirst(s, rest, sep);
    }
  }

  lemma JoinFirst(s: string, rest: seq<string>, sep: char)
    requires |s| > 0 && |rest| > 0 && Join(rest, sep) == s[1..]
    ensures Join(if s[0] == sep then [""] + rest else [[s[0]] + rest[0]] + rest[1..], sep) == s
  {
    if s[0] == sep {
      assert ([""] + rest)[1..] == rest;
    } else if |rest| == 1 {
      assert [[s[0]] + rest[0]] + rest[1..] == [[s[0]] + rest[0]];
    } else {
      assert ([[s[0]] + rest[0]] + rest[1..])[1..] == rest[1..];
      assert [s[0]] + (rest[0] + [sep] + Join(rest[1..], sep)) == [s[0]] + rest[0] + [sep] + Join(rest[1..], sep);
    }
  }

  predicate IsDigit(c: char) { '0' <= c <= '9' }

  /** `str(n)` for a non-negative integer. */
  function PrintNat(n: nat): (s: string)
    ensures |s| > 0 && forall c :: c in s ==> IsDigit(c)
  {
    var d := [(n % 10 + '0' as int) as char];
    if n < 10 then d else PrintNat(n / 10) + d
  }

  /** `int(s)` for a string of ASCII digits. */
  function ParseNat(s: string): nat
    requires forall c :: c in s ==> IsDigit(c)
  {
    if |s| == 0 then 0
    else
      assert IsDigit(s[|s| - 1]);
      ParseNat(s[..|s| - 1]) * 10 + (s[|s| - 1] as int - '0' as int)
  }

  lemma {:induction false} ParsePrintNat(n: nat)
    ensures ParseNat(PrintNat(n)) == n
  {
    var s := PrintNat(n);
    if n >= 10 {
      ParsePrintNat(n / 10);
      assert s[..|s| - 1] == PrintNat(n / 10);
    }
  }
}
