/** `resolve_path` of `core/assertions/path.py`: a tokenizer and a walk. */
module JsonPath {
  import opened Values
  import opened Text

  /** The characters `str.strip()` removes. */
  predicate IsSpace(c: char) {
    '\t' <= c <= '\r' || '\U{1c}' <= c <= ' ' || c in {'\U{85}', '\U{a0}', '\U{1680}', '\U{2028}', '\U{2029}', '\U{202f}', '\U{205f}', '\U{3000}'} ||
    '\U{2000}' <= c <= '\U{200a}'
  }

  function StripLeft(s: string): string {
    if |s| > 0 && IsSpace(s[0]) then StripLeft(s[1..]) else s
  }

  function StripRight(s: string): string {
    if |s| > 0 && IsSpace(s[|s| - 1]) then StripRight(s[..|s| - 1]) else s
  }

  /** `cleaned`: surrounding whitespace, one "$" and one "." removed. */
  function Clean(path: string): string {
    var stripped := StripRight(StripLeft(path));
    var bare := if "$" <= stripped then stripped[1..] else stripped;
    if "." <= bare then bare[1..] else bare
  }

  predicate IsSpecial(c: char) { c == '.' || c == '[' || c == ']' }

  /** The length of the longest run without special characters, or of digits. */
  function KeyRun(s: string): (n: nat)
    ensures n <= |s| && (forall i :: 0 <= i < n ==> !IsSpecial(s[i])) && (n < |s| ==> IsSpecial(s[n]))
  {
    if |s| == 0 || IsSpecial(s[0]) then 0 else 1 + KeyRun(s[1..])
  }

  function DigitRun(s: string): (n: nat)
    ensures n <= |s| && (forall i :: 0 <= i < n ==> IsDigit(s[i])) && (n < |s| ==> !IsDigit(s[n]))
  {
    if |s| == 0 || !IsDigit(s[0]) then 0 else 1 + DigitRun(s[1..])
  }

  /** One match of the token pattern at the start of `s` with the length it takes; no match
      there makes the regex engine move on by one character. */
  function TokenAt(s: string): (r: (Option<Step>, nat))
    requires |s| > 0
    ensures 0 < r.1 <= |s|
  {
    if !IsSpecial(s[0]) then (Some(Key(s[..KeyRun(s)])), KeyRun(s))
    else
      var d := DigitRun(s[1..]);
      if s[0] == '[' && d > 0 && d + 1 < |s| && s[d + 1] == ']' then
        assert forall c :: c in s[1..d + 1] ==> IsDigit(c);
        (Some(Index(ParseNat(s[1..d + 1]))), d + 2)
      else (None, 1)
  }

  function Tokens(s: string): seq<Step> {
    if |s| == 0 then []
    else
      var (token, n) := TokenAt(s);
      (match token case Some(step) => [step] case None => []) + Tokens(s[n..])
  }

  /** `None` is the not-found sentinel. */
  function Resolve(data: Value, path: string): Option<Value> {
    At(data, Tokens(Clean(path)))
  }

  /** `resolve_path`: tokens are consumed as they are found. */
  method ResolvePath(data: Value, path: string) returns (r: Option<Value>)
    ensures r == Resolve(data, path)
  {
    var cleaned := Clean(path);
    if cleaned == "" {
      return Some(data);
    }
    var current := data;
    while cleaned != ""
      invariant At(current, Tokens(cleaned)) == Resolve(data, path)
      decreases |cleaned|
    {
      var (token, n) := TokenAt(cleaned);
      if token.Some? {
        assert Tokens(cleaned)[1..] == Tokens(cleaned[n..]);
        match StepInto(current, token.value) {
          case Some(next) => current := next;
          case None => return None;
        }
      } else {
        assert Tokens(cleaned) == Tokens(cleaned[n..]);
      }
      cleaned := cleaned[n..];
    }
    r := Some(current);
  }

  // ---------------------------------------------------------------- printing

  function PrintStep(step: Step): string {
    match step
    case Key(name) => "." + name
    case Index(pos) => "[" + PrintNat(pos) + "]"
  }

  function PrintSteps(steps: seq<Step>): string {
    if |steps| == 0 then "" else PrintStep(steps[0]) + PrintSteps(steps[1..])
  }

  function Print(steps: seq<Step>): string { "$" + PrintSteps(steps) }

  predicate PlainKey(step: Step) {
    step.Key? ==> step.name != "" && forall c :: c in step.name ==> !IsSpecial(c)
  }

  /** Paths that can be written down: non-empty keys without ".", "[" and "]", the last one not
      ending in whitespace. */
  predicate Printable(steps: seq<Step>) {
    (forall s :: s in steps ==> PlainKey(s)) && (|steps| > 0 ==> EndsPlainly(steps[|steps| - 1]))
  }

  predicate EndsPlainly(last: Step) {
    last.Key? && last.name != "" ==> !IsSpace(last.name[|last.name| - 1])
  }

  lemma TokensOfKey(name: string, rest: string)
    requires PlainKey(Key(name)) && (rest == "" || IsSpecial(rest[0]))
    ensures Tokens("." + name + rest) == [Key(name)] + Tokens(rest)
  {
    var s := name + rest;
    var n := KeyRun(s);
    assert forall i :: 0 <= i < |name| ==> s[i] == name[i] && s[i] in name;
    assert rest != "" ==> s[|name|] == rest[0];
    assert n == |name| && s[..n] == name && s[n..] == rest;
    assert "." + name + rest == "." + s && ("." + s)[1..] == s;
    assert TokenAt("." + s) == (None, 1);
  }

  lemma TokensOfIndex(pos: nat, rest: string)
    ensures Tokens("[" + PrintNat(pos) + "]" + rest) == [Index(pos)] + Tokens(rest)
  {
    var digits := PrintNat(pos);
    var s := "[" + digits + "]" + rest;
    var d := DigitRun(s[1..]);
    assert forall i :: 0 <= i < |digits| ==> s[1..][i] == digits[i] && digits[i] in digits;
    assert s[1..][|digits|] == ']';
    assert d == |digits| && s[1..d + 1] == digits && s[d + 2..] == rest;
    ParsePrintNat(pos);
  }

  lemma {:induction false} TokensOfPrint(steps: seq<Step>)
    requires forall s :: s in steps ==> PlainKey(s)
    ensures Tokens(PrintSteps(steps)) == steps
    ensures PrintSteps(steps) == "" || IsSpecial(PrintSteps(steps)[0])
  {
    if |steps| > 0 {
      var rest := PrintSteps(steps[1..]);
      TokensOfPrint(steps[1..]);
      assert steps[0] in steps;
      TokensOfStep(steps[0], rest);
      assert [steps[0]] + steps[1..] == steps;
    }
  }

  lemma TokensOfStep(step: Step, rest: string)
    requires PlainKey(step) && (rest == "" || IsSpecial(rest[0]))
    ensures Tokens(PrintStep(step) + rest) == [step] + Tokens(rest)
    ensures PrintStep(step) != "" && IsSpecial(PrintStep(step)[0])
  {
    match step {
      case Key(name) => TokensOfKey(name, rest);
      case Index(pos) => TokensOfIndex(pos, rest);
    }
  }

  /** A printed path has nothing to strip at its end. */
  lemma {:induction false} PrintEndsPlainly(steps: seq<Step>)
    requires Printable(steps) && |steps| > 0
    ensures PrintSteps(steps) != "" && !IsSpace(PrintSteps(steps)[|PrintSteps(steps)| - 1])
  {
    var rest := PrintSteps(steps[1..]);
    if |steps| == 1 {
      assert rest == "" && PrintSteps(steps) == PrintStep(steps[0]) + "";
      assert steps[0] in steps;
    } else {
      assert steps[1..][|steps[1..]| - 1] == steps[|steps| - 1];
      PrintEndsPlainly(steps[1..]);
    }
  }

  /** Parsing undoes printing: resolving the printed path is walking the data by the list, down
      to the not-found outcome. */
  lemma ResolvePrinted(data: Value, steps: seq<Step>)
    requires Printable(steps)
    ensures Resolve(data, Print(steps)) == At(data, steps)
  {
    TokensOfPrint(steps);
    if |steps| > 0 {
      PrintEndsPlainly(steps);
    }
    TokensOfDollar(PrintSteps(steps));
  }

  /** The leading "$" and dot of a path that needs no stripping do not matter. */
  lemma TokensOfDollar(printed: string)
    requires printed != "" ==> !IsSpace(printed[|printed| - 1])
    ensures Tokens(Clean("$" + printed)) == Tokens(printed)
  {
    var path := "$" + printed;
    assert StripRight(StripLeft(path)) == path && path[1..] == printed;
    if "." <= printed {
      assert TokenAt(printed) == (None, 1);
      assert Tokens(printed) == Tokens(printed[1..]);
    }
  }

  predicate Trimmed(s: string) { s != "" && !IsSpace(s[0]) && !IsSpace(s[|s| - 1]) }

  lemma CleanTrimmed(s: string)
    requires Trimmed(s) && s[0] != '$'
    ensures Clean(s) == if s[0] == '.' then s[1..] else s
  {
    assert StripRight(StripLeft(s)) == s;
  }

  lemma DotIsSkipped(s: string)
    requires s != "" && s[0] == '.'
    ensures Tokens(s) == Tokens(s[1..])
  {
    assert TokenAt(s) == (None, 1);
  }

  lemma TokensOfTrimmed(s: string)
    requires Trimmed(s) && s[0] != '$'
    ensures Tokens(Clean(s)) == Tokens(s)
  {
    CleanTrimmed(s);
    if s[0] == '.' {
      DotIsSkipped(s);
    }
  }

  /** The "$" may be left out... */
  lemma ResolveUndollared(data: Value, steps: seq<Step>)
    requires Printable(steps)
    ensures Resolve(data, PrintSteps(steps)) == At(data, steps)
  {
    TokensOfPrint(steps);
    if |steps| > 0 {
      PrintEndsPlainly(steps);
      TokensOfTrimmed(PrintSteps(steps));
    }
  }

  lemma FirstKeyPrinted(steps: seq<Step>)
    requires |steps| > 0 && steps[0].Key?
    ensures PrintSteps(steps) == "." + (steps[0].name + PrintSteps(steps[1..]))
  {
  }

  /** ...and so may the dot before a first key that does not itself begin with "$" or whitespace: this
      is the form "a.b[0]". */
  lemma ResolveBare(data: Value, steps: seq<Step>)
    requires Printable(steps) && |steps| > 0 && steps[0].Key? && steps[0].name != ""
    requires steps[0].name[0] != '$' && !IsSpace(steps[0].name[0])
    ensures Resolve(data, steps[0].name + PrintSteps(steps[1..])) == At(data, steps)
  {
    var bare := steps[0].name + PrintSteps(steps[1..]);
    FirstKeyPrinted(steps);
    PrintEndsPlainly(steps);
    BareTokens(bare, PrintSteps(steps), steps[0].name[0]);
    TokensOfPrint(steps);
  }

  lemma BareTokens(bare: string, printed: string, first: char)
    requires bare != "" && bare[0] == first && first != '$' && !IsSpace(first)
    requires printed == "." + bare && !IsSpace(printed[|printed| - 1])
    ensures Tokens(Clean(bare)) == Tokens(printed)
  {
    assert bare[|bare| - 1] == printed[|printed| - 1] && printed[1..] == bare;
    TokensOfTrimmed(bare);
    DotIsSkipped(printed);
  }

  predicate AllSpace(s: string) { forall c :: c in s ==> IsSpace(c) }

  lemma {:induction false} StripLeftSkips(left: string, s: string)
    requires AllSpace(left)
    ensures StripLeft(left + s) == StripLeft(s)
  {
    if |left| == 0 {
      assert left + s == s;
    } else {
      assert left[0] in left && (left + s)[1..] == left[1..] + s;
      StripLeftSkips(left[1..], s);
    }
  }

  lemma {:induction false} StripRightSkips(s: string, right: string)
    requires AllSpace(right)
    ensures StripRight(s + right) == StripRight(s)
    decreases |right|
  {
    if |right| == 0 {
      assert s + right == s;
    } else {
      var init := right[..|right| - 1];
      assert right[|right| - 1] in right && (s + right)[..|s + right| - 1] == s + init;
      StripRightSkips(s, init);
    }
  }

  lemma {:induction false} StripLeftKeeps(s: string, right: string)
    requires AllSpace(right)
    ensures StripRight(StripLeft(s + right)) == StripRight(StripLeft(s))
    decreases |s|
  {
    if |s| == 0 {
      assert s + right == right && right + "" == right;
      StripLeftSkips(right, "");
    } else if IsSpace(s[0]) {
      assert (s + right)[1..] == s[1..] + right;
      StripLeftKeeps(s[1..], right);
    } else {
      StripRightSkips(s, right);
    }
  }

  /** Whitespace around a path makes no difference. */
  lemma SpacesAreStripped(data: Value, left: string, path: string, right: string)
    requires AllSpace(left) && AllSpace(right)
    ensures Resolve(data, left + path + right) == Resolve(data, path)
  {
    assert left + path + right == left + (path + right);
    StripLeftSkips(left, path + right);
    StripLeftKeeps(path, right);
  }

  /** Printing undoes parsing up to spelling: every path that resolves through a printable list
      of steps means the same as its printed form. */
  lemma PrintedMeansTheSame(data: Value, path: string)
    requires var steps := Tokens(Clean(path)); |steps| > 0 ==> EndsPlainly(steps[|steps| - 1])
    ensures Resolve(data, Print(Tokens(Clean(path)))) == Resolve(data, path)
  {
    TokensArePlain(Clean(path));
    ResolvePrinted(data, Tokens(Clean(path)));
  }

  lemma {:induction false} TokensArePlain(s: string)
    ensures forall t :: t in Tokens(s) ==> PlainKey(t)
  {
    if |s| > 0 {
      TokensArePlain(s[TokenAt(s).1..]);
    }
  }
}
