/** `substitute_path_params` of `adapters/rest/url_utils.py`: repeated `str.replace`, and the
    simultaneous substitution it is meant to be. */
module PathParams {
  import opened Values
  import opened Text

  /** One entry of the parameter dict; the value is what `str(value)` gives, or a template that
      renders to it. */
  datatype Param<V> = Param(name: string, value: V)

  function Placeholder(name: string): string { "{" + name + "}" }

  /** One replacement after the other, in the dict's order. */
  function Sequential(path: string, params: seq<Param<string>>): string
    decreases |params|
  {
    if |params| == 0 then path
    else Sequential(Replace(path, Placeholder(params[0].name), params[0].value), params[1..])
  }

  /** One step of the loop. */
  lemma SequentialStep(path: string, p: Param<string>, rest: seq<Param<string>>)
    ensures Sequential(path, [p] + rest) == Sequential(Replace(path, Placeholder(p.name), p.value), rest)
  {
    assert ([p] + rest)[1..] == rest;
  }

  method SubstitutePathParams(path: string, params: seq<Param<string>>) returns (r: string)
    ensures r == Sequential(path, params)
  {
    r := path;
    var i := 0;
    while i < |params|
      invariant 0 <= i <= |params|
      invariant Sequential(r, params[i..]) == Sequential(path, params)
    {
      assert params[i..][1..] == params[i + 1..];
      r := Replace(r, Placeholder(params[i].name), params[i].value);
      i := i + 1;
    }
  }

  /** A path template: literal text and named placeholders. */
  datatype Segment = Lit(text: string) | Hole(name: string)

  predicate BraceFree(s: string) { '{' !in s && '}' !in s }

  function Render(t: seq<Segment>): string {
    if |t| == 0 then ""
    else (if t[0].Lit? then t[0].text else Placeholder(t[0].name)) + Render(t[1..])
  }

  function ValueFor<V>(name: string, params: seq<Param<V>>): Option<V> {
    if |params| == 0 then None
    else if params[0].name == name then Some(params[0].value)
    else ValueFor(name, params[1..])
  }

  function Filled(s: Segment, params: seq<Param<string>>): Segment {
    if s.Hole? && ValueFor(s.name, params).Some? then Lit(ValueFor(s.name, params).value) else s
  }

  /** Simultaneous substitution: every placeholder with a parameter becomes that parameter's
      value, everything else stays. */
  function Simultaneous(t: seq<Segment>, params: seq<Param<string>>): (r: seq<Segment>)
    ensures |r| == |t|
  {
    seq(|t|, i requires 0 <= i < |t| => Filled(t[i], params))
  }

  /** A placeholder for another name is not touched. */
  lemma {:induction false} OtherPlaceholder(name: string, other: string, rest: string, value: string)
    requires BraceFree(name) && BraceFree(other) && name != other
    ensures Replace(Placeholder(other) + rest, Placeholder(name), value) == Placeholder(other) + Replace(rest, Placeholder(name), value)
  {
    var s := Placeholder(other) + rest;
    var pat := Placeholder(name);
    if pat <= s {
      SamePrefix(name, other, rest);
    }
    assert s[0] == '{' && s[1..] == (other + "}") + rest;
    ReplaceSkips(other + "}", rest, pat, value);
    if |s| < |pat| {
      assert Replace(rest, pat, value) == rest;
    } else {
      assert Replace(s, pat, value) == [s[0]] + Replace(s[1..], pat, value);
    }
    assert Placeholder(other) == ['{'] + (other + "}");
    assert ['{'] + ((other + "}") + Replace(rest, pat, value)) == Placeholder(other) + Replace(rest, pat, value);
  }

  lemma SamePrefix(name: string, other: string, rest: string)
    requires BraceFree(name) && BraceFree(other)
    requires Placeholder(name) <= Placeholder(other) + rest
    ensures name == other
  {
    var pat := Placeholder(name);
    var s := Placeholder(other) + rest;
    assert forall i :: 0 <= i < |pat| ==> s[i] == pat[i];
    // Both names end at the first closing brace.
    assert s[|other| + 1] == '}' && forall i :: 0 <= i < |other| ==> s[i + 1] == other[i];
    assert s[|name| + 1] == '}' && forall i :: 0 <= i < |name| ==> s[i + 1] == pat[i + 1] == name[i];
    assert |name| == |other|;
  }

  lemma FilledByOne(s: Segment, p: Param<string>)
    ensures Filled(s, [p]) == if s == Hole(p.name) then Lit(p.value) else s
  {
    if s.Hole? {
      assert [p][1..] == [] && ValueFor(s.name, [p][1..]).None?;
    }
  }

  const BRACES: set<char> := {'{', '}'}

  /** The brace `c` occurs in no literal text; names have no braces. */
  ghost predicate Lacks(t: seq<Segment>, c: char) {
    forall s :: s in t ==> if s.Lit? then c !in s.text else BraceFree(s.name)
  }

  ghost predicate ValuesLack(params: seq<Param<string>>, c: char) {
    forall p :: p in params ==> BraceFree(p.name) && c !in p.value
  }

  /** Every closing brace has an opening one somewhere before it. */
  ghost predicate OpensFirst(s: string) {
    forall i :: 0 <= i < |s| && s[i] == '}' ==> '{' in s[..i]
  }

  lemma {:induction false} RenderOpensFirst(t: seq<Segment>)
    requires Lacks(t, '}')
    ensures OpensFirst(Render(t))
  {
    if |t| > 0 {
      assert t[0] in t && forall s :: s in t[1..] ==> s in t;
      RenderOpensFirst(t[1..]);
      var first, rest := Render([t[0]]), Render(t[1..]);
      RenderOne(t[0]);
      forall i | 0 <= i < |first + rest| && (first + rest)[i] == '}' ensures '{' in (first + rest)[..i] {
        if t[0].Hole? {
          assert (first + rest)[..i][0] == '{';
        } else {
          assert (first + rest)[..i] == first + rest[..i - |first|];
        }
      }
    }
  }

  /** Something that starts inside text without closing braces and is closed later has an opening
      brace inside: it is not a placeholder. */
  lemma StartedInText(text: string, rest: string, name: string)
    requires |text| > 0 && '}' !in text && OpensFirst(rest)
    requires Placeholder(name) <= text + rest
    ensures '{' in name
  {
    var pat, s := Placeholder(name), text + rest;
    var last := |pat| - 1;
    assert pat[last] == '}' && s[last] == pat[last];
    assert last >= |text| && rest[last - |text|] == '}';
    var j :| 0 <= j < last - |text| && rest[j] == '{';
    assert pat[|text| + j] == s[|text| + j] == '{';
    assert name[|text| + j - 1] == '{';
  }

  lemma NotStarted(text: string, rest: string, name: string)
    requires |text| > 0 && '}' !in text && OpensFirst(rest) && BraceFree(name)
    ensures !(Placeholder(name) <= text + rest)
  {
    if Placeholder(name) <= text + rest {
      StartedInText(text, rest, name);
    }
  }

  lemma {:induction false} OpenTextSkips(text: string, rest: string, name: string, value: string)
    requires '}' !in text && OpensFirst(rest) && BraceFree(name)
    ensures Replace(text + rest, Placeholder(name), value) == text + Replace(rest, Placeholder(name), value)
  {
    var s, pat := text + rest, Placeholder(name);
    if |text| == 0 {
      assert s == rest;
    } else if |s| < |pat| {
      assert Replace(rest, pat, value) == rest;
    } else {
      NotStarted(text, rest, name);
      assert s[1..] == text[1..] + rest;
      OpenTextSkips(text[1..], rest, name, value);
      assert [text[0]] + (text[1..] + Replace(rest, pat, value)) == text + Replace(rest, pat, value);
    }
  }

  /** Literal text without one of the two braces is not touched. */
  lemma TextSkips(text: string, t: seq<Segment>, c: char, name: string, value: string)
    requires c in BRACES && c !in text && Lacks(t, c) && BraceFree(name)
    ensures Replace(text + Render(t), Placeholder(name), value) == text + Replace(Render(t), Placeholder(name), value)
  {
    if c == '{' {
      ReplaceSkips(text, Render(t), Placeholder(name), value);
    } else {
      RenderOpensFirst(t);
      OpenTextSkips(text, Render(t), name, value);
    }
  }

  /** One replacement fills the placeholders of one name. */
  lemma {:induction false} ReplaceFills(t: seq<Segment>, p: Param<string>, c: char)
    requires c in BRACES && Lacks(t, c) && BraceFree(p.name)
    ensures Replace(Render(t), Placeholder(p.name), p.value) == Render(Simultaneous(t, [p]))
  {
    if |t| > 0 {
      var rest := Render(t[1..]);
      var pat := Placeholder(p.name);
      assert t[0] in t && forall s :: s in t[1..] ==> s in t;
      ReplaceFills(t[1..], p, c);
      assert Simultaneous(t, [p])[1..] == Simultaneous(t[1..], [p]);
      FilledByOne(t[0], p);
      assert Simultaneous(t, [p])[0] == Filled(t[0], [p]);
      if t[0].Lit? {
        TextSkips(t[0].text, t[1..], c, p.name, p.value);
      } else if t[0].name == p.name {
        assert (pat + rest)[|pat|..] == rest && pat <= pat + rest;
      } else {
        OtherPlaceholder(p.name, t[0].name, rest, p.value);
      }
    }
  }

  /** As long as one of the two braces occurs in no literal text and no value, replacing one
      parameter after the other is the simultaneous substitution. */
  lemma {:induction false} SequentialIsSimultaneous(t: seq<Segment>, params: seq<Param<string>>, c: char)
    requires c in BRACES && Lacks(t, c) && ValuesLack(params, c)
    ensures Sequential(Render(t), params) == Render(Simultaneous(t, params))
    decreases |params|
  {
    if |params| == 0 {
      assert Simultaneous(t, params) == t;
    } else {
      var p := params[0];
      var once := Simultaneous(t, [p]);
      ReplaceFills(t, p, c);
      forall i | 0 <= i < |once|
        ensures once[i] == if t[i] == Hole(p.name) then Lit(p.value) else t[i]
      {
        FilledByOne(t[i], p);
      }
      assert Lacks(once, c) by {
        assert forall i :: 0 <= i < |once| ==> t[i] in t;
      }
      SequentialIsSimultaneous(once, params[1..], c);
      assert Simultaneous(once, params[1..]) == Simultaneous(t, params);
    }
  }

  /** The order of the parameters does not matter then. */
  lemma OrderDoesNotMatter(t: seq<Segment>, params: seq<Param<string>>, others: seq<Param<string>>, c: char)
    requires c in BRACES && Lacks(t, c) && ValuesLack(params, c)
    requires DistinctNames(params) && DistinctNames(others) && multiset(params) == multiset(others)
    ensures Sequential(Render(t), params) == Sequential(Render(t), others)
  {
    forall p | p in others ensures p in params {
      assert p in multiset(others);
    }
    SequentialIsSimultaneous(t, params, c);
    SequentialIsSimultaneous(t, others, c);
    forall s: Segment ensures Filled(s, params) == Filled(s, others) {
      if s.Hole? {
        SameValueFor(s.name, params, others);
      }
    }
    assert Simultaneous(t, params) == Simultaneous(t, others);
  }

  /** A dict has each name once. */
  ghost predicate DistinctNames<V>(params: seq<Param<V>>) {
    forall i, j :: 0 <= i < j < |params| ==> params[i].name != params[j].name
  }

  lemma {:induction false} ValueForIs<V>(name: string, params: seq<Param<V>>)
    requires DistinctNames(params)
    ensures forall v :: ValueFor(name, params) == Some(v) <==> Param(name, v) in params
  {
    if |params| > 0 {
      ValueForIs(name, params[1..]);
      assert forall p :: p in params <==> p == params[0] || p in params[1..];
      assert forall p :: p in params[1..] ==> p.name != params[0].name;
    }
  }

  lemma SameValueFor<V>(name: string, params: seq<Param<V>>, others: seq<Param<V>>)
    requires DistinctNames(params) && DistinctNames(others) && multiset(params) == multiset(others)
    ensures ValueFor(name, params) == ValueFor(name, others)
  {
    ValueForIs(name, params);
    ValueForIs(name, others);
    forall p ensures p in params <==> p in others {
      assert p in multiset(params) <==> p in multiset(others);
    }
    if ValueFor(name, params).Some? {
      assert Param(name, ValueFor(name, params).value) in params;
    }
    if ValueFor(name, others).Some? {
      assert Param(name, ValueFor(name, others).value) in others;
    }
  }

  // ---------------------------------------------------------------- values with placeholders

  /** A parameter whose value is itself a template, such as a text with braces in it. */
  type Insertion = Param<seq<Segment>>

  function AsParams(ps: seq<Insertion>): (r: seq<Param<string>>)
    ensures |r| == |ps|
  {
    if |ps| == 0 then [] else [Param(ps[0].name, Render(ps[0].value))] + AsParams(ps[1..])
  }

  function SplicedOne(s: Segment, ps: seq<Insertion>): seq<Segment> {
    if s.Hole? && ValueFor(s.name, ps).Some? then ValueFor(s.name, ps).value else [s]
  }

  /** Every placeholder with a parameter becomes that parameter's template, once. */
  function Spliced(t: seq<Segment>, ps: seq<Insertion>): seq<Segment> {
    if |t| == 0 then [] else SplicedOne(t[0], ps) + Spliced(t[1..], ps)
  }

  ghost predicate Names(t: seq<Segment>, ps: seq<Insertion>) {
    exists s :: s in t && s.Hole? && ValueFor(s.name, ps).Some?
  }

  /** No value mentions a parameter that is replaced after it. */
  ghost predicate NamesNoneLater(ps: seq<Insertion>) {
    |ps| > 0 ==> !Names(ps[0].value, ps[1..]) && NamesNoneLater(ps[1..])
  }

  /** Each value comes unchanged through the replacements after it. */
  predicate Settled(ps: seq<Insertion>) {
    |ps| > 0 ==>
      Sequential(Render(ps[0].value), AsParams(ps[1..])) == Render(ps[0].value) && Settled(ps[1..])
  }

  /** The intended result, for every template: each value is put in once and left alone. */
  ghost predicate PutsEachInOnce(ps: seq<Insertion>, c: char) {
    forall t :: Lacks(t, c) ==> Sequential(Render(t), AsParams(ps)) == Render(Spliced(t, ps))
  }

  ghost predicate BraceFreeNames(ps: seq<Insertion>) {
    forall p :: p in ps ==> BraceFree(p.name)
  }

  /** Values that hold placeholders and text without the brace `c`. */
  ghost predicate GoodInsertions(ps: seq<Insertion>, c: char) {
    forall p :: p in ps ==> BraceFree(p.name) && Lacks(p.value, c)
  }

  lemma Associative<T>(a: seq<T>, b: seq<T>, c: seq<T>)
    ensures a + b + c == a + (b + c)
  {
  }

  lemma SplicedByOne(s: Segment, p: Insertion)
    ensures SplicedOne(s, [p]) == if s == Hole(p.name) then p.value else [s]
  {
    if s.Hole? {
      assert [p][1..] == [] && ValueFor(s.name, [p][1..]).None?;
    }
  }

  lemma {:induction false} RenderConcat(a: seq<Segment>, b: seq<Segment>)
    ensures Render(a + b) == Render(a) + Render(b)
  {
    if |a| == 0 {
      assert a + b == b;
    } else {
      RenderConcat(a[1..], b);
      var whole, first := a + b, Render([a[0]]);
      RenderOne(a[0]);
      assert whole[1..] == a[1..] + b && whole[0] == a[0];
      assert Render(whole) == first + Render(whole[1..]) && Render(a) == first + Render(a[1..]);
      Associative(first, Render(a[1..]), Render(b));
    }
  }

  lemma {:induction false} SplicedConcat(a: seq<Segment>, b: seq<Segment>, ps: seq<Insertion>)
    ensures Spliced(a + b, ps) == Spliced(a, ps) + Spliced(b, ps)
  {
    if |a| == 0 {
      assert a + b == b;
    } else {
      SplicedConcat(a[1..], b, ps);
      var whole, first := a + b, SplicedOne(a[0], ps);
      assert whole[1..] == a[1..] + b && whole[0] == a[0];
      assert Spliced(whole, ps) == first + Spliced(whole[1..], ps);
      Associative(first, Spliced(a[1..], ps), Spliced(b, ps));
    }
  }

  lemma {:induction false} NotNamed(t: seq<Segment>, ps: seq<Insertion>)
    requires !Names(t, ps)
    ensures Spliced(t, ps) == t
  {
    if |t| > 0 {
      assert t[0] in t && forall s :: s in t[1..] ==> s in t;
      NotNamed(t[1..], ps);
    }
  }

  /** One replacement by a rendered template splices it in. */
  lemma {:induction false} FilledIsSpliced(t: seq<Segment>, p: Insertion)
    ensures Render(Simultaneous(t, [Param(p.name, Render(p.value))])) == Render(Spliced(t, [p]))
  {
    if |t| > 0 {
      var q := Param(p.name, Render(p.value));
      FilledIsSpliced(t[1..], p);
      FilledByOne(t[0], q);
      assert Simultaneous(t, [q])[1..] == Simultaneous(t[1..], [q]) && Simultaneous(t, [q])[0] == Filled(t[0], [q]);
      SplicedByOne(t[0], p);
      RenderConcat(SplicedOne(t[0], [p]), Spliced(t[1..], [p]));
      RenderOne(t[0]);
    }
  }

  lemma RenderOne(s: Segment)
    ensures Render([s]) == if s.Lit? then s.text else Placeholder(s.name)
  {
    assert [s][1..] == [] && Render([]) == "";
  }

  lemma {:induction false} SplicedLacks(t: seq<Segment>, p: Insertion, c: char)
    requires Lacks(t, c) && Lacks(p.value, c)
    ensures Lacks(Spliced(t, [p]), c)
  {
    if |t| > 0 {
      assert t[0] in t && forall s :: s in t[1..] ==> s in t;
      SplicedLacks(t[1..], p, c);
      SplicedByOne(t[0], p);
    }
  }

  /** The first replacement splices in the first parameter. */
  lemma FirstSplices(t: seq<Segment>, ps: seq<Insertion>, c: char)
    requires c in BRACES && |ps| > 0 && Lacks(t, c) && GoodInsertions(ps, c)
    ensures Lacks(Spliced(t, [ps[0]]), c) && GoodInsertions(ps[1..], c)
    ensures Sequential(Render(t), AsParams(ps)) == Sequential(Render(Spliced(t, [ps[0]])), AsParams(ps[1..]))
  {
    assert ps[0] in ps && forall o :: o in ps[1..] ==> o in ps;
    ReplaceFills(t, AsParams(ps)[0], c);
    FilledIsSpliced(t, ps[0]);
    SplicedLacks(t, ps[0], c);
    assert AsParams(ps)[1..] == AsParams(ps[1..]);
  }

  /** The replacements work on the two parts of a template independently. */
  lemma {:induction false} SequentialConcat(a: seq<Segment>, b: seq<Segment>, ps: seq<Insertion>, c: char)
    requires c in BRACES && Lacks(a, c) && Lacks(b, c) && GoodInsertions(ps, c)
    ensures Sequential(Render(a + b), AsParams(ps)) == Sequential(Render(a), AsParams(ps)) + Sequential(Render(b), AsParams(ps))
    decreases |ps|
  {
    if |ps| == 0 {
      RenderConcat(a, b);
    } else {
      FirstSplices(a, ps, c);
      FirstSplices(b, ps, c);
      FirstSplices(a + b, ps, c);
      SplicedConcat(a, b, [ps[0]]);
      SequentialConcat(Spliced(a, [ps[0]]), Spliced(b, [ps[0]]), ps[1..], c);
    }
  }

  lemma SplicedSingle(s: Segment, ps: seq<Insertion>)
    ensures Spliced([s], ps) == SplicedOne(s, ps)
  {
    assert [s][1..] == [] && SplicedOne(s, ps) + [] == SplicedOne(s, ps);
  }

  lemma {:induction false} SettledSegment(s: Segment, ps: seq<Insertion>, c: char)
    requires c in BRACES && Lacks([s], c) && GoodInsertions(ps, c) && Settled(ps)
    ensures Sequential(Render([s]), AsParams(ps)) == Render(SplicedOne(s, ps))
    decreases |ps|
  {
    if |ps| > 0 {
      FirstSplices([s], ps, c);
      SplicedSingle(s, [ps[0]]);
      SplicedByOne(s, ps[0]);
      if s != Hole(ps[0].name) {
        SettledSegment(s, ps[1..], c);
      }
    }
  }

  lemma {:induction false} SettledSplices(t: seq<Segment>, ps: seq<Insertion>, c: char)
    requires c in BRACES && Lacks(t, c) && GoodInsertions(ps, c) && Settled(ps)
    ensures Sequential(Render(t), AsParams(ps)) == Render(Spliced(t, ps))
  {
    if |t| == 0 {
      NothingToReplace(AsParams(ps));
    } else {
      assert t[0] in t && forall s :: s in t[1..] ==> s in t;
      assert t == [t[0]] + t[1..];
      SequentialConcat([t[0]], t[1..], ps, c);
      SettledSegment(t[0], ps, c);
      SettledSplices(t[1..], ps, c);
      RenderConcat(SplicedOne(t[0], ps), Spliced(t[1..], ps));
    }
  }

  lemma NothingToReplace(params: seq<Param<string>>)
    ensures Sequential("", params) == ""
  {
  }

  /** Each parameter's own placeholder turns into its value. */
  ghost predicate HolesFilled(ps: seq<Insertion>) {
    forall i :: 0 <= i < |ps| ==> Sequential(Placeholder(ps[i].name), AsParams(ps)) == Render(ps[i].value)
  }

  lemma WholePiece(name: string, value: string)
    ensures Replace(Placeholder(name), Placeholder(name), value) == value
  {
    assert Placeholder(name)[|Placeholder(name)|..] == "";
    assert Replace(Placeholder(name), Placeholder(name), value) == value + Replace("", Placeholder(name), value);
  }

  lemma OnePlaceholder(name: string, ps: seq<Insertion>)
    requires |ps| > 0 && BraceFree(name) && BraceFree(ps[0].name)
    ensures Sequential(Placeholder(name), AsParams(ps)) ==
            Sequential(if name == ps[0].name then Render(ps[0].value) else Placeholder(name), AsParams(ps[1..]))
  {
    var p := Param(ps[0].name, Render(ps[0].value));
    SequentialStep(Placeholder(name), p, AsParams(ps[1..]));
    if name == p.name {
      WholePiece(name, p.value);
    } else {
      OtherStays(p.name, name, p.value);
    }
  }

  lemma OtherStays(name: string, other: string, value: string)
    requires BraceFree(name) && BraceFree(other) && name != other
    ensures Replace(Placeholder(other), Placeholder(name), value) == Placeholder(other)
  {
    OtherPlaceholder(name, other, "", value);
    assert Placeholder(other) + "" == Placeholder(other);
  }

  lemma {:induction false} FilledAreSettled(ps: seq<Insertion>)
    requires BraceFreeNames(ps) && DistinctNames(ps) && HolesFilled(ps)
    ensures Settled(ps)
  {
    if |ps| > 0 {
      var rest := ps[1..];
      assert ps[0] in ps && forall o :: o in rest ==> o in ps;
      OnePlaceholder(ps[0].name, ps);
      forall i | 0 <= i < |rest| ensures Sequential(Placeholder(rest[i].name), AsParams(rest)) == Render(rest[i].value) {
        assert rest[i] == ps[i + 1] && rest[i] in ps;
        OnePlaceholder(rest[i].name, ps);
      }
      FilledAreSettled(rest);
    }
  }

  /** Whatever the values are, the intended result for every template takes values that come
      unchanged through the replacements after them. */
  lemma SettledIsNecessary(ps: seq<Insertion>, c: char)
    requires BraceFreeNames(ps) && DistinctNames(ps) && PutsEachInOnce(ps, c)
    ensures Settled(ps)
  {
    forall i | 0 <= i < |ps| ensures Sequential(Placeholder(ps[i].name), AsParams(ps)) == Render(ps[i].value) {
      var hole := Hole(ps[i].name);
      assert ps[i] in ps && Lacks([hole], c);
      RenderOne(hole);
      SplicedSingle(hole, ps);
      ValueForIs(ps[i].name, ps);
      assert Param(ps[i].name, ps[i].value) in ps;
    }
    FilledAreSettled(ps);
  }

  /** Values may contain placeholders, and braces of one kind beside them. Replacing one after the
      other puts each value in once and leaves it alone, in every template, exactly when each value
      comes unchanged through the replacements after it. */
  lemma SequentialExactly(ps: seq<Insertion>, c: char)
    requires c in BRACES && GoodInsertions(ps, c) && DistinctNames(ps)
    ensures PutsEachInOnce(ps, c) <==> Settled(ps)
  {
    if PutsEachInOnce(ps, c) {
      SettledIsNecessary(ps, c);
    }
    if Settled(ps) {
      forall t | Lacks(t, c) ensures Sequential(Render(t), AsParams(ps)) == Render(Spliced(t, ps)) {
        SettledSplices(t, ps, c);
      }
    }
  }

  lemma {:induction false} UnnamedStays(t: seq<Segment>, ps: seq<Insertion>, c: char)
    requires c in BRACES && Lacks(t, c) && GoodInsertions(ps, c) && !Names(t, ps)
    ensures Sequential(Render(t), AsParams(ps)) == Render(t)
    decreases |ps|
  {
    if |ps| > 0 {
      FirstSplices(t, ps, c);
      forall s | s in t && s.Hole? ensures ValueFor(s.name, [ps[0]]).None? && ValueFor(s.name, ps[1..]).None? {
        assert ValueFor(s.name, ps).None? && [ps[0]][1..] == [];
      }
      NotNamed(t, [ps[0]]);
      UnnamedStays(t, ps[1..], c);
    }
  }

  /** So it is enough that no value names a parameter that comes later in the dict. */
  lemma {:induction false} NamesNoneLaterSettles(ps: seq<Insertion>, c: char)
    requires c in BRACES && GoodInsertions(ps, c) && NamesNoneLater(ps)
    ensures Settled(ps) && PutsEachInOnce(ps, c)
  {
    if |ps| > 0 {
      assert ps[0] in ps && forall o :: o in ps[1..] ==> o in ps;
      UnnamedStays(ps[0].value, ps[1..], c);
      NamesNoneLaterSettles(ps[1..], c);
    }
    forall t | Lacks(t, c) ensures Sequential(Render(t), AsParams(ps)) == Render(Spliced(t, ps)) {
      SettledSplices(t, ps, c);
    }
  }

  /** It is not necessary: "a" names the later "b", whose value is its own placeholder. */
  lemma NamedYetSettled()
    ensures var ps := [Param("a", [Hole("b")]), Param("b", [Hole("b")])]; Settled(ps) && !NamesNoneLater(ps)
  {
    var hole, b := Hole("b"), Param("b", [Hole("b")]);
    var ps := [Param("a", [hole]), b];
    assert ps[1..] == [b] && [b][1..] == [];
    RenderOne(hole);
    OnePlaceholder("b", [b]);
    assert hole in ps[0].value && ValueFor("b", [b]) == Some([hole]);
  }

  /** Two orders of the same parameters give the same result for the same template. */
  ghost predicate SameResults(ps: seq<Insertion>, qs: seq<Insertion>, c: char) {
    forall t :: Lacks(t, c) ==> Sequential(Render(t), AsParams(ps)) == Sequential(Render(t), AsParams(qs))
  }

  lemma {:induction false} SplicedByEither(t: seq<Segment>, ps: seq<Insertion>, qs: seq<Insertion>)
    requires DistinctNames(ps) && DistinctNames(qs) && multiset(ps) == multiset(qs)
    ensures Spliced(t, ps) == Spliced(t, qs)
  {
    if |t| > 0 {
      SplicedByEither(t[1..], ps, qs);
      if t[0].Hole? {
        SameValueFor(t[0].name, ps, qs);
      }
    }
  }

  /** From an order in which the values are settled, another order gives the same results exactly
      when they are settled in it too. */
  lemma OrdersAgreeExactly(ps: seq<Insertion>, qs: seq<Insertion>, c: char)
    requires c in BRACES && GoodInsertions(ps, c) && DistinctNames(ps) && DistinctNames(qs) && multiset(ps) == multiset(qs)
    requires Settled(ps)
    ensures SameResults(ps, qs, c) <==> Settled(qs)
  {
    forall q | q in qs ensures q in ps {
      assert q in multiset(qs);
    }
    SequentialExactly(ps, c);
    SequentialExactly(qs, c);
    forall t ensures Spliced(t, ps) == Spliced(t, qs) {
      SplicedByEither(t, ps, qs);
    }
    if SameResults(ps, qs, c) {
      forall t | Lacks(t, c) ensures Sequential(Render(t), AsParams(qs)) == Render(Spliced(t, qs)) {
        assert Sequential(Render(t), AsParams(ps)) == Render(Spliced(t, ps));
      }
    }
    if Settled(qs) {
      forall t | Lacks(t, c) ensures Sequential(Render(t), AsParams(ps)) == Sequential(Render(t), AsParams(qs)) {
        assert Sequential(Render(t), AsParams(qs)) == Render(Spliced(t, qs));
      }
    }
  }

  /** Values that are not settled: with the value of "a" naming "b", the two orders differ. */
  lemma BracesInValues()
    ensures var a := Param("a", "{b}"); var b := Param("b", "x");
            Sequential("{a}", [a, b]) == "x" && Sequential("{a}", [b, a]) == "{b}"
  {
    var a, b := Param("a", "{b}"), Param("b", "x");
    assert [a, b] == [a] + ([b] + []) && [b, a] == [b] + ([a] + []);
    assert Placeholder("a") == "{a}" && Placeholder("b") == "{b}";
    SequentialStep("{a}", a, [b] + []);
    SequentialStep("{b}", b, []);
    SequentialStep("{a}", b, [a] + []);
    SequentialStep("{a}", a, []);
    WholePiece("a", "{b}");
    WholePiece("b", "x");
    OtherStays("b", "a", "x");
  }

  lemma OpenPiece()
    ensures Replace("{a}b{c}", Placeholder("a"), "{") == "{b{c}"
  {
    var rest := "b{c}";
    assert "{a}b{c}"[3..] == rest && Placeholder("a") == "{a}" && Placeholder("a") <= "{a}b{c}";
    assert rest == "b" + Placeholder("c") && Placeholder("c") + "" == Placeholder("c");
    ReplaceSkips("b", Placeholder("c"), Placeholder("a"), "{");
    OtherPlaceholder("a", "c", "", "{");
    assert Replace(rest, Placeholder("a"), "{") == rest;
  }

  lemma ClosePiece()
    ensures Replace("{b{c}", Placeholder("c"), "}") == "{b}"
  {
    var s, pat := "{b{c}", Placeholder("c");
    assert s[1] != pat[1] && s[1..] == "b" + pat && pat[|pat|..] == "";
    ReplaceSkips("b", pat, pat, "}");
    assert Replace(pat, pat, "}") == "}" + Replace("", pat, "}") == "}";
    assert Replace(s, pat, "}") == [s[0]] + Replace(s[1..], pat, "}");
  }

  lemma ThreeSteps(path: string, p: Param<string>, q: Param<string>, r: Param<string>)
    ensures Sequential(path, [p, q, r]) == Replace(Replace(Replace(path, Placeholder(p.name), p.value), Placeholder(q.name), q.value), Placeholder(r.name), r.value)
  {
    assert [p, q, r] == [p] + ([q] + ([r] + []));
    SequentialStep(path, p, [q] + ([r] + []));
    SequentialStep(Replace(path, Placeholder(p.name), p.value), q, [r] + []);
    SequentialStep(Replace(Replace(path, Placeholder(p.name), p.value), Placeholder(q.name), q.value), r, []);
  }

  lemma {:induction false} ShortStays(path: string, params: seq<Param<string>>)
    requires |path| < 2
    ensures Sequential(path, params) == path
    decreases |params|
  {
    if |params| > 0 {
      ShortStays(path, params[1..]);
    }
  }

  /** With unpaired braces of both kinds the pieces can join: each value alone comes unchanged
      through the later replacements, yet "b" is replaced where the path has no such placeholder.
      So the condition is then not sufficient. */
  lemma PiecesJoin()
    ensures var a, c, b := Param("a", "{"), Param("c", "}"), Param("b", "x");
            Sequential("{", [c, b]) == "{" && Sequential("}", [b]) == "}" && Sequential("{a}b{c}", [a, c, b]) == "x"
  {
    var a, c, b := Param("a", "{"), Param("c", "}"), Param("b", "x");
    ShortStays("{", [c, b]);
    ShortStays("}", [b]);
    ThreeSteps("{a}b{c}", a, c, b);
    OpenPiece();
    ClosePiece();
    WholePiece("b", "x");
    assert Placeholder("b") == "{b}";
  }
}
