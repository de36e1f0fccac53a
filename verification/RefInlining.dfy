/** `adapters/rest/openapi_loader.py`: inlining of internal `$ref`s.

    `Walk` is the meaning of the recursive `_walk`; class `Inliner` is `_walk` itself, which
    appends to a shared warnings list as it goes and is proved to compute `Walk`. */
module RefInlining {
  import opened Values
  import opened Text

  const MAX_REF_DEPTH: nat := 40

  datatype Warning =
    | TooDeep
    | Circular(trail: seq<string>)
    | Unresolvable(ref: string)

  // ---------------------------------------------------------------- references

  /** The string under "$ref", when `node` is a dict that has one. */
  function RefOf(node: Value): Option<string> {
    if node.Obj? then
      match Get(node.fields, "$ref")
      case Some(Str(ref)) => Some(ref)
      case _ => None
    else None
  }

  function Unescape(part: string): string {
    Replace(Replace(part, "~1", "/"), "~0", "~")
  }

  /** The walk from `node` through the keys; `Null` (Python's `None`) when a key is missing. */
  function FollowKeys(node: Value, keys: seq<string>): Value {
    if |keys| == 0 then node
    else match StepInto(node, Key(keys[0]))
      case Some(next) => FollowKeys(next, keys[1..])
      case None => Null
  }

  function KeysOf(parts: seq<string>): (keys: seq<string>)
    ensures |keys| == |parts|
  {
    seq(|parts|, i requires 0 <= i < |parts| => Unescape(parts[i]))
  }

  function ResolveRef(ref: string, root: Value): Value {
    if "#/" <= ref then FollowKeys(root, KeysOf(Split(ref[2..], '/'))) else Null
  }

  /** `_resolve_ref`: the loop that moves `node` down one key at a time. */
  method ResolveRefLoop(ref: string, root: Value) returns (node: Value)
    ensures node == ResolveRef(ref, root)
  {
    if !("#/" <= ref) {
      return Null;
    }
    node := root;
    var parts := Split(ref[2..], '/');
    var i := 0;
    while i < |parts|
      invariant 0 <= i <= |parts|
      invariant FollowKeys(node, KeysOf(parts)[i..]) == ResolveRef(ref, root)
    {
      var part := Unescape(parts[i]);
      assert KeysOf(parts)[i..][0] == part && KeysOf(parts)[i..][1..] == KeysOf(parts)[i + 1..];
      match StepInto(node, Key(part)) {
        case Some(next) => node := next;
        case None => return Null;
      }
      i := i + 1;
    }
  }

  /** Escaping of one reference token, as section 3 of RFC 6901 defines it. */
  function Escape(key: string): string {
    if |key| == 0 then ""
    else (if key[0] == '~' then "~0" else if key[0] == '/' then "~1" else [key[0]]) + Escape(key[1..])
  }

  function PrintPointer(keys: seq<string>): string {
    "#/" + Join(seq(|keys|, i requires 0 <= i < |keys| => Escape(keys[i])), '/')
  }

  // Between the two replacements only the tildes are still escaped.
  function EscapeTildes(key: string): string {
    if |key| == 0 then ""
    else (if key[0] == '~' then "~0" else [key[0]]) + EscapeTildes(key[1..])
  }

  lemma {:induction false} UnescapeSlashes(key: string)
    ensures Replace(Escape(key), "~1", "/") == EscapeTildes(key)
    ensures '/' !in Escape(key)
  {
    if |key| > 0 {
      UnescapeSlashes(key[1..]);
      var rest := Escape(key[1..]);
      if key[0] == '~' {
        TildeIsKept(rest);
      } else if key[0] == '/' {
        assert ("~1" + rest)[2..] == rest;
      } else {
        ReplaceSkips([key[0]], rest, "~1", "/");
      }
    }
  }

  lemma TildeIsKept(rest: string)
    ensures Replace("~0" + rest, "~1", "/") == "~0" + Replace(rest, "~1", "/")
  {
    var s := "~0" + rest;
    assert s[1] == '0' && s[1..] == "0" + rest;
    ReplaceSkips("0", rest, "~1", "/");
    assert Replace(s, "~1", "/") == [s[0]] + Replace(s[1..], "~1", "/");
  }

  lemma {:induction false} UnescapeTildes(key: string)
    ensures Replace(EscapeTildes(key), "~0", "~") == key
  {
    if |key| > 0 {
      UnescapeTildes(key[1..]);
      var rest := EscapeTildes(key[1..]);
      if key[0] == '~' {
        assert EscapeTildes(key)[2..] == rest;
      } else {
        ReplaceSkips([key[0]], rest, "~0", "~");
      }
    }
  }

  /** Decoding undoes encoding for every key, so the order "~1 first, then ~0" is right. */
  lemma UnescapeEscape(key: string)
    ensures Unescape(Escape(key)) == key
  {
    UnescapeSlashes(key);
    UnescapeTildes(key);
  }

  /** The pointer printed for any non-empty list of keys (slashes, tildes and empty keys
      included) is resolved by walking the root through exactly those keys. */
  lemma PointerRoundTrip(keys: seq<string>, root: Value)
    requires |keys| > 0
    ensures ResolveRef(PrintPointer(keys), root) == FollowKeys(root, keys)
  {
    var parts := seq(|keys|, i requires 0 <= i < |keys| => Escape(keys[i]));
    forall p | p in parts ensures '/' !in p {
      var i :| 0 <= i < |parts| && parts[i] == p;
      UnescapeSlashes(keys[i]);
    }
    SplitJoin(parts, '/');
    assert PrintPointer(keys)[2..] == Join(parts, '/');
    forall i | 0 <= i < |keys| ensures KeysOf(parts)[i] == keys[i] {
      UnescapeEscape(keys[i]);
    }
    assert KeysOf(parts) == keys;
  }

  // ---------------------------------------------------------------- inlining

  datatype Walked<T> = Walked(value: T, warnings: seq<Warning>)

  const TOO_DEEP_MARKER := Obj([Field("_unresolved", Bool(true))])

  function CircularMarker(ref: string): Value { Obj([Field("_circular_ref", Str(ref))]) }

  function UnresolvedMarker(ref: string): Value { Obj([Field("_unresolved_ref", Str(ref))]) }

  /** What is left of the depth budget: the termination measure. */
  function Budget(depth: nat): nat {
    if depth <= MAX_REF_DEPTH + 1 then MAX_REF_DEPTH + 1 - depth else 0
  }

  function Walk(doc: Value, node: Value, chain: seq<string>, depth: nat): Walked<Value>
    decreases Budget(depth), 0
  {
    if depth > MAX_REF_DEPTH then Walked(TOO_DEEP_MARKER, [TooDeep])
    else match RefOf(node)
      case Some(ref) =>
        if ref in chain then Walked(CircularMarker(ref), [Circular(chain + [ref])])
        else
          var target := ResolveRef(ref, doc);
          if target == Null then Walked(UnresolvedMarker(ref), [Unresolvable(ref)])
          else Walk(doc, target, chain + [ref], depth + 1)
      case None =>
        var below := WalkAll(doc, Children(node), chain, depth + 1);
        Walked(WithChildren(node, below.value), below.warnings)
  }

  function WalkAll(doc: Value, nodes: seq<Value>, chain: seq<string>, depth: nat): (r: Walked<seq<Value>>)
    ensures |r.value| == |nodes|
    decreases Budget(depth), |nodes| + 1
  {
    if |nodes| == 0 then Walked([], [])
    else
      var first := Walk(doc, nodes[0], chain, depth);
      var rest := WalkAll(doc, nodes[1..], chain, depth);
      Walked([first.value] + rest.value, first.warnings + rest.warnings)
  }

  /** The closure `_walk` with the two names it captures: the document and the warnings list. */
  class Inliner {
    const doc: Value
    var warnings: seq<Warning>

    constructor (doc: Value, warnings: seq<Warning>)
      ensures this.doc == doc && this.warnings == warnings
    {
      this.doc := doc;
      this.warnings := warnings;
    }

    method WalkNode(node: Value, chain: seq<string>, depth: nat) returns (r: Value)
      modifies this
      ensures r == Walk(doc, node, chain, depth).value
      ensures warnings == old(warnings) + Walk(doc, node, chain, depth).warnings
      decreases Budget(depth), 0
    {
      if depth > MAX_REF_DEPTH {
        warnings := warnings + [TooDeep];
        return TOO_DEEP_MARKER;
      }
      match RefOf(node) {
        case Some(ref) =>
          if ref in chain {
            warnings := warnings + [Circular(chain + [ref])];
            return CircularMarker(ref);
          }
          var resolved := ResolveRefLoop(ref, doc);
          if resolved == Null {
            warnings := warnings + [Unresolvable(ref)];
            return UnresolvedMarker(ref);
          }
          r := WalkNode(resolved, chain + [ref], depth + 1);
        case None =>
          var below := WalkEach(Children(node), chain, depth + 1);
          r := WithChildren(node, below);
      }
    }

    /** The comprehension over a dict's values or a list's items. */
    method WalkEach(nodes: seq<Value>, chain: seq<string>, depth: nat) returns (r: seq<Value>)
      modifies this
      ensures r == WalkAll(doc, nodes, chain, depth).value
      ensures warnings == old(warnings) + WalkAll(doc, nodes, chain, depth).warnings
      decreases Budget(depth), 1
    {
      r := [];
      var i := 0;
      assert nodes[..0] == [];
      while i < |nodes|
        invariant 0 <= i <= |nodes|
        invariant r == WalkAll(doc, nodes[..i], chain, depth).value
        invariant warnings == old(warnings) + WalkAll(doc, nodes[..i], chain, depth).warnings
      {
        WalkAllSnoc(doc, nodes[..i], nodes[i], chain, depth);
        assert nodes[..i + 1] == nodes[..i] + [nodes[i]];
        var item := WalkNode(nodes[i], chain, depth);
        r := r + [item];
        i := i + 1;
      }
      assert nodes[..i] == nodes;
    }
  }

  lemma {:induction false} WalkAllSnoc(doc: Value, nodes: seq<Value>, last: Value, chain: seq<string>, depth: nat)
    ensures WalkAll(doc, nodes + [last], chain, depth) ==
            var init := WalkAll(doc, nodes, chain, depth);
            var w := Walk(doc, last, chain, depth);
            Walked(init.value + [w.value], init.warnings + w.warnings)
  {
    if |nodes| == 0 {
      assert nodes + [last] == [last] && [last][1..] == [];
      assert WalkAll(doc, [], chain, depth) == Walked([], []);
      var w := Walk(doc, last, chain, depth);
      assert WalkAll(doc, [last], chain, depth) == Walked([w.value] + [], w.warnings + []);
      assert nodes == [] && [w.value] + [] == [] + [w.value] && w.warnings + [] == [] + w.warnings;
    } else {
      WalkAllSnoc(doc, nodes[1..], last, chain, depth);
      assert (nodes + [last])[1..] == nodes[1..] + [last] && (nodes + [last])[0] == nodes[0];
      var first := Walk(doc, nodes[0], chain, depth);
      var rest := WalkAll(doc, nodes[1..], chain, depth);
      var w := Walk(doc, last, chain, depth);
      Associative([first.value], rest.value, [w.value]);
      Associative(first.warnings, rest.warnings, w.warnings);
    }
  }

  lemma Associative<T>(a: seq<T>, b: seq<T>, c: seq<T>)
    ensures a + (b + c) == (a + b) + c
  {
  }

  datatype Inlined = Inlined(doc: Value, warnings: seq<Warning>) | AssertionError

  /** `resolve_internal_refs(doc, warnings)`; the final assertion rejects a non-dict result. */
  method ResolveInternalRefs(doc: Value, warnings: seq<Warning>) returns (r: Inlined)
    requires doc.Obj?
    ensures var w := Walk(doc, doc, [], 0);
            r == if w.value.Obj? then Inlined(w.value, warnings + w.warnings) else AssertionError
  {
    var inliner := new Inliner(doc, warnings);
    var result := inliner.WalkNode(doc, [], 0);
    if !result.Obj? {
      return AssertionError;
    }
    r := Inlined(result, inliner.warnings);
  }

  /** Where the walk of a list of nodes went: item by item. */
  lemma {:induction false} WalkAllAt(doc: Value, nodes: seq<Value>, chain: seq<string>, depth: nat, i: nat)
    requires i < |nodes|
    ensures WalkAll(doc, nodes, chain, depth).value[i] == Walk(doc, nodes[i], chain, depth).value
    ensures WalkAll(doc, nodes, chain, depth).warnings == [] ==> Walk(doc, nodes[i], chain, depth).warnings == []
    ensures forall w :: w in Walk(doc, nodes[i], chain, depth).warnings ==>
              w in WalkAll(doc, nodes, chain, depth).warnings
  {
    if i > 0 {
      WalkAllAt(doc, nodes[1..], chain, depth, i - 1);
    }
  }

  /** One level of the walk of a dict or list: same keys, each child walked on its own. */
  lemma WalkBelow(doc: Value, node: Value, chain: seq<string>, depth: nat, i: nat)
    requires depth <= MAX_REF_DEPTH && RefOf(node).None? && i < |Children(node)|
    ensures var w := Walk(doc, node, chain, depth);
            var child := Walk(doc, Children(node)[i], chain, depth + 1);
            |Children(w.value)| == |Children(node)| && Children(w.value)[i] == child.value &&
            (w.warnings == [] ==> child.warnings == [])
  {
    WalkAllAt(doc, Children(node), chain, depth + 1, i);
  }

  lemma WalkKeepsShape(doc: Value, node: Value, chain: seq<string>, depth: nat)
    requires depth <= MAX_REF_DEPTH && RefOf(node).None?
    ensures var r := Walk(doc, node, chain, depth).value;
            |Children(r)| == |Children(node)| && r == WithChildren(node, Children(r))
  {
  }

  lemma {:induction false} WarningSource(doc: Value, nodes: seq<Value>, chain: seq<string>, depth: nat, w: Warning)
    returns (i: nat)
    requires w in WalkAll(doc, nodes, chain, depth).warnings
    ensures i < |nodes| && w in Walk(doc, nodes[i], chain, depth).warnings
  {
    if w in Walk(doc, nodes[0], chain, depth).warnings {
      i := 0;
    } else {
      i := WarningSource(doc, nodes[1..], chain, depth, w);
      i := i + 1;
    }
  }

  // ---------------------------------------------------------------- shape of the result

  /** No dict anywhere in `v` has a string under "$ref". */
  ghost predicate RefFree(v: Value) {
    RefOf(v).None? && forall c :: c in Children(v) ==> RefFree(c)
  }

  /** At most `k` levels of nesting below `v`. */
  ghost predicate Fits(v: Value, k: nat)
    decreases k
  {
    Children(v) == [] || (k > 0 && forall c :: c in Children(v) ==> Fits(c, k - 1))
  }

  /** No dict anywhere in `v` has, under "$ref", a dict that is itself a reference. */
  ghost predicate NoNestedRef(v: Value) {
    (StepInto(v, Key("$ref")).Some? ==> RefOf(StepInto(v, Key("$ref")).value).None?) &&
    forall c :: c in Children(v) ==> NoNestedRef(c)
  }

  /** Rebuilding a dict keeps its keys, so "$ref" gets a string only from a reference below it. */
  lemma RebuiltIsNoRef(v: Value, cs: seq<Value>)
    requires |cs| == |Children(v)| && RefOf(v).None? && NoNestedRef(v)
    requires forall i :: 0 <= i < |cs| && cs[i].Str? ==> Children(v)[i].Str? || RefOf(Children(v)[i]).Some?
    ensures RefOf(WithChildren(v, cs)).None?
  {
    var at := StepIntoChild(v, Key("$ref"));
    assert WithChildren(v, Children(v)) == v;
    assert v.Obj? && StepInto(v, Key("$ref")).Some? ==> StepInto(WithChildren(v, cs), Key("$ref")) == Some(cs[at]);
  }

  /** Every property of a value that its children inherit holds of what a pointer reaches. */
  lemma {:induction false} NoNestedRefBelow(node: Value, keys: seq<string>)
    requires NoNestedRef(node)
    ensures NoNestedRef(FollowKeys(node, keys))
  {
    if |keys| > 0 && StepInto(node, Key(keys[0])).Some? {
      StepIsChild(node, Key(keys[0]));
      NoNestedRefBelow(StepInto(node, Key(keys[0])).value, keys[1..]);
    }
  }

  lemma StepIsChild(v: Value, step: Step)
    ensures StepInto(v, step).Some? ==> StepInto(v, step).value in Children(v)
  {
    var at := StepIntoChild(v, step);
    assert WithChildren(v, Children(v)) == v;
  }

  lemma WalkToString(doc: Value, node: Value, chain: seq<string>, depth: nat)
    ensures Walk(doc, node, chain, depth).value.Str? ==> node.Str? || RefOf(node).Some?
  {
  }

  /** The result holds no string under "$ref", for every document in which no reference sits
      directly under a "$ref" key, with or without warnings. */
  lemma {:induction false} ResultIsRefFree(doc: Value, node: Value, chain: seq<string>, depth: nat)
    requires NoNestedRef(doc) && NoNestedRef(node)
    ensures RefFree(Walk(doc, node, chain, depth).value)
    decreases Budget(depth)
  {
    var r := Walk(doc, node, chain, depth).value;
    if depth > MAX_REF_DEPTH {
    } else if RefOf(node).Some? {
      var ref := RefOf(node).value;
      if ref !in chain && ResolveRef(ref, doc) != Null {
        NoNestedRefBelow(doc, KeysOf(Split(ref[2..], '/')));
        ResultIsRefFree(doc, ResolveRef(ref, doc), chain + [ref], depth + 1);
      }
    } else {
      var cs := Children(node);
      WalkKeepsShape(doc, node, chain, depth);
      forall i | 0 <= i < |cs| ensures RefFree(Children(r)[i]) && (Children(r)[i].Str? ==> cs[i].Str? || RefOf(cs[i]).Some?) {
        WalkBelow(doc, node, chain, depth, i);
        assert NoNestedRef(cs[i]);
        ResultIsRefFree(doc, cs[i], chain, depth + 1);
        WalkToString(doc, cs[i], chain, depth + 1);
      }
      RebuiltIsNoRef(node, Children(r));
      assert forall c :: c in Children(r) ==> RefFree(c);
    }
  }

  /** The walk from `v` ends in a string: `v` is one, or a reference that leads to one. */
  ghost predicate LeadsToText(doc: Value, v: Value, chain: seq<string>, depth: nat)
    decreases Budget(depth)
  {
    depth <= MAX_REF_DEPTH &&
    match RefOf(v)
    case Some(ref) => ref !in chain && LeadsToText(doc, ResolveRef(ref, doc), chain + [ref], depth + 1)
    case None => v.Str?
  }

  /** On its way through the document the walk meets a dict that has, under "$ref", a reference
      that leads to a string. */
  ghost predicate MeetsNestedRef(doc: Value, node: Value, chain: seq<string>, depth: nat)
    decreases Budget(depth)
  {
    depth <= MAX_REF_DEPTH &&
    match RefOf(node)
    case Some(ref) => ref !in chain && MeetsNestedRef(doc, ResolveRef(ref, doc), chain + [ref], depth + 1)
    case None =>
      (StepInto(node, Key("$ref")).Some? && LeadsToText(doc, StepInto(node, Key("$ref")).value, chain, depth + 1)) ||
      exists c :: c in Children(node) && MeetsNestedRef(doc, c, chain, depth + 1)
  }

  lemma {:induction false} TextIsReached(doc: Value, v: Value, chain: seq<string>, depth: nat)
    ensures Walk(doc, v, chain, depth).value.Str? <==> LeadsToText(doc, v, chain, depth)
    decreases Budget(depth)
  {
    if depth <= MAX_REF_DEPTH && RefOf(v).Some? && RefOf(v).value !in chain {
      TextIsReached(doc, ResolveRef(RefOf(v).value, doc), chain + [RefOf(v).value], depth + 1);
    }
  }

  /** A rebuilt dict is a reference exactly when its "$ref" child became a string. */
  lemma RebuiltRef(v: Value, cs: seq<Value>) returns (at: nat)
    requires |cs| == |Children(v)|
    ensures StepInto(v, Key("$ref")).Some? ==> at < |cs| && StepInto(v, Key("$ref")) == Some(Children(v)[at])
    ensures RefOf(WithChildren(v, cs)).Some? <==> StepInto(v, Key("$ref")).Some? && cs[at].Str?
  {
    at := SameStep(v, cs, Key("$ref"));
  }

  /** Exactly when a result is free of string references, with or without warnings, for every
      document: when the walk meets no nested reference to a string. */
  lemma {:induction false} RefFreeIff(doc: Value, node: Value, chain: seq<string>, depth: nat)
    ensures RefFree(Walk(doc, node, chain, depth).value) <==> !MeetsNestedRef(doc, node, chain, depth)
    decreases Budget(depth), 2
  {
    if depth > MAX_REF_DEPTH {
      MarkerIsRefFree(TooDeep);
    } else if RefOf(node).Some? {
      var ref := RefOf(node).value;
      if ref in chain {
        MarkerIsRefFree(Circular(chain + [ref]));
      } else if ResolveRef(ref, doc) == Null {
        MarkerIsRefFree(Unresolvable(ref));
        NullIsClean(doc, chain + [ref], depth + 1);
      } else {
        RefFreeIff(doc, ResolveRef(ref, doc), chain + [ref], depth + 1);
      }
    } else {
      RefFreeDict(doc, node, chain, depth);
    }
  }

  lemma MarkerIsRefFree(w: Warning)
    ensures RefFree(MarkerOf(w))
  {
    var v := MarkerOf(w);
    GetFirst(v.fields, "$ref", 1);
    assert forall c :: c in Children(v) ==> Children(c) == [] && RefOf(c).None?;
  }

  lemma NullIsClean(doc: Value, chain: seq<string>, depth: nat)
    ensures !MeetsNestedRef(doc, Null, chain, depth)
  {
  }

  lemma {:induction false} RefFreeDict(doc: Value, node: Value, chain: seq<string>, depth: nat)
    requires depth <= MAX_REF_DEPTH && RefOf(node).None?
    ensures RefFree(Walk(doc, node, chain, depth).value) <==> !MeetsNestedRef(doc, node, chain, depth)
    decreases Budget(depth), 1
  {
    var r := Walk(doc, node, chain, depth).value;
    var cs := Children(node);
    WalkKeepsShape(doc, node, chain, depth);
    var at := RebuiltRef(node, Children(r));
    forall i | 0 <= i < |cs|
      ensures Children(r)[i].Str? <==> LeadsToText(doc, cs[i], chain, depth + 1)
      ensures RefFree(Children(r)[i]) <==> !MeetsNestedRef(doc, cs[i], chain, depth + 1)
    {
      RefFreeChild(doc, node, chain, depth, i);
    }
    RefFreeByIndex(r);
    MeetsByIndex(doc, node, chain, depth);
  }

  lemma {:induction false} RefFreeChild(doc: Value, node: Value, chain: seq<string>, depth: nat, i: nat)
    requires depth <= MAX_REF_DEPTH && RefOf(node).None? && i < |Children(node)|
    ensures i < |Children(Walk(doc, node, chain, depth).value)|
    ensures var r := Children(Walk(doc, node, chain, depth).value)[i];
            (r.Str? <==> LeadsToText(doc, Children(node)[i], chain, depth + 1)) &&
            (RefFree(r) <==> !MeetsNestedRef(doc, Children(node)[i], chain, depth + 1))
    decreases Budget(depth), 0
  {
    WalkBelow(doc, node, chain, depth, i);
    TextIsReached(doc, Children(node)[i], chain, depth + 1);
    RefFreeIff(doc, Children(node)[i], chain, depth + 1);
  }

  lemma RefFreeByIndex(v: Value)
    ensures RefFree(v) <==> RefOf(v).None? && forall i :: 0 <= i < |Children(v)| ==> RefFree(Children(v)[i])
  {
    if RefFree(v) {
      assert forall i :: 0 <= i < |Children(v)| ==> Children(v)[i] in Children(v);
    }
  }

  lemma MeetsByIndex(doc: Value, node: Value, chain: seq<string>, depth: nat)
    requires depth <= MAX_REF_DEPTH && RefOf(node).None?
    ensures MeetsNestedRef(doc, node, chain, depth) <==>
            (StepInto(node, Key("$ref")).Some? && LeadsToText(doc, StepInto(node, Key("$ref")).value, chain, depth + 1)) ||
            exists i :: 0 <= i < |Children(node)| && MeetsNestedRef(doc, Children(node)[i], chain, depth + 1)
  {
    var cs := Children(node);
    if c :| c in cs && MeetsNestedRef(doc, c, chain, depth + 1) {
      var i :| 0 <= i < |cs| && cs[i] == c;
    }
    if i :| 0 <= i < |cs| && MeetsNestedRef(doc, cs[i], chain, depth + 1) {
      assert cs[i] in cs;
    }
  }

  const NESTED_REF := Obj([Field("$ref", Str("#/x"))])

  const NESTED_DOC := Obj([Field("$ref", NESTED_REF), Field("x", Str("a"))])

  lemma NestedTarget()
    ensures ResolveRef("#/x", NESTED_DOC) == Str("a")
  {
    assert "#/x"[2..] == "x";
    SplitPiece("x", '/');
    assert KeysOf(["x"]) == ["x"];
    GetFirst(NESTED_DOC.fields, "x", 1);
    assert FollowKeys(NESTED_DOC, ["x"]) == FollowKeys(Str("a"), []);
  }

  lemma WalkText(doc: Value, s: string, chain: seq<string>, depth: nat)
    requires depth <= MAX_REF_DEPTH
    ensures Walk(doc, Str(s), chain, depth) == Walked(Str(s), [])
  {
    assert WalkAll(doc, [], chain, depth + 1) == Walked([], []);
  }

  lemma WalkPair(doc: Value, x: Value, y: Value, chain: seq<string>, depth: nat)
    ensures WalkAll(doc, [x, y], chain, depth) ==
            var a := Walk(doc, x, chain, depth);
            var b := Walk(doc, y, chain, depth);
            Walked([a.value, b.value], a.warnings + b.warnings)
  {
    var a := Walk(doc, x, chain, depth);
    var b := Walk(doc, y, chain, depth);
    WalkAllSnoc(doc, [], x, chain, depth);
    assert [] + [x] == [x] && [] + [a.value] == [a.value] && [] + a.warnings == a.warnings;
    assert WalkAll(doc, [x], chain, depth) == Walked([a.value], a.warnings);
    WalkAllSnoc(doc, [x], y, chain, depth);
    assert [x] + [y] == [x, y] && [a.value] + [b.value] == [a.value, b.value];
  }

  lemma Dangling(doc: Value, node: Value, ref: string, depth: nat)
    requires depth <= MAX_REF_DEPTH && RefOf(node) == Some(ref) && |ref| < 2
    ensures Walk(doc, node, [], depth) == Walked(UnresolvedMarker(ref), [Unresolvable(ref)])
  {
    assert !("#/" <= ref);
  }

  /** The condition is needed: a reference to a string, placed under "$ref", is inlined without
      a warning into a dict that looks like a reference, and a second run complains about it. */
  lemma NestedRefSurvives()
    ensures var once := Walk(NESTED_DOC, NESTED_DOC, [], 0);
            once == Walked(Obj([Field("$ref", Str("a")), Field("x", Str("a"))]), []) &&
            !RefFree(once.value) &&
            Walk(once.value, once.value, [], 0) == Walked(UnresolvedMarker("a"), [Unresolvable("a")])
  {
    WalkNested(0);
    WalkOnce(0);
  }

  const NESTED_ONCE := Obj([Field("$ref", Str("a")), Field("x", Str("a"))])

  lemma WalkNested(depth: nat)
    requires depth + 2 <= MAX_REF_DEPTH
    ensures Walk(NESTED_DOC, NESTED_DOC, [], depth) == Walked(NESTED_ONCE, [])
  {
    NestedTarget();
    assert RefOf(NESTED_REF) == Some("#/x");
    WalkText(NESTED_DOC, "a", [] + ["#/x"], depth + 2);
    assert Walk(NESTED_DOC, NESTED_REF, [], depth + 1) == Walked(Str("a"), []);
    WalkText(NESTED_DOC, "a", [], depth + 1);
    WalkPair(NESTED_DOC, NESTED_REF, Str("a"), [], depth + 1);
    NestedRebuilt();
  }

  lemma NestedRebuilt()
    ensures RefOf(NESTED_DOC).None? && Children(NESTED_DOC) == [NESTED_REF, Str("a")]
    ensures WithChildren(NESTED_DOC, [Str("a"), Str("a")]) == NESTED_ONCE
  {
  }

  lemma WalkOnce(depth: nat)
    requires depth <= MAX_REF_DEPTH
    ensures Walk(NESTED_ONCE, NESTED_ONCE, [], depth) == Walked(UnresolvedMarker("a"), [Unresolvable("a")]) && !RefFree(NESTED_ONCE)
  {
    assert RefOf(NESTED_ONCE) == Some("a");
    Dangling(NESTED_ONCE, NESTED_ONCE, "a", depth);
  }

  lemma FitsBelow(v: Value, k: nat)
    requires forall i :: 0 <= i < |Children(v)| ==> Fits(Children(v)[i], k)
    ensures Fits(v, k + 1)
  {
  }

  /** Nesting stays within the budget: at most 41 levels before a marker, which adds one... */
  lemma {:induction false} ResultFits(doc: Value, node: Value, chain: seq<string>, depth: nat)
    requires depth <= MAX_REF_DEPTH + 1
    ensures Fits(Walk(doc, node, chain, depth).value, Budget(depth) + 1)
    decreases Budget(depth), 2
  {
    if depth > MAX_REF_DEPTH {
      MarkerFits(TooDeep, 0);
    } else if RefOf(node).Some? {
      var ref := RefOf(node).value;
      if ref in chain {
        MarkerFits(Circular(chain + [ref]), Budget(depth));
      } else if ResolveRef(ref, doc) == Null {
        MarkerFits(Unresolvable(ref), Budget(depth));
      } else {
        ResultFits(doc, ResolveRef(ref, doc), chain + [ref], depth + 1);
        FitsMore(Walk(doc, node, chain, depth).value, Budget(depth));
      }
    } else {
      DictFits(doc, node, chain, depth);
    }
  }

  lemma {:induction false} DictFits(doc: Value, node: Value, chain: seq<string>, depth: nat)
    requires depth <= MAX_REF_DEPTH && RefOf(node).None?
    ensures Fits(Walk(doc, node, chain, depth).value, Budget(depth) + 1)
    decreases Budget(depth), 1
  {
    var r := Walk(doc, node, chain, depth).value;
    WalkKeepsShape(doc, node, chain, depth);
    forall i | 0 <= i < |Children(r)| ensures Fits(Children(r)[i], Budget(depth)) {
      ChildFits(doc, node, chain, depth, i);
    }
    FitsBelow(r, Budget(depth));
  }

  lemma {:induction false} ChildFits(doc: Value, node: Value, chain: seq<string>, depth: nat, i: nat)
    requires depth <= MAX_REF_DEPTH && RefOf(node).None? && i < |Children(node)|
    ensures i < |Children(Walk(doc, node, chain, depth).value)|
    ensures Fits(Children(Walk(doc, node, chain, depth).value)[i], Budget(depth))
    decreases Budget(depth), 0
  {
    WalkBelow(doc, node, chain, depth, i);
    ResultFits(doc, Children(node)[i], chain, depth + 1);
  }

  lemma MarkerFits(w: Warning, k: nat)
    ensures Fits(MarkerOf(w), k + 1)
  {
    assert forall c :: c in Children(MarkerOf(w)) ==> Children(c) == [];
  }

  /** ...and at most 40 when nothing was cut. */
  lemma {:induction false} CleanResultFits(doc: Value, node: Value, chain: seq<string>, depth: nat)
    requires Walk(doc, node, chain, depth).warnings == []
    ensures depth <= MAX_REF_DEPTH && Fits(Walk(doc, node, chain, depth).value, MAX_REF_DEPTH - depth)
    decreases Budget(depth)
  {
    var r := Walk(doc, node, chain, depth).value;
    if RefOf(node).Some? {
      var ref := RefOf(node).value;
      CleanResultFits(doc, ResolveRef(ref, doc), chain + [ref], depth + 1);
      FitsMore(r, MAX_REF_DEPTH - depth - 1);
    } else {
      WalkKeepsShape(doc, node, chain, depth);
      forall i | 0 <= i < |Children(r)| ensures depth < MAX_REF_DEPTH && Fits(Children(r)[i], MAX_REF_DEPTH - depth - 1) {
        WalkBelow(doc, node, chain, depth, i);
        CleanResultFits(doc, Children(node)[i], chain, depth + 1);
      }
      if Children(r) != [] {
        assert Fits(Children(r)[0], MAX_REF_DEPTH - depth - 1);
        FitsBelow(r, MAX_REF_DEPTH - depth - 1);
      }
    }
  }

  lemma {:induction false} FitsMore(v: Value, k: nat)
    requires Fits(v, k)
    ensures Fits(v, k + 1)
    decreases k
  {
    forall c | c in Children(v) ensures Fits(c, k) {
      FitsMore(c, k - 1);
    }
  }

  /** A value without references and shallow enough is walked into itself. */
  lemma {:induction false} WalkUnchanged(doc: Value, node: Value, chain: seq<string>, depth: nat)
    requires RefFree(node) && depth <= MAX_REF_DEPTH && Fits(node, MAX_REF_DEPTH - depth)
    ensures Walk(doc, node, chain, depth) == Walked(node, [])
  {
    var cs := Children(node);
    forall i | 0 <= i < |cs| ensures Walk(doc, cs[i], chain, depth + 1) == Walked(cs[i], []) {
      assert cs[i] in cs;
      WalkUnchanged(doc, cs[i], chain, depth + 1);
    }
    WalkAllUnchanged(doc, cs, chain, depth + 1);
    assert WithChildren(node, cs) == node;
  }

  lemma {:induction false} RefFreeKept(doc: Value, node: Value, chain: seq<string>, depth: nat)
    requires RefFree(node) && Walk(doc, node, chain, depth).warnings == []
    ensures Walk(doc, node, chain, depth).value == node
    decreases Budget(depth)
  {
    WalkTooDeep(doc, node, chain, depth);
    WalkKeepsShape(doc, node, chain, depth);
    var cs := Children(node);
    var below := Children(Walk(doc, node, chain, depth).value);
    forall i | 0 <= i < |cs| ensures below[i] == cs[i] {
      WalkBelow(doc, node, chain, depth, i);
      assert cs[i] in cs;
      RefFreeKept(doc, cs[i], chain, depth + 1);
    }
    assert below == cs && WithChildren(node, cs) == node;
  }

  lemma DepthLimitAt(doc: Value, depth: nat)
    requires RefFree(doc) && depth <= MAX_REF_DEPTH
    ensures Walk(doc, doc, [], depth).warnings == [] <==> Fits(doc, MAX_REF_DEPTH - depth)
  {
    if Walk(doc, doc, [], depth).warnings == [] {
      CleanResultFits(doc, doc, [], depth);
      RefFreeKept(doc, doc, [], depth);
    } else if Fits(doc, MAX_REF_DEPTH - depth) {
      WalkUnchanged(doc, doc, [], depth);
    }
  }

  /** The depth limit counts plain nesting too: a document without references is walked without a
      warning exactly when it nests at most 40 levels deep. */
  lemma DepthLimit(doc: Value)
    requires RefFree(doc)
    ensures Walk(doc, doc, [], 0).warnings == [] <==> Fits(doc, MAX_REF_DEPTH)
  {
    DepthLimitAt(doc, 0);
  }

  lemma {:induction false} WalkAllUnchanged(doc: Value, nodes: seq<Value>, chain: seq<string>, depth: nat)
    requires forall i :: 0 <= i < |nodes| ==> Walk(doc, nodes[i], chain, depth) == Walked(nodes[i], [])
    ensures WalkAll(doc, nodes, chain, depth) == Walked(nodes, [])
  {
    if |nodes| > 0 {
      WalkAllUnchanged(doc, nodes[1..], chain, depth);
      assert [nodes[0]] + nodes[1..] == nodes;
    } else {
      assert nodes == [];
    }
  }

  lemma WalkTwice(doc: Value, depth: nat)
    requires Walk(doc, doc, [], depth).warnings == [] && RefFree(Walk(doc, doc, [], depth).value)
    ensures var once := Walk(doc, doc, [], depth).value;
            Walk(once, once, [], depth) == Walked(once, [])
  {
    CleanResultFits(doc, doc, [], depth);
    var once := Walk(doc, doc, [], depth).value;
    WalkUnchanged(once, once, [], depth);
  }

  // ---------------------------------------------------------------- fixed points

  /** Every value that occurs in `v`, itself included. */
  ghost function Subtrees(v: Value): set<Value> {
    {v} + (set c, x | c in Children(v) && x in Subtrees(c) :: x)
  }

  lemma {:induction false} SubtreesBelow(v: Value, x: Value)
    requires x in Subtrees(v)
    ensures Subtrees(x) <= Subtrees(v)
  {
    if x != v {
      var c :| c in Children(v) && x in Subtrees(c);
      SubtreesBelow(c, x);
    }
  }

  lemma {:induction false} FollowedIsSubtree(node: Value, keys: seq<string>)
    ensures FollowKeys(node, keys) == Null || FollowKeys(node, keys) in Subtrees(node)
  {
    if |keys| > 0 && StepInto(node, Key(keys[0])).Some? {
      var next := StepInto(node, Key(keys[0])).value;
      StepIsChild(node, Key(keys[0]));
      FollowedIsSubtree(next, keys[1..]);
    }
  }

  /** A walk that warns of nothing turns `from` into `to`, in whatever context. */
  ghost predicate Becomes(doc: Value, from: Value, to: Value) {
    exists chain, depth :: Walk(doc, from, chain, depth) == Walked(to, [])
  }

  /** The context of a clean walk does not matter: neither its chain nor its depth. */
  lemma {:induction false} SameResult(doc: Value, node: Value, chain: seq<string>, depth: nat, chain': seq<string>, depth': nat)
    requires Walk(doc, node, chain, depth).warnings == [] && Walk(doc, node, chain', depth').warnings == []
    ensures Walk(doc, node, chain, depth).value == Walk(doc, node, chain', depth').value
    decreases Budget(depth)
  {
    WalkTooDeep(doc, node, chain, depth);
    WalkTooDeep(doc, node, chain', depth');
    if RefOf(node).Some? {
      var ref := RefOf(node).value;
      SameResult(doc, ResolveRef(ref, doc), chain + [ref], depth + 1, chain' + [ref], depth' + 1);
    } else {
      WalkKeepsShape(doc, node, chain, depth);
      WalkKeepsShape(doc, node, chain', depth');
      var a := Children(Walk(doc, node, chain, depth).value);
      var b := Children(Walk(doc, node, chain', depth').value);
      forall i | 0 <= i < |a| ensures a[i] == b[i] {
        WalkBelow(doc, node, chain, depth, i);
        WalkBelow(doc, node, chain', depth', i);
        SameResult(doc, Children(node)[i], chain, depth + 1, chain', depth' + 1);
      }
      assert a == b;
    }
  }

  lemma BecomesOne(doc: Value, from: Value, a: Value, b: Value)
    requires Becomes(doc, from, a) && Becomes(doc, from, b)
    ensures a == b
  {
    var chain, depth :| Walk(doc, from, chain, depth) == Walked(a, []);
    var chain', depth' :| Walk(doc, from, chain', depth') == Walked(b, []);
    SameResult(doc, from, chain, depth, chain', depth');
  }

  /** Whatever occurs in a clean result came from something that occurs in the document. */
  lemma {:induction false} SourceOf(doc: Value, node: Value, chain: seq<string>, depth: nat, x: Value)
    returns (z: Value, chain': seq<string>, depth': nat)
    requires node in Subtrees(doc) && Walk(doc, node, chain, depth).warnings == []
    requires x in Subtrees(Walk(doc, node, chain, depth).value)
    ensures z in Subtrees(doc) && Walk(doc, z, chain', depth') == Walked(x, [])
    decreases Budget(depth)
  {
    if x == Walk(doc, node, chain, depth).value {
      z, chain', depth' := node, chain, depth;
    } else if RefOf(node).Some? {
      var ref := RefOf(node).value;
      WalkTooDeep(doc, node, chain, depth);
      FollowedIsSubtree(doc, KeysOf(Split(ref[2..], '/')));
      z, chain', depth' := SourceOf(doc, ResolveRef(ref, doc), chain + [ref], depth + 1, x);
    } else {
      WalkTooDeep(doc, node, chain, depth);
      WalkKeepsShape(doc, node, chain, depth);
      var i := SubtreeOfChild(Walk(doc, node, chain, depth).value, x);
      WalkBelow(doc, node, chain, depth, i);
      ChildIsSubtree(doc, node, i);
      z, chain', depth' := SourceOf(doc, Children(node)[i], chain, depth + 1, x);
    }
  }

  lemma SubtreeOfChild(v: Value, x: Value) returns (i: nat)
    requires x in Subtrees(v) && x != v
    ensures i < |Children(v)| && x in Subtrees(Children(v)[i])
  {
    var c :| c in Children(v) && x in Subtrees(c);
    i :| 0 <= i < |Children(v)| && Children(v)[i] == c;
  }

  lemma ChildIsSubtree(doc: Value, node: Value, i: nat)
    requires node in Subtrees(doc) && i < |Children(node)|
    ensures Children(node)[i] in Subtrees(doc)
  {
    SubtreesBelow(doc, node);
    assert Children(node)[i] in Children(node) && Children(node)[i] in Subtrees(Children(node)[i]);
  }

  /** A value left as it is although it holds a reference, with the reference's target. */
  lemma {:induction false} KeptReference(doc: Value, node: Value, chain: seq<string>, depth: nat) returns (v: Value, target: Value)
    requires node in Subtrees(doc) && Walk(doc, node, chain, depth) == Walked(node, []) && !RefFree(node)
    ensures v in Subtrees(doc) && target in Subtrees(doc) && v != target
    ensures Becomes(doc, v, v) && Becomes(doc, target, v)
    decreases Budget(depth)
  {
    WalkTooDeep(doc, node, chain, depth);
    if RefOf(node).Some? {
      var ref := RefOf(node).value;
      v, target := node, ResolveRef(ref, doc);
      FollowedIsSubtree(doc, KeysOf(Split(ref[2..], '/')));
      assert Walk(doc, target, chain + [ref], depth + 1) == Walked(v, []);
      assert ref in chain + [ref];
    } else {
      var c :| c in Children(node) && !RefFree(c);
      var i :| 0 <= i < |Children(node)| && Children(node)[i] == c;
      WalkBelow(doc, node, chain, depth, i);
      ChildIsSubtree(doc, node, i);
      v, target := KeptReference(doc, c, chain, depth + 1);
    }
  }

  ghost predicate Functional<T(!new)>(rel: (T, T) -> bool) {
    forall z, a, b :: rel(z, a) && rel(z, b) ==> a == b
  }

  ghost predicate HasSource<T(!new)>(sources: set<T>, rel: (T, T) -> bool, x: T) {
    exists z :: z in sources && rel(z, x)
  }

  /** Sources that lead to one target each are at least as many as the targets they reach. */
  lemma {:induction false} EnoughSources<T(!new)>(sources: set<T>, targets: set<T>, rel: (T, T) -> bool)
    requires Functional(rel) && forall x {:trigger HasSource(sources, rel, x)} :: x in targets ==> HasSource(sources, rel, x)
    ensures |targets| <= |sources|
    decreases |targets|
  {
    if targets != {} {
      var x :| x in targets;
      assert HasSource(sources, rel, x);
      var z :| z in sources && rel(z, x);
      forall y | y in targets - {x} ensures HasSource(sources - {z}, rel, y) {
        assert HasSource(sources, rel, y);
        var w :| w in sources && rel(w, y);
        assert w in sources - {z};
      }
      EnoughSources(sources - {z}, targets - {x}, rel);
    }
  }

  /** So when a finite set reaches all of itself, no two of its elements reach the same one. */
  lemma OntoIsOneToOne<T(!new)>(s: set<T>, rel: (T, T) -> bool, v: T, t: T, y: T)
    requires Functional(rel) && forall x {:trigger HasSource(s, rel, x)} :: x in s ==> HasSource(s, rel, x)
    requires v in s && t in s && y in s && rel(v, y) && rel(t, y)
    ensures v == t
  {
    if v != t {
      forall x | x in s ensures HasSource(s - {t}, rel, x) {
        assert HasSource(s, rel, x);
        OtherSource(s, rel, v, t, y, x);
      }
      EnoughSources(s - {t}, s, rel);
    }
  }

  lemma OtherSource<T(!new)>(s: set<T>, rel: (T, T) -> bool, v: T, t: T, y: T, x: T)
    requires Functional(rel) && HasSource(s, rel, x) && v in s && v != t && rel(v, y) && rel(t, y)
    ensures HasSource(s - {t}, rel, x)
  {
    var z :| z in s && rel(z, x);
    if z == t {
      assert rel(t, x) && x == y;
      assert v in s - {t};
    } else {
      assert z in s - {t};
    }
  }

  /** Only documents without references are left alone: in a document that inlining returns
      unchanged and without a warning, everything comes from something in it, so no two parts can
      become the same; but a reference and its target always do. */
  lemma FixedPointIsRefFree(doc: Value)
    requires Walk(doc, doc, [], 0) == Walked(doc, [])
    ensures RefFree(doc)
  {
    if !RefFree(doc) {
      var v, target := KeptReference(doc, doc, [], 0);
      var rel := (from, to) => Becomes(doc, from, to);
      forall x | x in Subtrees(doc) ensures HasSource(Subtrees(doc), rel, x) {
        var z, chain, depth := SourceOf(doc, doc, [], 0, x);
        assert rel(z, x);
      }
      forall z, a, b | rel(z, a) && rel(z, b) ensures a == b {
        BecomesOne(doc, z, a, b);
      }
      OntoIsOneToOne(Subtrees(doc), rel, v, target, v);
    }
  }

  /** Inlining twice is inlining once, exactly: after a run without warnings, a second run returns
      the result unchanged and without warnings if and only if the first run met no nested
      reference to a string. */
  lemma InliningIsIdempotent(doc: Value)
    requires Walk(doc, doc, [], 0).warnings == []
    ensures var once := Walk(doc, doc, [], 0).value;
            Walk(once, once, [], 0) == Walked(once, []) <==> !MeetsNestedRef(doc, doc, [], 0)
  {
    var once := Walk(doc, doc, [], 0).value;
    RefFreeIff(doc, doc, [], 0);
    if RefFree(once) {
      WalkTwice(doc, 0);
    } else if Walk(once, once, [], 0) == Walked(once, []) {
      FixedPointIsRefFree(once);
    }
  }

  // ---------------------------------------------------------------- meaning

  /** What one sees at a place: a scalar, the keys of a dict, the length of a list, or nothing. */
  datatype View = Scalar(v: Value) | Keys(keys: seq<string>) | Length(n: nat) | Absent

  function ViewOf(v: Value): View {
    match v
    case Arr(items) => Length(|items|)
    case Obj(fields) => Keys(seq(|fields|, i requires 0 <= i < |fields| => fields[i].key))
    case _ => Scalar(v)
  }

  function See(v: Value, path: seq<Step>): View {
    if |path| == 0 then ViewOf(v)
    else match StepInto(v, path[0])
      case Some(next) => See(next, path[1..])
      case None => Absent
  }

  /** The same look-up in the document itself, following every reference it meets through
      `ResolveRef`. `None` when more than `hops` references had to be followed or one failed. */
  function SeeThrough(doc: Value, v: Value, path: seq<Step>, hops: nat): Option<View>
    decreases hops, |path|
  {
    match RefOf(v)
    case Some(ref) =>
      var target := ResolveRef(ref, doc);
      if hops == 0 || target == Null then None else SeeThrough(doc, target, path, hops - 1)
    case None =>
      if |path| == 0 then Some(ViewOf(v))
      else match StepInto(v, path[0])
        case Some(next) => SeeThrough(doc, next, path[1..], hops)
        case None => Some(Absent)
  }

  lemma SameView(v: Value, cs: seq<Value>)
    requires |cs| == |Children(v)|
    ensures ViewOf(WithChildren(v, cs)) == ViewOf(v)
  {
  }

  /** The same step leads to the same position of a rebuilt value. */
  lemma SameStep(v: Value, cs: seq<Value>, step: Step) returns (at: nat)
    requires |cs| == |Children(v)|
    ensures StepInto(v, step).Some? <==> StepInto(WithChildren(v, cs), step).Some?
    ensures StepInto(v, step).Some? ==>
              at < |cs| && StepInto(v, step) == Some(Children(v)[at]) && StepInto(WithChildren(v, cs), step) == Some(cs[at])
  {
    at := StepIntoChild(v, step);
    assert WithChildren(v, Children(v)) == v;
  }

  /** The node shows along the path what its result shows. */
  ghost predicate SameSight(doc: Value, node: Value, result: Value, path: seq<Step>, hops: nat) {
    SeeThrough(doc, node, path, hops) == Some(See(result, path))
  }

  lemma SightOfRef(doc: Value, node: Value, result: Value, path: seq<Step>, hops: nat)
    requires RefOf(node).Some? && ResolveRef(RefOf(node).value, doc) != Null && hops > 0
    requires SameSight(doc, ResolveRef(RefOf(node).value, doc), result, path, hops - 1)
    ensures SameSight(doc, node, result, path, hops)
  {
  }

  lemma SightBelow(doc: Value, node: Value, result: Value, path: seq<Step>, hops: nat)
    requires RefOf(node).None? && |path| > 0
    requires StepInto(node, path[0]).Some? == StepInto(result, path[0]).Some?
    requires StepInto(node, path[0]).Some? ==>
               SameSight(doc, StepInto(node, path[0]).value, StepInto(result, path[0]).value, path[1..], hops)
    ensures SameSight(doc, node, result, path, hops)
  {
  }

  lemma {:induction false} WalkPreservesViews(doc: Value, node: Value, chain: seq<string>, depth: nat, path: seq<Step>, hops: nat)
    requires Walk(doc, node, chain, depth).warnings == []
    requires hops + depth >= MAX_REF_DEPTH
    ensures SameSight(doc, node, Walk(doc, node, chain, depth).value, path, hops)
    decreases Budget(depth)
  {
    var r := Walk(doc, node, chain, depth).value;
    if RefOf(node).Some? {
      var ref := RefOf(node).value;
      WalkTooDeep(doc, ResolveRef(ref, doc), chain + [ref], depth + 1);
      WalkPreservesViews(doc, ResolveRef(ref, doc), chain + [ref], depth + 1, path, hops - 1);
      SightOfRef(doc, node, r, path, hops);
    } else if |path| == 0 {
      WalkKeepsShape(doc, node, chain, depth);
      SameView(node, Children(r));
    } else {
      var at := WalkStep(doc, node, chain, depth, path[0]);
      if StepInto(node, path[0]).Some? {
        WalkPreservesViews(doc, Children(node)[at], chain, depth + 1, path[1..], hops);
      }
      SightBelow(doc, node, r, path, hops);
    }
  }

  /** One step down a node that is no reference is the same step down its result. */
  lemma WalkStep(doc: Value, node: Value, chain: seq<string>, depth: nat, step: Step) returns (at: nat)
    requires depth <= MAX_REF_DEPTH && RefOf(node).None?
    ensures var r := Walk(doc, node, chain, depth).value;
            StepInto(node, step).Some? == StepInto(r, step).Some? &&
            (StepInto(node, step).Some? ==>
               at < |Children(node)| && StepInto(node, step) == Some(Children(node)[at]) &&
               var child := Walk(doc, Children(node)[at], chain, depth + 1);
               (Walk(doc, node, chain, depth).warnings == [] ==> child.warnings == []) && StepInto(r, step) == Some(child.value))
  {
    WalkKeepsShape(doc, node, chain, depth);
    at := SameStep(node, Children(Walk(doc, node, chain, depth).value), step);
    if StepInto(node, step).Some? {
      WalkBelow(doc, node, chain, depth, at);
    }
  }

  /** Inlining preserves meaning: without warnings, every path shows in the result exactly what
      it shows in the input when references are followed, however many hops are allowed. */
  lemma InliningPreservesMeaning(doc: Value, path: seq<Step>, hops: nat)
    requires Walk(doc, doc, [], 0).warnings == []
    requires hops >= MAX_REF_DEPTH
    ensures SeeThrough(doc, doc, path, hops) == Some(See(Walk(doc, doc, [], 0).value, path))
  {
    WalkPreservesViews(doc, doc, [], 0, path, hops);
  }

  /** When a warning-free result is free of references: exactly when no "$ref" of the input
      leads, through references, to a string. */
  lemma RefFreeExactly(doc: Value)
    requires UniqueKeys(doc) && Walk(doc, doc, [], 0).warnings == []
    ensures RefFree(Walk(doc, doc, [], 0).value) <==>
            forall path: seq<Step>, s: string ::
              SeeThrough(doc, doc, path + [Key("$ref")], MAX_REF_DEPTH) != Some(Scalar(Str(s)))
  {
    var r := Walk(doc, doc, [], 0).value;
    forall path: seq<Step> ensures SeeThrough(doc, doc, path + [Key("$ref")], MAX_REF_DEPTH) == Some(See(r, path + [Key("$ref")])) {
      InliningPreservesMeaning(doc, path + [Key("$ref")], MAX_REF_DEPTH);
    }
    if RefFree(r) {
      forall path: seq<Step>, s: string ensures See(r, path + [Key("$ref")]) != Scalar(Str(s)) {
        RefFreeSees(r, path, s);
      }
    } else {
      ResultKeysUnique(doc, doc, [], 0);
      var path, s := FindRef(r);
    }
  }

  lemma {:induction false} RefFreeSees(v: Value, path: seq<Step>, s: string)
    requires RefFree(v)
    ensures See(v, path + [Key("$ref")]) != Scalar(Str(s))
  {
    if |path| == 0 {
      assert path + [Key("$ref")] == [Key("$ref")];
    } else {
      assert (path + [Key("$ref")])[1..] == path[1..] + [Key("$ref")];
      StepIsChild(v, path[0]);
      if StepInto(v, path[0]).Some? {
        RefFreeSees(StepInto(v, path[0]).value, path[1..], s);
      }
    }
  }

  lemma {:induction false} FindRef(v: Value) returns (path: seq<Step>, s: string)
    requires UniqueKeys(v) && !RefFree(v)
    ensures See(v, path + [Key("$ref")]) == Scalar(Str(s))
  {
    if RefOf(v).Some? {
      path, s := [], RefOf(v).value;
      assert path + [Key("$ref")] == [Key("$ref")];
    } else {
      var c :| c in Children(v) && !RefFree(c);
      var step := ChildHasStep(v, c);
      var below;
      below, s := FindRef(c);
      path := [step] + below;
      SeeBelow(v, step, c, below, Key("$ref"));
    }
  }

  lemma SeeBelow(v: Value, step: Step, c: Value, below: seq<Step>, last: Step)
    requires StepInto(v, step) == Some(c)
    ensures See(v, [step] + below + [last]) == See(c, below + [last])
  {
    var path := [step] + below + [last];
    assert path[0] == step && path[1..] == below + [last];
  }

  lemma {:induction false} ResultKeysUnique(doc: Value, node: Value, chain: seq<string>, depth: nat)
    requires UniqueKeys(doc) && UniqueKeys(node)
    ensures UniqueKeys(Walk(doc, node, chain, depth).value)
    decreases Budget(depth)
  {
    var r := Walk(doc, node, chain, depth).value;
    if depth > MAX_REF_DEPTH {
    } else if RefOf(node).Some? {
      var ref := RefOf(node).value;
      if ref !in chain && ResolveRef(ref, doc) != Null {
        UniqueKeysBelow(doc, KeysOf(Split(ref[2..], '/')));
        ResultKeysUnique(doc, ResolveRef(ref, doc), chain + [ref], depth + 1);
      }
    } else {
      var cs := Children(node);
      WalkKeepsShape(doc, node, chain, depth);
      forall i | 0 <= i < |cs| ensures UniqueKeys(Children(r)[i]) {
        WalkBelow(doc, node, chain, depth, i);
        assert UniqueKeys(cs[i]);
        ResultKeysUnique(doc, cs[i], chain, depth + 1);
      }
    }
  }

  lemma {:induction false} UniqueKeysBelow(node: Value, keys: seq<string>)
    requires UniqueKeys(node)
    ensures UniqueKeys(FollowKeys(node, keys))
  {
    if |keys| > 0 && StepInto(node, Key(keys[0])).Some? {
      StepIsChild(node, Key(keys[0]));
      UniqueKeysBelow(StepInto(node, Key(keys[0])).value, keys[1..]);
    }
  }

  // ---------------------------------------------------------------- cycles

  /** `v` contains a reference to `ref`, not looking through references. */
  ghost predicate HoldsRef(v: Value, ref: string) {
    match RefOf(v)
    case Some(r) => r == ref
    case None => exists c :: c in Children(v) && HoldsRef(c, ref)
  }

  /** An edge of the reference graph: the target of `a` contains a reference to `b`. */
  ghost predicate Edge(doc: Value, a: string, b: string) {
    HoldsRef(ResolveRef(a, doc), b)
  }

  /** A path of the reference graph that starts at the document. */
  ghost predicate Trail(doc: Value, refs: seq<string>) {
    (|refs| > 0 ==> HoldsRef(doc, refs[0])) && Edges(doc, refs)
  }

  ghost predicate Edges(doc: Value, refs: seq<string>) {
    forall i :: 0 <= i < |refs| - 1 ==> Edge(doc, refs[i], refs[i + 1])
  }

  ghost predicate Distinct(refs: seq<string>) {
    forall i, j :: 0 <= i < j < |refs| ==> refs[i] != refs[j]
  }

  /** From `node` one can go down `levels` levels, where following a reference is one, too. */
  ghost predicate Reaches(doc: Value, node: Value, levels: nat)
    decreases levels
  {
    levels == 0 ||
    match RefOf(node)
    case Some(ref) => ResolveRef(ref, doc) != Null && Reaches(doc, ResolveRef(ref, doc), levels - 1)
    case None => exists c :: c in Children(node) && Reaches(doc, c, levels - 1)
  }

  /** A walk that gave up got as deep as it may. */
  lemma {:induction false} TooDeepReaches(doc: Value, node: Value, chain: seq<string>, depth: nat)
    requires TooDeep in Walk(doc, node, chain, depth).warnings && depth <= MAX_REF_DEPTH + 1
    ensures Reaches(doc, node, MAX_REF_DEPTH + 1 - depth)
    decreases Budget(depth)
  {
    if depth <= MAX_REF_DEPTH {
      if RefOf(node).Some? {
        var ref := RefOf(node).value;
        TooDeepReaches(doc, ResolveRef(ref, doc), chain + [ref], depth + 1);
      } else {
        var i := WarningSource(doc, Children(node), chain, depth + 1, TooDeep);
        TooDeepReaches(doc, Children(node)[i], chain, depth + 1);
        ReachesBelow(doc, node, i, MAX_REF_DEPTH - depth);
      }
    }
  }

  lemma ReachesBelow(doc: Value, node: Value, i: nat, levels: nat)
    requires RefOf(node).None? && i < |Children(node)| && Reaches(doc, Children(node)[i], levels)
    ensures Reaches(doc, node, levels + 1)
  {
    assert Children(node)[i] in Children(node);
  }

  /** What a warning has to mean: a depth warning, that the expansion goes down more than 40
      levels; the trail of a circular one is a path in the reference graph that closes on itself
      and nowhere before; an unresolvable one names a reachable reference with no target. */
  ghost predicate Truthful(doc: Value, w: Warning) {
    match w
    case TooDeep => exists levels :: levels > MAX_REF_DEPTH && Reaches(doc, doc, levels)
    case Circular(trail) =>
      |trail| >= 2 && Trail(doc, trail) && Distinct(trail[..|trail| - 1]) && trail[|trail| - 1] in trail[..|trail| - 1]
    case Unresolvable(ref) => ResolveRef(ref, doc) == Null && exists trail :: Trail(doc, trail + [ref])
  }

  /** Every reference in `node` continues the chain. */
  ghost predicate Continues(doc: Value, chain: seq<string>, node: Value) {
    forall ref :: HoldsRef(node, ref) ==> Trail(doc, chain + [ref])
  }

  /** Whatever the walk does, its chain stays a duplicate-free path of the reference graph and
      its warnings are true. */
  lemma {:induction false} WarningsAreTruthful(doc: Value, node: Value, chain: seq<string>, depth: nat, w: Warning)
    requires Distinct(chain) && Continues(doc, chain, node)
    requires w in Walk(doc, node, chain, depth).warnings && !w.TooDeep?
    ensures Truthful(doc, w)
    decreases Budget(depth)
  {
    if depth > MAX_REF_DEPTH {
    } else if RefOf(node).Some? {
      var ref := RefOf(node).value;
      assert HoldsRef(node, ref) && Trail(doc, chain + [ref]);
      if ref in chain {
        assert (chain + [ref])[..|chain|] == chain;
      } else if ResolveRef(ref, doc) != Null {
        ChainGrows(doc, chain, ref);
        WarningsAreTruthful(doc, ResolveRef(ref, doc), chain + [ref], depth + 1, w);
      }
    } else {
      var i := WarningSource(doc, Children(node), chain, depth + 1, w);
      var child := Children(node)[i];
      assert child in Children(node);
      assert forall ref :: HoldsRef(child, ref) ==> HoldsRef(node, ref);
      WarningsAreTruthful(doc, child, chain, depth + 1, w);
    }
  }

  lemma ChainGrows(doc: Value, chain: seq<string>, ref: string)
    requires Distinct(chain) && ref !in chain && Trail(doc, chain + [ref])
    ensures Distinct(chain + [ref]) && Continues(doc, chain + [ref], ResolveRef(ref, doc))
  {
    var longer := chain + [ref];
    forall next | HoldsRef(ResolveRef(ref, doc), next) ensures Trail(doc, longer + [next]) {
      var path := longer + [next];
      forall i | 0 <= i < |path| - 1 ensures Edge(doc, path[i], path[i + 1]) {
        if i < |chain| {
          assert path[i] == longer[i] && path[i + 1] == longer[i + 1];
        } else {
          assert path[i] == ref && path[i + 1] == next;
        }
      }
      assert path[0] == longer[0];
    }
  }

  lemma CycleWarningsAreSound(doc: Value, w: Warning)
    requires w in Walk(doc, doc, [], 0).warnings
    ensures Truthful(doc, w)
  {
    assert Continues(doc, [], doc);
    if w.TooDeep? {
      TooDeepReaches(doc, doc, [], 0);
    } else {
      WarningsAreTruthful(doc, doc, [], 0, w);
    }
  }

  lemma HoldsRefBelow(node: Value, ref: string) returns (i: nat)
    requires HoldsRef(node, ref) && RefOf(node).None?
    ensures i < |Children(node)| && HoldsRef(Children(node)[i], ref)
  {
    var c :| c in Children(node) && HoldsRef(c, ref);
    i :| 0 <= i < |Children(node)| && Children(node)[i] == c;
  }

  /** A clean walk goes through every reference it holds, one level deeper at least. */
  lemma {:induction false} CleanWalkVisits(doc: Value, node: Value, chain: seq<string>, depth: nat, ref: string) returns (deeper: nat)
    requires Walk(doc, node, chain, depth).warnings == [] && HoldsRef(node, ref)
    ensures ref !in chain && ResolveRef(ref, doc) != Null
    ensures depth < deeper <= MAX_REF_DEPTH && Walk(doc, ResolveRef(ref, doc), chain + [ref], deeper).warnings == []
    decreases Budget(depth)
  {
    if RefOf(node).Some? {
      deeper := depth + 1;
    } else {
      var i := HoldsRefBelow(node, ref);
      WalkTooDeep(doc, node, chain, depth);
      WalkBelow(doc, node, chain, depth, i);
      deeper := CleanWalkVisits(doc, Children(node)[i], chain, depth + 1, ref);
    }
  }

  /** Different references that are not in the chain and lead somewhere. */
  ghost predicate FreshAndTargeted(doc: Value, chain: seq<string>, refs: seq<string>) {
    Distinct(refs) && forall r :: r in refs ==> r !in chain && ResolveRef(r, doc) != Null
  }

  lemma TrailRest(doc: Value, refs: seq<string>)
    requires |refs| > 0 && Edges(doc, refs)
    ensures Edges(doc, refs[1..]) && (|refs| > 1 ==> HoldsRef(ResolveRef(refs[0], doc), refs[1..][0]))
  {
    var rest := refs[1..];
    assert |rest| > 0 ==> Edge(doc, refs[0], refs[1]);
    forall i | 0 <= i < |rest| - 1 ensures Edge(doc, rest[i], rest[i + 1]) {
      assert Edge(doc, refs[i + 1], refs[i + 2]);
    }
  }

  lemma TrailCons(doc: Value, chain: seq<string>, refs: seq<string>)
    requires |refs| > 0 && refs[0] !in chain && ResolveRef(refs[0], doc) != Null
    requires FreshAndTargeted(doc, chain + [refs[0]], refs[1..])
    ensures FreshAndTargeted(doc, chain, refs)
  {
    var rest := refs[1..];
    forall r | r in rest ensures r != refs[0] && r !in chain {
      assert r !in chain + [refs[0]];
    }
    assert forall i :: 1 <= i < |refs| ==> refs[i] == rest[i - 1] && refs[i] in rest;
    assert forall r :: r in refs ==> r == refs[0] || r in rest;
  }

  lemma {:induction false} CleanTrail(doc: Value, node: Value, chain: seq<string>, depth: nat, refs: seq<string>)
    requires Walk(doc, node, chain, depth).warnings == []
    requires (|refs| > 0 ==> HoldsRef(node, refs[0])) && Edges(doc, refs)
    ensures |refs| + depth <= MAX_REF_DEPTH && FreshAndTargeted(doc, chain, refs)
    decreases |refs|
  {
    if |refs| > 0 {
      var deeper := CleanWalkVisits(doc, node, chain, depth, refs[0]);
      TrailRest(doc, refs);
      CleanTrail(doc, ResolveRef(refs[0], doc), chain + [refs[0]], deeper, refs[1..]);
      TrailCons(doc, chain, refs);
    } else {
      WalkTooDeep(doc, node, chain, depth);
    }
  }

  lemma WalkTooDeep(doc: Value, node: Value, chain: seq<string>, depth: nat)
    ensures Walk(doc, node, chain, depth).warnings == [] ==> depth <= MAX_REF_DEPTH
  {
  }

  /** A document is inlined without a warning only if its references form no cycle: no path
      from the document repeats a reference, none is longer than 40, and all have targets. */
  lemma NoWarningMeansNoCycle(doc: Value, refs: seq<string>)
    requires Walk(doc, doc, [], 0).warnings == [] && Trail(doc, refs)
    ensures Distinct(refs) && |refs| <= MAX_REF_DEPTH
    ensures forall r :: r in refs ==> ResolveRef(r, doc) != Null
  {
    CleanTrail(doc, doc, [], 0, refs);
  }

  // ---------------------------------------------------------------- documents without warnings

  /** Fully expanded, `node` has at most `k` levels below it, a reference and its target counting
      as one: so no reference leads back to itself, and none leads nowhere. */
  ghost predicate Expands(doc: Value, node: Value, k: nat)
    decreases k
  {
    match RefOf(node)
    case Some(ref) => ResolveRef(ref, doc) != Null && k > 0 && Expands(doc, ResolveRef(ref, doc), k - 1)
    case None => Children(node) == [] || (k > 0 && forall c :: c in Children(node) ==> Expands(doc, c, k - 1))
  }

  lemma {:induction false} ExpandsMore(doc: Value, node: Value, k: nat, more: nat)
    requires Expands(doc, node, k) && k <= more
    ensures Expands(doc, node, more)
    decreases k
  {
    match RefOf(node) {
      case Some(ref) => ExpandsMore(doc, ResolveRef(ref, doc), k - 1, more - 1);
      case None =>
        forall c | c in Children(node) ensures more > 0 && Expands(doc, c, more - 1) {
          ExpandsMore(doc, c, k - 1, more - 1);
        }
    }
  }

  lemma {:induction false} Least(doc: Value, node: Value, k: nat) returns (least: nat)
    requires Expands(doc, node, k)
    ensures least <= k && Expands(doc, node, least) && (least > 0 ==> !Expands(doc, node, least - 1))
    decreases k
  {
    if k > 0 && Expands(doc, node, k - 1) {
      least := Least(doc, node, k - 1);
    } else {
      least := k;
    }
  }

  /** The targets of the references in the chain are at least as high as a node of height `k`. */
  ghost predicate AreHigher(doc: Value, chain: seq<string>, k: nat) {
    k > 0 ==> forall r :: r in chain ==> !Expands(doc, ResolveRef(r, doc), k - 1)
  }

  lemma StillHigher(doc: Value, chain: seq<string>, k: nat, less: nat)
    requires AreHigher(doc, chain, k) && less <= k
    ensures AreHigher(doc, chain, less)
  {
    if less > 0 {
      forall r | r in chain ensures !Expands(doc, ResolveRef(r, doc), less - 1) {
        if Expands(doc, ResolveRef(r, doc), less - 1) {
          ExpandsMore(doc, ResolveRef(r, doc), less - 1, k - 1);
        }
      }
    }
  }

  /** A reference of a node of height `k` is new to the chain, and its target, of height `least`, is
      not higher than itself. */
  lemma LongerChain(doc: Value, chain: seq<string>, ref: string, k: nat, least: nat)
    requires AreHigher(doc, chain, k) && least < k && Expands(doc, ResolveRef(ref, doc), least)
    requires least > 0 ==> !Expands(doc, ResolveRef(ref, doc), least - 1)
    ensures ref !in chain && AreHigher(doc, chain + [ref], least)
  {
    ExpandsMore(doc, ResolveRef(ref, doc), least, k - 1);
    StillHigher(doc, chain, k, least);
  }

  /** What expands within the depth left is walked without a warning: its references cannot be in
      the chain, since their targets are lower than everything the chain went through. */
  lemma {:induction false} ExpandedIsClean(doc: Value, node: Value, chain: seq<string>, depth: nat, k: nat)
    requires Expands(doc, node, k) && k + depth <= MAX_REF_DEPTH && AreHigher(doc, chain, k)
    ensures Walk(doc, node, chain, depth).warnings == []
    decreases Budget(depth), 2
  {
    match RefOf(node) {
      case Some(ref) => ExpandedRef(doc, ref, chain, depth, k);
      case None =>
        forall i | 0 <= i < |Children(node)| ensures Walk(doc, Children(node)[i], chain, depth + 1).warnings == [] {
          ExpandedChild(doc, node, chain, depth, k, i);
        }
        CleanChildren(doc, Children(node), chain, depth + 1);
    }
  }

  lemma {:induction false} ExpandedRef(doc: Value, ref: string, chain: seq<string>, depth: nat, k: nat)
    requires k > 0 && Expands(doc, ResolveRef(ref, doc), k - 1) && k + depth <= MAX_REF_DEPTH && AreHigher(doc, chain, k)
    ensures ref !in chain && Walk(doc, ResolveRef(ref, doc), chain + [ref], depth + 1).warnings == []
    decreases Budget(depth), 1
  {
    var target := ResolveRef(ref, doc);
    var least := Least(doc, target, k - 1);
    LongerChain(doc, chain, ref, k, least);
    ExpandedIsClean(doc, target, chain + [ref], depth + 1, least);
  }

  lemma {:induction false} ExpandedChild(doc: Value, node: Value, chain: seq<string>, depth: nat, k: nat, i: nat)
    requires RefOf(node).None? && Expands(doc, node, k) && k + depth <= MAX_REF_DEPTH && AreHigher(doc, chain, k)
    requires i < |Children(node)|
    ensures Walk(doc, Children(node)[i], chain, depth + 1).warnings == []
    decreases Budget(depth), 1
  {
    var child := Children(node)[i];
    assert child in Children(node);
    StillHigher(doc, chain, k, k - 1);
    ExpandedIsClean(doc, child, chain, depth + 1, k - 1);
  }

  lemma {:induction false} CleanChildren(doc: Value, nodes: seq<Value>, chain: seq<string>, depth: nat)
    requires forall i :: 0 <= i < |nodes| ==> Walk(doc, nodes[i], chain, depth).warnings == []
    ensures WalkAll(doc, nodes, chain, depth).warnings == []
  {
    if |nodes| > 0 {
      CleanChildren(doc, nodes[1..], chain, depth);
    }
  }

  lemma {:induction false} CleanExpands(doc: Value, node: Value, chain: seq<string>, depth: nat)
    requires Walk(doc, node, chain, depth).warnings == [] && depth <= MAX_REF_DEPTH
    ensures Expands(doc, node, MAX_REF_DEPTH - depth)
    decreases Budget(depth)
  {
    if RefOf(node).Some? {
      var ref := RefOf(node).value;
      WalkTooDeep(doc, ResolveRef(ref, doc), chain + [ref], depth + 1);
      CleanExpands(doc, ResolveRef(ref, doc), chain + [ref], depth + 1);
    } else {
      forall i | 0 <= i < |Children(node)| ensures depth < MAX_REF_DEPTH && Expands(doc, Children(node)[i], MAX_REF_DEPTH - depth - 1) {
        WalkBelow(doc, node, chain, depth, i);
        WalkTooDeep(doc, Children(node)[i], chain, depth + 1);
        CleanExpands(doc, Children(node)[i], chain, depth + 1);
      }
      ExpandsByIndex(doc, node, MAX_REF_DEPTH - depth);
    }
  }

  lemma ExpandsByIndex(doc: Value, node: Value, k: nat)
    requires RefOf(node).None?
    requires forall i :: 0 <= i < |Children(node)| ==> k > 0 && Expands(doc, Children(node)[i], k - 1)
    ensures Expands(doc, node, k)
  {
    if Children(node) != [] {
      assert Expands(doc, Children(node)[0], k - 1);
    }
  }

  lemma CleanExactlyAt(doc: Value, depth: nat)
    requires depth <= MAX_REF_DEPTH
    ensures Walk(doc, doc, [], depth).warnings == [] <==> Expands(doc, doc, MAX_REF_DEPTH - depth)
  {
    if Walk(doc, doc, [], depth).warnings == [] {
      CleanExpands(doc, doc, [], depth);
    } else if Expands(doc, doc, MAX_REF_DEPTH - depth) {
      ExpandedIsClean(doc, doc, [], depth, MAX_REF_DEPTH - depth);
    }
  }

  /** Exactly the documents whose full expansion is finite, complete and at most 40 levels deep are
      inlined without a warning. */
  lemma CleanExactly(doc: Value)
    ensures Walk(doc, doc, [], 0).warnings == [] <==> Expands(doc, doc, MAX_REF_DEPTH)
  {
    CleanExactlyAt(doc, 0);
  }

  // ---------------------------------------------------------------- markers

  const MARKER_KEYS: set<string> := {"_unresolved", "_circular_ref", "_unresolved_ref"}

  predicate HasMarkerKey(v: Value) {
    v.Obj? && exists i :: 0 <= i < |v.fields| && v.fields[i].key in MARKER_KEYS
  }

  /** No dict anywhere in `v` uses one of the marker keys. */
  ghost predicate MarkerFree(v: Value) {
    !HasMarkerKey(v) && forall c :: c in Children(v) ==> MarkerFree(c)
  }

  /** The markers in `v`, in document order. */
  function Markers(v: Value): seq<Value>
    decreases v, 1, 0
  {
    if HasMarkerKey(v) then [v] else MarkersOfAll(v, Children(v))
  }

  function MarkersOfAll(ghost parent: Value, vs: seq<Value>): seq<Value>
    requires forall c :: c in vs ==> c < parent
    decreases parent, 0, |vs|
  {
    if |vs| == 0 then []
    else
      assert vs[0] in vs && forall c :: c in vs[1..] ==> c in vs;
      Markers(vs[0]) + MarkersOfAll(parent, vs[1..])
  }

  function MarkerOf(w: Warning): Value {
    match w
    case TooDeep => TOO_DEEP_MARKER
    case Circular(trail) => CircularMarker(if |trail| > 0 then trail[|trail| - 1] else "")
    case Unresolvable(ref) => UnresolvedMarker(ref)
  }

  function MarkersOf(ws: seq<Warning>): seq<Value> {
    seq(|ws|, i requires 0 <= i < |ws| => MarkerOf(ws[i]))
  }

  lemma MarkerIsMarked(w: Warning)
    ensures Markers(MarkerOf(w)) == [MarkerOf(w)]
  {
    assert MarkerOf(w).fields[0].key in MARKER_KEYS;
  }

  lemma {:induction false} MarkerFreeBelow(node: Value, keys: seq<string>)
    requires MarkerFree(node)
    ensures MarkerFree(FollowKeys(node, keys))
  {
    if |keys| > 0 && StepInto(node, Key(keys[0])).Some? {
      StepIsChild(node, Key(keys[0]));
      MarkerFreeBelow(StepInto(node, Key(keys[0])).value, keys[1..]);
    }
  }

  /** One marker per warning, in the same order and naming the same reference, when the
      document itself has no dict with a marker key. */
  lemma {:induction false} MarkersMatchWarnings(doc: Value, node: Value, chain: seq<string>, depth: nat)
    requires MarkerFree(doc) && MarkerFree(node)
    ensures var w := Walk(doc, node, chain, depth); Markers(w.value) == MarkersOf(w.warnings)
    decreases Budget(depth), 0
  {
    var w := Walk(doc, node, chain, depth);
    if depth > MAX_REF_DEPTH {
      MarkerIsMarked(TooDeep);
    } else if RefOf(node).Some? {
      var ref := RefOf(node).value;
      if ref in chain {
        MarkerIsMarked(Circular(chain + [ref]));
      } else if ResolveRef(ref, doc) == Null {
        MarkerIsMarked(Unresolvable(ref));
      } else {
        MarkerFreeBelow(doc, KeysOf(Split(ref[2..], '/')));
        MarkersMatchWarnings(doc, ResolveRef(ref, doc), chain + [ref], depth + 1);
      }
    } else {
      WalkKeepsShape(doc, node, chain, depth);
      SameMarkerKeys(node, Children(w.value));
      MarkersMatchAll(doc, w.value, Children(node), chain, depth + 1);
    }
  }

  lemma SameMarkerKeys(v: Value, cs: seq<Value>)
    requires |cs| == |Children(v)|
    ensures HasMarkerKey(WithChildren(v, cs)) == HasMarkerKey(v)
  {
    if v.Obj? {
      assert forall i :: 0 <= i < |v.fields| ==> WithChildren(v, cs).fields[i].key == v.fields[i].key;
    }
  }

  lemma MarkersOfConcat(a: seq<Warning>, b: seq<Warning>)
    ensures MarkersOf(a + b) == MarkersOf(a) + MarkersOf(b)
  {
  }

  lemma MarkersOfCons(parent: Value, first: Value, rest: seq<Value>)
    requires forall c :: c in [first] + rest ==> c < parent
    ensures (forall c :: c in rest ==> c < parent) && MarkersOfAll(parent, [first] + rest) == Markers(first) + MarkersOfAll(parent, rest)
  {
    assert forall c :: c in rest ==> c in [first] + rest;
    assert ([first] + rest)[1..] == rest;
  }

  lemma {:induction false} MarkersMatchAll(doc: Value, parent: Value, nodes: seq<Value>, chain: seq<string>, depth: nat)
    requires MarkerFree(doc) && forall n :: n in nodes ==> MarkerFree(n)
    requires forall c :: c in WalkAll(doc, nodes, chain, depth).value ==> c < parent
    ensures var w := WalkAll(doc, nodes, chain, depth); MarkersOfAll(parent, w.value) == MarkersOf(w.warnings)
    decreases Budget(depth), |nodes| + 1
  {
    if |nodes| > 0 {
      var first := Walk(doc, nodes[0], chain, depth);
      var rest := WalkAll(doc, nodes[1..], chain, depth);
      MarkersOfCons(parent, first.value, rest.value);
      MarkersMatchWarnings(doc, nodes[0], chain, depth);
      MarkersMatchAll(doc, parent, nodes[1..], chain, depth);
      MarkersOfConcat(first.warnings, rest.warnings);
    }
  }
}
