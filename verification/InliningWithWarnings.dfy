/** What `resolve_internal_refs` makes of any document, with or without warnings: what the result
    shows, and where its markers stand. */
module InliningWithWarnings {
  import opened Values
  import opened Text
  import opened RefInlining

  /** Some prefix of the path leads to a marker. */
  predicate MeetsMarker(v: Value, path: seq<Step>)
    decreases |path|
  {
    HasMarkerKey(v) || (|path| > 0 && StepInto(v, path[0]).Some? && MeetsMarker(StepInto(v, path[0]).value, path[1..]))
  }

  lemma MarkerIsMet(w: Warning, path: seq<Step>)
    ensures MeetsMarker(MarkerOf(w), path)
  {
    MarkerIsMarked(w);
    assert MarkerOf(w).fields[0].key in MARKER_KEYS;
  }

  lemma {:induction false} WalkShowsOrMarks(doc: Value, node: Value, chain: seq<string>, depth: nat, path: seq<Step>, hops: nat)
    requires hops + depth >= MAX_REF_DEPTH
    ensures var r := Walk(doc, node, chain, depth).value; MeetsMarker(r, path) || SameSight(doc, node, r, path, hops)
    decreases Budget(depth)
  {
    var r := Walk(doc, node, chain, depth).value;
    if depth > MAX_REF_DEPTH {
      MarkerIsMet(TooDeep, path);
    } else if RefOf(node).Some? {
      var ref := RefOf(node).value;
      if ref in chain {
        MarkerIsMet(Circular(chain + [ref]), path);
      } else if ResolveRef(ref, doc) == Null {
        MarkerIsMet(Unresolvable(ref), path);
      } else if depth == MAX_REF_DEPTH {
        MarkerIsMet(TooDeep, path);
      } else {
        WalkShowsOrMarks(doc, ResolveRef(ref, doc), chain + [ref], depth + 1, path, hops - 1);
        if SameSight(doc, ResolveRef(ref, doc), r, path, hops - 1) {
          SightOfRef(doc, node, r, path, hops);
        }
      }
    } else if |path| == 0 {
      WalkKeepsShape(doc, node, chain, depth);
      SameView(node, Children(r));
    } else {
      var at := WalkStep(doc, node, chain, depth, path[0]);
      if StepInto(node, path[0]).Some? {
        WalkShowsOrMarks(doc, Children(node)[at], chain, depth + 1, path[1..], hops);
      }
      if !MeetsMarker(r, path) {
        SightBelow(doc, node, r, path, hops);
      }
    }
  }

  /** With or without warnings, for every document: along every path the result shows what the
      document shows when references are followed, unless the path leads through a marker. */
  lemma InliningShowsOrMarks(doc: Value, path: seq<Step>, hops: nat)
    requires hops >= MAX_REF_DEPTH
    ensures var r := Walk(doc, doc, [], 0).value;
            MeetsMarker(r, path) || SeeThrough(doc, doc, path, hops) == Some(See(r, path))
  {
    WalkShowsOrMarks(doc, doc, [], 0, path, hops);
  }

  /** Looking along a path is looking at what is at its end. */
  lemma {:induction false} SeeIsAt(v: Value, path: seq<Step>)
    ensures See(v, path) == match At(v, path) case Some(x) => ViewOf(x) case None => Absent
    decreases |path|
  {
    if |path| > 0 && StepInto(v, path[0]).Some? {
      SeeIsAt(StepInto(v, path[0]).value, path[1..]);
    }
  }

  /** From `v`, along the path and through exactly the references `followed`, one gets to `w`. */
  ghost predicate GetsTo(doc: Value, v: Value, path: seq<Step>, followed: seq<string>, w: Value)
    decreases |path| + |followed|
  {
    if path == [] && followed == [] then v == w
    else match RefOf(v)
      case Some(ref) =>
        |followed| > 0 && followed[0] == ref && ResolveRef(ref, doc) != Null && GetsTo(doc, ResolveRef(ref, doc), path, followed[1..], w)
      case None =>
        |path| > 0 && StepInto(v, path[0]).Some? && GetsTo(doc, StepInto(v, path[0]).value, path[1..], followed, w)
  }

  /** The marker `m` is right for `w`, reached through `followed` at this depth: it is more than 40
      levels down, or it is a reference that was followed before or that leads nowhere. */
  ghost predicate IsMarkerFor(doc: Value, w: Value, followed: seq<string>, depth: nat, m: Value) {
    if depth > 40 then m == TOO_DEEP_MARKER
    else match RefOf(w)
      case Some(ref) => if ref in followed then m == CircularMarker(ref) else ResolveRef(ref, doc) == Null && m == UnresolvedMarker(ref)
      case None => false
  }

  /** `m` is right for `w`, reached through different references and not below the 41st level. */
  ghost predicate Justified(doc: Value, w: Value, followed: seq<string>, depth: nat, m: Value) {
    Distinct(followed) && depth <= 41 && IsMarkerFor(doc, w, followed, depth, m)
  }

  lemma ConsChain(chain: seq<string>, ref: string, followed: seq<string>)
    ensures chain + [ref] + followed == chain + ([ref] + followed)
  {
  }

  lemma GetsThrough(doc: Value, node: Value, path: seq<Step>, followed: seq<string>, w: Value)
    requires RefOf(node).Some? && ResolveRef(RefOf(node).value, doc) != Null
    ensures GetsTo(doc, node, path, [RefOf(node).value] + followed, w) <==> GetsTo(doc, ResolveRef(RefOf(node).value, doc), path, followed, w)
  {
    assert ([RefOf(node).value] + followed)[1..] == followed;
  }

  lemma OnlyItself(w: Warning, path: seq<Step>)
    requires At(MarkerOf(w), path).Some? && HasMarkerKey(At(MarkerOf(w), path).value)
    ensures path == []
  {
    if |path| > 0 {
      StepIsChild(MarkerOf(w), path[0]);
    }
  }

  /** What the result has along a path, a node that is no reference has along the same path. */
  lemma AtBelow(doc: Value, node: Value, chain: seq<string>, depth: nat, path: seq<Step>)
    requires depth <= MAX_REF_DEPTH && RefOf(node).None? && |path| > 0
    ensures var r := At(Walk(doc, node, chain, depth).value, path);
            match StepInto(node, path[0])
            case None => r.None?
            case Some(child) => child in Children(node) && r == At(Walk(doc, child, chain, depth + 1).value, path[1..])
  {
    var at := WalkStep(doc, node, chain, depth, path[0]);
    StepIsChild(node, path[0]);
  }

  lemma NoMarkerHere(doc: Value, node: Value, chain: seq<string>, depth: nat)
    requires depth <= MAX_REF_DEPTH && RefOf(node).None? && MarkerFree(node)
    ensures !HasMarkerKey(Walk(doc, node, chain, depth).value)
  {
    WalkKeepsShape(doc, node, chain, depth);
    SameMarkerKeys(node, Children(Walk(doc, node, chain, depth).value));
  }

  lemma GetsBelow(doc: Value, node: Value, path: seq<Step>, followed: seq<string>, w: Value)
    requires RefOf(node).None? && |path| > 0
    ensures GetsTo(doc, node, path, followed, w) <==>
            StepInto(node, path[0]).Some? && GetsTo(doc, StepInto(node, path[0]).value, path[1..], followed, w)
  {
  }

  /** The end of the search: a marker that stands for the node itself. */
  lemma SourceIsHere(doc: Value, node: Value, chain: seq<string>, depth: nat, path: seq<Step>, w: Warning)
    requires Distinct(chain) && depth <= MAX_REF_DEPTH + 1 && IsMarkerFor(doc, node, chain, depth, MarkerOf(w))
    requires At(MarkerOf(w), path).Some? && HasMarkerKey(At(MarkerOf(w), path).value)
    ensures GetsTo(doc, node, path, [], node) && Justified(doc, node, chain + [], depth + |path|, At(MarkerOf(w), path).value)
  {
    OnlyItself(w, path);
    assert chain + [] == chain;
  }

  lemma {:induction false} MarkerSource(doc: Value, node: Value, chain: seq<string>, depth: nat, path: seq<Step>, m: Value) returns (followed: seq<string>, w: Value)
    requires MarkerFree(doc) && MarkerFree(node) && Distinct(chain) && depth <= MAX_REF_DEPTH + 1
    requires At(Walk(doc, node, chain, depth).value, path) == Some(m) && HasMarkerKey(m)
    ensures GetsTo(doc, node, path, followed, w) && Justified(doc, w, chain + followed, depth + |path| + |followed|, m)
    decreases Budget(depth), 1
  {
    if depth > MAX_REF_DEPTH {
      followed, w := [], node;
      SourceIsHere(doc, node, chain, depth, path, TooDeep);
    } else if RefOf(node).Some? {
      followed, w := MarkerSourceOfRef(doc, node, chain, depth, path, m);
    } else {
      followed, w := MarkerSourceBelow(doc, node, chain, depth, path, m);
    }
  }

  lemma {:induction false} MarkerSourceBelow(doc: Value, node: Value, chain: seq<string>, depth: nat, path: seq<Step>, m: Value) returns (followed: seq<string>, w: Value)
    requires MarkerFree(doc) && MarkerFree(node) && Distinct(chain) && depth <= MAX_REF_DEPTH && RefOf(node).None?
    requires At(Walk(doc, node, chain, depth).value, path) == Some(m) && HasMarkerKey(m)
    ensures GetsTo(doc, node, path, followed, w) && Justified(doc, w, chain + followed, depth + |path| + |followed|, m)
    decreases Budget(depth), 0
  {
    NoMarkerHere(doc, node, chain, depth);
    AtBelow(doc, node, chain, depth, path);
    followed, w := MarkerSource(doc, StepInto(node, path[0]).value, chain, depth + 1, path[1..], m);
    GetsBelow(doc, node, path, followed, w);
  }

  lemma {:induction false} MarkerSourceOfRef(doc: Value, node: Value, chain: seq<string>, depth: nat, path: seq<Step>, m: Value) returns (followed: seq<string>, w: Value)
    requires MarkerFree(doc) && Distinct(chain) && depth <= MAX_REF_DEPTH && RefOf(node).Some?
    requires At(Walk(doc, node, chain, depth).value, path) == Some(m) && HasMarkerKey(m)
    ensures GetsTo(doc, node, path, followed, w) && Justified(doc, w, chain + followed, depth + |path| + |followed|, m)
    decreases Budget(depth), 0
  {
    var ref := RefOf(node).value;
    if ref in chain || ResolveRef(ref, doc) == Null {
      followed, w := [], node;
      SourceIsHere(doc, node, chain, depth, path, if ref in chain then Circular(chain + [ref]) else Unresolvable(ref));
    } else {
      MarkerFreeBelow(doc, KeysOf(Split(ref[2..], '/')));
      followed, w := MarkerSource(doc, ResolveRef(ref, doc), chain + [ref], depth + 1, path, m);
      ConsChain(chain, ref, followed);
      GetsThrough(doc, node, path, followed, w);
      followed := [ref] + followed;
    }
  }

  lemma MarkerHere(doc: Value, w: Value, chain: seq<string>, depth: nat, m: Value)
    requires IsMarkerFor(doc, w, chain, depth, m)
    ensures Walk(doc, w, chain, depth).value == m && HasMarkerKey(m)
  {
    assert m.fields[0].key in MARKER_KEYS;
  }

  lemma GetsFurther(doc: Value, node: Value, path: seq<Step>, followed: seq<string>, w: Value)
    requires RefOf(node).Some? && !(path == [] && followed == []) && GetsTo(doc, node, path, followed, w)
    ensures |followed| > 0 && followed[0] == RefOf(node).value && ResolveRef(RefOf(node).value, doc) != Null
    ensures GetsTo(doc, ResolveRef(RefOf(node).value, doc), path, followed[1..], w)
  {
  }

  lemma WalkThrough(doc: Value, node: Value, chain: seq<string>, depth: nat)
    requires depth <= MAX_REF_DEPTH && RefOf(node).Some? && RefOf(node).value !in chain && ResolveRef(RefOf(node).value, doc) != Null
    ensures Walk(doc, node, chain, depth) == Walk(doc, ResolveRef(RefOf(node).value, doc), chain + [RefOf(node).value], depth + 1)
  {
  }

  lemma {:induction false} MarkerStands(doc: Value, node: Value, chain: seq<string>, depth: nat, path: seq<Step>, m: Value, followed: seq<string>, w: Value)
    requires GetsTo(doc, node, path, followed, w) && Justified(doc, w, chain + followed, depth + |path| + |followed|, m)
    ensures At(Walk(doc, node, chain, depth).value, path) == Some(m)
    decreases |path| + |followed|, 1
  {
    if path == [] && followed == [] {
      assert chain + followed == chain;
      MarkerHere(doc, w, chain, depth, m);
    } else if RefOf(node).Some? {
      MarkerStandsThrough(doc, node, chain, depth, path, m, followed, w);
    } else {
      GetsBelow(doc, node, path, followed, w);
      AtBelow(doc, node, chain, depth, path);
      MarkerStands(doc, StepInto(node, path[0]).value, chain, depth + 1, path[1..], m, followed, w);
    }
  }

  lemma {:induction false} MarkerStandsThrough(doc: Value, node: Value, chain: seq<string>, depth: nat, path: seq<Step>, m: Value, followed: seq<string>, w: Value)
    requires RefOf(node).Some? && !(path == [] && followed == [])
    requires GetsTo(doc, node, path, followed, w) && Justified(doc, w, chain + followed, depth + |path| + |followed|, m)
    ensures At(Walk(doc, node, chain, depth).value, path) == Some(m)
    decreases |path| + |followed|, 0
  {
    GetsFurther(doc, node, path, followed, w);
    var ref, rest := RefOf(node).value, followed[1..];
    assert followed == [ref] + rest;
    NotBefore(chain, ref, followed);
    ConsChain(chain, ref, rest);
    WalkThrough(doc, node, chain, depth);
    MarkerStands(doc, ResolveRef(ref, doc), chain + [ref], depth + 1, path, m, rest, w);
  }

  lemma NotBefore(chain: seq<string>, ref: string, followed: seq<string>)
    requires |followed| > 0 && followed[0] == ref && Distinct(chain + followed)
    ensures ref !in chain
  {
    assert (chain + followed)[|chain|] == ref;
    assert forall i :: 0 <= i < |chain| ==> (chain + followed)[i] == chain[i];
  }

  /** A marker's place in the document: how one gets there, and why it is marked. */
  ghost predicate Explained(doc: Value, path: seq<Step>, m: Value, followed: seq<string>, w: Value) {
    GetsTo(doc, doc, path, followed, w) && Justified(doc, w, followed, |path| + |followed|, m)
  }

  /** Where the markers are, exactly, when the document itself has none: at a path stands a marker if
      and only if, following the path and different references, one gets to a reference followed
      before or leading nowhere, which the marker names, or to the 41st level. */
  lemma MarkersStandExactly(doc: Value, path: seq<Step>, m: Value)
    requires MarkerFree(doc)
    ensures At(Walk(doc, doc, [], 0).value, path) == Some(m) && HasMarkerKey(m) <==>
            exists followed, w :: Explained(doc, path, m, followed, w)
  {
    if At(Walk(doc, doc, [], 0).value, path) == Some(m) && HasMarkerKey(m) {
      var followed, w := MarkerSource(doc, doc, [], 0, path, m);
      assert [] + followed == followed;
      assert Explained(doc, path, m, followed, w);
    }
    if followed, w :| Explained(doc, path, m, followed, w) {
      assert [] + followed == followed;
      MarkerStands(doc, doc, [], 0, path, m, followed, w);
      MarkerHere(doc, w, followed, |path| + |followed|, m);
    }
  }

  // ---------------------------------------------------------------- pointers

  function KeySteps(keys: seq<string>): seq<Step> { seq(|keys|, i requires 0 <= i < |keys| => Key(keys[i])) }

  lemma {:induction false} FollowedIsAt(node: Value, keys: seq<string>)
    ensures FollowKeys(node, keys) == match At(node, KeySteps(keys)) case Some(v) => v case None => Null
  {
    if |keys| > 0 {
      assert KeySteps(keys)[1..] == KeySteps(keys[1..]);
      if StepInto(node, Key(keys[0])).Some? {
        FollowedIsAt(StepInto(node, Key(keys[0])).value, keys[1..]);
      }
    }
  }

  /** What a reference leads to: what is at the end of the keys it names, and nothing when one of them
      is missing or when it is not a reference into the document. */
  lemma ReferenceLeadsTo(keys: seq<string>, root: Value, external: string)
    requires |keys| > 0 && !("#/" <= external)
    ensures ResolveRef(PrintPointer(keys), root) == match At(root, KeySteps(keys)) case Some(v) => v case None => Null
    ensures ResolveRef(external, root) == Null
  {
    PointerRoundTrip(keys, root);
    FollowedIsAt(root, keys);
  }
}
