/** What the generator of `adapters/rest/request_data.py` makes of the markers that
    `resolve_internal_refs` of `adapters/rest/openapi_loader.py` leaves in a schema. */
module MarkerSafety {
  import opened Values
  import opened Schema
  import opened MinimalSchema
  import opened RequestData
  import opened GeneratorSoundness
  import opened AllOfSoundness
  import R = RefInlining

  // ---------------------------------------------------------------- a marker as a schema

  /** One of the three dicts that inlining puts in the place of a reference. */
  predicate IsMarker(v: Value) {
    v.Obj? && |v.fields| == 1 &&
    (v.fields[0] == Field("_unresolved", Bool(true)) ||
     (v.fields[0].key in {"_circular_ref", "_unresolved_ref"} && v.fields[0].value.Str?))
  }

  lemma MarkersAreMarkers(w: R.Warning)
    ensures IsMarker(R.MarkerOf(w))
  {
  }

  lemma MarkerHasNoKeyword(v: Value, key: string)
    requires IsMarker(v) && key !in R.MARKER_KEYS
    ensures Get(v.fields, key).None?
  {
    GetFirst(v.fields, key, 1);
  }

  /** A marker taken as a schema yields no value. */
  lemma MarkerIsUnsure(v: Value, depth: nat, text: TextNumbers)
    requires IsMarker(v)
    ensures GenerateValue(v, depth, text) == UNSURE
  {
    forall key | key in {"example", "default", "enum", "type", "properties", "allOf"} ensures Get(v.fields, key).None? {
      MarkerHasNoKeyword(v, key);
    }
  }

  // ---------------------------------------------------------------- where data comes from

  /** The schemas the generator turns into the fields of an object. */
  datatype Source = NoFields | FieldsFrom(properties: seq<Field>, names: seq<Value>)

  function FieldSource(raw: seq<Field>): Source {
    var kind := Lookup(raw, "type");
    if kind == Str("object") || (kind == Null && Get(raw, "properties").Some?) then
      match RequiredNames(raw)
      case Some(names) => FieldsFrom(PropertiesOf(raw), names)
      case None => NoFields
    else if ConsultsBranches(raw) then
      match Merge(Lookup(raw, "allOf").items)
      case Merged(properties, required) => FieldsFrom(properties, required)
      case _ => NoFields
    else NoFields
  }

  /** The schema of the items of a synthesised array that is not empty. */
  function ItemSource(raw: seq<Field>): Option<Value> {
    if Lookup(raw, "type") == Str("array") && WantsItems(raw) then Get(raw, "items") else None
  }

  lemma FieldsAreFilled(raw: seq<Field>, depth: nat, text: TextNumbers)
    requires depth <= MAX_DEPTH && !Documented(raw) && FieldSource(raw).FieldsFrom?
    ensures var from := FieldSource(raw);
            GenerateByType(raw, depth, text) == FillRequired(from.properties, from.names, [], depth, text)
  {
  }

  /** Without a source of fields, a confident value is a scalar or an array of copies of an item. */
  lemma NoFieldsMade(raw: seq<Field>, depth: nat, text: TextNumbers)
    requires depth <= MAX_DEPTH && !Documented(raw) && FieldSource(raw).NoFields?
    requires var r := GenerateByType(raw, depth, text); r.Made? && r.confident
    ensures var v := GenerateByType(raw, depth, text).value;
            if Lookup(raw, "type") == Str("array") then v.Arr? && GenerateByType(raw, depth, text) == GenerateArray(raw, depth, text)
            else !v.Arr? && !v.Obj?
  {
    var kind := Lookup(raw, "type");
    if kind == Str("string") || kind == Str("integer") || kind == Str("number") || kind == Str("boolean") {
    } else if kind == Str("array") {
      ArrayMade(raw, depth, text);
    } else {
      assert false;
    }
  }

  // ---------------------------------------------------------------- markers that become data

  /** No marker can get into a value generated from the schema: the documented values it copies
      hold none, wherever the generator gets to, and no required name is spelled like one. */
  ghost predicate CleanSources(schema: Value, depth: nat)
    decreases Budget(depth), 1
  {
    depth <= MAX_DEPTH && schema.Obj? ==>
      var raw := schema.fields;
      if Documented(raw) then R.MarkerFree(DocumentedValue(raw))
      else
        (ItemSource(raw).Some? ==> CleanSources(ItemSource(raw).value, depth + 1)) &&
        (FieldSource(raw).FieldsFrom? ==> CleanNames(FieldSource(raw).properties, FieldSource(raw).names, depth))
  }

  function DocumentedValue(raw: seq<Field>): Value
    requires Documented(raw)
  {
    if Get(raw, "example").Some? then Get(raw, "example").value
    else if Get(raw, "default").Some? then Get(raw, "default").value
    else Lookup(raw, "enum").items[0]
  }

  ghost predicate CleanNames(properties: seq<Field>, names: seq<Value>, depth: nat)
    requires depth <= MAX_DEPTH
    decreases Budget(depth), 0
  {
    forall n :: n in names && n.Str? && Get(properties, n.s).Some? ==>
      n.s !in R.MARKER_KEYS && CleanSources(Get(properties, n.s).value, depth + 1)
  }

  /** A field that is neither spelled like a marker nor holds one. */
  ghost predicate CleanField(f: Field) { f.key !in R.MARKER_KEYS && R.MarkerFree(f.value) }

  ghost predicate CleanName(properties: seq<Field>, name: string, depth: nat)
    requires depth <= MAX_DEPTH
    decreases Budget(depth), 0
  {
    Get(properties, name).Some? && name !in R.MARKER_KEYS && CleanSources(Get(properties, name).value, depth + 1)
  }

  /** Exactly: a confident value is free of markers if and only if its sources are. */
  lemma {:induction false} MarkersComeFromSources(schema: Value, depth: nat, text: TextNumbers)
    requires GenerateValue(schema, depth, text).Made? && GenerateValue(schema, depth, text).confident
    ensures R.MarkerFree(GenerateValue(schema, depth, text).value) <==> CleanSources(schema, depth)
    decreases Budget(depth), 2, 0
  {
    var raw := schema.fields;
    if Documented(raw) {
    } else if FieldSource(raw).FieldsFrom? {
      var from := FieldSource(raw);
      FieldsAreFilled(raw, depth, text);
      FieldsFromSources(from.properties, from.names, depth, text);
      assert ItemSource(raw).None?;
    } else {
      NoFieldsMade(raw, depth, text);
      var v := GenerateByType(raw, depth, text).value;
      if v.Arr? {
        ArrayMade(raw, depth, text);
        if WantsItems(raw) {
          MarkersComeFromSources(Lookup(raw, "items"), depth + 1, text);
        }
        CopiesAreFree(v.items);
      } else {
        assert ItemSource(raw).None?;
      }
    }
  }

  lemma {:induction false} FieldsFromSources(properties: seq<Field>, names: seq<Value>, depth: nat, text: TextNumbers)
    requires depth <= MAX_DEPTH
    requires var r := FillRequired(properties, names, [], depth, text); r.Made? && r.confident
    ensures var r := FillRequired(properties, names, [], depth, text); R.MarkerFree(r.value) <==> CleanNames(properties, names, depth)
    decreases Budget(depth), 1, |names| + 1
  {
    var r := FillRequired(properties, names, [], depth, text).value;
    TracedFields(properties, names, [], [], depth, text);
    assert [] + names == names;
    TracedIsExact(properties, names, r.fields, depth);
  }

  lemma CopiesAreFree(items: seq<Value>)
    requires forall i :: 0 <= i < |items| ==> items[i] == items[0]
    ensures R.MarkerFree(Arr(items)) <==> |items| > 0 ==> R.MarkerFree(items[0])
  {
    if |items| > 0 {
      assert items[0] in Children(Arr(items));
    }
  }

  /** Each field was made for one of the names, and is clean exactly when its source is; each name
      has its field. */
  ghost predicate Traced(properties: seq<Field>, names: seq<Value>, made: seq<Field>, depth: nat)
    requires depth <= MAX_DEPTH
  {
    (forall f {:trigger CleanField(f)} :: f in made ==> Str(f.key) in names && (CleanField(f) <==> CleanName(properties, f.key, depth))) &&
    (forall n :: n in names ==> n.Str? && Get(properties, n.s).Some?) &&
    forall n {:trigger HasKey(made, n.s)} :: n in names ==> HasKey(made, n.s)
  }

  ghost predicate HasKey(fields: seq<Field>, key: string) { exists f :: f in fields && f.key == key }

  lemma TracedIsExact(properties: seq<Field>, names: seq<Value>, made: seq<Field>, depth: nat)
    requires depth <= MAX_DEPTH && Traced(properties, names, made, depth)
    ensures R.MarkerFree(Obj(made)) <==> CleanNames(properties, names, depth)
  {
    FreeByField(made);
    if forall f :: f in made ==> CleanField(f) {
      forall n | n in names ensures CleanName(properties, n.s, depth) {
        assert HasKey(made, n.s);
        var f :| f in made && f.key == n.s;
      }
    }
    if CleanNames(properties, names, depth) {
      forall f | f in made ensures CleanField(f) {
        assert CleanName(properties, f.key, depth);
      }
    }
  }

  lemma FreeByField(fields: seq<Field>)
    ensures R.MarkerFree(Obj(fields)) <==> forall f :: f in fields ==> CleanField(f)
  {
    var v := Obj(fields);
    if R.MarkerFree(v) {
      forall f | f in fields ensures CleanField(f) {
        var i :| 0 <= i < |fields| && fields[i] == f;
        assert Children(v)[i] == f.value && Children(v)[i] in Children(v);
      }
    }
    if forall f :: f in fields ==> CleanField(f) {
      forall c | c in Children(v) ensures R.MarkerFree(c) {
        var i :| 0 <= i < |fields| && Children(v)[i] == c;
        assert fields[i] in fields;
      }
      assert forall i :: 0 <= i < |fields| ==> fields[i] in fields;
    }
  }

  lemma {:induction false} PutFields(fields: seq<Field>, key: string, value: Value)
    ensures forall f :: f in Put(fields, key, value) ==> f in fields || f == Field(key, value)
    ensures HasKey(Put(fields, key, value), key)
    ensures forall k :: HasKey(fields, k) ==> HasKey(Put(fields, key, value), k)
  {
    if |fields| == 0 {
      assert Field(key, value) in Put(fields, key, value);
    } else {
      var rest := fields[1..];
      PutFields(rest, key, value);
      var put := Put(fields, key, value);
      if fields[0].key == key {
        assert put[0] == Field(key, value) && put[0] in put && forall f :: f in rest ==> f in put;
      } else {
        assert put[0] == fields[0] && put[0] in put && forall f :: f in Put(rest, key, value) ==> f in put;
      }
      forall k | HasKey(fields, k) ensures HasKey(put, k) {
        var f :| f in fields && f.key == k;
        if f == fields[0] {
          assert put[0] in put && put[0].key == k;
        } else {
          assert f in rest && HasKey(rest, k);
          if fields[0].key == key {
            assert f in put;
          } else {
            var g :| g in Put(rest, key, value) && g.key == k;
            assert g in put;
          }
        }
      }
    }
  }

  lemma {:induction false} TracedFields(properties: seq<Field>, names: seq<Value>, seen: seq<Value>, made: seq<Field>, depth: nat, text: TextNumbers)
    requires depth <= MAX_DEPTH && Traced(properties, seen, made, depth)
    requires var r := FillRequired(properties, names, made, depth, text); r.Made? && r.confident
    ensures var r := FillRequired(properties, names, made, depth, text).value;
            r.Obj? && Traced(properties, seen + names, r.fields, depth)
    decreases Budget(depth), 1, |names|
  {
    if |names| == 0 {
      assert seen + names == seen;
    } else {
      FillStep(properties, names, made, depth, text);
      var name := names[0].s;
      var sub := Get(properties, name).value;
      var value := GenerateValue(sub, depth + 1, text).value;
      var sofar, more := seen + [names[0]], Put(made, name, value);
      MarkersComeFromSources(sub, depth + 1, text);
      TracedMore(properties, seen, made, depth, name, value);
      TracedFields(properties, names[1..], sofar, more, depth, text);
      assert sofar + names[1..] == seen + names;
    }
  }

  /** A confident object was made name by name. */
  lemma FillStep(properties: seq<Field>, names: seq<Value>, made: seq<Field>, depth: nat, text: TextNumbers)
    requires depth <= MAX_DEPTH && |names| > 0
    requires var r := FillRequired(properties, names, made, depth, text); r.Made? && r.confident
    ensures names[0].Str? && Get(properties, names[0].s).Some?
    ensures var r := GenerateValue(Get(properties, names[0].s).value, depth + 1, text);
            r.Made? && r.confident &&
            FillRequired(properties, names, made, depth, text) ==
            FillRequired(properties, names[1..], Put(made, names[0].s, r.value), depth, text)
  {
  }

  lemma TracedMore(properties: seq<Field>, seen: seq<Value>, made: seq<Field>, depth: nat, name: string, value: Value)
    requires depth <= MAX_DEPTH && Traced(properties, seen, made, depth) && Get(properties, name).Some?
    requires R.MarkerFree(value) <==> CleanSources(Get(properties, name).value, depth + 1)
    ensures Traced(properties, seen + [Str(name)], Put(made, name, value), depth)
  {
    var names, more := seen + [Str(name)], Put(made, name, value);
    PutFields(made, name, value);
    forall f | f in more ensures Str(f.key) in names && (CleanField(f) <==> CleanName(properties, f.key, depth)) {
      if f != Field(name, value) {
        assert f in made && (CleanField(f) <==> CleanName(properties, f.key, depth));
      }
    }
    forall n | n in names ensures n.Str? && Get(properties, n.s).Some? && HasKey(more, n.s) {
      if n in seen {
        assert HasKey(made, n.s);
      }
    }
  }

  // ---------------------------------------------------------------- markers that block

  /** The generator needs data for a marker: for the schema itself, for its items, or for a
      required field, down to any depth. */
  ghost predicate NeedsMarker(schema: Value, depth: nat)
    decreases Budget(depth), 1
  {
    IsMarker(schema) ||
    (schema.Obj? && depth <= MAX_DEPTH && !Documented(schema.fields) &&
     var raw := schema.fields;
     (ItemSource(raw).Some? && NeedsMarker(ItemSource(raw).value, depth + 1)) ||
     (FieldSource(raw).FieldsFrom? && SomeNameNeedsMarker(FieldSource(raw).properties, FieldSource(raw).names, depth)))
  }

  ghost predicate SomeNameNeedsMarker(properties: seq<Field>, names: seq<Value>, depth: nat)
    requires depth <= MAX_DEPTH
    decreases Budget(depth), 0
  {
    exists n :: n in names && n.Str? && Get(properties, n.s).Some? && NeedsMarker(Get(properties, n.s).value, depth + 1)
  }

  predicate NotConfident(r: Generated) { r == UNSURE || r.Raised? }

  /** Then it is not confident. */
  lemma {:induction false} NeededMarkerBlocks(schema: Value, depth: nat, text: TextNumbers)
    requires NeedsMarker(schema, depth)
    ensures NotConfident(GenerateValue(schema, depth, text))
    decreases Budget(depth), 2, 0
  {
    if IsMarker(schema) {
      MarkerIsUnsure(schema, depth, text);
    } else {
      var raw := schema.fields;
      if ItemSource(raw).Some? && NeedsMarker(ItemSource(raw).value, depth + 1) {
        NeededMarkerBlocks(ItemSource(raw).value, depth + 1, text);
        ItemBlocks(raw, depth, text);
      } else {
        FieldsAreFilled(raw, depth, text);
        FieldBlocks(FieldSource(raw).properties, FieldSource(raw).names, [], depth, text);
      }
    }
  }

  lemma ItemBlocks(raw: seq<Field>, depth: nat, text: TextNumbers)
    requires depth <= MAX_DEPTH && !Documented(raw) && ItemSource(raw).Some?
    requires NotConfident(GenerateValue(ItemSource(raw).value, depth + 1, text))
    ensures NotConfident(GenerateByType(raw, depth, text))
  {
    var minItems := Lookup(raw, "minItems");
    assert Truthy(minItems);
    assert GenerateByType(raw, depth, text) == GenerateArray(raw, depth, text) == GenerateItems(raw, minItems, depth, text);
  }

  lemma {:induction false} FieldBlocks(properties: seq<Field>, names: seq<Value>, made: seq<Field>, depth: nat, text: TextNumbers)
    requires depth <= MAX_DEPTH && SomeNameNeedsMarker(properties, names, depth)
    ensures NotConfident(FillRequired(properties, names, made, depth, text))
    decreases Budget(depth), 1, |names|
  {
    var n :| n in names && n.Str? && Get(properties, n.s).Some? && NeedsMarker(Get(properties, n.s).value, depth + 1);
    if names[0] == n {
      NeededMarkerBlocks(Get(properties, n.s).value, depth + 1, text);
    } else if names[0].Str? {
      assert n in names[1..];
      var r := GenerateValue(Lookup(properties, names[0].s), depth + 1, text);
      if r.Made? {
        FieldBlocks(properties, names[1..], Put(made, names[0].s, r.value), depth, text);
      }
    }
  }

  // ---------------------------------------------------------------- markers that are dropped

  function WithoutMarkers(subs: seq<Value>): seq<Value> {
    if |subs| == 0 then []
    else
      var last := subs[|subs| - 1];
      WithoutMarkers(subs[..|subs| - 1]) + if IsMarker(last) then [] else [last]
  }

  lemma {:induction false} MergeSkipsMarkers(subs: seq<Value>)
    ensures Merge(subs) == Merge(WithoutMarkers(subs))
  {
    if |subs| > 0 {
      var last := subs[|subs| - 1];
      var init := WithoutMarkers(subs[..|subs| - 1]);
      MergeSkipsMarkers(subs[..|subs| - 1]);
      if IsMarker(last) {
        MarkerHasNoKeyword(last, "properties");
        MarkerHasNoKeyword(last, "required");
        assert init + [] == init;
        if Merge(init).Merged? {
          assert Merge(init).required + [] == Merge(init).required;
        }
      } else {
        assert (init + [last])[..|init|] == init;
      }
    }
  }

  /** A branch of an `allOf` that inlining could not resolve is dropped without a trace: the answer
      is that of the remaining branches, confident or not. */
  lemma MarkerBranchesAreDropped(subs: seq<Value>, depth: nat, text: TextNumbers)
    requires depth <= MAX_DEPTH
    ensures GenerateAllOf(subs, depth, text) == GenerateAllOf(WithoutMarkers(subs), depth, text)
  {
    MergeSkipsMarkers(subs);
  }

  // ---------------------------------------------------------------- clean documents

  /** A schema free of markers has clean sources. */
  lemma {:induction false} FreeSchemaIsClean(schema: Value, depth: nat)
    requires R.MarkerFree(schema)
    ensures CleanSources(schema, depth)
    decreases Budget(depth), 1
  {
    if depth <= MAX_DEPTH && schema.Obj? {
      var raw := schema.fields;
      if Documented(raw) {
        FreeDocumented(raw);
      } else {
        if ItemSource(raw).Some? {
          FreeLookup(raw, "items");
          FreeSchemaIsClean(ItemSource(raw).value, depth + 1);
        }
        if FieldSource(raw).FieldsFrom? {
          FreeFieldSource(raw);
          FreeNamesAreClean(FieldSource(raw).properties, FieldSource(raw).names, depth);
        }
      }
    }
  }

  lemma {:induction false} FreeNamesAreClean(properties: seq<Field>, names: seq<Value>, depth: nat)
    requires depth <= MAX_DEPTH && forall f :: f in properties ==> CleanField(f)
    ensures CleanNames(properties, names, depth)
    decreases Budget(depth), 0
  {
    forall n | n in names && n.Str? && Get(properties, n.s).Some?
      ensures n.s !in R.MARKER_KEYS && CleanSources(Get(properties, n.s).value, depth + 1)
    {
      assert CleanField(properties[Find(properties, n.s)]);
      FreeSchemaIsClean(Get(properties, n.s).value, depth + 1);
    }
  }

  lemma FreeLookup(raw: seq<Field>, key: string)
    requires R.MarkerFree(Obj(raw)) && Get(raw, key).Some?
    ensures R.MarkerFree(Get(raw, key).value)
    ensures forall c :: c in Children(Get(raw, key).value) ==> R.MarkerFree(c)
  {
    FreeByField(raw);
    assert CleanField(raw[Find(raw, key)]);
  }

  lemma FreeDocumented(raw: seq<Field>)
    requires R.MarkerFree(Obj(raw)) && Documented(raw)
    ensures R.MarkerFree(DocumentedValue(raw))
  {
    if Get(raw, "example").Some? {
      FreeLookup(raw, "example");
    } else if Get(raw, "default").Some? {
      FreeLookup(raw, "default");
    } else {
      FreeLookup(raw, "enum");
      assert Children(Get(raw, "enum").value) == Lookup(raw, "enum").items;
      assert Lookup(raw, "enum").items[0] in Lookup(raw, "enum").items;
    }
  }

  lemma FreeFieldSource(raw: seq<Field>)
    requires R.MarkerFree(Obj(raw)) && FieldSource(raw).FieldsFrom?
    ensures forall f :: f in FieldSource(raw).properties ==> CleanField(f)
  {
    var kind := Lookup(raw, "type");
    if kind == Str("object") || (kind == Null && Get(raw, "properties").Some?) {
      if Get(raw, "properties").Some? {
        FreeLookup(raw, "properties");
        FreeByField(PropertiesOf(raw));
      }
    } else {
      FreeLookup(raw, "allOf");
      var subs := Lookup(raw, "allOf").items;
      assert Children(Get(raw, "allOf").value) == subs;
      FreeMerge(subs);
    }
  }

  lemma {:induction false} FreeMerge(subs: seq<Value>)
    requires Merge(subs).Merged? && forall c :: c in subs ==> R.MarkerFree(c)
    ensures forall f :: f in Merge(subs).properties ==> CleanField(f)
  {
    if |subs| > 0 {
      var last := subs[|subs| - 1];
      FreeMerge(subs[..|subs| - 1]);
      var p := BranchProperties(last.fields).value;
      if Get(last.fields, "properties").Some? {
        FreeLookup(last.fields, "properties");
        FreeByField(p);
      }
      FreeUpdate(Merge(subs[..|subs| - 1]).properties, p);
    }
  }

  lemma {:induction false} FreeUpdate(d: seq<Field>, fields: seq<Field>)
    requires (forall f :: f in d ==> CleanField(f)) && forall f :: f in fields ==> CleanField(f)
    ensures forall f :: f in Update(d, fields) ==> CleanField(f)
    decreases |fields|
  {
    if |fields| > 0 {
      PutFields(d, fields[0].key, fields[0].value);
      assert fields[0] in fields;
      FreeUpdate(Put(d, fields[0].key, fields[0].value), fields[1..]);
    }
  }

  lemma {:induction false} NoMarkersIsFree(v: Value)
    requires R.Markers(v) == []
    ensures R.MarkerFree(v)
  {
    NoMarkersBelow(v, Children(v));
    forall c | c in Children(v) ensures R.MarkerFree(c) {
      NoMarkersIsFree(c);
    }
  }

  lemma {:induction false} NoMarkersBelow(parent: Value, vs: seq<Value>)
    requires (forall c :: c in vs ==> c < parent) && R.MarkersOfAll(parent, vs) == []
    ensures forall c :: c in vs ==> R.Markers(c) == []
  {
    if |vs| > 0 {
      assert forall c :: c in vs[1..] ==> c in vs;
      NoMarkersBelow(parent, vs[1..]);
      assert forall c :: c in vs ==> c == vs[0] || c in vs[1..];
    }
  }

  lemma {:induction false} SubtreeIsFree(v: Value, x: Value)
    requires R.MarkerFree(v) && x in R.Subtrees(v)
    ensures R.MarkerFree(x)
  {
    if x != v {
      var c :| c in Children(v) && x in R.Subtrees(c);
      SubtreeIsFree(c, x);
    }
  }

  /** Without warnings the result is free of markers, like the document. `resolve_internal_refs`
      starts at level 0; starting deeper only brings the depth limit nearer. */
  lemma CleanResultIsFree(doc: Value, level: nat)
    requires R.MarkerFree(doc) && R.Walk(doc, doc, [], level).warnings == []
    ensures R.MarkerFree(R.Walk(doc, doc, [], level).value)
  {
    R.MarkersMatchWarnings(doc, doc, [], level);
    assert R.MarkersOf([]) == [];
    NoMarkersIsFree(R.Walk(doc, doc, [], level).value);
  }

  /** Inlining and generation together: from a document that is inlined without a warning no
      generated value, of whatever schema in the result, holds a marker. */
  lemma CleanDocumentCleanData(doc: Value, level: nat, schema: Value, depth: nat, text: TextNumbers)
    requires R.MarkerFree(doc)
    ensures R.Walk(doc, doc, [], level).warnings == [] && schema in R.Subtrees(R.Walk(doc, doc, [], level).value) &&
            GenerateValue(schema, depth, text).Made? && GenerateValue(schema, depth, text).confident ==>
              R.MarkerFree(GenerateValue(schema, depth, text).value)
  {
    var w := R.Walk(doc, doc, [], level);
    if w.warnings == [] && schema in R.Subtrees(w.value) &&
       GenerateValue(schema, depth, text).Made? && GenerateValue(schema, depth, text).confident
    {
      CleanResultIsFree(doc, level);
      SubtreeIsFree(w.value, schema);
      FreeSchemaIsClean(schema, depth);
      MarkersComeFromSources(schema, depth, text);
    }
  }

  // ---------------------------------------------------------------- with warnings

  const DANGLING := Obj([Field("$ref", Str("x"))])

  lemma DanglingBecomesMarker(doc: Value, depth: nat)
    requires depth <= R.MAX_REF_DEPTH
    ensures R.Walk(doc, DANGLING, [], depth) == R.Walked(R.UnresolvedMarker("x"), [R.Unresolvable("x")])
  {
    assert R.RefOf(DANGLING) == Some("x");
    R.Dangling(doc, DANGLING, "x", depth);
  }

  function ObjectWithExample(example: Value): Value { Obj([Field("type", Str("object")), Field("example", example)]) }

  /** An example that could not be resolved becomes a marker, and the generator is confident of
      it: it conforms to its schema, is well-shaped, and passes the checker. */
  lemma DocumentedMarkerIsConfident(doc: Value, text: TextNumbers, path: string)
    ensures var schema := R.Walk(doc, ObjectWithExample(DANGLING), [], 0);
            schema == R.Walked(ObjectWithExample(R.UnresolvedMarker("x")), [R.Unresolvable("x")]) &&
            GenerateValue(schema.value, 0, text) == Made(R.UnresolvedMarker("x"), true) &&
            Conforms(schema.value, true) && Shaped(schema.value, true) &&
            Check(R.UnresolvedMarker("x"), schema.value, path, []) == Errors([]) &&
            !R.MarkerFree(R.UnresolvedMarker("x"))
  {
    WalkExample(doc, 0);
    ExampleIsCopied(R.UnresolvedMarker("x"), text, path);
    assert R.UnresolvedMarker("x").fields[0].key in R.MARKER_KEYS;
  }

  lemma ExampleRebuilt(a: Value, b: Value)
    ensures R.RefOf(ObjectWithExample(a)).None? && Children(ObjectWithExample(a)) == [Str("object"), a]
    ensures WithChildren(ObjectWithExample(a), [Str("object"), b]) == ObjectWithExample(b)
  {
    NoKey(ObjectWithExample(a).fields, "$ref");
  }

  lemma WalkExample(doc: Value, depth: nat)
    requires depth < R.MAX_REF_DEPTH
    ensures R.Walk(doc, ObjectWithExample(DANGLING), [], depth) == R.Walked(ObjectWithExample(R.UnresolvedMarker("x")), [R.Unresolvable("x")])
  {
    var marker := R.UnresolvedMarker("x");
    ExampleRebuilt(DANGLING, marker);
    R.WalkText(doc, "object", [], depth + 1);
    DanglingBecomesMarker(doc, depth + 1);
    TwoChildren(doc, ObjectWithExample(DANGLING), Str("object"), DANGLING, marker, [R.Unresolvable("x")], depth);
  }

  /** One level of a walk: a node whose first child is kept and whose second is replaced. */
  lemma TwoChildren(doc: Value, node: Value, kept: Value, child: Value, changed: Value, ws: seq<R.Warning>, depth: nat)
    requires depth <= R.MAX_REF_DEPTH && R.RefOf(node).None? && Children(node) == [kept, child]
    requires R.Walk(doc, kept, [], depth + 1) == R.Walked(kept, []) && R.Walk(doc, child, [], depth + 1) == R.Walked(changed, ws)
    ensures R.Walk(doc, node, [], depth) == R.Walked(WithChildren(node, [kept, changed]), ws)
  {
    R.WalkPair(doc, kept, child, [], depth + 1);
    assert [] + ws == ws;
  }

  lemma OneChild(doc: Value, node: Value, child: Value, changed: Value, ws: seq<R.Warning>, depth: nat)
    requires depth <= R.MAX_REF_DEPTH && R.RefOf(node).None? && Children(node) == [child]
    requires R.Walk(doc, child, [], depth + 1) == R.Walked(changed, ws)
    ensures R.Walk(doc, node, [], depth) == R.Walked(WithChildren(node, [changed]), ws)
  {
    R.WalkAllSnoc(doc, [], child, [], depth + 1);
    assert [] + [child] == [child] && [] + [changed] == [changed] && [] + ws == ws;
    assert R.WalkAll(doc, [], [], depth + 1) == R.Walked([], []);
  }

  lemma ExampleIsCopied(example: Value, text: TextNumbers, path: string)
    requires example.Obj?
    ensures var schema := ObjectWithExample(example);
            GenerateValue(schema, 0, text) == Made(example, true) && Conforms(schema, true) && Shaped(schema, true) &&
            Check(example, schema, path, []) == Errors([])
  {
    var raw := ObjectWithExample(example).fields;
    GetFirst(raw, "type", 0);
    GetFirst(raw, "example", 1);
    NoKey(raw, "default");
    NoKey(raw, "enum");
    NoKey(raw, "properties");
    NoKey(raw, "required");
    NoKey(raw, "items");
    NoKey(raw, "allOf");
  }

  function OnlyBranch(branch: Value): Value { Obj([Field("allOf", Arr([branch]))]) }

  /** An unresolved branch is no obstacle: the answer is an empty object, with confidence. */
  lemma UnresolvedBranchIsConfident(doc: Value, text: TextNumbers)
    ensures var schema := R.Walk(doc, OnlyBranch(DANGLING), [], 0);
            schema == R.Walked(OnlyBranch(R.UnresolvedMarker("x")), [R.Unresolvable("x")]) &&
            GenerateValue(schema.value, 0, text) == Made(Obj([]), true)
  {
    WalkBranch(doc, 0);
    MarkersAreMarkers(R.Unresolvable("x"));
    MarkerBranchOnly(R.UnresolvedMarker("x"), text);
  }

  lemma MarkerBranchOnly(marker: Value, text: TextNumbers)
    requires IsMarker(marker)
    ensures GenerateValue(OnlyBranch(marker), 0, text) == Made(Obj([]), true)
  {
    var raw := OnlyBranch(marker).fields;
    GetFirst(raw, "allOf", 0);
    Undocumented(raw);
    NoKey(raw, "type");
    NoKey(raw, "properties");
    assert ConsultsBranches(raw);
    ConsultedBranches(Obj(raw), 0, text);
    MarkerBranchesAreDropped([marker], 0, text);
    assert WithoutMarkers([marker]) == [];
  }

  lemma BranchRebuilt(a: Value, b: Value)
    ensures R.RefOf(OnlyBranch(a)).None? && Children(OnlyBranch(a)) == [Arr([a])]
    ensures WithChildren(OnlyBranch(a), [Arr([b])]) == OnlyBranch(b)
  {
    NoKey(OnlyBranch(a).fields, "$ref");
  }

  lemma WalkBranch(doc: Value, depth: nat)
    requires depth + 1 < R.MAX_REF_DEPTH
    ensures R.Walk(doc, OnlyBranch(DANGLING), [], depth) == R.Walked(OnlyBranch(R.UnresolvedMarker("x")), [R.Unresolvable("x")])
  {
    var marker, ws := R.UnresolvedMarker("x"), [R.Unresolvable("x")];
    BranchRebuilt(DANGLING, marker);
    DanglingBecomesMarker(doc, depth + 2);
    OneChild(doc, Arr([DANGLING]), DANGLING, marker, ws, depth + 1);
    OneChild(doc, OnlyBranch(DANGLING), Arr([DANGLING]), Arr([marker]), ws, depth);
  }
}
