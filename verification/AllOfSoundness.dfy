/** `_generate_all_of` of `adapters/rest/request_data.py`: when the branches of an `allOf` are
    looked at, and what data made from them satisfies. */
module AllOfSoundness {
  import opened Values
  import opened Schema
  import opened MinimalSchema
  import opened RequestData
  import opened GeneratorSoundness

  ghost predicate HasProperty(sub: Value, f: Field) {
    sub.Obj? && BranchProperties(sub.fields).Some? && f in BranchProperties(sub.fields).value
  }

  /** Two branches that define the same property give it the same schema. */
  ghost predicate Agree(a: Value, b: Value) {
    forall f, g :: HasProperty(a, f) && HasProperty(b, g) && f.key == g.key ==> f.value == g.value
  }

  ghost predicate Agreeing(subs: seq<Value>) {
    forall i, j {:trigger Agree(subs[i], subs[j])} :: 0 <= i < |subs| && 0 <= j < |subs| ==> Agree(subs[i], subs[j])
  }

  lemma {:induction false} UpdateGets(d: seq<Field>, fields: seq<Field>, key: string)
    ensures Get(Update(d, fields), key).Some? <==> Get(d, key).Some? || exists f :: f in fields && f.key == key
    ensures Get(Update(d, fields), key).Some? ==>
              Get(d, key) == Get(Update(d, fields), key) || Field(key, Get(Update(d, fields), key).value) in fields
    decreases |fields|
  {
    if |fields| > 0 {
      GetAfterPut(d, fields[0].key, fields[0].value, key);
      UpdateGets(Put(d, fields[0].key, fields[0].value), fields[1..], key);
      assert forall f :: f in fields <==> f == fields[0] || f in fields[1..];
    }
  }

  /** What the merged schema contains: every required name of every branch, and exactly the
      branches' properties. */
  lemma {:induction false} MergeCollects(subs: seq<Value>)
    requires Merge(subs).Merged?
    ensures forall i :: 0 <= i < |subs| ==> subs[i].Obj? && BranchProperties(subs[i].fields).Some? && BranchRequired(subs[i].fields).Some?
    ensures forall i, n :: 0 <= i < |subs| && n in BranchRequired(subs[i].fields).value ==> n in Merge(subs).required
    ensures forall i, f :: 0 <= i < |subs| && HasProperty(subs[i], f) ==> Get(Merge(subs).properties, f.key).Some?
    ensures forall key :: Get(Merge(subs).properties, key).Some? ==>
              exists i :: 0 <= i < |subs| && HasProperty(subs[i], Field(key, Get(Merge(subs).properties, key).value))
  {
    if |subs| > 0 {
      var init := subs[..|subs| - 1];
      var last := subs[|subs| - 1];
      var before := Merge(init);
      MergeCollects(init);
      var p := BranchProperties(last.fields).value;
      assert forall i :: 0 <= i < |subs| ==> subs[i] == if i < |init| then init[i] else last;
      forall key ensures
          var now := Get(Merge(subs).properties, key);
          (now.Some? <==> Get(before.properties, key).Some? || exists f :: f in p && f.key == key) &&
          (now.Some? ==> exists i :: 0 <= i < |subs| && HasProperty(subs[i], Field(key, now.value)))
      {
        UpdateGets(before.properties, p, key);
        var now := Get(Merge(subs).properties, key);
        if now.Some? && Field(key, now.value) in p {
          assert HasProperty(subs[|init|], Field(key, now.value));
        }
      }
    }
  }

  /** An `allOf` of object schemas that agree on shared properties yields, when confident, a
      dict with every field any branch requires. A branch accepts it, always when it has no type
      of its own, and exactly when its keywords are proper when its type is "object". */
  lemma AllOfPassesEveryBranch(subs: seq<Value>, depth: nat, text: TextNumbers, at: nat, deep: bool)
    requires depth <= MAX_DEPTH && Agreeing(subs) && BranchesConform(subs, deep) && PropertiesAreShaped(subs, deep)
    requires var r := GenerateAllOf(subs, depth, text); r.Made? && r.confident
    requires at < |subs| && subs[at].Obj? && Lookup(subs[at].fields, "type") in {Null, Str("object")}
    ensures var v := GenerateAllOf(subs, depth, text).value;
            v.Obj? && HasAll(v.fields, BranchRequired(subs[at].fields)) &&
            (Accepts(v, subs[at], deep) <==> Lookup(subs[at].fields, "type") == Null || ProperKeywords(subs[at].fields))
  {
    AllOfFields(subs, depth, text, deep);
    var v := GenerateAllOf(subs, depth, text).value;
    BranchHasAll(subs, at, v.fields);
    DictIsAccepted(v, subs[at], deep);
    if ProperKeywords(subs[at].fields) {
      TypedBranchAccepts(subs, at, v, deep);
    }
  }

  /** What a schema without a type, or with type "object", asks of a dict. */
  lemma DictIsAccepted(v: Value, schema: Value, deep: bool)
    requires v.Obj? && schema.Obj? && Lookup(schema.fields, "type") in {Null, Str("object")}
    ensures Accepts(v, schema, deep) <==> Lookup(schema.fields, "type") == Null || AcceptsFields(v, schema.fields, deep)
  {
  }

  lemma TypedBranchAccepts(subs: seq<Value>, at: nat, v: Value, deep: bool)
    requires Merge(subs).Merged? && Agreeing(subs) && PropertiesAreShaped(subs, deep) && at < |subs| && subs[at].Obj?
    requires v.Obj? && Linked(v.fields, Merge(subs).properties, deep) && HasAll(v.fields, BranchRequired(subs[at].fields))
    requires ProperKeywords(subs[at].fields)
    ensures AcceptsFields(v, subs[at].fields, deep)
  {
    var raw := subs[at].fields;
    forall key | Get(v.fields, key).Some? && HasProperty(Obj(raw), Field(key, Lookup(PropertiesOf(raw), key)))
      ensures Accepts(Get(v.fields, key).value, Lookup(PropertiesOf(raw), key), deep)
    {
      MergedProperty(subs, at, key);
    }
    BranchAccepts(raw, v, deep);
  }

  ghost predicate BranchesConform(subs: seq<Value>, deep: bool) {
    forall i :: 0 <= i < |subs| ==> Conforms(subs[i], deep)
  }

  /** Whatever property a branch defines is well-shaped. */
  ghost predicate PropertiesAreShaped(subs: seq<Value>, deep: bool) {
    forall i, f :: 0 <= i < |subs| && HasProperty(subs[i], f) ==> Shaped(f.value, deep)
  }

  lemma BranchHasAll(subs: seq<Value>, at: nat, fields: seq<Field>)
    requires Merge(subs).Merged? && HasAll(fields, Some(Merge(subs).required)) && at < |subs|
    ensures subs[at].Obj? && HasAll(fields, BranchRequired(subs[at].fields))
  {
    MergeCollects(subs);
  }

  ghost predicate HasAll(fields: seq<Field>, names: Option<seq<Value>>) {
    names.Some? && forall n :: n in names.value ==> n.Str? && Get(fields, n.s).Some?
  }

  lemma AllOfFields(subs: seq<Value>, depth: nat, text: TextNumbers, deep: bool)
    requires depth <= MAX_DEPTH && BranchesConform(subs, deep)
    requires var r := GenerateAllOf(subs, depth, text); r.Made? && r.confident
    ensures var v := GenerateAllOf(subs, depth, text).value;
            Merge(subs).Merged? && v.Obj? && Linked(v.fields, Merge(subs).properties, deep) &&
            HasAll(v.fields, Some(Merge(subs).required))
  {
    forall i | 0 <= i < |Merge(subs).properties| ensures Conforms(Merge(subs).properties[i].value, deep) {
      MergedConform(subs, i, deep);
    }
    FilledFields(Merge(subs).properties, Merge(subs).required, [], depth, text, deep);
  }

  /** With agreeing branches the merged schema of a property is every branch's schema of it. */
  lemma MergedProperty(subs: seq<Value>, at: nat, key: string)
    requires Merge(subs).Merged? && Agreeing(subs) && at < |subs|
    requires subs[at].Obj? && HasProperty(subs[at], Field(key, Lookup(PropertiesOf(subs[at].fields), key)))
    ensures Get(Merge(subs).properties, key) == Some(Lookup(PropertiesOf(subs[at].fields), key))
  {
    MergeCollects(subs);
    var mine := Field(key, Lookup(PropertiesOf(subs[at].fields), key));
    assert HasProperty(subs[at], mine);
    var merged := Field(key, Get(Merge(subs).properties, key).value);
    var j :| 0 <= j < |subs| && HasProperty(subs[j], merged);
    assert Agree(subs[j], subs[at]);
  }

  lemma BranchAccepts(raw: seq<Field>, v: Value, deep: bool)
    requires v.Obj? && RequiredNames(raw).Some? && HasAll(v.fields, BranchRequired(raw))
    requires Get(raw, "properties").Some? ==> Get(raw, "properties").value.Obj?
    requires forall key :: Get(v.fields, key).Some? && HasProperty(Obj(raw), Field(key, Lookup(PropertiesOf(raw), key))) ==>
               Accepts(Get(v.fields, key).value, Lookup(PropertiesOf(raw), key), deep)
    ensures AcceptsFields(v, raw, deep)
  {
    assert forall n :: n in RequiredNames(raw).value ==> n in BranchRequired(raw).value;
    forall i | 0 <= i < |v.fields| && Lookup(raw, "properties").Obj? && Get(v.fields, v.fields[i].key) == Some(v.fields[i].value)
      ensures var sub := Get(Lookup(raw, "properties").fields, v.fields[i].key);
              sub.Some? ==> Accepts(v.fields[i].value, sub.value, deep)
    {
      var key := v.fields[i].key;
      var mine := PropertiesOf(raw);
      assert Lookup(raw, "properties").fields == mine;
      if Get(mine, key).Some? {
        assert Field(key, Lookup(mine, key)) in mine;
        assert HasProperty(Obj(raw), Field(key, Lookup(mine, key)));
      }
    }
  }

  /** A property can only enter the merged dict from a branch, and the branches conform. */
  lemma {:induction false} MergedConform(subs: seq<Value>, at: nat, deep: bool)
    requires Merge(subs).Merged? && at < |Merge(subs).properties| && BranchesConform(subs, deep)
    ensures Conforms(Merge(subs).properties[at].value, deep)
  {
    if |subs| > 0 {
      var init := subs[..|subs| - 1];
      var last := subs[|subs| - 1];
      forall i | 0 <= i < |Merge(init).properties| ensures Conforms(Merge(init).properties[i].value, deep) {
        MergedConform(init, i, deep);
      }
      assert Conforms(last, deep);
      UpdateConforms(Merge(init).properties, BranchProperties(last.fields).value, deep);
    }
  }

  lemma {:induction false} UpdateConforms(d: seq<Field>, fields: seq<Field>, deep: bool)
    requires AllConform(d, deep) && AllConform(fields, deep)
    ensures AllConform(Update(d, fields), deep)
    decreases |fields|
  {
    if |fields| > 0 {
      PutConforms(d, fields[0].key, fields[0].value, deep);
      UpdateConforms(Put(d, fields[0].key, fields[0].value), fields[1..], deep);
    }
  }

  lemma {:induction false} PutConforms(d: seq<Field>, key: string, value: Value, deep: bool)
    requires AllConform(d, deep) && Conforms(value, deep)
    ensures AllConform(Put(d, key, value), deep)
  {
    if |d| > 0 && d[0].key != key {
      PutConforms(d[1..], key, value, deep);
    }
  }

  // ---------------------------------------------------------------- schemas with an allOf

  const HANDLED_TYPES: set<Value> := {Str("string"), Str("integer"), Str("number"), Str("boolean"), Str("array"), Str("object")}

  /** When `generate_value` gets as far as the `allOf`: the schema documents no value, its type is
      none of the six it handles, and it is not an untyped schema with properties. */
  predicate ConsultsBranches(raw: seq<Field>) {
    !Documented(raw) && Lookup(raw, "allOf").Arr? && Lookup(raw, "type") !in HANDLED_TYPES &&
    !(Lookup(raw, "type") == Null && Get(raw, "properties").Some?)
  }

  lemma ConsultedBranches(schema: Value, depth: nat, text: TextNumbers)
    requires schema.Obj? && depth <= MAX_DEPTH && ConsultsBranches(schema.fields)
    ensures GenerateValue(schema, depth, text) == GenerateAllOf(Lookup(schema.fields, "allOf").items, depth, text)
  {
  }

  /** In all other cases the branches make no difference: any others give the same answer. */
  lemma IgnoredBranches(schema: Value, others: seq<Value>, depth: nat, text: TextNumbers)
    requires schema.Obj? && Lookup(schema.fields, "allOf").Arr? && !ConsultsBranches(schema.fields)
    ensures GenerateValue(Obj(Put(schema.fields, "allOf", Arr(others))), depth, text) == GenerateValue(schema, depth, text)
  {
    var raw := schema.fields;
    var changed := Put(raw, "allOf", Arr(others));
    forall key | key != "allOf" ensures Get(changed, key) == Get(raw, key) {
      GetAfterPut(raw, "allOf", Arr(others), key);
    }
    if depth <= MAX_DEPTH && !Documented(raw) {
      SameByType(raw, changed, depth, text);
    }
  }

  ghost predicate SameKeywords(a: seq<Field>, b: seq<Field>) {
    forall key :: key != "allOf" ==> Get(a, key) == Get(b, key)
  }

  lemma SameByType(a: seq<Field>, b: seq<Field>, depth: nat, text: TextNumbers)
    requires SameKeywords(a, b) && depth <= MAX_DEPTH
    requires Lookup(a, "type") in HANDLED_TYPES || (Lookup(a, "type") == Null && Get(a, "properties").Some?)
    ensures GenerateByType(a, depth, text) == GenerateByType(b, depth, text)
  {
    var kind := Lookup(a, "type");
    assert Get(a, "type") == Get(b, "type") && Get(a, "properties") == Get(b, "properties");
    if kind == Null || kind == Str("object") {
      SameObject(a, b, depth, text);
      assert GenerateByType(a, depth, text) == GenerateObject(a, depth, text);
    } else if kind == Str("array") {
      SameArray(a, b, depth, text);
      assert GenerateByType(a, depth, text) == GenerateArray(a, depth, text);
    } else {
      SameScalar(a, b, depth, text);
    }
  }

  lemma SameScalar(a: seq<Field>, b: seq<Field>, depth: nat, text: TextNumbers)
    requires SameKeywords(a, b) && depth <= MAX_DEPTH
    requires Lookup(a, "type") in {Str("string"), Str("integer"), Str("number"), Str("boolean")}
    ensures GenerateByType(a, depth, text) == GenerateByType(b, depth, text)
  {
    assert Get(a, "type") == Get(b, "type") && Get(a, "format") == Get(b, "format") && Get(a, "minimum") == Get(b, "minimum");
  }

  lemma SameObject(a: seq<Field>, b: seq<Field>, depth: nat, text: TextNumbers)
    requires SameKeywords(a, b) && depth <= MAX_DEPTH
    ensures GenerateObject(a, depth, text) == GenerateObject(b, depth, text)
  {
    assert Get(a, "properties") == Get(b, "properties") && Get(a, "required") == Get(b, "required");
    assert PropertiesOf(a) == PropertiesOf(b) && RequiredNames(a) == RequiredNames(b);
  }

  lemma SameArray(a: seq<Field>, b: seq<Field>, depth: nat, text: TextNumbers)
    requires SameKeywords(a, b) && depth <= MAX_DEPTH
    ensures GenerateArray(a, depth, text) == GenerateArray(b, depth, text)
  {
    assert Get(a, "minItems") == Get(b, "minItems") && Get(a, "items") == Get(b, "items");
    assert forall minItems :: GenerateItems(a, minItems, depth, text) == GenerateItems(b, minItems, depth, text);
  }

  /** A schema with an `allOf` whose branches are consulted: a confident value passes every branch
      that has proper keywords, given agreeing branches with well-shaped properties. */
  lemma SchemaPassesEveryBranch(schema: Value, depth: nat, text: TextNumbers, at: nat, deep: bool)
    requires schema.Obj? && Conforms(schema, deep) && ConsultsBranches(schema.fields)
    requires var r := GenerateValue(schema, depth, text); r.Made? && r.confident
    requires var subs := Lookup(schema.fields, "allOf").items;
             Agreeing(subs) && PropertiesAreShaped(subs, deep) && at < |subs| && subs[at].Obj? &&
             Lookup(subs[at].fields, "type") in {Null, Str("object")}
    ensures var v, branch := GenerateValue(schema, depth, text).value, Lookup(schema.fields, "allOf").items[at];
            v.Obj? && HasAll(v.fields, BranchRequired(branch.fields)) &&
            (Accepts(v, branch, deep) <==> Lookup(branch.fields, "type") == Null || ProperKeywords(branch.fields))
  {
    var subs := Lookup(schema.fields, "allOf").items;
    assert Get(schema.fields, "allOf") == Some(Arr(subs));
    assert BranchesConform(subs, deep);
    ConsultedBranches(schema, depth, text);
    AllOfPassesEveryBranch(subs, depth, text, at, deep);
  }

  /** Branches that are object schemas with proper keywords and agree with each other. */
  ghost predicate Suitable(subs: seq<Value>, deep: bool) {
    BranchesConform(subs, deep) && Agreeing(subs) && PropertiesAreShaped(subs, deep) &&
    forall i :: 0 <= i < |subs| ==>
      subs[i].Obj? && Lookup(subs[i].fields, "type") == Str("object") && ProperKeywords(subs[i].fields)
  }

  ghost predicate PassesAll(r: Generated, subs: seq<Value>, deep: bool) {
    r.Made? && r.confident ==> forall i :: 0 <= i < |subs| ==> Accepts(r.value, subs[i], deep)
  }

  /** Whatever suitable branches the schema is given, a confident value passes all of them. */
  ghost predicate EveryBranchPasses(raw: seq<Field>, depth: nat, text: TextNumbers, deep: bool) {
    forall subs {:trigger Suitable(subs, deep)} ::
      Suitable(subs, deep) ==> PassesAll(GenerateValue(Obj(Put(raw, "allOf", Arr(subs))), depth, text), subs, deep)
  }

  /** The guard is exact: for a schema with an `allOf` and a confident answer, the branches are
      consulted if and only if a confident value passes all suitable branches. */
  lemma ConsultedExactly(raw: seq<Field>, depth: nat, text: TextNumbers, deep: bool)
    requires Lookup(raw, "allOf").Arr?
    requires var r := GenerateValue(Obj(raw), depth, text); r.Made? && r.confident
    ensures ConsultsBranches(raw) <==> EveryBranchPasses(raw, depth, text, deep)
  {
    if ConsultsBranches(raw) {
      forall subs | Suitable(subs, deep)
        ensures PassesAll(GenerateValue(Obj(Put(raw, "allOf", Arr(subs))), depth, text), subs, deep)
      {
        ConsultedPasses(raw, subs, depth, text, deep);
      }
    } else {
      var v := GenerateValue(Obj(raw), depth, text).value;
      var needed := FreshKey(if v.Obj? then v.fields else []);
      NeedsIsSuitable(needed, deep);
      IgnoredBranches(Obj(raw), [Needs(needed)], depth, text);
      NeedsRejects(v, needed, deep);
      assert !Accepts(v, [Needs(needed)][0], deep);
    }
  }

  lemma ConsultedPasses(raw: seq<Field>, subs: seq<Value>, depth: nat, text: TextNumbers, deep: bool)
    requires ConsultsBranches(raw) && Suitable(subs, deep)
    ensures PassesAll(GenerateValue(Obj(Put(raw, "allOf", Arr(subs))), depth, text), subs, deep)
  {
    var changed := Put(raw, "allOf", Arr(subs));
    forall key ensures Get(changed, key) == if key == "allOf" then Some(Arr(subs)) else Get(raw, key) {
      GetAfterPut(raw, "allOf", Arr(subs), key);
    }
    var r := GenerateValue(Obj(changed), depth, text);
    if r.Made? && r.confident {
      ConsultedBranches(Obj(changed), depth, text);
      forall i | 0 <= i < |subs| ensures Accepts(r.value, subs[i], deep) {
        AllOfPassesEveryBranch(subs, depth, text, i, deep);
      }
    }
  }

  /** An object schema that only requires one name. */
  function Needs(name: string): Value {
    Obj([Field("type", Str("object")), Field("required", Arr([Str(name)]))])
  }

  /** A name longer than every key. */
  function FreshKey(fields: seq<Field>): (r: string)
    ensures |r| > 0 && forall f :: f in fields ==> |f.key| < |r|
  {
    if |fields| == 0 then "x" else fields[0].key + FreshKey(fields[1..])
  }

  lemma NeedsKeywords(name: string)
    ensures var raw := Needs(name).fields;
            Lookup(raw, "type") == Str("object") && Lookup(raw, "required") == Arr([Str(name)]) &&
            forall key :: key !in {"type", "required"} ==> Get(raw, key).None?
  {
    var raw := Needs(name).fields;
    GetFirst(raw, "type", 0);
    GetFirst(raw, "required", 1);
    forall key | key !in {"type", "required"} ensures Get(raw, key).None? {
      NoKey(raw, key);
    }
  }

  lemma NeedsIsSuitable(name: string, deep: bool)
    ensures Suitable([Needs(name)], deep)
  {
    NeedsKeywords(name);
    NoPropertiesAgree(Needs(name));
  }

  lemma NeedsRejects(v: Value, name: string, deep: bool)
    requires v.Obj? ==> Get(v.fields, name).None?
    ensures !Accepts(v, Needs(name), deep)
  {
    NeedsKeywords(name);
    if v.Obj? {
      assert RequiredNames(Needs(name).fields) == Some([Str(name)]);
      assert Str(name) in [Str(name)];
    }
  }

  const NEEDS_A := Needs("a")

  /** The guard is needed: next to type "object" the branches are ignored, and the confident value
      lacks what the only one of them requires. */
  lemma IgnoredBranch(text: TextNumbers, path: string)
    ensures var schema := Obj([Field("type", Str("object")), Field("allOf", Arr([NEEDS_A]))]);
            GenerateValue(schema, 0, text) == Made(Obj([]), true) && Agreeing([NEEDS_A]) &&
            Check(Obj([]), schema, path, []) == Errors([]) &&
            Check(Obj([]), NEEDS_A, path, []) == Errors([MissingField(path, Str("a"))])
  {
    ObjectWithAllOf([NEEDS_A], path, text);
    NeedsA(path);
    NoKey(NEEDS_A.fields, "properties");
    NoPropertiesAgree(NEEDS_A);
  }

  lemma NoPropertiesAgree(branch: Value)
    requires forall f :: !HasProperty(branch, f)
    ensures Agreeing([branch])
  {
  }

  lemma ObjectWithAllOf(subs: seq<Value>, path: string, text: TextNumbers)
    ensures var schema := Obj([Field("type", Str("object")), Field("allOf", Arr(subs))]);
            GenerateValue(schema, 0, text) == Made(Obj([]), true) && Check(Obj([]), schema, path, []) == Errors([])
  {
    var raw := [Field("type", Str("object")), Field("allOf", Arr(subs))];
    GetFirst(raw, "type", 0);
    Undocumented(raw);
    NoKey(raw, "required");
    NoKey(raw, "properties");
    assert GenerateByType(raw, 0, text) == GenerateObject(raw, 0, text) == Made(Obj([]), true);
  }

  lemma NeedsA(path: string)
    ensures Check(Obj([]), NEEDS_A, path, []) == Errors([MissingField(path, Str("a"))])
  {
    GetFirst(NEEDS_A.fields, "type", 0);
    GetFirst(NEEDS_A.fields, "required", 1);
    NoKey(NEEDS_A.fields, "properties");
    assert [Str("a")][1..] == [];
    assert CheckRequired([], [Str("a")], path, []) == CheckRequired([], [], path, [MissingField(path, Str("a"))]);
  }
}
