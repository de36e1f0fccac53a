/** `generate_value` of `adapters/rest/request_data.py`: exactly when its answer is confident, and
    what the value then is. */
module Confidence {
  import opened Values
  import opened Text
  import opened Schema
  import opened RequestData
  import opened GeneratorSoundness

  // ---------------------------------------------------------------- allOf

  /** The last field with the key. */
  function LastValue(fields: seq<Field>, key: string): Option<Value> {
    if |fields| == 0 then None
    else if fields[|fields| - 1].key == key then Some(fields[|fields| - 1].value)
    else LastValue(fields[..|fields| - 1], key)
  }

  /** A branch that can be merged: a dict whose "properties" are falsy or a dict, and whose "required"
      is falsy or can be gone through. */
  predicate IsBranch(sub: Value) {
    sub.Obj? && (Truthy(Lookup(sub.fields, "properties")) ==> Lookup(sub.fields, "properties").Obj?) &&
    (Truthy(Lookup(sub.fields, "required")) ==> Iterate(Lookup(sub.fields, "required")).Some?)
  }

  /** The last branch that defines a property decides about it. */
  function PropertyOf(subs: seq<Value>, key: string): Option<Value> {
    if |subs| == 0 then None
    else
      var last := subs[|subs| - 1];
      var mine := if last.Obj? && Lookup(last.fields, "properties").Obj? then LastValue(Lookup(last.fields, "properties").fields, key) else None;
      if mine.Some? then mine else PropertyOf(subs[..|subs| - 1], key)
  }

  /** Some branch requires it. */
  ghost predicate IsRequired(subs: seq<Value>, name: Value) {
    exists i :: 0 <= i < |subs| && Requires(subs[i], name)
  }

  predicate Requires(sub: Value, name: Value) {
    sub.Obj? && Truthy(Lookup(sub.fields, "required")) && Iterate(Lookup(sub.fields, "required")).Some? &&
    name in Iterate(Lookup(sub.fields, "required")).value
  }

  lemma {:induction false} UpdateTakesLast(d: seq<Field>, fields: seq<Field>, key: string)
    ensures Get(Update(d, fields), key) == if LastValue(fields, key).Some? then LastValue(fields, key) else Get(d, key)
    decreases |fields|
  {
    if |fields| > 0 {
      var init, last := fields[..|fields| - 1], fields[|fields| - 1];
      assert fields == init + [last];
      UpdateSnoc(d, init, last);
      UpdateTakesLast(d, init, key);
      GetAfterPut(Update(d, init), last.key, last.value, key);
    }
  }

  lemma {:induction false} UpdateSnoc(d: seq<Field>, init: seq<Field>, last: Field)
    ensures Update(d, init + [last]) == Put(Update(d, init), last.key, last.value)
    decreases |init|
  {
    if |init| == 0 {
      assert init + [last] == [last] && [last][1..] == [];
    } else {
      assert (init + [last])[1..] == init[1..] + [last];
      UpdateSnoc(Put(d, init[0].key, init[0].value), init[1..], last);
    }
  }

  /** Merging succeeds exactly on branches, and then every property is the last branch's. */
  lemma {:induction false} MergeTakesLast(subs: seq<Value>, key: string)
    ensures Merge(subs).Merged? <==> forall i :: 0 <= i < |subs| ==> IsBranch(subs[i])
    ensures Merge(subs).Merged? ==> Get(Merge(subs).properties, key) == PropertyOf(subs, key)
  {
    if |subs| > 0 {
      var init, last := subs[..|subs| - 1], subs[|subs| - 1];
      MergeTakesLast(init, key);
      assert forall i :: 0 <= i < |subs| ==> subs[i] == if i < |init| then init[i] else last;
      if Merge(init).Merged? && IsBranch(last) {
        UpdateTakesLast(Merge(init).properties, BranchProperties(last.fields).value, key);
        EmptyHasNoLast(last, key);
      }
    }
  }

  lemma EmptyHasNoLast(sub: Value, key: string)
    requires IsBranch(sub)
    ensures BranchProperties(sub.fields).Some?
    ensures LastValue(BranchProperties(sub.fields).value, key) ==
            if Lookup(sub.fields, "properties").Obj? then LastValue(Lookup(sub.fields, "properties").fields, key) else None
  {
  }

  lemma {:induction false} MergeRequires(subs: seq<Value>, name: Value)
    requires Merge(subs).Merged?
    ensures name in Merge(subs).required <==> IsRequired(subs, name)
  {
    if |subs| > 0 {
      var init, last := subs[..|subs| - 1], subs[|subs| - 1];
      MergeRequires(init, name);
      if i :| 0 <= i < |init| && Requires(init[i], name) {
        assert Requires(subs[i], name);
      }
      if i :| 0 <= i < |subs| && Requires(subs[i], name) {
        assert i < |init| ==> Requires(init[i], name);
      }
      assert name in BranchRequired(last.fields).value <==> Requires(last, name);
    }
  }

  // ---------------------------------------------------------------- when the answer is confident

  /** A minimum that `int` or `float` reads. */
  predicate IsReadable(minimum: Value, parses: bool) {
    match minimum
    case Str(_) => parses
    case Arr(_) => false
    case Obj(_) => false
    case _ => true
  }

  /** "minItems" as a count: missing or falsy, a number that asks for nothing, or an integer. */
  predicate IsCount(minItems: Value) {
    !Truthy(minItems) || minItems.Int? || minItems.Bool? || (minItems.Float? && minItems.r <= 0.0)
  }

  /** There is enough in the schema to make a value from: a documented one, or all that its type takes,
      down to the items and required properties it needs, at most ten levels below the root. */
  ghost predicate Qualifies(schema: Value, depth: nat, text: TextNumbers)
    decreases Budget(depth), 1
  {
    depth <= 10 && schema.Obj? &&
    var raw := schema.fields;
    var kind, minimum := Lookup(raw, "type"), Lookup(raw, "minimum");
    (Documented(raw) ||
     kind == Str("boolean") ||
     (kind == Str("string") && !Lookup(raw, "format").Arr? && !Lookup(raw, "format").Obj?) ||
     (kind == Str("integer") && IsReadable(minimum, minimum.Str? && text.toInt(minimum.s).Some?)) ||
     (kind == Str("number") && IsReadable(minimum, minimum.Str? && text.toFloat(minimum.s).Some?)) ||
     (kind == Str("array") && IsCount(Lookup(raw, "minItems")) && (WantsItems(raw) ==> Qualifies(Lookup(raw, "items"), depth + 1, text))) ||
     (IsObjectSchema(raw) && ObjectQualifies(raw, depth, text)) ||
     (IsMergedSchema(raw) && BranchesQualify(Lookup(raw, "allOf").items, depth, text)))
  }

  predicate IsObjectSchema(raw: seq<Field>) {
    Lookup(raw, "type") == Str("object") || (Lookup(raw, "type") == Null && Get(raw, "properties").Some?)
  }

  /** The branches of an `allOf` count when the type does not. */
  predicate IsMergedSchema(raw: seq<Field>) {
    Lookup(raw, "allOf").Arr? && !IsObjectSchema(raw) &&
    Lookup(raw, "type") !in {Str("string"), Str("integer"), Str("number"), Str("boolean"), Str("array")}
  }

  ghost predicate ObjectQualifies(raw: seq<Field>, depth: nat, text: TextNumbers)
    requires depth <= 10
    decreases Budget(depth), 0
  {
    RequiredNames(raw).Some? &&
    forall n :: n in RequiredNames(raw).value ==>
      n.Str? && Lookup(raw, "properties").Obj? && Qualifies(Lookup(Lookup(raw, "properties").fields, n.s), depth + 1, text)
  }

  ghost predicate BranchesQualify(subs: seq<Value>, depth: nat, text: TextNumbers)
    requires depth <= 10
    decreases Budget(depth), 0
  {
    (forall i :: 0 <= i < |subs| ==> IsBranch(subs[i])) &&
    forall n :: IsRequired(subs, n) ==> n.Str? && PropertyOf(subs, n.s).Some? && Qualifies(PropertyOf(subs, n.s).value, depth + 1, text)
  }

  predicate Sure(r: Generated) { r.Made? && r.confident }

  ghost predicate AllQualify(properties: seq<Field>, names: seq<Value>, depth: nat, text: TextNumbers)
    decreases |names|
  {
    |names| > 0 ==>
      names[0].Str? && Qualifies(Lookup(properties, names[0].s), depth, text) && AllQualify(properties, names[1..], depth, text)
  }

  lemma {:induction false} AllQualifyAre(properties: seq<Field>, names: seq<Value>, depth: nat, text: TextNumbers)
    ensures AllQualify(properties, names, depth, text) <==>
            forall n :: n in names ==> n.Str? && Qualifies(Lookup(properties, n.s), depth, text)
    decreases |names|
  {
    if |names| > 0 {
      AllQualifyAre(properties, names[1..], depth, text);
      assert forall n :: n in names <==> n == names[0] || n in names[1..];
    }
  }

  lemma FillStep(properties: seq<Field>, names: seq<Value>, made: seq<Field>, depth: nat, text: TextNumbers)
    requires depth <= MAX_DEPTH && |names| > 0
    ensures !names[0].Str? ==> !Sure(FillRequired(properties, names, made, depth, text))
    ensures names[0].Str? ==>
              var r := GenerateValue(Lookup(properties, names[0].s), depth + 1, text);
              if Sure(r) then FillRequired(properties, names, made, depth, text) == FillRequired(properties, names[1..], Put(made, names[0].s, r.value), depth, text)
              else !Sure(FillRequired(properties, names, made, depth, text))
  {
  }

  lemma {:induction false} SureFill(properties: seq<Field>, names: seq<Value>, made: seq<Field>, depth: nat, text: TextNumbers)
    requires depth <= MAX_DEPTH
    ensures Sure(FillRequired(properties, names, made, depth, text)) <==> AllQualify(properties, names, depth + 1, text)
    decreases Budget(depth), 0, |names|
  {
    if |names| > 0 {
      FillStep(properties, names, made, depth, text);
      if names[0].Str? {
        var sub := Lookup(properties, names[0].s);
        ConfidentExactly(sub, depth + 1, text);
        if Qualifies(sub, depth + 1, text) {
          SureFill(properties, names[1..], Put(made, names[0].s, GenerateValue(sub, depth + 1, text).value), depth, text);
        }
      }
    }
  }

  lemma {:induction false} SureObject(raw: seq<Field>, depth: nat, text: TextNumbers)
    requires depth <= MAX_DEPTH
    ensures Sure(GenerateObject(raw, depth, text)) <==> ObjectQualifies(raw, depth, text)
    decreases Budget(depth), 1, 0
  {
    if RequiredNames(raw).Some? {
      SureFill(PropertiesOf(raw), RequiredNames(raw).value, [], depth, text);
      AllQualifyAre(PropertiesOf(raw), RequiredNames(raw).value, depth + 1, text);
      if !Lookup(raw, "properties").Obj? {
        assert forall key :: Lookup(PropertiesOf(raw), key) == Null;
      }
    }
  }

  lemma {:induction false} SureAllOf(subs: seq<Value>, depth: nat, text: TextNumbers)
    requires depth <= MAX_DEPTH
    ensures Sure(GenerateAllOf(subs, depth, text)) <==> BranchesQualify(subs, depth, text)
    decreases Budget(depth), 1, 0
  {
    MergeTakesLast(subs, "");
    match Merge(subs) {
      case Merged(properties, required) =>
        SureFill(properties, required, [], depth, text);
        AllQualifyAre(properties, required, depth + 1, text);
        forall n ensures n in required <==> IsRequired(subs, n) {
          MergeRequires(subs, n);
        }
        forall key ensures Get(properties, key) == PropertyOf(subs, key) {
          MergeTakesLast(subs, key);
        }
      case _ =>
    }
  }

  lemma {:induction false} SureArray(raw: seq<Field>, depth: nat, text: TextNumbers)
    requires depth <= MAX_DEPTH
    ensures Sure(GenerateArray(raw, depth, text)) <==>
            IsCount(Lookup(raw, "minItems")) && (WantsItems(raw) ==> Qualifies(Lookup(raw, "items"), depth + 1, text))
    decreases Budget(depth), 1, 0
  {
    ConfidentExactly(Lookup(raw, "items"), depth + 1, text);
  }

  lemma SureScalar(raw: seq<Field>, depth: nat, text: TextNumbers)
    requires depth <= MAX_DEPTH && Lookup(raw, "type") in {Str("string"), Str("integer"), Str("number"), Str("boolean")}
    ensures Sure(GenerateByType(raw, depth, text)) <==>
            var kind, minimum := Lookup(raw, "type"), Lookup(raw, "minimum");
            kind == Str("boolean") ||
            (kind == Str("string") && !Lookup(raw, "format").Arr? && !Lookup(raw, "format").Obj?) ||
            (kind == Str("integer") && IsReadable(minimum, minimum.Str? && text.toInt(minimum.s).Some?)) ||
            (kind == Str("number") && IsReadable(minimum, minimum.Str? && text.toFloat(minimum.s).Some?))
  {
  }

  /** The answer is confident exactly when the schema qualifies. */
  lemma {:induction false} ConfidentExactly(schema: Value, depth: nat, text: TextNumbers)
    ensures Sure(GenerateValue(schema, depth, text)) <==> Qualifies(schema, depth, text)
    decreases Budget(depth), 2, 0
  {
    if depth <= MAX_DEPTH && schema.Obj? && !Documented(schema.fields) {
      var raw := schema.fields;
      var kind := Lookup(raw, "type");
      if kind in {Str("string"), Str("integer"), Str("number"), Str("boolean")} {
        SureScalar(raw, depth, text);
      } else if kind == Str("array") {
        SureArray(raw, depth, text);
        assert GenerateByType(raw, depth, text) == GenerateArray(raw, depth, text);
      } else if IsObjectSchema(raw) {
        SureObject(raw, depth, text);
        assert GenerateByType(raw, depth, text) == GenerateObject(raw, depth, text);
      } else if Lookup(raw, "allOf").Arr? {
        SureAllOf(Lookup(raw, "allOf").items, depth, text);
        assert GenerateByType(raw, depth, text) == GenerateAllOf(Lookup(raw, "allOf").items, depth, text);
      }
    }
  }

  // ---------------------------------------------------------------- what the value is

  /** How many items an array gets. */
  function ItemCount(minItems: Value): nat {
    match minItems
    case Int(n) => if n > 0 then n else 0
    case Bool(b) => if b then 1 else 0
    case _ => 0
  }

  ghost predicate IsText(v: Value) { v.Str? && v.s != "" }

  /** `i` is `r` cut off towards zero. */
  predicate IsCut(i: int, r: real) {
    if r >= 0.0 then i as real <= r < (i + 1) as real else (i - 1) as real < r <= i as real
  }

  /** The minimum as an integer; 0 without one. */
  predicate IsInteger(v: Value, minimum: Value, text: TextNumbers) {
    v.Int? &&
    match minimum
    case Int(i) => v.i == i
    case Float(r) => IsCut(v.i, r)
    case Bool(b) => v.i == if b then 1 else 0
    case Str(s) => text.toInt(s) == Some(v.i)
    case _ => v.i == 0
  }

  predicate IsNumber(v: Value, minimum: Value, text: TextNumbers) {
    v.Float? &&
    match minimum
    case Int(i) => v.r == i as real
    case Float(r) => v.r == r
    case Bool(b) => v.r == if b then 1.0 else 0.0
    case Str(s) => text.toFloat(s) == Some(v.r)
    case _ => v.r == 0.0
  }

  /** What the schema prescribes: its example, else its default, else the head of its enum; and
      otherwise data of its type, with as many items as it wants and exactly the required fields,
      each of them prescribed by its own schema. */
  ghost predicate IsDataFor(v: Value, schema: Value, depth: nat, text: TextNumbers)
    decreases Budget(depth), 1
  {
    depth <= 10 && schema.Obj? &&
    var raw := schema.fields;
    if Get(raw, "example").Some? then v == Get(raw, "example").value
    else if Get(raw, "default").Some? then v == Get(raw, "default").value
    else if Lookup(raw, "enum").Arr? && Lookup(raw, "enum").items != [] then v == Lookup(raw, "enum").items[0]
    else if Lookup(raw, "type") == Str("boolean") then v == Bool(true)
    else if Lookup(raw, "type") == Str("string") then IsText(v)
    else if Lookup(raw, "type") == Str("integer") then IsInteger(v, Lookup(raw, "minimum"), text)
    else if Lookup(raw, "type") == Str("number") then IsNumber(v, Lookup(raw, "minimum"), text)
    else if Lookup(raw, "type") == Str("array") then v.Arr? && IsArrayFor(v.items, raw, depth, text)
    else if IsObjectSchema(raw) then v.Obj? && IsObjectFor(v.fields, raw, depth, text)
    else IsMergedSchema(raw) && v.Obj? && IsMergedFor(v.fields, Lookup(raw, "allOf").items, depth, text)
  }

  ghost predicate IsArrayFor(items: seq<Value>, raw: seq<Field>, depth: nat, text: TextNumbers)
    requires depth <= 10
    decreases Budget(depth), 0
  {
    |items| == ItemCount(Lookup(raw, "minItems")) &&
    forall i :: 0 <= i < |items| ==> IsDataFor(items[i], Lookup(raw, "items"), depth + 1, text)
  }

  ghost predicate IsObjectFor(fields: seq<Field>, raw: seq<Field>, depth: nat, text: TextNumbers)
    requires depth <= 10
    decreases Budget(depth), 0
  {
    RequiredNames(raw).Some? && HasExactly(fields, RequiredNames(raw).value) &&
    forall key {:trigger Get(fields, key)} :: Get(fields, key).Some? ==>
      Lookup(raw, "properties").Obj? && IsDataFor(Get(fields, key).value, Lookup(Lookup(raw, "properties").fields, key), depth + 1, text)
  }

  ghost predicate IsMergedFor(fields: seq<Field>, subs: seq<Value>, depth: nat, text: TextNumbers)
    requires depth <= 10
    decreases Budget(depth), 0
  {
    (forall key :: Get(fields, key).Some? <==> IsRequired(subs, Str(key))) &&
    forall key {:trigger Get(fields, key)} :: Get(fields, key).Some? ==>
      PropertyOf(subs, key).Some? && IsDataFor(Get(fields, key).value, PropertyOf(subs, key).value, depth + 1, text)
  }

  ghost predicate HasExactly(fields: seq<Field>, names: seq<Value>) {
    forall key :: Get(fields, key).Some? <==> Str(key) in names
  }

  /** Every field so far is what its property's schema prescribes. */
  ghost predicate Prescribed(made: seq<Field>, properties: seq<Field>, depth: nat, text: TextNumbers) {
    forall key {:trigger Get(made, key)} :: Get(made, key).Some? ==>
      Get(properties, key).Some? && IsDataFor(Get(made, key).value, Get(properties, key).value, depth, text)
  }

  lemma PrescribedMore(made: seq<Field>, properties: seq<Field>, name: string, value: Value, depth: nat, text: TextNumbers)
    requires Prescribed(made, properties, depth, text)
    requires Get(properties, name).Some? && IsDataFor(value, Get(properties, name).value, depth, text)
    ensures Prescribed(Put(made, name, value), properties, depth, text)
  {
    forall key ensures Get(Put(made, name, value), key) == if key == name then Some(value) else Get(made, key) {
      GetAfterPut(made, name, value, key);
    }
  }

  lemma {:induction false} FilledAsPrescribed(properties: seq<Field>, names: seq<Value>, made: seq<Field>, depth: nat, text: TextNumbers)
    requires depth <= MAX_DEPTH && Prescribed(made, properties, depth + 1, text)
    requires Sure(FillRequired(properties, names, made, depth, text))
    ensures var v := FillRequired(properties, names, made, depth, text).value;
            v.Obj? && Prescribed(v.fields, properties, depth + 1, text) && Adds(v.fields, made, names)
    decreases Budget(depth), 1, |names|
  {
    if |names| > 0 {
      var name := names[0].s;
      var value := OneAsPrescribed(properties, names, made, depth, text);
      PrescribedMore(made, properties, name, value, depth + 1, text);
      FilledAsPrescribed(properties, names[1..], Put(made, name, value), depth, text);
      AddsCons(FillRequired(properties, names, made, depth, text).value.fields, made, names, value);
    }
  }

  lemma {:induction false} OneAsPrescribed(properties: seq<Field>, names: seq<Value>, made: seq<Field>, depth: nat, text: TextNumbers) returns (value: Value)
    requires depth <= MAX_DEPTH && |names| > 0 && Sure(FillRequired(properties, names, made, depth, text))
    ensures names[0].Str? && Get(properties, names[0].s).Some?
    ensures IsDataFor(value, Get(properties, names[0].s).value, depth + 1, text)
    ensures FillRequired(properties, names, made, depth, text) == FillRequired(properties, names[1..], Put(made, names[0].s, value), depth, text)
    decreases Budget(depth), 0, 0
  {
    FillStep(properties, names, made, depth, text);
    var sub := Get(properties, names[0].s).value;
    ConfidentValue(sub, depth + 1, text);
    value := GenerateValue(sub, depth + 1, text).value;
  }

  /** The keys are those of `made` and the names. */
  ghost predicate Adds(fields: seq<Field>, made: seq<Field>, names: seq<Value>) {
    forall key :: Get(fields, key).Some? <==> Get(made, key).Some? || Str(key) in names
  }

  lemma AddsCons(fields: seq<Field>, made: seq<Field>, names: seq<Value>, value: Value)
    requires |names| > 0 && names[0].Str? && Adds(fields, Put(made, names[0].s, value), names[1..])
    ensures Adds(fields, made, names)
  {
    forall key ensures Get(fields, key).Some? <==> Get(made, key).Some? || Str(key) in names {
      GetAfterPut(made, names[0].s, value, key);
      assert Str(key) in names <==> Str(key) == names[0] || Str(key) in names[1..];
    }
  }

  lemma {:induction false} ObjectAsPrescribed(raw: seq<Field>, depth: nat, text: TextNumbers)
    requires depth <= MAX_DEPTH && !Documented(raw) && IsObjectSchema(raw) && Sure(GenerateObject(raw, depth, text))
    ensures IsDataFor(GenerateObject(raw, depth, text).value, Obj(raw), depth, text)
    decreases Budget(depth), 2, 0
  {
    FilledAsPrescribed(PropertiesOf(raw), RequiredNames(raw).value, [], depth, text);
    PrescribedObject(GenerateObject(raw, depth, text).value.fields, raw, depth, text);
  }

  lemma PrescribedObject(fields: seq<Field>, raw: seq<Field>, depth: nat, text: TextNumbers)
    requires depth <= MAX_DEPTH && RequiredNames(raw).Some? && Adds(fields, [], RequiredNames(raw).value)
    requires Prescribed(fields, PropertiesOf(raw), depth + 1, text)
    ensures IsObjectFor(fields, raw, depth, text)
  {
  }

  lemma PrescribedMerged(fields: seq<Field>, subs: seq<Value>, depth: nat, text: TextNumbers)
    requires depth <= MAX_DEPTH && Merge(subs).Merged? && Adds(fields, [], Merge(subs).required)
    requires Prescribed(fields, Merge(subs).properties, depth + 1, text)
    ensures IsMergedFor(fields, subs, depth, text)
  {
    forall key ensures Get(Merge(subs).properties, key) == PropertyOf(subs, key) && (Str(key) in Merge(subs).required <==> IsRequired(subs, Str(key))) {
      MergeTakesLast(subs, key);
      MergeRequires(subs, Str(key));
    }
  }

  lemma {:induction false} AllOfAsPrescribed(raw: seq<Field>, depth: nat, text: TextNumbers)
    requires depth <= MAX_DEPTH && !Documented(raw) && IsMergedSchema(raw) && Sure(GenerateAllOf(Lookup(raw, "allOf").items, depth, text))
    ensures IsDataFor(GenerateAllOf(Lookup(raw, "allOf").items, depth, text).value, Obj(raw), depth, text)
    decreases Budget(depth), 2, 0
  {
    var subs := Lookup(raw, "allOf").items;
    FilledAsPrescribed(Merge(subs).properties, Merge(subs).required, [], depth, text);
    PrescribedMerged(GenerateAllOf(subs, depth, text).value.fields, subs, depth, text);
  }

  lemma {:induction false} ArrayAsPrescribed(raw: seq<Field>, depth: nat, text: TextNumbers)
    requires depth <= MAX_DEPTH && !Documented(raw) && Lookup(raw, "type") == Str("array") && Sure(GenerateArray(raw, depth, text))
    ensures IsDataFor(GenerateArray(raw, depth, text).value, Obj(raw), depth, text)
    decreases Budget(depth), 2, 0
  {
    ArrayMade(raw, depth, text);
    if WantsItems(raw) {
      ConfidentValue(Lookup(raw, "items"), depth + 1, text);
    }
  }

  /** A confident value is the one the schema prescribes. */
  lemma {:induction false} ConfidentValue(schema: Value, depth: nat, text: TextNumbers)
    requires Sure(GenerateValue(schema, depth, text))
    ensures IsDataFor(GenerateValue(schema, depth, text).value, schema, depth, text)
    decreases Budget(depth), 3, 0
  {
    var raw := schema.fields;
    if !Documented(raw) {
      var kind := Lookup(raw, "type");
      if kind == Str("array") {
        assert GenerateByType(raw, depth, text) == GenerateArray(raw, depth, text);
        ArrayAsPrescribed(raw, depth, text);
      } else if IsObjectSchema(raw) {
        assert GenerateByType(raw, depth, text) == GenerateObject(raw, depth, text);
        ObjectAsPrescribed(raw, depth, text);
      } else if kind !in {Str("string"), Str("integer"), Str("number"), Str("boolean")} {
        assert GenerateByType(raw, depth, text) ==
               if Lookup(raw, "allOf").Arr? then GenerateAllOf(Lookup(raw, "allOf").items, depth, text) else UNSURE;
        AllOfAsPrescribed(raw, depth, text);
      } else {
        ScalarAsPrescribed(raw, depth, text);
      }
    }
  }

  lemma ScalarAsPrescribed(raw: seq<Field>, depth: nat, text: TextNumbers)
    requires depth <= MAX_DEPTH && !Documented(raw)
    requires Lookup(raw, "type") in {Str("string"), Str("integer"), Str("number"), Str("boolean")} && Sure(GenerateByType(raw, depth, text))
    ensures IsDataFor(GenerateByType(raw, depth, text).value, Obj(raw), depth, text)
  {
    if Lookup(raw, "minimum").Float? {
      CutOff(Lookup(raw, "minimum").r);
    }
  }

  lemma CutOff(r: real)
    ensures IsCut(Truncate(r), r)
  {
  }

  // ---------------------------------------------------------------- texts by format

  const FORMATS: set<string> := {"date", "date-time", "email", "uuid", "uri", "hostname", "ipv4"}

  predicate IsHex(c: char) { IsDigit(c) || 'a' <= c <= 'f' || 'A' <= c <= 'F' }

  /** In a pattern, "d" stands for a digit and "x" for a hexadecimal one. */
  predicate Matches(s: string, pattern: string) {
    |s| == |pattern| &&
    forall i :: 0 <= i < |s| ==> if pattern[i] == 'd' then IsDigit(s[i]) else if pattern[i] == 'x' then IsHex(s[i]) else s[i] == pattern[i]
  }

  predicate IsHostChar(c: char) { 'a' <= c <= 'z' || 'A' <= c <= 'Z' || IsDigit(c) || c == '-' || c == '.' }

  ghost predicate IsEmail(s: string) {
    exists user: string, host: string :: s == Joined(user, host) && user != "" && host != "" && '@' !in user && '@' !in host
  }

  function Joined(user: string, host: string): string { user + "@" + host }

  ghost predicate IsAddress(s: string) {
    exists a: nat, b: nat, c: nat, d: nat :: a < 256 && b < 256 && c < 256 && d < 256 && s == Dotted(a, b, c, d)
  }

  function Dotted(a: nat, b: nat, c: nat, d: nat): string {
    PrintNat(a) + "." + PrintNat(b) + "." + PrintNat(c) + "." + PrintNat(d)
  }

  predicate IsHost(s: string) { s != "" && s[0] != '.' && s[|s| - 1] != '.' && forall c :: c in s ==> IsHostChar(c) }

  /** What a text of the format looks like: RFC 3339 dates and times, the 8-4-4-4-12 digits of RFC 4122
      for a UUID, and so on. */
  ghost predicate HasFormat(format: string, s: string) {
    match format
    case "date" => Matches(s, "dddd-dd-dd")
    case "date-time" => Matches(s, "dddd-dd-ddTdd:dd:ddZ")
    case "email" => IsEmail(s)
    case "uuid" => Matches(s, "xxxxxxxx-xxxx-xxxx-xxxx-xxxxxxxxxxxx")
    case "uri" => "https://" < s
    case "hostname" => IsHost(s)
    case "ipv4" => IsAddress(s)
    case _ => true
  }

  /** Every default text has its format but that for "uuid", whose last group is four digits short. */
  lemma DefaultsHaveFormats(format: string)
    requires format in FORMATS
    ensures HasFormat(format, FormatDefault(format)) <==> format != "uuid"
  {
    match format {
      case "date" => DefaultDate();
      case "date-time" => DefaultTime();
      case "email" => DefaultEmail();
      case "uuid" => NoUuid(FormatDefault("uuid"));
      case "hostname" => DefaultHost();
      case "ipv4" => DefaultAddress();
      case _ =>
    }
  }

  lemma NoUuid(s: string)
    requires |s| != 36
    ensures !HasFormat("uuid", s)
  {
  }

  lemma DefaultDate()
    ensures Matches("2024-01-01", "dddd-dd-dd")
  {
  }

  lemma DefaultTime()
    ensures Matches("2024-01-01T00:00:00Z", "dddd-dd-ddTdd:dd:ddZ")
  {
  }

  lemma DefaultEmail()
    ensures IsEmail("test@example.com")
  {
    assert Joined("test", "example.com") == "test@example.com";
  }

  lemma DefaultHost()
    ensures IsHost("example.com")
  {
  }

  lemma DefaultAddress()
    ensures IsAddress("203.0.113.1")
  {
    assert PrintNat(2) == "2" && PrintNat(20) == "20" && PrintNat(203) == "203";
    assert PrintNat(1) == "1" && PrintNat(11) == "11" && PrintNat(113) == "113";
    assert Dotted(203, 0, 113, 1) == "203.0.113.1";
  }
}
