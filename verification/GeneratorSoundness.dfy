/** A confidently generated value is accepted by the checker of `core/assertions/builtin.py`:
    two independent recursions, one over the generator's choices and one over the data. */
module GeneratorSoundness {
  import opened Values
  import opened Schema
  import opened MinimalSchema
  import opened RequestData

  /** What the schema's author promises, at every schema position: examples, defaults and the
      first enum value conform to the schema that carries them. Here and below, `deep` is about
      acceptance with items and `minItems`; without it, about what the repository checks. */
  ghost predicate Conforms(schema: Value, deep: bool) {
    schema.Obj? ==>
      var raw := schema.fields;
      (Get(raw, "example").Some? ==> Accepts(Get(raw, "example").value, schema, deep)) &&
      (Get(raw, "default").Some? ==> Accepts(Get(raw, "default").value, schema, deep)) &&
      (Lookup(raw, "enum").Arr? && Lookup(raw, "enum").items != [] ==> Accepts(Lookup(raw, "enum").items[0], schema, deep)) &&
      (match Get(raw, "properties")
       case Some(Obj(properties)) => forall i :: 0 <= i < |properties| ==> Conforms(properties[i].value, deep)
       case _ => true) &&
      (deep && Get(raw, "items").Some? ==> Conforms(Get(raw, "items").value, deep)) &&
      (match Get(raw, "allOf")
       case Some(Arr(subs)) => forall i :: 0 <= i < |subs| ==> Conforms(subs[i], deep)
       case _ => true)
  }

  /** The value is copied from the schema: from its example, its default or its enum. */
  predicate Documented(raw: seq<Field>) {
    Get(raw, "example").Some? || Get(raw, "default").Some? || (Lookup(raw, "enum").Arr? && Lookup(raw, "enum").items != [])
  }

  predicate WantsItems(raw: seq<Field>) {
    match Lookup(raw, "minItems")
    case Int(n) => n > 0
    case Float(r) => r > 0.0
    case Bool(b) => b
    case _ => false
  }

  /** A shape the checker can read, wherever data is synthesised and checked: "type" is no
      non-empty list or dict, nor "null" next to an `allOf`; an object schema has proper keywords
      and well-shaped required properties; and, if items are checked, an array schema that wants
      some has well-shaped ones. */
  ghost predicate Shaped(schema: Value, deep: bool)
    decreases schema, 1
  {
    schema.Obj? && !Documented(schema.fields) ==>
      var kind := Lookup(schema.fields, "type");
      (Truthy(kind) ==> Hashable(kind)) &&
      (kind == Str("null") ==> !Lookup(schema.fields, "allOf").Arr?) &&
      (kind == Str("object") ==> ShapedObject(schema, deep)) &&
      (deep && kind == Str("array") && WantsItems(schema.fields) && Get(schema.fields, "items").Some? ==> Shaped(Get(schema.fields, "items").value, deep))
  }

  /** "properties" is a dict and "required" a list. */
  ghost predicate ProperKeywords(raw: seq<Field>) {
    RequiredNames(raw).Some? && (Get(raw, "properties").Some? ==> Get(raw, "properties").value.Obj?)
  }

  ghost predicate ShapedObject(schema: Value, deep: bool)
    requires schema.Obj?
    decreases schema, 0
  {
    ProperKeywords(schema.fields) &&
    (Get(schema.fields, "properties").Some? ==>
       forall n :: n in RequiredNames(schema.fields).value && n.Str? ==>
         var sub := Get(Get(schema.fields, "properties").value.fields, n.s);
         sub.Some? ==> Shaped(sub.value, deep))
  }

  ghost predicate AllConform(properties: seq<Field>, deep: bool) {
    forall i :: 0 <= i < |properties| ==> Conforms(properties[i].value, deep)
  }

  lemma ConformLookup(properties: seq<Field>, key: string, deep: bool)
    requires AllConform(properties, deep) && Get(properties, key).Some?
    ensures Conforms(Get(properties, key).value, deep)
  {
  }

  /** Every field of `made` was generated for a property, whose schema accepts it exactly when it
      is well-shaped. */
  ghost predicate Linked(made: seq<Field>, properties: seq<Field>, deep: bool) {
    forall key {:trigger Get(made, key)} :: Get(made, key).Some? ==>
      Get(properties, key).Some? && (Accepts(Get(made, key).value, Get(properties, key).value, deep) <==> Shaped(Get(properties, key).value, deep))
  }

  /** The names are the keys. */
  ghost predicate Names(names: seq<Value>, made: seq<Field>) {
    (forall n :: n in names ==> n.Str? && Get(made, n.s).Some?) && forall key :: Get(made, key).Some? ==> Str(key) in names
  }

  /** Soundness, exactly: given examples that conform, a confident value is accepted by its
      schema, with or without items and `minItems`, if and only if the schema is well-shaped. */
  lemma {:induction false} ConfidentIsAccepted(schema: Value, depth: nat, text: TextNumbers, deep: bool)
    requires Conforms(schema, deep)
    requires GenerateValue(schema, depth, text).Made? && GenerateValue(schema, depth, text).confident
    ensures Accepts(GenerateValue(schema, depth, text).value, schema, deep) <==> Shaped(schema, deep)
    decreases Budget(depth), 1, 0
  {
    var raw := schema.fields;
    if Documented(raw) {
    } else if Lookup(raw, "type") == Str("array") {
      ArrayIsAccepted(schema, depth, text, deep);
    } else if Lookup(raw, "type") == Str("object") {
      ObjectIsAccepted(schema, depth, text, deep);
    } else {
      ScalarIsAccepted(schema, depth, text, deep);
    }
  }

  lemma ScalarIsAccepted(schema: Value, depth: nat, text: TextNumbers, deep: bool)
    requires schema.Obj? && !Documented(schema.fields) && depth <= MAX_DEPTH
    requires Lookup(schema.fields, "type") !in {Str("array"), Str("object")}
    requires var r := GenerateByType(schema.fields, depth, text); r.Made? && r.confident
    ensures Accepts(GenerateByType(schema.fields, depth, text).value, schema, deep) <==> Shaped(schema, deep)
  {
    var kind := Lookup(schema.fields, "type");
    if Truthy(kind) && kind.Str? {
      var v := GenerateByType(schema.fields, depth, text).value;
      assert IsInstance(v, kind.s) <==> kind.s != "null" by {
        if kind.s == "null" {
          AllOfMakesDict(Lookup(schema.fields, "allOf").items, depth, text);
        }
      }
    }
  }

  lemma AllOfMakesDict(subs: seq<Value>, depth: nat, text: TextNumbers)
    requires depth <= MAX_DEPTH
    requires var r := GenerateAllOf(subs, depth, text); r.Made? && r.confident
    ensures GenerateAllOf(subs, depth, text).value.Obj?
  {
    match Merge(subs) {
      case Merged(properties, required) => FillMakesDict(properties, required, [], depth, text);
      case _ =>
    }
  }

  lemma {:induction false} FillMakesDict(properties: seq<Field>, names: seq<Value>, made: seq<Field>, depth: nat, text: TextNumbers)
    requires depth <= MAX_DEPTH
    requires var r := FillRequired(properties, names, made, depth, text); r.Made? && r.confident
    ensures FillRequired(properties, names, made, depth, text).value.Obj?
    decreases |names|
  {
    if |names| > 0 {
      FillMakesDict(properties, names[1..], Put(made, names[0].s, GenerateValue(Lookup(properties, names[0].s), depth + 1, text).value), depth, text);
    }
  }

  lemma {:induction false} ArrayIsAccepted(schema: Value, depth: nat, text: TextNumbers, deep: bool)
    requires schema.Obj? && Conforms(schema, deep) && !Documented(schema.fields) && depth <= MAX_DEPTH
    requires Lookup(schema.fields, "type") == Str("array")
    requires var r := GenerateArray(schema.fields, depth, text); r.Made? && r.confident
    ensures Accepts(GenerateArray(schema.fields, depth, text).value, schema, deep) <==> Shaped(schema, deep)
    decreases Budget(depth), 0, 1
  {
    var raw := schema.fields;
    ArrayMade(raw, depth, text);
    if WantsItems(raw) && deep {
      ConfidentIsAccepted(Lookup(raw, "items"), depth + 1, text, deep);
      var r := GenerateArray(raw, depth, text).value;
      assert r.items[0] in r.items;
    }
  }

  /** What a confident array is made of: enough copies of one confident item. */
  lemma ArrayMade(raw: seq<Field>, depth: nat, text: TextNumbers)
    requires depth <= MAX_DEPTH
    requires var r := GenerateArray(raw, depth, text); r.Made? && r.confident
    ensures var r := GenerateArray(raw, depth, text).value;
            r.Arr? && EnoughItems(|r.items|, Lookup(raw, "minItems")) &&
            if WantsItems(raw) then
              var one := GenerateValue(Lookup(raw, "items"), depth + 1, text);
              |r.items| > 0 && Get(raw, "items").Some? && Lookup(raw, "items").Obj? && one.Made? && one.confident &&
              forall i :: 0 <= i < |r.items| ==> r.items[i] == one.value
            else r.items == []
  {
  }

  lemma {:induction false} ObjectIsAccepted(schema: Value, depth: nat, text: TextNumbers, deep: bool)
    requires schema.Obj? && Conforms(schema, deep) && !Documented(schema.fields) && depth <= MAX_DEPTH
    requires Lookup(schema.fields, "type") == Str("object")
    requires var r := GenerateObject(schema.fields, depth, text); r.Made? && r.confident
    ensures Accepts(GenerateObject(schema.fields, depth, text).value, schema, deep) <==> Shaped(schema, deep)
    decreases Budget(depth), 0, 1
  {
    var raw := schema.fields;
    FilledFields(PropertiesOf(raw), RequiredNames(raw).value, [], depth, text, deep);
    FieldsAreAccepted(schema, GenerateObject(raw, depth, text).value, deep);
  }

  lemma FieldsAreAccepted(schema: Value, r: Value, deep: bool)
    requires schema.Obj? && r.Obj? && RequiredNames(schema.fields).Some?
    requires Linked(r.fields, PropertiesOf(schema.fields), deep) && Names(RequiredNames(schema.fields).value, r.fields)
    ensures AcceptsFields(r, schema.fields, deep) <==> ShapedObject(schema, deep)
  {
    var raw := schema.fields;
    if Get(raw, "properties").Some? && Get(raw, "properties").value.Obj? {
      var properties := PropertiesOf(raw);
      if AcceptsFields(r, raw, deep) {
        forall n | n in RequiredNames(raw).value && n.Str? && Get(properties, n.s).Some? ensures Shaped(Get(properties, n.s).value, deep) {
          var i := Find(r.fields, n.s);
          assert Get(r.fields, r.fields[i].key) == Some(r.fields[i].value);
        }
      }
    }
  }

  lemma {:induction false} FilledFields(properties: seq<Field>, names: seq<Value>, made: seq<Field>, depth: nat, text: TextNumbers, deep: bool)
    requires depth <= MAX_DEPTH && AllConform(properties, deep) && Linked(made, properties, deep)
    requires var r := FillRequired(properties, names, made, depth, text); r.Made? && r.confident
    ensures var r := FillRequired(properties, names, made, depth, text).value;
            r.Obj? && Linked(r.fields, properties, deep) &&
            (forall n :: n in names ==> n.Str?) &&
            forall key :: Get(r.fields, key).Some? <==> Get(made, key).Some? || Str(key) in names
    decreases Budget(depth), 0, 0, |names|
  {
    if |names| > 0 {
      var name := names[0].s;
      var sub := Get(properties, name).value;
      ConformLookup(properties, name, deep);
      ConfidentIsAccepted(sub, depth + 1, text, deep);
      var value := GenerateValue(sub, depth + 1, text).value;
      var more := Put(made, name, value);
      forall key ensures Get(more, key) == if key == name then Some(value) else Get(made, key) {
        GetAfterPut(made, name, value, key);
      }
      FilledFields(properties, names[1..], more, depth, text, deep);
      assert forall n :: n in names <==> n == names[0] || n in names[1..];
    }
  }

  /** For the repository's own checker, which does not look into arrays: given examples that it
      passes, a confident value adds no error, whatever was collected before, and does not make it
      raise, if and only if the schema is well-shaped outside array items. */
  lemma ConfidentPassesCheck(schema: Value, depth: nat, text: TextNumbers, path: string, errors: seq<Error>)
    requires Conforms(schema, false) && UniqueKeys(schema)
    requires GenerateValue(schema, depth, text).Made? && GenerateValue(schema, depth, text).confident
    ensures Check(GenerateValue(schema, depth, text).value, schema, path, errors) == Errors(errors) <==> Shaped(schema, false)
  {
    ConfidentIsAccepted(schema, depth, text, false);
    CheckExactly(GenerateValue(schema, depth, text).value, schema, path, errors);
  }

  const NULL_PROPERTIES := Obj([Field("type", Str("object")), Field("properties", Null)])

  function OneItem(item: Value): Value {
    Obj([Field("type", Str("array")), Field("minItems", Int(1)), Field("items", item)])
  }

  /** The two differ: an item that the checker could not read passes it unread. */
  lemma UncheckedItems(text: TextNumbers, path: string, errors: seq<Error>)
    ensures var schema := OneItem(NULL_PROPERTIES);
            GenerateValue(schema, 0, text) == Made(Arr([Obj([])]), true) &&
            Check(Arr([Obj([])]), schema, path, errors) == Errors(errors) &&
            Shaped(schema, false) && !Shaped(schema, true)
  {
    NullProperties(1, text);
    NotShaped();
    OneItemMade(NULL_PROPERTIES, Obj([]), text);
    OneItemShape(NULL_PROPERTIES, true);
    OneItemShape(NULL_PROPERTIES, false);
    OneItemChecked(NULL_PROPERTIES, Obj([]), path, errors);
  }

  lemma OneItemShape(item: Value, deep: bool)
    ensures Shaped(OneItem(item), deep) <==> (deep ==> Shaped(item, deep))
  {
    OneItemIs(item);
  }

  lemma OneItemChecked(item: Value, value: Value, path: string, errors: seq<Error>)
    ensures Check(Arr([value]), OneItem(item), path, errors) == Errors(errors)
  {
    OneItemIs(item);
  }

  lemma OneItemIs(item: Value)
    ensures var raw := OneItem(item).fields;
            Get(raw, "type") == Some(Str("array")) && Get(raw, "minItems") == Some(Int(1)) && Get(raw, "items") == Some(item) &&
            !Documented(raw)
  {
    var raw := OneItem(item).fields;
    GetFirst(raw, "type", 0);
    GetFirst(raw, "minItems", 1);
    GetFirst(raw, "items", 2);
    Undocumented(raw);
  }

  lemma OneItemMade(item: Value, value: Value, text: TextNumbers)
    requires item.Obj? && GenerateValue(item, 1, text) == Made(value, true)
    ensures GenerateValue(OneItem(item), 0, text) == Made(Arr([value]), true)
  {
    OneItemIs(item);
    var raw := OneItem(item).fields;
    assert GenerateItems(raw, Int(1), 0, text) == Repeated(value, Int(1));
    assert seq(1, _ => value) == [value];
    assert GenerateByType(raw, 0, text) == GenerateArray(raw, 0, text);
  }

  lemma Undocumented(raw: seq<Field>)
    requires forall f :: f in raw ==> f.key !in {"example", "default", "enum"}
    ensures !Documented(raw)
  {
    NoKey(raw, "example");
    NoKey(raw, "default");
    NoKey(raw, "enum");
  }

  lemma NotShaped()
    ensures !Shaped(NULL_PROPERTIES, true)
  {
    var raw := NULL_PROPERTIES.fields;
    GetFirst(raw, "type", 0);
    GetFirst(raw, "properties", 1);
    Undocumented(raw);
    assert !ProperKeywords(raw);
  }

  /** What happens at a schema that is not well-shaped: a confident value meets a checker that
      raises when "properties" is null... */
  lemma NullProperties(depth: nat, text: TextNumbers)
    requires depth <= MAX_DEPTH
    ensures GenerateValue(NULL_PROPERTIES, depth, text) == Made(Obj([]), true) && Check(Obj([]), NULL_PROPERTIES, "$", []).Raised?
  {
    var raw := NULL_PROPERTIES.fields;
    GetFirst(raw, "properties", 1);
    GetFirst(raw, "type", 0);
    Undocumented(raw);
    NoKey(raw, "required");
    assert GenerateByType(raw, depth, text) == GenerateObject(raw, depth, text) == Made(Obj([]), true);
  }

  /** ...or when "type" is a list next to an `allOf`, and is rejected where it is "null". */
  lemma AllOfWithAnotherType(text: TextNumbers, kind: Value)
    requires kind in {Str("null"), Arr([Str("object")])}
    ensures var schema := Obj([Field("type", kind), Field("allOf", Arr([]))]);
            GenerateValue(schema, 0, text) == Made(Obj([]), true) &&
            Check(Obj([]), schema, "$", []) == if kind.Str? then Errors([WrongType("$", kind)]) else Checked.Raised
  {
    var raw := [Field("type", kind), Field("allOf", Arr([]))];
    GetFirst(raw, "allOf", 1);
    GetFirst(raw, "type", 0);
    NoKey(raw, "example");
    NoKey(raw, "default");
    NoKey(raw, "enum");
    assert GenerateByType(raw, 0, text) == GenerateAllOf([], 0, text) == Made(Obj([]), true);
  }

  lemma NoKey(fields: seq<Field>, key: string)
    requires forall f :: f in fields ==> f.key != key
    ensures Get(fields, key).None?
  {
  }

  /** The documented minimum of an integer is met exactly when cutting it down to an integer
      does not fall below it: for every minimum but a positive fraction. Where it is met, it is met
      by the smallest integer that meets it, and otherwise missed by less than one. */
  lemma IntegerMeetsMinimum(minimum: Value, text: TextNumbers)
    requires minimum.Int? || minimum.Float?
    ensures var r := GenerateInteger(minimum, text);
            r.Made? && r.confident && r.value.Int? &&
            (Meets(r.value.i, minimum) <==> !(minimum.Float? && minimum.r > 0.0 && minimum.r.Floor as real != minimum.r)) &&
            (Meets(r.value.i, minimum) ==> forall j :: Meets(j, minimum) ==> j >= r.value.i) &&
            Meets(r.value.i + 1, minimum)
  {
    if minimum.Float? && minimum.r < 0.0 {
      assert (-minimum.r).Floor as real <= -minimum.r;
    }
  }

  /** The minimum of a number is always met, by the smallest number there is. */
  lemma NumberMeetsMinimum(minimum: Value, text: TextNumbers)
    requires minimum.Int? || minimum.Float?
    ensures var r := GenerateNumber(minimum, text);
            r.Made? && r.confident && r.value.Float? && AtLeast(r.value.r, minimum) &&
            forall x: real :: AtLeast(x, minimum) ==> x >= r.value.r
  {
  }

  predicate Meets(i: int, minimum: Value) { AtLeast(i as real, minimum) }

  predicate AtLeast(x: real, minimum: Value) {
    match minimum
    case Int(m) => x >= m as real
    case Float(m) => x >= m
    case _ => true
  }

  // ---------------------------------------------------------------- not confident

  /** An answer that is not confident carries no value. */
  lemma UnsureHasNoValue(schema: Value, depth: nat, text: TextNumbers)
    ensures NeverHalfSure(GenerateValue(schema, depth, text))
  {
    if depth <= MAX_DEPTH && schema.Obj? {
      UnsureByType(schema.fields, depth, text);
    }
  }

  ghost predicate NeverHalfSure(r: Generated) {
    r.Made? && !r.confident ==> r == UNSURE
  }

  lemma UnsureByType(raw: seq<Field>, depth: nat, text: TextNumbers)
    requires depth <= MAX_DEPTH
    ensures NeverHalfSure(GenerateByType(raw, depth, text))
  {
    UnsureObject(raw, depth, text);
    UnsureArray(raw, depth, text);
    if Lookup(raw, "allOf").Arr? {
      UnsureAllOf(Lookup(raw, "allOf").items, depth, text);
    }
    UnsureScalar(Lookup(raw, "format"), Lookup(raw, "minimum"), text);
  }

  lemma UnsureScalar(format: Value, minimum: Value, text: TextNumbers)
    ensures NeverHalfSure(GenerateString(format)) && NeverHalfSure(GenerateInteger(minimum, text)) && NeverHalfSure(GenerateNumber(minimum, text))
  {
  }

  lemma UnsureObject(raw: seq<Field>, depth: nat, text: TextNumbers)
    requires depth <= MAX_DEPTH
    ensures NeverHalfSure(GenerateObject(raw, depth, text))
  {
    if RequiredNames(raw).Some? {
      FillNeverHalfSure(PropertiesOf(raw), RequiredNames(raw).value, [], depth, text);
    }
  }

  lemma UnsureAllOf(subs: seq<Value>, depth: nat, text: TextNumbers)
    requires depth <= MAX_DEPTH
    ensures NeverHalfSure(GenerateAllOf(subs, depth, text))
  {
    match Merge(subs) {
      case Merged(properties, required) => FillNeverHalfSure(properties, required, [], depth, text);
      case _ =>
    }
  }

  lemma UnsureArray(raw: seq<Field>, depth: nat, text: TextNumbers)
    requires depth <= MAX_DEPTH
    ensures NeverHalfSure(GenerateArray(raw, depth, text))
  {
    var given := Lookup(raw, "minItems");
    assert NeverHalfSure(GenerateItems(raw, if Truthy(given) then given else Int(0), depth, text));
  }

  lemma {:induction false} FillNeverHalfSure(properties: seq<Field>, names: seq<Value>, made: seq<Field>, depth: nat, text: TextNumbers)
    requires depth <= MAX_DEPTH
    ensures NeverHalfSure(FillRequired(properties, names, made, depth, text))
    decreases |names|
  {
    if |names| > 0 && names[0].Str? {
      var r := GenerateValue(Lookup(properties, names[0].s), depth + 1, text);
      if r.Made? {
        FillNeverHalfSure(properties, names[1..], Put(made, names[0].s, r.value), depth, text);
      }
    }
  }
}
