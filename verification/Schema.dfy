/** How both the generator and the checker read a JSON-Schema-shaped dict. */
module Schema {
  import opened Values

  /** `raw.get(key)`: a missing key and a null value are the same. */
  function Lookup(fields: seq<Field>, key: string): Value {
    match Get(fields, key)
    case Some(v) => v
    case None => Null
  }

  /** Python truthiness. */
  predicate Truthy(v: Value) {
    match v
    case Null => false
    case Bool(b) => b
    case Int(i) => i != 0
    case Float(r) => r != 0.0
    case Str(s) => s != ""
    case Arr(items) => items != []
    case Obj(fields) => fields != []
  }

  /** Lists and dicts cannot be dict keys: using one as a key raises TypeError. */
  predicate Hashable(v: Value) { !v.Arr? && !v.Obj? }

  /** What a `for` loop over the value visits; `None` where it raises TypeError. */
  function Iterate(v: Value): Option<seq<Value>> {
    match v
    case Arr(items) => Some(items)
    case Str(s) => Some(seq(|s|, i requires 0 <= i < |s| => Str([s[i]])))
    case Obj(fields) => Some(seq(|fields|, i requires 0 <= i < |fields| => Str(fields[i].key)))
    case _ => None
  }

  /** The names a schema requires; `None` where iterating over them raises. */
  function RequiredNames(fields: seq<Field>): Option<seq<Value>> {
    match Get(fields, "required")
    case Some(v) => Iterate(v)
    case None => Some([])
  }
}

/** `_check_minimal_schema` of `core/assertions/builtin.py`. */
module MinimalSchema {
  import opened Values
  import opened Schema

  datatype Error = WrongType(path: string, expected: Value) | MissingField(path: string, field: Value)

  datatype Checked = Errors(errors: seq<Error>) | Raised

  /** `isinstance(data, type_map.get(name, object))`; a Python bool is an int. */
  predicate IsInstance(data: Value, name: string) {
    match name
    case "object" => data.Obj?
    case "array" => data.Arr?
    case "string" => data.Str?
    case "number" => data.Int? || data.Float? || data.Bool?
    case "integer" => data.Int? || data.Bool?
    case "boolean" => data.Bool?
    case "null" => data.Null?
    case _ => true
  }

  /** `errors` is the list collected so far; an exception loses it. */
  function Check(data: Value, schema: Value, path: string, errors: seq<Error>): Checked
    decreases data, 1, 0
  {
    if !schema.Obj? then Raised
    else
      var expected := Lookup(schema.fields, "type");
      if Truthy(expected) && !Hashable(expected) then Raised
      else if Truthy(expected) && expected.Str? && !IsInstance(data, expected.s) then
        Errors(errors + [WrongType(path, expected)])
      else if expected == Str("object") && data.Obj? then
        match RequiredNames(schema.fields)
        case None => Raised
        case Some(names) =>
          match CheckRequired(data.fields, names, path, errors)
          case Raised => Raised
          case Errors(sofar) =>
            match Get(schema.fields, "properties")
            case None => Errors(sofar)
            case Some(Obj(properties)) => CheckProperties(data, properties, path, sofar)
            case _ => Raised
      else Errors(errors)
  }

  function CheckRequired(data: seq<Field>, names: seq<Value>, path: string, errors: seq<Error>): Checked {
    if |names| == 0 then Errors(errors)
    else if !Hashable(names[0]) then Raised
    else if names[0].Str? && Get(data, names[0].s).Some? then CheckRequired(data, names[1..], path, errors)
    else CheckRequired(data, names[1..], path, errors + [MissingField(path, names[0])])
  }

  function CheckProperties(data: Value, properties: seq<Field>, path: string, errors: seq<Error>): Checked
    requires data.Obj?
    decreases data, 0, |properties|
  {
    if |properties| == 0 then Errors(errors)
    else
      match Get(data.fields, properties[0].key)
      case None => CheckProperties(data, properties[1..], path, errors)
      case Some(value) =>
        assert value < data;
        match Check(value, properties[0].value, path + "." + properties[0].key, errors)
        case Raised => Raised
        case Errors(sofar) => CheckProperties(data, properties[1..], path, sofar)
  }

  /** The recursive method with the errors list it appends to; `ok` is false when it raises. */
  class Checker {
    var errors: seq<Error>

    constructor ()
      ensures errors == []
    {
      errors := [];
    }

    method CheckMinimalSchema(data: Value, schema: Value, path: string) returns (ok: bool)
      modifies this
      ensures ok <==> Check(data, schema, path, old(errors)).Errors?
      ensures ok ==> Check(data, schema, path, old(errors)) == Errors(errors)
      decreases data, 1, 0
    {
      if !schema.Obj? {
        return false;
      }
      var expected := Lookup(schema.fields, "type");
      if Truthy(expected) && !Hashable(expected) {
        return false;
      }
      if Truthy(expected) && expected.Str? && !IsInstance(data, expected.s) {
        errors := errors + [WrongType(path, expected)];
        return true;
      }
      if !(expected == Str("object") && data.Obj?) {
        return true;
      }
      var required := RequiredNames(schema.fields);
      if required.None? {
        return false;
      }
      ok := CheckRequiredLoop(data.fields, required.value, path);
      if ok {
        match Get(schema.fields, "properties") {
          case None =>
          case Some(Obj(properties)) => ok := CheckPropertiesLoop(data, properties, path);
          case _ => ok := false;
        }
      }
    }

    method CheckRequiredLoop(data: seq<Field>, names: seq<Value>, path: string) returns (ok: bool)
      modifies this
      ensures ok <==> CheckRequired(data, names, path, old(errors)).Errors?
      ensures ok ==> CheckRequired(data, names, path, old(errors)) == Errors(errors)
    {
      var i := 0;
      while i < |names|
        invariant 0 <= i <= |names|
        invariant CheckRequired(data, names[i..], path, errors) == CheckRequired(data, names, path, old(errors))
      {
        assert names[i..][0] == names[i] && names[i..][1..] == names[i + 1..];
        if !Hashable(names[i]) {
          return false;
        }
        if !(names[i].Str? && Get(data, names[i].s).Some?) {
          errors := errors + [MissingField(path, names[i])];
        }
        i := i + 1;
      }
      ok := true;
    }

    method CheckPropertiesLoop(data: Value, properties: seq<Field>, path: string) returns (ok: bool)
      requires data.Obj?
      modifies this
      ensures ok <==> CheckProperties(data, properties, path, old(errors)).Errors?
      ensures ok ==> CheckProperties(data, properties, path, old(errors)) == Errors(errors)
      decreases data, 0, |properties|
    {
      var i := 0;
      while i < |properties|
        invariant 0 <= i <= |properties|
        invariant CheckProperties(data, properties[i..], path, errors) == CheckProperties(data, properties, path, old(errors))
      {
        assert properties[i..][0] == properties[i] && properties[i..][1..] == properties[i + 1..];
        match Get(data.fields, properties[i].key) {
          case None =>
          case Some(value) =>
            assert value < data;
            var fine := CheckMinimalSchema(value, properties[i].value, path + "." + properties[i].key);
            if !fine {
              return false;
            }
        }
        i := i + 1;
      }
      ok := true;
    }
  }

  /** `n >= minItems`, for the kinds of number a schema may hold there. */
  predicate EnoughItems(n: nat, minItems: Value) {
    match minItems
    case Int(m) => n >= m
    case Float(m) => n as real >= m
    case Bool(b) => b ==> n >= 1
    case _ => true
  }

  /** The check as a condition on the data; `deep` strengthens it with `items` and `minItems`. */
  ghost predicate Accepts(data: Value, schema: Value, deep: bool)
    decreases data
  {
    schema.Obj? &&
    var expected := Lookup(schema.fields, "type");
    (Truthy(expected) ==> Hashable(expected) && (expected.Str? ==> IsInstance(data, expected.s))) &&
    (expected == Str("object") ==> AcceptsFields(data, schema.fields, deep)) &&
    (deep && expected == Str("array") ==>
       EnoughItems(|data.items|, Lookup(schema.fields, "minItems")) &&
       (Lookup(schema.fields, "items").Obj? ==>
          forall item :: item in data.items ==> Accepts(item, Lookup(schema.fields, "items"), deep)))
  }

  ghost predicate AcceptsFields(data: Value, schema: seq<Field>, deep: bool)
    requires data.Obj?
    decreases data, 0
  {
    RequiredNames(schema).Some? && HasNames(data.fields, RequiredNames(schema).value) &&
    (Get(schema, "properties").Some? ==> Get(schema, "properties").value.Obj?) &&
    forall i :: 0 <= i < |data.fields| && Lookup(schema, "properties").Obj? &&
                Get(data.fields, data.fields[i].key) == Some(data.fields[i].value) ==>
      var sub := Get(Lookup(schema, "properties").fields, data.fields[i].key);
      sub.Some? ==> Accepts(data.fields[i].value, sub.value, deep)
  }

  predicate HasNames(data: seq<Field>, names: seq<Value>) {
    forall n :: n in names ==> n.Str? && Get(data, n.s).Some?
  }

  // ---------------------------------------------------------------- errors only grow

  ghost predicate Extends(r: Checked, errors: seq<Error>) { r.Errors? ==> errors <= r.errors }

  lemma ExtendsFrom(r: Checked, sofar: seq<Error>, errors: seq<Error>)
    requires Extends(r, sofar) && errors <= sofar
    ensures Extends(r, errors)
    ensures r == Errors(errors) ==> sofar == errors
  {
  }

  lemma {:induction false} RequiredExtends(data: seq<Field>, names: seq<Value>, path: string, errors: seq<Error>)
    ensures Extends(CheckRequired(data, names, path, errors), errors)
  {
    if |names| > 0 && Hashable(names[0]) {
      RequiredExtends(data, names[1..], path, errors);
      var more := errors + [MissingField(path, names[0])];
      RequiredExtends(data, names[1..], path, more);
      ExtendsFrom(CheckRequired(data, names[1..], path, more), more, errors);
    }
  }

  lemma {:induction false} CheckExtends(data: Value, schema: Value, path: string, errors: seq<Error>)
    ensures Extends(Check(data, schema, path, errors), errors)
    decreases data, 1, 0
  {
    if schema.Obj? && data.Obj? && RequiredNames(schema.fields).Some? {
      RequiredExtends(data.fields, RequiredNames(schema.fields).value, path, errors);
      match CheckRequired(data.fields, RequiredNames(schema.fields).value, path, errors) {
        case Errors(sofar) =>
          if Lookup(schema.fields, "properties").Obj? {
            var properties := Lookup(schema.fields, "properties").fields;
            PropertiesExtend(data, properties, path, sofar);
            ExtendsFrom(CheckProperties(data, properties, path, sofar), sofar, errors);
          }
        case Raised =>
      }
    }
  }

  lemma {:induction false} PropertiesExtend(data: Value, properties: seq<Field>, path: string, errors: seq<Error>)
    requires data.Obj?
    ensures Extends(CheckProperties(data, properties, path, errors), errors)
    decreases data, 0, |properties|
  {
    if |properties| > 0 {
      match Get(data.fields, properties[0].key) {
        case None => PropertiesExtend(data, properties[1..], path, errors);
        case Some(value) =>
          CheckExtends(value, properties[0].value, path + "." + properties[0].key, errors);
          match Check(value, properties[0].value, path + "." + properties[0].key, errors) {
            case Errors(sofar) =>
              PropertiesExtend(data, properties[1..], path, sofar);
              ExtendsFrom(CheckProperties(data, properties[1..], path, sofar), sofar, errors);
            case Raised =>
          }
      }
    }
  }

  // ---------------------------------------------------------------- what passes

  lemma {:induction false} RequiredExactly(data: seq<Field>, names: seq<Value>, path: string, errors: seq<Error>)
    ensures CheckRequired(data, names, path, errors) == Errors(errors) <==> HasNames(data, names)
  {
    if |names| > 0 {
      RequiredExactly(data, names[1..], path, errors);
      assert forall n :: n in names <==> n == names[0] || n in names[1..];
      if Hashable(names[0]) && !(names[0].Str? && Get(data, names[0].s).Some?) {
        RequiredExtends(data, names[1..], path, errors + [MissingField(path, names[0])]);
      }
    }
  }

  /** Whatever the data has of these properties is accepted. */
  ghost predicate Fulfils(data: Value, properties: seq<Field>)
    requires data.Obj?
    decreases data, 0
  {
    forall j :: 0 <= j < |properties| && Get(data.fields, properties[j].key).Some? ==>
      Accepts(Get(data.fields, properties[j].key).value, properties[j].value, false)
  }

  lemma FulfilsCons(data: Value, properties: seq<Field>)
    requires data.Obj? && |properties| > 0
    ensures var first := Get(data.fields, properties[0].key);
            Fulfils(data, properties) <==>
            Fulfils(data, properties[1..]) && (first.Some? ==> Accepts(first.value, properties[0].value, false))
  {
    var rest := properties[1..];
    if Fulfils(data, rest) && (Get(data.fields, properties[0].key).Some? ==> Accepts(Get(data.fields, properties[0].key).value, properties[0].value, false)) {
      assert forall j :: 0 < j < |properties| ==> properties[j] == rest[j - 1];
    }
    if Fulfils(data, properties) {
      assert forall j :: 0 <= j < |rest| ==> rest[j] == properties[j + 1];
    }
  }

  /** The checker adds no error, and does not raise, exactly for the data its schema accepts: for
      every schema made of proper dicts and whatever was collected before. */
  lemma {:induction false} CheckExactly(data: Value, schema: Value, path: string, errors: seq<Error>)
    requires UniqueKeys(schema)
    ensures Check(data, schema, path, errors) == Errors(errors) <==> Accepts(data, schema, false)
    decreases data, 2, 0
  {
    if schema.Obj? && Lookup(schema.fields, "type") == Str("object") && data.Obj? {
      FieldsExactly(data, schema, path, errors);
    } else if schema.Obj? && Truthy(Lookup(schema.fields, "type")) && Lookup(schema.fields, "type").Str? &&
              !IsInstance(data, Lookup(schema.fields, "type").s) {
      assert |errors + [WrongType(path, Lookup(schema.fields, "type"))]| != |errors|;
    }
  }

  lemma {:induction false} FieldsExactly(data: Value, schema: Value, path: string, errors: seq<Error>)
    requires UniqueKeys(schema) && schema.Obj? && data.Obj? && Lookup(schema.fields, "type") == Str("object")
    ensures Check(data, schema, path, errors) == Errors(errors) <==> AcceptsFields(data, schema.fields, false)
    decreases data, 1, 0
  {
    if RequiredNames(schema.fields).Some? {
      var names := RequiredNames(schema.fields).value;
      RequiredExactly(data.fields, names, path, errors);
      match Get(schema.fields, "properties") {
        case Some(Obj(properties)) =>
          SubschemaIsUnique(schema, "properties");
          PropertiesExactly(data, properties, path, errors);
          if HasNames(data.fields, names) {
            FulfilsFields(data, schema.fields);
          } else if CheckRequired(data.fields, names, path, errors).Errors? {
            MissingStays(data, properties, names, path, errors);
          }
        case _ =>
      }
    }
  }

  lemma SubschemaIsUnique(schema: Value, key: string)
    requires UniqueKeys(schema) && schema.Obj? && Get(schema.fields, key).Some?
    ensures UniqueKeys(Get(schema.fields, key).value)
    ensures forall c :: c in Children(Get(schema.fields, key).value) ==> UniqueKeys(c)
  {
    var i := Find(schema.fields, key);
    assert Children(schema)[i] in Children(schema);
  }

  /** An error about a missing name is still there after the properties. */
  lemma MissingStays(data: Value, properties: seq<Field>, names: seq<Value>, path: string, errors: seq<Error>)
    requires data.Obj? && CheckRequired(data.fields, names, path, errors).Errors? && !HasNames(data.fields, names)
    ensures CheckProperties(data, properties, path, CheckRequired(data.fields, names, path, errors).errors) != Errors(errors)
  {
    var sofar := CheckRequired(data.fields, names, path, errors).errors;
    RequiredExactly(data.fields, names, path, errors);
    RequiredExtends(data.fields, names, path, errors);
    PropertiesExtend(data, properties, path, sofar);
    ExtendsFrom(CheckProperties(data, properties, path, sofar), sofar, errors);
  }

  lemma {:induction false} PropertiesExactly(data: Value, properties: seq<Field>, path: string, errors: seq<Error>)
    requires data.Obj? && forall c :: c in Children(Obj(properties)) ==> UniqueKeys(c)
    ensures CheckProperties(data, properties, path, errors) == Errors(errors) <==> Fulfils(data, properties)
    decreases data, 0, |properties|
  {
    if |properties| > 0 {
      var first := properties[0];
      var below := path + "." + first.key;
      assert Children(Obj(properties))[0] in Children(Obj(properties));
      UniqueRest(properties);
      FulfilsCons(data, properties);
      PropertiesExactly(data, properties[1..], path, errors);
      if Get(data.fields, first.key).Some? {
        var value := Get(data.fields, first.key).value;
        CheckExactly(value, first.value, below, errors);
        CheckExtends(value, first.value, below, errors);
        if Check(value, first.value, below, errors).Errors? {
          var sofar := Check(value, first.value, below, errors).errors;
          PropertiesExtend(data, properties[1..], path, sofar);
          ExtendsFrom(CheckProperties(data, properties[1..], path, sofar), sofar, errors);
        }
      }
    }
  }

  lemma UniqueRest(properties: seq<Field>)
    requires |properties| > 0 && forall c :: c in Children(Obj(properties)) ==> UniqueKeys(c)
    ensures forall c :: c in Children(Obj(properties[1..])) ==> UniqueKeys(c)
  {
    var all, rest := Children(Obj(properties)), Children(Obj(properties[1..]));
    forall c | c in rest ensures UniqueKeys(c) {
      var i :| 0 <= i < |rest| && rest[i] == c;
      assert all[i + 1] == c && c in all;
    }
  }

  /** In a proper dict, going through the properties is going through the data's own fields. */
  lemma FulfilsFields(data: Value, schema: seq<Field>)
    requires data.Obj? && Lookup(schema, "properties").Obj? && UniqueKeys(Lookup(schema, "properties"))
    requires RequiredNames(schema).Some? && HasNames(data.fields, RequiredNames(schema).value)
    ensures AcceptsFields(data, schema, false) <==> Fulfils(data, Lookup(schema, "properties").fields)
  {
    var properties := Lookup(schema, "properties").fields;
    if AcceptsFields(data, schema, false) {
      forall j | 0 <= j < |properties| && Get(data.fields, properties[j].key).Some?
        ensures Accepts(Get(data.fields, properties[j].key).value, properties[j].value, false)
      {
        GetFirst(properties, properties[j].key, j);
        var i := Find(data.fields, properties[j].key);
        assert data.fields[i].key == properties[j].key;
      }
    }
    if Fulfils(data, properties) {
      forall i | 0 <= i < |data.fields| && Get(data.fields, data.fields[i].key) == Some(data.fields[i].value)
        ensures var sub := Get(properties, data.fields[i].key); sub.Some? ==> Accepts(data.fields[i].value, sub.value, false)
      {
        var j := Find(properties, data.fields[i].key);
      }
    }
  }
}
