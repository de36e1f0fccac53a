/** What the errors of `_check_minimal_schema` of `core/assertions/builtin.py` say. */
module CheckerErrors {
  import opened Values
  import opened Schema
  import opened MinimalSchema

  /** The types a value has: an integer is a number, and a bool is an integer. */
  function TypesOf(data: Value): set<string> {
    match data
    case Null => {"null"}
    case Bool(_) => {"boolean", "integer", "number"}
    case Int(_) => {"integer", "number"}
    case Float(_) => {"number"}
    case Str(_) => {"string"}
    case Arr(_) => {"array"}
    case Obj(_) => {"object"}
  }

  const TYPES: set<string> := {"object", "array", "string", "number", "integer", "boolean", "null"}

  /** A name that is none of the seven types accepts everything. */
  lemma InstancesAre(data: Value, name: string)
    ensures IsInstance(data, name) <==> name !in TYPES || name in TypesOf(data)
  {
  }

  /** What Python takes for false. */
  lemma FalsyAre(v: Value)
    ensures !Truthy(v) <==> v in {Null, Bool(false), Int(0), Float(0.0), Str(""), Arr([]), Obj([])}
  {
  }

  /** A loop goes through the items of a list, the keys of a dict and the characters of a text, and
      through nothing else. */
  lemma IteratesOver(v: Value, i: nat)
    ensures Iterate(v).Some? <==> v.Arr? || v.Obj? || v.Str?
    ensures Iterate(v).Some? ==> |Iterate(v).value| == if v.Arr? then |v.items| else if v.Obj? then |v.fields| else |v.s|
    ensures Iterate(v).Some? && i < |Iterate(v).value| ==>
              Iterate(v).value[i] == if v.Arr? then v.items[i] else if v.Obj? then Str(v.fields[i].key) else Str([v.s[i]])
  {
  }

  ghost predicate Lacks(data: seq<Field>, names: seq<Value>, path: string, e: Error) {
    exists n :: n in names && e == MissingField(path, n) && !(n.Str? && Get(data, n.s).Some?)
  }

  /** The error is due: the data is not of its type, or lacks a required field, or one of its fields
      gives rise to it further down the path. */
  ghost predicate Complains(data: Value, schema: Value, path: string, e: Error)
    decreases data, 1
  {
    schema.Obj? &&
    var expected := Lookup(schema.fields, "type");
    if expected.Str? && expected.s in TYPES && expected.s !in TypesOf(data) then e == WrongType(path, expected)
    else
      expected == Str("object") && data.Obj? && RequiredNames(schema.fields).Some? &&
      (Lacks(data.fields, RequiredNames(schema.fields).value, path, e) ||
       (Lookup(schema.fields, "properties").Obj? && ComplainsBelow(data, Lookup(schema.fields, "properties").fields, path, e)))
  }

  ghost predicate ComplainsBelow(data: Value, properties: seq<Field>, path: string, e: Error)
    requires data.Obj?
    decreases data, 0
  {
    exists j :: 0 <= j < |properties| && Get(data.fields, properties[j].key).Some? &&
      Complains(Get(data.fields, properties[j].key).value, properties[j].value, path + "." + properties[j].key, e)
  }

  lemma {:induction false} MissingAre(data: seq<Field>, names: seq<Value>, path: string, errors: seq<Error>, e: Error)
    requires CheckRequired(data, names, path, errors).Errors?
    ensures e in CheckRequired(data, names, path, errors).errors <==> e in errors || Lacks(data, names, path, e)
  {
    if |names| > 0 {
      var found := names[0].Str? && Get(data, names[0].s).Some?;
      MissingAre(data, names[1..], path, if found then errors else errors + [MissingField(path, names[0])], e);
      assert forall n :: n in names <==> n == names[0] || n in names[1..];
    }
  }

  lemma BelowCons(data: Value, properties: seq<Field>, path: string, e: Error)
    requires data.Obj? && |properties| > 0
    ensures ComplainsBelow(data, properties, path, e) <==>
            ComplainsBelow(data, properties[1..], path, e) ||
            (Get(data.fields, properties[0].key).Some? &&
             Complains(Get(data.fields, properties[0].key).value, properties[0].value, path + "." + properties[0].key, e))
  {
    var rest := properties[1..];
    assert forall j :: 0 <= j < |rest| ==> rest[j] == properties[j + 1];
    if ComplainsBelow(data, properties, path, e) {
      var j :| 0 <= j < |properties| && Get(data.fields, properties[j].key).Some? &&
        Complains(Get(data.fields, properties[j].key).value, properties[j].value, path + "." + properties[j].key, e);
      if j > 0 {
        assert rest[j - 1] == properties[j];
      }
    }
  }

  lemma {:induction false} BelowAre(data: Value, properties: seq<Field>, path: string, errors: seq<Error>, e: Error)
    requires data.Obj? && CheckProperties(data, properties, path, errors).Errors?
    ensures e in CheckProperties(data, properties, path, errors).errors <==> e in errors || ComplainsBelow(data, properties, path, e)
    decreases data, 0, |properties|
  {
    if |properties| > 0 {
      BelowCons(data, properties, path, e);
      match Get(data.fields, properties[0].key) {
        case None => BelowAre(data, properties[1..], path, errors, e);
        case Some(value) =>
          var below := path + "." + properties[0].key;
          ErrorsAre(value, properties[0].value, below, errors, e);
          BelowAre(data, properties[1..], path, Check(value, properties[0].value, below, errors).errors, e);
      }
    }
  }

  /** Unless it raises, the checker adds exactly the errors that are due, each with its path. */
  lemma {:induction false} ErrorsAre(data: Value, schema: Value, path: string, errors: seq<Error>, e: Error)
    requires Check(data, schema, path, errors).Errors?
    ensures e in Check(data, schema, path, errors).errors <==> e in errors || Complains(data, schema, path, e)
    decreases data, 1, 0
  {
    var expected := Lookup(schema.fields, "type");
    if expected.Str? {
      InstancesAre(data, expected.s);
    }
    if expected == Str("object") && data.Obj? {
      var names := RequiredNames(schema.fields).value;
      MissingAre(data.fields, names, path, errors, e);
      if Lookup(schema.fields, "properties").Obj? {
        BelowAre(data, Lookup(schema.fields, "properties").fields, path, CheckRequired(data.fields, names, path, errors).errors, e);
      }
    }
  }
}
