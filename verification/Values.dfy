/** Parsed JSON/YAML values: what `json.loads` and `yaml.safe_load` return, and what the
    modules below pass around as `dict`, `list`, `str`, `int`, `float`, `bool` and `None`.
    An object keeps its fields in insertion order, as a Python dict does; lookups take the
    first field with the key, so a dict (unique keys) is a special case of `Obj`. */
module Values {

  /** Also used with `:-`, where `None` stands for a raised exception. */
  datatype Option<+T> = None | Some(value: T) {
    predicate IsFailure() { None? }

    function PropagateFailure<U>(): Option<U>
      requires None?
    {
      None
    }

    function Extract(): T
      requires Some?
    {
      value
    }
  }

  datatype Field = Field(key: string, value: Value)

  datatype Value =
    | Null
    | Bool(b: bool)
    | Int(i: int)
    | Float(r: real)
    | Str(s: string)
    | Arr(items: seq<Value>)
    | Obj(fields: seq<Field>)

  /** The position of the first field with the key; `|fields|` when there is none. */
  function Find(fields: seq<Field>, key: string): (i: nat)
    ensures i <= |fields| && (i < |fields| ==> fields[i].key == key)
  {
    if |fields| == 0 || fields[0].key == key then 0 else 1 + Find(fields[1..], key)
  }

  /** `d.get(key)` without a default; `None` means that the key is absent. */
  function Get(fields: seq<Field>, key: string): (r: Option<Value>)
    ensures r.Some? ==> r.value < Obj(fields)
  {
    var i := Find(fields, key);
    if i < |fields| then
      assert fields[i] < Obj(fields);
      Some(fields[i].value)
    else None
  }

  /** `d[key] = value`: overwrites in place or appends. */
  function Put(fields: seq<Field>, key: string, value: Value): seq<Field> {
    if |fields| == 0 then [Field(key, value)]
    else if fields[0].key == key then [Field(key, value)] + fields[1..]
    else [fields[0]] + Put(fields[1..], key, value)
  }

  /** What a write changes: the written key and nothing else. */
  lemma {:induction false} GetAfterPut(fields: seq<Field>, key: string, value: Value, other: string)
    ensures Get(Put(fields, key, value), other) == if other == key then Some(value) else Get(fields, other)
  {
    if |fields| != 0 && fields[0].key != key {
      GetAfterPut(fields[1..], key, value, other);
    }
  }

  /** The values one level below `v`: list items, or the fields' values in order. */
  function Children(v: Value): (cs: seq<Value>)
    ensures forall c :: c in cs ==> c < v
  {
    match v
    case Arr(items) => items
    case Obj(fields) =>
      var cs := seq(|fields|, i requires 0 <= i < |fields| => fields[i].value);
      assert forall c :: c in cs ==> exists i :: 0 <= i < |fields| && c == fields[i].value && fields[i] < v;
      cs
    case _ => []
  }

  /** `v` with its children replaced one for one: what a comprehension over a dict or list builds. */
  function WithChildren(v: Value, cs: seq<Value>): (r: Value)
    requires |cs| == |Children(v)|
    ensures Children(r) == cs
  {
    match v
    case Arr(_) => Arr(cs)
    case Obj(fields) => Obj(seq(|fields|, i requires 0 <= i < |fields| => Field(fields[i].key, cs[i])))
    case _ => v
  }

  /** One step down from a value. */
  datatype Step = Key(name: string) | Index(pos: nat)

  function StepInto(v: Value, step: Step): Option<Value> {
    match (v, step)
    case (Obj(fields), Key(name)) => Get(fields, name)
    case (Arr(items), Index(pos)) => if pos < |items| then Some(items[pos]) else None
    case _ => None
  }

  /** What is at the end of a path, if anything is. */
  function At(v: Value, path: seq<Step>): Option<Value>
    decreases |path|
  {
    if |path| == 0 then Some(v)
    else match StepInto(v, path[0])
      case Some(next) => At(next, path[1..])
      case None => None
  }

  /** `Get` returns the child at the first position with the key, whatever the values are. */
  lemma {:induction false} StepIntoChild(v: Value, step: Step) returns (at: nat)
    ensures StepInto(v, step).Some? ==>
              at < |Children(v)| &&
              forall cs :: |cs| == |Children(v)| ==> StepInto(WithChildren(v, cs), step) == Some(cs[at])
    ensures StepInto(v, step).None? ==>
              forall cs :: |cs| == |Children(v)| ==> StepInto(WithChildren(v, cs), step).None?
  {
    at := 0;
    match (v, step) {
      case (Obj(fields), Key(name)) =>
        while at < |fields| && fields[at].key != name
          invariant at <= |fields|
          invariant forall j :: 0 <= j < at ==> fields[j].key != name
        {
          at := at + 1;
        }
        forall cs: seq<Value> | |cs| == |Children(v)|
          ensures StepInto(WithChildren(v, cs), step) == if at < |fields| then Some(cs[at]) else None
        {
          GetFirst(WithChildren(v, cs).fields, name, at);
        }
        assert WithChildren(v, Children(v)) == v;
      case (Arr(items), Index(pos)) => at := pos;
      case _ =>
    }
  }

  lemma {:induction false} GetFirst(fields: seq<Field>, key: string, at: nat)
    requires at <= |fields|
    requires forall j :: 0 <= j < at ==> fields[j].key != key
    requires at < |fields| ==> fields[at].key == key
    ensures Get(fields, key) == if at < |fields| then Some(fields[at].value) else None
  {
    if at > 0 {
      GetFirst(fields[1..], key, at - 1);
    }
  }

  /** A Python value: every dict in it has each key once. */
  ghost predicate UniqueKeys(v: Value) {
    (v.Obj? ==> forall i, j :: 0 <= i < j < |v.fields| ==> v.fields[i].key != v.fields[j].key) &&
    forall c :: c in Children(v) ==> UniqueKeys(c)
  }

  /** With unique keys every child can be named. */
  lemma ChildHasStep(v: Value, c: Value) returns (step: Step)
    requires UniqueKeys(v) && c in Children(v)
    ensures StepInto(v, step) == Some(c)
  {
    var i :| 0 <= i < |Children(v)| && Children(v)[i] == c;
    if v.Obj? {
      step := Key(v.fields[i].key);
      GetFirst(v.fields, v.fields[i].key, i);
    } else {
      step := Index(i);
    }
  }
}
