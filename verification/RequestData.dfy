/** `adapters/rest/request_data.py`: data generated from a schema, and why it may be trusted. */
module RequestData {
  import opened Values
  import opened Schema

  const MAX_DEPTH: nat := 10

  /** Python's `int(text)` and `float(text)`, on texts only; `None` is a ValueError. */
  datatype TextNumbers = TextNumbers(toInt: string -> Option<int>, toFloat: string -> Option<real>)

  /** The pair `(value, confident)`, or an exception. */
  datatype Generated = Made(value: Value, confident: bool) | Raised

  const UNSURE := Made(Null, false)

  function FormatDefault(format: string): string {
    match format
    case "date" => "2024-01-01"
    case "date-time" => "2024-01-01T00:00:00Z"
    case "email" => "test@example.com"
    case "uuid" => "00000000-0000-0000-0000-00000000"
    case "uri" => "https://example.com/resource"
    case "hostname" => "example.com"
    case "ipv4" => "203.0.113.1"
    case _ => "test string"
  }

  function GenerateString(format: Value): Generated {
    match format
    case Str(name) => Made(Str(FormatDefault(name)), true)
    case _ => if Hashable(format) then Made(Str(FormatDefault("")), true) else Raised
  }

  /** `int(r)` cuts towards zero. */
  function Truncate(r: real): int {
    if r >= 0.0 then r.Floor else -((-r).Floor)
  }

  function GenerateInteger(minimum: Value, text: TextNumbers): Generated {
    match minimum
    case Null => Made(Int(0), true)
    case Int(i) => Made(Int(i), true)
    case Float(r) => Made(Int(Truncate(r)), true)
    case Bool(b) => Made(Int(if b then 1 else 0), true)
    case Str(s) => (match text.toInt(s) case Some(i) => Made(Int(i), true) case None => Raised)
    case _ => Raised
  }

  function GenerateNumber(minimum: Value, text: TextNumbers): Generated {
    match minimum
    case Null => Made(Float(0.0), true)
    case Int(i) => Made(Float(i as real), true)
    case Float(r) => Made(Float(r), true)
    case Bool(b) => Made(Float(if b then 1.0 else 0.0), true)
    case Str(s) => (match text.toFloat(s) case Some(r) => Made(Float(r), true) case None => Raised)
    case _ => Raised
  }

  function Budget(depth: nat): nat { if depth <= MAX_DEPTH then MAX_DEPTH + 1 - depth else 0 }

  function GenerateValue(schema: Value, depth: nat, text: TextNumbers): Generated
    decreases Budget(depth), 3, 0
  {
    if depth > MAX_DEPTH || !schema.Obj? then UNSURE
    else
      var raw := schema.fields;
      if Get(raw, "example").Some? then Made(Get(raw, "example").value, true)
      else if Get(raw, "default").Some? then Made(Get(raw, "default").value, true)
      else if Lookup(raw, "enum").Arr? && Lookup(raw, "enum").items != [] then Made(Lookup(raw, "enum").items[0], true)
      else GenerateByType(raw, depth, text)
  }

  function GenerateByType(raw: seq<Field>, depth: nat, text: TextNumbers): Generated
    requires depth <= MAX_DEPTH
    decreases Budget(depth), 2, 0
  {
    var kind := Lookup(raw, "type");
    if kind == Str("string") then GenerateString(Lookup(raw, "format"))
    else if kind == Str("integer") then GenerateInteger(Lookup(raw, "minimum"), text)
    else if kind == Str("number") then GenerateNumber(Lookup(raw, "minimum"), text)
    else if kind == Str("boolean") then Made(Bool(true), true)
    else if kind == Str("array") then GenerateArray(raw, depth, text)
    else if kind == Str("object") || (kind == Null && Get(raw, "properties").Some?) then GenerateObject(raw, depth, text)
    else if Lookup(raw, "allOf").Arr? then GenerateAllOf(Lookup(raw, "allOf").items, depth, text)
    else UNSURE
  }

  /** `[value] * count`; a float count or a non-number raises. */
  function Repeated(value: Value, count: Value): Generated {
    match count
    case Int(n) => Made(Arr(seq(if n > 0 then n else 0, _ => value)), true)
    case Bool(b) => Made(Arr(if b then [value] else []), true)
    case _ => Raised
  }

  function GenerateArray(raw: seq<Field>, depth: nat, text: TextNumbers): Generated
    requires depth <= MAX_DEPTH
    decreases Budget(depth), 1, 0
  {
    var given := Lookup(raw, "minItems");
    var minItems := if Truthy(given) then given else Int(0);
    match minItems
    case Int(n) => if n <= 0 then Made(Arr([]), true) else GenerateItems(raw, minItems, depth, text)
    case Float(r) => if r <= 0.0 then Made(Arr([]), true) else GenerateItems(raw, minItems, depth, text)
    case Bool(_) => GenerateItems(raw, minItems, depth, text)
    case _ => Raised
  }

  function GenerateItems(raw: seq<Field>, minItems: Value, depth: nat, text: TextNumbers): Generated
    requires depth <= MAX_DEPTH
    decreases Budget(depth), 0, 0
  {
    var items := Lookup(raw, "items");
    if !items.Obj? then UNSURE
    else
      match GenerateValue(items, depth + 1, text)
      case Raised => Raised
      case Made(value, confident) => if confident then Repeated(value, minItems) else UNSURE
  }

  function PropertiesOf(raw: seq<Field>): seq<Field> {
    match Get(raw, "properties")
    case Some(Obj(properties)) => properties
    case _ => []
  }

  function GenerateObject(raw: seq<Field>, depth: nat, text: TextNumbers): Generated
    requires depth <= MAX_DEPTH
    decreases Budget(depth), 1, 0
  {
    match RequiredNames(raw)
    case None => Raised
    case Some(names) => FillRequired(PropertiesOf(raw), names, [], depth, text)
  }

  /** The loop over the required names; `made` is the dict built so far. */
  function FillRequired(properties: seq<Field>, names: seq<Value>, made: seq<Field>, depth: nat, text: TextNumbers): Generated
    requires depth <= MAX_DEPTH
    decreases Budget(depth), 0, |names|
  {
    if |names| == 0 then Made(Obj(made), true)
    else if !Hashable(names[0]) then Raised
    else if !names[0].Str? || Lookup(properties, names[0].s) == Null then UNSURE
    else
      match GenerateValue(Lookup(properties, names[0].s), depth + 1, text)
      case Raised => Raised
      case Made(value, confident) =>
        if !confident then UNSURE
        else FillRequired(properties, names[1..], Put(made, names[0].s, value), depth, text)
  }

  /** `_generate_object` as the loop it is. */
  method GenerateObjectLoop(raw: seq<Field>, depth: nat, text: TextNumbers) returns (r: Generated)
    requires depth <= MAX_DEPTH
    ensures r == GenerateObject(raw, depth, text)
  {
    var properties := PropertiesOf(raw);
    var required := RequiredNames(raw);
    if required.None? {
      return Raised;
    }
    var names := required.value;
    var result: seq<Field> := [];
    var i := 0;
    while i < |names|
      invariant 0 <= i <= |names|
      invariant FillRequired(properties, names[i..], result, depth, text) == GenerateObject(raw, depth, text)
    {
      assert names[i..][0] == names[i] && names[i..][1..] == names[i + 1..];
      var name := names[i];
      if !Hashable(name) {
        return Raised;
      }
      if !name.Str? || Lookup(properties, name.s) == Null {
        return UNSURE;
      }
      match GenerateValue(Lookup(properties, name.s), depth + 1, text) {
        case Raised => return Raised;
        case Made(value, confident) =>
          if !confident {
            return UNSURE;
          }
          result := Put(result, name.s, value);
      }
      i := i + 1;
    }
    r := Made(Obj(result), true);
  }

  // ---------------------------------------------------------------- allOf

  datatype Merged = Merged(properties: seq<Field>, required: seq<Value>) | NotADict | MergeRaised

  /** `d.update(fields)`. */
  function Update(d: seq<Field>, fields: seq<Field>): seq<Field>
    decreases |fields|
  {
    if |fields| == 0 then d else Update(Put(d, fields[0].key, fields[0].value), fields[1..])
  }

  /** `sub.get("properties", {}) or {}`; `None` for a value that `update` rejects. */
  function BranchProperties(sub: seq<Field>): Option<seq<Field>> {
    var p := Lookup(sub, "properties");
    if !Truthy(p) then Some([]) else if p.Obj? then Some(p.fields) else None
  }

  /** `sub.get("required", []) or []`, as `extend` reads it. */
  function BranchRequired(sub: seq<Field>): Option<seq<Value>> {
    var r := Lookup(sub, "required");
    if !Truthy(r) then Some([]) else Iterate(r)
  }

  function MergeBranch(acc: Merged, sub: Value): Merged
    requires acc.Merged?
  {
    if !sub.Obj? then NotADict
    else match (BranchProperties(sub.fields), BranchRequired(sub.fields))
      case (Some(p), Some(r)) => Merged(Update(acc.properties, p), acc.required + r)
      case _ => MergeRaised
  }

  function Merge(subs: seq<Value>): Merged {
    if |subs| == 0 then Merged([], [])
    else
      var before := Merge(subs[..|subs| - 1]);
      if before.Merged? then MergeBranch(before, subs[|subs| - 1]) else before
  }

  function GenerateAllOf(subs: seq<Value>, depth: nat, text: TextNumbers): Generated
    requires depth <= MAX_DEPTH
    decreases Budget(depth), 1, 0
  {
    match Merge(subs)
    case NotADict => UNSURE
    case MergeRaised => Raised
    case Merged(properties, required) => FillRequired(properties, required, [], depth, text)
  }

  /** `_generate_all_of` as the loop it is. */
  method GenerateAllOfLoop(subs: seq<Value>, depth: nat, text: TextNumbers) returns (r: Generated)
    requires depth <= MAX_DEPTH
    ensures r == GenerateAllOf(subs, depth, text)
  {
    var merged := Merged([], []);
    var i := 0;
    while i < |subs|
      invariant 0 <= i <= |subs|
      invariant merged == Merge(subs[..i]) && merged.Merged?
    {
      assert subs[..i + 1][..i] == subs[..i] && subs[..i + 1][i] == subs[i];
      merged := MergeBranch(merged, subs[i]);
      if !merged.Merged? {
        MergeStuck(subs, i + 1);
        return if merged.NotADict? then UNSURE else Raised;
      }
      i := i + 1;
    }
    assert subs[..i] == subs;
    var raw := [Field("properties", Obj(merged.properties)), Field("required", Arr(merged.required))];
    assert Get(raw, "required") == Some(Arr(merged.required)) by { GetFirst(raw, "required", 1); }
    r := GenerateObjectLoop(raw, depth, text);
  }

  lemma {:induction false} MergeStuck(subs: seq<Value>, n: nat)
    requires n <= |subs| && !Merge(subs[..n]).Merged?
    ensures Merge(subs) == Merge(subs[..n])
    decreases |subs|
  {
    if n == |subs| {
      assert subs[..n] == subs;
    } else {
      var init := subs[..|subs| - 1];
      assert init[..n] == subs[..n];
      MergeStuck(init, n);
    }
  }
}
