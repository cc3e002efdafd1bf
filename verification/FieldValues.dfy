/** Values handed to a field list: run inputs and step outputs
    (`validate_values` of backend/fund_kb/capability_schema.py). */
module FieldValues {
  import opened Wrappers
  import opened StepGraph

  // `isDate` is what the format checker says of the text; `integral` whether a number has no fraction.
  datatype Value = Text(chars: string, isDate: bool) | Num(integral: bool) | Flag(on: bool) | Structured
  type Values = map<string, Value>

  predicate Space(c: char) {
    var n := c as int;
    || 0x09 <= n <= 0x0D || 0x1C <= n <= 0x20 || n in {0x85, 0xA0, 0x1680} || 0x2000 <= n <= 0x200A
    || n in {0x2028, 0x2029, 0x202F, 0x205F, 0x3000}
  }

  predicate Blank(s: string) {
    forall i | 0 <= i < |s| :: Space(s[i])
  }

  predicate Accepts(f: Field, v: Value) {
    match f.fieldType
    case StringField => v.Text? && (f.required ==> !Blank(v.chars))
    case NumberField => v.Num?
    case IntegerField => v.Num? && v.integral
    case BooleanField => v.Flag?
    case DateField => v.Text? && v.isDate
    case JsonField => true
  }

  /** The field that speaks for a key: the last one carrying it. */
  function Governing(fields: seq<Field>, key: string): (f: Option<Field>)
    ensures f.Some? ==> f.value in fields && f.value.key == key
    ensures f.None? <==> forall i | 0 <= i < |fields| :: fields[i].key != key
  {
    if fields == [] then None
    else
      var last := fields[|fields| - 1];
      if last.key == key then Some(last) else Governing(fields[..|fields| - 1], key)
  }

  predicate Fits(fields: seq<Field>, key: string, v: Value) {
    var f := Governing(fields, key);
    f.Some? && Accepts(f.value, v)
  }

  /** No unknown key, every value accepted by its field, and, unless partial, every required key present. */
  predicate Conforms(fields: seq<Field>, values: Values, partial: bool) {
    && (forall k | k in values :: Fits(fields, k, values[k]))
    && (!partial ==> forall i | 0 <= i < |fields| && fields[i].required :: fields[i].key in values)
  }

  method ValidateValues(fields: seq<Field>, values: Values, partial: bool) returns (ok: bool)
    ensures ok <==> Conforms(fields, values, partial)
  {
    var properties: map<string, Field> := map[];
    for n := 0 to |fields|
      invariant forall k :: Governing(fields[..n], k) == if k in properties then Some(properties[k]) else None
    {
      assert fields[..n + 1][..n] == fields[..n];
      properties := properties[fields[n].key := fields[n]];
    }
    assert fields[..|fields|] == fields;
    var required := if partial then {} else set i | 0 <= i < |fields| && fields[i].required :: fields[i].key;
    assert !partial ==> forall i | 0 <= i < |fields| && fields[i].required :: fields[i].key in required;
    return (forall k | k in values :: k in properties && Accepts(properties[k], values[k]))
           && (forall k | k in required :: k in values);
  }

  // ----- every field list can be filled in

  function Sample(f: Field): (v: Value)
    ensures Accepts(f, v)
  {
    match f.fieldType
    case StringField => assert !Space("x"[0]); Text("x", false)
    case NumberField => Num(true)
    case IntegerField => Num(true)
    case BooleanField => Flag(true)
    case DateField => Text("2026-01-01", true)
    case JsonField => Structured
  }

  function Samples(fields: seq<Field>): Values {
    if fields == [] then map[]
    else Samples(fields[..|fields| - 1])[fields[|fields| - 1].key := Sample(fields[|fields| - 1])]
  }

  lemma {:induction false} SamplesConform(fields: seq<Field>)
    ensures Conforms(fields, Samples(fields), false)
  {
    if fields != [] {
      SamplesConform(fields[..|fields| - 1]);
    }
  }
}
