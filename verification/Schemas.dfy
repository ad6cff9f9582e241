/**
 The schemas of the protocol generator and their meaning, as the generator's own validator gives
 it: `oneOf` holds when exactly one variant does.
 */
module Schemas {
  datatype Json =
    | JNull
    | JBool(truth: bool)
    | JInteger(whole: int)
    | JNumber(number: real)
    | JString(text: string)
    | JArray(items: seq<Json>)
    | JObject(fields: map<string, Json>)

  datatype Schema =
    | OneOf(variants: seq<Schema>)
    | AnyOf(choices: seq<Schema>)
    | Const(expected: Json)
    | Object(properties: map<string, Schema>, required: seq<string>)
    | ArrayOf(element: Schema)
    | StringType | BooleanType | IntegerType | NumberType | NullType

  predicate Matches(schema: Schema, value: Json)
    decreases schema, 1
  {
    match schema
    case OneOf(variants) => Count(variants, value) == 1
    case AnyOf(choices) => exists i :: 0 <= i < |choices| && Matches(choices[i], value)
    case Const(expected) => value == expected
    case Object(properties, required) =>
      value.JObject?
      && (forall key :: key in required ==> key in value.fields)
      && (forall key :: key in value.fields ==> key in properties && Matches(properties[key], value.fields[key]))
    case ArrayOf(element) => value.JArray? && forall i :: 0 <= i < |value.items| ==> Matches(element, value.items[i])
    case StringType => value.JString?
    case BooleanType => value.JBool?
    case IntegerType => value.JInteger?
    case NumberType => value.JInteger? || value.JNumber?
    case NullType => value.JNull?
  }

  /** How many of the variants the value matches. */
  function Count(variants: seq<Schema>, value: Json): nat
    decreases variants, 0
  {
    if variants == [] then 0
    else (if Matches(variants[0], value) then 1 else 0) + Count(variants[1..], value)
  }

  /** What a tree of `oneOf` ends in. */
  function Leaves(schema: Schema): seq<Schema>
    decreases schema, 1
  {
    match schema
    case OneOf(variants) => LeavesOf(variants)
    case _ => [schema]
  }

  function LeavesOf(variants: seq<Schema>): seq<Schema>
    decreases variants, 0
  {
    if variants == [] then [] else Leaves(variants[0]) + LeavesOf(variants[1..])
  }

  /** The names that an object of the schema can have. */
  function Names(schema: Schema): set<string> {
    set leaf, name | leaf in Leaves(schema) && leaf.Object? && name in leaf.properties :: name
  }

  /** Every object that the schema asks for can have the fields that it must have. */
  predicate WellFormed(schema: Schema) {
    forall leaf :: leaf in Leaves(schema) && leaf.Object? ==>
      forall name :: name in leaf.required ==> name in leaf.properties
  }

  predicate ObjectTree(schema: Schema) {
    WellFormed(schema) && forall leaf :: leaf in Leaves(schema) ==> leaf.Object?
  }

  /** The part of an object that some names select. */
  function Part(fields: map<string, Json>, names: set<string>): map<string, Json> {
    map key | key in fields && key in names :: fields[key]
  }

  lemma VariantLeaves(variants: seq<Schema>, i: nat)
    requires i < |variants|
    ensures forall leaf :: leaf in Leaves(variants[i]) ==> leaf in LeavesOf(variants)
    ensures |Leaves(variants[i])| <= |LeavesOf(variants)|
  {
    if i > 0 {
      VariantLeaves(variants[1..], i - 1);
    }
  }

  /** Only objects with known names match a tree of objects. */
  lemma {:induction false} MatchHasNames(schema: Schema, value: Json)
    requires forall leaf :: leaf in Leaves(schema) ==> leaf.Object?
    requires Matches(schema, value)
    ensures value.JObject? && value.fields.Keys <= Names(schema)
    decreases schema
  {
    if schema.OneOf? {
      var i := Counted(schema.variants, value);
      VariantLeaves(schema.variants, i);
      MatchHasNames(schema.variants[i], value);
    } else {
      assert schema in Leaves(schema);
    }
  }

  lemma {:induction false} Counted(variants: seq<Schema>, value: Json) returns (i: nat)
    requires Count(variants, value) > 0
    ensures i < |variants| && Matches(variants[i], value)
  {
    if Matches(variants[0], value) {
      i := 0;
    } else {
      var j := Counted(variants[1..], value);
      i := j + 1;
    }
  }

  /** A tree with no leaf matches nothing. */
  lemma {:induction false} NoLeafNoMatch(schema: Schema, value: Json)
    requires Leaves(schema) == []
    ensures !Matches(schema, value)
    decreases schema
  {
    if Count(schema.variants, value) > 0 {
      var i := Counted(schema.variants, value);
      VariantLeaves(schema.variants, i);
      NoLeafNoMatch(schema.variants[i], value);
    }
  }
}
