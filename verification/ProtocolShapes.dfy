/**
 The schemas that the protocol generator builds with its merge: a structure's fields, where a
 flattened field gives its own fields, and an enumeration's variants with their tags.
 */
module ProtocolShapes {
  import opened Wrappers
  import opened Schemas
  import opened Flattening

  // ----- The fields of a structure -----

  /** A field with its described type. A skipped field never goes out. */
  datatype Field = Field(name: string, schema: Schema, skipped: bool, flatten: bool, optional: bool)

  function One(name: string, schema: Schema, required: bool): Schema {
    Object(map[name := schema], if required then [name] else [])
  }

  function FieldSchema(field: Field): Schema {
    if field.flatten then field.schema else One(field.name, field.schema, !field.optional)
  }

  function Folded(base: Schema, fields: seq<Field>): Merged
    decreases fields
  {
    if fields == [] then Ok(base)
    else if fields[0].skipped then Folded(base, fields[1..])
    else
      match Merge(base, FieldSchema(fields[0]))
      case Err(problem) => Err(problem)
      case Ok(merged) => Folded(merged, fields[1..])
  }

  function Structure(fields: seq<Field>): Merged {
    Folded(Object(map[], []), fields)
  }

  method StructureOf(fields: seq<Field>) returns (shape: Merged)
    ensures shape == Structure(fields)
  {
    var base := Object(map[], []);
    for i := 0 to |fields|
      invariant Folded(base, fields[i..]) == Structure(fields)
    {
      var field := fields[i];
      assert fields[i..][0] == field && fields[i..][1..] == fields[i + 1..];
      if field.skipped {
        continue;
      }
      var merged := Merge(base, FieldSchema(field));
      if merged.Err? {
        return merged;
      }
      base := merged.value;
    }
    shape := Ok(base);
  }

  /** The names that the fields bring in. */
  function FieldNames(fields: seq<Field>): set<string> {
    if fields == [] then {}
    else (if fields[0].skipped then {} else Names(FieldSchema(fields[0]))) + FieldNames(fields[1..])
  }

  /** Each field that goes out takes its part of an object. */
  predicate EachTakesItsPart(fields: seq<Field>, values: map<string, Json>) {
    if fields == [] then true
    else
      (fields[0].skipped
       || Matches(FieldSchema(fields[0]), JObject(Part(values, Names(FieldSchema(fields[0]))))))
      && EachTakesItsPart(fields[1..], values)
  }

  predicate FieldsWellFormed(fields: seq<Field>) {
    forall i :: 0 <= i < |fields| ==> WellFormed(FieldSchema(fields[i])) && Leaves(FieldSchema(fields[i])) != []
  }

  lemma MergedNames(left: Schema, right: Schema)
    requires Merge(left, right).Ok? && Leaves(left) != [] && Leaves(right) != []
    ensures Names(Merge(left, right).value) == Names(left) + Names(right)
    ensures Leaves(Merge(left, right).value) != []
  {
    MergedLeaves(left, right);
    MergeSucceeds(left, right);
    var merged := Merge(left, right).value;
    var someLeft, someRight := Leaves(left)[0], Leaves(right)[0];
    assert Apart(someLeft, someRight);
    assert IsTogether(Together(someLeft, someRight), Leaves(left), Leaves(right));
    forall name | name in Names(left) ensures name in Names(merged) {
      var leaf :| leaf in Leaves(left) && leaf.Object? && name in leaf.properties;
      assert IsTogether(Together(leaf, someRight), Leaves(left), Leaves(right));
      assert name in Together(leaf, someRight).properties;
    }
    forall name | name in Names(right) ensures name in Names(merged) {
      var leaf :| leaf in Leaves(right) && leaf.Object? && name in leaf.properties;
      assert IsTogether(Together(someLeft, leaf), Leaves(left), Leaves(right));
      assert name in Together(someLeft, leaf).properties;
    }
  }

  lemma TakesAll(base: Schema, values: map<string, Json>)
    requires ObjectTree(base)
    ensures Matches(base, JObject(values))
            <==> values.Keys <= Names(base) && Matches(base, JObject(Part(values, Names(base))))
  {
    if values.Keys <= Names(base) {
      assert Part(values, Names(base)) == values;
    }
    if Matches(base, JObject(values)) {
      MatchHasNames(base, JObject(values));
    }
  }

  lemma PartTwice(values: map<string, Json>, names: set<string>, some: set<string>)
    requires some <= names
    ensures Part(Part(values, names), some) == Part(values, some)
  {
  }

  lemma PartOfPart(base: Schema, added: Schema, values: map<string, Json>)
    requires WellFormed(base) && WellFormed(added) && Merge(base, added).Ok?
    requires Names(Merge(base, added).value) == Names(base) + Names(added)
    ensures
      var merged := Merge(base, added).value;
      Matches(merged, JObject(Part(values, Names(merged))))
      <==> Matches(base, JObject(Part(values, Names(base)))) && Matches(added, JObject(Part(values, Names(added))))
  {
    var names := Names(base) + Names(added);
    MergeMeaning(base, added, Part(values, names));
    PartTwice(values, names, Names(base));
    PartTwice(values, names, Names(added));
  }

  lemma {:induction false} FoldedMeaning(base: Schema, fields: seq<Field>, values: map<string, Json>)
    requires ObjectTree(base) && Leaves(base) != [] && FieldsWellFormed(fields)
    requires Folded(base, fields).Ok?
    ensures ObjectTree(Folded(base, fields).value)
    ensures Matches(Folded(base, fields).value, JObject(values))
            <==> values.Keys <= Names(base) + FieldNames(fields)
                 && Matches(base, JObject(Part(values, Names(base))))
                 && EachTakesItsPart(fields, values)
    decreases fields
  {
    if fields == [] {
      TakesAll(base, values);
    } else if fields[0].skipped {
      FoldedMeaning(base, fields[1..], values);
    } else {
      var added := FieldSchema(fields[0]);
      var merged := Merge(base, added).value;
      MergeKeepsWellFormed(base, added);
      MergedNames(base, added);
      FoldedMeaning(merged, fields[1..], values);
      PartOfPart(base, added, values);
      assert Names(merged) + FieldNames(fields[1..]) == Names(base) + FieldNames(fields);
    }
  }

  /** An object matches a structure exactly when each of its fields takes its part and nothing is left. */
  lemma StructureMeaning(fields: seq<Field>, values: map<string, Json>)
    requires FieldsWellFormed(fields) && Structure(fields).Ok?
    ensures ObjectTree(Structure(fields).value)
    ensures Matches(Structure(fields).value, JObject(values))
            <==> values.Keys <= FieldNames(fields) && EachTakesItsPart(fields, values)
  {
    var nothing := Object(map[], []);
    assert Leaves(nothing) == [nothing];
    LeafNames(nothing);
    FoldedMeaning(nothing, fields, values);
  }

  // ----- When a structure can be built -----

  /** Every two fields that go out have leaves that go together. */
  ghost predicate FieldsApart(fields: seq<Field>) {
    forall i, j :: 0 <= i < j < |fields| && !fields[i].skipped && !fields[j].skipped ==>
      AllApart(Leaves(FieldSchema(fields[i])), Leaves(FieldSchema(fields[j])))
  }

  /** Every field that goes out has leaves that go together with those of the base. */
  ghost predicate ApartFrom(base: Schema, fields: seq<Field>) {
    forall i :: 0 <= i < |fields| && !fields[i].skipped ==> AllApart(Leaves(base), Leaves(FieldSchema(fields[i])))
  }

  lemma MergedApart(left: Schema, right: Schema, others: seq<Schema>)
    requires Merge(left, right).Ok? && Leaves(left) != [] && Leaves(right) != []
    ensures AllApart(Leaves(Merge(left, right).value), others)
      <==> AllApart(Leaves(left), others) && AllApart(Leaves(right), others)
  {
    var merged := Leaves(Merge(left, right).value);
    MergedLeaves(left, right);
    MergeSucceeds(left, right);
    var someLeft, someRight := Leaves(left)[0], Leaves(right)[0];
    if AllApart(merged, others) {
      forall leaf, other | leaf in Leaves(left) && other in others ensures Apart(leaf, other) {
        assert Apart(leaf, someRight);
        assert IsTogether(Together(leaf, someRight), Leaves(left), Leaves(right));
        assert Apart(Together(leaf, someRight), other);
      }
      forall leaf, other | leaf in Leaves(right) && other in others ensures Apart(leaf, other) {
        assert Apart(someLeft, leaf);
        assert IsTogether(Together(someLeft, leaf), Leaves(left), Leaves(right));
        assert Apart(Together(someLeft, leaf), other);
      }
    }
  }

  lemma {:induction false} FoldedSucceeds(base: Schema, fields: seq<Field>)
    requires Leaves(base) != [] && FieldsWellFormed(fields)
    ensures Folded(base, fields).Ok? <==> ApartFrom(base, fields) && FieldsApart(fields)
    decreases fields
  {
    if fields == [] {
    } else {
      var rest := fields[1..];
      FirstApart(base, fields);
      FirstField(fields);
      if fields[0].skipped {
        FoldedSucceeds(base, rest);
      } else {
        var added := FieldSchema(fields[0]);
        MergeSucceeds(base, added);
        if Merge(base, added).Ok? {
          var merged := Merge(base, added).value;
          MergedNames(base, added);
          FoldedSucceeds(merged, rest);
          MergedApartFrom(base, added, rest);
        }
      }
    }
  }

  lemma FirstApart(base: Schema, fields: seq<Field>)
    requires fields != []
    ensures ApartFrom(base, fields) <==>
      (fields[0].skipped || AllApart(Leaves(base), Leaves(FieldSchema(fields[0])))) && ApartFrom(base, fields[1..])
  {
    var own, rest := Leaves(base), fields[1..];
    if ApartFrom(base, fields) {
      forall i | 0 <= i < |rest| && !rest[i].skipped ensures AllApart(own, Leaves(FieldSchema(rest[i]))) {
        assert rest[i] == fields[i + 1];
      }
    } else {
      var i :| 0 <= i < |fields| && !fields[i].skipped && !AllApart(own, Leaves(FieldSchema(fields[i])));
      assert i == 0 || rest[i - 1] == fields[i];
    }
  }

  lemma FirstField(fields: seq<Field>)
    requires fields != []
    ensures FieldsApart(fields) <==>
      (fields[0].skipped || ApartFrom(FieldSchema(fields[0]), fields[1..])) && FieldsApart(fields[1..])
  {
    var rest := fields[1..];
    assert forall i :: 0 < i < |fields| ==> fields[i] == rest[i - 1];
    if FieldsApart(fields) {
      forall i, j | 0 <= i < j < |rest| && !rest[i].skipped && !rest[j].skipped
        ensures AllApart(Leaves(FieldSchema(rest[i])), Leaves(FieldSchema(rest[j])))
      {
        assert rest[i] == fields[i + 1] && rest[j] == fields[j + 1];
      }
      forall i | !fields[0].skipped && 0 <= i < |rest| && !rest[i].skipped
        ensures AllApart(Leaves(FieldSchema(fields[0])), Leaves(FieldSchema(rest[i])))
      {
        assert rest[i] == fields[i + 1];
      }
    }
  }

  lemma MergedApartFrom(base: Schema, added: Schema, fields: seq<Field>)
    requires Merge(base, added).Ok? && Leaves(base) != [] && Leaves(added) != []
    ensures ApartFrom(Merge(base, added).value, fields) <==> ApartFrom(base, fields) && ApartFrom(added, fields)
  {
    forall i | 0 <= i < |fields| && !fields[i].skipped
      ensures AllApart(Leaves(Merge(base, added).value), Leaves(FieldSchema(fields[i])))
        <==> AllApart(Leaves(base), Leaves(FieldSchema(fields[i]))) && AllApart(Leaves(added), Leaves(FieldSchema(fields[i])))
    {
      MergedApart(base, added, Leaves(FieldSchema(fields[i])));
    }
  }

  /** A structure can be built exactly when its fields are objects and no two that go out share a name. */
  lemma StructureSucceeds(fields: seq<Field>)
    requires FieldsWellFormed(fields)
    ensures Structure(fields).Ok? <==>
      FieldsApart(fields)
      && forall i :: 0 <= i < |fields| && !fields[i].skipped ==>
        forall leaf :: leaf in Leaves(FieldSchema(fields[i])) ==> leaf.Object?
  {
    var nothing := Object(map[], []);
    assert Leaves(nothing) == [nothing];
    FoldedSucceeds(nothing, fields);
    forall i | 0 <= i < |fields|
      ensures AllApart(Leaves(nothing), Leaves(FieldSchema(fields[i])))
        <==> forall leaf :: leaf in Leaves(FieldSchema(fields[i])) ==> leaf.Object?
    {
      ApartFromNothing(Leaves(FieldSchema(fields[i])));
    }
  }

  lemma ApartFromNothing(leaves: seq<Schema>)
    ensures AllApart([Object(map[], [])], leaves) <==> forall leaf :: leaf in leaves ==> leaf.Object?
  {
    var nothing := Object(map[], []);
    assert nothing in [nothing];
    assert forall leaf: Schema :: leaf.Object? ==> Apart(nothing, leaf);
  }

  /** The part of a field that is not flattened: its value fits, and it is there unless it is optional. */
  lemma PlainFieldPart(field: Field, values: map<string, Json>)
    requires !field.flatten
    ensures Names(FieldSchema(field)) == {field.name}
    ensures Matches(FieldSchema(field), JObject(Part(values, Names(FieldSchema(field)))))
            <==> (field.name in values ==> Matches(field.schema, values[field.name]))
                 && (!field.optional ==> field.name in values)
  {
    LeafNames(FieldSchema(field));
    OneName(field.name, field.schema, !field.optional, Part(values, {field.name}));
    if field.name in values {
      assert Part(values, {field.name}).Keys == {field.name};
    } else {
      assert Part(values, {field.name}).Keys == {};
    }
  }

  /** What a schema of one field says of an object that has at most this field. */
  lemma OneName(name: string, schema: Schema, required: bool, part: map<string, Json>)
    requires part.Keys <= {name}
    ensures Names(One(name, schema, required)) == {name}
    ensures Matches(One(name, schema, required), JObject(part))
      <==> (name in part ==> Matches(schema, part[name])) && (required ==> name in part)
  {
    var one := One(name, schema, required);
    LeafNames(one);
    assert one.required == if required then [name] else [];
    assert required ==> one.required[0] == name;
  }

  /** How serde writes a field: a flattened one as its own fields, and another one under its name. */
  predicate IsWritten(field: Field, values: map<string, Json>) {
    if field.flatten then Matches(field.schema, JObject(Part(values, Names(field.schema))))
    else
      (field.name in values ==> Matches(field.schema, values[field.name])) && (field.optional || field.name in values)
  }

  function WrittenNames(field: Field): set<string> {
    if field.flatten then Names(field.schema) else {field.name}
  }

  /** Every field that goes out is written, and nothing else is there. */
  predicate AllWritten(fields: seq<Field>, values: map<string, Json>) {
    (forall i :: 0 <= i < |fields| && !fields[i].skipped ==> IsWritten(fields[i], values))
    && forall name :: name in values ==>
      exists i :: 0 <= i < |fields| && !fields[i].skipped && name in WrittenNames(fields[i])
  }

  lemma WrittenIs(field: Field, values: map<string, Json>)
    ensures IsWritten(field, values) <==> Matches(FieldSchema(field), JObject(Part(values, Names(FieldSchema(field)))))
    ensures WrittenNames(field) == Names(FieldSchema(field))
  {
    if !field.flatten {
      PlainFieldPart(field, values);
    }
  }

  lemma {:induction false} EachIsWritten(fields: seq<Field>, values: map<string, Json>)
    ensures EachTakesItsPart(fields, values)
      <==> forall i :: 0 <= i < |fields| && !fields[i].skipped ==> IsWritten(fields[i], values)
  {
    if fields == [] {
    } else {
      EachIsWritten(fields[1..], values);
      WrittenIs(fields[0], values);
      assert forall i :: 0 < i < |fields| ==> fields[i] == fields[1..][i - 1];
      assert forall i :: 0 <= i < |fields[1..]| ==> fields[1..][i] == fields[i + 1];
    }
  }

  lemma {:induction false} NamesAreWritten(fields: seq<Field>, name: string)
    ensures name in FieldNames(fields)
      <==> exists i :: 0 <= i < |fields| && !fields[i].skipped && name in WrittenNames(fields[i])
  {
    if fields == [] {
    } else {
      NamesAreWritten(fields[1..], name);
      WrittenIs(fields[0], map[]);
      if name in FieldNames(fields[1..]) {
        var i :| 0 <= i < |fields| - 1 && !fields[1..][i].skipped && name in WrittenNames(fields[1..][i]);
        assert fields[i + 1] == fields[1..][i];
      }
      assert forall i :: 0 < i < |fields| ==> fields[i] == fields[1..][i - 1];
    }
  }

  /** An object matches a structure exactly when it is how serde writes all fields of one. */
  lemma StructuresMatchExactly(fields: seq<Field>, values: map<string, Json>)
    requires FieldsWellFormed(fields) && Structure(fields).Ok?
    ensures Matches(Structure(fields).value, JObject(values)) <==> AllWritten(fields, values)
  {
    StructureMeaning(fields, values);
    EachIsWritten(fields, values);
    forall name | name in values
      ensures name in FieldNames(fields)
        <==> exists i :: 0 <= i < |fields| && !fields[i].skipped && name in WrittenNames(fields[i])
    {
      NamesAreWritten(fields, name);
    }
  }

  // ----- The variants of an enumeration -----

  /** A variant with its name on the wire. A unit variant has no payload. */
  datatype Variant = Variant(wire: string, payload: Schema, unit: bool)

  datatype Tagging = Untagged | External | Internal(tag: string) | Adjacent(tag: string, content: string)

  function VariantSchema(variant: Variant, tagging: Tagging): Merged {
    match tagging
    case Untagged => Ok(variant.payload)
    case External =>
      if variant.unit then Ok(Const(JString(variant.wire)))
      else Ok(One(variant.wire, variant.payload, true))
    case Internal(tag) =>
      var tagged := One(tag, Const(JString(variant.wire)), true);
      if variant.unit then Ok(tagged) else Merge(tagged, variant.payload)
    case Adjacent(tag, content) =>
      var tagged := One(tag, Const(JString(variant.wire)), true);
      if variant.unit then Ok(tagged) else Merge(tagged, One(content, variant.payload, true))
  }

  function VariantSchemas(variants: seq<Variant>, tagging: Tagging): (schemas: Result<seq<Schema>, Problem>)
    ensures schemas.Ok? ==> |schemas.value| == |variants|
  {
    if variants == [] then Ok([])
    else
      match VariantSchema(variants[0], tagging)
      case Err(problem) => Err(problem)
      case Ok(first) =>
        match VariantSchemas(variants[1..], tagging)
        case Err(problem) => Err(problem)
        case Ok(rest) => Ok([first] + rest)
  }

  function Enumeration(variants: seq<Variant>, tagging: Tagging): Merged {
    match VariantSchemas(variants, tagging)
    case Err(problem) => Err(problem)
    case Ok(schemas) => if schemas == [] then Err(NoVariants) else Ok(OneOf(schemas))
  }

  /** How serde writes a value of the variant. */
  predicate Fits(variant: Variant, tagging: Tagging, value: Json) {
    match tagging
    case Untagged => Matches(variant.payload, value)
    case External =>
      if variant.unit then value == JString(variant.wire)
      else
        value.JObject? && value.fields.Keys == {variant.wire}
        && Matches(variant.payload, value.fields[variant.wire])
    case Internal(tag) =>
      value.JObject? && tag in value.fields && value.fields[tag] == JString(variant.wire)
      && if variant.unit then value.fields.Keys == {tag}
         else Matches(variant.payload, JObject(value.fields - {tag}))
    case Adjacent(tag, content) =>
      value.JObject? && tag in value.fields && value.fields[tag] == JString(variant.wire)
      && if variant.unit then value.fields.Keys == {tag}
         else value.fields.Keys == {tag, content} && Matches(variant.payload, value.fields[content])
  }

  function Fitting(variants: seq<Variant>, tagging: Tagging, value: Json): nat {
    if variants == [] then 0
    else (if Fits(variants[0], tagging, value) then 1 else 0) + Fitting(variants[1..], tagging, value)
  }

  lemma OneMatches(name: string, schema: Schema, values: map<string, Json>)
    ensures Names(One(name, schema, true)) == {name} && ObjectTree(One(name, schema, true))
    ensures Matches(One(name, schema, true), JObject(values))
            <==> values.Keys == {name} && Matches(schema, values[name])
  {
    LeafNames(One(name, schema, true));
    assert name in [name];
    if Matches(One(name, schema, true), JObject(values)) {
      assert name in values;
      assert forall key :: key in values ==> key == name;
    }
  }

  lemma TagPart(tag: string, wire: string, values: map<string, Json>)
    ensures
      var tagged := One(tag, Const(JString(wire)), true);
      Names(tagged) == {tag} && WellFormed(tagged)
      && (Matches(tagged, JObject(Part(values, {tag}))) <==> tag in values && values[tag] == JString(wire))
  {
    OneMatches(tag, Const(JString(wire)), Part(values, {tag}));
    if tag in values {
      assert Part(values, {tag}).Keys == {tag};
    } else {
      assert Part(values, {tag}).Keys == {};
    }
  }

  lemma InternalFits(variant: Variant, tag: string, values: map<string, Json>)
    requires !variant.unit && WellFormed(variant.payload) && VariantSchema(variant, Internal(tag)).Ok?
    ensures Matches(VariantSchema(variant, Internal(tag)).value, JObject(values))
            <==> Fits(variant, Internal(tag), JObject(values))
  {
    var tagged := One(tag, Const(JString(variant.wire)), true);
    TagPart(tag, variant.wire, values);
    MergeMeaning(tagged, variant.payload, values);
    MergedNamesAreApart(tagged, variant.payload);
    MergeSucceeds(tagged, variant.payload);
    assert Leaves(tagged) == [tagged];
    assert forall leaf :: leaf in Leaves(variant.payload) ==> Apart(tagged, leaf);
    var rest := values - {tag};
    if values.Keys <= {tag} + Names(variant.payload) {
      assert Part(values, Names(variant.payload)) == rest;
    }
    if Matches(variant.payload, JObject(rest)) {
      MatchHasNames(variant.payload, JObject(rest));
      assert values.Keys <= {tag} + rest.Keys;
    }
  }

  lemma AdjacentFits(variant: Variant, tag: string, content: string, values: map<string, Json>)
    requires !variant.unit && VariantSchema(variant, Adjacent(tag, content)).Ok?
    ensures Matches(VariantSchema(variant, Adjacent(tag, content)).value, JObject(values))
            <==> Fits(variant, Adjacent(tag, content), JObject(values))
  {
    var tagged := One(tag, Const(JString(variant.wire)), true);
    var held := One(content, variant.payload, true);
    var part := Part(values, {content});
    TagPart(tag, variant.wire, values);
    OneMatches(content, variant.payload, part);
    MergeMeaning(tagged, held, values);
    if content in values {
      assert part.Keys == {content};
    } else {
      assert part.Keys == {};
    }
  }

  lemma VariantMeaning(variant: Variant, tagging: Tagging, value: Json)
    requires WellFormed(variant.payload) && VariantSchema(variant, tagging).Ok?
    ensures Matches(VariantSchema(variant, tagging).value, value) <==> Fits(variant, tagging, value)
  {
    if value.JObject? {
      match tagging {
        case Untagged =>
        case External => OneMatches(variant.wire, variant.payload, value.fields);
        case Internal(tag) =>
          if variant.unit {
            OneMatches(tag, Const(JString(variant.wire)), value.fields);
          } else {
            InternalFits(variant, tag, value.fields);
          }
        case Adjacent(tag, content) =>
          if variant.unit {
            OneMatches(tag, Const(JString(variant.wire)), value.fields);
          } else {
            AdjacentFits(variant, tag, content, value.fields);
          }
      }
    } else if !variant.unit && (tagging.Internal? || tagging.Adjacent?) {
      var tagged := One(tagging.tag, Const(JString(variant.wire)), true);
      var other := if tagging.Internal? then variant.payload else One(tagging.content, variant.payload, true);
      if Matches(VariantSchema(variant, tagging).value, value) {
        OnlyObjectsMatch(tagged, other, value);
      }
    }
  }

  lemma {:induction false} CountFitting(variants: seq<Variant>, tagging: Tagging, value: Json)
    requires forall i :: 0 <= i < |variants| ==> WellFormed(variants[i].payload)
    requires VariantSchemas(variants, tagging).Ok?
    ensures Count(VariantSchemas(variants, tagging).value, value) == Fitting(variants, tagging, value)
  {
    if variants == [] {
    } else {
      VariantMeaning(variants[0], tagging, value);
      CountFitting(variants[1..], tagging, value);
      var schemas := VariantSchemas(variants, tagging).value;
      assert schemas[1..] == VariantSchemas(variants[1..], tagging).value;
    }
  }

  /** A value matches an enumeration exactly when it is how exactly one variant is written. */
  lemma EnumerationMeaning(variants: seq<Variant>, tagging: Tagging, value: Json)
    requires forall i :: 0 <= i < |variants| ==> WellFormed(variants[i].payload)
    requires Enumeration(variants, tagging).Ok?
    ensures Matches(Enumeration(variants, tagging).value, value) <==> Fitting(variants, tagging, value) == 1
  {
    CountFitting(variants, tagging, value);
  }

  predicate WiresDistinct(variants: seq<Variant>) {
    forall i, j :: 0 <= i < j < |variants| ==> variants[i].wire != variants[j].wire
  }

  /** A tag, or an outer name, tells the variants apart. */
  lemma TagsTellApart(a: Variant, b: Variant, tagging: Tagging, value: Json)
    requires !tagging.Untagged? && Fits(a, tagging, value) && Fits(b, tagging, value)
    ensures a.wire == b.wire
  {
    if tagging.External? && !a.unit && !b.unit {
      assert a.wire in value.fields.Keys;
    }
  }

  lemma {:induction false} OneFits(variants: seq<Variant>, tagging: Tagging, value: Json)
    requires !tagging.Untagged? && WiresDistinct(variants)
    ensures Fitting(variants, tagging, value) <= 1
    ensures Fitting(variants, tagging, value) == 1 <==>
      exists i :: 0 <= i < |variants| && Fits(variants[i], tagging, value)
  {
    if variants == [] {
    } else {
      var rest := variants[1..];
      OneFits(rest, tagging, value);
      forall i | 0 <= i < |rest| && Fits(rest[i], tagging, value) ensures !Fits(variants[0], tagging, value) {
        if Fits(variants[0], tagging, value) {
          TagsTellApart(variants[0], variants[i + 1], tagging, value);
        }
      }
      assert forall i :: 0 < i < |variants| ==> variants[i] == rest[i - 1];
    }
  }

  /** With distinct names on the wire, a value matches a tagged enumeration exactly when it is how some variant is written. */
  lemma TaggedEnumerationMeaning(variants: seq<Variant>, tagging: Tagging, value: Json)
    requires forall i :: 0 <= i < |variants| ==> WellFormed(variants[i].payload)
    requires Enumeration(variants, tagging).Ok? && !tagging.Untagged? && WiresDistinct(variants)
    ensures Matches(Enumeration(variants, tagging).value, value)
      <==> exists i :: 0 <= i < |variants| && Fits(variants[i], tagging, value)
  {
    EnumerationMeaning(variants, tagging, value);
    OneFits(variants, tagging, value);
  }

  lemma {:induction false} EnumerationKeepsWellFormed(variants: seq<Variant>, tagging: Tagging)
    requires forall i :: 0 <= i < |variants| ==> WellFormed(variants[i].payload)
    requires VariantSchemas(variants, tagging).Ok?
    ensures WellFormed(OneOf(VariantSchemas(variants, tagging).value))
  {
    if variants == [] {
    } else {
      EnumerationKeepsWellFormed(variants[1..], tagging);
      var first := VariantSchema(variants[0], tagging).value;
      var rest := VariantSchemas(variants[1..], tagging).value;
      VariantKeepsWellFormed(variants[0], tagging);
      assert ([first] + rest)[1..] == rest;
      assert forall leaf :: leaf in LeavesOf(rest) ==> leaf in Leaves(OneOf(rest));
      assert forall leaf :: leaf in Leaves(OneOf([first] + rest)) ==> leaf in Leaves(first) || leaf in LeavesOf(rest);
    }
  }

  lemma VariantKeepsWellFormed(variant: Variant, tagging: Tagging)
    requires WellFormed(variant.payload) && VariantSchema(variant, tagging).Ok?
    ensures WellFormed(VariantSchema(variant, tagging).value)
  {
    match tagging {
      case Untagged =>
      case External => OneMatches(variant.wire, variant.payload, map[]);
      case Internal(tag) =>
        OneMatches(tag, Const(JString(variant.wire)), map[]);
        if !variant.unit {
          MergeKeepsWellFormed(One(tag, Const(JString(variant.wire)), true), variant.payload);
        }
      case Adjacent(tag, content) =>
        OneMatches(tag, Const(JString(variant.wire)), map[]);
        OneMatches(content, variant.payload, map[]);
        if !variant.unit {
          MergeKeepsWellFormed(One(tag, Const(JString(variant.wire)), true), One(content, variant.payload, true));
        }
    }
  }
}
