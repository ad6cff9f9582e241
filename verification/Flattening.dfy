/** The protocol generator's merge of two schemas into one, for flattened fields and tagged variants. */
module Flattening {
  import opened Wrappers
  import opened Schemas

  datatype Problem = NotAnObject | DuplicateField | NoVariants

  type Merged = Result<Schema, Problem>

  function Merge(left: Schema, right: Schema): Merged
    decreases left, right, 1
  {
    if left.OneOf? then
      match MergeVariants(left.variants, right)
      case Ok(variants) => Ok(OneOf(variants))
      case Err(problem) => Err(problem)
    else if right.OneOf? then
      match MergeInto(left, right.variants)
      case Ok(variants) => Ok(OneOf(variants))
      case Err(problem) => Err(problem)
    else MergedObjects(left, right)
  }

  function MergeVariants(variants: seq<Schema>, right: Schema): (merged: Result<seq<Schema>, Problem>)
    ensures merged.Ok? ==> |merged.value| == |variants|
    decreases variants, right, 0
  {
    if variants == [] then Ok([])
    else
      match Merge(variants[0], right)
      case Err(problem) => Err(problem)
      case Ok(first) =>
        match MergeVariants(variants[1..], right)
        case Err(problem) => Err(problem)
        case Ok(rest) => Ok([first] + rest)
  }

  function MergeInto(left: Schema, variants: seq<Schema>): (merged: Result<seq<Schema>, Problem>)
    ensures merged.Ok? ==> |merged.value| == |variants|
    decreases left, variants, 0
  {
    if variants == [] then Ok([])
    else
      match Merge(left, variants[0])
      case Err(problem) => Err(problem)
      case Ok(first) =>
        match MergeInto(left, variants[1..])
        case Err(problem) => Err(problem)
        case Ok(rest) => Ok([first] + rest)
  }

  /** Two leaves that go together: objects that share no name. */
  predicate Apart(left: Schema, right: Schema) {
    left.Object? && right.Object? && left.properties.Keys !! right.properties.Keys
  }

  function Together(left: Schema, right: Schema): Schema
    requires left.Object? && right.Object?
  {
    Object(left.properties + right.properties, left.required + right.required)
  }

  function MergedObjects(left: Schema, right: Schema): Merged {
    if !left.Object? || !right.Object? then Err(NotAnObject)
    else if Apart(left, right) then Ok(Together(left, right))
    else Err(DuplicateField)
  }

  /** The object case of the merge, as the generator takes in one field after the other. */
  method MergeObjects(left: Schema, right: Schema) returns (merged: Merged)
    ensures merged == MergedObjects(left, right)
  {
    if !left.Object? || !right.Object? {
      return Err(NotAnObject);
    }
    var properties := left.properties;
    var others := right.properties.Keys;
    while others != {}
      invariant others <= right.properties.Keys
      invariant left.properties.Keys !! right.properties.Keys - others
      invariant properties == left.properties + (right.properties - others)
      decreases others
    {
      var name :| name in others;
      if name in properties {
        assert name in left.properties;
        return Err(DuplicateField);
      }
      properties := properties[name := right.properties[name]];
      others := others - {name};
    }
    assert right.properties - others == right.properties;
    merged := Ok(Object(properties, left.required + right.required));
  }

  // ----- When a merge succeeds, and what it ends in -----

  ghost predicate AllApart(lefts: seq<Schema>, rights: seq<Schema>) {
    forall left, right :: left in lefts && right in rights ==> Apart(left, right)
  }

  /** A merge succeeds exactly when every two leaves are objects with no common name. */
  lemma {:induction false} MergeSucceeds(left: Schema, right: Schema)
    ensures Merge(left, right).Ok? <==> AllApart(Leaves(left), Leaves(right))
    decreases left, right, 1
  {
    if left.OneOf? {
      MergeVariantsSucceeds(left.variants, right);
    } else if right.OneOf? {
      MergeIntoSucceeds(left, right.variants);
    } else {
      assert left in Leaves(left) && right in Leaves(right);
    }
  }

  lemma {:induction false} MergeVariantsSucceeds(variants: seq<Schema>, right: Schema)
    ensures MergeVariants(variants, right).Ok? <==> AllApart(LeavesOf(variants), Leaves(right))
    decreases variants, right, 0
  {
    if variants == [] {
    } else {
      MergeSucceeds(variants[0], right);
      MergeVariantsSucceeds(variants[1..], right);
    }
  }

  lemma {:induction false} MergeIntoSucceeds(left: Schema, variants: seq<Schema>)
    requires !left.OneOf?
    ensures MergeInto(left, variants).Ok? <==> AllApart(Leaves(left), LeavesOf(variants))
    decreases left, variants, 0
  {
    if variants == [] {
    } else {
      MergeSucceeds(left, variants[0]);
      MergeIntoSucceeds(left, variants[1..]);
    }
  }

  ghost predicate IsTogether(leaf: Schema, lefts: seq<Schema>, rights: seq<Schema>) {
    exists left, right :: left in lefts && right in rights && Apart(left, right) && leaf == Together(left, right)
  }

  /** The leaves of a merge are all pairs of leaves, put together. */
  lemma {:induction false} MergedLeaves(left: Schema, right: Schema)
    requires Merge(left, right).Ok?
    ensures forall leaf :: leaf in Leaves(Merge(left, right).value) <==> IsTogether(leaf, Leaves(left), Leaves(right))
    decreases left, right, 1
  {
    if left.OneOf? {
      MergedVariantLeaves(left.variants, right);
    } else if right.OneOf? {
      MergedIntoLeaves(left, right.variants);
    } else {
      assert Leaves(left) == [left] && Leaves(right) == [right];
    }
  }

  lemma {:induction false} MergedVariantLeaves(variants: seq<Schema>, right: Schema)
    requires MergeVariants(variants, right).Ok?
    ensures forall leaf ::
      leaf in LeavesOf(MergeVariants(variants, right).value) <==> IsTogether(leaf, LeavesOf(variants), Leaves(right))
    decreases variants, right, 0
  {
    if variants == [] {
    } else {
      MergedLeaves(variants[0], right);
      MergedVariantLeaves(variants[1..], right);
      var merged := MergeVariants(variants, right).value;
      assert merged[0] == Merge(variants[0], right).value && merged[1..] == MergeVariants(variants[1..], right).value;
    }
  }

  lemma {:induction false} MergedIntoLeaves(left: Schema, variants: seq<Schema>)
    requires !left.OneOf? && MergeInto(left, variants).Ok?
    ensures forall leaf ::
      leaf in LeavesOf(MergeInto(left, variants).value) <==> IsTogether(leaf, Leaves(left), LeavesOf(variants))
    decreases left, variants, 0
  {
    if variants == [] {
    } else {
      MergedLeaves(left, variants[0]);
      MergedIntoLeaves(left, variants[1..]);
      var merged := MergeInto(left, variants).value;
      assert merged[0] == Merge(left, variants[0]).value && merged[1..] == MergeInto(left, variants[1..]).value;
    }
  }

  lemma MergeKeepsWellFormed(left: Schema, right: Schema)
    requires WellFormed(left) && WellFormed(right) && Merge(left, right).Ok?
    ensures WellFormed(Merge(left, right).value)
    ensures forall leaf :: leaf in Leaves(Merge(left, right).value) ==> leaf.Object?
  {
    MergedLeaves(left, right);
  }

  // ----- What a merge means -----

  /** The fields belong to the two schemas, and each schema takes its own part. */
  predicate Splits(left: Schema, right: Schema, fields: map<string, Json>) {
    fields.Keys <= Names(left) + Names(right)
    && Matches(left, JObject(Part(fields, Names(left))))
    && Matches(right, JObject(Part(fields, Names(right))))
  }

  lemma LeafNames(schema: Schema)
    requires schema.Object?
    ensures Names(schema) == schema.properties.Keys
    ensures WellFormed(schema) <==> forall name :: name in schema.required ==> name in schema.properties
  {
    assert Leaves(schema) == [schema];
  }

  lemma TogetherSplits(left: Schema, right: Schema, fields: map<string, Json>)
    requires Apart(left, right) && WellFormed(left) && WellFormed(right)
    requires Matches(Together(left, right), JObject(fields))
    ensures Splits(left, right, fields)
  {
    LeafNames(left);
    LeafNames(right);
    var merged := Together(left, right);
    forall key | key in left.required + right.required ensures key in fields {
      assert key in merged.required;
    }
    forall key | key in fields
      ensures key in merged.properties && Matches(merged.properties[key], fields[key])
    {
    }
    PartMatches(left, merged, fields);
    PartMatches(right, merged, fields);
  }

  /** A leaf takes its part of what a larger object with the same properties takes. */
  lemma PartMatches(leaf: Schema, whole: Schema, fields: map<string, Json>)
    requires leaf.Object? && whole.Object? && WellFormed(leaf)
    requires forall key :: key in leaf.properties ==> key in whole.properties && whole.properties[key] == leaf.properties[key]
    requires forall key :: key in leaf.required ==> key in fields
    requires forall key :: key in fields ==> key in whole.properties && Matches(whole.properties[key], fields[key])
    ensures Matches(leaf, JObject(Part(fields, Names(leaf))))
  {
    LeafNames(leaf);
  }

  lemma SplitsTogether(left: Schema, right: Schema, fields: map<string, Json>)
    requires Apart(left, right) && WellFormed(left) && WellFormed(right)
    requires Splits(left, right, fields)
    ensures Matches(Together(left, right), JObject(fields))
  {
    LeafNames(left);
    LeafNames(right);
    var mine, theirs := Part(fields, Names(left)), Part(fields, Names(right));
    forall key | key in fields
      ensures key in Together(left, right).properties
      ensures Matches(Together(left, right).properties[key], fields[key])
    {
      if key in left.properties {
        assert key in mine;
      } else {
        assert key in theirs;
      }
    }
    forall key | key in left.required + right.required ensures key in fields {
      assert key in left.required ==> key in mine;
      assert key in right.required ==> key in theirs;
    }
  }

  lemma MergedNamesAreApart(left: Schema, right: Schema)
    requires Merge(left, right).Ok?
    ensures Names(left) !! Names(right)
  {
    MergeSucceeds(left, right);
  }

  /** An object that knows fewer names may also be given a part with more names. */
  lemma PartOfMore(schema: Schema, fields: map<string, Json>, names: set<string>, others: set<string>)
    requires ObjectTree(schema) && Names(schema) <= names && names !! others
    ensures fields.Keys <= Names(schema) + others && Matches(schema, JObject(Part(fields, Names(schema))))
            <==> fields.Keys <= names + others && Matches(schema, JObject(Part(fields, names)))
  {
    if fields.Keys <= Names(schema) + others {
      assert Part(fields, names) == Part(fields, Names(schema));
    }
    if fields.Keys <= names + others && Matches(schema, JObject(Part(fields, names))) {
      MatchHasNames(schema, JObject(Part(fields, names)));
      forall key | key in fields ensures key in Names(schema) + others {
        if key in names {
          assert key in Part(fields, names);
        }
      }
      assert Part(fields, names) == Part(fields, Names(schema));
    }
  }

  lemma VariantNames(variants: seq<Schema>, i: nat)
    requires i < |variants|
    ensures Names(variants[i]) <= Names(OneOf(variants))
    ensures ObjectTree(OneOf(variants)) ==> ObjectTree(variants[i])
  {
    VariantLeaves(variants, i);
  }

  lemma {:induction false} TreeMeaning(left: Schema, right: Schema, fields: map<string, Json>)
    requires ObjectTree(left) && ObjectTree(right) && Merge(left, right).Ok?
    ensures Matches(Merge(left, right).value, JObject(fields)) <==> Splits(left, right, fields)
    decreases left, right, 1
  {
    MergedNamesAreApart(left, right);
    if left.OneOf? {
      CountVariants(left.variants, right, fields, Names(left));
    } else if right.OneOf? {
      CountInto(left, right.variants, fields, Names(right));
    } else {
      assert left in Leaves(left) && right in Leaves(right);
      MergeSucceeds(left, right);
      if Splits(left, right, fields) {
        SplitsTogether(left, right, fields);
      }
      if Matches(Together(left, right), JObject(fields)) {
        TogetherSplits(left, right, fields);
      }
    }
  }

  /** As many merged variants match as variants match their part, when the other schema takes its own. */
  lemma {:induction false} CountVariants(variants: seq<Schema>, right: Schema, fields: map<string, Json>, names: set<string>)
    requires ObjectTree(OneOf(variants)) && ObjectTree(right) && MergeVariants(variants, right).Ok?
    requires Names(OneOf(variants)) <= names && names !! Names(right)
    ensures Count(MergeVariants(variants, right).value, JObject(fields))
            == if fields.Keys <= names + Names(right) && Matches(right, JObject(Part(fields, Names(right))))
               then Count(variants, JObject(Part(fields, names))) else 0
    decreases variants, right, 0
  {
    if variants == [] {
    } else {
      var merged := MergeVariants(variants, right).value;
      assert merged[0] == Merge(variants[0], right).value && merged[1..] == MergeVariants(variants[1..], right).value;
      VariantNames(variants, 0);
      RestOfVariants(variants);
      TreeMeaning(variants[0], right, fields);
      PartOfMore(variants[0], fields, names, Names(right));
      CountVariants(variants[1..], right, fields, names);
    }
  }

  lemma {:induction false} CountInto(left: Schema, variants: seq<Schema>, fields: map<string, Json>, names: set<string>)
    requires !left.OneOf?
    requires ObjectTree(left) && ObjectTree(OneOf(variants)) && MergeInto(left, variants).Ok?
    requires Names(OneOf(variants)) <= names && names !! Names(left)
    ensures Count(MergeInto(left, variants).value, JObject(fields))
            == if fields.Keys <= names + Names(left) && Matches(left, JObject(Part(fields, Names(left))))
               then Count(variants, JObject(Part(fields, names))) else 0
    decreases left, variants, 0
  {
    if variants == [] {
    } else {
      var merged := MergeInto(left, variants).value;
      assert merged[0] == Merge(left, variants[0]).value && merged[1..] == MergeInto(left, variants[1..]).value;
      VariantNames(variants, 0);
      RestOfVariants(variants);
      TreeMeaning(left, variants[0], fields);
      PartOfMore(variants[0], fields, names, Names(left));
      CountInto(left, variants[1..], fields, names);
    }
  }

  lemma RestOfVariants(variants: seq<Schema>)
    requires variants != []
    ensures Names(OneOf(variants[1..])) <= Names(OneOf(variants))
    ensures ObjectTree(OneOf(variants)) ==> ObjectTree(OneOf(variants[1..]))
  {
    assert forall leaf :: leaf in LeavesOf(variants[1..]) ==> leaf in LeavesOf(variants);
    assert forall leaf :: leaf in Leaves(OneOf(variants[1..])) ==> leaf in Leaves(OneOf(variants));
  }

  /** An object matches a merge exactly when its fields split into a part of each schema. */
  lemma MergeMeaning(left: Schema, right: Schema, fields: map<string, Json>)
    requires WellFormed(left) && WellFormed(right) && Merge(left, right).Ok?
    ensures Matches(Merge(left, right).value, JObject(fields)) <==> Splits(left, right, fields)
  {
    MergeSucceeds(left, right);
    if Leaves(left) == [] || Leaves(right) == [] {
      MergedLeaves(left, right);
      var merged := Merge(left, right).value;
      assert Leaves(merged) == [] || Leaves(merged)[0] in Leaves(merged);
      NoLeafNoMatch(merged, JObject(fields));
      if Leaves(left) == [] {
        NoLeafNoMatch(left, JObject(Part(fields, Names(left))));
      } else {
        NoLeafNoMatch(right, JObject(Part(fields, Names(right))));
      }
    } else {
      assert Apart(Leaves(left)[0], Leaves(right)[0]);
      assert forall leaf :: leaf in Leaves(left) ==> Apart(leaf, Leaves(right)[0]);
      assert forall leaf :: leaf in Leaves(right) ==> Apart(Leaves(left)[0], leaf);
      TreeMeaning(left, right, fields);
    }
  }

  /** Only objects match a merge. */
  lemma OnlyObjectsMatch(left: Schema, right: Schema, value: Json)
    requires Merge(left, right).Ok? && Matches(Merge(left, right).value, value)
    ensures value.JObject?
  {
    MergedLeaves(left, right);
    MatchHasNames(Merge(left, right).value, value);
  }
}
