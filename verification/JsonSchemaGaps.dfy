/**
  Changes the compatibility check does not see: each lemma gives a pair of schemas on which it
  reports nothing although the new schema rejects a value the old one accepts. There is one for
  every restriction that `JsonSchemaSoundness.Examined` makes, but for the one that the members of
  a JSON object have different names.
 */
module JsonSchemaGaps {
  import opened Prelude
  import opened JsonSchema
  import opened JsonSchemaCompatibility
  import opened JsonSchemaSoundness
  import opened JsonSchemaAdditive

  ghost predicate Missed(t: Text, was: Schema, now: Schema) {
    CompareSchema(was, now, []) == [] && !Widens(t, was, now)
  }

  lemma Witness(t: Text, was: Schema, now: Schema, v: Json)
    requires CompareSchema(was, now, []) == [] && Valid(t, was, v) && !Valid(t, now, v)
    ensures Missed(t, was, now)
  {
  }

  const X: Name := Plain("x")

  const TEXT: Schema := EMPTY.(types := Some(["string"]))

  function With(properties: seq<Property>): (s: Schema)
    ensures s.Node?
  {
    EMPTY.(properties := Properties(properties))
  }

  /** Nothing is reported of nodes with the keywords the check reads unchanged and no parts it compares. */
  lemma PlainNodes(was: Schema, now: Schema)
    requires SameKeywords(was, now) && AllowedValues(was).None?
    requires UnionVariants(was) == [] && was.properties.NoProperties? && was.items.NoItems?
    ensures CompareSchema(was, now, []) == []
  {
    QuietKeywords(was, now, []);
    QuietNode(was, now, []);
  }

  // ---------------------------------------------------------------- boolean schemas

  /** Boolean schemas are not compared, whichever side they stand on. */
  lemma BooleanSchemas(t: Text)
    ensures Missed(t, Anything, Nothing) && Missed(t, EMPTY, Nothing) && Missed(t, Anything, TEXT)
  {
    Witness(t, Anything, Nothing, Null);
    Witness(t, EMPTY, Nothing, Null);
    Witness(t, Anything, TEXT, Null);
  }

  /** So are references the check cannot follow. */
  lemma UnfollowedReferences(t: Text, hops: Pointer, v: Json)
    ensures Missed(t, if t.says(Pointed(hops), v) then Ref(hops) else EMPTY, if t.says(Pointed(hops), v) then Nothing else Ref(hops))
  {
    if t.says(Pointed(hops), v) {
      Witness(t, Ref(hops), Nothing, v);
    } else {
      Witness(t, EMPTY, Ref(hops), v);
    }
  }

  /** References of another form than `#/` are not read: one appears, becomes another, or gives way to what stood beside it. */
  lemma ReferencesElsewhere(t: Text, a: string, b: string)
    requires t.says(Elsewhere(a), Null) && !t.says(Elsewhere(b), Null)
    ensures Missed(t, EMPTY, EMPTY.(elsewhere := Some(b)))
    ensures Missed(t, EMPTY.(elsewhere := Some(a)), EMPTY.(elsewhere := Some(b)))
    ensures Missed(t, TEXT.(elsewhere := Some(a)), TEXT)
  {
    PlainMissed(t, EMPTY, EMPTY.(elsewhere := Some(b)), Null);
    PlainMissed(t, EMPTY.(elsewhere := Some(a)), EMPTY.(elsewhere := Some(b)), Null);
    PlainMissed(t, TEXT.(elsewhere := Some(a)), TEXT, Null);
  }

  lemma PlainMissed(t: Text, was: Schema, now: Schema, v: Json)
    requires SameKeywords(was, now) && AllowedValues(was).None?
    requires UnionVariants(was) == [] && was.properties.NoProperties? && was.items.NoItems?
    requires Valid(t, was, v) && !Valid(t, now, v)
    ensures Missed(t, was, now)
  {
    PlainNodes(was, now);
    Witness(t, was, now, v);
  }

  // ---------------------------------------------------------------- keywords that are not read

  const INTEGER: Schema := EMPTY.(types := Some(["integer"]))

  /** A bound that excludes its own value: zero is no longer accepted. */
  lemma ExclusiveBounds(t: Text)
    ensures Missed(t, INTEGER, INTEGER.(exclusiveMinimum := Some(0.0)))
    ensures Missed(t, INTEGER, INTEGER.(exclusiveMaximum := Some(0.0)))
  {
    PlainNodes(INTEGER, INTEGER.(exclusiveMinimum := Some(0.0)));
    PlainNodes(INTEGER, INTEGER.(exclusiveMaximum := Some(0.0)));
    IntegerAcceptsZero(t);
    Witness(t, INTEGER, INTEGER.(exclusiveMinimum := Some(0.0)), Num(0.0));
    Witness(t, INTEGER, INTEGER.(exclusiveMaximum := Some(0.0)), Num(0.0));
  }

  lemma IntegerAcceptsZero(t: Text)
    ensures Valid(t, INTEGER, Num(0.0))
  {
    assert HasType(Num(0.0), ["integer"][0]);
  }

  /** An exclusive bound is tightened. */
  lemma ExclusiveBoundTightened(t: Text)
    ensures Missed(t, EMPTY.(exclusiveMinimum := Some(0.0)), EMPTY.(exclusiveMinimum := Some(1.0)))
  {
    Witness(t, EMPTY.(exclusiveMinimum := Some(0.0)), EMPTY.(exclusiveMinimum := Some(1.0)), Num(1.0));
  }

  /** Any other keyword the check does not read appears, and rejects some value. */
  lemma OtherKeywords(t: Text, keywords: string, v: Json)
    requires !t.says(Keywords(keywords), v)
    ensures Missed(t, EMPTY, EMPTY.(others := Some(keywords)))
  {
    Witness(t, EMPTY, EMPTY.(others := Some(keywords)), v);
  }

  lemma ConstantBesideEnum(t: Text)
    ensures var was := EMPTY.(enumValues := Some([Bool(true)]));
            Missed(t, was, was.(constant := Some(Null)))
  {
    var was := EMPTY.(enumValues := Some([Bool(true)]));
    assert Keeps([Bool(true)], Bool(true)) by { assert SameValue([Bool(true)][0], Bool(true)); }
    Witness(t, was, was.(constant := Some(Null)), Bool(true));
  }

  lemma EmptyTypeList(t: Text)
    ensures Missed(t, TEXT, EMPTY.(types := Some([])))
  {
    assert HasType(Str(""), ["string"][0]);
    Witness(t, TEXT, EMPTY.(types := Some([])), Str(""));
  }

  // ---------------------------------------------------------------- objects and arrays

  lemma ItemsAppear(t: Text)
    ensures Missed(t, EMPTY, EMPTY.(items := Each(TEXT)))
  {
    assert !Valid(t, TEXT, Null);
    assert [Null][0] == Null;
    Witness(t, EMPTY, EMPTY.(items := Each(TEXT)), Arr([Null]));
  }

  /** A list of item schemas is not read, on either side: any array it tells apart is lost unseen. */
  lemma ListedItems(t: Text, was: Items, now: Items, elements: seq<Json>)
    requires (was.Listed? || now.Listed?) && !now.NoItems?
    requires ValidElements(t, EMPTY.(items := was), elements) && !ValidElements(t, EMPTY.(items := now), elements)
    ensures Missed(t, EMPTY.(items := was), EMPTY.(items := now))
  {
    var o, n := EMPTY.(items := was), EMPTY.(items := now);
    assert CompareItems(o, n, []) == [] && UnionVariants(o) == [];
    QuietKeywords(o, n, []);
    QuietNode(o, n, []);
    Witness(t, o, n, Arr(elements));
  }

  /** Without old `properties` no new property is looked at. */
  lemma PropertiesAppear(t: Text)
    ensures Missed(t, EMPTY, With([Property(X, TEXT)]))
  {
    assert !Valid(t, TEXT, Null) && PropertiesOf(With([Property(X, TEXT)]))[0].name in map[X := Null];
    assert !ValidFields(t, With([Property(X, TEXT)]), map[X := Null]);
    Witness(t, EMPTY, With([Property(X, TEXT)]), Obj(map[X := Null]));
  }

  lemma RequiredWithoutProperties(t: Text)
    ensures Missed(t, EMPTY, EMPTY.(required := [X]))
  {
    assert X in [X];
    Witness(t, EMPTY, EMPTY.(required := [X]), Obj(map[]));
  }

  /** Nor is what unknown fields may hold, or whether there may be any. */
  lemma RecordValues(t: Text)
    ensures Missed(t, EMPTY, EMPTY.(additional := Typed(TEXT))) && Missed(t, EMPTY, EMPTY.(additional := Forbidden))
  {
    assert !Valid(t, TEXT, Null) && X in map[X := Null];
    assert !ValidFields(t, EMPTY.(additional := Typed(TEXT)), map[X := Null]);
    UnknownFieldMissed(t, EMPTY.(additional := Typed(TEXT)), map[X := Null]);
    assert !ValidFields(t, EMPTY.(additional := Forbidden), map[X := Null]);
    UnknownFieldMissed(t, EMPTY.(additional := Forbidden), map[X := Null]);
  }

  lemma UnknownFieldMissed(t: Text, now: Schema, fields: map<Name, Json>)
    requires now.Node? && now == EMPTY.(additional := now.additional) && !ValidFields(t, now, fields)
    ensures Missed(t, EMPTY, now)
  {
    assert Valid(t, EMPTY, Obj(fields)) && !Valid(t, now, Obj(fields));
    PlainMissed(t, EMPTY, now, Obj(fields));
  }

  /** With old `properties`, only forbidding unknown fields is seen, not giving them a schema. */
  lemma UnknownFieldsTyped(t: Text)
    ensures var was := With([]);
            Missed(t, was, was.(additional := Typed(TEXT)))
  {
    var was := With([]);
    var now := was.(additional := Typed(TEXT));
    assert !Valid(t, TEXT, Null) && X in map[X := Null] && X !in Names(PropertiesOf(now));
    assert !ValidFields(t, now, map[X := Null]);
    Witness(t, was, now, Obj(map[X := Null]));
  }

  /** An object that admits unknown fields gains an optional property with a schema of its own. */
  lemma OpenObjectGainsProperty(t: Text, was: Schema, now: Schema, p: Property, v: Json)
    requires Comparable(was) && AddsOptionalProperty(was, now, p) && UnionVariants(was) == [] && was.elsewhere.None?
    requires !Valid(t, p.schema, v) && Valid(t, was, Obj(map[p.name := v]))
    ensures Missed(t, was, now)
  {
    OptionalPropertyIsAccepted(was, now, p, []);
    assert PropertiesOf(now)[|PropertiesOf(was)|] == p;
    assert !ValidFields(t, now, map[p.name := v]);
    Witness(t, was, now, Obj(map[p.name := v]));
  }

  lemma OpenObjectExample(t: Text)
    ensures Missed(t, With([]), With([Property(X, TEXT)]))
  {
    var p := Property(X, TEXT);
    assert [] + [p] == [p];
    assert !Valid(t, TEXT, Null) && ValidFields(t, With([]), map[X := Null]);
    OpenObjectGainsProperty(t, With([]), With([p]), p, Null);
  }

  /** An object that admits no unknown fields, but for names that a pattern covers. */
  function Closed(properties: seq<Property>, patterns: seq<string>): (s: Schema)
    ensures s.Node?
  {
    EMPTY.(properties := Properties(properties), patterns := patterns, additional := Forbidden)
  }

  /** So does a closed object whose patterns cover the new name. */
  lemma CoveredNameGainsSchema(t: Text, pattern: string)
    requires t.covers(pattern, X)
    ensures Missed(t, Closed([], [pattern]), Closed([Property(X, TEXT)], [pattern]))
  {
    var was, now, fields := Closed([], [pattern]), Closed([Property(X, TEXT)], [pattern]), map[X := Null];
    assert t.covers(was.patterns[0], X) && Covered(t, was.patterns, X);
    assert !Valid(t, TEXT, Null) && PropertiesOf(now)[0].name in fields;
    assert ValidFields(t, was, fields) && !ValidFields(t, now, fields);
    assert CompareObject(was, now, []) == [];
    ClosedMissed(t, was, now, fields);
  }

  /** A pattern leaves a closed object. */
  lemma PatternLeaves(t: Text, pattern: string)
    requires t.covers(pattern, X)
    ensures Missed(t, Closed([], [pattern]), Closed([], []))
  {
    var was, now, fields := Closed([], [pattern]), Closed([], []), map[X := Null];
    assert t.covers(was.patterns[0], X) && Covered(t, was.patterns, X);
    assert X in fields && X !in Names(PropertiesOf(now)) && !Covered(t, now.patterns, X);
    assert ValidFields(t, was, fields) && !ValidFields(t, now, fields);
    assert CompareObject(was, now, []) == [];
    ClosedMissed(t, was, now, fields);
  }

  /** A property with an inherited name leaves a closed object: the look-up finds the inherited member. */
  lemma InheritedNameLeaves(t: Text, member: ObjectMember)
    ensures Missed(t, Closed([Property(Inherited(member), TEXT)], []), Closed([], []))
  {
    var name := Inherited(member);
    var was, now, fields := Closed([Property(name, TEXT)], []), Closed([], []), map[name := Str("")];
    TextAccepts(t);
    assert PropertiesOf(was)[0].name == name && Names(PropertiesOf(was))[0] == name;
    assert name in fields && name !in Names(PropertiesOf(now)) && !Covered(t, now.patterns, name);
    assert ValidFields(t, was, fields) && !ValidFields(t, now, fields);
    InheritedIsFound(was, PropertiesOf(was), PropertiesOf(now), []);
    ClosedMissed(t, was, now, fields);
  }

  lemma InheritedIsFound(parent: Schema, was: seq<Property>, now: seq<Property>, path: seq<Step>)
    requires |was| == 1 && was[0].schema == TEXT < parent && was[0].name.Inherited? && now == []
    ensures CompareProperties(parent, was, now, path) == []
  {
    var here := path + [AtProperty(was[0].name)];
    assert CompareKeywords(TEXT, EMPTY, here) == [] && CompareStructure(TEXT, EMPTY, here) == [];
    assert was[1..] == [];
  }

  lemma ClosedMissed(t: Text, was: Schema, now: Schema, fields: map<Name, Json>)
    requires was.Node? && now.Node?
    requires was == Closed(PropertiesOf(was), was.patterns) && now == Closed(PropertiesOf(now), now.patterns)
    requires CompareObject(was, now, []) == [] && ValidFields(t, was, fields) && !ValidFields(t, now, fields)
    ensures Missed(t, was, now)
  {
    QuietKeywords(was, now, []);
    QuietNode(was, now, []);
    Witness(t, was, now, Obj(fields));
  }

  lemma TextAccepts(t: Text)
    ensures Valid(t, TEXT, Str(""))
  {
    assert HasType(Str(""), ["string"][0]);
  }

  // ---------------------------------------------------------------- unions

  /** Whatever changes beside the variants of a union goes unseen. */
  lemma UnseenBesideUnion(t: Text, was: Schema, now: Schema, v: Json)
    requires Comparable(was) && SameKeywords(was, now)
    requires UnionVariants(was) != [] && UnionVariants(now) == UnionVariants(was)
    requires Valid(t, was, v) && !Valid(t, now, v)
    ensures Missed(t, was, now)
  {
    SelfCompatible(was, []);
    SilentNode(was, was, []);
    QuietKeywords(was, now, []);
    Witness(t, was, now, v);
  }

  /** A schema with no keyword but `anyOf`, `oneOf` and `required`. */
  function UnionOf(anyOf: Variants, oneOf: Variants, required: seq<Name>): (s: Schema)
    ensures s.Node?
  {
    EMPTY.(anyOf := anyOf, oneOf := oneOf, required := required)
  }

  lemma OnlyUnions(was: Schema, now: Schema)
    requires was.Node? && was == UnionOf(was.anyOf, was.oneOf, was.required)
    requires now.Node? && now == UnionOf(now.anyOf, now.oneOf, now.required)
    requires forall i :: 0 <= i < |UnionMembers(was)| ==> Comparable(UnionMembers(was)[i])
    ensures Comparable(was) && SameKeywords(was, now)
  {
    forall i | 0 <= i < |UnionVariants(was)| ensures Comparable(UnionVariants(was)[i]) {
      assert UnionVariants(was)[i] in UnionMembers(was);
    }
  }

  lemma AnyOfAccepts(t: Text, s: Schema, v: Json)
    requires s.Node? && s == UnionOf(s.anyOf, NoUnion, []) && s.anyOf.Union? && s.anyOf.members != []
    requires Valid(t, s.anyOf.members[0], v)
    ensures Valid(t, s, v)
  {
  }

  lemma AnyOfRejects(t: Text, s: Schema, v: Json)
    requires s.Node? && s.elsewhere.None? && s.anyOf.Union? && |s.anyOf.members| == 1 && !Valid(t, s.anyOf.members[0], v)
    ensures !Valid(t, s, v)
  {
    assert !ValidVariants(t, s, v);
  }

  /** A union takes the place of a plain schema. */
  lemma UnionReplacesPlain(t: Text)
    ensures Missed(t, EMPTY, EMPTY.(anyOf := Union([Nothing]))) && Missed(t, EMPTY, EMPTY.(oneOf := Union([Nothing])))
  {
    Witness(t, EMPTY, EMPTY.(anyOf := Union([Nothing])), Null);
    Witness(t, EMPTY, EMPTY.(oneOf := Union([Nothing])), Null);
  }

  /** A union of one variant that accepts everything. */
  const ANY_OF_EMPTY: Schema := EMPTY.(anyOf := Union([EMPTY]))

  /** A name becomes required beside a union. */
  lemma RequiredBesideUnion(t: Text)
    ensures Missed(t, ANY_OF_EMPTY, ANY_OF_EMPTY.(required := [X]))
  {
    assert X in [X] && !ValidFields(t, ANY_OF_EMPTY.(required := [X]), map[]);
    AnyOfEmptyMisses(t, ANY_OF_EMPTY.(required := [X]), Obj(map[]));
  }

  /** A property appears beside a union. */
  lemma PropertiesBesideUnion(t: Text)
    ensures Missed(t, ANY_OF_EMPTY, ANY_OF_EMPTY.(properties := Properties([Property(X, TEXT)])))
  {
    var now := ANY_OF_EMPTY.(properties := Properties([Property(X, TEXT)]));
    assert !Valid(t, TEXT, Null) && PropertiesOf(now)[0].name in map[X := Null];
    assert !ValidFields(t, now, map[X := Null]);
    AnyOfEmptyMisses(t, now, Obj(map[X := Null]));
  }

  /** Unknown fields are forbidden, or given a schema, beside a union. */
  lemma AdditionalBesideUnion(t: Text)
    ensures Missed(t, ANY_OF_EMPTY, ANY_OF_EMPTY.(additional := Forbidden))
    ensures Missed(t, ANY_OF_EMPTY, ANY_OF_EMPTY.(additional := Typed(TEXT)))
  {
    assert !Valid(t, TEXT, Null) && X in map[X := Null];
    assert !ValidFields(t, ANY_OF_EMPTY.(additional := Forbidden), map[X := Null]);
    assert !ValidFields(t, ANY_OF_EMPTY.(additional := Typed(TEXT)), map[X := Null]);
    AnyOfEmptyMisses(t, ANY_OF_EMPTY.(additional := Forbidden), Obj(map[X := Null]));
    AnyOfEmptyMisses(t, ANY_OF_EMPTY.(additional := Typed(TEXT)), Obj(map[X := Null]));
  }

  /** A property leaves an object without unknown fields, beside a union. */
  lemma PropertyLeavesBesideUnion(t: Text)
    ensures var now := ANY_OF_EMPTY.(additional := Forbidden);
            Missed(t, now.(properties := Properties([Property(X, EMPTY)])), now)
  {
    var now := ANY_OF_EMPTY.(additional := Forbidden);
    var was := now.(properties := Properties([Property(X, EMPTY)]));
    XRejected(t, now);
    XAccepted(t, was);
    OneVariant(was);
    OneVariant(now);
    EmptyVariantIsComparable(was);
    BesideEmptyMissed(t, was, now, Obj(map[X := Null]));
  }

  /** `items` appears beside a union. */
  lemma ItemsBesideUnion(t: Text)
    ensures Missed(t, ANY_OF_EMPTY, ANY_OF_EMPTY.(items := Each(TEXT)))
  {
    assert !Valid(t, TEXT, Null) && [Null][0] == Null;
    AnyOfEmptyMisses(t, ANY_OF_EMPTY.(items := Each(TEXT)), Arr([Null]));
  }

  lemma OneVariant(s: Schema)
    requires s.Node? && s.anyOf == ANY_OF_EMPTY.anyOf
    ensures UnionVariants(s) == [EMPTY]
  {
    assert [EMPTY][1..] == [];
    assert Nodes([EMPTY]) == [EMPTY] + Nodes([]);
  }

  lemma EmptyVariantIsComparable(s: Schema)
    requires s.Node? && s.anyOf == ANY_OF_EMPTY.anyOf && AllowedValues(s).None? && s.items.NoItems?
    requires UniqueNames(PropertiesOf(s)) && forall i :: 0 <= i < |PropertiesOf(s)| ==> PropertiesOf(s)[i].schema == EMPTY
    ensures Comparable(s)
  {
    OneVariant(s);
    assert Comparable(EMPTY) && Comparable(UnionVariants(s)[0]);
    forall key | key in VariantKeys(UnionVariants(s)) ensures SelfComparable(VariantUnder(s, key)) {
      assert VariantUnder(s, key) == EMPTY;
    }
  }

  lemma XRejected(t: Text, s: Schema)
    requires s == ANY_OF_EMPTY.(additional := Forbidden)
    ensures !Valid(t, s, Obj(map[X := Null]))
  {
    assert X in map[X := Null] && !Covered(t, s.patterns, X) && X !in Names(PropertiesOf(s));
    assert !ValidFields(t, s, map[X := Null]);
  }

  lemma XAccepted(t: Text, s: Schema)
    requires s == ANY_OF_EMPTY.(additional := Forbidden, properties := Properties([Property(X, EMPTY)]))
    ensures Valid(t, s, Obj(map[X := Null]))
  {
    assert PropertiesOf(s) == [Property(X, EMPTY)] && Names(PropertiesOf(s))[0] == X;
    assert ValidFields(t, s, map[X := Null]) && Valid(t, s.anyOf.members[0], Obj(map[X := Null]));
  }

  lemma BesideEmptyMissed(t: Text, was: Schema, now: Schema, v: Json)
    requires was.Node? && now.Node? && Comparable(was) && SameKeywords(was, now)
    requires UnionVariants(was) == [EMPTY] && UnionVariants(now) == [EMPTY] && Valid(t, was, v) && !Valid(t, now, v)
    ensures Missed(t, was, now)
  {
    UnseenBesideUnion(t, was, now, v);
  }

  lemma AnyOfEmptyMisses(t: Text, now: Schema, v: Json)
    requires now.Node? && SameKeywords(ANY_OF_EMPTY, now) && now.anyOf == ANY_OF_EMPTY.anyOf && !Valid(t, now, v)
    ensures Missed(t, ANY_OF_EMPTY, now)
  {
    OneVariant(ANY_OF_EMPTY);
    OneVariant(now);
    EmptyVariantIsComparable(ANY_OF_EMPTY);
    assert Valid(t, ANY_OF_EMPTY.anyOf.members[0], v);
    UnseenBesideUnion(t, ANY_OF_EMPTY, now, v);
  }

  /** `oneOf` takes the place of `anyOf`, and two of the variants accept the same value. */
  lemma OneOfReplacesAnyOf(t: Text, was: Schema, now: Schema, m: Schema, v: Json)
    requires m.Node? && Comparable(m) && Valid(t, m, v)
    requires was == UnionOf(Union([m, m]), NoUnion, []) && now == UnionOf(NoUnion, Union([m, m]), [])
    ensures Missed(t, was, now)
  {
    OnlyUnions(was, now);
    AnyOfAccepts(t, was, v);
    assert m in UnionVariants(was);
    assert now.oneOf.members[0] == m && now.oneOf.members[1] == m;
    UnseenBesideUnion(t, was, now, v);
  }

  lemma OneOfNothingRejects(t: Text, s: Schema, v: Json)
    requires s.Node? && s.elsewhere.None? && s.oneOf == Union([Nothing])
    ensures !Valid(t, s, v)
  {
    assert !ValidVariants(t, s, v);
  }

  /** `oneOf` appears beside `anyOf`. */
  lemma OneOfBesideAnyOf(t: Text, was: Schema, now: Schema, m: Schema, v: Json)
    requires m.Node? && Comparable(m) && Valid(t, m, v)
    requires was == UnionOf(Union([m]), NoUnion, []) && now == UnionOf(Union([m]), Union([Nothing]), [])
    ensures Missed(t, was, now)
  {
    OnlyUnions(was, now);
    AnyOfAccepts(t, was, v);
    assert m in UnionVariants(was);
    OneOfNothingRejects(t, now, v);
    UnseenBesideUnion(t, was, now, v);
  }

  /** A member the check does not look into, `true` or a reference it cannot follow, leaves the union. */
  lemma MemberLeavesUnion(t: Text, was: Schema, now: Schema, unseen: Schema, m: Schema, v: Json)
    requires !unseen.Node? && Valid(t, unseen, v) && m.Node? && Comparable(m) && !Valid(t, m, v)
    requires was == UnionOf(Union([unseen, m]), NoUnion, []) && now == UnionOf(Union([m]), NoUnion, [])
    ensures Missed(t, was, now)
  {
    OnlyUnions(was, now);
    AnyOfAccepts(t, was, v);
    assert m in UnionVariants(now) && [unseen, m][1..] == [m];
    assert Nodes([unseen, m]) == [] + Nodes([m]) == Nodes([m]);
    AnyOfRejects(t, now, v);
    UnseenBesideUnion(t, was, now, v);
  }

  /** Two old variants under one key: the last hides the first, which may disappear. */
  lemma RepeatedKeyHidesVariant(t: Text, was: Schema, now: Schema, a: Schema, b: Schema, v: Json)
    requires a.Node? && Valid(t, a, v) && b.Node? && !Valid(t, b, v) && Comparable(b)
    requires DiscriminatorValue(a).Some? && DiscriminatorValue(a) == DiscriminatorValue(b)
    requires was == UnionOf(Union([a, b]), NoUnion, []) && now == UnionOf(Union([b]), NoUnion, [])
    ensures Missed(t, was, now)
  {
    var key := DiscriminatorValue(a).value;
    TwoUnderKey(was, a, b, key);
    OneUnderKey(now, b, key);
    OnlyUnionsSameKeywords(was, now);
    LastVariantHides(was, now, b, key);
    AnyOfAccepts(t, was, v);
    AnyOfRejects(t, now, v);
    Witness(t, was, now, v);
  }

  /** All variants of the union have this key, and this is the last of them. */
  predicate LastUnder(s: Schema, b: Schema, key: string)
    requires s.Node?
  {
    var variants := UnionVariants(s);
    variants != [] && variants[|variants| - 1] == b && forall i :: 0 <= i < |variants| ==> KeyAt(variants, i) == key
  }

  lemma LastVariantHides(was: Schema, now: Schema, b: Schema, key: string)
    requires was.Node? && now.Node? && CompareKeywords(was, now, []) == []
    requires Comparable(b) && LastUnder(was, b, key) && LastUnder(now, b, key)
    ensures CompareSchema(was, now, []) == []
  {
    var o, n := UnionVariants(was), UnionVariants(now);
    LastVariantCompared(was, o, n, b, key);
    QuietUnion(was, now, o, [key], Keyed(n));
  }

  lemma TwoUnderKey(s: Schema, a: Schema, b: Schema, key: string)
    requires s.Node? && s.anyOf == Union([a, b]) && a.Node? && b.Node?
    requires DiscriminatorValue(a) == Some(key) && DiscriminatorValue(b) == Some(key)
    ensures LastUnder(s, b, key)
  {
    TwoNodes(a, b);
    assert UnionVariants(s)[0] == a && UnionVariants(s)[1] == b;
  }

  lemma OneUnderKey(s: Schema, b: Schema, key: string)
    requires s.Node? && s.anyOf == Union([b]) && b.Node? && DiscriminatorValue(b) == Some(key)
    ensures LastUnder(s, b, key)
  {
    TwoNodes(b, b);
    assert UnionVariants(s)[0] == b;
  }

  lemma QuietUnion(was: Schema, now: Schema, o: seq<Schema>, order: seq<string>, next: map<string, Schema>)
    requires was.Node? && now.Node? && CompareKeywords(was, now, []) == []
    requires UnionVariants(was) == o != [] && next == Keyed(UnionVariants(now)) && forall i :: 0 <= i < |o| ==> o[i] < was
    requires order == FirstOccurrences(VariantKeys(o)) && CompareVariants(was, o, order, next, []) == []
    ensures CompareSchema(was, now, []) == []
  {
  }

  lemma OnlyUnionsSameKeywords(was: Schema, now: Schema)
    requires was.Node? && was == UnionOf(was.anyOf, was.oneOf, was.required)
    requires now.Node? && now == UnionOf(now.anyOf, now.oneOf, now.required)
    ensures CompareKeywords(was, now, []) == []
  {
  }

  lemma TwoNodes(a: Schema, b: Schema)
    requires a.Node? && b.Node?
    ensures Nodes([a, b]) == [a, b] && Nodes([b]) == [b]
  {
    assert Nodes([b][1..]) == [];
    assert Nodes([b]) == [b] + [] == [b];
    assert [a, b][1..] == [b];
    assert Nodes([a, b]) == [a] + Nodes([b]);
  }

  lemma {:induction false} OneKey(keys: seq<string>, key: string)
    requires keys != [] && forall i :: 0 <= i < |keys| ==> keys[i] == key
    ensures FirstOccurrences(keys) == [key]
  {
    var last := |keys| - 1;
    if last > 0 {
      OneKey(keys[..last], key);
    }
  }

  lemma LastVariantCompared(parent: Schema, was: seq<Schema>, now: seq<Schema>, b: Schema, key: string)
    requires (forall i :: 0 <= i < |was| ==> was[i] < parent) && Comparable(b)
    requires was != [] && was[|was| - 1] == b && forall i :: 0 <= i < |was| ==> KeyAt(was, i) == key
    requires now != [] && now[|now| - 1] == b && forall i :: 0 <= i < |now| ==> KeyAt(now, i) == key
    ensures FirstOccurrences(VariantKeys(was)) == [key] && key in VariantKeys(was)
    ensures CompareVariants(parent, was, [key], Keyed(now), []) == []
  {
    OneKey(VariantKeys(was), key);
    LastUnderKey(was, key);
    LastUnderKey(now, key);
    OneKeyCompared(parent, was, b, Keyed(now), key);
  }

  lemma OneKeyCompared(parent: Schema, variants: seq<Schema>, b: Schema, next: map<string, Schema>, key: string)
    requires (forall i :: 0 <= i < |variants| ==> variants[i] < parent) && Comparable(b)
    requires key in VariantKeys(variants) && Keyed(variants)[key] == b && key in next && next[key] == b
    ensures CompareVariants(parent, variants, [key], next, []) == []
  {
    SelfCompatible(b, [] + [Variant(key)]);
    assert [key][1..] == [];
  }

  lemma LastUnderKey(variants: seq<Schema>, key: string)
    requires variants != [] && forall i :: 0 <= i < |variants| ==> KeyAt(variants, i) == key
    ensures key in VariantKeys(variants) && Keyed(variants)[key] == variants[|variants| - 1]
  {
    assert VariantKeys(variants)[|variants| - 1] == key;
  }
}
