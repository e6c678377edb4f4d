/**
  What the compatibility check accepts: a schema against itself, one more union variant, one
  more optional property.
 */
module JsonSchemaAdditive {
  import opened JsonSchema
  import opened JsonSchemaCompatibility
  import opened JsonSchemaSoundness

  predicate Primitive(v: Json) {
    !v.Arr? && !v.Obj?
  }

  /** What stands under a key in the map the check builds of a union's variants. */
  function VariantUnder(s: Schema, key: string): (r: Schema)
    requires s.Node? && key in VariantKeys(UnionVariants(s))
    ensures r < s && r in UnionVariants(s)
  {
    Keyed(UnionVariants(s))[key]
  }

  /** All constants the check comes to when it compares the schema with itself are primitive. */
  ghost predicate SelfComparable(s: Schema)
    decreases s
  {
    s.Node? ==>
      && (AllowedValues(s).Some? ==> forall v :: v in AllowedValues(s).value ==> Primitive(v))
      && if UnionVariants(s) != [] then
           forall key :: key in VariantKeys(UnionVariants(s)) ==> SelfComparable(VariantUnder(s, key))
         else
           && (forall i :: 0 <= i < |PropertiesOf(s)| ==> SelfComparable(PropertiesOf(s)[i].schema))
           && (s.items.Each? ==> SelfComparable(s.items.schema))
  }

  ghost predicate Comparable(s: Schema) {
    Named(s) && SelfComparable(s)
  }

  lemma {:induction false} QuietVariants(parent: Schema, was: seq<Schema>, order: seq<string>, next: map<string, Schema>, path: seq<Step>)
    requires forall i :: 0 <= i < |was| ==> was[i] < parent
    requires forall key :: key in order ==> key in VariantKeys(was)
    requires forall key :: key in order ==>
               key in next && CompareSchema(Keyed(was)[key], next[key], path + [Variant(key)]) == []
    ensures CompareVariants(parent, was, order, next, path) == []
  {
    if order != [] {
      assert order[0] in order;
      QuietVariants(parent, was, order[1..], next, path);
    }
  }

  lemma {:induction false} QuietProperties(parent: Schema, was: seq<Property>, now: seq<Property>, path: seq<Step>)
    requires forall i :: 0 <= i < |was| ==> was[i].schema < parent
    requires forall i :: 0 <= i < |was| ==>
               Member(now, was[i].name).Some?
               && CompareSchema(was[i].schema, Member(now, was[i].name).value, path + [AtProperty(was[i].name)]) == []
    ensures CompareProperties(parent, was, now, path) == []
  {
    if was != [] {
      assert Member(now, was[0].name).Some?;
      QuietProperties(parent, was[1..], now, path);
    }
  }

  predicate SameKeywords(s: Schema, now: Schema) {
    && s.Node? && now.Node?
    && AllowedValues(now) == AllowedValues(s) && now.types == s.types
    && now.minimum == s.minimum && now.maximum == s.maximum && now.pattern == s.pattern && now.format == s.format
    && now.minLength == s.minLength && now.maxLength == s.maxLength
    && now.minItems == s.minItems && now.maxItems == s.maxItems
  }

  lemma KeepsPrimitives(values: seq<Json>)
    ensures (forall v :: v in values ==> Keeps(values, v)) <==> forall v :: v in values ==> Primitive(v)
  {
    forall v | v in values && Primitive(v) ensures Keeps(values, v) {
      var i :| 0 <= i < |values| && values[i] == v;
      assert SameValue(values[i], v);
    }
  }

  /** Unchanged keywords are quiet exactly when the allowed values are primitive. */
  lemma QuietKeywords(s: Schema, now: Schema, path: seq<Step>)
    requires s.Node? && SameKeywords(s, now)
    ensures CompareKeywords(s, now, path) == []
            <==> (AllowedValues(s).Some? ==> forall v :: v in AllowedValues(s).value ==> Primitive(v))
  {
    if AllowedValues(s).Some? {
      KeepsPrimitives(AllowedValues(s).value);
    }
    assert CompareType(s, now, path) == [] && CompareLimits(s, now, path) == [];
  }

  lemma {:induction false} VariantComparedWithItself(s: Schema, key: string, path: seq<Step>)
    requires s.Node? && Comparable(s) && key in VariantKeys(UnionVariants(s))
    ensures CompareSchema(VariantUnder(s, key), VariantUnder(s, key), path) == []
    decreases s, 0
  {
    SelfCompatible(VariantUnder(s, key), path);
  }

  lemma {:induction false} PropertiesComparedWith(s: Schema, ps: seq<Property>, now: seq<Property>, path: seq<Step>)
    requires UniqueNames(now) && ps <= now
    requires forall i :: 0 <= i < |ps| ==> ps[i].schema < s && Comparable(ps[i].schema)
    ensures CompareProperties(s, ps, now, path) == []
    decreases s, 0
  {
    forall i | 0 <= i < |ps|
      ensures Find(now, ps[i].name).Some?
      ensures CompareSchema(ps[i].schema, Find(now, ps[i].name).value, path + [AtProperty(ps[i].name)]) == []
    {
      assert now[i] == ps[i];
      UniqueProperty(now, i);
      SelfCompatible(ps[i].schema, path + [AtProperty(ps[i].name)]);
    }
    QuietProperties(s, ps, now, path);
  }

  /** An unchanged schema of primitive constants has no breaking change. */
  lemma {:induction false} SelfCompatible(s: Schema, path: seq<Step>)
    requires Comparable(s)
    ensures CompareSchema(s, s, path) == []
    decreases s, 2
  {
    if s.Node? {
      QuietKeywords(s, s, path);
      var variants := UnionVariants(s);
      if variants != [] {
        var order := FirstOccurrences(VariantKeys(variants));
        forall key | key in order
          ensures CompareSchema(Keyed(variants)[key], Keyed(variants)[key], path + [Variant(key)]) == []
        {
          VariantComparedWithItself(s, key, path + [Variant(key)]);
        }
        QuietVariants(s, variants, order, Keyed(variants), path);
      } else {
        SelfCompatibleParts(s, path);
      }
    }
  }

  lemma {:induction false} SelfCompatibleParts(s: Schema, path: seq<Step>)
    requires s.Node? && Comparable(s) && UnionVariants(s) == []
    ensures CompareObject(s, s, path) == [] && CompareItems(s, s, path) == []
    decreases s, 1
  {
    if s.properties.Properties? {
      PropertiesComparedWith(s, PropertiesOf(s), PropertiesOf(s), path);
    }
    if s.items.Each? {
      SelfCompatible(s.items.schema, path + [ItemsOf]);
    }
  }

  /** A constant that is an array or an object is reported as removed though the schema did not change. */
  lemma CompositeConstantIsReported(s: Schema, path: seq<Step>, v: Json)
    requires s.Node? && AllowedValues(s).Some? && v in AllowedValues(s).value && !Primitive(v)
    ensures CompareSchema(s, s, path) != []
  {
    QuietKeywords(s, s, path);
  }

  lemma {:induction false} SilentSelf(s: Schema, path: seq<Step>)
    requires Named(s) && CompareSchema(s, s, path) == []
    ensures SelfComparable(s)
    decreases s, 2
  {
    if s.Node? {
      SilentNode(s, s, path);
      QuietKeywords(s, s, path);
      if UnionVariants(s) != [] {
        SilentSelfVariants(s, UnionVariants(s), FirstOccurrences(VariantKeys(UnionVariants(s))), path);
      } else {
        SilentSelfParts(s, path);
      }
    }
  }

  lemma {:induction false} SilentSelfVariants(s: Schema, variants: seq<Schema>, order: seq<string>, path: seq<Step>)
    requires s.Node? && Named(s) && variants == UnionVariants(s) && forall key :: key in order <==> key in VariantKeys(variants)
    requires forall i :: 0 <= i < |variants| ==> variants[i] < s
    requires CompareVariants(s, variants, order, Keyed(variants), path) == []
    ensures forall key :: key in VariantKeys(variants) ==> SelfComparable(VariantUnder(s, key))
    decreases s, 1
  {
    forall key | key in VariantKeys(variants) ensures SelfComparable(VariantUnder(s, key)) {
      SilentSelfVariant(s, variants, order, path, key);
    }
  }

  lemma {:induction false} SilentSelfVariant(s: Schema, variants: seq<Schema>, order: seq<string>, path: seq<Step>, key: string)
    requires s.Node? && Named(s) && variants == UnionVariants(s) && key in VariantKeys(variants) && key in order
    requires (forall i :: 0 <= i < |variants| ==> variants[i] < s) && forall k :: k in order ==> k in VariantKeys(variants)
    requires CompareVariants(s, variants, order, Keyed(variants), path) == []
    ensures SelfComparable(VariantUnder(s, key))
    decreases s, 0
  {
    SilentVariants(s, variants, order, Keyed(variants), path, key);
    NamedUnder(s, key);
    SilentSelf(VariantUnder(s, key), path + [Variant(key)]);
  }

  lemma NamedUnder(s: Schema, key: string)
    requires s.Node? && Named(s) && key in VariantKeys(UnionVariants(s))
    ensures Named(VariantUnder(s, key))
  {
  }

  lemma {:induction false} SilentSelfParts(s: Schema, path: seq<Step>)
    requires s.Node? && Named(s) && CompareObject(s, s, path) == [] && CompareItems(s, s, path) == []
    ensures forall i :: 0 <= i < |PropertiesOf(s)| ==> SelfComparable(PropertiesOf(s)[i].schema)
    ensures s.items.Each? ==> SelfComparable(s.items.schema)
    decreases s, 0
  {
    var ps := PropertiesOf(s);
    forall i | 0 <= i < |ps| ensures SelfComparable(ps[i].schema) {
      SilentProperties(s, ps, ps, path, i);
      UniqueProperty(ps, i);
      SilentSelf(ps[i].schema, path + [AtProperty(ps[i].name)]);
    }
    if s.items.Each? {
      SilentSelf(s.items.schema, path + [ItemsOf]);
    }
  }

  /** An unchanged schema has no breaking change exactly when the constants the check comes to are primitive. */
  lemma SelfCompatibleIff(s: Schema, path: seq<Step>)
    requires Named(s)
    ensures CompareSchema(s, s, path) == [] <==> SelfComparable(s)
  {
    if SelfComparable(s) {
      SelfCompatible(s, path);
    } else if CompareSchema(s, s, path) == [] {
      SilentSelf(s, path);
    }
  }

  lemma SameItems(s: Schema, now: Schema, path: seq<Step>)
    requires s.Node? && now.Node? && Comparable(s) && UnionVariants(s) == [] && now.items == s.items
    ensures CompareItems(s, now, path) == []
  {
    if s.items.Each? {
      SelfCompatible(s.items.schema, path + [ItemsOf]);
    }
  }

  lemma MoreProperties(s: Schema, now: Schema, path: seq<Step>)
    requires s.Node? && now.Node? && Comparable(s) && UnionVariants(s) == []
    requires s.properties.Properties? && PropertiesOf(s) <= PropertiesOf(now) && UniqueNames(PropertiesOf(now))
    requires now.required == s.required && now.additional == s.additional
    ensures CompareObject(s, now, path) == []
  {
    PropertiesComparedWith(s, PropertiesOf(s), PropertiesOf(now), path);
  }

  lemma QuietNode(s: Schema, now: Schema, path: seq<Step>)
    requires s.Node? && now.Node? && UnionVariants(s) == []
    requires CompareKeywords(s, now, path) == [] && CompareObject(s, now, path) == [] && CompareItems(s, now, path) == []
    ensures CompareSchema(s, now, path) == []
  {
  }

  /** `now` is `s` with one more member of `properties`, of a new name, which is not required. */
  predicate AddsOptionalProperty(s: Schema, now: Schema, p: Property) {
    && s.Node? && s.properties.Properties?
    && p.name !in Names(s.properties.list)
    && now == s.(properties := Properties(s.properties.list + [p]))
  }

  lemma OnlyPropertiesDiffer(s: Schema, now: Schema, p: Property)
    requires Comparable(s) && AddsOptionalProperty(s, now, p)
    ensures SameKeywords(s, now) && now.required == s.required && now.additional == s.additional && now.items == s.items
    ensures PropertiesOf(now) == PropertiesOf(s) + [p] && UniqueNames(PropertiesOf(now))
  {
    var ps := PropertiesOf(s);
    forall i | 0 <= i < |ps| ensures ps[i].name != p.name {
      assert Names(ps)[i] in Names(ps);
    }
  }

  /** "Additive optional properties are accepted." */
  lemma OptionalPropertyIsAccepted(s: Schema, now: Schema, p: Property, path: seq<Step>)
    requires Comparable(s) && AddsOptionalProperty(s, now, p) && UnionVariants(s) == []
    ensures CompareSchema(s, now, path) == []
  {
    OnlyPropertiesDiffer(s, now, p);
    QuietKeywords(s, now, path);
    MoreProperties(s, now, path);
    SameItems(s, now, path);
    QuietNode(s, now, path);
  }

  lemma {:induction false} NodesAppend(a: seq<Schema>, m: Schema)
    requires m.Node?
    ensures Nodes(a + [m]) == Nodes(a) + [m]
  {
    if a == [] {
      assert [] + [m] == [m];
      assert Nodes([m]) == [m] + Nodes([m][1..]);
    } else {
      assert (a + [m])[1..] == a[1..] + [m];
      NodesAppend(a[1..], m);
    }
  }

  lemma KeyedAppend(a: seq<Schema>, m: Schema)
    ensures Keyed(a + [m]) == Keyed(a)[VariantKey(m, |a|) := m]
  {
    var keys := VariantKeys(a + [m]);
    assert keys == VariantKeys(a) + [VariantKey(m, |a|)];
    assert keys[..|a|] == VariantKeys(a) && (a + [m])[..|a|] == a;
  }

  /** `now` is `s` with one more variant of the union that is compared, under a key no other variant has. */
  predicate AddsVariant(s: Schema, now: Schema, m: Schema) {
    && s.Node? && m.Node?
    && VariantKey(m, |UnionVariants(s)|) !in VariantKeys(UnionVariants(s))
    && if s.anyOf.Union? then now == s.(anyOf := Union(s.anyOf.members + [m]))
       else s.oneOf.Union? && now == s.(oneOf := Union(s.oneOf.members + [m]))
  }

  lemma OnlyVariantsDiffer(s: Schema, now: Schema, m: Schema)
    requires AddsVariant(s, now, m)
    ensures SameKeywords(s, now) && UnionVariants(now) == UnionVariants(s) + [m]
  {
    NodesAppend(UnionMembers(s), m);
    assert UnionMembers(now) == UnionMembers(s) + [m];
    OnlyUnionDiffers(s, now);
  }

  lemma OnlyUnionDiffers(s: Schema, now: Schema)
    requires s.Node? && now.Node? && now == s.(anyOf := now.anyOf, oneOf := now.oneOf)
    ensures SameKeywords(s, now)
  {
  }

  lemma SharedVariants(s: Schema, m: Schema, path: seq<Step>)
    requires s.Node? && Comparable(s) && UnionVariants(s) != []
    requires VariantKey(m, |UnionVariants(s)|) !in VariantKeys(UnionVariants(s))
    ensures var variants := UnionVariants(s);
            CompareVariants(s, variants, FirstOccurrences(VariantKeys(variants)), Keyed(variants + [m]), path) == []
  {
    var variants := UnionVariants(s);
    KeyedAppend(variants, m);
    var order := FirstOccurrences(VariantKeys(variants));
    forall key | key in order
      ensures key in Keyed(variants + [m])
      ensures CompareSchema(Keyed(variants)[key], Keyed(variants + [m])[key], path + [Variant(key)]) == []
    {
      VariantComparedWithItself(s, key, path + [Variant(key)]);
    }
    QuietVariants(s, variants, order, Keyed(variants + [m]), path);
  }

  /** "New union variants are accepted." */
  lemma NewVariantIsAccepted(s: Schema, now: Schema, m: Schema, path: seq<Step>)
    requires Comparable(s) && AddsVariant(s, now, m) && UnionVariants(s) != []
    ensures CompareSchema(s, now, path) == []
  {
    OnlyVariantsDiffer(s, now, m);
    QuietKeywords(s, now, path);
    SharedVariants(s, m, path);
  }
}
