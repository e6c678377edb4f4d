/**
  When the compatibility check is silent, every value the old schema accepts is accepted by
  the new one, on the pairs of schemas the check really looks at. `Examined` describes such
  pairs; they include every unchanged schema.
 */
module JsonSchemaSoundness {
  import opened Prelude
  import opened JsonSchema
  import opened JsonSchemaCompatibility

  /** Every value of the old schema is a value of the new one. */
  ghost predicate Widens(t: Text, was: Schema, now: Schema) {
    forall v :: Valid(t, was, v) ==> Valid(t, now, v)
  }

  predicate Unconstrained(a: Additional) {
    a.Unstated? || a.Allowed?
  }

  /** The schema demands an object whose `type` is its constant. */
  predicate DemandsTag(s: Schema) {
    && s.Node? && s.elsewhere.None? && DiscriminatorValue(s).Some?
    && s.types == Some(["object"]) && TYPE in s.required
    && Find(PropertiesOf(s), TYPE).value.elsewhere.None?
  }

  /** A value has at most one of these types: each demands an object whose `type` is its own constant. */
  ghost predicate Tagged(variants: seq<Schema>) {
    && (forall i :: 0 <= i < |variants| ==> DemandsTag(variants[i]))
    && (forall i, j :: 0 <= i < j < |variants| ==> DiscriminatorValue(variants[i]) != DiscriminatorValue(variants[j]))
  }

  /** The members of a JSON object have different names. */
  ghost predicate UniqueNames(ps: seq<Property>) {
    forall i, j :: 0 <= i < j < |ps| ==> ps[i].name != ps[j].name
  }

  /** The new exclusive bound, if any, follows from the old bounds. */
  predicate LowerImplied(minimum: Option<real>, exclusive: Option<real>, now: Option<real>) {
    now.Some? ==> (exclusive.Some? && now.value <= exclusive.value) || (minimum.Some? && now.value < minimum.value)
  }

  predicate UpperImplied(maximum: Option<real>, exclusive: Option<real>, now: Option<real>) {
    now.Some? ==> (exclusive.Some? && now.value >= exclusive.value) || (maximum.Some? && now.value > maximum.value)
  }

  /** No name loses the cover of a pattern, unless unknown fields are free. */
  predicate PatternsKept(was: Schema, now: Schema)
    requires was.Node? && now.Node?
  {
    Unconstrained(now.additional) || forall p :: p in was.patterns ==> p in now.patterns
  }

  /** Keywords the check does not read, or reads only in part, are kept or dropped. */
  ghost predicate ExaminedKeywords(was: Schema, now: Schema)
    requires was.Node? && now.Node?
  {
    && (now.enumValues.Some? && now.constant.Some? ==> now.constant == was.constant)
    && (now.types == Some([]) ==> was.types == Some([]))
    && LowerImplied(was.minimum, was.exclusiveMinimum, now.exclusiveMinimum)
    && UpperImplied(was.maximum, was.exclusiveMaximum, now.exclusiveMaximum)
    && (now.others.None? || now.others == was.others)
    && PatternsKept(was, now)
  }

  /** The unions are the old ones, or gone. */
  predicate UnionKept(was: Schema, now: Schema)
    requires was.Node? && now.Node?
  {
    (now.anyOf.NoUnion? || now.anyOf == was.anyOf) && (now.oneOf.NoUnion? || now.oneOf == was.oneOf)
  }

  /** What stands beside a union is not compared: it is kept or dropped. */
  predicate BesideUnion(was: Schema, now: Schema)
    requires was.Node? && now.Node?
  {
    && (PropertiesOf(now) == [] || PropertiesOf(now) == PropertiesOf(was))
    && (forall name :: name in now.required ==> name in was.required)
    && (Unconstrained(now.additional) || (now.additional == was.additional && PropertiesOf(now) == PropertiesOf(was)))
    && (now.items.NoItems? || now.items == was.items)
  }

  /** The variants of the new union stand for those of the old, one for one. */
  ghost predicate ComparedUnion(was: Schema, now: Schema)
    requires was.Node? && now.Node?
    decreases was, 1
  {
    && (forall m :: m in UnionMembers(was) && (m.Anything? || m.Ref?) ==> m in UnionMembers(now))
    && ExaminedVariants(was, UnionVariants(was), UnionVariants(now))
    && !(now.anyOf.Union? && now.oneOf.Union?)
    && (now.oneOf.Union? ==> Tagged(now.oneOf.members))
  }

  ghost predicate ExaminedVariants(parent: Schema, o: seq<Schema>, n: seq<Schema>)
    requires forall i :: 0 <= i < |o| ==> o[i] < parent
    decreases parent, 0
  {
    && Distinct(VariantKeys(o))
    && (forall i :: 0 <= i < |o| && KeyAt(o, i) in Keyed(n) ==> Examined(o[i], Keyed(n)[KeyAt(o, i)]))
  }

  ghost predicate ExaminedObject(was: Schema, now: Schema)
    requires was.Node? && now.Node?
    decreases was, 0
  {
    var o, n := PropertiesOf(was), PropertiesOf(now);
    && UniqueNames(o) && UniqueNames(n)
    && (was.properties.NoProperties? ==>
          && n == [] && (forall name :: name in now.required ==> name in was.required)
          && (Unconstrained(now.additional) || now.additional == was.additional))
    && (was.properties.Properties? && (!was.additional.Forbidden? || was.patterns != []) ==>
          forall name :: name in Names(n) ==> name in Names(o))
    && (was.properties.Properties? && !was.additional.Forbidden? ==>
          !now.additional.Typed? || now.additional == was.additional)
    && (forall name :: name in Names(o) && name.Inherited? ==> name in Names(n) || Unconstrained(now.additional))
    && (forall i :: 0 <= i < |o| && Find(n, o[i].name).Some? ==> Examined(o[i].schema, Find(n, o[i].name).value))
  }

  ghost predicate ExaminedItems(was: Schema, now: Schema)
    requires was.Node? && now.Node?
    decreases was, 0
  {
    match (was.items, now.items)
    case (_, NoItems) => true
    case (Each(o), Each(n)) => Examined(o, n)
    case (o, n) => o == n
  }

  /** A schema that says nothing, and so accepts every value. */
  predicate Unrestricted(s: Schema) {
    s.Node? && s == EMPTY.(properties := s.properties, additional := s.additional)
    && PropertiesOf(s) == [] && Unconstrained(s.additional)
  }

  /** Pairs of schemas on which silence of the check is a guarantee. */
  ghost predicate Examined(was: Schema, now: Schema)
    decreases was, 2
  {
    if was.Nothing? || now.Anything? then true
    else if !was.Node? then was == now || Unrestricted(now)
    else if !now.Node? then false
    else if was.elsewhere.Some? || now.elsewhere.Some? then was.elsewhere == now.elsewhere || Unrestricted(now)
    else
      && ExaminedKeywords(was, now)
      && (if UnionVariants(was) != [] then BesideUnion(was, now) && (UnionKept(was, now) || ComparedUnion(was, now))
          else UnionKept(was, now) && ExaminedObject(was, now) && ExaminedItems(was, now))
  }

  /** JSON objects name their members once, at every level. */
  ghost predicate Named(s: Schema)
    decreases s
  {
    s.Node? ==>
      && UniqueNames(PropertiesOf(s))
      && (forall i :: 0 <= i < |PropertiesOf(s)| ==> Named(PropertiesOf(s)[i].schema))
      && (forall i :: 0 <= i < |UnionVariants(s)| ==> Named(UnionVariants(s)[i]))
      && (s.items.Each? ==> Named(s.items.schema))
  }

  /** A schema that did not change is examined. */
  lemma {:induction false} ExaminedIsReflexive(s: Schema)
    requires Named(s)
    ensures Examined(s, s)
    decreases s
  {
    if s.Node? && UnionVariants(s) == [] {
      var ps := PropertiesOf(s);
      forall i | 0 <= i < |ps| ensures Find(ps, ps[i].name) == Some(ps[i].schema) && Examined(ps[i].schema, ps[i].schema) {
        UniqueProperty(ps, i);
        ExaminedIsReflexive(ps[i].schema);
      }
      if s.items.Each? {
        ExaminedIsReflexive(s.items.schema);
      }
    }
  }

  // ---------------------------------------------------------------- what silence means, part by part

  lemma SilentValues(was: Schema, now: Schema, path: seq<Step>, v: Json)
    requires was.Node? && now.Node? && ExaminedKeywords(was, now)
    requires CompareAllowedValues(was, now, path) == [] && CompareType(was, now, path) == []
    requires ValidValue(was, v)
    ensures ValidValue(now, v)
  {
    if AllowedValues(now).Some? {
      assert v in AllowedValues(was).value;
      assert Keeps(AllowedValues(now).value, v);
    }
    if now.types.Some? {
      assert TypesOf(now) != [];
      var i :| 0 <= i < |was.types.value| && HasType(v, was.types.value[i]);
      var name := was.types.value[i];
      assert name in TypesOf(was);
      assert name in now.types.value;
    }
  }

  lemma SilentKeywords(t: Text, was: Schema, now: Schema, path: seq<Step>, v: Json)
    requires was.Node? && now.Node? && ExaminedKeywords(was, now)
    requires CompareKeywords(was, now, path) == []
    requires ValidValue(was, v) && ValidScalar(t, was, v) && (was.others.Some? ==> t.says(Keywords(was.others.value), v))
    ensures ValidValue(now, v) && ValidScalar(t, now, v) && (now.others.Some? ==> t.says(Keywords(now.others.value), v))
  {
    SilentValues(was, now, path, v);
  }

  lemma {:induction false} SilentVariants(parent: Schema, was: seq<Schema>, order: seq<string>, next: map<string, Schema>, path: seq<Step>, key: string)
    requires forall i :: 0 <= i < |was| ==> was[i] < parent
    requires forall k :: k in order ==> k in VariantKeys(was)
    requires CompareVariants(parent, was, order, next, path) == [] && key in order
    ensures key in next && CompareSchema(Keyed(was)[key], next[key], path + [Variant(key)]) == []
  {
    if key != order[0] {
      SilentVariants(parent, was, order[1..], next, path, key);
    }
  }

  lemma {:induction false} SilentProperties(parent: Schema, was: seq<Property>, now: seq<Property>, path: seq<Step>, i: nat)
    requires forall k :: 0 <= k < |was| ==> was[k].schema < parent
    requires CompareProperties(parent, was, now, path) == [] && i < |was|
    ensures Member(now, was[i].name).Some?
    ensures CompareSchema(was[i].schema, Member(now, was[i].name).value, path + [AtProperty(was[i].name)]) == []
  {
    if i > 0 {
      SilentProperties(parent, was[1..], now, path, i - 1);
    }
  }

  lemma KeyedDistinct(variants: seq<Schema>, i: nat)
    requires Distinct(VariantKeys(variants)) && i < |variants|
    ensures KeyAt(variants, i) in VariantKeys(variants)
    ensures KeyAt(variants, i) in Keyed(variants) && Keyed(variants)[KeyAt(variants, i)] == variants[i]
  {
    var keys := VariantKeys(variants);
    assert keys[i] in keys;
    var j :| 0 <= j < |keys| && keys[j] == keys[i] && variants[j] == Keyed(variants)[keys[i]];
    assert i == j;
  }

  /** A value accepted by a tagged variant carries its tag, so it is accepted by no other. */
  lemma TaggedValue(t: Text, s: Schema, v: Json)
    requires DemandsTag(s) && Valid(t, s, v)
    ensures v.Obj? && TYPE in v.fields && v.fields[TYPE] == Str(DiscriminatorValue(s).value)
  {
    var ps := PropertiesOf(s);
    var i :| 0 <= i < |ps| && ps[i].name == TYPE && ps[i].schema == Find(ps, TYPE).value;
    assert ValidFields(t, s, v.fields);
    assert Valid(t, ps[i].schema, v.fields[TYPE]);
  }

  lemma {:induction false} UniqueProperty(ps: seq<Property>, i: nat)
    requires UniqueNames(ps) && i < |ps|
    ensures Find(ps, ps[i].name) == Some(ps[i].schema)
  {
    if i > 0 {
      assert ps[0].name != ps[i].name;
      UniqueProperty(ps[1..], i - 1);
    }
  }

  lemma SilentNode(was: Schema, now: Schema, path: seq<Step>)
    requires was.Node? && now.Node? && CompareSchema(was, now, path) == []
    ensures CompareKeywords(was, now, path) == []
    ensures var variants := UnionVariants(was);
            if variants != [] then
              CompareVariants(was, variants, FirstOccurrences(VariantKeys(variants)), Keyed(UnionVariants(now)), path) == []
            else CompareObject(was, now, path) == [] && CompareItems(was, now, path) == []
  {
  }

  // ---------------------------------------------------------------- soundness

  lemma OnlyTagged(t: Text, variants: seq<Schema>, k: nat, v: Json)
    requires Tagged(variants) && k < |variants| && Valid(t, variants[k], v)
    ensures forall j :: 0 <= j < |variants| && j != k ==> !Valid(t, variants[j], v)
  {
    TaggedValue(t, variants[k], v);
    forall j | 0 <= j < |variants| && j != k && Valid(t, variants[j], v) ensures false {
      TaggedValue(t, variants[j], v);
    }
  }

  lemma AcceptedVariant(t: Text, now: Schema, accepted: Schema, v: Json)
    requires now.Node? && !(now.anyOf.Union? && now.oneOf.Union?) && (now.oneOf.Union? ==> Tagged(now.oneOf.members))
    requires accepted in UnionMembers(now) && Valid(t, accepted, v)
    ensures ValidVariants(t, now, v)
  {
    var k :| 0 <= k < |UnionMembers(now)| && UnionMembers(now)[k] == accepted;
    if now.oneOf.Union? {
      OnlyTagged(t, now.oneOf.members, k, v);
    }
  }

  /** A value of a union is a value of one of its variants, or of a member the check does not look into. */
  lemma AcceptingVariant(t: Text, was: Schema, v: Json) returns (m: Schema, i: nat)
    requires was.Node? && UnionVariants(was) != [] && ValidVariants(t, was, v)
    ensures m in UnionMembers(was) && Valid(t, m, v)
    ensures m.Node? ==> i < |UnionVariants(was)| && UnionVariants(was)[i] == m
  {
    i := 0;
    m :| m in UnionMembers(was) && Valid(t, m, v);
    if m.Node? {
      assert m in UnionVariants(was);
      i :| 0 <= i < |UnionVariants(was)| && UnionVariants(was)[i] == m;
    }
  }

  lemma SilentKey(parent: Schema, o: seq<Schema>, n: seq<Schema>, path: seq<Step>, i: nat)
    requires (forall j :: 0 <= j < |o| ==> o[j] < parent) && i < |o| && Distinct(VariantKeys(o))
    requires CompareVariants(parent, o, FirstOccurrences(VariantKeys(o)), Keyed(n), path) == []
    ensures KeyAt(o, i) in Keyed(n)
    ensures CompareSchema(o[i], Keyed(n)[KeyAt(o, i)], path + [Variant(KeyAt(o, i))]) == []
  {
    KeyedDistinct(o, i);
    SilentVariants(parent, o, FirstOccurrences(VariantKeys(o)), Keyed(n), path, KeyAt(o, i));
  }

  lemma ComparedWith(parent: Schema, o: seq<Schema>, n: seq<Schema>, path: seq<Step>, i: nat) returns (next: Schema)
    requires (forall j :: 0 <= j < |o| ==> o[j] < parent) && i < |o| && ExaminedVariants(parent, o, n)
    requires CompareVariants(parent, o, FirstOccurrences(VariantKeys(o)), Keyed(n), path) == []
    ensures next in n && Examined(o[i], next) && CompareSchema(o[i], next, path + [Variant(KeyAt(o, i))]) == []
  {
    SilentKey(parent, o, n, path, i);
    next := Keyed(n)[KeyAt(o, i)];
  }

  /** Every variant of an examined union was compared, without a finding, with a variant of the new one. */
  lemma ComparedVariant(was: Schema, now: Schema, path: seq<Step>, i: nat) returns (next: Schema)
    requires was.Node? && now.Node? && UnionVariants(was) != [] && i < |UnionVariants(was)|
    requires ComparedUnion(was, now) && CompareSchema(was, now, path) == []
    ensures next in UnionVariants(now) && Examined(UnionVariants(was)[i], next)
    ensures CompareSchema(UnionVariants(was)[i], next, path + [Variant(KeyAt(UnionVariants(was), i))]) == []
  {
    SilentNode(was, now, path);
    next := ComparedWith(was, UnionVariants(was), UnionVariants(now), path, i);
  }

  lemma InNames(ps: seq<Property>, name: Name)
    ensures name in Names(ps) <==> exists i :: 0 <= i < |ps| && ps[i].name == name
  {
    if name in Names(ps) {
      var i :| 0 <= i < |ps| && Names(ps)[i] == name;
    }
    forall i | 0 <= i < |ps| && ps[i].name == name ensures name in Names(ps) {
      assert Names(ps)[i] == name;
    }
  }

  lemma {:induction false} SoundProperty(t: Text, was: Schema, now: Schema, path: seq<Step>, fields: map<Name, Json>, k: nat)
    requires was.Node? && now.Node? && was.properties.Properties? && ExaminedObject(was, now)
    requires CompareProperties(was, PropertiesOf(was), PropertiesOf(now), path) == [] && ValidFields(t, was, fields)
    requires k < |PropertiesOf(now)| && PropertiesOf(now)[k].name in fields
    ensures Valid(t, PropertiesOf(now)[k].schema, fields[PropertiesOf(now)[k].name])
    decreases was, 0, 0
  {
    var o, n := PropertiesOf(was), PropertiesOf(now);
    InNames(n, n[k].name);
    InNames(o, n[k].name);
    assert n[k].name in Names(o);
    var i :| 0 <= i < |o| && o[i].name == n[k].name;
    UniqueProperty(n, k);
    SilentProperties(was, o, n, path, i);
    Sound(t, o[i].schema, n[k].schema, path + [AtProperty(o[i].name)], fields[o[i].name]);
  }

  lemma NamesKept(was: Schema, now: Schema, path: seq<Step>, name: Name)
    requires was.Node? && now.Node? && name in Names(PropertiesOf(was)) && name.Plain?
    requires CompareProperties(was, PropertiesOf(was), PropertiesOf(now), path) == []
    ensures name in Names(PropertiesOf(now))
  {
    var o, n := PropertiesOf(was), PropertiesOf(now);
    InNames(o, name);
    InNames(n, name);
    var i :| 0 <= i < |o| && o[i].name == name;
    SilentProperties(was, o, n, path, i);
  }

  lemma PatternsCover(t: Text, was: Schema, now: Schema)
    requires was.Node? && now.Node? && PatternsKept(was, now) && !Unconstrained(now.additional)
    ensures forall name :: Covered(t, was.patterns, name) ==> Covered(t, now.patterns, name)
  {
    forall name | Covered(t, was.patterns, name) ensures Covered(t, now.patterns, name) {
      var i :| 0 <= i < |was.patterns| && t.covers(was.patterns[i], name);
      assert was.patterns[i] in now.patterns;
    }
  }

  lemma {:induction false} SoundFields(t: Text, was: Schema, now: Schema, path: seq<Step>, fields: map<Name, Json>)
    requires was.Node? && now.Node? && ExaminedObject(was, now) && PatternsKept(was, now)
    requires CompareObject(was, now, path) == [] && ValidFields(t, was, fields)
    ensures ValidFields(t, now, fields)
    decreases was, 0, 1
  {
    var o, n := PropertiesOf(was), PropertiesOf(now);
    if !Unconstrained(now.additional) {
      PatternsCover(t, was, now);
    }
    if was.properties.NoProperties? {
      assert Names(n) == Names(o) == [];
    } else {
      assert CompareProperties(was, o, n, path) == [];
      forall name | name in now.required ensures name in fields {
        assert name in FirstOccurrences(was.required + now.required);
      }
      forall k | 0 <= k < |n| && n[k].name in fields ensures Valid(t, n[k].schema, fields[n[k].name]) {
        SoundProperty(t, was, now, path, fields, k);
      }
      forall name | name in fields && name !in Names(n) && !Unconstrained(now.additional) ensures name !in Names(o) {
        if name in Names(o) {
          NamesKept(was, now, path, name);
        }
      }
    }
  }

  lemma {:induction false} SoundItems(t: Text, was: Schema, now: Schema, path: seq<Step>, elements: seq<Json>)
    requires was.Node? && now.Node? && ExaminedItems(was, now) && CompareItems(was, now, path) == []
    requires ValidElements(t, was, elements)
    ensures ValidElements(t, now, elements)
    decreases was, 0
  {
    if now.items.Each? && was.items.Each? {
      forall i | 0 <= i < |elements| ensures Valid(t, now.items.schema, elements[i]) {
        Sound(t, was.items.schema, now.items.schema, path + [ItemsOf], elements[i]);
      }
    }
  }

  lemma {:induction false} SoundMember(t: Text, was: Schema, now: Schema, path: seq<Step>, v: Json, i: nat) returns (next: Schema)
    requires was.Node? && now.Node? && UnionVariants(was) != []
    requires ComparedUnion(was, now) && CompareSchema(was, now, path) == []
    requires i < |UnionVariants(was)| && Valid(t, UnionVariants(was)[i], v)
    ensures next in UnionVariants(now) && Valid(t, next, v)
    decreases was, 1
  {
    next := ComparedVariant(was, now, path, i);
    Sound(t, UnionVariants(was)[i], next, path + [Variant(KeyAt(UnionVariants(was), i))], v);
  }

  lemma {:induction false} SoundUnion(t: Text, was: Schema, now: Schema, path: seq<Step>, v: Json)
    requires was.Node? && now.Node? && UnionVariants(was) != []
    requires ComparedUnion(was, now) && CompareSchema(was, now, path) == []
    requires ValidVariants(t, was, v)
    ensures ValidVariants(t, now, v)
    decreases was, 2
  {
    var m, i := AcceptingVariant(t, was, v);
    if m.Node? {
      m := SoundMember(t, was, now, path, v, i);
    }
    AcceptedVariant(t, now, m, v);
  }

  /** The object and array keywords of a node accept the value. */
  ghost predicate ValidStructure(t: Text, s: Schema, v: Json)
    requires s.Node?
  {
    && (v.Obj? ==> ValidFields(t, s, v.fields))
    && (v.Arr? ==> ValidElements(t, s, v.elements))
  }

  lemma KeptStructure(t: Text, was: Schema, now: Schema, v: Json)
    requires was.Node? && now.Node? && BesideUnion(was, now) && PatternsKept(was, now) && ValidStructure(t, was, v)
    ensures ValidStructure(t, now, v)
  {
    if !Unconstrained(now.additional) {
      PatternsCover(t, was, now);
    }
  }

  lemma {:induction false} SoundStructure(t: Text, was: Schema, now: Schema, path: seq<Step>, v: Json)
    requires was.Node? && now.Node? && UnionVariants(was) == [] && PatternsKept(was, now)
    requires ExaminedObject(was, now) && ExaminedItems(was, now) && CompareSchema(was, now, path) == []
    requires ValidStructure(t, was, v)
    ensures ValidStructure(t, now, v)
    decreases was, 1
  {
    SilentNode(was, now, path);
    if v.Obj? {
      SoundFields(t, was, now, path, v.fields);
    }
    if v.Arr? {
      SoundItems(t, was, now, path, v.elements);
    }
  }

  lemma {:induction false} SoundParts(t: Text, was: Schema, now: Schema, path: seq<Step>, v: Json)
    requires was.Node? && now.Node? && was.elsewhere.None? && now.elsewhere.None?
    requires Examined(was, now) && CompareSchema(was, now, path) == []
    requires ValidVariants(t, was, v) && ValidStructure(t, was, v)
    ensures ValidVariants(t, now, v) && ValidStructure(t, now, v)
    decreases was, 3
  {
    if UnionVariants(was) == [] {
      SoundStructure(t, was, now, path, v);
    } else {
      KeptStructure(t, was, now, v);
      if !UnionKept(was, now) {
        SoundUnion(t, was, now, path, v);
      }
    }
  }

  /** Soundness of the check. */
  lemma {:induction false} Sound(t: Text, was: Schema, now: Schema, path: seq<Step>, v: Json)
    requires Examined(was, now) && CompareSchema(was, now, path) == []
    requires Valid(t, was, v)
    ensures Valid(t, now, v)
    decreases was, 4
  {
    if was.Node? && now.Node? && was.elsewhere.None? && now.elsewhere.None? {
      SilentNode(was, now, path);
      SilentKeywords(t, was, now, path, v);
      SoundParts(t, was, now, path, v);
    }
  }

  /** If no breaking change is found, nothing the old protocol sends is rejected by the new one. */
  lemma NoIssueMeansCompatible(t: Text, previous: Schema, next: Schema)
    requires Examined(previous, next) && CompareSchema(previous, next, []) == []
    ensures Widens(t, previous, next)
  {
    forall v | Valid(t, previous, v) ensures Valid(t, next, v) {
      Sound(t, previous, next, [], v);
    }
  }
}
