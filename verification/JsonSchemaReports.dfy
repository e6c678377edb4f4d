/** Exactly which issues the compatibility check reports, and where, said without its comparers. */
module JsonSchemaReports {
  import opened Prelude
  import opened JsonSchema
  import opened JsonSchemaCompatibility
  import opened JsonSchemaAdditive

  // ---------------------------------------------------------------- keywords

  predicate Restricted(s: Schema)
    requires s.Node?
  {
    s.enumValues.Some? || s.constant.Some?
  }

  /** The value is among those listed; a constant beside an enumeration is not looked at. */
  predicate Lists(s: Schema, v: Json)
    requires s.Node?
  {
    if s.enumValues.Some? then v in s.enumValues.value else s.constant == Some(v)
  }

  predicate ListsType(s: Schema, name: string)
    requires s.Node?
  {
    s.types.Some? && name in s.types.value
  }

  predicate ListsTypes(s: Schema)
    requires s.Node?
  {
    s.types.Some? && s.types.value != []
  }

  function Limit(s: Schema, b: Bound): Option<real>
    requires s.Node?
  {
    match b
    case Minimum => s.minimum
    case Maximum => s.maximum
    case MinLength => s.minLength
    case MaxLength => s.maxLength
    case MinItems => s.minItems
    case MaxItems => s.maxItems
  }

  predicate Within(b: Bound, limit: Option<real>, x: real) {
    if IsLower(b) then AtLeast(limit, x) else AtMost(limit, x)
  }

  /** Some number within the old bound is not within the new one. */
  ghost predicate Tightened(b: Bound, was: Option<real>, now: Option<real>) {
    exists x :: Within(b, was, x) && !Within(b, now, x)
  }

  function RuleText(s: Schema, rule: TextRule): Option<string>
    requires s.Node?
  {
    match rule
    case Pattern => s.pattern
    case Format => s.format
  }

  /** Two documents never share an array or an object. */
  predicate Shareable(v: Json) {
    !v.Arr? && !v.Obj?
  }

  /** What a change of keywords takes away. */
  ghost predicate Breaks(was: Schema, now: Schema, c: Change)
    requires was.Node? && now.Node?
  {
    match c
    case NewValueRestriction => !Restricted(was) && Restricted(now)
    case ValueRemoved(v) => Restricted(was) && Restricted(now) && Lists(was, v) && !(Shareable(v) && Lists(now, v))
    case NewTypeRestriction => !ListsTypes(was) && ListsTypes(now)
    case TypeRemoved(name) => ListsTypes(now) && ListsType(was, name) && !ListsType(now, name)
    case BoundAdded(b) => Limit(was, b).None? && Limit(now, b).Some?
    case BoundTightened(b) => Limit(was, b).Some? && Limit(now, b).Some? && Tightened(b, Limit(was, b), Limit(now, b))
    case TextRuleAdded(rule) => RuleText(was, rule).None? && RuleText(now, rule).Some?
    case TextRuleChanged(rule) =>
      RuleText(was, rule).Some? && RuleText(now, rule).Some? && RuleText(was, rule) != RuleText(now, rule)
    case _ => false
  }

  // ---------------------------------------------------------------- variants

  predicate TaggedWith(s: Schema, tag: string) {
    && s.Node? && tag != ""
    && Find(PropertiesOf(s), TYPE).Some? && Find(PropertiesOf(s), TYPE).value.Node?
    && Find(PropertiesOf(s), TYPE).value.constant == Some(Str(tag))
  }

  /** The variant's tag, or its number if it has none. */
  ghost predicate HasKey(s: Schema, i: nat, key: string) {
    TaggedWith(s, key) || (key == "#" + Decimal.Print(i) && forall tag :: !TaggedWith(s, tag))
  }

  /** Variant `i` stands for the key: it is the last one that has it. */
  ghost predicate StandsUnder(variants: seq<Schema>, key: string, i: nat) {
    && i < |variants| && HasKey(variants[i], i, key)
    && forall j :: i < j < |variants| ==> !HasKey(variants[j], j, key)
  }

  /** The variants are the objects among the members, in their order. */
  lemma {:induction false} NodesInOrder(a: seq<Schema>, b: seq<Schema>)
    ensures Nodes(a + b) == Nodes(a) + Nodes(b)
    ensures |a| == 1 ==> Nodes(a) == if a[0].Node? then a else []
  {
    if a == [] {
      assert a + b == b;
    } else {
      assert (a + b)[1..] == a[1..] + b;
      NodesInOrder(a[1..], b);
      Associative(if a[0].Node? then [a[0]] else [], Nodes(a[1..]), Nodes(b));
    }
  }

  // ---------------------------------------------------------------- where an issue is

  /** The change is reported at the relative path, for these two schemas. */
  ghost predicate Reports(was: Schema, now: Schema, at: seq<Step>, c: Change)
    decreases was, |at|
  {
    && was.Node? && now.Node?
    && var variants := UnionVariants(was);
       if at == [] then
         Breaks(was, now, c) || (variants == [] && BreaksStructure(was, now, c))
       else if variants != [] then
         at[0].Variant? && exists i: nat :: StandsUnder(variants, at[0].key, i) && variants[i] < was
                                       && ReportsVariant(variants[i], UnionVariants(now), at, c)
       else match at[0]
         case Variant(_) => false
         case AtProperty(name) => exists i :: 0 <= i < |PropertiesOf(was)| && PropertiesOf(was)[i].name == name
                                              && ReportsProperty(PropertiesOf(was)[i].schema, now, name, at, c)
         case Required(name) =>
           was.properties.Properties? && at[1..] == [] && c == RequiredChanged && RequiredOnce(was, now, name)
         case ItemsOf => was.items.Each? && now.items.Each? && Reports(was.items.schema, now.items.schema, at[1..], c)
  }

  /** The name is required on one side only. */
  predicate RequiredOnce(was: Schema, now: Schema, name: Name)
    requires was.Node? && now.Node?
  {
    name in was.required <==> name !in now.required
  }

  /** Nothing may become unknown to an object with properties, and no array may lose its items. */
  predicate BreaksStructure(was: Schema, now: Schema, c: Change)
    requires was.Node? && now.Node?
  {
    || (c == UnknownFieldsRejected && was.properties.Properties? && !was.additional.Forbidden? && now.additional.Forbidden?)
    || (c == ItemsRemoved && !was.items.NoItems? && now.items.NoItems?)
  }

  ghost predicate ReportsVariant(was: Schema, now: seq<Schema>, at: seq<Step>, c: Change)
    requires at != [] && at[0].Variant?
    decreases was, |at|
  {
    || (c == VariantRemoved && at[1..] == [] && forall j: nat :: !StandsUnder(now, at[0].key, j))
    || exists j: nat :: StandsUnder(now, at[0].key, j) && Reports(was, now[j], at[1..], c)
  }

  /** An inherited name is found on every object: as a function, which is no schema, or as the empty prototype. */
  ghost predicate ReportsProperty(was: Schema, now: Schema, name: Name, at: seq<Step>, c: Change)
    requires now.Node? && at != []
    decreases was, |at|
  {
    match Find(PropertiesOf(now), name)
    case Some(schema) => Reports(was, schema, at[1..], c)
    case None =>
      if name.Plain? then c == PropertyRemoved && at[1..] == []
      else name.member.Proto? && Reports(was, EMPTY, at[1..], c)
  }

  // ---------------------------------------------------------------- keywords are reported so

  lemma {:induction false} LostValuesReported(was: seq<Json>, now: seq<Json>, path: seq<Step>, x: Issue)
    ensures x in LostValues(was, now, path) <==> x.path == path && x.change.ValueRemoved? && x.change.value in was && !Keeps(now, x.change.value)
  {
    if was != [] {
      LostValuesReported(was[1..], now, path, x);
      assert was == [was[0]] + was[1..];
    }
  }

  lemma {:induction false} LostTypesReported(was: seq<string>, now: seq<string>, path: seq<Step>, x: Issue)
    ensures x in LostTypes(was, now, path) <==> x.path == path && x.change.TypeRemoved? && x.change.name in was && x.change.name !in now
  {
    if was != [] {
      LostTypesReported(was[1..], now, path, x);
      assert was == [was[0]] + was[1..];
    }
  }

  lemma KeepsIff(values: seq<Json>, v: Json)
    ensures Keeps(values, v) <==> Shareable(v) && v in values
  {
    if Shareable(v) && v in values {
      var i :| 0 <= i < |values| && values[i] == v;
      assert SameValue(values[i], v);
    }
  }

  lemma ValuesReported(was: Schema, now: Schema, path: seq<Step>, x: Issue)
    requires was.Node? && now.Node?
    ensures x in CompareAllowedValues(was, now, path)
            <==> x.path == path && (x.change.NewValueRestriction? || x.change.ValueRemoved?) && Breaks(was, now, x.change)
  {
    if AllowedValues(was).Some? && AllowedValues(now).Some? {
      LostValuesReported(AllowedValues(was).value, AllowedValues(now).value, path, x);
      if x.change.ValueRemoved? {
        KeepsIff(AllowedValues(now).value, x.change.value);
      }
    }
  }

  lemma TypesReported(was: Schema, now: Schema, path: seq<Step>, x: Issue)
    requires was.Node? && now.Node?
    ensures x in CompareType(was, now, path)
            <==> x.path == path && (x.change.NewTypeRestriction? || x.change.TypeRemoved?) && Breaks(was, now, x.change)
  {
    LostTypesReported(TypesOf(was), TypesOf(now), path, x);
  }

  /** A bound is reported exactly if it is new, or if a number within the old one is no longer within it. */
  lemma BoundReported(was: Option<real>, now: Option<real>, lower: bool, b: Bound, path: seq<Step>, x: Issue)
    requires lower <==> IsLower(b)
    ensures x in CompareBound(was, now, lower, b, path)
            <==> x.path == path && ((x.change == BoundAdded(b) && was.None? && now.Some?)
                                    || (x.change == BoundTightened(b) && was.Some? && now.Some? && Tightened(b, was, now)))
  {
    if was.Some? && now.Some? {
      assert Within(b, was, was.value);
    }
  }

  lemma TextReported(was: Option<string>, now: Option<string>, rule: TextRule, path: seq<Step>, x: Issue)
    ensures x in CompareText(was, now, rule, path)
            <==> x.path == path && ((x.change == TextRuleAdded(rule) && was.None? && now.Some?)
                                    || (x.change == TextRuleChanged(rule) && was.Some? && now.Some? && was != now))
  {
  }

  predicate IsLimit(c: Change) {
    c.BoundAdded? || c.BoundTightened? || c.TextRuleAdded? || c.TextRuleChanged?
  }

  lemma InEight(a: seq<Issue>, b: seq<Issue>, c: seq<Issue>, d: seq<Issue>, e: seq<Issue>, f: seq<Issue>, g: seq<Issue>, h: seq<Issue>, x: Issue)
    ensures x in a + b + c + d + e + f + g + h
            <==> x in a || x in b || x in c || x in d || x in e || x in f || x in g || x in h
  {
  }

  predicate IsLower(b: Bound) {
    b.Minimum? || b.MinLength? || b.MinItems?
  }

  /** The part of the report that is about one bound, or one text rule. */
  predicate InPart(was: Schema, now: Schema, path: seq<Step>, x: Issue)
    requires was.Node? && now.Node?
  {
    match x.change
    case BoundAdded(b) => x in CompareBound(Limit(was, b), Limit(now, b), IsLower(b), b, path)
    case BoundTightened(b) => x in CompareBound(Limit(was, b), Limit(now, b), IsLower(b), b, path)
    case TextRuleAdded(r) => x in CompareText(RuleText(was, r), RuleText(now, r), r, path)
    case TextRuleChanged(r) => x in CompareText(RuleText(was, r), RuleText(now, r), r, path)
    case _ => false
  }

  predicate InSomePart(was: Schema, now: Schema, path: seq<Step>, x: Issue)
    requires was.Node? && now.Node?
  {
    || x in CompareBound(was.minimum, now.minimum, true, Minimum, path)
    || x in CompareBound(was.minLength, now.minLength, true, MinLength, path)
    || x in CompareBound(was.maximum, now.maximum, false, Maximum, path)
    || x in CompareBound(was.minItems, now.minItems, true, MinItems, path)
    || x in CompareBound(was.maxItems, now.maxItems, false, MaxItems, path)
    || x in CompareText(was.pattern, now.pattern, Pattern, path)
    || x in CompareText(was.format, now.format, Format, path)
    || x in CompareBound(was.maxLength, now.maxLength, false, MaxLength, path)
  }

  lemma LimitsInSomePart(was: Schema, now: Schema, path: seq<Step>, x: Issue)
    requires was.Node? && now.Node?
    ensures x in CompareLimits(was, now, path) <==> InSomePart(was, now, path, x)
  {
    InEight(CompareBound(was.minimum, now.minimum, true, Minimum, path), CompareBound(was.minLength, now.minLength, true, MinLength, path),
            CompareBound(was.maximum, now.maximum, false, Maximum, path), CompareBound(was.minItems, now.minItems, true, MinItems, path),
            CompareBound(was.maxItems, now.maxItems, false, MaxItems, path), CompareText(was.pattern, now.pattern, Pattern, path),
            CompareText(was.format, now.format, Format, path), CompareBound(was.maxLength, now.maxLength, false, MaxLength, path), x);
  }

  lemma LimitsInPart(was: Schema, now: Schema, path: seq<Step>, x: Issue)
    requires was.Node? && now.Node?
    ensures x in CompareLimits(was, now, path) <==> InPart(was, now, path, x)
  {
    LimitsInSomePart(was, now, path, x);
  }

  lemma LimitsReported(was: Schema, now: Schema, path: seq<Step>, x: Issue)
    requires was.Node? && now.Node?
    ensures x in CompareLimits(was, now, path) <==> x.path == path && IsLimit(x.change) && Breaks(was, now, x.change)
  {
    LimitsInPart(was, now, path, x);
    match x.change
    case BoundAdded(b) => BoundReported(Limit(was, b), Limit(now, b), IsLower(b), b, path, x);
    case BoundTightened(b) => BoundReported(Limit(was, b), Limit(now, b), IsLower(b), b, path, x);
    case TextRuleAdded(r) => TextReported(RuleText(was, r), RuleText(now, r), r, path, x);
    case TextRuleChanged(r) => TextReported(RuleText(was, r), RuleText(now, r), r, path, x);
    case _ =>
  }

  lemma KeywordsReported(was: Schema, now: Schema, path: seq<Step>, x: Issue)
    requires was.Node? && now.Node?
    ensures x in CompareKeywords(was, now, path) <==> x.path == path && Breaks(was, now, x.change)
  {
    ValuesReported(was, now, path, x);
    TypesReported(was, now, path, x);
    LimitsReported(was, now, path, x);
  }

  // ---------------------------------------------------------------- keys

  lemma KeyIs(s: Schema, i: nat, key: string)
    requires s.Node?
    ensures HasKey(s, i, key) <==> VariantKey(s, i) == key
  {
    if DiscriminatorValue(s).Some? {
      assert TaggedWith(s, DiscriminatorValue(s).value);
    }
  }

  lemma MapOfSnoc(keys: seq<string>, values: seq<Schema>, last: nat)
    requires |keys| == |values| == last + 1
    ensures MapOf(keys, values) == MapOf(keys[..last], values[..last])[keys[last] := values[last]]
  {
  }

  lemma {:induction false} MapOfLast(keys: seq<string>, values: seq<Schema>, i: nat)
    requires |keys| == |values| && i < |keys| && forall j :: i < j < |keys| ==> keys[j] != keys[i]
    ensures keys[i] in MapOf(keys, values) && MapOf(keys, values)[keys[i]] == values[i]
  {
    var last := |keys| - 1;
    MapOfSnoc(keys, values, last);
    if i < last {
      assert keys[..last][i] == keys[i] && values[..last][i] == values[i] && keys[last] != keys[i];
      MapOfLast(keys[..last], values[..last], i);
    }
  }

  lemma {:induction false} LastOf(keys: seq<string>, key: string) returns (i: nat)
    requires key in keys
    ensures i < |keys| && keys[i] == key && forall j :: i < j < |keys| ==> keys[j] != key
  {
    var last := |keys| - 1;
    if keys[last] == key {
      i := last;
    } else {
      Snoc(keys);
      i := LastOf(keys[..last], key);
    }
  }

  ghost predicate AllNodes(variants: seq<Schema>) {
    forall i :: 0 <= i < |variants| ==> variants[i].Node?
  }

  /** The map the check builds holds, under each key, the variant that stands for it. */
  lemma KeyedStands(variants: seq<Schema>, key: string, i: nat)
    requires AllNodes(variants)
    ensures StandsUnder(variants, key, i) ==> key in Keyed(variants) && Keyed(variants)[key] == variants[i]
  {
    var keys := VariantKeys(variants);
    if StandsUnder(variants, key, i) {
      KeyIs(variants[i], i, key);
      forall j | i < j < |keys| ensures keys[j] != key {
        KeyIs(variants[j], j, key);
      }
      MapOfLast(keys, variants, i);
    }
  }

  lemma KeyedHasStand(variants: seq<Schema>, key: string) returns (i: nat)
    requires AllNodes(variants) && key in Keyed(variants)
    ensures StandsUnder(variants, key, i)
  {
    var keys := VariantKeys(variants);
    i := LastOf(keys, key);
    KeyIs(variants[i], i, key);
    forall j: nat | i < j < |variants| ensures !HasKey(variants[j], j, key) {
      KeyIs(variants[j], j, key);
    }
  }

  // ---------------------------------------------------------------- parts of the report

  lemma FirstKey(parent: Schema, was: seq<Schema>, order: seq<string>, next: map<string, Schema>, path: seq<Step>, x: Issue)
    requires forall i :: 0 <= i < |was| ==> was[i] < parent
    requires order != [] && forall key :: key in order ==> key in VariantKeys(was)
    ensures order[0] in Keyed(was)
    ensures x in CompareVariants(parent, was, order, next, path)
            <==> x in KeyIssues(was, order[0], next, path) || x in CompareVariants(parent, was, order[1..], next, path)
  {
  }

  lemma {:induction false} InVariants(parent: Schema, was: seq<Schema>, order: seq<string>, next: map<string, Schema>, path: seq<Step>, x: Issue)
    requires forall i :: 0 <= i < |was| ==> was[i] < parent
    requires forall key :: key in order ==> key in VariantKeys(was)
    ensures x in CompareVariants(parent, was, order, next, path)
            <==> exists key :: key in order && key in Keyed(was) && x in KeyIssues(was, key, next, path)
    decreases |order|
  {
    if order != [] {
      FirstKey(parent, was, order, next, path, x);
      InVariants(parent, was, order[1..], next, path, x);
      assert forall key :: key in order <==> key == order[0] || key in order[1..];
    }
  }

  lemma {:induction false} InProperties(parent: Schema, was: seq<Property>, now: seq<Property>, path: seq<Step>, x: Issue)
    requires forall i :: 0 <= i < |was| ==> was[i].schema < parent
    ensures x in CompareProperties(parent, was, now, path)
            <==> exists i :: 0 <= i < |was| && x in PropertyIssues(was[i], now, path)
    decreases |was|
  {
    if was != [] {
      InProperties(parent, was[1..], now, path, x);
      assert forall i :: 0 < i < |was| ==> was[i] == was[1..][i - 1];
      if i :| 0 <= i < |was[1..]| && x in PropertyIssues(was[1..][i], now, path) {
        assert was[i + 1] == was[1..][i];
      }
    }
  }

  lemma {:induction false} InRequired(names: seq<Name>, was: seq<Name>, now: seq<Name>, path: seq<Step>, x: Issue)
    ensures x in CompareRequired(names, was, now, path)
            <==> exists name :: name in names && (name in was <==> name !in now) && x == Issue(path + [Required(name)], RequiredChanged)
  {
    if names != [] {
      InRequired(names[1..], was, now, path, x);
      assert names == [names[0]] + names[1..];
    }
  }

  lemma SplitStructure(was: Schema, now: Schema, path: seq<Step>, x: Issue)
    requires was.Node? && now.Node?
    ensures x in CompareSchema(was, now, path) <==> (x.path == path && Breaks(was, now, x.change)) || x in CompareStructure(was, now, path)
  {
    KeywordsReported(was, now, path, x);
  }

  lemma RequiredReported(was: Schema, now: Schema, path: seq<Step>, x: Issue)
    requires was.Node? && now.Node?
    ensures x in CompareRequired(FirstOccurrences(was.required + now.required), was.required, now.required, path)
            <==> exists name :: RequiredOnce(was, now, name) && x == Issue(path + [Required(name)], RequiredChanged)
  {
    var names := FirstOccurrences(was.required + now.required);
    InRequired(names, was.required, now.required, path, x);
    if name :| RequiredOnce(was, now, name) && x == Issue(path + [Required(name)], RequiredChanged) {
      assert name in was.required + now.required;
      assert name in names;
    }
    if name :| name in names && (name in was.required <==> name !in now.required) && x == Issue(path + [Required(name)], RequiredChanged) {
      assert RequiredOnce(was, now, name);
    }
  }

  lemma SplitObject(was: Schema, now: Schema, path: seq<Step>, x: Issue)
    requires was.Node? && now.Node? && was.properties.Properties?
    ensures x in CompareObject(was, now, path)
            <==> || x in CompareProperties(was, was.properties.list, PropertiesOf(now), path)
                 || x in CompareRequired(FirstOccurrences(was.required + now.required), was.required, now.required, path)
                 || (x == Issue(path, UnknownFieldsRejected) && !was.additional.Forbidden? && now.additional.Forbidden?)
  {
  }

  // ---------------------------------------------------------------- paths

  lemma Longer(path: seq<Step>, step: Step, longer: seq<Step>)
    ensures path + [step] <= longer <==> |path| < |longer| && path <= longer && longer[|path|] == step
  {
  }

  lemma {:induction false} UnderPath(was: Schema, now: Schema, path: seq<Step>, x: Issue)
    requires x in CompareSchema(was, now, path)
    ensures path <= x.path
    decreases was, 2
  {
    SplitStructure(was, now, path, x);
    if !(x.path == path && Breaks(was, now, x.change)) {
      var variants := UnionVariants(was);
      if variants != [] {
        var order, next := FirstOccurrences(VariantKeys(variants)), Keyed(UnionVariants(now));
        InVariants(was, variants, order, next, path, x);
        var key :| key in order && key in Keyed(variants) && x in KeyIssues(variants, key, next, path);
        UnderKey(was, variants, key, next, path, x);
        Longer(path, Variant(key), x.path);
      } else {
        UnderStructure(was, now, path, x);
      }
    }
  }

  lemma {:induction false} UnderKey(parent: Schema, variants: seq<Schema>, key: string, next: map<string, Schema>, path: seq<Step>, x: Issue)
    requires forall i :: 0 <= i < |variants| ==> variants[i] < parent
    requires key in Keyed(variants) && x in KeyIssues(variants, key, next, path)
    ensures path + [Variant(key)] <= x.path
    decreases parent, 0
  {
    if key in next {
      UnderPath(Keyed(variants)[key], next[key], path + [Variant(key)], x);
    }
  }

  lemma {:induction false} UnderProperty(parent: Schema, p: Property, now: seq<Property>, path: seq<Step>, x: Issue)
    requires p.schema < parent && x in PropertyIssues(p, now, path)
    ensures path + [AtProperty(p.name)] <= x.path
    decreases parent, 0
  {
    if Member(now, p.name).Some? {
      UnderPath(p.schema, Member(now, p.name).value, path + [AtProperty(p.name)], x);
    }
  }

  lemma {:induction false} UnderStructure(was: Schema, now: Schema, path: seq<Step>, x: Issue)
    requires was.Node? && now.Node? && (x in CompareObject(was, now, path) || x in CompareItems(was, now, path))
    ensures path <= x.path
    decreases was, 1
  {
    if x in CompareObject(was, now, path) {
      SplitObject(was, now, path, x);
      InProperties(was, was.properties.list, PropertiesOf(now), path, x);
      RequiredReported(was, now, path, x);
      if i :| 0 <= i < |was.properties.list| && x in PropertyIssues(was.properties.list[i], PropertiesOf(now), path) {
        UnderProperty(was, was.properties.list[i], PropertiesOf(now), path, x);
        Longer(path, AtProperty(was.properties.list[i].name), x.path);
      }
    } else if was.items.Each? && now.items.Each? {
      UnderPath(was.items.schema, now.items.schema, path + [ItemsOf], x);
      Longer(path, ItemsOf, x.path);
    }
  }

  /** One step down: what is reported below a step is reported of the schemas it leads to. */
  lemma {:induction false} BelowStep(was: Schema, now: Schema, path: seq<Step>, step: Step, at: seq<Step>, c: Change)
    ensures Issue(path + at, c) in CompareSchema(was, now, path + [step])
            <==> at != [] && at[0] == step && Reports(was, now, at[1..], c)
    decreases was, 4
  {
    var x := Issue(path + at, c);
    if at != [] && at[0] == step {
      assert path + at == path + [step] + at[1..];
      ReportedIff(was, now, path + [step], at[1..], c);
    } else if x in CompareSchema(was, now, path + [step]) {
      UnderPath(was, now, path + [step], x);
      Longer(path, step, x.path);
    }
  }

  lemma {:induction false} KeyReported(parent: Schema, variants: seq<Schema>, key: string, now: seq<Schema>, path: seq<Step>, at: seq<Step>, c: Change)
    requires (forall i :: 0 <= i < |variants| ==> variants[i] < parent) && AllNodes(variants) && AllNodes(now)
    requires key in Keyed(variants)
    ensures Issue(path + at, c) in KeyIssues(variants, key, Keyed(now), path)
            <==> at != [] && at[0] == Variant(key) && ReportsVariant(Keyed(variants)[key], now, at, c)
    decreases parent, 0, 0
  {
    if key in Keyed(now) {
      BelowStep(Keyed(variants)[key], Keyed(now)[key], path, Variant(key), at, c);
      KeptKey(variants, key, now, path, at, c);
    } else {
      LostKey(variants, key, now, path, at, c);
    }
  }

  lemma KeptKey(variants: seq<Schema>, key: string, now: seq<Schema>, path: seq<Step>, at: seq<Step>, c: Change)
    requires key in Keyed(variants) && key in Keyed(now) && AllNodes(now)
    requires Issue(path + at, c) in CompareSchema(Keyed(variants)[key], Keyed(now)[key], path + [Variant(key)])
             <==> at != [] && at[0] == Variant(key) && Reports(Keyed(variants)[key], Keyed(now)[key], at[1..], c)
    ensures Issue(path + at, c) in KeyIssues(variants, key, Keyed(now), path)
            <==> at != [] && at[0] == Variant(key) && ReportsVariant(Keyed(variants)[key], now, at, c)
  {
    StandsFor(Keyed(variants)[key], now, key, at, c);
  }

  lemma LostKey(variants: seq<Schema>, key: string, now: seq<Schema>, path: seq<Step>, at: seq<Step>, c: Change)
    requires key in Keyed(variants) && key !in Keyed(now) && AllNodes(now)
    ensures Issue(path + at, c) in KeyIssues(variants, key, Keyed(now), path)
            <==> at != [] && at[0] == Variant(key) && ReportsVariant(Keyed(variants)[key], now, at, c)
  {
    NothingStands(now, key);
    SamePath(path, Variant(key), at);
    assert KeyIssues(variants, key, Keyed(now), path) == [Issue(path + [Variant(key)], VariantRemoved)];
    assert Issue(path + at, c) == Issue(path + [Variant(key)], VariantRemoved) <==> at == [Variant(key)] && c == VariantRemoved;
    if at != [] && at[0] == Variant(key) {
      OnlyRemoved(Keyed(variants)[key], now, at, c);
    }
  }

  lemma NothingStands(now: seq<Schema>, key: string)
    requires key !in Keyed(now) && AllNodes(now)
    ensures forall k: nat :: !StandsUnder(now, key, k)
  {
    forall k: nat ensures !StandsUnder(now, key, k) {
      KeyedStands(now, key, k);
    }
  }

  lemma OnlyRemoved(was: Schema, now: seq<Schema>, at: seq<Step>, c: Change)
    requires at != [] && at[0].Variant? && forall k: nat :: !StandsUnder(now, at[0].key, k)
    ensures ReportsVariant(was, now, at, c) <==> at == [at[0]] && c == VariantRemoved
  {
  }

  lemma StandsFor(here: Schema, now: seq<Schema>, key: string, at: seq<Step>, c: Change)
    requires AllNodes(now) && key in Keyed(now)
    ensures at != [] && at[0] == Variant(key) ==>
              (ReportsVariant(here, now, at, c) <==> Reports(here, Keyed(now)[key], at[1..], c))
  {
    if at != [] && at[0] == Variant(key) {
      var j := KeyedHasStand(now, key);
      forall k: nat | StandsUnder(now, key, k) ensures now[k] == Keyed(now)[key] {
        KeyedStands(now, key, k);
      }
    }
  }

  lemma SamePath(path: seq<Step>, step: Step, at: seq<Step>)
    ensures path + at == path + [step] <==> at == [step]
  {
    assert (path + at)[|path|..] == at && (path + [step])[|path|..] == [step];
  }

  lemma {:induction false} PropertyReported(parent: Schema, p: Property, now: Schema, path: seq<Step>, at: seq<Step>, c: Change)
    requires p.schema < parent && now.Node?
    ensures Issue(path + at, c) in PropertyIssues(p, PropertiesOf(now), path)
            <==> at != [] && at[0] == AtProperty(p.name) && ReportsProperty(p.schema, now, p.name, at, c)
    decreases parent, 0, 0
  {
    match Member(PropertiesOf(now), p.name)
    case Some(schema) =>
      BelowStep(p.schema, schema, path, AtProperty(p.name), at, c);
    case None =>
      SamePath(path, AtProperty(p.name), at);
  }

  lemma {:induction false} UnionReported(was: Schema, now: Schema, path: seq<Step>, at: seq<Step>, c: Change)
    requires was.Node? && now.Node? && UnionVariants(was) != []
    ensures var variants := UnionVariants(was);
            Issue(path + at, c) in CompareStructure(was, now, path)
            <==> at != [] && at[0].Variant? && exists i: nat :: StandsUnder(variants, at[0].key, i) && variants[i] < was
                                                               && ReportsVariant(variants[i], UnionVariants(now), at, c)
    decreases was, 1
  {
    var variants, n, x := UnionVariants(was), UnionVariants(now), Issue(path + at, c);
    KeysReported(was, variants, n, path, at, c);
    if at != [] && at[0].Variant? {
      KeyStands(was, variants, n, at, c);
    }
  }

  lemma {:induction false} KeysReported(parent: Schema, variants: seq<Schema>, n: seq<Schema>, path: seq<Step>, at: seq<Step>, c: Change)
    requires (forall i :: 0 <= i < |variants| ==> variants[i] < parent) && AllNodes(variants) && AllNodes(n)
    ensures Issue(path + at, c) in CompareVariants(parent, variants, FirstOccurrences(VariantKeys(variants)), Keyed(n), path)
            <==> at != [] && at[0].Variant? && at[0].key in Keyed(variants) && ReportsVariant(Keyed(variants)[at[0].key], n, at, c)
    decreases parent, 0, 1
  {
    var order, x := FirstOccurrences(VariantKeys(variants)), Issue(path + at, c);
    InVariants(parent, variants, order, Keyed(n), path, x);
    forall key | key in order && key in Keyed(variants)
      ensures x in KeyIssues(variants, key, Keyed(n), path)
              <==> at != [] && at[0] == Variant(key) && ReportsVariant(Keyed(variants)[key], n, at, c)
    {
      KeyReported(parent, variants, key, n, path, at, c);
    }
  }

  lemma KeyStands(parent: Schema, variants: seq<Schema>, n: seq<Schema>, at: seq<Step>, c: Change)
    requires (forall i :: 0 <= i < |variants| ==> variants[i] < parent) && AllNodes(variants) && at != [] && at[0].Variant?
    ensures at[0].key in Keyed(variants) && ReportsVariant(Keyed(variants)[at[0].key], n, at, c)
            <==> exists i: nat :: StandsUnder(variants, at[0].key, i) && variants[i] < parent && ReportsVariant(variants[i], n, at, c)
  {
    var key := at[0].key;
    if key in Keyed(variants) {
      var i := KeyedHasStand(variants, key);
      KeyedStands(variants, key, i);
    }
    forall i: nat | StandsUnder(variants, key, i) ensures key in Keyed(variants) && Keyed(variants)[key] == variants[i] {
      KeyedStands(variants, key, i);
    }
  }

  lemma {:induction false} ItemsReported(was: Schema, now: Schema, path: seq<Step>, at: seq<Step>, c: Change)
    requires was.Node? && now.Node?
    ensures Issue(path + at, c) in CompareItems(was, now, path)
            <==> || (at == [] && c == ItemsRemoved && !was.items.NoItems? && now.items.NoItems?)
                 || (at != [] && at[0] == ItemsOf && was.items.Each? && now.items.Each?
                     && Reports(was.items.schema, now.items.schema, at[1..], c))
    decreases was, 0
  {
    if was.items.Each? && now.items.Each? {
      BelowStep(was.items.schema, now.items.schema, path, ItemsOf, at, c);
    }
    assert path + at == path <==> at == [];
  }

  lemma {:induction false} ObjectReported(was: Schema, now: Schema, path: seq<Step>, at: seq<Step>, c: Change)
    requires was.Node? && now.Node? && was.properties.Properties?
    ensures Issue(path + at, c) in CompareObject(was, now, path)
            <==> || (at == [] && c == UnknownFieldsRejected && !was.additional.Forbidden? && now.additional.Forbidden?)
                 || (at != [] && at[0].Required? && at[1..] == [] && c == RequiredChanged && RequiredOnce(was, now, at[0].name))
                 || (at != [] && at[0].AtProperty?
                     && exists i :: 0 <= i < |PropertiesOf(was)| && PropertiesOf(was)[i].name == at[0].name
                                    && ReportsProperty(PropertiesOf(was)[i].schema, now, at[0].name, at, c))
    decreases was, 1
  {
    var ps, x := PropertiesOf(was), Issue(path + at, c);
    SplitObject(was, now, path, x);
    RequiredReported(was, now, path, x);
    RequiredAt(was, now, path, at, c);
    PropertiesReported(was, ps, now, path, at, c);
    assert path + at == path <==> at == [];
  }

  lemma {:induction false} PropertiesReported(was: Schema, ps: seq<Property>, now: Schema, path: seq<Step>, at: seq<Step>, c: Change)
    requires now.Node? && forall i :: 0 <= i < |ps| ==> ps[i].schema < was
    ensures Issue(path + at, c) in CompareProperties(was, ps, PropertiesOf(now), path)
            <==> at != [] && at[0].AtProperty?
                 && exists i :: 0 <= i < |ps| && ps[i].name == at[0].name && ReportsProperty(ps[i].schema, now, at[0].name, at, c)
    decreases was, 0, 1
  {
    var x := Issue(path + at, c);
    InProperties(was, ps, PropertiesOf(now), path, x);
    forall i | 0 <= i < |ps|
      ensures x in PropertyIssues(ps[i], PropertiesOf(now), path)
              <==> at != [] && at[0] == AtProperty(ps[i].name) && ReportsProperty(ps[i].schema, now, ps[i].name, at, c)
    {
      PropertyReported(was, ps[i], now, path, at, c);
    }
  }

  lemma RequiredAt(was: Schema, now: Schema, path: seq<Step>, at: seq<Step>, c: Change)
    requires was.Node? && now.Node?
    ensures (exists name :: RequiredOnce(was, now, name) && Issue(path + at, c) == Issue(path + [Required(name)], RequiredChanged))
            <==> at != [] && at[0].Required? && at[1..] == [] && c == RequiredChanged && RequiredOnce(was, now, at[0].name)
  {
    forall name ensures path + at == path + [Required(name)] <==> at == [Required(name)] {
      SamePath(path, Required(name), at);
    }
    if at != [] && at[0].Required? && at[1..] == [] {
      assert at == [Required(at[0].name)];
    }
  }

  lemma {:induction false} PartsReported(was: Schema, now: Schema, path: seq<Step>, at: seq<Step>, c: Change)
    requires was.Node? && now.Node? && UnionVariants(was) == []
    ensures Issue(path + at, c) in CompareStructure(was, now, path)
            <==> Reports(was, now, at, c) && (at == [] ==> BreaksStructure(was, now, c))
    decreases was, 2
  {
    ItemsReported(was, now, path, at, c);
    if was.properties.Properties? {
      ObjectReported(was, now, path, at, c);
    }
  }

  /** The issues of a comparison are exactly those that the schemas give rise to, each where it does. */
  lemma {:induction false} ReportedIff(was: Schema, now: Schema, path: seq<Step>, at: seq<Step>, c: Change)
    ensures Issue(path + at, c) in CompareSchema(was, now, path) <==> Reports(was, now, at, c)
    decreases was, 3
  {
    if was.Node? && now.Node? {
      SplitStructure(was, now, path, Issue(path + at, c));
      if UnionVariants(was) != [] {
        UnionReported(was, now, path, at, c);
      } else {
        PartsReported(was, now, path, at, c);
      }
    }
  }

  lemma ReportedAtTop(was: Schema, now: Schema, at: seq<Step>, c: Change)
    ensures Issue(at, c) in CompareSchema(was, now, []) <==> Reports(was, now, at, c)
  {
    assert [] + at == at;
    ReportedIff(was, now, [], at, c);
  }

  /** The list holds exactly the issues the two schemas give rise to. */
  ghost predicate ReportsExactly(issues: seq<Issue>, was: Schema, now: Schema) {
    forall at, c :: Issue(at, c) in issues <==> Reports(was, now, at, c)
  }

  lemma ReportIsExact(was: Schema, now: Schema)
    ensures ReportsExactly(CompareSchema(was, now, []), was, now)
  {
    forall at, c ensures Issue(at, c) in CompareSchema(was, now, []) <==> Reports(was, now, at, c) {
      ReportedAtTop(was, now, at, c);
    }
  }

  lemma EmptyIff(issues: seq<Issue>, was: Schema, now: Schema)
    requires ReportsExactly(issues, was, now)
    ensures issues == [] <==> forall at, c :: !Reports(was, now, at, c)
  {
    if issues != [] {
      assert issues[0] == Issue(issues[0].path, issues[0].change) && issues[0] in issues;
      assert Reports(was, now, issues[0].path, issues[0].change);
    }
  }

  /** So the report is empty exactly if the schemas give rise to no issue. */
  lemma SilentIff(was: Schema, now: Schema)
    ensures CompareSchema(was, now, []) == [] <==> forall at, c :: !Reports(was, now, at, c)
  {
    ReportIsExact(was, now);
    EmptyIff(CompareSchema(was, now, []), was, now);
  }

  /** The two schemas differ at most in the keywords that are compared one by one. */
  predicate SameParts(was: Schema, now: Schema) {
    && was.Node? && now.Node?
    && now.anyOf == was.anyOf && now.oneOf == was.oneOf && now.properties == was.properties && now.required == was.required
    && now.additional == was.additional && now.items == was.items
  }

  /**
    A change of values, types, bounds or text rules is accepted exactly if it takes nothing away:
    extended lists and loosened bounds are never reported, whatever else the schema holds.
   */
  lemma KeywordChangeIff(was: Schema, now: Schema, path: seq<Step>)
    requires Comparable(was) && SameParts(was, now)
    ensures CompareSchema(was, now, path) == [] <==> forall c :: !Breaks(was, now, c)
  {
    SelfCompatible(was, path);
    assert CompareStructure(was, now, path) == CompareStructure(was, was, path);
    var issues := CompareKeywords(was, now, path);
    forall c ensures Issue(path, c) in issues <==> Breaks(was, now, c) {
      KeywordsReported(was, now, path, Issue(path, c));
    }
    if issues != [] {
      KeywordsReported(was, now, path, issues[0]);
    }
  }

  // ---------------------------------------------------------------- each report once

  /** A list goes through without its repetitions, each element where it first occurs. */
  lemma {:induction false} FirstOccurrencesOnce<T(!new)>(s: seq<T>)
    ensures Distinct(FirstOccurrences(s))
    ensures forall n :: 0 <= n <= |s| ==> FirstOccurrences(s[..n]) <= FirstOccurrences(s)
  {
    if s != [] {
      var last := |s| - 1;
      FirstOccurrencesOnce(s[..last]);
      forall n | 0 <= n <= |s| ensures FirstOccurrences(s[..n]) <= FirstOccurrences(s) {
        if n < |s| {
          assert s[..last][..n] == s[..n];
        } else {
          assert s[..n] == s;
        }
      }
    }
  }

  lemma {:induction false} LostTypesOnce(was: seq<string>, now: seq<string>, path: seq<Step>)
    requires Distinct(was)
    ensures Distinct(LostTypes(was, now, path))
    ensures forall x :: x in LostTypes(was, now, path) ==> x.change.TypeRemoved? && x.change.name in was
  {
    if was != [] {
      LostTypesOnce(was[1..], now, path);
      assert was[0] !in was[1..];
    }
  }

  lemma {:induction false} NamesOnce(names: seq<Name>, was: seq<Name>, now: seq<Name>, path: seq<Step>)
    requires Distinct(names)
    ensures Distinct(CompareRequired(names, was, now, path))
    ensures forall x :: x in CompareRequired(names, was, now, path) ==> exists n :: n in names && x == Issue(path + [Required(n)], RequiredChanged)
  {
    if names != [] {
      NamesOnce(names[1..], was, now, path);
      var rest := CompareRequired(names[1..], was, now, path);
      forall n | n in names[1..] ensures path + [Required(n)] != path + [Required(names[0])] {
        assert (path + [Required(n)])[|path|] != (path + [Required(names[0])])[|path|];
      }
      assert Issue(path + [Required(names[0])], RequiredChanged) !in rest;
      forall x | x in CompareRequired(names, was, now, path)
        ensures exists n :: n in names && x == Issue(path + [Required(n)], RequiredChanged)
      {
        if x !in rest {
          assert names[0] in names;
        } else {
          var n :| n in names[1..] && x == Issue(path + [Required(n)], RequiredChanged);
          assert n in names;
        }
      }
    }
  }

  /** No type and no required name is reported twice, however often the schemas list it. */
  lemma ListsReportedOnce(was: Schema, now: Schema, path: seq<Step>)
    requires was.Node? && now.Node?
    ensures Distinct(CompareType(was, now, path))
    ensures Distinct(CompareRequired(FirstOccurrences(was.required + now.required), was.required, now.required, path))
  {
    if was.types.Some? {
      FirstOccurrencesOnce(was.types.value);
    }
    LostTypesOnce(TypesOf(was), TypesOf(now), path);
    FirstOccurrencesOnce(was.required + now.required);
    NamesOnce(FirstOccurrences(was.required + now.required), was.required, now.required, path);
  }
}
