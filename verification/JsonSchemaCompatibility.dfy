/**
  The wire-compatibility check of the protocol package: which issues it reports. The schemas are
  as the check sees them, with the references it follows replaced by what they lead to.
 */
module JsonSchemaCompatibility {
  import opened Prelude
  import opened JsonSchema
  import Decimal

  datatype Bound = Minimum | Maximum | MinLength | MaxLength | MinItems | MaxItems

  datatype TextRule = Pattern | Format

  datatype Change =
    | NewValueRestriction
    | ValueRemoved(value: Json)
    | NewTypeRestriction
    | TypeRemoved(name: string)
    | BoundAdded(bound: Bound)
    | BoundTightened(bound: Bound)
    | TextRuleAdded(rule: TextRule)
    | TextRuleChanged(rule: TextRule)
    | VariantRemoved
    | PropertyRemoved
    | RequiredChanged
    | UnknownFieldsRejected
    | ItemsRemoved

  /** One segment of the path of an issue: a variant key, a property, a required name, or `items`. */
  datatype Step = Variant(key: string) | AtProperty(name: Name) | Required(name: Name) | ItemsOf

  datatype Issue = Issue(path: seq<Step>, change: Change)

  // ---------------------------------------------------------------- keyword comparers

  /** `Object.is` on values of two separately parsed documents: arrays and objects are never the same. */
  predicate SameValue(a: Json, b: Json) {
    !a.Arr? && !a.Obj? && a == b
  }

  function AllowedValues(s: Schema): Option<seq<Json>>
    requires s.Node?
  {
    if s.enumValues.Some? then s.enumValues
    else if s.constant.Some? then Some([s.constant.value])
    else None
  }

  predicate Keeps(values: seq<Json>, v: Json) {
    exists i :: 0 <= i < |values| && SameValue(values[i], v)
  }

  function LostValues(was: seq<Json>, now: seq<Json>, path: seq<Step>): (r: seq<Issue>)
    ensures r == [] <==> forall v :: v in was ==> Keeps(now, v)
  {
    if was == [] then []
    else (if Keeps(now, was[0]) then [] else [Issue(path, ValueRemoved(was[0]))]) + LostValues(was[1..], now, path)
  }

  function CompareAllowedValues(was: Schema, now: Schema, path: seq<Step>): seq<Issue>
    requires was.Node? && now.Node?
  {
    match (AllowedValues(was), AllowedValues(now))
    case (None, Some(_)) => [Issue(path, NewValueRestriction)]
    case (Some(o), Some(n)) => LostValues(o, n, path)
    case (_, None) => []
  }

  /** `stringSet` of the `type` keyword: a set, iterated in the order of first occurrence. */
  function FirstOccurrences<T(==, !new)>(s: seq<T>): (r: seq<T>)
    ensures forall x :: x in r <==> x in s
    ensures s == [] <==> r == []
  {
    if s == [] then []
    else
      var last := |s| - 1;
      var before := FirstOccurrences(s[..last]);
      if s[last] in before then before else before + [s[last]]
  }

  function LostTypes(was: seq<string>, now: seq<string>, path: seq<Step>): (r: seq<Issue>)
    ensures r == [] <==> forall t :: t in was ==> t in now
  {
    if was == [] then []
    else (if was[0] in now then [] else [Issue(path, TypeRemoved(was[0]))]) + LostTypes(was[1..], now, path)
  }

  function TypesOf(s: Schema): seq<string>
    requires s.Node?
  {
    if s.types.Some? then FirstOccurrences(s.types.value) else []
  }

  function CompareType(was: Schema, now: Schema, path: seq<Step>): seq<Issue>
    requires was.Node? && now.Node?
  {
    var o, n := TypesOf(was), TypesOf(now);
    if o == [] && n != [] then [Issue(path, NewTypeRestriction)]
    else if o == [] || n == [] then []
    else LostTypes(o, n, path)
  }

  function CompareBound(was: Option<real>, now: Option<real>, lower: bool, bound: Bound, path: seq<Step>): seq<Issue> {
    if now.None? then []
    else if was.None? then [Issue(path, BoundAdded(bound))]
    else if (if lower then now.value > was.value else now.value < was.value) then [Issue(path, BoundTightened(bound))]
    else []
  }

  function CompareText(was: Option<string>, now: Option<string>, rule: TextRule, path: seq<Step>): seq<Issue> {
    if now.None? then []
    else if was.None? then [Issue(path, TextRuleAdded(rule))]
    else if was != now then [Issue(path, TextRuleChanged(rule))]
    else []
  }

  function CompareLimits(was: Schema, now: Schema, path: seq<Step>): seq<Issue>
    requires was.Node? && now.Node?
  {
    CompareBound(was.minimum, now.minimum, true, Minimum, path)
    + CompareBound(was.minLength, now.minLength, true, MinLength, path)
    + CompareBound(was.maximum, now.maximum, false, Maximum, path)
    + CompareBound(was.minItems, now.minItems, true, MinItems, path)
    + CompareBound(was.maxItems, now.maxItems, false, MaxItems, path)
    + CompareText(was.pattern, now.pattern, Pattern, path)
    + CompareText(was.format, now.format, Format, path)
    + CompareBound(was.maxLength, now.maxLength, false, MaxLength, path)
  }

  function CompareKeywords(was: Schema, now: Schema, path: seq<Step>): seq<Issue>
    requires was.Node? && now.Node?
  {
    CompareAllowedValues(was, now, path) + CompareType(was, now, path) + CompareLimits(was, now, path)
  }

  // ---------------------------------------------------------------- unions

  function Nodes(variants: seq<Schema>): (r: seq<Schema>)
    ensures forall s :: s in r <==> s in variants && s.Node?
  {
    if variants == [] then []
    else (if variants[0].Node? then [variants[0]] else []) + Nodes(variants[1..])
  }

  /** The members of the union keyword the check looks at: `anyOf` before `oneOf`. */
  function UnionMembers(s: Schema): (r: seq<Schema>)
    requires s.Node?
    ensures forall i :: 0 <= i < |r| ==> r[i] < s
  {
    if s.anyOf.Union? then s.anyOf.members else if s.oneOf.Union? then s.oneOf.members else []
  }

  function UnionVariants(s: Schema): (r: seq<Schema>)
    requires s.Node?
    ensures forall v :: v in r <==> v in UnionMembers(s) && v.Node?
    ensures forall i :: 0 <= i < |r| ==> r[i] < s
  {
    var r := Nodes(UnionMembers(s));
    assert forall i :: 0 <= i < |r| ==> r[i] in UnionMembers(s);
    r
  }

  function Find(ps: seq<Property>, name: Name): (r: Option<Schema>)
    ensures r.Some? ==> exists i :: 0 <= i < |ps| && ps[i].name == name && ps[i].schema == r.value
    ensures r.None? ==> forall i :: 0 <= i < |ps| ==> ps[i].name != name
  {
    if ps == [] then None
    else if ps[0].name == name then Some(ps[0].schema)
    else
      var r := Find(ps[1..], name);
      assert forall i :: 0 < i < |ps| ==> ps[i] == ps[1..][i - 1];
      r
  }

  /**
    What a look-up by name, `in` and then the index, finds in the new properties: an inherited name
    is always found, as a function, which is no schema object, or as the empty prototype.
   */
  function Member(ps: seq<Property>, name: Name): Option<Schema> {
    var own := Find(ps, name);
    if own.Some? then own
    else match name
      case Plain(_) => None
      case Inherited(Proto) => Some(EMPTY)
      case Inherited(_) => Some(Anything)
  }

  /** The constant of the property `type`, if it is a non-empty string. */
  function DiscriminatorValue(s: Schema): Option<string> {
    if !s.Node? then None
    else match Find(PropertiesOf(s), TYPE)
      case None => None
      case Some(p) =>
        if p.Node? && p.constant.Some? && p.constant.value.Str? && p.constant.value.s != "" then Some(p.constant.value.s) else None
  }

  function VariantKey(s: Schema, index: nat): string {
    match DiscriminatorValue(s)
    case Some(tag) => tag
    case None => "#" + Decimal.Print(index)
  }

  function KeyAt(variants: seq<Schema>, i: nat): string
    requires i < |variants|
  {
    VariantKey(variants[i], i)
  }

  function VariantKeys(variants: seq<Schema>): (keys: seq<string>)
    ensures |keys| == |variants| && forall i :: 0 <= i < |keys| ==> keys[i] == KeyAt(variants, i)
  {
    seq(|variants|, i requires 0 <= i < |variants| => KeyAt(variants, i))
  }

  /** A `Map` built from pairs: the last pair with a key wins. */
  function MapOf(keys: seq<string>, values: seq<Schema>): (m: map<string, Schema>)
    requires |keys| == |values|
    ensures forall key :: key in m <==> key in keys
    ensures forall key :: key in m ==> exists i :: 0 <= i < |keys| && keys[i] == key && values[i] == m[key]
  {
    if keys == [] then map[]
    else
      var last := |keys| - 1;
      var m := MapOf(keys[..last], values[..last]);
      assert forall key :: key in m ==> exists i :: 0 <= i < last && keys[i] == key && values[i] == m[key];
      m[keys[last] := values[last]]
  }

  function Keyed(variants: seq<Schema>): map<string, Schema> {
    MapOf(VariantKeys(variants), variants)
  }

  // ---------------------------------------------------------------- the comparison

  function CompareVariants(parent: Schema, was: seq<Schema>, order: seq<string>, next: map<string, Schema>, path: seq<Step>): seq<Issue>
    requires forall i :: 0 <= i < |was| ==> was[i] < parent
    requires forall key :: key in order ==> key in VariantKeys(was)
    decreases parent, 0, |order|
  {
    if order == [] then []
    else
      var key := order[0];
      var here := Keyed(was)[key];
      assert here < parent;
      (if key in next then CompareSchema(here, next[key], path + [Variant(key)])
       else [Issue(path + [Variant(key)], VariantRemoved)])
      + CompareVariants(parent, was, order[1..], next, path)
  }

  function CompareProperties(parent: Schema, was: seq<Property>, now: seq<Property>, path: seq<Step>): seq<Issue>
    requires forall i :: 0 <= i < |was| ==> was[i].schema < parent
    decreases parent, 0, |was|
  {
    if was == [] then []
    else
      (match Member(now, was[0].name)
       case None => [Issue(path + [AtProperty(was[0].name)], PropertyRemoved)]
       case Some(schema) => CompareSchema(was[0].schema, schema, path + [AtProperty(was[0].name)]))
      + CompareProperties(parent, was[1..], now, path)
  }

  function CompareRequired(names: seq<Name>, was: seq<Name>, now: seq<Name>, path: seq<Step>): (r: seq<Issue>)
    ensures r == [] <==> forall name :: name in names ==> (name in was <==> name in now)
  {
    if names == [] then []
    else (if (names[0] in was) != (names[0] in now) then [Issue(path + [Required(names[0])], RequiredChanged)] else [])
         + CompareRequired(names[1..], was, now, path)
  }

  function CompareAdditional(was: Schema, now: Schema, path: seq<Step>): seq<Issue>
    requires was.Node? && now.Node?
  {
    if !was.additional.Forbidden? && now.additional.Forbidden? then [Issue(path, UnknownFieldsRejected)] else []
  }

  function CompareObject(was: Schema, now: Schema, path: seq<Step>): seq<Issue>
    requires was.Node? && now.Node?
    decreases was, 1
  {
    if was.properties.NoProperties? then []
    else
      CompareProperties(was, was.properties.list, PropertiesOf(now), path)
      + CompareRequired(FirstOccurrences(was.required + now.required), was.required, now.required, path)
      + CompareAdditional(was, now, path)
  }

  function CompareItems(was: Schema, now: Schema, path: seq<Step>): seq<Issue>
    requires was.Node? && now.Node?
    decreases was, 1
  {
    if was.items.NoItems? then []
    else if now.items.NoItems? then [Issue(path, ItemsRemoved)]
    else if was.items.Each? && now.items.Each? then CompareSchema(was.items.schema, now.items.schema, path + [ItemsOf])
    else []
  }

  /** Variants alone when there is a union, the members of objects and arrays otherwise. */
  function CompareStructure(was: Schema, now: Schema, path: seq<Step>): seq<Issue>
    requires was.Node? && now.Node?
    decreases was, 2
  {
    var variants := UnionVariants(was);
    if variants != [] then
      CompareVariants(was, variants, FirstOccurrences(VariantKeys(variants)), Keyed(UnionVariants(now)), path)
    else CompareObject(was, now, path) + CompareItems(was, now, path)
  }

  function CompareSchema(was: Schema, now: Schema, path: seq<Step>): seq<Issue>
    decreases was, 3
  {
    if !was.Node? || !now.Node? then []
    else CompareKeywords(was, now, path) + CompareStructure(was, now, path)
  }

  /** What is reported of one key of the old union. */
  function KeyIssues(was: seq<Schema>, key: string, next: map<string, Schema>, path: seq<Step>): seq<Issue>
    requires key in Keyed(was)
  {
    if key in next then CompareSchema(Keyed(was)[key], next[key], path + [Variant(key)])
    else [Issue(path + [Variant(key)], VariantRemoved)]
  }

  /** What is reported of one old property; an inherited name is never missing. */
  function PropertyIssues(p: Property, now: seq<Property>, path: seq<Step>): seq<Issue> {
    match Member(now, p.name)
    case None => [Issue(path + [AtProperty(p.name)], PropertyRemoved)]
    case Some(schema) => CompareSchema(p.schema, schema, path + [AtProperty(p.name)])
  }
}
