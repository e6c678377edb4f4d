/**
  JSON values, finite draft-07 schemas, and which values they accept. A schema holds every keyword
  the compatibility check reads and the exclusive bounds; of all other keywords it holds the text.
 */
module JsonSchema {
  import opened Prelude

  /** What every JavaScript object inherits, and `in` therefore finds on an empty one. */
  datatype ObjectMember =
    | Constructor
    | HasOwnProperty
    | IsPrototypeOf
    | PropertyIsEnumerable
    | ToLocaleString
    | ToString
    | ValueOf
    | DefineGetter
    | DefineSetter
    | LookupGetter
    | LookupSetter
    | Proto

  /** A member name of a JSON object, as `NameOf` reads it: one of those, or any other. */
  datatype Name = Inherited(member: ObjectMember) | Plain(text: string)

  const TYPE: Name := Plain("type")

  function Spelled(member: ObjectMember): string {
    match member
    case Constructor => "constructor"
    case HasOwnProperty => "hasOwnProperty"
    case IsPrototypeOf => "isPrototypeOf"
    case PropertyIsEnumerable => "propertyIsEnumerable"
    case ToLocaleString => "toLocaleString"
    case ToString => "toString"
    case ValueOf => "valueOf"
    case DefineGetter => "__defineGetter__"
    case DefineSetter => "__defineSetter__"
    case LookupGetter => "__lookupGetter__"
    case LookupSetter => "__lookupSetter__"
    case Proto => "__proto__"
  }

  ghost function NameOf(text: string): (name: Name)
    ensures name.Inherited? ==> Spelled(name.member) == text
    ensures name.Plain? ==> name.text == text && forall m :: Spelled(m) != text
  {
    if m :| Spelled(m) == text then Inherited(m) else Plain(text)
  }

  datatype Json =
    | Null
    | Bool(b: bool)
    | Num(n: real)
    | Str(s: string)
    | Arr(elements: seq<Json>)
    | Obj(fields: map<Name, Json>)

  /** A member of `properties`, in the order in which the program enumerates them. */
  datatype Property = Property(name: Name, schema: Schema)

  datatype Additional = Unstated | Allowed | Forbidden | Typed(schema: Schema)

  datatype Variants = NoUnion | Union(members: seq<Schema>)

  datatype Properties = NoProperties | Properties(list: seq<Property>)

  /** A list of item schemas, which the check finds but does not read, is held as text, with its `additionalItems`. */
  datatype Items = NoItems | Each(schema: Schema) | Listed(text: string)

  /**
    One hop of a JSON pointer (RFC 6901) from schema to schema; union members stand in an array. A
    name is also kept as it is written in the reference, before percent-decoding.
   */
  datatype Hop =
    | ToDefinition(name: Name, written: Name)
    | ToProperty(name: Name, written: Name)
    | ToAdditional
    | ToItems
    | ToAnyOf(index: nat)
    | ToOneOf(index: nat)

  /** The hops of a reference that starts with `#/`. */
  type Pointer = hops: seq<Hop> | hops != [] witness [ToItems]

  /**
    `Anything` and `Nothing` are the schemas `true` and `false`; `Ref` is a reference that starts
    with `#/`; an absent keyword has its own value. `patterns` holds the names in `patternProperties`,
    `elsewhere` a reference of any other form (`#`, an id, another document), and `others` the
    constraints of all further keywords, those of the pattern properties included.
   */
  datatype Schema =
    | Anything
    | Nothing
    | Ref(pointer: Pointer)
    | Node(
        enumValues: Option<seq<Json>>,
        constant: Option<Json>,
        types: Option<seq<string>>,
        minimum: Option<real>,
        maximum: Option<real>,
        exclusiveMinimum: Option<real>,
        exclusiveMaximum: Option<real>,
        minLength: Option<real>,
        maxLength: Option<real>,
        minItems: Option<real>,
        maxItems: Option<real>,
        pattern: Option<string>,
        format: Option<string>,
        anyOf: Variants,
        oneOf: Variants,
        properties: Properties,
        patterns: seq<string>,
        required: seq<Name>,
        additional: Additional,
        items: Items,
        others: Option<string>,
        elsewhere: Option<string>)

  const EMPTY: Schema :=
    Node(None, None, None, None, None, None, None, None, None, None, None, None, None, NoUnion, NoUnion, NoProperties, [], [], Unstated,
         NoItems, None, None)

  /** What a schema says in ways this model does not go into. */
  datatype Unread = Pointed(pointer: Pointer) | Elsewhere(reference: string) | Keywords(text: string)

  /**
    How a validator reads a document: regular expressions on values and on names, named formats,
    and what is unread. References inside unread keywords make that a matter of the document.
   */
  datatype Text = Text(
    matches: (string, string) -> bool,
    covers: (string, Name) -> bool,
    conforms: (string, string) -> bool,
    says: (Unread, Json) -> bool)

  // ---------------------------------------------------------------- section 6 of the validation draft

  predicate HasType(v: Json, name: string) {
    match v
    case Null => name == "null"
    case Bool(_) => name == "boolean"
    case Num(n) => name == "number" || (name == "integer" && n.Floor as real == n)
    case Str(_) => name == "string"
    case Arr(_) => name == "array"
    case Obj(_) => name == "object"
  }

  predicate AtLeast(bound: Option<real>, x: real) {
    bound.Some? ==> bound.value <= x
  }

  predicate AtMost(bound: Option<real>, x: real) {
    bound.Some? ==> x <= bound.value
  }

  predicate Above(bound: Option<real>, x: real) {
    bound.Some? ==> bound.value < x
  }

  predicate Below(bound: Option<real>, x: real) {
    bound.Some? ==> x < bound.value
  }

  predicate ValidScalar(t: Text, s: Schema, v: Json)
    requires s.Node?
  {
    match v
    case Num(n) =>
      && AtLeast(s.minimum, n) && AtMost(s.maximum, n)
      && Above(s.exclusiveMinimum, n) && Below(s.exclusiveMaximum, n)
    case Str(x) =>
      && AtLeast(s.minLength, |x| as real) && AtMost(s.maxLength, |x| as real)
      && (s.pattern.Some? ==> t.matches(s.pattern.value, x))
      && (s.format.Some? ==> t.conforms(s.format.value, x))
    case Arr(es) => AtLeast(s.minItems, |es| as real) && AtMost(s.maxItems, |es| as real)
    case _ => true
  }

  predicate ValidValue(s: Schema, v: Json)
    requires s.Node?
  {
    && (s.enumValues.Some? ==> v in s.enumValues.value)
    && (s.constant.Some? ==> v == s.constant.value)
    && (s.types.Some? ==> exists i :: 0 <= i < |s.types.value| && HasType(v, s.types.value[i]))
  }

  function Names(ps: seq<Property>): (ns: seq<Name>)
    ensures |ns| == |ps| && forall i :: 0 <= i < |ps| ==> ns[i] == ps[i].name
  {
    seq(|ps|, i requires 0 <= i < |ps| => ps[i].name)
  }

  function PropertiesOf(s: Schema): (ps: seq<Property>)
    requires s.Node?
    ensures forall i :: 0 <= i < |ps| ==> ps[i].schema < s
  {
    if s.properties.Properties? then s.properties.list else []
  }

  /** The name is matched by one of the pattern properties. */
  predicate Covered(t: Text, patterns: seq<string>, name: Name) {
    exists i :: 0 <= i < |patterns| && t.covers(patterns[i], name)
  }

  /** `additionalProperties` is for the names that are neither among the properties nor covered by a pattern. */
  ghost predicate ValidFields(t: Text, s: Schema, fields: map<Name, Json>)
    requires s.Node?
    decreases s, 0
  {
    var ps := PropertiesOf(s);
    && (forall name :: name in s.required ==> name in fields)
    && (forall i :: 0 <= i < |ps| && ps[i].name in fields ==> Valid(t, ps[i].schema, fields[ps[i].name]))
    && (forall name :: name in fields && name !in Names(ps) && !Covered(t, s.patterns, name) ==>
          match s.additional
          case Forbidden => false
          case Typed(schema) => Valid(t, schema, fields[name])
          case _ => true)
  }

  ghost predicate ValidElements(t: Text, s: Schema, elements: seq<Json>)
    requires s.Node?
    decreases s, 0
  {
    match s.items
    case NoItems => true
    case Each(schema) => forall i :: 0 <= i < |elements| ==> Valid(t, schema, elements[i])
    case Listed(text) => t.says(Keywords(text), Arr(elements))
  }

  ghost predicate ValidVariants(t: Text, s: Schema, v: Json)
    requires s.Node?
    decreases s, 0
  {
    && (s.anyOf.Union? ==> exists i :: 0 <= i < |s.anyOf.members| && Valid(t, s.anyOf.members[i], v))
    && (s.oneOf.Union? ==> exists i :: 0 <= i < |s.oneOf.members| && Valid(t, s.oneOf.members[i], v)
                             && forall j :: 0 <= j < |s.oneOf.members| && j != i ==> !Valid(t, s.oneOf.members[j], v))
  }

  /** Beside a reference all other keywords are ignored. */
  ghost predicate Valid(t: Text, s: Schema, v: Json)
    decreases s, 1
  {
    match s
    case Anything => true
    case Nothing => false
    case Ref(pointer) => t.says(Pointed(pointer), v)
    case _ =>
      if s.elsewhere.Some? then t.says(Elsewhere(s.elsewhere.value), v)
      else
        && ValidValue(s, v)
        && ValidScalar(t, s, v)
        && (s.others.Some? ==> t.says(Keywords(s.others.value), v))
        && ValidVariants(t, s, v)
        && (v.Obj? ==> ValidFields(t, s, v.fields))
        && (v.Arr? ==> ValidElements(t, s, v.elements))
  }
}
