/** What silence of the compatibility check means for documents with references, and what it misses there. */
module JsonSchemaDocuments {
  import opened Prelude
  import opened JsonSchema
  import opened JsonSchemaCompatibility
  import opened JsonSchemaSoundness
  import opened JsonSchemaAdditive
  import opened JsonSchemaGaps
  import opened JsonSchemaReferences

  // ---------------------------------------------------------------- schemas that accept the same

  /** `a`, read with `t`, accepts what `b`, read with `u`, accepts. */
  ghost predicate Alike(t: Text, a: Schema, u: Text, b: Schema) {
    forall v :: Valid(t, a, v) <==> Valid(u, b, v)
  }

  ghost predicate AlikeVariants(t: Text, a: Variants, u: Text, b: Variants) {
    && a.Union? == b.Union?
    && (a.Union? ==> |a.members| == |b.members| && forall i :: 0 <= i < |a.members| ==> Alike(t, a.members[i], u, b.members[i]))
  }

  ghost predicate AlikeProperties(t: Text, a: seq<Property>, u: Text, b: seq<Property>) {
    |a| == |b| && forall i :: 0 <= i < |a| ==> a[i].name == b[i].name && Alike(t, a[i].schema, u, b[i].schema)
  }

  /** The two readings differ only in what is unread. */
  ghost predicate SameValidator(t: Text, u: Text) {
    u == t.(says := u.says)
  }

  ghost predicate SaySame(t: Text, u: Text, m: Unread) {
    forall v :: t.says(m, v) <==> u.says(m, v)
  }

  /** The nodes differ only in their subschemas, and those accept the same, as do the keywords that are not read. */
  ghost predicate AlikeParts(t: Text, a: Schema, u: Text, b: Schema) {
    && a.Node? && b.Node? && a.elsewhere.None?
    && b == a.(anyOf := b.anyOf, oneOf := b.oneOf, properties := b.properties, additional := b.additional, items := b.items)
    && AlikeVariants(t, a.anyOf, u, b.anyOf) && AlikeVariants(t, a.oneOf, u, b.oneOf)
    && AlikeProperties(t, PropertiesOf(a), u, PropertiesOf(b))
    && (if a.additional.Typed? then b.additional.Typed? && Alike(t, a.additional.schema, u, b.additional.schema)
        else b.additional == a.additional)
    && (if a.items.Each? then b.items.Each? && Alike(t, a.items.schema, u, b.items.schema) else b.items == a.items)
    && (a.items.Listed? ==> SaySame(t, u, Keywords(a.items.text)))
    && (a.others.Some? ==> SaySame(t, u, Keywords(a.others.value)))
  }

  lemma AlikeUnions(t: Text, a: Schema, u: Text, b: Schema, v: Json)
    requires a.Node? && b.Node? && AlikeVariants(t, a.anyOf, u, b.anyOf) && AlikeVariants(t, a.oneOf, u, b.oneOf)
    requires ValidVariants(t, a, v)
    ensures ValidVariants(u, b, v)
  {
    if a.anyOf.Union? {
      var i :| 0 <= i < |a.anyOf.members| && Valid(t, a.anyOf.members[i], v);
      assert Valid(u, b.anyOf.members[i], v);
    }
    if a.oneOf.Union? {
      var i :| 0 <= i < |a.oneOf.members| && Valid(t, a.oneOf.members[i], v)
               && forall j :: 0 <= j < |a.oneOf.members| && j != i ==> !Valid(t, a.oneOf.members[j], v);
      assert Valid(u, b.oneOf.members[i], v);
      forall j | 0 <= j < |b.oneOf.members| && j != i ensures !Valid(u, b.oneOf.members[j], v) {
        assert !Valid(t, a.oneOf.members[j], v);
      }
    }
  }

  lemma AlikeFields(t: Text, a: Schema, u: Text, b: Schema, fields: map<Name, Json>)
    requires SameValidator(t, u) && AlikeParts(t, a, u, b) && ValidFields(t, a, fields)
    ensures ValidFields(u, b, fields)
  {
    assert Names(PropertiesOf(a)) == Names(PropertiesOf(b));
    assert forall name :: Covered(t, a.patterns, name) == Covered(u, b.patterns, name);
  }

  lemma PartsOneWay(t: Text, a: Schema, u: Text, b: Schema, v: Json)
    requires SameValidator(t, u) && AlikeParts(t, a, u, b) && Valid(t, a, v)
    ensures Valid(u, b, v)
  {
    AlikeUnions(t, a, u, b, v);
    if v.Obj? {
      AlikeFields(t, a, u, b, v.fields);
    }
    assert ValidScalar(t, a, v) == ValidScalar(u, b, v) && ValidValue(a, v) == ValidValue(b, v);
  }

  lemma PartsTurned(t: Text, a: Schema, u: Text, b: Schema)
    requires AlikeParts(t, a, u, b)
    ensures AlikeParts(u, b, t, a)
  {
  }

  lemma PartsMakeAlike(t: Text, a: Schema, u: Text, b: Schema)
    requires SameValidator(t, u) && AlikeParts(t, a, u, b)
    ensures Alike(t, a, u, b)
  {
    PartsTurned(t, a, u, b);
    forall v ensures Valid(t, a, v) <==> Valid(u, b, v) {
      if Valid(t, a, v) {
        PartsOneWay(t, a, u, b, v);
      }
      if Valid(u, b, v) {
        PartsOneWay(u, b, t, a, v);
      }
    }
  }

  // ---------------------------------------------------------------- the view under a reading of what is left

  /** The schema says something that is not read. */
  ghost predicate Holds(s: Schema, m: Unread)
    decreases s
  {
    if s.Ref? then m == Pointed(s.pointer)
    else if !s.Node? then false
    else if s.elsewhere.Some? then m == Elsewhere(s.elsewhere.value)
    else
      || (s.anyOf.Union? && exists i :: 0 <= i < |s.anyOf.members| && Holds(s.anyOf.members[i], m))
      || (s.oneOf.Union? && exists i :: 0 <= i < |s.oneOf.members| && Holds(s.oneOf.members[i], m))
      || (s.properties.Properties? && exists i :: 0 <= i < |s.properties.list| && Holds(s.properties.list[i].schema, m))
      || (s.additional.Typed? && Holds(s.additional.schema, m))
      || (s.items.Each? && Holds(s.items.schema, m))
      || (s.items.Listed? && m == Keywords(s.items.text))
      || (s.others.Some? && m == Keywords(s.others.value))
  }

  /** What it says in the document: a reference stands for what it leads to, all else is as the validator reads it. */
  ghost predicate Said(t: Text, d: Document, m: Unread, depth: nat, v: Json) {
    match m
    case Pointed(hops) => Valid(t, Meaning(d, Ref(hops), depth), v)
    case _ => t.says(m, v)
  }

  /** `u` reads all that is left in the view as the document means it. */
  ghost predicate Reads(u: Text, t: Text, d: Document, view: Schema, depth: nat) {
    forall m, v :: Holds(view, m) ==> (u.says(m, v) <==> Said(t, d, m, depth, v))
  }

  /** Read so, the view accepts what the schema accepts. */
  lemma {:induction false} ViewMeans(u: Text, t: Text, d: Document, s: Schema, n: nat, depth: nat)
    requires SameValidator(u, t) && Grounded(d, s, n) && n <= depth && Reads(u, t, d, View(d, s, n), depth)
    ensures Alike(u, View(d, s, n), t, Meaning(d, s, n))
    decreases n, s, 1
  {
    match s
    case Ref(hops) =>
      ExpandedReference(d, hops, n, Check);
      ExpandedReference(d, hops, n, Standard);
      if Resolve(d, hops, Check).Some? {
        ViewMeans(u, t, d, Resolve(d, hops, Standard).value, n - 1, depth);
      } else {
        DepthDoesNotMatter(d, s, n, depth, Standard);
        assert View(d, s, n) == Ref(hops) && Holds(Ref(hops), Pointed(hops));
      }
    case Anything =>
    case Nothing =>
    case _ =>
      if s.elsewhere.Some? {
        assert Holds(View(d, s, n), Elsewhere(s.elsewhere.value));
        return;
      }
      VariantsMean(u, t, d, s, s.anyOf, n, depth);
      VariantsMean(u, t, d, s, s.oneOf, n, depth);
      PropertiesMean(u, t, d, s, n, depth);
      if s.additional.Typed? {
        ViewMeans(u, t, d, s.additional.schema, n, depth);
      }
      if s.items.Each? {
        ViewMeans(u, t, d, s.items.schema, n, depth);
      }
      PartsMakeAlike(u, View(d, s, n), t, Meaning(d, s, n));
  }

  lemma {:induction false} VariantsMean(u: Text, t: Text, d: Document, s: Schema, vs: Variants, n: nat, depth: nat)
    requires SameValidator(u, t) && s.Node? && s.elsewhere.None? && (vs == s.anyOf || vs == s.oneOf)
    requires Grounded(d, s, n) && n <= depth && Reads(u, t, d, View(d, s, n), depth)
    ensures AlikeVariants(u, ExpandVariants(d, s, vs, n, Check), t, ExpandVariants(d, s, vs, n, Standard))
    decreases n, s, 0
  {
    if vs.Union? {
      var view := ExpandVariants(d, s, vs, n, Check);
      forall i | 0 <= i < |vs.members| ensures Alike(u, view.members[i], t, ExpandVariants(d, s, vs, n, Standard).members[i]) {
        forall m | Holds(view.members[i], m) ensures Holds(View(d, s, n), m) {
        }
        ViewMeans(u, t, d, vs.members[i], n, depth);
      }
    }
  }

  lemma PropertiesExpanded(d: Document, s: Schema, n: nat)
    requires s.Node? && s.properties.Properties?
    ensures var ps, view, meaning := s.properties.list, PropertiesOf(View(d, s, n)), PropertiesOf(Meaning(d, s, n));
            |view| == |meaning| == |ps| && forall i :: 0 <= i < |ps| ==>
              && view[i] == Property(ps[i].name, View(d, ps[i].schema, n))
              && meaning[i] == Property(ps[i].name, Meaning(d, ps[i].schema, n))
  {
    var ps := s.properties;
    assert View(d, s, n).properties == ExpandProperties(d, s, ps, n, Check);
    assert Meaning(d, s, n).properties == ExpandProperties(d, s, ps, n, Standard);
  }

  lemma {:induction false} PropertiesMean(u: Text, t: Text, d: Document, s: Schema, n: nat, depth: nat)
    requires SameValidator(u, t) && s.Node? && s.elsewhere.None?
    requires Grounded(d, s, n) && n <= depth && Reads(u, t, d, View(d, s, n), depth)
    ensures AlikeProperties(u, PropertiesOf(View(d, s, n)), t, PropertiesOf(Meaning(d, s, n)))
    decreases n, s, 0
  {
    if s.properties.Properties? {
      var ps := s.properties.list;
      PropertiesExpanded(d, s, n);
      var view, meaning := PropertiesOf(View(d, s, n)), PropertiesOf(Meaning(d, s, n));
      forall i | 0 <= i < |ps| ensures view[i].name == meaning[i].name && Alike(u, view[i].schema, t, meaning[i].schema) {
        forall m | Holds(view[i].schema, m) ensures Holds(View(d, s, n), m) {
        }
        ViewMeans(u, t, d, ps[i].schema, n, depth);
      }
    } else {
      assert ExpandProperties(d, s, s.properties, n, Check) == ExpandProperties(d, s, s.properties, n, Standard) == NoProperties;
    }
  }

  // ---------------------------------------------------------------- soundness for documents

  /** Every value of `was`, read with `t`, is a value of `now`, read with `u`. */
  ghost predicate Included(t: Text, was: Schema, u: Text, now: Schema) {
    forall v :: Valid(t, was, v) ==> Valid(u, now, v)
  }

  /** What is left unread in both views means the same in both documents. */
  ghost predicate SameWhereUnread(t: Text, was: Document, u: Text, now: Document, n: nat) {
    forall m, v :: Holds(View(was, was.root, n), m) && Holds(View(now, now.root, n), m) ==>
                     (Said(t, was, m, n, v) <==> Said(u, now, m, n, v))
  }

  /**
    Silence of the check on documents with references, each with a reading of its own: if the views
    are examined, and whatever the check did not read or follow in both means the same as before,
    then every value the old document accepts is accepted by the new one.
   */
  lemma DocumentsAreCompatible(t: Text, was: Document, u: Text, now: Document, n: nat)
    requires SameValidator(t, u) && SameWhereUnread(t, was, u, now, n)
    requires Grounded(was, was.root, n) && Grounded(now, now.root, n)
    requires var o, w := View(was, was.root, n), View(now, now.root, n); Examined(o, w) && CompareSchema(o, w, []) == []
    ensures Included(t, Meaning(was, was.root, n), u, Meaning(now, now.root, n))
  {
    var o, w := View(was, was.root, n), View(now, now.root, n);
    var both := t.(says := (m, v) => if Holds(o, m) then Said(t, was, m, n, v) else Said(u, now, m, n, v));
    ViewMeans(both, t, was, was.root, n, n);
    ViewMeans(both, u, now, now.root, n, n);
    NoIssueMeansCompatible(both, o, w);
  }

  /** A schema that holds nothing but keywords that are not read. */
  function KeywordsOnly(keywords: string): (s: Schema)
    ensures s.Node?
  {
    EMPTY.(others := Some(keywords))
  }

  lemma ExpandedKeywords(d: Document, keywords: string, who: Follower)
    ensures Expand(d, KeywordsOnly(keywords), 0, who) == KeywordsOnly(keywords) && Grounded(d, KeywordsOnly(keywords), 0)
  {
  }

  lemma KeywordsSilent(keywords: string)
    ensures Examined(KeywordsOnly(keywords), KeywordsOnly(keywords))
    ensures CompareSchema(KeywordsOnly(keywords), KeywordsOnly(keywords), []) == []
  {
    PlainNodes(KeywordsOnly(keywords), KeywordsOnly(keywords));
  }

  lemma KeywordsAccept(t: Text, keywords: string, v: Json)
    ensures Valid(t, KeywordsOnly(keywords), v) <==> t.says(Keywords(keywords), v)
  {
  }

  /**
    That condition is needed: with a reference inside keywords that are not read, such as `allOf`,
    the document may change under them, unseen.
   */
  lemma ReferenceInsideKeywords(t: Text, u: Text, keywords: string, pointed: Schema, narrowed: Schema, v: Json)
    requires forall x :: t.says(Keywords(keywords), x) <==> Valid(t, pointed, x)
    requires forall x :: u.says(Keywords(keywords), x) <==> Valid(u, narrowed, x)
    requires Valid(t, pointed, v) && !Valid(u, narrowed, v)
    ensures var root := KeywordsOnly(keywords);
            var was, now := Document(root, [Property(X, pointed)]), Document(root, [Property(X, narrowed)]);
            && Grounded(was, root, 0) && Grounded(now, root, 0)
            && Examined(View(was, root, 0), View(now, root, 0)) && CompareSchema(View(was, root, 0), View(now, root, 0), []) == []
            && !Included(t, Meaning(was, root, 0), u, Meaning(now, root, 0))
  {
    var root := KeywordsOnly(keywords);
    var was, now := Document(root, [Property(X, pointed)]), Document(root, [Property(X, narrowed)]);
    ExpandedKeywords(was, keywords, Standard);
    ExpandedKeywords(now, keywords, Standard);
    ExpandedKeywords(was, keywords, Check);
    ExpandedKeywords(now, keywords, Check);
    KeywordsSilent(keywords);
    KeywordsAccept(t, keywords, v);
    KeywordsAccept(u, keywords, v);
  }

  /** Against a reference that leads the check nowhere nothing is ever reported, on either side. */
  lemma UnfollowedIsSilent(d: Document, hops: Pointer, n: nat, other: Schema, path: seq<Step>)
    requires Resolve(d, hops, Check).None?
    ensures CompareSchema(View(d, Ref(hops), n), other, path) == [] && CompareSchema(other, View(d, Ref(hops), n), path) == []
  {
    assert View(d, Ref(hops), n) == Ref(hops);
  }

  /** A document for lists of `element`. */
  function ListOf(element: Schema, definitions: seq<Property>): Document {
    Document(EMPTY.(items := Each(element)), definitions)
  }

  lemma ExpandedList(d: Document, element: Schema, n: nat, who: Follower)
    requires d == ListOf(element, d.definitions)
    ensures Expand(d, d.root, n, who) == EMPTY.(items := Each(Expand(d, element, n, who)))
  {
  }

  lemma OnlyItemsCompared(was: Schema, now: Schema)
    requires SameKeywords(was, now) && AllowedValues(was).None? && UnionVariants(was) == [] && was.properties.NoProperties?
    requires CompareItems(was, now, []) == []
    ensures CompareSchema(was, now, []) == []
  {
    QuietKeywords(was, now, []);
    QuietNode(was, now, []);
  }

  lemma ItemsCompared(was: Schema, now: Schema)
    requires was.Node? && now.Node? && was.items.Each? && now.items.Each?
    requires CompareSchema(was.items.schema, now.items.schema, [ItemsOf]) == []
    ensures CompareItems(was, now, []) == []
  {
    assert [] + [ItemsOf] == [ItemsOf];
  }

  lemma ListsCompared(was: Schema, now: Schema)
    requires CompareSchema(was, now, [ItemsOf]) == []
    ensures CompareSchema(EMPTY.(items := Each(was)), EMPTY.(items := Each(now)), []) == []
  {
    var o, w := EMPTY.(items := Each(was)), EMPTY.(items := Each(now));
    ItemsCompared(o, w);
    OnlyItemsCompared(o, w);
  }

  lemma ListAccepts(t: Text, element: Schema, v: Json)
    ensures Valid(t, EMPTY.(items := Each(element)), Arr([v])) <==> Valid(t, element, v)
  {
    assert [v][0] == v;
  }

  /** Elements may lose any value when a reference that leads the check nowhere gives way to another schema. */
  lemma UnseenReference(t: Text, was: Document, now: Document, hops: Pointer, other: Schema, n: nat, v: Json)
    requires was == ListOf(Ref(hops), was.definitions) && now == ListOf(other, now.definitions)
    requires Resolve(was, hops, Check).None?
    requires Valid(t, Meaning(was, Ref(hops), n), v) && !Valid(t, Meaning(now, other, n), v)
    ensures CompareSchema(View(was, was.root, n), View(now, now.root, n), []) == []
    ensures !Included(t, Meaning(was, was.root, n), t, Meaning(now, now.root, n))
  {
    ExpandedList(was, Ref(hops), n, Check);
    ExpandedList(now, other, n, Check);
    UnfollowedIsSilent(was, hops, n, View(now, other, n), [ItemsOf]);
    ListsCompared(View(was, Ref(hops), n), View(now, other, n));
    ExpandedList(was, Ref(hops), n, Standard);
    ExpandedList(now, other, n, Standard);
    ListAccepts(t, Meaning(was, Ref(hops), n), v);
    ListAccepts(t, Meaning(now, other, n), v);
  }

  /** Such a document: the elements are the first variant of a union, and then nothing at all. */
  lemma UnseenReferenceExample(t: Text)
    ensures var definitions := [Property(X, EMPTY.(anyOf := Union([TEXT])))];
            var was := ListOf(Ref([ToDefinition(X, X), ToAnyOf(0)]), definitions);
            var now := ListOf(Nothing, definitions);
            && Grounded(was, was.root, 1) && Grounded(now, now.root, 1)
            && CompareSchema(View(was, was.root, 1), View(now, now.root, 1), []) == []
            && !Included(t, Meaning(was, was.root, 1), t, Meaning(now, now.root, 1))
  {
    var definitions := [Property(X, EMPTY.(anyOf := Union([TEXT])))];
    var hops: Pointer := [ToDefinition(X, X), ToAnyOf(0)];
    var was, now := ListOf(Ref(hops), definitions), ListOf(Nothing, definitions);
    assert hops[1..] == [ToAnyOf(0)] && [ToAnyOf(0)][1..] == [];
    assert Walk(definitions[0].schema, [ToAnyOf(0)], Standard) == Some(TEXT);
    assert Resolve(was, hops, Standard) == Some(TEXT) && Resolve(was, hops, Check).None?;
    TextMeansText(was);
    TextAccepts(t);
    UnseenReference(t, was, now, hops, Nothing, 1, Str(""));
  }

  lemma TextMeansText(d: Document)
    ensures Meaning(d, TEXT, 0) == TEXT && Grounded(d, TEXT, 0)
  {
  }
}
