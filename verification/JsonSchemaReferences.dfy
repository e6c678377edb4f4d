/**
  Schema documents with references. The check follows a reference only along objects and by its
  names as they are written, so one that passes an array, such as a member of a union, or one with
  percent-encoded names, leads nowhere for it. The program looks references up as it goes; what it
  compares that way is the view of each document. What the document says is its meaning.
 */
module JsonSchemaReferences {
  import opened Prelude
  import opened JsonSchema
  import opened JsonSchemaCompatibility

  datatype Document = Document(root: Schema, definitions: seq<Property>)

  /** Who follows a reference. */
  datatype Follower = Standard | Check

  // ---------------------------------------------------------------- following a pointer

  predicate ThroughArray(hop: Hop) {
    hop.ToAnyOf? || hop.ToOneOf?
  }

  function MemberAt(u: Variants, index: nat): Option<Schema> {
    if u.Union? && index < |u.members| then Some(u.members[index]) else None
  }

  function LookUp(ps: seq<Property>, name: Name, written: Name, who: Follower): Option<Schema> {
    if who.Standard? then Find(ps, name) else Member(ps, written)
  }

  function Hopped(s: Schema, hop: Hop, who: Follower): Option<Schema> {
    if !s.Node? || (ThroughArray(hop) && who.Check?) then None
    else match hop
      case ToDefinition(_, _) => None
      case ToProperty(name, written) => if s.properties.Properties? then LookUp(s.properties.list, name, written, who) else None
      case ToAdditional => if s.additional.Typed? then Some(s.additional.schema) else None
      case ToItems => if s.items.Each? then Some(s.items.schema) else None
      case ToAnyOf(i) => MemberAt(s.anyOf, i)
      case ToOneOf(i) => MemberAt(s.oneOf, i)
  }

  function Walk(s: Schema, hops: seq<Hop>, who: Follower): Option<Schema>
    decreases |hops|
  {
    if hops == [] then Some(s)
    else match Hopped(s, hops[0], who)
      case None => None
      case Some(next) => Walk(next, hops[1..], who)
  }

  /** Where a pointer leads by the standard, and where the check goes. */
  function Resolve(d: Document, hops: Pointer, who: Follower): Option<Schema> {
    if hops[0].ToDefinition? then
      match LookUp(d.definitions, hops[0].name, hops[0].written, who)
      case None => None
      case Some(s) => Walk(s, hops[1..], who)
    else Walk(d.root, hops, who)
  }

  /** The hop as it would be read without percent-decoding. */
  function Undecoded(hop: Hop): Hop {
    match hop
    case ToDefinition(_, written) => ToDefinition(written, written)
    case ToProperty(_, written) => ToProperty(written, written)
    case _ => hop
  }

  function AsWritten(hops: seq<Hop>): (r: seq<Hop>)
    ensures |r| == |hops|
  {
    seq(|hops|, i requires 0 <= i < |hops| => Undecoded(hops[i]))
  }

  ghost predicate PassesArray(hops: seq<Hop>) {
    exists i :: 0 <= i < |hops| && ThroughArray(hops[i])
  }

  lemma {:induction false} ArraysStop(s: Schema, hops: seq<Hop>)
    requires PassesArray(hops)
    ensures Walk(s, hops, Check).None?
    decreases |hops|
  {
    var i :| 0 <= i < |hops| && ThroughArray(hops[i]);
    if i > 0 {
      assert hops[1..][i - 1] == hops[i];
      if Hopped(s, hops[0], Check).Some? {
        ArraysStop(Hopped(s, hops[0], Check).value, hops[1..]);
      }
    }
  }

  lemma {:induction false} WalkAsWritten(s: Schema, hops: seq<Hop>)
    requires !PassesArray(hops) && Walk(s, AsWritten(hops), Standard).Some?
    ensures Walk(s, hops, Check) == Walk(s, AsWritten(hops), Standard)
    decreases |hops|
  {
    if hops != [] {
      assert AsWritten(hops)[1..] == AsWritten(hops[1..]);
      assert !ThroughArray(hops[0]);
      assert forall i :: 0 <= i < |hops[1..]| ==> hops[1..][i] == hops[i + 1];
      assert Hopped(s, hops[0], Check) == Hopped(s, Undecoded(hops[0]), Standard);
      WalkAsWritten(Hopped(s, hops[0], Check).value, hops[1..]);
    }
  }

  lemma RestPasses(hops: Pointer)
    ensures PassesArray(hops) <==> ThroughArray(hops[0]) || PassesArray(hops[1..])
  {
    if i :| 0 <= i < |hops[1..]| && ThroughArray(hops[1..][i]) {
      assert ThroughArray(hops[i + 1]);
    }
    if i :| 0 < i < |hops| && ThroughArray(hops[i]) {
      assert hops[1..][i - 1] == hops[i];
    }
  }

  /** A reference that passes an array leads the check nowhere; any other leads it where its undecoded names lead. */
  lemma FollowedAsWritten(d: Document, hops: Pointer)
    ensures PassesArray(hops) ==> Resolve(d, hops, Check).None?
    ensures !PassesArray(hops) && Resolve(d, AsWritten(hops), Standard).Some? ==>
              Resolve(d, hops, Check) == Resolve(d, AsWritten(hops), Standard)
  {
    RestPasses(hops);
    if hops[0].ToDefinition? {
      assert AsWritten(hops)[1..] == AsWritten(hops[1..]);
      var here := Member(d.definitions, hops[0].written);
      if PassesArray(hops) && here.Some? {
        ArraysStop(here.value, hops[1..]);
      } else if !PassesArray(hops) && Resolve(d, AsWritten(hops), Standard).Some? {
        WalkAsWritten(here.value, hops[1..]);
      }
    } else if PassesArray(hops) {
      ArraysStop(d.root, hops);
    } else if Resolve(d, AsWritten(hops), Standard).Some? {
      WalkAsWritten(d.root, hops);
    }
  }

  /** Without encoded names, a reference that leads somewhere is followed, and there, exactly if it passes no array. */
  lemma FollowedIff(d: Document, hops: Pointer)
    requires AsWritten(hops) == hops && Resolve(d, hops, Standard).Some?
    ensures Resolve(d, hops, Check) == Resolve(d, hops, Standard) <==> !PassesArray(hops)
  {
    FollowedAsWritten(d, hops);
  }

  /** With an encoded name, a reference may lead somewhere, pass no array, and not be followed. */
  lemma EncodedPointer(s: Schema)
    ensures var d := Document(s, [Property(Plain("a b"), s)]);
            var hops: Pointer := [ToDefinition(Plain("a b"), Plain("a%20b"))];
            !PassesArray(hops) && Resolve(d, hops, Standard) == Some(s) && Resolve(d, hops, Check).None?
  {
    var hops: Pointer := [ToDefinition(Plain("a b"), Plain("a%20b"))];
    assert hops[1..] == [] && |"a b"| != |"a%20b"|;
  }

  // ---------------------------------------------------------------- view and meaning

  /** The schema with references replaced by what they lead to, `n` deep. */
  function Expand(d: Document, s: Schema, n: nat, who: Follower): Schema
    decreases n, s, 1
  {
    if s.Ref? then
      match Resolve(d, s.pointer, who)
      case Some(target) => if n > 0 then Expand(d, target, n - 1, who) else s
      case None => s
    else if s.Node? then
      s.(anyOf := ExpandVariants(d, s, s.anyOf, n, who),
         oneOf := ExpandVariants(d, s, s.oneOf, n, who),
         properties := ExpandProperties(d, s, s.properties, n, who),
         additional := if s.additional.Typed? then Typed(Expand(d, s.additional.schema, n, who)) else s.additional,
         items := if s.items.Each? then Each(Expand(d, s.items.schema, n, who)) else s.items)
    else s
  }

  function ExpandVariants(d: Document, parent: Schema, u: Variants, n: nat, who: Follower): Variants
    requires u.Union? ==> forall i :: 0 <= i < |u.members| ==> u.members[i] < parent
    decreases n, parent, 0
  {
    if u.NoUnion? then u
    else Union(seq(|u.members|, i requires 0 <= i < |u.members| => Expand(d, u.members[i], n, who)))
  }

  function ExpandProperties(d: Document, parent: Schema, ps: Properties, n: nat, who: Follower): Properties
    requires ps.Properties? ==> forall i :: 0 <= i < |ps.list| ==> ps.list[i].schema < parent
    decreases n, parent, 0
  {
    if ps.NoProperties? then ps
    else Properties(seq(|ps.list|, i requires 0 <= i < |ps.list| =>
                      Property(ps.list[i].name, Expand(d, ps.list[i].schema, n, who))))
  }

  /** What the check sees of a schema: references it cannot follow stay, and it compares nothing there. */
  function View(d: Document, s: Schema, n: nat): Schema {
    Expand(d, s, n, Check)
  }

  /** What the schema says. */
  function Meaning(d: Document, s: Schema, n: nat): Schema {
    Expand(d, s, n, Standard)
  }

  /**
    Every reference leads, within `n` steps and so without a cycle, to a schema that is not itself a
    reference, and the check follows it there or nowhere.
   */
  ghost predicate Grounded(d: Document, s: Schema, n: nat)
    decreases n, s
  {
    if s.Ref? then
      var target, seen := Resolve(d, s.pointer, Standard), Resolve(d, s.pointer, Check);
      && n > 0 && target.Some? && !target.value.Ref? && (seen.None? || seen == target)
      && Grounded(d, target.value, n - 1)
    else s.Node? ==>
      && (s.anyOf.Union? ==> forall i :: 0 <= i < |s.anyOf.members| ==> Grounded(d, s.anyOf.members[i], n))
      && (s.oneOf.Union? ==> forall i :: 0 <= i < |s.oneOf.members| ==> Grounded(d, s.oneOf.members[i], n))
      && (s.properties.Properties? ==> forall i :: 0 <= i < |s.properties.list| ==> Grounded(d, s.properties.list[i].schema, n))
      && (s.additional.Typed? ==> Grounded(d, s.additional.schema, n))
      && (s.items.Each? ==> Grounded(d, s.items.schema, n))
  }

  lemma ExpandedReference(d: Document, hops: Pointer, n: nat, who: Follower)
    requires Grounded(d, Ref(hops), n)
    ensures var target := Resolve(d, hops, Standard).value;
            Expand(d, Ref(hops), n, who) == if Resolve(d, hops, who).Some? then Expand(d, target, n - 1, who) else Ref(hops)
  {
  }

  /** Looking deeper than the references go makes no difference. */
  lemma {:induction false} DepthDoesNotMatter(d: Document, s: Schema, n: nat, m: nat, who: Follower)
    requires Grounded(d, s, n) && n <= m
    ensures Grounded(d, s, m) && Expand(d, s, m, who) == Expand(d, s, n, who)
    decreases n, s
  {
    match s
    case Ref(hops) =>
      DepthDoesNotMatter(d, Resolve(d, hops, Standard).value, n - 1, m - 1, who);
      ExpandedReference(d, hops, n, who);
      ExpandedReference(d, hops, m, who);
    case Anything =>
    case Nothing =>
    case _ =>
      UnionDepth(d, s, s.anyOf, n, m, who);
      UnionDepth(d, s, s.oneOf, n, m, who);
      PropertiesDepth(d, s, n, m, who);
      if s.additional.Typed? {
        DepthDoesNotMatter(d, s.additional.schema, n, m, who);
      }
      if s.items.Each? {
        DepthDoesNotMatter(d, s.items.schema, n, m, who);
      }
  }

  lemma {:induction false} UnionDepth(d: Document, s: Schema, u: Variants, n: nat, m: nat, who: Follower)
    requires s.Node? && (u == s.anyOf || u == s.oneOf) && Grounded(d, s, n) && n <= m
    ensures ExpandVariants(d, s, u, m, who) == ExpandVariants(d, s, u, n, who)
    ensures u.Union? ==> forall i :: 0 <= i < |u.members| ==> Grounded(d, u.members[i], m)
    decreases n, s, 0
  {
    if u.Union? {
      forall i | 0 <= i < |u.members|
        ensures Grounded(d, u.members[i], m) && Expand(d, u.members[i], m, who) == Expand(d, u.members[i], n, who)
      {
        DepthDoesNotMatter(d, u.members[i], n, m, who);
      }
      assert ExpandVariants(d, s, u, m, who).members == ExpandVariants(d, s, u, n, who).members;
    }
  }

  lemma {:induction false} PropertiesDepth(d: Document, s: Schema, n: nat, m: nat, who: Follower)
    requires s.Node? && Grounded(d, s, n) && n <= m
    ensures ExpandProperties(d, s, s.properties, m, who) == ExpandProperties(d, s, s.properties, n, who)
    ensures s.properties.Properties? ==> forall i :: 0 <= i < |s.properties.list| ==> Grounded(d, s.properties.list[i].schema, m)
    decreases n, s, 0
  {
    var ps := PropertiesOf(s);
    if s.properties.Properties? {
      forall i | 0 <= i < |ps|
        ensures Grounded(d, ps[i].schema, m) && Expand(d, ps[i].schema, m, who) == Expand(d, ps[i].schema, n, who)
      {
        DepthDoesNotMatter(d, ps[i].schema, n, m, who);
      }
      assert ExpandProperties(d, s, s.properties, m, who).list == ExpandProperties(d, s, s.properties, n, who).list;
    }
  }
}
