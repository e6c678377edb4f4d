/** The check as the program runs it: recursive comparers that push into one list of issues. */
module JsonSchemaCheck {
  import opened Prelude
  import opened JsonSchema
  import opened JsonSchemaCompatibility
  import opened JsonSchemaSoundness
  import opened JsonSchemaReports

  class IssueLog {
    var issues: seq<Issue>

    constructor ()
      ensures issues == []
    {
      issues := [];
    }

    method Push(path: seq<Step>, change: Change)
      modifies this
      ensures issues == old(issues) + [Issue(path, change)]
    {
      issues := issues + [Issue(path, change)];
    }

    method PushAll(more: seq<Issue>)
      modifies this
      ensures issues == old(issues) + more
    {
      issues := issues + more;
    }
  }

  lemma Appended(start: seq<Issue>, done: seq<Issue>, head: seq<Issue>, rest: seq<Issue>)
    ensures start + done + head == start + (done + head)
    ensures start + done + head + rest == start + (done + head + rest)
    ensures done + (head + rest) == done + head + rest
  {
  }

  method RunAllowedValues(was: Schema, now: Schema, path: seq<Step>, log: IssueLog)
    requires was.Node? && now.Node?
    modifies log
    ensures log.issues == old(log.issues) + CompareAllowedValues(was, now, path)
  {
    var o, n := AllowedValues(was), AllowedValues(now);
    if o.None? && n.Some? {
      log.Push(path, NewValueRestriction);
    } else if o.Some? && n.Some? {
      RunLostValues(o.value, n.value, path, log);
    }
  }

  method RunLostValues(o: seq<Json>, n: seq<Json>, path: seq<Step>, log: IssueLog)
    modifies log
    ensures log.issues == old(log.issues) + LostValues(o, n, path)
  {
    ghost var done: seq<Issue> := [];
    for i := 0 to |o|
      invariant log.issues == old(log.issues) + done && LostValues(o, n, path) == done + LostValues(o[i..], n, path)
    {
      ghost var head := if Keeps(n, o[i]) then [] else [Issue(path, ValueRemoved(o[i]))];
      assert LostValues(o[i..], n, path) == head + LostValues(o[i + 1..], n, path) by { assert o[i..][1..] == o[i + 1..]; }
      if !Keeps(n, o[i]) {
        log.Push(path, ValueRemoved(o[i]));
      }
      Appended(old(log.issues), done, head, LostValues(o[i + 1..], n, path));
      done := done + head;
    }
  }

  method RunType(was: Schema, now: Schema, path: seq<Step>, log: IssueLog)
    requires was.Node? && now.Node?
    modifies log
    ensures log.issues == old(log.issues) + CompareType(was, now, path)
  {
    var o, n := TypesOf(was), TypesOf(now);
    if o == [] && n != [] {
      log.Push(path, NewTypeRestriction);
    } else if o != [] && n != [] {
      RunLostTypes(o, n, path, log);
    }
  }

  method RunLostTypes(o: seq<string>, n: seq<string>, path: seq<Step>, log: IssueLog)
    modifies log
    ensures log.issues == old(log.issues) + LostTypes(o, n, path)
  {
    ghost var done: seq<Issue> := [];
    for i := 0 to |o|
      invariant log.issues == old(log.issues) + done && LostTypes(o, n, path) == done + LostTypes(o[i..], n, path)
    {
      ghost var head := if o[i] in n then [] else [Issue(path, TypeRemoved(o[i]))];
      assert LostTypes(o[i..], n, path) == head + LostTypes(o[i + 1..], n, path) by { assert o[i..][1..] == o[i + 1..]; }
      if o[i] !in n {
        log.Push(path, TypeRemoved(o[i]));
      }
      Appended(old(log.issues), done, head, LostTypes(o[i + 1..], n, path));
      done := done + head;
    }
  }

  method RunKeywords(was: Schema, now: Schema, path: seq<Step>, log: IssueLog)
    requires was.Node? && now.Node?
    modifies log
    ensures log.issues == old(log.issues) + CompareKeywords(was, now, path)
  {
    RunAllowedValues(was, now, path, log);
    RunType(was, now, path, log);
    RunLimits(was, now, path, log);
    Appended(old(log.issues), CompareAllowedValues(was, now, path), CompareType(was, now, path), CompareLimits(was, now, path));
  }

  method RunBound(was: Option<real>, now: Option<real>, lower: bool, bound: Bound, path: seq<Step>, log: IssueLog)
    modifies log
    ensures log.issues == old(log.issues) + CompareBound(was, now, lower, bound, path)
  {
    if was.None? && now.Some? {
      log.Push(path, BoundAdded(bound));
    } else if was.Some? && now.Some? && (if lower then now.value > was.value else now.value < was.value) {
      log.Push(path, BoundTightened(bound));
    }
  }

  method RunText(was: Option<string>, now: Option<string>, rule: TextRule, path: seq<Step>, log: IssueLog)
    modifies log
    ensures log.issues == old(log.issues) + CompareText(was, now, rule, path)
  {
    if now.None? {
    } else if was.None? {
      log.Push(path, TextRuleAdded(rule));
    } else if was != now {
      log.Push(path, TextRuleChanged(rule));
    }
  }

  method RunLimits(was: Schema, now: Schema, path: seq<Step>, log: IssueLog)
    requires was.Node? && now.Node?
    modifies log
    ensures log.issues == old(log.issues) + CompareLimits(was, now, path)
  {
    ghost var start := log.issues;
    RunBound(was.minimum, now.minimum, true, Minimum, path, log);
    RunBound(was.minLength, now.minLength, true, MinLength, path, log);
    RunBound(was.maximum, now.maximum, false, Maximum, path, log);
    RunBound(was.minItems, now.minItems, true, MinItems, path, log);
    RunBound(was.maxItems, now.maxItems, false, MaxItems, path, log);
    RunText(was.pattern, now.pattern, Pattern, path, log);
    RunText(was.format, now.format, Format, path, log);
    RunBound(was.maxLength, now.maxLength, false, MaxLength, path, log);
    EightAppended(start, CompareBound(was.minimum, now.minimum, true, Minimum, path),
                  CompareBound(was.minLength, now.minLength, true, MinLength, path),
                  CompareBound(was.maximum, now.maximum, false, Maximum, path),
                  CompareBound(was.minItems, now.minItems, true, MinItems, path),
                  CompareBound(was.maxItems, now.maxItems, false, MaxItems, path),
                  CompareText(was.pattern, now.pattern, Pattern, path),
                  CompareText(was.format, now.format, Format, path),
                  CompareBound(was.maxLength, now.maxLength, false, MaxLength, path));
  }

  lemma EightAppended(start: seq<Issue>, a: seq<Issue>, b: seq<Issue>, c: seq<Issue>, d: seq<Issue>, e: seq<Issue>, f: seq<Issue>,
                      g: seq<Issue>, h: seq<Issue>)
    ensures start + a + b + c + d + e + f + g + h == start + (a + b + c + d + e + f + g + h)
  {
    Associative(start, a, b);
    Associative(start, a + b, c);
    Associative(start, a + b + c, d);
    Associative(start, a + b + c + d, e);
    Associative(start, a + b + c + d + e, f);
    Associative(start, a + b + c + d + e + f, g);
    Associative(start, a + b + c + d + e + f + g, h);
  }

  method RunVariants(parent: Schema, was: seq<Schema>, now: seq<Schema>, path: seq<Step>, log: IssueLog)
    requires forall i :: 0 <= i < |was| ==> was[i] < parent
    modifies log
    ensures log.issues == old(log.issues)
              + CompareVariants(parent, was, FirstOccurrences(VariantKeys(was)), Keyed(now), path)
    decreases parent, 2
  {
    RunKeys(parent, was, FirstOccurrences(VariantKeys(was)), Keyed(now), path, log);
  }

  lemma JoinNext(start: seq<Issue>, parts: seq<seq<Issue>>, i: nat)
    requires i < |parts|
    ensures start + Flatten(parts[..i]) + parts[i] == start + Flatten(parts[..i + 1])
  {
    FlattenSnoc(parts[..i], parts[i]);
    assert parts[..i + 1] == parts[..i] + [parts[i]];
    Associative(start, Flatten(parts[..i]), parts[i]);
  }

  ghost function KeyParts(was: seq<Schema>, order: seq<string>, next: map<string, Schema>, path: seq<Step>): (parts: seq<seq<Issue>>)
    requires forall key :: key in order ==> key in Keyed(was)
    ensures |parts| == |order| && forall i :: 0 <= i < |order| ==> parts[i] == KeyIssues(was, order[i], next, path)
  {
    seq(|order|, i requires 0 <= i < |order| => KeyIssues(was, order[i], next, path))
  }

  lemma {:induction false} KeyPartsJoined(parent: Schema, was: seq<Schema>, order: seq<string>, next: map<string, Schema>, path: seq<Step>)
    requires forall i :: 0 <= i < |was| ==> was[i] < parent
    requires forall key :: key in order ==> key in VariantKeys(was)
    ensures forall key :: key in order ==> key in Keyed(was) && Keyed(was)[key] < parent
    ensures Flatten(KeyParts(was, order, next, path)) == CompareVariants(parent, was, order, next, path)
    decreases |order|
  {
    if order != [] {
      KeyPartsJoined(parent, was, order[1..], next, path);
      assert order == [order[0]] + order[1..];
      assert KeyParts(was, order, next, path)[1..] == KeyParts(was, order[1..], next, path);
    }
  }

  method RunKeys(parent: Schema, was: seq<Schema>, order: seq<string>, next: map<string, Schema>, path: seq<Step>, log: IssueLog)
    requires forall i :: 0 <= i < |was| ==> was[i] < parent
    requires forall key :: key in order ==> key in VariantKeys(was)
    modifies log
    ensures log.issues == old(log.issues) + CompareVariants(parent, was, order, next, path)
    decreases parent, 1
  {
    var byKey := Keyed(was);
    KeyPartsJoined(parent, was, order, next, path);
    ghost var parts := KeyParts(was, order, next, path);
    for i := 0 to |order|
      invariant log.issues == old(log.issues) + Flatten(parts[..i])
    {
      RunKey(parent, was, byKey, order[i], next, path, log);
      JoinNext(old(log.issues), parts, i);
    }
    assert parts[..|order|] == parts;
  }

  method RunKey(ghost parent: Schema, ghost was: seq<Schema>, byKey: map<string, Schema>, key: string, next: map<string, Schema>,
                path: seq<Step>, log: IssueLog)
    requires byKey == Keyed(was) && key in byKey && byKey[key] < parent
    modifies log
    ensures log.issues == old(log.issues) + KeyIssues(was, key, next, path)
    decreases parent, 0
  {
    if key !in next {
      log.Push(path + [Variant(key)], VariantRemoved);
    } else {
      RunSchema(byKey[key], next[key], path + [Variant(key)], log);
    }
  }

  ghost function PropertyParts(was: seq<Property>, now: seq<Property>, path: seq<Step>): (parts: seq<seq<Issue>>)
    ensures |parts| == |was| && forall i :: 0 <= i < |was| ==> parts[i] == PropertyIssues(was[i], now, path)
  {
    seq(|was|, i requires 0 <= i < |was| => PropertyIssues(was[i], now, path))
  }

  lemma {:induction false} PropertyPartsJoined(parent: Schema, was: seq<Property>, now: seq<Property>, path: seq<Step>)
    requires forall i :: 0 <= i < |was| ==> was[i].schema < parent
    ensures Flatten(PropertyParts(was, now, path)) == CompareProperties(parent, was, now, path)
    decreases |was|
  {
    if was != [] {
      PropertyPartsJoined(parent, was[1..], now, path);
      assert PropertyParts(was, now, path)[1..] == PropertyParts(was[1..], now, path);
    }
  }

  method RunProperties(parent: Schema, was: seq<Property>, now: seq<Property>, path: seq<Step>, log: IssueLog)
    requires forall i :: 0 <= i < |was| ==> was[i].schema < parent
    modifies log
    ensures log.issues == old(log.issues) + CompareProperties(parent, was, now, path)
    decreases parent, 1
  {
    PropertyPartsJoined(parent, was, now, path);
    ghost var parts := PropertyParts(was, now, path);
    for i := 0 to |was|
      invariant log.issues == old(log.issues) + Flatten(parts[..i])
    {
      RunProperty(parent, was[i], now, path, log);
      JoinNext(old(log.issues), parts, i);
    }
    assert parts[..|was|] == parts;
  }

  method RunProperty(ghost parent: Schema, p: Property, now: seq<Property>, path: seq<Step>, log: IssueLog)
    requires p.schema < parent
    modifies log
    ensures log.issues == old(log.issues) + PropertyIssues(p, now, path)
    decreases parent, 0
  {
    match Member(now, p.name) {
      case None => log.Push(path + [AtProperty(p.name)], PropertyRemoved);
      case Some(schema) => RunSchema(p.schema, schema, path + [AtProperty(p.name)], log);
    }
  }

  method RunRequired(names: seq<Name>, o: seq<Name>, n: seq<Name>, path: seq<Step>, log: IssueLog)
    modifies log
    ensures log.issues == old(log.issues) + CompareRequired(names, o, n, path)
  {
    ghost var done: seq<Issue> := [];
    for i := 0 to |names|
      invariant log.issues == old(log.issues) + done
      invariant CompareRequired(names, o, n, path) == done + CompareRequired(names[i..], o, n, path)
    {
      ghost var head := if (names[i] in o) != (names[i] in n) then [Issue(path + [Required(names[i])], RequiredChanged)] else [];
      assert CompareRequired(names[i..], o, n, path) == head + CompareRequired(names[i + 1..], o, n, path) by {
        assert names[i..][1..] == names[i + 1..];
      }
      if (names[i] in o) != (names[i] in n) {
        log.Push(path + [Required(names[i])], RequiredChanged);
      }
      Appended(old(log.issues), done, head, CompareRequired(names[i + 1..], o, n, path));
      done := done + head;
    }
  }

  method RunObject(was: Schema, now: Schema, path: seq<Step>, log: IssueLog)
    requires was.Node? && now.Node?
    modifies log
    ensures log.issues == old(log.issues) + CompareObject(was, now, path)
    decreases was, 2
  {
    if was.properties.Properties? {
      RunProperties(was, was.properties.list, PropertiesOf(now), path, log);
      var names := FirstOccurrences(was.required + now.required);
      RunRequired(names, was.required, now.required, path, log);
      log.PushAll(CompareAdditional(was, now, path));
      Appended(old(log.issues), CompareProperties(was, was.properties.list, PropertiesOf(now), path),
               CompareRequired(names, was.required, now.required, path), CompareAdditional(was, now, path));
    }
  }

  method RunItems(was: Schema, now: Schema, path: seq<Step>, log: IssueLog)
    requires was.Node? && now.Node?
    modifies log
    ensures log.issues == old(log.issues) + CompareItems(was, now, path)
    decreases was, 1
  {
    if !was.items.NoItems? {
      if now.items.NoItems? {
        log.Push(path, ItemsRemoved);
      } else if was.items.Each? && now.items.Each? {
        RunSchema(was.items.schema, now.items.schema, path + [ItemsOf], log);
      }
    }
  }

  method RunSchema(was: Schema, now: Schema, path: seq<Step>, log: IssueLog)
    modifies log
    ensures log.issues == old(log.issues) + CompareSchema(was, now, path)
    decreases was, 4
  {
    if !was.Node? || !now.Node? {
      return;
    }
    RunKeywords(was, now, path, log);
    RunStructure(was, now, path, log);
    Appended(old(log.issues), CompareKeywords(was, now, path), CompareStructure(was, now, path), []);
  }

  method RunStructure(was: Schema, now: Schema, path: seq<Step>, log: IssueLog)
    requires was.Node? && now.Node?
    modifies log
    ensures log.issues == old(log.issues) + CompareStructure(was, now, path)
    decreases was, 3
  {
    if UnionVariants(was) != [] {
      RunVariants(was, UnionVariants(was), UnionVariants(now), path, log);
    } else {
      RunObject(was, now, path, log);
      RunItems(was, now, path, log);
      Appended(old(log.issues), CompareObject(was, now, path), CompareItems(was, now, path), []);
    }
  }

  lemma SilenceIsCompatible(previous: Schema, next: Schema)
    requires Examined(previous, next) && CompareSchema(previous, next, []) == []
    ensures forall t: Text :: Widens(t, previous, next)
  {
    forall t: Text ensures Widens(t, previous, next) {
      NoIssueMeansCompatible(t, previous, next);
    }
  }

  /**
    The issues the check reports. With none of them, and on schemas the check examines, every
    value of the previous schema is a value of the next one.
   */
  method FindBreakingSchemaChanges(previous: Schema, next: Schema) returns (issues: seq<Issue>)
    ensures issues == CompareSchema(previous, next, [])
    ensures ReportsExactly(issues, previous, next)
    ensures issues == [] && Examined(previous, next) ==> forall t: Text :: Widens(t, previous, next)
  {
    var log := new IssueLog();
    RunSchema(previous, next, [], log);
    issues := log.issues;
    ReportIsExact(previous, next);
    if issues == [] && Examined(previous, next) {
      SilenceIsCompatible(previous, next);
    }
  }
}
