/** Data migrations of the core and of the server: one plan over several files, all or nothing. */
module Migrations {
  import opened Prelude

  datatype Value = Record(fields: map<string, Value>) | List(items: seq<Value>) | Scalar(text: string)

  /** A regular file, or something a migration refuses: a link, a directory, or one that cannot be read. */
  datatype File = Regular(content: string) | Irregular

  type Files = map<string, File>

  datatype Migrated = UpToDate | To(value: Value) | Refused

  datatype Candidate = Candidate(path: string, migrate: Value -> Migrated)

  datatype PlannedFile = PlannedFile(path: string, before: string, after: string)

  datatype Plan = Planned(files: seq<PlannedFile>) | Rejected

  /** Reading and printing JSON. */
  datatype Codec = Codec(parse: string -> Option<Value>, render: Value -> string)

  ghost predicate RoundTrips(codec: Codec) {
    forall v :: codec.parse(codec.render(v)) == Some(v)
  }

  // ---------------------------------------------------------------- what migrates to what

  const VERSION := "version"
  const ONE := Scalar("1")

  /** A record without a version gets version 1; one with another version, or without the field, is refused. */
  function AddVersion(v: Value, required: Option<string>): Migrated {
    if !v.Record? || (required.Some? && required.value !in v.fields) then Refused
    else if VERSION !in v.fields then To(Record(v.fields[VERSION := ONE]))
    else if v.fields[VERSION] == ONE then UpToDate
    else Refused
  }

  function WrapList(v: Value, field: string): Migrated {
    if v.List? then To(Record(map[VERSION := ONE, field := v])) else AddVersion(v, Some(field))
  }

  function CoreCandidates(): seq<Candidate> {
    [Candidate("config.json", v => AddVersion(v, None)), Candidate("projects.json", v => AddVersion(v, None))]
  }

  function ServerCandidates(): seq<Candidate> {
    [Candidate("workspaces.json", v => WrapList(v, "workspaces")),
     Candidate("provider.json", v => AddVersion(v, Some("provider"))),
     Candidate("push-subscriptions.json", v => WrapList(v, "subscriptions"))]
  }

  /** The files of the core: any record without a version gets one. */
  lemma CoreFiles(v: Value)
    ensures var cs := CoreCandidates();
            |cs| == 2 && cs[0].path == "config.json" && cs[1].path == "projects.json"
            && (cs[0].migrate(v).To? <==> v.Record? && "version" !in v.fields) && cs[1].migrate(v) == cs[0].migrate(v)
  {
  }

  /** The files of the server: two lists that are wrapped, and records that must have their field. */
  lemma ServerFiles(v: Value)
    ensures var cs := ServerCandidates();
            |cs| == 3 && cs[0].path == "workspaces.json" && cs[1].path == "provider.json" && cs[2].path == "push-subscriptions.json"
    ensures v.List? ==>
              var cs := ServerCandidates();
              && cs[0].migrate(v) == To(Record(map["version" := Scalar("1"), "workspaces" := v])) && cs[1].migrate(v) == Refused
              && cs[2].migrate(v) == To(Record(map["version" := Scalar("1"), "subscriptions" := v]))
    ensures v.Record? ==>
              var cs := ServerCandidates();
              && ("workspaces" !in v.fields ==> cs[0].migrate(v) == Refused) && ("provider" !in v.fields ==> cs[1].migrate(v) == Refused)
              && ("subscriptions" !in v.fields ==> cs[2].migrate(v) == Refused)
  {
  }

  /** What a migration makes needs no migration, and the files of the candidates differ. */
  ghost predicate Settling(cs: seq<Candidate>) {
    && (forall i, v :: 0 <= i < |cs| && cs[i].migrate(v).To? ==> cs[i].migrate(cs[i].migrate(v).value) == UpToDate)
    && forall i, j :: 0 <= i < j < |cs| ==> cs[i].path != cs[j].path
  }

  lemma AddVersionSettles(v: Value, required: Option<string>)
    requires AddVersion(v, required).To?
    ensures AddVersion(AddVersion(v, required).value, required) == UpToDate
  {
  }

  lemma WrapListSettles(v: Value, field: string)
    requires WrapList(v, field).To? && field != VERSION
    ensures WrapList(WrapList(v, field).value, field) == UpToDate
  {
  }

  /** All data of `v` is in `w`: a record keeps its fields but for the version, a list is all there is under one field. */
  ghost predicate KeepsData(v: Value, w: Value) {
    && w.Record? && VERSION in w.fields && w.fields[VERSION] == ONE
    && match v
       case Record(fields) => forall k :: k != VERSION ==> (k in w.fields <==> k in fields) && (k in fields ==> w.fields[k] == fields[k])
       case List(_) => exists field :: field != VERSION && w.fields.Keys == {VERSION, field} && w.fields[field] == v
       case Scalar(_) => false
  }

  /** No migration of the candidates loses data. */
  ghost predicate Preserving(cs: seq<Candidate>) {
    forall i, v :: 0 <= i < |cs| && cs[i].migrate(v).To? ==> KeepsData(v, cs[i].migrate(v).value)
  }

  /** A version is added exactly to a record that has none, and the required field; nothing else changes. */
  lemma AddVersionKeeps(v: Value, required: Option<string>)
    ensures AddVersion(v, required).To?
            <==> v.Record? && VERSION !in v.fields && (required.Some? ==> required.value in v.fields)
    ensures AddVersion(v, required) == UpToDate
            <==> v.Record? && VERSION in v.fields && v.fields[VERSION] == ONE && (required.Some? ==> required.value in v.fields)
    ensures AddVersion(v, required).To? ==> KeepsData(v, AddVersion(v, required).value)
  {
  }

  /** A list is wrapped whole under its field; a record that has the field keeps its fields; all else is refused. */
  lemma WrapListKeeps(v: Value, field: string)
    requires field != VERSION
    ensures WrapList(v, field).To? <==> v.List? || (v.Record? && VERSION !in v.fields && field in v.fields)
    ensures WrapList(v, field) == UpToDate <==> v.Record? && VERSION in v.fields && v.fields[VERSION] == ONE && field in v.fields
    ensures v.List? ==> WrapList(v, field).To? && field in WrapList(v, field).value.fields
                        && WrapList(v, field).value.fields[field] == v
    ensures WrapList(v, field).To? ==> KeepsData(v, WrapList(v, field).value)
  {
    if v.List? {
      var w := WrapList(v, field).value;
      assert w.fields.Keys == {VERSION, field} && w.fields[field] == v;
    } else {
      AddVersionKeeps(v, Some(field));
    }
  }

  lemma CandidatesPreserve()
    ensures Preserving(CoreCandidates()) && Preserving(ServerCandidates())
  {
    var core, server := CoreCandidates(), ServerCandidates();
    forall i, v | 0 <= i < |core| && core[i].migrate(v).To? ensures KeepsData(v, core[i].migrate(v).value) {
      AddVersionKeeps(v, None);
    }
    forall i, v | 0 <= i < |server| && server[i].migrate(v).To? ensures KeepsData(v, server[i].migrate(v).value) {
      if i == 0 { WrapListKeeps(v, "workspaces"); }
      if i == 1 { AddVersionKeeps(v, Some("provider")); }
      if i == 2 { WrapListKeeps(v, "subscriptions"); }
    }
  }

  lemma CandidatesSettle()
    ensures Settling(CoreCandidates()) && Settling(ServerCandidates())
  {
    var core, server := CoreCandidates(), ServerCandidates();
    forall i, v | 0 <= i < |core| && core[i].migrate(v).To? ensures core[i].migrate(core[i].migrate(v).value) == UpToDate {
      AddVersionSettles(v, None);
    }
    forall i, v | 0 <= i < |server| && server[i].migrate(v).To? ensures server[i].migrate(server[i].migrate(v).value) == UpToDate {
      if i == 0 { WrapListSettles(v, "workspaces"); }
      if i == 1 { AddVersionSettles(v, Some("provider")); }
      if i == 2 { WrapListSettles(v, "subscriptions"); }
    }
    assert core[0].path[0] != core[1].path[0];
    assert server[0].path[0] != server[1].path[0] && |server[1].path| != |server[2].path| && server[0].path[0] != server[2].path[0];
  }

  // ---------------------------------------------------------------- planning

  function PlanOne(files: Files, c: Candidate, codec: Codec): Plan {
    if c.path !in files then Planned([])
    else
      match files[c.path]
      case Irregular => Rejected
      case Regular(before) =>
        match codec.parse(before)
        case None => Rejected
        case Some(v) =>
          match c.migrate(v)
          case UpToDate => Planned([])
          case Refused => Rejected
          case To(w) => Planned([PlannedFile(c.path, before, codec.render(w) + "\n")])
  }

  function PlanAll(files: Files, cs: seq<Candidate>, codec: Codec): Plan {
    if cs == [] then Planned([])
    else
      match PlanAll(files, cs[..|cs| - 1], codec)
      case Rejected => Rejected
      case Planned(ps) =>
        match PlanOne(files, cs[|cs| - 1], codec)
        case Rejected => Rejected
        case Planned(p) => Planned(ps + p)
  }

  /** A file stands in the way of a migration: no regular file, no JSON, or of a shape or version unknown. */
  ghost predicate Blocks(files: Files, c: Candidate, codec: Codec) {
    c.path in files
    && match files[c.path]
       case Irregular => true
       case Regular(content) => codec.parse(content).None? || c.migrate(codec.parse(content).value).Refused?
  }

  /** The planned file is that of a candidate that is there and not up to date, with what the migration makes of it. */
  ghost predicate IsDue(files: Files, c: Candidate, codec: Codec, p: PlannedFile) {
    && p.path == c.path && c.path in files && files[c.path] == Regular(p.before)
    && codec.parse(p.before).Some? && c.migrate(codec.parse(p.before).value).To?
    && p.after == codec.render(c.migrate(codec.parse(p.before).value).value) + "\n"
  }

  /** A plan is refused exactly if some file stands in the way, and otherwise holds exactly the files that are due. */
  lemma {:induction false} PlanIsExact(files: Files, cs: seq<Candidate>, codec: Codec)
    ensures PlanAll(files, cs, codec).Rejected? <==> exists c :: c in cs && Blocks(files, c, codec)
    ensures PlanAll(files, cs, codec).Planned? ==>
              forall p :: p in PlanAll(files, cs, codec).files <==> exists c :: c in cs && IsDue(files, c, codec, p)
  {
    if cs != [] {
      var rest, last := cs[..|cs| - 1], cs[|cs| - 1];
      Snoc(cs);
      PlanIsExact(files, rest, codec);
      OneIsExact(files, last, codec);
      assert forall c :: c in cs <==> c in rest || c == last;
      if PlanAll(files, cs, codec).Planned? {
        forall p ensures p in PlanAll(files, cs, codec).files <==> exists c :: c in cs && IsDue(files, c, codec, p) {
          assert p in PlanAll(files, cs, codec).files
                 <==> p in PlanAll(files, rest, codec).files || p in PlanOne(files, last, codec).files;
        }
      }
    }
  }

  lemma OneIsExact(files: Files, c: Candidate, codec: Codec)
    ensures PlanOne(files, c, codec).Rejected? <==> Blocks(files, c, codec)
    ensures PlanOne(files, c, codec).Planned? ==> forall p :: p in PlanOne(files, c, codec).files <==> IsDue(files, c, codec, p)
  {
  }

  /** The new content of the file parses to a value that holds all data of the old. */
  ghost predicate FileKeepsData(p: PlannedFile, codec: Codec) {
    && codec.parse(p.before).Some? && codec.parse(p.after).Some?
    && KeepsData(codec.parse(p.before).value, codec.parse(p.after).value)
  }

  /** A final newline does not change what a text parses to. */
  ghost predicate IgnoresNewline(codec: Codec) {
    forall text: string, v :: codec.parse(text) == Some(v) ==> codec.parse(text + "\n") == Some(v)
  }

  /** No planned file loses data. */
  lemma {:induction false} PlanKeepsData(files: Files, cs: seq<Candidate>, codec: Codec)
    requires RoundTrips(codec) && IgnoresNewline(codec) && Preserving(cs) && PlanAll(files, cs, codec).Planned?
    ensures forall p :: p in PlanAll(files, cs, codec).files ==> FileKeepsData(p, codec)
  {
    if cs != [] {
      var rest, c := cs[..|cs| - 1], cs[|cs| - 1];
      PlanKeepsData(files, rest, codec);
      assert PlanAll(files, cs, codec).files == PlanAll(files, rest, codec).files + PlanOne(files, c, codec).files;
      forall p | p in PlanOne(files, c, codec).files ensures FileKeepsData(p, codec) {
        assert cs[|cs| - 1].migrate(codec.parse(p.before).value).To?;
      }
    }
  }

  /** The planning loop; it stops at the first file it must refuse. */
  method PlanMigrations(files: Files, cs: seq<Candidate>, codec: Codec) returns (plan: Plan)
    ensures plan == PlanAll(files, cs, codec)
  {
    var planned: seq<PlannedFile> := [];
    for i := 0 to |cs|
      invariant PlanAll(files, cs[..i], codec) == Planned(planned)
    {
      assert cs[..i + 1][..i] == cs[..i];
      var p := PlanOne(files, cs[i], codec);
      if p.Rejected? {
        RejectedStays(files, cs, i + 1, codec);
        return Rejected;
      }
      planned := planned + p.files;
    }
    assert cs[..|cs|] == cs;
    plan := Planned(planned);
  }

  lemma {:induction false} RejectedStays(files: Files, cs: seq<Candidate>, k: nat, codec: Codec)
    requires k <= |cs| && PlanAll(files, cs[..k], codec).Rejected?
    ensures PlanAll(files, cs, codec).Rejected?
  {
    if k == |cs| {
      assert cs[..k] == cs;
    } else {
      assert cs[..|cs| - 1][..k] == cs[..k];
      RejectedStays(files, cs[..|cs| - 1], k, codec);
    }
  }

  ghost predicate DistinctPaths(ps: seq<PlannedFile>) {
    forall i, j :: 0 <= i < j < |ps| ==> ps[i].path != ps[j].path
  }

  ghost predicate PathsFrom(ps: seq<PlannedFile>, cs: seq<Candidate>) {
    forall i :: 0 <= i < |ps| ==> exists k :: 0 <= k < |cs| && cs[k].path == ps[i].path
  }

  lemma {:induction false} PlanIsSound(files: Files, cs: seq<Candidate>, codec: Codec)
    requires Settling(cs) && PlanAll(files, cs, codec).Planned?
    ensures var ps := PlanAll(files, cs, codec).files;
            DistinctPaths(ps) && PathsFrom(ps, cs)
            && forall i :: 0 <= i < |ps| ==> ps[i].path in files && files[ps[i].path] == Regular(ps[i].before)
  {
    if cs != [] {
      var rest, c := cs[..|cs| - 1], cs[|cs| - 1];
      PlanIsSound(files, rest, codec);
      var ps := PlanAll(files, rest, codec).files;
      forall i | 0 <= i < |ps| ensures ps[i].path != c.path && exists k :: 0 <= k < |cs| && cs[k].path == ps[i].path {
        var k :| 0 <= k < |rest| && rest[k].path == ps[i].path;
        assert cs[k].path == ps[i].path;
      }
    }
  }

  // ---------------------------------------------------------------- applying

  /** The files after the first `k` planned writes. */
  function Overlay(files: Files, ps: seq<PlannedFile>, k: nat): Files
    requires k <= |ps|
  {
    if k == 0 then files else Overlay(files, ps, k - 1)[ps[k - 1].path := Regular(ps[k - 1].after)]
  }

  lemma {:induction false} OverlayAt(files: Files, ps: seq<PlannedFile>, k: nat)
    requires k <= |ps| && DistinctPaths(ps)
    ensures forall j :: 0 <= j < k ==> ps[j].path in Overlay(files, ps, k) && Overlay(files, ps, k)[ps[j].path] == Regular(ps[j].after)
    ensures forall p :: (forall j :: 0 <= j < k ==> ps[j].path != p) ==>
              (p in Overlay(files, ps, k) <==> p in files) && (p in files ==> Overlay(files, ps, k)[p] == files[p])
  {
    if k > 0 {
      OverlayAt(files, ps, k - 1);
    }
  }

  /** All that was planned is still as it was when planned. */
  predicate Unchanged(files: Files, ps: seq<PlannedFile>) {
    forall i :: 0 <= i < |ps| ==> ps[i].path in files && files[ps[i].path] == Regular(ps[i].before)
  }

  /** Undoing the last of `k` writes gives the state after `k - 1`. */
  lemma UndoLast(files: Files, ps: seq<PlannedFile>, k: nat)
    requires 0 < k <= |ps| && DistinctPaths(ps)
    requires ps[k - 1].path in files && files[ps[k - 1].path] == Regular(ps[k - 1].before)
    ensures Overlay(files, ps, k)[ps[k - 1].path := Regular(ps[k - 1].before)] == Overlay(files, ps, k - 1)
  {
    OverlayAt(files, ps, k - 1);
    var p := ps[k - 1].path;
    assert Overlay(files, ps, k - 1)[p] == Regular(ps[k - 1].before);
  }

  /** A write that took effect and was reported as failed is as if it had been there from the start. */
  lemma {:induction false} StrayWrite(files: Files, ps: seq<PlannedFile>, k: nat, path: string, f: File)
    requires k <= |ps| && forall j :: 0 <= j < k ==> ps[j].path != path
    ensures Overlay(files, ps, k)[path := f] == Overlay(files[path := f], ps, k)
  {
    if k > 0 {
      StrayWrite(files, ps, k - 1, path, f);
      var m, a, b := Overlay(files, ps, k - 1), ps[k - 1].path, Regular(ps[k - 1].after);
      assert m[a := b][path := f] == m[path := f][a := b];
    }
  }

  datatype Outcome = Done | FailedBefore | FailedAfter

  datatype Status = Noop | PlannedOnly | Applied | RolledBack | Blocked

  /** What goes wrong: the backup, each write forward, and each write of the rollback. */
  datatype Faults = Faults(backupFails: bool, write: nat -> Outcome, undo: nat -> Outcome)

  class FileSystem {
    var files: Files
    /** The lock file of the migrations. */
    var locked: bool

    constructor (files: Files)
      ensures this.files == files && !locked
    {
      this.files, locked := files, false;
    }

    /** Replaces a file at once; a failure is reported before or after the replacement. */
    method AtomicWrite(path: string, content: string, outcome: Outcome) returns (ok: bool)
      modifies this`files
      ensures files == if outcome.FailedBefore? then old(files) else old(files)[path := Regular(content)]
      ensures ok == outcome.Done?
    {
      if !outcome.FailedBefore? {
        files := files[path := Regular(content)];
      }
      ok := outcome.Done?;
    }
  }

  /** The first write that is not done, or `n`. */
  function FirstFailure(write: nat -> Outcome, n: nat, i: nat): (k: nat)
    requires i <= n
    ensures i <= k <= n && (k < n ==> !write(k).Done?) && forall j :: i <= j < k ==> write(j).Done?
    decreases n - i
  {
    if i == n || !write(i).Done? then i else FirstFailure(write, n, i + 1)
  }

  /** The original files, but for a failing write that took effect after all. */
  function Remainder(files: Files, ps: seq<PlannedFile>, faults: Faults): Files {
    var k := FirstFailure(faults.write, |ps|, 0);
    if k < |ps| && faults.write(k).FailedAfter? then files[ps[k].path := Regular(ps[k].after)] else files
  }

  /** Whether the plan is carried out, and how that ends. */
  predicate Starts(files: Files, ps: seq<PlannedFile>, faults: Faults) {
    Unchanged(files, ps) && !faults.backupFails
  }

  /** Each planned file holds its old or its new content; all others are as before. */
  ghost predicate OldOrNew(was: Files, files: Files, ps: seq<PlannedFile>) {
    && (forall i :: 0 <= i < |ps| ==>
          ps[i].path in files && (files[ps[i].path] == Regular(ps[i].before) || files[ps[i].path] == Regular(ps[i].after)))
    && forall p :: (forall i :: 0 <= i < |ps| ==> ps[i].path != p) ==>
         (p in files <==> p in was) && (p in was ==> files[p] == was[p])
  }

  lemma OverlayIsOldOrNew(was: Files, base: Files, ps: seq<PlannedFile>, k: nat)
    requires k <= |ps| && DistinctPaths(ps) && OldOrNew(was, base, ps)
    ensures OldOrNew(was, Overlay(base, ps, k), ps)
  {
    OverlayAt(base, ps, k);
  }

  method Forward(fs: FileSystem, ps: seq<PlannedFile>, write: nat -> Outcome) returns (written: nat)
    modifies fs`files
    ensures written == FirstFailure(write, |ps|, 0)
    ensures fs.files == if written < |ps| && write(written).FailedAfter?
                        then Overlay(old(fs.files), ps, written)[ps[written].path := Regular(ps[written].after)]
                        else Overlay(old(fs.files), ps, written)
  {
    written := 0;
    while written < |ps|
      invariant written <= |ps| && FirstFailure(write, |ps|, written) == FirstFailure(write, |ps|, 0)
      invariant fs.files == Overlay(old(fs.files), ps, written)
    {
      var ok := fs.AtomicWrite(ps[written].path, ps[written].after, write(written));
      if !ok {
        return;
      }
      written := written + 1;
    }
  }

  /** Undoes the first `count` writes, the last first; stops at a failure, with `left` of them still in place. */
  method Backward(fs: FileSystem, ps: seq<PlannedFile>, count: nat, undo: nat -> Outcome, ghost base: Files)
    returns (ok: bool, ghost left: nat)
    requires count <= |ps| && DistinctPaths(ps) && fs.files == Overlay(base, ps, count)
    requires forall j :: 0 <= j < count ==> ps[j].path in base && base[ps[j].path] == Regular(ps[j].before)
    modifies fs`files
    ensures ok <==> forall j :: 0 <= j < count ==> undo(j).Done?
    ensures left <= count && fs.files == Overlay(base, ps, left) && (ok ==> fs.files == base)
  {
    var k: nat := count;
    while k > 0
      invariant k <= count && fs.files == Overlay(base, ps, k)
      invariant forall j :: k <= j < count ==> undo(j).Done?
    {
      UndoLast(base, ps, k);
      ok := fs.AtomicWrite(ps[k - 1].path, ps[k - 1].before, undo(k - 1));
      if !ok {
        left := if undo(k - 1).FailedBefore? then k else k - 1;
        return;
      }
      k := k - 1;
    }
    ok, left := true, 0;
  }

  lemma RemainderIsOldOrNew(was: Files, ps: seq<PlannedFile>, faults: Faults)
    requires Unchanged(was, ps) && DistinctPaths(ps)
    ensures OldOrNew(was, Remainder(was, ps, faults), ps)
  {
    var k := FirstFailure(faults.write, |ps|, 0);
    if k < |ps| && faults.write(k).FailedAfter? {
      StrayIsOldOrNew(was, ps, k);
    }
  }

  lemma StrayIsOldOrNew(was: Files, ps: seq<PlannedFile>, k: nat)
    requires Unchanged(was, ps) && DistinctPaths(ps) && k < |ps|
    ensures OldOrNew(was, was[ps[k].path := Regular(ps[k].after)], ps)
  {
  }

  lemma RemainderKeepsWritten(was: Files, ps: seq<PlannedFile>, faults: Faults)
    requires Unchanged(was, ps) && DistinctPaths(ps)
    ensures var k := FirstFailure(faults.write, |ps|, 0);
            forall j :: 0 <= j < k ==> ps[j].path in Remainder(was, ps, faults)
                                       && Remainder(was, ps, faults)[ps[j].path] == Regular(ps[j].before)
  {
  }

  /** A rollback gives back every file exactly when the failing write took no effect, or had none to take. */
  lemma RolledBackIff(files: Files, ps: seq<PlannedFile>, faults: Faults)
    requires Unchanged(files, ps) && FirstFailure(faults.write, |ps|, 0) < |ps|
    ensures var k := FirstFailure(faults.write, |ps|, 0);
            Remainder(files, ps, faults) == files <==> faults.write(k).FailedBefore? || ps[k].before == ps[k].after
  {
    var k := FirstFailure(faults.write, |ps|, 0);
    assert files[ps[k].path] == Regular(ps[k].before);
    if !faults.write(k).FailedBefore? {
      assert Remainder(files, ps, faults)[ps[k].path] == Regular(ps[k].after);
      if ps[k].before == ps[k].after {
        assert Remainder(files, ps, faults) == files;
      }
    }
  }

  /**
    How carrying out a plan ends. `Applied`: every planned file is new. `RolledBack`: some write
    failed and every undo worked, and everything is as it was exactly if the failing write took no
    effect, or had none to take. Only when an undo fails may old and new be mixed.
   */
  ghost predicate Ends(was: Files, ps: seq<PlannedFile>, faults: Faults, status: Status, files: Files) {
    var k := FirstFailure(faults.write, |ps|, 0);
    && (status == Applied || status == RolledBack || status == Blocked)
    && (status == Applied <==> k == |ps|)
    && (status == Applied ==> files == Overlay(was, ps, |ps|))
    && (status == RolledBack <==> k < |ps| && forall j :: 0 <= j < k ==> faults.undo(j).Done?)
    && (status == RolledBack ==> files == Remainder(was, ps, faults))
    && (status == RolledBack ==> (files == was <==> faults.write(k).FailedBefore? || ps[k].before == ps[k].after))
    && (status == Blocked ==> OldOrNew(was, files, ps))
  }

  /** The plan under the lock, whatever the files have become since it was made; the lock is released if it was taken. */
  method Apply(fs: FileSystem, ps: seq<PlannedFile>, faults: Faults) returns (status: Status)
    requires DistinctPaths(ps)
    modifies fs
    ensures fs.locked == old(fs.locked)
    ensures old(fs.locked) ==> status == Blocked && fs.files == old(fs.files)
    ensures !old(fs.locked) && !Starts(old(fs.files), ps, faults) ==> status == RolledBack && fs.files == old(fs.files)
    ensures !old(fs.locked) && Starts(old(fs.files), ps, faults) ==> Ends(old(fs.files), ps, faults, status, fs.files)
  {
    if fs.locked {
      return Blocked;
    }
    fs.locked := true;
    ghost var was := fs.files;
    if !Unchanged(fs.files, ps) || faults.backupFails {
      fs.locked := false;
      return RolledBack;
    }
    var written := Forward(fs, ps, faults.write);
    if written == |ps| {
      fs.locked := false;
      return Applied;
    }
    ghost var base := Remainder(was, ps, faults);
    if faults.write(written).FailedAfter? {
      StrayWrite(was, ps, written, ps[written].path, Regular(ps[written].after));
    }
    RemainderKeepsWritten(was, ps, faults);
    var undone, left := Backward(fs, ps, written, faults.undo, base);
    fs.locked := false;
    status := if undone then RolledBack else Blocked;
    RemainderIsOldOrNew(was, ps, faults);
    OverlayIsOldOrNew(was, base, ps, left);
    RolledBackIff(was, ps, faults);
  }

  /** Plans, and with `apply` carries the plan out; every other outcome leaves the files alone. */
  method Run(fs: FileSystem, cs: seq<Candidate>, codec: Codec, apply: bool, faults: Faults) returns (status: Status)
    requires Settling(cs)
    modifies fs
    ensures fs.locked == old(fs.locked)
    ensures var plan := PlanAll(old(fs.files), cs, codec);
            if plan.Rejected? then status == Blocked && fs.files == old(fs.files)
            else if plan.files == [] then status == Noop && fs.files == old(fs.files)
            else if !apply then status == PlannedOnly && fs.files == old(fs.files)
            else if old(fs.locked) then status == Blocked && fs.files == old(fs.files)
            else if !Starts(old(fs.files), plan.files, faults) then status == RolledBack && fs.files == old(fs.files)
            else Ends(old(fs.files), plan.files, faults, status, fs.files)
    ensures RoundTrips(codec) && IgnoresNewline(codec) && Preserving(cs) && status == Applied ==>
              forall p :: p in PlanAll(old(fs.files), cs, codec).files ==>
                            p.path in fs.files && fs.files[p.path] == Regular(p.after) && FileKeepsData(p, codec)
  {
    var plan := PlanMigrations(fs.files, cs, codec);
    if plan.Rejected? {
      return Blocked;
    }
    PlanIsSound(fs.files, cs, codec);
    if plan.files == [] {
      return Noop;
    }
    if !apply {
      return PlannedOnly;
    }
    ghost var was := fs.files;
    status := Apply(fs, plan.files, faults);
    if RoundTrips(codec) && IgnoresNewline(codec) && Preserving(cs) && status == Applied {
      PlanKeepsData(was, cs, codec);
      OverlayAt(was, plan.files, |plan.files|);
    }
  }

  // ---------------------------------------------------------------- running again

  lemma PlanOneSettled(files: Files, after: Files, c: Candidate, codec: Codec)
    requires RoundTrips(codec) && forall v, w :: c.migrate(v) == To(w) ==> c.migrate(w) == UpToDate
    requires IgnoresNewline(codec)
    requires PlanOne(files, c, codec).Planned?
    requires var p := PlanOne(files, c, codec).files;
             if p == [] then (c.path in after <==> c.path in files) && (c.path in files ==> after[c.path] == files[c.path])
             else c.path in after && after[c.path] == Regular(p[0].after)
    ensures PlanOne(after, c, codec) == Planned([])
  {
  }

  /** After a plan was applied, planning again finds nothing to do. */
  lemma {:induction false} AppliedThenNoop(files: Files, cs: seq<Candidate>, codec: Codec, after: Files)
    requires RoundTrips(codec) && Settling(cs)
    requires IgnoresNewline(codec)
    requires PlanAll(files, cs, codec).Planned?
    requires var ps := PlanAll(files, cs, codec).files;
             (forall i :: 0 <= i < |ps| ==> ps[i].path in after && after[ps[i].path] == Regular(ps[i].after))
             && forall k :: 0 <= k < |cs| && (forall i :: 0 <= i < |ps| ==> ps[i].path != cs[k].path) ==>
                  (cs[k].path in after <==> cs[k].path in files) && (cs[k].path in files ==> after[cs[k].path] == files[cs[k].path])
    ensures PlanAll(after, cs, codec) == Planned([])
  {
    if cs != [] {
      var rest, c := cs[..|cs| - 1], cs[|cs| - 1];
      var ps, p := PlanAll(files, rest, codec).files, PlanOne(files, c, codec).files;
      assert PlanAll(files, cs, codec).files == ps + p;
      PlanIsSound(files, rest, codec);
      forall i | 0 <= i < |ps| ensures ps[i].path in after && after[ps[i].path] == Regular(ps[i].after) && ps[i].path != c.path {
        assert (ps + p)[i] == ps[i];
        var k :| 0 <= k < |rest| && rest[k].path == ps[i].path;
        assert cs[k].path == ps[i].path;
      }
      if p != [] {
        assert (ps + p)[|ps|] == p[0];
      }
      AppliedThenNoop(files, rest, codec, after);
      PlanOneSettled(files, after, c, codec);
    }
  }

  /** So a second run of a migration that was applied does nothing. */
  lemma SecondRunIsNoop(files: Files, cs: seq<Candidate>, codec: Codec)
    requires RoundTrips(codec) && Settling(cs)
    requires IgnoresNewline(codec)
    requires PlanAll(files, cs, codec).Planned?
    ensures var ps := PlanAll(files, cs, codec).files;
            PlanAll(Overlay(files, ps, |ps|), cs, codec) == Planned([])
  {
    var ps := PlanAll(files, cs, codec).files;
    PlanIsSound(files, cs, codec);
    OverlayAt(files, ps, |ps|);
    AppliedThenNoop(files, cs, codec, Overlay(files, ps, |ps|));
  }
}
