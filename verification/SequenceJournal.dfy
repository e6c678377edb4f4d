/**
  The worker's journal of one session as a value: the files on disk, what the process remembers,
  and the numbers issued so far. Crashes may happen between any two effects.
 */
module SequenceJournal {
  import opened Prelude
  import opened LineFile

  datatype Kind = Transient | Logged | Snapshot

  datatype Envelope = Envelope(seqNo: nat, kind: Kind, correlationId: Option<string>, body: string)

  /** The journal file, and the reserved limit of the reservation file. */
  datatype Disk = Disk(file: File<Envelope>, reserved: Option<nat>)

  /** `issued` is the history of all envelopes that were given a number. */
  datatype Journal = Journal(disk: Disk, last: Option<nat>, limit: Option<nat>, issued: seq<Envelope>)

  const RESERVATION := 10_000
  const MAX_SAFE_INTEGER := 9_007_199_254_740_991

  // ---------------------------------------------------------------- files

  function Read(disk: Disk): seq<Envelope> {
    ReadAll(disk.file)
  }

  function Persisted(disk: Disk): nat {
    var es := Read(disk);
    if es == [] then 0 else es[|es| - 1].seqNo
  }

  /** A reserved limit that is not a safe integer reads as zero. */
  function ReadReservation(disk: Disk): nat {
    if disk.reserved.Some? && disk.reserved.value <= MAX_SAFE_INTEGER then disk.reserved.value else 0
  }

  // ---------------------------------------------------------------- operations

  function Baseline(disk: Disk): nat {
    Max(Persisted(disk), ReadReservation(disk))
  }

  function Reserve(j: Journal, after: nat): Journal {
    j.(disk := j.disk.(reserved := Some(after + RESERVATION)), limit := Some(after + RESERVATION))
  }

  /** The number from which the next one counts, once loaded. */
  function Current(j: Journal): nat {
    if j.last.Some? then j.last.value else Baseline(j.disk)
  }

  function Loaded(j: Journal): (r: Journal)
    ensures r.last == Some(Current(j))
  {
    if j.last.Some? then j else Reserve(j.(last := Some(Baseline(j.disk))), Baseline(j.disk))
  }

  /** Loading when the reservation could not be written: the number is remembered, the limit is not. */
  function LoadedUnreserved(j: Journal): Journal {
    if j.last.Some? then j else j.(last := Some(Baseline(j.disk)))
  }

  function WithRange(j: Journal): (r: Journal)
    requires j.last.Some?
    ensures r.last == j.last
  {
    var limit := if j.limit.Some? then j.limit.value else j.last.value;
    if j.last.value + 1 > limit then Reserve(j, j.last.value) else j
  }

  function Issue(j: Journal, kind: Kind, correlationId: Option<string>, body: string): (r: Journal)
    requires j.last.Some?
    ensures r.issued != []
  {
    var e := Envelope(j.last.value + 1, kind, correlationId, body);
    j.(last := Some(e.seqNo), issued := j.issued + [e])
  }

  function Write(disk: Disk, e: Envelope): Disk {
    match e.kind
    case Transient => disk
    case Logged => disk.(file := AppendTo(disk.file, e))
    case Snapshot => disk.(file := Rewritten(e))
  }

  function CutLine(disk: Disk, e: Envelope, complete: bool): Disk {
    disk.(file := TearAt(disk.file, e, complete))
  }

  function Numbered(j: Journal, kind: Kind, correlationId: Option<string>, body: string): (r: Journal)
    ensures r.issued != []
  {
    Issue(WithRange(Loaded(j)), kind, correlationId, body)
  }

  function Append(j: Journal, kind: Kind, correlationId: Option<string>, body: string): Journal {
    var r := Numbered(j, kind, correlationId, body);
    r.(disk := Write(r.disk, r.issued[|r.issued| - 1]))
  }

  /** A new process: only the files remain. */
  function Restart(j: Journal): Journal {
    j.(last := None, limit := None)
  }

  /** Where a crash cuts an append short. */
  datatype Cut = AfterLoading | AfterReserving | AfterNumbering | InsideLine(complete: bool)

  function CutAppend(j: Journal, kind: Kind, correlationId: Option<string>, body: string, cut: Cut): Journal {
    match cut
    case AfterLoading => Restart(Loaded(j))
    case AfterReserving => Restart(WithRange(Loaded(j)))
    case AfterNumbering => Restart(Numbered(j, kind, correlationId, body))
    case InsideLine(complete) =>
      var r := Numbered(j, kind, correlationId, body);
      Restart(if kind.Logged? then r.(disk := CutLine(r.disk, r.issued[|r.issued| - 1], complete)) else r)
  }

  /** The envelopes after a number: what a resuming client is sent. */
  function Replay(disk: Disk, afterSeq: int): seq<Envelope> {
    After(Read(disk), afterSeq)
  }

  function After(es: seq<Envelope>, afterSeq: int): seq<Envelope> {
    if es == [] then []
    else After(es[..|es| - 1], afterSeq) + if es[|es| - 1].seqNo > afterSeq then [es[|es| - 1]] else []
  }

  // ---------------------------------------------------------------- invariant

  ghost predicate Increasing(es: seq<Envelope>) {
    forall i, j :: 0 <= i < j < |es| ==> es[i].seqNo < es[j].seqNo
  }

  ghost predicate BoundedBy(es: seq<Envelope>, n: nat) {
    forall i :: 0 <= i < |es| ==> es[i].seqNo <= n
  }

  /** The durable reservation bounds every number issued, and memory agrees with it. */
  ghost predicate Guarded(j: Journal) {
    && Increasing(j.issued)
    && (j.issued != [] ==> j.disk.reserved.Some? && BoundedBy(j.issued, j.disk.reserved.value))
    && (j.last.Some? ==> BoundedBy(j.issued, j.last.value))
    && (j.limit.Some? ==> j.last.Some? && j.disk.reserved == j.limit && j.last.value <= j.limit.value)
  }

  /** What is read back was issued, and comes in the order of its numbers. */
  ghost predicate Faithful(j: Journal) {
    Increasing(Read(j.disk)) && forall e :: e in Read(j.disk) ==> e in j.issued
  }

  /** The reservation is a number the program can read back. */
  ghost predicate Readable(j: Journal) {
    j.disk.reserved.Some? ==> j.disk.reserved.value <= MAX_SAFE_INTEGER
  }

  ghost predicate Safe(j: Journal) {
    Guarded(j) && Faithful(j) && Readable(j)
  }

  /** What keeps the reservation readable: far fewer numbers than safe integers. */
  predicate HasRoom(j: Journal) {
    Current(j) + RESERVATION <= MAX_SAFE_INTEGER
  }

  lemma EmptyIsSafe()
    ensures Safe(Journal(Disk(File([], Clean), None), None, None, []))
  {
  }

  lemma FaithfulFor(disk: Disk, issued: seq<Envelope>, more: seq<Envelope>)
    requires forall e :: e in Read(disk) ==> e in issued
    ensures forall e :: e in Read(disk) ==> e in issued + more
  {
  }

  lemma LoadKeeps(j: Journal)
    requires Guarded(j) && Readable(j) && HasRoom(j)
    ensures var r := Loaded(j);
            Guarded(r) && Readable(r) && BoundedBy(j.issued, Current(j)) && r.issued == j.issued
            && r.disk == j.disk.(reserved := r.disk.reserved)
  {
  }

  lemma RangeKeeps(j: Journal)
    requires Guarded(j) && Readable(j) && j.last.Some? && HasRoom(j)
    ensures var r := WithRange(j);
            Guarded(r) && Readable(r) && r.issued == j.issued && r.disk == j.disk.(reserved := r.disk.reserved)
            && r.limit.Some? && r.last.value < r.limit.value
  {
  }

  lemma IssueKeeps(j: Journal, kind: Kind, correlationId: Option<string>, body: string)
    requires Guarded(j) && Readable(j) && j.limit.Some? && j.last.value < j.limit.value
    ensures var r := Issue(j, kind, correlationId, body);
            Guarded(r) && Readable(r) && r.disk == j.disk
  {
  }

  /** A number is taken only below the durable limit, and it exceeds every number taken before. */
  lemma NumberingKeeps(j: Journal, kind: Kind, correlationId: Option<string>, body: string)
    requires Guarded(j) && Readable(j) && HasRoom(j)
    ensures var r := Numbered(j, kind, correlationId, body);
            Guarded(r) && Readable(r) && r.disk == j.disk.(reserved := r.disk.reserved)
            && r.issued == j.issued + [Envelope(Current(j) + 1, kind, correlationId, body)]
            && BoundedBy(j.issued, Current(j))
  {
    LoadKeeps(j);
    RangeKeeps(Loaded(j));
    IssueKeeps(WithRange(Loaded(j)), kind, correlationId, body);
  }

  lemma ReadIgnoresReservation(disk: Disk, reserved: Option<nat>)
    ensures Read(disk.(reserved := reserved)) == Read(disk)
  {
  }

  lemma FaithfulSteps(es: seq<Envelope>, e: Envelope, issued: seq<Envelope>, kept: nat)
    requires Increasing(es) && (forall x :: x in es ==> x in issued) && kept <= |es|
    requires forall x :: x in issued ==> x.seqNo < e.seqNo
    ensures Increasing(es[..kept] + [e]) && Increasing(es[..kept])
    ensures forall x :: x in es[..kept] + [e] ==> x in issued + [e]
    ensures forall x :: x in es[..kept] ==> x in issued + [e]
  {
    forall i, k | 0 <= i < k < |es[..kept] + [e]| ensures (es[..kept] + [e])[i].seqNo < (es[..kept] + [e])[k].seqNo {
      assert es[i] in es;
    }
  }

  /** What a write leaves to be read: all of it, or what precedes an unfinished line, or nothing, and perhaps the new one. */
  ghost predicate Grows(es: seq<Envelope>, e: Envelope, r: seq<Envelope>) {
    exists kept :: 0 <= kept <= |es| && (r == es[..kept] || r == es[..kept] + [e])
  }

  lemma GrownIsFaithful(es: seq<Envelope>, issued: seq<Envelope>, e: Envelope, r: seq<Envelope>)
    requires Increasing(es) && (forall x :: x in es ==> x in issued) && (forall x :: x in issued ==> x.seqNo < e.seqNo)
    requires Grows(es, e, r)
    ensures Increasing(r) && forall x :: x in r ==> x in issued + [e]
  {
    var kept :| 0 <= kept <= |es| && (r == es[..kept] || r == es[..kept] + [e]);
    FaithfulSteps(es, e, issued, kept);
  }

  /** However far the write of a new envelope got, what is read back is a prefix, and perhaps the new envelope. */
  lemma WriteGrows(disk: Disk, e: Envelope, complete: bool)
    ensures Grows(Read(disk), e, Read(Write(disk, e))) && Grows(Read(disk), e, Read(CutLine(disk, e, complete)))
  {
    var es, kept := Read(disk), |Items(disk.file.lines)|;
    ReadAppended(disk.file, e);
    assert es[..kept] == Items(disk.file.lines) && es[..|es|] == es && es[..0] + [e] == [e];
  }

  // ---------------------------------------------------------------- runs

  datatype Step =
    | DoAppend(kind: Kind, correlationId: Option<string>, body: string)
    | DoCutAppend(kind: Kind, correlationId: Option<string>, body: string, cut: Cut)
    | DoLoad
    | DoLoadUnreserved
    | DoRestart

  function Next(j: Journal, step: Step): Journal {
    match step
    case DoAppend(kind, id, body) => Append(j, kind, id, body)
    case DoCutAppend(kind, id, body, cut) => CutAppend(j, kind, id, body, cut)
    case DoLoad => Loaded(j)
    case DoLoadUnreserved => LoadedUnreserved(j)
    case DoRestart => Restart(j)
  }

  function Run(j: Journal, steps: seq<Step>): Journal
    decreases |steps|
  {
    if steps == [] then j else Run(Next(j, steps[0]), steps[1..])
  }

  predicate RoomyRun(j: Journal, steps: seq<Step>)
    decreases |steps|
  {
    steps != [] ==> HasRoom(j) && RoomyRun(Next(j, steps[0]), steps[1..])
  }

  lemma AppendKeeps(j: Journal, kind: Kind, correlationId: Option<string>, body: string)
    requires Safe(j) && HasRoom(j)
    ensures Safe(Append(j, kind, correlationId, body))
    ensures Append(j, kind, correlationId, body).issued == j.issued + [Envelope(Current(j) + 1, kind, correlationId, body)]
  {
    var r, e := Numbered(j, kind, correlationId, body), Envelope(Current(j) + 1, kind, correlationId, body);
    NumberingKeeps(j, kind, correlationId, body);
    ReadIgnoresReservation(j.disk, r.disk.reserved);
    WriteGrows(r.disk, e, true);
    GrownIsFaithful(Read(r.disk), j.issued, e, Read(Write(r.disk, e)));
  }

  lemma CutAppendKeeps(j: Journal, kind: Kind, correlationId: Option<string>, body: string, cut: Cut)
    requires Safe(j) && HasRoom(j)
    ensures Safe(CutAppend(j, kind, correlationId, body, cut)) && j.issued <= CutAppend(j, kind, correlationId, body, cut).issued
  {
    var r, e := Numbered(j, kind, correlationId, body), Envelope(Current(j) + 1, kind, correlationId, body);
    NumberingKeeps(j, kind, correlationId, body);
    ReadIgnoresReservation(j.disk, r.disk.reserved);
    LoadKeeps(j);
    RangeKeeps(Loaded(j));
    ReadIgnoresReservation(j.disk, Loaded(j).disk.reserved);
    ReadIgnoresReservation(j.disk, WithRange(Loaded(j)).disk.reserved);
    match cut
    case InsideLine(complete) =>
      WriteGrows(r.disk, e, complete);
      GrownIsFaithful(Read(r.disk), j.issued, e, Read(CutLine(r.disk, e, complete)));
      FaithfulFor(r.disk, j.issued, [e]);
    case _ => FaithfulFor(r.disk, j.issued, [e]);
  }

  /**
    What a crash leaves of an append: the number is spent once it was taken, nothing is left in
    memory, and of a line cut short only one that lacks no more than its newline can be read,
    unless it was glued to an unfinished one.
   */
  lemma CutAppendLeaves(j: Journal, kind: Kind, correlationId: Option<string>, body: string, cut: Cut)
    requires Safe(j) && HasRoom(j)
    ensures var r, e := CutAppend(j, kind, correlationId, body, cut), Envelope(Current(j) + 1, kind, correlationId, body);
            && r.last.None? && r.limit.None?
            && r.issued == (if cut.AfterLoading? || cut.AfterReserving? then j.issued else j.issued + [e])
            && Read(r.disk) == if cut.InsideLine? && kind.Logged?
                               then Items(j.disk.file.lines) + (if cut.complete && j.disk.file.tail.Clean? then [e] else [])
                               else Read(j.disk)
  {
    var r, e := Numbered(j, kind, correlationId, body), Envelope(Current(j) + 1, kind, correlationId, body);
    NumberingKeeps(j, kind, correlationId, body);
    ReadAppended(j.disk.file, e);
    assert Items(j.disk.file.lines) + [] == Items(j.disk.file.lines);
  }

  lemma NextKeeps(j: Journal, step: Step)
    requires Safe(j) && HasRoom(j)
    ensures Safe(Next(j, step)) && j.issued <= Next(j, step).issued
  {
    match step
    case DoAppend(kind, id, body) => AppendKeeps(j, kind, id, body);
    case DoCutAppend(kind, id, body, cut) =>
      CutAppendKeeps(j, kind, id, body, cut);
    case DoLoad =>
      LoadKeeps(j);
      ReadIgnoresReservation(j.disk, Loaded(j).disk.reserved);
    case DoLoadUnreserved => LoadKeeps(j);
    case DoRestart =>
  }

  /**
    No number is ever issued twice: over any run of appends, crashes at any point, restarts and
    loads, the numbers issued are strictly increasing, and what is read back is in order.
   */
  lemma {:induction false} RunIssuesIncreasing(j: Journal, steps: seq<Step>)
    requires Safe(j) && RoomyRun(j, steps)
    ensures Safe(Run(j, steps)) && j.issued <= Run(j, steps).issued
    decreases |steps|
  {
    if steps != [] {
      NextKeeps(j, steps[0]);
      RunIssuesIncreasing(Next(j, steps[0]), steps[1..]);
    }
  }

  /**
    Without room the promise can fail: a reservation too large to be read back counts as none.
    A restart then goes on safely exactly when the last number issued was also persisted.
   */
  lemma RestartIsSafeIff(j: Journal)
    requires Guarded(j) && Faithful(j) && j.issued != []
    ensures (forall e :: e in j.issued ==> e.seqNo < Current(Restart(j)) + 1)
            <==> j.disk.reserved.value <= MAX_SAFE_INTEGER || Persisted(j.disk) == j.issued[|j.issued| - 1].seqNo
  {
    var newest := j.issued[|j.issued| - 1];
    assert newest in j.issued;
    var read := Read(j.disk);
    if read != [] {
      assert read[|read| - 1] in j.issued;
      var i :| 0 <= i < |j.issued| && j.issued[i] == read[|read| - 1];
    }
    if j.disk.reserved.value > MAX_SAFE_INTEGER && Persisted(j.disk) != newest.seqNo {
      assert Current(Restart(j)) < newest.seqNo;
    }
  }

  /** Whatever became of the reservation, a new process counts on from the last number in the file, or above it. */
  lemma FileBoundsNumbers(j: Journal, kind: Kind, correlationId: Option<string>, body: string)
    requires Increasing(Read(j.disk)) && j.last.None?
    ensures var issued := Append(j, kind, correlationId, body).issued;
            forall e :: e in Read(j.disk) ==> e.seqNo < issued[|issued| - 1].seqNo
    ensures j.disk.reserved.None? ==> Current(j) == 0 || exists e :: e in Read(j.disk) && e.seqNo == Current(j)
  {
    var es := Read(j.disk);
    if es != [] {
      assert es[|es| - 1] in es;
      forall e | e in es ensures e.seqNo <= Persisted(j.disk) {
        var i :| 0 <= i < |es| && es[i] == e;
      }
    }
  }

  /** Loading happens once: the number is then remembered, even where reserving the range failed. */
  lemma LoadsOnce(j: Journal)
    ensures Loaded(Loaded(j)) == Loaded(j) && Loaded(LoadedUnreserved(j)) == LoadedUnreserved(j)
    ensures Loaded(j).last == LoadedUnreserved(j).last && LoadedUnreserved(j).disk == j.disk && LoadedUnreserved(j).limit == j.limit
  {
  }

  /** It does fail: past the largest safe integer, a restart starts again from one. */
  lemma ReissueExample()
    ensures var j := Journal(Disk(File([], Clean), Some(MAX_SAFE_INTEGER)), Some(MAX_SAFE_INTEGER), Some(MAX_SAFE_INTEGER),
                             [Envelope(1, Transient, None, "")]);
            Safe(j)
            && var r := Append(Restart(Append(j, Transient, None, "")), Transient, None, "");
               r.issued[0].seqNo == r.issued[2].seqNo
  {
    assert Read(Disk(File([], Clean), Some(MAX_SAFE_INTEGER))) == [];
  }

  // ---------------------------------------------------------------- replay

  lemma {:induction false} AfterIsFilter(es: seq<Envelope>, afterSeq: int)
    requires Increasing(es)
    ensures forall e :: e in After(es, afterSeq) <==> e in es && e.seqNo > afterSeq
    ensures Increasing(After(es, afterSeq))
  {
    if es != [] {
      var rest, last := es[..|es| - 1], es[|es| - 1];
      AfterIsFilter(rest, afterSeq);
      assert es == rest + [last];
      var kept := After(rest, afterSeq);
      forall i | 0 <= i < |kept| ensures kept[i].seqNo < last.seqNo {
        assert kept[i] in rest;
      }
    }
  }

  /** A replay sends, in increasing order, issued envelopes only, and all those kept that the client lacks. */
  lemma ReplayIsOrdered(j: Journal, afterSeq: int)
    requires Safe(j)
    ensures Increasing(Replay(j.disk, afterSeq))
    ensures forall e :: e in Replay(j.disk, afterSeq) <==> e in Read(j.disk) && e.seqNo > afterSeq
    ensures forall e :: e in Replay(j.disk, afterSeq) ==> e in j.issued
  {
    AfterIsFilter(Read(j.disk), afterSeq);
  }

  /** The last snapshot and the logged envelopes after it: what the file is meant to hold. */
  function Retained(issued: seq<Envelope>): seq<Envelope> {
    if issued == [] then []
    else
      var e := issued[|issued| - 1];
      match e.kind
      case Transient => Retained(issued[..|issued| - 1])
      case Logged => Retained(issued[..|issued| - 1]) + [e]
      case Snapshot => [e]
  }

  lemma WriteRetains(disk: Disk, issued: seq<Envelope>, e: Envelope)
    requires Read(disk) == Retained(issued) && disk.file.tail.Clean?
    ensures Read(Write(disk, e)) == Retained(issued + [e]) && Write(disk, e).file.tail.Clean?
  {
    assert (issued + [e])[..|issued|] == issued;
    ReadAppended(disk.file, e);
    match e.kind
    case Transient =>
    case Logged => assert ReadAll(disk.file) == Items(disk.file.lines);
    case Snapshot =>
  }

  /** As long as the file ends with a complete line, an append keeps exactly the retained envelopes in it. */
  lemma AppendRetains(j: Journal, kind: Kind, correlationId: Option<string>, body: string)
    requires Safe(j) && HasRoom(j) && Read(j.disk) == Retained(j.issued) && j.disk.file.tail.Clean?
    ensures var r := Append(j, kind, correlationId, body);
            Read(r.disk) == Retained(r.issued) && r.disk.file.tail.Clean?
  {
    var r := Numbered(j, kind, correlationId, body);
    NumberingKeeps(j, kind, correlationId, body);
    ReadIgnoresReservation(j.disk, r.disk.reserved);
    WriteRetains(r.disk, j.issued, r.issued[|j.issued|]);
  }

  /** A logged envelope can be replayed exactly when it was not glued to a line torn before it. */
  lemma LoggedIsKeptIff(j: Journal, correlationId: Option<string>, body: string)
    requires Safe(j) && HasRoom(j)
    ensures var r := Append(j, Logged, correlationId, body);
            r.issued[|r.issued| - 1] in Read(r.disk) <==> j.disk.file.tail.Clean?
  {
    var r, e := Numbered(j, Logged, correlationId, body), Envelope(Current(j) + 1, Logged, correlationId, body);
    NumberingKeeps(j, Logged, correlationId, body);
    ReadAppended(r.disk.file, e);
    assert forall x :: x in Items(j.disk.file.lines) ==> x in Read(j.disk);
  }

  /** A snapshot repairs the file: after it, the file holds exactly the snapshot. */
  lemma SnapshotRepairs(j: Journal, correlationId: Option<string>, body: string)
    requires Safe(j) && HasRoom(j)
    ensures var r := Append(j, Snapshot, correlationId, body);
            Read(r.disk) == [r.issued[|r.issued| - 1]] == Retained(r.issued) && r.disk.file.tail.Clean?
  {
    NumberingKeeps(j, Snapshot, correlationId, body);
    ReadAppended(Numbered(j, Snapshot, correlationId, body).disk.file, Envelope(Current(j) + 1, Snapshot, correlationId, body));
  }
}
