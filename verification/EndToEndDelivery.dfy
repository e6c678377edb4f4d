/**
  Worker and client together, for one session: the worker issues envelopes, crashes and restarts;
  any issued envelope may reach the client at any time and any number of times, live or replayed;
  the client may select the session again or be reloaded.
 */
module EndToEndDelivery {
  import opened Prelude
  import opened LineFile
  import J = SequenceJournal
  import C = ClientCursor

  datatype System = System(journal: J.Journal, cursor: C.Cursor)

  datatype Step =
    | Worker(step: J.Step)
    | Deliver(i: nat)
    | Select
    | ReloadPage

  function Transmitted(key: C.SessionKey, e: J.Envelope): C.Arrival {
    C.Arrival(Some(key), false, e.seqNo, e.body)
  }

  function Next(s: System, key: C.SessionKey, step: Step): System {
    match step
    case Worker(w) => s.(journal := J.Next(s.journal, w))
    case Deliver(i) =>
      if i < |s.journal.issued| then s.(cursor := C.Receive(s.cursor, Transmitted(key, s.journal.issued[i]))) else s
    case Select => s.(cursor := C.Activate(s.cursor, key))
    case ReloadPage => s.(cursor := C.Reload(s.cursor))
  }

  function Run(s: System, key: C.SessionKey, steps: seq<Step>): System
    decreases |steps|
  {
    if steps == [] then s else Run(Next(s, key, steps[0]), key, steps[1..])
  }

  ghost predicate RoomyRun(s: System, key: C.SessionKey, steps: seq<Step>)
    decreases |steps|
  {
    steps != [] ==> (steps[0].Worker? ==> J.HasRoom(s.journal)) && RoomyRun(Next(s, key, steps[0]), key, steps[1..])
  }

  ghost predicate IsIssued(issued: seq<J.Envelope>, key: C.SessionKey, a: C.Arrival) {
    exists k :: 0 <= k < |issued| && a == Transmitted(key, issued[k])
  }

  ghost predicate AllIssued(issued: seq<J.Envelope>, key: C.SessionKey, es: seq<C.Arrival>) {
    forall i :: 0 <= i < |es| ==> IsIssued(issued, key, es[i])
  }

  /** All that arrived, and all that was delivered, was issued. */
  ghost predicate Genuine(s: System, key: C.SessionKey) {
    AllIssued(s.journal.issued, key, s.cursor.arrived) && AllIssued(s.journal.issued, key, s.cursor.delivered)
  }

  ghost predicate Positive(es: seq<J.Envelope>) {
    forall e :: e in es ==> e.seqNo > 0
  }

  ghost predicate Invariant(s: System, key: C.SessionKey) {
    J.Safe(s.journal) && Positive(s.journal.issued) && C.InSync(s.cursor) && C.Honest(s.cursor) && Genuine(s, key)
  }

  function Start(): System {
    System(J.Journal(J.Disk(File([], Clean), None), None, None, []), C.Cursor(map[], map[], [], []))
  }

  lemma ReloadKeeps(c: C.Cursor)
    requires C.Honest(c)
    ensures C.InSync(C.Reload(c)) && C.Honest(C.Reload(c))
  {
    var d := C.Reload(c);
    forall k ensures C.At(d.stored, k) > 0 ==> C.HasArrived(d, k, C.At(d.stored, k)) {
      assert C.HasArrived(d, k, C.At(c.stored, k)) <==> C.HasArrived(c, k, C.At(c.stored, k));
    }
  }

  lemma IssuedOnceMore(issued: seq<J.Envelope>, key: C.SessionKey, es: seq<C.Arrival>, i: nat)
    requires AllIssued(issued, key, es) && i < |issued|
    ensures AllIssued(issued, key, es + [Transmitted(key, issued[i])])
  {
    var r := es + [Transmitted(key, issued[i])];
    forall k | 0 <= k < |r| ensures IsIssued(issued, key, r[k]) {
      if k < |es| {
        assert r[k] == es[k];
      }
    }
  }

  lemma DeliverKeepsGenuine(s: System, key: C.SessionKey, i: nat)
    requires Genuine(s, key) && i < |s.journal.issued|
    ensures Genuine(Next(s, key, Deliver(i)), key)
  {
    IssuedOnceMore(s.journal.issued, key, s.cursor.arrived, i);
    IssuedOnceMore(s.journal.issued, key, s.cursor.delivered, i);
  }

  lemma NextKeeps(s: System, key: C.SessionKey, step: Step)
    requires Invariant(s, key) && (step.Worker? ==> J.HasRoom(s.journal))
    ensures Invariant(Next(s, key, step), key)
  {
    match step
    case Worker(w) =>
      J.NextKeeps(s.journal, w);
      WorkerIssuesPositive(s.journal, w);
      StillIssued(s.journal.issued, J.Next(s.journal, w).issued, key, s.cursor.arrived);
      StillIssued(s.journal.issued, J.Next(s.journal, w).issued, key, s.cursor.delivered);
    case Deliver(i) =>
      if i < |s.journal.issued| {
        C.ReceiveKeeps(s.cursor, Transmitted(key, s.journal.issued[i]));
        C.ReceiveHonest(s.cursor, Transmitted(key, s.journal.issued[i]));
        DeliverKeepsGenuine(s, key, i);
      }
    case Select =>
      SelectKeepsGenuine(s, key);
      C.ActivateKeeps(s.cursor, key);
      C.ActivateHonest(s.cursor, key);
    case ReloadPage => ReloadKeeps(s.cursor);
  }

  lemma SelectKeepsGenuine(s: System, key: C.SessionKey)
    requires Genuine(s, key)
    ensures Genuine(Next(s, key, Select), key)
  {
  }

  lemma StillIssued(was: seq<J.Envelope>, now: seq<J.Envelope>, key: C.SessionKey, es: seq<C.Arrival>)
    requires AllIssued(was, key, es) && was <= now
    ensures AllIssued(now, key, es)
  {
    forall k | 0 <= k < |es| ensures IsIssued(now, key, es[k]) {
      assert IsIssued(was, key, es[k]);
      var i :| 0 <= i < |was| && es[k] == Transmitted(key, was[i]);
      assert now[i] == was[i];
    }
  }

  lemma WorkerIssuesPositive(j: J.Journal, w: J.Step)
    requires Positive(j.issued)
    ensures Positive(J.Next(j, w).issued)
  {
  }

  /** The bodies of what is delivered are numbered upwards, whichever session they are taken to be of. */
  ghost predicate Ascending(es: seq<C.Arrival>) {
    forall i, j :: 0 <= i < j < |es| ==> es[i].seqNo < es[j].seqNo
  }

  lemma DeliversUpwards(s: System, key: C.SessionKey)
    requires Invariant(s, key)
    ensures Ascending(s.cursor.delivered)
  {
    var es := s.cursor.delivered;
    forall i, j | 0 <= i < j < |es| ensures es[i].seqNo < es[j].seqNo {
      assert IsIssued(s.journal.issued, key, es[i]) && IsIssued(s.journal.issued, key, es[j]);
      assert C.Of(es[i], key) && C.Of(es[j], key);
    }
  }

  /**
    Under any mix of live events, replays, reconnects, page reloads and worker crashes, each page
    delivers envelopes of the worker only, and in strictly increasing order, so none twice.
   */
  lemma {:induction false} RunKeeps(s: System, key: C.SessionKey, steps: seq<Step>)
    requires Invariant(s, key) && RoomyRun(s, key, steps)
    ensures var r := Run(s, key, steps);
            Invariant(r, key) && Ascending(r.cursor.delivered) && AllIssued(r.journal.issued, key, r.cursor.delivered)
    decreases |steps|
  {
    if steps == [] {
      DeliversUpwards(s, key);
    } else {
      NextKeeps(s, key, steps[0]);
      RunKeeps(Next(s, key, steps[0]), key, steps[1..]);
    }
  }

  /** The steps of the worker in a run of the system. */
  function Work(steps: seq<Step>): seq<J.Step> {
    if steps == [] then [] else (if steps[0].Worker? then [steps[0].step] else []) + Work(steps[1..])
  }

  /** The envelopes that reach the client: at each delivery, what the worker has by then issued. */
  function Reached(j: J.Journal, key: C.SessionKey, steps: seq<Step>): seq<C.Arrival>
    decreases |steps|
  {
    if steps == [] then []
    else
      match steps[0]
      case Worker(w) => Reached(J.Next(j, w), key, steps[1..])
      case Deliver(i) => (if i < |j.issued| then [Transmitted(key, j.issued[i])] else []) + Reached(j, key, steps[1..])
      case _ => Reached(j, key, steps[1..])
  }

  /** The worker goes its own way, whatever the client does, and every delivery reaches the client. */
  lemma {:induction false} RunProjects(s: System, key: C.SessionKey, steps: seq<Step>)
    ensures Run(s, key, steps).journal == J.Run(s.journal, Work(steps))
    ensures Run(s, key, steps).cursor.arrived == s.cursor.arrived + Reached(s.journal, key, steps)
    decreases |steps|
  {
    if steps != [] {
      var u := Next(s, key, steps[0]);
      RunProjects(u, key, steps[1..]);
      if steps[0].Worker? {
        assert Work(steps)[0] == steps[0].step && Work(steps)[1..] == Work(steps[1..]);
      } else {
        assert Work(steps) == Work(steps[1..]);
        Associative(s.cursor.arrived, Reached(s.journal, key, steps)[..|u.cursor.arrived| - |s.cursor.arrived|],
                    Reached(s.journal, key, steps[1..]));
      }
    }
  }

  /**
    A page that was reloaded has delivered nothing and takes any envelope; once it has selected the
    session, it takes exactly those above the stored cursor. What it takes before that moves the
    stored cursor, if need be backwards.
   */
  lemma ReloadedPage(s: System, key: C.SessionKey, i: nat)
    requires Invariant(s, key) && i < |s.journal.issued|
    ensures var e := Transmitted(key, s.journal.issued[i]);
            var reloaded := Next(s, key, ReloadPage);
            && Next(reloaded, key, Deliver(i)).cursor.delivered == [e]
            && C.At(Next(reloaded, key, Deliver(i)).cursor.stored, key) == e.seqNo
            && Next(Next(reloaded, key, Select), key, Deliver(i)).cursor.delivered
               == if e.seqNo > C.At(s.cursor.stored, key) then [e] else []
  {
    assert s.journal.issued[i] in s.journal.issued;
    assert C.Counted(Transmitted(key, s.journal.issued[i]));
  }

  lemma StartKeeps(key: C.SessionKey)
    ensures Invariant(Start(), key)
  {
    J.EmptyIsSafe();
  }

  /** An envelope that arrives before it, or any later-issued one, has arrived is never suppressed. */
  lemma FirstArrivalIsDelivered(key: C.SessionKey, steps: seq<Step>, i: nat)
    requires RoomyRun(Start(), key, steps)
    requires var s := Run(Start(), key, steps);
             i < |s.journal.issued|
             && forall k :: i <= k < |s.journal.issued| ==> Transmitted(key, s.journal.issued[k]) !in s.cursor.arrived
    ensures var s := Run(Start(), key, steps);
            var u := Next(s, key, Deliver(i));
            u.cursor.delivered == s.cursor.delivered + [Transmitted(key, s.journal.issued[i])]
  {
    StartKeeps(key);
    RunKeeps(Start(), key, steps);
    var s := Run(Start(), key, steps);
    var e := Transmitted(key, s.journal.issued[i]);
    if C.Suppressed(s.cursor, e) {
      C.SuppressedOnlyIfArrived(s.cursor, e);
      LaterArrived(s, key, i);
    }
  }

  lemma LaterArrived(s: System, key: C.SessionKey, i: nat)
    requires J.Increasing(s.journal.issued) && Genuine(s, key) && i < |s.journal.issued|
    requires C.HasArrived(s.cursor, key, s.journal.issued[i].seqNo)
    ensures exists k :: i <= k < |s.journal.issued| && Transmitted(key, s.journal.issued[k]) in s.cursor.arrived
  {
    var n :| 0 <= n < |s.cursor.arrived| && C.Of(s.cursor.arrived[n], key) && s.cursor.arrived[n].seqNo >= s.journal.issued[i].seqNo;
    assert IsIssued(s.journal.issued, key, s.cursor.arrived[n]);
    var k :| 0 <= k < |s.journal.issued| && s.cursor.arrived[n] == Transmitted(key, s.journal.issued[k]);
    assert s.journal.issued[k].seqNo >= s.journal.issued[i].seqNo;
  }

  /** So the snapshot that answers a resume is delivered, unless something issued after it overtakes it. */
  lemma ResumeSnapshotIsDelivered(s: System, key: C.SessionKey, correlationId: Option<string>, body: string)
    requires Invariant(s, key) && J.HasRoom(s.journal)
    ensures var issued := J.Append(s.journal, J.Snapshot, correlationId, body).issued;
            issued != []
            && var a := Transmitted(key, issued[|issued| - 1]);
               C.Receive(s.cursor, a).delivered == s.cursor.delivered + [a]
  {
    SnapshotIsNewest(s.journal, correlationId, body);
    var issued := J.Append(s.journal, J.Snapshot, correlationId, body).issued;
    FreshIsDelivered(s, key, issued[|issued| - 1]);
  }

  lemma SnapshotIsNewest(j: J.Journal, correlationId: Option<string>, body: string)
    requires J.Safe(j) && J.HasRoom(j)
    ensures var r := J.Append(j, J.Snapshot, correlationId, body);
            r.issued != [] && forall e :: e in j.issued ==> e.seqNo < r.issued[|r.issued| - 1].seqNo
  {
    J.AppendKeeps(j, J.Snapshot, correlationId, body);
    J.NumberingKeeps(j, J.Snapshot, correlationId, body);
  }

  lemma FreshIsDelivered(s: System, key: C.SessionKey, e: J.Envelope)
    requires C.Honest(s.cursor) && Genuine(s, key) && forall x :: x in s.journal.issued ==> x.seqNo < e.seqNo
    ensures C.Receive(s.cursor, Transmitted(key, e)).delivered == s.cursor.delivered + [Transmitted(key, e)]
  {
    NewerThanArrived(s, key, e.seqNo);
    if C.Suppressed(s.cursor, Transmitted(key, e)) {
      C.SuppressedOnlyIfArrived(s.cursor, Transmitted(key, e));
    }
  }

  lemma NewerThanArrived(s: System, key: C.SessionKey, n: nat)
    requires Genuine(s, key) && forall e :: e in s.journal.issued ==> e.seqNo < n
    ensures !C.HasArrived(s.cursor, key, n)
  {
    forall i | 0 <= i < |s.cursor.arrived| ensures s.cursor.arrived[i].seqNo < n {
      assert IsIssued(s.journal.issued, key, s.cursor.arrived[i]);
    }
  }
}
