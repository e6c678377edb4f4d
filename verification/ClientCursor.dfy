/** The web client's cursor: which envelopes it delivers, for one client object and its local storage. */
module ClientCursor {
  import opened Prelude

  datatype SessionKey = SessionKey(workspace: string, session: string)

  /** An envelope as it arrives; `key` is absent when it belongs to no session. */
  datatype Arrival = Arrival(key: Option<SessionKey>, fromGateway: bool, seqNo: nat, payload: string)

  /** `delivered` is what the listeners got from this object, `arrived` all that reached it, in order. */
  datatype Cursor = Cursor(
    handled: map<SessionKey, nat>,
    stored: map<SessionKey, nat>,
    delivered: seq<Arrival>,
    arrived: seq<Arrival>)

  /** Numbered envelopes of the worker; all others pass unchecked. */
  predicate Counted(e: Arrival) {
    e.key.Some? && !e.fromGateway && e.seqNo > 0
  }

  function At(seqs: map<SessionKey, nat>, key: SessionKey): nat {
    if key in seqs then seqs[key] else 0
  }

  predicate Suppressed(c: Cursor, e: Arrival) {
    Counted(e) && e.seqNo <= At(c.handled, e.key.value)
  }

  function Receive(c: Cursor, e: Arrival): Cursor {
    var d := c.(arrived := c.arrived + [e]);
    if Suppressed(c, e) then d
    else
      var f := d.(delivered := c.delivered + [e]);
      if Counted(e) then f.(handled := c.handled[e.key.value := e.seqNo], stored := c.stored[e.key.value := e.seqNo]) else f
  }

  function Activate(c: Cursor, key: SessionKey): Cursor {
    c.(handled := c.handled[key := At(c.stored, key)])
  }

  /** A new client object on the same storage. */
  function Reload(c: Cursor): Cursor {
    c.(handled := map[], delivered := [])
  }

  // ---------------------------------------------------------------- invariants

  predicate Of(e: Arrival, key: SessionKey) {
    Counted(e) && e.key.value == key
  }

  ghost predicate SeenBelow(es: seq<Arrival>, key: SessionKey, n: nat) {
    forall i :: 0 <= i < |es| && Of(es[i], key) ==> es[i].seqNo <= n
  }

  ghost predicate IncreasingPerSession(es: seq<Arrival>) {
    forall i, j, key :: 0 <= i < j < |es| && Of(es[i], key) && Of(es[j], key) ==> es[i].seqNo < es[j].seqNo
  }

  /** What is remembered was stored, and bounds what was delivered. */
  ghost predicate InSync(c: Cursor) {
    && (forall key :: key in c.handled ==> c.handled[key] == At(c.stored, key))
    && (forall key :: SeenBelow(c.delivered, key, At(c.handled, key)))
    && IncreasingPerSession(c.delivered)
  }

  lemma ReceiveKeeps(c: Cursor, e: Arrival)
    requires InSync(c)
    ensures InSync(Receive(c, e))
  {
    var d := Receive(c, e);
    if !Suppressed(c, e) {
      forall i, j, key | 0 <= i < j < |d.delivered| && Of(d.delivered[i], key) && Of(d.delivered[j], key)
        ensures d.delivered[i].seqNo < d.delivered[j].seqNo
      {
        assert SeenBelow(c.delivered, key, At(c.handled, key));
      }
      forall key ensures SeenBelow(d.delivered, key, At(d.handled, key)) {
        assert SeenBelow(c.delivered, key, At(c.handled, key));
      }
    }
  }

  lemma ActivateKeeps(c: Cursor, key: SessionKey)
    requires InSync(c)
    ensures key in c.handled ==> Activate(c, key) == c
    ensures InSync(Activate(c, key))
  {
    var d := Activate(c, key);
    forall k ensures SeenBelow(d.delivered, k, At(d.handled, k)) {
      assert SeenBelow(c.delivered, k, At(c.handled, k));
    }
    if key in c.handled {
      assert d.handled == c.handled;
    }
  }

  datatype Step = DoReceive(e: Arrival) | DoActivate(key: SessionKey)

  function Next(c: Cursor, step: Step): Cursor {
    match step
    case DoReceive(e) => Receive(c, e)
    case DoActivate(key) => Activate(c, key)
  }

  function Run(c: Cursor, steps: seq<Step>): Cursor
    decreases |steps|
  {
    if steps == [] then c else Run(Next(c, steps[0]), steps[1..])
  }

  lemma {:induction false} RunKeeps(c: Cursor, steps: seq<Step>)
    requires InSync(c)
    ensures InSync(Run(c, steps))
    decreases |steps|
  {
    if steps != [] {
      match steps[0] {
        case DoReceive(e) => ReceiveKeeps(c, e);
        case DoActivate(key) => ActivateKeeps(c, key);
      }
      RunKeeps(Next(c, steps[0]), steps[1..]);
    }
  }

  function Arrivals(steps: seq<Step>): seq<Arrival> {
    if steps == [] then [] else (if steps[0].DoReceive? then [steps[0].e] else []) + Arrivals(steps[1..])
  }

  /** Each arrival is looked at, in order. */
  lemma {:induction false} RunArrives(c: Cursor, steps: seq<Step>)
    ensures Run(c, steps).arrived == c.arrived + Arrivals(steps)
    decreases |steps|
  {
    if steps != [] {
      RunArrives(Next(c, steps[0]), steps[1..]);
      Associative(c.arrived, Arrivals(steps)[..|Arrivals(steps)| - |Arrivals(steps[1..])|], Arrivals(steps[1..]));
    }
  }

  /**
    One client object, whatever it finds in storage and whatever arrives in whatever order,
    delivers the numbered envelopes of each session in strictly increasing order, so none twice.
   */
  lemma DeliversInOrder(stored: map<SessionKey, nat>, arrived: seq<Arrival>, steps: seq<Step>)
    ensures IncreasingPerSession(Run(Cursor(map[], stored, [], arrived), steps).delivered)
    ensures Run(Cursor(map[], stored, [], arrived), steps).arrived == arrived + Arrivals(steps)
  {
    RunArrives(Cursor(map[], stored, [], arrived), steps);
    RunKeeps(Cursor(map[], stored, [], arrived), steps);
  }

  // ---------------------------------------------------------------- what is suppressed

  /** Some envelope of the session with at least this number has arrived. */
  ghost predicate HasArrived(c: Cursor, key: SessionKey, n: nat) {
    exists i :: 0 <= i < |c.arrived| && Of(c.arrived[i], key) && c.arrived[i].seqNo >= n
  }

  /** Cursors never run ahead of what has arrived. */
  ghost predicate Honest(c: Cursor) {
    forall key :: (At(c.handled, key) > 0 ==> HasArrived(c, key, At(c.handled, key)))
                  && (At(c.stored, key) > 0 ==> HasArrived(c, key, At(c.stored, key)))
  }

  lemma StillArrived(c: Cursor, e: Arrival, key: SessionKey, n: nat)
    ensures HasArrived(c, key, n) ==> HasArrived(Receive(c, e), key, n)
    ensures Of(e, key) ==> HasArrived(Receive(c, e), key, e.seqNo)
  {
    var d := Receive(c, e);
    assert d.arrived[|c.arrived|] == e;
    if HasArrived(c, key, n) {
      var i :| 0 <= i < |c.arrived| && Of(c.arrived[i], key) && c.arrived[i].seqNo >= n;
      assert d.arrived[i] == c.arrived[i];
    }
  }

  lemma ReceiveHonest(c: Cursor, e: Arrival)
    requires Honest(c)
    ensures Honest(Receive(c, e))
  {
    var d := Receive(c, e);
    forall key ensures At(d.handled, key) > 0 ==> HasArrived(d, key, At(d.handled, key)) {
      StillArrived(c, e, key, At(c.handled, key));
    }
    forall key ensures At(d.stored, key) > 0 ==> HasArrived(d, key, At(d.stored, key)) {
      StillArrived(c, e, key, At(c.stored, key));
    }
  }

  lemma ActivateHonest(c: Cursor, key: SessionKey)
    requires Honest(c)
    ensures Honest(Activate(c, key)) && Honest(Reload(c))
  {
    var d := Activate(c, key);
    forall k ensures At(d.handled, k) > 0 ==> HasArrived(d, k, At(d.handled, k)) {
      assert HasArrived(d, k, At(c.stored, key)) <==> HasArrived(c, k, At(c.stored, key));
      assert HasArrived(d, k, At(c.handled, k)) <==> HasArrived(c, k, At(c.handled, k));
    }
    forall k ensures At(d.stored, k) > 0 ==> HasArrived(d, k, At(d.stored, k)) {
      assert HasArrived(d, k, At(c.stored, k)) <==> HasArrived(c, k, At(c.stored, k));
    }
    forall k ensures At(Reload(c).stored, k) > 0 ==> HasArrived(Reload(c), k, At(c.stored, k)) {
      assert HasArrived(Reload(c), k, At(c.stored, k)) <==> HasArrived(c, k, At(c.stored, k));
    }
  }

  /** Even across reloads, an envelope is suppressed only when it, or one with a later number, has arrived before. */
  lemma SuppressedOnlyIfArrived(c: Cursor, e: Arrival)
    requires Honest(c) && Suppressed(c, e)
    ensures HasArrived(c, e.key.value, e.seqNo)
  {
    var i :| 0 <= i < |c.arrived| && Of(c.arrived[i], e.key.value) && c.arrived[i].seqNo >= At(c.handled, e.key.value);
  }

  /** Everything that arrived is at or below the cursor: true of one object that began on empty storage. */
  ghost predicate CaughtUp(c: Cursor) {
    forall key :: SeenBelow(c.arrived, key, At(c.handled, key))
  }

  ghost predicate StoredIsHandled(c: Cursor) {
    forall key :: key in c.stored ==> key in c.handled
  }

  lemma ReceiveCatchesUp(c: Cursor, e: Arrival)
    requires CaughtUp(c)
    ensures CaughtUp(Receive(c, e))
  {
    forall key ensures SeenBelow(Receive(c, e).arrived, key, At(Receive(c, e).handled, key)) {
      assert SeenBelow(c.arrived, key, At(c.handled, key));
    }
  }

  lemma ActivateCatchesUp(c: Cursor, key: SessionKey)
    requires InSync(c) && CaughtUp(c) && StoredIsHandled(c)
    ensures CaughtUp(Activate(c, key))
  {
    forall k ensures SeenBelow(c.arrived, k, At(Activate(c, key).handled, k)) {
      assert SeenBelow(c.arrived, k, At(c.handled, k));
    }
  }

  lemma {:induction false} RunCatchesUp(c: Cursor, steps: seq<Step>)
    requires InSync(c) && CaughtUp(c) && StoredIsHandled(c)
    ensures CaughtUp(Run(c, steps))
    decreases |steps|
  {
    if steps != [] {
      match steps[0] {
        case DoReceive(e) =>
          ReceiveKeeps(c, e);
          ReceiveCatchesUp(c, e);
        case DoActivate(key) =>
          ActivateKeeps(c, key);
          ActivateCatchesUp(c, key);
      }
      RunCatchesUp(Next(c, steps[0]), steps[1..]);
    }
  }

  lemma {:induction false} RunIsHonest(c: Cursor, steps: seq<Step>)
    requires Honest(c)
    ensures Honest(Run(c, steps))
    decreases |steps|
  {
    if steps != [] {
      match steps[0] {
        case DoReceive(e) => ReceiveHonest(c, e);
        case DoActivate(key) => ActivateHonest(c, key);
      }
      RunIsHonest(Next(c, steps[0]), steps[1..]);
    }
  }

  /**
    For a client object on empty storage: a numbered envelope is suppressed exactly when it, or
    one of its session with a later number, has arrived before.
   */
  lemma SuppressedIff(steps: seq<Step>, e: Arrival)
    requires Counted(e)
    ensures var c := Run(Cursor(map[], map[], [], []), steps);
            Suppressed(c, e) <==> HasArrived(c, e.key.value, e.seqNo)
  {
    var start := Cursor(map[], map[], [], []);
    RunCatchesUp(start, steps);
    RunIsHonest(start, steps);
    var c := Run(start, steps);
    if Suppressed(c, e) {
      SuppressedOnlyIfArrived(c, e);
    }
    assert SeenBelow(c.arrived, e.key.value, At(c.handled, e.key.value));
  }

  // ---------------------------------------------------------------- the client object

  class LocalStorage {
    var seqs: map<SessionKey, nat>

    constructor ()
      ensures seqs == map[]
    {
      seqs := map[];
    }
  }

  class CloudClient {
    const storage: LocalStorage
    var handledSeq: map<SessionKey, nat>
    var activeSession: Option<SessionKey>
    /** What the listeners got. */
    var delivered: seq<Arrival>
    ghost var arrived: seq<Arrival>

    ghost function State(): Cursor
      reads this, storage
    {
      Cursor(handledSeq, storage.seqs, delivered, arrived)
    }

    constructor (storage: LocalStorage)
      ensures this.storage == storage && State() == Cursor(map[], storage.seqs, [], []) && InSync(State())
    {
      this.storage := storage;
      handledSeq, activeSession, delivered, arrived := map[], None, [], [];
    }

    method SetActiveSession(key: SessionKey)
      modifies this`activeSession, this`handledSeq
      ensures State() == Activate(old(State()), key) && activeSession == Some(key)
    {
      activeSession := Some(key);
      handledSeq := handledSeq[key := if key in storage.seqs then storage.seqs[key] else 0];
    }

    method ClearActiveSession()
      modifies this`activeSession
      ensures activeSession == None
    {
      activeSession := None;
    }

    method ReceiveEvent(envelope: Arrival)
      modifies this`handledSeq, this`delivered, this`arrived, storage
      ensures State() == Receive(old(State()), envelope)
    {
      arrived := arrived + [envelope];
      if envelope.key.Some? && !envelope.fromGateway && envelope.seqNo > 0 {
        var key := envelope.key.value;
        var previous := if key in handledSeq then handledSeq[key] else 0;
        if envelope.seqNo <= previous {
          return;
        }
        handledSeq := handledSeq[key := envelope.seqNo];
        storage.seqs := storage.seqs[key := envelope.seqNo];
      }
      delivered := delivered + [envelope];
    }
  }
}
