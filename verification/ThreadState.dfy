/** Saving a thread and restoring it: what the saved state is, which states are accepted, and the round trip. */
module ThreadState {
  import opened Prelude
  import opened Tokens
  import opened ThreadModel
  import opened ThreadInvariant

  datatype SavedEntry = SavedEntry(
    turn: TurnId,
    kind: Kind,
    message: Message,
    elided: bool,
    iteration: Option<int>,
    toolSummary: Option<string>,
    originalTokens: Option<nat>)

  datatype SavedTurn = SavedTurn(id: TurnId, status: TurnStatus)

  datatype State = State(entries: seq<SavedEntry>, turns: seq<SavedTurn>, openTurnId: Option<TurnId>, currentIteration: real)

  function Export(t: Thread): State
    requires forall id :: id in t.order ==> id in t.turns
  {
    State(seq(|t.entries|, i requires 0 <= i < |t.entries| =>
            var e := t.entries[i];
            SavedEntry(e.turn, e.kind, e.message, e.elided, e.iteration, e.toolSummary, e.originalTokens)),
          seq(|t.order|, i requires 0 <= i < |t.order| => SavedTurn(t.order[i], t.turns[t.order[i]])),
          t.open, t.iteration as real)
  }

  function OpenTurns(turns: seq<SavedTurn>): seq<TurnId> {
    if turns == [] then []
    else OpenTurns(turns[..|turns| - 1]) + if turns[|turns| - 1].status.Open? then [turns[|turns| - 1].id] else []
  }

  predicate HasTurn(turns: seq<SavedTurn>, id: TurnId) {
    exists i :: 0 <= i < |turns| && turns[i].id == id
  }

  /** The checks the program makes of a saved state, types aside. */
  predicate IsState(s: State) {
    var open := OpenTurns(s.turns);
    && (s.openTurnId.Some? ==> HasTurn(s.turns, s.openTurnId.value))
    && |open| <= 1
    && (|open| == 1 ==> s.openTurnId == Some(open[0]))
    && (|open| == 0 ==> s.openTurnId == None)
    && forall i :: 0 <= i < |s.entries| ==>
         HasTurn(s.turns, s.entries[i].turn) && Compatible(s.entries[i].kind, s.entries[i].message)
  }

  ghost predicate OpenAt(turns: seq<SavedTurn>, i: int) {
    0 <= i < |turns| && turns[i].status.Open?
  }

  ghost predicate AtMostOneOpen(turns: seq<SavedTurn>) {
    forall i, j :: OpenAt(turns, i) && OpenAt(turns, j) ==> i == j
  }

  lemma {:induction false} OpenTurnsAre(turns: seq<SavedTurn>)
    ensures forall i :: OpenAt(turns, i) ==> turns[i].id in OpenTurns(turns)
    ensures forall id :: id in OpenTurns(turns) ==> exists i :: OpenAt(turns, i) && turns[i].id == id
    ensures |OpenTurns(turns)| <= 1 <==> AtMostOneOpen(turns)
  {
    if turns != [] {
      var last := |turns| - 1;
      var rest := turns[..last];
      OpenTurnsAre(rest);
      assert forall i :: i < last ==> (OpenAt(turns, i) <==> OpenAt(rest, i));
      forall id | id in OpenTurns(turns) ensures exists i :: OpenAt(turns, i) && turns[i].id == id {
        if id in OpenTurns(rest) {
          var i :| OpenAt(rest, i) && rest[i].id == id;
          assert OpenAt(turns, i);
        } else {
          assert OpenAt(turns, last);
        }
      }
      if OpenAt(turns, last) && OpenTurns(rest) != [] {
        assert OpenTurns(rest)[0] in OpenTurns(rest);
        var i :| OpenAt(rest, i) && rest[i].id == OpenTurns(rest)[0];
        assert OpenAt(turns, i) && i != last;
      }
    }
  }

  /**
    Exactly those states are accepted in which the open turn that is named is the one open turn
    there is, and every entry is of a turn listed and of a role that fits.
   */
  lemma AcceptedIff(s: State)
    ensures IsState(s)
            <==> && AtMostOneOpen(s.turns)
                 && (forall i :: OpenAt(s.turns, i) ==> s.openTurnId == Some(s.turns[i].id))
                 && (s.openTurnId.Some? ==> exists i :: OpenAt(s.turns, i))
                 && forall i :: 0 <= i < |s.entries| ==>
                      HasTurn(s.turns, s.entries[i].turn) && Compatible(s.entries[i].kind, s.entries[i].message)
  {
    OpenTurnsAre(s.turns);
    var open := OpenTurns(s.turns);
    assert open == [] || open[0] in open;
  }

  // ---------------------------------------------------------------- export is accepted

  lemma {:induction false} OpenTurnsOf(turns: seq<SavedTurn>, open: Option<TurnId>)
    requires forall i, j :: 0 <= i < j < |turns| ==> turns[i].id != turns[j].id
    requires forall i :: 0 <= i < |turns| ==> (turns[i].status.Open? <==> open == Some(turns[i].id))
    ensures OpenTurns(turns) == if open.Some? && HasTurn(turns, open.value) then [open.value] else []
  {
    if turns != [] {
      var last := |turns| - 1;
      OpenTurnsOf(turns[..last], open);
      if open.Some? && HasTurn(turns[..last], open.value) {
        var i :| 0 <= i < last && turns[..last][i].id == open.value;
        assert turns[i].id == open.value;
      }
      assert open == Some(turns[last].id) ==> HasTurn(turns, open.value);
      assert forall id :: HasTurn(turns, id) <==> HasTurn(turns[..last], id) || id == turns[last].id by {
        LastOrEarlier(turns);
      }
    }
  }

  lemma LastOrEarlier(turns: seq<SavedTurn>)
    requires turns != []
    ensures forall id :: HasTurn(turns, id) <==> HasTurn(turns[..|turns| - 1], id) || id == turns[|turns| - 1].id
  {
    forall id ensures HasTurn(turns, id) <==> HasTurn(turns[..|turns| - 1], id) || id == turns[|turns| - 1].id {
      if HasTurn(turns[..|turns| - 1], id) {
        var i :| 0 <= i < |turns| - 1 && turns[..|turns| - 1][i].id == id;
        assert turns[i].id == id;
      }
      if HasTurn(turns, id) && id != turns[|turns| - 1].id {
        var i :| 0 <= i < |turns| && turns[i].id == id;
        assert turns[..|turns| - 1][i].id == id;
      }
    }
  }

  lemma ExportedTurns(t: Thread)
    requires KnownTurns(t)
    ensures forall id :: HasTurn(Export(t).turns, id) <==> id in t.turns
  {
    var turns := Export(t).turns;
    forall id ensures HasTurn(turns, id) <==> id in t.turns {
      if id in t.turns {
        var i :| 0 <= i < |t.order| && t.order[i] == id;
        assert turns[i].id == id;
      }
    }
  }

  /** Every well-formed thread exports a state that is accepted. */
  lemma ExportIsAccepted(t: Thread)
    requires WellFormed(t)
    ensures IsState(Export(t))
  {
    ExportedTurns(t);
    OpenTurnsOf(Export(t).turns, t.open);
  }

  // ---------------------------------------------------------------- restoring

  /** The fresh id of each saved turn; of turns with one id, the last counts. */
  function Rename(turns: seq<SavedTurn>, n: nat): (r: map<TurnId, TurnId>)
    ensures forall id :: id in r <==> HasTurn(turns, id)
  {
    if turns == [] then map[]
    else
      LastOrEarlier(turns);
      Rename(turns[..|turns| - 1], n)[turns[|turns| - 1].id := Turn(n + |turns| - 1)]
  }

  function RestoredStatus(status: TurnStatus, preserve: bool): TurnStatus {
    if status.Open? && !preserve then Aborted else status
  }

  function RestoredTurns(turns: seq<SavedTurn>, n: nat, preserve: bool): map<TurnId, TurnStatus> {
    if turns == [] then map[]
    else
      var last := |turns| - 1;
      RestoredTurns(turns[..last], n, preserve)[Turn(n + last) := RestoredStatus(turns[last].status, preserve)]
  }

  function FreshTurns(count: nat, n: nat): seq<TurnId> {
    if count == 0 then [] else FreshTurns(count - 1, n) + [Turn(n + count - 1)]
  }

  lemma RestoreStep(saved: seq<SavedTurn>, i: nat, n: nat, preserve: bool)
    requires i < |saved|
    ensures Rename(saved[..i + 1], n) == Rename(saved[..i], n)[saved[i].id := Turn(n + i)]
    ensures RestoredTurns(saved[..i + 1], n, preserve)
            == RestoredTurns(saved[..i], n, preserve)[Turn(n + i) := RestoredStatus(saved[i].status, preserve)]
    ensures Turn(n + i) !in RestoredTurns(saved[..i], n, preserve)
  {
    assert saved[..i + 1][..i] == saved[..i];
    RestoredTurnsAre(saved[..i], n, preserve);
  }

  function RestoredEntry(e: SavedEntry, id: nat, turn: TurnId, factor: real): Entry {
    Entry(id, turn, e.kind, e.message, Estimate(factor, e.message), e.elided, e.iteration, e.toolSummary, e.originalTokens)
  }

  function RestoredEntries(saved: seq<SavedEntry>, renaming: map<TurnId, TurnId>, n: nat, factor: real): (r: seq<Entry>)
    requires forall i :: 0 <= i < |saved| ==> saved[i].turn in renaming
    ensures |r| == |saved|
  {
    seq(|saved|, i requires 0 <= i < |saved| => RestoredEntry(saved[i], n + i, renaming[saved[i].turn], factor))
  }

  const INTERRUPTED_NOTICE := "上次会话在未完成轮次中断；悬空工具调用已取消，请重新确认后续操作。"

  /** The restored turns and entries, before the open turn is dealt with; the counters go on from those of `t`. */
  function Rebuilt(t: Thread, s: State, factor: real, preserve: bool): Thread
    requires IsState(s)
  {
    Thread(RestoredEntries(s.entries, Rename(s.turns, t.nextTurn), t.nextEntry, factor),
           RestoredTurns(s.turns, t.nextTurn, preserve),
           FreshTurns(|s.turns|, t.nextTurn),
           None,
           Max(0, s.currentIteration.Floor),
           t.nextEntry + |s.entries|,
           t.nextTurn + |s.turns|)
  }

  function RestoredOpenTurn(t: Thread, s: State): Option<TurnId>
    requires IsState(s)
  {
    if s.openTurnId.Some? then Some(Rename(s.turns, t.nextTurn)[s.openTurnId.value]) else None
  }

  /** The open turn stays open, or loses its unanswered calls and gets a notice; it was given its status before. */
  function Settled(u: Thread, open: Option<TurnId>, factor: real, preserve: bool): Thread {
    if open.None? then u
    else if preserve then u.(open := open)
    else AddNotice(u.(entries := RemoveUnmatchedToolCalls(u.entries, factor, open.value)), factor, INTERRUPTED_NOTICE)
  }

  /**
    An accepted state replaces the thread. An open turn stays open, or it is aborted, rid of its
    unanswered calls, and a notice tells of it.
   */
  function Restore(t: Thread, s: State, factor: real, preserve: bool): Thread {
    if !IsState(s) then t else Settled(Rebuilt(t, s, factor, preserve), RestoredOpenTurn(t, s), factor, preserve)
  }

  // ---------------------------------------------------------------- round trip

  ghost predicate TurnsRenamed(t: Thread, order: seq<TurnId>, turns: map<TurnId, TurnStatus>, r: map<TurnId, TurnId>) {
    && r.Keys == t.turns.Keys
    && |order| == |t.order| && (forall p :: 0 <= p < |t.order| ==> t.order[p] in r && order[p] == r[t.order[p]])
    && (forall id :: id in turns <==> id in order)
    && (forall id :: id in t.turns ==> r[id] in turns && turns[r[id]] == t.turns[id])
  }

  ghost predicate EntriesRenamed(es: seq<Entry>, us: seq<Entry>, r: map<TurnId, TurnId>, factor: real) {
    && |us| == |es|
    && (forall i :: 0 <= i < |es| ==>
          es[i].turn in r
          && us[i] == es[i].(id := us[i].id, turn := r[es[i].turn], tokens := Estimate(factor, es[i].message)))
  }

  ghost predicate Injective(r: map<TurnId, TurnId>) {
    forall a, b :: a in r && b in r && a != b ==> r[a] != r[b]
  }

  /** `u` is `t` with its turns renamed, its entries numbered anew, and its estimates refreshed. */
  ghost predicate Renamed(t: Thread, u: Thread, r: map<TurnId, TurnId>, factor: real) {
    && TurnsRenamed(t, u.order, u.turns, r) && EntriesRenamed(t.entries, u.entries, r, factor) && Injective(r)
    && u.open == (if t.open.Some? && t.open.value in r then Some(r[t.open.value]) else None)
  }

  lemma {:induction false} RenameGivesFresh(turns: seq<SavedTurn>, n: nat, i: nat)
    requires i < |turns| && forall a, b :: 0 <= a < b < |turns| ==> turns[a].id != turns[b].id
    ensures turns[i].id in Rename(turns, n) && Rename(turns, n)[turns[i].id] == Turn(n + i)
  {
    var last := |turns| - 1;
    assert HasTurn(turns, turns[i].id);
    if i < last {
      RenameGivesFresh(turns[..last], n, i);
      assert turns[..last][i] == turns[i] && turns[i].id != turns[last].id;
    }
  }

  lemma {:induction false} RestoredTurnsAre(turns: seq<SavedTurn>, n: nat, preserve: bool)
    ensures forall id :: id in RestoredTurns(turns, n, preserve) <==> id.Turn? && n <= id.n < n + |turns|
    ensures forall i :: 0 <= i < |turns| ==>
              RestoredTurns(turns, n, preserve)[Turn(n + i)] == RestoredStatus(turns[i].status, preserve)
  {
    if turns != [] {
      RestoredTurnsAre(turns[..|turns| - 1], n, preserve);
    }
  }

  lemma {:induction false} FreshTurnsAre(count: nat, n: nat)
    ensures |FreshTurns(count, n)| == count && forall i :: 0 <= i < count ==> FreshTurns(count, n)[i] == Turn(n + i)
  {
    if count > 0 {
      FreshTurnsAre(count - 1, n);
    }
  }

  lemma ExportRenames(t: Thread, n: nat)
    requires KnownTurns(t)
    ensures var r := Rename(Export(t).turns, n);
            r.Keys == t.turns.Keys && forall p :: 0 <= p < |t.order| ==> t.order[p] in r && r[t.order[p]] == Turn(n + p)
  {
    var turns := Export(t).turns;
    ExportedTurns(t);
    forall p | 0 <= p < |t.order| ensures t.order[p] in Rename(turns, n) && Rename(turns, n)[t.order[p]] == Turn(n + p) {
      RenameGivesFresh(turns, n, p);
    }
  }

  lemma RenameIsInjective(t: Thread, n: nat)
    requires KnownTurns(t)
    ensures Injective(Rename(Export(t).turns, n))
  {
    ExportRenames(t, n);
    var r := Rename(Export(t).turns, n);
    forall a, b | a in r && b in r && a != b ensures r[a] != r[b] {
      var p := PositionOf(t.order, a);
      var q := PositionOf(t.order, b);
      assert r[t.order[p]] == Turn(n + p) && r[t.order[q]] == Turn(n + q);
    }
  }

  lemma PositionOf(order: seq<TurnId>, id: TurnId) returns (p: nat)
    requires id in order
    ensures p < |order| && order[p] == id
  {
    p :| 0 <= p < |order| && order[p] == id;
  }

  lemma RebuiltTurns(t: Thread, n: nat)
    requires KnownTurns(t)
    ensures TurnsRenamed(t, FreshTurns(|t.order|, n), RestoredTurns(Export(t).turns, n, true), Rename(Export(t).turns, n))
  {
    var turns := Export(t).turns;
    var order, statuses, r := FreshTurns(|turns|, n), RestoredTurns(turns, n, true), Rename(turns, n);
    ExportRenames(t, n);
    RestoredTurnsAre(turns, n, true);
    FreshTurnsAre(|turns|, n);
    forall id | id in statuses ensures id in order {
      assert order[id.n - n] == id;
    }
    forall id | id in t.turns ensures r[id] in statuses && statuses[r[id]] == t.turns[id] {
      var p := PositionOf(t.order, id);
      assert r[t.order[p]] == Turn(n + p) && turns[p].status == t.turns[id];
    }
  }

  lemma RebuiltEntries(t: Thread, r: map<TurnId, TurnId>, n: nat, factor: real)
    requires (forall id :: id in t.order ==> id in t.turns) && forall i :: 0 <= i < |t.entries| ==> t.entries[i].turn in r
    ensures EntriesRenamed(t.entries, RestoredEntries(Export(t).entries, r, n, factor), r, factor)
  {
  }

  /**
    Restoring an exported thread with its open turn gives the same thread: the same messages,
    statuses and open turn, up to an injective renaming of the turns.
   */
  lemma RoundTrip(t0: Thread, t: Thread, factor: real)
    requires WellFormed(t)
    ensures IsState(Export(t))
    ensures var u := Restore(t0, Export(t), factor, true);
            Renamed(t, u, Rename(Export(t).turns, t0.nextTurn), factor) && u.iteration == Max(0, t.iteration)
  {
    ExportIsAccepted(t);
    RebuiltTurns(t, t0.nextTurn);
    RebuiltEntries(t, Rename(Export(t).turns, t0.nextTurn), t0.nextEntry, factor);
    RenameIsInjective(t, t0.nextTurn);
  }

  lemma RenamedShape(t: Thread, u: Thread, r: map<TurnId, TurnId>, factor: real)
    requires WellFormed(t) && Renamed(t, u, r, factor)
    ensures Contiguous(u.entries) && SummaryFirst(u.entries)
    ensures forall i :: 0 <= i < |u.entries| ==> Compatible(u.entries[i].kind, u.entries[i].message)
    ensures CacheAgrees(u.entries, factor)
  {
    forall i, j, k | 0 <= i <= j <= k < |u.entries| && u.entries[i].turn == u.entries[k].turn
      ensures u.entries[j].turn == u.entries[i].turn
    {
      assert t.entries[i].turn == t.entries[k].turn;
      assert t.entries[j].turn == t.entries[i].turn;
    }
  }

  lemma RenamedTurns(t: Thread, u: Thread, r: map<TurnId, TurnId>, factor: real)
    requires KnownTurns(t) && OpenTurnLast(t) && Renamed(t, u, r, factor)
    requires forall id :: id in u.turns ==> FreshId(id, u.nextTurn)
    ensures KnownTurns(u) && OpenTurnLast(u)
  {
    forall id | id in u.turns ensures u.turns[id].Open? <==> u.open == Some(id) {
      var p :| 0 <= p < |u.order| && u.order[p] == id;
      assert t.order[p] in t.turns && r[t.order[p]] == id;
    }
  }

  lemma RenamedPairing(t: Thread, u: Thread, r: map<TurnId, TurnId>, factor: real)
    requires WellFormed(t) && Renamed(t, u, r, factor) && Paired(t.entries)
    ensures Paired(u.entries)
  {
    forall i | 0 <= i < |u.entries| && u.entries[i].kind.ToolResult? ensures Answered(u.entries, i) {
      assert Answered(t.entries, i);
      var a :| LatestAssistant(t.entries, a, i) && t.entries[a].turn == t.entries[i].turn
               && t.entries[i].message.toolCallId in CallIds(t.entries[a].message);
      assert LatestAssistant(u.entries, a, i);
    }
  }

  lemma RestoredTurnsAreFresh(t0: Thread, s: State, factor: real)
    requires IsState(s)
    ensures var u := Restore(t0, s, factor, true);
            forall id :: id in u.turns ==> FreshId(id, u.nextTurn)
  {
    RestoredTurnsAre(s.turns, t0.nextTurn, true);
  }

  lemma RestoredIdsAreDistinct(saved: seq<SavedEntry>, r: map<TurnId, TurnId>, n: nat, factor: real)
    requires forall i :: 0 <= i < |saved| ==> saved[i].turn in r
    ensures DistinctEntries(RestoredEntries(saved, r, n, factor), n + |saved|)
  {
  }

  lemma RestoredIdsAreFresh(t0: Thread, s: State, factor: real)
    requires IsState(s)
    ensures var u := Restore(t0, s, factor, true);
            DistinctEntries(u.entries, u.nextEntry)
  {
    RestoredIdsAreDistinct(s.entries, Rename(s.turns, t0.nextTurn), t0.nextEntry, factor);
  }

  /** A restored thread keeps every invariant. */
  lemma RestoredIsWellFormed(t0: Thread, t: Thread, factor: real)
    requires WellFormed(t)
    ensures var u := Restore(t0, Export(t), factor, true);
            WellFormed(u) && CacheAgrees(u.entries, factor) && (Paired(t.entries) ==> Paired(u.entries))
  {
    RoundTrip(t0, t, factor);
    RestoredTurnsAreFresh(t0, Export(t), factor);
    RestoredIdsAreFresh(t0, Export(t), factor);
    RenamedIsWellFormed(t, Restore(t0, Export(t), factor, true), Rename(Export(t).turns, t0.nextTurn), factor);
  }

  lemma RenamedIsWellFormed(t: Thread, u: Thread, r: map<TurnId, TurnId>, factor: real)
    requires WellFormed(t) && Renamed(t, u, r, factor) && DistinctEntries(u.entries, u.nextEntry)
    requires forall id :: id in u.turns ==> FreshId(id, u.nextTurn)
    ensures WellFormed(u) && CacheAgrees(u.entries, factor) && (Paired(t.entries) ==> Paired(u.entries))
  {
    RenamedShape(t, u, r, factor);
    RenamedTurns(t, u, r, factor);
    if Paired(t.entries) {
      RenamedPairing(t, u, r, factor);
    }
  }

  lemma AbortedStatuses(turns: seq<SavedTurn>, n: nat, p: int)
    requires forall i :: 0 <= i < |turns| ==> (turns[i].status.Open? <==> i == p)
    ensures var kept, closed := RestoredTurns(turns, n, true), RestoredTurns(turns, n, false);
            closed == if 0 <= p < |turns| then kept[Turn(n + p) := Aborted] else kept
  {
    var kept, closed := RestoredTurns(turns, n, true), RestoredTurns(turns, n, false);
    RestoredTurnsAre(turns, n, true);
    RestoredTurnsAre(turns, n, false);
    forall id | id in closed ensures closed[id] == if p >= 0 && id == Turn(n + p) then Aborted else kept[id] {
      var i := id.n - n;
      assert closed[Turn(n + i)] == RestoredStatus(turns[i].status, false);
      assert kept[Turn(n + i)] == RestoredStatus(turns[i].status, true);
    }
  }

  lemma ClosedDifferInStatus(t: Thread, n: nat)
    requires WellFormed(t)
    ensures var kept, closed := RestoredTurns(Export(t).turns, n, true), RestoredTurns(Export(t).turns, n, false);
            if t.open.None? then closed == kept
            else
              t.open.value in Rename(Export(t).turns, n) && Rename(Export(t).turns, n)[t.open.value] in kept
              && closed == kept[Rename(Export(t).turns, n)[t.open.value] := Aborted]
  {
    var turns := Export(t).turns;
    ExportRenames(t, n);
    if t.open.None? {
      AbortedStatuses(turns, n, -1);
    } else {
      var p := PositionOf(t.order, t.open.value);
      assert Rename(turns, n)[t.order[p]] == Turn(n + p);
      AbortedStatuses(turns, n, p);
      RestoredTurnsAre(turns, n, true);
    }
  }

  lemma CloseReopened(u: Thread, open: TurnId, r: seq<Entry>)
    requires u.open.None? && open in u.turns
    ensures CloseTurn(u.(open := Some(open)).(entries := r), Aborted) == u.(turns := u.turns[open := Aborted]).(entries := r)
  {
  }

  /**
    Restoring without the open turn is restoring with it, then removing its unanswered calls,
    aborting it and adding one notice in a turn of its own; without an open turn it is the same.
   */
  lemma RestoreAborts(t0: Thread, t: Thread, factor: real)
    requires WellFormed(t)
    ensures var u, v := Restore(t0, Export(t), factor, true), Restore(t0, Export(t), factor, false);
            (t.open.None? <==> u.open.None?)
            && if t.open.None? then v == u
            else
              u.open.Some?
              && var closed := CloseTurn(u.(entries := RemoveUnmatchedToolCalls(u.entries, factor, u.open.value)), Aborted);
                 v == AddNotice(closed, factor, INTERRUPTED_NOTICE)
  {
    ExportIsAccepted(t);
    ClosedDifferInStatus(t, t0.nextTurn);
    if t.open.Some? {
      RestoreAbortsOpen(t0, Export(t), factor);
    }
  }

  lemma RestoreAbortsOpen(t0: Thread, s: State, factor: real)
    requires IsState(s) && s.openTurnId.Some?
    requires var kept, open := RestoredTurns(s.turns, t0.nextTurn, true), RestoredOpenTurn(t0, s).value;
             open in kept && RestoredTurns(s.turns, t0.nextTurn, false) == kept[open := Aborted]
    ensures var u := Restore(t0, s, factor, true);
            u.open.Some?
            && Restore(t0, s, factor, false)
               == AddNotice(CloseTurn(u.(entries := RemoveUnmatchedToolCalls(u.entries, factor, u.open.value)), Aborted),
                            factor, INTERRUPTED_NOTICE)
  {
    var u, open := Rebuilt(t0, s, factor, true), RestoredOpenTurn(t0, s).value;
    CloseReopened(u, open, RemoveUnmatchedToolCalls(u.entries, factor, open));
    assert Rebuilt(t0, s, factor, false) == u.(turns := u.turns[open := Aborted]);
  }

  /** After such a restore no turn is open, no call of the aborted turn is unanswered, and every invariant holds. */
  lemma AbortedRestoreIsWellFormed(t0: Thread, t: Thread, factor: real)
    requires WellFormed(t)
    ensures var u, v := Restore(t0, Export(t), factor, true), Restore(t0, Export(t), factor, false);
            WellFormed(v) && v.open.None? && CacheAgrees(v.entries, factor) && (Paired(t.entries) ==> Paired(v.entries))
            && (u.open.Some? ==> FullyAnswered(v.entries, u.open.value))
  {
    var u := Restore(t0, Export(t), factor, true);
    RestoredIsWellFormed(t0, t, factor);
    RestoreAborts(t0, t, factor);
    if u.open.Some? {
      var w := u.(entries := RemoveUnmatchedToolCalls(u.entries, factor, u.open.value));
      RemovalKeeps(u, factor);
      RemovalKeepsCache(u.entries, factor, u.open.value);
      AbortedNoticeKeeps(w, factor);
    }
  }

  lemma AbortedNoticeKeeps(w: Thread, factor: real)
    requires WellFormed(w) && w.open.Some? && CacheAgrees(w.entries, factor) && FullyAnswered(w.entries, w.open.value)
    ensures var v := AddNotice(CloseTurn(w, Aborted), factor, INTERRUPTED_NOTICE);
            WellFormed(v) && v.open.None? && CacheAgrees(v.entries, factor) && (Paired(w.entries) ==> Paired(v.entries))
            && FullyAnswered(v.entries, w.open.value)
  {
    var c := CloseTurn(w, Aborted);
    CloseKeeps(w, Aborted);
    AddNoticeKeeps(c, factor, INTERRUPTED_NOTICE);
    var v := AddNotice(c, factor, INTERRUPTED_NOTICE);
    assert v.entries == c.entries + [v.entries[|c.entries|]];
    StillFullyAnswered(c.entries, v.entries[|c.entries|], w.open.value);
  }
}
