/** The thread as the program keeps it: fields updated in place by its methods. */
module ConversationThread {
  import opened Prelude
  import opened Tokens
  import M = ThreadModel
  import opened ThreadRuns
  import S = ThreadState

  type Entry = M.Entry
  type TurnId = M.TurnId

  ghost predicate FirstWith(es: seq<Entry>, id: nat, i: nat) {
    i < |es| && es[i].id == id && forall k :: 0 <= k < i ==> es[k].id != id
  }

  class ConversationThread {
    const estimator: TokenEstimator
    var entries: seq<Entry>
    var turns: map<TurnId, M.TurnStatus>
    var order: seq<TurnId>
    var openTurnId: Option<TurnId>
    var currentIteration: int
    var entryCounter: nat
    var turnCounter: nat

    ghost function State(): M.Thread
      reads this
    {
      M.Thread(entries, turns, order, openTurnId, currentIteration, entryCounter, turnCounter)
    }

    ghost function Factor(): real
      reads this, estimator
    {
      estimator.calibrationFactor
    }

    ghost predicate Valid()
      reads this, estimator
    {
      M.WellFormed(State()) && M.CacheAgrees(entries, Factor())
    }

    ghost predicate Paired()
      reads this
    {
      M.Paired(entries)
    }

    constructor (estimator: TokenEstimator)
      ensures Valid() && Paired() && this.estimator == estimator && entries == [] && openTurnId == None
    {
      this.estimator := estimator;
      entries, turns, order, openTurnId, currentIteration := [], map[], [], None, 0;
      entryCounter, turnCounter := 0, 0;
    }

    method SetTurn(id: TurnId, status: M.TurnStatus)
      modifies this`turns, this`order
      ensures State() == M.SetTurn(old(State()), id, status)
    {
      if id !in turns {
        order := order + [id];
      }
      turns := turns[id := status];
    }

    method EstimateMessage(m: Message) returns (tokens: nat)
      ensures tokens == Estimate(Factor(), m)
    {
      tokens := Estimate(estimator.calibrationFactor, m);
    }

    method AppendEntry(turn: TurnId, kind: M.Kind, message: Message)
      modifies this`entries, this`entryCounter
      ensures State() == M.Append(old(State()), M.NewEntry(old(State()), Factor(), turn, kind, message))
    {
      var tokens := EstimateMessage(message);
      entries := entries + [M.Entry(entryCounter, turn, kind, message, tokens, false, None, None, None)];
      entryCounter := entryCounter + 1;
    }

    /** None when another turn is open. */
    method BeginTurn(userInput: string) returns (turnId: Option<TurnId>)
      modifies this
      ensures State() == M.BeginTurn(old(State()), Factor(), userInput)
      ensures turnId == if old(openTurnId).Some? then None else Some(M.Turn(old(turnCounter)))
    {
      if openTurnId.Some? {
        return None;
      }
      var id := M.Turn(turnCounter);
      turnCounter := turnCounter + 1;
      SetTurn(id, M.Open);
      openTurnId := Some(id);
      AppendEntry(id, M.UserEntry, Chat(User, userInput, None));
      turnId := Some(id);
    }

    /** False when no turn is open; likewise for the methods below. */
    method CommitTurn() returns (ok: bool)
      modifies this
      ensures State() == M.CommitTurn(old(State())) && ok == old(openTurnId).Some?
    {
      if openTurnId.None? {
        return false;
      }
      SetTurn(openTurnId.value, M.Committed);
      openTurnId := None;
      ok := true;
    }

    method AbortTurn(reason: string) returns (ok: bool)
      modifies this
      ensures State() == M.AbortTurn(old(State()), Factor(), reason) && ok == old(openTurnId).Some?
    {
      if openTurnId.None? {
        return false;
      }
      AppendEntry(openTurnId.value, M.Notice, M.NoticeMessage(reason));
      SetTurn(openTurnId.value, M.Aborted);
      openTurnId := None;
      ok := true;
    }

    method InterruptTurn(reason: string) returns (ok: bool)
      modifies this
      ensures State() == M.InterruptTurn(old(State()), Factor(), reason) && ok == old(openTurnId).Some?
    {
      if openTurnId.None? {
        return false;
      }
      RemoveUnmatchedToolCalls(openTurnId.value);
      ok := AbortTurn(reason);
    }

    method RemoveUnmatchedToolCalls(turn: TurnId)
      modifies this`entries
      ensures entries == M.RemoveUnmatchedToolCalls(old(entries), Factor(), turn)
    {
      var was := entries;
      var results := M.ResultIds(was, turn);
      for i := 0 to |was|
        invariant |entries| == |was|
        invariant forall k :: 0 <= k < |was| ==>
                    entries[k] == if k < i then M.WithoutUnanswered(was[k], Factor(), turn, results) else was[k]
      {
        var e := entries[i];
        if e.turn == turn && e.message.Chat? && e.message.role.Assistant? && e.message.toolCalls.Some? {
          var matched := M.KeepAnswered(e.message.toolCalls.value, results);
          var message := Chat(Assistant, e.message.content, if matched == [] then None else Some(matched));
          var tokens := EstimateMessage(message);
          entries := entries[i := e.(message := message, tokens := tokens)];
        }
      }
    }

    method AppendAssistant(content: string, toolCalls: Option<seq<ToolCall>>) returns (ok: bool)
      modifies this
      ensures State() == M.AppendAssistant(old(State()), Factor(), content, toolCalls) && ok == old(openTurnId).Some?
    {
      var message := Chat(Assistant, content, if toolCalls == Some([]) then None else toolCalls);
      if openTurnId.None? {
        return false;
      }
      AppendEntry(openTurnId.value, M.AssistantEntry, message);
      ok := true;
    }

    method AppendToolResult(toolCallId: string, name: string, content: string, summary: Option<string>, iteration: Option<int>)
      returns (ok: bool)
      modifies this
      ensures ok == old(openTurnId).Some?
      ensures State() == M.AppendToolResult(old(State()), Factor(), toolCallId, name, content, summary, iteration)
    {
      if openTurnId.None? {
        return false;
      }
      AppendEntry(openTurnId.value, M.ToolResult, ToolMessage(toolCallId, name, content));
      var last := |entries| - 1;
      var e := entries[last];
      entries := entries[last := e.(iteration := if iteration.Some? then iteration else Some(currentIteration),
                                    toolSummary := summary, originalTokens := Some(e.tokens))];
      ok := true;
    }

    method AddNotice(content: string)
      modifies this
      ensures State() == M.AddNotice(old(State()), Factor(), content)
    {
      var turn: TurnId;
      if openTurnId.Some? {
        turn := openTurnId.value;
      } else {
        turn := M.NoticeTurn(turnCounter);
        turnCounter := turnCounter + 1;
        SetTurn(turn, M.Committed);
      }
      AppendEntry(turn, M.Notice, M.NoticeMessage(content));
    }

    method ReplacePrefixWithCompaction(entryCount: int, summary: string)
      modifies this
      ensures State() == M.ReplacePrefix(old(State()), Factor(), entryCount, summary)
      ensures entryCount > 0 && old(entries) != [] ==> M.LedBySummary(entries, summary)
    {
      var count := Max(0, Min(entryCount, |entries|));
      if count == 0 {
        return;
      }
      var removed := entries[..count];
      entries := entries[count..];
      var remaining := M.TurnsOf(entries);
      var gone := M.TurnsOf(removed) - remaining;
      turns := turns - gone;
      order := M.Keep(order, gone);
      var id := M.CompactionTurn(turnCounter);
      turnCounter := turnCounter + 1;
      turns, order := turns[id := M.Committed], order + [id];
      var message := M.SummaryMessage(summary);
      var tokens := EstimateMessage(message);
      entries := [M.Entry(entryCounter, id, M.Compaction, message, tokens, false, None, None, None)] + entries;
      entryCounter := entryCounter + 1;
    }

    method Find(entryId: nat) returns (index: Option<nat>)
      ensures index.Some? ==> FirstWith(entries, entryId, index.value)
      ensures index.None? ==> forall i :: 0 <= i < |entries| ==> entries[i].id != entryId
    {
      for i := 0 to |entries|
        invariant forall k :: 0 <= k < i ==> entries[k].id != entryId
      {
        if entries[i].id == entryId {
          return Some(i);
        }
      }
      index := None;
    }

    method ElideToolResult(entryId: nat, content: string)
      modifies this`entries
      ensures forall i: nat :: FirstWith(old(entries), entryId, i) ==>
                State() == M.ElideAt(old(State()), Factor(), i, content)
      ensures (forall i :: 0 <= i < |old(entries)| ==> old(entries)[i].id != entryId) ==> State() == old(State())
    {
      var at := Find(entryId);
      if at.None? {
        return;
      }
      var i := at.value;
      var e := entries[i];
      if !e.kind.ToolResult? || !e.message.ToolMessage? {
        return;
      }
      var message := M.WithContent(e.message, content);
      var tokens := EstimateMessage(message);
      entries := entries[i := e.(message := message, tokens := tokens, elided := true,
                                 originalTokens := if e.originalTokens.Some? then e.originalTokens else Some(e.tokens))];
    }

    method TruncateEntry(entryId: nat, content: string)
      modifies this`entries
      ensures forall i: nat :: FirstWith(old(entries), entryId, i) ==>
                State() == M.TruncateAt(old(State()), Factor(), i, content)
      ensures (forall i :: 0 <= i < |old(entries)| ==> old(entries)[i].id != entryId) ==> State() == old(State())
    {
      var at := Find(entryId);
      if at.None? {
        return;
      }
      var i := at.value;
      var e := entries[i];
      var message := M.WithContent(e.message, content);
      var tokens := EstimateMessage(message);
      entries := entries[i := e.(message := message, tokens := tokens)];
    }

    /** After the factor changed: every cached estimate is refreshed. */
    method ReestimateTokens()
      modifies this`entries
      ensures State() == M.Reestimate(old(State()), Factor())
    {
      var was := entries;
      for i := 0 to |was|
        invariant |entries| == |was|
        invariant forall k :: 0 <= k < |was| ==> entries[k] == if k < i then M.Reestimated(was[k], Factor()) else was[k]
      {
        var e := entries[i];
        var tokens := EstimateMessage(e.message);
        entries := entries[i := e.(tokens := tokens,
                                   originalTokens := if e.kind.ToolResult? && !e.elided then Some(tokens) else e.originalTokens)];
      }
    }

    /** The entries without ids and cached estimates, and the turns in order; the program's own check accepts the result. */
    method ExportState() returns (state: S.State)
      requires forall id :: id in order ==> id in turns
      ensures state == S.Export(State())
      ensures M.WellFormed(State()) ==> S.IsState(state)
    {
      var saved: seq<S.SavedEntry> := [];
      for i := 0 to |entries|
        invariant |saved| == i && saved == S.Export(State()).entries[..i]
      {
        var e := entries[i];
        saved := saved + [S.SavedEntry(e.turn, e.kind, e.message, e.elided, e.iteration, e.toolSummary, e.originalTokens)];
      }
      var listed: seq<S.SavedTurn> := [];
      for i := 0 to |order|
        invariant |listed| == i && listed == S.Export(State()).turns[..i]
      {
        listed := listed + [S.SavedTurn(order[i], turns[order[i]])];
      }
      state := S.State(saved, listed, openTurnId, currentIteration as real);
      if M.WellFormed(State()) {
        S.ExportIsAccepted(State());
      }
    }

    /** False, and nothing changes, when the state is not accepted. */
    method RestoreState(state: S.State, preserveOpenTurn: bool) returns (ok: bool)
      modifies this
      ensures ok == S.IsState(state)
      ensures State() == S.Restore(old(State()), state, Factor(), preserveOpenTurn)
    {
      if !S.IsState(state) {
        return false;
      }
      var open := Rebuild(state, preserveOpenTurn);
      SettleOpenTurn(open, preserveOpenTurn);
      currentIteration := Max(0, state.currentIteration.Floor);
      ok := true;
    }

    method Rebuild(state: S.State, preserveOpenTurn: bool) returns (open: Option<TurnId>)
      requires S.IsState(state)
      modifies this
      ensures State() == S.Rebuilt(old(State()), state, Factor(), preserveOpenTurn).(iteration := 0)
      ensures open == S.RestoredOpenTurn(old(State()), state)
    {
      entries, turns, order, openTurnId, currentIteration := [], map[], [], None, 0;
      var turnIdMap := RestoreTurns(state.turns, preserveOpenTurn);
      RestoreEntries(state.entries, turnIdMap);
      open := if state.openTurnId.Some? then Some(turnIdMap[state.openTurnId.value]) else None;
    }

    method SettleOpenTurn(open: Option<TurnId>, preserveOpenTurn: bool)
      requires openTurnId.None?
      modifies this
      ensures State() == S.Settled(old(State()), open, Factor(), preserveOpenTurn)
    {
      if open.Some? {
        if preserveOpenTurn {
          openTurnId := open;
        } else {
          RemoveUnmatchedToolCalls(open.value);
          AddNotice(S.INTERRUPTED_NOTICE);
        }
      }
    }

    method RestoreTurns(saved: seq<S.SavedTurn>, preserveOpenTurn: bool) returns (turnIdMap: map<TurnId, TurnId>)
      requires turns == map[] && order == []
      modifies this`turns, this`order, this`turnCounter
      ensures turnIdMap == S.Rename(saved, old(turnCounter)) && turnCounter == old(turnCounter) + |saved|
      ensures turns == S.RestoredTurns(saved, old(turnCounter), preserveOpenTurn)
      ensures order == S.FreshTurns(|saved|, old(turnCounter))
    {
      turnIdMap := map[];
      ghost var n := turnCounter;
      for i := 0 to |saved|
        invariant turnIdMap == S.Rename(saved[..i], n) && turnCounter == n + i
        invariant turns == S.RestoredTurns(saved[..i], n, preserveOpenTurn)
        invariant order == S.FreshTurns(i, n)
      {
        S.RestoreStep(saved, i, n, preserveOpenTurn);
        var restoredId := M.Turn(turnCounter);
        turnCounter := turnCounter + 1;
        turnIdMap := turnIdMap[saved[i].id := restoredId];
        SetTurn(restoredId, S.RestoredStatus(saved[i].status, preserveOpenTurn));
      }
      assert saved[..|saved|] == saved;
    }

    method RestoreEntries(saved: seq<S.SavedEntry>, turnIdMap: map<TurnId, TurnId>)
      requires entries == [] && forall i :: 0 <= i < |saved| ==> saved[i].turn in turnIdMap
      modifies this`entries, this`entryCounter
      ensures entries == S.RestoredEntries(saved, turnIdMap, old(entryCounter), Factor())
      ensures entryCounter == old(entryCounter) + |saved|
    {
      ghost var n := entryCounter;
      for i := 0 to |saved|
        invariant |entries| == i && entryCounter == n + i
        invariant forall k :: 0 <= k < i ==>
                    entries[k] == S.RestoredEntry(saved[k], n + k, turnIdMap[saved[k].turn], Factor())
      {
        AppendEntry(turnIdMap[saved[i].turn], saved[i].kind, saved[i].message);
        entries := entries[i := entries[i].(iteration := saved[i].iteration, toolSummary := saved[i].toolSummary,
                                            elided := saved[i].elided, originalTokens := saved[i].originalTokens)];
      }
    }

    method SetCurrentIteration(iteration: int)
      modifies this`currentIteration
      ensures State() == old(State()).(iteration := iteration)
    {
      currentIteration := iteration;
    }
  }

  /** What a new calibration factor does to the thread: nothing if it is the old one. */
  function Refreshed(t: M.Thread, before: real, after: real): M.Thread {
    if after == before then t else M.Reestimate(t, after)
  }

  lemma RefreshKeeps(t: M.Thread, before: real, after: real)
    requires M.WellFormed(t) && M.CacheAgrees(t.entries, before)
    ensures var u := Refreshed(t, before, after);
            M.WellFormed(u) && M.CacheAgrees(u.entries, after) && (M.Paired(t.entries) ==> M.Paired(u.entries))
  {
    RecalibrationKeeps(t, after);
  }

  /** The session context calibrates the estimator and refreshes the thread with it. */
  class SessionContext {
    const estimator: TokenEstimator
    const thread: ConversationThread

    ghost predicate Valid()
      reads this, thread, estimator
    {
      thread.estimator == estimator && thread.Valid() && estimator.Valid()
    }

    constructor ()
      ensures Valid() && fresh(thread) && fresh(estimator) && thread.Paired()
      ensures estimator.minFactor == 0.5 && estimator.maxFactor == 2.0
    {
      var e := new TokenEstimator();
      var t := new ConversationThread(e);
      estimator, thread := e, t;
    }

    method RefreshThread(before: real)
      requires thread.estimator == estimator
      modifies thread
      ensures thread.State() == Refreshed(old(thread.State()), before, estimator.calibrationFactor)
    {
      if estimator.calibrationFactor != before {
        thread.ReestimateTokens();
      }
    }

    /** Without a positive usage figure, or for an empty request, nothing changes. */
    method CalibrateFromUsage(actualInputTokens: Option<int>, messages: seq<Message>)
      requires thread.estimator == estimator && estimator.Valid()
      modifies estimator, thread
      ensures estimator.Valid()
      ensures thread.State() == Refreshed(old(thread.State()), old(estimator.calibrationFactor), estimator.calibrationFactor)
      ensures actualInputTokens.None? || actualInputTokens.value <= 0 || messages == [] ==>
                estimator.calibrationFactor == old(estimator.calibrationFactor)
      ensures actualInputTokens.Some? && actualInputTokens.value > 0 && messages != [] ==>
                RawTotal(messages) > 0
                && var next := Blend(old(estimator.calibrationFactor), estimator.emaAlpha, RawTotal(messages), actualInputTokens.value);
                   estimator.calibrationFactor == Clamped(next, estimator.minFactor, estimator.maxFactor)
    {
      if actualInputTokens.None? || actualInputTokens.value <= 0 {
        return;
      }
      var raw := RawTotal(messages);
      if raw > 0 {
        var before := estimator.calibrationFactor;
        estimator.Calibrate(raw, actualInputTokens.value);
        RefreshThread(before);
      }
    }

    method ResetCalibration()
      requires thread.estimator == estimator && estimator.Valid()
      modifies estimator, thread
      ensures estimator.Valid() && estimator.calibrationFactor == 1.0
      ensures thread.State() == Refreshed(old(thread.State()), old(estimator.calibrationFactor), 1.0)
    {
      var before := estimator.calibrationFactor;
      estimator.ResetCalibration();
      RefreshThread(before);
    }
  }
}
