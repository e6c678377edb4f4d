/** What every operation on a thread keeps, and what every run of operations keeps. */
module ThreadInvariant {
  import opened Prelude
  import opened Tokens
  import opened ThreadModel

  // ---------------------------------------------------------------- appending

  lemma ContiguousAppend(es: seq<Entry>, e: Entry)
    requires Contiguous(es)
    requires es == [] || es[|es| - 1].turn == e.turn || forall i :: 0 <= i < |es| ==> es[i].turn != e.turn
    ensures Contiguous(es + [e])
  {
    var r := es + [e];
    forall i, j, k | 0 <= i <= j <= k < |r| && r[i].turn == r[k].turn ensures r[j].turn == r[i].turn {
      if k == |es| && i < |es| {
        assert es[|es| - 1].turn == e.turn;
        if j < |es| {
          assert es[i].turn == es[|es| - 1].turn;
        }
      }
    }
  }

  /** `e` continues the last turn, or is the first entry of its turn. */
  ghost predicate Continues(t: Thread, e: Entry) {
    && e.turn in t.turns && e.id == t.nextEntry && !e.kind.Compaction? && Compatible(e.kind, e.message)
    && (t.open.Some? ==> e.turn == t.open.value)
    && (t.open.None? ==> forall i :: 0 <= i < |t.entries| ==> t.entries[i].turn != e.turn)
  }

  lemma DistinctAppend(es: seq<Entry>, e: Entry)
    requires DistinctEntries(es, e.id)
    ensures DistinctEntries(es + [e], e.id + 1)
  {
  }

  lemma CompatibleAppend(es: seq<Entry>, e: Entry)
    requires Compatible(e.kind, e.message) && forall i :: 0 <= i < |es| ==> Compatible(es[i].kind, es[i].message)
    ensures forall i :: 0 <= i < |es + [e]| ==> Compatible((es + [e])[i].kind, (es + [e])[i].message)
  {
  }

  lemma SummaryFirstAppend(es: seq<Entry>, e: Entry)
    requires SummaryFirst(es) && !e.kind.Compaction?
    requires |es| == 1 && es[0].kind.Compaction? ==> es[0].turn != e.turn
    ensures SummaryFirst(es + [e])
  {
  }

  lemma TurnsAfterAppend(t: Thread, e: Entry)
    requires KnownTurns(t) && OpenTurnLast(t) && e.turn in t.turns && !e.kind.Compaction?
    requires t.open.Some? ==> e.turn == t.open.value
    ensures KnownTurns(Append(t, e)) && OpenTurnLast(Append(t, e))
  {
    var es := Append(t, e).entries;
    assert es[|es| - 1] == e;
  }

  lemma AppendKeeps(t: Thread, e: Entry)
    requires WellFormed(t) && Continues(t, e)
    ensures WellFormed(Append(t, e))
  {
    ContiguousAppend(t.entries, e);
    SummaryFirstAppend(t.entries, e);
    DistinctAppend(t.entries, e);
    CompatibleAppend(t.entries, e);
    TurnsAfterAppend(t, e);
  }

  lemma PairedAppend(es: seq<Entry>, e: Entry)
    requires Paired(es)
    requires e.kind.ToolResult? ==> Answered(es + [e], |es|)
    ensures Paired(es + [e])
  {
    var r := es + [e];
    forall i | 0 <= i < |es| && r[i].kind.ToolResult? ensures Answered(r, i) {
      assert Answered(es, i);
      var a :| LatestAssistant(es, a, i) && es[a].turn == es[i].turn && es[i].message.toolCallId in CallIds(es[a].message);
      assert LatestAssistant(r, a, i);
    }
  }

  lemma AwaitedIsAnswered(t: Thread, e: Entry)
    requires t.open.Some? && e.turn == t.open.value && e.message.ToolMessage?
    ensures Answered(t.entries + [e], |t.entries|) <==> Awaited(t, e.message.toolCallId)
  {
    var es, r := t.entries, t.entries + [e];
    if Answered(r, |es|) {
      var a :| LatestAssistant(r, a, |es|) && r[a].turn == r[|es|].turn && e.message.toolCallId in CallIds(r[a].message);
      assert forall k :: a < k < |es| ==> es[k] == r[k];
      assert LatestAssistant(es, a, |es|);
    }
    if Awaited(t, e.message.toolCallId) {
      var a :| LatestAssistant(es, a, |es|) && es[a].turn == t.open.value && e.message.toolCallId in CallIds(es[a].message);
      assert LatestAssistant(r, a, |es|);
    }
  }

  // ---------------------------------------------------------------- rewriting entries in place

  ghost predicate SameShape(es: seq<Entry>, r: seq<Entry>) {
    && |r| == |es|
    && forall i :: 0 <= i < |es| ==>
         r[i].id == es[i].id && r[i].turn == es[i].turn && r[i].kind == es[i].kind
         && Compatible(r[i].kind, r[i].message)
  }

  /** Tool results keep their call id, and no call that has a result in its turn is lost. */
  ghost predicate KeepsPairs(es: seq<Entry>, r: seq<Entry>) {
    && |r| == |es|
    && (forall i :: 0 <= i < |es| && es[i].message.ToolMessage? ==>
          r[i].message.ToolMessage? && r[i].message.toolCallId == es[i].message.toolCallId)
    && (forall a, i :: 0 <= a < |es| && 0 <= i < |es| && es[a].turn == es[i].turn && es[a].kind.AssistantEntry?
                       && es[i].message.ToolMessage? && es[i].message.toolCallId in CallIds(es[a].message) ==>
          es[i].message.toolCallId in CallIds(r[a].message))
  }

  lemma RewriteKeeps(t: Thread, r: seq<Entry>)
    requires WellFormed(t) && SameShape(t.entries, r)
    ensures WellFormed(t.(entries := r))
  {
  }

  lemma RewriteKeepsPairing(es: seq<Entry>, r: seq<Entry>)
    requires Paired(es) && SameShape(es, r) && KeepsPairs(es, r)
    ensures Paired(r)
  {
    forall i | 0 <= i < |r| && r[i].kind.ToolResult? ensures Answered(r, i) {
      assert Answered(es, i);
      var a :| LatestAssistant(es, a, i) && es[a].turn == es[i].turn && es[i].message.toolCallId in CallIds(es[a].message);
      assert LatestAssistant(r, a, i);
    }
  }

  /** Entry `i` gets other text: nothing but its message text and its estimate changes shape. */
  ghost predicate Retexted(es: seq<Entry>, r: seq<Entry>, i: nat) {
    && i < |es| && |r| == |es|
    && (forall k :: 0 <= k < |es| && k != i ==> r[k] == es[k])
    && r[i].id == es[i].id && r[i].turn == es[i].turn && r[i].kind == es[i].kind
    && exists content :: r[i].message == WithContent(es[i].message, content)
  }

  lemma RetextKeeps(t: Thread, r: seq<Entry>, i: nat)
    requires WellFormed(t) && Retexted(t.entries, r, i)
    ensures WellFormed(t.(entries := r)) && (Paired(t.entries) ==> Paired(r))
  {
    assert SameShape(t.entries, r);
    RewriteKeeps(t, r);
    assert KeepsPairs(t.entries, r);
    if Paired(t.entries) {
      RewriteKeepsPairing(t.entries, r);
    }
  }

  lemma RetextKeepsCache(es: seq<Entry>, r: seq<Entry>, i: nat, factor: real)
    requires CacheAgrees(es, factor) && Retexted(es, r, i) && r[i].tokens == Estimate(factor, r[i].message)
    ensures CacheAgrees(r, factor)
  {
  }

  // ---------------------------------------------------------------- turn operations

  lemma BeginKeepsTurns(t: Thread, factor: real, input: string)
    requires WellFormed(t) && t.open.None?
    ensures var u := BeginTurn(t, factor, input);
            KnownTurns(u) && OpenTurnLast(u)
  {
  }

  lemma BeginKeepsIds(t: Thread, factor: real, input: string)
    requires DistinctEntries(t.entries, t.nextEntry)
    ensures var u := BeginTurn(t, factor, input);
            DistinctEntries(u.entries, u.nextEntry)
  {
  }

  lemma BeginKeeps(t: Thread, factor: real, input: string)
    requires WellFormed(t)
    ensures WellFormed(BeginTurn(t, factor, input))
    ensures Paired(t.entries) ==> Paired(BeginTurn(t, factor, input).entries)
  {
    if t.open.None? {
      BeginKeepsTurns(t, factor, input);
      BeginKeepsIds(t, factor, input);
      var e := Entry(t.nextEntry, Turn(t.nextTurn), UserEntry, Chat(User, input, None),
                     Estimate(factor, Chat(User, input, None)), false, None, None, None);
      NewTurnEntry(t, e);
      assert BeginTurn(t, factor, input).entries == t.entries + [e];
    }
  }

  lemma NewTurnEntry(t: Thread, e: Entry)
    requires WellFormed(t) && e.turn !in t.turns && !e.kind.Compaction? && !e.kind.ToolResult? && Compatible(e.kind, e.message)
    ensures var es := t.entries + [e];
            Contiguous(es) && SummaryFirst(es) && (Paired(t.entries) ==> Paired(es))
            && forall i :: 0 <= i < |es| ==> Compatible(es[i].kind, es[i].message)
  {
    assert forall i :: 0 <= i < |t.entries| ==> t.entries[i].turn != e.turn;
    ContiguousAppend(t.entries, e);
    if Paired(t.entries) {
      PairedAppend(t.entries, e);
    }
  }

  lemma CloseKeeps(t: Thread, status: TurnStatus)
    requires WellFormed(t) && !status.Open?
    ensures WellFormed(CloseTurn(t, status)) && CloseTurn(t, status).open.None?
    ensures CloseTurn(t, status).entries == t.entries
  {
  }

  lemma AppendToOpenKeeps(t: Thread, factor: real, kind: Kind, message: Message)
    requires WellFormed(t) && !kind.Compaction? && !kind.ToolResult? && Compatible(kind, message)
    ensures WellFormed(AppendToOpen(t, factor, kind, message))
    ensures Paired(t.entries) ==> Paired(AppendToOpen(t, factor, kind, message).entries)
  {
    if t.open.Some? {
      var e := NewEntry(t, factor, t.open.value, kind, message);
      AppendKeeps(t, e);
      if Paired(t.entries) {
        PairedAppend(t.entries, e);
      }
    }
  }

  lemma AddNoticeKeeps(t: Thread, factor: real, content: string)
    requires WellFormed(t)
    ensures WellFormed(AddNotice(t, factor, content))
    ensures Paired(t.entries) ==> Paired(AddNotice(t, factor, content).entries)
  {
    if t.open.Some? {
      AppendToOpenKeeps(t, factor, Notice, NoticeMessage(content));
    } else {
      var u := SetTurn(t.(nextTurn := t.nextTurn + 1), NoticeTurn(t.nextTurn), Committed);
      assert WellFormed(u);
      var e := NewEntry(u, factor, NoticeTurn(t.nextTurn), Notice, NoticeMessage(content));
      AppendKeeps(u, e);
      if Paired(t.entries) {
        PairedAppend(t.entries, e);
      }
    }
  }

  /** A tool result keeps the pairing exactly when the latest assistant entry of the turn awaits it. */
  lemma ToolResultKeeps(t: Thread, factor: real, callId: string, name: string, content: string,
                        summary: Option<string>, iteration: Option<int>)
    requires WellFormed(t)
    ensures var u := AppendToolResult(t, factor, callId, name, content, summary, iteration);
            WellFormed(u)
            && (t.open.Some? && Paired(t.entries) ==> (Paired(u.entries) <==> Awaited(t, callId)))
  {
    if t.open.Some? {
      var e := ResultEntry(t, factor, callId, name, content, summary, iteration);
      AppendKeeps(t, e);
      AwaitedIsAnswered(t, e);
      if Paired(t.entries) && Awaited(t, callId) {
        PairedAppend(t.entries, e);
      }
      assert (t.entries + [e])[|t.entries|] == e;
    }
  }

  // ---------------------------------------------------------------- interrupting

  /** The turn has a result for every call of its assistant entries. */
  ghost predicate FullyAnswered(es: seq<Entry>, turn: TurnId) {
    forall i :: 0 <= i < |es| && es[i].turn == turn && es[i].kind.AssistantEntry? ==>
      CallIds(es[i].message) <= ResultIds(es, turn)
  }

  lemma ResultIdsOf(es: seq<Entry>, turn: TurnId, id: string)
    ensures id in ResultIds(es, turn) <==>
      exists i :: 0 <= i < |es| && es[i].turn == turn && es[i].message.ToolMessage? && es[i].message.toolCallId == id
  {
  }

  lemma SameResultIds(es: seq<Entry>, r: seq<Entry>, turn: TurnId)
    requires |r| == |es|
    requires forall i :: 0 <= i < |es| ==>
               && r[i].turn == es[i].turn
               && (es[i].message.ToolMessage? <==> r[i].message.ToolMessage?)
               && (es[i].message.ToolMessage? ==> r[i].message == es[i].message)
    ensures ResultIds(r, turn) == ResultIds(es, turn)
  {
    forall id ensures id in ResultIds(r, turn) <==> id in ResultIds(es, turn) {
      ResultIdsOf(es, turn, id);
      ResultIdsOf(r, turn, id);
    }
  }

  /** Exactly the unanswered calls of the turn go, in every entry of it, and nothing else changes. */
  lemma RemovesExactlyUnanswered(t: Thread, factor: real, turn: TurnId)
    requires WellFormed(t)
    ensures var es, r := t.entries, RemoveUnmatchedToolCalls(t.entries, factor, turn);
            forall i :: 0 <= i < |es| ==>
              if es[i].turn == turn && es[i].kind.AssistantEntry?
              then r[i].message.content == es[i].message.content
                   && CallIds(r[i].message) == CallIds(es[i].message) * ResultIds(es, turn)
              else r[i] == es[i]
    ensures SameShape(t.entries, RemoveUnmatchedToolCalls(t.entries, factor, turn))
  {
  }

  lemma RemovalKeepsPairs(t: Thread, factor: real, turn: TurnId)
    requires WellFormed(t)
    ensures KeepsPairs(t.entries, RemoveUnmatchedToolCalls(t.entries, factor, turn))
    ensures ResultIds(RemoveUnmatchedToolCalls(t.entries, factor, turn), turn) == ResultIds(t.entries, turn)
    ensures FullyAnswered(RemoveUnmatchedToolCalls(t.entries, factor, turn), turn)
  {
    RemovesExactlyUnanswered(t, factor, turn);
    SameResultIds(t.entries, RemoveUnmatchedToolCalls(t.entries, factor, turn), turn);
  }

  lemma RemovalKeepsCache(es: seq<Entry>, factor: real, turn: TurnId)
    requires CacheAgrees(es, factor)
    ensures CacheAgrees(RemoveUnmatchedToolCalls(es, factor, turn), factor)
  {
  }

  lemma StillFullyAnswered(es: seq<Entry>, e: Entry, turn: TurnId)
    requires FullyAnswered(es, turn) && !e.kind.AssistantEntry?
    ensures FullyAnswered(es + [e], turn)
  {
    forall id | id in ResultIds(es, turn) ensures id in ResultIds(es + [e], turn) {
      ResultIdsOf(es, turn, id);
      ResultIdsOf(es + [e], turn, id);
      assert forall i :: 0 <= i < |es| ==> (es + [e])[i] == es[i];
    }
  }

  /** An interrupted turn is aborted with no unanswered call left in it. */
  lemma InterruptKeeps(t: Thread, factor: real, reason: string)
    requires WellFormed(t)
    ensures WellFormed(InterruptTurn(t, factor, reason))
    ensures Paired(t.entries) ==> Paired(InterruptTurn(t, factor, reason).entries)
    ensures t.open.Some? ==> FullyAnswered(InterruptTurn(t, factor, reason).entries, t.open.value)
  {
    if t.open.Some? {
      var u := t.(entries := RemoveUnmatchedToolCalls(t.entries, factor, t.open.value));
      RemovalKeeps(t, factor);
      AbortKeeps(u, factor, reason);
      StillFullyAnswered(u.entries, NewEntry(u, factor, t.open.value, Notice, NoticeMessage(reason)), t.open.value);
    }
  }

  lemma RemovalKeeps(t: Thread, factor: real)
    requires WellFormed(t) && t.open.Some?
    ensures var u := t.(entries := RemoveUnmatchedToolCalls(t.entries, factor, t.open.value));
            WellFormed(u) && (Paired(t.entries) ==> Paired(u.entries)) && FullyAnswered(u.entries, t.open.value)
  {
    var r := RemoveUnmatchedToolCalls(t.entries, factor, t.open.value);
    RemovesExactlyUnanswered(t, factor, t.open.value);
    RemovalKeepsPairs(t, factor, t.open.value);
    RewriteKeeps(t, r);
    if Paired(t.entries) {
      RewriteKeepsPairing(t.entries, r);
    }
  }

  lemma AbortKeeps(t: Thread, factor: real, reason: string)
    requires WellFormed(t)
    ensures WellFormed(AbortTurn(t, factor, reason))
    ensures Paired(t.entries) ==> Paired(AbortTurn(t, factor, reason).entries)
    ensures t.open.Some? ==> AbortTurn(t, factor, reason).entries
                               == t.entries + [NewEntry(t, factor, t.open.value, Notice, NoticeMessage(reason))]
  {
    AppendToOpenKeeps(t, factor, Notice, NoticeMessage(reason));
    CloseKeeps(AppendToOpen(t, factor, Notice, NoticeMessage(reason)), Aborted);
  }
}
