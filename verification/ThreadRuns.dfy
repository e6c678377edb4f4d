/** Compaction of a safe prefix, and the invariants of every run of thread operations. */
module ThreadRuns {
  import opened Prelude
  import opened Tokens
  import opened ThreadModel
  import opened ThreadInvariant

  /**
    A cut that leaves the open turn alone and falls between two turns or before an assistant
    entry.
   */
  ghost predicate SafeCut(t: Thread, c: int) {
    && 0 < c <= |t.entries|
    && (forall k :: 0 <= k < c && t.open.Some? ==> t.entries[k].turn != t.open.value)
    && (c < |t.entries| ==> t.entries[c - 1].turn != t.entries[c].turn || t.entries[c].kind.AssistantEntry?)
  }

  lemma {:induction false} KeepDistinct(order: seq<TurnId>, gone: set<TurnId>)
    requires Distinct(order)
    ensures Distinct(Keep(order, gone))
  {
    if order != [] {
      assert forall i :: 0 <= i < |order| - 1 ==> order[1..][i] == order[i + 1];
      KeepDistinct(order[1..], gone);
      assert order[0] !in order[1..];
    }
  }

  lemma CutContiguous(es: seq<Entry>, e: Entry, c: int)
    requires Contiguous(es) && 0 < c <= |es| && forall i :: 0 <= i < |es| ==> es[i].turn != e.turn
    ensures Contiguous([e] + es[c..])
  {
    var r := [e] + es[c..];
    forall i, j, k | 0 <= i <= j <= k < |r| && r[i].turn == r[k].turn ensures r[j].turn == r[i].turn {
      if i > 0 {
        assert es[c + i - 1].turn == es[c + k - 1].turn;
      }
    }
  }

  lemma CutSummaryFirst(es: seq<Entry>, e: Entry, c: int)
    requires SummaryFirst(es) && 0 < c <= |es| && forall i :: 0 <= i < |es| ==> es[i].turn != e.turn
    ensures SummaryFirst([e] + es[c..])
  {
    var r := [e] + es[c..];
    assert forall i :: 0 < i < |r| ==> r[i] == es[c + i - 1];
  }

  lemma CutDistinct(es: seq<Entry>, e: Entry, c: int)
    requires DistinctEntries(es, e.id) && 0 < c <= |es|
    ensures DistinctEntries([e] + es[c..], e.id + 1)
  {
    var r := [e] + es[c..];
    assert forall i :: 0 < i < |r| ==> r[i] == es[c + i - 1];
  }

  lemma CutCompatible(es: seq<Entry>, e: Entry, c: int)
    requires (forall i :: 0 <= i < |es| ==> Compatible(es[i].kind, es[i].message)) && 0 < c <= |es|
    requires Compatible(e.kind, e.message)
    ensures forall i :: 0 <= i < |[e] + es[c..]| ==> Compatible(([e] + es[c..])[i].kind, ([e] + es[c..])[i].message)
  {
  }

  lemma CutKeepsEntries(t: Thread, e: Entry, c: int)
    requires WellFormed(t) && 0 < c <= |t.entries|
    requires e.id == t.nextEntry && e.turn !in t.turns && Compatible(e.kind, e.message)
    ensures var r := [e] + t.entries[c..];
            Contiguous(r) && SummaryFirst(r) && DistinctEntries(r, t.nextEntry + 1)
            && forall i :: 0 <= i < |r| ==> Compatible(r[i].kind, r[i].message)
  {
    assert forall i :: 0 <= i < |t.entries| ==> t.entries[i].turn != e.turn;
    CutContiguous(t.entries, e, c);
    CutSummaryFirst(t.entries, e, c);
    CutDistinct(t.entries, e, c);
    CutCompatible(t.entries, e, c);
  }

  lemma RemainingTurns(t: Thread, c: int, i: int)
    requires KnownTurns(t) && 0 < c <= |t.entries| && c <= i < |t.entries|
    ensures t.entries[i].turn in t.turns - (TurnsOf(t.entries[..c]) - TurnsOf(t.entries[c..]))
  {
    assert t.entries[c..][i - c] == t.entries[i] && t.entries[i] in t.entries[c..];
  }

  lemma CutKeepsTurns(t: Thread, factor: real, c: int, summary: string)
    requires KnownTurns(t) && 0 < c <= |t.entries|
    ensures KnownTurns(ReplacePrefix(t, factor, c, summary))
  {
    var u := ReplacePrefix(t, factor, c, summary);
    var gone := TurnsOf(t.entries[..c]) - TurnsOf(t.entries[c..]);
    var id := CompactionTurn(t.nextTurn);
    assert id !in t.turns;
    KeepDistinct(t.order, gone);
    assert id !in Keep(t.order, gone);
    forall i | 0 <= i < |u.entries| ensures u.entries[i].turn in u.turns {
      if i > 0 {
        RemainingTurns(t, c, c + i - 1);
      }
    }
  }

  lemma OpenTurnRemains(t: Thread, c: int)
    requires KnownTurns(t) && OpenTurnLast(t) && SafeCut(t, c) && t.open.Some?
    ensures c < |t.entries| && t.open.value in t.turns - (TurnsOf(t.entries[..c]) - TurnsOf(t.entries[c..]))
  {
    var last := |t.entries| - 1;
    assert c <= last;
    RemainingTurns(t, c, last);
  }

  lemma CutKeepsStatuses(t: Thread, gone: set<TurnId>, id: TurnId)
    requires forall i :: i in t.turns ==> (t.turns[i].Open? <==> t.open == Some(i))
    requires id !in t.turns && (t.open.Some? ==> t.open.value in t.turns)
    ensures var turns := (t.turns - gone)[id := Committed];
            forall i :: i in turns ==> (turns[i].Open? <==> t.open == Some(i))
  {
  }

  lemma OpenTurnLastIn(u: Thread, t: Thread, turns: map<TurnId, TurnStatus>)
    requires u.open == t.open && u.turns == turns
    requires forall i :: i in turns ==> (turns[i].Open? <==> t.open == Some(i))
    requires OpenTurnLast(t)
    requires t.open.Some? ==> t.open.value in turns && u.entries != [] && u.entries[|u.entries| - 1] == t.entries[|t.entries| - 1]
    ensures OpenTurnLast(u)
  {
  }

  lemma OpenTurnKept(t: Thread, factor: real, c: int, summary: string, gone: set<TurnId>)
    requires OpenTurnLast(t) && 0 < c <= |t.entries| && gone == TurnsOf(t.entries[..c]) - TurnsOf(t.entries[c..])
    requires CompactionTurn(t.nextTurn) !in t.turns
    requires t.open.Some? ==> c < |t.entries| && t.open.value in t.turns - gone
    ensures OpenTurnLast(ReplacePrefix(t, factor, c, summary))
  {
    var u, id := ReplacePrefix(t, factor, c, summary), CompactionTurn(t.nextTurn);
    CutKeepsStatuses(t, gone, id);
    if t.open.Some? {
      assert u.entries[|u.entries| - 1] == t.entries[|t.entries| - 1];
    }
    OpenTurnLastIn(u, t, (t.turns - gone)[id := Committed]);
  }

  lemma CutKeepsOpenTurn(t: Thread, factor: real, c: int, summary: string)
    requires KnownTurns(t) && OpenTurnLast(t) && SafeCut(t, c)
    ensures OpenTurnLast(ReplacePrefix(t, factor, c, summary))
  {
    assert CompactionTurn(t.nextTurn) !in t.turns;
    if t.open.Some? {
      OpenTurnRemains(t, c);
    }
    OpenTurnKept(t, factor, c, summary, TurnsOf(t.entries[..c]) - TurnsOf(t.entries[c..]));
  }

  lemma {:induction false} CutKeepsPairing(es: seq<Entry>, e: Entry, c: int)
    requires Paired(es) && Contiguous(es) && 0 < c <= |es| && !e.kind.ToolResult?
    requires c < |es| ==> es[c - 1].turn != es[c].turn || es[c].kind.AssistantEntry?
    ensures Paired([e] + es[c..])
  {
    var r := [e] + es[c..];
    assert forall i :: 0 < i < |r| ==> r[i] == es[c + i - 1];
    forall i | 0 <= i < |r| && r[i].kind.ToolResult? ensures Answered(r, i) {
      var j := c + i - 1;
      assert Answered(es, j);
      var a :| LatestAssistant(es, a, j) && es[a].turn == es[j].turn && es[j].message.toolCallId in CallIds(es[a].message);
      assert LatestAssistant(r, a - c + 1, i);
    }
  }

  /** Replacing a safe prefix by a summary keeps every invariant, the open turn included. */
  lemma CompactionKeeps(t: Thread, factor: real, c: int, summary: string)
    requires WellFormed(t) && SafeCut(t, c)
    ensures var u := ReplacePrefix(t, factor, c, summary);
            WellFormed(u) && (Paired(t.entries) ==> Paired(u.entries))
            && u.open == t.open && LedBySummary(u.entries, summary) && u.entries[1..] == t.entries[c..]
  {
    var u := ReplacePrefix(t, factor, c, summary);
    CutKeepsEntries(t, u.entries[0], c);
    CutKeepsTurns(t, factor, c, summary);
    CutKeepsOpenTurn(t, factor, c, summary);
    if Paired(t.entries) {
      CutKeepsPairing(t.entries, u.entries[0], c);
    }
  }

  // ---------------------------------------------------------------- runs

  datatype Op =
    | Begin(input: string)
    | Commit
    | Abort(reason: string)
    | Interrupt(reason: string)
    | AppendReply(content: string, calls: Option<seq<ToolCall>>)
    | AppendResult(callId: string, name: string, content: string, summary: Option<string>, iteration: Option<int>)
    | Notify(content: string)
    | Truncate(i: nat, content: string)
    | Elide(i: nat, content: string)
    | Compact(count: int, text: string)
    | Recalibrate(factor: real)

  datatype Session = Session(thread: Thread, factor: real)

  function Apply(s: Session, op: Op): Session {
    var t, f := s.thread, s.factor;
    match op
    case Begin(input) => s.(thread := BeginTurn(t, f, input))
    case Commit => s.(thread := CommitTurn(t))
    case Abort(reason) => s.(thread := AbortTurn(t, f, reason))
    case Interrupt(reason) => s.(thread := InterruptTurn(t, f, reason))
    case AppendReply(content, calls) => s.(thread := AppendAssistant(t, f, content, calls))
    case AppendResult(id, name, content, summary, iteration) =>
      s.(thread := AppendToolResult(t, f, id, name, content, summary, iteration))
    case Notify(content) => s.(thread := AddNotice(t, f, content))
    case Truncate(i, content) => if i < |t.entries| then s.(thread := TruncateAt(t, f, i, content)) else s
    case Elide(i, content) => if i < |t.entries| then s.(thread := ElideAt(t, f, i, content)) else s
    case Compact(count, summary) => s.(thread := ReplacePrefix(t, f, count, summary))
    case Recalibrate(factor) => Session(Reestimate(t, factor), factor)
  }

  /** What the callers owe: tool results answer the latest assistant entry, and cuts are safe. */
  ghost predicate Proper(s: Session, op: Op) {
    match op
    case AppendResult(id, _, _, _, _) => s.thread.open.None? || Awaited(s.thread, id)
    case Compact(count, _) => count <= 0 || SafeCut(s.thread, count)
    case _ => true
  }

  ghost predicate Invariant(s: Session) {
    WellFormed(s.thread) && Paired(s.thread.entries) && CacheAgrees(s.thread.entries, s.factor)
  }

  function Run(s: Session, ops: seq<Op>): Session
    decreases |ops|
  {
    if ops == [] then s else Run(Apply(s, ops[0]), ops[1..])
  }

  /** A turn is open from its beginning until it is committed, aborted or interrupted, and at no other time. */
  lemma OpenBetweenBeginAndEnd(s: Session, op: Op)
    ensures Apply(s, op).thread.open.Some?
            <==> match op
                 case Begin(_) => true
                 case Commit => false
                 case Abort(_) => false
                 case Interrupt(_) => false
                 case _ => s.thread.open.Some?
  {
  }

  /** A run takes all its operations, one after the other. */
  lemma {:induction false} RunTakesEachStep(s: Session, ops: seq<Op>, op: Op)
    ensures Run(s, ops + [op]) == Apply(Run(s, ops), op)
    decreases |ops|
  {
    if ops == [] {
      assert (ops + [op])[1..] == [];
    } else {
      assert (ops + [op])[1..] == ops[1..] + [op];
      RunTakesEachStep(Apply(s, ops[0]), ops[1..], op);
    }
  }

  ghost predicate ProperRun(s: Session, ops: seq<Op>)
    decreases |ops|
  {
    ops != [] ==> Proper(s, ops[0]) && ProperRun(Apply(s, ops[0]), ops[1..])
  }

  lemma RecalibrationKeeps(t: Thread, factor: real)
    requires WellFormed(t)
    ensures WellFormed(Reestimate(t, factor)) && CacheAgrees(Reestimate(t, factor).entries, factor)
    ensures Paired(t.entries) ==> Paired(Reestimate(t, factor).entries)
  {
    var r := Reestimate(t, factor).entries;
    assert SameShape(t.entries, r) && KeepsPairs(t.entries, r);
    RewriteKeeps(t, r);
    assert t.(entries := r) == Reestimate(t, factor);
    if Paired(t.entries) {
      RewriteKeepsPairing(t.entries, r);
    }
  }

  lemma ElideKeeps(t: Thread, factor: real, i: nat, content: string)
    requires WellFormed(t) && CacheAgrees(t.entries, factor) && i < |t.entries|
    ensures var u := ElideAt(t, factor, i, content);
            WellFormed(u) && CacheAgrees(u.entries, factor) && (Paired(t.entries) ==> Paired(u.entries))
  {
    var r := ElideAt(t, factor, i, content).entries;
    if t.entries[i].kind.ToolResult? && t.entries[i].message.ToolMessage? {
      assert r[i].message == WithContent(t.entries[i].message, content);
      RetextKeeps(t, r, i);
      RetextKeepsCache(t.entries, r, i, factor);
    } else {
      assert r == t.entries;
    }
  }

  lemma TruncateKeeps(t: Thread, factor: real, i: nat, content: string)
    requires WellFormed(t) && CacheAgrees(t.entries, factor) && i < |t.entries|
    ensures var u := TruncateAt(t, factor, i, content);
            WellFormed(u) && CacheAgrees(u.entries, factor) && (Paired(t.entries) ==> Paired(u.entries))
  {
    var r := TruncateAt(t, factor, i, content).entries;
    assert r[i].message == WithContent(t.entries[i].message, content);
    RetextKeeps(t, r, i);
    RetextKeepsCache(t.entries, r, i, factor);
  }

  lemma CacheThroughTurns(s: Session, op: Op)
    requires WellFormed(s.thread) && CacheAgrees(s.thread.entries, s.factor)
    requires op.Begin? || op.Commit? || op.Abort? || op.Interrupt? || op.AppendReply? || op.AppendResult? || op.Notify?
    ensures CacheAgrees(Apply(s, op).thread.entries, s.factor)
  {
    if op.Interrupt? && s.thread.open.Some? {
      RemovalKeepsCache(s.thread.entries, s.factor, s.thread.open.value);
    }
  }

  lemma TurnOpKeeps(s: Session, op: Op)
    requires Invariant(s) && Proper(s, op)
    requires op.Begin? || op.Commit? || op.Abort? || op.Interrupt? || op.AppendReply? || op.AppendResult? || op.Notify?
    ensures Invariant(Apply(s, op))
  {
    var t, f := s.thread, s.factor;
    CacheThroughTurns(s, op);
    match op
    case Begin(input) => BeginKeeps(t, f, input);
    case Commit => CloseKeeps(t, Committed);
    case Abort(reason) => AbortKeeps(t, f, reason);
    case Interrupt(reason) => InterruptKeeps(t, f, reason);
    case AppendReply(content, calls) =>
      AppendToOpenKeeps(t, f, AssistantEntry, Chat(Assistant, content, if calls == Some([]) then None else calls));
    case AppendResult(id, name, content, summary, iteration) =>
      ToolResultKeeps(t, f, id, name, content, summary, iteration);
    case Notify(content) => AddNoticeKeeps(t, f, content);
    case _ =>
  }

  lemma TextOpKeeps(s: Session, op: Op)
    requires Invariant(s) && (op.Truncate? || op.Elide?)
    ensures Invariant(Apply(s, op))
  {
    if op.i < |s.thread.entries| {
      TruncateKeeps(s.thread, s.factor, op.i, op.content);
      ElideKeeps(s.thread, s.factor, op.i, op.content);
    }
  }

  lemma CacheThroughCompaction(t: Thread, factor: real, count: int, summary: string)
    requires CacheAgrees(t.entries, factor)
    ensures CacheAgrees(ReplacePrefix(t, factor, count, summary).entries, factor)
  {
  }

  lemma CompactKeeps(s: Session, op: Op)
    requires Invariant(s) && op.Compact? && Proper(s, op)
    ensures Invariant(Apply(s, op))
  {
    CacheThroughCompaction(s.thread, s.factor, op.count, op.text);
    if op.count > 0 {
      CompactionKeeps(s.thread, s.factor, op.count, op.text);
    }
  }

  lemma ApplyKeeps(s: Session, op: Op)
    requires Invariant(s) && Proper(s, op)
    ensures Invariant(Apply(s, op))
  {
    match op
    case Truncate(_, _) => TextOpKeeps(s, op);
    case Elide(_, _) => TextOpKeeps(s, op);
    case Compact(_, _) => CompactKeeps(s, op);
    case Recalibrate(factor) => RecalibrationKeeps(s.thread, factor);
    case _ => TurnOpKeeps(s, op);
  }

  /**
    Along every proper run: turns stay contiguous, an open turn stays last, a summary stays
    first and alone, every tool result stays after its call, and cached estimates stay fresh.
   */
  lemma {:induction false} RunKeeps(s: Session, ops: seq<Op>)
    requires Invariant(s) && ProperRun(s, ops)
    ensures Invariant(Run(s, ops))
    decreases |ops|
  {
    if ops != [] {
      ApplyKeeps(s, ops[0]);
      RunKeeps(Apply(s, ops[0]), ops[1..]);
    }
  }
}
