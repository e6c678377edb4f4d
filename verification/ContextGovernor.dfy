/** The governor: three stages that rewrite the thread until it fits the budget. */
module ContextGovernor {
  import opened Prelude
  import opened Tokens
  import opened ThreadRuns
  import M = ThreadModel
  import opened ConversationThread
  import opened CompactionCuts
  import opened CompactionSelection
  import opened ToolAging
  import opened HardTruncation

  function Total(es: seq<Entry>): nat {
    if es == [] then 0 else Total(es[..|es| - 1]) + es[|es| - 1].tokens
  }

  /** The first `c` entries give way to the summary of selection `s`, if there are a selection and a summary. */
  ghost predicate Summarised(t: M.Thread, u: M.Thread, factor: real, summarize: Selection -> Option<string>, c: nat, s: Option<Selection>) {
    if s.Some? && summarize(s.value).Some? then
      && u == M.ReplacePrefix(t, factor, c, summarize(s.value).value)
      && (0 < c <= |t.entries| ==> M.LedBySummary(u.entries, summarize(s.value).value))
    else u == t
  }

  /** The selection of an automatic compaction: everything before the best cut. */
  ghost predicate Chooses(t: M.Thread, budget: nat, body: string -> string, ranges: seq<Range>, c: nat, s: Option<Selection>) {
    && Tiles(t, ranges) && c <= |t.entries|
    && if ranges == [] then s == None else BestCut(t, ranges, budget, c) && Selects(t.entries, c, body, s)
  }

  /** The selection of a manual compaction: everything but the last `keep` closed turns. */
  ghost predicate ChoosesManually(t: M.Thread, keep: nat, body: string -> string, ranges: seq<Range>, c: nat, s: Option<Selection>) {
    && Tiles(t, ranges) && c <= |t.entries|
    && if |ranges| <= keep then s == None else KeepsLast(ranges, keep, c) && Selects(t.entries, c, body, s)
  }

  ghost predicate Compacts(t: M.Thread, u: M.Thread, factor: real, preserve: int, body: string -> string,
                           summarize: Selection -> Option<string>) {
    exists ranges, c, s :: Chooses(t, Max(1, preserve), body, ranges, c, s) && Summarised(t, u, factor, summarize, c, s)
  }

  class ContextGovernor {
    const policy: Policy
    const estimator: TokenEstimator
    const elide: Entry -> string
    const body: string -> string
    /** The summarizer; None when the request was aborted meanwhile or the summarizer failed. */
    const summarize: Selection -> Option<string>

    constructor (policy: Policy, estimator: TokenEstimator, elide: Entry -> string, body: string -> string,
                 summarize: Selection -> Option<string>)
      ensures this.policy == policy && this.estimator == estimator && this.elide == elide && this.body == body
      ensures this.summarize == summarize
    {
      this.policy, this.estimator, this.elide, this.body, this.summarize := policy, estimator, elide, body, summarize;
    }

    /** The factor is within its clamp, and the thread keeps its invariant. */
    ghost predicate Governs(thread: ConversationThread)
      reads thread, thread.estimator
    {
      thread.estimator == estimator && 0.5 <= thread.Factor() <= 2.0 && thread.Valid()
    }

    /** The inner loop of the scan: the entries of one turn. */
    method ScanTurn(entries: seq<Entry>, start: nat) returns (end: nat, tokens: nat, compactionOnly: bool)
      requires start < |entries|
      ensures start < end <= |entries| && tokens == Sum(entries, start, end)
      ensures forall k :: start <= k < end ==> entries[k].turn == entries[start].turn
      ensures end < |entries| ==> entries[end].turn != entries[start].turn
      ensures compactionOnly <==> forall k :: start <= k < end ==> entries[k].kind.Compaction?
    {
      end, tokens, compactionOnly := start, 0, true;
      while end < |entries| && entries[end].turn == entries[start].turn
        invariant start <= end <= |entries|
        invariant forall k :: start <= k < end ==> entries[k].turn == entries[start].turn
        invariant tokens == Sum(entries, start, end)
        invariant compactionOnly <==> forall k :: start <= k < end ==> entries[k].kind.Compaction?
      {
        SumSplits(entries, start, end, end + 1);
        tokens := tokens + entries[end].tokens;
        compactionOnly := compactionOnly && entries[end].kind.Compaction?;
        end := end + 1;
      }
    }

    method GetCompactableRanges(thread: ConversationThread) returns (ranges: seq<Range>)
      requires M.WellFormed(thread.State())
      ensures Tiles(thread.State(), ranges)
    {
      ranges := [];
      var entries := thread.entries;
      var index := 0;
      while index < |entries|
        invariant TiledUpTo(thread.State(), ranges, index)
      {
        var start, turn := index, entries[index].turn;
        var tokens, compactionOnly;
        index, tokens, compactionOnly := ScanTurn(entries, start);
        TileStep(thread.State(), ranges, start, index, tokens, compactionOnly);
        if thread.openTurnId != Some(turn) && !compactionOnly && turn in thread.turns && !thread.turns[turn].Open? {
          ranges := ranges + [Range(turn, start, index, tokens)];
        }
      }
    }

    /** Keeps exactly the last `preserveFullTurns` closed turns; no selection if there are no more than those. */
    method SelectManualPrefix(thread: ConversationThread) returns (selection: Option<Selection>)
      requires M.WellFormed(thread.State())
      ensures exists ranges, c :: ChoosesManually(thread.State(), policy.preserveFullTurns, body, ranges, c, selection)
    {
      var ranges := GetCompactableRanges(thread);
      if |ranges| <= policy.preserveFullTurns {
        assert ChoosesManually(thread.State(), policy.preserveFullTurns, body, ranges, 0, None);
        return None;
      }
      var entryCount :=
        if policy.preserveFullTurns == 0 then ranges[|ranges| - 1].end else ranges[|ranges| - policy.preserveFullTurns].start;
      LastTurnsKept(thread.State(), ranges, policy.preserveFullTurns, entryCount);
      selection := BuildCompactionSelection(thread.entries, entryCount, body);
      assert ChoosesManually(thread.State(), policy.preserveFullTurns, body, ranges, entryCount, selection);
    }

    method FindSafeSuffixStart(entries: seq<Entry>, range: Range, tokenBudget: nat) returns (at: Option<nat>)
      requires range.start < range.end <= |entries|
      requires forall k :: 0 <= k < |entries| ==> M.Compatible(entries[k].kind, entries[k].message)
      ensures at.Some? ==> FittingSplit(entries, range, tokenBudget, at.value)
                           && forall j :: range.start < j < at.value ==> !FittingSplit(entries, range, tokenBudget, j)
      ensures at.None? ==> forall j :: !FittingSplit(entries, range, tokenBudget, j)
    {
      for index := range.start + 1 to range.end
        invariant forall j :: range.start < j < index ==> !FittingSplit(entries, range, tokenBudget, j)
      {
        var e := entries[index];
        if !e.kind.AssistantEntry? || !e.message.Chat? || !e.message.role.Assistant? {
          continue;
        }
        if Sum(entries, index, range.end) <= tokenBudget {
          return Some(index);
        }
      }
      at := None;
    }

    /** The cut of an automatic compaction, found from the newest turn backwards. */
    method FindBoundary(entries: seq<Entry>, ranges: seq<Range>, tokenBudget: nat, ghost t: M.Thread) returns (boundary: nat)
      requires t.entries == entries
      requires M.WellFormed(t) && Positive(t.entries) && Tiles(t, ranges) && ranges != []
      ensures BestCut(t, ranges, tokenBudget, boundary)
    {
      EarlierStarts(t, ranges);
      var retainedTokens := 0;
      var last := |ranges| - 1;
      boundary := ranges[last].end;
      var index := last;
      while index >= 0
        invariant -1 <= index <= last
        invariant boundary == if index == last then ranges[last].end else ranges[index + 1].start
        invariant retainedTokens == Sum(t.entries, boundary, ranges[last].end) <= tokenBudget
        invariant index < last ==> ranges[last].tokens <= tokenBudget
      {
        var range := ranges[index];
        RunsAddUp(t, ranges, index, boundary);
        if retainedTokens + range.tokens <= tokenBudget {
          retainedTokens := retainedTokens + range.tokens;
          boundary := range.start;
          index := index - 1;
          continue;
        }
        if retainedTokens == 0 {
          var split := FindSafeSuffixStart(entries, range, tokenBudget);
          boundary := if split.Some? then split.value else range.start;
        } else {
          boundary := range.end;
          assert LongestRun(t.entries, ranges, tokenBudget, index + 1);
        }
        return;
      }
      assert LongestRun(t.entries, ranges, tokenBudget, 0);
    }

    /** The best cut, unless there is nothing closed, everything fits, or there is nothing to summarise. */
    method SelectAutomaticPrefix(thread: ConversationThread, preserveRecentTokens: int) returns (selection: Option<Selection>)
      requires Governs(thread)
      ensures exists ranges, c :: Chooses(thread.State(), Max(1, preserveRecentTokens), body, ranges, c, selection)
    {
      var tokenBudget := Max(1, preserveRecentTokens);
      var ranges := GetCompactableRanges(thread);
      if ranges == [] {
        assert Chooses(thread.State(), tokenBudget, body, ranges, 0, None);
        return None;
      }
      CachedTokensArePositive(thread.entries, thread.Factor());
      var boundary := FindBoundary(thread.entries, ranges, tokenBudget, thread.State());
      RetainedWithinBudget(thread.State(), ranges, tokenBudget, boundary);
      selection := BuildCompactionSelection(thread.entries, boundary, body);
      assert Chooses(thread.State(), tokenBudget, body, ranges, boundary, selection);
    }

    // -------------------------------------------------------------- stages

    method ApplyToolAging(thread: ConversationThread) returns (changed: bool)
      requires Governs(thread)
      modifies thread
      ensures Governs(thread) && (old(thread.Paired()) ==> thread.Paired())
      ensures thread.State() == Aged(old(thread.State()), policy, thread.Factor(), elide)
      ensures !changed ==> thread.State() == old(thread.State())
      ensures StaysWithinQuota(old(thread.entries), policy, thread.Factor(), elide) ==>
                KeepsRecent(old(thread.entries), thread.entries, policy, thread.Factor())
    {
      ghost var t, factor := thread.State(), thread.Factor();
      AgingKeeps(t, policy, factor, elide);
      changed := RewriteToolResults(thread);
      if StaysWithinQuota(t.entries, policy, factor, elide) {
        RecentResultsStay(t, policy, factor, elide);
      }
    }

    method RewriteToolResults(thread: ConversationThread) returns (changed: bool)
      requires thread.estimator == estimator && M.DistinctEntries(thread.entries, thread.entryCounter)
      modifies thread`entries
      ensures thread.State() == Aged(old(thread.State()), policy, thread.Factor(), elide)
      ensures !changed ==> thread.entries == old(thread.entries)
    {
      var keepFrom := KeepFrom(thread.entries, policy);
      var clipped := ClipLongResults(thread);
      ClipKeepsIds(old(thread.entries), policy, thread.Factor(), thread.entryCounter);
      var aged := AgeResults(thread, keepFrom);
      changed := clipped || aged;
    }

    method ClipLongResults(thread: ConversationThread) returns (changed: bool)
      requires thread.estimator == estimator && M.DistinctEntries(thread.entries, thread.entryCounter)
      modifies thread`entries
      ensures thread.entries == ClipResults(old(thread.entries), policy, thread.Factor())
      ensures !changed ==> thread.entries == old(thread.entries)
    {
      changed := false;
      ghost var was := thread.entries;
      for i := 0 to |thread.entries|
        invariant |thread.entries| == |was|
        invariant forall k :: 0 <= k < |was| ==>
                    thread.entries[k] == if k < i then ClipResult(was[k], policy, thread.Factor()) else was[k]
        invariant !changed ==> thread.entries == was
      {
        var e := thread.entries[i];
        if e.kind.ToolResult? && e.tokens > policy.maxToolResultTokens {
          assert FirstWith(thread.entries, e.id, i);
          thread.TruncateEntry(e.id, HeadTail(e.message.content, policy.maxToolResultTokens));
          changed := true;
        }
      }
    }

    /** Elides the result at `i` when it is old or the quota is exceeded, and it has not been elided before. */
    method AgeResult(thread: ConversationThread, i: nat, keepFrom: int, toolTokens: nat) returns (elided: bool)
      requires thread.estimator == estimator && M.DistinctEntries(thread.entries, thread.entryCounter) && i < |thread.entries|
      modifies thread`entries
      ensures var e := old(thread.entries)[i];
              elided <==> e.kind.ToolResult? && !e.elided && (IterationOf(e) < keepFrom || toolTokens > policy.toolResultQuota)
      ensures thread.entries == if elided then ElideOne(old(thread.entries), i, thread.Factor(), elide) else old(thread.entries)
      ensures M.DistinctEntries(thread.entries, thread.entryCounter)
    {
      var e := thread.entries[i];
      var shouldAge := IterationOf(e) < keepFrom || toolTokens > policy.toolResultQuota;
      if !e.kind.ToolResult? || !shouldAge || e.elided {
        return false;
      }
      assert FirstWith(thread.entries, e.id, i);
      thread.ElideToolResult(e.id, elide(e));
      elided := true;
    }

    method AgeResults(thread: ConversationThread, keepFrom: int) returns (changed: bool)
      requires thread.estimator == estimator && M.DistinctEntries(thread.entries, thread.entryCounter)
      modifies thread`entries
      ensures thread.entries == AgeFrom(old(thread.entries), 0, keepFrom, policy.toolResultQuota, thread.Factor(), elide)
      ensures !changed ==> thread.entries == old(thread.entries)
    {
      changed := false;
      ghost var was := thread.entries;
      var toolTokens := ToolTokens(thread.entries);
      for i := 0 to |thread.entries|
        invariant |thread.entries| == |was| && toolTokens == ToolTokens(thread.entries)
        invariant M.DistinctEntries(thread.entries, thread.entryCounter)
        invariant AgeFrom(thread.entries, i, keepFrom, policy.toolResultQuota, thread.Factor(), elide)
                  == AgeFrom(was, 0, keepFrom, policy.toolResultQuota, thread.Factor(), elide)
        invariant !changed ==> thread.entries == was
      {
        var elided := AgeResult(thread, i, keepFrom, toolTokens);
        if elided {
          changed := true;
          toolTokens := ToolTokens(thread.entries);
          if toolTokens <= policy.toolResultQuota {
            break;
          }
        }
      }
    }

    method ApplyHardTruncation(thread: ConversationThread, budget: int)
      requires Governs(thread)
      modifies thread
      ensures Governs(thread) && (old(thread.Paired()) ==> thread.Paired()) && thread.openTurnId == old(thread.openTurnId)
      ensures thread.State() == if Total(old(thread.entries)) <= budget then old(thread.State())
                                else TruncateFrom(old(thread.State()), thread.Factor(), Cap(budget, |old(thread.entries)|), 0)
    {
      if Total(thread.entries) <= budget {
        return;
      }
      var cap := Cap(budget, |thread.entries|);
      TruncationKeeps(thread.State(), thread.Factor(), cap, 0);
      TruncateAll(thread, cap);
    }

    method TruncateAll(thread: ConversationThread, cap: nat)
      requires thread.estimator == estimator && cap >= MIN_MESSAGE_CAP && 0.0 <= thread.Factor() <= 2.0
      requires M.DistinctEntries(thread.entries, thread.entryCounter)
      modifies thread
      ensures thread.State() == TruncateFrom(old(thread.State()), thread.Factor(), cap, 0)
    {
      ghost var factor := thread.Factor();
      ghost var goal := TruncateFrom(thread.State(), factor, cap, 0);
      WalkSteps(factor, cap, goal);
      TruncateLongMessages(thread, cap, Walk(factor, cap, goal));
    }

    method CutMessage(thread: ConversationThread, i: nat, cap: nat)
      requires i < |thread.entries| && M.DistinctEntries(thread.entries, thread.entryCounter)
      requires thread.entries[i].tokens > cap >= MIN_MESSAGE_CAP && 0.0 <= thread.Factor() <= 2.0
      modifies thread
      ensures thread.State() == CutAndNotify(old(thread.State()), thread.Factor(), cap, i)
      ensures M.DistinctEntries(thread.entries, thread.entryCounter) && i < |thread.entries|
      ensures OverCap(thread.entries, cap, i + 1) < OverCap(old(thread.entries), cap, i)
    {
      CutAndNotifyMeasure(thread.State(), thread.Factor(), cap, i);
      CutAndNotifyIds(thread.State(), thread.Factor(), cap, i);
      var e := thread.entries[i];
      assert FirstWith(thread.entries, e.id, i);
      thread.TruncateEntry(e.id, CutText(e, cap));
      thread.AddNotice(CutNotice(e.kind));
    }

    /** The body of the walk. */
    method LimitMessage(thread: ConversationThread, i: nat, cap: nat)
      requires i < |thread.entries| && M.DistinctEntries(thread.entries, thread.entryCounter)
      requires cap >= MIN_MESSAGE_CAP && 0.0 <= thread.Factor() <= 2.0
      modifies thread
      ensures M.DistinctEntries(thread.entries, thread.entryCounter) && i < |thread.entries|
      ensures thread.State() == Limited(old(thread.State()), thread.Factor(), cap, i)
      ensures var before, after := OverCap(old(thread.entries), cap, i), OverCap(thread.entries, cap, i + 1);
              after < before || (after == before && |thread.entries| == |old(thread.entries)|)
    {
      if thread.entries[i].tokens > cap {
        CutMessage(thread, i, cap);
      }
    }

    /** The walk over the growing list; `leads` is kept by its steps, and so holds at its end. */
    method TruncateLongMessages(thread: ConversationThread, cap: nat, ghost leads: (M.Thread, nat) -> bool)
      requires thread.estimator == estimator && cap >= MIN_MESSAGE_CAP && 0.0 <= thread.Factor() <= 2.0
      requires M.DistinctEntries(thread.entries, thread.entryCounter) && leads(thread.State(), 0)
      requires forall t: M.Thread, k: nat :: leads(t, k) && k < |t.entries| ==> leads(Limited(t, thread.Factor(), cap, k), k + 1)
      modifies thread
      ensures leads(thread.State(), |thread.entries|)
    {
      var i := 0;
      while i < |thread.entries|
        invariant i <= |thread.entries| && M.DistinctEntries(thread.entries, thread.entryCounter)
        invariant leads(thread.State(), i)
        decreases OverCap(thread.entries, cap, i), |thread.entries| - i
      {
        LimitMessage(thread, i, cap);
        i := i + 1;
      }
    }

    /** False when the summarizer gave no summary. */
    method ApplyTurnCompaction(thread: ConversationThread, budget: int) returns (completed: bool)
      requires Governs(thread)
      modifies thread
      ensures Governs(thread) && (old(thread.Paired()) ==> thread.Paired()) && thread.openTurnId == old(thread.openTurnId)
      ensures if Total(old(thread.entries)) <= budget then thread.State() == old(thread.State())
              else Compacts(old(thread.State()), thread.State(), thread.Factor(), Min(policy.preserveRecentTokens, Max(0, budget)),
                            body, summarize)
      ensures !completed ==> thread.State() == old(thread.State())
    {
      if Total(thread.entries) <= budget {
        return true;
      }
      ghost var t := thread.State();
      var preserve := Min(policy.preserveRecentTokens, Max(0, budget));
      var selection := SelectAutomaticPrefix(thread, preserve);
      ghost var ranges, c :| Chooses(t, Max(1, preserve), body, ranges, c, selection);
      if selection.None? {
        assert Summarised(t, t, thread.Factor(), summarize, c, selection);
        return true;
      }
      BestCutIsSafe(t, ranges, Max(1, preserve), c);
      completed := CompactPrefix(thread, selection.value);
      assert Summarised(t, thread.State(), thread.Factor(), summarize, c, selection);
    }

    method CompactPrefix(thread: ConversationThread, selection: Selection) returns (completed: bool)
      requires Governs(thread) && SafeCut(thread.State(), selection.entryCount)
      modifies thread
      ensures Governs(thread) && (old(thread.Paired()) ==> thread.Paired()) && thread.openTurnId == old(thread.openTurnId)
      ensures completed == summarize(selection).Some?
      ensures if completed
              then Summarised(old(thread.State()), thread.State(), thread.Factor(), summarize, selection.entryCount, Some(selection))
              else thread.State() == old(thread.State())
    {
      var summary := summarize(selection);
      if summary.None? {
        return false;
      }
      CompactionKeeps(thread.State(), thread.Factor(), selection.entryCount, summary.value);
      CacheThroughCompaction(thread.State(), thread.Factor(), selection.entryCount, summary.value);
      thread.ReplacePrefixWithCompaction(selection.entryCount, summary.value);
      completed := true;
    }

    method CompactTurnsNow(thread: ConversationThread) returns (compacted: bool)
      requires Governs(thread)
      modifies thread
      ensures Governs(thread) && (old(thread.Paired()) ==> thread.Paired()) && thread.openTurnId == old(thread.openTurnId)
      ensures exists ranges, c, s ::
                ChoosesManually(old(thread.State()), policy.preserveFullTurns, body, ranges, c, s)
                && Summarised(old(thread.State()), thread.State(), thread.Factor(), summarize, c, s)
                && (compacted <==> s.Some? && summarize(s.value).Some?)
    {
      ghost var t := thread.State();
      var selection := SelectManualPrefix(thread);
      ghost var ranges, c :| ChoosesManually(t, policy.preserveFullTurns, body, ranges, c, selection);
      if selection.None? {
        compacted := false;
      } else {
        ManualCutIsSafe(t, policy.preserveFullTurns, body, ranges, c, selection);
        compacted := CompactPrefix(thread, selection.value);
      }
      assert Summarised(t, thread.State(), thread.Factor(), summarize, c, selection);
    }

    /**
      The stages in turn, each only while the thread is over budget. The result is the new total,
      or None when the summarizer gave no summary: then only tool aging was done.
     */
    method Govern(thread: ConversationThread, threadTokenBudget: int)
      returns (tokensAfter: Option<nat>, ghost aged: M.Thread, ghost compacted: M.Thread)
      requires Governs(thread)
      modifies thread
      ensures Governs(thread) && (old(thread.Paired()) ==> thread.Paired()) && thread.openTurnId == old(thread.openTurnId)
      ensures tokensAfter.Some? ==> tokensAfter.value == Total(thread.entries)
      ensures aged == if Total(old(thread.entries)) <= threadTokenBudget then old(thread.State())
                      else Aged(old(thread.State()), policy, thread.Factor(), elide)
      ensures if Total(aged.entries) <= threadTokenBudget then compacted == aged
              else Compacts(aged, compacted, thread.Factor(), Min(policy.preserveRecentTokens, Max(0, threadTokenBudget)), body, summarize)
      ensures if tokensAfter.None? || Total(compacted.entries) <= threadTokenBudget then thread.State() == compacted
              else thread.State()
                     == TruncateFrom(compacted, thread.Factor(), Cap(threadTokenBudget, |compacted.entries|), 0)
      ensures tokensAfter.None? ==> compacted == aged
    {
      aged, compacted := thread.State(), thread.State();
      var tokens := Total(thread.entries);
      if tokens <= threadTokenBudget {
        return Some(tokens), aged, compacted;
      }
      AgingKeepsOpen(thread.State(), policy, thread.Factor(), elide);
      var stage1 := ApplyToolAging(thread);
      aged, compacted := thread.State(), thread.State();
      if stage1 {
        tokens := Total(thread.entries);
        if tokens <= threadTokenBudget {
          return Some(tokens), aged, compacted;
        }
      }
      var stage2 := ApplyTurnCompaction(thread, threadTokenBudget);
      compacted := thread.State();
      if !stage2 {
        return None, aged, compacted;
      }
      tokens := Total(thread.entries);
      if tokens <= threadTokenBudget {
        return Some(tokens), aged, compacted;
      }
      ApplyHardTruncation(thread, threadTokenBudget);
      return Some(Total(thread.entries)), aged, compacted;
    }
  }

  lemma ClipKeepsIds(es: seq<Entry>, policy: Policy, factor: real, nextEntry: nat)
    requires M.DistinctEntries(es, nextEntry)
    ensures M.DistinctEntries(ClipResults(es, policy, factor), nextEntry)
  {
  }

  lemma AgingKeepsOpen(t: M.Thread, policy: Policy, factor: real, elide: Entry -> string)
    ensures Aged(t, policy, factor, elide).open == t.open
  {
  }

  lemma CutAndNotifyIds(t: M.Thread, factor: real, cap: nat, i: nat)
    requires M.DistinctEntries(t.entries, t.nextEntry) && i < |t.entries|
    ensures var u := CutAndNotify(t, factor, cap, i);
            M.DistinctEntries(u.entries, u.nextEntry)
  {
    var v := M.TruncateAt(t, factor, i, CutText(t.entries[i], cap));
    assert M.DistinctEntries(v.entries, v.nextEntry);
    NoticeIds(v, factor, CutNotice(t.entries[i].kind));
  }

  lemma NoticeIds(t: M.Thread, factor: real, content: string)
    requires M.DistinctEntries(t.entries, t.nextEntry)
    ensures var u := M.AddNotice(t, factor, content);
            M.DistinctEntries(u.entries, u.nextEntry)
  {
  }

  /** The blocks before `i` are dealt with, and only the open turn was left out after the summary. */
  ghost predicate TiledUpTo(t: M.Thread, ranges: seq<Range>, i: nat) {
    && i <= |t.entries| && Consecutive(t, ranges)
    && (0 < i < |t.entries| ==> t.entries[i - 1].turn != t.entries[i].turn && End(t, ranges) == i)
    && (i == 0 ==> ranges == [])
    && (i > 0 ==> End(t, ranges) <= i && forall k :: End(t, ranges) <= k < i ==> t.open == Some(t.entries[k].turn))
  }

  lemma TileStep(t: M.Thread, ranges: seq<Range>, start: nat, end: nat, tokens: nat, compactionOnly: bool)
    requires M.WellFormed(t) && TiledUpTo(t, ranges, start) && start < end <= |t.entries|
    requires forall k :: start <= k < end ==> t.entries[k].turn == t.entries[start].turn
    requires end < |t.entries| ==> t.entries[end].turn != t.entries[start].turn
    requires tokens == Sum(t.entries, start, end)
    requires compactionOnly <==> forall k :: start <= k < end ==> t.entries[k].kind.Compaction?
    ensures var turn := t.entries[start].turn;
            if t.open != Some(turn) && !compactionOnly && turn in t.turns && !t.turns[turn].Open?
            then TiledUpTo(t, ranges + [Range(turn, start, end, tokens)], end)
            else TiledUpTo(t, ranges, end)
  {
    BlockIsTurn(t, start, end);
    OnlySummaryBlock(t, start, end);
    var turn := t.entries[start].turn;
    if t.open != Some(turn) && !compactionOnly && turn in t.turns && !t.turns[turn].Open? {
      var r := Range(turn, start, end, tokens);
      assert ClosedTurn(t, r);
      ConsecutiveStep(t, ranges, r);
    }
  }

  lemma ConsecutiveStep(t: M.Thread, ranges: seq<Range>, r: Range)
    requires Consecutive(t, ranges) && ClosedTurn(t, r) && r.start == End(t, ranges)
    ensures Consecutive(t, ranges + [r])
  {
  }

  lemma LastTurnsKept(t: M.Thread, ranges: seq<Range>, keep: nat, c: nat)
    requires M.WellFormed(t) && Tiles(t, ranges) && keep < |ranges|
    requires c == if keep == 0 then ranges[|ranges| - 1].end else ranges[|ranges| - keep].start
    ensures KeepsLast(ranges, keep, c) && c <= |t.entries| && SafeCut(t, c)
  {
    var m := |ranges| - keep - 1;
    assert c == ranges[m].end;
    BoundaryIsSafe(t, ranges, m);
    forall k | 0 <= k <= m ensures ranges[k].end <= c {
      EarlierStartsThan(t, ranges, k, m);
      assert ClosedTurn(t, ranges[m]);
    }
    forall k | m < k < |ranges| ensures c <= ranges[k].start {
      EarlierStartsThan(t, ranges, m, k);
    }
  }

  lemma ManualCutIsSafe(t: M.Thread, keep: nat, body: string -> string, ranges: seq<Range>, c: nat, s: Option<Selection>)
    requires M.WellFormed(t) && ChoosesManually(t, keep, body, ranges, c, s) && s.Some?
    ensures SafeCut(t, c) && s.value.entryCount == c
  {
    BoundaryIsSafe(t, ranges, |ranges| - keep - 1);
  }

  lemma RunsAddUp(t: M.Thread, ranges: seq<Range>, index: nat, boundary: nat)
    requires Tiles(t, ranges) && index < |ranges| && Positive(t.entries)
    requires boundary == if index == |ranges| - 1 then ranges[index].end else ranges[index + 1].start
    ensures ranges[index].start < boundary == ranges[index].end <= End(t, ranges) <= |t.entries|
    ensures ranges[index].tokens == Sum(t.entries, ranges[index].start, boundary)
    ensures Sum(t.entries, ranges[index].start, End(t, ranges)) == ranges[index].tokens + Sum(t.entries, boundary, End(t, ranges))
    ensures Sum(t.entries, boundary, End(t, ranges)) == 0 <==> index == |ranges| - 1
  {
    assert ClosedTurn(t, ranges[index]);
    EarlierStarts(t, ranges);
    if index < |ranges| - 1 {
      assert ranges[index].end == ranges[index + 1].start;
    }
    SumSplits(t.entries, ranges[index].start, boundary, End(t, ranges));
  }
}
