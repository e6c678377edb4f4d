/** Which prefix of the thread a compaction replaces: the turns it may drop, and where it may cut. */
module CompactionCuts {
  import opened Prelude
  import opened Tokens
  import opened ThreadModel
  import opened ThreadInvariant
  import opened ThreadRuns

  datatype Range = Range(turn: TurnId, start: nat, end: nat, tokens: nat)

  function Sum(es: seq<Entry>, lo: nat, hi: nat): nat
    requires lo <= hi <= |es|
    decreases hi - lo
  {
    if lo == hi then 0 else es[lo].tokens + Sum(es, lo + 1, hi)
  }

  lemma {:induction false} SumSplits(es: seq<Entry>, lo: nat, mid: nat, hi: nat)
    requires lo <= mid <= hi <= |es|
    ensures Sum(es, lo, hi) == Sum(es, lo, mid) + Sum(es, mid, hi)
    decreases mid - lo
  {
    if lo < mid {
      SumSplits(es, lo + 1, mid, hi);
    }
  }

  ghost predicate Positive(es: seq<Entry>) {
    forall i :: 0 <= i < |es| ==> es[i].tokens > 0
  }

  lemma CachedTokensArePositive(es: seq<Entry>, factor: real)
    requires CacheAgrees(es, factor) && factor >= 0.25
    ensures Positive(es)
  {
    forall i | 0 <= i < |es| ensures es[i].tokens > 0 {
      EstimatesArePositive(factor, es[i].message);
    }
  }

  // ---------------------------------------------------------------- closed turns

  /** All the entries of one turn that is closed and holds more than a summary. */
  ghost predicate ClosedTurn(t: Thread, r: Range) {
    && r.start < r.end <= |t.entries|
    && (forall k :: 0 <= k < |t.entries| ==> (t.entries[k].turn == r.turn <==> r.start <= k < r.end))
    && r.turn in t.turns && !t.turns[r.turn].Open?
    && r.tokens == Sum(t.entries, r.start, r.end)
  }

  /** Where the summary, if any, ends. */
  function SummaryEnd(es: seq<Entry>): nat {
    if es != [] && es[0].kind.Compaction? then 1 else 0
  }

  function End(t: Thread, ranges: seq<Range>): nat {
    if ranges == [] then SummaryEnd(t.entries) else ranges[|ranges| - 1].end
  }

  /** The closed turns one after the other, from the end of the summary on. */
  ghost predicate Consecutive(t: Thread, ranges: seq<Range>) {
    && (forall k :: 0 <= k < |ranges| ==> ClosedTurn(t, ranges[k]))
    && (ranges != [] ==> ranges[0].start == SummaryEnd(t.entries))
    && (forall k :: 0 <= k < |ranges| - 1 ==> ranges[k].end == ranges[k + 1].start)
  }

  /** A thread is a summary, or none; then its closed turns; then the open turn, or none. */
  ghost predicate Tiles(t: Thread, ranges: seq<Range>) {
    && Consecutive(t, ranges)
    && End(t, ranges) <= |t.entries|
    && forall k :: End(t, ranges) <= k < |t.entries| ==> t.open == Some(t.entries[k].turn)
  }

  lemma BlockIsTurn(t: Thread, start: nat, end: nat)
    requires WellFormed(t) && start < end <= |t.entries|
    requires forall k :: start <= k < end ==> t.entries[k].turn == t.entries[start].turn
    requires start > 0 ==> t.entries[start - 1].turn != t.entries[start].turn
    requires end < |t.entries| ==> t.entries[end].turn != t.entries[start].turn
    ensures forall k :: 0 <= k < |t.entries| ==> (t.entries[k].turn == t.entries[start].turn <==> start <= k < end)
    ensures t.open == Some(t.entries[start].turn) <==> !(t.entries[start].turn in t.turns && !t.turns[t.entries[start].turn].Open?)
    ensures t.open == Some(t.entries[start].turn) ==> end == |t.entries|
  {
    var es := t.entries;
    assert forall k :: 0 <= k < start ==> es[k].turn != es[start].turn;
    assert forall k :: end <= k < |es| ==> es[k].turn != es[start].turn;
  }

  lemma OnlySummaryBlock(t: Thread, start: nat, end: nat)
    requires WellFormed(t) && start < end <= |t.entries|
    requires forall k :: 0 <= k < |t.entries| ==> (t.entries[k].turn == t.entries[start].turn <==> start <= k < end)
    ensures (forall k :: start <= k < end ==> t.entries[k].kind.Compaction?) <==> start < SummaryEnd(t.entries)
    ensures start < SummaryEnd(t.entries) ==> end == 1 && t.open != Some(t.entries[start].turn)
  {
    var es := t.entries;
    if es[start].kind.Compaction? {
      assert start == 0 && end <= 1;
    }
  }

  // ---------------------------------------------------------------- the automatic cut

  /** An assistant entry inside the turn: the results after it keep their call. */
  ghost predicate Split(es: seq<Entry>, r: Range, j: nat) {
    r.start < j < r.end <= |es| && es[j].kind.AssistantEntry?
  }

  ghost predicate FittingSplit(es: seq<Entry>, r: Range, budget: nat, j: nat) {
    Split(es, r, j) && Sum(es, j, r.end) <= budget
  }

  ghost predicate LongestRun(es: seq<Entry>, ranges: seq<Range>, budget: nat, k: int)
    requires forall i :: 0 <= i < |ranges| ==> ranges[i].start <= ranges[|ranges| - 1].end <= |es|
  {
    && 0 <= k < |ranges|
    && Sum(es, ranges[k].start, ranges[|ranges| - 1].end) <= budget
    && (k > 0 ==> Sum(es, ranges[k - 1].start, ranges[|ranges| - 1].end) > budget)
  }

  /**
    Where the retained closed entries start: at the longest run of newest whole turns within
    the budget; if not even the newest turn fits, at its first assistant entry from where it
    does; and if there is none, at the newest turn itself.
   */
  ghost predicate BestCut(t: Thread, ranges: seq<Range>, budget: nat, c: nat)
    requires Tiles(t, ranges) && ranges != []
  {
    EarlierStarts(t, ranges);
    var newest := ranges[|ranges| - 1];
    if newest.tokens <= budget then
      exists k :: LongestRun(t.entries, ranges, budget, k) && c == ranges[k].start
    else if exists j :: FittingSplit(t.entries, newest, budget, j) then
      FittingSplit(t.entries, newest, budget, c)
      && forall j :: newest.start < j < c ==> !FittingSplit(t.entries, newest, budget, j)
    else
      c == newest.start
  }

  lemma {:induction false} EarlierStartsThan(t: Thread, ranges: seq<Range>, i: nat, k: nat)
    requires Consecutive(t, ranges) && i <= k < |ranges|
    ensures SummaryEnd(t.entries) <= ranges[i].start <= ranges[k].start && (i < k ==> ranges[i].end <= ranges[k].start)
    decreases k
  {
    if k == 0 {
      assert ranges[0].start == SummaryEnd(t.entries);
    } else if i < k {
      EarlierStartsThan(t, ranges, i, k - 1);
      assert ranges[k - 1].end == ranges[k].start && ClosedTurn(t, ranges[k - 1]);
    } else {
      EarlierStartsThan(t, ranges, k - 1, k - 1);
      assert ranges[k - 1].end == ranges[k].start && ClosedTurn(t, ranges[k - 1]);
    }
  }

  lemma EarlierStarts(t: Thread, ranges: seq<Range>)
    requires Consecutive(t, ranges)
    ensures forall i :: 0 <= i < |ranges| ==>
              SummaryEnd(t.entries) <= ranges[i].start <= ranges[|ranges| - 1].start < ranges[|ranges| - 1].end <= |t.entries|
  {
    forall i | 0 <= i < |ranges|
      ensures SummaryEnd(t.entries) <= ranges[i].start <= ranges[|ranges| - 1].start < ranges[|ranges| - 1].end <= |t.entries|
    {
      EarlierStartsThan(t, ranges, i, |ranges| - 1);
      assert ClosedTurn(t, ranges[|ranges| - 1]);
    }
  }

  lemma BoundaryIsSafe(t: Thread, ranges: seq<Range>, k: nat)
    requires WellFormed(t) && Tiles(t, ranges) && k < |ranges|
    ensures ranges[k].start > 0 ==> SafeCut(t, ranges[k].start)
    ensures SafeCut(t, ranges[k].end)
  {
    var r := ranges[k];
    assert ClosedTurn(t, r);
    NoOpenBefore(t, ranges, k);
  }

  lemma NoOpenBefore(t: Thread, ranges: seq<Range>, k: nat)
    requires WellFormed(t) && Tiles(t, ranges) && k < |ranges|
    ensures forall j :: 0 <= j < ranges[k].end ==> t.open != Some(t.entries[j].turn)
  {
    var es, r := t.entries, ranges[k];
    assert ClosedTurn(t, r);
    forall j | 0 <= j < r.end ensures t.open != Some(es[j].turn) {
      var last := es[|es| - 1];
      assert es[j].turn == last.turn ==> es[r.end - 1].turn == last.turn;
    }
  }

  lemma SplitIsSafe(t: Thread, ranges: seq<Range>, k: nat, j: nat)
    requires WellFormed(t) && Tiles(t, ranges) && k < |ranges| && Split(t.entries, ranges[k], j)
    ensures SafeCut(t, j)
  {
    NoOpenBefore(t, ranges, k);
  }

  /** The chosen cut, unless it keeps everything, is one that compaction may make. */
  lemma BestCutIsSafe(t: Thread, ranges: seq<Range>, budget: nat, c: nat)
    requires WellFormed(t) && Tiles(t, ranges) && ranges != [] && BestCut(t, ranges, budget, c)
    ensures c > 0 ==> SafeCut(t, c)
  {
    if k :| 0 <= k < |ranges| && c == ranges[k].start {
      BoundaryIsSafe(t, ranges, k);
    } else {
      BestCutIsSplit(t, ranges, budget, c);
      SplitIsSafe(t, ranges, |ranges| - 1, c);
    }
  }

  lemma BestCutIsSplit(t: Thread, ranges: seq<Range>, budget: nat, c: nat)
    requires Tiles(t, ranges) && ranges != [] && BestCut(t, ranges, budget, c)
    ensures (exists k :: 0 <= k < |ranges| && c == ranges[k].start) || Split(t.entries, ranges[|ranges| - 1], c)
  {
    EarlierStarts(t, ranges);
    if ranges[|ranges| - 1].tokens <= budget {
      var k :| LongestRun(t.entries, ranges, budget, k) && c == ranges[k].start;
    }
  }

  /**
    The retained closed entries exceed the budget only when the newest turn alone does and has
    no assistant entry from where it would fit.
   */
  lemma RetainedWithinBudget(t: Thread, ranges: seq<Range>, budget: nat, c: nat)
    requires WellFormed(t) && Tiles(t, ranges) && ranges != [] && BestCut(t, ranges, budget, c)
    ensures c <= End(t, ranges)
    ensures var newest := ranges[|ranges| - 1];
            Sum(t.entries, c, newest.end) <= budget
            <==> newest.tokens <= budget || exists j :: FittingSplit(t.entries, newest, budget, j)
  {
    EarlierStarts(t, ranges);
    var newest := ranges[|ranges| - 1];
    assert ClosedTurn(t, newest);
    if newest.tokens <= budget {
      var k :| LongestRun(t.entries, ranges, budget, k) && c == ranges[k].start;
    }
  }

  /** No cut between two turns, or inside the newest one, retains more and still fits. */
  lemma RetainedIsMaximal(t: Thread, ranges: seq<Range>, budget: nat, c: nat, other: nat)
    requires WellFormed(t) && Tiles(t, ranges) && ranges != [] && BestCut(t, ranges, budget, c)
    requires other < c
    requires (exists k :: 0 <= k < |ranges| && ranges[k].start == other) || Split(t.entries, ranges[|ranges| - 1], other)
    ensures other <= ranges[|ranges| - 1].end && Sum(t.entries, other, ranges[|ranges| - 1].end) > budget
  {
    EarlierStarts(t, ranges);
    var newest := ranges[|ranges| - 1];
    assert ClosedTurn(t, newest);
    if newest.tokens <= budget {
      var k :| LongestRun(t.entries, ranges, budget, k) && c == ranges[k].start;
      EarlierRunIsTooLong(t, ranges, budget, k, other);
    } else if other <= newest.start {
      SumSplits(t.entries, other, newest.start, newest.end);
    } else {
      assert !FittingSplit(t.entries, newest, budget, other);
    }
  }

  lemma EarlierRunIsTooLong(t: Thread, ranges: seq<Range>, budget: nat, k: nat, other: nat)
    requires Tiles(t, ranges) && k < |ranges| && other < ranges[k].start
    requires k > 0 ==> ranges[k - 1].start <= End(t, ranges) <= |t.entries| && Sum(t.entries, ranges[k - 1].start, End(t, ranges)) > budget
    requires (exists m :: 0 <= m < |ranges| && ranges[m].start == other) || Split(t.entries, ranges[|ranges| - 1], other)
    ensures other <= End(t, ranges) && Sum(t.entries, other, End(t, ranges)) > budget
  {
    EarlierStartsThan(t, ranges, k, |ranges| - 1);
    var m :| 0 <= m < |ranges| && ranges[m].start == other;
    if m >= k {
      EarlierStartsThan(t, ranges, k, m);
    }
    EarlierStartsThan(t, ranges, m, k - 1);
    SumSplits(t.entries, other, ranges[k - 1].start, End(t, ranges));
  }

  // ---------------------------------------------------------------- the manual cut

  /** `c` keeps exactly the last `keep` closed turns. */
  ghost predicate KeepsLast(ranges: seq<Range>, keep: nat, c: nat) {
    && keep < |ranges|
    && (forall k :: 0 <= k < |ranges| - keep ==> ranges[k].end <= c)
    && (forall k :: |ranges| - keep <= k < |ranges| ==> c <= ranges[k].start)
    && c == ranges[|ranges| - keep - 1].end
  }

  // ---------------------------------------------------------------- while the summary is awaited

  /** What may happen to the thread meanwhile: a turn goes on, ends or begins, and notices arrive. */
  predicate TurnOp(op: Op) {
    op.Begin? || op.Commit? || op.Abort? || op.Interrupt? || op.AppendReply? || op.AppendResult? || op.Notify?
  }

  lemma CutSurvivesEntry(t: Thread, u: Thread, e: Entry, c: int)
    requires SafeCut(t, c) && u.entries == t.entries + [e]
    requires forall k :: 0 <= k < c ==> t.entries[k].turn != e.turn
    requires u.open.Some? ==> u.open == t.open || u.open == Some(e.turn)
    ensures SafeCut(u, c) && u.entries[..c] == t.entries[..c]
  {
    assert forall k :: 0 <= k < |t.entries| ==> u.entries[k] == t.entries[k];
    assert u.entries[|t.entries|] == e;
  }

  lemma CutSurvivesClosing(t: Thread, factor: real, reason: string, c: int)
    requires WellFormed(t) && SafeCut(t, c)
    ensures SafeCut(AbortTurn(t, factor, reason), c) && AbortTurn(t, factor, reason).entries[..c] == t.entries[..c]
  {
    if t.open.Some? {
      CutSurvivesEntry(t, AbortTurn(t, factor, reason), NewEntry(t, factor, t.open.value, Notice, NoticeMessage(reason)), c);
    }
  }

  lemma CutSurvivesRemoval(t: Thread, factor: real, c: int)
    requires SafeCut(t, c) && t.open.Some?
    ensures var u := t.(entries := RemoveUnmatchedToolCalls(t.entries, factor, t.open.value));
            SafeCut(u, c) && u.entries[..c] == t.entries[..c]
  {
  }

  lemma CutSurvivesInterrupt(t: Thread, factor: real, reason: string, c: int)
    requires WellFormed(t) && SafeCut(t, c)
    ensures SafeCut(InterruptTurn(t, factor, reason), c) && InterruptTurn(t, factor, reason).entries[..c] == t.entries[..c]
  {
    if t.open.Some? {
      RemovalKeeps(t, factor);
      CutSurvivesRemoval(t, factor, c);
      CutSurvivesClosing(t.(entries := RemoveUnmatchedToolCalls(t.entries, factor, t.open.value)), factor, reason, c);
    }
  }

  lemma CutSurvivesOp(s: Session, op: Op, c: int)
    requires WellFormed(s.thread) && SafeCut(s.thread, c) && TurnOp(op)
    ensures SafeCut(Apply(s, op).thread, c) && Apply(s, op).thread.entries[..c] == s.thread.entries[..c]
  {
    var t, f, u := s.thread, s.factor, Apply(s, op).thread;
    if op.Abort? {
      CutSurvivesClosing(t, f, op.reason, c);
    } else if op.Interrupt? {
      CutSurvivesInterrupt(t, f, op.reason, c);
    } else if |u.entries| > |t.entries| {
      CutSurvivesEntry(t, u, u.entries[|t.entries|], c);
    }
  }

  /**
    Whatever turns do while the summary is being written, the chosen cut stays safe and the prefix it
    summarises stays as it was.
   */
  lemma {:induction false} CutSurvives(s: Session, ops: seq<Op>, c: int)
    requires Invariant(s) && ProperRun(s, ops) && SafeCut(s.thread, c)
    requires forall i :: 0 <= i < |ops| ==> TurnOp(ops[i])
    ensures SafeCut(Run(s, ops).thread, c) && Run(s, ops).thread.entries[..c] == s.thread.entries[..c]
    decreases |ops|
  {
    if ops != [] {
      CutSurvivesOp(s, ops[0], c);
      ApplyKeeps(s, ops[0]);
      CutSurvives(Apply(s, ops[0]), ops[1..], c);
    }
  }
}
