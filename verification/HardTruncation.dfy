/**
  The last stage of the governor: every message over the per-message cap is cut, and a notice of
  each cut is appended to the very list the stage is walking through.
 */
module HardTruncation {
  import opened Prelude
  import Decimal
  import opened Tokens
  import opened ThreadModel
  import opened ThreadInvariant
  import opened ThreadRuns
  import opened ToolAging

  const MIN_MESSAGE_CAP := 256

  function KindName(kind: Kind): (name: string)
    ensures |name| <= 11
  {
    match kind
    case UserEntry => "user"
    case AssistantEntry => "assistant"
    case ToolResult => "tool-result"
    case Compaction => "compaction"
    case Notice => "notice"
  }

  function CutNotice(kind: Kind): string {
    "单条消息已硬截断 (" + KindName(kind) + ")"
  }

  function CutSuffix(e: Entry): string {
    "\n\n[已截断: 单条消息超出预算，原文约 " + Decimal.Print(if e.originalTokens.Some? then e.originalTokens.value else e.tokens) + " tokens]"
  }

  function CutText(e: Entry, cap: nat): string {
    HeadTail(e.message.content, cap) + CutSuffix(e)
  }

  function Cut(e: Entry, factor: real, cap: nat): Entry {
    WithMessage(e, factor, WithContent(e.message, CutText(e, cap)))
  }

  function Cap(budget: int, count: nat): nat {
    Max(MIN_MESSAGE_CAP, budget / Max(1, count))
  }

  /** How many entries from `i` on exceed the cap. */
  function OverCap(es: seq<Entry>, cap: nat, i: nat): (n: nat)
    requires i <= |es|
    decreases |es| - i
  {
    if i == |es| then 0 else (if es[i].tokens > cap then 1 else 0) + OverCap(es, cap, i + 1)
  }

  lemma {:induction false} OverCapOfAppended(es: seq<Entry>, r: seq<Entry>, cap: nat, i: nat)
    requires i <= |es| && |r| == |es| + 1
    requires forall k :: i <= k < |es| ==> r[k] == es[k]
    requires r[|es|].tokens <= cap
    ensures OverCap(r, cap, i) == OverCap(es, cap, i)
    decreases |es| - i
  {
    if i == |es| {
      assert OverCap(r, cap, |r|) == 0;
    } else {
      OverCapOfAppended(es, r, cap, i + 1);
    }
  }

  lemma NoticeIsShort(t: Thread, factor: real, kind: Kind)
    requires 0.0 <= factor <= 2.0
    ensures Estimate(factor, NoticeMessage(CutNotice(kind))) <= MIN_MESSAGE_CAP
  {
    ShortMessage(factor, NoticeMessage(CutNotice(kind)));
    assert |NOTICE_PREFIX| == 7 && |"单条消息已硬截断 ("| == 10 && |")"| == 1;
    assert |CutNotice(kind)| <= 22;
  }

  /** One cut and its notice. */
  function CutAndNotify(t: Thread, factor: real, cap: nat, i: nat): Thread
    requires i < |t.entries|
  {
    AddNotice(TruncateAt(t, factor, i, CutText(t.entries[i], cap)), factor, CutNotice(t.entries[i].kind))
  }

  lemma CutAndNotifyEntries(t: Thread, factor: real, cap: nat, i: nat)
    requires i < |t.entries| && 0.0 <= factor <= 2.0 && cap >= MIN_MESSAGE_CAP
    ensures var r := CutAndNotify(t, factor, cap, i).entries;
            |r| == |t.entries| + 1 && r[i] == Cut(t.entries[i], factor, cap)
            && (forall k :: 0 <= k < |t.entries| && k != i ==> r[k] == t.entries[k])
            && r[|t.entries|].kind.Notice? && r[|t.entries|].tokens <= MIN_MESSAGE_CAP
            && r[|t.entries|].message == NoticeMessage(CutNotice(t.entries[i].kind))
  {
    NoticeIsShort(t, factor, t.entries[i].kind);
  }

  lemma CutAndNotifyMeasure(t: Thread, factor: real, cap: nat, i: nat)
    requires i < |t.entries| && 0.0 <= factor <= 2.0 && cap >= MIN_MESSAGE_CAP && t.entries[i].tokens > cap
    ensures var r := CutAndNotify(t, factor, cap, i).entries;
            i < |r| && OverCap(r, cap, i + 1) < OverCap(t.entries, cap, i)
  {
    CutAndNotifyEntries(t, factor, cap, i);
    OverCapOfAppended(t.entries, CutAndNotify(t, factor, cap, i).entries, cap, i + 1);
  }

  /** One step of the walk. */
  function Limited(t: Thread, factor: real, cap: nat, i: nat): Thread
    requires i < |t.entries|
  {
    if t.entries[i].tokens > cap then CutAndNotify(t, factor, cap, i) else t
  }

  /** The walk from entry `i` on. It ends although the list grows: the notices are below the cap. */
  function TruncateFrom(t: Thread, factor: real, cap: nat, i: nat): Thread
    requires i <= |t.entries| && 0.0 <= factor <= 2.0 && cap >= MIN_MESSAGE_CAP
    decreases OverCap(t.entries, cap, i), |t.entries| - i
  {
    if i == |t.entries| then t
    else if t.entries[i].tokens <= cap then TruncateFrom(t, factor, cap, i + 1)
    else
      CutAndNotifyMeasure(t, factor, cap, i);
      TruncateFrom(CutAndNotify(t, factor, cap, i), factor, cap, i + 1)
  }

  /** The walk from this state and position ends in `goal`. */
  ghost function Walk(factor: real, cap: nat, goal: Thread): (Thread, nat) -> bool
    requires 0.0 <= factor <= 2.0 && cap >= MIN_MESSAGE_CAP
  {
    (t: Thread, k: nat) => k <= |t.entries| && TruncateFrom(t, factor, cap, k) == goal
  }

  lemma WalkSteps(factor: real, cap: nat, goal: Thread)
    requires 0.0 <= factor <= 2.0 && cap >= MIN_MESSAGE_CAP
    ensures forall t: Thread, k: nat :: Walk(factor, cap, goal)(t, k) && k < |t.entries| ==>
              Walk(factor, cap, goal)(Limited(t, factor, cap, k), k + 1)
  {
    forall t: Thread, k: nat | Walk(factor, cap, goal)(t, k) && k < |t.entries|
      ensures Walk(factor, cap, goal)(Limited(t, factor, cap, k), k + 1)
    {
      if t.entries[k].tokens > cap {
        CutAndNotifyMeasure(t, factor, cap, k);
      }
    }
  }

  /** The kinds of the entries over the cap, from `i` on. */
  function KindsOverCap(es: seq<Entry>, cap: nat, i: nat): (kinds: seq<Kind>)
    requires i <= |es|
    ensures |kinds| == OverCap(es, cap, i)
    decreases |es| - i
  {
    if i == |es| then [] else (if es[i].tokens > cap then [es[i].kind] else []) + KindsOverCap(es, cap, i + 1)
  }

  lemma {:induction false} KindsOfAppended(es: seq<Entry>, r: seq<Entry>, cap: nat, i: nat)
    requires i <= |es| && |r| == |es| + 1
    requires forall k :: i <= k < |es| ==> r[k] == es[k]
    requires r[|es|].tokens <= cap
    ensures KindsOverCap(r, cap, i) == KindsOverCap(es, cap, i)
    decreases |es| - i
  {
    if i == |es| {
      assert KindsOverCap(r, cap, |r|) == [];
    } else {
      KindsOfAppended(es, r, cap, i + 1);
    }
  }

  /** From `i` on, entries over the cap give way to `cut` of them; short notices are appended, one for each. */
  ghost predicate CutsExactly(es: seq<Entry>, r: seq<Entry>, cut: Entry -> Entry, cap: nat, i: nat)
    requires i <= |es|
  {
    && |r| == |es| + OverCap(es, cap, i)
    && (forall k :: 0 <= k < i ==> r[k] == es[k])
    && (forall k :: i <= k < |es| ==> r[k] == if es[k].tokens > cap then cut(es[k]) else es[k])
    && (forall k :: |es| <= k < |r| ==> r[k].kind.Notice? && r[k].tokens <= MIN_MESSAGE_CAP)
  }

  /** What stands behind the first `n` entries are the notices of these kinds, in order. */
  ghost predicate NotifiesOf(r: seq<Entry>, n: nat, kinds: seq<Kind>, notice: Kind -> Message) {
    |r| == n + |kinds| && forall k :: 0 <= k < |kinds| ==> r[n + k].message == notice(kinds[k])
  }

  lemma CutsExactlySkip(es: seq<Entry>, r: seq<Entry>, cut: Entry -> Entry, cap: nat, i: nat)
    requires i < |es| && es[i].tokens <= cap && CutsExactly(es, r, cut, cap, i + 1)
    ensures CutsExactly(es, r, cut, cap, i)
  {
  }

  lemma CutsExactlyStep(es: seq<Entry>, next: seq<Entry>, r: seq<Entry>, cut: Entry -> Entry, cap: nat, i: nat)
    requires i < |es| && es[i].tokens > cap >= MIN_MESSAGE_CAP && |next| == |es| + 1
    requires next[i] == cut(es[i])
    requires forall k :: 0 <= k < |es| && k != i ==> next[k] == es[k]
    requires next[|es|].kind.Notice? && next[|es|].tokens <= MIN_MESSAGE_CAP
    requires CutsExactly(next, r, cut, cap, i + 1)
    ensures CutsExactly(es, r, cut, cap, i) && r[|es|] == next[|es|]
  {
    OverCapOfAppended(es, next, cap, i + 1);
  }

  lemma NotifiesOneMore(r: seq<Entry>, n: nat, first: Kind, kinds: seq<Kind>, notice: Kind -> Message)
    requires NotifiesOf(r, n + 1, kinds, notice) && r[n].message == notice(first)
    ensures NotifiesOf(r, n, [first] + kinds, notice)
  {
    var all := [first] + kinds;
    forall k | 0 <= k < |all| ensures r[n + k].message == notice(all[k]) {
      if k > 0 {
        assert r[n + 1 + (k - 1)].message == notice(kinds[k - 1]);
      }
    }
  }

  lemma NotifiesStep(es: seq<Entry>, next: seq<Entry>, r: seq<Entry>, notice: Kind -> Message, cap: nat, i: nat)
    requires i < |es| && es[i].tokens > cap && |next| == |es| + 1 <= |r|
    requires forall k :: i < k < |es| ==> next[k] == es[k]
    requires next[|es|].tokens <= cap && r[|es|].message == notice(es[i].kind)
    requires NotifiesOf(r, |next|, KindsOverCap(next, cap, i + 1), notice)
    ensures NotifiesOf(r, |es|, KindsOverCap(es, cap, i), notice)
  {
    KindsOfAppended(es, next, cap, i + 1);
    NotifiesOneMore(r, |es|, es[i].kind, KindsOverCap(es, cap, i + 1), notice);
  }

  /**
    Hard truncation in closed form: each entry over the cap is cut once, each cut appends one
    notice that names its kind, and a notice is never cut itself.
   */
  lemma TruncationCutsExactly(t: Thread, factor: real, cap: nat, i: nat)
    requires i <= |t.entries| && 0.0 <= factor <= 2.0 && cap >= MIN_MESSAGE_CAP
    ensures var r := TruncateFrom(t, factor, cap, i).entries;
            && CutsExactly(t.entries, r, e => Cut(e, factor, cap), cap, i)
            && NotifiesOf(r, |t.entries|, KindsOverCap(t.entries, cap, i), k => NoticeMessage(CutNotice(k)))
  {
    TruncationMatches(t, factor, cap, i, e => Cut(e, factor, cap), k => NoticeMessage(CutNotice(k)));
  }

  lemma {:induction false} TruncationMatches(t: Thread, factor: real, cap: nat, i: nat, cut: Entry -> Entry, notice: Kind -> Message)
    requires i <= |t.entries| && 0.0 <= factor <= 2.0 && cap >= MIN_MESSAGE_CAP
    requires (forall e :: cut(e) == Cut(e, factor, cap)) && forall k :: notice(k) == NoticeMessage(CutNotice(k))
    ensures var r := TruncateFrom(t, factor, cap, i).entries;
            CutsExactly(t.entries, r, cut, cap, i) && NotifiesOf(r, |t.entries|, KindsOverCap(t.entries, cap, i), notice)
    decreases OverCap(t.entries, cap, i), |t.entries| - i
  {
    if i == |t.entries| {
    } else if t.entries[i].tokens <= cap {
      TruncationMatches(t, factor, cap, i + 1, cut, notice);
      CutsExactlySkip(t.entries, TruncateFrom(t, factor, cap, i + 1).entries, cut, cap, i);
      assert KindsOverCap(t.entries, cap, i) == KindsOverCap(t.entries, cap, i + 1);
    } else {
      var next := CutAndNotify(t, factor, cap, i);
      CutAndNotifyMeasure(t, factor, cap, i);
      CutAndNotifyEntries(t, factor, cap, i);
      TruncationMatches(next, factor, cap, i + 1, cut, notice);
      var r := TruncateFrom(next, factor, cap, i + 1).entries;
      CutsExactlyStep(t.entries, next.entries, r, cut, cap, i);
      NotifiesStep(t.entries, next.entries, r, notice, cap, i);
    }
  }

  // ---------------------------------------------------------------- what is left of a message, and what is said of it

  /** The cap shares the budget out evenly, unless that would leave a message less than the least cap. */
  lemma CapSharesBudget(budget: int, count: nat)
    ensures Cap(budget, count) >= MIN_MESSAGE_CAP
    ensures count > 0 && Cap(budget, count) > MIN_MESSAGE_CAP ==> count * Cap(budget, count) <= budget
    ensures count > 0 ==> budget < count * (Cap(budget, count) + 1)
    ensures count == 0 ==> Cap(budget, count) == Max(MIN_MESSAGE_CAP, budget)
  {
    if count > 0 {
      var share := budget / count;
      assert count * share <= budget < count * (share + 1);
      if share < MIN_MESSAGE_CAP {
        assert count * (share + 1) <= count * (MIN_MESSAGE_CAP + 1);
      }
    }
  }

  /** The size that a cut text gives of the original. */
  function SizeBefore(e: Entry): nat {
    if e.originalTokens.Some? then e.originalTokens.value else e.tokens
  }

  const CUT_MARK := "\n\n[已截断: 单条消息超出预算，原文约 "

  /** A cut text is the clipped one with a mark behind it, which tells the original size in decimal. */
  lemma CutTextTells(e: Entry, cap: nat)
    ensures HeadTail(e.message.content, cap) <= CutText(e, cap)
    ensures var mark := CutText(e, cap)[|HeadTail(e.message.content, cap)|..];
            && CUT_MARK < mark && |mark| > |CUT_MARK| + 8 && mark[|mark| - 8..] == " tokens]"
            && (forall c :: c in mark[|CUT_MARK|..|mark| - 8] ==> Decimal.IsDigit(c))
            && Decimal.Read(mark[|CUT_MARK|..|mark| - 8]) == SizeBefore(e)
  {
    var clipped, digits := HeadTail(e.message.content, cap), Decimal.Print(SizeBefore(e));
    var mark := CutText(e, cap)[|clipped|..];
    assert mark == CUT_MARK + digits + " tokens]";
    assert mark[|CUT_MARK|..|mark| - 8] == digits;
    Decimal.ReadPrinted(SizeBefore(e));
  }

  /** The notice of a cut names the kind of the message. */
  lemma NoticeTexts()
    ensures CutNotice(UserEntry) == "单条消息已硬截断 (user)" && CutNotice(AssistantEntry) == "单条消息已硬截断 (assistant)"
    ensures CutNotice(ToolResult) == "单条消息已硬截断 (tool-result)"
    ensures CutNotice(Compaction) == "单条消息已硬截断 (compaction)" && CutNotice(Notice) == "单条消息已硬截断 (notice)"
  {
  }

  /** Cutting a message leaves its role, its call id and its tool calls. */
  lemma CutKeepsProtocol(e: Entry, factor: real, cap: nat)
    requires Compatible(e.kind, e.message)
    ensures var c := Cut(e, factor, cap);
            c.kind == e.kind && c.turn == e.turn && c.id == e.id
            && (if e.message.ToolMessage? then c.message.ToolMessage? && c.message.toolCallId == e.message.toolCallId
                else c.message.Chat? && c.message.role == e.message.role)
            && (e.kind.AssistantEntry? ==> c.message.toolCalls == e.message.toolCalls)
  {
  }

  lemma CutAndNotifyKeeps(s: Session, cap: nat, i: nat)
    requires WellFormed(s.thread) && CacheAgrees(s.thread.entries, s.factor) && i < |s.thread.entries|
    ensures var u := CutAndNotify(s.thread, s.factor, cap, i);
            WellFormed(u) && CacheAgrees(u.entries, s.factor) && (Paired(s.thread.entries) ==> Paired(u.entries))
            && u.open == s.thread.open
  {
    var v := TruncateAt(s.thread, s.factor, i, CutText(s.thread.entries[i], cap));
    TruncateKeeps(s.thread, s.factor, i, CutText(s.thread.entries[i], cap));
    AddNoticeKeeps(v, s.factor, CutNotice(s.thread.entries[i].kind));
    CacheThroughTurns(Session(v, s.factor), Notify(CutNotice(s.thread.entries[i].kind)));
  }

  lemma {:induction false} TruncationPreserves(t: Thread, factor: real, cap: nat, i: nat, inv: Thread -> bool)
    requires i <= |t.entries| && 0.0 <= factor <= 2.0 && cap >= MIN_MESSAGE_CAP
    requires inv(t)
    requires forall u: Thread, k: nat :: inv(u) && k < |u.entries| ==> inv(CutAndNotify(u, factor, cap, k))
    ensures inv(TruncateFrom(t, factor, cap, i))
    decreases OverCap(t.entries, cap, i), |t.entries| - i
  {
    if i == |t.entries| {
    } else if t.entries[i].tokens <= cap {
      TruncationPreserves(t, factor, cap, i + 1, inv);
    } else {
      CutAndNotifyMeasure(t, factor, cap, i);
      TruncationPreserves(CutAndNotify(t, factor, cap, i), factor, cap, i + 1, inv);
    }
  }

  /** Hard truncation keeps every invariant, and the open turn open. */
  lemma TruncationKeeps(t: Thread, factor: real, cap: nat, i: nat)
    requires WellFormed(t) && CacheAgrees(t.entries, factor)
    requires i <= |t.entries| && 0.0 <= factor <= 2.0 && cap >= MIN_MESSAGE_CAP
    ensures var u := TruncateFrom(t, factor, cap, i);
            WellFormed(u) && CacheAgrees(u.entries, factor) && (Paired(t.entries) ==> Paired(u.entries)) && u.open == t.open
  {
    var paired, open := Paired(t.entries), t.open;
    var inv := (u: Thread) => WellFormed(u) && CacheAgrees(u.entries, factor) && (paired ==> Paired(u.entries)) && u.open == open;
    forall u: Thread, k: nat | inv(u) && k < |u.entries| ensures inv(CutAndNotify(u, factor, cap, k)) {
      CutAndNotifyKeeps(Session(u, factor), cap, k);
    }
    TruncationPreserves(t, factor, cap, i, inv);
  }
}
