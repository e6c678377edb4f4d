/**
  The conversation thread as a value: one list of entries grouped into turns, the operations on
  it, and the invariant every run of them keeps.
 */
module ThreadModel {
  import opened Prelude
  import opened Tokens

  datatype Kind = UserEntry | AssistantEntry | ToolResult | Compaction | Notice

  datatype TurnStatus = Open | Committed | Aborted

  /** `turn-n`, `notice-turn-n`, `compaction-turn-n`, or an id read from a saved state. */
  datatype TurnId = Turn(n: nat) | NoticeTurn(n: nat) | CompactionTurn(n: nat) | Foreign(name: string)

  datatype Entry = Entry(
    id: nat,
    turn: TurnId,
    kind: Kind,
    message: Message,
    tokens: nat,
    elided: bool,
    iteration: Option<int>,
    toolSummary: Option<string>,
    originalTokens: Option<nat>)

  /**
    `turns` and `order` are one JavaScript `Map`: its contents and its insertion order. The
    counters are those that number entries and turns.
   */
  datatype Thread = Thread(
    entries: seq<Entry>,
    turns: map<TurnId, TurnStatus>,
    order: seq<TurnId>,
    open: Option<TurnId>,
    iteration: int,
    nextEntry: nat,
    nextTurn: nat)

  // ---------------------------------------------------------------- invariant

  predicate Compatible(kind: Kind, m: Message) {
    match kind
    case AssistantEntry => m.Chat? && m.role.Assistant?
    case ToolResult => m.ToolMessage?
    case _ => m.Chat? && m.role.User?
  }

  predicate FreshId(id: TurnId, nextTurn: nat) {
    id.Foreign? || id.n < nextTurn
  }

  ghost predicate Contiguous(es: seq<Entry>) {
    forall i, j, k :: 0 <= i <= j <= k < |es| && es[i].turn == es[k].turn ==> es[j].turn == es[i].turn
  }

  /** A summary is the first entry, and the only one of its turn. */
  ghost predicate SummaryFirst(es: seq<Entry>) {
    && (forall i :: 0 <= i < |es| && es[i].kind.Compaction? ==> i == 0)
    && (|es| > 1 && es[0].kind.Compaction? ==> es[1].turn != es[0].turn)
  }

  ghost predicate DistinctEntries(es: seq<Entry>, nextEntry: nat) {
    && (forall i :: 0 <= i < |es| ==> es[i].id < nextEntry)
    && (forall i, j :: 0 <= i < j < |es| ==> es[i].id != es[j].id)
  }

  ghost predicate KnownTurns(t: Thread) {
    && (forall i :: 0 <= i < |t.entries| ==> t.entries[i].turn in t.turns)
    && (forall id :: id in t.turns ==> FreshId(id, t.nextTurn))
    && (forall id :: id in t.turns <==> id in t.order)
    && Distinct(t.order)
  }

  /** At most one turn is open; it holds the last entry, and that entry is no summary. */
  ghost predicate OpenTurnLast(t: Thread) {
    && (forall id :: id in t.turns ==> (t.turns[id].Open? <==> t.open == Some(id)))
    && (t.open.Some? ==>
          t.open.value in t.turns && t.entries != []
          && t.entries[|t.entries| - 1].turn == t.open.value && !t.entries[|t.entries| - 1].kind.Compaction?)
  }

  ghost predicate WellFormed(t: Thread) {
    && KnownTurns(t)
    && OpenTurnLast(t)
    && Contiguous(t.entries)
    && SummaryFirst(t.entries)
    && DistinctEntries(t.entries, t.nextEntry)
    && (forall i :: 0 <= i < |t.entries| ==> Compatible(t.entries[i].kind, t.entries[i].message))
  }

  ghost predicate CacheAgrees(es: seq<Entry>, factor: real) {
    forall i :: 0 <= i < |es| ==> es[i].tokens == Estimate(factor, es[i].message)
  }

  // ---------------------------------------------------------------- calls and answers

  function CallIds(m: Message): set<string> {
    if m.Chat? && m.toolCalls.Some? then set c | c in m.toolCalls.value :: c.id else {}
  }

  /** Entry `a` is the latest assistant entry of its turn before `i`. */
  ghost predicate LatestAssistant(es: seq<Entry>, a: int, i: int) {
    && 0 <= a < i <= |es| && es[a].kind.AssistantEntry?
    && forall k :: a < k < i ==> es[k].turn == es[a].turn && !es[k].kind.AssistantEntry?
  }

  ghost predicate Answered(es: seq<Entry>, i: int) {
    && 0 <= i < |es| && es[i].message.ToolMessage?
    && exists a :: LatestAssistant(es, a, i) && es[a].turn == es[i].turn && es[i].message.toolCallId in CallIds(es[a].message)
  }

  /** Every tool result follows, in its turn, the assistant entry that holds its call. */
  ghost predicate Paired(es: seq<Entry>) {
    forall i :: 0 <= i < |es| && es[i].kind.ToolResult? ==> Answered(es, i)
  }

  /** The latest assistant entry of the open turn holds the call: what `appendToolResult` expects of its caller. */
  ghost predicate Awaited(t: Thread, callId: string) {
    t.open.Some? && exists a :: LatestAssistant(t.entries, a, |t.entries|) && t.entries[a].turn == t.open.value
                                && callId in CallIds(t.entries[a].message)
  }

  // ---------------------------------------------------------------- operations

  function NewEntry(t: Thread, factor: real, turn: TurnId, kind: Kind, message: Message): Entry {
    Entry(t.nextEntry, turn, kind, message, Estimate(factor, message), false, None, None, None)
  }

  function Append(t: Thread, e: Entry): Thread {
    t.(entries := t.entries + [e], nextEntry := t.nextEntry + 1)
  }

  function SetTurn(t: Thread, id: TurnId, status: TurnStatus): Thread {
    t.(turns := t.turns[id := status], order := if id in t.turns then t.order else t.order + [id])
  }

  const NOTICE_PREFIX := "[系统通知] "

  function NoticeMessage(content: string): Message {
    Chat(User, NOTICE_PREFIX + content, None)
  }

  /** Nothing happens when a turn is open: the program throws. */
  function BeginTurn(t: Thread, factor: real, input: string): Thread {
    if t.open.Some? then t
    else
      var id := Turn(t.nextTurn);
      var u := SetTurn(t.(nextTurn := t.nextTurn + 1), id, Open).(open := Some(id));
      Append(u, NewEntry(u, factor, id, UserEntry, Chat(User, input, None)))
  }

  /** The remaining operations on the open turn do nothing without one: the program throws. */
  function CloseTurn(t: Thread, status: TurnStatus): Thread {
    if t.open.None? then t else SetTurn(t, t.open.value, status).(open := None)
  }

  function CommitTurn(t: Thread): Thread {
    CloseTurn(t, Committed)
  }

  function AppendToOpen(t: Thread, factor: real, kind: Kind, message: Message): Thread {
    if t.open.None? then t else Append(t, NewEntry(t, factor, t.open.value, kind, message))
  }

  function AbortTurn(t: Thread, factor: real, reason: string): Thread {
    CloseTurn(AppendToOpen(t, factor, Notice, NoticeMessage(reason)), Aborted)
  }

  function AppendAssistant(t: Thread, factor: real, content: string, calls: Option<seq<ToolCall>>): Thread {
    AppendToOpen(t, factor, AssistantEntry, Chat(Assistant, content, if calls == Some([]) then None else calls))
  }

  function ResultEntry(t: Thread, factor: real, callId: string, name: string, content: string,
                       summary: Option<string>, iteration: Option<int>): Entry
    requires t.open.Some?
  {
    var message := ToolMessage(callId, name, content);
    var tokens := Estimate(factor, message);
    Entry(t.nextEntry, t.open.value, ToolResult, message, tokens, false,
          if iteration.Some? then iteration else Some(t.iteration), summary, Some(tokens))
  }

  function AppendToolResult(t: Thread, factor: real, callId: string, name: string, content: string,
                            summary: Option<string>, iteration: Option<int>): Thread {
    if t.open.None? then t else Append(t, ResultEntry(t, factor, callId, name, content, summary, iteration))
  }

  function AddNotice(t: Thread, factor: real, content: string): Thread {
    if t.open.Some? then AppendToOpen(t, factor, Notice, NoticeMessage(content))
    else
      var id := NoticeTurn(t.nextTurn);
      var u := SetTurn(t.(nextTurn := t.nextTurn + 1), id, Committed);
      Append(u, NewEntry(u, factor, id, Notice, NoticeMessage(content)))
  }

  /** The ids of the tool results of a turn. */
  function ResultIds(es: seq<Entry>, turn: TurnId): set<string> {
    set e | e in es && e.turn == turn && e.message.ToolMessage? :: e.message.toolCallId
  }

  function KeepAnswered(calls: seq<ToolCall>, results: set<string>): (r: seq<ToolCall>)
    ensures forall c :: c in r <==> c in calls && c.id in results
  {
    if calls == [] then []
    else (if calls[0].id in results then [calls[0]] else []) + KeepAnswered(calls[1..], results)
  }

  function WithMessage(e: Entry, factor: real, message: Message): Entry {
    e.(message := message, tokens := Estimate(factor, message))
  }

  function WithoutUnanswered(e: Entry, factor: real, turn: TurnId, results: set<string>): Entry {
    if e.turn != turn || !e.message.Chat? || !e.message.role.Assistant? || e.message.toolCalls.None? then e
    else
      var matched := KeepAnswered(e.message.toolCalls.value, results);
      WithMessage(e, factor, Chat(Assistant, e.message.content, if matched == [] then None else Some(matched)))
  }

  function RemoveUnmatchedToolCalls(es: seq<Entry>, factor: real, turn: TurnId): (r: seq<Entry>)
    ensures |r| == |es|
  {
    seq(|es|, i requires 0 <= i < |es| => WithoutUnanswered(es[i], factor, turn, ResultIds(es, turn)))
  }

  function InterruptTurn(t: Thread, factor: real, reason: string): Thread {
    if t.open.None? then t
    else AbortTurn(t.(entries := RemoveUnmatchedToolCalls(t.entries, factor, t.open.value)), factor, reason)
  }

  /** The text of a message replaced, everything else of it kept. */
  function WithContent(m: Message, content: string): Message {
    match m
    case ToolMessage(id, name, _) => ToolMessage(id, name, content)
    case Chat(role, _, calls) => Chat(role, content, if role.Assistant? then calls else None)
  }

  function TruncateAt(t: Thread, factor: real, i: nat, content: string): Thread
    requires i < |t.entries|
  {
    t.(entries := t.entries[i := WithMessage(t.entries[i], factor, WithContent(t.entries[i].message, content))])
  }

  function Elided(e: Entry, factor: real, content: string): Entry {
    if !e.kind.ToolResult? || !e.message.ToolMessage? then e
    else
      WithMessage(e, factor, WithContent(e.message, content))
        .(elided := true, originalTokens := if e.originalTokens.Some? then e.originalTokens else Some(e.tokens))
  }

  function ElideAt(t: Thread, factor: real, i: nat, content: string): Thread
    requires i < |t.entries|
  {
    t.(entries := t.entries[i := Elided(t.entries[i], factor, content)])
  }

  function Reestimated(e: Entry, factor: real): Entry {
    var tokens := Estimate(factor, e.message);
    e.(tokens := tokens, originalTokens := if e.kind.ToolResult? && !e.elided then Some(tokens) else e.originalTokens)
  }

  function Reestimate(t: Thread, factor: real): Thread {
    t.(entries := seq(|t.entries|, i requires 0 <= i < |t.entries| => Reestimated(t.entries[i], factor)))
  }

  function TurnsOf(es: seq<Entry>): set<TurnId> {
    set e | e in es :: e.turn
  }

  function Keep(order: seq<TurnId>, gone: set<TurnId>): (r: seq<TurnId>)
    ensures forall id :: id in r <==> id in order && id !in gone
  {
    if order == [] then []
    else (if order[0] in gone then [] else [order[0]]) + Keep(order[1..], gone)
  }

  function SummaryMessage(summary: string): Message {
    Chat(User, summary, None)
  }

  /** The first entries replaced by one summary; turns that lose all their entries are forgotten. */
  function ReplacePrefix(t: Thread, factor: real, count: int, summary: string): Thread {
    var n := Max(0, Min(count, |t.entries|));
    if n == 0 then t
    else
      var gone := TurnsOf(t.entries[..n]) - TurnsOf(t.entries[n..]);
      var id := CompactionTurn(t.nextTurn);
      var message := SummaryMessage(summary);
      t.(entries := [NewEntry(t, factor, id, Compaction, message)] + t.entries[n..],
         turns := (t.turns - gone)[id := Committed],
         order := Keep(t.order, gone) + [id],
         nextEntry := t.nextEntry + 1,
         nextTurn := t.nextTurn + 1)
  }

  /** The first entry is a message of the user's role that holds exactly the summary. */
  predicate LedBySummary(es: seq<Entry>, summary: string) {
    && es != [] && es[0].kind.Compaction?
    && es[0].message.Chat? && es[0].message.role.User? && es[0].message.toolCalls.None?
    && es[0].message.content == summary
  }

  lemma SummaryLeads(t: Thread, factor: real, count: int, summary: string)
    requires count > 0 && t.entries != []
    ensures LedBySummary(ReplacePrefix(t, factor, count, summary).entries, summary)
  {
  }

  ghost predicate IsNotice(e: Entry, text: string) {
    && e.kind.Notice? && e.message.Chat? && e.message.role.User? && e.message.toolCalls.None?
    && e.message.content == "[系统通知] " + text
  }

  /** A notice, also that of an abort, is one user message behind all others, with its mark and text. */
  lemma NoticeSays(t: Thread, factor: real, text: string)
    ensures var es := AddNotice(t, factor, text).entries;
            |es| == |t.entries| + 1 && es[..|t.entries|] == t.entries && IsNotice(es[|t.entries|], text)
    ensures t.open.Some? ==>
              var es := AbortTurn(t, factor, text).entries;
              |es| == |t.entries| + 1 && es[..|t.entries|] == t.entries && IsNotice(es[|t.entries|], text)
  {
  }

  /** After an assistant message exactly the results of its calls are awaited. */
  lemma CallsAreAwaited(t: Thread, factor: real, content: string, calls: Option<seq<ToolCall>>, id: string)
    requires t.open.Some?
    ensures Awaited(AppendAssistant(t, factor, content, calls), id) <==> calls.Some? && exists c :: c in calls.value && c.id == id
  {
    var u, n := AppendAssistant(t, factor, content, calls), |t.entries|;
    assert LatestAssistant(u.entries, n, n + 1);
  }

  /** A text is replaced by the one given; role, name, call id and an assistant's calls stay. */
  lemma TextIsReplaced(m: Message, content: string)
    ensures WithContent(m, content).content == content
    ensures match m
            case ToolMessage(id, name, _) => WithContent(m, content) == ToolMessage(id, name, content)
            case Chat(role, _, calls) =>
              WithContent(m, content).Chat? && WithContent(m, content).role == role
              && WithContent(m, content).toolCalls == if role == Assistant then calls else None
  {
  }
}
