/** How the worker stores a stream: one message for each run of deltas, rewritten as the run grows. */
module StreamPersistence {
  import opened Prelude

  datatype From = UserMessage | Agent | Thinking | SystemMessage | Tool

  datatype Run = Run(from: From, text: string)

  /** `ToolTrace` is what the trace subscriber stores meanwhile: a new tool message, or an update of one. */
  datatype Item =
    | Delta(thinking: bool, text: string)
    | TurnStart
    | ToolsStart
    | Result(approvalRequired: bool, summary: string)
    | ToolTrace(at: Option<nat>, text: string)

  // ---------------------------------------------------------------- the simple specification

  /** Runs of deltas of one kind, empty ones included; `open` tells that the last can still grow. */
  datatype Runs = Runs(runs: seq<Run>, open: bool)

  function DeltaFrom(thinking: bool): From {
    if thinking then Thinking else Agent
  }

  function Extend(r: Runs, item: Item): Runs {
    match item
    case Delta(thinking, text) =>
      var n, from := |r.runs|, DeltaFrom(thinking);
      if r.open && n > 0 && r.runs[n - 1].from == from
      then Runs(r.runs[..n - 1] + [Run(from, r.runs[n - 1].text + text)], true)
      else Runs(r.runs + [Run(from, text)], true)
    case ToolTrace(_, _) => r
    case _ => r.(open := false)
  }

  function RunsOf(items: seq<Item>): Runs {
    if items == [] then Runs([], false) else Extend(RunsOf(items[..|items| - 1]), items[|items| - 1])
  }

  function NonEmpty(runs: seq<Run>): seq<Run> {
    if runs == [] then []
    else NonEmpty(runs[..|runs| - 1]) + if runs[|runs| - 1].text == "" then [] else [runs[|runs| - 1]]
  }

  /** The texts that should be stored, in order. */
  function Spoken(items: seq<Item>): seq<Run> {
    NonEmpty(RunsOf(items).runs)
  }

  predicate HasAgentRun(runs: seq<Run>) {
    exists i :: 0 <= i < |runs| && runs[i].from.Agent?
  }

  function LastResult(items: seq<Item>): Option<Item> {
    if items == [] then None
    else if items[|items| - 1].Result? then Some(items[|items| - 1]) else LastResult(items[..|items| - 1])
  }

  // ---------------------------------------------------------------- the store

  type Messages = map<nat, Run>

  /** The agent and thinking messages with ids from `lo` up to `hi`, in the order of ids. */
  function Texts(m: Messages, lo: nat, hi: nat): seq<Run>
    decreases hi
  {
    if hi <= lo then []
    else
      Texts(m, lo, hi - 1)
      + if hi - 1 in m && (m[hi - 1].from.Agent? || m[hi - 1].from.Thinking?) then [m[hi - 1]] else []
  }

  lemma {:induction false} TextsIgnore(m: Messages, lo: nat, hi: nat, id: nat, r: Run)
    requires id >= hi || id < lo || (r.from.Tool? && (id in m ==> m[id].from.Tool?))
    ensures Texts(m[id := r], lo, hi) == Texts(m, lo, hi)
    decreases hi
  {
    if hi > lo {
      TextsIgnore(m, lo, hi - 1, id, r);
    }
  }

  lemma {:induction false} TextsSplit(m: Messages, lo: nat, mid: nat, hi: nat)
    requires lo <= mid <= hi
    ensures Texts(m, lo, hi) == Texts(m, lo, mid) + Texts(m, mid, hi)
    decreases hi
  {
    if hi > mid {
      TextsSplit(m, lo, mid, hi - 1);
    }
  }

  /** Storing the grown text of message `id`, after which only tool messages came. */
  lemma TextsRewrite(m: Messages, lo: nat, id: nat, hi: nat, r: Run)
    requires lo <= id < hi && (r.from.Agent? || r.from.Thinking?) && Texts(m, id + 1, hi) == []
    ensures Texts(m[id := r], lo, hi) == Texts(m, lo, id) + [r] && Texts(m[id := r], id + 1, hi) == []
  {
    var n := m[id := r];
    TextsSplit(n, lo, id + 1, hi);
    TextsIgnore(m, lo, id, id, r);
    TextsIgnore(m, id + 1, hi, id, r);
  }

  /** Messages with ids below `start` are the same, but for the texts of tool messages. */
  ghost predicate SameBelow(m: Messages, n: Messages, start: nat) {
    forall id :: id < start ==>
      (id in n <==> id in m) && (id in m ==> n[id] == m[id] || (m[id].from.Tool? && n[id].from.Tool?))
  }

  // ---------------------------------------------------------------- the loop's invariant

  /** The local variables of the loop: the segment's speaker, text and stored message. */
  datatype Segment = Segment(from: Option<From>, text: string, message: Option<(nat, Run)>)

  const NO_SEGMENT := Segment(None, "", None)

  /** Between messages, all non-empty runs are stored; while one is open, all but its latest text are. */
  ghost predicate Keeps(m: Messages, start: nat, next: nat, s: Segment, r: Runs) {
    match s.message
    case None => s == NO_SEGMENT && Texts(m, start, next) == NonEmpty(r.runs) && (r.open ==> r.runs != [] && r.runs[|r.runs| - 1].text == "")
    case Some((id, stored)) =>
      && start <= id < next && id in m && m[id] == stored && s.from == Some(stored.from)
      && (stored.from.Agent? || stored.from.Thinking?) && s.text != ""
      && r.open && r.runs != [] && r.runs[|r.runs| - 1] == Run(stored.from, s.text)
      && Texts(m, start, id) + [Run(stored.from, s.text)] == NonEmpty(r.runs)
      && Texts(m, id + 1, next) == []
  }

  lemma NonEmptySnoc(runs: seq<Run>, r: Run)
    ensures NonEmpty(runs + [r]) == NonEmpty(runs) + if r.text == "" then [] else [r]
  {
    assert (runs + [r])[..|runs|] == runs;
  }

  /** Closing the segment stores its text. */
  function Flushed(m: Messages, s: Segment): Messages {
    if s.message.Some? && s.message.value.1.text != s.text
    then m[s.message.value.0 := Run(s.message.value.1.from, s.text)] else m
  }

  lemma FlushKeeps(m: Messages, start: nat, next: nat, s: Segment, r: Runs)
    requires Keeps(m, start, next, s, r)
    ensures Texts(Flushed(m, s), start, next) == NonEmpty(r.runs)
  {
    if s.message.Some? {
      var (id, stored) := s.message.value;
      TextsRewrite(m, start, id, next, Run(stored.from, s.text));
      if stored.text == s.text {
        assert m[id := stored] == m;
      }
    }
  }

  /** A first non-empty delta of a run is stored as a new message. */
  lemma BeginKeeps(m: Messages, start: nat, next: nat, r: Runs, thinking: bool, text: string)
    requires start <= next && Texts(m, start, next) == NonEmpty(r.runs) && text != ""
    requires r.open && r.runs != [] && r.runs[|r.runs| - 1].from == DeltaFrom(thinking) ==> r.runs[|r.runs| - 1].text == ""
    ensures var run := Run(DeltaFrom(thinking), text);
            Keeps(m[next := run], start, next + 1, Segment(Some(run.from), text, Some((next, run))), Extend(r, Delta(thinking, text)))
            && NonEmpty(Extend(r, Delta(thinking, text)).runs) == NonEmpty(r.runs) + [run]
  {
    TextsIgnore(m, start, next, next, Run(DeltaFrom(thinking), text));
    BeginRuns(r, thinking, text);
  }

  lemma BeginRuns(r: Runs, thinking: bool, text: string)
    requires text != ""
    requires r.open && r.runs != [] && r.runs[|r.runs| - 1].from == DeltaFrom(thinking) ==> r.runs[|r.runs| - 1].text == ""
    ensures var run, n := Run(DeltaFrom(thinking), text), Extend(r, Delta(thinking, text));
            n.open && n.runs != [] && n.runs[|n.runs| - 1] == run && NonEmpty(n.runs) == NonEmpty(r.runs) + [run]
  {
    var run := Run(DeltaFrom(thinking), text);
    if r.open && r.runs != [] && r.runs[|r.runs| - 1].from == run.from {
      FillEmptyRun(r.runs, run);
    } else {
      NonEmptySnoc(r.runs, run);
    }
  }

  lemma FillEmptyRun(runs: seq<Run>, run: Run)
    requires runs != [] && runs[|runs| - 1].text == "" && run.text != ""
    ensures runs[|runs| - 1].text + run.text == run.text
    ensures NonEmpty(runs[..|runs| - 1] + [run]) == NonEmpty(runs) + [run]
  {
    NonEmptySnoc(runs[..|runs| - 1], run);
    assert NonEmpty(runs) == NonEmpty(runs[..|runs| - 1]) + [];
  }

  lemma GrowKeeps(m: Messages, start: nat, next: nat, s: Segment, r: Runs, thinking: bool, text: string)
    requires Keeps(m, start, next, s, r) && s.message.Some? && s.from == Some(DeltaFrom(thinking))
    ensures Keeps(m, start, next, s.(text := s.text + text), Extend(r, Delta(thinking, text)))
    ensures HasAgentRun(NonEmpty(Extend(r, Delta(thinking, text)).runs)) <==> HasAgentRun(NonEmpty(r.runs))
  {
    var n := |r.runs|;
    var grown := Run(DeltaFrom(thinking), s.text + text);
    NonEmptySnoc(r.runs[..n - 1], grown);
    NonEmptySnoc(r.runs[..n - 1], r.runs[n - 1]);
    assert r.runs == r.runs[..n - 1] + [r.runs[n - 1]];
    var kept := Texts(m, start, s.message.value.0);
    assert NonEmpty(r.runs)[..|NonEmpty(r.runs)| - 1] == kept;
    AgentRunSnoc(kept, grown);
    AgentRunSnoc(kept, r.runs[n - 1]);
  }

  lemma AgentRunSnoc(runs: seq<Run>, r: Run)
    ensures HasAgentRun(runs + [r]) <==> HasAgentRun(runs) || r.from.Agent?
  {
    assert (runs + [r])[|runs|] == r;
    if HasAgentRun(runs) {
      var i :| 0 <= i < |runs| && runs[i].from.Agent?;
      assert (runs + [r])[i] == runs[i];
    }
  }

  /** An empty delta between messages leaves the store as it is; it may begin a run. */
  lemma EmptyDeltaKeeps(m: Messages, start: nat, next: nat, r: Runs, thinking: bool)
    requires Texts(m, start, next) == NonEmpty(r.runs)
    requires r.open && r.runs != [] && r.runs[|r.runs| - 1].from == DeltaFrom(thinking) ==> r.runs[|r.runs| - 1].text == ""
    ensures Keeps(m, start, next, NO_SEGMENT, Extend(r, Delta(thinking, "")))
    ensures NonEmpty(Extend(r, Delta(thinking, "")).runs) == NonEmpty(r.runs)
  {
    if r.open && r.runs != [] && r.runs[|r.runs| - 1].from == DeltaFrom(thinking) {
      var n := |r.runs|;
      assert r.runs == r.runs[..n - 1] + [r.runs[n - 1]];
      assert r.runs[n - 1].text + "" == "";
    } else {
      NonEmptySnoc(r.runs, Run(DeltaFrom(thinking), ""));
    }
  }

  lemma ToolTraceKeeps(m: Messages, start: nat, next: nat, s: Segment, r: Runs, id: nat, text: string)
    requires start <= next && Keeps(m, start, next, s, r)
    requires id == next || (id in m && m[id].from.Tool?)
    ensures Keeps(m[id := Run(Tool, text)], start, if id == next then next + 1 else next, s, r)
  {
    TextsIgnore(m, start, next, id, Run(Tool, text));
    if s.message.Some? {
      TextsIgnore(m, start, s.message.value.0, id, Run(Tool, text));
      TextsIgnore(m, s.message.value.0 + 1, next, id, Run(Tool, text));
    }
  }

  // ---------------------------------------------------------------- the loop, step by step

  /** The store, the next message id, and the loop's variables. */
  datatype Consumer = Consumer(messages: Messages, next: nat, segment: Segment, agent: bool, final: Option<Item>)

  function Persist(c: Consumer, from: From, text: string): Consumer {
    c.(messages := c.messages[c.next := Run(from, text)], next := c.next + 1)
  }

  function Flush(c: Consumer): Consumer {
    c.(messages := Flushed(c.messages, c.segment), segment := NO_SEGMENT)
  }

  /** A delta of another kind closes the segment; a first non-empty one is stored; any other grows the text. */
  function TakeDelta(c: Consumer, thinking: bool, text: string): Consumer {
    var from := DeltaFrom(thinking);
    var d := if c.segment.from != Some(from) then Flush(c) else c;
    if d.segment.message.None? && text != "" then
      Persist(d, from, text).(segment := Segment(Some(from), text, Some((d.next, Run(from, text)))), agent := d.agent || !thinking)
    else
      d.(segment := d.segment.(text := d.segment.text + text))
  }

  predicate HasTool(m: Messages, at: Option<nat>) {
    at.Some? && at.value in m && m[at.value].from.Tool?
  }

  function TakeTrace(c: Consumer, at: Option<nat>, text: string): Consumer {
    if HasTool(c.messages, at) then c.(messages := c.messages[at.value := Run(Tool, text)]) else Persist(c, Tool, text)
  }

  function Take(c: Consumer, item: Item): Consumer {
    match item
    case Delta(thinking, text) => TakeDelta(c, thinking, text)
    case ToolTrace(at, text) => TakeTrace(c, at, text)
    case Result(_, _) => Flush(c).(final := Some(item))
    case _ => Flush(c)
  }

  function TakeAll(c: Consumer, items: seq<Item>): Consumer {
    if items == [] then c else Take(TakeAll(c, items[..|items| - 1]), items[|items| - 1])
  }

  function Finish(c: Consumer, blank: string -> bool): Consumer {
    var d := Flush(c);
    if !d.agent && d.final.Some? && d.final.value.Result? && !blank(d.final.value.summary)
    then Persist(d, if d.final.value.approvalRequired then SystemMessage else Agent, d.final.value.summary)
    else d
  }

  /** Every run so far is stored, but for the latest text of the open one, and what was stored before is as it was. */
  ghost predicate Consistent(was: Consumer, c: Consumer, items: seq<Item>) {
    && was.next <= c.next && Keeps(c.messages, was.next, c.next, c.segment, RunsOf(items))
    && (c.agent <==> HasAgentRun(Spoken(items))) && c.final == LastResult(items)
    && SameBelow(was.messages, c.messages, was.next)
  }

  lemma ItemSnoc(items: seq<Item>, item: Item)
    ensures RunsOf(items + [item]) == Extend(RunsOf(items), item)
    ensures LastResult(items + [item]) == if item.Result? then Some(item) else LastResult(items)
  {
    assert (items + [item])[..|items|] == items;
  }

  lemma FlushedBelow(was: Consumer, c: Consumer, items: seq<Item>)
    requires Consistent(was, c, items)
    ensures SameBelow(was.messages, Flush(c).messages, was.next)
    ensures Texts(Flush(c).messages, was.next, c.next) == Spoken(items)
  {
    FlushKeeps(c.messages, was.next, c.next, c.segment, RunsOf(items));
  }

  lemma BeginDelta(was: Consumer, d: Consumer, items: seq<Item>, thinking: bool, text: string)
    requires text != "" && was.next <= d.next && Texts(d.messages, was.next, d.next) == Spoken(items)
    requires var r := RunsOf(items);
             r.open && r.runs != [] && r.runs[|r.runs| - 1].from == DeltaFrom(thinking) ==> r.runs[|r.runs| - 1].text == ""
    requires d.agent <==> HasAgentRun(Spoken(items))
    ensures var run, more := Run(DeltaFrom(thinking), text), items + [Delta(thinking, text)];
            && Keeps(d.messages[d.next := run], was.next, d.next + 1, Segment(Some(run.from), text, Some((d.next, run))), RunsOf(more))
            && (d.agent || !thinking <==> HasAgentRun(Spoken(more)))
            && LastResult(more) == LastResult(items)
  {
    ItemSnoc(items, Delta(thinking, text));
    BeginKeeps(d.messages, was.next, d.next, RunsOf(items), thinking, text);
    AgentRunSnoc(Spoken(items), Run(DeltaFrom(thinking), text));
  }

  lemma GrowDelta(was: Consumer, c: Consumer, items: seq<Item>, thinking: bool, text: string)
    requires Consistent(was, c, items) && c.segment.from == Some(DeltaFrom(thinking))
    ensures Consistent(was, TakeDelta(c, thinking, text), items + [Delta(thinking, text)])
  {
    ItemSnoc(items, Delta(thinking, text));
    GrowKeeps(c.messages, was.next, c.next, c.segment, RunsOf(items), thinking, text);
  }

  lemma SwitchDelta(was: Consumer, c: Consumer, items: seq<Item>, thinking: bool, text: string)
    requires Consistent(was, c, items) && c.segment.from != Some(DeltaFrom(thinking))
    ensures Consistent(was, TakeDelta(c, thinking, text), items + [Delta(thinking, text)])
  {
    FlushedBelow(was, c, items);
    if text != "" {
      BeginDelta(was, Flush(c), items, thinking, text);
    } else {
      ItemSnoc(items, Delta(thinking, text));
      EmptyDeltaKeeps(Flush(c).messages, was.next, c.next, RunsOf(items), thinking);
    }
  }

  lemma TakeTraceKeeps(was: Consumer, c: Consumer, items: seq<Item>, at: Option<nat>, text: string)
    requires Consistent(was, c, items)
    ensures Consistent(was, TakeTrace(c, at, text), items + [ToolTrace(at, text)])
  {
    ItemSnoc(items, ToolTrace(at, text));
    ToolTraceKeeps(c.messages, was.next, c.next, c.segment, RunsOf(items), if HasTool(c.messages, at) then at.value else c.next, text);
  }

  lemma CloseKeeps(was: Consumer, c: Consumer, items: seq<Item>, item: Item)
    requires Consistent(was, c, items) && (item.TurnStart? || item.ToolsStart? || item.Result?)
    ensures Consistent(was, Take(c, item), items + [item])
  {
    ItemSnoc(items, item);
    FlushedBelow(was, c, items);
  }

  lemma TakeKeeps(was: Consumer, c: Consumer, items: seq<Item>, item: Item)
    requires Consistent(was, c, items)
    ensures Consistent(was, Take(c, item), items + [item])
  {
    match item
    case Delta(thinking, text) =>
      if c.segment.from == Some(DeltaFrom(thinking)) {
        GrowDelta(was, c, items, thinking, text);
      } else {
        SwitchDelta(was, c, items, thinking, text);
      }
    case ToolTrace(at, text) => TakeTraceKeeps(was, c, items, at, text);
    case _ => CloseKeeps(was, c, items, item);
  }

  function Start(messages: Messages, next: nat): Consumer {
    Consumer(messages, next, NO_SEGMENT, false, None)
  }

  lemma {:induction false} TakeAllKeeps(was: Consumer, items: seq<Item>)
    requires was == Start(was.messages, was.next)
    ensures Consistent(was, TakeAll(was, items), items)
  {
    if items != [] {
      var rest, last := items[..|items| - 1], items[|items| - 1];
      TakeAllKeeps(was, rest);
      TakeKeeps(was, TakeAll(was, rest), rest, last);
      Snoc(items);
    }
  }

  /** The summary is stored when the agent said nothing and there is one. */
  predicate StoresSummary(items: seq<Item>, blank: string -> bool) {
    !HasAgentRun(Spoken(items)) && LastResult(items).Some? && LastResult(items).value.Result? && !blank(LastResult(items).value.summary)
  }

  /** The messages of a stream: its spoken runs, and the summary after them if it is stored. */
  ghost predicate Stores(was: Messages, start: nat, m: Messages, next: nat, items: seq<Item>, blank: string -> bool) {
    && start <= next && SameBelow(was, m, start)
    && if StoresSummary(items, blank) then
         var result := LastResult(items).value;
         start < next && next - 1 in m
         && m[next - 1] == Run(if result.approvalRequired then SystemMessage else Agent, result.summary)
         && Texts(m, start, next - 1) == Spoken(items)
       else Texts(m, start, next) == Spoken(items)
  }

  /**
    After a stream that ends normally, earlier messages are as before, and those stored for it are,
    in the order of their ids, exactly its non-empty runs of deltas; and the summary follows, once,
    exactly when the agent said nothing and the summary is not blank.
   */
  lemma StreamIsStored(messages: Messages, start: nat, items: seq<Item>, blank: string -> bool)
    ensures var c := Finish(TakeAll(Start(messages, start), items), blank);
            Stores(messages, start, c.messages, c.next, items, blank)
  {
    var was := Start(messages, start);
    var c := TakeAll(was, items);
    TakeAllKeeps(was, items);
    FlushedBelow(was, c, items);
    if StoresSummary(items, blank) {
      var result := LastResult(items).value;
      TextsIgnore(Flush(c).messages, start, c.next, c.next, Run(if result.approvalRequired then SystemMessage else Agent, result.summary));
    }
  }

  // ---------------------------------------------------------------- the worker's method

  class StreamConsumer {
    const blank: string -> bool
    var messages: Messages
    var nextMessageId: nat
    var segment: Segment
    var hasAgentText: bool
    var finalResult: Option<Item>

    ghost function State(): Consumer
      reads this
    {
      Consumer(messages, nextMessageId, segment, hasAgentText, finalResult)
    }

    constructor (messages: Messages, nextMessageId: nat, blank: string -> bool)
      ensures State() == Start(messages, nextMessageId) && this.blank == blank
    {
      this.messages, this.nextMessageId, this.blank := messages, nextMessageId, blank;
      segment, hasAgentText, finalResult := NO_SEGMENT, false, None;
    }

    method PersistMessage(from: From, text: string)
      modifies this`messages, this`nextMessageId
      ensures State() == Persist(old(State()), from, text)
    {
      messages := messages[nextMessageId := Run(from, text)];
      nextMessageId := nextMessageId + 1;
    }

    method FlushSegment()
      modifies this`messages, this`segment
      ensures State() == Flush(old(State()))
    {
      if segment.message.Some? && segment.message.value.1.text != segment.text {
        messages := messages[segment.message.value.0 := Run(segment.message.value.1.from, segment.text)];
      }
      segment := NO_SEGMENT;
    }

    method ConsumeDelta(thinking: bool, text: string)
      modifies this
      ensures State() == TakeDelta(old(State()), thinking, text)
    {
      var from := DeltaFrom(thinking);
      if segment.from != Some(from) {
        FlushSegment();
      }
      if segment.message.None? && text != "" {
        segment := Segment(Some(from), text, Some((nextMessageId, Run(from, text))));
        PersistMessage(from, text);
        if from == Agent {
          hasAgentText := true;
        }
      } else {
        segment := segment.(text := segment.text + text);
      }
    }

    /** What the trace subscriber does between two events of the stream. */
    method StoreToolTrace(at: Option<nat>, text: string)
      modifies this`messages, this`nextMessageId
      ensures State() == TakeTrace(old(State()), at, text)
    {
      if at.Some? && at.value in messages && messages[at.value].from.Tool? {
        messages := messages[at.value := Run(Tool, text)];
      } else {
        PersistMessage(Tool, text);
      }
    }

    method ConsumeStream(items: seq<Item>)
      modifies this
      ensures Stores(old(messages), old(nextMessageId), messages, nextMessageId, items, blank)
      ensures State() == Finish(TakeAll(Start(old(messages), old(nextMessageId)), items), blank)
    {
      segment, hasAgentText, finalResult := NO_SEGMENT, false, None;
      ghost var was := State();
      for i := 0 to |items|
        invariant State() == TakeAll(was, items[..i])
      {
        assert items[..i + 1][..i] == items[..i];
        match items[i] {
          case Delta(thinking, text) => ConsumeDelta(thinking, text);
          case ToolTrace(at, text) => StoreToolTrace(at, text);
          case Result(_, _) =>
            FlushSegment();
            finalResult := Some(items[i]);
          case _ => FlushSegment();
        }
      }
      assert items[..|items|] == items;
      FlushSegment();
      if !hasAgentText && finalResult.Some? && finalResult.value.Result? && !blank(finalResult.value.summary) {
        PersistMessage(if finalResult.value.approvalRequired then SystemMessage else Agent, finalResult.value.summary);
      }
      StreamIsStored(was.messages, was.next, items, blank);
    }
  }
}
