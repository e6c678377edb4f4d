/**
  The web client's batching of stream deltas: deltas of one kind are merged until an animation
  frame, and the state is as if every event had been dispatched alone.
 */
module DeltaBatching {
  import opened Prelude

  datatype From = UserText | AgentText | ThinkingText | SystemText | ToolText

  /** Ids generated on the spot are not told apart. */
  datatype MessageId = Known(name: string) | Generated

  /** `streaming` may be missing; `rest` is all that streaming leaves alone. */
  datatype UiMessage = UiMessage(id: MessageId, from: From, text: string, streaming: Option<bool>, rest: string)

  /** The parts of the state that deltas read and write; `rest` stands for the others. */
  datatype UiState<R> = UiState(activeSession: Option<string>, messages: seq<UiMessage>, rest: R)

  datatype Event = Delta(thinking: bool, text: string) | Other(payload: string)

  datatype Envelope = Envelope(workspace: string, session: Option<string>, seqNo: nat, event: Event)

  function Settle(ms: seq<UiMessage>): (r: seq<UiMessage>)
    ensures |r| == |ms|
  {
    seq(|ms|, i requires 0 <= i < |ms| => ms[i].(streaming := Some(false)))
  }

  function DeltaFrom(thinking: bool): From {
    if thinking then ThinkingText else AgentText
  }

  /** A delta extends the last message if that is being streamed by the same speaker, or starts a new one. */
  function ApplyDelta(ms: seq<UiMessage>, thinking: bool, text: string): seq<UiMessage> {
    var from := DeltaFrom(thinking);
    if ms != [] && ms[|ms| - 1].streaming == Some(true) && ms[|ms| - 1].from == from then
      var last := ms[|ms| - 1];
      ms[..|ms| - 1] + [last.(text := last.text + text)]
    else
      Settle(ms) + [UiMessage(Generated, from, text, Some(true), "transient")]
  }

  /** Events of another session than the active one are dropped; `other` reduces all events that are no deltas. */
  function Reduce<R>(s: UiState<R>, e: Envelope, other: (UiState<R>, Envelope) -> UiState<R>): UiState<R> {
    match e.event
    case Delta(thinking, text) =>
      if e.session.Some? && e.session != s.activeSession then s
      else s.(messages := ApplyDelta(s.messages, thinking, text))
    case Other(_) => other(s, e)
  }

  function ReduceAll<R>(s: UiState<R>, es: seq<Envelope>, other: (UiState<R>, Envelope) -> UiState<R>): UiState<R> {
    if es == [] then s else Reduce(ReduceAll(s, es[..|es| - 1], other), es[|es| - 1], other)
  }

  function Merge(previous: Envelope, next: Envelope): Option<Envelope> {
    if previous.workspace != next.workspace || previous.session != next.session || !previous.event.Delta? || !next.event.Delta?
       || previous.event.thinking != next.event.thinking
    then None
    else Some(next.(event := Delta(next.event.thinking, previous.event.text + next.event.text)))
  }

  lemma TextAssociates(a: string, b: string, c: string)
    ensures a + (b + c) == a + b + c
  {
  }

  /** Two mergeable deltas in a row do what their merger does. */
  lemma MergedDeltasAgree(ms: seq<UiMessage>, thinking: bool, first: string, second: string)
    ensures ApplyDelta(ApplyDelta(ms, thinking, first), thinking, second) == ApplyDelta(ms, thinking, first + second)
  {
    var once := ApplyDelta(ms, thinking, first);
    if ms != [] && ms[|ms| - 1].streaming == Some(true) && ms[|ms| - 1].from == DeltaFrom(thinking) {
      TextAssociates(ms[|ms| - 1].text, first, second);
      assert once[..|once| - 1] == ms[..|ms| - 1];
    } else {
      assert once[..|once| - 1] == Settle(ms);
    }
  }

  // ---------------------------------------------------------------- the batcher

  /** `frame` tells that an animation frame has been asked for since the last flush. */
  datatype Batcher<R> = Batcher(state: UiState<R>, pending: Option<Envelope>, frame: bool)

  function Flush<R>(b: Batcher<R>, other: (UiState<R>, Envelope) -> UiState<R>): Batcher<R> {
    Batcher(if b.pending.Some? then Reduce(b.state, b.pending.value, other) else b.state, None, false)
  }

  function Receive<R>(b: Batcher<R>, e: Envelope, other: (UiState<R>, Envelope) -> UiState<R>): Batcher<R> {
    if e.event.Delta? then
      var merged := if b.pending.Some? then Merge(b.pending.value, e) else None;
      var c := if b.pending.Some? && merged.None? then Flush(b, other) else b;
      c.(pending := if merged.Some? then merged else Some(e), frame := true)
    else
      var c := Flush(b, other);
      c.(state := Reduce(c.state, e, other))
  }

  datatype Step = Arrive(e: Envelope) | Frame

  function Next<R>(b: Batcher<R>, step: Step, other: (UiState<R>, Envelope) -> UiState<R>): Batcher<R> {
    match step
    case Arrive(e) => Receive(b, e, other)
    case Frame => Flush(b, other)
  }

  function Run<R>(b: Batcher<R>, steps: seq<Step>, other: (UiState<R>, Envelope) -> UiState<R>): Batcher<R> {
    if steps == [] then b else Next(Run(b, steps[..|steps| - 1], other), steps[|steps| - 1], other)
  }

  function Arrivals(steps: seq<Step>): seq<Envelope> {
    if steps == [] then []
    else Arrivals(steps[..|steps| - 1]) + if steps[|steps| - 1].Arrive? then [steps[|steps| - 1].e] else []
  }

  /** The state once the pending delta is dispatched. */
  function View<R>(b: Batcher<R>, other: (UiState<R>, Envelope) -> UiState<R>): UiState<R> {
    Flush(b, other).state
  }

  /** Only deltas wait, and never without a frame on the way. */
  ghost predicate Waits<R(!new)>(b: Batcher<R>) {
    b.pending.Some? ==> b.pending.value.event.Delta? && b.frame
  }

  lemma ReceiveRefines<R(!new)>(b: Batcher<R>, e: Envelope, other: (UiState<R>, Envelope) -> UiState<R>)
    requires Waits(b)
    ensures Waits(Receive(b, e, other)) && View(Receive(b, e, other), other) == Reduce(View(b, other), e, other)
  {
    if e.event.Delta? && b.pending.Some? && Merge(b.pending.value, e).Some? {
      var p := b.pending.value;
      MergedDeltasAgree(b.state.messages, e.event.thinking, p.event.text, e.event.text);
    }
  }

  /**
    Whatever the events and whenever the frames come, the state, with the pending delta
    dispatched, is that of dispatching each event alone; after a frame it is the state itself.
   */
  lemma {:induction false} BatchingRefines<R(!new)>(s: UiState<R>, steps: seq<Step>, other: (UiState<R>, Envelope) -> UiState<R>)
    ensures var b := Run(Batcher(s, None, false), steps, other);
            Waits(b) && View(b, other) == ReduceAll(s, Arrivals(steps), other)
            && (b.pending.None? ==> b.state == ReduceAll(s, Arrivals(steps), other))
    decreases |steps|
  {
    if steps != [] {
      var rest, last := steps[..|steps| - 1], steps[|steps| - 1];
      BatchingRefines(s, rest, other);
      if last.Arrive? {
        ReceiveRefines(Run(Batcher(s, None, false), rest, other), last.e, other);
        assert Arrivals(steps)[..|Arrivals(rest)|] == Arrivals(rest);
      } else {
        assert Arrivals(steps) == Arrivals(rest);
      }
    }
  }

  // ---------------------------------------------------------------- user actions in between

  function TypeText<R>(s: UiState<R>, text: string): UiState<R> {
    s.(messages := s.messages + [UiMessage(Generated, UserText, text, None, "transient")])
  }

  /**
    The proviso that no user action intervenes is needed: text typed while a delta waits
    overtakes it, unless the delta is one the active session drops anyway.
   */
  lemma TypingOvertakesIff<R(!new)>(s: UiState<R>, p: Envelope, text: string, other: (UiState<R>, Envelope) -> UiState<R>)
    requires p.event.Delta?
    ensures Reduce(TypeText(s, text), p, other) == TypeText(Reduce(s, p, other), text)
            <==> p.session.Some? && p.session != s.activeSession
  {
    var typed := TypeText(s, text);
    var late, early := Reduce(typed, p, other).messages, TypeText(Reduce(s, p, other), text).messages;
    assert early[|early| - 1].from == UserText;
    if !(p.session.Some? && p.session != s.activeSession) {
      assert typed.messages[|typed.messages| - 1].streaming == None;
      assert late[|late| - 1].from == DeltaFrom(p.event.thinking);
    }
  }

  // ---------------------------------------------------------------- the effect's own variables

  class DeltaBatcher<R(!new)> {
    const other: (UiState<R>, Envelope) -> UiState<R>
    var state: UiState<R>
    var pendingDelta: Option<Envelope>
    var animationFrame: bool

    ghost function State(): Batcher<R>
      reads this
    {
      Batcher(state, pendingDelta, animationFrame)
    }

    constructor (initial: UiState<R>, other: (UiState<R>, Envelope) -> UiState<R>)
      ensures State() == Batcher(initial, None, false) && this.other == other
    {
      this.other, state, pendingDelta, animationFrame := other, initial, None, false;
    }

    /** Also the animation frame's callback. */
    method FlushDelta()
      modifies this
      ensures State() == Flush(old(State()), other)
    {
      animationFrame := false;
      if pendingDelta.None? {
        return;
      }
      state := Reduce(state, pendingDelta.value, other);
      pendingDelta := None;
    }

    method OnEvent(event: Envelope)
      modifies this
      ensures State() == Receive(old(State()), event, other)
    {
      if event.event.Delta? {
        var merged := if pendingDelta.Some? then Merge(pendingDelta.value, event) else None;
        if pendingDelta.Some? && merged.None? {
          FlushDelta();
        }
        pendingDelta := if merged.Some? then merged else Some(event);
        animationFrame := true;
        return;
      }
      FlushDelta();
      state := Reduce(state, event, other);
    }
  }
}
