/** What the reader of the web client sees of a stream: the deltas, speaker by speaker, and nothing else. */
module StreamedMessages {
  import opened Prelude
  import opened DeltaBatching

  /** All that one speaker has said. */
  function Said(ms: seq<UiMessage>, from: From): string {
    if ms == [] then "" else Said(ms[..|ms| - 1], from) + if ms[|ms| - 1].from == from then ms[|ms| - 1].text else ""
  }

  /** The deltas of the active session, and those of none, are shown. */
  predicate Shown(e: Envelope, active: Option<string>) {
    e.session.None? || e.session == active
  }

  /** The text that the shown deltas send to one speaker: thoughts to the one, answers to the other. */
  function Sent(es: seq<Envelope>, active: Option<string>, from: From): string {
    if es == [] then ""
    else
      var e := es[|es| - 1];
      Sent(es[..|es| - 1], active, from)
      + if Shown(e, active) && e.event.Delta? && ((from.ThinkingText? && e.event.thinking) || (from.AgentText? && !e.event.thinking))
        then e.event.text else ""
  }

  /** Messages already there stay in place with their text, which only the last one of them may continue. */
  ghost predicate Continues(was: seq<UiMessage>, now: seq<UiMessage>) {
    && |was| <= |now|
    && (forall i :: 0 <= i < |was| ==> now[i].id == was[i].id && now[i].from == was[i].from && now[i].rest == was[i].rest)
    && (forall i :: 0 <= i < |was| ==> was[i].text <= now[i].text && (i < |was| - 1 ==> now[i].text == was[i].text))
  }

  ghost predicate EndsStreaming(ms: seq<UiMessage>) {
    ms != [] && ms[|ms| - 1].streaming == Some(true)
  }

  /** Made by the client, until a snapshot replaces it. */
  ghost predicate Fresh(m: UiMessage) {
    m.id == Generated && m.rest == "transient"
  }

  /** A message begins only where the speaker changes, or where none was being streamed. */
  ghost predicate OneMessagePerRun(was: seq<UiMessage>, now: seq<UiMessage>) {
    forall i :: |was| <= i < |now| ==>
      && Fresh(now[i])
      && (i > 0 && (i > |was| || EndsStreaming(was)) ==> now[i].from != now[i - 1].from)
  }

  /** Only the last message is being streamed, once there is a new one. */
  ghost predicate OthersSettled(was: seq<UiMessage>, now: seq<UiMessage>) {
    if |now| <= |was| then forall i :: 0 <= i < |now| ==> i < |was| && now[i].streaming == was[i].streaming
    else EndsStreaming(now) && forall i :: 0 <= i < |now| - 1 ==> now[i].streaming == Some(false)
  }

  ghost predicate Grows(was: seq<UiMessage>, now: seq<UiMessage>) {
    Continues(was, now) && OneMessagePerRun(was, now) && OthersSettled(was, now)
  }

  lemma {:induction false} SettleSays(ms: seq<UiMessage>, from: From)
    ensures Said(Settle(ms), from) == Said(ms, from)
  {
    if ms != [] {
      SettleSays(ms[..|ms| - 1], from);
      assert Settle(ms)[..|ms| - 1] == Settle(ms[..|ms| - 1]);
    }
  }

  lemma DeltaIsSaid(ms: seq<UiMessage>, thinking: bool, text: string, from: From)
    ensures Said(ApplyDelta(ms, thinking, text), from)
            == Said(ms, from) + if from == DeltaFrom(thinking) then text else ""
  {
    var now := ApplyDelta(ms, thinking, text);
    if ms != [] && ms[|ms| - 1].streaming == Some(true) && ms[|ms| - 1].from == DeltaFrom(thinking) {
      assert now[..|now| - 1] == ms[..|ms| - 1];
      TextAssociates(Said(ms[..|ms| - 1], from), ms[|ms| - 1].text, text);
    } else {
      assert now[..|now| - 1] == Settle(ms);
      SettleSays(ms, from);
    }
  }

  lemma DeltaGrows(ms: seq<UiMessage>, thinking: bool, text: string)
    ensures Grows(ms, ApplyDelta(ms, thinking, text)) && EndsStreaming(ApplyDelta(ms, thinking, text))
  {
  }

  lemma GrowsOn(was: seq<UiMessage>, mid: seq<UiMessage>, now: seq<UiMessage>)
    requires Grows(was, mid) && Grows(mid, now)
    ensures Grows(was, now)
  {
    forall i | 0 <= i < |was| ensures was[i].text <= now[i].text {
      assert was[i].text <= mid[i].text <= now[i].text;
    }
  }

  /** Each speaker has said the text of its own shown deltas after what it said before, and nothing else of the state moved. */
  ghost predicate Displays<R>(s: UiState<R>, t: UiState<R>, es: seq<Envelope>, from: From) {
    && t.activeSession == s.activeSession && t.rest == s.rest
    && Said(t.messages, from) == Said(s.messages, from) + Sent(es, s.activeSession, from)
  }

  /** The last message is left streaming once a delta was shown. */
  ghost predicate StreamsOnce<R>(s: UiState<R>, t: UiState<R>, es: seq<Envelope>) {
    forall e :: e in es && Shown(e, s.activeSession) ==> EndsStreaming(t.messages)
  }

  lemma SentByOne(e: Envelope, active: Option<string>, from: From)
    requires e.event.Delta?
    ensures Sent([e], active, from) == if Shown(e, active) && from == DeltaFrom(e.event.thinking) then e.event.text else ""
  {
    assert Sent([e][..0], active, from) == "";
  }

  lemma OneDeltaDisplays<R(!new)>(s: UiState<R>, e: Envelope, other: (UiState<R>, Envelope) -> UiState<R>, from: From)
    requires e.event.Delta?
    ensures Displays(s, Reduce(s, e, other), [e], from)
  {
    SentByOne(e, s.activeSession, from);
    if Shown(e, s.activeSession) {
      DeltaIsSaid(s.messages, e.event.thinking, e.event.text, from);
    }
  }

  lemma OneDeltaGrows<R(!new)>(s: UiState<R>, e: Envelope, other: (UiState<R>, Envelope) -> UiState<R>)
    requires e.event.Delta?
    ensures Grows(s.messages, Reduce(s, e, other).messages)
    ensures if Shown(e, s.activeSession) then EndsStreaming(Reduce(s, e, other).messages) else Reduce(s, e, other) == s
  {
    if Shown(e, s.activeSession) {
      DeltaGrows(s.messages, e.event.thinking, e.event.text);
    }
  }

  lemma SentOnce(rest: seq<Envelope>, last: Envelope, active: Option<string>, from: From)
    ensures Sent(rest + [last], active, from) == Sent(rest, active, from) + Sent([last], active, from)
  {
    assert [last][..0] == [] && (rest + [last])[..|rest|] == rest;
    var own := Sent(rest + [last], active, from)[|Sent(rest, active, from)|..];
    assert Sent([last], active, from) == own;
  }

  lemma DisplaysOn<R>(s: UiState<R>, mid: UiState<R>, t: UiState<R>, rest: seq<Envelope>, last: Envelope, from: From)
    requires Displays(s, mid, rest, from) && Displays(mid, t, [last], from)
    ensures Displays(s, t, rest + [last], from)
  {
    SentOnce(rest, last, s.activeSession, from);
    TextAssociates(Said(s.messages, from), Sent(rest, s.activeSession, from), Sent([last], s.activeSession, from));
  }

  /**
    Whatever deltas are dispatched, each speaker has then said what was said before and after that the text of its own deltas, in order. The
    messages before them stay, a new message begins exactly where the speaker changes or none was
    being streamed, and only the last is left streaming. Nothing else of the state moves.
   */
  lemma {:induction false} DeltasAreShown<R(!new)>(s: UiState<R>, es: seq<Envelope>, other: (UiState<R>, Envelope) -> UiState<R>,
                                                   from: From)
    requires forall e :: e in es ==> e.event.Delta?
    ensures Displays(s, ReduceAll(s, es, other), es, from)
    ensures Grows(s.messages, ReduceAll(s, es, other).messages) && StreamsOnce(s, ReduceAll(s, es, other), es)
  {
    if es != [] {
      var rest, last := es[..|es| - 1], es[|es| - 1];
      assert es == rest + [last];
      DeltasAreShown(s, rest, other, from);
      var mid, t := ReduceAll(s, rest, other), ReduceAll(s, es, other);
      OneDeltaDisplays(mid, last, other, from);
      DisplaysOn(s, mid, t, rest, last, from);
      OneDeltaGrows(mid, last, other);
      GrowsOn(s.messages, mid.messages, t.messages);
    }
  }

  /** The same of the batched client, with the pending delta dispatched, whenever its frames come. */
  lemma BatchedDeltasAreShown<R(!new)>(s: UiState<R>, steps: seq<Step>, other: (UiState<R>, Envelope) -> UiState<R>, from: From)
    requires forall e :: e in Arrivals(steps) ==> e.event.Delta?
    ensures var t := View(Run(Batcher(s, None, false), steps, other), other);
            Displays(s, t, Arrivals(steps), from) && Grows(s.messages, t.messages) && StreamsOnce(s, t, Arrivals(steps))
  {
    BatchingRefines(s, steps, other);
    DeltasAreShown(s, Arrivals(steps), other, from);
  }

  function Typed(text: string, from: From): string {
    if from.UserText? then text else ""
  }

  /** A typed message is one of its own, after all others. */
  lemma TypingIsShown<R(!new)>(s: UiState<R>, text: string, from: From)
    ensures var typed := TypeText(s, text).messages;
            |typed| == |s.messages| + 1 && Continues(s.messages, typed) && Fresh(typed[|typed| - 1]) && !EndsStreaming(typed)
    ensures Said(TypeText(s, text).messages, from) == Said(s.messages, from) + Typed(text, from)
  {
    assert TypeText(s, text).messages[..|s.messages|] == s.messages;
  }

  lemma SentToOne(p: Envelope, active: Option<string>, text: string, from: From)
    ensures Typed(text, from) + Sent([p], active, from) == Sent([p], active, from) + Typed(text, from)
  {
    assert Sent([p][..0], active, from) == "";
  }

  /** In whichever order, typed text and a delta are both said. */
  lemma TypingLosesNothing<R(!new)>(s: UiState<R>, p: Envelope, text: string, other: (UiState<R>, Envelope) -> UiState<R>, from: From)
    requires p.event.Delta?
    ensures Said(TypeText(Reduce(s, p, other), text).messages, from)
            == Said(s.messages, from) + (Sent([p], s.activeSession, from) + Typed(text, from))
    ensures Said(Reduce(TypeText(s, text), p, other).messages, from) == Said(TypeText(Reduce(s, p, other), text).messages, from)
  {
    var typed, late, sent := TypeText(s, text), Reduce(s, p, other), Sent([p], s.activeSession, from);
    TypingIsShown(s, text, from);
    TypingIsShown(late, text, from);
    OneDeltaDisplays(typed, p, other, from);
    OneDeltaDisplays(s, p, other, from);
    SentToOne(p, s.activeSession, text, from);
    TextAssociates(Said(s.messages, from), Typed(text, from), sent);
    TextAssociates(Said(s.messages, from), sent, Typed(text, from));
  }

  // ---------------------------------------------------------------- what waits

  /** Deltas of one workspace, session and kind. */
  ghost predicate Alike(e: Envelope, f: Envelope) {
    e.event.Delta? && f.event.Delta? && e.workspace == f.workspace && e.session == f.session && e.event.thinking == f.event.thinking
  }

  function TextOf(es: seq<Envelope>): string {
    if es == [] then "" else TextOf(es[..|es| - 1]) + if es[|es| - 1].event.Delta? then es[|es| - 1].event.text else ""
  }

  /** The pending delta is the last of these arrivals, with the text of them all. */
  ghost predicate Gathers(p: Envelope, es: seq<Envelope>) {
    && p.event.Delta? && es != [] && (forall e :: e in es ==> Alike(p, e))
    && p == es[|es| - 1].(event := Delta(p.event.thinking, TextOf(es)))
  }

  lemma MergeGathers(p: Envelope, rest: seq<Envelope>, last: Envelope)
    requires Gathers(p, rest) && Alike(p, last)
    ensures Merge(p, last).Some? && Gathers(Merge(p, last).value, rest + [last])
  {
    var es := rest + [last];
    assert es[..|es| - 1] == rest;
  }

  lemma FirstGathers(e: Envelope)
    requires e.event.Delta?
    ensures Gathers(e, [e])
  {
    assert TextOf([e][..0]) == "";
  }

  /** Between two frames, deltas alike become one dispatch; nothing is dispatched while they arrive. */
  lemma {:induction false} AlikeDeltasWait<R(!new)>(b: Batcher<R>, es: seq<Envelope>, steps: seq<Step>,
                                                    other: (UiState<R>, Envelope) -> UiState<R>)
    requires b.pending.None? && es != [] && (forall e, f :: e in es && f in es ==> Alike(e, f))
    requires |steps| == |es| && forall i :: 0 <= i < |es| ==> steps[i] == Arrive(es[i])
    ensures var c := Run(b, steps, other);
            c.state == b.state && c.frame && c.pending.Some? && Gathers(c.pending.value, es)
    decreases |es|
  {
    var rest, last := es[..|es| - 1], es[|es| - 1];
    var before := steps[..|steps| - 1];
    assert steps[|steps| - 1] == Arrive(last) && Alike(last, last) && es == rest + [last];
    if rest == [] {
      assert Run(b, before, other) == b && es == [last];
      FirstGathers(last);
    } else {
      AlikeDeltasWait(b, rest, before, other);
      var c := Run(b, before, other);
      assert Alike(c.pending.value, rest[|rest| - 1]) && Alike(rest[|rest| - 1], last);
      MergeGathers(c.pending.value, rest, last);
    }
  }

  /** Whatever happened before, a pending delta gathers the latest arrivals, all alike. */
  lemma {:induction false} PendingGathers<R(!new)>(s: UiState<R>, steps: seq<Step>, other: (UiState<R>, Envelope) -> UiState<R>)
    returns (es: seq<Envelope>)
    ensures var c := Run(Batcher(s, None, false), steps, other);
            c.pending.Some? ==> |es| <= |Arrivals(steps)| && es == Arrivals(steps)[|Arrivals(steps)| - |es|..] && Gathers(c.pending.value, es)
    decreases |steps|
  {
    es := [];
    if steps != [] {
      var rest, last := steps[..|steps| - 1], steps[|steps| - 1];
      var before := PendingGathers(s, rest, other);
      var b := Run(Batcher(s, None, false), rest, other);
      if last.Arrive? && last.e.event.Delta? {
        if b.pending.Some? && Merge(b.pending.value, last.e).Some? {
          es := before + [last.e];
          MergeGathers(b.pending.value, before, last.e);
        } else {
          es := [last.e];
          FirstGathers(last.e);
        }
      }
    }
  }
}
