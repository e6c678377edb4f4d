/** The bounded index of completed requests, and the duplicate-request path of the worker. */
module RequestIndex {
  import opened Prelude
  import opened SequenceJournal

  datatype Completed = Completed(requestId: string, events: seq<Envelope>)

  const INDEX_SIZE := 500

  function Without(entries: seq<Completed>, id: string): (r: seq<Completed>)
    ensures forall c :: c in r <==> c in entries && c.requestId != id
    ensures |r| <= |entries|
  {
    if entries == [] then []
    else Without(entries[..|entries| - 1], id) + if entries[|entries| - 1].requestId == id then [] else [entries[|entries| - 1]]
  }

  /** The last `n` elements. */
  function LastOf<T>(s: seq<T>, n: nat): seq<T> {
    if |s| <= n then s else s[|s| - n..]
  }

  function Complete(entries: seq<Completed>, c: Completed): seq<Completed> {
    if c.events == [] then entries else LastOf(Without(entries, c.requestId) + [c], INDEX_SIZE)
  }

  function Find(entries: seq<Completed>, id: string): Option<seq<Envelope>> {
    if entries == [] then None else if entries[0].requestId == id then Some(entries[0].events) else Find(entries[1..], id)
  }

  // ---------------------------------------------------------------- the index is the last 500 distinct requests

  /** Every request once, with the events of its last completion, in the order of last completions. */
  function Latest(history: seq<Completed>): seq<Completed> {
    if history == [] then []
    else
      var c := history[|history| - 1];
      Without(Latest(history[..|history| - 1]), c.requestId) + [c]
  }

  function IndexOf(history: seq<Completed>): seq<Completed> {
    if history == [] then [] else Complete(IndexOf(history[..|history| - 1]), history[|history| - 1])
  }

  ghost predicate DistinctIds(entries: seq<Completed>) {
    forall i, j :: 0 <= i < j < |entries| ==> entries[i].requestId != entries[j].requestId
  }

  lemma {:induction false} WithoutParts(a: seq<Completed>, b: seq<Completed>, id: string)
    ensures Without(a + b, id) == Without(a, id) + Without(b, id)
  {
    if b == [] {
      assert a + b == a;
    } else {
      var n := |b| - 1;
      assert (a + b)[..|a + b| - 1] == a + b[..n];
      WithoutParts(a, b[..n], id);
      assert Without(a + b, id) == Without(a, id) + Without(b, id);
    }
  }

  lemma {:induction false} WithoutDistinct(entries: seq<Completed>, id: string)
    requires DistinctIds(entries)
    ensures DistinctIds(Without(entries, id)) && |Without(entries, id)| >= |entries| - 1
    ensures (forall c :: c in entries ==> c.requestId != id) ==> Without(entries, id) == entries
  {
    if entries != [] {
      var rest, last := entries[..|entries| - 1], entries[|entries| - 1];
      assert entries == rest + [last];
      WithoutDistinct(rest, id);
      if last.requestId == id {
        assert forall c :: c in rest ==> c.requestId != id;
      }
      forall c | c in Without(rest, id) ensures c.requestId != last.requestId {
        assert c in rest;
      }
    }
  }

  lemma {:induction false} LatestDistinct(history: seq<Completed>)
    ensures DistinctIds(Latest(history))
    ensures forall c :: c in Latest(history) ==> c in history
  {
    if history != [] {
      var rest, last := history[..|history| - 1], history[|history| - 1];
      assert history == rest + [last];
      LatestDistinct(rest);
      WithoutDistinct(Latest(rest), last.requestId);
      var kept := Without(Latest(rest), last.requestId);
      assert forall i :: 0 <= i < |kept| ==> kept[i] in kept;
    }
  }

  lemma LastOfGrown<T>(a: seq<T>, b: seq<T>, x: T, n: nat)
    requires |b| + 1 >= n
    ensures LastOf(a + b + [x], n) == LastOf(b + [x], n)
  {
    Associative(a, b, [x]);
    LastOfSuffix(a, b + [x], n);
  }

  lemma SplitLast<T>(s: seq<T>, n: nat) returns (early: seq<T>)
    requires |s| > n
    ensures s == early + LastOf(s, n) && |LastOf(s, n)| == n
  {
    early := s[..|s| - n];
  }

  lemma LastOfSuffix<T>(a: seq<T>, b: seq<T>, n: nat)
    requires |b| >= n
    ensures LastOf(a + b, n) == LastOf(b, n)
  {
  }

  lemma CompleteCommutes(all: seq<Completed>, c: Completed)
    requires DistinctIds(all) && c.events != []
    ensures Complete(LastOf(all, INDEX_SIZE), c) == LastOf(Without(all, c.requestId) + [c], INDEX_SIZE)
  {
    if |all| > INDEX_SIZE {
      var early := SplitLast(all, INDEX_SIZE);
      LateCommutes(early, LastOf(all, INDEX_SIZE), c);
    }
  }

  lemma LateCommutes(early: seq<Completed>, late: seq<Completed>, c: Completed)
    requires DistinctIds(late) && |late| == INDEX_SIZE
    ensures LastOf(Without(late, c.requestId) + [c], INDEX_SIZE) == LastOf(Without(early + late, c.requestId) + [c], INDEX_SIZE)
  {
    WithoutParts(early, late, c.requestId);
    WithoutDistinct(late, c.requestId);
    LastOfGrown(Without(early, c.requestId), Without(late, c.requestId), c, INDEX_SIZE);
  }

  /** After any completions, the index holds the last 500 distinct requests, each with its last events. */
  lemma {:induction false} IndexIsLatest(history: seq<Completed>)
    requires forall c :: c in history ==> c.events != []
    ensures IndexOf(history) == LastOf(Latest(history), INDEX_SIZE)
  {
    if history != [] {
      var rest, last := history[..|history| - 1], history[|history| - 1];
      assert history == rest + [last];
      IndexIsLatest(rest);
      LatestDistinct(rest);
      CompleteCommutes(Latest(rest), last);
    }
  }

  // ---------------------------------------------------------------- finding a request again

  lemma {:induction false} FindIn(entries: seq<Completed>, c: Completed)
    requires DistinctIds(entries)
    ensures c in entries ==> Find(entries, c.requestId) == Some(c.events)
    ensures (forall d :: d in entries ==> d.requestId != c.requestId) ==> Find(entries, c.requestId) == None
  {
    if entries != [] {
      assert entries[0] in entries && forall d :: d in entries[1..] ==> d in entries;
      if c in entries && entries[0] != c {
        var i :| 0 <= i < |entries| && entries[i] == c;
        assert entries[1..][i - 1] == c;
      }
      FindIn(entries[1..], c);
    }
  }

  lemma KeepsOther(c: Completed, id: string)
    requires c.requestId != id
    ensures Without([c], id) == [c]
  {
    assert [c][..0] == [];
    assert Without([c], id) == Without([], id) + [c];
  }

  lemma WithoutAround(early: seq<Completed>, c: Completed, late: seq<Completed>, id: string)
    requires c.requestId != id
    ensures Without(early + [c] + late, id) == Without(early, id) + [c] + Without(late, id)
  {
    WithoutParts(early + [c], late, id);
    WithoutParts(early, [c], id);
    KeepsOther(c, id);
  }

  lemma LatestStep(history: seq<Completed>, c: Completed)
    ensures Latest(history + [c]) == Without(Latest(history), c.requestId) + [c]
  {
    assert (history + [c])[..|history|] == history;
  }

  /** The entries after that of `c` are the distinct requests completed since. */
  lemma {:induction false} LatestSplits(before: seq<Completed>, c: Completed, since: seq<Completed>) returns (early: seq<Completed>)
    requires forall d :: d in since ==> d.requestId != c.requestId
    ensures Latest(before + [c] + since) == early + [c] + Latest(since)
  {
    if since == [] {
      assert before + [c] + since == before + [c];
      LatestStep(before, c);
      early := Without(Latest(before), c.requestId);
      return;
    }
    var rest, last := since[..|since| - 1], since[|since| - 1];
    assert last in since && forall d :: d in rest ==> d in since;
    var sooner := LatestSplits(before, c, rest);
    Snoc(since);
    Associative(before + [c], rest, [last]);
    LatestStep(before + [c] + rest, last);
    WithoutAround(sooner, c, Latest(rest), last.requestId);
    early := Without(sooner, last.requestId);
    Associative(early + [c], Without(Latest(rest), last.requestId), [last]);
  }

  lemma FindInLast(early: seq<Completed>, c: Completed, late: seq<Completed>)
    requires DistinctIds(early + [c] + late) && forall d :: d in late ==> d.requestId != c.requestId
    ensures Find(LastOf(early + [c] + late, INDEX_SIZE), c.requestId) == if |late| < INDEX_SIZE then Some(c.events) else None
  {
    var all := early + [c] + late;
    var index := LastOf(all, INDEX_SIZE);
    assert all[|early|] == c;
    assert DistinctIds(index);
    FindIn(index, c);
    if |late| < INDEX_SIZE {
      assert index[|index| - |late| - 1] == c;
    } else {
      LastOfSuffix(early + [c], late, INDEX_SIZE);
    }
  }

  /**
    A completed request is found, with its events, exactly as long as fewer than 500 other
    requests have completed since.
   */
  lemma FoundIff(before: seq<Completed>, c: Completed, since: seq<Completed>)
    requires forall d :: d in before + [c] + since ==> d.events != []
    requires forall d :: d in since ==> d.requestId != c.requestId
    ensures Find(IndexOf(before + [c] + since), c.requestId) == if |Latest(since)| < INDEX_SIZE then Some(c.events) else None
  {
    IndexIsLatest(before + [c] + since);
    LatestDistinct(before + [c] + since);
    LatestDistinct(since);
    var early := LatestSplits(before, c, since);
    FindInLast(early, c, Latest(since));
  }

  // ---------------------------------------------------------------- handling commands

  /** A command, and the envelopes its execution would emit; `failed` tells the error events. */
  datatype Command = Command(requestId: string, isResume: bool, emits: seq<Envelope>)

  function Direct(es: seq<Envelope>, id: string): seq<Envelope> {
    if es == [] then []
    else Direct(es[..|es| - 1], id) + if es[|es| - 1].correlationId == Some(id) then [es[|es| - 1]] else []
  }

  predicate Own(c: Command, e: Envelope) {
    e.correlationId == Some(c.requestId)
  }

  /** What is recorded of a command: all envelopes that answer it, and no others. */
  lemma {:induction false} DirectKeepsOwn(es: seq<Envelope>, id: string)
    ensures forall e :: e in Direct(es, id) <==> e in es && e.correlationId == Some(id)
  {
    if es != [] {
      Snoc(es);
      DirectKeepsOwn(es[..|es| - 1], id);
    }
  }

  /** They are in the order in which they were emitted. */
  lemma {:induction false} DirectInOrder(a: seq<Envelope>, b: seq<Envelope>, id: string)
    ensures Direct(a + b, id) == Direct(a, id) + Direct(b, id)
  {
    if b == [] {
      assert a + b == a;
    } else {
      DirectInOrder(a, b[..|b| - 1], id);
      assert (a + b)[..|a + b| - 1] == a + b[..|b| - 1];
      Associative(Direct(a, id), Direct(b[..|b| - 1], id), Direct(b, id)[|Direct(b[..|b| - 1], id)|..]);
    }
  }

  predicate Succeeds(c: Command, failed: Envelope -> bool) {
    var direct := Direct(c.emits, c.requestId);
    !c.isResume && direct != [] && forall i :: 0 <= i < |direct| ==> !failed(direct[i])
  }

  function Completion(c: Command): Completed {
    Completed(c.requestId, Direct(c.emits, c.requestId))
  }

  predicate IsDuplicate(index: seq<Completed>, c: Command) {
    !c.isResume && Find(index, c.requestId).Some?
  }

  /** What the client is sent: the recorded events of a duplicate, or what executing it emits. */
  function Sent(index: seq<Completed>, c: Command): seq<Envelope> {
    if IsDuplicate(index, c) then Find(index, c.requestId).value else c.emits
  }

  function Handled(index: seq<Completed>, c: Command, failed: Envelope -> bool): seq<Completed> {
    if !IsDuplicate(index, c) && Succeeds(c, failed) then Complete(index, Completion(c)) else index
  }

  function HandledAll(index: seq<Completed>, cs: seq<Command>, failed: Envelope -> bool): seq<Completed> {
    if cs == [] then index else Handled(HandledAll(index, cs[..|cs| - 1], failed), cs[|cs| - 1], failed)
  }

  /** The completions that a sequence of commands records. */
  function Completions(index: seq<Completed>, cs: seq<Command>, failed: Envelope -> bool): seq<Completed> {
    if cs == [] then []
    else
      var c := cs[|cs| - 1];
      Completions(index, cs[..|cs| - 1], failed)
      + if !IsDuplicate(HandledAll(index, cs[..|cs| - 1], failed), c) && Succeeds(c, failed)
        then [Completion(c)] else []
  }

  lemma IndexStep(history: seq<Completed>, c: Completed)
    ensures IndexOf(history + [c]) == Complete(IndexOf(history), c)
  {
    assert (history + [c])[..|history|] == history;
  }

  lemma {:induction false} HandlingBuildsIndex(history: seq<Completed>, cs: seq<Command>, failed: Envelope -> bool)
    ensures HandledAll(IndexOf(history), cs, failed) == IndexOf(history + Completions(IndexOf(history), cs, failed))
  {
    var done := Completions(IndexOf(history), cs, failed);
    if cs == [] {
      assert history + done == history;
    } else {
      var rest, c := cs[..|cs| - 1], cs[|cs| - 1];
      var earlier := Completions(IndexOf(history), rest, failed);
      HandlingBuildsIndex(history, rest, failed);
      assert earlier + [] == earlier;
      Associative(history, earlier, [Completion(c)]);
      IndexStep(history + earlier, Completion(c));
    }
  }

  lemma {:induction false} CompletionsOf(index: seq<Completed>, cs: seq<Command>, failed: Envelope -> bool, id: string)
    requires forall k :: 0 <= k < |cs| ==> cs[k].requestId != id
    ensures forall c :: c in Completions(index, cs, failed) ==> c.events != [] && c.requestId != id
  {
    if cs != [] {
      CompletionsOf(index, cs[..|cs| - 1], failed, id);
    }
  }

  /**
    A command that was executed and answered without error is not executed when it comes again: it
    is answered with exactly the envelopes that answered it before, as long as fewer than 500 other
    requests have completed meanwhile.
   */
  lemma RepeatedCommandIsAnswered(history: seq<Completed>, c: Command, others: seq<Command>, again: Command, failed: Envelope -> bool)
    requires forall d :: d in history ==> d.events != []
    requires !c.isResume && (exists e :: e in c.emits && Own(c, e)) && forall e :: e in c.emits && Own(c, e) ==> !failed(e)
    requires !IsDuplicate(IndexOf(history), c)
    requires forall k :: 0 <= k < |others| ==> others[k].requestId != c.requestId
    requires again.requestId == c.requestId && !again.isResume
    ensures var index := Handled(IndexOf(history), c, failed);
            |Latest(Completions(index, others, failed))| < INDEX_SIZE ==>
              IsDuplicate(HandledAll(index, others, failed), again)
              && Sent(HandledAll(index, others, failed), again) == Direct(c.emits, c.requestId)
              && forall e :: e in Sent(HandledAll(index, others, failed), again) <==> e in c.emits && Own(c, e)
  {
    DirectKeepsOwn(c.emits, c.requestId);
    assert Succeeds(c, failed);
    var entry := Completion(c);
    IndexStep(history, entry);
    var index := Handled(IndexOf(history), c, failed);
    CompletionsOf(index, others, failed, c.requestId);
    HandlingBuildsIndex(history + [entry], others, failed);
    FoundIff(history, entry, Completions(index, others, failed));
  }

  /** A command that is answered with an error, or not at all, leaves no trace: when it comes again it is executed again. */
  lemma FailureIsNotRecorded(index: seq<Completed>, c: Command, failed: Envelope -> bool)
    requires (exists e :: e in c.emits && Own(c, e) && failed(e)) || forall e :: e in c.emits ==> !Own(c, e)
    ensures Handled(index, c, failed) == index
    ensures Find(index, c.requestId).None? ==> Sent(Handled(index, c, failed), c) == c.emits
  {
    DirectKeepsOwn(c.emits, c.requestId);
    var direct := Direct(c.emits, c.requestId);
    assert direct == [] || direct[0] in direct;
    assert !Succeeds(c, failed);
  }
}
