/** The request table of the stdio JSON-RPC client, fed by the frame reader. */
module StdioClient {
  import opened Prelude
  import opened StdioFraming

  datatype Settlement = Settlement(id: int, outcome: Outcome)

  /** Requests issued so far: those waiting, and the promises settled in order. */
  datatype Calls = Calls(nextId: int, pending: set<int>, settled: seq<Settlement>)

  ghost predicate Settled(c: Calls, id: int) {
    exists k :: 0 <= k < |c.settled| && c.settled[k].id == id
  }

  /** Every issued id is waiting or settled, never both, and none is settled twice. */
  ghost predicate Accounted(c: Calls) {
    && c.nextId >= 1
    && (forall id :: id in c.pending ==> 1 <= id < c.nextId && !Settled(c, id))
    && (forall k :: 0 <= k < |c.settled| ==> 1 <= c.settled[k].id < c.nextId)
    && (forall j, k :: 0 <= j < k < |c.settled| ==> c.settled[j].id != c.settled[k].id)
    && (forall id :: 1 <= id < c.nextId ==> id in c.pending || Settled(c, id))
  }

  function Settle(c: Calls, id: int, outcome: Outcome): Calls {
    c.(pending := c.pending - {id}, settled := c.settled + [Settlement(id, outcome)])
  }

  function Handle(c: Calls, message: Option<Rpc>): Calls {
    match message
    case Some(WithId(Number(id), outcome)) => if id in c.pending then Settle(c, id, outcome) else c
    case _ => c
  }

  function HandleAll(c: Calls, messages: seq<Option<Rpc>>): Calls
    decreases |messages|
  {
    if messages == [] then c else HandleAll(Handle(c, messages[0]), messages[1..])
  }

  lemma SettleKeepsAccounts(c: Calls, id: int, outcome: Outcome)
    requires Accounted(c) && id in c.pending
    ensures Accounted(Settle(c, id, outcome))
  {
    var d := Settle(c, id, outcome);
    assert d.settled[|c.settled|].id == id;
    forall other | 1 <= other < d.nextId ensures other in d.pending || Settled(d, other) {
      if Settled(c, other) {
        var k :| 0 <= k < |c.settled| && c.settled[k].id == other;
        assert d.settled[k].id == other;
      }
    }
  }

  function Issue(c: Calls): Calls {
    c.(nextId := c.nextId + 1, pending := c.pending + {c.nextId})
  }

  lemma IssueKeepsAccounts(c: Calls)
    requires Accounted(c)
    ensures Accounted(Issue(c)) && c.nextId !in c.pending
  {
    var d := Issue(c);
    forall other | 1 <= other < d.nextId ensures other in d.pending || Settled(d, other) {
      if other < c.nextId && other !in c.pending {
        assert Settled(c, other);
      }
    }
  }

  lemma FailureKeepsAccounts(c: Calls, failure: string)
    requires Accounted(c)
    ensures var d := Settle(Issue(c), c.nextId, Rejected(failure));
            Accounted(d) && d.pending == c.pending
  {
    IssueKeepsAccounts(c);
    SettleKeepsAccounts(Issue(c), c.nextId, Rejected(failure));
  }

  /** No message, expected or not, breaks the accounts; unknown ids change nothing. */
  lemma {:induction false} MessagesKeepAccounts(c: Calls, messages: seq<Option<Rpc>>)
    requires Accounted(c)
    ensures Accounted(HandleAll(c, messages))
    ensures HandleAll(c, messages).nextId == c.nextId && c.settled <= HandleAll(c, messages).settled
    decreases |messages|
  {
    if messages != [] {
      var d := Handle(c, messages[0]);
      if d != c {
        SettleKeepsAccounts(c, messages[0].value.id.n, messages[0].value.outcome);
      }
      MessagesKeepAccounts(d, messages[1..]);
    }
  }

  lemma {:induction false} NothingPending(c: Calls, messages: seq<Option<Rpc>>)
    requires c.pending == {}
    ensures HandleAll(c, messages) == c
    decreases |messages|
  {
    if messages != [] {
      NothingPending(c, messages[1..]);
    }
  }

  lemma {:induction false} HandleInTwoParts(c: Calls, first: seq<Option<Rpc>>, second: seq<Option<Rpc>>)
    ensures HandleAll(c, first + second) == HandleAll(HandleAll(c, first), second)
    decreases |first|
  {
    if first == [] {
      assert first + second == second;
    } else {
      assert (first + second)[1..] == first[1..] + second;
      HandleInTwoParts(Handle(c, first[0]), first[1..], second);
    }
  }

  lemma HandleNext(c: Calls, read: Reader, buffer: seq<Byte>, frame: Frame, handled: seq<Option<Rpc>>)
    requires Shrinks(read) && read(buffer) == Some(frame)
    ensures HandleAll(c, handled + [frame.message]) == Handle(HandleAll(c, handled), frame.message)
    ensures handled + Drain(read, buffer).messages == handled + [frame.message] + Drain(read, frame.rest).messages
    ensures Drain(read, buffer).rest == Drain(read, frame.rest).rest
  {
    HandleInTwoParts(c, handled, [frame.message]);
    assert HandleAll(HandleAll(c, handled), [frame.message]) == Handle(HandleAll(c, handled), frame.message);
  }

  /** Two chunks settle the same requests, in the same order, as the one chunk they make up. */
  lemma ChunkBoundaryIsInvisible(p: Platform, c: Calls, buffer: seq<Byte>, one: seq<Byte>, two: seq<Byte>)
    ensures Shrinks(FrameReader(p))
    ensures var read := FrameReader(p);
            var first := Drain(read, buffer + one);
            var second := Drain(read, first.rest + two);
            var whole := Drain(read, buffer + (one + two));
            second.rest == whole.rest
            && HandleAll(HandleAll(c, first.messages), second.messages) == HandleAll(c, whole.messages)
  {
    ReaderIsStable(p);
    var first := Drain(FrameReader(p), buffer + one);
    var second := Drain(FrameReader(p), first.rest + two);
    DrainExtends(FrameReader(p), buffer + one, two);
    assert buffer + (one + two) == buffer + one + two;
    HandleInTwoParts(c, first.messages, second.messages);
  }

  /** `now` settled, as rejected, exactly the requests that left the table since `was`. */
  ghost predicate RejectedSince(was: Calls, now: Calls, error: string) {
    && now.nextId == was.nextId && now.pending <= was.pending && was.settled <= now.settled
    && (forall id :: id in was.pending && id !in now.pending ==> Settlement(id, Rejected(error)) in now.settled[|was.settled|..])
    && (forall s :: s in now.settled[|was.settled|..] ==> s.id in was.pending - now.pending && s.outcome == Rejected(error))
  }

  lemma RejectOneMore(was: Calls, now: Calls, id: int, error: string)
    requires RejectedSince(was, now, error) && id in now.pending
    ensures RejectedSince(was, Settle(now, id, Rejected(error)), error)
  {
    var next := Settle(now, id, Rejected(error));
    assert next.settled[|was.settled|..] == now.settled[|was.settled|..] + [Settlement(id, Rejected(error))];
  }

  /** Going through the table, the requests before `id` have been rejected. */
  ghost predicate RejectedUpTo(was: Calls, now: Calls, id: int, error: string) {
    Accounted(now) && RejectedSince(was, now, error) && forall waiting :: waiting in now.pending ==> id <= waiting
  }

  lemma RejectingStarts(was: Calls, error: string)
    requires Accounted(was)
    ensures RejectedUpTo(was, was, 1, error)
  {
    assert was.settled[|was.settled|..] == [];
  }

  lemma RejectingSteps(was: Calls, now: Calls, id: int, error: string)
    requires RejectedUpTo(was, now, id, error)
    ensures RejectedUpTo(was, if id in now.pending then Settle(now, id, Rejected(error)) else now, id + 1, error)
  {
    if id in now.pending {
      RejectOneMore(was, now, id, error);
      SettleKeepsAccounts(now, id, Rejected(error));
    }
  }

  lemma RejectingEnds(was: Calls, now: Calls, error: string)
    requires RejectedUpTo(was, now, now.nextId, error)
    ensures Accounted(now) && RejectedSince(was, now, error) && now.pending == {}
  {
    assert forall id :: id in now.pending ==> id < now.nextId;
    assert forall id :: id !in now.pending;
  }

  /** No complete frame is left in the buffer. */
  ghost predicate NothingToRead(p: Platform, buffer: seq<Byte>) {
    FrameReader(p)(buffer).None?
  }

  class StdioJsonRpcClient {
    const platform: Platform
    var buffer: seq<Byte>
    var nextId: int
    var pending: set<int>
    var closed: bool
    var running: bool
    ghost var settled: seq<Settlement>

    ghost function Table(): Calls
      reads this
    {
      Calls(nextId, pending, settled)
    }

    ghost predicate Valid()
      reads this
    {
      && Shrinks(FrameReader(platform))
      && NothingToRead(platform, buffer)
      && Accounted(Table())
      && (closed ==> pending == {})
    }

    constructor (platform: Platform)
      ensures Valid() && !closed && !running && Table() == Calls(1, {}, []) && this.platform == platform
    {
      this.platform := platform;
      buffer, nextId, pending, closed, running := [], 1, {}, false, false;
      settled := [];
      new;
      ReaderIsStable(platform);
    }

    /** Spawning the process; after `close` it is refused. */
    method Start() returns (started: bool)
      requires Valid()
      modifies this`running
      ensures Valid() && started == !closed && running == (old(running) || started)
    {
      if closed {
        return false;
      }
      running := true;
      started := true;
    }

    /** Sends a request under a new id; a failing write settles it at once. */
    method Request(writeFails: bool, failure: string) returns (id: Option<int>)
      requires Valid()
      modifies this`nextId, this`pending, this`settled
      ensures Valid()
      ensures id == if closed || !running then None else Some(old(nextId))
      ensures id.None? ==> Table() == old(Table())
      ensures id.Some? && !writeFails ==> id.value !in old(pending) && pending == old(pending) + {id.value} && settled == old(settled)
      ensures id.Some? && writeFails ==> pending == old(pending) && settled == old(settled) + [Settlement(id.value, Rejected(failure))]
    {
      if closed || !running {
        return None;
      }
      ghost var was := Table();
      IssueKeepsAccounts(was);
      id := Some(nextId);
      nextId := nextId + 1;
      pending := pending + {id.value};
      if writeFails {
        FailureKeepsAccounts(was, failure);
        Reject(id.value, failure);
        assert Table() == Settle(Issue(was), was.nextId, Rejected(failure));
      } else {
        assert Table() == Issue(was);
      }
    }

    method Reject(id: int, error: string)
      modifies this`pending, this`settled
      ensures Table() == if id in old(pending) then Settle(old(Table()), id, Rejected(error)) else old(Table())
    {
      if id in pending {
        pending := pending - {id};
        settled := settled + [Settlement(id, Rejected(error))];
      }
    }

    /** A chunk from the process: drain every complete frame and settle what it answers. */
    method OnStdout(chunk: seq<Byte>)
      requires Valid()
      modifies this`buffer, this`pending, this`settled
      ensures Valid()
      ensures buffer == Drain(FrameReader(platform), old(buffer) + chunk).rest
      ensures Table() == HandleAll(old(Table()), Drain(FrameReader(platform), old(buffer) + chunk).messages)
    {
      buffer := buffer + chunk;
      ghost var whole := Drain(FrameReader(platform), buffer);
      ghost var handled: seq<Option<Rpc>> := [];
      DrainIsExhaustive(FrameReader(platform), buffer);
      while true
        invariant whole.rest == Drain(FrameReader(platform), buffer).rest
        invariant whole.messages == handled + Drain(FrameReader(platform), buffer).messages
        invariant Table() == HandleAll(old(Table()), handled)
        decreases |buffer|
      {
        var parsed := TryReadFramedMessage(platform, buffer);
        if parsed.None? {
          break;
        }
        HandleNext(old(Table()), FrameReader(platform), buffer, parsed.value, handled);
        buffer := parsed.value.rest;
        handled := handled + [parsed.value.message];
        HandleMessage(parsed.value.message);
      }
      assert handled + [] == handled;
      MessagesKeepAccounts(old(Table()), whole.messages);
      if closed {
        NothingPending(old(Table()), whole.messages);
      }
    }

    method HandleMessage(message: Option<Rpc>)
      modifies this`pending, this`settled
      ensures Table() == Handle(old(Table()), message)
    {
      match message
      case Some(WithId(Number(id), outcome)) =>
        if id in pending {
          pending := pending - {id};
          settled := settled + [Settlement(id, outcome)];
        }
      case _ =>
    }

    /** A timeout or an abort: settles the request if it is still waiting. */
    method Cancel(id: int, error: string)
      requires Valid()
      modifies this`pending, this`settled
      ensures Valid()
      ensures Table() == if id in old(pending) then Settle(old(Table()), id, Rejected(error)) else old(Table())
    {
      if id in pending {
        SettleKeepsAccounts(Table(), id, Rejected(error));
      }
      Reject(id, error);
    }

    /** `close`, or the exit of the process, goes through the table in insertion order: every waiting request is rejected, and none is left behind. */
    method Close(error: string)
      requires Valid()
      modifies this`closed, this`pending, this`settled
      ensures Valid() && closed && pending == {}
      ensures RejectedSince(old(Table()), Table(), error)
    {
      RejectingStarts(Table(), error);
      closed := true;
      for id := 1 to nextId
        invariant closed && nextId == old(nextId) && RejectedUpTo(old(Table()), Table(), id, error)
      {
        RejectingSteps(old(Table()), Table(), id, error);
        Reject(id, error);
      }
      RejectingEnds(old(Table()), Table(), error);
    }
  }
}
