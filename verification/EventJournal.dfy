/** The journal object of the worker, for one session: its files, its caches and its methods. */
module EventJournal {
  import opened Prelude
  import opened LineFile
  import opened SequenceJournal
  import opened RequestIndex

  /** The session's files; they outlive the journal object. `issued` records every envelope given a number. */
  class SessionFiles {
    var journal: Disk
    var requests: Option<seq<Completed>>
    ghost var issued: seq<Envelope>

    constructor ()
      ensures journal == Disk(File([], Clean), None) && requests == None && issued == []
    {
      journal, requests, issued := Disk(File([], Clean), None), None, [];
    }
  }

  class EventJournal {
    const files: SessionFiles
    var lastSequence: Option<nat>
    var sequenceLimit: Option<nat>
    var requestIndex: Option<seq<Completed>>

    ghost function State(): Journal
      reads this, files
    {
      Journal(files.journal, lastSequence, sequenceLimit, files.issued)
    }

    /** The index in effect: the cached one, or the one in the file. */
    ghost function Index(): seq<Completed>
      reads this, files
    {
      if requestIndex.Some? then requestIndex.value else if files.requests.Some? then files.requests.value else []
    }

    /** What a restart would find is what is cached. */
    ghost predicate IndexDurable()
      reads this, files
    {
      requestIndex.Some? ==> requestIndex.value == if files.requests.Some? then files.requests.value else []
    }

    /** A worker starting on the files another one left. */
    constructor (files: SessionFiles)
      ensures this.files == files && State() == Restart(Journal(files.journal, None, None, files.issued))
      ensures requestIndex == None && IndexDurable()
    {
      this.files := files;
      lastSequence, sequenceLimit, requestIndex := None, None, None;
    }

    method ReserveSequenceRange(after: nat)
      modifies this`sequenceLimit, files`journal
      ensures State() == Reserve(old(State()), after)
    {
      var limit := after + RESERVATION;
      files.journal := files.journal.(reserved := Some(limit));
      sequenceLimit := Some(limit);
    }

    method LastSeq() returns (seqNo: nat)
      modifies this`lastSequence, this`sequenceLimit, files`journal
      ensures State() == Loaded(old(State())) && lastSequence == Some(seqNo)
    {
      if lastSequence.Some? {
        return lastSequence.value;
      }
      var baseline := Max(Persisted(files.journal), ReadReservation(files.journal));
      lastSequence := Some(baseline);
      ReserveSequenceRange(baseline);
      seqNo := baseline;
    }

    method Append(kind: Kind, body: string, correlationId: Option<string>) returns (envelope: Envelope)
      modifies this`lastSequence, this`sequenceLimit, files`journal, files`issued
      ensures State() == SequenceJournal.Append(old(State()), kind, correlationId, body)
      ensures files.issued == old(files.issued) + [envelope] && envelope.correlationId == correlationId
    {
      var current := LastSeq();
      var limit := if sequenceLimit.Some? then sequenceLimit.value else current;
      if current + 1 > limit {
        ReserveSequenceRange(current);
      }
      envelope := Envelope(current + 1, kind, correlationId, body);
      lastSequence := Some(envelope.seqNo);
      files.issued := files.issued + [envelope];
      if kind.Snapshot? {
        files.journal := files.journal.(file := Rewritten(envelope));
      } else if kind.Logged? {
        files.journal := files.journal.(file := AppendTo(files.journal.file, envelope));
      }
    }

    /** Sent to a resuming client: in increasing order, all that is kept after `afterSeq`. */
    method ReplayAfter(afterSeq: int) returns (events: seq<Envelope>)
      ensures events == Replay(files.journal, afterSeq)
      ensures Safe(State()) ==> Increasing(events) && forall e :: e in events ==> e in files.issued && e.seqNo > afterSeq
    {
      events := [];
      var all := Read(files.journal);
      for i := 0 to |all|
        invariant events == After(all[..i], afterSeq)
      {
        assert all[..i + 1][..i] == all[..i];
        if all[i].seqNo > afterSeq {
          events := events + [all[i]];
        }
      }
      assert all[..|all|] == all;
      if Safe(State()) {
        ReplayIsOrdered(State(), afterSeq);
      }
    }

    method Requests() returns (entries: seq<Completed>)
      requires IndexDurable()
      modifies this`requestIndex
      ensures entries == Index() == old(Index()) && requestIndex == Some(entries) && IndexDurable()
    {
      if requestIndex.Some? {
        return requestIndex.value;
      }
      entries := if files.requests.Some? then files.requests.value else [];
      requestIndex := Some(entries);
    }

    method FindCompletedRequest(requestId: string) returns (events: Option<seq<Envelope>>)
      requires IndexDurable()
      modifies this`requestIndex
      ensures events == Find(old(Index()), requestId) && Index() == old(Index()) && IndexDurable()
    {
      var entries := Requests();
      events := Find(entries, requestId);
    }

    method CompleteRequest(requestId: string, events: seq<Envelope>)
      requires IndexDurable()
      modifies this`requestIndex, files`requests
      ensures Index() == Complete(old(Index()), Completed(requestId, events)) && IndexDurable()
    {
      if events == [] {
        return;
      }
      var known := Requests();
      var entries := Without(known, requestId) + [Completed(requestId, events)];
      var retained := LastOf(entries, INDEX_SIZE);
      requestIndex := Some(retained);
      files.requests := Some(retained);
    }

    /** A fresh session: nothing is on disk and nothing remembered, and numbers start again. */
    method DeleteSession()
      modifies this, files
      ensures Safe(State()) && Index() == [] && IndexDurable() && Current(State()) == 0
    {
      files.journal, files.requests, files.issued := Disk(File([], Clean), None), None, [];
      lastSequence, sequenceLimit, requestIndex := None, None, None;
    }

    /**
      The duplicate-request path of the worker, for commands handled one after the other.
      `failed` tells error events; the command's own events stand for its execution.
     */
    method Handle(command: Command, failed: Envelope -> bool) returns (sent: seq<Envelope>, executed: bool)
      requires IndexDurable()
      modifies this`requestIndex, files`requests
      ensures executed == !IsDuplicate(old(Index()), command) && sent == Sent(old(Index()), command)
      ensures Index() == Handled(old(Index()), command, failed) && IndexDurable()
    {
      if !command.isResume {
        var completed := FindCompletedRequest(command.requestId);
        if completed.Some? {
          return completed.value, false;
        }
      }
      sent, executed := command.emits, true;
      var directEvents := Direct(command.emits, command.requestId);
      if !command.isResume && directEvents != [] && forall i :: 0 <= i < |directEvents| ==> !failed(directEvents[i]) {
        CompleteRequest(command.requestId, directEvents);
      }
    }
  }
}
