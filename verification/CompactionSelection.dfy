/** What the summarizer is given for a prefix: its messages turn by turn, and the summary before them. */
module CompactionSelection {
  import opened Prelude
  import opened ThreadModel
  import CompactionText

  datatype Group = Group(turn: TurnId, entries: seq<Entry>)

  datatype Selection = Selection(
    entryCount: nat,
    turns: seq<Group>,
    previousSummary: string,
    droppedMessageCount: nat,
    droppedTurnCount: nat)

  function Messages(es: seq<Entry>): seq<Entry> {
    if es == [] then [] else Messages(es[..|es| - 1]) + if es[|es| - 1].kind.Compaction? then [] else [es[|es| - 1]]
  }

  /** The non-empty texts of the summaries; `body` strips the marker from one. */
  function Bodies(es: seq<Entry>, body: string -> string): seq<string> {
    if es == [] then []
    else
      var e := es[|es| - 1];
      Bodies(es[..|es| - 1], body)
      + if e.kind.Compaction? && body(e.message.content) != "" then [body(e.message.content)] else []
  }

  function Join(parts: seq<string>): string {
    if parts == [] then "" else if |parts| == 1 then parts[0] else parts[0] + "\n\n" + Join(parts[1..])
  }

  function Ungroup(groups: seq<Group>): seq<Entry> {
    if groups == [] then [] else Ungroup(groups[..|groups| - 1]) + groups[|groups| - 1].entries
  }

  ghost predicate OneGroupPerTurn(groups: seq<Group>) {
    && (forall i :: 0 <= i < |groups| ==> groups[i].entries != [] && forall e :: e in groups[i].entries ==> e.turn == groups[i].turn)
    && (forall i, j :: 0 <= i < j < |groups| ==> groups[i].turn != groups[j].turn)
  }

  /** Nothing that is dropped escapes the summarizer, and it sees the messages in order, one group a turn. */
  ghost predicate Describes(prefix: seq<Entry>, body: string -> string, s: Selection) {
    && s.entryCount == |prefix|
    && Ungroup(s.turns) == Messages(prefix) && OneGroupPerTurn(s.turns)
    && s.previousSummary == Join(Bodies(prefix, body))
    && s.droppedMessageCount == |Messages(prefix)| && s.droppedTurnCount == |s.turns|
  }

  /** There is no selection exactly when the prefix is empty or holds nothing to summarise. */
  ghost predicate Selects(es: seq<Entry>, count: int, body: string -> string, s: Option<Selection>)
    requires count <= |es|
  {
    if s.Some? then
      count > 0 && Describes(es[..count], body, s.value) && (Messages(es[..count]) != [] || Bodies(es[..count], body) != [])
    else count <= 0 || (Messages(es[..count]) == [] && Bodies(es[..count], body) == [])
  }

  // ---------------------------------------------------------------- what the summarizer gets to see

  /** An empty line stands between any two parts that are joined, and nowhere else. */
  lemma {:induction false} JoinSeparates(a: seq<string>, b: seq<string>)
    ensures |a| == 1 ==> Join(a) == a[0]
    ensures Join(a + b) == if a == [] then Join(b) else if b == [] then Join(a) else Join(a) + "\n\n" + Join(b)
  {
    if a == [] {
      assert a + b == b;
    } else if b == [] {
      assert a + b == a;
    } else {
      JoinSeparates(a[1..], b);
      assert (a + b)[1..] == a[1..] + b;
      if |a| > 1 {
        Associative(a[0] + "\n\n", Join(a[1..]), "\n\n" + Join(b));
      }
    }
  }

  lemma {:induction false} MessagesBehindSummary(es: seq<Entry>, n: nat)
    requires SummaryFirst(es) && 0 < n <= |es|
    ensures Messages(es[..n]) == if es[0].kind.Compaction? then es[1..n] else es[..n]
  {
    assert es[..n][..n - 1] == es[..n - 1];
    if n == 1 {
      assert Messages(es[..0]) == [];
    } else {
      MessagesBehindSummary(es, n - 1);
    }
  }

  lemma {:induction false} BodyOfSummary(es: seq<Entry>, n: nat, body: string -> string)
    requires SummaryFirst(es) && 0 < n <= |es|
    ensures Bodies(es[..n], body)
            == if es[0].kind.Compaction? && body(es[0].message.content) != "" then [body(es[0].message.content)] else []
  {
    assert es[..n][..n - 1] == es[..n - 1];
    if n == 1 {
      assert Bodies(es[..0], body) == [];
    } else {
      BodyOfSummary(es, n - 1, body);
    }
  }

  /**
    In a well-formed thread the summarizer sees every message of the prefix but a summary that
    leads it, in order, and of that summary the text: nothing of the history is left out.
   */
  lemma SelectionIsWhole(t: Thread, count: int, body: string -> string, s: Option<Selection>)
    requires WellFormed(t) && count <= |t.entries| && Selects(t.entries, count, body, s) && s.Some?
    ensures var led := t.entries[0].kind.Compaction?;
            && count > 0 && s.value.entryCount == count
            && Ungroup(s.value.turns) == (if led then t.entries[1..count] else t.entries[..count])
            && s.value.droppedMessageCount == (if led then count - 1 else count)
            && s.value.previousSummary == if led then body(t.entries[0].message.content) else ""
  {
    MessagesBehindSummary(t.entries, count);
    BodyOfSummary(t.entries, count, body);
  }

  /**
    The summary before, as the program takes it out of its frame, still begins with the preamble of
    the frame; what follows is the summary, cut off at an end mark and without its empty lines.
   */
  lemma PreviousSummaryIsFramed(t: Thread, count: int, body: string -> string, s: Option<Selection>, f: CompactionText.Frame,
                                summary: string)
    requires WellFormed(t) && count <= |t.entries| && Selects(t.entries, count, body, s) && s.Some?
    requires CompactionText.Locatable(f) && CompactionText.GoesOn(f) && forall c :: body(c) == CompactionText.Extract(f, c)
    requires LedBySummary(t.entries, CompactionText.Format(f, summary))
    ensures f.preamble <= s.value.previousSummary
    ensures CompactionText.Plain(f, summary) ==> s.value.previousSummary == f.preamble + ("\n" + summary)
  {
    SelectionIsWhole(t, count, body, s);
    CompactionText.ExtractedText(f, summary);
    if CompactionText.Plain(f, summary) {
      CompactionText.PreambleComesBack(f, summary);
    }
  }

  // ---------------------------------------------------------------- grouping

  /** The contents of the insertion-ordered map from turns to entries. */
  function Grouped(order: seq<TurnId>, byTurn: map<TurnId, seq<Entry>>): (groups: seq<Group>)
    requires forall id :: id in order ==> id in byTurn
    ensures |groups| == |order|
    ensures forall i :: 0 <= i < |order| ==> groups[i] == Group(order[i], byTurn[order[i]])
  {
    if order == [] then []
    else
      var last := order[|order| - 1];
      Grouped(order[..|order| - 1], byTurn) + [Group(last, byTurn[last])]
  }

  lemma {:induction false} GroupedIgnores(order: seq<TurnId>, byTurn: map<TurnId, seq<Entry>>, id: TurnId, es: seq<Entry>)
    requires (forall k :: k in order ==> k in byTurn) && id !in order
    ensures Grouped(order, byTurn[id := es]) == Grouped(order, byTurn)
  {
  }

  lemma AddToNewGroup(order: seq<TurnId>, byTurn: map<TurnId, seq<Entry>>, e: Entry)
    requires (forall k :: k in order ==> k in byTurn) && e.turn !in order
    ensures Ungroup(Grouped(order + [e.turn], byTurn[e.turn := [e]])) == Ungroup(Grouped(order, byTurn)) + [e]
  {
    GroupedIgnores(order, byTurn, e.turn, [e]);
    assert (order + [e.turn])[..|order|] == order;
    var g := Grouped(order + [e.turn], byTurn[e.turn := [e]]);
    assert g[..|g| - 1] == Grouped(order, byTurn);
  }

  lemma AddToLastGroup(order: seq<TurnId>, byTurn: map<TurnId, seq<Entry>>, e: Entry)
    requires (forall k :: k in order ==> k in byTurn) && Distinct(order) && order != [] && order[|order| - 1] == e.turn
    ensures Ungroup(Grouped(order, byTurn[e.turn := byTurn[e.turn] + [e]])) == Ungroup(Grouped(order, byTurn)) + [e]
  {
    var es := byTurn[e.turn] + [e];
    GroupedIgnores(order[..|order| - 1], byTurn, e.turn, es);
    var g, h := Grouped(order, byTurn), Grouped(order, byTurn[e.turn := es]);
    assert h[..|h| - 1] == g[..|g| - 1];
  }

  /** The turns met before entry `i`: the last message `m` is of the last one, and the others are over. */
  ghost predicate TurnsSoFar(es: seq<Entry>, i: nat, m: int, order: seq<TurnId>) {
    && i <= |es| && Distinct(order)
    && (order != [] ==> 0 <= m < i && es[m].turn == order[|order| - 1])
    && (forall p, k :: 0 <= p < |order| - 1 && 0 <= m <= k < |es| ==> es[k].turn != order[p])
  }

  ghost predicate Filled(order: seq<TurnId>, byTurn: map<TurnId, seq<Entry>>) {
    && (forall id :: id in byTurn <==> id in order)
    && (forall id :: id in byTurn ==> byTurn[id] != [] && forall e :: e in byTurn[id] ==> e.turn == id)
  }

  lemma NewTurn(es: seq<Entry>, i: nat, m: int, order: seq<TurnId>)
    requires Contiguous(es) && i < |es| && TurnsSoFar(es, i, m, order) && es[i].turn !in order
    ensures TurnsSoFar(es, i + 1, i, order + [es[i].turn])
  {
    var r := order + [es[i].turn];
    forall p, k | 0 <= p < |r| - 1 && i <= k < |es| ensures es[k].turn != r[p] {
      if p == |order| - 1 {
        assert es[m].turn == r[p] && es[i].turn != r[p];
      }
    }
  }

  lemma SameTurn(es: seq<Entry>, i: nat, m: int, order: seq<TurnId>)
    requires i < |es| && TurnsSoFar(es, i, m, order) && es[i].turn in order
    ensures order[|order| - 1] == es[i].turn && TurnsSoFar(es, i + 1, i, order)
  {
    var p :| 0 <= p < |order| && order[p] == es[i].turn;
    assert p == |order| - 1;
  }

  lemma FilledStep(order: seq<TurnId>, byTurn: map<TurnId, seq<Entry>>, e: Entry)
    requires Filled(order, byTurn)
    ensures e.turn in byTurn ==> Filled(order, byTurn[e.turn := byTurn[e.turn] + [e]])
    ensures e.turn !in byTurn ==> Filled(order + [e.turn], byTurn[e.turn := [e]])
  {
  }

  lemma GroupsAreTurns(order: seq<TurnId>, byTurn: map<TurnId, seq<Entry>>)
    requires Filled(order, byTurn) && Distinct(order)
    ensures OneGroupPerTurn(Grouped(order, byTurn))
  {
  }

  /** The grouping loop. */
  method GroupByTurn(prefix: seq<Entry>) returns (turns: seq<Group>)
    requires Contiguous(prefix)
    ensures Ungroup(turns) == Messages(prefix) && OneGroupPerTurn(turns)
  {
    var turnOrder: seq<TurnId>, byTurn: map<TurnId, seq<Entry>> := [], map[];
    ghost var m := -1;
    for i := 0 to |prefix|
      invariant TurnsSoFar(prefix, i, m, turnOrder) && Filled(turnOrder, byTurn)
      invariant Ungroup(Grouped(turnOrder, byTurn)) == Messages(prefix[..i])
    {
      var e := prefix[i];
      assert prefix[..i + 1][..i] == prefix[..i];
      if !e.kind.Compaction? {
        FilledStep(turnOrder, byTurn, e);
        if e.turn !in byTurn {
          AddToNewGroup(turnOrder, byTurn, e);
          NewTurn(prefix, i, m, turnOrder);
          turnOrder, byTurn := turnOrder + [e.turn], byTurn[e.turn := [e]];
        } else {
          SameTurn(prefix, i, m, turnOrder);
          AddToLastGroup(turnOrder, byTurn, e);
          byTurn := byTurn[e.turn := byTurn[e.turn] + [e]];
        }
        m := i;
      }
    }
    assert prefix[..|prefix|] == prefix;
    GroupsAreTurns(turnOrder, byTurn);
    turns := Grouped(turnOrder, byTurn);
  }

  lemma PrefixContiguous(es: seq<Entry>, c: nat)
    requires Contiguous(es) && c <= |es|
    ensures Contiguous(es[..c])
  {
  }

  method BuildCompactionSelection(es: seq<Entry>, entryCount: int, body: string -> string) returns (s: Option<Selection>)
    requires entryCount <= |es| && Contiguous(es)
    ensures Selects(es, entryCount, body, s)
  {
    if entryCount <= 0 {
      return None;
    }
    var prefix := es[..entryCount];
    PrefixContiguous(es, entryCount);
    var previousSummaries := Bodies(prefix, body);
    var turns := GroupByTurn(prefix);
    if turns == [] && previousSummaries == [] {
      return None;
    }
    if turns != [] {
      assert Ungroup(turns) != [] by { assert turns[|turns| - 1].entries != []; }
    }
    s := Some(Selection(entryCount, turns, Join(previousSummaries), |Messages(prefix)|, |turns|));
  }
}
