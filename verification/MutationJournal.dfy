/** The journal of file mutations: what it remembers is what replaying its file gives. */
module MutationJournal {
  import opened Prelude
  import opened LineFile

  datatype Mutation = Mutation(id: string, createdAt: string, body: string)

  datatype Record = Record(mutation: Mutation, post: string)

  datatype Event =
    | Prepared(mutation: Mutation)
    | Committed(id: string, post: string)
    | RolledBack(id: string, reason: string)
    | Undone(id: string, undoneAt: string)

  /** The two maps in the order of insertion, and the set. */
  datatype State = State(prepared: seq<Mutation>, committed: seq<Record>, inactive: set<string>)

  const EMPTY := State([], [], {})

  // ---------------------------------------------------------------- insertion-ordered maps

  function IndexOf(ps: seq<Mutation>, id: string): (i: nat)
    ensures i <= |ps| && (i < |ps| ==> ps[i].id == id) && forall k :: 0 <= k < i ==> ps[k].id != id
  {
    if ps == [] || ps[0].id == id then 0 else 1 + IndexOf(ps[1..], id)
  }

  function Put(ps: seq<Mutation>, m: Mutation): seq<Mutation> {
    var i := IndexOf(ps, m.id);
    if i < |ps| then ps[i := m] else ps + [m]
  }

  function Remove(ps: seq<Mutation>, id: string): seq<Mutation> {
    if ps == [] then []
    else Remove(ps[..|ps| - 1], id) + if ps[|ps| - 1].id == id then [] else [ps[|ps| - 1]]
  }

  function RecordIndex(rs: seq<Record>, id: string): (i: nat)
    ensures i <= |rs| && (i < |rs| ==> rs[i].mutation.id == id) && forall k :: 0 <= k < i ==> rs[k].mutation.id != id
  {
    if rs == [] || rs[0].mutation.id == id then 0 else 1 + RecordIndex(rs[1..], id)
  }

  function PutRecord(rs: seq<Record>, r: Record): seq<Record> {
    var i := RecordIndex(rs, r.mutation.id);
    if i < |rs| then rs[i := r] else rs + [r]
  }

  // ---------------------------------------------------------------- replay

  function Apply(s: State, e: Event): State {
    match e
    case Prepared(m) => s.(prepared := Put(s.prepared, m))
    case Committed(id, post) =>
      var i := IndexOf(s.prepared, id);
      if i == |s.prepared| then s
      else s.(committed := PutRecord(s.committed, Record(s.prepared[i], post)), prepared := Remove(s.prepared, id))
    case RolledBack(id, _) => s.(prepared := Remove(s.prepared, id), inactive := s.inactive + {id})
    case Undone(id, _) => s.(inactive := s.inactive + {id})
  }

  function Load(es: seq<Event>): State {
    if es == [] then EMPTY else Apply(Load(es[..|es| - 1]), es[|es| - 1])
  }

  predicate Incomplete(s: State, id: string) {
    exists i :: 0 <= i < |s.prepared| && s.prepared[i].id == id
  }

  predicate IsCommitted(s: State, id: string) {
    exists i :: 0 <= i < |s.committed| && s.committed[i].mutation.id == id
  }

  predicate Active(s: State, id: string) {
    IsCommitted(s, id) && id !in s.inactive
  }

  function ActiveRecords(rs: seq<Record>, inactive: set<string>): (r: seq<Record>)
    ensures forall x :: x in r <==> x in rs && x.mutation.id !in inactive
  {
    if rs == [] then []
    else ActiveRecords(rs[..|rs| - 1], inactive) + if rs[|rs| - 1].mutation.id in inactive then [] else [rs[|rs| - 1]]
  }

  /** The stable sort by creation time, `le` being the order of the times. */
  function ByCreation(le: (string, string) -> bool, rs: seq<Record>): seq<Record> {
    if rs == [] then [] else Insert(le, ByCreation(le, rs[..|rs| - 1]), rs[|rs| - 1])
  }

  /** The record goes behind the last one that is not created later. */
  function Insert(le: (string, string) -> bool, rs: seq<Record>, r: Record): seq<Record> {
    if rs == [] || Before(le, rs[|rs| - 1], r) then rs + [r]
    else Insert(le, rs[..|rs| - 1], r) + [rs[|rs| - 1]]
  }

  predicate Before(le: (string, string) -> bool, a: Record, b: Record) {
    le(a.mutation.createdAt, b.mutation.createdAt)
  }

  ghost predicate IsOrder(le: (string, string) -> bool) {
    && (forall a, b :: le(a, b) || le(b, a))
    && (forall a, b, c :: le(a, b) && le(b, c) ==> le(a, c))
  }

  ghost predicate Ordered(le: (string, string) -> bool, rs: seq<Record>) {
    forall i, j :: 0 <= i < j < |rs| ==> Before(le, rs[i], rs[j])
  }

  /** The records created at one time, in their order. */
  function CreatedAt(rs: seq<Record>, time: string): seq<Record> {
    if rs == [] then []
    else CreatedAt(rs[..|rs| - 1], time) + if rs[|rs| - 1].mutation.createdAt == time then [rs[|rs| - 1]] else []
  }

  lemma {:induction false} CreatedAtHolds(rs: seq<Record>, time: string)
    ensures forall x :: x in CreatedAt(rs, time) <==> x in rs && x.mutation.createdAt == time
  {
    if rs != [] {
      Snoc(rs);
      CreatedAtHolds(rs[..|rs| - 1], time);
    }
  }

  lemma {:induction false} InsertKeeps(le: (string, string) -> bool, rs: seq<Record>, r: Record)
    ensures multiset(Insert(le, rs, r)) == multiset(rs) + multiset{r}
    ensures forall x :: x in Insert(le, rs, r) ==> x in rs || x == r
  {
    if rs != [] && !Before(le, rs[|rs| - 1], r) {
      Snoc(rs);
      InsertKeeps(le, rs[..|rs| - 1], r);
    }
  }

  lemma OrderedSnoc(le: (string, string) -> bool, rs: seq<Record>, r: Record)
    requires Ordered(le, rs) && forall x :: x in rs ==> Before(le, x, r)
    ensures Ordered(le, rs + [r])
  {
  }

  lemma {:induction false} InsertOrders(le: (string, string) -> bool, rs: seq<Record>, r: Record)
    requires IsOrder(le) && Ordered(le, rs)
    ensures Ordered(le, Insert(le, rs, r))
  {
    if rs == [] {
    } else {
      var rest, last := rs[..|rs| - 1], rs[|rs| - 1];
      assert forall x :: x in rest ==> Before(le, x, last);
      if Before(le, last, r) {
        forall x | x in rs ensures Before(le, x, r) {
          assert x == last || Before(le, x, last);
        }
        OrderedSnoc(le, rs, r);
      } else {
        InsertOrders(le, rest, r);
        InsertKeeps(le, rest, r);
        OrderedSnoc(le, Insert(le, rest, r), last);
      }
    }
  }

  lemma {:induction false} InsertIsStable(le: (string, string) -> bool, rs: seq<Record>, r: Record, time: string)
    requires IsOrder(le)
    ensures CreatedAt(Insert(le, rs, r), time) == CreatedAt(rs + [r], time)
  {
    assert (rs + [r])[..|rs|] == rs;
    if rs != [] && !Before(le, rs[|rs| - 1], r) {
      var rest, last := rs[..|rs| - 1], rs[|rs| - 1];
      InsertIsStable(le, rest, r, time);
      var t := Insert(le, rest, r);
      assert (t + [last])[..|t|] == t;
      assert (rest + [r])[..|rest|] == rest;
      assert le(r.mutation.createdAt, r.mutation.createdAt);
      if last.mutation.createdAt == time {
        assert CreatedAt(rest + [r], time) == CreatedAt(rest, time) + [];
      }
    }
  }

  /** The sort keeps every record, orders them, and leaves those of one time in their order. */
  lemma {:induction false} CreationOrder(le: (string, string) -> bool, rs: seq<Record>, time: string)
    requires IsOrder(le)
    ensures multiset(ByCreation(le, rs)) == multiset(rs) && Ordered(le, ByCreation(le, rs))
    ensures CreatedAt(ByCreation(le, rs), time) == CreatedAt(rs, time)
    ensures forall x :: x in CreatedAt(rs, time) <==> x in rs && x.mutation.createdAt == time
  {
    CreatedAtHolds(rs, time);
    if rs != [] {
      var rest, last := rs[..|rs| - 1], rs[|rs| - 1];
      var t := ByCreation(le, rest);
      Snoc(rs);
      CreationOrder(le, rest, time);
      InsertKeeps(le, t, last);
      InsertOrders(le, t, last);
      InsertIsStable(le, t, last, time);
      assert (t + [last])[..|t|] == t;
    }
  }

  // ---------------------------------------------------------------- the file

  lemma LoadSnoc(es: seq<Event>, e: Event)
    ensures Load(es + [e]) == Apply(Load(es), e)
  {
    assert (es + [e])[..|es|] == es;
  }

  /**
    An append to a file that ends with a newline adds its event to what is replayed. After a torn
    line it is lost, and so is a last line that lacked only its newline.
   */
  lemma AppendReplays(f: File<Event>, e: Event)
    ensures Load(ReadAll(AppendTo(f, e)))
            == if f.tail.Clean? then Apply(Load(ReadAll(f)), e) else Load(Items(f.lines))
  {
    ReadAppended(f, e);
    if f.tail.Clean? {
      assert ReadAll(f) == Items(f.lines);
      LoadSnoc(Items(f.lines), e);
    } else {
      assert Items(f.lines) + [] == Items(f.lines);
    }
  }

  /** A line torn by a crash loads as the state before its event; one that lacks only its newline, as the state after. */
  lemma TornLineLoads(f: File<Event>, e: Event, complete: bool)
    requires f.tail.Clean?
    ensures Load(ReadAll(TearAt(f, e, complete))) == if complete then Apply(Load(ReadAll(f)), e) else Load(ReadAll(f))
  {
    ReadAppended(f, e);
    assert ReadAll(f) == Items(f.lines);
    LoadSnoc(Items(f.lines), e);
  }

  // ---------------------------------------------------------------- transactions

  /** Transaction ids are fresh: each is prepared at most once. */
  ghost predicate FreshIds(es: seq<Event>) {
    forall i, j :: 0 <= i < j < |es| && es[i].Prepared? && es[j].Prepared? ==> es[i].mutation.id != es[j].mutation.id
  }

  ghost predicate PreparedIn(es: seq<Event>, id: string) {
    exists i :: 0 <= i < |es| && es[i].Prepared? && es[i].mutation.id == id
  }

  ghost predicate Has(ps: seq<Mutation>, id: string) {
    exists i :: 0 <= i < |ps| && ps[i].id == id
  }

  lemma HasSnoc(ps: seq<Mutation>, m: Mutation, id: string)
    ensures Has(ps + [m], id) <==> Has(ps, id) || m.id == id
  {
    assert (ps + [m])[|ps|] == m;
    if Has(ps, id) {
      var i :| 0 <= i < |ps| && ps[i].id == id;
      assert (ps + [m])[i] == ps[i];
    }
  }

  lemma PutHas(ps: seq<Mutation>, m: Mutation, id: string)
    ensures Has(Put(ps, m), id) <==> id == m.id || Has(ps, id)
  {
    var k, r := IndexOf(ps, m.id), Put(ps, m);
    assert r[k].id == m.id;
    if Has(ps, id) {
      var i :| 0 <= i < |ps| && ps[i].id == id;
      assert r[i].id == id;
    }
  }

  lemma {:induction false} RemoveHas(ps: seq<Mutation>, gone: string, id: string)
    ensures Has(Remove(ps, gone), id) <==> id != gone && Has(ps, id)
    ensures !Has(ps, gone) ==> Remove(ps, gone) == ps
  {
    if ps != [] {
      var rest, last := ps[..|ps| - 1], ps[|ps| - 1];
      Snoc(ps);
      HasSnoc(rest, last, id);
      HasSnoc(rest, last, gone);
      RemoveHas(rest, gone, id);
      HasSnoc(Remove(rest, gone), last, id);
      assert Remove(rest, gone) + [] == Remove(rest, gone);
    }
  }

  lemma PutRecordHas(rs: seq<Record>, r: Record, id: string)
    ensures (exists i :: 0 <= i < |PutRecord(rs, r)| && PutRecord(rs, r)[i].mutation.id == id)
            <==> id == r.mutation.id || exists i :: 0 <= i < |rs| && rs[i].mutation.id == id
  {
    var k, q := RecordIndex(rs, r.mutation.id), PutRecord(rs, r);
    assert q[k].mutation.id == r.mutation.id;
    if i :| 0 <= i < |rs| && rs[i].mutation.id == id {
      assert q[i].mutation.id == id;
    }
  }

  /** How one event moves a transaction between incomplete and committed. */
  lemma ApplyMoves(s: State, e: Event, id: string)
    ensures var t := Apply(s, e);
            && (Incomplete(t, id) <==>
                  (e.Prepared? && e.mutation.id == id)
                  || (Incomplete(s, id) && !(e.Committed? && e.id == id) && !(e.RolledBack? && e.id == id)))
            && (IsCommitted(t, id) <==> IsCommitted(s, id) || (e.Committed? && e.id == id && Incomplete(s, id)))
  {
    match e
    case Prepared(m) => PutHas(s.prepared, m, id);
    case Committed(c, post) =>
      var i := IndexOf(s.prepared, c);
      if i < |s.prepared| {
        RemoveHas(s.prepared, c, id);
        PutRecordHas(s.committed, Record(s.prepared[i], post), id);
      }
    case RolledBack(c, _) => RemoveHas(s.prepared, c, id);
    case Undone(_, _) =>
  }

  /** Events that change nothing: of a mutation already in that state. */
  predicate Redundant(s: State, e: Event) {
    match e
    case Prepared(m) => IndexOf(s.prepared, m.id) < |s.prepared| && s.prepared[IndexOf(s.prepared, m.id)] == m
    case Committed(id, _) => !Incomplete(s, id)
    case RolledBack(id, _) => !Incomplete(s, id) && id in s.inactive
    case Undone(id, _) => id in s.inactive
  }

  lemma RedundantIff(s: State, e: Event)
    ensures Apply(s, e) == s <==> Redundant(s, e)
  {
    match e
    case Prepared(m) =>
    case Committed(id, _) => ApplyMoves(s, e, id);
    case RolledBack(id, _) =>
      ApplyMoves(s, e, id);
      RemoveHas(s.prepared, id, id);
    case Undone(id, _) =>
      assert id in Apply(s, e).inactive;
  }

  lemma PutSize(ps: seq<Mutation>, m: Mutation)
    ensures Put(ps, m) == if Has(ps, m.id) then ps[IndexOf(ps, m.id) := m] else ps + [m]
  {
  }

  /** Putting something back after removing an id restores the list only if it was the last entry. */
  lemma PutBackIff(ps: seq<Mutation>, id: string, m: Mutation)
    requires Has(ps, id)
    ensures Put(Remove(ps, id), m) == ps <==> IndexOf(ps, id) == |ps| - 1 && m == ps[|ps| - 1]
  {
    var rest, last, gone := ps[..|ps| - 1], ps[|ps| - 1], Remove(ps, id);
    Snoc(ps);
    RemoveHas(ps, id, id);
    RemoveHas(rest, id, id);
    PutSize(gone, m);
    if Put(gone, m) == ps {
      PutHas(gone, m, id);
      assert ps == gone + [m];
      assert gone == rest;
    }
    if IndexOf(ps, id) == |ps| - 1 && m == last {
      assert !Has(rest, id);
      assert gone == rest + [] == rest;
      assert !Has(rest, m.id);
    }
  }

  /** The record is already in place. */
  predicate Recorded(rs: seq<Record>, r: Record) {
    var k := RecordIndex(rs, r.mutation.id);
    k < |rs| && rs[k] == r
  }

  lemma RecordedIff(rs: seq<Record>, r: Record)
    ensures PutRecord(rs, r) == rs <==> Recorded(rs, r)
  {
    var k := RecordIndex(rs, r.mutation.id);
    if k < |rs| {
      assert PutRecord(rs, r)[k] == r;
    }
  }

  /**
    What the second of two events must be for both to leave the state as it was: redundant, like the
    first; or the end of what the first began, whose outcome was known before; or a preparation
    that puts back, at the end, what the first took away or overwrote.
   */
  predicate Cancels(s: State, first: Event, second: Event) {
    if Redundant(s, first) then Redundant(s, second)
    else match first
      case Prepared(m) =>
        var i := IndexOf(s.prepared, m.id);
        if i < |s.prepared| then second == Prepared(s.prepared[i])
        else (second.RolledBack? && second.id == m.id && m.id in s.inactive)
             || (second.Committed? && second.id == m.id && Recorded(s.committed, Record(m, second.post)))
      case Committed(id, post) =>
        var i := IndexOf(s.prepared, id);
        i == |s.prepared| - 1 && second == Prepared(s.prepared[i]) && Recorded(s.committed, Record(s.prepared[i], post))
      case RolledBack(id, _) =>
        var i := IndexOf(s.prepared, id);
        i == |s.prepared| - 1 && second == Prepared(s.prepared[i]) && id in s.inactive
      case Undone(_, _) => false
  }

  lemma CancelsPrepared(s: State, m: Mutation, e: Event)
    requires !Redundant(s, Prepared(m))
    ensures Apply(Apply(s, Prepared(m)), e) == s <==> Cancels(s, Prepared(m), e)
  {
    var i, t := IndexOf(s.prepared, m.id), Apply(s, Prepared(m));
    if i == |s.prepared| {
      NewCancels(s, m, e);
    } else {
      OverwriteCancels(s, m, e);
    }
  }

  lemma NewCancels(s: State, m: Mutation, e: Event)
    requires IndexOf(s.prepared, m.id) == |s.prepared|
    ensures Apply(Apply(s, Prepared(m)), e) == s <==> Cancels(s, Prepared(m), e)
  {
    var ps := s.prepared + [m];
    var t := s.(prepared := ps);
    assert Apply(s, Prepared(m)) == t && !Has(s.prepared, m.id);
    match e
    case Prepared(n) => assert |Put(ps, n)| > |s.prepared|;
    case Committed(id, post) =>
      TakenFromEnd(s.prepared, m, id);
      if id == m.id {
        assert IndexOf(ps, id) == |s.prepared| by { assert ps[IndexOf(ps, id)].id == id || IndexOf(ps, id) == |ps|; }
        RecordedIff(s.committed, Record(m, post));
      }
    case RolledBack(id, _) =>
      TakenFromEnd(s.prepared, m, id);
      assert id in Apply(t, e).inactive;
    case Undone(id, _) =>
  }

  /** Taking an id out of a list that grew by a new entry gives the list back only if it is the new one's. */
  lemma TakenFromEnd(ps: seq<Mutation>, m: Mutation, id: string)
    requires !Has(ps, m.id)
    ensures Remove(ps + [m], id) == ps <==> id == m.id
  {
    assert (ps + [m])[..|ps|] == ps;
    RemoveHas(ps, id, id);
    if id == m.id {
      assert Remove(ps, id) + [] == ps;
    } else {
      HasSnoc(ps, m, m.id);
      RemoveHas(ps + [m], id, m.id);
    }
  }

  lemma OverwriteCancels(s: State, m: Mutation, e: Event)
    requires IndexOf(s.prepared, m.id) < |s.prepared| && !Redundant(s, Prepared(m))
    ensures Apply(Apply(s, Prepared(m)), e) == s <==> Cancels(s, Prepared(m), e)
  {
    var i := IndexOf(s.prepared, m.id);
    var ps := s.prepared[i := m];
    var t := s.(prepared := ps);
    assert Apply(s, Prepared(m)) == t && ps[i].id == m.id && s.prepared[i] != m;
    match e
    case Prepared(n) =>
      var k := IndexOf(ps, n.id);
      assert IndexOf(ps, m.id) == i;
      if Put(ps, n) == s.prepared {
        assert k < |ps| && k == i;
      }
      if n == s.prepared[i] {
        assert ps[i := n] == s.prepared;
      }
    case Committed(id, _) =>
      RemoveHas(ps, id, id);
      if Remove(ps, id) == s.prepared {
        KeptIfSameSize(ps, id);
      }
    case RolledBack(id, _) =>
      if Remove(ps, id) == s.prepared {
        KeptIfSameSize(ps, id);
      }
    case Undone(id, _) =>
  }

  lemma {:induction false} KeptIfSameSize(ps: seq<Mutation>, id: string)
    ensures |Remove(ps, id)| <= |ps|
    ensures |Remove(ps, id)| == |ps| ==> Remove(ps, id) == ps
  {
    if ps != [] {
      KeptIfSameSize(ps[..|ps| - 1], id);
      Snoc(ps);
    }
  }

  lemma CancelsCommitted(s: State, id: string, post: string, e: Event)
    requires Incomplete(s, id)
    ensures Apply(Apply(s, Committed(id, post)), e) == s <==> Cancels(s, Committed(id, post), e)
  {
    var i := IndexOf(s.prepared, id);
    var r := Record(s.prepared[i], post);
    var t := State(Remove(s.prepared, id), PutRecord(s.committed, r), s.inactive);
    assert Apply(s, Committed(id, post)) == t && Has(s.prepared, id);
    assert !Redundant(s, Committed(id, post));
    RecordedIff(s.committed, r);
    if e.Prepared? {
      PutBackIff(s.prepared, id, e.mutation);
    } else {
      ApplyMoves(t, e, id);
      RemoveHas(s.prepared, id, id);
    }
  }

  lemma CancelsRolledBack(s: State, id: string, reason: string, e: Event)
    requires !Redundant(s, RolledBack(id, reason))
    ensures Apply(Apply(s, RolledBack(id, reason)), e) == s <==> Cancels(s, RolledBack(id, reason), e)
  {
    var i := IndexOf(s.prepared, id);
    var t := State(Remove(s.prepared, id), s.committed, s.inactive + {id});
    assert Apply(s, RolledBack(id, reason)) == t && id in t.inactive && id in Apply(t, e).inactive;
    if id in s.inactive {
      assert Has(s.prepared, id) && t.inactive == s.inactive;
      if e.Prepared? {
        PutBackIff(s.prepared, id, e.mutation);
      } else {
        ApplyMoves(t, e, id);
        RemoveHas(s.prepared, id, id);
      }
    }
  }

  lemma CancelsIff(s: State, first: Event, second: Event)
    ensures Apply(Apply(s, first), second) == s <==> Cancels(s, first, second)
  {
    RedundantIff(s, first);
    RedundantIff(s, second);
    if !Redundant(s, first) {
      match first
      case Prepared(m) => CancelsPrepared(s, m, second);
      case Committed(id, post) => CancelsCommitted(s, id, post, second);
      case RolledBack(id, reason) => CancelsRolledBack(s, id, reason, second);
      case Undone(id, _) => assert id in Apply(Apply(s, first), second).inactive;
    }
  }

  /** What an appended event must be for memory and file to stay in agreement, by the end of the file. */
  predicate Agrees(f: File<Event>, e: Event) {
    match f.tail
    case Clean => true
    case Torn => Redundant(Load(Items(f.lines)), e)
    case Unended(x) => Cancels(Load(Items(f.lines)), x, e)
  }

  /** An append keeps memory and file in agreement exactly then, whatever the last process left. */
  lemma AgreesIff(f: File<Event>, e: Event)
    ensures Load(ReadAll(AppendTo(f, e))) == Apply(Load(ReadAll(f)), e) <==> Agrees(f, e)
  {
    var held := Load(Items(f.lines));
    AppendReplays(f, e);
    match f.tail
    case Clean =>
    case Torn =>
      assert ReadAll(f) == Items(f.lines);
      RedundantIff(held, e);
    case Unended(x) =>
      LoadSnoc(Items(f.lines), x);
      CancelsIff(held, x, e);
  }

  /** An event may be redundant for memory and still part them, by destroying the line before it. */
  lemma UnendedExample()
    ensures var m := Mutation("a", "", "");
            var f := File([], Unended(Prepared(m)));
            && Redundant(Load(ReadAll(f)), Prepared(m))
            && Load(ReadAll(f)) == State([m], [], {})
            && Apply(Load(ReadAll(f)), Prepared(m)) == State([m], [], {})
            && Load(ReadAll(AppendTo(f, Prepared(m)))) == EMPTY
  {
    var m := Mutation("a", "", "");
    var f := File([], Unended(Prepared(m)));
    assert Items(f.lines) == [] && ReadAll(f) == [] + [Prepared(m)];
    LoadSnoc([], Prepared(m));
    assert [] + [m] == [m];
    assert [m][0 := m] == [m];
    AppendReplays(f, Prepared(m));
  }

  function AppendAll(f: File<Event>, es: seq<Event>): File<Event> {
    if es == [] then f else AppendTo(AppendAll(f, es[..|es| - 1]), es[|es| - 1])
  }

  /**
    A whole run of appends: what is replayed is every event of it, but for the first one, and an
    unfinished line before it, if the file did not end with a newline.
   */
  lemma {:induction false} RunReplays(f: File<Event>, es: seq<Event>)
    requires es != []
    ensures AppendAll(f, es).tail.Clean?
    ensures Load(ReadAll(AppendAll(f, es)))
            == if f.tail.Clean? then ApplyAll(Load(ReadAll(f)), es) else ApplyAll(Load(Items(f.lines)), es[1..])
  {
    var rest, e := es[..|es| - 1], es[|es| - 1];
    AppendReplays(AppendAll(f, rest), e);
    if rest == [] {
      assert es[1..] == [];
    } else {
      RunReplays(f, rest);
      assert es[1..][..|es| - 2] == rest[1..];
    }
  }

  /** From a file that ends with a newline, memory stays the replay of the file after any run of appends. */
  lemma RunAgrees(f: File<Event>, es: seq<Event>)
    requires f.tail.Clean?
    ensures AppendAll(f, es).tail.Clean? && Load(ReadAll(AppendAll(f, es))) == ApplyAll(Load(ReadAll(f)), es)
  {
    if es != [] {
      RunReplays(f, es);
    }
  }

  /**
    Whatever events a file holds, as long as ids are fresh: no transaction is both incomplete and
    committed, and none is either without having been prepared.
   */
  lemma {:induction false} Exclusive(es: seq<Event>, id: string)
    requires FreshIds(es)
    ensures !(Incomplete(Load(es), id) && IsCommitted(Load(es), id))
    ensures Incomplete(Load(es), id) || IsCommitted(Load(es), id) ==> PreparedIn(es, id)
  {
    if es != [] {
      var rest, e := es[..|es| - 1], es[|es| - 1];
      assert es == rest + [e];
      Exclusive(rest, id);
      ApplyMoves(Load(rest), e, id);
      if PreparedIn(rest, id) {
        var i :| 0 <= i < |rest| && rest[i].Prepared? && rest[i].mutation.id == id;
        assert es[i] == rest[i];
      }
      if e.Prepared? && e.mutation.id == id {
        assert es[|es| - 1] == e;
      }
    }
  }

  function ApplyAll(s: State, es: seq<Event>): State {
    if es == [] then s else Apply(ApplyAll(s, es[..|es| - 1]), es[|es| - 1])
  }

  /** Once undone or rolled back, a mutation is never active again, whatever follows. */
  lemma {:induction false} InactiveIsFinal(s: State, es: seq<Event>, id: string)
    requires id in s.inactive
    ensures id in ApplyAll(s, es).inactive && !Active(ApplyAll(s, es), id)
  {
    if es != [] {
      InactiveIsFinal(s, es[..|es| - 1], id);
    }
  }

  /** A rolled-back transaction with a fresh id is neither incomplete nor committed at the end, unless it was committed before. */
  lemma {:induction false} RolledBackIsGone(s: State, es: seq<Event>, id: string)
    requires !Incomplete(s, id) && !IsCommitted(s, id)
    requires forall i :: 0 <= i < |es| && es[i].Prepared? ==> es[i].mutation.id != id
    ensures !Incomplete(ApplyAll(s, es), id) && !IsCommitted(ApplyAll(s, es), id)
  {
    if es != [] {
      RolledBackIsGone(s, es[..|es| - 1], id);
      ApplyMoves(ApplyAll(s, es[..|es| - 1]), es[|es| - 1], id);
    }
  }

  /** A mutation is active exactly from its commit to its undoing. */
  lemma CommitActivates(s: State, id: string, post: string)
    requires Incomplete(s, id) && id !in s.inactive
    ensures Active(Apply(s, Committed(id, post)), id) && !Incomplete(Apply(s, Committed(id, post)), id)
    ensures !Active(Apply(Apply(s, Committed(id, post)), Undone(id, "")), id)
  {
    ApplyMoves(s, Committed(id, post), id);
  }

  /** Across a restart an undo can be forgotten: its line was glued to a torn one. */
  lemma ForgottenUndoExample()
    ensures var m := Mutation("a", "", "");
            var f := File([Whole(Prepared(m)), Whole(Committed("a", ""))], Torn);
            var undo := Undone("a", "");
            !Active(Apply(Load(ReadAll(f)), undo), "a") && Active(Load(ReadAll(AppendTo(f, undo))), "a")
  {
    var m := Mutation("a", "", "");
    var lines := [Whole(Prepared(m)), Whole(Committed("a", ""))];
    var f, undo := File(lines, Torn), Undone("a", "");
    AppendReplays(f, undo);
    assert lines[..1] == [Whole(Prepared(m))] && lines[..1][..0] == [];
    assert Items(lines[..1]) == Items(lines[..1][..0]) + [Prepared(m)];
    assert Items(lines) == Items(lines[..1]) + [Committed("a", "")];
    LoadSnoc([], Prepared(m));
    LoadSnoc([Prepared(m)], Committed("a", ""));
    assert [] + [Prepared(m)] == [Prepared(m)];
    ApplyMoves(EMPTY, Prepared(m), "a");
    ApplyMoves(Load([Prepared(m)]), Committed("a", ""), "a");
  }

  // ---------------------------------------------------------------- the journal object

  /** The journal file; it outlives the journal object. */
  class JournalFile {
    var content: File<Event>

    constructor ()
      ensures content == File([], Clean)
    {
      content := File([], Clean);
    }
  }

  class MutationJournal {
    const file: JournalFile
    var prepared: seq<Mutation>
    var committed: seq<Record>
    var inactive: set<string>

    ghost function Memory(): State
      reads this
    {
      State(prepared, committed, inactive)
    }

    /** Memory is what loading the file gives. */
    ghost predicate InSync()
      reads this, file
    {
      Memory() == Load(ReadAll(file.content))
    }

    /** Loading, whatever the last process left. */
    constructor (file: JournalFile)
      ensures this.file == file && InSync()
    {
      this.file := file;
      prepared, committed, inactive := [], [], {};
      new;
      var events := ReadAll(file.content);
      for i := 0 to |events|
        invariant Memory() == Load(events[..i]) && file.content == old(file.content)
      {
        LoadSnoc(events[..i], events[i]);
        assert events[..i + 1] == events[..i] + [events[i]];
        Replay(events[i]);
      }
      assert events[..|events|] == events;
    }

    method Replay(event: Event)
      modifies this`prepared, this`committed, this`inactive
      ensures Memory() == Apply(old(Memory()), event)
    {
      match event {
        case Prepared(m) => prepared := Put(prepared, m);
        case Committed(id, post) =>
          var i := IndexOf(prepared, id);
          if i < |prepared| {
            committed := PutRecord(committed, Record(prepared[i], post));
            prepared := Remove(prepared, id);
          }
        case RolledBack(id, _) =>
          prepared := Remove(prepared, id);
          inactive := inactive + {id};
        case Undone(id, _) => inactive := inactive + {id};
      }
    }

    method Append(event: Event)
      modifies file
      ensures file.content == AppendTo(old(file.content), event)
    {
      file.content := AppendTo(file.content, event);
    }

    method AppendPrepared(mutation: Mutation)
      modifies this`prepared, file
      ensures Memory() == Apply(old(Memory()), Prepared(mutation))
      ensures file.content == AppendTo(old(file.content), Prepared(mutation))
      ensures old(InSync()) && old(file.content).tail.Clean? ==> InSync()
    {
      AppendReplays(file.content, Prepared(mutation));
      Append(Prepared(mutation));
      prepared := Put(prepared, mutation);
    }

    /** None, and nothing happens, when no such mutation is prepared. */
    method AppendCommitted(id: string, post: string) returns (record: Option<Record>)
      modifies this`prepared, this`committed, file
      ensures record.Some? <==> old(Incomplete(Memory(), id))
      ensures record.None? ==> Memory() == old(Memory()) && file.content == old(file.content)
      ensures record.Some? ==> Memory() == Apply(old(Memory()), Committed(id, post)) && record.value in committed
                               && file.content == AppendTo(old(file.content), Committed(id, post))
      ensures old(InSync()) && old(file.content).tail.Clean? ==> InSync()
    {
      var i := IndexOf(prepared, id);
      if i == |prepared| {
        return None;
      }
      AppendReplays(file.content, Committed(id, post));
      Append(Committed(id, post));
      var r := Record(prepared[i], post);
      committed := PutRecord(committed, r);
      assert committed[RecordIndex(old(committed), id)] == r;
      prepared := Remove(prepared, id);
      record := Some(r);
    }

    method AppendRolledBack(id: string, reason: string)
      modifies this`prepared, this`inactive, file
      ensures Memory() == Apply(old(Memory()), RolledBack(id, reason))
      ensures file.content == AppendTo(old(file.content), RolledBack(id, reason))
      ensures old(InSync()) && old(file.content).tail.Clean? ==> InSync()
    {
      AppendReplays(file.content, RolledBack(id, reason));
      Append(RolledBack(id, reason));
      prepared := Remove(prepared, id);
      inactive := inactive + {id};
    }

    method AppendUndone(id: string, undoneAt: string)
      modifies this`inactive, file
      ensures Memory() == Apply(old(Memory()), Undone(id, undoneAt))
      ensures file.content == AppendTo(old(file.content), Undone(id, undoneAt))
      ensures old(InSync()) && old(file.content).tail.Clean? ==> InSync()
    {
      AppendReplays(file.content, Undone(id, undoneAt));
      Append(Undone(id, undoneAt));
      inactive := inactive + {id};
    }

    /** The committed mutations that were neither undone nor rolled back, by creation time. */
    method ListActive(le: (string, string) -> bool) returns (records: seq<Record>)
      requires IsOrder(le)
      ensures forall r :: r in records <==> r in committed && r.mutation.id !in inactive
      ensures multiset(records) == multiset(ActiveRecords(committed, inactive)) && Ordered(le, records)
      ensures forall time :: CreatedAt(records, time) == CreatedAt(ActiveRecords(committed, inactive), time)
    {
      var active := ActiveRecords(committed, inactive);
      records := ByCreation(le, active);
      forall time ensures CreatedAt(records, time) == CreatedAt(active, time) {
        CreationOrder(le, active, time);
      }
      CreationOrder(le, active, "");
      assert forall r :: r in records <==> r in multiset(records);
    }

    method ListIncomplete() returns (mutations: seq<Mutation>)
      ensures mutations == prepared
    {
      mutations := prepared;
    }
  }
}
