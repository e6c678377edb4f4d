/** The first stage of the governor: long tool results are clipped, old ones elided. */
module ToolAging {
  import opened Prelude
  import opened Tokens
  import opened ThreadModel
  import opened ThreadInvariant

  datatype Policy = Policy(
    toolResultQuota: int,
    preserveFullTurns: nat,
    preserveRecentTokens: nat,
    preserveToolIterations: nat,
    maxToolResultTokens: nat)

  const OMITTED := "\n…[中间已省略]…\n"

  /** Head and tail of a long text; with `maxTokens` at four characters a token, never longer than that allows. */
  function HeadTail(content: string, maxTokens: nat): (r: string)
    ensures |r| <= Max(32, 4 * maxTokens)
    ensures |content| <= Max(32, 4 * maxTokens) ==> r == content
  {
    var maxChars := Max(32, 4 * maxTokens);
    if |content| <= maxChars then content
    else
      var half := (maxChars - 20) / 2;
      content[..half] + OMITTED + content[|content| - half..]
  }

  lemma BothEnds(content: string, half: nat, mid: string, n: nat)
    requires n <= half && 2 * half <= |content|
    ensures var r := content[..half] + mid + content[|content| - half..];
            |r| == 2 * half + |mid| && r[half..half + |mid|] == mid
            && r[..n] == content[..n] && r[|r| - n..] == content[|content| - n..]
  {
  }

  /**
    A clipped text begins and ends as the original does, as far from either end as what is allowed
    gives room for, and uses up all but a few characters of that.
   */
  lemma ClippedKeepsBothEnds(content: string, maxTokens: nat, n: nat)
    requires |content| > Max(32, 4 * maxTokens) && 2 * n + 20 <= Max(32, 4 * maxTokens)
    ensures var r := HeadTail(content, maxTokens);
            && n <= |r| && r[..n] == content[..n] && r[|r| - n..] == content[|content| - n..]
            && |r| >= Max(32, 4 * maxTokens) - 21 + |OMITTED|
            && var half := (|r| - |OMITTED|) / 2; r[half..half + |OMITTED|] == OMITTED
  {
    var mid, half := OMITTED, (Max(32, 4 * maxTokens) - 20) / 2;
    BothEnds(content, half, mid, n);
    assert HeadTail(content, maxTokens) == content[..half] + mid + content[|content| - half..];
  }

  function ToolTokens(es: seq<Entry>): nat {
    if es == [] then 0 else ToolTokens(es[..|es| - 1]) + if es[|es| - 1].kind.ToolResult? then es[|es| - 1].tokens else 0
  }

  /** The quota is for tool results, and counts each of them by its cached estimate. */
  lemma {:induction false} ToolTokensAddUp(a: seq<Entry>, b: seq<Entry>)
    ensures ToolTokens(a + b) == ToolTokens(a) + ToolTokens(b)
    ensures |b| == 1 ==> ToolTokens(b) == if b[0].kind.ToolResult? then b[0].tokens else 0
  {
    if b == [] {
      assert a + b == a;
    } else {
      ToolTokensAddUp(a, b[..|b| - 1]);
      assert (a + b)[..|a + b| - 1] == a + b[..|b| - 1];
    }
  }

  function IterationOf(e: Entry): int {
    if e.iteration.Some? then e.iteration.value else 0
  }

  function Iterations(es: seq<Entry>): seq<int> {
    if es == [] then []
    else Iterations(es[..|es| - 1]) + if es[|es| - 1].kind.ToolResult? then [IterationOf(es[|es| - 1])] else []
  }

  function MaxOf(s: seq<int>): int
    requires s != []
  {
    if |s| == 1 then s[0] else Max(MaxOf(s[..|s| - 1]), s[|s| - 1])
  }

  /** Results of this iteration and later ones are recent. */
  function KeepFrom(es: seq<Entry>, policy: Policy): int {
    var iterations := Iterations(es);
    if iterations == [] then 0 else MaxOf(iterations) - policy.preserveToolIterations + 1
  }

  function ClipResult(e: Entry, policy: Policy, factor: real): Entry {
    if e.kind.ToolResult? && e.tokens > policy.maxToolResultTokens
    then WithMessage(e, factor, WithContent(e.message, HeadTail(e.message.content, policy.maxToolResultTokens)))
    else e
  }

  function ClipResults(es: seq<Entry>, policy: Policy, factor: real): (r: seq<Entry>)
    ensures |r| == |es|
  {
    seq(|es|, i requires 0 <= i < |es| => ClipResult(es[i], policy, factor))
  }

  function ElideOne(es: seq<Entry>, i: nat, factor: real, elide: Entry -> string): (r: seq<Entry>)
    requires i < |es|
  {
    es[i := Elided(es[i], factor, elide(es[i]))]
  }

  /** From position `i` on, results that are old, or all while over the quota, give way to `elide` of them. */
  function AgeFrom(es: seq<Entry>, i: nat, keepFrom: int, quota: int, factor: real, elide: Entry -> string): (r: seq<Entry>)
    requires i <= |es|
    ensures |r| == |es|
    decreases |es| - i
  {
    if i == |es| then es
    else if !es[i].kind.ToolResult? || es[i].elided || (IterationOf(es[i]) >= keepFrom && ToolTokens(es) <= quota)
    then AgeFrom(es, i + 1, keepFrom, quota, factor, elide)
    else
      var next := ElideOne(es, i, factor, elide);
      if ToolTokens(next) <= quota then next else AgeFrom(next, i + 1, keepFrom, quota, factor, elide)
  }

  function Aged(t: Thread, policy: Policy, factor: real, elide: Entry -> string): Thread {
    t.(entries := AgeFrom(ClipResults(t.entries, policy, factor), 0, KeepFrom(t.entries, policy),
                          policy.toolResultQuota, factor, elide))
  }

  // ---------------------------------------------------------------- what aging keeps

  /** Only tool results change, and of those only text, estimate and the mark of elision. */
  ghost predicate OnlyResultText(es: seq<Entry>, r: seq<Entry>) {
    && |r| == |es|
    && forall i :: 0 <= i < |es| ==>
         if es[i].kind.ToolResult? && es[i].message.ToolMessage?
         then r[i].message.ToolMessage? && r[i].message.toolCallId == es[i].message.toolCallId
              && r[i].message.name == es[i].message.name
              && r[i] == es[i].(message := r[i].message, tokens := r[i].tokens, elided := r[i].elided, originalTokens := r[i].originalTokens)
              && (es[i].elided ==> r[i].elided)
         else r[i] == es[i]
  }

  lemma {:induction false} AgeFromChangesResults(es: seq<Entry>, i: nat, keepFrom: int, quota: int, factor: real, elide: Entry -> string)
    requires i <= |es|
    requires forall k :: 0 <= k < |es| ==> Compatible(es[k].kind, es[k].message)
    ensures OnlyResultText(es, AgeFrom(es, i, keepFrom, quota, factor, elide))
    ensures CacheAgrees(es, factor) ==> CacheAgrees(AgeFrom(es, i, keepFrom, quota, factor, elide), factor)
    decreases |es| - i
  {
    if i == |es| {
    } else if !es[i].kind.ToolResult? || es[i].elided || (IterationOf(es[i]) >= keepFrom && ToolTokens(es) <= quota) {
      AgeFromChangesResults(es, i + 1, keepFrom, quota, factor, elide);
    } else {
      var next := ElideOne(es, i, factor, elide);
      ElideChangesResults(es, i, factor, elide);
      AgeFromChangesResults(next, i + 1, keepFrom, quota, factor, elide);
      ResultTextTwice(es, next, AgeFrom(next, i + 1, keepFrom, quota, factor, elide));
    }
  }

  lemma ElideChangesResults(es: seq<Entry>, i: nat, factor: real, elide: Entry -> string)
    requires i < |es| && forall k :: 0 <= k < |es| ==> Compatible(es[k].kind, es[k].message)
    ensures var next := ElideOne(es, i, factor, elide);
            OnlyResultText(es, next) && (CacheAgrees(es, factor) ==> CacheAgrees(next, factor))
            && forall k :: 0 <= k < |next| ==> Compatible(next[k].kind, next[k].message)
  {
  }

  lemma ResultTextTwice(es: seq<Entry>, next: seq<Entry>, r: seq<Entry>)
    requires OnlyResultText(es, next) && OnlyResultText(next, r)
    ensures OnlyResultText(es, r)
  {
  }

  lemma ClipChangesResults(es: seq<Entry>, policy: Policy, factor: real)
    requires forall k :: 0 <= k < |es| ==> Compatible(es[k].kind, es[k].message)
    ensures OnlyResultText(es, ClipResults(es, policy, factor))
    ensures CacheAgrees(es, factor) ==> CacheAgrees(ClipResults(es, policy, factor), factor)
  {
  }

  lemma ResultTextKeeps(t: Thread, r: seq<Entry>)
    requires WellFormed(t) && OnlyResultText(t.entries, r)
    ensures WellFormed(t.(entries := r)) && (Paired(t.entries) ==> Paired(r))
  {
    assert SameShape(t.entries, r) && KeepsPairs(t.entries, r);
    RewriteKeeps(t, r);
    if Paired(t.entries) {
      RewriteKeepsPairing(t.entries, r);
    }
  }

  /** Aging rewrites the text of tool results and nothing else; every invariant survives. */
  lemma AgingKeeps(t: Thread, policy: Policy, factor: real, elide: Entry -> string)
    requires WellFormed(t) && CacheAgrees(t.entries, factor)
    ensures var u := Aged(t, policy, factor, elide);
            WellFormed(u) && CacheAgrees(u.entries, factor) && (Paired(t.entries) ==> Paired(u.entries))
            && OnlyResultText(t.entries, u.entries) && u == t.(entries := u.entries)
  {
    var clipped := ClipResults(t.entries, policy, factor);
    ClipChangesResults(t.entries, policy, factor);
    AgeFromChangesResults(clipped, 0, KeepFrom(t.entries, policy), policy.toolResultQuota, factor, elide);
    ResultTextKeeps(t, Aged(t, policy, factor, elide).entries);
  }

  // ---------------------------------------------------------------- what aging achieves

  /**
    Results before `p` are elided and those from `p` on untouched; the quota is met or `p` is the
    end; and if it is met, the result before `p` was still needed.
   */
  ghost predicate OldestFirst(es: seq<Entry>, r: seq<Entry>, quota: int, i: nat, p: nat) {
    && |r| == |es| && i <= p <= |es|
    && (forall k :: 0 <= k < p && r[k].kind.ToolResult? ==> r[k].elided)
    && (forall k :: p <= k < |es| ==> r[k] == es[k])
    && (ToolTokens(r) <= quota || p == |es|)
    && (ToolTokens(r) <= quota ==> p > i && !es[p - 1].elided && ToolTokens(r[p - 1 := es[p - 1]]) > quota)
  }

  lemma ElisionMarks(es: seq<Entry>, i: nat, factor: real, elide: Entry -> string)
    requires i < |es| && Compatible(es[i].kind, es[i].message)
    ensures var r := ElideOne(es, i, factor, elide);
            |r| == |es| && (forall k :: 0 <= k < |es| && k != i ==> r[k] == es[k])
            && (es[i].kind.ToolResult? ==> r[i].elided) && r[i].kind == es[i].kind && Compatible(r[i].kind, r[i].message)
            && r[i := es[i]] == es
  {
  }

  ghost predicate AllCompatible(es: seq<Entry>) {
    forall k :: 0 <= k < |es| ==> Compatible(es[k].kind, es[k].message)
  }

  ghost predicate ElidedBefore(es: seq<Entry>, i: nat) {
    forall k :: 0 <= k < i && k < |es| && es[k].kind.ToolResult? ==> es[k].elided
  }

  lemma ElisionGoesOn(es: seq<Entry>, i: nat, factor: real, elide: Entry -> string)
    requires i < |es| && AllCompatible(es) && ElidedBefore(es, i)
    ensures AllCompatible(ElideOne(es, i, factor, elide)) && ElidedBefore(ElideOne(es, i, factor, elide), i + 1)
  {
    ElisionMarks(es, i, factor, elide);
  }

  lemma OldestFirstSteps(es: seq<Entry>, next: seq<Entry>, r: seq<Entry>, quota: int, i: nat, p: nat)
    requires OldestFirst(next, r, quota, i + 1, p)
    requires |next| == |es| && forall k :: i < k < |es| ==> next[k] == es[k]
    ensures OldestFirst(es, r, quota, i, p)
  {
  }

  lemma OldestFirstEnds(es: seq<Entry>, quota: int)
    requires ToolTokens(es) > quota && forall k :: 0 <= k < |es| && es[k].kind.ToolResult? ==> es[k].elided
    ensures OldestFirst(es, es, quota, |es|, |es|)
  {
  }

  lemma OldestFirstStops(es: seq<Entry>, next: seq<Entry>, quota: int, i: nat)
    requires i < |es| == |next| && ToolTokens(next) <= quota < ToolTokens(es)
    requires (forall k :: 0 <= k < |es| && k != i ==> next[k] == es[k]) && next[i := es[i]] == es
    requires !es[i].elided && (next[i].kind.ToolResult? ==> next[i].elided)
    requires forall k :: 0 <= k < i && es[k].kind.ToolResult? ==> es[k].elided
    ensures OldestFirst(es, next, quota, i, i + 1)
  {
  }

  lemma OldestFirstElides(es: seq<Entry>, r: seq<Entry>, quota: int, i: nat, p: nat, factor: real, elide: Entry -> string)
    requires i < |es| && AllCompatible(es) && OldestFirst(ElideOne(es, i, factor, elide), r, quota, i + 1, p)
    ensures OldestFirst(es, r, quota, i, p)
  {
    ElisionMarks(es, i, factor, elide);
    OldestFirstSteps(es, ElideOne(es, i, factor, elide), r, quota, i, p);
  }

  lemma OldestFirstStopsAt(es: seq<Entry>, quota: int, i: nat, factor: real, elide: Entry -> string)
    requires i < |es| && AllCompatible(es) && ElidedBefore(es, i) && !es[i].elided
    requires ToolTokens(ElideOne(es, i, factor, elide)) <= quota < ToolTokens(es)
    ensures OldestFirst(es, ElideOne(es, i, factor, elide), quota, i, i + 1)
  {
    ElisionMarks(es, i, factor, elide);
    OldestFirstStops(es, ElideOne(es, i, factor, elide), quota, i);
  }

  lemma AgeFromSkips(es: seq<Entry>, i: nat, keepFrom: int, quota: int, factor: real, elide: Entry -> string)
    requires i < |es| && (!es[i].kind.ToolResult? || es[i].elided)
    ensures AgeFrom(es, i, keepFrom, quota, factor, elide) == AgeFrom(es, i + 1, keepFrom, quota, factor, elide)
  {
  }

  lemma AgeFromElides(es: seq<Entry>, i: nat, keepFrom: int, quota: int, factor: real, elide: Entry -> string)
    requires i < |es| && es[i].kind.ToolResult? && !es[i].elided && ToolTokens(es) > quota
    ensures var next := ElideOne(es, i, factor, elide);
            AgeFrom(es, i, keepFrom, quota, factor, elide)
            == if ToolTokens(next) <= quota then next else AgeFrom(next, i + 1, keepFrom, quota, factor, elide)
  {
  }

  /**
    Over the quota, the oldest results go, one after the other, until the quota is met or none is
    left; and the last one to go was still needed.
   */
  lemma {:induction false} AgesOldestUntilQuota(es: seq<Entry>, i: nat, keepFrom: int, quota: int, factor: real,
                                                elide: Entry -> string) returns (p: nat)
    requires i <= |es| && ToolTokens(es) > quota
    requires AllCompatible(es) && ElidedBefore(es, i)
    ensures OldestFirst(es, AgeFrom(es, i, keepFrom, quota, factor, elide), quota, i, p)
    decreases |es| - i
  {
    if i == |es| {
      OldestFirstEnds(es, quota);
      return i;
    }
    if !es[i].kind.ToolResult? || es[i].elided {
      AgeFromSkips(es, i, keepFrom, quota, factor, elide);
      p := AgesOldestUntilQuota(es, i + 1, keepFrom, quota, factor, elide);
      OldestFirstSteps(es, es, AgeFrom(es, i + 1, keepFrom, quota, factor, elide), quota, i, p);
      return;
    }
    AgeFromElides(es, i, keepFrom, quota, factor, elide);
    var next := ElideOne(es, i, factor, elide);
    if ToolTokens(next) <= quota {
      OldestFirstStopsAt(es, quota, i, factor, elide);
      return i + 1;
    }
    ElisionGoesOn(es, i, factor, elide);
    p := AgesOldestUntilQuota(next, i + 1, keepFrom, quota, factor, elide);
    OldestFirstElides(es, AgeFrom(next, i + 1, keepFrom, quota, factor, elide), quota, i, p, factor, elide);
  }

  predicate Old(e: Entry, keepFrom: int) {
    e.kind.ToolResult? && !e.elided && IterationOf(e) < keepFrom
  }

  function FirstOld(es: seq<Entry>, i: nat, keepFrom: int): (k: nat)
    requires i <= |es|
    ensures i <= k <= |es| && (k < |es| ==> Old(es[k], keepFrom))
    ensures forall j :: i <= j < k ==> !Old(es[j], keepFrom)
    decreases |es| - i
  {
    if i == |es| || Old(es[i], keepFrom) then i else FirstOld(es, i + 1, keepFrom)
  }

  /**
    Within the quota only the first old result goes, however many there are; aging proceeds past
    it only if eliding it takes the total over the quota.
   */
  lemma {:induction false} AgesOneOldResult(es: seq<Entry>, i: nat, keepFrom: int, quota: int, factor: real, elide: Entry -> string)
    requires i <= |es| && ToolTokens(es) <= quota
    ensures var r, k := AgeFrom(es, i, keepFrom, quota, factor, elide), FirstOld(es, i, keepFrom);
            if k == |es| then r == es
            else
              var next := ElideOne(es, k, factor, elide);
              r == if ToolTokens(next) <= quota then next else AgeFrom(next, k + 1, keepFrom, quota, factor, elide)
    decreases |es| - i
  {
    if i < |es| && !Old(es[i], keepFrom) {
      AgesOneOldResult(es, i + 1, keepFrom, quota, factor, elide);
    }
  }

  predicate Elidable(e: Entry) {
    e.kind.ToolResult? && !e.elided
  }

  /** The results from `lo` on and before `hi` give way to `elide` of them. */
  function ElideRange(es: seq<Entry>, lo: nat, hi: nat, factor: real, elide: Entry -> string): (r: seq<Entry>)
    requires lo <= hi <= |es|
    ensures |r| == |es|
  {
    seq(|es|, j requires 0 <= j < |es| => if lo <= j < hi && Elidable(es[j]) then Elided(es[j], factor, elide(es[j])) else es[j])
  }

  /** Where aging begins: at the first old result, or at once when over the quota. */
  function StartsAt(es: seq<Entry>, i: nat, keepFrom: int, quota: int): (lo: nat)
    requires i <= |es|
    ensures i <= lo <= |es|
  {
    if ToolTokens(es) <= quota then FirstOld(es, i, keepFrom) else i
  }

  /** Where it ends: behind the first result, from `p` on, up to which eliding meets the quota. */
  function StopsAt(es: seq<Entry>, lo: nat, p: nat, quota: int, factor: real, elide: Entry -> string): (hi: nat)
    requires lo <= p <= |es|
    ensures p <= hi <= |es|
    decreases |es| - p
  {
    if p == |es| then p
    else if Elidable(es[p]) && ToolTokens(ElideRange(es, lo, p + 1, factor, elide)) <= quota then p + 1
    else StopsAt(es, lo, p + 1, quota, factor, elide)
  }

  lemma ElideNext(es: seq<Entry>, lo: nat, p: nat, factor: real, elide: Entry -> string)
    requires lo <= p < |es|
    ensures var here, next := ElideRange(es, lo, p, factor, elide), ElideRange(es, lo, p + 1, factor, elide);
            here[p] == es[p] && next == if Elidable(es[p]) then ElideOne(here, p, factor, elide) else here
  {
  }

  lemma {:induction false} AgesOverQuota(es: seq<Entry>, lo: nat, p: nat, keepFrom: int, quota: int, factor: real, elide: Entry -> string)
    requires lo <= p <= |es| && ToolTokens(ElideRange(es, lo, p, factor, elide)) > quota
    ensures AgeFrom(ElideRange(es, lo, p, factor, elide), p, keepFrom, quota, factor, elide)
            == ElideRange(es, lo, StopsAt(es, lo, p, quota, factor, elide), factor, elide)
    decreases |es| - p
  {
    if p < |es| {
      ElideNext(es, lo, p, factor, elide);
      if !Elidable(es[p]) || ToolTokens(ElideRange(es, lo, p + 1, factor, elide)) > quota {
        AgesOverQuota(es, lo, p + 1, keepFrom, quota, factor, elide);
      }
    }
  }

  lemma ElideNothing(es: seq<Entry>, lo: nat, factor: real, elide: Entry -> string)
    requires lo <= |es|
    ensures ElideRange(es, lo, lo, factor, elide) == es
  {
  }

  lemma AgesFromOld(es: seq<Entry>, lo: nat, keepFrom: int, quota: int, factor: real, elide: Entry -> string)
    requires lo < |es| && Elidable(es[lo])
    ensures var next := ElideOne(es, lo, factor, elide);
            (if ToolTokens(next) <= quota then next else AgeFrom(next, lo + 1, keepFrom, quota, factor, elide))
            == ElideRange(es, lo, StopsAt(es, lo, lo, quota, factor, elide), factor, elide)
  {
    var next := ElideOne(es, lo, factor, elide);
    ElideNothing(es, lo, factor, elide);
    ElideNext(es, lo, lo, factor, elide);
    if ToolTokens(next) > quota {
      AgesOverQuota(es, lo, lo + 1, keepFrom, quota, factor, elide);
    }
  }

  /** Aging in closed form: from where it begins every result goes, until the quota is met or none is left. */
  lemma AgesUpToStop(es: seq<Entry>, i: nat, keepFrom: int, quota: int, factor: real, elide: Entry -> string)
    requires i <= |es|
    ensures var lo := StartsAt(es, i, keepFrom, quota);
            AgeFrom(es, i, keepFrom, quota, factor, elide)
            == ElideRange(es, lo, StopsAt(es, lo, lo, quota, factor, elide), factor, elide)
  {
    var lo := StartsAt(es, i, keepFrom, quota);
    ElideNothing(es, lo, factor, elide);
    if ToolTokens(es) > quota {
      AgesOverQuota(es, lo, lo, keepFrom, quota, factor, elide);
    } else {
      AgesOneOldResult(es, i, keepFrom, quota, factor, elide);
      if lo < |es| {
        AgesFromOld(es, lo, keepFrom, quota, factor, elide);
      }
    }
  }

  /** The promise that every result of an old iteration gives way. */
  ghost predicate AllOldElided(es: seq<Entry>, r: seq<Entry>, i: nat, keepFrom: int)
    requires |r| == |es|
  {
    forall j :: i <= j < |es| && Old(es[j], keepFrom) ==> r[j].elided
  }

  /** The promise is kept exactly when nothing old stands behind the end of aging. */
  lemma AllOldElidedIff(es: seq<Entry>, i: nat, keepFrom: int, quota: int, factor: real, elide: Entry -> string)
    requires i <= |es| && forall j :: 0 <= j < |es| ==> Compatible(es[j].kind, es[j].message)
    ensures var lo := StartsAt(es, i, keepFrom, quota);
            AllOldElided(es, AgeFrom(es, i, keepFrom, quota, factor, elide), i, keepFrom)
            <==> forall j :: StopsAt(es, lo, lo, quota, factor, elide) <= j < |es| ==> !Old(es[j], keepFrom)
  {
    var lo := StartsAt(es, i, keepFrom, quota);
    var hi := StopsAt(es, lo, lo, quota, factor, elide);
    AgesUpToStop(es, i, keepFrom, quota, factor, elide);
    var r := ElideRange(es, lo, hi, factor, elide);
    assert forall j :: i <= j < lo ==> !Old(es[j], keepFrom);
    forall j | i <= j < |es| && Old(es[j], keepFrom) ensures r[j].elided <==> j < hi {
    }
  }

  // ---------------------------------------------------------------- what counts as old

  /** The result was made in iteration `n`; one without an iteration counts as made in iteration 0. */
  predicate MadeIn(e: Entry, n: int) {
    e.iteration == Some(n) || (e.iteration.None? && n == 0)
  }

  /** Some result is `n` iterations newer, or more. */
  ghost predicate NewerBy(es: seq<Entry>, e: Entry, n: nat) {
    exists j, a, b :: 0 <= j < |es| && es[j].kind.ToolResult? && MadeIn(e, a) && MadeIn(es[j], b) && b >= a + n
  }

  lemma {:induction false} InIterations(es: seq<Entry>, n: int)
    ensures n in Iterations(es) <==> exists j :: 0 <= j < |es| && es[j].kind.ToolResult? && MadeIn(es[j], n)
  {
    if es != [] {
      var rest, last := es[..|es| - 1], es[|es| - 1];
      InIterations(rest, n);
      assert forall j :: 0 <= j < |rest| ==> rest[j] == es[j];
    }
  }

  lemma {:induction false} MaxOfIsMax(s: seq<int>)
    requires s != []
    ensures MaxOf(s) in s && forall x :: x in s ==> x <= MaxOf(s)
  {
    if |s| > 1 {
      MaxOfIsMax(s[..|s| - 1]);
      Snoc(s);
    }
  }

  /** A result counts as old exactly when some result is at least `preserveToolIterations` iterations newer. */
  lemma OldIff(es: seq<Entry>, policy: Policy, e: Entry)
    requires e in es && e.kind.ToolResult?
    ensures Old(e, KeepFrom(es, policy)) <==> !e.elided && NewerBy(es, e, policy.preserveToolIterations)
  {
    var n, iterations := IterationOf(e), Iterations(es);
    InIterations(es, n);
    assert n in iterations by {
      var j :| 0 <= j < |es| && es[j] == e;
      assert MadeIn(es[j], n);
    }
    MaxOfIsMax(iterations);
    InIterations(es, MaxOf(iterations));
    if NewerBy(es, e, policy.preserveToolIterations) {
      var j, a, b :| 0 <= j < |es| && es[j].kind.ToolResult? && MadeIn(e, a) && MadeIn(es[j], b) && b >= a + policy.preserveToolIterations;
      InIterations(es, b);
    }
    if n + policy.preserveToolIterations <= MaxOf(iterations) {
      var j :| 0 <= j < |es| && es[j].kind.ToolResult? && MadeIn(es[j], MaxOf(iterations));
      assert MadeIn(e, n);
    }
  }

  /** The clipped thread, as the second loop of aging finds it, and the thread after its first elision. */
  ghost predicate StaysWithinQuota(es: seq<Entry>, policy: Policy, factor: real, elide: Entry -> string) {
    var clipped := ClipResults(es, policy, factor);
    var k := FirstOld(clipped, 0, KeepFrom(es, policy));
    && ToolTokens(clipped) <= policy.toolResultQuota
    && (k < |clipped| ==> ToolTokens(ElideOne(clipped, k, factor, elide)) <= policy.toolResultQuota)
  }

  /** Clipping is all that happens to a result unless some result is `preserveToolIterations` iterations newer. */
  ghost predicate KeepsRecent(es: seq<Entry>, r: seq<Entry>, policy: Policy, factor: real) {
    && |r| == |es|
    && forall j :: 0 <= j < |es| && es[j].kind.ToolResult? && !NewerBy(es, es[j], policy.preserveToolIterations) ==>
         r[j] == ClipResult(es[j], policy, factor)
  }

  lemma RecentResultStays(t: Thread, policy: Policy, factor: real, elide: Entry -> string, j: nat)
    requires j < |t.entries| && t.entries[j].kind.ToolResult?
    requires StaysWithinQuota(t.entries, policy, factor, elide)
    requires !NewerBy(t.entries, t.entries[j], policy.preserveToolIterations)
    ensures Aged(t, policy, factor, elide).entries[j] == ClipResult(t.entries[j], policy, factor)
  {
    var keepFrom := KeepFrom(t.entries, policy);
    var clipped := ClipResults(t.entries, policy, factor);
    OldIff(t.entries, policy, t.entries[j]);
    AgesOneOldResult(clipped, 0, keepFrom, policy.toolResultQuota, factor, elide);
    assert clipped[j] == ClipResult(t.entries[j], policy, factor);
    assert IterationOf(clipped[j]) == IterationOf(t.entries[j]) && clipped[j].elided == t.entries[j].elided;
  }

  /** While the total stays within the quota, no result of the last `preserveToolIterations` iterations is elided. */
  lemma RecentResultsStay(t: Thread, policy: Policy, factor: real, elide: Entry -> string)
    requires StaysWithinQuota(t.entries, policy, factor, elide)
    ensures KeepsRecent(t.entries, Aged(t, policy, factor, elide).entries, policy, factor)
  {
    forall j | 0 <= j < |t.entries| && t.entries[j].kind.ToolResult? && !NewerBy(t.entries, t.entries[j], policy.preserveToolIterations)
      ensures Aged(t, policy, factor, elide).entries[j] == ClipResult(t.entries[j], policy, factor)
    {
      RecentResultStays(t, policy, factor, elide, j);
    }
  }

  /** A short result of iteration `n`. */
  function ShortResult(n: nat): Entry {
    Entry(n, Turn(1), ToolResult, ToolMessage("c", "t", ""), 6, false, Some(n), None, Some(6))
  }

  const SMALL_POLICY := Policy(100, 1, 100, 1, 100)

  lemma ThreeResults(a: Entry, b: Entry, c: Entry)
    requires a.kind.ToolResult? && b.kind.ToolResult? && c.kind.ToolResult?
    ensures ToolTokens([a, b, c]) == a.tokens + b.tokens + c.tokens
    ensures Iterations([a, b, c]) == [IterationOf(a), IterationOf(b), IterationOf(c)]
  {
    assert [a, b, c][..2] == [a, b] && [a, b][..1] == [a] && [a][..0] == [];
    assert ToolTokens([a]) == a.tokens && Iterations([a]) == [IterationOf(a)];
    assert ToolTokens([a, b]) == a.tokens + b.tokens && Iterations([a, b]) == [IterationOf(a), IterationOf(b)];
  }

  /** Three results within the quota, the first two of old iterations: the second stays. */
  lemma OldResultStaysExample(elide: Entry -> string)
    requires forall e :: elide(e) == ""
    ensures var es := [ShortResult(1), ShortResult(2), ShortResult(3)];
            var keepFrom := KeepFrom(es, SMALL_POLICY);
            var r := AgeFrom(ClipResults(es, SMALL_POLICY, 1.0), 0, keepFrom, SMALL_POLICY.toolResultQuota, 1.0, elide);
            && CacheAgrees(es, 1.0) && ToolTokens(es) <= SMALL_POLICY.toolResultQuota
            && Old(es[0], keepFrom) && Old(es[1], keepFrom)
            && r[0].elided && !r[1].elided
  {
    var a, b, c := ShortResult(1), ShortResult(2), ShortResult(3);
    var es := [a, b, c];
    ThreeResults(a, b, c);
    EstimateIsRoundedProduct(1.0, a.message);
    assert EstimateText("c") == 1 && EstimateText("t") == 1 && EstimateText("") == 0;
    assert [1, 2, 3][..2] == [1, 2] && [1, 2][..1] == [1];
    assert KeepFrom(es, SMALL_POLICY) == 3;
    assert ClipResults(es, SMALL_POLICY, 1.0) == es;
    var next := ElideOne(es, 0, 1.0, elide);
    ThreeResults(next[0], b, c);
    assert next == [next[0], b, c] && next[0].tokens == 6;
  }
}
