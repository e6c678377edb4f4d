/** What the governor's per-entry total says about the request that is sent. */
module RequestBudget {
  import opened Prelude
  import opened Tokens
  import opened ThreadModel
  import opened ContextGovernor

  /** The messages of a request: the system block and the thread. */
  function RequestMessages(system: Message, es: seq<Entry>): (ms: seq<Message>)
    ensures |ms| == |es| + 1
  {
    if es == [] then [system] else RequestMessages(system, es[..|es| - 1]) + [es[|es| - 1].message]
  }

  lemma {:induction false} RequestTotal(system: Message, es: seq<Entry>, factor: real)
    requires CacheAgrees(es, factor)
    ensures EstimateEach(factor, RequestMessages(system, es)) == Estimate(factor, system) + Total(es)
  {
    if es == [] {
      assert RequestMessages(system, es)[..0] == [];
    } else {
      var ms := RequestMessages(system, es);
      assert ms[..|ms| - 1] == RequestMessages(system, es[..|es| - 1]);
      RequestTotal(system, es[..|es| - 1], factor);
    }
  }

  /**
    When the governor ends within the budget the session context gave it, the estimate of the
    whole request exceeds the compaction threshold by at most half a token a message, rounding
    errors all told.
   */
  lemma PreparedRequestFits(system: Message, es: seq<Entry>, factor: real, compactThreshold: int)
    requires CacheAgrees(es, factor) && factor >= 0.0 && Estimate(factor, system) <= compactThreshold
    requires Total(es) <= Max(0, compactThreshold - Estimate(factor, system))
    ensures 2 * EstimateAll(factor, RequestMessages(system, es)) <= 2 * compactThreshold + |es| + 2
  {
    var ms := RequestMessages(system, es);
    RequestTotal(system, es, factor);
    TotalsAgree(factor, ms);
  }
}
