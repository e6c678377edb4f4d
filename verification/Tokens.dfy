/** Messages and their token estimates, with the calibration factor taken as a real number. */
module Tokens {
  import opened Prelude

  /** A tool call and its JSON text. */
  datatype ToolCall = ToolCall(id: string, json: string)

  datatype Role = System | User | Assistant

  datatype Message =
    | Chat(role: Role, content: string, toolCalls: Option<seq<ToolCall>>)
    | ToolMessage(toolCallId: string, name: string, content: string)

  const MESSAGE_OVERHEAD_TOKENS := 4

  predicate IsCjk(c: char) {
    || '\U{4E00}' <= c <= '\U{9FFF}'
    || '\U{3400}' <= c <= '\U{4DBF}'
    || '\U{3040}' <= c <= '\U{30FF}'
    || '\U{AC00}' <= c <= '\U{D7AF}'
  }

  /** The sum of the per-character estimates, in quarters of a token. */
  function Quarters(text: string): (q: nat)
    ensures |text| <= q <= 4 * |text|
  {
    if text == [] then 0 else (if IsCjk(text[0]) then 4 else 1) + Quarters(text[1..])
  }

  function EstimateText(text: string): (n: nat)
    ensures n <= |text| && (text != [] ==> n > 0)
  {
    (Quarters(text) + 3) / 4
  }

  /** The loop that adds up the characters, in quarters of a token. */
  method EstimateTextTokens(text: string) returns (n: nat)
    ensures n == EstimateText(text)
  {
    var quarters: nat := 0;
    for i := 0 to |text|
      invariant Quarters(text) == quarters + Quarters(text[i..])
    {
      quarters := quarters + if IsCjk(text[i]) then 4 else 1;
    }
    n := (quarters + 3) / 4;
  }

  function RestJson(calls: seq<ToolCall>): string {
    if calls == [] then "]" else "," + calls[0].json + RestJson(calls[1..])
  }

  /** `JSON.stringify` of a non-empty array of tool calls. */
  function CallsJson(calls: seq<ToolCall>): string {
    if calls == [] then "[]" else "[" + calls[0].json + RestJson(calls[1..])
  }

  /** Chinese and Japanese characters and Hangul, by their code points, cost a whole token, all others a quarter. */
  lemma {:induction false} QuartersAddUp(a: string, b: string)
    ensures Quarters(a + b) == Quarters(a) + Quarters(b)
    ensures |b| == 1 ==>
              var code := b[0] as int;
              Quarters(b) == if 0x4E00 <= code <= 0x9FFF || 0x3400 <= code <= 0x4DBF || 0x3040 <= code <= 0x30FF || 0xAC00 <= code <= 0xD7AF
                             then 4 else 1
  {
    if a == [] {
      assert a + b == b;
    } else {
      QuartersAddUp(a[1..], b);
      assert (a + b)[1..] == a[1..] + b;
    }
  }

  lemma {:induction false} RestJsonGrows(calls: seq<ToolCall>, c: ToolCall)
    ensures RestJson(calls) != "" && RestJson(calls)[|RestJson(calls)| - 1] == ']'
    ensures RestJson(calls + [c]) == RestJson(calls)[..|RestJson(calls)| - 1] + ("," + c.json + "]")
  {
    if calls == [] {
      assert ([] + [c])[1..] == [];
      assert RestJson([c]) == "," + c.json + "]";
    } else {
      RestJsonGrows(calls[1..], c);
      assert (calls + [c])[1..] == calls[1..] + [c];
      var head, rest, last := "," + calls[0].json, RestJson(calls[1..]), "," + c.json + "]";
      assert (head + rest)[..|head + rest| - 1] == head + rest[..|rest| - 1];
      Associative(head, rest[..|rest| - 1], last);
    }
  }

  /** The JSON of a list of calls: each after the other in brackets, with commas between. */
  lemma CallsJsonGrows(calls: seq<ToolCall>, c: ToolCall)
    ensures CallsJson([]) == "[]" && CallsJson([c]) == "[" + c.json + "]"
    ensures calls != [] ==> CallsJson(calls + [c]) == CallsJson(calls)[..|CallsJson(calls)| - 1] + ("," + c.json + "]")
  {
    assert [c][1..] == [];
    if calls != [] {
      RestJsonGrows(calls[1..], c);
      assert (calls + [c])[1..] == calls[1..] + [c];
      var head, rest, last := "[" + calls[0].json, RestJson(calls[1..]), "," + c.json + "]";
      assert (head + rest)[..|head + rest| - 1] == head + rest[..|rest| - 1];
      Associative(head, rest[..|rest| - 1], last);
    }
  }

  function RawEstimate(m: Message): (n: nat)
    ensures n >= MESSAGE_OVERHEAD_TOKENS
  {
    match m
    case ToolMessage(id, name, content) => MESSAGE_OVERHEAD_TOKENS + EstimateText(content) + EstimateText(name) + EstimateText(id)
    case Chat(_, content, calls) =>
      MESSAGE_OVERHEAD_TOKENS + EstimateText(content)
      + (if calls.Some? && calls.value != [] then EstimateText(CallsJson(calls.value)) else 0)
  }

  /** All text that is counted of a message. */
  function CountedText(m: Message): string {
    match m
    case ToolMessage(id, name, content) => content + name + id
    case Chat(_, content, calls) => content + if calls.Some? && calls.value != [] then CallsJson(calls.value) else ""
  }

  /** The raw size is the cost of all text and the overhead, each text rounded up to a whole token. */
  lemma RawEstimateCounts(m: Message)
    ensures var exact := Quarters(CountedText(m)) + 4 * MESSAGE_OVERHEAD_TOKENS;
            exact <= 4 * RawEstimate(m) <= exact + if m.ToolMessage? then 9 else 6
  {
    match m
    case ToolMessage(id, name, content) =>
      QuartersAddUp(content, name);
      QuartersAddUp(content + name, id);
    case Chat(_, content, calls) =>
      QuartersAddUp(content, if calls.Some? && calls.value != [] then CallsJson(calls.value) else "");
  }

  /** `Math.max(0, Math.round(x))`. */
  function Round(x: real): nat {
    Max(0, (x + 0.5).Floor)
  }

  /** The product `n * factor`, as repeated addition. */
  function Times(n: nat, factor: real): real {
    if n == 0 then 0.0 else Times(n - 1, factor) + factor
  }

  lemma {:induction false} TimesIsProduct(n: nat, factor: real)
    ensures Times(n, factor) == n as real * factor
  {
    if n > 0 {
      TimesIsProduct(n - 1, factor);
      assert n as real * factor == ((n - 1) as real + 1.0) * factor == (n - 1) as real * factor + factor;
    }
  }

  lemma {:induction false} TimesAdds(m: nat, n: nat, factor: real)
    ensures Times(m + n, factor) == Times(m, factor) + Times(n, factor)
  {
    if n > 0 {
      TimesAdds(m, n - 1, factor);
    }
  }

  lemma {:induction false} TimesBetween(n: nat, factor: real, low: real, high: real)
    requires low <= factor <= high
    ensures Times(n, low) <= Times(n, factor) <= Times(n, high)
  {
    if n > 0 {
      TimesBetween(n - 1, factor, low, high);
    }
  }

  function Estimate(factor: real, m: Message): nat {
    Round(Times(RawEstimate(m), factor))
  }

  /** The single rounding of a message's estimate: of the product of its raw size and the factor. */
  lemma EstimateIsRoundedProduct(factor: real, m: Message)
    ensures Estimate(factor, m) == Round(RawEstimate(m) as real * factor)
    ensures factor == 1.0 ==> Estimate(factor, m) == RawEstimate(m)
  {
    TimesIsProduct(RawEstimate(m), factor);
  }

  function RawTotal(ms: seq<Message>): (n: nat) {
    if ms == [] then 0 else RawTotal(ms[..|ms| - 1]) + RawEstimate(ms[|ms| - 1])
  }

  /** The estimate of a whole request. */
  function EstimateAll(factor: real, ms: seq<Message>): nat {
    Round(Times(RawTotal(ms), factor))
  }

  /** The sum of the estimates of the single messages, which the governor compares with its budget. */
  function EstimateEach(factor: real, ms: seq<Message>): nat {
    if ms == [] then 0 else EstimateEach(factor, ms[..|ms| - 1]) + Estimate(factor, ms[|ms| - 1])
  }

  lemma RoundError(x: real)
    requires x >= 0.0
    ensures -0.5 <= Round(x) as real - x <= 0.5
  {
    assert (x + 0.5).Floor as real <= x + 0.5;
  }

  lemma OneRoundingError(factor: real, m: Message)
    requires factor >= 0.0
    ensures -1.0 <= 2.0 * (Estimate(factor, m) as real - Times(RawEstimate(m), factor)) <= 1.0
  {
    TimesBetween(RawEstimate(m), factor, 0.0, factor);
    TimesZero(RawEstimate(m));
    RoundError(Times(RawEstimate(m), factor));
  }

  lemma ErrorsAdd(each: nat, total: real, one: nat, exact: real, n: nat)
    requires -(n as real) <= 2.0 * (each as real - total) <= n as real
    requires -1.0 <= 2.0 * (one as real - exact) <= 1.0
    ensures -((n + 1) as real) <= 2.0 * ((each + one) as real - (total + exact)) <= (n + 1) as real
  {
  }

  lemma {:induction false} RoundingErrorsAddUp(factor: real, ms: seq<Message>)
    requires factor >= 0.0
    ensures -(|ms| as real) <= 2.0 * (EstimateEach(factor, ms) as real - Times(RawTotal(ms), factor)) <= |ms| as real
  {
    if ms != [] {
      var rest, last := ms[..|ms| - 1], ms[|ms| - 1];
      RoundingErrorsAddUp(factor, rest);
      OneRoundingError(factor, last);
      TimesAdds(RawTotal(rest), RawEstimate(last), factor);
      ErrorsAdd(EstimateEach(factor, rest), Times(RawTotal(rest), factor),
                Estimate(factor, last), Times(RawEstimate(last), factor), |rest|);
    }
  }

  lemma {:induction false} TimesZero(n: nat)
    ensures Times(n, 0.0) == 0.0
  {
    if n > 0 {
      TimesZero(n - 1);
    }
  }

  /** The two ways of counting a request differ by at most half a token a message, and half a token more. */
  lemma TotalsAgree(factor: real, ms: seq<Message>)
    requires factor >= 0.0
    ensures -(|ms| as real + 1.0) <= 2.0 * (EstimateEach(factor, ms) as real - EstimateAll(factor, ms) as real)
            <= |ms| as real + 1.0
  {
    RoundingErrorsAddUp(factor, ms);
    TimesBetween(RawTotal(ms), factor, 0.0, factor);
    TimesZero(RawTotal(ms));
    RoundError(Times(RawTotal(ms), factor));
  }

  lemma {:induction false} TimesQuarter(n: nat)
    ensures 4.0 * Times(n, 0.25) == n as real
  {
    if n > 0 {
      TimesQuarter(n - 1);
    }
  }

  lemma {:induction false} TimesTwo(n: nat)
    ensures Times(n, 2.0) == 2.0 * n as real
  {
    if n > 0 {
      TimesTwo(n - 1);
    }
  }

  /** With the factor at least a quarter, no message is estimated at zero tokens. */
  lemma EstimatesArePositive(factor: real, m: Message)
    requires factor >= 0.25
    ensures Estimate(factor, m) > 0
  {
    TimesBetween(RawEstimate(m), factor, 0.25, factor);
    TimesQuarter(RawEstimate(m));
  }

  /** A message without tool calls costs at most twice its length and the overhead, as the factor is at most two. */
  lemma ShortMessage(factor: real, m: Message)
    requires 0.0 <= factor <= 2.0 && m.Chat? && m.toolCalls.None?
    ensures Estimate(factor, m) <= 2 * (MESSAGE_OVERHEAD_TOKENS + |m.content|)
  {
    TimesBetween(RawEstimate(m), factor, 0.0, 2.0);
    TimesTwo(RawEstimate(m));
    TimesZero(RawEstimate(m));
  }

  /** The exponential moving average of the factor and the ratio of used to estimated tokens. */
  function Blend(factor: real, alpha: real, rawEstimatedTokens: int, actualInputTokens: int): real
    requires rawEstimatedTokens > 0
  {
    factor * (1.0 - alpha) + actualInputTokens as real / rawEstimatedTokens as real * alpha
  }

  function Clamped(x: real, low: real, high: real): (r: real)
    requires low <= high
    ensures low <= r <= high && (low <= x <= high ==> r == x) && (x < low ==> r == low) && (x > high ==> r == high)
  {
    if x < low then low else if x > high then high else x
  }

  class TokenEstimator {
    const minFactor: real
    const maxFactor: real
    const emaAlpha: real
    var calibrationFactor: real

    /** The factor is the initial 1 or lies within the clamp. */
    ghost predicate Valid()
      reads this
    {
      minFactor <= maxFactor && (calibrationFactor == 1.0 || minFactor <= calibrationFactor <= maxFactor)
    }

    constructor (minFactor: real := 0.5, maxFactor: real := 2.0, emaAlpha: real := 0.3)
      requires minFactor <= maxFactor
      ensures Valid() && calibrationFactor == 1.0
      ensures this.minFactor == minFactor && this.maxFactor == maxFactor && this.emaAlpha == emaAlpha
    {
      this.minFactor, this.maxFactor, this.emaAlpha := minFactor, maxFactor, emaAlpha;
      calibrationFactor := 1.0;
    }

    /** An exponential moving average of the ratio of used to estimated tokens, clamped. */
    method Calibrate(rawEstimatedTokens: int, actualInputTokens: int)
      requires Valid()
      modifies this
      ensures Valid()
      ensures rawEstimatedTokens <= 0 || actualInputTokens <= 0 ==> calibrationFactor == old(calibrationFactor)
      ensures rawEstimatedTokens > 0 && actualInputTokens > 0 ==>
                calibrationFactor
                  == Clamped(Blend(old(calibrationFactor), emaAlpha, rawEstimatedTokens, actualInputTokens), minFactor, maxFactor)
    {
      if rawEstimatedTokens <= 0 || actualInputTokens <= 0 {
        return;
      }
      var next := Blend(calibrationFactor, emaAlpha, rawEstimatedTokens, actualInputTokens);
      var raised := if next > minFactor then next else minFactor;
      calibrationFactor := if raised < maxFactor then raised else maxFactor;
    }

    method ResetCalibration()
      requires Valid()
      modifies this
      ensures Valid() && calibrationFactor == 1.0
    {
      calibrationFactor := 1.0;
    }
  }
}
