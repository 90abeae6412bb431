// Which failed replies are recovered from, how much context a request carries,
// and which messages an archive keeps (apps/agent/src/recovery.rs).
//
// `estimate` stands for `estimate_message_tokens`; verdicts of the error-text
// patterns are inputs.  Sums of 64-bit counters are not taken modulo 2^64.
module Recovery {
  import opened Basics
  import opened Protocol

  type Estimate = Message -> nat

  const MAX_RETRY_AFTER_MS: nat := 60_000
  const ARCHIVE_THRESHOLD_PERCENT: nat := 80
  const U64_MAX: nat := 0xffff_ffff_ffff_ffff

  // ----- How much context -----

  function ReportedTotal(u: Usage): nat {
    if u.total > 0 then u.total else u.input + u.output + u.cacheRead + u.cacheWrite
  }

  /** A reply whose reported usage may stand for everything up to it. */
  predicate UsableReport(m: Message) {
    m.Assistant? && !Failed(m) && m.usage.reported && ReportedTotal(m.usage) > 0
  }

  /** The latest usable report at or after `floor`. */
  function LastReport(ms: seq<Message>, floor: nat): (r: Option<nat>)
    ensures r.Some? ==> floor <= r.value < |ms| && UsableReport(ms[r.value])
    ensures forall i :: floor <= i < |ms| && UsableReport(ms[i]) ==> r.Some? && i <= r.value
  {
    if |ms| <= floor then None
    else if UsableReport(ms[|ms| - 1]) then Some(|ms| - 1)
    else LastReport(ms[..|ms| - 1], floor)
  }

  /** The estimates of the messages from index `a` up to `b`, summed. */
  function Cost(ms: seq<Message>, a: nat, b: nat, estimate: Estimate): nat
    requires b <= |ms|
    decreases b - a
  {
    if a >= b then 0 else estimate(ms[a]) + Cost(ms, a + 1, b, estimate)
  }

  function ContextTokens(ms: seq<Message>, floor: nat, overhead: nat, estimate: Estimate): nat {
    match LastReport(ms, floor)
    case Some(i) => ReportedTotal(ms[i].usage) + Cost(ms, i + 1, |ms|, estimate)
    case None => overhead + Cost(ms, 0, |ms|, estimate)
  }

  lemma {:induction false} CostAppend(ms: seq<Message>, m: Message, a: nat, b: nat, estimate: Estimate)
    requires a <= b <= |ms|
    ensures Cost(ms + [m], a, b, estimate) == Cost(ms, a, b, estimate)
    ensures b == |ms| ==> Cost(ms + [m], a, b + 1, estimate) == Cost(ms, a, b, estimate) + estimate(m)
    decreases b - a
  {
    if a < b {
      CostAppend(ms, m, a + 1, b, estimate);
    } else if b == |ms| {
      assert Cost(ms + [m], b + 1, b + 1, estimate) == 0;
    }
  }

  lemma LastReportAppend(ms: seq<Message>, m: Message, floor: nat)
    ensures LastReport(ms + [m], floor) == if floor <= |ms| && UsableReport(m) then Some(|ms|) else LastReport(ms, floor)
  {
    assert (ms + [m])[..|ms|] == ms;
  }

  /** A reply that did not fail and whose usage, as reported, is not zero. */
  ghost predicate Reports(m: Message) {
    && m.Assistant? && m.stopReason !in {Error, Aborted} && m.usage.reported
    && (m.usage.total > 0 || m.usage.input > 0 || m.usage.output > 0 || m.usage.cacheRead > 0 || m.usage.cacheWrite > 0)
  }

  /** An empty context carries the overhead alone. */
  lemma NothingCounts(floor: nat, overhead: nat, estimate: Estimate)
    ensures ContextTokens([], floor, overhead, estimate) == overhead
  {
  }

  /** A message without a report of its own adds exactly its estimate, whatever was reported before. */
  lemma MessageCounts(ms: seq<Message>, m: Message, floor: nat, overhead: nat, estimate: Estimate)
    requires !Reports(m) || |ms| < floor
    ensures ContextTokens(ms + [m], floor, overhead, estimate)
            == ContextTokens(ms, floor, overhead, estimate) + estimate(m)
  {
    LastReportAppend(ms, m, floor);
    match LastReport(ms, floor)
    case Some(i) => CostAppend(ms, m, i + 1, |ms|, estimate);
    case None => CostAppend(ms, m, 0, |ms|, estimate);
  }

  /** A report at or after the floor stands for everything up to it. */
  lemma ReportCounts(ms: seq<Message>, m: Message, floor: nat, overhead: nat, estimate: Estimate)
    requires Reports(m) && floor <= |ms|
    ensures ContextTokens(ms + [m], floor, overhead, estimate)
            == if m.usage.total > 0 then m.usage.total
               else m.usage.input + m.usage.output + m.usage.cacheRead + m.usage.cacheWrite
  {
    LastReportAppend(ms, m, floor);
    assert Cost(ms + [m], |ms| + 1, |ms| + 1, estimate) == 0;
  }

  function SaturatingMul(a: nat, b: nat): nat {
    if a * b > U64_MAX then U64_MAX else a * b
  }

  predicate OverThreshold(tokens: nat, window: Option<nat>) {
    window.Some? && window.value > 0 && SaturatingMul(tokens, 100) > window.value * ARCHIVE_THRESHOLD_PERCENT
  }

  /** Four fifths of the window, exactly; saturation changes nothing for windows of less than 2^57 tokens. */
  lemma ThresholdIsExact(tokens: nat, window: nat)
    requires 0 < window < 0x200_0000_0000_0000
    ensures OverThreshold(tokens, Some(window)) <==> 5 * tokens > 4 * window
    ensures !OverThreshold(tokens, None) && !OverThreshold(tokens, Some(0))
  {
  }

  // ----- Which failures -----

  /** `named`: the error text names the window and is not a throttling error. */
  predicate IsContextOverflow(m: Message, named: bool, window: Option<nat>) {
    && m.Assistant?
    && (|| (m.stopReason.Error? && m.errorMessage.Some? && named)
        || (&& window.Some? && window.value > 0
            && var input := m.usage.input + m.usage.cacheRead;
               match m.stopReason
               case Stop => input > window.value
               case Length => m.usage.output == 0 && 100 * input >= 99 * window.value
               case _ => false))
  }

  /** `nonRetryable` and `retryable` are the verdicts of the two error-text patterns. */
  predicate IsRetryable(m: Message, named: bool, nonRetryable: bool, retryable: bool,
                        status: Option<nat>, window: Option<nat>) {
    && m.Assistant? && m.stopReason.Error? && m.errorMessage.Some?
    && status != Some(401) && status != Some(403)
    && !IsContextOverflow(m, named, window)
    && !nonRetryable
    && (|| (status.Some? && (status.value in {408, 409, 425, 429} || 500 <= status.value <= 599))
        || retryable)
  }

  function RetryDelayMs(base: nat, attempt: nat, retryAfter: Option<nat>): nat {
    var doublings := if attempt == 0 then 0 else if attempt > 20 then 20 else attempt - 1;
    var backoff := SaturatingMul(base, Pow2(doublings));
    if retryAfter.None? then backoff
    else
      var requested := if retryAfter.value < MAX_RETRY_AFTER_MS then retryAfter.value else MAX_RETRY_AFTER_MS;
      if backoff < requested then requested else backoff
  }

  /** An error overflows when its text names the window; a reply that ended, when its input filled the window. */
  lemma OverflowMeans(m: Message, named: bool, window: Option<nat>)
    requires m.Assistant?
    ensures m.stopReason.Error? ==> (IsContextOverflow(m, named, window) <==> m.errorMessage.Some? && named)
    ensures m.stopReason.Stop? ==>
              (IsContextOverflow(m, named, window)
               <==> window.Some? && 0 < window.value < m.usage.input + m.usage.cacheRead)
    ensures m.stopReason.Length? ==>
              (IsContextOverflow(m, named, window)
               <==> window.Some? && window.value > 0 && m.usage.output == 0
                    && 99 * window.value <= 100 * (m.usage.input + m.usage.cacheRead))
    ensures m.stopReason in {Aborted, ToolUse, Pending} ==> !IsContextOverflow(m, named, window)
  {
  }

  /** Only errors are retried: never an overflow or an authentication failure, always a server's own trouble. */
  lemma RetryableMeans(m: Message, named: bool, nonRetryable: bool, retryable: bool, status: Option<nat>,
                       window: Option<nat>)
    requires m.Assistant?
    ensures IsRetryable(m, named, nonRetryable, retryable, status, window) ==>
              && m.stopReason.Error? && m.errorMessage.Some? && !named && !nonRetryable
              && (status.Some? ==> status.value !in {401, 403})
    ensures m.stopReason.Error? && m.errorMessage.Some? && !named && !nonRetryable ==>
              (status.Some? && (status.value in {408, 409, 425, 429} || 500 <= status.value < 600) ==>
                 IsRetryable(m, named, nonRetryable, retryable, status, window))
              && (!(status.Some? && (status.value in {401, 403, 408, 409, 425, 429} || 500 <= status.value < 600)) ==>
                    (IsRetryable(m, named, nonRetryable, retryable, status, window) <==> retryable))
  {
  }

  lemma PowDoubles(n: nat)
    ensures Pow2(n + 1) == 2 * Pow2(n)
  {
  }

  /** The wait doubles from one attempt to the next, twenty times at most and up to 64 bits. */
  lemma DelaysDouble(base: nat, attempt: nat)
    requires attempt > 0 && base <= U64_MAX
    ensures RetryDelayMs(base, 1, None) == base
    ensures var next := 2 * RetryDelayMs(base, attempt, None);
            RetryDelayMs(base, attempt + 1, None)
            == if attempt > 20 then RetryDelayMs(base, attempt, None) else if next > U64_MAX then U64_MAX else next
  {
    assert Pow2(0) == 1;
    if attempt <= 20 {
      PowDoubles(attempt - 1);
      assert base * Pow2(attempt) == 2 * (base * Pow2(attempt - 1));
    }
  }

  /** A provider's own wish is granted up to a minute, and never shortens the wait. */
  lemma DelayIsLengthened(base: nat, attempt: nat, wish: nat)
    ensures var own, delay := RetryDelayMs(base, attempt, None), RetryDelayMs(base, attempt, Some(wish));
            && own <= delay && (delay == own || delay == wish || delay == 60_000)
            && (wish <= 60_000 ==> wish <= delay) && (wish > 60_000 ==> 60_000 <= delay)
            && (own < delay ==> delay <= 60_000)
  {
  }

  // ----- Archives -----

  datatype Budget = Budget(projectionTokens: nat, tailTokens: nat)

  function BudgetForWindow(window: Option<nat>): Budget {
    var w := if window.Some? && window.value > 0 then window.value else 128_000;
    var projection := w * 35 / 100;
    var tail := w * 20 / 100;
    Budget(if projection < 2048 then 2048 else if projection > 24_000 then 24_000 else projection,
           if tail < 20_000 then tail else 20_000)
  }

  /**
   * A summary and a tail that use their budgets up stay under the threshold that
   * triggers the next archive, unless the window is smaller than 3413 tokens.
   */
  lemma BudgetsFit(window: nat)
    requires window > 0
    ensures var b := BudgetForWindow(Some(window));
            !OverThreshold(b.projectionTokens + b.tailTokens, Some(window)) <==> window >= 3413
  {
  }

  /** Shares of the window between fixed limits; an unknown window counts as 128 000 tokens. */
  lemma BudgetsAre(window: Option<nat>)
    ensures var b, w := BudgetForWindow(window), if window.Some? && window.value > 0 then window.value else 128_000;
            && 2048 <= b.projectionTokens <= 24_000 && b.tailTokens <= 20_000
            && (2048 < b.projectionTokens < 24_000 ==>
                  100 * b.projectionTokens <= 35 * w < 100 * b.projectionTokens + 100)
            && (b.projectionTokens == 2048 ==> 35 * w < 204_900) && (b.projectionTokens == 24_000 ==> 35 * w >= 2_400_000)
            && (b.tailTokens < 20_000 ==> 100 * b.tailTokens <= 20 * w < 100 * b.tailTokens + 100)
            && (b.tailTokens == 20_000 ==> 20 * w >= 2_000_000)
  {
  }

  const ASK_USER := "request_user_input"

  predicate AsksUser(m: Message) {
    m.ToolResult? && m.toolName == ASK_USER
  }

  predicate LegalCut(ms: seq<Message>, cut: nat) {
    && 0 < cut <= |ms|
    && (cut < |ms| ==> !ms[cut].ToolResult? && !(ms[cut].User? && AsksUser(ms[cut - 1])))
  }

  /** The start of the block that `pinned` cannot be cut from. */
  function PinStart(ms: seq<Message>, pinned: nat): (s: nat)
    ensures s <= pinned && (s == 0 || LegalCut(ms, s))
  {
    if pinned == 0 || LegalCut(ms, pinned) then pinned else PinStart(ms, pinned - 1)
  }

  lemma {:induction false} NoCutInPin(ms: seq<Message>, pinned: nat, c: nat)
    requires PinStart(ms, pinned) < c <= pinned
    ensures !LegalCut(ms, c)
  {
    if c < pinned {
      NoCutInPin(ms, pinned - 1, c);
    }
  }

  /** The first legal cut in `lo..=hi` after which, with `extra`, at most `tail` tokens remain. */
  function FirstCut(ms: seq<Message>, estimate: Estimate, lo: nat, hi: nat, extra: nat, tail: nat): (r: Option<nat>)
    requires hi <= |ms|
    ensures r.Some? ==> lo <= r.value <= hi && LegalCut(ms, r.value) && extra + Cost(ms, r.value, |ms|, estimate) <= tail
    decreases hi + 1 - lo
  {
    if lo > hi then None
    else if LegalCut(ms, lo) && extra + Cost(ms, lo, |ms|, estimate) <= tail then Some(lo)
    else FirstCut(ms, estimate, lo + 1, hi, extra, tail)
  }

  lemma {:induction false} FirstCutIsFirst(ms: seq<Message>, estimate: Estimate, lo: nat, hi: nat, extra: nat,
                                           tail: nat, c: nat)
    requires lo <= c <= hi <= |ms| && LegalCut(ms, c) && extra + Cost(ms, c, |ms|, estimate) <= tail
    ensures FirstCut(ms, estimate, lo, hi, extra, tail).Some?
    ensures FirstCut(ms, estimate, lo, hi, extra, tail).value <= c
    decreases c - lo
  {
    if lo < c {
      FirstCutIsFirst(ms, estimate, lo + 1, hi, extra, tail, c);
    }
  }

  function Range(lo: nat, hi: nat): (r: seq<nat>)
    requires lo <= hi
    ensures |r| == hi - lo && forall i :: 0 <= i < |r| ==> r[i] == lo + i
  {
    seq(hi - lo, i requires 0 <= i < hi - lo => lo + i)
  }

  /** What an archive keeps: a tail, or the pinned block and a tail after it. */
  datatype Shape = Tail(cut: nat) | PinAndTail(cut: nat)

  function PlanShape(ms: seq<Message>, pinned: nat, tail: nat, estimate: Estimate): (r: Shape)
    requires pinned < |ms|
    ensures r.Tail? ==> 0 < r.cut <= PinStart(ms, pinned) && LegalCut(ms, r.cut)
    ensures r.PinAndTail? ==> pinned < r.cut <= |ms| && LegalCut(ms, r.cut)
  {
    var start := PinStart(ms, pinned);
    match FirstCut(ms, estimate, 1, start, 0, tail)
    case Some(cut) => Tail(cut)
    case None =>
      match FirstCut(ms, estimate, pinned + 1, |ms|, Cost(ms, start, pinned + 1, estimate), tail)
      case Some(cut) => PinAndTail(cut)
      case None => PinAndTail(|ms|)
  }

  function KeptBy(ms: seq<Message>, pinned: nat, shape: Shape): (r: seq<nat>)
    requires pinned < |ms| && shape.cut <= |ms|
    requires shape.PinAndTail? ==> pinned < shape.cut
  {
    if shape.Tail? then Range(shape.cut, |ms|)
    else Range(PinStart(ms, pinned), pinned + 1) + Range(shape.cut, |ms|)
  }

  function Plan(ms: seq<Message>, pinned: nat, tail: nat, estimate: Estimate): Option<seq<nat>> {
    if pinned >= |ms| then None
    else
      var kept := KeptBy(ms, pinned, PlanShape(ms, pinned, tail, estimate));
      if |kept| < |ms| then Some(kept) else None
  }

  lemma {:induction false} CostBetween(ms: seq<Message>, a: nat, b: nat, c: nat, estimate: Estimate)
    requires a <= b <= c <= |ms|
    ensures Cost(ms, a, c, estimate) == Cost(ms, a, b, estimate) + Cost(ms, b, c, estimate)
    decreases b - a
  {
    if a < b {
      CostBetween(ms, a + 1, b, c, estimate);
    }
  }

  /** `cost_from`: what the messages from each index on cost together. */
  method SuffixCosts(ms: seq<Message>, estimate: Estimate) returns (costFrom: array<nat>)
    ensures fresh(costFrom) && costFrom.Length == |ms| + 1
    ensures forall k {:trigger costFrom[k]} :: 0 <= k <= |ms| ==> costFrom[k] == Cost(ms, k, |ms|, estimate)
  {
    costFrom := new nat[|ms| + 1](_ => 0);
    var index := |ms|;
    while index > 0
      invariant 0 <= index <= |ms|
      invariant forall k {:trigger costFrom[k]} :: index <= k <= |ms| ==> costFrom[k] == Cost(ms, k, |ms|, estimate)
    {
      index := index - 1;
      costFrom[index] := costFrom[index + 1] + estimate(ms[index]);
    }
  }

  /** `(lo..=hi).find(..)`, against the table of suffix costs. */
  method FindCut(ms: seq<Message>, costFrom: array<nat>, lo: nat, hi: nat, extra: nat, tail: nat, ghost estimate: Estimate)
    returns (r: Option<nat>)
    requires hi <= |ms| && costFrom.Length == |ms| + 1
    requires forall k {:trigger costFrom[k]} :: 0 <= k <= |ms| ==> costFrom[k] == Cost(ms, k, |ms|, estimate)
    ensures r == FirstCut(ms, estimate, lo, hi, extra, tail)
  {
    var cut := lo;
    while cut <= hi
      invariant lo <= cut
      invariant FirstCut(ms, estimate, lo, hi, extra, tail) == FirstCut(ms, estimate, cut, hi, extra, tail)
    {
      if LegalCut(ms, cut) && extra + costFrom[cut] <= tail {
        return Some(cut);
      }
      cut := cut + 1;
    }
    r := None;
  }

  method WalkToPinStart(ms: seq<Message>, pinned: nat) returns (pinStart: nat)
    ensures pinStart == PinStart(ms, pinned)
  {
    pinStart := pinned;
    while pinStart > 0 && !LegalCut(ms, pinStart)
      invariant PinStart(ms, pinStart) == PinStart(ms, pinned)
    {
      pinStart := pinStart - 1;
    }
  }

  /** The two searches of `plan_archive`. */
  method FindShape(ms: seq<Message>, pinned: nat, pinStart: nat, tail: nat, estimate: Estimate) returns (shape: Shape)
    requires pinned < |ms| && pinStart == PinStart(ms, pinned)
    ensures shape == PlanShape(ms, pinned, tail, estimate)
  {
    var costFrom := SuffixCosts(ms, estimate);
    var cut := FindCut(ms, costFrom, 1, pinStart, 0, tail, estimate);
    if cut.Some? {
      return Tail(cut.value);
    }
    CostBetween(ms, pinStart, pinned + 1, |ms|, estimate);
    var pinnedCost: nat := costFrom[pinStart] - costFrom[pinned + 1];
    assert pinnedCost == Cost(ms, pinStart, pinned + 1, estimate);
    cut := FindCut(ms, costFrom, pinned + 1, |ms|, pinnedCost, tail, estimate);
    shape := PinAndTail(if cut.Some? then cut.value else |ms|);
  }

  /** `plan_archive`: walks to the start of the pinned block, then searches both shapes. */
  method PlanArchive(ms: seq<Message>, pinned: nat, tail: nat, estimate: Estimate) returns (plan: Option<seq<nat>>)
    ensures plan == Plan(ms, pinned, tail, estimate)
  {
    var len := |ms|;
    if pinned >= len {
      return None;
    }
    var pinStart := WalkToPinStart(ms, pinned);
    var shape := FindShape(ms, pinned, pinStart, tail, estimate);
    match shape {
      case Tail(cut) =>
        plan := Some(Range(cut, len));
      case PinAndTail(cut) =>
        var kept := Range(pinStart, pinned + 1) + Range(cut, len);
        plan := if |kept| < len then Some(kept) else None;
    }
  }

  // ----- What the plan guarantees -----

  /** `shape` keeps the message at `i`. */
  predicate Keeps(ms: seq<Message>, pinned: nat, shape: Shape, i: nat)
    requires pinned < |ms|
  {
    i < |ms| && (i >= shape.cut || (shape.PinAndTail? && PinStart(ms, pinned) <= i <= pinned))
  }

  /** The shapes an archive may choose from, whatever they cost. */
  predicate Allowed(ms: seq<Message>, pinned: nat, shape: Shape)
    requires pinned < |ms|
  {
    && LegalCut(ms, shape.cut)
    && if shape.Tail? then shape.cut <= PinStart(ms, pinned) else pinned < shape.cut
  }

  function ShapeCost(ms: seq<Message>, pinned: nat, shape: Shape, estimate: Estimate): nat
    requires pinned < |ms| && Allowed(ms, pinned, shape)
  {
    Cost(ms, shape.cut, |ms|, estimate)
    + if shape.Tail? then 0 else Cost(ms, PinStart(ms, pinned), pinned + 1, estimate)
  }

  ghost predicate Ascending(s: seq<nat>) {
    forall i, j :: 0 <= i < j < |s| ==> s[i] < s[j]
  }

  lemma KeptIsShape(ms: seq<Message>, pinned: nat, shape: Shape)
    requires pinned < |ms| && Allowed(ms, pinned, shape)
    ensures var kept := KeptBy(ms, pinned, shape);
            Ascending(kept) && forall i: nat :: i in kept <==> Keeps(ms, pinned, shape, i)
  {
    var kept := KeptBy(ms, pinned, shape);
    var start := PinStart(ms, pinned);
    forall i: nat | Keeps(ms, pinned, shape, i) ensures i in kept {
      if shape.Tail? {
        assert kept[i - shape.cut] == i;
      } else if i >= shape.cut {
        assert kept[pinned + 1 - start + i - shape.cut] == i;
      } else {
        assert kept[i - start] == i;
      }
    }
  }

  /** A plan keeps a person's answer only together with the question before it. */
  lemma AnswersKeepQuestions(ms: seq<Message>, pinned: nat, tail: nat, estimate: Estimate, i: nat)
    requires Plan(ms, pinned, tail, estimate).Some? && pinned < |ms|
    requires 0 < i < |ms| && i in Plan(ms, pinned, tail, estimate).value
    requires ms[i].User? && ms[i - 1].ToolResult? && ms[i - 1].toolName == "request_user_input"
    ensures i - 1 in Plan(ms, pinned, tail, estimate).value
  {
    var shape := PlanShape(ms, pinned, tail, estimate);
    KeptIsShape(ms, pinned, shape);
    assert Keeps(ms, pinned, shape, i);
    assert Keeps(ms, pinned, shape, i - 1);
  }

  lemma {:induction false} RangeCost(ms: seq<Message>, lo: nat, hi: nat, estimate: Estimate)
    requires lo <= hi <= |ms|
    ensures KeptCost(ms, Range(lo, hi), estimate) == Cost(ms, lo, hi, estimate)
    decreases hi - lo
  {
    if lo < hi {
      assert Range(lo, hi)[1..] == Range(lo + 1, hi);
      RangeCost(ms, lo + 1, hi, estimate);
    }
  }

  function KeptCost(ms: seq<Message>, kept: seq<nat>, estimate: Estimate): nat
    requires forall i :: 0 <= i < |kept| ==> kept[i] < |ms|
  {
    if kept == [] then 0 else estimate(ms[kept[0]]) + KeptCost(ms, kept[1..], estimate)
  }

  lemma {:induction false} KeptCostConcat(ms: seq<Message>, a: seq<nat>, b: seq<nat>, estimate: Estimate)
    requires forall i :: 0 <= i < |a| ==> a[i] < |ms|
    requires forall i :: 0 <= i < |b| ==> b[i] < |ms|
    ensures KeptCost(ms, a + b, estimate) == KeptCost(ms, a, estimate) + KeptCost(ms, b, estimate)
  {
    if a == [] {
      assert a + b == b;
    } else {
      KeptCostConcat(ms, a[1..], b, estimate);
      assert (a + b)[1..] == a[1..] + b;
    }
  }

  /** A plan is a proper subset of the context that holds the whole pinned block, in order. */
  lemma PlanIsProper(ms: seq<Message>, pinned: nat, tail: nat, estimate: Estimate)
    requires Plan(ms, pinned, tail, estimate).Some?
    ensures pinned < |ms|
    ensures var kept := Plan(ms, pinned, tail, estimate).value;
            && Ascending(kept) && |kept| < |ms|
            && (forall i :: 0 <= i < |kept| ==> kept[i] < |ms|)
            && (forall i: nat :: PinStart(ms, pinned) <= i <= pinned ==> i in kept)
  {
    var shape := PlanShape(ms, pinned, tail, estimate);
    KeptIsShape(ms, pinned, shape);
    forall i: nat | PinStart(ms, pinned) <= i <= pinned ensures i in KeptBy(ms, pinned, shape) {
      assert Keeps(ms, pinned, shape, i);
    }
  }

  /** A plan stays within the tail budget, unless the pinned block alone exceeds it. */
  lemma PlanCost(ms: seq<Message>, pinned: nat, tail: nat, estimate: Estimate)
    requires Plan(ms, pinned, tail, estimate).Some?
    ensures var kept := Plan(ms, pinned, tail, estimate).value;
            var pinCost := Cost(ms, PinStart(ms, pinned), pinned + 1, estimate);
            && (forall i :: 0 <= i < |kept| ==> kept[i] < |ms|)
            && (KeptCost(ms, kept, estimate) <= tail || KeptCost(ms, kept, estimate) == pinCost)
  {
    var shape := PlanShape(ms, pinned, tail, estimate);
    var start := PinStart(ms, pinned);
    RangeCost(ms, shape.cut, |ms|, estimate);
    if shape.PinAndTail? {
      RangeCost(ms, start, pinned + 1, estimate);
      KeptCostConcat(ms, Range(start, pinned + 1), Range(shape.cut, |ms|), estimate);
    }
  }

  /** No allowed choice within the budget keeps a message the plan drops. */
  lemma PlanIsLargest(ms: seq<Message>, pinned: nat, tail: nat, estimate: Estimate, other: Shape, i: nat)
    requires pinned < |ms| && Allowed(ms, pinned, other)
    requires ShapeCost(ms, pinned, other, estimate) <= tail && Keeps(ms, pinned, other, i)
    ensures Keeps(ms, pinned, PlanShape(ms, pinned, tail, estimate), i)
  {
    var start := PinStart(ms, pinned);
    if other.Tail? {
      FirstCutIsFirst(ms, estimate, 1, start, 0, tail, other.cut);
    } else if FirstCut(ms, estimate, 1, start, 0, tail).None? {
      FirstCutIsFirst(ms, estimate, pinned + 1, |ms|, Cost(ms, start, pinned + 1, estimate), tail, other.cut);
    }
  }

  /** A bigger budget never loses a message. */
  lemma PlanGrows(ms: seq<Message>, pinned: nat, tail: nat, tail': nat, estimate: Estimate, i: nat)
    requires pinned < |ms| && tail <= tail'
    requires Keeps(ms, pinned, PlanShape(ms, pinned, tail, estimate), i)
    ensures Keeps(ms, pinned, PlanShape(ms, pinned, tail', estimate), i)
  {
    var shape := PlanShape(ms, pinned, tail, estimate);
    if ShapeCost(ms, pinned, shape, estimate) <= tail' {
      PlanIsLargest(ms, pinned, tail', estimate, shape, i);
    }
  }

  /** The plan gives up exactly when everything would be kept. */
  lemma PlanGivesUp(ms: seq<Message>, pinned: nat, tail: nat, estimate: Estimate)
    requires pinned < |ms|
    ensures Plan(ms, pinned, tail, estimate).None?
            <==> forall i: nat :: i < |ms| ==> Keeps(ms, pinned, PlanShape(ms, pinned, tail, estimate), i)
  {
    var shape := PlanShape(ms, pinned, tail, estimate);
    if shape.Tail? {
      assert !Keeps(ms, pinned, shape, 0);
    } else if PinStart(ms, pinned) > 0 {
      assert !Keeps(ms, pinned, shape, 0);
    } else if pinned + 1 < shape.cut {
      assert !Keeps(ms, pinned, shape, pinned + 1);
    }
  }
}
