// What a provider is sent instead of the raw context
// (apps/agent/src/provider/transform.rs): failed replies go, thinking and call
// ids are fitted to the model that is asked, and calls and results are matched.
//
// `same[i]` says that the model that is asked wrote the message at `i`; the id
// normaliser of the provider is an arbitrary function.
module Transform {
  import opened Basics
  import opened Protocol

  const NO_RESULT_TEXT := "No result provided"

  type Rename = string -> string

  // ----- The first pass: each message on its own -----

  /** A block of a reply as the model that is asked sees it. */
  function Shown(b: Content, same: bool, rename: Rename): Option<Content> {
    match b
    case Thinking(thinking, signature, redacted) =>
      if redacted then if same then Some(b) else None
      else if same && signature.Some? && signature.value != "" then Some(b)
      else if Blank(thinking) then None
      else if same then Some(b)
      else Some(Text(thinking))
    case ToolCall(id, name, arguments) => if same then Some(b) else Some(ToolCall(rename(id), name, arguments))
    case Text(_) => Some(b)
  }

  function ShownAll(content: seq<Content>, same: bool, rename: Rename): seq<Content> {
    if content == [] then []
    else
      var first := Shown(content[0], same, rename);
      (if first.Some? then [first.value] else []) + ShownAll(content[1..], same, rename)
  }

  function Renamed(calls: seq<Call>, same: bool, rename: Rename): (r: seq<Call>)
    ensures |r| == |calls|
  {
    if same then calls
    else seq(|calls|, i requires 0 <= i < |calls| => calls[i].(id := rename(calls[i].id)))
  }

  /** Ids that changed, by the calls of another model's reply. */
  function Learned(ids: map<string, string>, calls: seq<Call>, rename: Rename): map<string, string> {
    if calls == [] then ids
    else
      var n := |calls| - 1;
      var before := Learned(ids, calls[..n], rename);
      if rename(calls[n].id) == calls[n].id then before else before[calls[n].id := rename(calls[n].id)]
  }

  datatype Cleaned = Cleaned(out: seq<Message>, ids: map<string, string>)

  function CleanOne(c: Cleaned, m: Message, same: bool, rename: Rename): Cleaned {
    match m
    case User(_, _) => c.(out := c.out + [m])
    case Assistant(content, _, _, _) =>
      if Failed(m) then c
      else Cleaned(c.out + [m.(content := ShownAll(content, same, rename))],
                   if same then c.ids else Learned(c.ids, CallsIn(content), rename))
    case ToolResult(callId, _, _, _) =>
      c.(out := c.out + [if callId in c.ids then m.(callId := c.ids[callId]) else m])
  }

  function Clean(ms: seq<Message>, same: seq<bool>, rename: Rename): Cleaned
    requires |same| == |ms|
  {
    if ms == [] then Cleaned([], map[])
    else
      var n := |ms| - 1;
      CleanOne(Clean(ms[..n], same[..n], rename), ms[n], same[n], rename)
  }

  // ----- The second pass: calls and results -----

  predicate HasCall(calls: seq<Call>, id: string) {
    exists i :: 0 <= i < |calls| && calls[i].id == id
  }

  /** What is made up for the calls that nothing answered. */
  function Missing(calls: seq<Call>, answered: set<string>): seq<Message> {
    if calls == [] then []
    else
      var n := |calls| - 1;
      Missing(calls[..n], answered)
      + if calls[n].id in answered then []
        else [ToolResult(calls[n].id, calls[n].name, [Text(NO_RESULT_TEXT)], true)]
  }

  datatype Matching = Matching(out: seq<Message>, pending: seq<Call>, answered: set<string>)

  function Flushed(p: Matching): Matching {
    Matching(p.out + Missing(p.pending, p.answered), [], {})
  }

  function MatchOne(p: Matching, m: Message): Matching {
    match m
    case ToolResult(callId, _, _, _) =>
      if HasCall(p.pending, callId) && callId !in p.answered
      then p.(out := p.out + [m], answered := p.answered + {callId})
      else p
    case Assistant(_, _, _, _) => Matching(Flushed(p).out + [m], ToolCalls(m), {})
    case User(_, _) => Matching(Flushed(p).out + [m], [], {})
  }

  function Matched(ms: seq<Message>): Matching {
    if ms == [] then Matching([], [], {}) else MatchOne(Matched(ms[..|ms| - 1]), ms[|ms| - 1])
  }

  /** `pair_tool_results` */
  function PairResults(ms: seq<Message>): seq<Message> {
    Flushed(Matched(ms)).out
  }

  // ----- What a provider accepts -----

  /** A message that is not a result, and the results right after it. */
  datatype Exchange = Exchange(opener: Message, results: seq<Message>)

  function Flatten(es: seq<Exchange>): seq<Message> {
    if es == [] then []
    else
      var n := |es| - 1;
      Flatten(es[..n]) + [es[n].opener] + es[n].results
  }

  predicate HasResult(results: seq<Message>, id: string) {
    exists i :: 0 <= i < |results| && results[i].ToolResult? && results[i].callId == id
  }

  predicate DistinctCalls(calls: seq<Call>) {
    forall i, j :: 0 <= i < j < |calls| ==> calls[i].id != calls[j].id
  }

  predicate DistinctResults(results: seq<Message>) {
    forall i, j :: 0 <= i < j < |results| && results[i].ToolResult? && results[j].ToolResult? ==>
                     results[i].callId != results[j].callId
  }

  /** Only results of the opener's calls, one at least for each, and never two when their ids differ. */
  ghost predicate Served(e: Exchange) {
    var calls := ToolCalls(e.opener);
    && !e.opener.ToolResult?
    && (forall i :: 0 <= i < |e.results| ==> e.results[i].ToolResult? && HasCall(calls, e.results[i].callId))
    && (forall k :: 0 <= k < |calls| ==> HasResult(e.results, calls[k].id))
    && (DistinctCalls(calls) ==> DistinctResults(e.results))
  }

  ghost predicate AllServed(es: seq<Exchange>) {
    forall i :: 0 <= i < |es| ==> Served(es[i]) && !Failed(es[i].opener)
  }

  ghost predicate Acceptable(ms: seq<Message>) {
    exists es :: AllServed(es) && ms == Flatten(es)
  }

  // ----- The scanner repairs exchange after exchange -----

  /** The exchanges of a list; results before the first opener belong to none. */
  function Exchanges(ms: seq<Message>): seq<Exchange> {
    if ms == [] then []
    else
      var before, m := Exchanges(ms[..|ms| - 1]), ms[|ms| - 1];
      if !m.ToolResult? then before + [Exchange(m, [])]
      else if before == [] then []
      else before[..|before| - 1] + [Longer(before[|before| - 1], m)]
  }

  function Longer(e: Exchange, m: Message): Exchange {
    e.(results := e.results + [m])
  }

  /** The first result for each of `calls`. */
  function FirstAnswers(results: seq<Message>, calls: seq<Call>): seq<Message> {
    if results == [] then []
    else
      var before, m := FirstAnswers(results[..|results| - 1], calls), results[|results| - 1];
      if m.ToolResult? && HasCall(calls, m.callId) && m.callId !in IdsOf(before) then before + [m] else before
  }

  function IdsOf(results: seq<Message>): set<string> {
    if results == [] then {}
    else
      var m := results[|results| - 1];
      IdsOf(results[..|results| - 1]) + if m.ToolResult? then {m.callId} else {}
  }

  function Repaired(e: Exchange): Exchange {
    var calls := ToolCalls(e.opener);
    var first := FirstAnswers(e.results, calls);
    Exchange(e.opener, first + Missing(calls, IdsOf(first)))
  }

  function RepairedAll(es: seq<Exchange>): (r: seq<Exchange>)
    ensures |r| == |es|
  {
    seq(|es|, i requires 0 <= i < |es| => Repaired(es[i]))
  }

  lemma FlattenAppend(es: seq<Exchange>, e: Exchange)
    ensures Flatten(es + [e]) == Flatten(es) + [e.opener] + e.results
  {
    assert (es + [e])[..|es|] == es;
  }

  lemma IdsAppend(results: seq<Message>, m: Message)
    ensures IdsOf(results + [m]) == IdsOf(results) + if m.ToolResult? then {m.callId} else {}
  {
    assert (results + [m])[..|results|] == results;
  }

  /** Midway, the scanner has repaired every exchange but the last, which is still open. */
  ghost predicate Scanned(p: Matching, es: seq<Exchange>) {
    if es == [] then p == Matching([], [], {})
    else
      var k := |es| - 1;
      var calls := ToolCalls(es[k].opener);
      var first := FirstAnswers(es[k].results, calls);
      p == Matching(Flatten(RepairedAll(es[..k])) + [es[k].opener] + first, calls, IdsOf(first))
  }

  lemma NothingToRepair()
    ensures RepairedAll([]) == [] && Flatten([]) == []
  {
  }

  lemma RepairedAppend(es: seq<Exchange>, e: Exchange)
    ensures RepairedAll(es + [e]) == RepairedAll(es) + [Repaired(e)]
  {
  }

  lemma FlushRepairs(p: Matching, es: seq<Exchange>)
    requires Scanned(p, es)
    ensures Flushed(p).out == Flatten(RepairedAll(es))
  {
    hide FirstAnswers, IdsOf, ToolCalls, RepairedAll, Flatten;
    if es == [] {
      assert RepairedAll([]) == [] && Flatten([]) == [] by {
        NothingToRepair();
      }
    } else {
      var k := |es| - 1;
      assert es == es[..k] + [es[k]];
      RepairedAppend(es[..k], es[k]);
      FlattenAppend(RepairedAll(es[..k]), Repaired(es[k]));
    }
  }

  lemma {:induction false} ScanRepairs(ms: seq<Message>)
    ensures Scanned(Matched(ms), Exchanges(ms))
  {
    hide Scanned, MatchOne;
    if ms == [] {
      ScansNothing();
    } else {
      var before, m := ms[..|ms| - 1], ms[|ms| - 1];
      ScanRepairs(before);
      var p, es := Matched(before), Exchanges(before);
      if !m.ToolResult? {
        NextOpener(p, es, m);
      } else if es == [] {
        StrayResult(p, m);
      } else {
        OneMoreResult(p, es, m);
      }
    }
  }

  lemma ScansNothing()
    ensures Scanned(Matching([], [], {}), [])
  {
  }

  lemma StrayResult(p: Matching, m: Message)
    requires Scanned(p, []) && m.ToolResult?
    ensures Scanned(MatchOne(p, m), [])
  {
  }

  lemma NextOpener(p: Matching, es: seq<Exchange>, m: Message)
    requires Scanned(p, es) && !m.ToolResult?
    ensures Scanned(MatchOne(p, m), es + [Exchange(m, [])])
  {
    hide RepairedAll, Flatten, CallsIn;
    FlushRepairs(p, es);
    assert (es + [Exchange(m, [])])[..|es|] == es;
    assert FirstAnswers([], ToolCalls(m)) == [] && IdsOf([]) == {};
  }

  lemma FirstAnswersAppend(results: seq<Message>, m: Message, calls: seq<Call>)
    ensures var before := FirstAnswers(results, calls);
            FirstAnswers(results + [m], calls)
            == if m.ToolResult? && HasCall(calls, m.callId) && m.callId !in IdsOf(before) then before + [m] else before
  {
    assert (results + [m])[..|results|] == results;
  }

  lemma OneMoreResult(p: Matching, es: seq<Exchange>, m: Message)
    requires es != [] && Scanned(p, es) && m.ToolResult?
    ensures Scanned(MatchOne(p, m), es[..|es| - 1] + [Longer(es[|es| - 1], m)])
  {
    hide FirstAnswers, IdsOf, HasCall, RepairedAll, Flatten, ToolCalls;
    var k := |es| - 1;
    var last := es[k];
    assert (es[..k] + [Longer(last, m)])[..k] == es[..k];
    FirstAnswersAppend(last.results, m, ToolCalls(last.opener));
    IdsAppend(FirstAnswers(last.results, ToolCalls(last.opener)), m);
  }

  /** One scan over the list is the repair of each exchange on its own. */
  lemma PairingRepairs(ms: seq<Message>)
    ensures PairResults(ms) == Flatten(RepairedAll(Exchanges(ms)))
  {
    ScanRepairs(ms);
    FlushRepairs(Matched(ms), Exchanges(ms));
  }

  // ----- Whatever the context was, what is sent is acceptable -----

  lemma {:induction false} FirstAnswersShape(results: seq<Message>, calls: seq<Call>)
    ensures var first := FirstAnswers(results, calls);
            && (forall i :: 0 <= i < |first| ==> first[i].ToolResult? && HasCall(calls, first[i].callId))
            && DistinctResults(first) && |first| <= |results|
  {
    if results != [] {
      var before, m := FirstAnswers(results[..|results| - 1], calls), results[|results| - 1];
      FirstAnswersShape(results[..|results| - 1], calls);
      forall i | 0 <= i < |before| && before[i].ToolResult? ensures before[i].callId in IdsOf(before) {
        IdsHold(before, i);
      }
    }
  }

  lemma {:induction false} IdsHold(results: seq<Message>, i: nat)
    requires i < |results| && results[i].ToolResult?
    ensures results[i].callId in IdsOf(results)
  {
    if i < |results| - 1 {
      IdsHold(results[..|results| - 1], i);
    }
  }

  lemma {:induction false} IdsComeFrom(results: seq<Message>, id: string)
    ensures id in IdsOf(results) <==> HasResult(results, id)
  {
    if results != [] {
      var n := |results| - 1;
      IdsComeFrom(results[..n], id);
      if HasResult(results[..n], id) {
        var i :| 0 <= i < n && results[..n][i].ToolResult? && results[..n][i].callId == id;
        assert results[i] == results[..n][i];
      }
      if HasResult(results, id) {
        var i :| 0 <= i < |results| && results[i].ToolResult? && results[i].callId == id;
        assert i < n ==> results[..n][i] == results[i];
      }
    }
  }

  lemma {:induction false} MissingShape(calls: seq<Call>, answered: set<string>)
    ensures var made := Missing(calls, answered);
            && (forall i :: 0 <= i < |made| ==>
                  made[i].ToolResult? && HasCall(calls, made[i].callId) && made[i].callId !in answered)
            && (forall k :: 0 <= k < |calls| ==> calls[k].id in answered || HasResult(made, calls[k].id))
            && (DistinctCalls(calls) ==> DistinctResults(made))
  {
    if calls != [] {
      var n := |calls| - 1;
      var before, made := Missing(calls[..n], answered), Missing(calls, answered);
      MissingShape(calls[..n], answered);
      forall i | 0 <= i < |before| ensures HasCall(calls[..n], before[i].callId) && HasCall(calls, before[i].callId) {
        var k :| 0 <= k < n && calls[..n][k].id == before[i].callId;
        assert calls[k].id == before[i].callId;
      }
      forall k | 0 <= k < n ensures calls[k].id in answered || HasResult(made, calls[k].id) {
        assert calls[..n][k] == calls[k];
        if calls[k].id !in answered {
          var i :| 0 <= i < |before| && before[i].ToolResult? && before[i].callId == calls[k].id;
          assert made[i] == before[i];
        }
      }
      if calls[n].id !in answered {
        assert made[|before|].callId == calls[n].id;
      }
    }
  }

  /** A repaired exchange answers each of its calls and nothing else. */
  lemma RepairServes(e: Exchange)
    requires !e.opener.ToolResult?
    ensures Served(Repaired(e))
  {
    var calls := ToolCalls(e.opener);
    var first := FirstAnswers(e.results, calls);
    var made := Missing(calls, IdsOf(first));
    hide HasCall;
    FirstAnswersShape(e.results, calls);
    MissingShape(calls, IdsOf(first));
    forall k | 0 <= k < |calls| ensures HasResult(first + made, calls[k].id) {
      IdsComeFrom(first, calls[k].id);
      if calls[k].id in IdsOf(first) {
        var i :| 0 <= i < |first| && first[i].ToolResult? && first[i].callId == calls[k].id;
        assert (first + made)[i] == first[i];
      } else {
        var i :| 0 <= i < |made| && made[i].ToolResult? && made[i].callId == calls[k].id;
        assert (first + made)[|first| + i] == made[i];
      }
    }
    forall i | 0 <= i < |first| ensures first[i].callId in IdsOf(first) {
      IdsHold(first, i);
    }
    forall i | 0 <= i < |first + made|
      ensures (first + made)[i].ToolResult? && HasCall(calls, (first + made)[i].callId)
    {
      assert i < |first| ==> (first + made)[i] == first[i];
      assert i >= |first| ==> (first + made)[i] == made[i - |first|];
    }
  }

  ghost predicate NoneFailed(ms: seq<Message>) {
    forall i :: 0 <= i < |ms| ==> !Failed(ms[i])
  }

  lemma {:induction false} Openers(ms: seq<Message>)
    requires NoneFailed(ms)
    ensures forall i :: 0 <= i < |Exchanges(ms)| ==>
                          !Exchanges(ms)[i].opener.ToolResult? && !Failed(Exchanges(ms)[i].opener)
  {
    if ms != [] {
      Openers(ms[..|ms| - 1]);
    }
  }

  lemma PairingServes(ms: seq<Message>)
    requires NoneFailed(ms)
    ensures Acceptable(PairResults(ms))
  {
    var es := RepairedAll(Exchanges(ms));
    PairingRepairs(ms);
    Openers(ms);
    forall i | 0 <= i < |es| ensures Served(es[i]) && !Failed(es[i].opener) {
      RepairServes(Exchanges(ms)[i]);
    }
  }

  lemma {:induction false} CleanHasNoFailures(ms: seq<Message>, same: seq<bool>, rename: Rename)
    requires |same| == |ms|
    ensures NoneFailed(Clean(ms, same, rename).out)
  {
    if ms != [] {
      var n := |ms| - 1;
      CleanHasNoFailures(ms[..n], same[..n], rename);
    }
  }

  // ----- A closed context needs no repair, unless a reply uses an id twice -----

  lemma {:induction false} MissingNone(calls: seq<Call>, answered: set<string>)
    requires forall k :: 0 <= k < |calls| ==> calls[k].id in answered
    ensures Missing(calls, answered) == []
  {
    if calls != [] {
      MissingNone(calls[..|calls| - 1], answered);
    }
  }

  lemma {:induction false} FirstAnswersCover(results: seq<Message>, calls: seq<Call>, k: nat)
    requires k < |results| && results[k].ToolResult? && HasCall(calls, results[k].callId)
    ensures results[k].callId in IdsOf(FirstAnswers(results, calls))
  {
    var before, m := FirstAnswers(results[..|results| - 1], calls), results[|results| - 1];
    IdsAppend(before, m);
    if k < |results| - 1 {
      FirstAnswersCover(results[..|results| - 1], calls, k);
    }
  }

  lemma {:induction false} FullFirstAnswers(results: seq<Message>, calls: seq<Call>)
    requires |FirstAnswers(results, calls)| == |results|
    ensures FirstAnswers(results, calls) == results
  {
    if results != [] {
      var n := |results| - 1;
      FirstAnswersShape(results[..n], calls);
      FullFirstAnswers(results[..n], calls);
    }
  }

  lemma {:induction false} DistinctAreFirst(results: seq<Message>, calls: seq<Call>, n: nat)
    requires AllAnswer(results, calls) && DistinctCalls(calls) && n <= |calls|
    ensures FirstAnswers(results[..n], calls) == results[..n]
  {
    if n > 0 {
      var before, m := results[..n - 1], results[n - 1];
      DistinctAreFirst(results, calls, n - 1);
      assert results[..n][..n - 1] == before && results[..n] == before + [m];
      assert Answers(m, calls[n - 1]);
      IdsComeFrom(before, m.callId);
      forall i | 0 <= i < |before| ensures before[i].ToolResult? && before[i].callId != m.callId {
        assert Answers(results[i], calls[i]);
      }
    }
  }

  /** A full exchange can only shrink, and is left alone exactly when its ids are distinct. */
  lemma FullExchange(e: Exchange)
    requires AllAnswer(e.results, ToolCalls(e.opener))
    ensures |Repaired(e).results| <= |e.results|
    ensures |Repaired(e).results| == |e.results| <==> DistinctCalls(ToolCalls(e.opener))
    ensures DistinctCalls(ToolCalls(e.opener)) ==> Repaired(e) == e
  {
    var calls := ToolCalls(e.opener);
    var first := FirstAnswers(e.results, calls);
    FirstAnswersShape(e.results, calls);
    forall k | 0 <= k < |calls| ensures calls[k].id in IdsOf(first) {
      assert Answers(e.results[k], calls[k]);
      FirstAnswersCover(e.results, calls, k);
    }
    MissingNone(calls, IdsOf(first));
    if DistinctCalls(calls) {
      DistinctAreFirst(e.results, calls, |calls|);
      assert e.results[..|calls|] == e.results;
    }
    if |first| == |e.results| {
      FullFirstAnswers(e.results, calls);
      forall i, j | 0 <= i < j < |calls| ensures calls[i].id != calls[j].id {
        assert Answers(e.results[i], calls[i]) && Answers(e.results[j], calls[j]);
      }
    }
  }

  ghost predicate AllFull(es: seq<Exchange>) {
    forall i :: 0 <= i < |es| ==> AllAnswer(es[i].results, ToolCalls(es[i].opener))
  }

  ghost predicate DistinctIn(e: Exchange) {
    DistinctCalls(ToolCalls(e.opener))
  }

  ghost predicate AllDistinct(es: seq<Exchange>) {
    forall i :: 0 <= i < |es| ==> DistinctIn(es[i])
  }

  lemma {:induction false} RepairShrinks(es: seq<Exchange>)
    requires AllFull(es)
    ensures |Flatten(RepairedAll(es))| <= |Flatten(es)|
    ensures |Flatten(RepairedAll(es))| == |Flatten(es)| <==> AllDistinct(es)
    ensures AllDistinct(es) ==> RepairedAll(es) == es
  {
    hide Repaired, DistinctIn, AllAnswer, Flatten, ToolCalls, RepairedAll;
    if es == [] {
      NothingToRepair();
    } else {
      var n := |es| - 1;
      assert es == es[..n] + [es[n]];
      RepairShrinks(es[..n]);
      LastRepaired(es[n]);
      RepairedAppend(es[..n], es[n]);
      DistinctAppended(es[..n], es[n]);
      FlattenAppend(es[..n], es[n]);
      FlattenAppend(RepairedAll(es[..n]), Repaired(es[n]));
    }
  }

  lemma DistinctAppended(es: seq<Exchange>, e: Exchange)
    ensures AllDistinct(es + [e]) <==> AllDistinct(es) && DistinctIn(e)
  {
    hide DistinctIn;
    if AllDistinct(es + [e]) {
      forall i | 0 <= i < |es| ensures DistinctIn(es[i]) {
        assert (es + [e])[i] == es[i];
      }
      assert (es + [e])[|es|] == e;
    }
  }

  lemma LastRepaired(e: Exchange)
    requires AllAnswer(e.results, ToolCalls(e.opener))
    ensures Repaired(e).opener == e.opener && |Repaired(e).results| <= |e.results|
    ensures |Repaired(e).results| == |e.results| <==> DistinctIn(e)
    ensures DistinctIn(e) ==> Repaired(e) == e
  {
    FullExchange(e);
  }

  /** Midway through a closed list, every exchange but the last is full. */
  ghost predicate Started(es: seq<Exchange>, owed: seq<Call>) {
    if es == [] then owed == []
    else
      var k := |es| - 1;
      var calls := ToolCalls(es[k].opener);
      && AllFull(es[..k])
      && |es[k].results| + |owed| == |calls| && owed == calls[|es[k].results|..]
      && forall i :: 0 <= i < |es[k].results| ==> Answers(es[k].results[i], calls[i])
  }

  lemma StartedIsFull(es: seq<Exchange>)
    requires Started(es, [])
    ensures AllFull(es)
  {
    hide ToolCalls, Answers;
    forall i | 0 <= i < |es| ensures AllAnswer(es[i].results, ToolCalls(es[i].opener)) {
      assert i < |es| - 1 ==> es[..|es| - 1][i] == es[i];
    }
  }

  lemma {:induction false} ScanStarts(ms: seq<Message>)
    requires OwedFrom(Some([]), ms).Some? && NoneFailed(ms)
    ensures Flatten(Exchanges(ms)) == ms
    ensures Started(Exchanges(ms), OwedFrom(Some([]), ms).value)
  {
    hide Started, Flatten, ToolCalls, Answers;
    if ms != [] {
      var before, m := ms[..|ms| - 1], ms[|ms| - 1];
      ScanStarts(before);
      var es := Exchanges(before);
      assert ms == before + [m];
      if m.ToolResult? {
        StartsLonger(es, m, OwedFrom(Some([]), before).value);
      } else {
        StartsNext(es, m, OwedFrom(Some([]), before).value);
      }
    } else {
      StartsNothing();
    }
  }

  lemma StartsNothing()
    ensures Started([], []) && Flatten([]) == []
  {
  }

  lemma StartsNext(es: seq<Exchange>, m: Message, owed: seq<Call>)
    requires Started(es, owed) && !m.ToolResult? && !Failed(m)
    requires Owe(Some(owed), m).Some?
    ensures Started(es + [Exchange(m, [])], LiveCalls(m)) && Flatten(es + [Exchange(m, [])]) == Flatten(es) + [m]
    ensures owed == []
  {
    hide ToolCalls, AllAnswer, Flatten;
    StartedIsFull(es);
    FlattenAppend(es, Exchange(m, []));
    assert (es + [Exchange(m, [])])[..|es|] == es;
  }

  lemma StartsLonger(es: seq<Exchange>, m: Message, owed: seq<Call>)
    requires Started(es, owed) && m.ToolResult? && Owe(Some(owed), m).Some?
    ensures es != [] && owed != []
    ensures var longer := es[..|es| - 1] + [Longer(es[|es| - 1], m)];
            Started(longer, owed[1..]) && Flatten(longer) == Flatten(es) + [m]
  {
    hide ToolCalls, AllAnswer, AllFull, Flatten;
    var k := |es| - 1;
    var longer := es[..k] + [Longer(es[k], m)];
    assert longer[..k] == es[..k];
    FlattenAppend(es[..k], Longer(es[k], m));
    FlattenAppend(es[..k], es[k]);
    assert es == es[..k] + [es[k]];
  }

  ghost predicate Opener(ms: seq<Message>, m: Message) {
    exists i :: 0 <= i < |Exchanges(ms)| && Exchanges(ms)[i].opener == m
  }

  lemma {:induction false} OpenersOf(ms: seq<Message>)
    ensures forall i :: 0 <= i < |Exchanges(ms)| ==> Exchanges(ms)[i].opener in ms
    ensures forall k :: 0 <= k < |ms| && !ms[k].ToolResult? ==> Opener(ms, ms[k])
  {
    if ms != [] {
      var n := |ms| - 1;
      OpenersOf(ms[..n]);
      forall k | 0 <= k < n && !ms[k].ToolResult? ensures Opener(ms, ms[k]) {
        assert ms[..n][k] == ms[k] && Opener(ms[..n], ms[k]);
        var i :| 0 <= i < |Exchanges(ms[..n])| && Exchanges(ms[..n])[i].opener == ms[k];
        assert Exchanges(ms)[i].opener == ms[k];
      }
      assert !ms[n].ToolResult? ==> Exchanges(ms)[|Exchanges(ms[..n])|].opener == ms[n];
    }
  }

  ghost predicate IdsDistinct(ms: seq<Message>) {
    forall k :: 0 <= k < |ms| ==> DistinctCalls(ToolCalls(ms[k]))
  }

  lemma DistinctOpeners(ms: seq<Message>)
    ensures AllDistinct(Exchanges(ms)) <==> IdsDistinct(ms)
  {
    hide Exchanges, DistinctCalls;
    OpenersOf(ms);
    var es := Exchanges(ms);
    if AllDistinct(es) {
      forall k | 0 <= k < |ms| ensures DistinctCalls(ToolCalls(ms[k])) {
        if ms[k].ToolResult? {
          NoCalls(ms[k]);
        } else {
          assert Opener(ms, ms[k]);
          var i :| 0 <= i < |es| && es[i].opener == ms[k];
          assert DistinctIn(es[i]);
        }
      }
    }
    if IdsDistinct(ms) {
      forall i | 0 <= i < |es| ensures DistinctIn(es[i]) {
        var k :| 0 <= k < |ms| && ms[k] == es[i].opener;
      }
    }
  }

  lemma NoCalls(m: Message)
    requires m.ToolResult?
    ensures DistinctCalls(ToolCalls(m))
  {
  }

  /**
   * A closed context without failed replies is sent as it is, exactly when no
   * reply uses one id for two calls: of their two results the second is dropped.
   */
  lemma ClosedIsKept(ms: seq<Message>)
    requires Closed(ms) && NoneFailed(ms)
    ensures PairResults(ms) == ms <==> IdsDistinct(ms)
  {
    hide Flatten, Exchanges, PairResults, IdsDistinct, AllDistinct, Started, AllFull, RepairedAll;
    ScanStarts(ms);
    PairingRepairs(ms);
    StartedIsFull(Exchanges(ms));
    RepairShrinks(Exchanges(ms));
    DistinctOpeners(ms);
  }

  // ----- Results follow renamed calls, unless an id was used by another model before -----

  /** The completed reply of another model at `i` makes `id` change. */
  predicate RenamesAt(ms: seq<Message>, same: seq<bool>, rename: Rename, i: int, id: string)
    requires |same| == |ms|
  {
    0 <= i < |ms| && !same[i] && HasCall(LiveCalls(ms[i]), id) && rename(id) != id
  }

  ghost predicate RenamedIn(ms: seq<Message>, same: seq<bool>, rename: Rename, id: string)
    requires |same| == |ms|
  {
    exists i :: RenamesAt(ms, same, rename, i, id)
  }

  /** The last message before the results at the end is one of the model that is asked. */
  predicate OwnReply(ms: seq<Message>, same: seq<bool>)
    requires |same| == |ms|
  {
    if ms == [] then false
    else if ms[|ms| - 1].ToolResult? then OwnReply(ms[..|ms| - 1], same[..|ms| - 1])
    else same[|ms| - 1]
  }

  /** A result for the model's own call, under an id that an earlier reply of another model made change. */
  ghost predicate LostAt(ms: seq<Message>, same: seq<bool>, rename: Rename, k: int)
    requires |same| == |ms|
  {
    0 <= k < |ms| && ms[k].ToolResult? && OwnReply(ms[..k], same[..k])
    && RenamedIn(ms[..k], same[..k], rename, ms[k].callId)
  }

  ghost predicate NoneLost(ms: seq<Message>, same: seq<bool>, rename: Rename)
    requires |same| == |ms|
  {
    forall k :: !LostAt(ms, same, rename, k)
  }

  lemma {:induction false} LearnedIds(ids: map<string, string>, calls: seq<Call>, rename: Rename)
    requires forall x | x in ids :: ids[x] == rename(x)
    ensures var r := Learned(ids, calls, rename);
            forall x :: (x in r <==> x in ids || (HasCall(calls, x) && rename(x) != x)) && (x in r ==> r[x] == rename(x))
  {
    if calls != [] {
      var n := |calls| - 1;
      LearnedIds(ids, calls[..n], rename);
      forall x ensures HasCall(calls, x) <==> HasCall(calls[..n], x) || calls[n].id == x {
        CallsAppend(calls[..n], calls[n], x);
        assert calls == calls[..n] + [calls[n]];
      }
    }
  }

  lemma CallsAppend(calls: seq<Call>, c: Call, id: string)
    ensures HasCall(calls + [c], id) <==> HasCall(calls, id) || c.id == id
  {
    if HasCall(calls, id) {
      var i :| 0 <= i < |calls| && calls[i].id == id;
      assert (calls + [c])[i].id == id;
    }
    assert (calls + [c])[|calls|] == c;
  }

  lemma RenamedAppend(ms: seq<Message>, same: seq<bool>, rename: Rename, id: string)
    requires |same| == |ms| && ms != []
    ensures var n := |ms| - 1;
            RenamedIn(ms, same, rename, id) <==> RenamedIn(ms[..n], same[..n], rename, id) || RenamesAt(ms, same, rename, n, id)
  {
    hide HasCall, LiveCalls;
    var n := |ms| - 1;
    if RenamedIn(ms[..n], same[..n], rename, id) {
      var i :| RenamesAt(ms[..n], same[..n], rename, i, id);
      assert RenamesAt(ms, same, rename, i, id);
    }
    if RenamedIn(ms, same, rename, id) {
      var i :| RenamesAt(ms, same, rename, i, id);
      assert i < n ==> RenamesAt(ms[..n], same[..n], rename, i, id);
    }
  }

  /** The map of the first pass holds exactly the ids that changed so far. */
  lemma {:induction false} IdsKnown(ms: seq<Message>, same: seq<bool>, rename: Rename)
    requires |same| == |ms|
    ensures var ids := Clean(ms, same, rename).ids;
            forall x :: (x in ids <==> RenamedIn(ms, same, rename, x)) && (x in ids ==> ids[x] == rename(x))
  {
    hide RenamedIn, HasCall, Learned;
    if ms == [] {
      forall x ensures !RenamedIn(ms, same, rename, x) {
        NothingRenamed(rename, x);
      }
    } else {
      var n := |ms| - 1;
      IdsKnown(ms[..n], same[..n], rename);
      var before := Clean(ms[..n], same[..n], rename).ids;
      LearnedIds(before, LiveCalls(ms[n]), rename);
      forall x ensures RenamedIn(ms, same, rename, x)
                       <==> x in before || (!same[n] && HasCall(LiveCalls(ms[n]), x) && rename(x) != x) {
        RenamedAppend(ms, same, rename, x);
      }
      if !ms[n].Assistant? || Failed(ms[n]) {
        NoCallIn(LiveCalls(ms[n]));
      }
    }
  }

  lemma NoCallIn(calls: seq<Call>)
    requires calls == []
    ensures forall x :: !HasCall(calls, x)
  {
  }

  lemma NothingRenamed(rename: Rename, id: string)
    ensures !RenamedIn([], [], rename, id)
  {
  }

  lemma {:induction false} ShowsCalls(content: seq<Content>, same: bool, rename: Rename)
    ensures CallsIn(ShownAll(content, same, rename)) == Renamed(CallsIn(content), same, rename)
  {
    if content != [] {
      var first := Shown(content[0], same, rename);
      var rest := ShownAll(content[1..], same, rename);
      ShowsCalls(content[1..], same, rename);
      if first.Some? {
        assert ([first.value] + rest)[1..] == rest;
      } else {
        assert [] + rest == rest;
      }
    }
  }

  lemma LostAppend(ms: seq<Message>, same: seq<bool>, rename: Rename)
    requires |same| == |ms| && ms != []
    ensures var n := |ms| - 1;
            NoneLost(ms, same, rename) <==> NoneLost(ms[..n], same[..n], rename) && !LostAt(ms, same, rename, n)
  {
    hide RenamedIn, OwnReply;
    var n := |ms| - 1;
    forall k | 0 <= k < n ensures LostAt(ms[..n], same[..n], rename, k) <==> LostAt(ms, same, rename, k) {
      assert ms[..n][..k] == ms[..k] && same[..n][..k] == same[..k];
    }
    if NoneLost(ms, same, rename) {
      forall k ensures !LostAt(ms[..n], same[..n], rename, k) {
        assert !LostAt(ms, same, rename, k);
      }
    }
    if NoneLost(ms[..n], same[..n], rename) && !LostAt(ms, same, rename, n) {
      forall k ensures !LostAt(ms, same, rename, k) {
        assert !LostAt(ms[..n], same[..n], rename, k);
      }
    }
  }

  /** Every call still owed by another model's reply is known under its new id. */
  ghost predicate Known(owed: seq<Call>, ids: map<string, string>, rename: Rename) {
    forall k :: 0 <= k < |owed| && rename(owed[k].id) != owed[k].id ==> owed[k].id in ids
  }

  /** The scanner over the first pass's output follows the scanner over its input, until a result is lost. */
  ghost predicate Follows(ms: seq<Message>, same: seq<bool>, rename: Rename)
    requires |same| == |ms| && OwedFrom(Some([]), ms).Some?
  {
    var owed, c, own := OwedFrom(Some([]), ms).value, Clean(ms, same, rename), OwnReply(ms, same);
    && OwedFrom(Some([]), c.out)
       == (if NoneLost(ms, same, rename) then Some(Renamed(owed, own, rename)) else None)
    && (!own ==> Known(owed, c.ids, rename))
  }

  lemma {:induction false} RenamingFollows(ms: seq<Message>, same: seq<bool>, rename: Rename)
    requires |same| == |ms| && OwedFrom(Some([]), ms).Some?
    ensures Follows(ms, same, rename)
  {
    if ms == [] {
    } else {
      var n := |ms| - 1;
      RenamingFollows(ms[..n], same[..n], rename);
      LostAppend(ms, same, rename);
      if ms[n].ToolResult? {
        ResultFollows(ms, same, rename);
      } else {
        OpenerFollows(ms, same, rename);
      }
    }
  }

  lemma OwedAppend(ms: seq<Message>, m: Message)
    ensures OwedFrom(Some([]), ms + [m]) == Owe(OwedFrom(Some([]), ms), m)
  {
    assert (ms + [m])[..|ms|] == ms;
  }

  lemma OpenerFollows(ms: seq<Message>, same: seq<bool>, rename: Rename)
    requires |same| == |ms| && ms != [] && OwedFrom(Some([]), ms).Some? && !ms[|ms| - 1].ToolResult?
    requires Follows(ms[..|ms| - 1], same[..|ms| - 1], rename)
    requires NoneLost(ms, same, rename) <==> NoneLost(ms[..|ms| - 1], same[..|ms| - 1], rename)
    ensures Follows(ms, same, rename)
  {
    hide NoneLost, HasCall, Learned, RenamedIn, ShownAll, CallsIn;
    var n := |ms| - 1;
    var before := Clean(ms[..n], same[..n], rename);
    assert OwedFrom(Some([]), ms[..n]) == Some([]);
    if ms[n].User? {
      OwedAppend(before.out, ms[n]);
    } else if !Failed(ms[n]) {
      var content := ms[n].content;
      var shown := ms[n].(content := ShownAll(content, same[n], rename));
      OwedAppend(before.out, shown);
      ShowsCalls(content, same[n], rename);
      assert LiveCalls(shown) == Renamed(LiveCalls(ms[n]), same[n], rename);
      IdsKnown(ms[..n], same[..n], rename);
      LearnedIds(before.ids, CallsIn(content), rename);
      AllKnown(before.ids, CallsIn(content), rename);
    }
  }

  lemma AllKnown(ids: map<string, string>, calls: seq<Call>, rename: Rename)
    requires forall x | x in ids :: ids[x] == rename(x)
    ensures Known(calls, Learned(ids, calls, rename), rename)
  {
    LearnedIds(ids, calls, rename);
    forall k | 0 <= k < |calls| ensures HasCall(calls, calls[k].id) {
    }
  }

  lemma ResultFollows(ms: seq<Message>, same: seq<bool>, rename: Rename)
    requires |same| == |ms| && ms != [] && OwedFrom(Some([]), ms).Some? && ms[|ms| - 1].ToolResult?
    requires Follows(ms[..|ms| - 1], same[..|ms| - 1], rename)
    requires NoneLost(ms, same, rename)
             <==> NoneLost(ms[..|ms| - 1], same[..|ms| - 1], rename) && !LostAt(ms, same, rename, |ms| - 1)
    ensures Follows(ms, same, rename)
  {
    hide NoneLost, HasCall, Learned, RenamedIn, Renamed, LiveCalls;
    var n := |ms| - 1;
    var m, before := ms[n], Clean(ms[..n], same[..n], rename);
    var own, owed := OwnReply(ms[..n], same[..n]), OwedFrom(Some([]), ms[..n]).value;
    IdsKnown(ms[..n], same[..n], rename);
    if m.callId in before.ids {
      IdsChange(ms[..n], same[..n], rename, m.callId);
    }
    var shown := if m.callId in before.ids then m.(callId := before.ids[m.callId]) else m;
    OwedAppend(before.out, shown);
    RenamedResult(owed, own, rename, m, shown.callId);
    if !own && m.callId !in before.ids {
      assert rename(owed[0].id) == owed[0].id;
    }
  }

  /** A result pays for the renamed call when it carries the new id. */
  lemma RenamedResult(owed: seq<Call>, own: bool, rename: Rename, m: Message, id: string)
    requires owed != [] && Answers(m, owed[0])
    ensures Owe(Some(Renamed(owed, own, rename)), m.(callId := id))
            == if id == (if own then m.callId else rename(m.callId)) then Some(Renamed(owed[1..], own, rename)) else None
  {
    assert Renamed(owed, own, rename)[1..] == Renamed(owed[1..], own, rename);
  }

  lemma IdsChange(ms: seq<Message>, same: seq<bool>, rename: Rename, id: string)
    requires |same| == |ms| && RenamedIn(ms, same, rename, id)
    ensures rename(id) != id
  {
  }

  /** What the model that is asked is sent of a closed context is closed, exactly when no result was lost. */
  lemma RenamingKeepsClosed(ms: seq<Message>, same: seq<bool>, rename: Rename)
    requires |same| == |ms| && Closed(ms)
    ensures Closed(Clean(ms, same, rename).out) <==> NoneLost(ms, same, rename)
  {
    RenamingFollows(ms, same, rename);
  }

  lemma OwnNeverRenames(ms: seq<Message>, same: seq<bool>, rename: Rename, id: string)
    requires |same| == |ms| && forall i :: 0 <= i < |same| ==> same[i]
    ensures !RenamedIn(ms, same, rename, id)
  {
  }

  lemma OwnIsNeverLost(ms: seq<Message>, same: seq<bool>, rename: Rename)
    requires |same| == |ms| && forall i :: 0 <= i < |same| ==> same[i]
    ensures NoneLost(ms, same, rename)
  {
    hide RenamedIn;
    forall k, id | 0 <= k < |ms| ensures !RenamedIn(ms[..k], same[..k], rename, id) {
      OwnNeverRenames(ms[..k], same[..k], rename, id);
    }
  }

  function Results(ms: seq<Message>): seq<Message> {
    if ms == [] then []
    else Results(ms[..|ms| - 1]) + if ms[|ms| - 1].ToolResult? then [ms[|ms| - 1]] else []
  }

  /** No completed reply uses one id for two calls. */
  ghost predicate LiveIdsDistinct(ms: seq<Message>) {
    forall k :: 0 <= k < |ms| ==> DistinctCalls(LiveCalls(ms[k]))
  }

  lemma {:induction false} OwnCalls(ms: seq<Message>, same: seq<bool>, rename: Rename)
    requires |same| == |ms| && forall i :: 0 <= i < |same| ==> same[i]
    ensures var c := Clean(ms, same, rename);
            && c.ids == map[] && Results(c.out) == Results(ms)
            && (IdsDistinct(c.out) <==> LiveIdsDistinct(ms))
  {
    hide DistinctCalls, Learned, ShownAll, CallsIn, LiveIdsDistinct, IdsDistinct, Results;
    if ms == [] {
      NothingDistinct();
    } else {
      var n := |ms| - 1;
      var m, before := ms[n], Clean(ms[..n], same[..n], rename);
      OwnCalls(ms[..n], same[..n], rename);
      LiveDistinctAppend(ms[..n], m);
      ResultsAppend(ms[..n], m);
      assert ms == ms[..n] + [m];
      if Failed(m) {
        NoneDistinct(LiveCalls(m));
      } else {
        var shown := if m.Assistant? then m.(content := ShownAll(m.content, true, rename)) else m;
        if m.Assistant? {
          ShowsCalls(m.content, true, rename);
        }
        ResultsAppend(before.out, shown);
        DistinctAppend(before.out, shown);
      }
    }
  }

  lemma NothingDistinct()
    ensures IdsDistinct([]) && LiveIdsDistinct([]) && Results([]) == []
  {
  }

  lemma LiveDistinctAppend(ms: seq<Message>, m: Message)
    ensures LiveIdsDistinct(ms + [m]) <==> LiveIdsDistinct(ms) && DistinctCalls(LiveCalls(m))
  {
    hide DistinctCalls, LiveCalls;
    if LiveIdsDistinct(ms + [m]) {
      forall k | 0 <= k < |ms| ensures DistinctCalls(LiveCalls(ms[k])) {
        assert (ms + [m])[k] == ms[k];
      }
      assert (ms + [m])[|ms|] == m;
    }
  }

  lemma NoneDistinct(calls: seq<Call>)
    requires calls == []
    ensures DistinctCalls(calls)
  {
  }

  lemma ResultsAppend(ms: seq<Message>, m: Message)
    ensures Results(ms + [m]) == Results(ms) + if m.ToolResult? then [m] else []
  {
    assert (ms + [m])[..|ms|] == ms;
  }

  lemma DistinctAppend(ms: seq<Message>, m: Message)
    ensures IdsDistinct(ms + [m]) <==> IdsDistinct(ms) && DistinctCalls(ToolCalls(m))
  {
    hide DistinctCalls, ToolCalls;
    if IdsDistinct(ms + [m]) {
      forall k | 0 <= k < |ms| ensures DistinctCalls(ToolCalls(ms[k])) {
        assert (ms + [m])[k] == ms[k];
      }
      assert (ms + [m])[|ms|] == m;
    }
  }

  /**
   * A model that is asked to go on with its own closed context is sent every
   * message that did not fail, each result under its call and none made up,
   * exactly when no reply uses one id for two calls.
   */
  lemma OwnContextIsKept(ms: seq<Message>, same: seq<bool>, rename: Rename)
    requires |same| == |ms| && (forall i :: 0 <= i < |same| ==> same[i]) && Closed(ms)
    ensures var out := Clean(ms, same, rename).out;
            && Closed(out) && Results(out) == Results(ms)
            && (PairResults(out) == out <==> LiveIdsDistinct(ms))
  {
    hide PairResults, NoneLost, Closed, Clean;
    OwnIsNeverLost(ms, same, rename);
    RenamingKeepsClosed(ms, same, rename);
    CleanHasNoFailures(ms, same, rename);
    ClosedIsKept(Clean(ms, same, rename).out);
    OwnCalls(ms, same, rename);
  }

  lemma CleanAppend(ms: seq<Message>, same: seq<bool>, m: Message, own: bool, rename: Rename)
    requires |same| == |ms|
    ensures Clean(ms + [m], same + [own], rename) == CleanOne(Clean(ms, same, rename), m, own, rename)
  {
    assert (ms + [m])[..|ms|] == ms && (same + [own])[..|same|] == same;
  }

  lemma MatchedAppend(ms: seq<Message>, m: Message)
    ensures Matched(ms + [m]) == MatchOne(Matched(ms), m)
  {
    assert (ms + [m])[..|ms|] == ms;
  }

  /**
   * An id used by two models, which had to change for the first: the result of
   * the second call is dropped, and one is made up in its place.
   */
  lemma SharedIdLosesResult(id: string, name: string, usage: Usage, output: seq<Content>, rename: Rename)
    requires rename(id) != id
    ensures var call := Assistant([ToolCall(id, name, "{}")], usage, ToolUse, None);
            var result := ToolResult(id, name, output, false);
            var ms := [call, result] + [call] + [result];
            && Closed(ms)
            && var sent := PairResults(Clean(ms, [false, false] + [true] + [true], rename).out);
               sent != [] && sent[|sent| - 1] == ToolResult(id, name, [Text(NO_RESULT_TEXT)], true)
  {
    hide Clean, Matched, Closed, ShownAll, Learned, CallsIn, Missing;
    var call := Assistant([ToolCall(id, name, "{}")], usage, ToolUse, None);
    var result := ToolResult(id, name, output, false);
    OneCall(call.content[0]);
    MissingOne(ToolCalls(call)[0]);
    SameExchangeTwice(call, result);
    var c := Clean([call, result], [false, false], rename);
    IdIsKnown(call, result, rename);
    CleanAppend([call, result], [false, false], call, true, rename);
    CleanAppend([call, result] + [call], [false, false] + [true], result, true, rename);
    ShownOwn(call.content, rename);
    var moved := result.(callId := rename(id));
    MatchedAppend(c.out, call);
    MatchedAppend(c.out + [call], moved);
  }

  lemma SameExchangeTwice(call: Message, result: Message)
    requires call.Assistant? && AllAnswer([result], LiveCalls(call))
    ensures Closed([call, result] + [call] + [result])
  {
    ExchangeCloses([], call, [result]);
    assert [] + [call] + [result] == [call, result];
    ExchangeCloses([call, result], call, [result]);
  }

  lemma IdIsKnown(call: Message, result: Message, rename: Rename)
    requires |LiveCalls(call)| == 1 && rename(LiveCalls(call)[0].id) != LiveCalls(call)[0].id
    ensures var ids := Clean([call, result], [false, false], rename).ids;
            var id := LiveCalls(call)[0].id;
            id in ids && ids[id] == rename(id)
  {
    IdsKnown([call, result], [false, false], rename);
    assert RenamesAt([call, result], [false, false], rename, 0, LiveCalls(call)[0].id);
  }

  lemma MissingOne(c: Call)
    ensures Missing([c], {}) == [ToolResult(c.id, c.name, [Text(NO_RESULT_TEXT)], true)]
  {
    assert Missing([c][..0], {}) == [];
  }

  lemma OneCall(b: Content)
    requires b.ToolCall?
    ensures CallsIn([b]) == [Call(b.id, b.name, b.arguments)]
  {
  }

  lemma ShownOwn(content: seq<Content>, rename: Rename)
    requires |content| == 1 && content[0].ToolCall?
    ensures ShownAll(content, true, rename) == content
  {
    assert ShownAll(content[1..], true, rename) == [];
  }
}
