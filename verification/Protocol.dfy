// Messages of the built-in agent (apps/agent/src/protocol.rs) and what it
// means for a message list to be well paired for a provider.
module Protocol {
  import opened Basics

  datatype Content =
    | Text(text: string)
    | Thinking(thinking: string, signature: Option<string>, redacted: bool)
    | ToolCall(id: string, name: string, arguments: string)

  datatype Usage = Usage(reported: bool, input: nat, output: nat, cacheRead: nat, cacheWrite: nat, total: nat)

  datatype StopReason = Pending | Stop | Length | ToolUse | Error | Aborted

  datatype Attachment = Attachment(name: string, mime: string, path: Option<string>, data: Option<string>)

  /** Timestamps and the model's name and provider are left out. */
  datatype Message =
    | User(text: string, attachments: seq<Attachment>)
    | Assistant(content: seq<Content>, usage: Usage, stopReason: StopReason, errorMessage: Option<string>)
    | ToolResult(callId: string, toolName: string, output: seq<Content>, isError: bool)

  datatype Call = Call(id: string, name: string, arguments: string)

  function CallsIn(content: seq<Content>): (calls: seq<Call>)
    ensures |calls| <= |content|
  {
    if content == [] then []
    else
      var c := content[0];
      (if c.ToolCall? then [Call(c.id, c.name, c.arguments)] else []) + CallsIn(content[1..])
  }

  lemma CallsFromStart(content: seq<Content>)
    requires content != []
    ensures var c := content[0];
            CallsIn(content) == (if c.ToolCall? then [Call(c.id, c.name, c.arguments)] else []) + CallsIn(content[1..])
  {
  }

  lemma NoCallsInNothing()
    ensures CallsIn([]) == []
  {
  }

  lemma {:induction false} CallsConcat(a: seq<Content>, b: seq<Content>)
    ensures CallsIn(a + b) == CallsIn(a) + CallsIn(b)
  {
    hide CallsIn;
    if a == [] {
      assert a + b == b;
      NoCallsInNothing();
    } else {
      assert (a + b)[1..] == a[1..] + b;
      CallsConcat(a[1..], b);
      CallsFromStart(a + b);
      CallsFromStart(a);
    }
  }

  lemma CallsAtEnd(content: seq<Content>, b: Content)
    ensures CallsIn(content + [b])
            == CallsIn(content) + if b.ToolCall? then [Call(b.id, b.name, b.arguments)] else []
  {
    hide CallsIn;
    CallsConcat(content, [b]);
    CallsFromStart([b]);
    assert [b][1..] == [];
    NoCallsInNothing();
  }

  /** The calls are the tool-call blocks, one for each, in order. */
  lemma {:induction false} CallsInOrder(content: seq<Content>) returns (picked: seq<nat>)
    ensures Ascends(picked, |content|) && |picked| == |CallsIn(content)|
    ensures forall k :: 0 <= k < |picked| ==>
                          var c := CallsIn(content)[k]; content[picked[k]] == ToolCall(c.id, c.name, c.arguments)
    ensures forall i :: 0 <= i < |content| && content[i].ToolCall? ==> i in picked
  {
    hide CallsIn;
    if content == [] {
      picked := [];
      NoCallsInNothing();
    } else {
      var n := |content| - 1;
      var before := CallsInOrder(content[..n]);
      CallsAtEnd(content[..n], content[n]);
      AscendsMore(before, n);
      assert content == content[..n] + [content[n]];
      picked := if content[n].ToolCall? then before + [n] else before;
      forall i | 0 <= i < |content| && content[i].ToolCall? ensures i in picked {
        if i < n {
          assert content[..n][i] == content[i];
        } else {
          assert picked[|picked| - 1] == n;
        }
      }
    }
  }

  function ToolCalls(m: Message): seq<Call> {
    if m.Assistant? then CallsIn(m.content) else []
  }

  predicate Failed(m: Message) {
    m.Assistant? && (m.stopReason.Error? || m.stopReason.Aborted?)
  }

  /** The calls a provider will expect results for: a failed reply is never replayed. */
  function LiveCalls(m: Message): seq<Call> {
    if Failed(m) then [] else ToolCalls(m)
  }

  predicate Answers(m: Message, c: Call) {
    m.ToolResult? && m.callId == c.id && m.toolName == c.name
  }

  // ----- Pairing of calls and results -----

  /** Calls still owed a result after one more message; `None` once the list is beyond repair. */
  function Owe(owed: Option<seq<Call>>, m: Message): Option<seq<Call>> {
    if owed.None? then None
    else if owed.value == [] then if m.ToolResult? then None else Some(LiveCalls(m))
    else if Answers(m, owed.value[0]) then Some(owed.value[1..])
    else None
  }

  function OwedFrom(owed: Option<seq<Call>>, ms: seq<Message>): Option<seq<Call>> {
    if ms == [] then owed else Owe(OwedFrom(owed, ms[..|ms| - 1]), ms[|ms| - 1])
  }

  /** Nothing is owed at the end and nothing was out of place on the way. */
  predicate Closed(ms: seq<Message>) {
    OwedFrom(Some([]), ms) == Some([])
  }

  /** The results of the message at `i` are exactly the messages right after it, in order. */
  predicate Answered(ms: seq<Message>, i: nat)
    requires i < |ms|
  {
    var calls := LiveCalls(ms[i]);
    i + |calls| < |ms| && forall j :: i < j <= i + |calls| ==> Answers(ms[j], calls[j - i - 1])
  }

  /** The message at `j` lies in the stretch of results owed to the message at `i`. */
  ghost predicate Owns(ms: seq<Message>, i: int, j: int) {
    0 <= i < j < |ms| && j <= i + |LiveCalls(ms[i])|
  }

  ghost predicate Owned(ms: seq<Message>, j: int) {
    exists i :: Owns(ms, i, j)
  }

  /** Pairing stated directly: every live call is answered in place, and no result is an orphan. */
  ghost predicate Paired(ms: seq<Message>) {
    && (forall i :: 0 <= i < |ms| ==> Answered(ms, i))
    && (forall j {:trigger Owned(ms, j)} :: 0 <= j < |ms| && ms[j].ToolResult? ==> Owned(ms, j))
  }

  lemma {:induction false} OwedFromConcat(owed: Option<seq<Call>>, a: seq<Message>, b: seq<Message>)
    ensures OwedFrom(owed, a + b) == OwedFrom(OwedFrom(owed, a), b)
  {
    if b == [] {
      assert a + b == a;
    } else {
      assert (a + b)[..|a + b| - 1] == a + b[..|b| - 1];
      OwedFromConcat(owed, a, b[..|b| - 1]);
    }
  }

  lemma {:induction false} BrokenStaysBroken(ms: seq<Message>)
    ensures OwedFrom(None, ms) == None
  {
    if ms != [] {
      BrokenStaysBroken(ms[..|ms| - 1]);
    }
  }

  /** A closed list may be followed by anything that is closed on its own, and by nothing else. */
  lemma ClosedConcat(a: seq<Message>, b: seq<Message>)
    requires Closed(a)
    ensures Closed(a + b) <==> Closed(b)
  {
    OwedFromConcat(Some([]), a, b);
  }

  lemma ClosedAppend(a: seq<Message>, m: Message)
    requires Closed(a) && !m.ToolResult?
    ensures Closed(a + [m]) <==> LiveCalls(m) == []
  {
    ClosedConcat(a, [m]);
    assert OwedFrom(Some([]), [m][..0]) == Some([]);
  }

  /** A user message settles nothing: what was owed stays unpaid. */
  lemma UserSettlesNothing(ms: seq<Message>, m: Message)
    requires m.User?
    ensures Closed(ms + [m]) <==> Closed(ms)
  {
    assert (ms + [m])[..|ms|] == ms;
  }

  predicate Boundary(ms: seq<Message>, cut: nat) {
    cut == |ms| || (cut < |ms| && !ms[cut].ToolResult?)
  }

  /** A closed list can be split before anything that is not a tool result. */
  lemma ClosedSplit(ms: seq<Message>, cut: nat)
    requires Closed(ms) && Boundary(ms, cut)
    ensures Closed(ms[..cut]) && Closed(ms[cut..])
  {
    assert ms == ms[..cut] + ms[cut..];
    if cut < |ms| {
      assert ms == ms[..cut] + [ms[cut]] + ms[cut + 1..];
      OwedFromConcat(Some([]), ms[..cut] + [ms[cut]], ms[cut + 1..]);
      OwedFromConcat(Some([]), ms[..cut], [ms[cut]]);
      BrokenStaysBroken(ms[cut + 1..]);
      assert [ms[cut]][..0] == [];
    } else {
      assert ms[..cut] == ms;
    }
    ClosedConcat(ms[..cut], ms[cut..]);
  }

  predicate AllAnswer(results: seq<Message>, calls: seq<Call>) {
    |results| == |calls| && forall k :: 0 <= k < |calls| ==> Answers(results[k], calls[k])
  }

  lemma {:induction false} ResultsPayOff(calls: seq<Call>, results: seq<Message>, n: nat)
    requires AllAnswer(results, calls) && n <= |calls|
    ensures OwedFrom(Some(calls), results[..n]) == Some(calls[n..])
  {
    if n > 0 {
      ResultsPayOff(calls, results, n - 1);
      assert results[..n][..n - 1] == results[..n - 1];
      assert calls[n - 1..][1..] == calls[n..];
    }
  }

  /** A reply followed by one result per live call, in order, is a closed exchange. */
  lemma ExchangeCloses(a: seq<Message>, reply: Message, results: seq<Message>)
    requires Closed(a) && reply.Assistant? && AllAnswer(results, LiveCalls(reply))
    ensures Closed(a + [reply] + results)
  {
    var calls := LiveCalls(reply);
    assert OwedFrom(Some([]), a + [reply]) == Some(calls) by {
      assert (a + [reply])[..|a|] == a;
    }
    ResultsPayOff(calls, results, |calls|);
    assert results[..|calls|] == results && calls[|calls|..] == [];
    OwedFromConcat(Some([]), a + [reply], results);
  }

  // ----- The scanner agrees with the direct statement -----

  /** Midway the scanner has served everything but the exchange opened at `s`. */
  ghost predicate Halfway(ms: seq<Message>, s: nat, owed: seq<Call>)
    requires s < |ms|
  {
    var calls := LiveCalls(ms[s]);
    && |calls| == |ms| - 1 - s + |owed| && owed == calls[|ms| - 1 - s..]
    && (forall j :: s < j < |ms| ==> Answers(ms[j], calls[j - s - 1]))
    && (forall i :: 0 <= i < s ==> Answered(ms, i))
    && (forall j {:trigger Owned(ms, j)} :: 0 <= j < |ms| && ms[j].ToolResult? ==> Owned(ms, j))
  }

  lemma StillAnswered(ms: seq<Message>, more: seq<Message>, i: nat)
    requires i < |ms| && Answered(ms, i)
    ensures Answered(ms + more, i)
  {
  }

  lemma StillOwned(ms: seq<Message>, more: seq<Message>, j: nat)
    requires Owned(ms, j)
    ensures Owned(ms + more, j)
  {
    var i :| Owns(ms, i, j);
    assert Owns(ms + more, i, j);
  }

  lemma ResultOwesNothing(ms: seq<Message>, i: nat)
    requires i < |ms| && ms[i].ToolResult?
    ensures Answered(ms, i)
  {
  }

  lemma AllAnswered(ms: seq<Message>, s: nat, i: nat)
    requires i < |ms| && s < |ms| && Halfway(ms, s, [])
    ensures Answered(ms, i)
  {
    hide LiveCalls;
    if s < i {
      ResultOwesNothing(ms, i);
    } else if i == s {
      ExchangeDone(ms, i);
    }
  }

  lemma ExchangeDone(ms: seq<Message>, s: nat)
    requires s < |ms| && |LiveCalls(ms[s])| == |ms| - 1 - s
    requires forall j :: s < j < |ms| ==> Answers(ms[j], LiveCalls(ms[s])[j - s - 1])
    ensures Answered(ms, s)
  {
  }

  lemma NextExchange(ms: seq<Message>, s: nat, m: Message)
    requires ms == [] || (s < |ms| && Halfway(ms, s, []))
    requires !m.ToolResult?
    ensures Halfway(ms + [m], |ms|, LiveCalls(m))
  {
    var next := ms + [m];
    forall j | 0 <= j < |next| && next[j].ToolResult? ensures Owned(next, j) {
      assert Owned(ms, j);
      StillOwned(ms, [m], j);
    }
    forall i | 0 <= i < |ms| ensures Answered(next, i) {
      AllAnswered(ms, s, i);
      StillAnswered(ms, [m], i);
    }
  }

  lemma NextResult(ms: seq<Message>, s: nat, owed: seq<Call>, m: Message)
    requires s < |ms| && Halfway(ms, s, owed) && owed != [] && Answers(m, owed[0])
    ensures Halfway(ms + [m], s, owed[1..])
  {
    var next := ms + [m];
    forall j | 0 <= j < |next| && next[j].ToolResult? ensures Owned(next, j) {
      if j < |ms| {
        assert Owned(ms, j);
        StillOwned(ms, [m], j);
      } else {
        assert Owns(next, s, j);
      }
    }
    forall i | 0 <= i < s ensures Answered(next, i) {
      StillAnswered(ms, [m], i);
    }
  }

  lemma {:induction false} ScanIsHalfway(ms: seq<Message>) returns (s: nat)
    requires OwedFrom(Some([]), ms).Some?
    ensures ms != [] ==> s < |ms| && Halfway(ms, s, OwedFrom(Some([]), ms).value)
  {
    s := 0;
    if ms != [] {
      var n := |ms| - 1;
      assert ms == ms[..n] + [ms[n]];
      s := ScanIsHalfway(ms[..n]);
      var before := OwedFrom(Some([]), ms[..n]).value;
      if before == [] {
        NextExchange(ms[..n], s, ms[n]);
        s := n;
      } else {
        NextResult(ms[..n], s, before, ms[n]);
      }
    }
  }

  lemma ClosedIsPaired(ms: seq<Message>)
    requires Closed(ms)
    ensures Paired(ms)
  {
    var s := ScanIsHalfway(ms);
    forall i | 0 <= i < |ms| ensures Answered(ms, i) {
      AllAnswered(ms, s, i);
    }
  }

  /** In a paired list the k-th message after a reply that did not fail is the result of its k-th call. */
  lemma EachCallAnswered(ms: seq<Message>, i: nat, k: nat)
    requires Paired(ms) && i < |ms| && ms[i].Assistant? && ms[i].stopReason !in {Error, Aborted}
    requires k < |CallsIn(ms[i].content)|
    ensures var c := CallsIn(ms[i].content)[k];
            && i + 1 + k < |ms|
            && var r := ms[i + 1 + k]; r.ToolResult? && r.callId == c.id && r.toolName == c.name
  {
    assert Answered(ms, i);
  }

  lemma PairedTail(ms: seq<Message>, n: nat)
    requires Paired(ms) && ms != [] && n == |LiveCalls(ms[0])|
    ensures n < |ms| && Paired(ms[n + 1..])
  {
    assert Answered(ms, 0);
    var tail := ms[n + 1..];
    forall i | 0 <= i < |tail| ensures Answered(tail, i) {
      assert Answered(ms, n + 1 + i);
    }
    forall j | 0 <= j < |tail| && tail[j].ToolResult? ensures Owned(tail, j) {
      assert Owned(ms, n + 1 + j);
      var i :| Owns(ms, i, n + 1 + j);
      if i <= n {
      }
      assert Owns(tail, i - n - 1, j);
    }
  }

  lemma OnlyRepliesCall(m: Message)
    ensures LiveCalls(m) != [] ==> m.Assistant?
  {
  }

  lemma FirstExchangeCloses(ms: seq<Message>, n: nat)
    requires ms != [] && !ms[0].ToolResult? && Answered(ms, 0) && n == |LiveCalls(ms[0])|
    ensures Closed(ms[..n + 1])
  {
    hide LiveCalls, Answers;
    if n == 0 {
      ClosedAppend([], ms[0]);
      assert [] + [ms[0]] == ms[..1];
    } else {
      OnlyRepliesCall(ms[0]);
      ExchangeCloses([], ms[0], ms[1..n + 1]);
      assert [] + [ms[0]] + ms[1..n + 1] == ms[..n + 1];
    }
  }

  lemma {:induction false} PairedIsClosed(ms: seq<Message>)
    requires Paired(ms)
    ensures Closed(ms)
    decreases |ms|
  {
    if ms != [] {
      var n := |LiveCalls(ms[0])|;
      PairedTail(ms, n);
      PairedIsClosed(ms[n + 1..]);
      assert Answered(ms, 0) && (ms[0].ToolResult? ==> Owned(ms, 0));
      FirstExchangeCloses(ms, n);
      ClosedConcat(ms[..n + 1], ms[n + 1..]);
      assert ms == ms[..n + 1] + ms[n + 1..];
    }
  }
}
