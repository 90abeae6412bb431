// One WebSocket of the capture bridge (apps/capture/src/preview.rs): challenges
// that extend its deadline, and replies remembered so that a repeated request
// is answered without being executed again.
//
// Nonces and request ids are given by numbers; texts and replies are opaque.
module ViewSocket {
  import opened Basics

  const LEASE := 3000
  const REMEMBERED := 128
  const RATE_WINDOW := 1000
  const MAX_RATE := 20

  /** One request that was executed. */
  datatype Executed = Executed(id: nat, text: string, reply: string)

  datatype Answer = Renewed | Repeated | Expired

  datatype Response = Reply(reply: string) | Conflict

  // ----- The unbounded reference -----

  /** The latest `REMEMBERED` executions. */
  function Recent(history: seq<Executed>): seq<Executed> {
    if |history| <= REMEMBERED then history else history[|history| - REMEMBERED..]
  }

  /** The reply an unbounded map from ids to replies would hold, over `entries`. */
  function Lookup(entries: seq<Executed>, id: nat): Option<Executed> {
    if entries == [] then None
    else if entries[|entries| - 1].id == id then Some(entries[|entries| - 1])
    else Lookup(entries[..|entries| - 1], id)
  }

  ghost predicate DistinctIds(entries: seq<Executed>) {
    forall i, j :: 0 <= i < j < |entries| ==> entries[i].id != entries[j].id
  }

  lemma {:induction false} LookupFinds(entries: seq<Executed>, k: nat)
    requires DistinctIds(entries) && k < |entries|
    ensures Lookup(entries, entries[k].id) == Some(entries[k])
  {
    if k < |entries| - 1 {
      LookupFinds(entries[..|entries| - 1], k);
    }
  }

  lemma {:induction false} LookupMisses(entries: seq<Executed>, id: nat)
    requires forall k :: 0 <= k < |entries| ==> entries[k].id != id
    ensures Lookup(entries, id) == None
  {
    if entries != [] {
      LookupMisses(entries[..|entries| - 1], id);
    }
  }

  ghost predicate Mirrors(cache: map<nat, (string, string)>, order: seq<nat>, recent: seq<Executed>) {
    && DistinctIds(recent)
    && |order| == |recent| && (forall k :: 0 <= k < |order| ==> order[k] == recent[k].id)
    && (forall id :: id in cache <==> id in order)
    && (forall k :: 0 <= k < |recent| ==>
                      recent[k].id in cache && cache[recent[k].id] == (recent[k].text, recent[k].reply))
  }

  function Without(cache: map<nat, (string, string)>, id: nat): map<nat, (string, string)> {
    map k | k in cache && k != id :: cache[k]
  }

  lemma RecentMore(history: seq<Executed>, e: Executed)
    ensures var more := Recent(history) + [e];
            Recent(history + [e]) == if |Recent(history)| < REMEMBERED then more else more[1..]
  {
  }

  lemma SameLength(cache: map<nat, (string, string)>, order: seq<nat>, recent: seq<Executed>)
    requires Mirrors(cache, order, recent)
    ensures |order| == |recent|
  {
  }

  lemma MirrorsMore(cache: map<nat, (string, string)>, order: seq<nat>, recent: seq<Executed>, e: Executed)
    requires Mirrors(cache, order, recent) && e.id !in order
    ensures Mirrors(cache[e.id := (e.text, e.reply)], order + [e.id], recent + [e])
  {
    forall k | 0 <= k < |recent| ensures recent[k].id != e.id {
      assert order[k] in order;
    }
  }

  lemma MirrorsLess(cache: map<nat, (string, string)>, order: seq<nat>, recent: seq<Executed>)
    requires Mirrors(cache, order, recent) && order != []
    ensures Mirrors(Without(cache, order[0]), order[1..], recent[1..])
  {
    var id, rest := order[0], order[1..];
    assert order == [id] + rest;
    forall k | 0 <= k < |rest| ensures rest[k] != id && rest[k] == recent[1..][k].id {
      assert recent[0].id != recent[1 + k].id;
    }
  }

  lemma {:induction false} Fewer(a: seq<nat>, b: seq<nat>)
    requires forall i, j :: 0 <= i < j < |a| ==> a[i] != a[j]
    requires forall i :: 0 <= i < |a| ==> a[i] in b
    ensures |a| <= |b|
  {
    if a != [] {
      var n := |a| - 1;
      var k :| 0 <= k < |b| && b[k] == a[n];
      var rest := b[..k] + b[k + 1..];
      forall i | 0 <= i < n ensures a[..n][i] in rest {
        var m :| 0 <= m < |b| && b[m] == a[i];
        assert m != k && (if m < k then rest[m] else rest[m - 1]) == a[i];
      }
      Fewer(a[..n], rest);
    }
  }

  // ----- The reference: a connection as a function of what is heard -----

  datatype Event =
    | Timer(next: nat)
    | Renewal(answer: nat)
    | Request(id: nat, text: string, reply: string)
    | Close

  datatype Moment = Moment(now: nat, event: Event)

  function Max(a: nat, b: nat): nat {
    if a < b then b else a
  }

  /** A connection without its cache and without its marks on the latest challenge. */
  datatype Talk = Talk(open: bool, issued: seq<nat>, extended: seq<nat>, history: seq<Executed>,
                       deadline: nat, rateStart: nat, rateCount: nat)

  function Latest(issued: seq<nat>): Option<nat> {
    if issued == [] then None else Some(issued[|issued| - 1])
  }

  function Limited(t: Talk, now: nat): Talk {
    if now >= t.rateStart + RATE_WINDOW then t.(rateStart := now, rateCount := 1, open := 1 <= MAX_RATE)
    else t.(rateCount := t.rateCount + 1, open := t.rateCount + 1 <= MAX_RATE)
  }

  /** An answer extends once, may be repeated while it is the latest to have extended, and ends the talk otherwise. */
  function Answered(t: Talk, now: nat, answer: nat): Talk {
    if Latest(t.extended) == Some(answer) then t
    else if Latest(t.issued) == Some(answer) && answer !in t.extended
    then t.(extended := t.extended + [answer], deadline := now + LEASE)
    else t.(open := false)
  }

  /** A request is executed once, and one that contradicts what is remembered ends the talk. */
  function Requested(t: Talk, id: nat, text: string, reply: string): Talk {
    var known := Lookup(Recent(t.history), id);
    if known.None? then t.(history := t.history + [Executed(id, text, reply)])
    else t.(open := known.value.text == text)
  }

  function Heard(t: Talk, m: Moment): Talk {
    if !t.open then t
    else if m.now >= t.deadline then t.(open := false)
    else
      match m.event
      case Close => t.(open := false)
      case Timer(next) =>
        var latest := Latest(t.issued);
        if latest.Some? && latest.value in t.extended then t.(issued := t.issued + [next]) else t
      case Renewal(answer) => var l := Limited(t, m.now); if l.open then Answered(l, m.now, answer) else l
      case Request(id, text, reply) => var l := Limited(t, m.now); if l.open then Requested(l, id, text, reply) else l
  }

  function HeardAll(t: Talk, script: seq<Moment>): Talk {
    if script == [] then t else Heard(HeardAll(t, script[..|script| - 1]), script[|script| - 1])
  }

  /** Opening a connection issues its first challenge. */
  function Opening(start: nat, first: nat): Talk {
    Talk(true, [first], [], [], start + LEASE, start, 0)
  }

  lemma {:induction false} ClosedStays(t: Talk, script: seq<Moment>, n: nat)
    requires n <= |script| && !HeardAll(t, script[..n]).open
    ensures HeardAll(t, script) == HeardAll(t, script[..n])
    decreases |script|
  {
    if n == |script| {
      assert script[..n] == script;
    } else {
      assert script[..|script| - 1][..n] == script[..n];
      ClosedStays(t, script[..|script| - 1], n);
    }
  }

  // ----- What the reference promises -----

  lemma {:induction false} UnknownIsAbsent(entries: seq<Executed>, id: nat, k: nat)
    requires Lookup(entries, id).None? && k < |entries|
    ensures entries[k].id != id
  {
    if k < |entries| - 1 {
      UnknownIsAbsent(entries[..|entries| - 1], id, k);
    }
  }

  /** The same id was executed again only after 128 others. */
  ghost predicate Apart(history: seq<Executed>) {
    forall i, j :: 0 <= i < j < |history| && history[i].id == history[j].id ==> j - i > 128
  }

  lemma ApartMore(history: seq<Executed>, e: Executed)
    requires Apart(history) && Lookup(Recent(history), e.id).None?
    ensures Apart(history + [e])
  {
    forall i | 0 <= i < |history| && history[i].id == e.id ensures |history| - i > 128 {
      var skipped := |history| - |Recent(history)|;
      if i >= skipped {
        assert Recent(history)[i - skipped] == history[i];
        UnknownIsAbsent(Recent(history), e.id, i - skipped);
      }
    }
  }

  /** A remembered request is never executed again: two executions of one id lie more than 128 apart. */
  lemma {:induction false} NeverTwice(t: Talk, script: seq<Moment>)
    requires Apart(t.history)
    ensures Apart(HeardAll(t, script).history)
  {
    if script != [] {
      var n := |script| - 1;
      NeverTwice(t, script[..n]);
      HeardApart(HeardAll(t, script[..n]), script[n]);
    }
  }

  lemma HeardApart(t: Talk, m: Moment)
    requires Apart(t.history)
    ensures Apart(Heard(t, m).history)
  {
    hide Apart, Lookup, Recent;
    if m.event.Request? && Lookup(Recent(t.history), m.event.id).None? {
      ApartMore(t.history, Executed(m.event.id, m.event.text, m.event.reply));
    }
  }

  /** The deadline stands three seconds after the answer that extended it last, or after the start. */
  ghost predicate Dated(t: Talk, start: nat, script: seq<Moment>) {
    if t.extended == [] then t.deadline == start + 3000
    else exists k :: ExtendsAt(t, script, k)
  }

  predicate ExtendsAt(t: Talk, script: seq<Moment>, k: int) {
    0 <= k < |script| && t.extended != [] && script[k].event == Renewal(t.extended[|t.extended| - 1])
    && t.deadline == script[k].now + 3000
  }

  lemma {:induction false} DeadlineIsDated(start: nat, first: nat, script: seq<Moment>)
    ensures Dated(HeardAll(Opening(start, first), script), start, script)
  {
    if script != [] {
      var n := |script| - 1;
      DeadlineIsDated(start, first, script[..n]);
      HeardIsDated(HeardAll(Opening(start, first), script[..n]), start, script);
    }
  }

  lemma HeardIsDated(t: Talk, start: nat, script: seq<Moment>)
    requires script != [] && Dated(t, start, script[..|script| - 1])
    ensures Dated(Heard(t, script[|script| - 1]), start, script)
  {
    hide Lookup, Recent;
    var n := |script| - 1;
    var t' := Heard(t, script[n]);
    if t'.extended == t.extended && t.extended != [] {
      var k :| ExtendsAt(t, script[..n], k);
      assert ExtendsAt(t', script, k);
    } else if t'.extended != t.extended {
      assert ExtendsAt(t', script, n);
    }
  }

  /** A moment at or after the deadline ends the connection and does nothing else. */
  lemma LateIsOver(t: Talk, m: Moment)
    requires t.open && m.now >= t.deadline
    ensures Heard(t, m) == t.(open := false)
  {
  }

  /** In time, the latest challenge extends once; its repetition is tolerated; any other answer ends the connection. */
  lemma AnswersExactly(t: Talk, now: nat, answer: nat)
    requires t.open && now < t.deadline && t.issued != []
    requires now < t.rateStart + 1000 && t.rateCount < 20
    ensures var h := Heard(t, Moment(now, Renewal(answer)));
            && (h.extended == t.extended + [answer] && h.deadline == now + 3000
                <==> answer == t.issued[|t.issued| - 1] && answer !in t.extended)
            && (h.open <==> (t.extended != [] && answer == t.extended[|t.extended| - 1])
                            || (answer == t.issued[|t.issued| - 1] && answer !in t.extended))
            && h.history == t.history && h.issued == t.issued
  {
  }

  /** A close ends the connection and changes nothing else. */
  lemma CloseEnds(t: Talk, now: nat)
    requires t.open
    ensures Heard(t, Moment(now, Close)) == t.(open := false)
  {
  }

  /** A challenge that was answered is replaced by the next one; an open one stays. */
  lemma ChallengesExactly(t: Talk, now: nat, next: nat)
    requires t.open && now < t.deadline && t.issued != []
    ensures Heard(t, Moment(now, Timer(next)))
            == if t.issued[|t.issued| - 1] in t.extended then t.(issued := t.issued + [next]) else t
  {
  }

  /** In time, a request is executed if its id is not among the last 128; the same id with another text ends the connection. */
  lemma RequestsExactly(t: Talk, now: nat, id: nat, text: string, reply: string)
    requires t.open && now < t.deadline && now < t.rateStart + 1000 && t.rateCount < 20
    ensures var h := Heard(t, Moment(now, Request(id, text, reply)));
            && (h.history == t.history + [Executed(id, text, reply)]
                <==> forall k :: 0 <= k < |t.history| && k >= |t.history| - 128 ==> t.history[k].id != id)
            && h.extended == t.extended && h.issued == t.issued && h.deadline == t.deadline
            && (h.open <==> forall k :: LatestUnder(t.history, id, k) ==> t.history[k].text == text)
  {
    hide Lookup;
    var recent := Recent(t.history);
    var skipped := |t.history| - |recent|;
    if k :| 0 <= k < |recent| && recent[k].id == id {
      var last := LastUnder(recent, id, k);
      assert LatestUnder(t.history, id, skipped + last);
    } else {
      LookupMisses(recent, id);
      assert forall k :: 0 <= k < |t.history| && k >= |t.history| - 128 ==> recent[k - skipped] == t.history[k];
    }
  }

  /** The latest execution under `id`, if it is among the last 128. */
  predicate LatestUnder(history: seq<Executed>, id: nat, k: int) {
    0 <= k < |history| && k >= |history| - 128 && history[k].id == id
    && forall j :: k < j < |history| ==> history[j].id != id
  }

  lemma {:induction false} LastUnder(entries: seq<Executed>, id: nat, k: nat) returns (last: nat)
    requires k < |entries| && entries[k].id == id
    ensures last < |entries| && entries[last].id == id && Lookup(entries, id) == Some(entries[last])
    ensures forall j :: last < j < |entries| ==> entries[j].id != id
  {
    var n := |entries| - 1;
    if entries[n].id == id {
      last := n;
    } else {
      last := LastUnder(entries[..n], id, k);
    }
  }

  /** Twenty answers and requests a second: the twenty-first within a second of the first ends the connection. */
  lemma TwentyASecond(t: Talk, now: nat, event: Event)
    requires t.open && now < t.deadline && (event.Renewal? || event.Request?)
    ensures var h := Heard(t, Moment(now, event));
            && (now >= t.rateStart + 1000 ==> h.rateStart == now && h.rateCount == 1)
            && (now < t.rateStart + 1000 ==> h.rateStart == t.rateStart && h.rateCount == t.rateCount + 1)
            && (now < t.rateStart + 1000 && t.rateCount >= 20 ==>
                  !h.open && h.extended == t.extended && h.history == t.history)
  {
    hide Lookup, Recent;
  }

  class Socket {
    var nonce: nat
    var consumed: bool
    var lastConsumed: Option<nat>
    var deadline: nat
    var rateStart: nat
    var rateCount: nat
    var cache: map<nat, (string, string)>
    var order: seq<nat>
    ghost var issued: seq<nat>         // every nonce ever sent, in order
    ghost var extended: seq<nat>       // the nonces whose answers extended the deadline
    ghost var history: seq<Executed>   // every request that was executed

    /** Each challenge extends at most once, and only while it is the latest. */
    ghost predicate Challenged()
      reads this`nonce, this`consumed, this`lastConsumed, this`issued, this`extended
    {
      && issued != [] && issued[|issued| - 1] == nonce
      && (forall i, j :: 0 <= i < j < |issued| ==> issued[i] != issued[j])
      && (forall i, j :: 0 <= i < j < |extended| ==> extended[i] != extended[j])
      && (forall i :: 0 <= i < |extended| ==> extended[i] in issued)
      && (consumed <==> extended != [] && extended[|extended| - 1] == nonce)
      && (!consumed ==> nonce !in extended)
      && lastConsumed == if extended == [] then None else Some(extended[|extended| - 1])
    }

    /** The bounded cache is the unbounded map, cut down to the latest ids. */
    ghost predicate Cached()
      reads this`cache, this`order, this`history
    {
      Mirrors(cache, order, Recent(history))
    }

    ghost predicate Valid()
      reads this
    {
      Challenged() && Cached()
    }

    /** What the connection comes to for those who talk to it. */
    ghost function Here(open: bool): Talk
      reads this`issued, this`extended, this`history, this`deadline, this`rateStart, this`rateCount
    {
      Talk(open, issued, extended, history, deadline, rateStart, rateCount)
    }

    constructor (now: nat, first: nat)
      ensures Valid() && Here(true) == Opening(now, first)
    {
      nonce, consumed, lastConsumed, deadline := first, false, None, now + LEASE;
      rateStart, rateCount := now, 0;
      cache, order := map[], [];
      issued, extended, history := [first], [], [];
    }

    /** The timer: an answered challenge is replaced, an open one is sent again. */
    method Tick(next: nat)
      requires Valid() && next !in issued
      modifies this`nonce, this`consumed, this`issued
      ensures Valid() && !consumed
      ensures issued == if old(consumed) then old(issued) + [next] else old(issued)
    {
      hide Cached;
      if consumed {
        nonce, consumed := next, false;
        issued := issued + [next];
        assert forall i :: 0 <= i < |issued| - 1 ==> issued[i] in old(issued);
      }
    }

    /** There were at least as many challenges as extensions. */
    lemma ExtendedFewer()
      requires Valid()
      ensures |extended| <= |issued|
    {
      Fewer(extended, issued);
    }

    /** An answer to a challenge: extends the deadline once, tolerates its own repetition. */
    method Renew(now: nat, answer: nat) returns (r: Answer)
      requires Valid()
      modifies this`consumed, this`lastConsumed, this`deadline, this`extended
      ensures Valid()
      ensures r.Renewed? <==> answer !in old(extended) && answer == nonce && now < old(deadline)
      ensures r.Renewed? ==> deadline == now + LEASE && extended == old(extended) + [answer]
      ensures !r.Renewed? ==> deadline == old(deadline) && extended == old(extended)
      ensures r.Repeated? <==> old(extended) != [] && answer == old(extended)[|old(extended)| - 1]
    {
      hide Cached;
      if lastConsumed == Some(answer) {
        return Repeated;
      }
      if consumed || now >= deadline || answer != nonce {
        return Expired;
      }
      lastConsumed, consumed, deadline := Some(nonce), true, now + LEASE;
      extended := extended + [answer];
      r := Renewed;
    }

    /** Fixed windows of a second, twenty requests each. */
    method Admit(now: nat) returns (ok: bool)
      requires Valid() && rateStart <= now
      modifies this`rateStart, this`rateCount
      ensures Valid() && rateStart <= now
      ensures ok ==> rateCount <= MAX_RATE
      ensures if now - old(rateStart) >= RATE_WINDOW then rateStart == now && rateCount == 1
              else rateStart == old(rateStart) && rateCount == old(rateCount) + 1
      ensures ok <==> rateCount <= MAX_RATE
    {
      if now - rateStart >= RATE_WINDOW {
        rateStart, rateCount := now, 0;
      }
      rateCount := rateCount + 1;
      ok := rateCount <= MAX_RATE;
    }

    /** What the cache says of a request, before anything is executed. */
    method Recall(id: nat, text: string) returns (r: Option<Response>)
      requires Valid()
      ensures var known := Lookup(Recent(history), id);
              r == if known.None? then None
                   else if known.value.text != text then Some(Conflict)
                   else Some(Reply(known.value.reply))
    {
      RecallIsLookup(id);
      if id in cache {
        if cache[id].0 != text {
          return Some(Conflict);
        }
        return Some(Reply(cache[id].1));
      }
      r := None;
    }

    lemma RecallIsLookup(id: nat)
      requires Valid()
      ensures id in cache <==> Lookup(Recent(history), id).Some?
      ensures id in cache ==>
                var known := Lookup(Recent(history), id).value;
                cache[id] == (known.text, known.reply)
    {
      var recent := Recent(history);
      if id in cache {
        var k :| 0 <= k < |order| && order[k] == id;
        LookupFinds(recent, k);
      } else {
        forall k | 0 <= k < |recent| ensures recent[k].id != id {
          assert order[k] in order;
        }
        LookupMisses(recent, id);
      }
    }

    /** An executed request is remembered; the oldest one over the limit is forgotten. */
    method Remember(id: nat, text: string, reply: string)
      requires Valid() && Lookup(Recent(history), id).None?
      modifies this`cache, this`order, this`history
      ensures Valid() && history == old(history) + [Executed(id, text, reply)]
    {
      hide Mirrors, Lookup, Recent, Without;
      NotRemembered(id);
      ghost var e := Executed(id, text, reply);
      ghost var recent := Recent(history);
      MirrorsMore(cache, order, recent, e);
      SameLength(cache, order, recent);
      RecentMore(history, e);
      cache := cache[id := (text, reply)];
      order := order + [id];
      history := history + [e];
      if |order| > REMEMBERED {
        MirrorsLess(cache, order, recent + [e]);
        cache := Without(cache, order[0]);
        order := order[1..];
      }
    }

    lemma NotRemembered(id: nat)
      requires Valid() && Lookup(Recent(history), id).None?
      ensures id !in order
    {
      RecallIsLookup(id);
    }

    /** A request with an id; `reply` is what executing it would answer. */
    method Call(id: nat, text: string, reply: string) returns (r: Response)
      requires Valid()
      modifies this`cache, this`order, this`history
      ensures Valid()
      ensures var known := Lookup(Recent(old(history)), id);
              && history == (if known.None? then old(history) + [Executed(id, text, reply)] else old(history))
              && r == if known.None? then Reply(reply)
                      else if known.value.text != text then Conflict
                      else Reply(known.value.reply)
    {
      hide Mirrors, Lookup;
      var known := Recall(id, text);
      if known.Some? {
        return known.value;
      }
      Remember(id, text, reply);
      r := Reply(reply);
    }

    /** One turn of the loop of `handle_ws`; false when it is the last. */
    method Hear(m: Moment) returns (open: bool)
      requires Valid() && rateStart <= m.now && (m.event.Timer? ==> m.event.next !in issued)
      modifies this
      ensures Valid() && Here(open) == Heard(old(Here(true)), m)
      ensures rateStart <= m.now && deadline <= Max(old(deadline), m.now + LEASE)
      ensures issued == old(issued) || (m.event.Timer? && issued == old(issued) + [m.event.next])
    {
      hide Valid, Recent, Lookup;
      if m.now >= deadline {
        return false;
      }
      LatestExtended();
      match m.event {
        case Close => open := false;
        case Timer(next) =>
          Tick(next);
          open := true;
        case Renewal(answer) =>
          open := Admit(m.now);
          if open {
            var r := Renew(m.now, answer);
            open := !r.Expired?;
          }
        case Request(id, text, reply) =>
          open := Admit(m.now);
          if open {
            var r := Call(id, text, reply);
            open := !r.Conflict?;
          }
      }
    }

    lemma LatestExtended()
      requires Valid()
      ensures Latest(issued) == Some(nonce) && (consumed <==> nonce in extended)
    {
    }
  }

  /**
   * `handle_ws`: until the deadline, a close, or a violation of the protocol.
   * Fresh nonces are new to this socket; the clock does not run backwards.
   */
  method Serve(start: nat, first: nat, script: seq<Moment>) returns (socket: Socket, open: bool)
    requires forall k :: 0 <= k < |script| ==> start <= script[k].now
    requires forall j, k :: 0 <= j < k < |script| ==> script[j].now <= script[k].now
    requires forall k :: 0 <= k < |script| && script[k].event.Timer? ==> script[k].event.next != first
    requires forall j, k :: 0 <= j < k < |script| && script[j].event.Timer? && script[k].event.Timer? ==>
                              script[j].event.next != script[k].event.next
    ensures fresh(socket) && socket.Valid()
    ensures socket.Here(open) == HeardAll(Opening(start, first), script)
    ensures |socket.extended| <= |socket.issued|
    ensures socket.deadline <= (if script == [] then start else script[|script| - 1].now) + LEASE
  {
    hide Socket.Valid, Recent, Lookup, Heard;
    socket := new Socket(start, first);
    open := true;
    ghost var top := Opening(start, first);
    for i := 0 to |script|
      invariant open && fresh(socket) && socket.Valid()
      invariant socket.rateStart <= (if i == 0 then start else script[i - 1].now)
      invariant socket.deadline <= (if i == 0 then start else script[i - 1].now) + LEASE
      invariant forall n :: n in socket.issued ==> n == first || exists k :: 0 <= k < i && script[k].event == Timer(n)
      invariant socket.Here(true) == HeardAll(top, script[..i])
    {
      assert script[..i + 1][..i] == script[..i];
      open := socket.Hear(script[i]);
      if !open {
        ClosedStays(top, script, i + 1);
        break;
      }
    }
    assert script[..|script|] == script;
    socket.ExtendedFewer();
  }
}
