// Session persistence (apps/agent/src/session.rs): an in-memory context and the
// append-only log that must replay to it.
//
// Entry ids are the position in the log: the source draws them at random and
// assumes them distinct.  Every write to the log succeeds.
module SessionLog {
  import opened Basics
  import opened Protocol

  datatype Body =
    | MessageBody(message: Message)
    | CompactionBody(message: Message, kept: Option<nat>)
    | RollbackBody(retain: nat)
    | NameBody(name: string)
    | SettingBody(setting: string)

  datatype Entry = Entry(id: nat, parent: Option<nat>, body: Body)

  /** The fields of a session that a replay restores. */
  datatype Context = Context(messages: seq<Message>, usageFloor: nat, name: Option<string>, leaf: Option<nat>)

  const EMPTY := Context([], 0, None, None)

  function Min(a: nat, b: nat): nat {
    if a < b then a else b
  }

  function LoadEntry(c: Context, e: Entry): Context {
    var c' := match e.body
      case MessageBody(m) => c.(messages := c.messages + [m])
      case CompactionBody(m, kept) =>
        c.(messages := [m], usageFloor := 1 + if kept.Some? then kept.value else 0)
      case RollbackBody(retain) =>
        if retain <= |c.messages| then
          c.(messages := c.messages[..retain], usageFloor := Min(c.usageFloor, retain))
        else c
      case NameBody(name) => c.(name := Some(name))
      case SettingBody(_) => c;
    c'.(leaf := Some(e.id))
  }

  function Replay(log: seq<Entry>): Context {
    if log == [] then EMPTY else LoadEntry(Replay(log[..|log| - 1]), log[|log| - 1])
  }

  /** One `parentId` chain: every entry hangs off the one before it (whose id is its position). */
  ghost predicate Chain(log: seq<Entry>) {
    forall k :: 0 <= k < |log| ==>
                  log[k].id == k && log[k].parent == if k == 0 then None else Some(k - 1)
  }

  function LeafOf(log: seq<Entry>): Option<nat> {
    if log == [] then None else Some(|log| - 1)
  }

  function NextEntry(log: seq<Entry>, body: Body): Entry {
    Entry(|log|, LeafOf(log), body)
  }

  function Appended(log: seq<Entry>, body: Body): (r: seq<Entry>)
    ensures |r| == |log| + 1 && r[..|log|] == log
  {
    log + [NextEntry(log, body)]
  }

  function AppendedAll(log: seq<Entry>, bodies: seq<Body>): (r: seq<Entry>)
    ensures |r| == |log| + |bodies| && r[..|log|] == log
  {
    if bodies == [] then log
    else Appended(AppendedAll(log, bodies[..|bodies| - 1]), bodies[|bodies| - 1])
  }

  lemma ReplayAppended(log: seq<Entry>, body: Body)
    ensures Replay(Appended(log, body)) == LoadEntry(Replay(log), NextEntry(log, body))
  {
  }

  lemma {:induction false} LeafIsLast(log: seq<Entry>)
    requires Chain(log)
    ensures Replay(log).leaf == LeafOf(log)
  {
  }

  function Messages(bodies: seq<Message>): seq<Body> {
    seq(|bodies|, i requires 0 <= i < |bodies| => MessageBody(bodies[i]))
  }

  lemma AppendedMessages(log: seq<Entry>, ms: seq<Message>, i: nat)
    requires i < |ms|
    ensures AppendedAll(log, Messages(ms[..i + 1]))
            == Appended(AppendedAll(log, Messages(ms[..i])), MessageBody(ms[i]))
  {
    assert Messages(ms[..i + 1])[..i] == Messages(ms[..i]);
  }

  /** `log` replays to `c`, give or take the messages in `more`. */
  ghost predicate ReplaysWith(log: seq<Entry>, c: Context, more: seq<Message>) {
    Replay(log) == Context(c.messages + more, c.usageFloor, c.name, LeafOf(log))
  }

  lemma ReplayOneMore(log: seq<Entry>, c: Context, more: seq<Message>, m: Message)
    requires ReplaysWith(log, c, more)
    ensures ReplaysWith(Appended(log, MessageBody(m)), c, more + [m])
  {
    ReplayAppended(log, MessageBody(m));
    assert c.messages + more + [m] == c.messages + (more + [m]);
  }

  lemma {:induction false} ReplayMessages(log: seq<Entry>, c: Context, ms: seq<Message>, j: nat)
    requires j <= |ms| && ReplaysWith(log, c, [])
    ensures ReplaysWith(AppendedAll(log, Messages(ms[..j])), c, ms[..j])
  {
    if j == 0 {
      assert ms[..0] == [] && Messages(ms[..0]) == [];
    } else {
      hide ReplaysWith, AppendedAll, Messages, Appended;
      ReplayMessages(log, c, ms, j - 1);
      ReplayOneMore(AppendedAll(log, Messages(ms[..j - 1])), c, ms[..j - 1], ms[j - 1]);
      AppendedMessages(log, ms, j - 1);
      assert ms[..j] == ms[..j - 1] + [ms[j - 1]];
    }
  }

  // ----- Archives -----

  /** `kept` are indices into `ms`; those out of range are skipped. */
  function Selected(ms: seq<Message>, kept: seq<nat>): (r: seq<Message>)
    ensures |r| <= |kept|
  {
    if kept == [] then []
    else
      var n := |kept| - 1;
      Selected(ms, kept[..n]) + if kept[n] < |ms| then [ms[kept[n]]] else []
  }

  const OPEN_TAG := "<genehub-compacted-context>\n"
  const CLOSE_TAG := "\n</genehub-compacted-context>"

  function SummaryMessage(summary: string): (m: Message)
    ensures m.User?
  {
    User(OPEN_TAG + summary + CLOSE_TAG, [])
  }

  /** A summary enters as a user message between its tags, and different summaries stay different. */
  lemma SummariesAre(summary: string, other: string)
    ensures SummaryMessage(summary)
            == User("<genehub-compacted-context>\n" + summary + "\n</genehub-compacted-context>", [])
    ensures SummaryMessage(summary) == SummaryMessage(other) <==> summary == other
  {
    var a, b := SummaryMessage(summary).text, SummaryMessage(other).text;
    assert a[|OPEN_TAG|..|a| - |CLOSE_TAG|] == summary && b[|OPEN_TAG|..|b| - |CLOSE_TAG|] == other;
  }

  /** What an archive writes: the reset, then each kept message again. */
  function ArchiveBodies(summary: string, kept: seq<Message>): seq<Body> {
    [CompactionBody(SummaryMessage(summary), Some(|kept|))] + Messages(kept)
  }

  /** What is restored from an archive of which `j` kept messages reached the disk. */
  function ArchiveContext(summary: string, kept: seq<Message>, j: nat, name: Option<string>, leaf: Option<nat>): Context
    requires j <= |kept|
  {
    Context([SummaryMessage(summary)] + kept[..j], 1 + |kept|, name, leaf)
  }

  /** However much of an archive reached the disk, replay gives the summary and a prefix of what was kept. */
  lemma CutArchiveReplays(log: seq<Entry>, summary: string, kept: seq<Message>, j: nat,
                          written: seq<Body>, log': seq<Entry>)
    requires j <= |kept| && written == ArchiveBodies(summary, kept)[..1 + j]
    requires log' == AppendedAll(log, written)
    ensures Replay(log') == ArchiveContext(summary, kept, j, Replay(log).name, LeafOf(log'))
  {
    var reset := CompactionBody(SummaryMessage(summary), Some(|kept|));
    var start := Appended(log, reset);
    ReplayAppended(log, reset);
    assert Replay(start).messages + [] == Replay(start).messages;
    ReplayMessages(start, Replay(start), kept, j);
    AppendedAllSplit(log, reset, Messages(kept[..j]));
    assert written == [reset] + Messages(kept[..j]);
  }

  lemma {:induction false} AppendedAllSplit(log: seq<Entry>, first: Body, rest: seq<Body>)
    ensures AppendedAll(log, [first] + rest) == AppendedAll(Appended(log, first), rest)
  {
    var all := [first] + rest;
    if rest == [] {
      assert all[..0] == [] && AppendedAll(log, all[..0]) == log;
    } else {
      AppendedAllSplit(log, first, rest[..|rest| - 1]);
      assert all[..|all| - 1] == [first] + rest[..|rest| - 1];
    }
  }

  // ----- Where each message came from -----

  /**
   * `copied[k]` marks a log entry that an archive wrote to carry an older
   * message over.  Such entries directly follow their archive, and there are at
   * most as many as it announced: `Owing` counts those still to come.
   */
  ghost function Owing(log: seq<Entry>, copied: seq<bool>): Option<nat>
    requires |copied| == |log|
  {
    if log == [] then Some(0)
    else
      var n := |log| - 1;
      var before := Owing(log[..n], copied[..n]);
      if before.None? then None
      else if copied[n] then
        if log[n].body.MessageBody? && before.value > 0 then Some(before.value - 1) else None
      else if log[n].body.CompactionBody? && log[n].body.kept.Some? then log[n].body.kept
      else Some(0)
  }

  /** Stale messages predate the latest archive or compaction, or are its own summary or copies. */
  ghost function Stale(log: seq<Entry>, copied: seq<bool>): (r: seq<bool>)
    requires |copied| == |log|
    ensures |r| == |Replay(log).messages|
  {
    if log == [] then []
    else
      var n := |log| - 1;
      var before := Stale(log[..n], copied[..n]);
      match log[n].body
      case MessageBody(_) => before + [copied[n]]
      case CompactionBody(_, _) => [true]
      case RollbackBody(retain) => if retain <= |before| then before[..retain] else before
      case _ => before
  }

  /** From `usageFloor` on, every message was first written after the latest archive or compaction. */
  lemma {:induction false} FreshFromFloor(log: seq<Entry>, copied: seq<bool>)
    requires |copied| == |log| && Owing(log, copied).Some?
    ensures var c := Replay(log);
            && (forall i :: c.usageFloor <= i < |c.messages| ==> !Stale(log, copied)[i])
            && (Owing(log, copied).value > 0 ==>
                  |c.messages| + Owing(log, copied).value == c.usageFloor)
  {
    if log != [] {
      FreshFromFloor(log[..|log| - 1], copied[..|log| - 1]);
    }
  }

  /** A log cut anywhere is still of that shape. */
  lemma {:induction false} CutLogOwing(log: seq<Entry>, copied: seq<bool>, n: nat)
    requires |copied| == |log| && n <= |log| && Owing(log, copied).Some?
    ensures Owing(log[..n], copied[..n]).Some?
    decreases |log|
  {
    if n < |log| {
      CutLogOwing(log[..|log| - 1], copied[..|log| - 1], n);
      assert log[..|log| - 1][..n] == log[..n] && copied[..|log| - 1][..n] == copied[..n];
    } else {
      assert log[..n] == log && copied[..n] == copied;
    }
  }

  lemma OwingAppended(log: seq<Entry>, copied: seq<bool>, body: Body, copy: bool)
    requires |copied| == |log| && Owing(log, copied).Some?
    requires copy ==> body.MessageBody? && Owing(log, copied).value > 0
    ensures Owing(Appended(log, body), copied + [copy])
            == if copy then Some(Owing(log, copied).value - 1)
               else if body.CompactionBody? && body.kept.Some? then body.kept
               else Some(0)
  {
    assert (copied + [copy])[..|log|] == copied;
  }

  class Session {
    var messages: seq<Message>
    var usageFloor: nat
    var leafId: Option<nat>
    var name: Option<string>
    var log: seq<Entry>
    ghost var copied: seq<bool>

    ghost function Now(): Context
      reads this
    {
      Context(messages, usageFloor, name, leafId)
    }

    /** The context in memory is what reopening the file would restore. */
    ghost predicate Valid()
      reads this
    {
      && Chain(log) && Replay(log) == Now()
      && |copied| == |log| && Owing(log, copied).Some?
    }

    /** `Session::open`: an empty or missing file starts an empty session. */
    constructor Open(file: seq<Entry>, ghost copied: seq<bool>)
      requires Chain(file) && |copied| == |file| && Owing(file, copied).Some?
      ensures Valid() && log == file && this.copied == copied
    {
      messages, usageFloor, leafId, name := [], 0, None, None;
      log := file;
      this.copied := copied;
      new;
      for k := 0 to |file|
        invariant log == file && this.copied == copied
        invariant Now() == Replay(file[..k])
      {
        var entry := file[k];
        match entry.body {
          case MessageBody(m) =>
            messages := messages + [m];
          case CompactionBody(m, kept) =>
            messages := [m];
            usageFloor := 1 + if kept.Some? then kept.value else 0;
          case RollbackBody(retain) =>
            if retain <= |messages| {
              messages := messages[..retain];
              usageFloor := Min(usageFloor, retain);
            }
          case NameBody(n) =>
            name := Some(n);
          case SettingBody(_) =>
        }
        leafId := Some(entry.id);
        assert file[..k + 1][..k] == file[..k];
      }
      assert file[..|file|] == file;
    }

    method AppendEntry(body: Body, ghost copy: bool)
      requires Chain(log) && leafId == LeafOf(log) && |copied| == |log|
      modifies this`log, this`leafId, this`copied
      ensures Chain(log) && log == Appended(old(log), body) && leafId == LeafOf(log)
      ensures copied == old(copied) + [copy]
    {
      var id := |log|;
      log := log + [Entry(id, leafId, body)];
      leafId := Some(id);
      copied := copied + [copy];
    }

    method SetName(name: string)
      requires Valid()
      modifies this
      ensures Valid() && messages == old(messages) && usageFloor == old(usageFloor)
      ensures this.name == Some(name) && log == Appended(old(log), NameBody(name))
    {
      LeafIsLast(log);
      OwingAppended(log, copied, NameBody(name), false);
      this.name := Some(name);
      AppendEntry(NameBody(name), false);
    }

    /** `append_model_change` and `append_thinking_level_change`. */
    method AppendSetting(setting: string)
      requires Valid()
      modifies this
      ensures Valid() && messages == old(messages) && usageFloor == old(usageFloor) && name == old(name)
      ensures log == Appended(old(log), SettingBody(setting))
    {
      LeafIsLast(log);
      OwingAppended(log, copied, SettingBody(setting), false);
      AppendEntry(SettingBody(setting), false);
    }

    method AppendMessage(m: Message)
      requires Valid()
      modifies this
      ensures Valid() && messages == old(messages) + [m]
      ensures usageFloor == old(usageFloor) && name == old(name)
      ensures log == Appended(old(log), MessageBody(m))
    {
      LeafIsLast(log);
      OwingAppended(log, copied, MessageBody(m), false);
      messages := messages + [m];
      AppendEntry(MessageBody(m), false);
    }

    method RollbackFailedTurn(retain: nat)
      requires Valid()
      modifies this
      ensures Valid() && name == old(name)
      ensures messages == if retain < |old(messages)| then old(messages)[..retain] else old(messages)
      ensures usageFloor == if retain < |old(messages)| then Min(old(usageFloor), retain) else old(usageFloor)
      ensures log == if retain < |old(messages)| then Appended(old(log), RollbackBody(retain)) else old(log)
    {
      if retain >= |messages| {
        return;
      }
      LeafIsLast(log);
      OwingAppended(log, copied, RollbackBody(retain), false);
      messages := messages[..retain];
      usageFloor := Min(usageFloor, retain);
      AppendEntry(RollbackBody(retain), false);
    }

    /** `append_message`, for a message an archive carries over. */
    method AppendCopy(m: Message)
      requires Chain(log) && leafId == LeafOf(log) && |copied| == |log|
      requires Owing(log, copied).Some? && Owing(log, copied).value > 0
      modifies this`log, this`leafId, this`copied, this`messages
      ensures Chain(log) && leafId == LeafOf(log) && |copied| == |log|
      ensures Owing(log, copied) == Some(old(Owing(log, copied)).value - 1)
      ensures log == Appended(old(log), MessageBody(m)) && messages == old(messages) + [m]
    {
      OwingAppended(log, copied, MessageBody(m), true);
      messages := messages + [m];
      AppendEntry(MessageBody(m), true);
    }

    /** The append loop of an archive, between its reset entry and the new floor. */
    method AppendCopies(kept: seq<Message>)
      requires Chain(log) && leafId == LeafOf(log) && |copied| == |log|
      requires Owing(log, copied) == Some(|kept|)
      modifies this`log, this`leafId, this`copied, this`messages
      ensures Chain(log) && leafId == LeafOf(log) && |copied| == |log|
      ensures Owing(log, copied).Some?
      ensures log == AppendedAll(old(log), Messages(kept))
      ensures messages == old(messages) + kept
    {
      hide Owing, Appended;
      for i := 0 to |kept|
        invariant Chain(log) && leafId == LeafOf(log) && |copied| == |log|
        invariant Owing(log, copied) == Some(|kept| - i)
        invariant log == AppendedAll(old(log), Messages(kept[..i]))
        invariant messages == old(messages) + kept[..i]
      {
        AppendCopy(kept[i]);
        AppendedMessages(old(log), kept, i);
        assert kept[..i + 1] == kept[..i] + [kept[i]];
      }
      assert kept[..|kept|] == kept;
    }

    method ReplaceWithArchive(summary: string, kept: seq<nat>)
      requires Valid()
      modifies this
      ensures Valid() && name == old(name)
      ensures messages == [SummaryMessage(summary)] + Selected(old(messages), kept)
      ensures usageFloor == |messages|
      ensures log == AppendedAll(old(log), ArchiveBodies(summary, Selected(old(messages), kept)))
    {
      var keptMessages := Selected(messages, kept);
      ghost var bodies := ArchiveBodies(summary, keptMessages);
      ghost var oldName := Replay(log).name;
      StartArchive(SummaryMessage(summary), |keptMessages|);
      AppendCopies(keptMessages);
      usageFloor := |messages|;
      assert log == AppendedAll(old(log), bodies) by {
        AppendedAllSplit(old(log), bodies[0], Messages(keptMessages));
      }
      assert Replay(log) == ArchiveContext(summary, keptMessages, |keptMessages|, oldName, LeafOf(log)) by {
        CutArchiveReplays(old(log), summary, keptMessages, |keptMessages|, bodies, log);
      }
    }

    method StartArchive(message: Message, keptCount: nat)
      requires Valid()
      modifies this`log, this`leafId, this`copied, this`messages
      ensures Chain(log) && leafId == LeafOf(log) && |copied| == |log|
      ensures Owing(log, copied) == Some(keptCount)
      ensures messages == [message] && log == Appended(old(log), CompactionBody(message, Some(keptCount)))
    {
      LeafIsLast(log);
      OwingAppended(log, copied, CompactionBody(message, Some(keptCount)), false);
      messages := [message];
      AppendEntry(CompactionBody(message, Some(keptCount)), false);
    }

    method ReplaceWithCompaction(summary: string)
      requires Valid()
      modifies this
      ensures Valid() && name == old(name)
      ensures messages == [SummaryMessage(summary)] && usageFloor == 1
      ensures log == Appended(old(log), CompactionBody(SummaryMessage(summary), None))
    {
      var message := SummaryMessage(summary);
      LeafIsLast(log);
      OwingAppended(log, copied, CompactionBody(message, None), false);
      messages := [message];
      usageFloor := 1;
      AppendEntry(CompactionBody(message, None), false);
    }
  }
}
