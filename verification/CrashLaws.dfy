/** What the world can rely on: published events, answers and restarts, over every run. */
module CrashLaws {
  import opened Octets
  import opened Options
  import opened BookTypes
  import opened BookSpec
  import opened EngineSpec
  import opened Recovery
  import opened CrashSafety

  // Published events.

  /**
   A published event of a command is never lost and never contradicted: it stays
   on disk, at its position, for ever after. A snapshot taken on request is
   what the commands so far made of the book, then and in every later history.
   */
  lemma PublishedStays(k: Symbol, capacity: nat, actions: seq<Action>, n: nat, i: nat)
    requires n <= |actions| && i < |Run(k, capacity, actions[..n]).published|
    ensures var p := Run(k, capacity, actions[..n]).published[i];
      && (p.Journalled? ==> OnDisk(p, Run(k, capacity, actions).durable))
      && (p.Pictured? ==> TruePicture(k, capacity, p, Run(k, capacity, actions).history))
  {
    hide Run, TruePicture, DiskOk, UpOk, AnswersOk;
    RunOk(k, capacity, actions[..n]);
    RunGrows(k, capacity, actions, n);
    var s, t := Run(k, capacity, actions[..n]), Run(k, capacity, actions);
    assert PublicationOk(k, capacity, s.published[i], s.durable, s.history);
    StillPublished(k, capacity, s.published[i], s, t);
    PictureKind(k, capacity, s.published[i], t.history);
  }

  lemma PictureKind(k: Symbol, capacity: nat, p: Publication, history: seq<Entry>)
    ensures TruePicture(k, capacity, p, history) ==> p.Pictured?
  {
  }

  /** The action makes a running engine publish a snapshot on request. */
  predicate TakesPicture(k: Symbol, s: System, a: Action) {
    && s.process.Some? && (a.Request? || a.CrashInside?)
    && Looks(k, s.process.value, a.entry) && k.protocol.decodeControl(a.entry.payload).value.kind.TakeSnapshot?
  }

  lemma {:induction false} ReplayJournalled(k: Symbol, journal: seq<Entry>, from: nat, at: nat)
    requires at <= |journal|
    ensures forall i | 0 <= i < |ReplayFrom(k, journal, from, at)| :: ReplayFrom(k, journal, from, at)[i].Journalled?
    decreases |journal| - at
  {
    hide IsFrom;
    if at < |journal| {
      ReplayJournalled(k, journal, from, at + 1);
    }
  }

  /**
   An event is published without being journalled exactly when a snapshot was asked
   for, and it shows the book of that moment.
   */
  lemma PicturedExactly(k: Symbol, capacity: nat, s: System, a: Action, i: nat)
    requires |s.published| <= i < |Next(k, capacity, s, a).published|
    ensures var t := Next(k, capacity, s, a);
      && (t.published[i].Pictured? <==> TakesPicture(k, s, a))
      && (t.published[i].Pictured? ==>
            && t.published[i].commands == |s.history| && t.history == s.history
            && t.published[i].entry == PictureOf(k, s.process.value.engine.book, t.published[i].timestamp))
  {
    hide EffectOf, Restore, PictureOf, Handle;
    if s.process.Some? && (a.Request? || a.CrashInside?) && Looks(k, s.process.value, a.entry) {
      LooksIsNoCommand(k, s.process.value, a.entry);
      var c := k.protocol.decodeControl(a.entry.payload).value;
      ReplayJournalled(k, s.process.value.engine.journal, c.fromSequence, 0);
    }
  }

  lemma LooksIsNoCommand(k: Symbol, p: Running, entry: Entry)
    requires Looks(k, p, entry)
    ensures !Runs(k, p, entry)
  {
  }

  /** A snapshot asked for before any command is published, and no record of it is on disk. */
  lemma SnapshotUnwritten(k: Symbol, capacity: nat, entry: Entry, c: ControlCommand)
    requires entry.kind == CANCEL && k.protocol.decodeControl(entry.payload) == Some(c)
    requires c.pair == k.pair && c.kind.TakeSnapshot?
    ensures var s := Run(k, capacity, [Request(entry)]);
      s.published == [Pictured(0, c.timestamp, PictureOf(k, Empty(capacity), c.timestamp))] && s.durable == []
  {
    hide PictureOf;
    assert Init([Request(entry)]) == [];
    assert EffectOf(k, Empty(capacity), entry).None?;
  }

  // Answers.

  /** Every id the book has seen was answered. */
  lemma {:induction false} SeenAnswered(k: Symbol, b: Book, commands: seq<Entry>, r: Replies)
    requires Executable(k, b, commands) && b.seen <= r.orders.Keys
    ensures BookAfter(k, b, commands).seen <= RepliesAfter(k, b, commands, r).orders.Keys
    decreases |commands|
  {
    hide EffectOf;
    if commands != [] {
      var e := EffectOf(k, b, commands[0]).value;
      EffectSeen(k, b, commands[0]);
      SeenAnswered(k, e.book, commands[1..], Answered(r, commands[0], e));
    }
  }

  /** The request is an order or a cancel for this partition. */
  predicate Asks(k: Symbol, entry: Entry) {
    Addressed(k, entry).Some? && (entry.kind == ORDER || IsCancel(k, entry))
  }

  /** The id belongs to a replay or snapshot request of this process. */
  predicate Taken(k: Symbol, p: Running, entry: Entry) {
    entry.kind == CANCEL && Addressed(k, entry).Some? && Addressed(k, entry).value in p.volatile
  }

  lemma CancelHasEffect(k: Symbol, b: Book, entry: Entry)
    requires IsCancel(k, entry) && Addressed(k, entry).Some?
    ensures EffectOf(k, b, entry).Some? && EffectOf(k, b, entry).value.id == Addressed(k, entry).value
  {
  }

  lemma OrderHasEffect(k: Symbol, b: Book, entry: Entry)
    requires entry.kind == ORDER && Addressed(k, entry).Some? && Addressed(k, entry).value !in b.seen
    ensures EffectOf(k, b, entry).Some?
  {
    hide FillAll, Insert, Events;
  }

  lemma OrderId(k: Symbol, b: Book, entry: Entry)
    requires entry.kind == ORDER && Addressed(k, entry).Some? && EffectOf(k, b, entry).Some?
    ensures EffectOf(k, b, entry).value.id == Addressed(k, entry).value
  {
    hide BookSpec.Submit, Events;
  }

  /** A request that runs is answered with the reply of the new history. */
  lemma RunsAnswers(k: Symbol, capacity: nat, s: System, entry: Entry)
    requires Inv(k, capacity, s) && s.process.Some? && Runs(k, s.process.value, entry)
    ensures var t := Serving(k, s, s.process.value, entry);
      var e := EffectOf(k, s.process.value.engine.book, entry).value;
      && t.answers == s.answers + [Answer(entry.kind, e.id, e.reply, false)]
      && Executable(k, Empty(capacity), t.history)
      && ReplyTo(RepliesAfter(k, Empty(capacity), t.history, NO_REPLIES), Answer(entry.kind, e.id, e.reply, false))
        == Some(e.reply)
  {
    hide EffectOf, Executable, JournalOf, BookAfter, RepliesAfter, DistinctIds, PublishedOk;
    RunsExtends(k, capacity, s, entry);
  }

  /**
   Every order and every cancel is answered. The answer is the reply of the
   journalled history exactly when the id was not that of a replay or snapshot
   request served since the last restart; in that case the answer is their
   reply, nothing runs, and the history has no reply under that id.
   */
  lemma AnswerExactly(k: Symbol, capacity: nat, s: System, entry: Entry)
    requires Inv(k, capacity, s) && s.process.Some? && Asks(k, entry)
    ensures var p, t := s.process.value, Serving(k, s, s.process.value, entry);
      && |t.answers| == |s.answers| + 1 && s.answers <= t.answers && Executable(k, Empty(capacity), t.history)
      && Last(t.answers).kind == entry.kind && Last(t.answers).id == Addressed(k, entry).value
      && (Last(t.answers).borrowed <==> Taken(k, p, entry))
      && (ReplyTo(RepliesAfter(k, Empty(capacity), t.history, NO_REPLIES), Last(t.answers))
            == Some(Last(t.answers).reply)
          <==> !Taken(k, p, entry))
      && (Taken(k, p, entry) ==>
            && t == s.(answers := t.answers) && Last(t.answers).reply == p.volatile[Addressed(k, entry).value]
            && ReplyTo(RepliesAfter(k, Empty(capacity), t.history, NO_REPLIES), Last(t.answers)) == None)
  {
    hide EffectOf, Executable, JournalOf, BookAfter, RepliesAfter, DistinctIds, PublishedOk, AnswersOk, Runs, IsCancel;
    var p, id := s.process.value, Addressed(k, entry).value;
    if Runs(k, p, entry) {
      RunsAnswers(k, capacity, s, entry);
      RunsUntaken(k, p, entry);
    } else if entry.kind == ORDER {
      NotRun(k, capacity, s, entry);
    } else {
      CancelNotRun(k, p, entry);
    }
  }

  lemma RunsUntaken(k: Symbol, p: Running, entry: Entry)
    requires Asks(k, entry) && Runs(k, p, entry)
    ensures !Taken(k, p, entry) && EffectOf(k, p.engine.book, entry).value.id == Addressed(k, entry).value
  {
    hide EffectOf;
    if entry.kind == ORDER {
      OrderId(k, p.engine.book, entry);
    } else {
      CancelHasEffect(k, p.engine.book, entry);
    }
  }

  /** An order that does not run was answered before. */
  lemma NotRun(k: Symbol, capacity: nat, s: System, entry: Entry)
    requires Inv(k, capacity, s) && s.process.Some? && Asks(k, entry) && entry.kind == ORDER
      && !Runs(k, s.process.value, entry)
    ensures Addressed(k, entry).value in s.process.value.engine.replies.orders
  {
    hide EffectOf, Executable, JournalOf, BookAfter, RepliesAfter, DistinctIds, PublishedOk, AnswersOk;
    var p := s.process.value;
    SeenAnswered(k, Empty(capacity), s.history, NO_REPLIES);
    if EffectOf(k, p.engine.book, entry).Some? {
      OrderId(k, p.engine.book, entry);
    } else if Addressed(k, entry).value !in p.engine.book.seen {
      OrderHasEffect(k, p.engine.book, entry);
    }
  }

  /** A cancel that does not run finds its id cached, and is no replay or snapshot request. */
  lemma CancelNotRun(k: Symbol, p: Running, entry: Entry)
    requires Asks(k, entry) && entry.kind != ORDER && !Runs(k, p, entry)
    ensures entry.kind == CANCEL && IsCancel(k, entry) && !Looks(k, p, entry)
    ensures Addressed(k, entry).value in p.engine.replies.controls || Addressed(k, entry).value in p.volatile
  {
    hide EffectOf;
    CancelHasEffect(k, p.engine.book, entry);
  }

  /**
   Two answers to the same order, or to the same cancel, are the same, whatever
   happened between them, if neither was borrowed.
   */
  lemma AnswersAgree(k: Symbol, capacity: nat, actions: seq<Action>, i: nat, j: nat)
    requires i < |Run(k, capacity, actions).answers| && j < |Run(k, capacity, actions).answers|
    requires var answers := Run(k, capacity, actions).answers;
      answers[i].kind == answers[j].kind && answers[i].id == answers[j].id && !answers[i].borrowed
        && !answers[j].borrowed
    ensures Run(k, capacity, actions).answers[i] == Run(k, capacity, actions).answers[j]
  {
    hide Run, DiskOk, UpOk, PublishedOk, RepliesAfter, Executable;
    RunOk(k, capacity, actions);
    RunExecutable(k, capacity, actions);
    var s := Run(k, capacity, actions);
    assert AnswersOk(k, capacity, s);
  }

  lemma RunExecutable(k: Symbol, capacity: nat, actions: seq<Action>)
    ensures Executable(k, Empty(capacity), Run(k, capacity, actions).history)
  {
    hide Run, Executable, UpOk, PublishedOk;
    RunOk(k, capacity, actions);
  }

  predicate Dies(a: Action) {
    a.Crash? || a.CrashInside?
  }

  /** At step n a running engine served a replay or snapshot request with this id, and it has run ever since. */
  predicate LookedAt(k: Symbol, capacity: nat, actions: seq<Action>, n: nat, id: string)
    requires n < |actions|
  {
    var s := Run(k, capacity, actions[..n]);
    && s.process.Some? && actions[n].Request? && Looks(k, s.process.value, actions[n].entry)
    && Addressed(k, actions[n].entry) == Some(id)
    && forall m | n <= m < |actions| :: !Dies(actions[m])
  }

  /** The ids of replay and snapshot requests are those served since the last restart. */
  lemma {:induction false} VolatileExactly(k: Symbol, capacity: nat, actions: seq<Action>, id: string)
    ensures (var s := Run(k, capacity, actions); s.process.Some? && id in s.process.value.volatile)
       <==> exists n :: 0 <= n < |actions| && LookedAt(k, capacity, actions, n, id)
  {
    hide LookedAt, Next;
    if actions != [] {
      VolatileExactly(k, capacity, Init(actions), id);
      VolatileStep(k, capacity, Run(k, capacity, Init(actions)), Last(actions), id);
      LookedSnoc(k, capacity, actions, id);
    }
  }

  lemma VolatileStep(k: Symbol, capacity: nat, s: System, a: Action, id: string)
    ensures (var t := Next(k, capacity, s, a); t.process.Some? && id in t.process.value.volatile)
       <==> !Dies(a) && s.process.Some? && (id in s.process.value.volatile
              || (a.Request? && Looks(k, s.process.value, a.entry) && Addressed(k, a.entry) == Some(id)))
  {
    hide EffectOf, Restore, Handle, Shown;
    if s.process.Some? && a.Request? && Looks(k, s.process.value, a.entry) {
      LooksIsNoCommand(k, s.process.value, a.entry);
    }
  }

  lemma LookedSnoc(k: Symbol, capacity: nat, actions: seq<Action>, id: string)
    requires actions != []
    ensures (exists n :: 0 <= n < |actions| && LookedAt(k, capacity, actions, n, id))
       <==> !Dies(Last(actions))
            && ((exists n :: 0 <= n < |Init(actions)| && LookedAt(k, capacity, Init(actions), n, id))
                || (var s := Run(k, capacity, Init(actions));
                    s.process.Some? && Last(actions).Request? && Looks(k, s.process.value, Last(actions).entry)
                    && Addressed(k, Last(actions).entry) == Some(id)))
  {
    hide Run, Looks, Addressed;
    var before, last := Init(actions), |actions| - 1;
    if n :| 0 <= n < |actions| && LookedAt(k, capacity, actions, n, id) {
      assert !Dies(actions[last]);
      if n < last {
        assert before[..n] == actions[..n];
        assert forall m | n <= m < |before| :: before[m] == actions[m];
        assert LookedAt(k, capacity, before, n, id);
      }
    }
    if !Dies(Last(actions)) {
      if n :| 0 <= n < |before| && LookedAt(k, capacity, before, n, id) {
        assert before[..n] == actions[..n];
        forall m | n <= m < |actions| ensures !Dies(actions[m]) {
          if m < last {
            assert before[m] == actions[m];
          }
        }
        assert LookedAt(k, capacity, actions, n, id);
      }
      var s := Run(k, capacity, before);
      if s.process.Some? && Last(actions).Request? && Looks(k, s.process.value, Last(actions).entry)
         && Addressed(k, Last(actions).entry) == Some(id) {
        assert actions[..last] == before;
        assert LookedAt(k, capacity, actions, last, id);
      }
    }
  }

  // A borrowed answer that a restart contradicts.

  /** Ask for a replay, cancel under the same id, crash, restart, cancel again. */
  function Mixup(replay: Entry, cancel: Entry): seq<Action> {
    [Request(replay), Request(cancel), Crash, Restart, Request(cancel)]
  }

  /** The two acknowledgements of the mixup differ. */
  predicate Distinguishes(p: Protocol, r: ControlCommand, c: ControlCommand) {
    p.encodeAck(r.commandId, r.timestamp, true, 1, "")
      != p.encodeAck(c.commandId, c.timestamp, false, 0, "order is not open")
  }

  /** The same cancel is answered twice, first accepted and then refused. */
  lemma BorrowedAnswerChanges(k: Symbol, capacity: nat, replay: Entry, cancel: Entry, r: ControlCommand,
                              c: ControlCommand)
    requires replay.kind == CANCEL && k.protocol.decodeControl(replay.payload) == Some(r)
    requires cancel.kind == CANCEL && k.protocol.decodeControl(cancel.payload) == Some(c)
    requires r.kind.ReplayTrades? && c.kind.CancelOrder? && r.pair == c.pair == k.pair && r.commandId == c.commandId
    requires Distinguishes(k.protocol, r, c)
    ensures var answers := Run(k, capacity, Mixup(replay, cancel)).answers;
      && |answers| == 2 && answers[0].kind == answers[1].kind == CANCEL && answers[0].id == answers[1].id == c.commandId
      && answers[0].borrowed && !answers[1].borrowed && answers[0].reply != answers[1].reply
  {
    var all := Mixup(replay, cancel);
    var s0 := Run(k, capacity, []);
    var s1 := Next(k, capacity, s0, all[0]);
    var s2 := Next(k, capacity, s1, all[1]);
    var s3 := Next(k, capacity, s2, all[2]);
    var s4 := Next(k, capacity, s3, all[3]);
    Unrolled(k, capacity, replay, cancel);
    LookFirst(k, capacity, replay, r);
    assert s2.answers == [Answer(CANCEL, c.commandId, LookReply(k, Empty(capacity), r), true)];
    assert s4.process == Some(Running(NewEngine(capacity), map[])) && s4.answers == s2.answers;
    CancelFirst(k, capacity, s4, cancel, c);
  }

  lemma RunPrefix(k: Symbol, capacity: nat, actions: seq<Action>, n: nat)
    requires n < |actions|
    ensures Run(k, capacity, actions[..n + 1]) == Next(k, capacity, Run(k, capacity, actions[..n]), actions[n])
  {
    hide Next;
    assert Init(actions[..n + 1]) == actions[..n];
  }

  lemma Unrolled(k: Symbol, capacity: nat, replay: Entry, cancel: Entry)
    ensures var all := Mixup(replay, cancel);
      Run(k, capacity, all)
      == Next(k, capacity, Next(k, capacity, Next(k, capacity, Next(k, capacity,
           Next(k, capacity, Boot(capacity), all[0]), all[1]), all[2]), all[3]), all[4])
  {
    hide Next;
    var all := Mixup(replay, cancel);
    assert all[..5] == all && all[..0] == [];
    RunPrefix(k, capacity, all, 0);
    RunPrefix(k, capacity, all, 1);
    RunPrefix(k, capacity, all, 2);
    RunPrefix(k, capacity, all, 3);
    RunPrefix(k, capacity, all, 4);
  }

  lemma LookFirst(k: Symbol, capacity: nat, replay: Entry, r: ControlCommand)
    requires replay.kind == CANCEL && k.protocol.decodeControl(replay.payload) == Some(r)
    requires r.kind.ReplayTrades? && r.pair == k.pair
    ensures Next(k, capacity, Boot(capacity), Request(replay))
         == Boot(capacity).(process :=
           Some(Running(NewEngine(capacity), map[r.commandId := LookReply(k, Empty(capacity), r)])))
  {
    assert ReplayFrom(k, [], r.fromSequence, 0) == [];
  }

  lemma CancelFirst(k: Symbol, capacity: nat, s: System, cancel: Entry, c: ControlCommand)
    requires s.process == Some(Running(NewEngine(capacity), map[]))
    requires cancel.kind == CANCEL && k.protocol.decodeControl(cancel.payload) == Some(c)
    requires c.kind.CancelOrder? && c.pair == k.pair
    ensures Next(k, capacity, s, Request(cancel)).answers
         == s.answers + [Answer(CANCEL, c.commandId,
                                k.protocol.encodeAck(c.commandId, c.timestamp, false, 0, "order is not open"), false)]
  {
  }

  /** Such requests exist: two answers to one cancel can differ. */
  lemma AnswersCanDiffer(capacity: nat) returns (k: Symbol, actions: seq<Action>)
    ensures var answers := Run(k, capacity, actions).answers;
      && |answers| == 2 && answers[0].kind == answers[1].kind && answers[0].id == answers[1].id
      && answers[0].reply != answers[1].reply
  {
    var r := ControlCommand(ReplayTrades, "x", "P", "", 0, 1);
    var c := ControlCommand(CancelOrder, "x", "P", "o", 0, 0);
    var protocol := Protocol(
      _ => None, (payload: Bytes) => if payload == [1] then Some(r) else if payload == [2] then Some(c) else None,
      (_, _) => [0], _ => [0], (_, _, _) => [0], (_, _, accepted: bool, _, _) => if accepted then [1]
        else [0], _ => None);
    k := Symbol("P", protocol, DefaultFees);
    actions := Mixup(Entry(CANCEL, [1]), Entry(CANCEL, [2]));
    BorrowedAnswerChanges(k, capacity, Entry(CANCEL, [1]), Entry(CANCEL, [2]), r, c);
  }

  // Restarts.

  /** At every moment a restart succeeds and brings back the crash-free run of the history. */
  lemma RestartBringsBack(k: Symbol, capacity: nat, actions: seq<Action>)
    requires Run(k, capacity, actions).process.None?
    ensures var s := Run(k, capacity, actions);
      var t := Next(k, capacity, s, Restart);
      && t.process.Some? && t.process.value.engine == Serve(k, capacity, s.history)
      && s.durable <= t.durable == t.process.value.engine.journal
  {
    hide Run, Serve, Next, EffectOf, Executable, JournalOf, BookAfter, RepliesAfter, DistinctIds;
    var s := Run(k, capacity, actions);
    RunOk(k, capacity, actions);
    RestartOk(k, capacity, s);
    RestartKeepsHistory(k, capacity, s);
    ServeRunsAll(k, capacity, s.history);
  }

  lemma RestartKeepsHistory(k: Symbol, capacity: nat, s: System)
    ensures Next(k, capacity, s, Restart).history == s.history
  {
  }
}
