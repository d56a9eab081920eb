/** The engine over any sequence of requests, crashes and restarts. */
module CrashSafety {
  import opened Octets
  import opened Options
  import opened BookSpec
  import opened Depth
  import opened EngineSpec
  import opened Recovery

  /**
   A published event. Events of commands, and their replays, carry the journal
   position they were written to first. A snapshot taken on request is not
   written; it carries how many commands had run and its timestamp.
   */
  datatype Publication =
    | Journalled(index: nat, entry: Entry)
    | Pictured(commands: nat, timestamp: nat, entry: Entry)

  /** A reply given to an order or a cancel; borrowed if it is the cached reply to a replay or snapshot request. */
  datatype Answer = Answer(kind: nat, id: string, reply: Bytes, borrowed: bool)

  /** A running engine; replies to replay and snapshot requests are cached but not journalled. */
  datatype Running = Running(engine: Engine, volatile: map<string, Bytes>)

  /**
   The journal on disk, the process if it is up, and what the world has seen.
   The history lists the commands whose own record reached the disk.
   */
  datatype System = System(
    durable: seq<Entry>, process: Option<Running>, published: seq<Publication>, answers: seq<Answer>,
      history: seq<Entry>)

  datatype Action =
    | Request(entry: Entry)
    | CrashInside(entry: Entry, written: nat, told: nat)
    | Crash
    | Restart
    | CrashInRestart(written: nat)

  function Boot(capacity: nat): System {
    System([], Some(Running(NewEngine(capacity), map[])), [], [], [])
  }

  /** Events published while the outputs of a command are appended after `at` records. */
  function Announced(events: seq<Entry>, at: nat, told: nat): seq<Publication>
    requires told <= |events|
  {
    seq(told, i requires 0 <= i < told => Journalled(at + 1 + i, events[i]))
  }

  function Told(publications: seq<Publication>): (events: seq<Entry>)
    ensures |events| == |publications|
    ensures forall i | 0 <= i < |events| :: events[i] == publications[i].entry
  {
    seq(|publications|, i requires 0 <= i < |publications| => publications[i].entry)
  }

  /** The trades a replay publishes again. */
  function ReplayFrom(k: Symbol, journal: seq<Entry>, from: nat, at: nat): seq<Publication>
    requires at <= |journal|
    decreases |journal| - at
  {
    if at == |journal| then []
    else
      var rest := ReplayFrom(k, journal, from, at + 1);
      if journal[at].kind == TRADE && IsFrom(k, journal[at].payload, from) then [Journalled(at, journal[at])] + rest
      else rest
  }

  predicate IsFrom(k: Symbol, payload: Bytes, from: nat) {
    match k.protocol.tradeSequence(payload)
    case None => false
    case Some(n) => n >= from
  }

  /** The request would run a new command now. */
  predicate Runs(k: Symbol, p: Running, entry: Entry) {
    match EffectOf(k, p.engine.book, entry)
    case None => false
    case Some(e) => !Cached(p.engine.replies, entry, e.id) && (entry.kind == CANCEL ==> e.id !in p.volatile)
  }

  /** The id of a request that reached the right partition. */
  function Addressed(k: Symbol, entry: Entry): Option<string> {
    if entry.kind == ORDER then
      match k.protocol.decodeOrder(entry.payload)
      case None => None
      case Some(d) => if d.pair == k.pair then Some(d.command.id) else None
    else
      match k.protocol.decodeControl(entry.payload)
      case None => None
      case Some(c) => if c.pair == k.pair then Some(c.commandId) else None
  }

  predicate IsCancel(k: Symbol, entry: Entry) {
    entry.kind == CANCEL && k.protocol.decodeControl(entry.payload).Some?
    && k.protocol.decodeControl(entry.payload).value.kind.CancelOrder?
  }

  /** A known id is answered from the cache; control requests of every kind share one. */
  function CachedAnswer(k: Symbol, p: Running, entry: Entry): seq<Answer> {
    match Addressed(k, entry)
    case None => []
    case Some(id) =>
      if entry.kind == ORDER && id in p.engine.replies.orders
        then [Answer(ORDER, id, p.engine.replies.orders[id], false)]
      else if entry.kind == CANCEL && id in p.engine.replies.controls then
        [Answer(CANCEL, id, p.engine.replies.controls[id], false)]
      else if IsCancel(k, entry) && id in p.volatile then [Answer(CANCEL, id, p.volatile[id], true)]
      else []
  }

  /** A replay or snapshot request whose id is new. */
  predicate Looks(k: Symbol, p: Running, entry: Entry) {
    entry.kind == CANCEL &&
    match k.protocol.decodeControl(entry.payload)
    case None => false
    case Some(c) =>
      c.pair == k.pair && !c.kind.CancelOrder? && c.commandId !in p.engine.replies.controls
        && c.commandId !in p.volatile
  }

  function LookReply(k: Symbol, b: Book, c: ControlCommand): Bytes {
    var sequence := if c.kind.ReplayTrades? then b.tradeSequence else b.bookSequence;
    k.protocol.encodeAck(c.commandId, c.timestamp, true, if sequence > 1 then sequence else 1, "")
  }

  /** The event a snapshot request publishes. */
  function PictureOf(k: Symbol, b: Book, timestamp: nat): Entry {
    Entry(BOOK, k.protocol.encodeSnapshot(k.pair, timestamp, SnapshotOf(b, DEPTH)))
  }

  /** What a replay or snapshot request publishes after this many commands. */
  function Shown(k: Symbol, p: Running, c: ControlCommand, commands: nat): seq<Publication> {
    if c.kind.ReplayTrades? then ReplayFrom(k, p.engine.journal, c.fromSequence, 0)
    else [Pictured(commands, c.timestamp, PictureOf(k, p.engine.book, c.timestamp))]
  }

  function Serving(k: Symbol, s: System, p: Running, entry: Entry): System {
    if Runs(k, p, entry) then
      var e := EffectOf(k, p.engine.book, entry).value;
      var engine := Handle(k, p.engine, entry);
      System(engine.journal, Some(p.(engine := engine)),
             s.published + Announced(e.events, |s.durable|, |e.events|),
             s.answers + [Answer(entry.kind, e.id, e.reply, false)], s.history + [entry])
    else if Looks(k, p, entry) then
      var c := k.protocol.decodeControl(entry.payload).value;
      s.(process := Some(p.(volatile := p.volatile[c.commandId := LookReply(k, p.engine.book, c)])),
         published := s.published + Shown(k, p, c, |s.history|))
    else s.(answers := s.answers + CachedAnswer(k, p, entry))
  }

  /**
   The process dies while a request is served. Of a command some records are on
   disk and some of those were published; a replay or snapshot published some
   of its events.
   */
  function Dying(k: Symbol, s: System, p: Running, entry: Entry, written: nat, told: nat): System {
    if Runs(k, p, entry) then
      var e := EffectOf(k, p.engine.book, entry).value;
      var block := [entry] + e.Outputs();
      if 1 <= written <= |block| && told <= |e.events| && told <= written - 1 then
        System(s.durable + block[..written], None, s.published + Announced(e.events, |s.durable|, told),
               s.answers, s.history + [entry])
      else s.(process := None)
    else if Looks(k, p, entry) then
      var shown := Shown(k, p, k.protocol.decodeControl(entry.payload).value, |s.history|);
      s.(process := None, published := s.published + if told <= |shown| then shown[..told] else [])
    else s.(process := None)
  }

  function Restarted(k: Symbol, capacity: nat, s: System): System {
    match Restore(k, Empty(capacity), s.durable, NO_REPLIES)
    case None => s
    case Some(r) => s.(durable := r.journal, process := Some(Running(Engine(r.book, r.journal, r.replies), map[])))
  }

  /** Recovery dies after appending this many of the missing records. */
  function HalfRestarted(k: Symbol, capacity: nat, s: System, written: nat): System {
    match Restore(k, Empty(capacity), s.durable, NO_REPLIES)
    case None => s
    case Some(r) =>
      if |s.durable| + written <= |r.journal| then s.(durable := r.journal[..|s.durable| + written]) else s
  }

  function Next(k: Symbol, capacity: nat, s: System, a: Action): System {
    match a
    case Crash => s.(process := None)
    case Request(entry) => if s.process.Some? then Serving(k, s, s.process.value, entry) else s
    case CrashInside(entry, written, told) =>
      if s.process.Some? then Dying(k, s, s.process.value, entry, written, told) else s
    case Restart => if s.process.Some? then s else Restarted(k, capacity, s)
    case CrashInRestart(written) => if s.process.Some? then s else HalfRestarted(k, capacity, s, written)
  }

  function Run(k: Symbol, capacity: nat, actions: seq<Action>): System {
    if actions == [] then Boot(capacity) else Next(k, capacity, Run(k, capacity, Init(actions)), Last(actions))
  }

  // The invariant.

  /** The records on disk belong to the history, and reach into its last command. */
  predicate DiskOk(k: Symbol, capacity: nat, s: System) {
    && PrefixOf(k, Empty(capacity), s.durable, s.history) && DistinctIds(k, s.history)
    && (s.history != [] ==>
          Executable(k, Empty(capacity), Init(s.history))
            && |JournalOf(k, Empty(capacity), Init(s.history))| < |s.durable|)
  }

  predicate UpOk(k: Symbol, capacity: nat, s: System) {
    s.process.Some? ==>
      && s.durable == s.process.value.engine.journal && Reached(k, capacity, s.process.value.engine, s.history)
      && s.process.value.volatile.Keys !! s.process.value.engine.replies.controls.Keys
  }

  predicate OnDisk(p: Publication, durable: seq<Entry>) {
    p.Journalled? && p.index < |durable| && durable[p.index] == p.entry
  }

  /** The picture shows the book its commands left. */
  predicate TruePicture(k: Symbol, capacity: nat, p: Publication, history: seq<Entry>) {
    && p.Pictured? && p.commands <= |history| && Executable(k, Empty(capacity), history[..p.commands])
    && p.entry == PictureOf(k, BookAfter(k, Empty(capacity), history[..p.commands]), p.timestamp)
  }

  predicate PublicationOk(k: Symbol, capacity: nat, p: Publication, durable: seq<Entry>, history: seq<Entry>) {
    OnDisk(p, durable) || TruePicture(k, capacity, p, history)
  }

  /** Every published event is the record on disk at its position, or a true picture. */
  predicate PublishedOk(k: Symbol, capacity: nat, s: System) {
    forall i | 0 <= i < |s.published| :: PublicationOk(k, capacity, s.published[i], s.durable, s.history)
  }

  function ReplyTo(r: Replies, a: Answer): Option<Bytes> {
    if a.kind == ORDER then if a.id in r.orders then Some(r.orders[a.id]) else None
    else if a.id in r.controls then Some(r.controls[a.id]) else None
  }

  /** Every answer that was not borrowed is the reply of the history's run. */
  predicate AnswersOk(k: Symbol, capacity: nat, s: System)
    requires Executable(k, Empty(capacity), s.history)
  {
    forall i | 0 <= i < |s.answers| && !s.answers[i].borrowed ::
      && (s.answers[i].kind == ORDER || s.answers[i].kind == CANCEL)
      && ReplyTo(RepliesAfter(k, Empty(capacity), s.history, NO_REPLIES), s.answers[i]) == Some(s.answers[i].reply)
  }

  predicate Inv(k: Symbol, capacity: nat, s: System) {
    DiskOk(k, capacity, s) && UpOk(k, capacity, s) && PublishedOk(k, capacity, s) && AnswersOk(k, capacity, s)
  }

  /** A new command extends the history. */
  lemma RunsExtends(k: Symbol, capacity: nat, s: System, entry: Entry)
    requires Inv(k, capacity, s) && s.process.Some? && Runs(k, s.process.value, entry)
    ensures var p := s.process.value;
      var e := EffectOf(k, p.engine.book, entry).value;
      var b, history := Empty(capacity), s.history + [entry];
      && (entry.kind == ORDER || entry.kind == CANCEL)
      && Reached(k, capacity, Handle(k, p.engine, entry), history)
      && JournalOf(k, b, history) == s.durable + ([entry] + e.Outputs())
      && JournalOf(k, b, s.history) == s.durable
      && RepliesAfter(k, b, history, NO_REPLIES) == Answered(RepliesAfter(k, b, s.history, NO_REPLIES), entry, e)
      && !Cached(RepliesAfter(k, b, s.history, NO_REPLIES), entry, e.id)
  {
    hide EffectOf, Executable, JournalOf, BookAfter, RepliesAfter, DistinctIds;
    var p := s.process.value;
    EffectId(k, p.engine.book, entry);
    HandleReaches(k, capacity, p.engine, s.history, entry);
    SnocCommand(k, Empty(capacity), s.history, entry, NO_REPLIES);
    assert |Handle(k, p.engine, entry).journal| > |p.engine.journal|;
  }

  /** More records and more commands leave what was published right. */
  lemma StillPublished(k: Symbol, capacity: nat, p: Publication, s: System, t: System)
    requires PublicationOk(k, capacity, p, s.durable, s.history) && s.durable <= t.durable && s.history <= t.history
    ensures PublicationOk(k, capacity, p, t.durable, t.history)
  {
    hide Executable, BookAfter, PictureOf;
    if p.Pictured? {
      assert t.history[..p.commands] == s.history[..p.commands];
    }
  }

  lemma MorePublished(k: Symbol, capacity: nat, s: System, t: System, shown: seq<Publication>)
    requires PublishedOk(k, capacity, s) && s.durable <= t.durable && s.history <= t.history
    requires t.published == s.published + shown
    requires forall i | 0 <= i < |shown| :: PublicationOk(k, capacity, shown[i], t.durable, t.history)
    ensures PublishedOk(k, capacity, t)
  {
    hide PublicationOk;
    forall i | 0 <= i < |t.published| ensures PublicationOk(k, capacity, t.published[i], t.durable, t.history) {
      if i < |s.published| {
        StillPublished(k, capacity, s.published[i], s, t);
      } else {
        assert t.published[i] == shown[i - |s.published|];
      }
    }
  }

  lemma AnnouncedOk(k: Symbol, capacity: nat, s: System, t: System, entry: Entry, events: seq<Entry>, tail: seq<Entry>,
                    written: nat, told: nat)
    requires PublishedOk(k, capacity, s) && told <= |events| && told + 1 <= written <= 1 + |events| + |tail|
    requires t.durable == s.durable + ([entry] + (events + tail))[..written] && s.history <= t.history
    requires t.published == s.published + Announced(events, |s.durable|, told)
    ensures PublishedOk(k, capacity, t)
  {
    hide TruePicture, PublishedOk;
    var shown := Announced(events, |s.durable|, told);
    forall i | 0 <= i < |shown| ensures PublicationOk(k, capacity, shown[i], t.durable, t.history) {
      assert t.durable[|s.durable| + 1 + i] == events[i];
    }
    MorePublished(k, capacity, s, t, shown);
  }

  /** Everything a replay or snapshot request shows is on disk or a true picture. */
  lemma ShownOk(k: Symbol, capacity: nat, s: System, c: ControlCommand, i: nat)
    requires DiskOk(k, capacity, s) && UpOk(k, capacity, s) && s.process.Some?
    requires i < |Shown(k, s.process.value, c, |s.history|)|
    ensures PublicationOk(k, capacity, Shown(k, s.process.value, c, |s.history|)[i], s.durable, s.history)
  {
    hide Executable, BookAfter, JournalOf, RepliesAfter, DistinctIds, ReplayFrom;
    var p := s.process.value;
    ReplayIn(k, p.engine.journal, c.fromSequence, 0);
    assert s.history[..|s.history|] == s.history;
    assert Shown(k, p, c, |s.history|)[i] in Shown(k, p, c, |s.history|);
  }

  /** New answers leave the old ones right. */
  lemma AnswersGrow(k: Symbol, capacity: nat, s: System, t: System, entry: Entry, e: Effect)
    requires Executable(k, Empty(capacity), s.history) && AnswersOk(k, capacity, s)
    requires Executable(k, Empty(capacity), t.history) && (entry.kind == ORDER || entry.kind == CANCEL)
    requires var r := RepliesAfter(k, Empty(capacity), s.history, NO_REPLIES);
      RepliesAfter(k, Empty(capacity), t.history, NO_REPLIES) == Answered(r, entry, e) && !Cached(r, entry, e.id)
    requires t.answers == s.answers || t.answers == s.answers + [Answer(entry.kind, e.id, e.reply, false)]
    ensures AnswersOk(k, capacity, t)
  {
    hide Executable, RepliesAfter;
  }

  lemma ServingRunsOk(k: Symbol, capacity: nat, s: System, entry: Entry)
    requires Inv(k, capacity, s) && s.process.Some? && Runs(k, s.process.value, entry)
    ensures Inv(k, capacity, Serving(k, s, s.process.value, entry))
    ensures s.durable <= Serving(k, s, s.process.value, entry).durable
  {
    hide EffectOf, Executable, JournalOf, BookAfter, RepliesAfter, DistinctIds, AnswersOk, PublishedOk;
    var p, t := s.process.value, Serving(k, s, s.process.value, entry);
    var e := EffectOf(k, p.engine.book, entry).value;
    var block := [entry] + e.Outputs();
    RunsExtends(k, capacity, s, entry);
    assert block[..|block|] == block;
    AnnouncedOk(k, capacity, s, t, entry, e.events, e.tail, |block|, |e.events|);
    AnswersGrow(k, capacity, s, t, entry, e);
    assert Init(t.history) == s.history;
  }

  lemma DyingRunsOk(k: Symbol, capacity: nat, s: System, entry: Entry, written: nat, told: nat)
    requires Inv(k, capacity, s) && s.process.Some? && Runs(k, s.process.value, entry)
    ensures Inv(k, capacity, Dying(k, s, s.process.value, entry, written, told))
    ensures s.durable <= Dying(k, s, s.process.value, entry, written, told).durable
  {
    hide EffectOf, Executable, JournalOf, BookAfter, RepliesAfter, DistinctIds, AnswersOk, PublishedOk;
    var p, t := s.process.value, Dying(k, s, s.process.value, entry, written, told);
    var e := EffectOf(k, p.engine.book, entry).value;
    var block := [entry] + e.Outputs();
    if 1 <= written <= |block| && told <= |e.events| && told <= written - 1 {
      RunsExtends(k, capacity, s, entry);
      AnnouncedOk(k, capacity, s, t, entry, e.events, e.tail, written, told);
      AnswersGrow(k, capacity, s, t, entry, e);
      assert Init(t.history) == s.history;
      assert s.durable + block == s.durable + block[..written] + block[written..];
    } else {
      SameDisk(k, capacity, s, t);
    }
  }

  lemma DyingLooksOk(k: Symbol, capacity: nat, s: System, entry: Entry, written: nat, told: nat)
    requires Inv(k, capacity, s) && s.process.Some? && !Runs(k, s.process.value, entry)
    ensures Inv(k, capacity, Dying(k, s, s.process.value, entry, written, told))
    ensures s.durable == Dying(k, s, s.process.value, entry, written, told).durable
  {
    hide EffectOf, Executable, JournalOf, BookAfter, RepliesAfter, DistinctIds, Runs, PublicationOk, Shown;
    var p, t := s.process.value, Dying(k, s, s.process.value, entry, written, told);
    if Looks(k, p, entry) {
      var c := k.protocol.decodeControl(entry.payload).value;
      var shown := Shown(k, p, c, |s.history|);
      var part := if told <= |shown| then shown[..told] else [];
      forall i | 0 <= i < |part| ensures PublicationOk(k, capacity, part[i], t.durable, t.history) {
        ShownOk(k, capacity, s, c, i);
      }
      MorePublished(k, capacity, s, t, part);
    } else {
      SameDisk(k, capacity, s, t);
    }
  }

  /** Losing the process changes nothing that was seen. */
  lemma SameDisk(k: Symbol, capacity: nat, s: System, t: System)
    requires Inv(k, capacity, s) && t == s.(process := None)
    ensures Inv(k, capacity, t)
  {
  }

  lemma {:induction false} ReplayIn(k: Symbol, journal: seq<Entry>, from: nat, at: nat)
    requires at <= |journal|
    ensures forall p :: p in ReplayFrom(k, journal, from, at) ==> OnDisk(p, journal)
    decreases |journal| - at
  {
    if at < |journal| {
      ReplayIn(k, journal, from, at + 1);
    }
  }

  lemma ServingLooksOk(k: Symbol, capacity: nat, s: System, entry: Entry)
    requires Inv(k, capacity, s) && s.process.Some? && !Runs(k, s.process.value, entry)
    ensures Inv(k, capacity, Serving(k, s, s.process.value, entry))
    ensures s.durable == Serving(k, s, s.process.value, entry).durable
  {
    hide EffectOf, Executable, JournalOf, BookAfter, RepliesAfter, DistinctIds, Runs, PublicationOk, Shown;
    var p, t := s.process.value, Serving(k, s, s.process.value, entry);
    if Looks(k, p, entry) {
      var c := k.protocol.decodeControl(entry.payload).value;
      var shown := Shown(k, p, c, |s.history|);
      forall i | 0 <= i < |shown| ensures PublicationOk(k, capacity, shown[i], t.durable, t.history) {
        ShownOk(k, capacity, s, c, i);
      }
      MorePublished(k, capacity, s, t, shown);
    }
  }

  /** Recovery always succeeds, finds exactly the history and completes its journal. */
  lemma RestartFinds(k: Symbol, capacity: nat, s: System)
    requires Inv(k, capacity, s)
    ensures var r := Restore(k, Empty(capacity), s.durable, NO_REPLIES);
      && r.Some? && r.value.commands == s.history && r.value.journal == JournalOf(k, Empty(capacity), s.history)
      && r.value.book == BookAfter(k, Empty(capacity), s.history)
      && r.value.replies == RepliesAfter(k, Empty(capacity), s.history, NO_REPLIES)
      && s.durable <= r.value.journal
  {
    hide EffectOf, Executable, JournalOf, BookAfter, RepliesAfter, DistinctIds, Restore, PublishedOk, AnswersOk;
    var b, journal := Empty(capacity), JournalOf(k, Empty(capacity), s.history);
    assert s.durable == journal[..|s.durable|];
    RestoreComplete(k, b, s.history, |s.durable|, NO_REPLIES);
    RestoreSound(k, b, s.durable, NO_REPLIES);
    var found := Restore(k, b, s.durable, NO_REPLIES).value.commands;
    assert found == s.history[..|found|];
    if |found| < |s.history| {
      assert Init(s.history)[..|found|] == found;
      ExecutablePrefix(k, b, Init(s.history), |found|);
    }
    assert found == s.history;
  }

  /** More of the history's journal on disk, with the process down or where the history ends. */
  lemma Completing(k: Symbol, capacity: nat, s: System, t: System)
    requires Inv(k, capacity, s) && UpOk(k, capacity, t)
    requires s.durable <= t.durable <= JournalOf(k, Empty(capacity), s.history)
    requires t.history == s.history && t.published == s.published && t.answers == s.answers
    ensures Inv(k, capacity, t)
  {
    hide Executable, JournalOf, BookAfter, RepliesAfter, DistinctIds, PublicationOk;
    assert s.published + [] == s.published;
    MorePublished(k, capacity, s, t, []);
  }

  lemma RestartOk(k: Symbol, capacity: nat, s: System)
    requires Inv(k, capacity, s) && s.process.None?
    ensures var t := Next(k, capacity, s, Restart);
      Inv(k, capacity, t) && t.process.Some? && t.durable == JournalOf(k, Empty(capacity), s.history)
        && s.durable <= t.durable
  {
    hide EffectOf, Executable, JournalOf, BookAfter, RepliesAfter, DistinctIds, Restore, PublishedOk, AnswersOk;
    RestartFinds(k, capacity, s);
    Completing(k, capacity, s, Next(k, capacity, s, Restart));
  }

  /** Recovery dies after some of the records it adds. */
  lemma CrashInRestartOk(k: Symbol, capacity: nat, s: System, written: nat)
    requires Inv(k, capacity, s) && s.process.None?
    ensures var t := Next(k, capacity, s, CrashInRestart(written)); Inv(k, capacity, t) && s.durable <= t.durable
  {
    hide EffectOf, Executable, JournalOf, BookAfter, RepliesAfter, DistinctIds, Restore, PublishedOk, AnswersOk;
    RestartFinds(k, capacity, s);
    Completing(k, capacity, s, Next(k, capacity, s, CrashInRestart(written)));
  }

  lemma NextOk(k: Symbol, capacity: nat, s: System, a: Action)
    requires Inv(k, capacity, s)
    ensures var t := Next(k, capacity, s, a); Inv(k, capacity, t) && s.durable <= t.durable
    ensures s.answers <= Next(k, capacity, s, a).answers && s.published <= Next(k, capacity, s, a).published
    ensures s.history <= Next(k, capacity, s, a).history
  {
    hide EffectOf, Inv, Restore;
    match a
    case Crash => SameDisk(k, capacity, s, Next(k, capacity, s, a));
    case Request(entry) =>
      if s.process.Some? {
        if Runs(k, s.process.value, entry) {
          ServingRunsOk(k, capacity, s, entry);
        } else {
          ServingLooksOk(k, capacity, s, entry);
        }
      }
    case CrashInside(entry, written, told) =>
      if s.process.Some? {
        if Runs(k, s.process.value, entry) {
          DyingRunsOk(k, capacity, s, entry, written, told);
        } else {
          DyingLooksOk(k, capacity, s, entry, written, told);
        }
      }
    case Restart =>
      if s.process.None? {
        RestartOk(k, capacity, s);
      }
    case CrashInRestart(written) =>
      if s.process.None? {
        CrashInRestartOk(k, capacity, s, written);
      }
  }

  /** The invariant holds over every sequence of requests, crashes and restarts. */
  lemma {:induction false} RunOk(k: Symbol, capacity: nat, actions: seq<Action>)
    ensures Inv(k, capacity, Run(k, capacity, actions))
  {
    hide Next, EffectOf;
    if actions == [] {
      NothingRun(k, capacity);
    } else {
      RunOk(k, capacity, Init(actions));
      NextOk(k, capacity, Run(k, capacity, Init(actions)), Last(actions));
    }
  }

  lemma {:induction false} RunGrows(k: Symbol, capacity: nat, actions: seq<Action>, n: nat)
    requires n <= |actions|
    ensures Run(k, capacity, actions[..n]).durable <= Run(k, capacity, actions).durable
    ensures Run(k, capacity, actions[..n]).answers <= Run(k, capacity, actions).answers
    ensures Run(k, capacity, actions[..n]).history <= Run(k, capacity, actions).history
    decreases |actions|
  {
    hide Next, Inv;
    if n == |actions| {
      assert actions[..n] == actions;
    } else {
      RunGrows(k, capacity, Init(actions), n);
      assert Init(actions)[..n] == actions[..n];
      RunOk(k, capacity, Init(actions));
      NextOk(k, capacity, Run(k, capacity, Init(actions)), Last(actions));
    }
  }
}
