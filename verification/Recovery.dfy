/** Crash recovery: which journals are accepted, and what survives a crash. */
module Recovery {
  import opened Options
  import opened BookSpec
  import opened EngineSpec

  function Init<T>(s: seq<T>): seq<T>
    requires s != []
  {
    s[..|s| - 1]
  }

  function Last<T>(s: seq<T>): T
    requires s != []
  {
    s[|s| - 1]
  }

  /** The records are a record-prefix of the journal of these commands. */
  predicate PrefixOf(k: Symbol, b: Book, records: seq<Entry>, commands: seq<Entry>) {
    Executable(k, b, commands) && records <= JournalOf(k, b, commands)
  }

  /** Recovery succeeds exactly on the record-prefixes of the journals of command runs. */
  lemma RestoreExact(k: Symbol, b: Book, records: seq<Entry>, r: Replies)
    ensures Restore(k, b, records, r).Some? <==> exists commands :: PrefixOf(k, b, records, commands)
  {
    hide Restore, Executable, JournalOf, EffectOf;
    if Restore(k, b, records, r).Some? {
      RestoreSound(k, b, records, r);
      assert PrefixOf(k, b, records, Restore(k, b, records, r).value.commands);
    }
    if commands :| PrefixOf(k, b, records, commands) {
      RestoreComplete(k, b, commands, |records|, r);
      assert JournalOf(k, b, commands)[..|records|] == records;
    }
  }

  /** The commands recovery finds are those whose own record is among the records. */
  lemma {:induction false} RestoreMinimal(k: Symbol, b: Book, records: seq<Entry>, r: Replies)
    requires Restore(k, b, records, r).Some?
    ensures var commands := Restore(k, b, records, r).value.commands;
      && (records == [] <==> commands == [])
      && (commands != [] ==> Executable(k, b, Init(commands)) && |JournalOf(k, b, Init(commands))| < |records|)
    decreases |records|
  {
    hide Events, OrderEffect, CancelEffect, EffectOf;
    if records != [] {
      var e := EffectOf(k, b, records[0]).value;
      var outputs, rest := e.Outputs(), records[1..];
      var commands := Restore(k, b, records, r).value.commands;
      if |rest| <= |outputs| {
        assert Init(commands) == [];
      } else {
        var r' := Answered(r, records[0], e);
        RestoreMinimal(k, e.book, rest[|outputs|..], r');
        var more := Restore(k, e.book, rest[|outputs|..], r').value.commands;
        assert Init(commands) == [records[0]] + Init(more);
        ConsCommand(k, b, records[0], Init(more), r);
      }
    }
  }

  lemma {:induction false} ExecutablePrefix(k: Symbol, b: Book, commands: seq<Entry>, n: nat)
    requires Executable(k, b, commands) && n <= |commands|
    ensures Executable(k, b, commands[..n])
    ensures JournalOf(k, b, commands[..n]) <= JournalOf(k, b, commands)
    decreases n
  {
    hide EffectOf;
    if n != 0 {
      var e := EffectOf(k, b, commands[0]).value;
      ExecutablePrefix(k, e.book, commands[1..], n - 1);
      assert commands[..n] == [commands[0]] + commands[1..][..n - 1];
      ConsCommand(k, b, commands[0], commands[1..][..n - 1], NO_REPLIES);
    }
  }

  /** One more command at the end of a run. */
  lemma {:induction false} SnocCommand(k: Symbol, b: Book, commands: seq<Entry>, c: Entry, r: Replies)
    requires Executable(k, b, commands)
    ensures Executable(k, b, commands + [c]) <==> EffectOf(k, BookAfter(k, b, commands), c).Some?
    ensures Executable(k, b, commands + [c]) ==>
      var e := EffectOf(k, BookAfter(k, b, commands), c).value;
      && JournalOf(k, b, commands + [c]) == JournalOf(k, b, commands) + ([c] + e.Outputs())
      && BookAfter(k, b, commands + [c]) == e.book
      && RepliesAfter(k, b, commands + [c], r) == Answered(RepliesAfter(k, b, commands, r), c, e)
    decreases |commands|
  {
    hide EffectOf;
    if commands == [] {
      assert [] + [c] == [c] && [c][1..] == [];
      if EffectOf(k, b, c).Some? {
        OneCommand(k, b, c, r);
      }
    } else {
      var e := EffectOf(k, b, commands[0]).value;
      SnocCommand(k, e.book, commands[1..], c, Answered(r, commands[0], e));
      assert (commands + [c])[1..] == commands[1..] + [c];
      if Executable(k, b, commands + [c]) {
        var last := [c] + EffectOf(k, BookAfter(k, b, commands), c).value.Outputs();
        Reassociate([commands[0]] + e.Outputs(), JournalOf(k, e.book, commands[1..]), last);
      }
    }
  }

  lemma Reassociate(a: seq<Entry>, b: seq<Entry>, c: seq<Entry>)
    ensures a + (b + c) == (a + b) + c
  {
  }

  // Ids.

  /** The id a command's reply is cached under. */
  function IdOf(k: Symbol, entry: Entry): Option<string> {
    if entry.kind == ORDER then
      match k.protocol.decodeOrder(entry.payload)
      case None => None
      case Some(d) => Some(d.command.id)
    else
      match k.protocol.decodeControl(entry.payload)
      case None => None
      case Some(c) => Some(c.commandId)
  }

  lemma EffectId(k: Symbol, b: Book, entry: Entry)
    requires EffectOf(k, b, entry).Some?
    ensures IdOf(k, entry) == Some(EffectOf(k, b, entry).value.id)
    ensures entry.kind == ORDER || entry.kind == CANCEL
  {
  }

  /** No two orders and no two cancels share an id. */
  predicate DistinctIds(k: Symbol, commands: seq<Entry>) {
    forall i, j | 0 <= i < j < |commands| :: commands[i].kind == commands[j].kind ==>
      IdOf(k, commands[i]) != IdOf(k, commands[j])
  }

  predicate Cached(r: Replies, entry: Entry, id: string) {
    if entry.kind == ORDER then id in r.orders else id in r.controls
  }

  /** The cached ids are those of the commands executed so far. */
  lemma {:induction false} CachedIds(k: Symbol, b: Book, commands: seq<Entry>, r: Replies, entry: Entry, id: string)
    requires Executable(k, b, commands) && (entry.kind == ORDER || entry.kind == CANCEL)
    ensures Cached(RepliesAfter(k, b, commands, r), entry, id)
       <==> Cached(r, entry, id) || exists i ::
         0 <= i < |commands| && commands[i].kind == entry.kind && IdOf(k, commands[i]) == Some(id)
    decreases |commands|
  {
    hide EffectOf, IdOf;
    if commands != [] {
      var c, e := commands[0], EffectOf(k, b, commands[0]).value;
      EffectId(k, b, c);
      CachedIds(k, e.book, commands[1..], Answered(r, c, e), entry, id);
      if i :| 0 <= i < |commands| && commands[i].kind == entry.kind && IdOf(k, commands[i]) == Some(id) {
        if i > 0 {
          assert commands[1..][i - 1] == commands[i];
        }
      }
      if j :| 0 <= j < |commands[1..]| && commands[1..][j].kind == entry.kind && IdOf(k, commands[1..][j]) == Some(id) {
        assert commands[j + 1].kind == entry.kind;
      }
    }
  }

  // Crash-free runs.

  datatype Engine = Engine(book: Book, journal: seq<Entry>, replies: Replies)

  function NewEngine(capacity: nat): Engine {
    Engine(Empty(capacity), [], NO_REPLIES)
  }

  /** An order or cancel request: a known id is answered from the cache, everything else runs once. */
  function Handle(k: Symbol, e: Engine, request: Entry): Engine {
    match EffectOf(k, e.book, request)
    case None => e
    case Some(effect) =>
      if Cached(e.replies, request, effect.id) then e
      else Engine(effect.book, e.journal + ([request] + effect.Outputs()), Answered(e.replies, request, effect))
  }

  function Serve(k: Symbol, capacity: nat, requests: seq<Entry>): Engine {
    if requests == [] then NewEngine(capacity)
    else Handle(k, Serve(k, capacity, Init(requests)), Last(requests))
  }

  /** The engine is where the run of these commands ends. */
  predicate Reached(k: Symbol, capacity: nat, e: Engine, commands: seq<Entry>) {
    && Executable(k, Empty(capacity), commands) && DistinctIds(k, commands)
    && e.book == BookAfter(k, Empty(capacity), commands)
    && e.journal == JournalOf(k, Empty(capacity), commands)
    && e.replies == RepliesAfter(k, Empty(capacity), commands, NO_REPLIES)
  }

  lemma DistinctSnoc(k: Symbol, commands: seq<Entry>, c: Entry)
    requires DistinctIds(k, commands)
    ensures DistinctIds(k, commands + [c])
       <==> forall i | 0 <= i < |commands| :: commands[i].kind == c.kind ==> IdOf(k, commands[i]) != IdOf(k, c)
  {
    hide IdOf;
    var longer := commands + [c];
    assert forall i | 0 <= i < |commands| :: longer[i] == commands[i];
    if DistinctIds(k, longer) {
      forall i | 0 <= i < |commands| && commands[i].kind == c.kind ensures IdOf(k, commands[i]) != IdOf(k, c) {
        assert longer[i].kind == longer[|commands|].kind;
      }
    }
  }

  /** A request runs exactly when it is executable and its id is new. */
  lemma HandleReaches(k: Symbol, capacity: nat, e: Engine, commands: seq<Entry>, request: Entry)
    requires Reached(k, capacity, e, commands)
    ensures var b := Empty(capacity);
      if Executable(k, b, commands + [request]) && DistinctIds(k, commands + [request])
      then Reached(k, capacity, Handle(k, e, request), commands + [request])
      else Handle(k, e, request) == e
  {
    hide EffectOf, IdOf, DistinctIds;
    SnocCommand(k, Empty(capacity), commands, request, NO_REPLIES);
    if EffectOf(k, e.book, request).Some? {
      var id := EffectOf(k, e.book, request).value.id;
      EffectId(k, e.book, request);
      CachedIds(k, Empty(capacity), commands, NO_REPLIES, request, id);
      DistinctSnoc(k, commands, request);
    }
  }

  /** What a crash-free run did: the requests that ran. */
  lemma {:induction false} ServeReaches(k: Symbol, capacity: nat, requests: seq<Entry>) returns (commands: seq<Entry>)
    ensures Reached(k, capacity, Serve(k, capacity, requests), commands)
  {
    hide EffectOf, IdOf, Handle;
    if requests == [] {
      commands := [];
    } else {
      var before := ServeReaches(k, capacity, Init(requests));
      HandleReaches(k, capacity, Serve(k, capacity, Init(requests)), before, Last(requests));
      var b := Empty(capacity);
      commands := if Executable(k, b, before + [Last(requests)]) && DistinctIds(k, before + [Last(requests)])
                  then before + [Last(requests)] else before;
    }
  }

  /** Distinct executable commands all run when they are requested in turn. */
  lemma {:induction false} ServeRunsAll(k: Symbol, capacity: nat, commands: seq<Entry>)
    requires Executable(k, Empty(capacity), commands) && DistinctIds(k, commands)
    ensures Reached(k, capacity, Serve(k, capacity, commands), commands)
    decreases |commands|
  {
    hide EffectOf, IdOf, Handle, Executable, JournalOf, BookAfter, RepliesAfter;
    if commands == [] {
      NothingRun(k, capacity);
    } else {
      ExecutablePrefix(k, Empty(capacity), commands, |commands| - 1);
      ServeRunsAll(k, capacity, Init(commands));
      assert commands == Init(commands) + [Last(commands)];
      HandleReaches(k, capacity, Serve(k, capacity, Init(commands)), Init(commands), Last(commands));
    }
  }

  lemma NothingRun(k: Symbol, capacity: nat)
    ensures Reached(k, capacity, NewEngine(capacity), [])
  {
  }

  /** Some crash-free run writes a journal that starts with these records. */
  ghost predicate CrashFreePrefix(k: Symbol, capacity: nat, records: seq<Entry>) {
    exists requests :: records <= Serve(k, capacity, requests).journal
  }

  lemma {:induction false} DistinctPrefix(k: Symbol, commands: seq<Entry>, n: nat)
    requires DistinctIds(k, commands) && n <= |commands|
    ensures DistinctIds(k, commands[..n])
  {
  }

  // The commands among the records.

  predicate IsCommand(entry: Entry) {
    entry.kind == ORDER || entry.kind == CANCEL
  }

  function CommandRecords(records: seq<Entry>): seq<Entry> {
    if records == [] then []
    else if IsCommand(records[0]) then [records[0]] + CommandRecords(records[1..])
    else CommandRecords(records[1..])
  }

  predicate NoCommands(entries: seq<Entry>) {
    forall i | 0 <= i < |entries| :: !IsCommand(entries[i])
  }

  lemma {:induction false} SkipOutputs(outputs: seq<Entry>, rest: seq<Entry>)
    requires NoCommands(outputs)
    ensures CommandRecords(outputs + rest) == CommandRecords(rest)
  {
    if outputs == [] {
      assert outputs + rest == rest;
    } else {
      SkipOutputs(outputs[1..], rest);
      assert (outputs + rest)[0] == outputs[0] && (outputs + rest)[1..] == outputs[1..] + rest;
    }
  }

  lemma OutputsNoCommands(k: Symbol, b: Book, entry: Entry)
    requires EffectOf(k, b, entry).Some?
    ensures IsCommand(entry) && NoCommands(EffectOf(k, b, entry).value.Outputs())
  {
    hide Submit, Cancel, AckOf;
  }

  /** The commands recovery finds are the order and cancel records of the list. */
  lemma {:induction false} FoundAreRecords(k: Symbol, b: Book, records: seq<Entry>, r: Replies)
    requires Restore(k, b, records, r).Some?
    ensures Restore(k, b, records, r).value.commands == CommandRecords(records)
    decreases |records|
  {
    hide EffectOf, Effect.Outputs, IsCommand, NoCommands;
    if records != [] {
      var e := EffectOf(k, b, records[0]).value;
      var outputs, rest := e.Outputs(), records[1..];
      OutputsNoCommands(k, b, records[0]);
      if |rest| <= |outputs| {
        PrefixNoCommands(outputs, |rest|);
        SkipOutputs(rest, []);
        assert rest + [] == rest;
      } else {
        FoundAreRecords(k, e.book, rest[|outputs|..], Answered(r, records[0], e));
        SkipOutputs(outputs, rest[|outputs|..]);
        assert rest == outputs + rest[|outputs|..];
      }
    }
  }

  lemma PrefixNoCommands(outputs: seq<Entry>, n: nat)
    requires NoCommands(outputs) && n <= |outputs|
    ensures NoCommands(outputs[..n])
  {
  }

  /**
   Recovery accepts more than a crash-free run can leave behind, and exactly
   this much more: the accepted records are a prefix of a crash-free run's
   journal if and only if no two order records and no two cancel records share
   an id.
   */
  lemma CrashFreeExactly(k: Symbol, capacity: nat, records: seq<Entry>)
    ensures CrashFreePrefix(k, capacity, records) <==>
      && Restore(k, Empty(capacity), records, NO_REPLIES).Some?
      && DistinctIds(k, CommandRecords(records))
  {
    hide CommandRecords, EffectOf, IdOf, Handle, Serve, Executable, JournalOf, BookAfter, RepliesAfter, Restore,
      DistinctIds;
    var b := Empty(capacity);
    if Restore(k, b, records, NO_REPLIES).Some? {
      FoundAreRecords(k, b, records, NO_REPLIES);
    }
    if CrashFreePrefix(k, capacity, records) {
      var requests :| records <= Serve(k, capacity, requests).journal;
      var commands := ServeReaches(k, capacity, requests);
      var journal := JournalOf(k, b, commands);
      assert records == journal[..|records|];
      RestoreComplete(k, b, commands, |records|, NO_REPLIES);
      var found := Restore(k, b, records, NO_REPLIES).value.commands;
      FoundAreRecords(k, b, records, NO_REPLIES);
      assert found == commands[..|found|];
      DistinctPrefix(k, commands, |found|);
    }
    if Restore(k, b, records, NO_REPLIES).Some? {
      var found := Restore(k, b, records, NO_REPLIES).value.commands;
      if DistinctIds(k, found) {
        RestoreSound(k, b, records, NO_REPLIES);
        ServeRunsAll(k, capacity, found);
        assert records <= Serve(k, capacity, found).journal;
      }
    }
  }

  /** From such records recovery rebuilds the whole run: its journal, its book and its replies. */
  lemma RestoreIsRun(k: Symbol, capacity: nat, requests: seq<Entry>, n: nat)
    requires n <= |Serve(k, capacity, requests).journal|
    ensures var restored := Restore(k, Empty(capacity), Serve(k, capacity, requests).journal[..n], NO_REPLIES);
      && restored.Some?
      && Serve(k, capacity, restored.value.commands)
         == Engine(restored.value.book, restored.value.journal, restored.value.replies)
      && Serve(k, capacity, requests).journal[..n] <= restored.value.journal <= Serve(k, capacity, requests).journal
  {
    hide EffectOf, IdOf, Handle, Serve, Executable, JournalOf, BookAfter, RepliesAfter, Restore, DistinctIds;
    var b, records := Empty(capacity), Serve(k, capacity, requests).journal[..n];
    var commands := ServeReaches(k, capacity, requests);
    RestoreComplete(k, b, commands, n, NO_REPLIES);
    RestoreSound(k, b, records, NO_REPLIES);
    var found := Restore(k, b, records, NO_REPLIES).value.commands;
    assert found == commands[..|found|];
    DistinctPrefix(k, commands, |found|);
    ExecutablePrefix(k, b, commands, |found|);
    ServeRunsAll(k, capacity, found);
  }

  /** From the whole journal of a run, recovery rebuilds exactly the engine that wrote it. */
  lemma RestoreWhole(k: Symbol, capacity: nat, requests: seq<Entry>)
    ensures var e := Serve(k, capacity, requests);
      var restored := Restore(k, Empty(capacity), e.journal, NO_REPLIES);
      && restored.Some?
      && e == Engine(restored.value.book, restored.value.journal, restored.value.replies)
  {
    hide EffectOf, IdOf, Handle, Serve, Executable, JournalOf, BookAfter, RepliesAfter, Restore, DistinctIds;
    var b, e := Empty(capacity), Serve(k, capacity, requests);
    var commands := ServeReaches(k, capacity, requests);
    assert e.journal[..|e.journal|] == e.journal;
    RestoreComplete(k, b, commands, |e.journal|, NO_REPLIES);
    RestoreSound(k, b, e.journal, NO_REPLIES);
    var found := Restore(k, b, e.journal, NO_REPLIES).value.commands;
    assert found == commands[..|found|];
    SameLength(k, b, commands, |found|);
  }

  /** A shorter run writes a shorter journal. */
  lemma {:induction false} SameLength(k: Symbol, b: Book, commands: seq<Entry>, n: nat)
    requires Executable(k, b, commands) && n <= |commands|
    ensures Executable(k, b, commands[..n])
    ensures |JournalOf(k, b, commands[..n])| >= |JournalOf(k, b, commands)| ==> commands[..n] == commands
    decreases |commands|
  {
    hide EffectOf;
    if commands != [] && n > 0 {
      var e := EffectOf(k, b, commands[0]).value;
      SameLength(k, e.book, commands[1..], n - 1);
      assert commands[..n] == [commands[0]] + commands[1..][..n - 1];
      ConsCommand(k, b, commands[0], commands[1..][..n - 1], NO_REPLIES);
    }
  }

  // The two kinds of repeats recovery does not notice.

  /** A cancel journalled twice is accepted, although no run writes it twice. */
  lemma RepeatedCancelAccepted(k: Symbol, capacity: nat, c: Entry)
    requires c.kind == CANCEL && EffectOf(k, Empty(capacity), c).Some?
    ensures var b := Empty(capacity);
      && Executable(k, b, [c, c])
      && Restore(k, b, JournalOf(k, b, [c, c]), NO_REPLIES).Some?
      && !CrashFreePrefix(k, capacity, JournalOf(k, b, [c, c]))
  {
    hide Events, AckOf, Restore, JournalOf;
    var b := Empty(capacity);
    var e := EffectOf(k, b, c).value;
    assert EffectOf(k, e.book, c).Some?;
    TwiceAccepted(k, capacity, c);
  }

  /** The book remembers the ids it was given and no others. */
  lemma EffectSeen(k: Symbol, b: Book, entry: Entry)
    requires EffectOf(k, b, entry).Some?
    ensures EffectOf(k, b, entry).value.book.seen <= b.seen + if entry.kind == ORDER
      then {EffectOf(k, b, entry).value.id} else {}
  {
  }

  /** An order that has an id is refused by recovery when the id was placed before. */
  lemma SeenOrderRefused(k: Symbol, b: Book, c: Entry, id: string)
    requires c.kind == ORDER && IdOf(k, c) == Some(id) && id != "" && id in b.seen
    ensures EffectOf(k, b, c).None?
  {
  }

  lemma EffectSees(k: Symbol, b: Book, c: Entry)
    requires EffectOf(k, b, c).Some?
    ensures b.seen <= EffectOf(k, b, c).value.book.seen
    ensures c.kind == ORDER && IdOf(k, c) != Some("") ==>
      EffectOf(k, b, c).value.id in EffectOf(k, b, c).value.book.seen
  {
    hide FillAll, Events, Insert, LevelTotal, Find, Remove;
  }

  lemma {:induction false} SeenStays(k: Symbol, b: Book, commands: seq<Entry>, i: nat)
    requires Executable(k, b, commands) && i < |commands| && commands[i].kind == ORDER
    requires IdOf(k, commands[i]) != Some("")
    ensures forall id :: IdOf(k, commands[i]) == Some(id) ==> id !in b.seen
    decreases i
  {
    hide EffectOf, IdOf;
    var e := EffectOf(k, b, commands[0]).value;
    EffectSees(k, b, commands[0]);
    if i == 0 {
      forall id | IdOf(k, commands[0]) == Some(id) ensures id !in b.seen {
        if id in b.seen {
          SeenOrderRefused(k, b, commands[0], id);
        }
      }
    } else {
      SeenStays(k, e.book, commands[1..], i - 1);
    }
  }

  /** So among executable commands only cancels, and orders without an id, can repeat an id. */
  lemma {:induction false} OnlyBlankOrdersRepeat(k: Symbol, b: Book, commands: seq<Entry>, i: nat, j: nat)
    requires Executable(k, b, commands) && i < j < |commands|
    requires commands[i].kind == ORDER && commands[j].kind == ORDER && IdOf(k, commands[i]) == IdOf(k, commands[j])
    ensures IdOf(k, commands[i]) == Some("")
    decreases i
  {
    hide EffectOf, IdOf;
    var e := EffectOf(k, b, commands[0]).value;
    if i == 0 {
      EffectSees(k, b, commands[0]);
      EffectId(k, b, commands[0]);
      if IdOf(k, commands[j]) != Some("") {
        SeenStays(k, e.book, commands[1..], j - 1);
      }
    } else {
      OnlyBlankOrdersRepeat(k, e.book, commands[1..], i - 1, j - 1);
    }
  }

  /** An order without an id journalled twice is accepted, although no run writes it twice. */
  lemma RepeatedBlankAccepted(k: Symbol, capacity: nat, c: Entry)
    requires c.kind == ORDER && IdOf(k, c) == Some("") && EffectOf(k, Empty(capacity), c).Some?
    ensures var b := Empty(capacity);
      && Executable(k, b, [c, c])
      && Restore(k, b, JournalOf(k, b, [c, c]), NO_REPLIES).Some?
      && !CrashFreePrefix(k, capacity, JournalOf(k, b, [c, c]))
  {
    hide Events, Restore, JournalOf;
    var b := Empty(capacity);
    var e := EffectOf(k, b, c).value;
    assert EffectOf(k, e.book, c).Some?;
    TwiceAccepted(k, capacity, c);
  }

  lemma TwiceAccepted(k: Symbol, capacity: nat, c: Entry)
    requires EffectOf(k, Empty(capacity), c).Some?
    requires EffectOf(k, EffectOf(k, Empty(capacity), c).value.book, c).Some?
    ensures var b := Empty(capacity);
      && Executable(k, b, [c, c])
      && Restore(k, b, JournalOf(k, b, [c, c]), NO_REPLIES).Some?
      && !CrashFreePrefix(k, capacity, JournalOf(k, b, [c, c]))
  {
    hide EffectOf, Restore, JournalOf;
    var b := Empty(capacity);
    var e := EffectOf(k, b, c).value;
    assert [c, c] == [c] + [c];
    OneCommand(k, e.book, c, NO_REPLIES);
    ConsCommand(k, b, c, [c], NO_REPLIES);
    var journal := JournalOf(k, b, [c, c]);
    assert journal[..|journal|] == journal;
    RestoreComplete(k, b, [c, c], |journal|, NO_REPLIES);
    RestoreSound(k, b, journal, NO_REPLIES);
    var found := Restore(k, b, journal, NO_REPLIES).value.commands;
    assert found == [c, c][..|found|];
    SameLength(k, b, [c, c], |found|);
    assert IdOf(k, found[0]) == IdOf(k, found[1]);
    FoundAreRecords(k, b, journal, NO_REPLIES);
    CrashFreeExactly(k, capacity, journal);
  }
}
