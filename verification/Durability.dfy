/** From the bytes of a torn file back to a running engine. */
module Durability {
  import opened Framing
  import opened JournalFile
  import opened BookSpec
  import opened EngineSpec
  import opened Recovery
  import opened SymbolEngines

  function Number(entries: seq<Entry>): (records: seq<Record>)
    ensures |records| == |entries|
    ensures forall i | 0 <= i < |entries| :: records[i] == Record(entries[i].kind, i + 1, entries[i].payload)
  {
    seq(|entries|, i requires 0 <= i < |entries| => Record(entries[i].kind, i + 1, entries[i].payload))
  }

  predicate Recordable(entries: seq<Entry>) {
    forall i | 0 <= i < |entries| :: Fits(entries[i].payload) && entries[i].kind <= ACK
  }

  lemma EventsRecordable(k: Symbol, b: Book, c: Entry)
    requires WireOk(k.protocol) && EffectOf(k, b, c).Some?
    ensures Recordable([c] + EffectOf(k, b, c).value.Outputs())
  {
    hide WireOk, Fits, BookSpec.Submit, BookSpec.Cancel;
    EffectSound(k, b, c);
    var e := EffectOf(k, b, c).value;
    KindsSmall(k, b, c);
    forall i | 0 <= i < |[c] + e.Outputs()| ensures Fits(([c] + e.Outputs())[i].payload) {
      if 0 < i <= |e.events| {
        assert Sound(k.protocol, e.events[i - 1]);
      } else if i > |e.events| {
        assert Sound(k.protocol, e.tail[i - 1 - |e.events|]);
      }
    }
  }

  lemma KindsSmall(k: Symbol, b: Book, c: Entry)
    requires EffectOf(k, b, c).Some?
    ensures c.kind <= ACK
    ensures forall i | 0 <= i < |EffectOf(k, b, c).value.Outputs()| :: EffectOf(k, b, c).value.Outputs()[i].kind <= ACK
  {
    hide BookSpec.Submit, BookSpec.Cancel;
  }

  lemma {:induction false} JournalRecordable(k: Symbol, b: Book, commands: seq<Entry>)
    requires WireOk(k.protocol) && Executable(k, b, commands)
    ensures Recordable(JournalOf(k, b, commands))
    decreases |commands|
  {
    hide WireOk, Fits, EffectOf;
    if commands != [] {
      var e := EffectOf(k, b, commands[0]).value;
      EventsRecordable(k, b, commands[0]);
      JournalRecordable(k, e.book, commands[1..]);
    }
  }

  lemma NumberPrefix(entries: seq<Entry>, m: nat)
    requires m <= |entries|
    ensures Entries(Number(entries)[..m]) == entries[..m]
  {
  }

  /**
   The file of a crash-free run, cut at any byte: a cut inside a record is
   refused; at a record boundary the engine comes back with the run of the
   commands whose records were kept, every kept record among its journal.
   */
  lemma TornFile(k: Symbol, capacity: nat, requests: seq<Entry>, n: nat)
    requires WireOk(k.protocol)
    requires var journal := Serve(k, capacity, requests).journal;
      |journal| < Framing.U64 && n <= |EncodeAll(DISK, Number(journal))|
    ensures var journal := Serve(k, capacity, requests).journal;
      var kept := Boundary(DISK, Number(journal), n);
      var restored := Recoverable(k, Empty(capacity), DISK, EncodeAll(DISK, Number(journal))[..n]);
      if kept == -1 then restored.None?
      else
        && restored.Some?
        && Serve(k, capacity, restored.value.commands)
           == Engine(restored.value.book, restored.value.journal, restored.value.replies)
        && journal[..kept] <= restored.value.journal <= journal
  {
    hide WireOk, EffectOf, Serve, Restore, Parse, EncodeAll, Boundary, JournalOf, Executable, BookAfter, RepliesAfter,
      DistinctIds;
    var journal := Serve(k, capacity, requests).journal;
    var commands := ServeReaches(k, capacity, requests);
    JournalRecordable(k, Empty(capacity), commands);
    DiskLawful();
    RecoverPrefix(DISK, Number(journal), 0, n);
    var kept := Boundary(DISK, Number(journal), n);
    if kept != -1 {
      NumberPrefix(journal, kept);
      RestoreIsRun(k, capacity, requests, kept);
    }
  }
}
