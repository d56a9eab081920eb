/** The symbol engine: journalled commands, their deterministic outputs and their replies. */
module EngineSpec {
  import opened Octets
  import opened Options
  import opened BookTypes
  import opened BookSpec
  import opened Depth

  const ORDER: nat := 1
  const CANCEL: nat := 2
  const TRADE: nat := 3
  const STATUS: nat := 4
  const BOOK: nat := 5
  const ACK: nat := 6

  const DEPTH: nat := 1000

  /** A journal record without its number. */
  datatype Entry = Entry(kind: nat, payload: Bytes)

  datatype DecodedOrder = DecodedOrder(pair: string, command: OrderCommand)
  datatype ControlKind = CancelOrder | ReplayTrades | TakeSnapshot
  datatype ControlCommand = ControlCommand(
    kind: ControlKind, commandId: string, pair: string, orderId: string, timestamp: U64, fromSequence: nat)

  /** The wire format, as functions: decoding may refuse, encoding may not. */
  datatype Protocol = Protocol(
    decodeOrder: Bytes -> Option<DecodedOrder>,
    decodeControl: Bytes -> Option<ControlCommand>,
    encodeTrade: (string, Trade) -> Bytes,
    encodeStatus: OrderStatus -> Bytes,
    encodeSnapshot: (string, nat, Snapshot) -> Bytes,
    encodeAck: (string, nat, bool, nat, string) -> Bytes,
    tradeSequence: Bytes -> Option<nat>)

  /** One symbol partition. */
  datatype Symbol = Symbol(pair: string, protocol: Protocol, fees: FeeResolver)

  // The outputs of one command.

  function TradeEntries(k: Symbol, trades: seq<Trade>): (entries: seq<Entry>)
    ensures |entries| == |trades|
  {
    seq(|trades|, i requires 0 <= i < |trades| => Entry(TRADE, k.protocol.encodeTrade(k.pair, trades[i])))
  }

  function StatusEntries(k: Symbol, statuses: seq<OrderStatus>): (entries: seq<Entry>)
    ensures |entries| == |statuses|
  {
    seq(|statuses|, i requires 0 <= i < |statuses| => Entry(STATUS, k.protocol.encodeStatus(statuses[i])))
  }

  /** Trades, then statuses, then the book if it moved. */
  function Events(k: Symbol, outcome: Outcome, timestamp: nat, prior: nat, b: Book): seq<Entry> {
    TradeEntries(k, outcome.trades) + StatusEntries(k, outcome.statuses)
    + if b.bookSequence != prior then [Entry(BOOK, k.protocol.encodeSnapshot(k.pair, timestamp, SnapshotOf(b, DEPTH)))]
      else []
  }

  /** What a journalled command does: published events, records that are only journalled, and the reply under its id. */
  datatype Effect = Effect(book: Book, events: seq<Entry>, tail: seq<Entry>, id: string, reply: Bytes) {
    function Outputs(): seq<Entry> {
      events + tail
    }
  }

  function LastStatus(outcome: Outcome): OrderStatus
    requires outcome.statuses != []
  {
    outcome.statuses[|outcome.statuses| - 1]
  }

  function OrderEffect(k: Symbol, b: Book, cmd: OrderCommand): Option<Effect> {
    var (b', outcome) := Submit(k.fees, b, cmd);
    if outcome.statuses == [] then None
    else Some(Effect(b', Events(k, outcome, cmd.timestamp, b.bookSequence, b'), [], cmd.id,
                     k.protocol.encodeStatus(LastStatus(outcome))))
  }

  function AckOf(k: Symbol, c: ControlCommand, outcome: Outcome, b: Book): Bytes {
    var accepted := outcome.statuses != [];
    k.protocol.encodeAck(c.commandId, c.timestamp, accepted,
                         if accepted then LastStatus(outcome).sequence else b.statusSequence,
                         if accepted then "" else "order is not open")
  }

  function CancelEffect(k: Symbol, b: Book, c: ControlCommand): Effect {
    var (b', outcome) := Cancel(b, c.orderId);
    var ack := AckOf(k, c, outcome, b');
    Effect(b', Events(k, outcome, c.timestamp, b.bookSequence, b'), [Entry(ACK, ack)], c.commandId, ack)
  }

  /** The effect of re-executing a command record; None where recovery refuses it. */
  function EffectOf(k: Symbol, b: Book, entry: Entry): Option<Effect> {
    if entry.kind == ORDER then
      match k.protocol.decodeOrder(entry.payload)
      case None => None
      case Some(d) => if d.pair != k.pair then None else OrderEffect(k, b, d.command)
    else if entry.kind == CANCEL then
      match k.protocol.decodeControl(entry.payload)
      case None => None
      case Some(c) => if !c.kind.CancelOrder? || c.pair != k.pair then None else Some(CancelEffect(k, b, c))
    else None
  }

  datatype Replies = Replies(orders: map<string, Bytes>, controls: map<string, Bytes>)

  const NO_REPLIES := Replies(map[], map[])

  function Answered(r: Replies, entry: Entry, e: Effect): Replies {
    if entry.kind == ORDER then r.(orders := r.orders[e.id := e.reply]) else r.(controls := r.controls[e.id := e.reply])
  }

  // Whole runs.

  /** Every command has an effect when its turn comes. */
  predicate Executable(k: Symbol, b: Book, commands: seq<Entry>)
    decreases |commands|
  {
    commands == []
      || (EffectOf(k, b, commands[0]).Some? && Executable(k, EffectOf(k, b, commands[0]).value.book, commands[1..]))
  }

  /** The journal a crash-free run writes for its commands. */
  function JournalOf(k: Symbol, b: Book, commands: seq<Entry>): seq<Entry>
    requires Executable(k, b, commands)
    decreases |commands|
  {
    if commands == [] then []
    else
      var e := EffectOf(k, b, commands[0]).value;
      [commands[0]] + e.Outputs() + JournalOf(k, e.book, commands[1..])
  }

  function BookAfter(k: Symbol, b: Book, commands: seq<Entry>): Book
    requires Executable(k, b, commands)
    decreases |commands|
  {
    if commands == [] then b else BookAfter(k, EffectOf(k, b, commands[0]).value.book, commands[1..])
  }

  function RepliesAfter(k: Symbol, b: Book, commands: seq<Entry>, r: Replies): Replies
    requires Executable(k, b, commands)
    decreases |commands|
  {
    if commands == [] then r
    else
      var e := EffectOf(k, b, commands[0]).value;
      RepliesAfter(k, e.book, commands[1..], Answered(r, commands[0], e))
  }

  // Recovery.

  datatype Restored = Restored(book: Book, journal: seq<Entry>, commands: seq<Entry>, replies: Replies)

  /** Re-executes the commands, checks every journalled output and completes the last command's. */
  function Restore(k: Symbol, b: Book, records: seq<Entry>, r: Replies): Option<Restored>
    decreases |records|
  {
    if records == [] then Some(Restored(b, [], [], r))
    else
      match EffectOf(k, b, records[0])
      case None => None
      case Some(e) =>
        var outputs, rest := e.Outputs(), records[1..];
        var r' := Answered(r, records[0], e);
        if |rest| <= |outputs| then
          if rest == outputs[..|rest|] then Some(Restored(e.book, [records[0]] + outputs, [records[0]], r')) else None
        else if rest[..|outputs|] != outputs then None
        else
          match Restore(k, e.book, rest[|outputs|..], r')
          case None => None
          case Some(more) =>
            Some(more.(journal := [records[0]] + outputs + more.journal, commands := [records[0]] + more.commands))
  }

  // Recovery command by command.

  /** Puts commands already recovered in front of what recovery makes of the rest. */
  function Resume(journal: seq<Entry>, commands: seq<Entry>, rest: Option<Restored>): (all: Option<Restored>)
    ensures all.None? <==> rest.None?
  {
    match rest
    case None => None
    case Some(more) => Some(more.(journal := journal + more.journal, commands := commands + more.commands))
  }

  /** The records after a command agree with its outputs as far as both go. */
  predicate Agrees(rest: seq<Entry>, outputs: seq<Entry>) {
    if |rest| <= |outputs| then rest == outputs[..|rest|] else rest[..|outputs|] == outputs
  }

  function Remaining(rest: seq<Entry>, outputs: seq<Entry>): (remaining: seq<Entry>)
    ensures |remaining| <= |rest|
  {
    if |rest| <= |outputs| then [] else rest[|outputs|..]
  }

  lemma RestoreStep(k: Symbol, b: Book, records: seq<Entry>, r: Replies)
    requires records != [] && EffectOf(k, b, records[0]).Some?
    ensures var c, e := records[0], EffectOf(k, b, records[0]).value;
      Restore(k, b, records, r)
      == if Agrees(records[1..], e.Outputs())
         then Resume([c]
           + e.Outputs(), [c], Restore(k, e.book, Remaining(records[1..], e.Outputs()), Answered(r, c, e)))
         else None
  {
    hide EffectOf;
    var c, e := records[0], EffectOf(k, b, records[0]).value;
    assert [c] + e.Outputs() + [] == [c] + e.Outputs() && [c] + [] == [c];
  }

  lemma ResumeTwice(j1: seq<Entry>, c1: seq<Entry>, j2: seq<Entry>, c2: seq<Entry>, rest: Option<Restored>)
    ensures Resume(j1, c1, Resume(j2, c2, rest)) == Resume(j1 + j2, c1 + c2, rest)
  {
    if rest.Some? {
      assert j1 + (j2 + rest.value.journal) == j1 + j2 + rest.value.journal;
      assert c1 + (c2 + rest.value.commands) == c1 + c2 + rest.value.commands;
    }
  }

  // Recovery is exact.

  lemma RestoreUnfolds(k: Symbol, b: Book, records: seq<Entry>, r: Replies)
    requires Restore(k, b, records, r).Some?
    ensures records == [] ==> Restore(k, b, records, r).value == Restored(b, [], [], r)
    ensures records != [] ==>
      EffectOf(k, b, records[0]).Some? &&
      var e, rest, done := EffectOf(k, b, records[0]).value, records[1..], Restore(k, b, records, r).value;
      var outputs, r' := e.Outputs(), Answered(r, records[0], e);
      if |rest| <= |outputs| then
        rest == outputs[..|rest|] && done == Restored(e.book, [records[0]] + outputs, [records[0]], r')
      else
        && outputs == rest[..|outputs|] && Restore(k, e.book, rest[|outputs|..], r').Some?
        && var more := Restore(k, e.book, rest[|outputs|..], r').value;
           done == more.(journal := [records[0]] + outputs + more.journal, commands := [records[0]] + more.commands)
  {
    hide EffectOf, Effect.Outputs, Answered;
  }

  /**
   Whatever recovery accepts is a prefix of the journal of the commands it found,
   and it ends where their run ends.
   */
  lemma {:induction false} RestoreSound(k: Symbol, b: Book, records: seq<Entry>, r: Replies)
    requires Restore(k, b, records, r).Some?
    ensures var done := Restore(k, b, records, r).value;
      && Executable(k, b, done.commands)
      && done.journal == JournalOf(k, b, done.commands) && records <= done.journal
      && done.book == BookAfter(k, b, done.commands)
      && done.replies == RepliesAfter(k, b, done.commands, r)
    decreases |records|
  {
    hide EffectOf, Executable, JournalOf, BookAfter, RepliesAfter, Effect.Outputs, Answered, Restore;
    RestoreUnfolds(k, b, records, r);
    if records == [] {
      NoCommand(k, b, r);
    } else {
      var e := EffectOf(k, b, records[0]).value;
      var outputs, rest := e.Outputs(), records[1..];
      var r' := Answered(r, records[0], e);
      assert records == [records[0]] + rest;
      if |rest| <= |outputs| {
        OneCommand(k, b, records[0], r);
        assert outputs == rest + outputs[|rest|..];
      } else {
        RestoreSound(k, e.book, rest[|outputs|..], r');
        var more := Restore(k, e.book, rest[|outputs|..], r').value;
        ConsCommand(k, b, records[0], more.commands, r);
        assert rest == outputs + rest[|outputs|..];
        Behind([records[0]], outputs, rest[|outputs|..], more.journal);
      }
    }
  }

  lemma Behind(head: seq<Entry>, outputs: seq<Entry>, tail: seq<Entry>, more: seq<Entry>)
    requires tail <= more
    ensures head + (outputs + tail) <= head + outputs + more
  {
  }

  lemma NoCommand(k: Symbol, b: Book, r: Replies)
    ensures Executable(k, b, []) && JournalOf(k, b, []) == [] && BookAfter(k, b, []) == b
      && RepliesAfter(k, b, [], r) == r
  {
  }

  lemma OneCommand(k: Symbol, b: Book, c: Entry, r: Replies)
    requires EffectOf(k, b, c).Some?
    ensures var e := EffectOf(k, b, c).value;
      && Executable(k, b, [c]) && JournalOf(k, b, [c]) == [c] + e.Outputs()
      && BookAfter(k, b, [c]) == e.book && RepliesAfter(k, b, [c], r) == Answered(r, c, e)
  {
    hide Events, OrderEffect, CancelEffect, EffectOf;
    assert [c][1..] == [];
    assert [c] + EffectOf(k, b, c).value.Outputs() + [] == [c] + EffectOf(k, b, c).value.Outputs();
  }

  lemma ConsCommand(k: Symbol, b: Book, c: Entry, rest: seq<Entry>, r: Replies)
    requires EffectOf(k, b, c).Some? && Executable(k, EffectOf(k, b, c).value.book, rest)
    ensures var e := EffectOf(k, b, c).value;
      && Executable(k, b, [c] + rest)
      && JournalOf(k, b, [c] + rest) == [c] + e.Outputs() + JournalOf(k, e.book, rest)
      && BookAfter(k, b, [c] + rest) == BookAfter(k, e.book, rest)
      && RepliesAfter(k, b, [c] + rest, r) == RepliesAfter(k, e.book, rest, Answered(r, c, e))
  {
    hide Events, OrderEffect, CancelEffect, EffectOf;
    assert ([c] + rest)[1..] == rest;
  }

  lemma Pieces(c: Entry, outputs: seq<Entry>, later: seq<Entry>, n: nat)
    requires 0 < n <= 1 + |outputs| + |later|
    ensures var records := ([c] + outputs + later)[..n];
      && records[0] == c
      && (n - 1 <= |outputs| ==> records[1..] == outputs[..n - 1])
      && (n - 1 > |outputs| ==>
            records[1..][..|outputs|] == outputs && records[1..][|outputs|..] == later[..n - 1 - |outputs|])
  {
    var all := [c] + outputs + later;
    assert all == [c] + (outputs + later);
    assert all[..n][1..] == (outputs + later)[..n - 1];
  }

  /** Recovery accepts every record-prefix of a run's journal, and finds a prefix of the run's commands. */
  lemma {:induction false} RestoreComplete(k: Symbol, b: Book, commands: seq<Entry>, n: nat, r: Replies)
    requires Executable(k, b, commands) && n <= |JournalOf(k, b, commands)|
    ensures var restored := Restore(k, b, JournalOf(k, b, commands)[..n], r);
      restored.Some? && restored.value.commands <= commands
    decreases |commands|
  {
    hide EffectOf, Effect.Outputs, Answered;
    if n != 0 {
      var c, e := commands[0], EffectOf(k, b, commands[0]).value;
      var outputs := e.Outputs();
      Pieces(c, outputs, JournalOf(k, e.book, commands[1..]), n);
      if n - 1 > |outputs| {
        var m := n - 1 - |outputs|;
        RestoreComplete(k, e.book, commands[1..], m, Answered(r, c, e));
      }
    }
  }
}
