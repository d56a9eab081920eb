/**
 The framed journal file: records with contiguous sequences, a 24-byte header
 and a checksum over each payload. The lemmas hold for any way of laying out
 the header fields and any checksum; module JournalFile fixes both.
 */
module Framing {
  import opened Octets

  const MAGIC: nat := 0x314A4D4C
  const VERSION: nat := 1
  const HEADER_SIZE: nat := 24
  const MAX_RECOVER: nat := 0x80_0000
  const U16: nat := 0x1_0000
  const U32: nat := 0x1_0000_0000
  const U64: nat := 0x1_0000_0000_0000_0000

  /** The kind is a 16-bit number on disk; recovery does not interpret it. */
  datatype Record = Record(kind: nat, sequence: nat, payload: Bytes)

  datatype Fields = Fields(magic: nat, version: nat, kind: nat, sequence: nat, length: nat, checksum: nat)

  datatype Codec = Codec(put: Fields -> Bytes, get: Bytes -> Fields, sum: Bytes -> nat)

  predicate InRange(f: Fields) {
    f.magic < U32 && f.version < U16 && f.kind < U16 && f.sequence < U64 && f.length < U32 && f.checksum < U32
  }

  /** Header fields round-trip both ways. Stated through LawfulAt so that the laws unfold only where named. */
  ghost predicate Lawful(c: Codec) {
    forall at: nat :: LawfulAt(c, at)
  }

  ghost predicate LawfulAt(c: Codec, at: nat) {
    && (forall f :: |c.put(f)| == HEADER_SIZE)
    && (forall f :: InRange(f) ==> c.get(c.put(f)) == f)
    && (forall bytes :: |bytes| == HEADER_SIZE ==> InRange(c.get(bytes)) && c.put(c.get(bytes)) == bytes)
    && (forall payload :: c.sum(payload) < U32)
  }

  datatype JournalError =
    | InvalidRecord | TruncatedHeader | InvalidHeader | NonContiguous
    | InvalidLength | TruncatedPayload | ChecksumMismatch

  datatype Recovered = Records(records: seq<Record>) | Failed(error: JournalError)

  function FieldsOf(c: Codec, r: Record): Fields {
    Fields(MAGIC, VERSION, r.kind, r.sequence, |r.payload|, c.sum(r.payload))
  }

  /** What one append writes. */
  function Encode(c: Codec, r: Record): Bytes {
    c.put(FieldsOf(c, r)) + r.payload
  }

  function EncodeAll(c: Codec, records: seq<Record>): Bytes {
    if records == [] then [] else Encode(c, records[0]) + EncodeAll(c, records[1..])
  }

  datatype Frame = Frame(record: Record) | Bad(error: JournalError)

  /** Reads the record at the front of a non-empty file. */
  function ParseFrame(c: Codec, file: Bytes, previous: nat): (frame: Frame)
    ensures frame.Frame? ==> HEADER_SIZE + |frame.record.payload| <= |file|
  {
    if |file| < HEADER_SIZE then Bad(TruncatedHeader)
    else
      var f := c.get(file[..HEADER_SIZE]);
      if f.magic != MAGIC || f.version != VERSION then Bad(InvalidHeader)
      else if f.sequence != (previous + 1) % U64 then Bad(NonContiguous)
      else if f.length == 0 || f.length > MAX_RECOVER then Bad(InvalidLength)
      else if |file| < HEADER_SIZE + f.length then Bad(TruncatedPayload)
      else
        var payload := file[HEADER_SIZE..HEADER_SIZE + f.length];
        if c.sum(payload) != f.checksum then Bad(ChecksumMismatch)
        else Frame(Record(f.kind, f.sequence, payload))
  }

  /** What recovery makes of the bytes after a record with sequence `previous`. */
  function Parse(c: Codec, file: Bytes, previous: nat): Recovered
    decreases |file|
  {
    if file == [] then Records([])
    else
      match ParseFrame(c, file, previous)
      case Bad(e) => Failed(e)
      case Frame(r) =>
        match Parse(c, file[HEADER_SIZE + |r.payload|..], r.sequence)
        case Failed(e) => Failed(e)
        case Records(rest) => Records([r] + rest)
  }

  /** Puts records already read in front of what recovery makes of the rest. */
  function Continue(records: seq<Record>, rest: Recovered): Recovered {
    match rest
    case Failed(e) => Failed(e)
    case Records(more) => Records(records + more)
  }

  lemma ContinueNone(rest: Recovered)
    ensures Continue([], rest) == rest
  {
    if rest.Records? {
      assert [] + rest.records == rest.records;
    }
  }

  lemma ParseEnds(c: Codec, records: seq<Record>, file: Bytes, previous: nat)
    ensures file == [] ==> Continue(records, Parse(c, file, previous)) == Records(records)
    ensures file != [] && ParseFrame(c, file, previous).Bad? ==>
      Continue(records, Parse(c, file, previous)) == Failed(ParseFrame(c, file, previous).error)
  {
    hide ParseFrame;
    assert records + [] == records;
  }

  lemma ContinueStep(c: Codec, records: seq<Record>, file: Bytes, previous: nat)
    requires file != [] && ParseFrame(c, file, previous).Frame?
    ensures var r := ParseFrame(c, file, previous).record;
      Continue(records, Parse(c, file, previous))
      == Continue(records + [r], Parse(c, file[HEADER_SIZE + |r.payload|..], r.sequence))
  {
    var r := ParseFrame(c, file, previous).record;
    var rest := Parse(c, file[HEADER_SIZE + |r.payload|..], r.sequence);
    if rest.Records? {
      assert records + ([r] + rest.records) == records + [r] + rest.records;
    }
  }

  /** A record recovery can accept after `previous`. */
  predicate Acceptable(r: Record, previous: nat) {
    && r.kind < U16
    && r.sequence == previous + 1 < U64
    && 1 <= |r.payload| <= MAX_RECOVER
  }

  /** Contiguous sequences after `previous`, payloads of 1 byte to 8 MiB. */
  predicate Wellformed(records: seq<Record>, previous: nat) {
    forall i | 0 <= i < |records| :: Acceptable(records[i], previous + i)
  }

  /** Recovery reads back one encoded record, whatever follows it. */
  lemma FrameEncoded(c: Codec, r: Record, rest: Bytes, previous: nat)
    requires Lawful(c) && Acceptable(r, previous)
    ensures ParseFrame(c, Encode(c, r) + rest, previous) == Frame(r)
    ensures (Encode(c, r) + rest)[HEADER_SIZE + |r.payload|..] == rest
  {
    assert LawfulAt(c, 0);
    var file := Encode(c, r) + rest;
    assert file[..HEADER_SIZE] == c.put(FieldsOf(c, r));
    assert file[HEADER_SIZE..HEADER_SIZE + |r.payload|] == r.payload;
  }

  /** A file cut inside its first record is refused. */
  lemma FrameTorn(c: Codec, r: Record, previous: nat, n: nat)
    requires Lawful(c) && Acceptable(r, previous)
    requires 0 < n < |Encode(c, r)|
    ensures ParseFrame(c, Encode(c, r)[..n], previous).Bad?
  {
    assert LawfulAt(c, 0);
    if n >= HEADER_SIZE {
      assert Encode(c, r)[..n][..HEADER_SIZE] == c.put(FieldsOf(c, r));
    }
  }

  /** A record recovery returns is acceptable, and its bytes are the ones appending it writes. */
  lemma FrameExact(c: Codec, file: Bytes, previous: nat)
    requires Lawful(c) && previous + 1 < U64
    requires ParseFrame(c, file, previous).Frame?
    ensures var r := ParseFrame(c, file, previous).record;
      Acceptable(r, previous) && file[..HEADER_SIZE + |r.payload|] == Encode(c, r)
  {
    assert LawfulAt(c, 0);
    var r := ParseFrame(c, file, previous).record;
    assert c.put(c.get(file[..HEADER_SIZE])) == file[..HEADER_SIZE];
    assert FieldsOf(c, r) == c.get(file[..HEADER_SIZE]);
    assert file[..HEADER_SIZE + |r.payload|] == file[..HEADER_SIZE] + file[HEADER_SIZE..HEADER_SIZE + |r.payload|];
  }

  lemma ParseStep(c: Codec, r: Record, rest: Bytes, previous: nat)
    requires Lawful(c) && Acceptable(r, previous)
    ensures Parse(c, Encode(c, r) + rest, previous) ==
            match Parse(c, rest, previous + 1)
            case Failed(e) => Failed(e)
            case Records(more) => Records([r] + more)
  {
    FrameEncoded(c, r, rest, previous);
  }

  /** The whole list comes back from the whole file. */
  lemma {:induction false} RecoverWhole(c: Codec, records: seq<Record>, previous: nat)
    requires Lawful(c) && Wellformed(records, previous)
    ensures Parse(c, EncodeAll(c, records), previous) == Records(records)
    decreases |records|
  {
    if records != [] {
      ParseStep(c, records[0], EncodeAll(c, records[1..]), previous);
      RecoverWhole(c, records[1..], previous + 1);
      assert [records[0]] + records[1..] == records;
    }
  }

  /** How many whole records end at byte n, if n is a record boundary; -1 otherwise. */
  function Boundary(c: Codec, records: seq<Record>, n: nat): (k: int)
    ensures -1 <= k <= |records|
    decreases |records|
  {
    if n == 0 then 0
    else if records == [] || n < |Encode(c, records[0])| then -1
    else
      var k := Boundary(c, records[1..], n - |Encode(c, records[0])|);
      if k == -1 then -1 else k + 1
  }

  /** Boundary finds exactly the ends of the record prefixes. */
  lemma {:induction false} BoundaryIsPrefixEnd(c: Codec, records: seq<Record>, n: nat, k: nat)
    requires Lawful(c) && k <= |records|
    ensures Boundary(c, records, n) == k <==> n == |EncodeAll(c, records[..k])|
    decreases |records|
  {
    assert LawfulAt(c, 0);
    if k == 0 {
      assert records[..0] == [];
    } else {
      assert records[..k][0] == records[0] && records[..k][1..] == records[1..][..k - 1];
      if n >= |Encode(c, records[0])| {
        BoundaryIsPrefixEnd(c, records[1..], n - |Encode(c, records[0])|, k - 1);
      }
    }
  }

  /** What recovery makes of the first n bytes of a file. */
  predicate RecoversPrefix(c: Codec, records: seq<Record>, previous: nat, n: nat)
    requires n <= |EncodeAll(c, records)|
  {
    var k := Boundary(c, records, n);
    var result := Parse(c, EncodeAll(c, records)[..n], previous);
    if k == -1 then result.Failed? else result == Records(records[..k])
  }

  lemma PrefixTorn(c: Codec, records: seq<Record>, previous: nat, n: nat)
    requires Lawful(c) && Wellformed(records, previous) && records != []
    requires 0 < n < |Encode(c, records[0])| <= |EncodeAll(c, records)|
    ensures RecoversPrefix(c, records, previous, n)
  {
    assert EncodeAll(c, records)[..n] == Encode(c, records[0])[..n];
    FrameTorn(c, records[0], previous, n);
  }

  lemma EncodeSize(c: Codec, r: Record)
    requires Lawful(c)
    ensures |Encode(c, r)| == HEADER_SIZE + |r.payload|
  {
    assert LawfulAt(c, 0);
  }

  lemma BoundaryStep(c: Codec, records: seq<Record>, n: nat)
    requires Lawful(c) && records != []
    ensures var k := Boundary(c, records[1..], n);
      Boundary(c, records, |Encode(c, records[0])| + n) == if k == -1 then -1 else k + 1
  {
    EncodeSize(c, records[0]);
  }

  lemma EncodePrefix(c: Codec, records: seq<Record>, n: nat)
    requires records != [] && n <= |EncodeAll(c, records[1..])|
    ensures |Encode(c, records[0])| + n <= |EncodeAll(c, records)|
    ensures EncodeAll(c, records)[..|Encode(c, records[0])| + n]
            == Encode(c, records[0]) + EncodeAll(c, records[1..])[..n]
  {
  }

  lemma PrefixStep(c: Codec, records: seq<Record>, previous: nat, n: nat)
    requires Lawful(c) && records != [] && Acceptable(records[0], previous)
    requires n <= |EncodeAll(c, records[1..])| && RecoversPrefix(c, records[1..], previous + 1, n)
    ensures |Encode(c, records[0])| + n <= |EncodeAll(c, records)|
    ensures RecoversPrefix(c, records, previous, |Encode(c, records[0])| + n)
  {
    EncodePrefix(c, records, n);
    ParseStep(c, records[0], EncodeAll(c, records[1..])[..n], previous);
    BoundaryStep(c, records, n);
    var k := Boundary(c, records[1..], n);
    if k != -1 {
      assert [records[0]] + records[1..][..k] == records[..k + 1];
    }
  }

  /**
   A file cut at any byte: recovery succeeds exactly when the cut falls
   between records, and then returns the records before the cut.
   */
  lemma {:induction false} RecoverPrefix(c: Codec, records: seq<Record>, previous: nat, n: nat)
    requires Lawful(c) && Wellformed(records, previous)
    requires n <= |EncodeAll(c, records)|
    ensures RecoversPrefix(c, records, previous, n)
    decreases |records|
  {
    if n == 0 {
      assert records[..0] == [];
    } else if n < |Encode(c, records[0])| {
      PrefixTorn(c, records, previous, n);
    } else {
      var size := |Encode(c, records[0])|;
      RecoverPrefix(c, records[1..], previous + 1, n - size);
      PrefixStep(c, records, previous, n - size);
    }
  }

  lemma WellformedCons(r: Record, rest: seq<Record>, previous: nat)
    requires Acceptable(r, previous) && Wellformed(rest, previous + 1)
    ensures Wellformed([r] + rest, previous)
  {
    forall i | 0 <= i < |rest| + 1 ensures Acceptable(([r] + rest)[i], previous + i) {
      if i > 0 {
        assert ([r] + rest)[i] == rest[i - 1];
      }
    }
  }

  /**
   Whatever bytes recovery accepts are exactly the bytes that appending the
   returned records writes: no other record is ever returned.
   */
  lemma {:induction false} RecoverIsExact(c: Codec, file: Bytes, previous: nat)
    requires Lawful(c)
    requires Parse(c, file, previous).Records?
    requires previous + |Parse(c, file, previous).records| < U64
    ensures Wellformed(Parse(c, file, previous).records, previous)
    ensures EncodeAll(c, Parse(c, file, previous).records) == file
    decreases |file|
  {
    if file != [] {
      var r := ParseFrame(c, file, previous).record;
      var rest := file[HEADER_SIZE + |r.payload|..];
      var records := Parse(c, file, previous).records;
      FrameExact(c, file, previous);
      assert records[1..] == Parse(c, rest, previous + 1).records;
      RecoverIsExact(c, rest, previous + 1);
      assert file == Encode(c, r) + rest;
      WellformedCons(r, records[1..], previous);
      assert records == [r] + records[1..];
    }
  }

  /** The bytes of one record with its payload overwritten on disk: the header keeps the old checksum. */
  function Damaged(c: Codec, r: Record, payload: Bytes): Bytes {
    c.put(FieldsOf(c, r)) + payload
  }

  lemma FrameDamaged(c: Codec, r: Record, payload: Bytes, rest: Bytes, previous: nat)
    requires Lawful(c) && Acceptable(r, previous)
    requires |payload| == |r.payload| && c.sum(payload) != c.sum(r.payload)
    ensures ParseFrame(c, Damaged(c, r, payload) + rest, previous) == Bad(ChecksumMismatch)
  {
    assert LawfulAt(c, 0);
    var file := Damaged(c, r, payload) + rest;
    assert file[..HEADER_SIZE] == c.put(FieldsOf(c, r));
    assert file[HEADER_SIZE..HEADER_SIZE + |payload|] == payload;
  }

  /** A payload damaged anywhere in the file is refused when its checksum changed. */
  lemma {:induction false} RecoverDetectsDamage(c: Codec, before: seq<Record>, r: Record, payload: Bytes, after: Bytes,
                                                previous: nat)
    requires Lawful(c) && Wellformed(before, previous) && Acceptable(r, previous + |before|)
    requires |payload| == |r.payload| && c.sum(payload) != c.sum(r.payload)
    ensures Parse(c, EncodeAll(c, before) + (Damaged(c, r, payload) + after), previous) == Failed(ChecksumMismatch)
    decreases |before|
  {
    var rest := Damaged(c, r, payload) + after;
    if before == [] {
      FrameDamaged(c, r, payload, after, previous);
      assert EncodeAll(c, before) + rest == rest;
    } else {
      RecoverDetectsDamage(c, before[1..], r, payload, after, previous + 1);
      ParseStep(c, before[0], EncodeAll(c, before[1..]) + rest, previous);
      assert EncodeAll(c, before) + rest == Encode(c, before[0]) + (EncodeAll(c, before[1..]) + rest);
    }
  }

  // Damaged headers.

  /** What recovery reports for a record whose header holds these fields and the right length. */
  function HeaderFault(r: Record, g: Fields): JournalError {
    if g.magic != MAGIC || g.version != VERSION then InvalidHeader
    else if g.sequence != r.sequence then NonContiguous
    else ChecksumMismatch
  }

  /** The fields are the record's own, but for the kind. */
  predicate SameButKind(c: Codec, r: Record, g: Fields) {
    g == FieldsOf(c, r).(kind := g.kind)
  }

  lemma FrameHeader(c: Codec, r: Record, g: Fields, rest: Bytes, previous: nat)
    requires Lawful(c) && Acceptable(r, previous) && InRange(g) && g.length == |r.payload|
    ensures ParseFrame(c, c.put(g) + r.payload + rest, previous)
         == if SameButKind(c, r, g) then Frame(r.(kind := g.kind)) else Bad(HeaderFault(r, g))
    ensures |c.put(g)| == HEADER_SIZE && (c.put(g) + r.payload + rest)[HEADER_SIZE + |r.payload|..] == rest
  {
    assert LawfulAt(c, 0);
    var file := c.put(g) + r.payload + rest;
    assert file[..HEADER_SIZE] == c.put(g);
    assert file[HEADER_SIZE..HEADER_SIZE + |r.payload|] == r.payload;
  }

  /** Well-formed records in front are read first. */
  lemma {:induction false} ParseAfter(c: Codec, before: seq<Record>, rest: Bytes, previous: nat)
    requires Lawful(c) && Wellformed(before, previous)
    ensures Parse(c, EncodeAll(c, before) + rest, previous) == Continue(before, Parse(c, rest, previous + |before|))
    decreases |before|
  {
    hide ParseFrame, Encode;
    if before == [] {
      assert EncodeAll(c, before) + rest == rest;
      ContinueNone(Parse(c, rest, previous));
    } else {
      var more := before[1..];
      ParseAfter(c, more, rest, previous + 1);
      ParseStep(c, before[0], EncodeAll(c, more) + rest, previous);
      assert EncodeAll(c, before) + rest == Encode(c, before[0]) + (EncodeAll(c, more) + rest);
      var tail := Parse(c, rest, previous + |before|);
      if tail.Records? {
        assert [before[0]] + (more + tail.records) == before + tail.records;
      }
    }
  }

  /**
   A header overwritten with any fields of the same length, anywhere in the
   file: the record is read if and only if nothing but the kind was changed,
   and then with the new kind; any other change is refused.
   */
  lemma RecoverHeader(c: Codec, before: seq<Record>, r: Record, g: Fields, after: Bytes, previous: nat)
    requires Lawful(c) && Wellformed(before, previous) && Acceptable(r, previous + |before|)
    requires InRange(g) && g.length == |r.payload|
    ensures Parse(c, EncodeAll(c, before) + (c.put(g) + r.payload + after), previous)
         == if SameButKind(c, r, g) then Continue(before + [r.(kind := g.kind)], Parse(c, after, r.sequence))
            else Failed(HeaderFault(r, g))
  {
    hide ParseFrame, Parse, SameButKind, HeaderFault, EncodeAll;
    var rest := c.put(g) + r.payload + after;
    FrameHeader(c, r, g, after, previous + |before|);
    ParseAfter(c, before, rest, previous);
    ParseEnds(c, before, rest, previous + |before|);
    if SameButKind(c, r, g) {
      ContinueStep(c, before, rest, previous + |before|);
    }
  }

  // Payloads that can be appended but not read.

  /** A record that can be appended after `previous`. */
  predicate Appendable(r: Record, previous: nat) {
    r.kind < U16 && r.sequence == previous + 1 < U64 && 1 <= |r.payload| < U32
  }

  predicate Appended(records: seq<Record>, previous: nat) {
    forall i | 0 <= i < |records| :: Appendable(records[i], previous + i)
  }

  predicate Oversize(records: seq<Record>) {
    exists i :: 0 <= i < |records| && |records[i].payload| > 8 * 1024 * 1024
  }

  lemma FrameOversize(c: Codec, r: Record, rest: Bytes, previous: nat)
    requires Lawful(c) && Appendable(r, previous) && |r.payload| > MAX_RECOVER
    ensures ParseFrame(c, Encode(c, r) + rest, previous) == Bad(InvalidLength)
  {
    assert LawfulAt(c, 0);
    assert (Encode(c, r) + rest)[..HEADER_SIZE] == c.put(FieldsOf(c, r));
  }

  /** One payload over 8 MiB, and no file that goes on from there is ever read again. */
  lemma {:induction false} RecoverOversize(c: Codec, records: seq<Record>, after: Bytes, previous: nat)
    requires Lawful(c) && Appended(records, previous) && Oversize(records)
    ensures Parse(c, EncodeAll(c, records) + after, previous) == Failed(InvalidLength)
    decreases |records|
  {
    hide ParseFrame, Encode;
    var r, rest := records[0], EncodeAll(c, records[1..]) + after;
    assert EncodeAll(c, records) + after == Encode(c, r) + rest;
    assert Appendable(r, previous);
    EncodeSize(c, r);
    if |r.payload| > MAX_RECOVER {
      FrameOversize(c, r, rest, previous);
    } else {
      var i :| 0 <= i < |records| && |records[i].payload| > MAX_RECOVER;
      assert records[1..][i - 1] == records[i];
      RecoverOversize(c, records[1..], after, previous + 1);
      ParseStep(c, r, rest, previous);
    }
  }
}

/** The journal's own header layout and checksum, and the journal object. */
module JournalFile {
  import opened Octets
  import opened Wire
  import opened Crc
  import opened Framing

  const MAX_APPEND: nat := 0xFFFF_FFFF

  function Layout(magic: Bytes, version: Bytes, kind: Bytes, sequence: Bytes, length: Bytes, checksum: Bytes): Bytes {
    magic + version + kind + sequence + length + checksum
  }

  function PutFields(f: Fields): (header: Bytes)
    ensures |header| == HEADER_SIZE
  {
    Layout(PutLE(f.magic, 4), PutLE(f.version, 2), PutLE(f.kind, 2), PutLE(f.sequence, 8),
           PutLE(f.length, 4), PutLE(f.checksum, 4))
  }

  function GetFields(header: Bytes): Fields {
    if |header| < HEADER_SIZE then Fields(0, 0, 0, 0, 0, 0)
    else Fields(GetLE(header[0..4]), GetLE(header[4..6]), GetLE(header[6..8]), GetLE(header[8..16]),
                GetLE(header[16..20]), GetLE(header[20..24]))
  }

  const DISK: Codec := Codec(PutFields, GetFields, Checksum)

  lemma LayoutSlices(a: Bytes, b: Bytes, c: Bytes, d: Bytes, e: Bytes, f: Bytes)
    requires |a| == 4 && |b| == 2 && |c| == 2 && |d| == 8 && |e| == 4 && |f| == 4
    ensures var file := Layout(a, b, c, d, e, f);
      && |file| == HEADER_SIZE
      && file[0..4] == a && file[4..6] == b && file[6..8] == c && file[8..16] == d
      && file[16..20] == e && file[20..24] == f
  {
  }

  lemma LayoutPieces(file: Bytes)
    requires |file| == HEADER_SIZE
    ensures file == Layout(file[0..4], file[4..6], file[6..8], file[8..16], file[16..20], file[20..24])
  {
  }

  lemma FieldSizes()
    ensures Pow256(2) == U16 && Pow256(4) == U32 && Pow256(8) == U64 && Pow2(32) == U32
  {
    Widths();
    assert Pow2(8) == 256;
    assert Pow2(16) == 256 * Pow2(8);
    assert Pow2(24) == 256 * Pow2(16);
    assert Pow2(32) == 256 * Pow2(24);
  }

  lemma GetPutFields(f: Fields)
    requires InRange(f)
    ensures GetFields(PutFields(f)) == f
  {
    FieldSizes();
    LayoutSlices(PutLE(f.magic, 4), PutLE(f.version, 2), PutLE(f.kind, 2), PutLE(f.sequence, 8),
                 PutLE(f.length, 4), PutLE(f.checksum, 4));
    GetPut(f.magic, 4);
    GetPut(f.version, 2);
    GetPut(f.kind, 2);
    GetPut(f.sequence, 8);
    GetPut(f.length, 4);
    GetPut(f.checksum, 4);
  }

  lemma PutGetFields(header: Bytes)
    requires |header| == HEADER_SIZE
    ensures InRange(GetFields(header)) && PutFields(GetFields(header)) == header
  {
    FieldSizes();
    LayoutPieces(header);
    PutGet(header[0..4]);
    PutGet(header[4..6]);
    PutGet(header[6..8]);
    PutGet(header[8..16]);
    PutGet(header[16..20]);
    PutGet(header[20..24]);
  }

  /** The header on disk round-trips both ways, so every framing lemma applies to it. */
  lemma DiskLawful()
    ensures Lawful(DISK)
  {
    forall at: nat ensures LawfulAt(DISK, at) {
      DiskLaws(at);
    }
  }

  lemma DiskLaws(at: nat)
    ensures LawfulAt(DISK, at)
  {
    forall f | InRange(f) ensures GetFields(PutFields(f)) == f {
      GetPutFields(f);
    }
    forall header: Bytes | |header| == HEADER_SIZE
      ensures InRange(GetFields(header)) && PutFields(GetFields(header)) == header
    {
      PutGetFields(header);
    }
    FieldSizes();
  }

  /** A payload changed within four consecutive bytes, anywhere in the file, is refused. */
  lemma RecoverDetectsBurst(before: seq<Record>, r: Record, after: Bytes, head: Bytes, x: Bytes, y: Bytes, tail: Bytes)
    requires Wellformed(before, 0) && Acceptable(r, |before|)
    requires r.payload == head + x + tail && |x| == |y| <= 4 && x != y
    ensures Parse(DISK, EncodeAll(DISK, before) + (Damaged(DISK, r, head + y + tail) + after), 0)
            == Failed(ChecksumMismatch)
  {
    DiskLawful();
    ChecksumDetectsBurst(head, x, y, tail);
    RecoverDetectsDamage(DISK, before, r, head + y + tail, after, 0);
  }

  /**
   Any 24 bytes in place of a record's header, with its length unchanged: the
   record is read exactly when they are its header but for the kind.
   */
  lemma RecoverHeaderDamage(before: seq<Record>, r: Record, header: Bytes, after: Bytes)
    requires Wellformed(before, 0) && Acceptable(r, |before|)
    requires |header| == HEADER_SIZE && GetFields(header).length == |r.payload|
    ensures var g := GetFields(header);
      Parse(DISK, EncodeAll(DISK, before) + (header + r.payload + after), 0)
      == if SameButKind(DISK, r, g) then Continue(before + [r.(kind := g.kind)], Parse(DISK, after, r.sequence))
         else Failed(HeaderFault(r, g))
  {
    hide Parse, EncodeAll, GetFields, PutFields, SameButKind, HeaderFault;
    DiskLawful();
    PutGetFields(header);
    assert DISK.put(GetFields(header)) == header;
    RecoverHeader(DISK, before, r, GetFields(header), after, 0);
  }

  /**
   The checksum covers the payload only: a record whose kind was overwritten,
   anywhere in a file, comes back with the wrong kind among the right records.
   */
  lemma RecoverMissesKindDamage(before: seq<Record>, r: Record, kind: nat, after: seq<Record>)
    requires Wellformed(before, 0) && Acceptable(r, |before|) && Wellformed(after, |before| + 1) && kind < U16
    ensures var header := PutFields(FieldsOf(DISK, r).(kind := kind));
      Parse(DISK, EncodeAll(DISK, before) + (header + r.payload + EncodeAll(DISK, after)), 0)
      == Records(before + [r.(kind := kind)] + after)
  {
    hide Parse, EncodeAll, GetFields, PutFields, Checksum;
    DiskLawful();
    SumsFit(r.payload);
    var g := FieldsOf(DISK, r).(kind := kind);
    RecoverHeader(DISK, before, r, g, EncodeAll(DISK, after), 0);
    RecoverWhole(DISK, after, |before| + 1);
  }

  /**
   What was appended comes back exactly when no payload is over 8 MiB. Otherwise
   the file is refused, and so is every file it can grow into.
   */
  lemma RecoverAppended(records: seq<Record>, after: Bytes)
    requires Appended(records, 0)
    ensures Parse(DISK, EncodeAll(DISK, records), 0) == Records(records) <==> !Oversize(records)
    ensures Oversize(records) ==> Parse(DISK, EncodeAll(DISK, records) + after, 0) == Failed(InvalidLength)
  {
    hide Parse, EncodeAll;
    DiskLawful();
    if Oversize(records) {
      RecoverOversize(DISK, records, [], 0);
      assert EncodeAll(DISK, records) + [] == EncodeAll(DISK, records);
      RecoverOversize(DISK, records, after, 0);
    } else {
      forall i | 0 <= i < |records| ensures Acceptable(records[i], i) {
        assert Appendable(records[i], i);
      }
      RecoverWhole(DISK, records, 0);
    }
  }

  function Two(b: Bytes): nat
    requires |b| == 2
  {
    (b[0] as int) + 0x100 * (b[1] as int)
  }

  function Four(b: Bytes): nat
    requires |b| == 4
  {
    (b[0] as int) + 0x100 * (b[1] as int) + 0x1_0000 * (b[2] as int) + 0x100_0000 * (b[3] as int)
  }

  lemma TwoIs(b: Bytes)
    requires |b| == 2
    ensures GetLE(b) == Two(b)
  {
    assert GetLE(b[1..][1..]) == 0;
  }

  lemma FourIs(b: Bytes)
    requires |b| == 4
    ensures GetLE(b) == Four(b)
  {
    TwoIs(b[2..]);
    assert b[1..][1..] == b[2..];
    assert GetLE(b[1..]) == b[1] + 0x100 * GetLE(b[2..]);
  }

  lemma EightIs(b: Bytes)
    requires |b| == 8
    ensures GetLE(b) == Four(b[..4]) + 0x1_0000_0000 * Four(b[4..])
  {
    FourIs(b[4..]);
    assert b[1..][1..] == b[2..] && b[2..][1..] == b[3..] && b[3..][1..] == b[4..];
    assert GetLE(b[3..]) == b[3] + 0x100 * GetLE(b[4..]);
    assert GetLE(b[2..]) == b[2] + 0x100 * GetLE(b[3..]);
    assert GetLE(b[1..]) == b[1] + 0x100 * GetLE(b[2..]);
  }

  /**
   What stands where in a record on disk, low byte first: LMJ1, version 1, kind,
   number, length, checksum, payload.
   */
  lemma RecordLayout(r: Record)
    requires r.kind < 0x1_0000 && r.sequence < 0x1_0000_0000_0000_0000 && |r.payload| < 0x1_0000_0000
    ensures var bytes := Encode(DISK, r);
      && |bytes| == 24 + |r.payload| && bytes[24..] == r.payload
      && Four(bytes[0..4]) == 0x314A4D4C && Two(bytes[4..6]) == 1 && Two(bytes[6..8]) == r.kind
      && Four(bytes[8..12]) + 0x1_0000_0000 * Four(bytes[12..16]) == r.sequence
      && Four(bytes[16..20]) == |r.payload| && Four(bytes[20..24]) == Checksum(r.payload)
  {
    hide PutFields, GetLE, Checksum, Two, Four;
    var f := FieldsOf(DISK, r);
    SumsFit(r.payload);
    GetPutFields(f);
    var header, bytes := PutFields(f), Encode(DISK, r);
    assert bytes[0..4] == header[0..4] && bytes[4..6] == header[4..6] && bytes[6..8] == header[6..8];
    assert bytes[16..20] == header[16..20] && bytes[20..24] == header[20..24];
    assert header[8..16][..4] == bytes[8..12] && header[8..16][4..] == bytes[12..16];
    FourIs(header[0..4]);
    TwoIs(header[4..6]);
    TwoIs(header[6..8]);
    EightIs(header[8..16]);
    FourIs(header[16..20]);
    FourIs(header[20..24]);
  }

  lemma SumsFit(payload: Bytes)
    ensures DISK.sum(payload) < U32
  {
    DiskLaws(0);
  }

  /** The codec is the one on disk; stated through IsDiskAt so that DISK unfolds only where named. */
  ghost predicate IsDisk(c: Codec) {
    forall at: nat :: IsDiskAt(c, at)
  }

  ghost predicate IsDiskAt(c: Codec, at: nat) {
    c == DISK
  }

  class Journal {
    const codec: Codec

    /** The file's contents. */
    var file: Bytes

    ghost predicate Valid() {
      IsDisk(codec)
    }

    /** Opens a journal whose file already holds `contents`. */
    constructor (contents: Bytes)
      ensures Valid() && file == contents
    {
      codec := DISK;
      file := contents;
    }

    /** Writes header and payload to the end of the file, or refuses the record and writes nothing. */
    method Append(kind: nat, sequence: nat, payload: Bytes) returns (ok: bool)
      requires Valid()
      modifies this
      ensures ok == (sequence != 0 && 0 < |payload| < 0x1_0000_0000)
      ensures file == if ok then old(file) + Encode(codec, Record(kind, sequence, payload)) else old(file)
    {
      if sequence == 0 || |payload| == 0 || |payload| > MAX_APPEND {
        return false;
      }
      assert IsDiskAt(codec, 0);
      var checksum := ComputeChecksum(payload);
      var header := BuildHeader(Fields(MAGIC, VERSION, kind, sequence, |payload|, checksum));
      file := file + header;
      file := file + payload;
      ok := true;
    }

    method BuildHeader(f: Fields) returns (header: Bytes)
      ensures header == PutFields(f)
    {
      var buffer := new Byte[24](_ => 0);
      Put(buffer, 0, 4, f.magic);
      assert buffer[..4] == PutLE(f.magic, 4);
      Put(buffer, 4, 2, f.version);
      assert buffer[..6] == PutLE(f.magic, 4) + PutLE(f.version, 2);
      Put(buffer, 6, 2, f.kind);
      ghost var upto8 := PutLE(f.magic, 4) + PutLE(f.version, 2) + PutLE(f.kind, 2);
      assert buffer[..8] == upto8;
      Put(buffer, 8, 8, f.sequence);
      assert buffer[..16] == upto8 + PutLE(f.sequence, 8);
      Put(buffer, 16, 4, f.length);
      assert buffer[..20] == upto8 + PutLE(f.sequence, 8) + PutLE(f.length, 4);
      Put(buffer, 20, 4, f.checksum);
      header := buffer[..];
    }

    /** Reads the file from the start, checking every frame. */
    method Recover() returns (result: Recovered)
      requires Valid()
      ensures result == Parse(codec, file, 0)
    {
      hide Parse, ParseFrame, Continue;
      var at := 0;
      var previous: nat := 0;
      var records: seq<Record> := [];
      ContinueNone(Parse(codec, file, 0));
      assert file[0..] == file;
      while at < |file|
        invariant 0 <= at <= |file|
        invariant Parse(codec, file, 0) == Continue(records, Parse(codec, file[at..], previous))
        decreases |file| - at
      {
        var frame := ReadFrame(file[at..], previous);
        ParseEnds(codec, records, file[at..], previous);
        if frame.Bad? {
          return Failed(frame.error);
        }
        ContinueStep(codec, records, file[at..], previous);
        var size := HEADER_SIZE + |frame.record.payload|;
        assert file[at..][size..] == file[at + size..];
        records := records + [frame.record];
        previous := frame.record.sequence;
        at := at + size;
      }
      ParseEnds(codec, records, file[at..], previous);
      result := Records(records);
    }

    method ReadFrame(rest: Bytes, previous: nat) returns (frame: Frame)
      requires Valid()
      ensures frame == ParseFrame(codec, rest, previous)
    {
      hide GetFields, PutFields, Checksum;
      if |rest| < HEADER_SIZE {
        return Bad(TruncatedHeader);
      }
      assert IsDiskAt(codec, 0);
      var f := ReadHeader(rest[..HEADER_SIZE]);
      if f.magic != MAGIC || f.version != VERSION {
        return Bad(InvalidHeader);
      }
      if f.sequence != (previous + 1) % U64 {
        return Bad(NonContiguous);
      }
      if f.length == 0 || f.length > MAX_RECOVER {
        return Bad(InvalidLength);
      }
      if |rest| < HEADER_SIZE + f.length {
        return Bad(TruncatedPayload);
      }
      var payload := rest[HEADER_SIZE..HEADER_SIZE + f.length];
      var checksum := ComputeChecksum(payload);
      if checksum != f.checksum {
        return Bad(ChecksumMismatch);
      }
      frame := Frame(Record(f.kind, f.sequence, payload));
    }

    method ReadHeader(header: Bytes) returns (f: Fields)
      requires |header| == HEADER_SIZE
      ensures f == GetFields(header)
    {
      var magic := Get(header[0..4]);
      var version := Get(header[4..6]);
      var kind := Get(header[6..8]);
      var sequence := Get(header[8..16]);
      var length := Get(header[16..20]);
      var checksum := Get(header[20..24]);
      f := Fields(magic, version, kind, sequence, length, checksum);
    }
  }
}
