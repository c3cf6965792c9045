/** The hash-chained event ledger and its JSON Lines file.  The hash function, the event encoder and
    the JSON printer and parser of one line are parameters, gathered in a `Codec`; what a claim needs
    of them is a hypothesis of that claim. */
module Ledger {
  import opened Types

  newtype byte = x: int | 0 <= x < 256

  const TWO_64: nat := 0x1_0000_0000_0000_0000
  type u64 = n: nat | n < TWO_64

  type Digest = d: seq<byte> | |d| == 32 witness ZEROS

  const ZEROS: seq<byte> :=
    [0, 0, 0, 0, 0, 0, 0, 0, 0, 0, 0, 0, 0, 0, 0, 0,
     0, 0, 0, 0, 0, 0, 0, 0, 0, 0, 0, 0, 0, 0, 0, 0]

  /** The checksum before the first entry. */
  const ZERO: Digest := ZEROS

  datatype LedgerEntry = LedgerEntry(seqNo: u64, logicalTime: u64, event: Event, checksum: Digest)

  /** A line of the file before its checksum is decoded. */
  datatype RawEntry = RawEntry(seqNo: u64, logicalTime: u64, event: Event, checksum: string)

  datatype Codec = Codec(
    hash: seq<byte> -> Digest,
    encode: Event -> seq<byte>,
    render: RawEntry -> string,
    parse: string -> Option<RawEntry>
  )

  datatype LedgerError = Json | ChainIntegrityViolation

  // ----- bytes ----------------------------------------------------------------------------------------

  function LittleEndian(n: nat, width: nat): (r: seq<byte>)
    ensures |r| == width
  {
    if width == 0 then [] else [(n % 256) as byte] + LittleEndian(n / 256, width - 1)
  }

  function FromLittleEndian(s: seq<byte>): nat {
    if s == [] then 0 else s[0] as nat + 256 * FromLittleEndian(s[1..])
  }

  function Pow256(k: nat): nat {
    if k == 0 then 1 else 256 * Pow256(k - 1)
  }

  lemma {:induction false} LittleEndianRoundTrip(n: nat, width: nat)
    requires n < Pow256(width)
    ensures FromLittleEndian(LittleEndian(n, width)) == n
  {
    if width > 0 {
      LittleEndianRoundTrip(n / 256, width - 1);
      assert LittleEndian(n, width)[1..] == LittleEndian(n / 256, width - 1);
    }
  }

  lemma EightBytes(n: u64)
    ensures FromLittleEndian(LittleEndian(n, 8)) == n
  {
    assert Pow256(2) == 0x1_0000;
    assert Pow256(4) == 0x1_0000_0000;
    assert Pow256(6) == 0x1_0000_0000_0000;
    assert Pow256(8) == TWO_64;
    LittleEndianRoundTrip(n, 8);
  }

  /** What is hashed: previous checksum, two 8-byte little-endian numbers, the encoded event. */
  function Preimage(c: Codec, seqNo: u64, logicalTime: u64, event: Event, previous: Digest): seq<byte> {
    previous + LittleEndian(seqNo, 8) + LittleEndian(logicalTime, 8) + c.encode(event)
  }

  /** The encoder tells these two events apart. */
  ghost predicate TellsApart(c: Codec, e: Event, e': Event) {
    c.encode(e) == c.encode(e') ==> e == e'
  }

  /** The framing is injective: the fixed-width fields can be cut back out of the bytes. */
  lemma PreimageInjective(c: Codec, e: LedgerEntry, previous: Digest, e': LedgerEntry, previous': Digest)
    requires TellsApart(c, e.event, e'.event)
    requires Preimage(c, e.seqNo, e.logicalTime, e.event, previous)
          == Preimage(c, e'.seqNo, e'.logicalTime, e'.event, previous')
    ensures previous == previous' && e.seqNo == e'.seqNo && e.logicalTime == e'.logicalTime && e.event == e'.event
  {
    var p := Preimage(c, e.seqNo, e.logicalTime, e.event, previous);
    assert p[..32] == previous && p[..32] == previous';
    assert p[32..40] == LittleEndian(e.seqNo, 8) && p[32..40] == LittleEndian(e'.seqNo, 8);
    assert p[40..48] == LittleEndian(e.logicalTime, 8) && p[40..48] == LittleEndian(e'.logicalTime, 8);
    assert p[48..] == c.encode(e.event) && p[48..] == c.encode(e'.event);
    EightBytes(e.seqNo);
    EightBytes(e'.seqNo);
    EightBytes(e.logicalTime);
    EightBytes(e'.logicalTime);
  }

  /** The layout of what is hashed: bytes 0 to 31 are the previous checksum, 32 to 39 the number and 40 to 47 the
      logical time, least significant byte first, and the event follows. */
  lemma PreimageLayout(c: Codec, seqNo: u64, logicalTime: u64, event: Event, previous: Digest)
    ensures var p := Preimage(c, seqNo, logicalTime, event, previous);
      && |p| == 48 + |c.encode(event)| && p[..32] == previous && p[48..] == c.encode(event)
      && FromLittleEndian(p[32..40]) == seqNo && FromLittleEndian(p[40..48]) == logicalTime
  {
    var p := Preimage(c, seqNo, logicalTime, event, previous);
    assert p[32..40] == LittleEndian(seqNo, 8) && p[40..48] == LittleEndian(logicalTime, 8);
    EightBytes(seqNo);
    EightBytes(logicalTime);
  }

  function ComputeChecksum(c: Codec, seqNo: u64, logicalTime: u64, event: Event, previous: Digest): Digest {
    c.hash(Preimage(c, seqNo, logicalTime, event, previous))
  }

  // ----- the chain ------------------------------------------------------------------------------------

  function LastChecksum(entries: seq<LedgerEntry>): Digest {
    if entries == [] then ZERO else entries[|entries| - 1].checksum
  }

  /** The bytes whose hash entry `i` should carry. */
  function PreimageAt(c: Codec, entries: seq<LedgerEntry>, i: nat): seq<byte>
    requires i < |entries|
  {
    var e := entries[i];
    Preimage(c, e.seqNo, e.logicalTime, e.event, LastChecksum(entries[..i]))
  }

  /** Entry `i` carries the hash of itself framed with the checksum before it. */
  predicate EntryOk(c: Codec, entries: seq<LedgerEntry>, i: nat)
    requires i < |entries|
  {
    entries[i].checksum == c.hash(PreimageAt(c, entries, i))
  }

  /** Every checksum is the hash of its entry framed with the checksum before it. */
  predicate Accepted(c: Codec, entries: seq<LedgerEntry>) {
    forall i :: 0 <= i < |entries| ==> EntryOk(c, entries, i)
  }

  lemma AcceptedPrefix(c: Codec, entries: seq<LedgerEntry>, n: nat)
    requires Accepted(c, entries) && n <= |entries|
    ensures Accepted(c, entries[..n])
  {
    forall i | 0 <= i < n ensures EntryOk(c, entries[..n], i) {
      assert entries[..n][..i] == entries[..i];
      assert EntryOk(c, entries, i);
    }
  }

  method VerifyChain(c: Codec, entries: seq<LedgerEntry>) returns (ok: bool)
    ensures ok == Accepted(c, entries)
  {
    var prev := ZERO;
    for i := 0 to |entries|
      invariant forall k :: 0 <= k < i ==> EntryOk(c, entries, k)
      invariant prev == LastChecksum(entries[..i])
    {
      var e := entries[i];
      if e.checksum != ComputeChecksum(c, e.seqNo, e.logicalTime, e.event, prev) {
        assert !EntryOk(c, entries, i);
        return false;
      }
      prev := e.checksum;
    }
    return true;
  }

  /** Entry `i` of one chain and entry `j` of the other were hashed from different bytes to the same
      checksum: a collision that anyone holding the two chains can point at. */
  ghost predicate CollideAt(c: Codec, entries: seq<LedgerEntry>, i: nat, others: seq<LedgerEntry>, j: nat) {
    && i < |entries| && j < |others|
    && PreimageAt(c, entries, i) != PreimageAt(c, others, j)
    && c.hash(PreimageAt(c, entries, i)) == c.hash(PreimageAt(c, others, j))
  }

  /** Two entries of accepted chains with the same checksum: they collide, or they agree in everything, down
      to the checksum before them. */
  lemma EntriesAgree(c: Codec, entries: seq<LedgerEntry>, i: nat, others: seq<LedgerEntry>, j: nat)
    requires i < |entries| && j < |others| && EntryOk(c, entries, i) && EntryOk(c, others, j)
    requires entries[i].checksum == others[j].checksum && TellsApart(c, entries[i].event, others[j].event)
    ensures CollideAt(c, entries, i, others, j) ||
      (entries[i] == others[j] && LastChecksum(entries[..i]) == LastChecksum(others[..j]))
  {
    if PreimageAt(c, entries, i) == PreimageAt(c, others, j) {
      PreimageInjective(c, entries[i], LastChecksum(entries[..i]), others[j], LastChecksum(others[..j]));
    }
  }

  /** Entries of equal index agree from a common checksum downwards, up to a collision. */
  lemma {:induction false} AgreeBelow(c: Codec, entries: seq<LedgerEntry>, others: seq<LedgerEntry>, k: nat)
    requires Accepted(c, entries) && Accepted(c, others) && k < |entries| == |others|
    requires entries[k].checksum == others[k].checksum
    requires forall i :: 0 <= i <= k ==> TellsApart(c, entries[i].event, others[i].event)
    ensures (forall i :: 0 <= i <= k ==> entries[i] == others[i])
      || exists i: nat :: CollideAt(c, entries, i, others, i)
  {
    assert EntryOk(c, entries, k) && EntryOk(c, others, k);
    EntriesAgree(c, entries, k, others, k);
    if k > 0 && !CollideAt(c, entries, k, others, k) {
      AgreeBelow(c, entries, others, k - 1);
    }
  }

  /** Two accepted chains of equal length that end in the same checksum are the same chain, or at some
      index their two entries are themselves a collision of the hash. */
  lemma TamperEvident(c: Codec, entries: seq<LedgerEntry>, others: seq<LedgerEntry>)
    requires Accepted(c, entries) && Accepted(c, others)
    requires |entries| == |others| && LastChecksum(entries) == LastChecksum(others)
    requires forall i :: 0 <= i < |entries| ==> TellsApart(c, entries[i].event, others[i].event)
    ensures entries == others || exists i: nat :: CollideAt(c, entries, i, others, i)
  {
    if entries != [] { AgreeBelow(c, entries, others, |entries| - 1); }
  }

  /** Entry i carries the number i + 1. */
  predicate Numbered(entries: seq<LedgerEntry>) {
    forall i :: 0 <= i < |entries| ==> entries[i].seqNo == i + 1
  }

  /** For numbered chains the lengths need not be compared beforehand: the last checksum fixes them too, or
      an entry of one chain collides with an entry of the other. */
  lemma TamperEvidentNumbered(c: Codec, entries: seq<LedgerEntry>, others: seq<LedgerEntry>)
    requires Accepted(c, entries) && Accepted(c, others)
    requires Numbered(entries) && Numbered(others) && entries != [] && others != []
    requires LastChecksum(entries) == LastChecksum(others)
    requires forall i, j :: 0 <= i < |entries| && 0 <= j < |others| ==> TellsApart(c, entries[i].event, others[j].event)
    ensures entries == others || exists i: nat, j: nat :: CollideAt(c, entries, i, others, j)
  {
    var k, k' := |entries| - 1, |others| - 1;
    assert EntryOk(c, entries, k) && EntryOk(c, others, k');
    EntriesAgree(c, entries, k, others, k');
    if !CollideAt(c, entries, k, others, k') {
      assert |entries| == |others|;
      TamperEvident(c, entries, others);
    }
  }

  /** An entry without its checksum. */
  datatype Payload = Payload(seqNo: u64, logicalTime: u64, event: Event)

  function Payloads(entries: seq<LedgerEntry>): seq<Payload> {
    seq(|entries|, i requires 0 <= i < |entries| => PayloadOf(entries[i]))
  }

  /** A payload with the checksum that makes it follow `previous`. */
  function Sealed(c: Codec, p: Payload, previous: Digest): LedgerEntry {
    LedgerEntry(p.seqNo, p.logicalTime, p.event, ComputeChecksum(c, p.seqNo, p.logicalTime, p.event, previous))
  }

  function Seal(c: Codec, payloads: seq<Payload>): seq<LedgerEntry> {
    if payloads == [] then []
    else
      var front := Seal(c, payloads[..|payloads| - 1]);
      front + [Sealed(c, payloads[|payloads| - 1], LastChecksum(front))]
  }

  /** For any payloads whatever there is exactly one accepted chain that carries them.  In particular
      verification constrains neither sequence numbers nor logical times. */
  lemma OneChainPerPayload(c: Codec, payloads: seq<Payload>, entries: seq<LedgerEntry>)
    ensures Accepted(c, entries) && Payloads(entries) == payloads <==> entries == Seal(c, payloads)
  {
    SealCarries(c, payloads);
    if Accepted(c, entries) && Payloads(entries) == payloads { SealOfChain(c, entries); }
  }

  function PayloadOf(e: LedgerEntry): Payload {
    Payload(e.seqNo, e.logicalTime, e.event)
  }

  lemma PayloadsSnoc(front: seq<LedgerEntry>, e: LedgerEntry)
    ensures Payloads(front + [e]) == Payloads(front) + [PayloadOf(e)]
  {
  }

  lemma AcceptedSnoc(c: Codec, front: seq<LedgerEntry>, p: Payload)
    requires Accepted(c, front)
    ensures Accepted(c, front + [Sealed(c, p, LastChecksum(front))])
  {
    var entries := front + [Sealed(c, p, LastChecksum(front))];
    assert entries[..|front|] == front;
    forall i | 0 <= i < |front| ensures EntryOk(c, entries, i) {
      assert entries[..i] == front[..i];
      assert EntryOk(c, front, i);
    }
  }

  lemma {:induction false} SealCarries(c: Codec, payloads: seq<Payload>)
    ensures Accepted(c, Seal(c, payloads)) && Payloads(Seal(c, payloads)) == payloads
  {
    if payloads != [] {
      var rest, p := payloads[..|payloads| - 1], payloads[|payloads| - 1];
      var front := Seal(c, rest);
      SealCarries(c, rest);
      assert payloads == rest + [p];
      AcceptedSnoc(c, front, p);
      PayloadsSnoc(front, Sealed(c, p, LastChecksum(front)));
    }
  }

  lemma {:induction false} SealOfChain(c: Codec, entries: seq<LedgerEntry>)
    requires Accepted(c, entries)
    ensures Seal(c, Payloads(entries)) == entries
  {
    if entries != [] {
      var front, e := entries[..|entries| - 1], entries[|entries| - 1];
      AcceptedPrefix(c, entries, |front|);
      SealOfChain(c, front);
      assert entries == front + [e];
      PayloadsSnoc(front, e);
      assert EntryOk(c, entries, |front|);
    }
  }

  ghost predicate Increasing(entries: seq<LedgerEntry>) {
    forall i, j :: 0 <= i < j < |entries| ==> entries[i].seqNo < entries[j].seqNo
  }

  /** The documented invariant "strictly increasing by seq" is not checked on load: any payloads can be
      sealed into an accepted chain, and it has the invariant exactly when their numbers increase. */
  lemma IncreasingExactly(c: Codec, payloads: seq<Payload>)
    ensures var entries := Seal(c, payloads);
      && Accepted(c, entries) && |entries| == |payloads|
      && (Increasing(entries) <==>
            forall i, j :: 0 <= i < j < |payloads| ==> payloads[i].seqNo < payloads[j].seqNo)
  {
    var entries := Seal(c, payloads);
    OneChainPerPayload(c, payloads, entries);
    assert |Payloads(entries)| == |entries|;
    forall i | 0 <= i < |entries| ensures entries[i].seqNo == payloads[i].seqNo {
      assert Payloads(entries)[i] == payloads[i];
    }
  }

  /** For instance, any two events pass verification with both entries numbered 1. */
  lemma NumbersNotVerified(c: Codec, a: Event, b: Event)
    ensures var entries := Seal(c, [Payload(1, 1, a), Payload(1, 1, b)]);
      Accepted(c, entries) && |entries| == 2 && !Increasing(entries)
  {
    var payloads := [Payload(1, 1, a), Payload(1, 1, b)];
    IncreasingExactly(c, payloads);
    assert !(payloads[0].seqNo < payloads[1].seqNo);
  }

  // ----- appending ------------------------------------------------------------------------------------

  /** The number `append` gives the next entry: `len() as u64 + 1`, taken modulo 2^64. */
  function NextNumber(length: nat): u64 {
    (length + 1) % TWO_64
  }

  /** The chain that appending these events one by one produces. */
  function Chain(c: Codec, events: seq<Event>): seq<LedgerEntry> {
    if events == [] then []
    else
      var front, e := Chain(c, events[..|events| - 1]), events[|events| - 1];
      var n := NextNumber(|front|);
      front + [LedgerEntry(n, n, e, ComputeChecksum(c, n, n, e, LastChecksum(front)))]
  }

  function Events(entries: seq<LedgerEntry>): seq<Event> {
    seq(|entries|, i requires 0 <= i < |entries| => entries[i].event)
  }

  lemma {:induction false} ChainEvents(c: Codec, events: seq<Event>)
    ensures |Chain(c, events)| == |events| && Events(Chain(c, events)) == events
  {
    if events != [] {
      var front, e := events[..|events| - 1], events[|events| - 1];
      ChainEvents(c, front);
      assert Events(Chain(c, events)) == Events(Chain(c, front)) + [e];
      assert events == front + [e];
    }
  }

  lemma {:induction false} ChainVerifies(c: Codec, events: seq<Event>)
    ensures Accepted(c, Chain(c, events))
  {
    if events != [] {
      var front, e := events[..|events| - 1], events[|events| - 1];
      var n := NextNumber(|Chain(c, front)|);
      ChainVerifies(c, front);
      AcceptedSnoc(c, Chain(c, front), Payload(n, n, e));
    }
  }

  /** Every sequence of appends yields an accepted chain holding exactly those events, numbered from 1. */
  lemma ChainIsAccepted(c: Codec, events: seq<Event>)
    ensures var es := Chain(c, events);
      && Accepted(c, es)
      && Events(es) == events
      && (|events| < TWO_64 ==> Numbered(es))
  {
    ChainVerifies(c, events);
    ChainEvents(c, events);
  }

  class LedgerStore {
    var entries: seq<LedgerEntry>
    var lastChecksum: Digest

    ghost predicate Valid()
      reads this
    {
      lastChecksum == LastChecksum(entries)
    }

    constructor ()
      ensures Valid() && entries == []
    {
      entries, lastChecksum := [], ZERO;
    }

    method Append(c: Codec, event: Event) returns (entry: LedgerEntry)
      requires Valid()
      modifies this
      ensures Valid()
      ensures entries == old(entries) + [entry]
      ensures entry == LedgerEntry(NextNumber(|old(entries)|), NextNumber(|old(entries)|), event,
                ComputeChecksum(c, NextNumber(|old(entries)|), NextNumber(|old(entries)|), event,
                  LastChecksum(old(entries))))
    {
      var n := NextNumber(|entries|);
      entry := LedgerEntry(n, n, event, ComputeChecksum(c, n, n, event, lastChecksum));
      lastChecksum := entry.checksum;
      entries := entries + [entry];
    }

    /** Appending a whole log to an empty store. */
    method AppendAll(c: Codec, events: seq<Event>)
      requires Valid() && entries == []
      modifies this
      ensures Valid() && entries == Chain(c, events)
    {
      for i := 0 to |events|
        invariant Valid() && entries == Chain(c, events[..i])
      {
        assert events[..i + 1][..i] == events[..i];
        var _ := Append(c, events[i]);
      }
      assert events[..|events|] == events;
    }

    /** The file contents: one printed entry per line. */
    method Persist(c: Codec) returns (content: string)
      ensures content == Printed(c, entries)
    {
      content := "";
      for i := 0 to |entries|
        invariant content == Printed(c, entries[..i])
      {
        assert entries[..i + 1][..i] == entries[..i];
        content := content + PrintEntry(c, entries[i]) + "\n";
      }
      assert entries[..|entries|] == entries;
    }

    /** Replace the contents of this store by those of a file; a missing file reads as empty text. */
    method Load(c: Codec, file: Option<string>) returns (error: Option<LedgerError>)
      modifies this
      ensures Loaded(c, Content(file)) == if error.None? then Ok(entries) else Err(error.value)
      ensures error.None? ==> Valid()
      ensures error.Some? ==> entries == old(entries) && lastChecksum == old(lastChecksum)
    {
      var lines := Lines(Content(file));
      var read := [];
      for i := 0 to |lines|
        invariant ParseLines(c, lines[..i]) == Some(read)
      {
        assert lines[..i + 1][..i] == lines[..i];
        if !IsBlank(lines[i]) {
          var parsed := ParseEntry(c, lines[i]);
          if parsed.None? {
            ParseStops(c, lines, i + 1);
            return Some(Json);
          }
          read := read + [parsed.value];
        }
      }
      assert lines[..|lines|] == lines;
      var ok := VerifyChain(c, read);
      if !ok {
        return Some(ChainIntegrityViolation);
      }
      entries := read;
      lastChecksum := if read == [] then ZERO else read[|read| - 1].checksum;
      return None;
    }
  }

  // ----- hexadecimal ----------------------------------------------------------------------------------

  function NibbleChar(n: nat): char
    requires n < 16
  {
    if n < 10 then '0' + n as char else 'a' + (n - 10) as char
  }

  function FromHexNibble(ch: char): Option<nat> {
    if '0' <= ch <= '9' then Some((ch - '0') as nat)
    else if 'a' <= ch <= 'f' then Some((ch - 'a') as nat + 10)
    else if 'A' <= ch <= 'F' then Some((ch - 'A') as nat + 10)
    else None
  }

  /** Two lowercase digits per byte. */
  function Hex(bytes: seq<byte>): string {
    if bytes == [] then ""
    else [NibbleChar(bytes[0] as nat / 16), NibbleChar(bytes[0] as nat % 16)] + Hex(bytes[1..])
  }

  predicate IsHexDigit(ch: char) {
    FromHexNibble(ch).Some?
  }

  function ByteAt(hi: char, lo: char): byte
    requires IsHexDigit(hi) && IsHexDigit(lo)
  {
    (FromHexNibble(hi).value * 16 + FromHexNibble(lo).value) as byte
  }

  predicate IsDigestText(raw: string) {
    |raw| == 64 && forall i :: 0 <= i < 64 ==> IsHexDigit(raw[i])
  }

  function Unhex(raw: string): Option<Digest> {
    if IsDigestText(raw) then
      Some(seq(32, i requires 0 <= i < 32 => ByteAt(raw[2 * i], raw[2 * i + 1])))
    else None
  }

  method HexDecode(raw: string) returns (r: Option<Digest>)
    ensures r == Unhex(raw)
  {
    if |raw| != 64 {
      return None;
    }
    var out := new byte[32](_ => 0);
    for i := 0 to 32
      invariant forall k :: 0 <= k < 2 * i ==> IsHexDigit(raw[k])
      invariant forall k :: 0 <= k < i ==> out[k] == ByteAt(raw[2 * k], raw[2 * k + 1])
    {
      var hi, lo := FromHexNibble(raw[2 * i]), FromHexNibble(raw[2 * i + 1]);
      if hi.None? || lo.None? {
        assert !IsHexDigit(raw[2 * i]) || !IsHexDigit(raw[2 * i + 1]);
        return None;
      }
      out[i] := (hi.value * 16 + lo.value) as byte;
    }
    assert IsDigestText(raw);
    assert out[..] == Unhex(raw).value;
    r := Some(out[..]);
  }

  lemma {:induction false} HexAt(bytes: seq<byte>, i: nat)
    requires i < |bytes|
    ensures |Hex(bytes)| == 2 * |bytes|
    ensures Hex(bytes)[2 * i] == NibbleChar(bytes[i] as nat / 16)
    ensures Hex(bytes)[2 * i + 1] == NibbleChar(bytes[i] as nat % 16)
  {
    if |bytes| == 1 {
      assert Hex(bytes[1..]) == "";
    } else {
      HexAt(bytes[1..], if i == 0 then 0 else i - 1);
    }
  }

  /** Checksums are written with lowercase digits. */
  lemma {:induction false} HexLowercase(bytes: seq<byte>, i: nat)
    requires i < |Hex(bytes)|
    ensures '0' <= Hex(bytes)[i] <= '9' || 'a' <= Hex(bytes)[i] <= 'f'
  {
    if i >= 2 { HexLowercase(bytes[1..], i - 2); }
  }

  lemma NibbleRoundTrip(n: nat)
    requires n < 16
    ensures FromHexNibble(NibbleChar(n)) == Some(n)
  {
  }

  /** Decoding inverts encoding. */
  lemma HexRoundTrip(d: Digest)
    ensures Unhex(Hex(d)) == Some(d)
  {
    var raw := Hex(d);
    HexAt(d, 0);
    forall k | 0 <= k < 64 ensures IsHexDigit(raw[k]) {
      HexPair(d, k / 2);
      assert k == 2 * (k / 2) || k == 2 * (k / 2) + 1;
    }
    forall i | 0 <= i < 32 ensures ByteAt(raw[2 * i], raw[2 * i + 1]) == d[i] { HexPair(d, i); }
    assert Unhex(raw).value == d;
  }

  lemma HexPair(d: Digest, i: nat)
    requires i < 32
    ensures |Hex(d)| == 64 && IsHexDigit(Hex(d)[2 * i]) && IsHexDigit(Hex(d)[2 * i + 1])
    ensures ByteAt(Hex(d)[2 * i], Hex(d)[2 * i + 1]) == d[i]
  {
    HexAt(d, i);
    NibbleRoundTrip(d[i] as nat / 16);
    NibbleRoundTrip(d[i] as nat % 16);
  }

  // ----- the file -------------------------------------------------------------------------------------

  function PrintEntry(c: Codec, e: LedgerEntry): string {
    c.render(RawOf(e))
  }

  function ParseEntry(c: Codec, line: string): Option<LedgerEntry> {
    match c.parse(line)
    case None => None
    case Some(raw) =>
      match Unhex(raw.checksum)
      case None => None
      case Some(d) => Some(LedgerEntry(raw.seqNo, raw.logicalTime, raw.event, d))
  }

  function Printed(c: Codec, entries: seq<LedgerEntry>): string {
    if entries == [] then ""
    else Printed(c, entries[..|entries| - 1]) + PrintEntry(c, entries[|entries| - 1]) + "\n"
  }

  function Content(file: Option<string>): string {
    match file
    case Some(text) => text
    case None => ""
  }

  function NewlineAt(text: string): (k: nat)
    ensures k <= |text|
    ensures k < |text| ==> text[k] == '\n'
    ensures forall i :: 0 <= i < k ==> text[i] != '\n'
  {
    if text == "" || text[0] == '\n' then 0 else 1 + NewlineAt(text[1..])
  }

  /** `str::lines`: split at newlines, dropping one carriage return before each. */
  function Lines(text: string): seq<string>
    decreases |text|
  {
    if text == "" then []
    else
      var k := NewlineAt(text);
      if k == |text| then [text]
      else [StripReturn(text[..k])] + Lines(text[k + 1..])
  }

  function StripReturn(line: string): string {
    if line != "" && line[|line| - 1] == '\r' then line[..|line| - 1] else line
  }

  function ParseLines(c: Codec, lines: seq<string>): Option<seq<LedgerEntry>> {
    if lines == [] then Some([])
    else
      var before, line := ParseLines(c, lines[..|lines| - 1]), lines[|lines| - 1];
      if before.None? then None
      else if IsBlank(line) then before
      else
        var parsed := ParseEntry(c, line);
        if parsed.None? then None else Some(before.value + [parsed.value])
  }

  /** What loading a file yields: its entries, when every non-blank line parses and the chain verifies. */
  function Loaded(c: Codec, content: string): Result<seq<LedgerEntry>, LedgerError> {
    match ParseLines(c, Lines(content))
    case None => Err(Json)
    case Some(entries) => if Accepted(c, entries) then Ok(entries) else Err(ChainIntegrityViolation)
  }

  lemma {:induction false} ParseStops(c: Codec, lines: seq<string>, i: nat)
    requires i <= |lines| && ParseLines(c, lines[..i]).None?
    ensures ParseLines(c, lines).None?
  {
    if i < |lines| {
      assert lines[..|lines| - 1][..i] == lines[..i];
      ParseStops(c, lines[..|lines| - 1], i);
    } else {
      assert lines[..i] == lines;
    }
  }

  function RawOf(e: LedgerEntry): RawEntry {
    RawEntry(e.seqNo, e.logicalTime, e.event, Hex(e.checksum))
  }

  /** This entry survives the file: it prints as one visible line, and that line parses back. */
  ghost predicate Survives(c: Codec, raw: RawEntry) {
    c.parse(c.render(raw)) == Some(raw) && PlainLine(c.render(raw)) && !IsBlank(c.render(raw))
  }

  /** What is asked of the printer and the parser, and only for the entries at hand. */
  ghost predicate PrintsThese(c: Codec, entries: seq<LedgerEntry>) {
    forall i :: 0 <= i < |entries| ==> Survives(c, RawOf(entries[i]))
  }

  function PrintedLines(c: Codec, entries: seq<LedgerEntry>): seq<string> {
    seq(|entries|, i requires 0 <= i < |entries| => PrintEntry(c, entries[i]))
  }

  /** The first line of a text whose first newline is at `k`. */
  lemma FirstLine(text: string, k: nat, tail: string)
    requires k < |text| && text[k] == '\n' && forall i :: 0 <= i < k ==> text[i] != '\n'
    requires tail == text[k + 1..]
    ensures Lines(text) == [StripReturn(text[..k])] + Lines(tail)
  {
  }

  function Unlines(lines: seq<string>): string {
    if lines == [] then "" else lines[0] + "\n" + Unlines(lines[1..])
  }

  lemma {:induction false} UnlinesSnoc(lines: seq<string>, line: string)
    ensures Unlines(lines + [line]) == Unlines(lines) + line + "\n"
  {
    if lines == [] {
      assert [line][1..] == [];
    } else {
      UnlinesSnoc(lines[1..], line);
      assert (lines + [line])[1..] == lines[1..] + [line];
    }
  }

  predicate PlainLine(line: string) {
    forall i :: 0 <= i < |line| ==> line[i] != '\n' && line[i] != '\r'
  }

  /** Splitting at newlines undoes joining with newlines. */
  lemma {:induction false} LinesOfUnlines(lines: seq<string>)
    requires forall i :: 0 <= i < |lines| ==> PlainLine(lines[i])
    ensures Lines(Unlines(lines)) == lines
  {
    if lines != [] {
      LinesOfUnlines(lines[1..]);
      LinesCons(lines[0], Unlines(lines[1..]));
    }
  }

  lemma LinesCons(line: string, rest: string)
    requires PlainLine(line)
    ensures Lines(line + "\n" + rest) == [line] + Lines(rest)
  {
    var text, k := line + "\n" + rest, |line|;
    assert text[k + 1..] == rest;
    assert text[..k] == line;
    assert forall i :: 0 <= i < k ==> text[i] == line[i];
    FirstLine(text, k, rest);
  }

  /** A carriage return before a line break belongs to the break. */
  lemma ReturnsDropped(line: string, rest: string)
    requires PlainLine(line)
    ensures Lines(line + "\r\n" + rest) == [line] + Lines(rest)
  {
    var text, k := line + "\r\n" + rest, |line| + 1;
    assert text[..k] == line + "\r" && text[k] == '\n' && text[k + 1..] == rest;
    assert forall i :: 0 <= i < k ==> text[i] == (line + "\r")[i];
    FirstLine(text, k, rest);
    assert StripReturn(line + "\r") == line;
  }

  /** Blank lines do not matter. */
  lemma {:induction false} BlankLinesSkipped(c: Codec, before: seq<string>, blank: string, after: seq<string>)
    requires IsBlank(blank)
    ensures ParseLines(c, before + [blank] + after) == ParseLines(c, before + after)
  {
    if after == [] {
      assert before + [blank] + [] == before + [blank] && before + [] == before;
      assert (before + [blank])[..|before|] == before;
    } else {
      var front, last := after[..|after| - 1], after[|after| - 1];
      var longer, shorter := before + [blank] + after, before + after;
      assert longer[..|longer| - 1] == before + [blank] + front && longer[|longer| - 1] == last;
      assert shorter[..|shorter| - 1] == before + front && shorter[|shorter| - 1] == last;
      BlankLinesSkipped(c, before, blank, front);
    }
  }

  lemma {:induction false} PrintedIsUnlines(c: Codec, entries: seq<LedgerEntry>)
    ensures Printed(c, entries) == Unlines(PrintedLines(c, entries))
  {
    if entries != [] {
      var front, e := entries[..|entries| - 1], entries[|entries| - 1];
      PrintedIsUnlines(c, front);
      UnlinesSnoc(PrintedLines(c, front), PrintEntry(c, e));
      assert PrintedLines(c, entries) == PrintedLines(c, front) + [PrintEntry(c, e)];
    }
  }

  lemma {:induction false} ParsePrinted(c: Codec, entries: seq<LedgerEntry>)
    requires PrintsThese(c, entries)
    ensures ParseLines(c, PrintedLines(c, entries)) == Some(entries)
  {
    if entries != [] {
      var front, e := entries[..|entries| - 1], entries[|entries| - 1];
      assert entries == front + [e];
      assert Survives(c, RawOf(e));
      ParsePrinted(c, front);
      ParseOne(c, e);
      assert PrintedLines(c, entries) == PrintedLines(c, front) + [PrintEntry(c, e)];
    }
  }

  lemma ParseOne(c: Codec, e: LedgerEntry)
    requires Survives(c, RawOf(e))
    ensures ParseEntry(c, PrintEntry(c, e)) == Some(e) && !IsBlank(PrintEntry(c, e))
  {
    HexRoundTrip(e.checksum);
  }

  /** A persisted store loads back entry for entry exactly when its chain is intact, and is otherwise
      refused as tampered with. */
  lemma PersistThenLoad(c: Codec, entries: seq<LedgerEntry>)
    requires PrintsThese(c, entries)
    ensures Loaded(c, Printed(c, entries)) ==
      if Accepted(c, entries) then Ok(entries) else Err(ChainIntegrityViolation)
  {
    PrintedIsUnlines(c, entries);
    LinesOfUnlines(PrintedLines(c, entries));
    ParsePrinted(c, entries);
  }

  // ----- which alterations are refused ------------------------------------------------------------------

  /** A file with these entries is refused exactly when they are not the sealing of their own payloads; so
      whoever recomputes the checksums from the change on is accepted. */
  lemma AlterationRefusedExactly(c: Codec, altered: seq<LedgerEntry>)
    requires PrintsThese(c, altered)
    ensures Loaded(c, Printed(c, altered)).Err? <==> altered != Seal(c, Payloads(altered))
  {
    PersistThenLoad(c, altered);
    OneChainPerPayload(c, Payloads(altered), altered);
  }

  /** Cutting off the end of an intact chain is never noticed. */
  lemma CutAccepted(c: Codec, entries: seq<LedgerEntry>, n: nat)
    requires Accepted(c, entries) && n <= |entries| && PrintsThese(c, entries)
    ensures Loaded(c, Printed(c, entries[..n])) == Ok(entries[..n])
  {
    AcceptedPrefix(c, entries, n);
    PersistThenLoad(c, entries[..n]);
  }

  /** Editing one entry of an intact chain under its old checksum is refused, or the old and the new entry
      collide at that index. */
  lemma EditRefused(c: Codec, entries: seq<LedgerEntry>, i: nat, edited: LedgerEntry)
    requires Accepted(c, entries) && i < |entries| && edited != entries[i] && edited.checksum == entries[i].checksum
    requires TellsApart(c, entries[i].event, edited.event) && PrintsThese(c, entries[i := edited])
    ensures Loaded(c, Printed(c, entries[i := edited])).Err? || CollideAt(c, entries, i, entries[i := edited], i)
  {
    var altered := entries[i := edited];
    PersistThenLoad(c, altered);
    assert EntryOk(c, entries, i);
    if EntryOk(c, altered, i) { EntriesAgree(c, entries, i, altered, i); }
  }

  // ----- the hypothesis on the printer can be met -------------------------------------------------------

  function IndexOf(raws: seq<RawEntry>, raw: RawEntry): (k: nat)
    ensures k <= |raws|
    ensures raw in raws ==> k < |raws| && raws[k] == raw
  {
    if raws == [] || raws[0] == raw then 0 else 1 + IndexOf(raws[1..], raw)
  }

  /** A visible line that stands for the number `n`. */
  function Marks(n: nat): (line: string)
    ensures |line| == n + 1 && forall i :: 0 <= i <= n ==> line[i] == 'x'
  {
    if n == 0 then "x" else Marks(n - 1) + "x"
  }

  /** A printer and parser that work from a table of these entries. */
  function TableCodec(hash: seq<byte> -> Digest, encode: Event -> seq<byte>, raws: seq<RawEntry>): Codec {
    Codec(hash, encode,
      raw => Marks(IndexOf(raws, raw)),
      line => if 0 < |line| <= |raws| then Some(raws[|line| - 1]) else None)
  }

  lemma {:induction false} SameChain(c: Codec, c': Codec, events: seq<Event>)
    requires c.hash == c'.hash && c.encode == c'.encode
    ensures Chain(c, events) == Chain(c', events)
  {
    if events != [] { SameChain(c, c', events[..|events| - 1]); }
  }

  /** Whatever the hash and the encoder, every log has a printer and a parser that `PrintsThese` accepts. */
  lemma SomePrinterWorks(hash: seq<byte> -> Digest, encode: Event -> seq<byte>, log: seq<Event>) returns (c: Codec)
    ensures c.hash == hash && c.encode == encode && PrintsThese(c, Chain(c, log))
  {
    var entries := Chain(TableCodec(hash, encode, []), log);
    var raws := seq(|entries|, i requires 0 <= i < |entries| => RawOf(entries[i]));
    c := TableCodec(hash, encode, raws);
    SameChain(c, TableCodec(hash, encode, []), log);
    forall i | 0 <= i < |entries| ensures Survives(c, RawOf(entries[i])) {
      assert raws[i] in raws;
      var line := c.render(RawOf(entries[i]));
      assert line[0] == 'x';
    }
  }
}
