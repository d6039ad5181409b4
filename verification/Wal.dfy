/** The write-ahead log: frames of `[u32 length][u32 checksum][payload]`, little endian, one
    after another. Replay stops at the first torn or corrupt frame, and opening truncates
    there. The payload codec and the checksum are parameters. */
module WriteAheadLog {
  import opened Wrappers

  newtype Byte = x: int | 0 <= x < 256

  const U32_LIMIT: nat := 0x1_0000_0000
  const LENGTH_PREFIX_BYTES: nat := 4
  const HEADER_BYTES: nat := 8

  /** How records become payloads, and what guards them. */
  datatype Codec<!T> = Codec(encode: T -> seq<Byte>, decode: seq<Byte> -> Option<T>, checksum: seq<Byte> -> nat)

  /** Decoding undoes encoding, and a checksum is a u32. */
  ghost predicate Lawful<T(!new)>(c: Codec<T>) {
    && (forall record :: c.decode(c.encode(record)) == Some(record))
    && (forall payload :: c.checksum(payload) < U32_LIMIT)
  }

  // ---- Little-endian u32 ---------------------------------------------------------------------

  function ToLittleEndian(n: nat): (b: seq<Byte>)
    requires n < U32_LIMIT
    ensures |b| == 4
  {
    [(n % 256) as Byte, (n / 256 % 256) as Byte, (n / 65536 % 256) as Byte, (n / 16777216) as Byte]
  }

  function FromLittleEndian(b: seq<Byte>): (n: nat)
    requires |b| == 4
    ensures n < U32_LIMIT
  {
    b[0] as nat + 256 * (b[1] as nat) + 65536 * (b[2] as nat) + 16777216 * (b[3] as nat)
  }

  lemma LittleEndianRoundTrip(n: nat)
    requires n < U32_LIMIT
    ensures FromLittleEndian(ToLittleEndian(n)) == n
  {
    assert n == n % 256 + 256 * (n / 256);
    assert n / 256 == n / 256 % 256 + 256 * (n / 256 / 256);
    assert n / 256 / 256 == n / 65536;
    assert n / 65536 == n / 65536 % 256 + 256 * (n / 65536 / 256);
    assert n / 65536 / 256 == n / 16777216;
  }

  /** The first byte is the least significant. */
  lemma LittleEndianIs(n: nat)
    requires n < U32_LIMIT
    ensures var b := ToLittleEndian(n);
      n == b[0] as nat + 0x100 * (b[1] as nat) + 0x1_0000 * (b[2] as nat) + 0x100_0000 * (b[3] as nat)
  {
    LittleEndianRoundTrip(n);
  }

  /** Four bytes are written back as they were read. */
  lemma LittleEndianInverse(b: seq<Byte>)
    requires |b| == 4
    ensures ToLittleEndian(FromLittleEndian(b)) == b
  {
    var b0, b1, b2, b3 := b[0] as nat, b[1] as nat, b[2] as nat, b[3] as nat;
    var n := FromLittleEndian(b);
    assert n == b0 + 256 * (b1 + 256 * (b2 + 256 * b3));
    assert n / 256 == b1 + 256 * (b2 + 256 * b3) && n % 256 == b0;
    assert n / 65536 == n / 256 / 256 == b2 + 256 * b3;
    assert n / 16777216 == n / 65536 / 256 == b3;
  }

  // ---- Frames --------------------------------------------------------------------------------

  predicate Fits<T>(c: Codec<T>, record: T) {
    |c.encode(record)| < U32_LIMIT
  }

  ghost function Frame<T(!new)>(c: Codec<T>, record: T): (f: seq<Byte>)
    requires Lawful(c) && Fits(c, record)
    ensures |f| == HEADER_BYTES + |c.encode(record)|
  {
    Framed(c, c.encode(record))
  }

  ghost function Frames<T(!new)>(c: Codec<T>, records: seq<T>): seq<Byte>
    requires Lawful(c) && forall i :: 0 <= i < |records| ==> Fits(c, records[i])
  {
    if |records| == 0 then [] else Frames(c, records[..|records| - 1]) + Frame(c, records[|records| - 1])
  }

  // ---- Replay --------------------------------------------------------------------------------

  /** The length the header at `pos` announces. */
  function PayloadLength(b: seq<Byte>, pos: nat): nat
    requires pos + HEADER_BYTES <= |b|
  {
    FromLittleEndian(b[pos..pos + LENGTH_PREFIX_BYTES])
  }

  /** A complete frame with a matching checksum starts at `pos`. */
  predicate FrameAt<T>(c: Codec<T>, b: seq<Byte>, pos: nat) {
    && pos + HEADER_BYTES <= |b|
    && pos + HEADER_BYTES + PayloadLength(b, pos) <= |b|
    && c.checksum(Payload(b, pos)) == FromLittleEndian(b[pos + LENGTH_PREFIX_BYTES..pos + HEADER_BYTES])
  }

  function Payload(b: seq<Byte>, pos: nat): seq<Byte>
    requires pos + HEADER_BYTES <= |b| && pos + HEADER_BYTES + PayloadLength(b, pos) <= |b|
  {
    b[pos + HEADER_BYTES..pos + HEADER_BYTES + PayloadLength(b, pos)]
  }

  function FrameEnd(b: seq<Byte>, pos: nat): nat
    requires pos + HEADER_BYTES <= |b|
  {
    pos + HEADER_BYTES + PayloadLength(b, pos)
  }

  datatype Replayed<+T> = Replayed(records: seq<T>, validLength: nat)

  /** Reading frames from `pos` on: the records up to the first torn or corrupt one, and where
      that one starts; an error if a sound frame does not decode. */
  function ReplayFrom<T>(c: Codec<T>, b: seq<Byte>, pos: nat): Result<Replayed<T>>
    decreases |b| - pos
  {
    if !FrameAt(c, b, pos) then Ok(Replayed([], pos))
    else
      match c.decode(Payload(b, pos))
      case None => InvalidData
      case Some(record) => Prepend([record], ReplayFrom(c, b, FrameEnd(b, pos)))
  }

  /** `records`, followed by what a later replay gave. */
  function Prepend<T>(records: seq<T>, later: Result<Replayed<T>>): Result<Replayed<T>> {
    match later
    case InvalidData => InvalidData
    case Ok(rest) => Ok(Replayed(records + rest.records, rest.validLength))
  }

  lemma PrependNothing<T>(later: Result<Replayed<T>>)
    ensures Prepend([], later) == later
  {
    if later.Ok? { assert [] + later.value.records == later.value.records; }
  }

  lemma PrependTwice<T>(a: seq<T>, b: seq<T>, later: Result<Replayed<T>>)
    ensures Prepend(a, Prepend(b, later)) == Prepend(a + b, later)
  {
    if later.Ok? { assert a + (b + later.value.records) == (a + b) + later.value.records; }
  }

  function Replay<T>(c: Codec<T>, b: seq<Byte>): Result<Replayed<T>> {
    ReplayFrom(c, b, 0)
  }

  /** `end` is reached from `pos` by whole sound frames. */
  ghost predicate OnBoundary<T>(c: Codec<T>, b: seq<Byte>, pos: nat, end: nat)
    decreases |b| - pos
  {
    pos == end || (FrameAt(c, b, pos) && FrameEnd(b, pos) <= end && OnBoundary(c, b, FrameEnd(b, pos), end))
  }

  // ---- Healing -------------------------------------------------------------------------------

  /** Replay's valid length lies on a frame boundary inside the input, and no sound frame starts there. */
  lemma {:induction false} ValidLengthIsBoundary<T>(c: Codec<T>, b: seq<Byte>, pos: nat)
    requires pos <= |b| && ReplayFrom(c, b, pos).Ok?
    ensures var n := ReplayFrom(c, b, pos).value.validLength;
      pos <= n <= |b| && OnBoundary(c, b, pos, n) && !FrameAt(c, b, n)
    decreases |b| - pos
  {
    if FrameAt(c, b, pos) { ValidLengthIsBoundary(c, b, FrameEnd(b, pos)); }
  }

  /** A frame that ends by `n` is read the same way when the input agrees up to `n`. */
  lemma FrameInPrefix<T>(c: Codec<T>, b: seq<Byte>, b': seq<Byte>, pos: nat, n: nat)
    requires n <= |b| && n <= |b'| && b'[..n] == b[..n]
    requires FrameAt(c, b, pos) && FrameEnd(b, pos) <= n
    ensures FrameAt(c, b', pos) && Payload(b', pos) == Payload(b, pos) && FrameEnd(b', pos) == FrameEnd(b, pos)
  {
    assert forall i :: 0 <= i < n ==> b'[i] == b'[..n][i] == b[..n][i] == b[i];
    assert b'[pos..pos + LENGTH_PREFIX_BYTES] == b[pos..pos + LENGTH_PREFIX_BYTES];
    assert b'[pos + LENGTH_PREFIX_BYTES..pos + HEADER_BYTES] == b[pos + LENGTH_PREFIX_BYTES..pos + HEADER_BYTES];
    assert Payload(b', pos) == Payload(b, pos);
  }

  /** Replaying another input that agrees up to the valid length of the first gives the records of
      the first, followed by whatever replays from there. */
  lemma {:induction false} ReplayPrefix<T>(c: Codec<T>, b: seq<Byte>, b': seq<Byte>, pos: nat)
    requires pos <= |b| && ReplayFrom(c, b, pos).Ok?
    requires var n := ReplayFrom(c, b, pos).value.validLength; n <= |b| && n <= |b'| && b'[..n] == b[..n]
    ensures var first := ReplayFrom(c, b, pos).value;
      ReplayFrom(c, b', pos) == Prepend(first.records, ReplayFrom(c, b', first.validLength))
    decreases |b| - pos
  {
    var first := ReplayFrom(c, b, pos).value;
    if FrameAt(c, b, pos) {
      var next := FrameEnd(b, pos);
      var record := c.decode(Payload(b, pos)).value;
      ValidLengthIsBoundary(c, b, next);
      FrameInPrefix(c, b, b', pos, first.validLength);
      ReplayPrefix(c, b, b', next);
      PrependTwice([record], ReplayFrom(c, b, next).value.records, ReplayFrom(c, b', first.validLength));
    } else {
      PrependNothing(ReplayFrom(c, b', pos));
    }
  }

  /** Truncating to the valid length keeps every record and leaves nothing to truncate. */
  lemma TruncationHeals<T>(c: Codec<T>, b: seq<Byte>)
    requires Replay(c, b).Ok?
    ensures var n := Replay(c, b).value.validLength; n <= |b| && Replay(c, b[..n]) == Replay(c, b)
  {
    var first := Replay(c, b).value;
    var n := first.validLength;
    ValidLengthIsBoundary(c, b, 0);
    ReplayPrefix(c, b, b[..n], 0);
    assert !FrameAt(c, b[..n], n);
    assert first.records + [] == first.records;
  }

  /** A frame written at the end is read back. */
  lemma FrameReadsBack<T(!new)>(c: Codec<T>, before: seq<Byte>, record: T, b: seq<Byte>, pos: nat)
    requires Lawful(c) && Fits(c, record) && b == before + Frame(c, record) && pos == |before|
    ensures FrameAt(c, b, pos) && FrameEnd(b, pos) == |b| && c.decode(Payload(b, pos)) == Some(record)
  {
    var payload := c.encode(record);
    LittleEndianRoundTrip(|payload|);
    LittleEndianRoundTrip(c.checksum(payload));
    assert b[pos..pos + LENGTH_PREFIX_BYTES] == ToLittleEndian(|payload|);
    assert b[pos + LENGTH_PREFIX_BYTES..pos + HEADER_BYTES] == ToLittleEndian(c.checksum(payload));
    assert Payload(b, pos) == payload;
  }

  /** After healing any input at all, appending a record and replaying gives the old records and it. */
  lemma AppendAfterHealing<T(!new)>(c: Codec<T>, b: seq<Byte>, record: T)
    requires Lawful(c) && Fits(c, record) && Replay(c, b).Ok?
    ensures var first := Replay(c, b).value;
      && first.validLength <= |b|
      && Replay(c, b[..first.validLength] + Frame(c, record))
         == Ok(Replayed(first.records + [record], first.validLength + |Frame(c, record)|))
  {
    var first := Replay(c, b).value;
    var n := first.validLength;
    ValidLengthIsBoundary(c, b, 0);
    var b' := b[..n] + Frame(c, record);
    assert b'[..n] == b[..n];
    ReplayPrefix(c, b, b', 0);
    ReplayLastFrame(c, b[..n], record);
    assert Prepend(first.records, Ok(Replayed([record], |b'|))) == Ok(Replayed(first.records + [record], |b'|));
  }

  /** A last frame replays to its record alone. */
  lemma ReplayLastFrame<T(!new)>(c: Codec<T>, before: seq<Byte>, record: T)
    requires Lawful(c) && Fits(c, record)
    ensures ReplayFrom(c, before + Frame(c, record), |before|)
         == Ok(Replayed([record], |before| + |Frame(c, record)|))
  {
    var b := before + Frame(c, record);
    FrameReadsBack(c, before, record, b, |before|);
    assert !FrameAt(c, b, |b|);
    assert [record] + [] == [record];
  }

  // ---- Torn tails ----------------------------------------------------------------------------

  /** No frame is complete in a strict prefix of one. */
  lemma TornFrame<T(!new)>(c: Codec<T>, before: seq<Byte>, record: T, cut: nat)
    requires Lawful(c) && Fits(c, record) && cut < |Frame(c, record)|
    ensures !FrameAt(c, before + Frame(c, record)[..cut], |before|)
  {
    var f := Frame(c, record);
    var b := before + f[..cut];
    var pos := |before|;
    if pos + HEADER_BYTES <= |b| {
      assert b[pos..pos + LENGTH_PREFIX_BYTES] == f[..LENGTH_PREFIX_BYTES] == ToLittleEndian(|c.encode(record)|);
      LittleEndianRoundTrip(|c.encode(record)|);
    }
  }

  /** What was appended replays, in order and in full. */
  lemma {:induction false} FramesRoundTrip<T(!new)>(c: Codec<T>, records: seq<T>)
    requires Lawful(c) && forall i :: 0 <= i < |records| ==> Fits(c, records[i])
    ensures Replay(c, Frames(c, records)) == Ok(Replayed(records, |Frames(c, records)|))
  {
    if |records| > 0 {
      var front, last := records[..|records| - 1], records[|records| - 1];
      var before := Frames(c, front);
      FramesRoundTrip(c, front);
      AppendAfterHealing(c, before, last);
      assert before[..|before|] == before && front + [last] == records;
    }
  }

  /** Whatever was appended in full replays, and a crash part-way through one more append costs
      nothing but that append: replay returns exactly the complete records and their length. */
  lemma TornTailRoundTrip<T(!new)>(c: Codec<T>, records: seq<T>, torn: T, cut: nat)
    requires Lawful(c) && (forall i :: 0 <= i < |records| ==> Fits(c, records[i])) && Fits(c, torn)
    requires cut < |Frame(c, torn)|
    ensures Replay(c, Frames(c, records) + Frame(c, torn)[..cut]) == Ok(Replayed(records, |Frames(c, records)|))
  {
    var all := Frames(c, records);
    var file := all + Frame(c, torn)[..cut];
    FramesRoundTrip(c, records);
    TornFrame(c, all, torn, cut);
    assert file[..|all|] == all == all[..|all|];
    ReplayPrefix(c, all, file, 0);
    assert records + [] == records;
  }

  // ---- Replay, said without reading frames ---------------------------------------------------------

  /** The bytes an append writes for a payload. */
  function Framed<T>(c: Codec<T>, payload: seq<Byte>): (f: seq<Byte>)
    requires |payload| < U32_LIMIT && c.checksum(payload) < U32_LIMIT
  {
    ToLittleEndian(|payload|) + ToLittleEndian(c.checksum(payload)) + payload
  }

  /** A payload with a length word, any four bytes for a checksum, and the rest of the file. */
  function WithChecksum(payload: seq<Byte>, crc: seq<Byte>, rest: seq<Byte>): seq<Byte>
    requires |payload| < U32_LIMIT && |crc| == 4
  {
    ToLittleEndian(|payload|) + crc + payload + rest
  }

  lemma WordsAt(before: seq<Byte>, payload: seq<Byte>, crc: seq<Byte>, rest: seq<Byte>, b: seq<Byte>, pos: nat)
    requires |payload| < U32_LIMIT && |crc| == 4
    requires b == before + WithChecksum(payload, crc, rest) && pos == |before|
    ensures pos + HEADER_BYTES + |payload| <= |b| && PayloadLength(b, pos) == |payload|
    ensures Payload(b, pos) == payload && b[pos + LENGTH_PREFIX_BYTES..pos + HEADER_BYTES] == crc
  {
    LittleEndianRoundTrip(|payload|);
    assert b[pos..pos + LENGTH_PREFIX_BYTES] == ToLittleEndian(|payload|);
    assert b[pos + LENGTH_PREFIX_BYTES..pos + HEADER_BYTES] == crc;
    assert b[pos + HEADER_BYTES..pos + HEADER_BYTES + |payload|] == payload;
  }

  /** A complete frame whose checksum does not match ends the replay where it starts, whatever its payload
      would decode to and whatever follows it. */
  lemma CorruptFrameStopsReplay<T(!new)>(
    c: Codec<T>, records: seq<T>, payload: seq<Byte>, crc: seq<Byte>, rest: seq<Byte>)
    requires Lawful(c) && forall i :: 0 <= i < |records| ==> Fits(c, records[i])
    requires |payload| < U32_LIMIT && |crc| == 4 && FromLittleEndian(crc) != c.checksum(payload)
    ensures Replay(c, Frames(c, records) + WithChecksum(payload, crc, rest))
         == Ok(Replayed(records, |Frames(c, records)|))
  {
    var all := Frames(c, records);
    var file := all + WithChecksum(payload, crc, rest);
    FramesRoundTrip(c, records);
    WordsAt(all, payload, crc, rest, file, |all|);
    assert !FrameAt(c, file, |all|);
    assert file[..|all|] == all == all[..|all|];
    ReplayPrefix(c, all, file, 0);
    assert records + [] == records;
  }

  /** The file from `pos` on, up to `end`, is the frames of these payloads, and record for record they
      decode. */
  ghost predicate Spells<T(!new)>(
    c: Codec<T>, b: seq<Byte>, pos: nat, end: nat, payloads: seq<seq<Byte>>, records: seq<T>)
    requires Lawful(c)
    decreases |payloads|
  {
    |records| == |payloads| &&
    if |payloads| == 0 then pos == end
    else
      && SpellsOne(c, b, pos, payloads[0], records[0])
      && Spells(c, b, pos + HEADER_BYTES + |payloads[0]|, end, payloads[1..], records[1..])
  }

  ghost predicate SpellsOne<T(!new)>(c: Codec<T>, b: seq<Byte>, pos: nat, payload: seq<Byte>, record: T)
    requires Lawful(c)
  {
    |payload| < U32_LIMIT && Opens(c, b, pos, payload) && c.decode(payload) == Some(record)
  }

  lemma SpellsMore<T(!new)>(
    c: Codec<T>, b: seq<Byte>, pos: nat, end: nat, payload: seq<Byte>, record: T, payloads: seq<seq<Byte>>,
    records: seq<T>)
    requires Lawful(c) && SpellsOne(c, b, pos, payload, record)
    requires Spells(c, b, pos + HEADER_BYTES + |payload|, end, payloads, records)
    ensures Spells(c, b, pos, end, [payload] + payloads, [record] + records)
  {
    assert ([payload] + payloads)[1..] == payloads && ([record] + records)[1..] == records;
  }

  /** What stands at `pos` is the payload's own length, its own checksum, and itself. */
  ghost predicate Opens<T(!new)>(c: Codec<T>, b: seq<Byte>, pos: nat, payload: seq<Byte>)
    requires Lawful(c) && |payload| < U32_LIMIT
  {
    pos + HEADER_BYTES + |payload| <= |b| && b[pos..pos + HEADER_BYTES + |payload|] == Framed(c, payload)
  }

  lemma OpensExactly<T(!new)>(c: Codec<T>, b: seq<Byte>, pos: nat, payload: seq<Byte>)
    requires Lawful(c) && |payload| < U32_LIMIT
    ensures Opens(c, b, pos, payload) <==> FrameAt(c, b, pos) && Payload(b, pos) == payload
  {
    if Opens(c, b, pos, payload) {
      var end := pos + HEADER_BYTES + |payload|;
      var crc := ToLittleEndian(c.checksum(payload));
      assert b == b[..pos] + b[pos..end] + b[end..];
      assert b == b[..pos] + WithChecksum(payload, crc, b[end..]);
      WordsAt(b[..pos], payload, crc, b[end..], b, pos);
      LittleEndianRoundTrip(c.checksum(payload));
    }
    if FrameAt(c, b, pos) && Payload(b, pos) == payload {
      LittleEndianInverse(b[pos..pos + LENGTH_PREFIX_BYTES]);
      LittleEndianInverse(b[pos + LENGTH_PREFIX_BYTES..pos + HEADER_BYTES]);
      assert b[pos..pos + HEADER_BYTES + |payload|]
          == b[pos..pos + LENGTH_PREFIX_BYTES] + b[pos + LENGTH_PREFIX_BYTES..pos + HEADER_BYTES]
             + b[pos + HEADER_BYTES..pos + HEADER_BYTES + |payload|];
    }
  }

  /** The payloads replay reads from `pos` on. */
  ghost function PayloadsFrom<T>(c: Codec<T>, b: seq<Byte>, pos: nat): seq<seq<Byte>>
    decreases |b| - pos
  {
    if FrameAt(c, b, pos) && c.decode(Payload(b, pos)).Some? then
      [Payload(b, pos)] + PayloadsFrom(c, b, FrameEnd(b, pos))
    else []
  }

  /** No sound frame starts at `pos`. */
  ghost predicate NothingOpens<T(!new)>(c: Codec<T>, b: seq<Byte>, pos: nat)
    requires Lawful(c)
  {
    forall payload :: |payload| < U32_LIMIT ==> !Opens(c, b, pos, payload)
  }

  lemma NothingOpensExactly<T(!new)>(c: Codec<T>, b: seq<Byte>, pos: nat)
    requires Lawful(c)
    ensures NothingOpens(c, b, pos) <==> !FrameAt(c, b, pos)
  {
    if FrameAt(c, b, pos) { OpensExactly(c, b, pos, Payload(b, pos)); }
    forall payload: seq<Byte> | |payload| < U32_LIMIT ensures Opens(c, b, pos, payload) ==> FrameAt(c, b, pos) {
      OpensExactly(c, b, pos, payload);
    }
  }

  /** Every record replayed decodes a slice of the file that its own length and checksum words precede,
      slice after slice from the start; and where they end no such slice follows. */
  lemma ReplayedAreFramed<T(!new)>(c: Codec<T>, b: seq<Byte>, pos: nat)
    requires Lawful(c) && pos <= |b| && ReplayFrom(c, b, pos).Ok?
    ensures var r := ReplayFrom(c, b, pos).value;
      Spells(c, b, pos, r.validLength, PayloadsFrom(c, b, pos), r.records) && NothingOpens(c, b, r.validLength)
  {
    ReplaySpells(c, b, pos);
    ValidLengthIsBoundary(c, b, pos);
    NothingOpensExactly(c, b, ReplayFrom(c, b, pos).value.validLength);
  }

  lemma {:induction false} ReplaySpells<T(!new)>(c: Codec<T>, b: seq<Byte>, pos: nat)
    requires Lawful(c) && pos <= |b| && ReplayFrom(c, b, pos).Ok?
    ensures SpellsReplay(c, b, pos, ReplayFrom(c, b, pos), PayloadsFrom(c, b, pos))
    decreases |b| - pos
  {
    if FrameAt(c, b, pos) {
      var payload, next := Payload(b, pos), FrameEnd(b, pos);
      ReplayUnfolds(c, b, pos);
      ReplaySpells(c, b, next);
      OpensExactly(c, b, pos, payload);
      SpellsReplayMore(c, b, pos, payload, c.decode(payload).value, ReplayFrom(c, b, next), PayloadsFrom(c, b, next));
    }
  }

  /** What a replay from `pos` gave is spelled there. */
  ghost predicate SpellsReplay<T(!new)>(
    c: Codec<T>, b: seq<Byte>, pos: nat, replayed: Result<Replayed<T>>, payloads: seq<seq<Byte>>)
    requires Lawful(c)
  {
    replayed.Ok? && Spells(c, b, pos, replayed.value.validLength, payloads, replayed.value.records)
  }

  lemma SpellsReplayMore<T(!new)>(
    c: Codec<T>, b: seq<Byte>, pos: nat, payload: seq<Byte>, record: T, rest: Result<Replayed<T>>,
    payloads: seq<seq<Byte>>)
    requires Lawful(c) && SpellsOne(c, b, pos, payload, record)
    requires SpellsReplay(c, b, pos + HEADER_BYTES + |payload|, rest, payloads)
    ensures SpellsReplay(c, b, pos, Prepend([record], rest), [payload] + payloads)
  {
    SpellsMore(c, b, pos, rest.value.validLength, payload, record, payloads, rest.value.records);
  }

  lemma ReplayUnfolds<T>(c: Codec<T>, b: seq<Byte>, pos: nat)
    requires FrameAt(c, b, pos) && ReplayFrom(c, b, pos).Ok?
    ensures var payload, next := Payload(b, pos), FrameEnd(b, pos);
      && next == pos + HEADER_BYTES + |payload| && c.decode(payload).Some? && ReplayFrom(c, b, next).Ok?
      && PayloadsFrom(c, b, pos) == [payload] + PayloadsFrom(c, b, next)
      && ReplayFrom(c, b, pos) == Prepend([c.decode(payload).value], ReplayFrom(c, b, next))
  {
  }

  /** And the other way round: a file that starts with such slices, and with no further one after them,
      replays to exactly their records. */
  lemma FramedAreReplayed<T(!new)>(
    c: Codec<T>, b: seq<Byte>, pos: nat, end: nat, payloads: seq<seq<Byte>>, records: seq<T>)
    requires Lawful(c) && Spells(c, b, pos, end, payloads, records) && NothingOpens(c, b, end)
    ensures ReplayFrom(c, b, pos) == Ok(Replayed(records, end))
  {
    NothingOpensExactly(c, b, end);
    SpelledReplays(c, b, pos, end, payloads, records);
  }

  lemma {:induction false} SpelledReplays<T(!new)>(
    c: Codec<T>, b: seq<Byte>, pos: nat, end: nat, payloads: seq<seq<Byte>>, records: seq<T>)
    requires Lawful(c) && Spells(c, b, pos, end, payloads, records) && !FrameAt(c, b, end)
    ensures ReplayFrom(c, b, pos) == Ok(Replayed(records, end))
    decreases |payloads|
  {
    if |payloads| > 0 {
      var next := pos + HEADER_BYTES + |payloads[0]|;
      SpelledReplays(c, b, next, end, payloads[1..], records[1..]);
      OneMoreReplays(c, b, pos, end, payloads[0], records);
    }
  }

  lemma OneMoreReplays<T(!new)>(c: Codec<T>, b: seq<Byte>, pos: nat, end: nat, payload: seq<Byte>, records: seq<T>)
    requires Lawful(c) && |records| > 0 && SpellsOne(c, b, pos, payload, records[0])
    requires ReplayFrom(c, b, pos + HEADER_BYTES + |payload|) == Ok(Replayed(records[1..], end))
    ensures ReplayFrom(c, b, pos) == Ok(Replayed(records, end))
  {
    OpenedIsReplayed(c, b, pos, payload, records[0]);
    PrependHead(records, end);
  }

  lemma PrependHead<T>(records: seq<T>, end: nat)
    requires |records| > 0
    ensures Prepend([records[0]], Ok(Replayed(records[1..], end))) == Ok(Replayed(records, end))
  {
    assert [records[0]] + records[1..] == records;
  }

  lemma OpenedIsReplayed<T(!new)>(c: Codec<T>, b: seq<Byte>, pos: nat, payload: seq<Byte>, record: T)
    requires Lawful(c) && SpellsOne(c, b, pos, payload, record)
    ensures ReplayFrom(c, b, pos) == Prepend([record], ReplayFrom(c, b, pos + HEADER_BYTES + |payload|))
  {
    OpensExactly(c, b, pos, payload);
  }

  /** Replay fails exactly on a sound frame that does not decode, after sound frames that do. */
  lemma {:induction false} FailsOnUndecodable<T(!new)>(c: Codec<T>, b: seq<Byte>, pos: nat)
    requires Lawful(c)
    ensures ReplayFrom(c, b, pos).InvalidData? <==>
      exists end, payloads, records, payload ::
        Spells(c, b, pos, end, payloads, records) && Undecodable(c, b, end, payload)
    decreases |b| - pos
  {
    if FrameAt(c, b, pos) { OpensExactly(c, b, pos, Payload(b, pos)); }
    if ReplayFrom(c, b, pos).InvalidData? {
      FailureIsSpelled(c, b, pos);
    }
    if end, payloads, records, payload :|
      Spells(c, b, pos, end, payloads, records) && Undecodable(c, b, end, payload)
    {
      SpelledFailureFails(c, b, pos, end, payloads, records, payload);
    }
  }

  ghost predicate Undecodable<T(!new)>(c: Codec<T>, b: seq<Byte>, pos: nat, payload: seq<Byte>)
    requires Lawful(c)
  {
    |payload| < U32_LIMIT && Opens(c, b, pos, payload) && c.decode(payload).None?
  }

  lemma {:induction false} FailureIsSpelled<T(!new)>(c: Codec<T>, b: seq<Byte>, pos: nat)
    requires Lawful(c) && ReplayFrom(c, b, pos).InvalidData?
    ensures exists end, payloads, records, payload ::
      Spells(c, b, pos, end, payloads, records) && Undecodable(c, b, end, payload)
    decreases |b| - pos
  {
    var first := Payload(b, pos);
    OpensExactly(c, b, pos, first);
    if c.decode(first).None? {
      assert Spells(c, b, pos, pos, [], []) && Undecodable(c, b, pos, first);
    } else {
      FailureIsSpelled(c, b, FrameEnd(b, pos));
      var end, payloads, records, payload :|
        Spells(c, b, FrameEnd(b, pos), end, payloads, records) && Undecodable(c, b, end, payload);
      SpellsMore(c, b, pos, end, first, c.decode(first).value, payloads, records);
    }
  }

  lemma {:induction false} SpelledFailureFails<T(!new)>(
    c: Codec<T>, b: seq<Byte>, pos: nat, end: nat, payloads: seq<seq<Byte>>, records: seq<T>, payload: seq<Byte>)
    requires Lawful(c) && Spells(c, b, pos, end, payloads, records) && Undecodable(c, b, end, payload)
    ensures ReplayFrom(c, b, pos).InvalidData?
    decreases |payloads|
  {
    if |payloads| == 0 {
      OpensExactly(c, b, pos, payload);
    } else {
      OpensExactly(c, b, pos, payloads[0]);
      SpelledFailureFails(c, b, FrameEnd(b, pos), end, payloads[1..], records[1..], payload);
    }
  }

  // ---- The file --------------------------------------------------------------------------------

  datatype ReadOutcome = Full | Eof | ShortRead

  /** A file read from the front, in chunks of whatever size each read returns. */
  class FileReader {
    const bytes: seq<Byte>
    var at: nat

    constructor (bytes: seq<Byte>)
      ensures this.bytes == bytes && at == 0
    {
      this.bytes := bytes;
      at := 0;
    }

    /** Returns between one and `limit` bytes, or none at the end of the file. */
    method Read(limit: nat) returns (chunk: seq<Byte>)
      requires limit > 0 && at <= |bytes|
      modifies this
      ensures at == old(at) + |chunk| <= |bytes| && |chunk| <= limit && chunk == bytes[old(at)..at]
      ensures |chunk| == 0 <==> old(at) == |bytes|
    {
      if at == |bytes| {
        return [];
      }
      var size: nat :| 0 < size <= limit && at + size <= |bytes|;
      chunk := bytes[at..at + size];
      at := at + size;
    }

    /** Fills a buffer of `size` bytes, telling a clean end of file from a torn one. */
    method ReadExactOrEof(size: nat) returns (outcome: ReadOutcome, buffer: seq<Byte>)
      requires at <= |bytes|
      modifies this
      ensures at == if old(at) + size <= |bytes| then old(at) + size else |bytes|
      ensures buffer == bytes[old(at)..at]
      ensures outcome.Full? <==> old(at) + size <= |bytes|
      ensures outcome.Eof? <==> size > 0 && old(at) == |bytes|
    {
      buffer := [];
      while |buffer| < size
        invariant |buffer| <= size && at == old(at) + |buffer| <= |bytes|
        invariant buffer == bytes[old(at)..at]
        decreases size - |buffer|
      {
        var chunk := Read(size - |buffer|);
        if |chunk| == 0 {
          return (if |buffer| == 0 then Eof else ShortRead), buffer;
        }
        buffer := buffer + chunk;
      }
      outcome := Full;
    }
  }

  /** Reading one sound frame moves its record from what is to be replayed to what was. */
  lemma ReplayOneMore<T>(c: Codec<T>, bytes: seq<Byte>, pos: nat, records: seq<T>)
    requires FrameAt(c, bytes, pos) && c.decode(Payload(bytes, pos)).Some?
    ensures Prepend(records, ReplayFrom(c, bytes, pos))
         == Prepend(records + [c.decode(Payload(bytes, pos)).value], ReplayFrom(c, bytes, FrameEnd(bytes, pos)))
  {
    PrependTwice(records, [c.decode(Payload(bytes, pos)).value], ReplayFrom(c, bytes, FrameEnd(bytes, pos)));
  }

  /** Reads one frame: its payload if it is whole and its checksum matches. */
  method ReadFrame<T>(c: Codec<T>, file: FileReader) returns (payload: Option<seq<Byte>>)
    requires file.at <= |file.bytes|
    modifies file
    ensures payload.Some? <==> FrameAt(c, file.bytes, old(file.at))
    ensures payload.Some? ==>
      payload.value == Payload(file.bytes, old(file.at)) && file.at == FrameEnd(file.bytes, old(file.at))
  {
    ghost var pos := file.at;
    var outcome, header := file.ReadExactOrEof(HEADER_BYTES);
    if !outcome.Full? {
      return None;
    }
    var payloadLength := FromLittleEndian(header[..LENGTH_PREFIX_BYTES]);
    var expected := FromLittleEndian(header[LENGTH_PREFIX_BYTES..]);
    assert header[..LENGTH_PREFIX_BYTES] == file.bytes[pos..pos + LENGTH_PREFIX_BYTES];
    assert header[LENGTH_PREFIX_BYTES..] == file.bytes[pos + LENGTH_PREFIX_BYTES..pos + HEADER_BYTES];
    var body;
    outcome, body := file.ReadExactOrEof(payloadLength);
    if !outcome.Full? || c.checksum(body) != expected {
      return None;
    }
    payload := Some(body);
  }

  /** The replay loop over such a file gives what `Replay` says, however the reads are chunked. */
  method ReplayFile<T>(c: Codec<T>, bytes: seq<Byte>) returns (result: Result<Replayed<T>>)
    ensures result == Replay(c, bytes)
  {
    var file := new FileReader(bytes);
    var records: seq<T> := [];
    var validLength := 0;
    PrependNothing(Replay(c, bytes));
    while true
      invariant fresh(file) && file.bytes == bytes
      invariant file.at == validLength <= |bytes|
      invariant Replay(c, bytes) == Prepend(records, ReplayFrom(c, bytes, validLength))
      decreases |bytes| - validLength
    {
      var payload := ReadFrame(c, file);
      if payload.None? {
        assert records + [] == records;
        return Ok(Replayed(records, validLength));
      }
      var record := c.decode(payload.value);
      if record.None? {
        return InvalidData;
      }
      ReplayOneMore(c, bytes, validLength, records);
      records := records + [record.value];
      validLength := validLength + HEADER_BYTES + |payload.value|;
    }
  }

  /** The log file behind a handle. */
  class Wal<T(!new)> {
    const codec: Codec<T>
    var bytes: seq<Byte>
    /** The records appended or replayed so far. */
    ghost var records: seq<T>

    /** Every byte belongs to a record that replays. */
    ghost predicate Valid()
      reads this
    {
      Lawful(codec) && Replay(codec, bytes) == Ok(Replayed(records, |bytes|))
    }

    /** Adopts a replayed file, truncated to its last sound frame. */
    constructor Adopt(codec: Codec<T>, onDisk: seq<Byte>, replayed: Replayed<T>)
      requires Lawful(codec) && Replay(codec, onDisk) == Ok(replayed)
      ensures Valid() && this.codec == codec && records == replayed.records
      ensures bytes <= onDisk && |bytes| == replayed.validLength
    {
      ValidLengthIsBoundary(codec, onDisk, 0);
      TruncationHeals(codec, onDisk);
      this.codec := codec;
      bytes := onDisk[..replayed.validLength];
      records := replayed.records;
    }

    /** Writes one frame, or refuses a payload whose length no u32 can hold. */
    method AppendRecord(record: T) returns (done: bool)
      requires Valid()
      modifies this
      ensures Valid() && done == (|codec.encode(record)| < 0x1_0000_0000)
      ensures done ==> bytes == old(bytes) + Frame(codec, record) && records == old(records) + [record]
      ensures !done ==> bytes == old(bytes) && records == old(records)
    {
      var payload := codec.encode(record);
      if |payload| >= U32_LIMIT {
        return false;
      }
      AppendAfterHealing(codec, bytes, record);
      assert bytes[..|bytes|] == bytes;
      bytes := bytes + (ToLittleEndian(|payload|) + ToLittleEndian(codec.checksum(payload)) + payload);
      records := records + [record];
      done := true;
    }
  }

  /** Opens a file: every sound record is returned, and the handle appends after the last of them. */
  method OpenWal<T(!new)>(codec: Codec<T>, onDisk: seq<Byte>) returns (wal: Result<Wal<T>>, records: seq<T>)
    requires Lawful(codec)
    ensures wal.InvalidData? <==> Replay(codec, onDisk).InvalidData?
    ensures wal.Ok? ==> fresh(wal.value) && wal.value.Valid() && wal.value.records == records
    ensures wal.Ok? ==> records == Replay(codec, onDisk).value.records && wal.value.bytes <= onDisk
    ensures wal.Ok? ==> |wal.value.bytes| == Replay(codec, onDisk).value.validLength
  {
    var replayed := ReplayFile(codec, onDisk);
    if replayed.InvalidData? {
      return InvalidData, [];
    }
    var handle := new Wal<T>.Adopt(codec, onDisk, replayed.value);
    return Ok(handle), replayed.value.records;
  }
}
