/** The two OP_RETURN parts of a BTC checkpoint: encoding, recognising, reconnecting, decoding. */
module CheckpointCodec {
  import opened Prelude

  const TAG_LENGTH: nat := 4
  const CURRENT_VERSION: Byte := 0
  const HEADER_LENGTH: nat := TAG_LENGTH + 1
  const BLOCK_HASH_LENGTH: nat := 32
  const BITMAP_LENGTH: nat := 13
  const ADDRESS_LENGTH: nat := 20
  const NUMBER_OF_PARTS: nat := 2
  const CHECKSUM_LENGTH: nat := 10
  const BLS_SIG_LENGTH: nat := 48
  const EPOCH_LENGTH: nat := 8
  const FIRST_PART_LENGTH: nat := HEADER_LENGTH + BLOCK_HASH_LENGTH + ADDRESS_LENGTH + EPOCH_LENGTH + BITMAP_LENGTH
  const SECOND_PART_LENGTH: nat := HEADER_LENGTH + BLS_SIG_LENGTH + CHECKSUM_LENGTH
  const RAW_LENGTH: nat := EPOCH_LENGTH + BLOCK_HASH_LENGTH + BITMAP_LENGTH + BLS_SIG_LENGTH + ADDRESS_LENGTH

  type Digest = Bytes32

  type Hash = Bytes -> Digest

  datatype RawBtcCheckpoint = RawBtcCheckpoint(epoch: Uint64, blockHash: Bytes, bitMap: Bytes, submitter: Bytes, blsSig: Bytes)

  datatype AnonData = AnonData(data: Bytes, index: Byte)

  datatype FormatHeader = FormatHeader(tag: Bytes, version: Byte, part: Byte)

  datatype CodecError =
    | BadTag | BadVersion | BadBlockHash | BadBitMap | BadBlsSig | BadAddress
    | BadPartIndex | BadLength | WrongTag | WrongVersion | WrongPart | NotAnonData | NotConnected

  // ----- encoding -----

  /** Version in the low four bits, part number in the high four. */
  function VerHalf(version: Byte, half: Byte): Byte {
    version % 16 + half * 16 % 256
  }

  function EncodeHeader(tag: Bytes, version: Byte, half: Byte): Bytes {
    tag + [VerHalf(version, half)]
  }

  function Checksum(sha: Hash, b: Bytes): (r: Bytes)
    ensures |r| == CHECKSUM_LENGTH
  {
    sha(b)[..CHECKSUM_LENGTH]
  }

  function Body(c: RawBtcCheckpoint): Bytes {
    ToBigEndian(c.epoch, EPOCH_LENGTH) + c.blockHash + c.bitMap + c.submitter
  }

  function EncodeCheckpointData(sha: Hash, tag: Bytes, version: Byte, c: RawBtcCheckpoint): Result<(Bytes, Bytes), CodecError> {
    if |tag| != TAG_LENGTH then Err(BadTag)
    else if version > CURRENT_VERSION then Err(BadVersion)
    else if |c.blockHash| != BLOCK_HASH_LENGTH then Err(BadBlockHash)
    else if |c.bitMap| != BITMAP_LENGTH then Err(BadBitMap)
    else if |c.blsSig| != BLS_SIG_LENGTH then Err(BadBlsSig)
    else if |c.submitter| != ADDRESS_LENGTH then Err(BadAddress)
    else
      var first := EncodeHeader(tag, version, 0) + Body(c);
      var second := EncodeHeader(tag, version, 1) + c.blsSig + Checksum(sha, first[HEADER_LENGTH..]);
      Ok((first, second))
  }

  // ----- recognising -----

  function ParseHeader(data: Bytes): FormatHeader
    requires |data| >= HEADER_LENGTH
  {
    FormatHeader(data[..TAG_LENGTH], data[TAG_LENGTH] % 16, data[TAG_LENGTH] / 16)
  }

  function GetCheckpointData(tag: Bytes, version: Byte, partIndex: Byte, data: Bytes): Result<Bytes, CodecError> {
    if partIndex > 1 then Err(BadPartIndex)
    else if version > CURRENT_VERSION then Err(BadVersion)
    else if partIndex == 0 && |data| != FIRST_PART_LENGTH then Err(BadLength)
    else if partIndex == 1 && |data| != SECOND_PART_LENGTH then Err(BadLength)
    else
      var h := ParseHeader(data);
      if h.tag != tag then Err(WrongTag)
      else if h.version > CURRENT_VERSION then Err(WrongVersion)
      else if h.part != partIndex then Err(WrongPart)
      else Ok(data[HEADER_LENGTH..])
  }

  /** The part a byte string is recognised as. */
  function Recognised(tag: Bytes, version: Byte, data: Bytes): Result<AnonData, CodecError> {
    var first, second := GetCheckpointData(tag, version, 0, data), GetCheckpointData(tag, version, 1, data);
    if first.Ok? then Ok(AnonData(first.value, 0))
    else if second.Ok? then Ok(AnonData(second.value, 1))
    else Err(NotAnonData)
  }

  method IsAnonCheckpointData(tag: Bytes, version: Byte, data: Bytes) returns (r: Result<AnonData, CodecError>)
    ensures r == Recognised(tag, version, data)
    ensures r.Ok? ==> r.value.index < NUMBER_OF_PARTS && r.value.data == data[HEADER_LENGTH..] && tag <= data
  {
    var idx := 0;
    while idx < NUMBER_OF_PARTS
      invariant 0 <= idx <= NUMBER_OF_PARTS
      invariant forall k :: 0 <= k < idx ==> GetCheckpointData(tag, version, k, data).Err?
    {
      var part := GetCheckpointData(tag, version, idx, data);
      if part.Ok? {
        assert tag == data[..TAG_LENGTH];
        return Ok(AnonData(part.value, idx));
      }
      idx := idx + 1;
    }
    return Err(NotAnonData);
  }

  // ----- connecting and decoding -----

  function ConnectParts(sha: Hash, version: Byte, f: Bytes, s: Bytes): Result<Bytes, CodecError> {
    if version > CURRENT_VERSION then Err(BadVersion)
    else if |f| != FIRST_PART_LENGTH - HEADER_LENGTH then Err(BadLength)
    else if |s| != SECOND_PART_LENGTH - HEADER_LENGTH then Err(BadLength)
    else if Checksum(sha, f) != s[|s| - CHECKSUM_LENGTH..] then Err(NotConnected)
    else Ok(f + s[..|s| - CHECKSUM_LENGTH])
  }

  function DecodeRawCheckpoint(version: Byte, b: Bytes): Result<RawBtcCheckpoint, CodecError> {
    if version > CURRENT_VERSION then Err(BadVersion)
    else if |b| != RAW_LENGTH then Err(BadLength)
    else
      Pow256Values();
      var h := EPOCH_LENGTH + BLOCK_HASH_LENGTH;
      var m := h + BITMAP_LENGTH;
      var a := m + ADDRESS_LENGTH;
      Ok(RawBtcCheckpoint(FromBigEndian(b[..EPOCH_LENGTH]), b[EPOCH_LENGTH..h], b[h..m], b[m..a], b[a..]))
  }

  // ----- the encoding is a bijection -----

  lemma BodyParts(c: RawBtcCheckpoint)
    requires |c.blockHash| == BLOCK_HASH_LENGTH && |c.bitMap| == BITMAP_LENGTH && |c.submitter| == ADDRESS_LENGTH
    ensures var b := Body(c);
            && |b| == FIRST_PART_LENGTH - HEADER_LENGTH
            && b[..8] == ToBigEndian(c.epoch, 8) && b[8..40] == c.blockHash && b[40..53] == c.bitMap
            && b[53..] == c.submitter
  {
  }

  lemma DecodeBody(version: Byte, c: RawBtcCheckpoint)
    requires version == CURRENT_VERSION && |c.blsSig| == BLS_SIG_LENGTH
    requires |c.blockHash| == BLOCK_HASH_LENGTH && |c.bitMap| == BITMAP_LENGTH && |c.submitter| == ADDRESS_LENGTH
    ensures DecodeRawCheckpoint(version, Body(c) + c.blsSig) == Ok(c)
  {
    hide ToBigEndian, FromBigEndian;
    var body, b := Body(c), Body(c) + c.blsSig;
    BodyParts(c);
    assert b[..8] == body[..8] && b[8..40] == body[8..40] && b[40..53] == body[40..53];
    assert b[53..73] == body[53..] && b[73..] == c.blsSig;
    Pow256Values();
    BigEndianRoundTrip(c.epoch, 8);
  }

  /** When a checkpoint is encoded, and the place of every field in the two parts. */
  lemma EncodedLayout(sha: Hash, tag: Bytes, version: Byte, c: RawBtcCheckpoint)
    ensures EncodeCheckpointData(sha, tag, version, c).Ok? <==>
            && |tag| == 4 && version == 0 && |c.blockHash| == 32 && |c.bitMap| == 13 && |c.submitter| == 20 && |c.blsSig| == 48
    ensures EncodeCheckpointData(sha, tag, version, c).Ok? ==>
              var (d0, d1) := EncodeCheckpointData(sha, tag, version, c).value;
              && |d0| == 78 && d0[..4] == tag && d0[4] == 0 && FromBigEndian(d0[5..13]) == c.epoch
              && d0[13..45] == c.blockHash && d0[45..58] == c.bitMap && d0[58..] == c.submitter
              && |d1| == 63 && d1[..4] == tag && d1[4] == 16 && d1[5..53] == c.blsSig && d1[53..] == sha(d0[5..])[..10]
  {
    hide ToBigEndian, FromBigEndian, Body, EncodeHeader, Checksum;
    if EncodeCheckpointData(sha, tag, version, c).Ok? {
      var (d0, d1) := EncodeCheckpointData(sha, tag, version, c).value;
      HeaderBytes(tag, version, 0);
      HeaderBytes(tag, version, 1);
      BodyParts(c);
      FirstPartSlices(EncodeHeader(tag, version, 0), Body(c));
      SecondPartSlices(EncodeHeader(tag, version, 1), c.blsSig, Checksum(sha, d0[HEADER_LENGTH..]));
      ChecksumIs(sha, d0[HEADER_LENGTH..]);
      Pow256Values();
      BigEndianRoundTrip(c.epoch, 8);
    }
  }

  lemma HeaderBytes(tag: Bytes, version: Byte, part: Byte)
    requires |tag| == 4 && version == 0 && part < 2
    ensures var h := EncodeHeader(tag, version, part);
            |h| == 5 && h[..4] == tag && h[4] == 16 * part
  {
  }

  lemma ChecksumIs(sha: Hash, b: Bytes)
    ensures Checksum(sha, b) == sha(b)[..10]
  {
  }

  lemma FirstPartSlices(h: Bytes, body: Bytes)
    requires |h| == 5 && |body| == 73
    ensures var d := h + body;
            && |d| == 78 && d[..4] == h[..4] && d[4] == h[4] && d[5..] == body
            && d[5..13] == body[..8] && d[13..45] == body[8..40] && d[45..58] == body[40..53] && d[58..] == body[53..]
  {
  }

  lemma SecondPartSlices(h: Bytes, sig: Bytes, sum: Bytes)
    requires |h| == 5 && |sig| == 48 && |sum| == 10
    ensures var d := h + sig + sum;
            |d| == 63 && d[..4] == h[..4] && d[4] == h[4] && d[5..53] == sig && d[53..] == sum
  {
  }

  /** What is recognised as which part, read off the bytes. */
  lemma RecognisedIff(tag: Bytes, version: Byte, data: Bytes)
    ensures var r := Recognised(tag, version, data);
            && (r.Ok? && r.value.index == 0 <==> version == 0 && |data| == 78 && data[..4] == tag && data[4] == 0)
            && (r.Ok? && r.value.index == 1 <==> version == 0 && |data| == 63 && data[..4] == tag && data[4] == 16)
            && (r.Ok? ==> r.value.index <= 1 && r.value.data == data[5..])
  {
  }

  /** Encode, split, recognise, connect and decode gives the checkpoint back. */
  lemma DecodesWhatWasEncoded(sha: Hash, tag: Bytes, version: Byte, c: RawBtcCheckpoint)
    requires EncodeCheckpointData(sha, tag, version, c).Ok?
    ensures var (d0, d1) := EncodeCheckpointData(sha, tag, version, c).value;
            var r0, r1 := Recognised(tag, version, d0), Recognised(tag, version, d1);
            && r0.Ok? && r0.value.index == 0
            && r1.Ok? && r1.value.index == 1
            && var connected := ConnectParts(sha, version, r0.value.data, r1.value.data);
            connected.Ok? && DecodeRawCheckpoint(version, connected.value) == Ok(c)
  {
    hide Body, Checksum, DecodeRawCheckpoint, Recognised;
    var (d0, d1) := EncodeCheckpointData(sha, tag, version, c).value;
    BodyParts(c);
    RecognisedPart(tag, version, 0, Body(c));
    assert (EncodeHeader(tag, version, 0) + Body(c))[HEADER_LENGTH..] == Body(c);
    var s := c.blsSig + Checksum(sha, Body(c));
    RecognisedPart(tag, version, 1, s);
    assert d1 == EncodeHeader(tag, version, 1) + s;
    assert s[..|s| - CHECKSUM_LENGTH] == c.blsSig && s[|s| - CHECKSUM_LENGTH..] == Checksum(sha, Body(c));
    DecodeBody(version, c);
  }

  lemma RecognisedPart(tag: Bytes, version: Byte, part: Byte, body: Bytes)
    requires |tag| == TAG_LENGTH && version == CURRENT_VERSION && part < 2
    requires |body| == (if part == 0 then FIRST_PART_LENGTH else SECOND_PART_LENGTH) - HEADER_LENGTH
    ensures Recognised(tag, version, EncodeHeader(tag, version, part) + body) == Ok(AnonData(body, part))
  {
    hide EncodeHeader, Recognised;
    HeaderParts(tag, version, part, body);
    RecognisedByHeader(tag, version, part, EncodeHeader(tag, version, part) + body);
  }

  lemma RecognisedByHeader(tag: Bytes, version: Byte, part: Byte, data: Bytes)
    requires version == CURRENT_VERSION && part < 2
    requires |data| == if part == 0 then FIRST_PART_LENGTH else SECOND_PART_LENGTH
    requires ParseHeader(data) == FormatHeader(tag, version, part)
    ensures Recognised(tag, version, data) == Ok(AnonData(data[HEADER_LENGTH..], part))
  {
  }

  lemma HeaderParts(tag: Bytes, version: Byte, part: Byte, body: Bytes)
    requires |tag| == TAG_LENGTH && version < 16 && part < 16
    ensures var data := EncodeHeader(tag, version, part) + body;
            && |data| == HEADER_LENGTH + |body| && data[HEADER_LENGTH..] == body
            && ParseHeader(data) == FormatHeader(tag, version, part)
  {
    var data := EncodeHeader(tag, version, part) + body;
    assert data[TAG_LENGTH] == VerHalf(version, part);
    VerHalfParts(version, part);
    hide VerHalf;
    assert data[..TAG_LENGTH] == tag && data[HEADER_LENGTH..] == body;
  }

  lemma VerHalfParts(version: Byte, half: Byte)
    requires version < 16 && half < 16
    ensures VerHalf(version, half) % 16 == version && VerHalf(version, half) / 16 == half
  {
    assert version % 16 == version && half * 16 % 256 == half * 16;
    assert VerHalf(version, half) == version + half * 16;
    hide VerHalf;
  }

  /** Any two recognised parts that connect are the encoding of the checkpoint they decode to. */
  lemma EncodesWhatWasDecoded(sha: Hash, tag: Bytes, version: Byte, d0: Bytes, d1: Bytes)
    requires Recognised(tag, version, d0).Ok? && Recognised(tag, version, d0).value.index == 0
    requires Recognised(tag, version, d1).Ok? && Recognised(tag, version, d1).value.index == 1
    requires ConnectParts(sha, version, Recognised(tag, version, d0).value.data, Recognised(tag, version, d1).value.data).Ok?
    ensures var connected := ConnectParts(sha, version, Recognised(tag, version, d0).value.data,
                                          Recognised(tag, version, d1).value.data).value;
            var c := DecodeRawCheckpoint(version, connected);
            c.Ok? && EncodeCheckpointData(sha, tag, version, c.value) == Ok((d0, d1))
  {
    hide ToBigEndian, FromBigEndian;
    var f, s := d0[HEADER_LENGTH..], d1[HEADER_LENGTH..];
    var b := f + s[..48];
    var c := DecodeRawCheckpoint(version, b).value;
    EncodeDecodedBody(version, b);
    assert b[..73] == f && c.blsSig == s[..48];
    assert s == s[..48] + s[48..];
    var first := EncodeHeader(tag, version, 0) + Body(c);
    assert first[HEADER_LENGTH..] == f;
    HeaderOfPart(tag, version, 0, d0);
    HeaderOfPart(tag, version, 1, d1);
    assert ConnectParts(sha, version, f, s) == Ok(b);
    assert EncodeHeader(tag, version, 1) + s[..48] + s[48..] == EncodeHeader(tag, version, 1) + s;
    assert tag == d0[..TAG_LENGTH];
    assert EncodeCheckpointData(sha, tag, version, c) == Ok((first, EncodeHeader(tag, version, 1) + c.blsSig + Checksum(sha, f)));
  }

  lemma EncodeDecodedBody(version: Byte, b: Bytes)
    requires DecodeRawCheckpoint(version, b).Ok?
    ensures Body(DecodeRawCheckpoint(version, b).value) == b[..73]
  {
    hide ToBigEndian, FromBigEndian;
    BigEndianCanonical(b[..8]);
    assert b[..73] == b[..8] + b[8..40] + b[40..53] + b[53..73];
  }

  lemma HeaderOfPart(tag: Bytes, version: Byte, part: Byte, data: Bytes)
    requires part < 2 && GetCheckpointData(tag, version, part, data).Ok?
    ensures data == EncodeHeader(tag, version, part) + data[HEADER_LENGTH..]
  {
    assert data[TAG_LENGTH] == VerHalf(version, part);
  }

  /** No byte string is recognised as both parts. */
  lemma NeverBothParts(tag: Bytes, tag': Bytes, version: Byte, data: Bytes)
    ensures !(GetCheckpointData(tag, version, 0, data).Ok? && GetCheckpointData(tag', version, 1, data).Ok?)
  {
  }
}
