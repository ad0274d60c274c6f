/** The two "pickle" frames around an ASAR header (internal/asar/archive.go:272-319):
    little-endian 32-bit words and a payload padded to four bytes. */
module AsarPickle {
  import opened Wrappers

  type Byte = b: int | 0 <= b < 256

  const WORD: int := 0x1_0000_0000

  datatype Error = InvalidPath | EntryNotFound | NilMapWrite | ReadFailed

  /** binary.LittleEndian.PutUint32 of uint32(value): the conversion drops high bits. */
  function PutUint32(value: nat): (bytes: seq<Byte>)
    ensures |bytes| == 4
  {
    var v := value % WORD;
    [v % 0x100, v / 0x100 % 0x100, v / 0x1_0000 % 0x100, v / 0x100_0000]
  }

  /** binary.LittleEndian.Uint32. */
  function Uint32(bytes: seq<Byte>): (value: nat)
    requires |bytes| == 4
  {
    var b0: int, b1: int, b2: int, b3: int := bytes[0], bytes[1], bytes[2], bytes[3];
    b0 + 0x100 * b1 + 0x1_0000 * b2 + 0x100_0000 * b3
  }

  function Zeros(n: nat): (bytes: seq<Byte>)
    ensures |bytes| == n && forall i :: 0 <= i < n ==> bytes[i] == 0
  {
    seq(n, i => 0)
  }

  /** The least multiple of four that is at least n. */
  function Align4(n: nat): (aligned: nat)
    ensures aligned % 4 == 0 && n <= aligned < n + 4
  {
    if n % 4 == 0 then n else n + (4 - n % 4)
  }

  function WritePickleUint32(value: nat): seq<Byte>
  {
    PutUint32(4) + PutUint32(value)
  }

  function ReadPickleUint32(buffer: seq<Byte>): Result<nat, Error>
  {
    if |buffer| < 8 then Err(InvalidPath)
    else
      var payloadSize := Uint32(buffer[..4]);
      if payloadSize < 4 || payloadSize > |buffer| - 4 then Err(InvalidPath)
      else Ok(Uint32(buffer[4..8]))
  }

  function WritePickleString(value: seq<Byte>): seq<Byte>
  {
    var payloadSize := Align4(4 + |value|);
    PutUint32(payloadSize) + PutUint32(|value|) + value + Zeros(payloadSize - 4 - |value|)
  }

  function ReadPickleString(buffer: seq<Byte>): Result<seq<Byte>, Error>
  {
    if |buffer| < 8 then Err(InvalidPath)
    else
      var payloadSize := Uint32(buffer[..4]);
      if payloadSize < 4 || payloadSize > |buffer| - 4 then Err(InvalidPath)
      else
        var length := Uint32(buffer[4..8]);
        if length > payloadSize - 4 || 8 + length > |buffer| then Err(InvalidPath)
        else Ok(buffer[8..8 + length])
  }

  lemma WordRoundTrip(value: nat)
    ensures Uint32(PutUint32(value)) == value % WORD
  {
    var v := value % WORD;
    assert v == v % 0x100 + 0x100 * (v / 0x100);
    assert v / 0x100 == v / 0x100 % 0x100 + 0x100 * (v / 0x1_0000);
    assert v / 0x1_0000 == v / 0x1_0000 % 0x100 + 0x100 * (v / 0x100_0000);
  }

  /** A size frame reads back as the value truncated to 32 bits: exactly the value
      when, and only when, it fits. */
  lemma SizeRoundTrip(value: nat)
    ensures ReadPickleUint32(WritePickleUint32(value)) == Ok(value % WORD)
    ensures ReadPickleUint32(WritePickleUint32(value)) == Ok(value) <==> value < WORD
  {
    var buffer := WritePickleUint32(value);
    assert buffer[..4] == PutUint32(4) && buffer[4..8] == PutUint32(value);
    WordRoundTrip(4);
    WordRoundTrip(value);
  }

  lemma StringFrame(value: seq<Byte>)
    ensures
      var payloadSize := Align4(4 + |value|);
      var buffer := WritePickleString(value);
      && |buffer| == 4 + payloadSize
      && Uint32(buffer[..4]) == payloadSize % WORD
      && Uint32(buffer[4..8]) == |value| % WORD
      && buffer[8..8 + |value|] == value
  {
    var payloadSize := Align4(4 + |value|);
    var buffer := WritePickleString(value);
    assert buffer[..4] == PutUint32(payloadSize);
    assert buffer[4..8] == PutUint32(|value|);
    WordRoundTrip(payloadSize);
    WordRoundTrip(|value|);
  }

  lemma AlignedPastWord(length: nat)
    requires length < WORD <= Align4(4 + length)
    ensures Align4(4 + length) % WORD <= 4 && length >= WORD - 7
  {
  }

  /** A string frame reads back exactly when its padded payload fits 32 bits; the
      frame always has a length that is a multiple of four. */
  lemma StringRoundTrip(value: seq<Byte>)
    ensures ReadPickleString(WritePickleString(value)) == Ok(value) <==> Align4(4 + |value|) < WORD
    ensures |WritePickleString(value)| == 4 + Align4(4 + |value|)
  {
    StringFrame(value);
    if |value| >= WORD {
      assert |value| % WORD < |value|;
    } else if Align4(4 + |value|) >= WORD {
      AlignedPastWord(|value|);
    }
  }
}
