/** The WeCom message frame: sixteen random bytes, a length, the message, and a padding to blocks of 32. */
module WecomFrame {
  import opened Bytes
  import opened Wrappers

  const BLOCK: nat := 32
  const TWO_32: int := 0x1_0000_0000

  datatype Failure = InvalidPadding | OutOfRange

  /** `buffer.subarray(0, end)`; a negative end counts from the right. */
  function Head(buffer: seq<Byte>, end: int): seq<Byte> {
    var e := if end < 0 then |buffer| + end else end;
    if e <= 0 then [] else if e >= |buffer| then buffer else buffer[..e]
  }

  function Tail(buffer: seq<Byte>, start: nat): seq<Byte> {
    if start >= |buffer| then [] else buffer[start..]
  }

  /** `blockSize - (length % blockSize || blockSize)`: nothing at all when the length is aligned. */
  function PadLength(n: nat): (pad: nat)
    ensures pad < BLOCK
  {
    var over := n % BLOCK;
    BLOCK - if over == 0 then BLOCK else over
  }

  function EncodePkcs7(buffer: seq<Byte>): seq<Byte> {
    var pad: Byte := PadLength(|buffer|);
    buffer + seq(pad, _ => pad)
  }

  /** The last byte of an empty buffer is undefined, which passes both tests and takes nothing. */
  function DecodePkcs7(buffer: seq<Byte>): Result<seq<Byte>, Failure> {
    if buffer == [] then Ok([])
    else
      var pad := buffer[|buffer| - 1];
      if pad < 1 || pad > BLOCK then Err(InvalidPadding) else Ok(Head(buffer, |buffer| - pad))
  }

  function WriteUInt32BE(n: int): (bytes: seq<Byte>)
    requires 0 <= n < TWO_32
    ensures |bytes| == 4
  {
    [n / 0x100_0000, n / 0x1_0000 % 0x100, n / 0x100 % 0x100, n % 0x100]
  }

  function ReadUInt32BE(bytes: seq<Byte>): Result<nat, Failure> {
    if |bytes| < 4 then Err(OutOfRange)
    else
      var a: int, b: int, c: int, d: int := bytes[0], bytes[1], bytes[2], bytes[3];
      Ok(a * 0x100_0000 + b * 0x1_0000 + c * 0x100 + d)
  }

  /** encryptPayload, with the cipher and its base64 as one function. */
  function EncryptPayload(
    message: seq<Byte>, random: seq<Byte>, encrypt: seq<Byte> -> string): Result<string, Failure>
  {
    if |message| >= TWO_32 then Err(OutOfRange)
    else Ok(encrypt(EncodePkcs7(random + WriteUInt32BE(|message|) + message)))
  }

  function DecryptPayload(encrypted: string, decrypt: string -> seq<Byte>): Result<seq<Byte>, Failure> {
    var raw := DecodePkcs7(decrypt(encrypted));
    if raw.Err? then raw
    else
      var body := Tail(raw.value, 16);
      var length := ReadUInt32BE(body);
      if length.Err? then Err(length.error) else Ok(Head(Tail(body, 4), length.value))
  }

  // ---------- The padding ----------

  lemma PaddedToBlocks(buffer: seq<Byte>)
    ensures |EncodePkcs7(buffer)| % BLOCK == 0
    ensures |EncodePkcs7(buffer)| >= |buffer| && EncodePkcs7(buffer)[..|buffer|] == buffer
  {
  }

  /** Unpadding inverts padding exactly off the block boundary, where the code pads with nothing. */
  lemma UnpadsIff(buffer: seq<Byte>)
    ensures DecodePkcs7(EncodePkcs7(buffer)) == Ok(buffer) <==> |buffer| % BLOCK != 0 || buffer == []
  {
    var padded := EncodePkcs7(buffer);
    if |buffer| % BLOCK == 0 {
      assert padded == buffer;
    } else {
      var pad := PadLength(|buffer|);
      assert padded[|padded| - 1] == pad && |padded| - pad == |buffer|;
      assert padded[..|buffer|] == buffer;
    }
  }

  lemma UInt32RoundTrips(n: int)
    requires 0 <= n < TWO_32
    ensures ReadUInt32BE(WriteUInt32BE(n)) == Ok(n)
  {
    var a, b, c := n / 0x100, n / 0x1_0000, n / 0x100_0000;
    assert n == a * 0x100 + n % 0x100 && a == b * 0x100 + a % 0x100 && b == c * 0x100 + b % 0x100;
  }

  // ---------- The round trip ----------

  function Frame(message: seq<Byte>, random: seq<Byte>): seq<Byte>
    requires |message| < TWO_32
  {
    random + WriteUInt32BE(|message|) + message
  }

  lemma FrameOpens(message: seq<Byte>, random: seq<Byte>)
    requires |random| == 16 && |message| < TWO_32
    ensures var body := Tail(Frame(message, random), 16);
      && ReadUInt32BE(body) == Ok(|message|)
      && Head(Tail(body, 4), |message|) == message
  {
    var frame := Frame(message, random);
    var body := Tail(frame, 16);
    assert body == WriteUInt32BE(|message|) + message;
    assert body[..4] == WriteUInt32BE(|message|);
    UInt32RoundTrips(|message|);
    assert message != [] ==> Tail(body, 4) == message;
  }

  /** With nothing padded, the last byte of the message is taken for a padding length. */
  lemma AlignedIsCut(message: seq<Byte>, random: seq<Byte>)
    requires |random| == 16 && |message| < TWO_32 && (20 + |message|) % BLOCK == 0
    ensures var raw := DecodePkcs7(EncodePkcs7(Frame(message, random)));
      raw.Ok? ==> |raw.value| < 20 + |message|
  {
    assert EncodePkcs7(Frame(message, random)) == Frame(message, random);
  }

  /** A message survives the frame exactly when its frame is not already a multiple of 32 bytes. */
  lemma RoundTripIff(
    message: seq<Byte>, random: seq<Byte>, encrypt: seq<Byte> -> string, decrypt: string -> seq<Byte>)
    requires |random| == 16 && |message| < TWO_32
    requires forall plain :: decrypt(encrypt(plain)) == plain
    ensures EncryptPayload(message, random, encrypt).Ok?
    ensures DecryptPayload(EncryptPayload(message, random, encrypt).value, decrypt) == Ok(message)
      <==> (20 + |message|) % BLOCK != 0
  {
    var frame := Frame(message, random);
    var sent := encrypt(EncodePkcs7(frame));
    assert decrypt(sent) == EncodePkcs7(frame);
    if (20 + |message|) % BLOCK != 0 {
      UnpadsIff(frame);
      FrameOpens(message, random);
    } else {
      AlignedIsCut(message, random);
      var raw := DecodePkcs7(decrypt(sent));
      if raw.Ok? {
        assert |Tail(Tail(raw.value, 16), 4)| < |message|;
      }
    }
  }

  // ---------- Frames of others ----------

  lemma BodyOpens(n: nat, rest: seq<Byte>)
    requires n < TWO_32
    ensures var body := WriteUInt32BE(n) + rest;
      ReadUInt32BE(body) == Ok(n) && Head(Tail(body, 4), n) == if n <= |rest| then rest[..n] else rest
  {
    var body := WriteUInt32BE(n) + rest;
    assert body[..4] == WriteUInt32BE(n);
    UInt32RoundTrips(n);
    assert rest != [] ==> Tail(body, 4) == rest;
  }

  lemma PaddingIsTaken(framed: seq<Byte>, pad: Byte)
    requires 1 <= pad <= 32
    ensures DecodePkcs7(framed + seq(pad, _ => pad)) == Ok(framed)
  {
    var whole := framed + seq(pad, _ => pad);
    assert whole[|whole| - 1] == pad && whole[..|framed|] == framed;
  }

  /** The length field says how much of what follows is the message, and the last byte how much is padding. */
  lemma ForeignFrameOpens(random: seq<Byte>, n: nat, rest: seq<Byte>, pad: Byte,
                          encrypted: string, decrypt: string -> seq<Byte>)
    requires |random| == 16 && n < TWO_32 && 1 <= pad <= 32
    requires decrypt(encrypted) == random + (WriteUInt32BE(n) + rest) + seq(pad, _ => pad)
    ensures DecryptPayload(encrypted, decrypt) == Ok(if n <= |rest| then rest[..n] else rest)
  {
    var framed := random + (WriteUInt32BE(n) + rest);
    PaddingIsTaken(framed, pad);
    BodyOpens(n, rest);
    assert Tail(framed, 16) == WriteUInt32BE(n) + rest;
  }

  /**
   * A frame is refused exactly when its last byte is no padding length, or less than random bytes and a length
   * field are left. Where the padding is longer than the frame, the negative end counts from the right.
   */
  lemma RefusedIff(encrypted: string, decrypt: string -> seq<Byte>)
    requires decrypt(encrypted) != []
    ensures var whole := decrypt(encrypted);
      var pad := whole[|whole| - 1];
      var left := if pad <= |whole| then |whole| - pad else 2 * |whole| - pad;
      var answer := DecryptPayload(encrypted, decrypt);
      && (answer == Err(InvalidPadding) <==> pad == 0 || pad > 32)
      && (answer == Err(OutOfRange) <==> 1 <= pad <= 32 && left < 20)
  {
  }

  /** There is nothing to unpad in an empty frame, and no length field for a message of 2^32 bytes or more. */
  lemma NothingOrTooMuch(encrypted: string, decrypt: string -> seq<Byte>,
                         message: seq<Byte>, random: seq<Byte>, encrypt: seq<Byte> -> string)
    requires |random| == 16
    ensures decrypt(encrypted) == [] ==> DecryptPayload(encrypted, decrypt).Err?
    ensures EncryptPayload(message, random, encrypt) == Err(OutOfRange) <==> |message| >= 0x1_0000_0000
    ensures EncryptPayload(message, random, encrypt).Err? <==> |message| >= 0x1_0000_0000
  {
  }
}
