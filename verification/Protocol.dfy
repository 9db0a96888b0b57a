/** The binary frames of terminal protocol v2: encoders, decoders, and their agreement. */
module Protocol {
  import opened Bytes

  const KIND_DATA: byte := 1
  const KIND_INPUT: byte := 2
  const MAX_SEQ := 0xFFFF_FFFF_FFFF_FFFF
  const MAX_DATA_FRAME := 1024 * 1024
  const MAX_INPUT_FRAME := 256 * 1024

  /** The flag byte: SNAPSHOT is bit 0, REPLAY bit 1, LAST bit 2, DISPLAY bit 3. */
  datatype Flags = Flags(snapshot: bool, replay: bool, last: bool, display: bool)

  const LIVE := Flags(false, false, false, false)
  const SNAPSHOT := Flags(true, false, false, false)
  const REPLAY := Flags(false, true, false, false)
  const DISPLAY := Flags(false, false, false, true)

  function FlagBits(f: Flags): (b: int) {
    (if f.snapshot then 1 else 0) + (if f.replay then 2 else 0)
    + (if f.last then 4 else 0) + (if f.display then 8 else 0)
  }

  function FlagsOf(b: int): Flags {
    Flags(b % 2 == 1, b / 2 % 2 == 1, b / 4 % 2 == 1, b / 8 % 2 == 1)
  }

  datatype Error = SeqRange | TooLong | UnknownFlags | ShortHeader | WrongKind

  datatype Result<+T> = Ok(value: T) | Err(error: Error)

  datatype DataFrame = DataFrame(at: int, flags: int, payload: bytes)
  datatype InputFrame = InputFrame(flags: int, payload: bytes)

  /** A flag word with a bit outside the four known ones. */
  predicate HasUnknownBits(flags: int) {
    flags < 0 || flags >= 16
  }

  function BigEndian(n: nat, width: nat): (b: bytes)
    ensures |b| == width
  {
    if width == 0 then [] else BigEndian(n / 256, width - 1) + [(n % 256) as byte]
  }

  function FromBigEndian(b: bytes): (n: nat) {
    if b == [] then 0 else FromBigEndian(b[..|b| - 1]) * 256 + b[|b| - 1] as int
  }

  function EncodeData(at: int, payload: bytes, flags: int): Result<bytes> {
    if at < 0 || at > MAX_SEQ then Err(SeqRange)
    else if |payload| > MAX_DATA_FRAME then Err(TooLong)
    else if HasUnknownBits(flags) then Err(UnknownFlags)
    else Ok([KIND_DATA] + BigEndian(at, 8) + [flags as byte] + payload)
  }

  function DecodeData(frame: bytes): Result<DataFrame> {
    if |frame| < 10 then Err(ShortHeader)
    else if frame[0] != KIND_DATA then Err(WrongKind)
    else if HasUnknownBits(frame[9] as int) then Err(UnknownFlags)
    else if |frame[10..]| > MAX_DATA_FRAME then Err(TooLong)
    else Ok(DataFrame(FromBigEndian(frame[1..9]), frame[9] as int, frame[10..]))
  }

  function EncodeInput(payload: bytes, flags: int): Result<bytes> {
    if |payload| > MAX_INPUT_FRAME then Err(TooLong)
    else if HasUnknownBits(flags) then Err(UnknownFlags)
    else Ok([KIND_INPUT] + [flags as byte] + payload)
  }

  function DecodeInput(frame: bytes): Result<InputFrame> {
    if |frame| < 2 then Err(ShortHeader)
    else if frame[0] != KIND_INPUT then Err(WrongKind)
    else if HasUnknownBits(frame[1] as int) then Err(UnknownFlags)
    else if |frame[2..]| > MAX_INPUT_FRAME then Err(TooLong)
    else Ok(InputFrame(frame[1] as int, frame[2..]))
  }

  function Pow256(k: nat): nat {
    if k == 0 then 1 else 256 * Pow256(k - 1)
  }

  lemma {:induction false} BigEndianInverse(n: nat, width: nat)
    requires n < Pow256(width)
    ensures FromBigEndian(BigEndian(n, width)) == n
  {
    if width > 0 {
      BigEndianInverse(n / 256, width - 1);
      assert BigEndian(n, width)[..width - 1] == BigEndian(n / 256, width - 1);
    }
  }

  lemma {:induction false} FromBigEndianInverse(b: bytes)
    ensures FromBigEndian(b) < Pow256(|b|)
    ensures BigEndian(FromBigEndian(b), |b|) == b
  {
    if b != [] { FromBigEndianInverse(b[..|b| - 1]); }
  }

  lemma SeqWidth()
    ensures Pow256(8) == MAX_SEQ + 1
  {
    assert Pow256(2) == 0x1_0000;
    assert Pow256(4) == 256 * (256 * Pow256(2)) == 0x1_0000_0000;
    assert Pow256(6) == 256 * (256 * Pow256(4));
  }

  /** Data frames: encoding succeeds exactly in range, and decoding undoes it. */
  lemma DataRoundTrip(at: int, payload: bytes, flags: int)
    ensures EncodeData(at, payload, flags).Ok? <==>
      0 <= at <= 0xFFFF_FFFF_FFFF_FFFF && |payload| <= 1_048_576 && 0 <= flags < 16
    ensures EncodeData(at, payload, flags).Ok? ==>
      DecodeData(EncodeData(at, payload, flags).value) == Ok(DataFrame(at, flags, payload))
  {
    if EncodeData(at, payload, flags).Ok? {
      SeqWidth();
      BigEndianInverse(at, 8);
      var frame := EncodeData(at, payload, flags).value;
      assert frame[1..9] == BigEndian(at, 8);
      assert frame[10..] == payload;
    }
  }

  lemma FromBigEndianSnoc(b: bytes, n: nat)
    requires n < |b|
    ensures FromBigEndian(b[..n + 1]) == FromBigEndian(b[..n]) * 256 + b[n] as int
  {
    assert b[..n + 1][..n] == b[..n];
  }

  /** The most significant byte comes first. */
  lemma EightBytes(b: bytes)
    requires |b| == 8
    ensures FromBigEndian(b)
         == b[0] as int * 0x100_0000_0000_0000 + b[1] as int * 0x1_0000_0000_0000
          + b[2] as int * 0x100_0000_0000 + b[3] as int * 0x1_0000_0000
          + b[4] as int * 0x100_0000 + b[5] as int * 0x1_0000 + b[6] as int * 0x100 + b[7] as int
  {
    assert b[..8] == b;
    FromBigEndianSnoc(b, 0);
    FromBigEndianSnoc(b, 1);
    FromBigEndianSnoc(b, 2);
    FromBigEndianSnoc(b, 3);
    FromBigEndianSnoc(b, 4);
    FromBigEndianSnoc(b, 5);
    FromBigEndianSnoc(b, 6);
    FromBigEndianSnoc(b, 7);
    assert FromBigEndian(b[..0]) == 0;
    hide FromBigEndian;
  }

  /** The frame byte by byte: the kind, the offset with its most significant byte first, the flags, the payload. */
  lemma DataLayout(at: int, payload: bytes, flags: int)
    requires EncodeData(at, payload, flags).Ok?
    ensures var f := EncodeData(at, payload, flags).value;
      && |f| == 10 + |payload| && f[0] == 1 && f[9] as int == flags && f[10..] == payload
      && at == f[1] as int * 0x100_0000_0000_0000 + f[2] as int * 0x1_0000_0000_0000
             + f[3] as int * 0x100_0000_0000 + f[4] as int * 0x1_0000_0000
             + f[5] as int * 0x100_0000 + f[6] as int * 0x1_0000 + f[7] as int * 0x100 + f[8] as int
  {
    var f := EncodeData(at, payload, flags).value;
    SeqWidth();
    BigEndianInverse(at, 8);
    hide BigEndian, FromBigEndian;
    assert f[1..9] == BigEndian(at, 8);
    EightBytes(f[1..9]);
    assert f[10..] == payload;
  }

  /** Each flag is one bit of the flag byte. */
  lemma FlagLayout(f: Flags)
    ensures 0 <= FlagBits(f) < 16 && FlagsOf(FlagBits(f)) == f
    ensures FlagBits(SNAPSHOT) == 1 && FlagBits(REPLAY) == 2 && FlagBits(DISPLAY) == 8
    ensures FlagBits(f.(last := true)) == FlagBits(f.(last := false)) + 4
    ensures FlagBits(f.(snapshot := true)) == FlagBits(f.(snapshot := false)) + 1
    ensures FlagBits(f.(replay := true)) == FlagBits(f.(replay := false)) + 2
    ensures FlagBits(f.(display := true)) == FlagBits(f.(display := false)) + 8
  {
  }

  /** No two byte strings decode to the same data frame: what decodes re-encodes to itself. */
  lemma DataIsCanonical(frame: bytes)
    ensures DecodeData(frame).Ok? ==>
      var d := DecodeData(frame).value;
      EncodeData(d.at, d.payload, d.flags) == Ok(frame)
  {
    if DecodeData(frame).Ok? {
      SeqWidth();
      FromBigEndianInverse(frame[1..9]);
      assert frame == [frame[0]] + frame[1..9] + [frame[9]] + frame[10..];
    }
  }

  /** Input frames: the same, in both directions. */
  lemma InputRoundTrip(payload: bytes, flags: int, frame: bytes)
    ensures EncodeInput(payload, flags).Ok? <==> |payload| <= 262_144 && 0 <= flags < 16
    ensures EncodeInput(payload, flags) == Ok(frame) <==> DecodeInput(frame) == Ok(InputFrame(flags, payload))
    ensures EncodeInput(payload, flags) == Ok(frame) ==>
      |frame| == 2 + |payload| && frame[0] == 2 && frame[1] as int == flags && frame[2..] == payload
  {
    if EncodeInput(payload, flags) == Ok(frame) {
      assert frame[2..] == payload;
    }
    if DecodeInput(frame) == Ok(InputFrame(flags, payload)) {
      assert frame == [frame[0]] + [frame[1]] + frame[2..];
    }
  }
}
