/** The frame layout of the write-ahead log: little-endian fields, checksum, payload. */
module WalFormat {
  import opened Basics
  import opened LogRecords

  const MAGIC: nat := 0x4c57414c
  const VERSION: nat := 1
  const FLAGS: nat := 0
  const HEADER: nat := 20
  const MAX_PAYLOAD: nat := 256 * 1024 * 1024
  const TWO16: nat := 0x1_0000
  const TWO32: nat := 0x1_0000_0000

  // ----- Little-endian fields -------------------------------------------------------------

  function PutLe16(v: nat): (b: Bytes)
    requires v < TWO16
    ensures |b| == 2 && GetLe16(b, 0) == v
  {
    [v % 256, v / 256]
  }

  function GetLe16(b: Bytes, at: nat): (v: nat)
    requires at + 2 <= |b|
    ensures v < TWO16
  {
    b[at] as int + 256 * (b[at + 1] as int)
  }

  function PutLe32(v: nat): (b: Bytes)
    requires v < TWO32
    ensures |b| == 4 && GetLe32(b, 0) == v
  {
    PutLe16(v % TWO16) + PutLe16(v / TWO16)
  }

  function GetLe32(b: Bytes, at: nat): (v: nat)
    requires at + 4 <= |b|
    ensures v < TWO32
  {
    GetLe16(b, at) + TWO16 * GetLe16(b, at + 2)
  }

  /** Reading a field determines its bytes: the encoding is canonical. */
  lemma FieldBytes16(b: Bytes, at: nat)
    requires at + 2 <= |b|
    ensures PutLe16(GetLe16(b, at)) == b[at..at + 2]
  {
  }

  lemma FieldBytes32(b: Bytes, at: nat)
    requires at + 4 <= |b|
    ensures PutLe32(GetLe32(b, at)) == b[at..at + 4]
  {
    hide GetLe16, PutLe16;
    FieldBytes16(b, at);
    FieldBytes16(b, at + 2);
    Halves(GetLe16(b, at), GetLe16(b, at + 2));
    assert b[at..at + 4] == b[at..at + 2] + b[at + 2..at + 4];
  }

  lemma Halves(low: nat, high: nat)
    requires low < TWO16 && high < TWO16
    ensures (low + TWO16 * high) % TWO16 == low && (low + TWO16 * high) / TWO16 == high
  {
  }

  /** A field read through a slice is the field of the whole. */
  lemma FieldInSlice16(b: Bytes, lo: nat, hi: nat, at: nat)
    requires lo <= hi <= |b| && lo + at + 2 <= hi
    ensures GetLe16(b[lo..hi], at) == GetLe16(b, lo + at)
  {
  }

  lemma FieldInSlice32(b: Bytes, lo: nat, hi: nat, at: nat)
    requires lo <= hi <= |b| && lo + at + 4 <= hi
    ensures GetLe32(b[lo..hi], at) == GetLe32(b, lo + at)
  {
  }

  // ----- Frames ---------------------------------------------------------------------------

  /**
   * What the log delegates: the checksum and the record codec. The checksum is any function
   * into 32 bits and the codec any pair for which decoding undoes encoding.
   */
  datatype Codec = Codec(
    crc: Bytes -> nat,
    encode: seq<LogRecord> -> Bytes,
    decode: Bytes -> Option<seq<LogRecord>>)

  ghost predicate Lawful(c: Codec) {
    && (forall b :: c.crc(b) < TWO32)
    && (forall rs :: c.decode(c.encode(rs)) == Some(rs))
  }

  datatype Frame = Frame(epoch: nat, payload: Bytes)

  predicate Framable(f: Frame) {
    f.epoch < TWO32 && |f.payload| <= MAX_PAYLOAD
  }

  /** The checksummed part of a header. */
  function Prefix(f: Frame): (b: Bytes)
    requires Framable(f)
    ensures |b| == 16
  {
    PutLe32(MAGIC) + PutLe16(VERSION) + PutLe16(FLAGS) + PutLe32(|f.payload|) + PutLe32(f.epoch)
  }

  ghost function Encoded(c: Codec, f: Frame): (b: Bytes)
    requires Lawful(c) && Framable(f)
    ensures |b| == HEADER + |f.payload|
  {
    Prefix(f) + PutLe32(c.crc(Prefix(f) + f.payload)) + f.payload
  }

  predicate ConstantsAt(b: Bytes, at: nat)
    requires at + HEADER <= |b|
  {
    GetLe32(b, at) == MAGIC && GetLe16(b, at + 4) == VERSION && GetLe16(b, at + 6) == FLAGS
  }

  function LengthAt(b: Bytes, at: nat): nat
    requires at + HEADER <= |b|
  {
    GetLe32(b, at + 8)
  }

  function EpochAt(b: Bytes, at: nat): nat
    requires at + HEADER <= |b|
  {
    GetLe32(b, at + 12)
  }

  function StoredCrcAt(b: Bytes, at: nat): nat
    requires at + HEADER <= |b|
  {
    GetLe32(b, at + 16)
  }

  /** The header is a frame's and the file is long enough for the payload it announces. */
  predicate WholeAt(b: Bytes, at: nat) {
    at + HEADER <= |b| && ConstantsAt(b, at) && LengthAt(b, at) <= MAX_PAYLOAD
    && at + HEADER + LengthAt(b, at) <= |b|
  }

  function EndAt(b: Bytes, at: nat): (e: nat)
    requires WholeAt(b, at)
    ensures at + HEADER <= e <= |b|
  {
    at + HEADER + LengthAt(b, at)
  }

  function FrameAt(b: Bytes, at: nat): Frame
    requires WholeAt(b, at)
  {
    Frame(EpochAt(b, at), b[at + HEADER..EndAt(b, at)])
  }

  predicate ChecksumAt(c: Codec, b: Bytes, at: nat)
    requires WholeAt(b, at)
  {
    c.crc(b[at..at + 16] + b[at + HEADER..EndAt(b, at)]) == StoredCrcAt(b, at)
  }

  /** An intact frame as the tail search understands it. */
  predicate IntactAt(c: Codec, b: Bytes, at: nat) {
    WholeAt(b, at) && EpochAt(b, at) != 0 && LengthAt(b, at) != 0 && ChecksumAt(c, b, at)
  }

  lemma PrefixSlices(f: Frame)
    requires Framable(f)
    ensures var b := Prefix(f);
            && b[0..4] == PutLe32(MAGIC) && b[4..6] == PutLe16(VERSION) && b[6..8] == PutLe16(FLAGS)
            && b[8..12] == PutLe32(|f.payload|) && b[12..16] == PutLe32(f.epoch)
  {
    hide PutLe32, PutLe16, GetLe32, GetLe16;
  }

  lemma SliceOfSlice(b: Bytes, n: nat, from: nat, to: nat)
    requires from <= to <= n <= |b|
    ensures b[..n][from..to] == b[from..to]
  {
  }

  lemma HeaderFields(c: Codec, f: Frame)
    requires Lawful(c) && Framable(f)
    ensures var e := Encoded(c, f);
            && WholeAt(e, 0) && LengthAt(e, 0) == |f.payload| && EpochAt(e, 0) == f.epoch
            && StoredCrcAt(e, 0) == c.crc(Prefix(f) + f.payload)
            && e[..16] == Prefix(f) && e[HEADER..] == f.payload
  {
    hide PutLe32, PutLe16, GetLe32, GetLe16, Lawful;
    var e := Encoded(c, f);
    PrefixSlices(f);
    var tail := PutLe32(c.crc(Prefix(f) + f.payload));
    assert e[..16] == Prefix(f) && e[16..20] == tail && e[HEADER..] == f.payload;
    SliceOfSlice(e, 16, 0, 4);
    SliceOfSlice(e, 16, 4, 6);
    SliceOfSlice(e, 16, 6, 8);
    SliceOfSlice(e, 16, 8, 12);
    SliceOfSlice(e, 16, 12, 16);
    FieldInSlice32(e, 0, 4, 0);
    FieldInSlice16(e, 4, 6, 0);
    FieldInSlice16(e, 6, 8, 0);
    FieldInSlice32(e, 8, 12, 0);
    FieldInSlice32(e, 12, 16, 0);
    FieldInSlice32(e, 16, 20, 0);
  }

  /** Wherever the bytes of an encoded frame stand, the frame is read back. */
  lemma EncodedIsRead(c: Codec, f: Frame, b: Bytes, at: nat)
    requires Lawful(c) && Framable(f)
    requires at + |Encoded(c, f)| <= |b| && b[at..at + |Encoded(c, f)|] == Encoded(c, f)
    ensures WholeAt(b, at) && ChecksumAt(c, b, at) && FrameAt(b, at) == f
    ensures EndAt(b, at) == at + |Encoded(c, f)|
  {
    var e := Encoded(c, f);
    var n := at + |e|;
    HeaderFields(c, f);
    FieldInSlice32(b, at, n, 0);
    FieldInSlice16(b, at, n, 4);
    FieldInSlice16(b, at, n, 6);
    FieldInSlice32(b, at, n, 8);
    FieldInSlice32(b, at, n, 12);
    FieldInSlice32(b, at, n, 16);
    assert b[at..at + 16] == e[..16];
    assert b[at + HEADER..n] == e[HEADER..];
  }

  /** Conversely a frame that reads and satisfies its checksum is the encoding of what was read. */
  lemma ReadIsEncoded(c: Codec, b: Bytes, at: nat)
    requires Lawful(c) && WholeAt(b, at) && ChecksumAt(c, b, at)
    ensures Framable(FrameAt(b, at)) && b[at..EndAt(b, at)] == Encoded(c, FrameAt(b, at))
  {
    var f := FrameAt(b, at);
    var n := EndAt(b, at);
    FieldBytes32(b, at);
    FieldBytes16(b, at + 4);
    FieldBytes16(b, at + 6);
    FieldBytes32(b, at + 8);
    FieldBytes32(b, at + 12);
    FieldBytes32(b, at + 16);
    assert b[at..at + 16] == b[at..at + 4] + b[at + 4..at + 6] + b[at + 6..at + 8] + b[at + 8..at + 12]
           + b[at + 12..at + 16];
    assert b[at..at + 16] == Prefix(f);
    assert b[at..n] == b[at..at + 16] + b[at + 16..at + 20] + b[at + 20..n];
  }

  // ----- Logs -----------------------------------------------------------------------------

  function RecordsOf(c: Codec, f: Frame): seq<LogRecord> {
    match c.decode(f.payload)
    case Some(rs) => rs
    case None => []
  }

  /** A frame the scan accepts: framable, from a real epoch, with records of that epoch. */
  predicate Sound(c: Codec, f: Frame) {
    && Framable(f) && f.epoch != 0
    && c.decode(f.payload).Some? && RecordsOf(c, f) != []
    && forall i :: 0 <= i < |RecordsOf(c, f)| ==> RecordsOf(c, f)[i].epoch == f.epoch
  }

  predicate Ordered(fs: seq<Frame>) {
    forall i, j :: 0 <= i < j < |fs| ==> fs[i].epoch <= fs[j].epoch
  }

  predicate GoodLog(c: Codec, fs: seq<Frame>) {
    Ordered(fs) && forall i :: 0 <= i < |fs| ==> Sound(c, fs[i])
  }

  ghost function Log(c: Codec, fs: seq<Frame>): Bytes
    requires Lawful(c) && forall i :: 0 <= i < |fs| ==> Framable(fs[i])
  {
    if fs == [] then [] else Log(c, fs[..|fs| - 1]) + Encoded(c, fs[|fs| - 1])
  }

  /** The records of the frames above an epoch, in log order. */
  function RecordsAbove(c: Codec, fs: seq<Frame>, min: nat): seq<LogRecord> {
    if fs == [] then []
    else
      var f := fs[|fs| - 1];
      RecordsAbove(c, fs[..|fs| - 1], min) + if f.epoch <= min then [] else RecordsOf(c, f)
  }

  function Frontier(fs: seq<Frame>): nat {
    if fs == [] then 0 else fs[|fs| - 1].epoch
  }

  predicate Zero(b: Bytes, lo: nat, hi: nat)
    requires hi <= |b|
  {
    forall i :: lo <= i < hi ==> b[i] == 0
  }

  lemma LogAppend(c: Codec, fs: seq<Frame>, f: Frame)
    requires Lawful(c) && Framable(f) && forall i :: 0 <= i < |fs| ==> Framable(fs[i])
    ensures Log(c, fs + [f]) == Log(c, fs) + Encoded(c, f)
  {
    assert (fs + [f])[..|fs|] == fs;
  }

  lemma RecordsAppend(c: Codec, fs: seq<Frame>, f: Frame, min: nat)
    ensures RecordsAbove(c, fs + [f], min) == RecordsAbove(c, fs, min) + if f.epoch <= min then [] else RecordsOf(c, f)
  {
    assert (fs + [f])[..|fs|] == fs;
  }

  lemma LastLast<T>(a: seq<T>, b: seq<T>)
    requires b != []
    ensures a + b == (a + b[..|b| - 1]) + [b[|b| - 1]]
  {
  }

  lemma Associates<T>(a: seq<T>, b: seq<T>, c: seq<T>)
    ensures (a + b) + c == a + (b + c)
  {
  }

  lemma {:induction false} LogConcat(c: Codec, fs: seq<Frame>, gs: seq<Frame>)
    requires Lawful(c)
    requires (forall i :: 0 <= i < |fs| ==> Framable(fs[i])) && forall i :: 0 <= i < |gs| ==> Framable(gs[i])
    ensures Log(c, fs + gs) == Log(c, fs) + Log(c, gs)
  {
    hide Lawful, Framable, Encoded;
    if gs == [] {
      assert fs + gs == fs;
    } else {
      var n := |gs| - 1;
      LogConcat(c, fs, gs[..n]);
      LogAppend(c, fs + gs[..n], gs[n]);
      LastLast(fs, gs);
      Associates(Log(c, fs), Log(c, gs[..n]), Encoded(c, gs[n]));
    }
  }

  lemma {:induction false} RecordsConcat(c: Codec, fs: seq<Frame>, gs: seq<Frame>, min: nat)
    ensures RecordsAbove(c, fs + gs, min) == RecordsAbove(c, fs, min) + RecordsAbove(c, gs, min)
  {
    if gs == [] {
      assert fs + gs == fs;
    } else {
      var n := |gs| - 1;
      RecordsConcat(c, fs, gs[..n], min);
      RecordsAppend(c, fs + gs[..n], gs[n], min);
      assert fs + gs == (fs + gs[..n]) + [gs[n]];
    }
  }
}
