/**
 * The log file itself: one object that scans, repairs, extends and appends in place. The file is
 * a byte sequence; every read, write and sync may fail, at any point and without a reason.
 */
module Wal {
  import opened Basics
  import opened LogRecords
  import opened WalFormat
  import opened WalScan
  import opened WalTheorems

  const CHUNK: nat := 0x10_0000
  const PROBE_BUDGET: nat := 0x4000_0000
  const OFFSET_LIMIT: nat := 0x7fff_ffff_ffff_ffff
  const NO_PREALLOCATION: nat := 0

  datatype WalState = Unscanned | Ready | Failed
  datatype Probe = NoFrame | FoundFrame | ProbeIoError | Undecidable
  datatype ScanResult = ScanOk(frontier: nat, records: seq<LogRecord>, truncated: bool) | Corrupt | ScanIoError
  datatype AppendResult = Appended | Invalid | Overflow | AppendIoError

  datatype Bucket = Bucket(epoch: nat, records: seq<LogRecord>)

  /** Bytes that read as the magic somewhere past an offset. */
  predicate MagicAfter(b: Bytes, at: nat) {
    exists j :: at < j && j + 4 <= |b| && GetLe32(b, j) == MAGIC
  }

  /** When the tail search may run out of its I/O budget. */
  predicate BudgetRisk(b: Bytes, at: nat) {
    |b| > at + 0x1000_0000 || MagicAfter(b, at)
  }

  lemma HopEnds(b: Bytes, h: HopState, min: nat)
    requires h.at <= |b| && (h.at == |b| || LookHop(b, h, min) == Arrived)
    ensures Hop(b, h, min) == Some(h)
  {
  }

  lemma WalkOpens(c: Codec, b: Bytes, cur: Cursor, min: nat)
    requires cur.at < |b|
    ensures var t := Look(c, b, cur, min);
            Walk(c, b, cur, min) == if t.Halt? then (cur, t.stop) else Walk(c, b, t.cursor, min)
  {
  }

  lemma WalkEnds(c: Codec, b: Bytes, cur: Cursor, min: nat)
    requires cur.at == |b|
    ensures Walk(c, b, cur, min) == (cur, AtEnd)
  {
  }

  lemma IntactHasMagic(c: Codec, b: Bytes, j: nat)
    requires IntactAt(c, b, j)
    ensures j + HEADER <= |b| && GetLe32(b, j) == MAGIC && b[j + 3] != 0
  {
  }

  lemma MagicOrNothing(c: Codec, b: Bytes, j: nat)
    requires j + 4 <= |b| && GetLe32(b, j) != MAGIC
    ensures !IntactAt(c, b, j)
  {
  }

  // ----- Groups ---------------------------------------------------------------------------

  /** What the scan would reject, the append refuses. */
  predicate Refused(c: Codec, frontier: nat, u: Bucket) {
    || u.records == [] || u.epoch == 0 || u.epoch < frontier
    || (exists i :: 0 <= i < |u.records| && u.records[i].epoch != u.epoch)
    || |c.encode(u.records)| > MAX_PAYLOAD
  }

  function FrameOf(c: Codec, u: Bucket): Frame {
    Frame(u.epoch, c.encode(u.records))
  }

  /** The buckets a group takes: the leading ones at or below the target. */
  function Due(us: seq<Bucket>, target: nat): (n: nat)
    ensures n <= |us| && (n < |us| ==> us[n].epoch > target)
    ensures forall i :: 0 <= i < n ==> us[i].epoch <= target
  {
    if us == [] || us[0].epoch > target then 0 else 1 + Due(us[1..], target)
  }

  function FramesOf(c: Codec, us: seq<Bucket>): (fs: seq<Frame>)
    ensures |fs| == |us| && forall i :: 0 <= i < |us| ==> fs[i] == FrameOf(c, us[i])
  {
    seq(|us|, i requires 0 <= i < |us| => FrameOf(c, us[i]))
  }

  predicate Ascending(us: seq<Bucket>) {
    forall i, j :: 0 <= i < j < |us| ==> us[i].epoch < us[j].epoch
  }

  predicate Acceptable(c: Codec, frontier: nat, us: seq<Bucket>) {
    forall i :: 0 <= i < |us| ==> us[i].epoch < TWO32 && !Refused(c, frontier, us[i])
  }

  lemma {:induction false} AcceptableFramable(c: Codec, frontier: nat, us: seq<Bucket>)
    requires Acceptable(c, frontier, us)
    ensures forall i :: 0 <= i < |us| ==> Framable(FramesOf(c, us)[i])
  {
    forall i | 0 <= i < |us| ensures Framable(FramesOf(c, us)[i]) { assert !Refused(c, frontier, us[i]); }
  }

  /** The bytes of a group of framable buckets. */
  ghost function GroupBytes(c: Codec, us: seq<Bucket>): Bytes {
    if Lawful(c) && forall i :: 0 <= i < |us| ==> Framable(FrameOf(c, us[i])) then Log(c, FramesOf(c, us)) else []
  }

  /** Buckets that pass the refusals extend a good log to a good log. */
  lemma GroupIsGood(c: Codec, fs: seq<Frame>, us: seq<Bucket>)
    requires Lawful(c) && GoodLog(c, fs) && Ascending(us) && Acceptable(c, Frontier(fs), us)
    ensures GoodLog(c, fs + FramesOf(c, us))
    ensures Log(c, fs + FramesOf(c, us)) == Log(c, fs) + GroupBytes(c, us)
    ensures Frontier(fs + FramesOf(c, us)) == if us == [] then Frontier(fs) else us[|us| - 1].epoch
  {
    hide Log;
    var gs := FramesOf(c, us);
    forall i | 0 <= i < |us| ensures Sound(c, gs[i]) {
      assert !Refused(c, Frontier(fs), us[i]);
      assert c.decode(c.encode(us[i].records)) == Some(us[i].records);
    }
    assert Ordered(fs + gs);
    AcceptableFramable(c, Frontier(fs), us);
    LogConcat(c, fs, gs);
  }

  /** Whatever good log ended at `before`, the bytes `after` hold it and the group. */
  ghost predicate ExtendsLogs(c: Codec, before: Bytes, frontier: nat, us: seq<Bucket>, after: Bytes) {
    forall fs :: Lawful(c) && GoodLog(c, fs) && Frontier(fs) == frontier && before == Log(c, fs) ==>
      GoodLog(c, fs + FramesOf(c, us)) && after == Log(c, fs + FramesOf(c, us))
  }

  lemma GroupExtends(c: Codec, before: Bytes, frontier: nat, us: seq<Bucket>)
    requires Ascending(us) && Acceptable(c, frontier, us)
    ensures ExtendsLogs(c, before, frontier, us, before + GroupBytes(c, us))
  {
    hide Log, Lawful, Acceptable, Ascending, GroupBytes;
    forall fs | Lawful(c) && GoodLog(c, fs) && Frontier(fs) == frontier && before == Log(c, fs)
      ensures GoodLog(c, fs + FramesOf(c, us)) && before + GroupBytes(c, us) == Log(c, fs + FramesOf(c, us))
    {
      GroupIsGood(c, fs, us);
    }
  }

  /** A write that stopped: some prefix of the data over what were zeroes. */
  predicate TornWrite(b: Bytes, at: nat, data: Bytes, b': Bytes) {
    && at <= |b|
    && exists n ::
      0 <= n <= |data| && at + n <= |b'| && b'[..at + n] == b[..at] + data[..n] && Zero(b', at + n, |b'|)
  }

  lemma TornAfter(b: Bytes, at: nat, data: Bytes, b': Bytes, n: nat)
    requires at <= |b| && n <= |data| && at + n <= |b'| && b'[..at + n] == b[..at] + data[..n] && Zero(b', at + n, |b'|)
    ensures TornWrite(b, at, data, b')
  {
  }

  /**
   * The file is scanned back as the log and the first k frames of the group; the one exception is
   * that what is left of the next frame satisfies a checksum without being that frame.
   */
  ghost predicate Leading(c: Codec, fs: seq<Frame>, us: seq<Bucket>, k: nat, b: Bytes) {
    && k <= |us| && Lawful(c) && GoodLog(c, fs + FramesOf(c, us[..k]))
    && var all := fs + FramesOf(c, us[..k]);
       ScansAs(c, b, all)
       || (k < |us| && Framable(FrameOf(c, us[k])) && Log(c, all) <= b
           && Collides(c, b, |Log(c, all)|, FrameOf(c, us[k])))
  }

  /** Whatever good log ended at `before`, `after` holds it and leading frames of the group. */
  ghost predicate KeepsLeading(c: Codec, before: Bytes, frontier: nat, us: seq<Bucket>, after: Bytes) {
    forall fs :: Lawful(c) && GoodLog(c, fs) && Frontier(fs) == frontier && before == Log(c, fs) ==>
      exists k :: Leading(c, fs, us, k, after)
  }

  /** A write of a group that stopped leaves the log and leading frames of the group. */
  lemma TornWriteKeepsLeading(c: Codec, b: Bytes, at: nat, frontier: nat, us: seq<Bucket>, b': Bytes)
    requires Ascending(us) && Acceptable(c, frontier, us) && TornWrite(b, at, GroupBytes(c, us), b')
    ensures KeepsLeading(c, b[..at], frontier, us, b')
  {
    hide Log, Lawful, Acceptable, Ascending, Leading, GroupBytes, Zero;
    forall fs | Lawful(c) && GoodLog(c, fs) && Frontier(fs) == frontier && b[..at] == Log(c, fs)
      ensures exists k :: Leading(c, fs, us, k, b')
    {
      var n :| 0 <= n <= |GroupBytes(c, us)| && at + n <= |b'| && b'[..at + n] == b[..at] + GroupBytes(c, us)[..n]
               && Zero(b', at + n, |b'|);
      var k := LeadingFrames(c, fs, us, n, b');
    }
  }

  lemma LeadingFrames(c: Codec, fs: seq<Frame>, us: seq<Bucket>, n: nat, b: Bytes) returns (k: nat)
    requires Lawful(c) && GoodLog(c, fs) && Ascending(us) && Acceptable(c, Frontier(fs), us)
    requires n <= |GroupBytes(c, us)| && |Log(c, fs)| + n <= |b|
    requires b[..|Log(c, fs)| + n] == Log(c, fs) + GroupBytes(c, us)[..n] && Zero(b, |Log(c, fs)| + n, |b|)
    ensures Leading(c, fs, us, k, b)
  {
    hide Log, Lawful, Zero, Acceptable, Ascending, ScansAs, Collides, Sound, Ordered;
    GroupIsGood(c, fs, us);
    AcceptableFramable(c, Frontier(fs), us);
    GroupIsLog(c, Frontier(fs), us);
    var gs := FramesOf(c, us);
    k := TornWriteIsRepaired(c, b, fs, gs, n);
    assert FramesOf(c, us[..k]) == gs[..k];
  }

  lemma GroupIsLog(c: Codec, frontier: nat, us: seq<Bucket>)
    requires Lawful(c) && Acceptable(c, frontier, us)
    ensures (forall i :: 0 <= i < |us| ==> Framable(FramesOf(c, us)[i])) && GroupBytes(c, us) == Log(c, FramesOf(c, us))
  {
    AcceptableFramable(c, frontier, us);
    assert forall i :: 0 <= i < |us| ==> FramesOf(c, us)[i] == FrameOf(c, us[i]);
  }

  lemma EmptyGroup(c: Codec, frontier: nat, us: seq<Bucket>)
    ensures GroupBytes(c, us[..0]) == [] && Acceptable(c, frontier, us[..0])
  {
  }

  lemma CrcFits(c: Codec, b: Bytes)
    requires Lawful(c)
    ensures c.crc(b) < TWO32
  {
  }

  lemma GroupGrows(c: Codec, frontier: nat, us: seq<Bucket>, i: nat, n: nat)
    requires Lawful(c) && i < n <= |us| && Acceptable(c, frontier, us[..i]) && us[i].epoch < TWO32
    ensures Refused(c, frontier, us[i]) ==> !Acceptable(c, frontier, us[..n])
    ensures !Refused(c, frontier, us[i]) ==>
              && Acceptable(c, frontier, us[..i + 1]) && Framable(FrameOf(c, us[i]))
              && GroupBytes(c, us[..i + 1]) == GroupBytes(c, us[..i]) + Encoded(c, FrameOf(c, us[i]))
  {
    hide Log, Encoded, Lawful;
    assert us[..n][i] == us[i] && us[..i + 1] == us[..i] + [us[i]];
    AcceptableFramable(c, frontier, us[..i]);
    if !Refused(c, frontier, us[i]) {
      var f := FrameOf(c, us[i]);
      assert FramesOf(c, us[..i + 1]) == FramesOf(c, us[..i]) + [f];
      LogAppend(c, FramesOf(c, us[..i]), f);
    }
  }

  function Units(k: nat, unit: nat): nat {
    k * unit
  }

  ghost predicate WholeUnits(n: nat, unit: nat) {
    exists k: nat :: Units(k, unit) == n
  }

  class Wal {
    const codec: Codec
    const capacity: nat
    var file: Bytes
    var state: WalState
    var writeOffset: nat
    var frontier: nat
    var initialisedSize: nat

    ghost predicate Valid()
      reads this
    {
      && Lawful(codec)
      && (state != Failed ==> initialisedSize == |file|)
      && (state == Ready ==> writeOffset <= |file| && Zero(file, writeOffset, |file|))
    }

    constructor (codec: Codec, capacity: nat, contents: Bytes)
      requires Lawful(codec)
      ensures Valid() && this.codec == codec && this.capacity == capacity && file == contents && state == Unscanned
    {
      this.codec := codec;
      this.capacity := capacity;
      file, state := contents, Unscanned;
      writeOffset, frontier, initialisedSize := 0, 0, |contents|;
    }

    // ----- Reading ----------------------------------------------------------------------------

    static method HeaderIsTornPrefix(header: Bytes) returns (torn: bool)
      requires |header| == HEADER
      ensures torn == TornHeader(header)
    {
      var expected := PutLe32(MAGIC) + PutLe16(VERSION) + PutLe16(FLAGS);
      assert expected == CONSTANTS;
      var matched := 0;
      while matched < 8 && header[matched] == expected[matched]
        invariant 0 <= matched <= 8 && header[..matched] == CONSTANTS[..matched]
      {
        matched := matched + 1;
      }
      if matched == 8 { return false; }
      TornFromMismatch(header, matched);
      var i := matched;
      while i < HEADER
        invariant matched <= i <= HEADER && Zero(header, matched, i)
      {
        if header[i] != 0 { return false; }
        i := i + 1;
      }
      return true;
    }

    /** The first mismatch decides: from there on an interrupted header is zero. */
    static lemma TornFromMismatch(header: Bytes, matched: nat)
      requires |header| == HEADER && matched < 8
      requires header[..matched] == CONSTANTS[..matched] && header[matched] != CONSTANTS[matched]
      ensures TornHeader(header) <==> Zero(header, matched, HEADER)
    {
      assert header[..8][matched] != CONSTANTS[matched];
      forall m | 0 <= m < 8 && header[..m] == CONSTANTS[..m] ensures m <= matched { }
    }

    method PreadAll(size: nat, at: nat) returns (ok: bool, out: Bytes)
      requires at + size <= |file|
      ensures ok ==> out == file[at..at + size]
    {
      if * { return false, []; }
      return true, file[at..at + size];
    }

    /** Is there a complete frame at this offset whose checksum holds? */
    method ProbeFrameAt(at: nat, spent: nat) returns (p: Probe, spent': nat)
      requires at <= |file|
      ensures spent <= spent'
      ensures p == FoundFrame ==> IntactAt(codec, file, at)
      ensures p == NoFrame ==> !IntactAt(codec, file, at)
    {
      hide GetLe32, GetLe16, LengthAt, EpochAt, StoredCrcAt, ConstantsAt;
      spent' := spent;
      if |file| - at < HEADER { return NoFrame, spent'; }
      if spent' + HEADER > PROBE_BUDGET { return Undecidable, spent'; }
      var ok, header := PreadAll(HEADER, at);
      if !ok { return ProbeIoError, spent'; }
      spent' := spent' + HEADER;
      HeaderInFile(at);
      if GetLe32(header, 0) != MAGIC || GetLe16(header, 4) != VERSION || GetLe16(header, 6) != FLAGS {
        return NoFrame, spent';
      }
      if GetLe32(header, 12) == 0 { return NoFrame, spent'; }
      var length := GetLe32(header, 8);
      if length == 0 || length > MAX_PAYLOAD { return NoFrame, spent'; }
      if at + HEADER + length > |file| { return NoFrame, spent'; }
      var covered := header[..16];
      var pos: nat, remaining: nat := at + HEADER, length;
      while remaining != 0
        invariant pos + remaining == at + HEADER + length && at + HEADER <= pos <= |file|
        invariant spent <= spent'
        invariant covered == file[at..at + 16] + file[at + HEADER..pos]
        decreases remaining
      {
        var size := Min(CHUNK, remaining);
        if spent' + size > PROBE_BUDGET { return Undecidable, spent'; }
        var read, chunk := PreadAll(size, pos);
        if !read { return ProbeIoError, spent'; }
        spent' := spent' + size;
        assert chunk == file[pos..pos + size];
        SliceGrows(file, at + HEADER, pos, pos + size);
        covered := covered + chunk;
        pos, remaining := pos + size, remaining - size;
      }
      return if codec.crc(covered) == GetLe32(header, 16) then FoundFrame else NoFrame, spent';
    }

    static lemma SliceGrows(b: Bytes, from: nat, mid: nat, to: nat)
      requires from <= mid <= to <= |b|
      ensures b[from..to] == b[from..mid] + b[mid..to]
    {
    }

    /** Fields read from a header buffer are the fields of the file. */
    lemma HeaderInFile(at: nat)
      requires at + HEADER <= |file|
      ensures var h := file[at..at + HEADER];
              && ((GetLe32(h, 0) == MAGIC && GetLe16(h, 4) == VERSION && GetLe16(h, 6) == FLAGS) <==>
                 ConstantsAt(file, at))
              && GetLe32(h, 8) == LengthAt(file, at)
              && GetLe32(h, 12) == EpochAt(file, at) && GetLe32(h, 16) == StoredCrcAt(file, at)
              && h[..16] == file[at..at + 16]
    {
    }

    /** Does an intact frame begin anywhere in (offset, searchEnd)? */
    method SearchForFrameAfter(offset: nat, searchEnd: nat) returns (p: Probe)
      requires offset <= searchEnd <= |file| && Zero(file, searchEnd, |file|)
      ensures p == FoundFrame ==> Survivor(codec, file, offset)
      ensures p == NoFrame ==> !Survivor(codec, file, offset)
      ensures p == Undecidable ==> BudgetRisk(file, offset)
    {
      hide IntactAt, MagicAfter;
      var spent: nat, at: nat := 0, offset + 1;
      while at < searchEnd
        invariant offset < at
        invariant MagicAfter(file, offset) || spent <= 4 * (at - offset - 1)
        invariant NoneWithin(offset, at)
        decreases searchEnd - at
      {
        var size := Min(CHUNK, searchEnd - at);
        if spent + size > PROBE_BUDGET { return Undecidable; }
        var read, chunk := PreadAll(size, at);
        if !read { return ProbeIoError; }
        spent := spent + size;
        p, spent := SearchChunk(offset, at, chunk, spent);
        if p != NoFrame { return p; }
        if size <= 3 {
          NoMagicAmongZeroes(at, searchEnd);
          return NoFrame;
        }
        at := at + (size - 3);
      }
      NoMagicAmongZeroes(at, searchEnd);
      return NoFrame;
    }

    ghost predicate NoneWithin(offset: nat, at: nat)
      reads this
    {
      forall j :: offset < j < at && j < |file| ==> !IntactAt(codec, file, j)
    }

    /** One chunk of the search: every place in it where a whole magic fits. */
    method SearchChunk(offset: nat, at: nat, chunk: Bytes, spent: nat) returns (p: Probe, spent': nat)
      requires offset < at && at + |chunk| <= |file| && chunk == file[at..at + |chunk|]
      requires NoneWithin(offset, at)
      ensures p == FoundFrame ==> Survivor(codec, file, offset)
      ensures p == NoFrame ==> NoneWithin(offset, if |chunk| < 3 then at else at + |chunk| - 3)
      ensures p == Undecidable ==> MagicAfter(file, offset)
      ensures spent <= spent' && (spent' == spent || MagicAfter(file, offset))
    {
      hide IntactAt;
      hide GetLe32, GetLe16, LengthAt, EpochAt, StoredCrcAt, ConstantsAt;
      spent' := spent;
      var i := 0;
      while i + 4 <= |chunk|
        invariant 0 <= i && (i == 0 || i + 3 <= |chunk|)
        invariant spent <= spent' && (spent' == spent || MagicAfter(file, offset))
        invariant NoneWithin(offset, at + i)
      {
        FieldInSlice32(file, at, at + |chunk|, i);
        if GetLe32(chunk, i) == MAGIC {
          assert MagicAfter(file, offset) by { assert GetLe32(file, at + i) == MAGIC; }
          p, spent' := ProbeFrameAt(at + i, spent');
          if p != NoFrame { return; }
        } else {
          MagicOrNothing(codec, file, at + i);
        }
        i := i + 1;
      }
      p := NoFrame;
    }

    lemma NoMagicAmongZeroes(at: nat, searchEnd: nat)
      requires searchEnd <= |file| && Zero(file, searchEnd, |file|) && at + 3 >= searchEnd
      ensures forall j :: at <= j < |file| ==> !IntactAt(codec, file, j)
    {
      forall j | at <= j < |file| ensures !IntactAt(codec, file, j) {
        if IntactAt(codec, file, j) { IntactHasMagic(codec, file, j); }
      }
    }

    method FindLastNonZero(from: nat, to: nat) returns (ok: bool, last: int)
      requires from <= to <= |file|
      ensures ok ==> from - 1 <= last < to && Zero(file, last + 1, to) && (last >= from ==> file[last] != 0)
    {
      ok, last := true, from - 1;
      var at := from;
      while at < to
        invariant from <= at && from - 1 <= last < at && last < to
        invariant Zero(file, last + 1, Min(at, to)) && (last >= from ==> file[last] != 0)
      {
        var size := Min(CHUNK, to - at);
        var read, chunk := PreadAll(size, at);
        if !read { return false, last; }
        var i := size;
        while i > 0
          invariant 0 <= i <= size && Zero(file, at + i, at + size)
        {
          if chunk[i - 1] != 0 {
            last := at + i - 1;
            break;
          }
          i := i - 1;
        }
        at := at + CHUNK;
      }
    }

    /** Cross covered frames by their headers alone. */
    method HopCoveredFrames(min: nat) returns (ok: bool, failed: bool, h: HopState)
      ensures !failed ==> Hop(file, HOP_START, min) == if ok then Some(h) else None
      ensures failed ==> !ok
    {
      hide GetLe32, GetLe16, ConstantsAt, LengthAt, EpochAt, TornHeader, Hop;
      h := HOP_START;
      while h.at < |file|
        invariant h.at <= |file| && Hop(file, h, min) == Hop(file, HOP_START, min)
        decreases |file| - h.at
      {
        HopUnfold(file, h, min);
        if |file| - h.at < HEADER { return false, false, h; }
        var read, header := PreadAll(HEADER, h.at);
        if !read { return false, true, h; }
        HeaderInFile(h.at);
        var length, epoch := GetLe32(header, 8), GetLe32(header, 12);
        if GetLe32(header, 0) != MAGIC || GetLe16(header, 4) != VERSION || GetLe16(header, 6) != FLAGS
            || length > MAX_PAYLOAD {
          var torn := HeaderIsTornPrefix(header);
          return torn, false, h;
        }
        var end := h.at + HEADER + length;
        if end > |file| { return false, false, h; }
        if h.have && epoch < h.frontier { return false, false, h; }
        if epoch == 0 { return false, false, h; }
        if epoch > min { break; }
        h := HopState(end, epoch, true, Some(h.at));
      }
      HopEnds(file, h, min);
      return true, false, h;
    }

    /** Where a scan starts reading, or a failed read. */
    method FindStart(min: nat) returns (failed: bool, cur: Cursor)
      ensures !failed ==> cur == Begin(codec, file, min)
    {
      if min == 0 { return false, START; }
      var ok, error, h := HopCoveredFrames(min);
      if error { return true, START; }
      if !ok { return false, START; }
      HopAdvances(file, HOP_START, min);
      if h.guard.Some? {
        var g := h.guard.value;
        var read, payload := PreadAll(h.at - (g + HEADER), g + HEADER);
        if !read { return true, START; }
        if codec.crc(file[g..g + 16] + payload) != GetLe32(file, g + 16) { return false, START; }
      }
      return false, Landed(h);
    }

    /** Read frame by frame until the file ends, a frame fails, or a read does. */
    method WalkFrom(start: Cursor, min: nat) returns (failed: bool, cur: Cursor, stop: Stop)
      requires start.at <= |file|
      ensures !failed ==> (cur, stop) == Walk(codec, file, start, min)
    {
      hide GetLe32, GetLe16, ConstantsAt, LengthAt, EpochAt, StoredCrcAt, TornHeader, Walk;
      cur := start;
      while cur.at < |file|
        invariant cur.at <= |file| && Walk(codec, file, cur, min) == Walk(codec, file, start, min)
        decreases |file| - cur.at
      {
        WalkOpens(codec, file, cur, min);
        if |file| - cur.at < HEADER { return false, cur, Torn(None); }
        var read, header := PreadAll(HEADER, cur.at);
        if !read { return true, cur, AtEnd; }
        HeaderInFile(cur.at);
        var length, epoch := GetLe32(header, 8), GetLe32(header, 12);
        if GetLe32(header, 0) != MAGIC || GetLe16(header, 4) != VERSION || GetLe16(header, 6) != FLAGS
            || length > MAX_PAYLOAD {
          var torn := HeaderIsTornPrefix(header);
          return false, cur, if torn then Torn(None) else Rejected;
        }
        var end := cur.at + HEADER + length;
        if end > |file| { return false, cur, Torn(None); }
        var got, payload := PreadAll(length, cur.at + HEADER);
        if !got { return true, cur, AtEnd; }
        if codec.crc(header[..16] + payload) != GetLe32(header, 16) { return false, cur, Torn(Some(end)); }
        if cur.have && epoch < cur.frontier { return false, cur, Rejected; }
        if epoch == 0 { return false, cur, Rejected; }
        if epoch <= min {
          cur := Cursor(end, epoch, true, cur.records);
        } else {
          var decoded := codec.decode(payload);
          if decoded.None? || decoded.value == [] { return false, cur, Rejected; }
          var agree := RecordsAgree(decoded.value, epoch);
          if !agree { return false, cur, Rejected; }
          cur := Cursor(end, epoch, true, cur.records + decoded.value);
        }
      }
      WalkEnds(codec, file, cur, min);
      return false, cur, AtEnd;
    }

    static method RecordsAgree(records: seq<LogRecord>, epoch: nat) returns (agree: bool)
      ensures agree == forall i :: 0 <= i < |records| ==> records[i].epoch == epoch
    {
      for i := 0 to |records|
        invariant forall j :: 0 <= j < i ==> records[j].epoch == epoch
      {
        if records[i].epoch != epoch { return false; }
      }
      return true;
    }

    // ----- Writing ----------------------------------------------------------------------------

    /** Zeroes over [from, to), which may stop anywhere. */
    method WriteZeroesAndSync(from: nat, to: nat) returns (ok: bool)
      requires from <= |file|
      modifies this`file
      ensures |file| >= |old(file)| && file[..from] == old(file)[..from]
      ensures ok ==> file == if to <= from then old(file)
              else old(file)[..from] + Zeroes(to - from) + old(file)[Min(to, |old(file)|)..]
      ensures Zero(old(file), from, |old(file)|) ==> Zero(file, from, |file|)
    {
      if to <= from { return true; }
      var n: nat :| n <= to - from;
      file := file[..from] + Zeroes(n) + file[Min(from + n, |file|)..];
      return n == to - from;
    }

    /** Make room for a group at the end of the log, a whole number of capacity units at a time. */
    method EnsureCapacityFor(end: nat, size: nat) returns (ok: bool)
      requires end <= |file| && initialisedSize == |file|
      modifies this`file, this`initialisedSize
      ensures old(file) <= file && Zero(file, |old(file)|, |file|)
      ensures ok ==> initialisedSize == |file|
      ensures ok && capacity != NO_PREALLOCATION ==> end + size <= |file| && capacity <= |file|
      ensures capacity == NO_PREALLOCATION ==> file == old(file)
      ensures ok && file != old(file) ==> WholeUnits(|file|, capacity) && |file| < Max(1, end + size) + capacity
    {
      if size > OFFSET_LIMIT - end { return false; }
      if capacity == NO_PREALLOCATION { return true; }
      var needed := end + size;
      if needed <= initialisedSize && initialisedSize >= capacity { return true; }
      var units := Max(1, needed / capacity + if needed % capacity != 0 then 1 else 0);
      if units > OFFSET_LIMIT / capacity { return false; }
      var target := units * capacity;
      UnitsCover(needed, capacity, units);
      UnitsFit(needed, capacity, units);
      if target <= initialisedSize { return true; }
      ok := WriteZeroesAndSync(initialisedSize, target);
      assert file[..|old(file)|] == old(file);
      if ok { initialisedSize := target; }
    }

    static lemma UnitsFit(needed: nat, unit: nat, units: nat)
      requires unit > 0 && units == Max(1, needed / unit + if needed % unit != 0 then 1 else 0)
      ensures units * unit < Max(1, needed) + unit && WholeUnits(units * unit, unit)
    {
      assert needed == needed / unit * unit + needed % unit;
      if units == 1 {
        assert units * unit == unit;
      } else {
        assert units * unit == needed / unit * unit + if needed % unit != 0 then unit else 0;
      }
      assert Units(units, unit) == units * unit;
    }

    static lemma UnitsCover(needed: nat, unit: nat, units: nat)
      requires unit > 0 && units >= 1 && units >= needed / unit + if needed % unit != 0 then 1 else 0
      ensures needed <= units * unit && unit <= units * unit
    {
      assert needed == needed / unit * unit + needed % unit;
    }

    /**
     * The startup scan. An accepting one returns what the specification accepts and leaves zeroes
     * from the end of the log on; a refusing one leaves the file as it was; a failed one may have
     * zeroed past the accepted frames, never within them. So whatever the outcome, every log the
     * file began with is still there.
     */
    method ScanAndRepair(min: nat) returns (r: ScanResult)
      requires Valid()
      modifies this`file, this`state, this`writeOffset, this`frontier, this`initialisedSize
      ensures Valid() && |file| >= |old(file)|
      ensures r.ScanOk? ==>
                && state == Ready && frontier == r.frontier && writeOffset <= |old(file)|
                && Scan(codec, old(file), min) == Accept(writeOffset, r.frontier, r.records, r.truncated)
                && file == Repaired(old(file), writeOffset, |file|)
      ensures !r.ScanOk? ==> state == Failed
      ensures r.Corrupt? ==> file == old(file)
      ensures r.Corrupt? ==>
                || Scan(codec, old(file), min) == Refuse
                || BudgetRisk(old(file), Walk(codec, old(file), Begin(codec, old(file), min), min).0.at)
      ensures var end := Walk(codec, old(file), Begin(codec, old(file), min), min).0.at; file[..end] == old(file)[..end]
      ensures KeepsLogs(codec, old(file), file)
      ensures old(state) == Failed ==> r.ScanIoError? && file == old(file)
    {
      hide Walk, Begin, Lawful, KeepsLogs;
      BytesBeforeEndKeepLogs(codec, file, min);
      if state == Failed { return ScanIoError; }
      ghost var b := file;
      ghost var end := Walk(codec, b, Begin(codec, b, min), min).0.at;
      var failed, start := FindStart(min);
      if failed { state := Failed; return ScanIoError; }
      var broken, cur, stop := WalkFrom(start, min);
      if broken { state := Failed; return ScanIoError; }
      if stop == Rejected { state := Failed; return Corrupt; }
      var truncated := false;
      if stop.Torn? {
        var repair := RepairTail(cur, stop, min);
        match repair
        case Left => {}
        case Erased => truncated := true;
        case Refusal => state := Failed; return Corrupt;
        case Broken => state := Failed; return ScanIoError;
      }
      assert file == Repaired(b, end, |b|);
      var ok := EnsureCapacityFor(cur.at, 0);
      assert file == Repaired(b, end, |file|);
      if !ok { state := Failed; return ScanIoError; }
      writeOffset, frontier, state := cur.at, cur.frontier, Ready;
      return ScanOk(cur.frontier, cur.records, truncated);
    }

    /** Settle whether an anomaly ends the log, and erase it if it does. */
    method RepairTail(cur: Cursor, stop: Stop, ghost min: nat) returns (r: Repair)
      requires stop.Torn? && cur.at <= |file|
      modifies this`file
      ensures |file| >= |old(file)| && file[..cur.at] == old(file)[..cur.at]
      ensures r == Left || r == Refusal ==> file == old(file)
      ensures r == Left ==> Judge(codec, file, cur, stop) == Accept(cur.at, cur.frontier, cur.records, false)
      ensures r == Left ==> file == Repaired(old(file), cur.at, |old(file)|)
      ensures r == Erased ==>
                && Judge(codec, old(file), cur, stop) == Accept(cur.at, cur.frontier, cur.records, true)
                && file == Repaired(old(file), cur.at, |old(file)|)
      ensures r == Refusal ==> Judge(codec, old(file), cur, stop) == Refuse || BudgetRisk(old(file), cur.at)
    {
      var ok, last := FindLastNonZero(cur.at, |file|);
      if !ok { return Broken; }
      if last < cur.at {
        assert file == Repaired(file, cur.at, |file|);
        return Left;
      }
      assert !Zero(file, cur.at, |file|);
      if stop.brokenEnd.Some? && last >= stop.brokenEnd.value { return Refusal; }
      var probe := SearchForFrameAfter(cur.at, last + 1);
      match probe
      case FoundFrame => return Refusal;
      case Undecidable => return Refusal;
      case ProbeIoError => return Broken;
      case NoFrame =>
        var zeroed := WriteZeroesAndSync(cur.at, last + 1);
        if !zeroed { return Broken; }
        assert file == Repaired(old(file), cur.at, |old(file)|);
        return Erased;
    }

    /**
     * Append one frame per due bucket as one group. A refused group changes nothing; a written one
     * stands right after the log, over what were zeroes; a failed write leaves some prefix of it,
     * from which a scan returns leading frames of the group.
     */
    method AppendGroup(buckets: seq<Bucket>, target: nat) returns (r: AppendResult)
      requires Valid() && state == Ready
      requires Ascending(buckets) && forall i :: 0 <= i < |buckets| ==> buckets[i].epoch < TWO32
      modifies this`file, this`state, this`writeOffset, this`frontier, this`initialisedSize
      ensures Valid()
      ensures var due := buckets[..Due(buckets, target)];
              (r == Invalid || r == Overflow) <==> !Acceptable(codec, old(frontier), due)
      ensures r == Invalid || r == Overflow ==>
                state == Ready && file == old(file) && writeOffset == old(writeOffset) && frontier == old(frontier)
      ensures r == Appended ==>
                var due := buckets[..Due(buckets, target)];
                && state == Ready && file[..writeOffset] == old(file)[..old(writeOffset)] + GroupBytes(codec, due)
                && frontier == (if due == [] then old(frontier) else due[|due| - 1].epoch)
                && ExtendsLogs(codec, old(file)[..old(writeOffset)], old(frontier), due, file[..writeOffset])
      ensures r == AppendIoError ==>
                var due := buckets[..Due(buckets, target)];
                state == Failed && TornWrite(old(file), old(writeOffset), GroupBytes(codec, due), file)
      ensures r == AppendIoError ==>
                KeepsLeading(codec, old(file)[..old(writeOffset)], old(frontier), buckets[..Due(buckets, target)], file)
    {
      hide Lawful, Acceptable, GroupBytes, ExtendsLogs, TornWrite, KeepsLeading;
      ghost var due := buckets[..Due(buckets, target)];
      var verdict, group, last := EncodeGroup(buckets, target);
      if verdict != Appended { return verdict; }
      ghost var b, at := file, writeOffset;
      GroupExtends(codec, b[..at], frontier, due);
      if group == [] {
        assert b[..at] + group == b[..at];
        return Appended;
      }
      var room := EnsureCapacityFor(writeOffset, |group|);
      assert file[..at] == b[..at];
      if !room {
        state := Failed;
        TornAfter(b, at, group, file, 0);
        TornWriteKeepsLeading(codec, b, at, frontier, due, file);
        return AppendIoError;
      }
      var n := WriteAllAt(group, writeOffset);
      assert file[..at + n] == b[..at] + group[..n];
      var synced := *;
      if n < |group| || !synced {
        state := Failed;
        TornAfter(b, at, group, file, n);
        TornWriteKeepsLeading(codec, b, at, frontier, due, file);
        return AppendIoError;
      }
      writeOffset := writeOffset + |group|;
      initialisedSize := Max(initialisedSize, writeOffset);
      frontier := last;
      return Appended;
    }

    /** A pwrite over zeroes that may stop after any number of bytes. */
    method WriteAllAt(data: Bytes, at: nat) returns (n: nat)
      requires at <= |file| && Zero(file, at, |file|)
      modifies this`file
      ensures n <= |data| && |file| == Max(|old(file)|, at + n)
      ensures file[..at + n] == old(file)[..at] + data[..n] && Zero(file, at + n, |file|)
    {
      n :| n <= |data|;
      file := file[..at] + data[..n] + file[Min(at + n, |file|)..];
    }

    /** The frames of the due buckets, or why one of them is refused. */
    method EncodeGroup(buckets: seq<Bucket>, target: nat) returns (r: AppendResult, group: Bytes, last: nat)
      requires Lawful(codec) && forall i :: 0 <= i < |buckets| ==> buckets[i].epoch < TWO32
      ensures r in {Appended, Invalid, Overflow}
      ensures var due := buckets[..Due(buckets, target)];
              && (r == Appended <==> Acceptable(codec, frontier, due))
              && (r == Appended ==>
                    && group == GroupBytes(codec, due) && (group == [] <==> due == [])
                    && last == if due == [] then frontier else due[|due| - 1].epoch)
    {
      hide Lawful, GroupBytes, Acceptable;
      r, group, last := Appended, [], frontier;
      EmptyGroup(codec, frontier, buckets);
      var i := 0;
      while i < |buckets|
        invariant 0 <= i <= Due(buckets, target)
        invariant Acceptable(codec, frontier, buckets[..i])
        invariant group == GroupBytes(codec, buckets[..i])
        invariant |group| >= i && (i == 0 ==> group == [])
        invariant last == if i == 0 then frontier else buckets[i - 1].epoch
      {
        var u := buckets[i];
        if u.epoch > target { break; }
        GroupGrows(codec, frontier, buckets, i, Due(buckets, target));
        if u.records == [] || u.epoch == 0 { return Invalid, [], 0; }
        if u.epoch < frontier { return Invalid, [], 0; }
        var agree := RecordsAgree(u.records, u.epoch);
        if !agree { return Invalid, [], 0; }
        last := u.epoch;
        var payload := codec.encode(u.records);
        if |payload| > MAX_PAYLOAD { return Overflow, [], 0; }
        var prefix := PutLe32(MAGIC) + PutLe16(VERSION) + PutLe16(FLAGS) + PutLe32(|payload|) + PutLe32(u.epoch);
        CrcFits(codec, prefix + payload);
        group := group + (prefix + PutLe32(codec.crc(prefix + payload)) + payload);
        i := i + 1;
      }
    }
  }

  datatype Repair = Left | Erased | Refusal | Broken
}
