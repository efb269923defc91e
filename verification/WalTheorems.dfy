/** The results about scanning: what was appended survives, and repair is safe and idempotent. */
module WalTheorems {
  import opened Basics
  import opened LogRecords
  import opened WalFormat
  import opened WalScan

  // ----- Appended frames are found again ------------------------------------------------------

  ghost function After(c: Codec, fs: seq<Frame>, min: nat): Cursor
    requires Lawful(c) && GoodLog(c, fs)
  {
    Cursor(|Log(c, fs)|, Frontier(fs), fs != [], RecordsAbove(c, fs, min))
  }

  ghost function HopAfter(c: Codec, fs: seq<Frame>): HopState
    requires Lawful(c) && GoodLog(c, fs)
  {
    HopState(|Log(c, fs)|, Frontier(fs), fs != [], if fs == [] then None else Some(|Log(c, fs[..|fs| - 1])|))
  }

  /** Frame n of a log stands right after the first n frames. */
  lemma {:induction false} FrameStands(c: Codec, fs: seq<Frame>, b: Bytes, n: nat)
    requires Lawful(c) && GoodLog(c, fs) && Log(c, fs) <= b && n < |fs|
    ensures Log(c, fs[..n + 1]) == Log(c, fs[..n]) + Encoded(c, fs[n]) <= b
    ensures WholeAt(b, |Log(c, fs[..n])|) && ChecksumAt(c, b, |Log(c, fs[..n])|)
    ensures FrameAt(b, |Log(c, fs[..n])|) == fs[n] && EndAt(b, |Log(c, fs[..n])|) == |Log(c, fs[..n + 1])|
  {
    hide Lawful, Encoded, WholeAt, ChecksumAt, FrameAt, EndAt, Log, Ordered;
    assert fs == fs[..n + 1] + fs[n + 1..];
    LogConcat(c, fs[..n + 1], fs[n + 1..]);
    assert fs[..n + 1] == fs[..n] + [fs[n]];
    LogAppend(c, fs[..n], fs[n]);
    var at := |Log(c, fs[..n])|;
    assert b[..|Log(c, fs[..n + 1])|] == Log(c, fs[..n + 1]);
    assert b[at..at + |Encoded(c, fs[n])|] == Encoded(c, fs[n]);
    EncodedIsRead(c, fs[n], b, at);
  }

  /** The walk takes any sound frame that does not step back in time. */
  lemma LookTakes(c: Codec, b: Bytes, cur: Cursor, min: nat)
    requires cur.at < |b| && WholeAt(b, cur.at) && ChecksumAt(c, b, cur.at) && Sound(c, FrameAt(b, cur.at))
    requires cur.have ==> cur.frontier <= FrameAt(b, cur.at).epoch
    ensures var f := FrameAt(b, cur.at);
            Look(c, b, cur, min)
            == Advance(Cursor(EndAt(b, cur.at), f.epoch, true,
                              cur.records + if f.epoch <= min then [] else RecordsOf(c, f)))
  {
  }

  lemma LookHopTakes(b: Bytes, h: HopState, min: nat)
    requires h.at < |b| && WholeAt(b, h.at) && FrameAt(b, h.at).epoch != 0
    requires h.have ==> h.frontier <= FrameAt(b, h.at).epoch
    ensures LookHop(b, h, min)
            == if FrameAt(b, h.at).epoch > min then Arrived
               else Hopped(HopState(EndAt(b, h.at), FrameAt(b, h.at).epoch, true, Some(h.at)))
  {
  }

  lemma {:induction false} WalkFrames(c: Codec, b: Bytes, fs: seq<Frame>, n: nat, min: nat)
    requires Lawful(c) && GoodLog(c, fs) && Log(c, fs) <= b && n <= |fs|
    requires |Log(c, fs[..n])| <= |b|
    ensures Walk(c, b, After(c, fs[..n], min), min) == Walk(c, b, After(c, fs, min), min)
    decreases |fs| - n
  {
    hide Lawful, Encoded, WholeAt, ChecksumAt, FrameAt, EndAt, Log, Sound, Look, RecordsAbove;
    if n == |fs| {
      assert fs[..n] == fs;
    } else {
      FrameStands(c, fs, b, n);
      assert fs[..n + 1] == fs[..n] + [fs[n]];
      RecordsAppend(c, fs[..n], fs[n], min);
      assert Sound(c, fs[n]) && (n > 0 ==> fs[n - 1].epoch <= fs[n].epoch);
      LookTakes(c, b, After(c, fs[..n], min), min);
      assert Look(c, b, After(c, fs[..n], min), min) == Advance(After(c, fs[..n + 1], min));
      WalkFrames(c, b, fs, n + 1, min);
    }
  }

  /** How many leading frames are at or below an epoch. */
  function Covered(fs: seq<Frame>, min: nat): (k: nat)
    ensures k <= |fs| && (k < |fs| ==> fs[k].epoch > min)
    ensures forall i :: 0 <= i < k ==> fs[i].epoch <= min
  {
    if fs == [] || fs[0].epoch > min then 0 else 1 + Covered(fs[1..], min)
  }

  lemma {:induction false} HopFrames(c: Codec, b: Bytes, fs: seq<Frame>, n: nat, k: nat, min: nat)
    requires Lawful(c) && GoodLog(c, fs) && Log(c, fs) <= b && n <= k <= |fs|
    requires forall i :: 0 <= i < k ==> fs[i].epoch <= min
    requires |Log(c, fs[..n])| <= |b| && |Log(c, fs[..k])| <= |b|
    ensures Hop(b, HopAfter(c, fs[..n]), min) == Hop(b, HopAfter(c, fs[..k]), min)
    decreases k - n
  {
    hide Lawful, Encoded, WholeAt, ChecksumAt, FrameAt, EndAt, Log, LookHop;
    if n < k {
      FrameStands(c, fs, b, n);
      assert fs[..n + 1] == fs[..n] + [fs[n]] && fs[..n + 1][..n] == fs[..n];
      assert Sound(c, fs[n]) && (n > 0 ==> fs[n - 1].epoch <= fs[n].epoch);
      LookHopTakes(b, HopAfter(c, fs[..n]), min);
      assert LookHop(b, HopAfter(c, fs[..n]), min) == Hopped(HopAfter(c, fs[..n + 1]));
      HopFrames(c, b, fs, n + 1, k, min);
    }
  }

  lemma {:induction false} CoveredHasNoRecords(c: Codec, fs: seq<Frame>, min: nat)
    requires forall i :: 0 <= i < |fs| ==> fs[i].epoch <= min
    ensures RecordsAbove(c, fs, min) == []
  {
    if fs != [] { CoveredHasNoRecords(c, fs[..|fs| - 1], min); }
  }

  lemma LogPrefix(c: Codec, fs: seq<Frame>, n: nat)
    requires Lawful(c) && GoodLog(c, fs) && n <= |fs|
    ensures Log(c, fs[..n]) <= Log(c, fs)
  {
    assert fs == fs[..n] + fs[n..];
    LogConcat(c, fs[..n], fs[n..]);
  }

  lemma {:induction false} HopMoves(b: Bytes, h: HopState, min: nat)
    requires h.at <= |b| && (!h.have ==> h.frontier == 0)
    ensures var r := Hop(b, h, min);
            r.Some? ==> h.at <= r.value.at && h.frontier <= r.value.frontier && (!r.value.have ==>
              r.value.frontier == 0)
    decreases |b| - h.at
  {
    if h.at < |b| && LookHop(b, h, min).Hopped? { HopMoves(b, LookHop(b, h, min).next, min); }
  }

  lemma {:induction false} WalkMoves(c: Codec, b: Bytes, cur: Cursor, min: nat)
    requires cur.at <= |b| && (!cur.have ==> cur.frontier == 0)
    ensures var r := Walk(c, b, cur, min).0;
            cur.at <= r.at && cur.frontier <= r.frontier && cur.records <= r.records
    decreases |b| - cur.at
  {
    if cur.at < |b| && Look(c, b, cur, min).Advance? { WalkMoves(c, b, Look(c, b, cur, min).cursor, min); }
  }

  /** A scan of a log passes every frame of it: by walking, or by hopping to or beyond its end. */
  lemma BeginPassesLog(c: Codec, b: Bytes, fs: seq<Frame>, min: nat)
    requires Lawful(c) && GoodLog(c, fs) && Log(c, fs) <= b
    ensures var cur := Begin(c, b, min);
            || Walk(c, b, cur, min) == Walk(c, b, After(c, fs, min), min)
            || (&& RecordsAbove(c, fs, min) == [] && |Log(c, fs)| <= cur.at && Frontier(fs) <= cur.frontier
                && (!cur.have ==> cur.frontier == 0) && !Zero(b, |Log(c, fs)|, |b|))
  {
    assert fs[..0] == [] && After(c, fs[..0], min) == START;
    WalkFrames(c, b, fs, 0, min);
    if min != 0 {
      var k := Covered(fs, min);
      LogPrefix(c, fs, k);
      assert HopAfter(c, fs[..0]) == HOP_START;
      HopFrames(c, b, fs, 0, k, min);
      HopLands(c, b, fs, k, min);
    }
  }

  /** The last hopped frame of an intact log satisfies its checksum. */
  lemma GuardStands(c: Codec, b: Bytes, fs: seq<Frame>, k: nat)
    requires Lawful(c) && GoodLog(c, fs) && Log(c, fs) <= b && k <= |fs|
    ensures GuardHolds(c, b, HopAfter(c, fs[..k]).guard)
  {
    hide Lawful, Encoded, WholeAt, ChecksumAt, FrameAt, EndAt, Log;
    if k > 0 {
      FrameStands(c, fs, b, k - 1);
      assert fs[..k][..k - 1] == fs[..k - 1];
    }
  }

  lemma HopLands(c: Codec, b: Bytes, fs: seq<Frame>, k: nat, min: nat)
    requires Lawful(c) && GoodLog(c, fs) && Log(c, fs) <= b && k == Covered(fs, min) && min != 0
    requires Log(c, fs[..k]) <= b
    requires Hop(b, HOP_START, min) == Hop(b, HopAfter(c, fs[..k]), min)
    requires Walk(c, b, START, min) == Walk(c, b, After(c, fs, min), min)
    ensures var cur := Begin(c, b, min);
            || Walk(c, b, cur, min) == Walk(c, b, After(c, fs, min), min)
            || (&& RecordsAbove(c, fs, min) == [] && |Log(c, fs)| <= cur.at && Frontier(fs) <= cur.frontier
                && (!cur.have ==> cur.frontier == 0) && !Zero(b, |Log(c, fs)|, |b|))
  {
    hide Lawful, Log, Walk, RecordsAbove, Hop, Begin, HopAfter, After, Zero, Sound, Ordered;
    if k < |fs| {
      HopLandsInside(c, b, fs, k, min);
    } else {
      assert fs[..k] == fs;
      HopLandsPast(c, b, fs, min);
    }
  }

  /** A hop over every frame of the log: it stops right after, or there is something beyond. */
  lemma HopLandsPast(c: Codec, b: Bytes, fs: seq<Frame>, min: nat)
    requires Lawful(c) && GoodLog(c, fs) && Log(c, fs) <= b && |fs| == Covered(fs, min) && min != 0
    requires Hop(b, HOP_START, min) == Hop(b, HopAfter(c, fs), min)
    requires Walk(c, b, START, min) == Walk(c, b, After(c, fs, min), min)
    ensures var cur := Begin(c, b, min);
            || Walk(c, b, cur, min) == Walk(c, b, After(c, fs, min), min)
            || (&& RecordsAbove(c, fs, min) == [] && |Log(c, fs)| <= cur.at && Frontier(fs) <= cur.frontier
                && (!cur.have ==> cur.frontier == 0) && !Zero(b, |Log(c, fs)|, |b|))
  {
    hide Lawful, WholeAt, ChecksumAt, Log, Walk, RecordsAbove, Hop, Ordered, Encoded;
    var h := HopAfter(c, fs);
    assert fs[..|fs|] == fs;
    CoveredHasNoRecords(c, fs, min);
    assert Landed(h) == After(c, fs, min);
    HopMoves(b, h, min);
    if Zero(b, |Log(c, fs)|, |b|) { HopStopsAtZeroes(b, h, min); }
  }

  /** Zeroes read as an interrupted header write of no bytes at all. */
  lemma ZeroesAreTorn(b: Bytes, at: nat)
    requires at + HEADER <= |b| && Zero(b, at, |b|)
    ensures !ConstantsAt(b, at) && TornHeader(b[at..at + HEADER])
  {
    var h := b[at..at + HEADER];
    ConstantsAreBytes(b, at);
    assert h[..8][0] == 0 && CONSTANTS[0] != 0;
    assert h[..0] == CONSTANTS[..0] && Zero(h, 0, HEADER);
  }

  lemma HopStopsAtZeroes(b: Bytes, h: HopState, min: nat)
    requires h.at <= |b| && Zero(b, h.at, |b|)
    ensures Hop(b, h, min) == None || Hop(b, h, min) == Some(h)
    ensures h.at == |b| || h.at + HEADER <= |b| ==> Hop(b, h, min) == Some(h)
  {
    if h.at + HEADER <= |b| { ZeroesAreTorn(b, h.at); }
  }

  lemma WalkStopsAtZeroes(c: Codec, b: Bytes, cur: Cursor, min: nat)
    requires cur.at <= |b| && Zero(b, cur.at, |b|)
    ensures Walk(c, b, cur, min).0 == cur
    ensures Walk(c, b, cur, min).1 == if cur.at == |b| then AtEnd else Torn(None)
  {
    if cur.at + HEADER <= |b| { ZeroesAreTorn(b, cur.at); }
  }

  /**
   * Whatever follows an appended log, the walk passes it, whether the scan then accepts, refuses or
   * fails. An accepting scan returns its records first, ends at or beyond it and reports a frontier
   * at least as high, and the repaired file begins with it.
   */
  lemma AppendedFramesSurvive(c: Codec, b: Bytes, fs: seq<Frame>, min: nat)
    requires Lawful(c) && GoodLog(c, fs) && Log(c, fs) <= b
    ensures |Log(c, fs)| <= Walk(c, b, Begin(c, b, min), min).0.at
    ensures var v := Scan(c, b, min);
            v.Accept? ==>
              && |Log(c, fs)| <= v.end && Frontier(fs) <= v.frontier && RecordsAbove(c, fs, min) <= v.records
              && forall size :: size >= v.end ==> Log(c, fs) <= Repaired(b, v.end, size)
  {
    hide Lawful, Encoded, Walk, Begin, RecordsAbove, Log, Survivor;
    BeginPassesLog(c, b, fs, min);
    var cur := Begin(c, b, min);
    if Walk(c, b, cur, min) == Walk(c, b, After(c, fs, min), min) {
      WalkMoves(c, b, After(c, fs, min), min);
    } else {
      WalkMoves(c, b, cur, min);
    }
    var v := Scan(c, b, min);
    if v.Accept? {
      forall size | size >= v.end ensures Log(c, fs) <= Repaired(b, v.end, size) {
        assert Repaired(b, v.end, size)[..|Log(c, fs)|] == b[..v.end][..|Log(c, fs)|] == Log(c, fs);
      }
    }
  }

  /** Every log a file begins with is still there. */
  ghost predicate KeepsLogs(c: Codec, b: Bytes, b': Bytes)
    requires Lawful(c)
  {
    forall fs :: GoodLog(c, fs) && Log(c, fs) <= b ==> Log(c, fs) <= b'
  }

  /** Whoever leaves the bytes before the end of the walk alone keeps every log. */
  lemma BytesBeforeEndKeepLogs(c: Codec, b: Bytes, min: nat)
    requires Lawful(c)
    ensures var end := Walk(c, b, Begin(c, b, min), min).0.at;
            forall b' :: end <= |b'| && b'[..end] == b[..end] ==> KeepsLogs(c, b, b')
  {
    hide Walk, Begin, Log;
    var end := Walk(c, b, Begin(c, b, min), min).0.at;
    forall b' | end <= |b'| && b'[..end] == b[..end] ensures KeepsLogs(c, b, b') {
      forall fs | GoodLog(c, fs) && Log(c, fs) <= b ensures Log(c, fs) <= b' {
        AppendedFramesSurvive(c, b, fs, min);
        var n := |Log(c, fs)|;
        assert b'[..n] == b'[..end][..n] == b[..end][..n] == b[..n] == Log(c, fs);
      }
    }
  }

  /** With nothing but zeroes after it, an appended log is returned exactly. */
  lemma AppendedLogIsExact(c: Codec, b: Bytes, fs: seq<Frame>, min: nat)
    requires Lawful(c) && GoodLog(c, fs) && Log(c, fs) <= b && Zero(b, |Log(c, fs)|, |b|)
    ensures Scan(c, b, min) == Accept(|Log(c, fs)|, Frontier(fs), RecordsAbove(c, fs, min), false)
  {
    BeginPassesLog(c, b, fs, min);
    WalkStopsAtZeroes(c, b, After(c, fs, min), min);
  }

  /**
   * On an intact log the scan that hops over covered frames agrees with the full one: same end,
   * same frontier, and exactly the records above the minimum epoch.
   */
  lemma HopAgreesWithFullScan(c: Codec, b: Bytes, fs: seq<Frame>, min: nat)
    requires Lawful(c) && GoodLog(c, fs) && Log(c, fs) <= b && Zero(b, |Log(c, fs)|, |b|)
    ensures var full, hop := Scan(c, b, 0), Scan(c, b, min);
            && full.Accept? && hop.Accept? && hop.end == full.end && hop.frontier == full.frontier
            && hop.records == Above(full.records, min)
  {
    AppendedLogIsExact(c, b, fs, 0);
    AppendedLogIsExact(c, b, fs, min);
    RecordsFilter(c, fs, min);
  }

  /** The records above an epoch: an independent statement of what a covered frame leaves out. */
  function Above(rs: seq<LogRecord>, min: nat): seq<LogRecord> {
    if rs == [] then []
    else if rs[|rs| - 1].epoch > min then Above(rs[..|rs| - 1], min) + [rs[|rs| - 1]]
    else Above(rs[..|rs| - 1], min)
  }

  lemma {:induction false} AboveConcat(rs: seq<LogRecord>, ts: seq<LogRecord>, min: nat)
    ensures Above(rs + ts, min) == Above(rs, min) + Above(ts, min)
  {
    if ts == [] {
      assert rs + ts == rs;
    } else {
      var n := |ts| - 1;
      AboveConcat(rs, ts[..n], min);
      assert (rs + ts)[..|rs + ts| - 1] == rs + ts[..n] && (rs + ts)[|rs + ts| - 1] == ts[n];
    }
  }

  lemma {:induction false} AboveUniform(rs: seq<LogRecord>, epoch: nat, min: nat)
    requires forall i :: 0 <= i < |rs| ==> rs[i].epoch == epoch
    ensures Above(rs, min) == if epoch > min then rs else []
  {
    if rs != [] { AboveUniform(rs[..|rs| - 1], epoch, min); }
  }

  lemma {:induction false} RecordsFilter(c: Codec, fs: seq<Frame>, min: nat)
    requires GoodLog(c, fs)
    ensures RecordsAbove(c, fs, min) == Above(RecordsAbove(c, fs, 0), min)
  {
    if fs != [] {
      var n := |fs| - 1;
      RecordsFilter(c, fs[..n], min);
      assert Sound(c, fs[n]);
      AboveUniform(RecordsOf(c, fs[n]), fs[n].epoch, min);
      AboveConcat(RecordsAbove(c, fs[..n], 0), RecordsOf(c, fs[n]), min);
    }
  }

  // ----- What an accepting scan accepted is a log ------------------------------------------------

  /** Conversely, whatever the walk takes is such a frame. */
  lemma LookTook(c: Codec, b: Bytes, cur: Cursor)
    requires cur.at < |b| && Look(c, b, cur, 0).Advance?
    ensures WholeAt(b, cur.at) && ChecksumAt(c, b, cur.at) && Sound(c, FrameAt(b, cur.at))
    ensures cur.have ==> cur.frontier <= FrameAt(b, cur.at).epoch
    ensures Look(c, b, cur, 0).cursor
            == Cursor(EndAt(b, cur.at), FrameAt(b, cur.at).epoch, true, cur.records + RecordsOf(c, FrameAt(b, cur.at)))
  {
  }

  lemma FrameExtendsLog(c: Codec, b: Bytes, fs: seq<Frame>)
    requires Lawful(c) && GoodLog(c, fs) && Log(c, fs) < b
    requires WholeAt(b, |Log(c, fs)|) && ChecksumAt(c, b, |Log(c, fs)|) && Sound(c, FrameAt(b, |Log(c, fs)|))
    requires Frontier(fs) <= FrameAt(b, |Log(c, fs)|).epoch
    ensures var f := FrameAt(b, |Log(c, fs)|);
            GoodLog(c, fs + [f]) && Log(c, fs + [f]) <= b && EndAt(b, |Log(c, fs)|) == |Log(c, fs + [f])|
  {
    hide Lawful, Encoded, WholeAt, ChecksumAt, FrameAt, Log, Sound;
    SoundIsFramable(c, fs);
    var at := |Log(c, fs)|;
    var f := FrameAt(b, at);
    ReadIsEncoded(c, b, at);
    LogAppend(c, fs, f);
    assert b[..EndAt(b, at)] == b[..at] + b[at..EndAt(b, at)];
    assert Ordered(fs + [f]);
  }

  lemma SoundIsFramable(c: Codec, fs: seq<Frame>)
    requires GoodLog(c, fs)
    ensures forall i :: 0 <= i < |fs| ==> Framable(fs[i])
  {
  }

  lemma {:induction false} WalkIsLog(c: Codec, b: Bytes, cur: Cursor, fs: seq<Frame>) returns (gs: seq<Frame>)
    requires Lawful(c) && GoodLog(c, fs) && Log(c, fs) <= b && cur == After(c, fs, 0)
    ensures GoodLog(c, gs) && Log(c, gs) <= b && Walk(c, b, cur, 0).0 == After(c, gs, 0)
    decreases |b| - cur.at
  {
    hide Lawful, Encoded, WholeAt, ChecksumAt, FrameAt, Log, GoodLog, Look, EndAt, RecordsAbove, Sound;
    gs := fs;
    if cur.at < |b| && Look(c, b, cur, 0).Advance? {
      LookTook(c, b, cur);
      var f := FrameAt(b, cur.at);
      FrameExtendsLog(c, b, fs);
      RecordsAppend(c, fs, f, 0);
      SoundEpoch(c, f);
      assert Look(c, b, cur, 0).cursor == After(c, fs + [f], 0);
      gs := WalkIsLog(c, b, Look(c, b, cur, 0).cursor, fs + [f]);
    }
  }

  lemma SoundEpoch(c: Codec, f: Frame)
    requires Sound(c, f)
    ensures f.epoch > 0
  {
  }

  /** An accepted file begins with a well-formed log, and the scan returned exactly that log. */
  lemma AcceptedIsLog(c: Codec, b: Bytes) returns (fs: seq<Frame>)
    requires Lawful(c) && Scan(c, b, 0).Accept?
    ensures var v := Scan(c, b, 0);
            && GoodLog(c, fs) && b[..v.end] == Log(c, fs)
            && v.frontier == Frontier(fs) && v.records == RecordsAbove(c, fs, 0)
  {
    fs := WalkIsLog(c, b, START, []);
  }

  // ----- Repair is idempotent ---------------------------------------------------------------------

  /** b' keeps b up to `end` and is zero from there on. */
  predicate Cleaned(b: Bytes, b': Bytes, end: nat) {
    end <= |b| && end <= |b'| && b'[..end] == b[..end] && Zero(b', end, |b'|)
  }

  /** A frame that ends before the cleaned part reads the same in both files. */
  lemma SameFrame(c: Codec, b: Bytes, b': Bytes, end: nat, at: nat)
    requires Cleaned(b, b', end) && WholeAt(b, at) && EndAt(b, at) <= end
    ensures WholeAt(b', at) && EndAt(b', at) == EndAt(b, at) && FrameAt(b', at) == FrameAt(b, at)
    ensures ChecksumAt(c, b', at) == ChecksumAt(c, b, at)
  {
    SameHeader(b, b', end, at);
    var n := EndAt(b, at);
    assert b'[at..at + 16] == b'[..end][at..at + 16] == b[..end][at..at + 16] == b[at..at + 16];
    assert b'[at + HEADER..n] == b'[..end][at + HEADER..n] == b[..end][at + HEADER..n] == b[at + HEADER..n];
  }

  lemma SameHeader(b: Bytes, b': Bytes, end: nat, at: nat)
    requires Cleaned(b, b', end) && at + HEADER <= end
    ensures ConstantsAt(b', at) == ConstantsAt(b, at) && LengthAt(b', at) == LengthAt(b, at)
    ensures EpochAt(b', at) == EpochAt(b, at) && StoredCrcAt(b', at) == StoredCrcAt(b, at)
  {
    forall i | at <= i < at + HEADER ensures b'[i] == b[i] {
      assert b'[..end][i] == b[..end][i];
    }
  }

  lemma LookAgain(c: Codec, b: Bytes, b': Bytes, end: nat, cur: Cursor, min: nat)
    requires Cleaned(b, b', end) && cur.at < end
    requires Look(c, b, cur, min).Advance? && Look(c, b, cur, min).cursor.at <= end
    ensures WholeAt(b, cur.at) && EndAt(b, cur.at) == Look(c, b, cur, min).cursor.at
    ensures Look(c, b', cur, min) == Look(c, b, cur, min)
  {
    hide ChecksumAt, FrameAt, Sound;
    FrameEpoch(b, cur.at);
    SameFrame(c, b, b', end, cur.at);
    FrameEpoch(b', cur.at);
  }

  lemma FrameEpoch(b: Bytes, at: nat)
    ensures WholeAt(b, at) ==> FrameAt(b, at).epoch == EpochAt(b, at)
  {
  }

  lemma {:induction false} WalkAgain(c: Codec, b: Bytes, b': Bytes, cur: Cursor, min: nat)
    requires cur.at <= |b| && Cleaned(b, b', Walk(c, b, cur, min).0.at)
    ensures Walk(c, b', cur, min) == (Walk(c, b, cur, min).0,
                                          if Walk(c, b, cur, min).0.at == |b'| then AtEnd else Torn(None))
    decreases |b| - cur.at
  {
    hide Look, WholeAt, EndAt, ChecksumAt;
    var end := Walk(c, b, cur, min).0.at;
    if cur.at < |b| && Look(c, b, cur, min).Advance? {
      var next := Look(c, b, cur, min).cursor;
      assert Walk(c, b, cur, min) == Walk(c, b, next, min);
      LookAgain(c, b, b', end, cur, min);
      WalkAgain(c, b, b', next, min);
    } else {
      WalkStopsAtZeroes(c, b', cur, min);
    }
  }

  lemma LookHopAgain(c: Codec, b: Bytes, b': Bytes, end: nat, h: HopState, min: nat)
    requires Cleaned(b, b', end) && h.at < end && WholeAt(b, h.at) && EndAt(b, h.at) <= end
    ensures LookHop(b', h, min) == LookHop(b, h, min)
  {
    hide ChecksumAt, FrameAt;
    SameFrame(c, b, b', end, h.at);
    FrameEpoch(b, h.at);
    FrameEpoch(b', h.at);
  }

  lemma {:induction false} HopAgain(c: Codec, b: Bytes, b': Bytes, end: nat, h: HopState, min: nat)
    requires h.at <= end && Cleaned(b, b', end) && Hop(b, h, min).Some?
    requires var r := Hop(b, h, min).value;
             || (r.at == end && (|b'| == end || end + HEADER <= |b'|))
             || (r.at < end && WholeAt(b, r.at) && EndAt(b, r.at) <= end)
    ensures Hop(b', h, min) == Hop(b, h, min)
    decreases |b| - h.at
  {
    hide LookHop, WholeAt, EndAt;
    if h.at == end {
      HopStopsAtZeroes(b', h, min);
      HopAdvances(b, h, min);
    } else {
      var t := LookHop(b, h, min);
      if t.Hopped? { HoppedFrame(b, h, min); }
      HopUnfold(b, h, min);
      HopAdvances(b, h, min);
      if t.Hopped? { HopAdvances(b, t.next, min); }
      LookHopAgain(c, b, b', end, h, min);
      if t.Hopped? { HopAgain(c, b, b', end, t.next, min); }
    }
  }

  lemma HopUnfold(b: Bytes, h: HopState, min: nat)
    requires h.at < |b|
    ensures Hop(b, h, min) == match LookHop(b, h, min)
                              case Fail => None
                              case Arrived => Some(h)
                              case Hopped(n) => Hop(b, n, min)
  {
  }

  lemma HoppedFrame(b: Bytes, h: HopState, min: nat)
    requires h.at < |b| && LookHop(b, h, min).Hopped?
    ensures WholeAt(b, h.at) && EndAt(b, h.at) == LookHop(b, h, min).next.at
    ensures LookHop(b, h, min).next.guard == Some(h.at)
    ensures FrameAt(b, h.at).epoch <= min && FrameAt(b, h.at).epoch != 0
    ensures h.have ==> h.frontier <= FrameAt(b, h.at).epoch
    ensures LookHop(b, h, min).next.frontier == FrameAt(b, h.at).epoch && LookHop(b, h, min).next.have
  {
  }

  /** A hop goes nowhere only by arriving, and its guard is the frame it crossed last. */
  lemma {:induction false} HopAdvances(b: Bytes, h: HopState, min: nat)
    requires h.at <= |b| && Hop(b, h, min).Some?
    ensures var r := Hop(b, h, min).value;
            && (r.at == h.at ==> r == h)
            && (r != h ==> r.guard.Some? && WholeAt(b, r.guard.value) && EndAt(b, r.guard.value) == r.at)
            && (r.at < |b| ==> LookHop(b, r, min) == Arrived)
    decreases |b| - h.at
  {
    hide LookHop, WholeAt, EndAt;
    if h.at < |b| && LookHop(b, h, min).Hopped? {
      HoppedFrame(b, h, min);
      HopAdvances(b, LookHop(b, h, min).next, min);
    }
  }

  /** Where the walk itself accepts the covered frames, starting past them changes nothing. */
  lemma {:induction false} HopFollowsWalk(c: Codec, b: Bytes, h: HopState, min: nat)
    requires h.at <= |b| && Hop(b, h, min).Some? && Zero(b, Walk(c, b, Landed(h), min).0.at, |b|)
    ensures Walk(c, b, Landed(Hop(b, h, min).value), min) == Walk(c, b, Landed(h), min)
    decreases |b| - h.at
  {
    hide LookHop, Look, WholeAt, EndAt;
    if h.at < |b| && LookHop(b, h, min).Hopped? {
      HoppedFrame(b, h, min);
      WalkSkips(c, b, Landed(h), min);
      if Look(c, b, Landed(h), min).Halt? { WholeIsNotZero(b, h.at); }
      HopFollowsWalk(c, b, LookHop(b, h, min).next, min);
    }
  }

  lemma WholeIsNotZero(b: Bytes, at: nat)
    requires WholeAt(b, at)
    ensures !Zero(b, at, |b|)
  {
    if Zero(b, at, |b|) { ZeroesAreTorn(b, at); }
  }

  lemma WalkSkips(c: Codec, b: Bytes, cur: Cursor, min: nat)
    requires cur.at < |b| && WholeAt(b, cur.at) && FrameAt(b, cur.at).epoch != 0 && FrameAt(b, cur.at).epoch <= min
    requires cur.have ==> cur.frontier <= FrameAt(b, cur.at).epoch
    ensures Look(c, b, cur, min) == Halt(Torn(Some(EndAt(b, cur.at))))
            || Look(c, b, cur, min) == Advance(Cursor(EndAt(b, cur.at), FrameAt(b, cur.at).epoch, true, cur.records))
    ensures Look(c, b, cur, min).Advance? <==> ChecksumAt(c, b, cur.at)
  {
  }

  /** Scanning an already cleaned file from a given start ends where the first scan ended. */
  lemma JudgeAgain(c: Codec, b': Bytes, cur: Cursor, min: nat, w: Cursor)
    requires cur.at <= |b'| && w.at <= |b'| && Zero(b', w.at, |b'|)
    requires Walk(c, b', cur, min) == (w, if w.at == |b'| then AtEnd else Torn(None))
    ensures Judge(c, b', Walk(c, b', cur, min).0, Walk(c, b', cur, min).1) == Accept(w.at, w.frontier, w.records, false)
  {
  }

  /** A scan that fell back to the start: the cleaned file may be hopped, with the same result. */
  lemma AgainFromStart(c: Codec, b: Bytes, b': Bytes, min: nat)
    requires Cleaned(b, b', Walk(c, b, START, min).0.at)
    ensures var w := Walk(c, b, START, min).0; Scan(c, b', min) == Accept(w.at, w.frontier, w.records, false)
  {
    hide Hop, Walk;
    var w := Walk(c, b, START, min).0;
    WalkAgain(c, b, b', START, min);
    assert Landed(HOP_START) == START;
    if min != 0 && Hop(b', HOP_START, min).Some? { HopFollowsWalk(c, b', HOP_START, min); }
    JudgeAgain(c, b', Begin(c, b', min), min, w);
  }

  lemma AgainFromHop(c: Codec, b: Bytes, b': Bytes, r: HopState, min: nat)
    requires min != 0 && Hop(b, HOP_START, min) == Some(r) && GuardHolds(c, b, r.guard)
    requires var end := Walk(c, b, Landed(r), min).0.at;
             Cleaned(b, b', end) && (r.at < end || |b'| == |b| || end + HEADER <= |b'|)
    ensures var w := Walk(c, b, Landed(r), min).0; Scan(c, b', min) == Accept(w.at, w.frontier, w.records, false)
  {
    hide Hop, Walk, WholeAt, EndAt, ChecksumAt, Look, LookHop;
    var w := Walk(c, b, Landed(r), min).0;
    HopAdvances(b, HOP_START, min);
    WalkAgain(c, b, b', Landed(r), min);
    if r.at < w.at { WalkUnfold(c, b, b', Landed(r), min); }
    if r.at == w.at && r.at < |b| { ArrivedHasHeader(b, r, min); }
    HopAgain(c, b, b', w.at, HOP_START, min);
    if r.guard.Some? { SameFrame(c, b, b', w.at, r.guard.value); }
    JudgeAgain(c, b', Landed(r), min, w);
  }

  lemma ArrivedHasHeader(b: Bytes, h: HopState, min: nat)
    requires h.at < |b| && LookHop(b, h, min) == Arrived
    ensures h.at + HEADER <= |b|
  {
  }

  lemma WalkUnfold(c: Codec, b: Bytes, b': Bytes, cur: Cursor, min: nat)
    requires cur.at <= |b| && cur.at < Walk(c, b, cur, min).0.at && Cleaned(b, b', Walk(c, b, cur, min).0.at)
    ensures WholeAt(b, cur.at) && EndAt(b, cur.at) <= Walk(c, b, cur, min).0.at
  {
    hide Look, WholeAt, EndAt, ChecksumAt;
    assert Look(c, b, cur, min).Advance?;
    LookAgain(c, b, b', Walk(c, b, cur, min).0.at, cur, min);
  }

  // ----- Growth by less than a header ---------------------------------------------------------

  /** A hop that reached the end of the file fails once fewer zeroes than a header has bytes follow. */
  lemma {:induction false} HopFallsShort(c: Codec, b: Bytes, b': Bytes, h: HopState, min: nat)
    requires h.at <= |b| && Hop(b, h, min).Some? && Hop(b, h, min).value.at == |b|
    requires Cleaned(b, b', |b|) && |b| < |b'| < |b| + HEADER
    ensures Hop(b', h, min) == None
    decreases |b| - h.at
  {
    hide LookHop, WholeAt, EndAt;
    if h.at == |b| {
      NoRoom(b', h, min);
    } else {
      HopUnfold(b, h, min);
      HoppedFrame(b, h, min);
      LookHopAgain(c, b, b', |b|, h, min);
      HopFallsShort(c, b, b', LookHop(b, h, min).next, min);
    }
  }

  lemma NoRoom(b: Bytes, h: HopState, min: nat)
    requires h.at < |b| < h.at + HEADER
    ensures LookHop(b, h, min) == Fail
  {
  }

  /** A walk that stops among the frames a hop crossed stops at a broken one, at the guard or before it. */
  lemma {:induction false} WalkMeetsBroken(c: Codec, b: Bytes, b': Bytes, h: HopState, min: nat)
    requires h.at <= |b| && Hop(b, h, min).Some? && Hop(b, h, min).value.at == |b|
    requires Cleaned(b, b', |b|) && Walk(c, b, Landed(h), min).0.at != |b|
    ensures var r, w := Hop(b, h, min).value, Walk(c, b', Landed(h), min);
            && WholeAt(b', w.0.at) && !ChecksumAt(c, b', w.0.at) && w.1 == Torn(Some(EndAt(b', w.0.at)))
            && r.guard.Some? && (r.guard.value == w.0.at || EndAt(b', w.0.at) <= r.guard.value)
    decreases |b| - h.at
  {
    hide LookHop, Look, WholeAt, EndAt, ChecksumAt;
    var t := LookHop(b, h, min);
    HopUnfold(b, h, min);
    HoppedFrame(b, h, min);
    SameFrame(c, b, b', |b|, h.at);
    WalkSkips(c, b, Landed(h), min);
    WalkSkips(c, b', Landed(h), min);
    if Look(c, b, Landed(h), min).Advance? {
      WalkMeetsBroken(c, b, b', t.next, min);
    } else if Hop(b, h, min).value != t.next {
      GuardIsLater(b, t.next, min);
    }
  }

  lemma {:induction false} GuardIsLater(b: Bytes, h: HopState, min: nat)
    requires h.at <= |b| && Hop(b, h, min).Some? && Hop(b, h, min).value != h
    ensures var r := Hop(b, h, min).value; r.guard.Some? && h.at <= r.guard.value
    decreases |b| - h.at
  {
    hide LookHop, WholeAt, EndAt;
    HopUnfold(b, h, min);
    HoppedFrame(b, h, min);
    if Hop(b, h, min).value != LookHop(b, h, min).next { GuardIsLater(b, LookHop(b, h, min).next, min); }
  }

  /** Without the hop the broken frame comes first, and the guard stands where only zeroes might. */
  lemma BrokenIsRefused(c: Codec, b: Bytes, b': Bytes, min: nat)
    requires min != 0 && Hop(b, HOP_START, min).Some? && Hop(b, HOP_START, min).value.at == |b|
    requires GuardHolds(c, b, Hop(b, HOP_START, min).value.guard) && Walk(c, b, START, min).0.at != |b|
    requires Cleaned(b, b', |b|) && |b| < |b'| < |b| + HEADER
    ensures Scan(c, b', min) == Refuse
  {
    hide Hop, Walk, WholeAt, EndAt, ChecksumAt;
    var guard := Hop(b, HOP_START, min).value.guard;
    var w := Walk(c, b', START, min);
    assert Landed(HOP_START) == START;
    HopFallsShort(c, b, b', HOP_START, min);
    WalkMeetsBroken(c, b, b', HOP_START, min);
    HopAdvances(b, HOP_START, min);
    SameFrame(c, b, b', |b|, guard.value);
    WholeIsNotZero(b', w.0.at);
    WholeIsNotZero(b', guard.value);
  }

  /**
   * When rescanning the file left at some size is sure to find the same log: the file has not
   * grown, or by a header or more; or the hop left frames to read; or the frames it crossed would
   * have passed a full walk as well.
   */
  predicate SafeGrowth(c: Codec, b: Bytes, min: nat, end: nat, size: nat) {
    size == |b| || size >= end + HEADER || Begin(c, b, min).at < end || Walk(c, b, START, min).0.at == end
  }

  /**
   * Rescanning the file an accepting scan leaves behind, grown by any amount of zeroes, accepts
   * the same log with nothing left to truncate, if and only if the growth is safe; otherwise the
   * file is refused.
   */
  lemma RescanIsIdempotent(c: Codec, b: Bytes, min: nat, size: nat)
    requires Scan(c, b, min).Accept? && size >= |b|
    ensures var v := Scan(c, b, min); var again := Scan(c, Repaired(b, v.end, size), min);
            && (again == v.(truncated := false) <==> SafeGrowth(c, b, min, v.end, size))
            && (again == Refuse <==> !SafeGrowth(c, b, min, v.end, size))
  {
    hide Hop, Walk, GuardHolds, LookHop;
    var v := Scan(c, b, min);
    var b' := Repaired(b, v.end, size);
    assert Walk(c, b, Begin(c, b, min), min).0.at == v.end;
    if Begin(c, b, min) == START {
      AgainFromStart(c, b, b', min);
    } else {
      var r := Hop(b, HOP_START, min).value;
      if r.at < v.end || size == |b| || size >= v.end + HEADER {
        AgainFromHop(c, b, b', r, min);
      } else {
        HopReachedEnd(b, r, min, size);
        if Walk(c, b, START, min).0.at == v.end {
          HopFollowsWalk(c, b, HOP_START, min);
          AgainFromStart(c, b, b', min);
        } else {
          BrokenIsRefused(c, b, b', min);
        }
      }
    }
  }

  lemma HopReachedEnd(b: Bytes, r: HopState, min: nat, size: nat)
    requires Hop(b, HOP_START, min) == Some(r) && |b| <= size < r.at + HEADER
    ensures r.at == |b|
  {
    hide Hop, LookHop, WholeAt, EndAt;
    HopAdvances(b, HOP_START, min);
    if r.at < |b| { ArrivedHasHeader(b, r, min); }
  }

  /**
   * Unsafe growth exists. A covered frame with a broken checksum is hopped
   * over by its header, so the file is accepted; once the file has grown by fewer zeroes than a
   * header has bytes, the hop fails, the full scan meets the broken frame and refuses the file.
   */
  lemma ShortGrowthCanRefuse(c: Codec, d: Bytes, f: Frame, min: nat, k: nat)
    requires Lawful(c) && Framable(f) && 0 < k < HEADER
    requires WholeAt(d, 0) && EndAt(d, 0) == |d| && !ChecksumAt(c, d, 0)
    requires 0 < EpochAt(d, 0) <= f.epoch <= min
    ensures var b := d + Encoded(c, f);
            && Scan(c, b, min) == Accept(|b|, f.epoch, [], false)
            && Scan(c, Repaired(b, |b|, |b| + k), min) == Refuse
  {
    hide Encoded, ChecksumAt, ConstantsAt, LengthAt;
    var b := d + Encoded(c, f);
    var b' := Repaired(b, |b|, |b| + k);
    HopTwo(c, d, f, b, min);
    HopTwo(c, d, f, b', min);
    assert Begin(c, b, min) == Cursor(|b|, f.epoch, true, []);
    assert Begin(c, b', min) == START;
    ZeroIsNotWhole(b', |d|);
    ZeroIsNotWhole(b', 0);
    FrameEpoch(b', 0);
    assert Walk(c, b', START, min) == (START, Torn(Some(|d|)));
  }

  lemma ZeroIsNotWhole(b: Bytes, at: nat)
    ensures WholeAt(b, at) ==> !Zero(b, at, |b|)
  {
    if WholeAt(b, at) { WholeIsNotZero(b, at); }
  }

  /** A hop over a broken and an intact frame, in any file that starts with the two. */
  lemma HopTwo(c: Codec, d: Bytes, f: Frame, b: Bytes, min: nat)
    requires Lawful(c) && Framable(f)
    requires WholeAt(d, 0) && EndAt(d, 0) == |d| && !ChecksumAt(c, d, 0)
    requires 0 < EpochAt(d, 0) <= f.epoch <= min
    requires d + Encoded(c, f) <= b
    ensures WholeAt(b, 0) && EndAt(b, 0) == |d| && !ChecksumAt(c, b, 0)
    ensures WholeAt(b, |d|) && ChecksumAt(c, b, |d|)
    ensures |b| == |d + Encoded(c, f)| ==> Hop(b, HOP_START, min) == Some(HopState(|b|, f.epoch, true, Some(|d|)))
    ensures |d + Encoded(c, f)| < |b| < |d + Encoded(c, f)| + HEADER ==> Hop(b, HOP_START, min) == None
  {
    hide Encoded, ChecksumAt, ConstantsAt, LengthAt;
    var n := |d + Encoded(c, f)|;
    PrefixFrame(c, d, b);
    assert b[|d|..n] == (d + Encoded(c, f))[|d|..n] == Encoded(c, f);
    EncodedIsRead(c, f, b, |d|);
    FrameEpoch(b, 0);
    FrameEpoch(b, |d|);
    LookHopTakes(b, HOP_START, min);
    var h1 := HopState(|d|, EpochAt(b, 0), true, Some(0));
    LookHopTakes(b, h1, min);
    HopUnfold(b, HOP_START, min);
    HopUnfold(b, h1, min);
  }

  lemma PrefixFrame(c: Codec, d: Bytes, b: Bytes)
    requires WholeAt(d, 0) && EndAt(d, 0) == |d| && d <= b
    ensures WholeAt(b, 0) && EndAt(b, 0) == |d| && EpochAt(b, 0) == EpochAt(d, 0)
    ensures ChecksumAt(c, b, 0) == ChecksumAt(c, d, 0)
  {
    assert b[0..16] == d[0..16] && b[HEADER..|d|] == d[HEADER..|d|];
  }

  // ----- An interrupted group write is repaired to whole frames ------------------------------------

  /** From `at` on the file holds the first q bytes of a frame and zeroes, failing its checksum. */
  ghost predicate TornFrame(c: Codec, b: Bytes, at: nat, g: Frame, q: nat)
    requires Lawful(c)
  {
    && Framable(g) && 0 < q < |Encoded(c, g)| && at + q <= |b|
    && b[at..at + q] == Encoded(c, g)[..q] && Zero(b, at + q, |b|)
    && (WholeAt(b, at) ==> !ChecksumAt(c, b, at))
  }

  lemma TornBytes(c: Codec, b: Bytes, at: nat, g: Frame, q: nat, i: nat)
    requires Lawful(c) && TornFrame(c, b, at, g, q) && at + i < |b| && i < |Encoded(c, g)|
    ensures b[at + i] == if i < q then Encoded(c, g)[i] else 0
  {
    if i < q { assert b[at..at + q][i] == Encoded(c, g)[..q][i]; }
  }

  /** Such a frame reads as a torn header, or its announced end lies beyond the bytes written. */
  lemma TornShape(c: Codec, b: Bytes, at: nat, g: Frame, q: nat)
    requires Lawful(c) && TornFrame(c, b, at, g, q) && at + HEADER <= |b|
    ensures || (!ConstantsAt(b, at) && TornHeader(b[at..at + HEADER]))
            || (ConstantsAt(b, at) && LengthAt(b, at) <= MAX_PAYLOAD && at + q <= at + HEADER + LengthAt(b, at))
  {
    hide Encoded, ChecksumAt, WholeAt;
    var e := Encoded(c, g);
    var h := b[at..at + HEADER];
    TornHeaderBytes(c, b, at, g, q);
    HeaderOfEncoded(c, g);
    ConstantsAreBytes(b, at);
    assert q >= 8 ==> h[..8] == e[..8];
    if h[..8] == CONSTANTS {
      TornLength(c, b, at, g, q);
    } else {
      assert h[..q] == e[..8][..q];
      forall i | q <= i < HEADER ensures h[i] == 0 { }
    }
  }

  lemma TornHeaderBytes(c: Codec, b: Bytes, at: nat, g: Frame, q: nat)
    requires Lawful(c) && TornFrame(c, b, at, g, q) && at + HEADER <= |b|
    ensures forall i :: 0 <= i < HEADER ==> b[at..at + HEADER][i] == if i < q then Encoded(c, g)[i] else 0
  {
    hide Encoded, ChecksumAt, WholeAt;
    forall i | 0 <= i < HEADER ensures b[at..at + HEADER][i] == if i < q then Encoded(c, g)[i] else 0 {
      TornBytes(c, b, at, g, q, i);
    }
  }

  lemma HeaderOfEncoded(c: Codec, g: Frame)
    requires Lawful(c) && Framable(g)
    ensures Encoded(c, g)[..8] == CONSTANTS && GetLe32(Encoded(c, g), 8) == |g.payload|
  {
    HeaderFields(c, g);
    ConstantsAreBytes(Encoded(c, g), 0);
    assert Encoded(c, g)[0..HEADER][..8] == Encoded(c, g)[..8];
  }

  lemma TornLength(c: Codec, b: Bytes, at: nat, g: Frame, q: nat)
    requires Lawful(c) && TornFrame(c, b, at, g, q) && at + HEADER <= |b|
    ensures LengthAt(b, at) <= MAX_PAYLOAD && q <= HEADER + LengthAt(b, at)
  {
    hide Encoded, ChecksumAt, WholeAt;
    HeaderOfEncoded(c, g);
    TornBytes(c, b, at, g, q, 8);
    TornBytes(c, b, at, g, q, 9);
    TornBytes(c, b, at, g, q, 10);
    TornBytes(c, b, at, g, q, 11);
  }

  /** A walk stops at a torn frame, with nothing written beyond the end it announces. */
  lemma WalkStopsAtTorn(c: Codec, b: Bytes, cur: Cursor, g: Frame, q: nat, min: nat)
    requires Lawful(c) && cur.at <= |b| && TornFrame(c, b, cur.at, g, q)
    ensures Walk(c, b, cur, min).0 == cur && Walk(c, b, cur, min).1.Torn?
    ensures var e := Walk(c, b, cur, min).1.brokenEnd; e.Some? ==> cur.at + q <= e.value
    ensures !Zero(b, cur.at, |b|)
  {
    hide Encoded, ChecksumAt, TornHeader, ConstantsAt, LengthAt;
    TornBytes(c, b, cur.at, g, q, 0);
    HeaderOfEncoded(c, g);
    assert Encoded(c, g)[..8][0] == 0x4c;
    if cur.at + HEADER <= |b| { TornShape(c, b, cur.at, g, q); }
  }

  /** A hop stops at it too, or crosses it and is refused by the guard. */
  lemma HopMeetsTorn(c: Codec, b: Bytes, h: HopState, g: Frame, q: nat, min: nat)
    requires Lawful(c) && h.at <= |b| && TornFrame(c, b, h.at, g, q)
    ensures var r := Hop(b, h, min); r == None || r == Some(h) || !GuardHolds(c, b, r.value.guard)
  {
    hide Encoded, ChecksumAt, TornHeader, ConstantsAt, LengthAt, LookHop, EndAt;
    HopUnfold(b, h, min);
    if LookHop(b, h, min).Hopped? {
      HoppedFrame(b, h, min);
      var n := LookHop(b, h, min).next;
      TornEnd(c, b, h.at, g, q);
      HopStopsAtZeroes(b, n, min);
    }
  }

  lemma TornEnd(c: Codec, b: Bytes, at: nat, g: Frame, q: nat)
    requires Lawful(c) && TornFrame(c, b, at, g, q) && WholeAt(b, at)
    ensures at + q <= EndAt(b, at) && Zero(b, EndAt(b, at), |b|)
  {
    hide Encoded, ChecksumAt, TornHeader, ConstantsAt, LengthAt;
    TornShape(c, b, at, g, q);
  }

  lemma BeginAtTorn(c: Codec, b: Bytes, fs: seq<Frame>, g: Frame, q: nat, min: nat)
    requires Lawful(c) && GoodLog(c, fs) && Log(c, fs) <= b && TornFrame(c, b, |Log(c, fs)|, g, q)
    ensures Walk(c, b, Begin(c, b, min), min) == Walk(c, b, After(c, fs, min), min)
  {
    hide Encoded, ChecksumAt, WholeAt, Hop, Walk, TornFrame, Log, GuardHolds, GoodLog, RecordsAbove;
    assert fs[..0] == [] && fs[..|fs|] == fs;
    EmptyLog(c, fs, b, min);
    WalkFrames(c, b, fs, 0, min);
    if min != 0 {
      var k := Covered(fs, min);
      LogPrefix(c, fs, k);
      HopFrames(c, b, fs, 0, k, min);
      if k < |fs| {
        HopLandsInside(c, b, fs, k, min);
      } else {
        CoveredHasNoRecords(c, fs, min);
        HopMeetsTorn(c, b, HopAfter(c, fs), g, q, min);
      }
    }
  }

  lemma EmptyLog(c: Codec, fs: seq<Frame>, b: Bytes, min: nat)
    requires Lawful(c) && GoodLog(c, fs)
    ensures GoodLog(c, fs[..0]) && After(c, fs[..0], min) == START && HopAfter(c, fs[..0]) == HOP_START
    ensures forall k :: 0 <= k <= |fs| ==> GoodLog(c, fs[..k])
  {
  }

  lemma HopLandsInside(c: Codec, b: Bytes, fs: seq<Frame>, k: nat, min: nat)
    requires Lawful(c) && GoodLog(c, fs) && Log(c, fs) <= b && k == Covered(fs, min) && k < |fs| && min != 0
    requires Log(c, fs[..k]) <= b
    requires Hop(b, HOP_START, min) == Hop(b, HopAfter(c, fs[..k]), min)
    ensures Walk(c, b, Begin(c, b, min), min) == Walk(c, b, After(c, fs, min), min)
  {
    hide Lawful, Encoded, WholeAt, ChecksumAt, FrameAt, EndAt, Log, LookHop, Walk, RecordsAbove;
    var h := HopAfter(c, fs[..k]);
    CoveredHasNoRecords(c, fs[..k], min);
    GuardStands(c, b, fs, k);
    assert Landed(h) == After(c, fs[..k], min);
    FrameStands(c, fs, b, k);
    assert Sound(c, fs[k]) && (k > 0 ==> fs[k - 1].epoch <= fs[k].epoch);
    LookHopTakes(b, h, min);
    WalkFrames(c, b, fs, k, min);
  }

  /**
   * Crash atomicity of a group. A write of whole frames and part of one more, over zeroes, is
   * scanned back as exactly the whole frames, provided the torn part neither satisfies a checksum
   * nor embeds an intact frame; the torn bytes are the ones truncated.
   */
  lemma TornGroupIsRepaired(c: Codec, b: Bytes, fs: seq<Frame>, g: Frame, q: nat, min: nat)
    requires Lawful(c) && GoodLog(c, fs) && Log(c, fs) <= b && TornFrame(c, b, |Log(c, fs)|, g, q)
    ensures Scan(c, b, min) == (if Survivor(c, b, |Log(c, fs)|) then Refuse
                                else Accept(|Log(c, fs)|, Frontier(fs), RecordsAbove(c, fs, min), true))
  {
    hide Encoded, ChecksumAt, WholeAt, Hop, Log, Begin;
    BeginAtTorn(c, b, fs, g, q, min);
    WalkStopsAtTorn(c, b, After(c, fs, min), g, q, min);
  }

  // ----- A write that stops anywhere inside a group --------------------------------------------------

  /** The first n bytes of a group: whole frames and part of the next one. */
  lemma {:induction false} SplitGroup(c: Codec, gs: seq<Frame>, n: nat) returns (k: nat, q: nat)
    requires Lawful(c) && (forall i :: 0 <= i < |gs| ==> Framable(gs[i])) && n <= |Log(c, gs)|
    ensures k <= |gs| && n == |Log(c, gs[..k])| + q && (k == |gs| ==> q == 0)
    ensures k == |gs| ==> Log(c, gs)[..n] == Log(c, gs[..k])
    ensures k < |gs| ==> q < |Encoded(c, gs[k])| && Log(c, gs)[..n] == Log(c, gs[..k]) + Encoded(c, gs[k])[..q]
  {
    hide Lawful, Encoded, Framable, Log;
    if n == |Log(c, gs)| {
      k, q := |gs|, 0;
      assert gs[..k] == gs;
    } else {
      var m := |gs| - 1;
      LastFrame(c, gs);
      var rest := Log(c, gs[..m]);
      if n < |rest| {
        k, q := SplitGroup(c, gs[..m], n);
        assert gs[..m][..k] == gs[..k] && Log(c, gs)[..n] == rest[..n];
      } else {
        k, q := m, n - |rest|;
      }
    }
  }

  lemma LastFrame(c: Codec, gs: seq<Frame>)
    requires Lawful(c) && (forall i :: 0 <= i < |gs| ==> Framable(gs[i])) && |Log(c, gs)| > 0
    ensures gs != [] && Log(c, gs) == Log(c, gs[..|gs| - 1]) + Encoded(c, gs[|gs| - 1])
  {
  }

  /** All bytes of a frame stand at an offset. */
  ghost predicate StandsAt(c: Codec, b: Bytes, at: nat, g: Frame)
    requires Lawful(c) && Framable(g)
  {
    at + |Encoded(c, g)| <= |b| && b[at..at + |Encoded(c, g)|] == Encoded(c, g)
  }

  /** What stands at the offset satisfies a checksum without being the frame. */
  ghost predicate Collides(c: Codec, b: Bytes, at: nat, g: Frame)
    requires Lawful(c) && Framable(g)
  {
    WholeAt(b, at) && ChecksumAt(c, b, at) && !StandsAt(c, b, at, g)
  }

  /**
   * The file is scanned back as a log: exactly that log, whatever the minimum epoch, with the rest
   * of the file truncated if it is not zero already; unless an intact frame survives beyond.
   */
  ghost predicate ScansAs(c: Codec, b: Bytes, fs: seq<Frame>)
    requires Lawful(c) && GoodLog(c, fs)
  {
    Log(c, fs) <= b &&
    forall min ::
      Scan(c, b, min) == if Survivor(c, b, |Log(c, fs)|) then Refuse
                         else Accept(|Log(c, fs)|, Frontier(fs), RecordsAbove(c, fs, min), !Zero(b, |Log(c, fs)|, |b|))
  }

  lemma ZeroesScan(c: Codec, b: Bytes, fs: seq<Frame>)
    requires Lawful(c) && GoodLog(c, fs) && Log(c, fs) <= b && Zero(b, |Log(c, fs)|, |b|)
    ensures ScansAs(c, b, fs)
  {
    hide Lawful, Log, Scan, RecordsAbove, WholeAt, ChecksumAt;
    if Survivor(c, b, |Log(c, fs)|) {
      var j :| |Log(c, fs)| < j < |b| && IntactAt(c, b, j);
      WholeIsNotZero(b, j);
      assert false;
    }
    forall min ensures Scan(c, b, min) == Accept(|Log(c, fs)|, Frontier(fs), RecordsAbove(c, fs, min), false) {
      AppendedLogIsExact(c, b, fs, min);
    }
  }

  lemma TornScan(c: Codec, b: Bytes, fs: seq<Frame>, g: Frame, q: nat)
    requires Lawful(c) && GoodLog(c, fs) && Log(c, fs) <= b && TornFrame(c, b, |Log(c, fs)|, g, q)
    ensures ScansAs(c, b, fs)
  {
    hide Lawful, Log, Scan, RecordsAbove, Encoded, TornFrame, Survivor, Walk;
    WalkStopsAtTorn(c, b, After(c, fs, 0), g, q, 0);
    forall min
      ensures Scan(c, b, min) == if Survivor(c, b, |Log(c, fs)|) then Refuse
                                 else Accept(|Log(c, fs)|, Frontier(fs), RecordsAbove(c, fs, min), true)
    {
      TornGroupIsRepaired(c, b, fs, g, q, min);
    }
  }

  /**
   * Wherever the write of a group stops, there are leading frames of the group such that the file
   * is scanned back as the log and those frames; the one exception is a torn frame whose remains
   * satisfy a checksum without being that frame.
   */
  lemma TornWriteIsRepaired(c: Codec, b: Bytes, fs: seq<Frame>, gs: seq<Frame>, n: nat) returns (k: nat)
    requires Lawful(c) && GoodLog(c, fs + gs) && GoodLog(c, fs)
    requires (forall i :: 0 <= i < |gs| ==> Framable(gs[i])) && n <= |Log(c, gs)|
    requires |Log(c, fs)| + n <= |b| && b[..|Log(c, fs)| + n] == Log(c, fs) + Log(c, gs)[..n]
    requires Zero(b, |Log(c, fs)| + n, |b|)
    ensures k <= |gs| && GoodLog(c, fs + gs[..k]) && Log(c, fs + gs[..k]) <= b
    ensures |Log(c, gs[..k])| <= n || (k > 0 && StandsAt(c, b, |Log(c, fs + gs[..k - 1])|, gs[k - 1]))
    ensures ScansAs(c, b, fs + gs[..k]) || (k < |gs| && Collides(c, b, |Log(c, fs + gs[..k])|, gs[k]))
  {
    hide Lawful, Sound, Ordered, Log, Encoded, TornFrame, ScansAs, WholeAt, ChecksumAt;
    GoodParts(c, fs, gs);
    var q;
    k, q := SplitGroup(c, gs, n);
    LogConcat(c, fs, gs[..k]);
    var all := fs + gs[..k];
    var at := |Log(c, all)|;
    assert b[..at] == Log(c, all) by {
      assert b[..at] == b[..|Log(c, fs)| + n][..at];
    }
    if q == 0 {
      ZeroesScan(c, b, all);
    } else {
      var e := Encoded(c, gs[k]);
      assert b[at..at + q] == e[..q] by {
        assert b[..|Log(c, fs)| + n][at..] == e[..q];
      }
      if StandsAt(c, b, at, gs[k]) {
        NextFrame(c, b, fs, gs, k, q);
        ZeroesScan(c, b, fs + gs[..k + 1]);
        assert (gs[..k + 1])[..k] == gs[..k];
        k := k + 1;
      } else if !(WholeAt(b, at) && ChecksumAt(c, b, at)) {
        IsTorn(c, b, at, gs[k], q);
        TornScan(c, b, all, gs[k], q);
      }
    }
  }

  lemma GoodParts(c: Codec, fs: seq<Frame>, gs: seq<Frame>)
    requires GoodLog(c, fs + gs)
    ensures (forall i :: 0 <= i < |gs| ==> Framable(gs[i])) && forall i :: 0 <= i < |fs| ==> Framable(fs[i])
    ensures forall k :: 0 <= k <= |gs| ==> GoodLog(c, fs + gs[..k])
  {
    forall i | 0 <= i < |gs| ensures Framable(gs[i]) { assert Sound(c, (fs + gs)[|fs| + i]); }
    forall i | 0 <= i < |fs| ensures Framable(fs[i]) { assert Sound(c, (fs + gs)[i]); }
    forall k | 0 <= k <= |gs| ensures GoodLog(c, fs + gs[..k]) {
      assert fs + gs[..k] == (fs + gs)[..|fs| + k];
    }
  }

  lemma IsTorn(c: Codec, b: Bytes, at: nat, g: Frame, q: nat)
    requires Lawful(c) && Framable(g) && 0 < q < |Encoded(c, g)| && at + q <= |b|
    requires b[at..at + q] == Encoded(c, g)[..q] && Zero(b, at + q, |b|)
    requires !(WholeAt(b, at) && ChecksumAt(c, b, at))
    ensures TornFrame(c, b, at, g, q)
  {
  }

  lemma NextFrame(c: Codec, b: Bytes, fs: seq<Frame>, gs: seq<Frame>, k: nat, q: nat)
    requires Lawful(c) && k < |gs| && GoodLog(c, fs + gs[..k]) && GoodLog(c, fs + gs[..k + 1]) && Framable(gs[k])
    requires Log(c, fs + gs[..k]) <= b && StandsAt(c, b, |Log(c, fs + gs[..k])|, gs[k])
    requires q <= |Encoded(c, gs[k])| && Zero(b, |Log(c, fs + gs[..k])| + q, |b|)
    ensures Log(c, fs + gs[..k + 1]) <= b && Zero(b, |Log(c, fs + gs[..k + 1])|, |b|)
  {
    hide Lawful, Encoded, Log;
    var all := fs + gs[..k];
    assert fs + gs[..k + 1] == all + [gs[k]];
    LogAppend(c, all, gs[k]);
    var at, e := |Log(c, all)|, Encoded(c, gs[k]);
    assert b[..at + |e|] == b[..at] + b[at..at + |e|];
  }
}
