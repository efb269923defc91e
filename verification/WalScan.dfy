/**
 * What a scan of the log means: which frames it accepts, where it stops, and whether the bytes
 * beyond may be erased. The theorems hold for every file, minimum epoch and codec.
 */
module WalScan {
  import opened Basics
  import opened LogRecords
  import opened WalFormat

  /** The constant fields every frame starts with. */
  const CONSTANTS: Bytes := [0x4c, 0x41, 0x57, 0x4c, 1, 0, 0, 0]

  /** A strict prefix of the constant fields followed by zeroes: an interrupted header write. */
  predicate TornHeader(h: Bytes)
    requires |h| == HEADER
  {
    h[..8] != CONSTANTS && exists m :: 0 <= m < 8 && h[..m] == CONSTANTS[..m] && Zero(h, m, HEADER)
  }

  lemma ConstantsAreBytes(b: Bytes, at: nat)
    requires at + HEADER <= |b|
    ensures ConstantsAt(b, at) <==> b[at..at + HEADER][..8] == CONSTANTS
  {
    var h := b[at..at + HEADER];
    assert h[0] == b[at] && h[1] == b[at + 1] && h[2] == b[at + 2] && h[3] == b[at + 3];
    assert h[4] == b[at + 4] && h[5] == b[at + 5] && h[6] == b[at + 6] && h[7] == b[at + 7];
    assert h[..8] == [h[0], h[1], h[2], h[3], h[4], h[5], h[6], h[7]];
  }

  // ----- The frame-by-frame walk ------------------------------------------------------------

  datatype Cursor = Cursor(at: nat, frontier: nat, have: bool, records: seq<LogRecord>)

  const START := Cursor(0, 0, false, [])

  /** Why a walk ends: the end of the file, an anomaly that may be a torn write, or damage. */
  datatype Stop = AtEnd | Torn(brokenEnd: Option<nat>) | Rejected

  datatype Turn = Halt(stop: Stop) | Advance(cursor: Cursor)

  function Look(c: Codec, b: Bytes, cur: Cursor, min: nat): (t: Turn)
    requires cur.at < |b|
    ensures t.Advance? ==> cur.at < t.cursor.at <= |b|
  {
    if cur.at + HEADER > |b| then Halt(Torn(None))
    else if !ConstantsAt(b, cur.at) || LengthAt(b, cur.at) > MAX_PAYLOAD then
      if TornHeader(b[cur.at..cur.at + HEADER]) then Halt(Torn(None)) else Halt(Rejected)
    else if !WholeAt(b, cur.at) then Halt(Torn(None))
    else if !ChecksumAt(c, b, cur.at) then Halt(Torn(Some(EndAt(b, cur.at))))
    else
      var f := FrameAt(b, cur.at);
      if (cur.have && f.epoch < cur.frontier) || f.epoch == 0 then Halt(Rejected)
      else if f.epoch <= min then Advance(Cursor(EndAt(b, cur.at), f.epoch, true, cur.records))
      else if Sound(c, f) then Advance(Cursor(EndAt(b, cur.at), f.epoch, true, cur.records + RecordsOf(c, f)))
      else Halt(Rejected)
  }

  function Walk(c: Codec, b: Bytes, cur: Cursor, min: nat): (r: (Cursor, Stop))
    requires cur.at <= |b|
    ensures cur.at <= r.0.at <= |b|
    ensures r.1.AtEnd? ==> r.0.at == |b|
    decreases |b| - cur.at
  {
    if cur.at == |b| then (cur, AtEnd)
    else
      match Look(c, b, cur, min)
      case Halt(stop) => (cur, stop)
      case Advance(next) => Walk(c, b, next, min)
  }

  // ----- Hopping by header ------------------------------------------------------------------

  datatype HopState = HopState(at: nat, frontier: nat, have: bool, guard: Option<nat>)

  const HOP_START := HopState(0, 0, false, None)

  datatype HopTurn = Fail | Arrived | Hopped(next: HopState)

  function LookHop(b: Bytes, h: HopState, min: nat): (t: HopTurn)
    requires h.at < |b|
    ensures t.Hopped? ==> h.at < t.next.at <= |b|
  {
    if h.at + HEADER > |b| then Fail
    else if !ConstantsAt(b, h.at) || LengthAt(b, h.at) > MAX_PAYLOAD then
      if TornHeader(b[h.at..h.at + HEADER]) then Arrived else Fail
    else if !WholeAt(b, h.at) then Fail
    else
      var epoch := EpochAt(b, h.at);
      if (h.have && epoch < h.frontier) || epoch == 0 then Fail
      else if epoch > min then Arrived
      else Hopped(HopState(EndAt(b, h.at), epoch, true, Some(h.at)))
  }

  function Hop(b: Bytes, h: HopState, min: nat): (r: Option<HopState>)
    requires h.at <= |b|
    ensures r.Some? ==> h.at <= r.value.at <= |b|
    decreases |b| - h.at
  {
    if h.at == |b| then Some(h)
    else
      match LookHop(b, h, min)
      case Fail => None
      case Arrived => Some(h)
      case Hopped(next) => Hop(b, next, min)
  }

  predicate GuardHolds(c: Codec, b: Bytes, guard: Option<nat>) {
    guard.Some? ==> WholeAt(b, guard.value) && ChecksumAt(c, b, guard.value)
  }

  function Landed(h: HopState): Cursor {
    Cursor(h.at, h.frontier, h.have, [])
  }

  /** Where the walk begins: past the covered frames, or at the start when a hop cannot be trusted. */
  function Begin(c: Codec, b: Bytes, min: nat): (cur: Cursor)
    ensures cur.at <= |b|
  {
    if min == 0 then START
    else
      match Hop(b, HOP_START, min)
      case None => START
      case Some(h) => if GuardHolds(c, b, h.guard) then Landed(h) else START
  }

  // ----- The verdict ------------------------------------------------------------------------

  datatype Verdict = Refuse | Accept(end: nat, frontier: nat, records: seq<LogRecord>, truncated: bool)

  predicate Survivor(c: Codec, b: Bytes, at: nat) {
    exists j :: at < j < |b| && IntactAt(c, b, j)
  }

  /** An anomaly is repaired only as the end of the log. */
  predicate Repairable(c: Codec, b: Bytes, at: nat, brokenEnd: Option<nat>)
    requires at <= |b|
  {
    && (brokenEnd.Some? ==> forall i :: brokenEnd.value <= i < |b| ==> b[i] == 0)
    && !Survivor(c, b, at)
  }

  function Judge(c: Codec, b: Bytes, cur: Cursor, stop: Stop): Verdict
    requires cur.at <= |b|
  {
    match stop
    case Rejected => Refuse
    case AtEnd => Accept(cur.at, cur.frontier, cur.records, false)
    case Torn(brokenEnd) =>
      if Zero(b, cur.at, |b|) then Accept(cur.at, cur.frontier, cur.records, false)
      else if Repairable(c, b, cur.at, brokenEnd) then Accept(cur.at, cur.frontier, cur.records, true)
      else Refuse
  }

  function Scan(c: Codec, b: Bytes, min: nat): (v: Verdict)
    ensures v.Accept? ==> v.end <= |b|
  {
    var r := Walk(c, b, Begin(c, b, min), min);
    Judge(c, b, r.0, r.1)
  }

  function Zeroes(n: nat): (z: Bytes)
    ensures |z| == n && forall i :: 0 <= i < n ==> z[i] == 0
  {
    seq(n, i => 0)
  }

  /** The file an accepting scan leaves: everything from the end of the log is zero. */
  function Repaired(b: Bytes, end: nat, size: nat): (r: Bytes)
    requires end <= |b| && end <= size
    ensures |r| == size && r[..end] == b[..end] && Zero(r, end, size)
  {
    b[..end] + Zeroes(size - end)
  }
}
