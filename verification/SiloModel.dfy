/**
 * The stateless commit protocol, its stable readers and the tombstone reaper as one
 * interleaved step machine. Each Action is one atomic step of one thread; a run is any
 * sequence of enabled actions, so a property of every run is a property of every
 * interleaving of committers, readers, epoch ticks and the reaper.
 */
module SiloModel {
  import opened Basics
  import opened Versions

  datatype Key = Key(table: string, key: string)
  type SlotId = nat
  type TxnId = nat
  type ReaderId = nat

  /** Who set the lock bit of a slot. Auxiliary: the code keeps only the bit. */
  datatype Owner = Nobody | ByTxn(txn: TxnId) | ByReaper

  /** A DataItem. No bytes means a blank slot or a tombstone. */
  datatype Slot = Slot(key: Key, word: Tid, bytes: Bytes, owner: Owner)

  /** A published version of a key and the transaction that published it. */
  datatype Version = Version(tid: Tid, bytes: Bytes, writer: Option<TxnId>)

  datatype Read = Read(key: Key, found: bool, tid: Tid, bytes: Bytes)
  datatype Write = Write(key: Key, value: Bytes, isDelete: bool)

  datatype Phase = Resolving | Locking | Checking | Validating | Installing | Publishing | Done
                 | Aborting | Aborted

  /** The slot a validation step resolved its key to. */
  datatype Lookup = NotLooked | Missing | At(slot: SlotId)

  datatype Txn = Txn(
    readSet: seq<Read>,
    writeSet: seq<Write>,
    phase: Phase,
    items: seq<SlotId>,         // slot of writeSet[i]
    order: seq<SlotId>,         // items, address-sorted and deduplicated
    next: nat,                  // progress inside the current phase
    locked: map<SlotId, Tid>,   // pre-lock words
    lookup: Lookup,
    torn: bool,                 // the row being installed is half written
    epoch: nat,                 // commit epoch, once the point is reached
    pos: int,                   // position among the serialization points, or -1
    tids: map<SlotId, Tid>)     // published words

  datatype Reader = Reader(key: Key, slot: SlotId, sample: Option<Tid>, size: Option<nat>, got: Bytes)

  datatype Candidate = Candidate(key: Key, slot: SlotId, tid: Tid)
  datatype ReaperState = Idle | Picked(c: Candidate) | Holding(c: Candidate) | Detached(c: Candidate)

  datatype State = State(
    epoch: nat,
    slots: map<SlotId, Slot>,
    index: map<Key, SlotId>,
    txns: map<TxnId, Txn>,
    readers: map<ReaderId, Reader>,
    evidence: set<Read>,
    candidates: seq<Candidate>,
    reaper: ReaperState,
    initial: map<Key, Bytes>,          // auxiliary: the rows the run started from
    points: seq<TxnId>,                // auxiliary: transactions by serialization point
    hist: map<Key, seq<Version>>)      // auxiliary: published versions of each key

  // ----- Derived notions ---------------------------------------------------------------

  function Payload(w: Write): Bytes {
    if w.isDelete then [] else w.value
  }

  /** What a key holds after the writes are applied in order over `before`. */
  function Effect(ws: seq<Write>, k: Key, before: Bytes): Bytes {
    if ws == [] then before
    else if ws[|ws| - 1].key == k then Payload(ws[|ws| - 1])
    else Effect(ws[..|ws| - 1], k, before)
  }

  predicate WritesKey(ws: seq<Write>, k: Key) {
    exists i :: 0 <= i < |ws| && ws[i].key == k
  }

  predicate Committed(x: Txn) {
    x.phase == Installing || x.phase == Publishing || x.phase == Done
  }

  predicate Attached(s: State, x: SlotId) {
    x in s.slots && s.slots[x].key in s.index && s.index[s.slots[x].key] == x
  }

  predicate StrictlyAscending(xs: seq<SlotId>) {
    forall i, j :: 0 <= i < j < |xs| ==> xs[i] < xs[j]
  }

  function Hist(s: State, k: Key): seq<Version> {
    if k in s.hist then s.hist[k] else []
  }

  function LastTid(s: State, k: Key): Tid {
    var h := Hist(s, k);
    if h == [] then EMPTY else h[|h| - 1].tid
  }

  /** The newest published contents of a key. */
  function Current(s: State, k: Key): Bytes {
    var h := Hist(s, k);
    if h == [] then [] else h[|h| - 1].bytes
  }

  function InitialOf(initial: map<Key, Bytes>, k: Key): Bytes {
    if k in initial then initial[k] else []
  }

  // ----- Steps: clock and stable readers -------------------------------------------------

  datatype ReadAct = ReadBegin(k: Key) | ReadSample | ReadSize | ReadByte(junk: Byte) | ReadEnd

  datatype CommitAct =
    | Begin(readSet: seq<Read>, writeSet: seq<Write>)
    | Resolve(blank: SlotId)
    | Sort(order: seq<SlotId>)
    | LockItem
    | CheckItem
    | Point
    | LookUp
    | Validate
    | GiveUp
    | Decide
    | Tear(bytes: Bytes)
    | Install
    | Installed
    | Publish
    | Register
    | Unlock(x: SlotId)
    | Unlocked

  datatype ReapAct = Pick(i: nat) | Skip(requeue: bool) | Lock | Restore | Detach | Retire

  datatype Action = Tick | ReaderAct(r: ReaderId, ra: ReadAct) | TxnAct(t: TxnId, ca: CommitAct)
      | ReaperAct(pa: ReapAct)

  function DoTick(s: State): State {
    s.(epoch := s.epoch + 1)
  }

  predicate CanReadBegin(s: State, r: ReaderId, k: Key) {
    r !in s.readers && k in s.index
  }

  function DoReadBegin(s: State, r: ReaderId, k: Key): State
    requires CanReadBegin(s, r, k)
  {
    s.(readers := s.readers[r := Reader(k, s.index[k], None, None, [])])
  }

  predicate ReaderReady(s: State, r: ReaderId) {
    r in s.readers && s.readers[r].slot in s.slots
  }

  /** Load the version word; a locked word is spun on. */
  predicate CanReadSample(s: State, r: ReaderId) {
    ReaderReady(s, r) && s.readers[r].sample.None? && !Locked(s.slots[s.readers[r].slot].word)
  }

  function DoReadSample(s: State, r: ReaderId): State
    requires CanReadSample(s, r)
  {
    var rd := s.readers[r];
    s.(readers := s.readers[r := rd.(sample := Some(s.slots[rd.slot].word), size := None, got := [])])
  }

  predicate CanReadSize(s: State, r: ReaderId) {
    ReaderReady(s, r) && s.readers[r].sample.Some? && s.readers[r].size.None?
  }

  function DoReadSize(s: State, r: ReaderId): State
    requires CanReadSize(s, r)
  {
    var rd := s.readers[r];
    s.(readers := s.readers[r := rd.(size := Some(|s.slots[rd.slot].bytes|), got := [])])
  }

  /** Copy one byte; past the end of a row that shrank meanwhile the byte is arbitrary. */
  predicate CanReadByte(s: State, r: ReaderId) {
    ReaderReady(s, r) && s.readers[r].sample.Some? && s.readers[r].size.Some?
    && |s.readers[r].got| < s.readers[r].size.value
  }

  function DoReadByte(s: State, r: ReaderId, junk: Byte): State
    requires CanReadByte(s, r)
  {
    var rd := s.readers[r];
    var bytes := s.slots[rd.slot].bytes;
    var b := if |rd.got| < |bytes| then bytes[|rd.got|] else junk;
    s.(readers := s.readers[r := rd.(got := rd.got + [b])])
  }

  predicate CanReadEnd(s: State, r: ReaderId) {
    ReaderReady(s, r) && s.readers[r].sample.Some? && s.readers[r].size.Some?
    && |s.readers[r].got| == s.readers[r].size.value
  }

  /** Reload the word: an unmoved one completes the read, a moved one restarts it. */
  function DoReadEnd(s: State, r: ReaderId): State
    requires CanReadEnd(s, r)
  {
    var rd := s.readers[r];
    if s.slots[rd.slot].word == rd.sample.value then
      s.(readers := s.readers - {r},
         evidence := s.evidence + {Read(rd.key, |rd.got| > 0, rd.sample.value, rd.got)})
    else
      s.(readers := s.readers[r := rd.(sample := None, size := None, got := [])])
  }

  // ----- Steps: the committer -------------------------------------------------------------

  predicate InPhase(s: State, t: TxnId, p: Phase) {
    t in s.txns && s.txns[t].phase == p
  }

  /** What every step of a committer leaves alone. */
  predicate Frame(s: State, s': State, t: TxnId) {
    && s'.readers == s.readers && s'.evidence == s.evidence && s'.initial == s.initial
    && s'.epoch == s.epoch && s'.reaper == s.reaper
    && t in s'.txns && s'.txns == s.txns[t := s'.txns[t]]
    && (t in s.txns ==>
          && s'.txns[t].readSet == s.txns[t].readSet && s'.txns[t].writeSet == s.txns[t].writeSet
          && (Committed(s.txns[t]) ==> Committed(s'.txns[t])))
  }

  predicate SameRows(s: State, s': State) {
    s'.slots == s.slots && s'.index == s.index && s'.hist == s.hist
  }

  function With(s: State, t: TxnId, x: Txn): State {
    s.(txns := s.txns[t := x])
  }

  /** A request: every present read is one a stable reader completed. */
  predicate CanBegin(s: State, t: TxnId, readSet: seq<Read>) {
    t !in s.txns
    && forall i :: 0 <= i < |readSet| ==>
         if readSet[i].found then readSet[i] in s.evidence else readSet[i].bytes == []
  }

  function DoBegin(s: State, t: TxnId, readSet: seq<Read>, writeSet: seq<Write>): (s': State)
    ensures t !in s.txns ==> Frame(s, s', t) && SameRows(s, s')
  {
    With(s, t, Txn(readSet, writeSet, Resolving, [], [], 0, map[], NotLooked, false, 0, -1, map[]))
  }

  /** GetOrInsert: a key without a slot gets a blank one. */
  predicate CanResolve(s: State, t: TxnId, blank: SlotId) {
    InPhase(s, t, Resolving) && |s.txns[t].items| < |s.txns[t].writeSet| && blank !in s.slots
  }

  function DoResolveHit(s: State, t: TxnId, x: Txn, k: Key): State
    requires k in s.index
  {
    With(s, t, x.(items := x.items + [s.index[k]]))
  }

  function DoResolveMiss(s: State, t: TxnId, x: Txn, k: Key, blank: SlotId): State {
    With(s, t, x.(items := x.items + [blank]))
      .(slots := s.slots[blank := Slot(k, EMPTY, [], Nobody)], index := s.index[k := blank])
  }

  function DoResolve(s: State, t: TxnId, blank: SlotId): (s': State)
    requires CanResolve(s, t, blank)
    ensures Frame(s, s', t) && s'.hist == s.hist
  {
    var x := s.txns[t];
    var k := x.writeSet[|x.items|].key;
    if k in s.index then DoResolveHit(s, t, x, k) else DoResolveMiss(s, t, x, k, blank)
  }

  predicate CanSort(s: State, t: TxnId, order: seq<SlotId>) {
    InPhase(s, t, Resolving) && |s.txns[t].items| == |s.txns[t].writeSet|
    && StrictlyAscending(order)
    && (forall i :: 0 <= i < |order| ==> order[i] in s.txns[t].items)
    && (forall i :: 0 <= i < |s.txns[t].items| ==> s.txns[t].items[i] in order)
  }

  function DoSort(s: State, t: TxnId, order: seq<SlotId>): (s': State)
    requires CanSort(s, t, order)
    ensures Frame(s, s', t) && SameRows(s, s')
  {
    With(s, t, s.txns[t].(phase := Locking, order := order, next := 0))
  }

  /** Phase 1.1: the CAS that sets the lock bit. */
  predicate CanLockItem(s: State, t: TxnId) {
    InPhase(s, t, Locking) && s.txns[t].next < |s.txns[t].order|
    && s.txns[t].order[s.txns[t].next] in s.slots
    && !Locked(s.slots[s.txns[t].order[s.txns[t].next]].word)
  }

  function DoLockItem(s: State, t: TxnId): (s': State)
    requires CanLockItem(s, t)
    ensures Frame(s, s', t) && s'.hist == s.hist
  {
    var x := s.txns[t];
    var i := x.order[x.next];
    var sl := s.slots[i];
    With(s, t, x.(phase := Checking, locked := x.locked[i := sl.word]))
      .(slots := s.slots[i := sl.(word := WithLock(sl.word), owner := ByTxn(t))])
  }

  /** The locked slot must still be the one its key resolves to. */
  predicate CanCheckItem(s: State, t: TxnId) {
    InPhase(s, t, Checking) && s.txns[t].next < |s.txns[t].order|
  }

  function DoCheckItem(s: State, t: TxnId): (s': State)
    requires CanCheckItem(s, t)
    ensures Frame(s, s', t) && SameRows(s, s')
  {
    var x := s.txns[t];
    if Attached(s, x.order[x.next]) then With(s, t, x.(phase := Locking, next := x.next + 1))
    else With(s, t, x.(phase := Aborting))
  }

  /** Phase 1.2: the epoch re-read with all locks held; the serialization point. */
  predicate CanPoint(s: State, t: TxnId) {
    InPhase(s, t, Locking) && s.txns[t].next == |s.txns[t].order|
  }

  function DoPoint(s: State, t: TxnId): (s': State)
    requires CanPoint(s, t)
    ensures Frame(s, s', t) && SameRows(s, s')
  {
    With(s, t, s.txns[t].(phase := Validating, next := 0, lookup := NotLooked, epoch := s.epoch, pos := |s.points|))
      .(points := s.points + [t])
  }

  /** Phase 2.1, first half: resolve the key of the next read. */
  predicate CanLookUp(s: State, t: TxnId) {
    InPhase(s, t, Validating) && s.txns[t].next < |s.txns[t].readSet| && s.txns[t].lookup == NotLooked
  }

  function DoLookUp(s: State, t: TxnId): (s': State)
    requires CanLookUp(s, t)
    ensures Frame(s, s', t) && SameRows(s, s')
  {
    var x := s.txns[t];
    var k := x.readSet[x.next].key;
    With(s, t, x.(lookup := if k in s.index then At(s.index[k]) else Missing))
  }

  /** Phase 2.1, second half: does the resolved slot still show what was read? */
  predicate ReadHolds(s: State, x: Txn, rd: Read) {
    match x.lookup
    case NotLooked => false
    case Missing => !rd.found
    case At(i) =>
      i in s.slots &&
      if !rd.found then s.slots[i].bytes == []
      else
        && (if i in x.locked then x.locked[i] == rd.tid && s.slots[i].word == WithLock(x.locked[i])
            else s.slots[i].word == rd.tid)
        && s.slots[i].bytes != []
  }

  predicate CanValidate(s: State, t: TxnId) {
    InPhase(s, t, Validating) && s.txns[t].next < |s.txns[t].readSet| && s.txns[t].lookup != NotLooked
  }

  function DoValidate(s: State, t: TxnId): (s': State)
    requires CanValidate(s, t)
    ensures Frame(s, s', t) && SameRows(s, s')
  {
    var x := s.txns[t];
    if ReadHolds(s, x, x.readSet[x.next]) then With(s, t, x.(next := x.next + 1, lookup := NotLooked))
    else With(s, t, x.(phase := Aborting))
  }

  /** Any abort decided before the install: missing table, range, insert or UNIQUE conflict. */
  predicate CanGiveUp(s: State, t: TxnId) {
    t in s.txns && (s.txns[t].phase in {Resolving, Locking, Checking, Validating})
  }

  function DoGiveUp(s: State, t: TxnId): (s': State)
    requires CanGiveUp(s, t)
    ensures Frame(s, s', t) && SameRows(s, s')
  {
    With(s, t, s.txns[t].(phase := Aborting))
  }

  predicate CanDecide(s: State, t: TxnId) {
    InPhase(s, t, Validating) && s.txns[t].next == |s.txns[t].readSet|
  }

  function DoDecide(s: State, t: TxnId): (s': State)
    requires CanDecide(s, t)
    ensures Frame(s, s', t) && SameRows(s, s')
  {
    With(s, t, s.txns[t].(phase := Installing, next := 0, torn := false))
  }

  predicate CanInstall(s: State, t: TxnId) {
    InPhase(s, t, Installing)
    && s.txns[t].next < |s.txns[t].writeSet| && s.txns[t].next < |s.txns[t].items|
    && s.txns[t].items[s.txns[t].next] in s.slots
  }

  /** A row copy in progress leaves arbitrary bytes in the slot. */
  function DoTear(s: State, t: TxnId, bytes: Bytes): (s': State)
    requires CanInstall(s, t)
    ensures Frame(s, s', t) && s'.hist == s.hist
  {
    var x := s.txns[t];
    var i := x.items[x.next];
    With(s, t, x.(torn := true)).(slots := s.slots[i := s.slots[i].(bytes := bytes)])
  }

  /** Phase 3.1: one row is installed. */
  function DoInstall(s: State, t: TxnId): (s': State)
    requires CanInstall(s, t)
    ensures Frame(s, s', t) && s'.hist == s.hist
  {
    var x := s.txns[t];
    var i := x.items[x.next];
    With(s, t, x.(next := x.next + 1, torn := false))
      .(slots := s.slots[i := s.slots[i].(bytes := Payload(x.writeSet[x.next]))])
  }

  predicate CanInstalled(s: State, t: TxnId) {
    InPhase(s, t, Installing) && s.txns[t].next == |s.txns[t].writeSet|
  }

  function DoInstalled(s: State, t: TxnId): (s': State)
    requires CanInstalled(s, t)
    ensures Frame(s, s', t) && SameRows(s, s')
  {
    With(s, t, s.txns[t].(phase := Publishing, next := 0))
  }

  /** Phase 3.3: unlock one slot by publishing its new version. */
  predicate CanPublish(s: State, t: TxnId) {
    InPhase(s, t, Publishing) && s.txns[t].next < |s.txns[t].order|
    && s.txns[t].order[s.txns[t].next] in s.slots
  }

  function DoPublish(s: State, t: TxnId): (s': State)
    requires CanPublish(s, t)
    ensures Frame(s, s', t)
  {
    var x := s.txns[t];
    var i := x.order[x.next];
    var sl := s.slots[i];
    var w := Successor(sl.word, x.epoch);
    With(s, t, x.(next := x.next + 1, tids := x.tids[i := w]))
      .(slots := s.slots[i := sl.(word := w, owner := Nobody)],
        hist := s.hist[sl.key := Hist(s, sl.key) + [Version(w, sl.bytes, Some(t))]])
  }

  function Candidates(x: Txn, n: nat): seq<Candidate>
    requires n <= |x.writeSet|
  {
    if n == 0 then []
    else
      var i := n - 1;
      if x.writeSet[i].isDelete && i < |x.items| && x.items[i] in x.tids && x.tids[x.items[i]] != EMPTY then
        Candidates(x, i) + [Candidate(x.writeSet[i].key, x.items[i], x.tids[x.items[i]])]
      else Candidates(x, i)
  }

  /** Phase 3.4: hand the deleted rows to the reaper. */
  predicate CanRegister(s: State, t: TxnId) {
    InPhase(s, t, Publishing) && s.txns[t].next == |s.txns[t].order|
  }

  function DoRegister(s: State, t: TxnId): (s': State)
    requires CanRegister(s, t)
    ensures Frame(s, s', t) && SameRows(s, s')
  {
    var x := s.txns[t];
    With(s, t, x.(phase := Done)).(candidates := s.candidates + Candidates(x, |x.writeSet|))
  }

  /** Abort: restore the pre-lock word of one slot. */
  predicate CanUnlock(s: State, t: TxnId, x: SlotId) {
    InPhase(s, t, Aborting) && x in s.txns[t].locked && x in s.slots
    && s.slots[x].owner == ByTxn(t) && Locked(s.slots[x].word)
  }

  function DoUnlock(s: State, t: TxnId, x: SlotId): (s': State)
    requires CanUnlock(s, t, x)
    ensures Frame(s, s', t) && s'.hist == s.hist
  {
    var sl := s.slots[x];
    s.(slots := s.slots[x := sl.(word := Tid(sl.word.epoch, sl.word.tid - 1), owner := Nobody)])
  }

  predicate CanUnlocked(s: State, t: TxnId) {
    InPhase(s, t, Aborting)
    && forall x :: x in s.slots ==> s.slots[x].owner != ByTxn(t)
  }

  function DoUnlocked(s: State, t: TxnId): (s': State)
    requires CanUnlocked(s, t)
    ensures Frame(s, s', t) && SameRows(s, s')
  {
    With(s, t, s.txns[t].(phase := Aborted))
  }

  // ----- Steps: the reaper ------------------------------------------------------------------

  /** The grace period: one full epoch must have passed since the delete. */
  predicate GraceElapsed(published: nat, deleted: nat) {
    published > deleted && published - deleted > 1
  }

  predicate CanReapPick(s: State, i: nat) {
    s.reaper == Idle && i < |s.candidates| && GraceElapsed(s.epoch, s.candidates[i].tid.epoch)
  }

  function DoReapPick(s: State, i: nat): State
    requires CanReapPick(s, i)
  {
    s.(reaper := Picked(s.candidates[i]), candidates := s.candidates[..i] + s.candidates[i + 1..])
  }

  function DoReapSkip(s: State, requeue: bool): State
    requires s.reaper.Picked?
  {
    s.(reaper := Idle, candidates := if requeue then s.candidates + [s.reaper.c] else s.candidates)
  }

  predicate CanReapLock(s: State) {
    s.reaper.Picked?
    && s.reaper.c.key in s.index && s.index[s.reaper.c.key] == s.reaper.c.slot
    && s.reaper.c.slot in s.slots
    && !Locked(s.slots[s.reaper.c.slot].word) && s.slots[s.reaper.c.slot].word == s.reaper.c.tid
  }

  function DoReapLock(s: State): State
    requires CanReapLock(s)
  {
    var c := s.reaper.c;
    var sl := s.slots[c.slot];
    s.(reaper := Holding(c), slots := s.slots[c.slot := sl.(word := WithLock(sl.word), owner := ByReaper)])
  }

  predicate CanReapUnlock(s: State) {
    s.reaper.Holding? && s.reaper.c.slot in s.slots
  }

  function DoReapUnlock(s: State): State
    requires CanReapUnlock(s)
  {
    var c := s.reaper.c;
    s.(reaper := Idle, slots := s.slots[c.slot := s.slots[c.slot].(word := c.tid, owner := Nobody)])
  }

  predicate CanReapDetach(s: State) {
    s.reaper.Holding? && s.reaper.c.slot in s.slots
    && s.slots[s.reaper.c.slot].bytes == []
    && s.reaper.c.key in s.index && s.index[s.reaper.c.key] == s.reaper.c.slot
    && s.slots[s.reaper.c.slot].word == WithLock(s.reaper.c.tid)
  }

  function DoReapDetach(s: State): State
    requires CanReapDetach(s)
  {
    s.(reaper := Detached(s.reaper.c), index := s.index - {s.reaper.c.key})
  }

  predicate CanReapRetire(s: State) {
    s.reaper.Detached? && s.reaper.c.slot in s.slots
  }

  function DoReapRetire(s: State): State
    requires CanReapRetire(s)
  {
    var c := s.reaper.c;
    s.(reaper := Idle,
       slots := s.slots[c.slot := s.slots[c.slot].(word := Tid(c.tid.epoch, c.tid.tid + 2), owner := Nobody)])
  }

  // ----- Runs -----------------------------------------------------------------------------

  predicate ReaderStep(s: State, r: ReaderId, a: ReadAct, s': State) {
    match a
    case ReadBegin(k) => CanReadBegin(s, r, k) && s' == DoReadBegin(s, r, k)
    case ReadSample => CanReadSample(s, r) && s' == DoReadSample(s, r)
    case ReadSize => CanReadSize(s, r) && s' == DoReadSize(s, r)
    case ReadByte(junk) => CanReadByte(s, r) && s' == DoReadByte(s, r, junk)
    case ReadEnd => CanReadEnd(s, r) && s' == DoReadEnd(s, r)
  }

  predicate TxnStep(s: State, t: TxnId, a: CommitAct, s': State) {
    match a
    case Begin(readSet, writeSet) => CanBegin(s, t, readSet) && s' == DoBegin(s, t, readSet, writeSet)
    case Resolve(blank) => CanResolve(s, t, blank) && s' == DoResolve(s, t, blank)
    case Sort(order) => CanSort(s, t, order) && s' == DoSort(s, t, order)
    case LockItem => CanLockItem(s, t) && s' == DoLockItem(s, t)
    case CheckItem => CanCheckItem(s, t) && s' == DoCheckItem(s, t)
    case Point => CanPoint(s, t) && s' == DoPoint(s, t)
    case LookUp => CanLookUp(s, t) && s' == DoLookUp(s, t)
    case Validate => CanValidate(s, t) && s' == DoValidate(s, t)
    case GiveUp => CanGiveUp(s, t) && s' == DoGiveUp(s, t)
    case Decide => CanDecide(s, t) && s' == DoDecide(s, t)
    case Tear(bytes) => CanInstall(s, t) && s' == DoTear(s, t, bytes)
    case Install => CanInstall(s, t) && s' == DoInstall(s, t)
    case Installed => CanInstalled(s, t) && s' == DoInstalled(s, t)
    case Publish => CanPublish(s, t) && s' == DoPublish(s, t)
    case Register => CanRegister(s, t) && s' == DoRegister(s, t)
    case Unlock(x) => CanUnlock(s, t, x) && s' == DoUnlock(s, t, x)
    case Unlocked => CanUnlocked(s, t) && s' == DoUnlocked(s, t)
  }

  predicate ReaperStep(s: State, a: ReapAct, s': State) {
    match a
    case Pick(i) => CanReapPick(s, i) && s' == DoReapPick(s, i)
    case Skip(requeue) => s.reaper.Picked? && s' == DoReapSkip(s, requeue)
    case Lock => CanReapLock(s) && s' == DoReapLock(s)
    case Restore => CanReapUnlock(s) && s' == DoReapUnlock(s)
    case Detach => CanReapDetach(s) && s' == DoReapDetach(s)
    case Retire => CanReapRetire(s) && s' == DoReapRetire(s)
  }

  predicate Step(s: State, a: Action, s': State) {
    match a
    case Tick => s' == DoTick(s)
    case ReaderAct(r, ra) => ReaderStep(s, r, ra, s')
    case TxnAct(t, ca) => TxnStep(s, t, ca, s')
    case ReaperAct(pa) => ReaperStep(s, pa, s')
  }

  /**
   * A database as startup leaves it: every row attached, unlocked and older than the epoch
   * the run starts at.
   */
  predicate Init(s: State) {
    && s.txns == map[] && s.readers == map[] && s.evidence == {} && s.points == []
    && s.candidates == [] && s.reaper == Idle
    && s.hist.Keys == s.index.Keys && s.initial.Keys == s.index.Keys
    && (forall k :: k in s.index ==> s.index[k] in s.slots && s.slots[s.index[k]].key == k)
    && (forall x :: x in s.slots ==>
          && Attached(s, x) && s.slots[x].owner == Nobody
          && !Locked(s.slots[x].word) && s.slots[x].word.epoch < s.epoch
          && s.slots[x].word != EMPTY
          && s.initial[s.slots[x].key] == s.slots[x].bytes
          && s.hist[s.slots[x].key] == [Version(s.slots[x].word, s.slots[x].bytes, None)])
  }

  predicate IsRun(run: seq<State>, acts: seq<Action>) {
    && |run| == |acts| + 1
    && Init(run[0])
    && forall i :: 0 <= i < |acts| ==> Step(run[i], acts[i], run[i + 1])
  }
}
