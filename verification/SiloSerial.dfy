/**
 * Serializability: in every run the committed transactions read what they would have read,
 * and leave what they would have left, had they run one at a time in the order of their
 * serialization points.
 */
module SiloSerial {
  import opened Basics
  import opened Versions
  import opened SiloModel
  import opened SiloLocks
  import opened SiloHistory
  import opened SiloReads

  // ----- The serial reference -------------------------------------------------------------

  /** What a key holds after the committed ones among the first n points have run serially. */
  function SerialOf(initial: map<Key, Bytes>, txns: map<TxnId, Txn>, points: seq<TxnId>, n: nat, k: Key): Bytes
    requires n <= |points|
  {
    if n == 0 then InitialOf(initial, k)
    else
      var before := SerialOf(initial, txns, points, n - 1, k);
      var t := points[n - 1];
      if t in txns && Committed(txns[t]) then Effect(txns[t].writeSet, k, before) else before
  }

  function Serial(s: State, n: nat, k: Key): Bytes
    requires n <= |s.points|
  {
    SerialOf(s.initial, s.txns, s.points, n, k)
  }

  /** The committed transaction that still has to publish the key, if any. */
  function Writer(s: State, k: Key): Option<TxnId> {
    if k in s.index && s.index[k] in s.slots && BeingInstalled(s, s.index[k]) then Some(s.slots[s.index[k]].owner.txn)
    else None
  }

  lemma WriterIsTxn(s: State, k: Key)
    ensures Writer(s, k).Some? ==> Writer(s, k).value in s.txns && Committed(s.txns[Writer(s, k).value])
  {
  }

  /** The contents of a key once every decided commit has published. */
  function Logical(s: State, k: Key): Bytes {
    match Writer(s, k)
    case None => Current(s, k)
    case Some(t) => if t in s.txns then Effect(s.txns[t].writeSet, k, Current(s, k)) else Current(s, k)
  }

  /** How many reads of a transaction have passed validation and still count. */
  function Validated(x: Txn): nat {
    if x.phase == Validating && x.next <= |x.readSet| then x.next
    else if Committed(x) then |x.readSet| else 0
  }

  /** Reads the protocol protects: present rows, and absent keys the request itself writes. */
  predicate Protected(x: Txn, i: nat)
    requires i < |x.readSet|
  {
    x.readSet[i].found || WritesKey(x.writeSet, x.readSet[i].key)
  }

  predicate Early(p: Phase) {
    p == Resolving || p == Locking || p == Checking
  }

  predicate Late(p: Phase) {
    p == Validating || p == Installing || p == Publishing || p == Done
  }

  predicate PosTxnOk(s: State, t: TxnId)
    requires t in s.txns
  {
    var x := s.txns[t];
    && (x.pos >= 0 ==> x.pos < |s.points| && s.points[x.pos] == t && x.epoch <= s.epoch)
    && (Early(x.phase) ==> x.pos == -1)
    && (Late(x.phase) ==> x.pos >= 0)
  }

  predicate PosOk(s: State) {
    && (forall t :: t in s.txns ==> PosTxnOk(s, t))
    && (forall i :: 0 <= i < |s.points| ==> s.points[i] in s.txns && s.txns[s.points[i]].pos == i)
    && (forall i, j :: 0 <= i < j < |s.points| ==> s.txns[s.points[i]].epoch <= s.txns[s.points[j]].epoch)
  }

  ghost predicate LogicalOk(s: State) {
    forall k :: Serial(s, |s.points|, k) == Logical(s, k)
  }

  /** y writes nothing x writes, and validated no protected read of anything x writes. */
  predicate NoOverlap(x: Txn, y: Txn) {
    && (forall a :: 0 <= a < |x.writeSet| ==> !WritesKey(y.writeSet, x.writeSet[a].key))
    && (forall i :: 0 <= i < Validated(y) && Protected(y, i) ==> !WritesKey(x.writeSet, y.readSet[i].key))
  }

  predicate ApartOk(s: State) {
    forall t, u :: t in s.txns && u in s.txns && s.txns[t].phase == Validating && s.txns[t].pos < s.txns[u].pos ==>
      NoOverlap(s.txns[t], s.txns[u])
  }

  predicate SerialReads(s: State, t: TxnId)
    requires t in s.txns
  {
    var x := s.txns[t];
    0 <= x.pos <= |s.points| ==>
      forall i :: 0 <= i < Validated(x) && Protected(x, i) ==> Serial(s, x.pos, x.readSet[i].key) == x.readSet[i].bytes
  }

  predicate ReadsOk(s: State) {
    forall t :: t in s.txns ==> SerialReads(s, t)
  }

  /** A committed later writer of something x read is unpublished there, or has outdated the read. */
  predicate Outdated(s: State, x: Txn, u: TxnId)
    requires u in s.txns
  {
    forall i :: 0 <= i < |x.readSet| && x.readSet[i].found && WritesKey(s.txns[u].writeSet, x.readSet[i].key) ==>
      Writer(s, x.readSet[i].key) == Some(u) || Less(x.readSet[i].tid, LastTid(s, x.readSet[i].key))
  }

  predicate StaleOk(s: State) {
    forall t, u | t in s.txns && u in s.txns && Committed(s.txns[u])
                  && s.txns[t].phase == Validating && s.txns[t].pos < s.txns[u].pos :: Outdated(s, s.txns[t], u)
  }

  ghost predicate SerialInv(s: State) {
    PosOk(s) && LogicalOk(s) && ApartOk(s) && ReadsOk(s) && StaleOk(s)
  }

  // ----- Quiet steps -----------------------------------------------------------------------

  predicate QuietTxn(x: Txn, x': Txn) {
    && x'.readSet == x.readSet && x'.writeSet == x.writeSet && x'.pos == x.pos && x'.epoch == x.epoch
    && (Committed(x') <==> Committed(x)) && (x'.phase == Validating ==> x.phase == Validating)
    && Validated(x') <= Validated(x)
    && (Early(x'.phase) ==> Early(x.phase)) && (Late(x'.phase) ==> Late(x.phase))
  }

  /** Steps that neither publish, nor decide, nor pass a serialization point or a validation. */
  ghost predicate Quiet(s: State, s': State) {
    && s'.initial == s.initial && s'.points == s.points && s'.hist == s.hist && s.epoch <= s'.epoch
    && (forall k :: Writer(s', k) == Writer(s, k))
    && (forall t :: t in s.txns ==> t in s'.txns && QuietTxn(s.txns[t], s'.txns[t]))
    && (forall t :: t in s'.txns && t !in s.txns ==> s'.txns[t].phase == Resolving && s'.txns[t].pos == -1)
  }

  lemma SerialFrame(initial: map<Key, Bytes>, txns: map<TxnId, Txn>, txns': map<TxnId, Txn>, points: seq<TxnId>,
                    n: nat, k: Key)
    requires n <= |points|
    requires forall i :: 0 <= i < n ==> points[i] in txns && points[i] in txns'
    requires forall i :: 0 <= i < n ==>
               && (Committed(txns'[points[i]]) <==> Committed(txns[points[i]]))
               && txns'[points[i]].writeSet == txns[points[i]].writeSet
    ensures SerialOf(initial, txns', points, n, k) == SerialOf(initial, txns, points, n, k)
  {
  }

  lemma QuietSerial(s: State, s': State, n: nat, k: Key)
    requires PosOk(s) && Quiet(s, s') && n <= |s.points|
    ensures Serial(s', n, k) == Serial(s, n, k)
  {
    SerialFrame(s.initial, s.txns, s'.txns, s.points, n, k);
  }

  lemma QuietPos(s: State, s': State)
    requires PosOk(s) && Quiet(s, s')
    ensures PosOk(s')
  {
    forall t | t in s'.txns ensures PosTxnOk(s', t) {
      if t in s.txns { assert PosTxnOk(s, t); }
    }
  }

  lemma QuietLogical(s: State, s': State)
    requires PosOk(s) && LogicalOk(s) && Quiet(s, s')
    ensures LogicalOk(s')
  {
    hide Serial, Writer, Effect;
    forall k ensures Serial(s', |s'.points|, k) == Logical(s', k) {
      QuietSerial(s, s', |s.points|, k);
      WriterIsTxn(s, k);
      assert Logical(s', k) == Logical(s, k);
    }
  }

  lemma QuietApart(s: State, s': State)
    requires PosOk(s) && ApartOk(s) && Quiet(s, s')
    ensures ApartOk(s')
  {
    forall t, u | t in s'.txns && u in s'.txns && s'.txns[t].phase == Validating && s'.txns[t].pos < s'.txns[u].pos
      ensures NoOverlap(s'.txns[t], s'.txns[u])
    {
      assert t in s.txns;
      assert PosTxnOk(s, t);
      assert NoOverlap(s.txns[t], s.txns[u]);
    }
  }

  lemma QuietReads(s: State, s': State)
    requires PosOk(s) && ReadsOk(s) && Quiet(s, s')
    ensures ReadsOk(s')
  {
    forall t | t in s'.txns ensures SerialReads(s', t) {
      if t in s.txns {
        assert SerialReads(s, t) && PosTxnOk(s, t);
        var x' := s'.txns[t];
        forall i | x'.pos >= 0 && 0 <= i < Validated(x') && Protected(x', i)
          ensures Serial(s', x'.pos, x'.readSet[i].key) == x'.readSet[i].bytes
        {
          QuietSerial(s, s', x'.pos, x'.readSet[i].key);
        }
      }
    }
  }

  lemma QuietStale(s: State, s': State)
    requires PosOk(s) && StaleOk(s) && Quiet(s, s')
    ensures StaleOk(s')
  {
    forall t, u | t in s'.txns && u in s'.txns && s'.txns[t].phase == Validating && s'.txns[t].pos < s'.txns[u].pos
                  && Committed(s'.txns[u])
      ensures Outdated(s', s'.txns[t], u)
    {
      hide PosOk, Outdated;
      QuietPair(s, s', t, u);
      assert Outdated(s, s.txns[t], u);
      QuietOutdated(s, s', t, u);
    }
  }

  /** A quiet step puts nobody at or past its point. */
  lemma QuietPair(s: State, s': State, t: TxnId, u: TxnId)
    requires PosOk(s) && Quiet(s, s') && t in s'.txns && u in s'.txns && s'.txns[t].phase == Validating
    requires s'.txns[t].pos < s'.txns[u].pos && Committed(s'.txns[u])
    ensures t in s.txns && u in s.txns && s.txns[t].phase == Validating && s.txns[t].pos < s.txns[u].pos
    ensures Committed(s.txns[u])
  {
    assert t in s.txns && u in s.txns;
    assert PosTxnOk(s, t);
  }

  /** A pair is judged by the versions, the pending writers and the two requests alone. */
  lemma OutdatedFrame(s: State, s': State, t: TxnId, u: TxnId)
    requires t in s.txns && u in s.txns && t in s'.txns && u in s'.txns && Outdated(s, s.txns[t], u)
    requires s'.hist == s.hist && forall k :: Writer(s', k) == Writer(s, k)
    requires s'.txns[t].readSet == s.txns[t].readSet && s'.txns[u].writeSet == s.txns[u].writeSet
    ensures Outdated(s', s'.txns[t], u)
  {
    hide WritesKey, Writer, Less;
  }

  lemma QuietOutdated(s: State, s': State, t: TxnId, u: TxnId)
    requires Quiet(s, s') && t in s.txns && u in s.txns && t in s'.txns && u in s'.txns && Outdated(s, s.txns[t], u)
    ensures Outdated(s', s'.txns[t], u)
  {
    hide WritesKey;
  }

  lemma QuietKeepsSerialInv(s: State, s': State)
    requires SerialInv(s) && Quiet(s, s')
    ensures SerialInv(s')
  {
    hide Quiet, PosOk, LogicalOk, ApartOk, ReadsOk, StaleOk;
    QuietPos(s, s');
    QuietLogical(s, s');
    QuietApart(s, s');
    QuietReads(s, s');
    QuietStale(s, s');
  }

  // ----- Which steps are quiet ----------------------------------------------------------------

  lemma SameRowsQuiet(s: State, s': State)
    requires SameRows(s, s') && s'.txns == s.txns
    requires s'.initial == s.initial && s'.points == s.points && s.epoch <= s'.epoch
    ensures Quiet(s, s')
  {
  }

  /** A committer step that leaves rows alone and changes only its own record, quietly. */
  lemma LocalQuiet(s: State, s': State, t: TxnId)
    requires SameRows(s, s') && Frame(s, s', t) && s'.points == s.points && t in s.txns
    requires QuietTxn(s.txns[t], s'.txns[t])
    ensures Quiet(s, s')
  {
  }

  lemma BeginQuiet(s: State, t: TxnId, rs: seq<Read>, ws: seq<Write>)
    requires LockInv(s) && CanBegin(s, t, rs)
    ensures Quiet(s, DoBegin(s, t, rs, ws))
  {
    hide LockInv;
    var s' := DoBegin(s, t, rs, ws);
    forall k ensures Writer(s', k) == Writer(s, k) {
      if k in s.index && s.index[k] in s.slots { OwnerOkOf(s, s.index[k]); }
    }
  }

  lemma ResolveQuiet(s: State, t: TxnId, blank: SlotId)
    requires LockInv(s) && CanResolve(s, t, blank)
    ensures Quiet(s, DoResolve(s, t, blank))
  {
    hide LockInv, Writer, DoResolve;
    forall k ensures Writer(DoResolve(s, t, blank), k) == Writer(s, k) { ResolveWriter(s, t, blank, k); }
    ResolveQuietTxn(s, t, blank);
    FrameQuiet(s, DoResolve(s, t, blank), t);
  }

  lemma FrameQuiet(s: State, s': State, t: TxnId)
    requires Frame(s, s', t) && s'.hist == s.hist && s'.points == s.points && t in s.txns
    requires QuietTxn(s.txns[t], s'.txns[t]) && forall k :: Writer(s', k) == Writer(s, k)
    ensures Quiet(s, s')
  {
    hide Writer;
  }

  lemma ResolveQuietTxn(s: State, t: TxnId, blank: SlotId)
    requires CanResolve(s, t, blank)
    ensures t in s.txns && t in DoResolve(s, t, blank).txns && QuietTxn(s.txns[t], DoResolve(s, t, blank).txns[t])
    ensures DoResolve(s, t, blank).points == s.points
  {
  }

  lemma ResolveWriter(s: State, t: TxnId, blank: SlotId, k: Key)
    requires LockInv(s) && CanResolve(s, t, blank)
    ensures Writer(DoResolve(s, t, blank), k) == Writer(s, k)
  {
    hide LockInv;
    TableOf(s);
  }

  lemma SortQuiet(s: State, t: TxnId, order: seq<SlotId>)
    requires CanSort(s, t, order)
    ensures Quiet(s, DoSort(s, t, order))
  {
    LocalQuiet(s, DoSort(s, t, order), t);
  }

  lemma LockItemQuiet(s: State, t: TxnId)
    requires LockInv(s) && CanLockItem(s, t)
    ensures Quiet(s, DoLockItem(s, t))
  {
    hide LockInv;
    OwnerOkOf(s, s.txns[t].order[s.txns[t].next]);
  }

  lemma CheckItemQuiet(s: State, t: TxnId)
    requires CanCheckItem(s, t)
    ensures Quiet(s, DoCheckItem(s, t))
  {
    LocalQuiet(s, DoCheckItem(s, t), t);
  }

  lemma LookUpQuiet(s: State, t: TxnId)
    requires CanLookUp(s, t)
    ensures Quiet(s, DoLookUp(s, t))
  {
    LocalQuiet(s, DoLookUp(s, t), t);
  }

  lemma GiveUpQuiet(s: State, t: TxnId)
    requires CanGiveUp(s, t)
    ensures Quiet(s, DoGiveUp(s, t))
  {
    LocalQuiet(s, DoGiveUp(s, t), t);
  }

  lemma BytesQuiet(s: State, s': State, t: TxnId, i: SlotId)
    requires Frame(s, s', t) && s'.hist == s.hist && s'.index == s.index && s'.points == s.points && t in s.txns
    requires i in s.slots && i in s'.slots && s'.slots == s.slots[i := s'.slots[i]]
    requires s'.slots[i].owner == s.slots[i].owner
    requires QuietTxn(s.txns[t], s'.txns[t])
    ensures Quiet(s, s')
  {
  }

  lemma InstalledQuiet(s: State, t: TxnId)
    requires CanInstalled(s, t)
    ensures Quiet(s, DoInstalled(s, t))
  {
    LocalQuiet(s, DoInstalled(s, t), t);
  }

  lemma RegisterQuiet(s: State, t: TxnId)
    requires CanRegister(s, t)
    ensures Quiet(s, DoRegister(s, t))
  {
    LocalQuiet(s, DoRegister(s, t), t);
  }

  lemma UnlockedQuiet(s: State, t: TxnId)
    requires CanUnlocked(s, t)
    ensures Quiet(s, DoUnlocked(s, t))
  {
    LocalQuiet(s, DoUnlocked(s, t), t);
  }

  lemma UnlockQuiet(s: State, t: TxnId, x: SlotId)
    requires CanUnlock(s, t, x)
    ensures Quiet(s, DoUnlock(s, t, x))
  {
  }

  lemma ReaperQuiet(s: State, a: ReapAct, s': State)
    requires LockInv(s) && ReaperStep(s, a, s')
    ensures Quiet(s, s')
  {
    hide LockInv, Writer;
    ReaperKeepsHist(s, a, s');
    ReaperKeepsReaders(s, a, s');
    ReaperKeepsPoints(s, a, s');
    forall k ensures Writer(s', k) == Writer(s, k) { ReaperWriter(s, a, s', k); }
    forall t | t in s.txns ensures QuietTxn(s.txns[t], s.txns[t]) { }
  }

  lemma ReaperKeepsPoints(s: State, a: ReapAct, s': State)
    requires ReaperStep(s, a, s')
    ensures s'.points == s.points
  {
  }

  lemma ReaperWriter(s: State, a: ReapAct, s': State, k: Key)
    requires LockInv(s) && ReaperStep(s, a, s')
    ensures Writer(s', k) == Writer(s, k)
  {
    hide LockInv, Committed;
    TableOf(s);
    if a == Lock { OwnerOkOf(s, s.reaper.c.slot); }
  }

  lemma ReaderQuiet(s: State, r: ReaderId, a: ReadAct, s': State)
    requires ReaderStep(s, r, a, s')
    ensures Quiet(s, s')
  {
    SameRowsQuiet(s, s');
  }

  // ----- Reaching the serialization point -----------------------------------------------------

  /** Two transactions that hold all their locks write different keys. */
  lemma HoldersWriteApart(s: State, t: TxnId, u: TxnId, k: Key)
    requires LockInv(s) && t in s.txns && u in s.txns && t != u
    requires HoldsAll(s.txns[t]) && HoldsAll(s.txns[u])
    requires WritesKey(s.txns[t].writeSet, k)
    ensures !WritesKey(s.txns[u].writeSet, k)
  {
    hide LockInv;
    OwnsItsKeys(s, t, k);
    if WritesKey(s.txns[u].writeSet, k) { OwnsItsKeys(s, u, k); }
  }

  lemma PointPos(s: State, t: TxnId)
    requires PosOk(s) && CanPoint(s, t)
    ensures PosOk(DoPoint(s, t))
  {
    var s' := DoPoint(s, t);
    assert PosTxnOk(s, t);
    forall u | u in s'.txns ensures PosTxnOk(s', u) { assert PosTxnOk(s, u); }
    forall i | 0 <= i < |s'.points| ensures s'.points[i] in s'.txns && s'.txns[s'.points[i]].pos == i {
      if i < |s.points| { assert s.txns[s.points[i]].pos == i; }
    }
    forall i, j | 0 <= i < j < |s'.points| ensures s'.txns[s'.points[i]].epoch <= s'.txns[s'.points[j]].epoch {
      assert PosTxnOk(s, s.points[i]);
      if j == |s.points| { assert s.txns[s.points[i]].epoch <= s.epoch; }
    }
  }

  lemma PointSerial(s: State, t: TxnId, n: nat, k: Key)
    requires PosOk(s) && CanPoint(s, t) && n <= |s.points|
    ensures Serial(DoPoint(s, t), n, k) == Serial(s, n, k)
    ensures Serial(DoPoint(s, t), |s.points| + 1, k) == Serial(s, |s.points|, k)
  {
    hide PosOk;
    PointSerialUpTo(s, t, n, k);
    PointSerialUpTo(s, t, |s.points|, k);
  }

  lemma PointSerialUpTo(s: State, t: TxnId, n: nat, k: Key)
    requires PosOk(s) && CanPoint(s, t) && n <= |s.points|
    ensures Serial(DoPoint(s, t), n, k) == Serial(s, n, k)
  {
    hide SerialOf;
    var s' := DoPoint(s, t);
    assert PosTxnOk(s, t);
    SerialPrefix(s.initial, s'.txns, s.points, s'.points, n, k);
    SerialFrame(s.initial, s.txns, s'.txns, s.points, n, k);
  }

  lemma SerialPrefix(initial: map<Key, Bytes>, txns: map<TxnId, Txn>, p: seq<TxnId>, q: seq<TxnId>, n: nat, k: Key)
    requires p <= q && n <= |p|
    ensures SerialOf(initial, txns, q, n, k) == SerialOf(initial, txns, p, n, k)
  {
  }

  lemma PointApart(s: State, t: TxnId)
    requires LockInv(s) && PosOk(s) && ApartOk(s) && CanPoint(s, t)
    ensures ApartOk(DoPoint(s, t))
  {
    hide LockInv;
    var s' := DoPoint(s, t);
    assert PosTxnOk(s, t);
    forall a, b | a in s'.txns && b in s'.txns && s'.txns[a].phase == Validating && s'.txns[a].pos < s'.txns[b].pos
      ensures NoOverlap(s'.txns[a], s'.txns[b])
    {
      assert PosTxnOk(s, a) && PosTxnOk(s, b);
      if b == t {
        forall i | 0 <= i < |s.txns[a].writeSet| ensures !WritesKey(s.txns[t].writeSet, s.txns[a].writeSet[i].key) {
          HoldersWriteApart(s, a, t, s.txns[a].writeSet[i].key);
        }
      } else if a != t {
        assert NoOverlap(s.txns[a], s.txns[b]);
      }
    }
  }

  lemma PointReads(s: State, t: TxnId)
    requires PosOk(s) && ReadsOk(s) && CanPoint(s, t)
    ensures ReadsOk(DoPoint(s, t))
  {
    var s' := DoPoint(s, t);
    forall u | u in s'.txns ensures SerialReads(s', u) {
      if u != t {
        assert SerialReads(s, u) && PosTxnOk(s, u);
        var x := s.txns[u];
        forall i | x.pos >= 0 && 0 <= i < Validated(x) && Protected(x, i)
          ensures Serial(s', x.pos, x.readSet[i].key) == x.readSet[i].bytes
        {
          PointSerial(s, t, x.pos, x.readSet[i].key);
        }
      }
    }
  }

  lemma PointStale(s: State, t: TxnId)
    requires PosOk(s) && StaleOk(s) && CanPoint(s, t)
    ensures StaleOk(DoPoint(s, t))
  {
    hide Outdated, Writer;
    var s' := DoPoint(s, t);
    assert PosTxnOk(s, t);
    forall k ensures Writer(s', k) == Writer(s, k) { PointWriter(s, t, k); }
    forall a, b | a in s'.txns && b in s'.txns && Committed(s'.txns[b])
                  && s'.txns[a].phase == Validating && s'.txns[a].pos < s'.txns[b].pos
      ensures Outdated(s', s'.txns[a], b)
    {
      assert PosTxnOk(s, b);
      assert b != t && a != t;
      assert Outdated(s, s.txns[a], b);
      OutdatedFrame(s, s', a, b);
    }
  }

  lemma PointWriter(s: State, t: TxnId, k: Key)
    requires CanPoint(s, t)
    ensures Writer(DoPoint(s, t), k) == Writer(s, k)
  {
  }

  lemma PointLogical(s: State, t: TxnId)
    requires PosOk(s) && LogicalOk(s) && CanPoint(s, t)
    ensures LogicalOk(DoPoint(s, t))
  {
    hide Serial, Writer, Effect;
    var s' := DoPoint(s, t);
    forall k ensures Serial(s', |s'.points|, k) == Logical(s', k) {
      PointSerial(s, t, |s.points|, k);
      PointWriter(s, t, k);
      assert Serial(s, |s.points|, k) == Logical(s, k);
    }
  }

  lemma PointKeepsSerialInv(s: State, t: TxnId)
    requires LockInv(s) && SerialInv(s) && CanPoint(s, t)
    ensures SerialInv(DoPoint(s, t))
  {
    hide LockInv, PosOk, LogicalOk, ApartOk, ReadsOk, StaleOk;
    PointPos(s, t);
    PointLogical(s, t);
    PointApart(s, t);
    PointReads(s, t);
    PointStale(s, t);
  }

  // ----- Passing a validation -----------------------------------------------------------------

  /** A key no committed point from n on writes holds at the end what it held at n. */
  lemma SerialUnwritten(initial: map<Key, Bytes>, txns: map<TxnId, Txn>, points: seq<TxnId>, n: nat, m: nat, k: Key)
    requires n <= m <= |points|
    requires forall i :: n <= i < m && points[i] in txns && Committed(txns[points[i]]) ==>
               !WritesKey(txns[points[i]].writeSet, k)
    ensures SerialOf(initial, txns, points, m, k) == SerialOf(initial, txns, points, n, k)
  {
    if n < m {
      SerialUnwritten(initial, txns, points, n, m - 1, k);
      var t := points[m - 1];
      if t in txns && Committed(txns[t]) {
        EffectOfOther(txns[t].writeSet, k, SerialOf(initial, txns, points, m - 1, k));
      }
    }
  }

  /** What a protected read that passes validation says about its key at that instant. */
  lemma HoldingRead(s: State, t: TxnId)
    requires LockInv(s) && HistInv(s) && ReadInv(s) && CanValidate(s, t)
    requires var x := s.txns[t]; ReadHolds(s, x, x.readSet[x.next]) && Protected(x, x.next)
    ensures var x := s.txns[t];
            var rd := x.readSet[x.next];
            && rd.key in s.index && s.index[rd.key] in s.slots
            && Current(s, rd.key) == rd.bytes
            && ((s.slots[s.index[rd.key]].owner == ByTxn(t) && s.index[rd.key] in x.order)
                || (s.slots[s.index[rd.key]].owner == Nobody && rd.found && LastTid(s, rd.key) == rd.tid))
  {
    hide LockInv, HistInv;
    var x := s.txns[t];
    var rd := x.readSet[x.next];
    TxnOkOf(s, t);
    assert Genuine(s, rd);
    assert x.lookup.At?;
    var i := x.lookup.slot;
    SlotOkOf(s, i);
    OwnerOkOf(s, i);
    assert Attached(s, i);
    if rd.found {
      FoundRead(s, rd);
      if i in x.locked {
        var j :| 0 <= j < |x.order| && x.order[j] == i;
        assert Held(x, j);
      }
    } else {
      OwnsItsKeys(s, t, rd.key);
    }
  }

  /** A genuine present read whose version is the newest of its key shows the current contents. */
  lemma FoundRead(s: State, rd: Read)
    requires HistInv(s) && rd.found && Genuine(s, rd)
    ensures !Locked(rd.tid) && rd.tid != EMPTY
    ensures Hist(s, rd.key) != [] && (rd.tid == LastTid(s, rd.key) || Less(rd.tid, LastTid(s, rd.key)))
    ensures rd.tid == LastTid(s, rd.key) ==> Current(s, rd.key) == rd.bytes
  {
    hide HistInv;
    HistParts(s);
    var h := Hist(s, rd.key);
    var i :| 0 <= i < |h| && h[i].tid == rd.tid && h[i].bytes == rd.bytes;
    if i < |h| - 1 { assert Less(h[i].tid, h[|h| - 1].tid); }
  }

  /** At a passing validation no committed transaction ordered after t writes the key read. */
  lemma NoLaterWriter(s: State, t: TxnId, u: TxnId)
    requires LockInv(s) && HistInv(s) && ReadInv(s) && ApartOk(s) && StaleOk(s) && CanValidate(s, t)
    requires var x := s.txns[t]; ReadHolds(s, x, x.readSet[x.next]) && Protected(x, x.next)
    requires u in s.txns && Committed(s.txns[u]) && s.txns[t].pos < s.txns[u].pos
    ensures !WritesKey(s.txns[u].writeSet, s.txns[t].readSet[s.txns[t].next].key)
  {
    hide LockInv, HistInv, ReadInv;
    var x := s.txns[t];
    var k := x.readSet[x.next].key;
    HoldingRead(s, t);
    if s.slots[s.index[k]].owner == ByTxn(t) {
      OwnedKeyIsWritten(s, t, k);
      var a :| 0 <= a < |x.writeSet| && x.writeSet[a].key == k;
      assert NoOverlap(x, s.txns[u]);
    } else {
      assert Outdated(s, x, u);
      assert Writer(s, k) == None;
    }
  }

  lemma OwnedKeyIsWritten(s: State, t: TxnId, k: Key)
    requires LockInv(s) && t in s.txns && s.txns[t].phase == Validating
    requires k in s.index && s.index[k] in s.txns[t].order
    ensures WritesKey(s.txns[t].writeSet, k)
  {
    hide LockInv;
    TxnOkOf(s, t);
    TableOf(s);
    var x := s.txns[t];
    assert s.index[k] in x.items;
    var n :| 0 <= n < |x.items| && x.items[n] == s.index[k];
    assert x.writeSet[n].key == k;
  }

  lemma ValidateSerialRead(s: State, t: TxnId)
    requires LockInv(s) && HistInv(s) && ReadInv(s) && SerialInv(s) && CanValidate(s, t)
    requires var x := s.txns[t]; ReadHolds(s, x, x.readSet[x.next]) && Protected(x, x.next)
    ensures var x := s.txns[t];
            0 <= x.pos <= |s.points| && Serial(s, x.pos, x.readSet[x.next].key) == x.readSet[x.next].bytes
  {
    hide LockInv, HistInv, ReadInv;
    var x := s.txns[t];
    var k := x.readSet[x.next].key;
    HoldingRead(s, t);
    assert PosTxnOk(s, t);
    forall i | x.pos <= i < |s.points| && s.points[i] in s.txns && Committed(s.txns[s.points[i]])
      ensures !WritesKey(s.txns[s.points[i]].writeSet, k)
    {
      assert s.txns[s.points[i]].pos == i;
      assert i != x.pos;
      NoLaterWriter(s, t, s.points[i]);
    }
    SerialUnwritten(s.initial, s.txns, s.points, x.pos, |s.points|, k);
    assert Writer(s, k) == None;
    assert Serial(s, |s.points|, k) == Logical(s, k);
  }

  /** A protected read that passes validation is of no key another validating transaction writes. */
  lemma ValidateApart(s: State, t: TxnId, v: TxnId)
    requires LockInv(s) && HistInv(s) && ReadInv(s) && CanValidate(s, t)
    requires var x := s.txns[t]; ReadHolds(s, x, x.readSet[x.next]) && Protected(x, x.next)
    requires v in s.txns && v != t && s.txns[v].phase == Validating
    ensures !WritesKey(s.txns[v].writeSet, s.txns[t].readSet[s.txns[t].next].key)
  {
    hide LockInv, HistInv, ReadInv;
    var k := s.txns[t].readSet[s.txns[t].next].key;
    HoldingRead(s, t);
    if WritesKey(s.txns[v].writeSet, k) { OwnsItsKeys(s, v, k); }
  }

  predicate PassStep(s: State, t: TxnId) {
    CanValidate(s, t) && ReadHolds(s, s.txns[t], s.txns[t].readSet[s.txns[t].next])
  }

  function DoPass(s: State, t: TxnId): State
    requires PassStep(s, t)
  {
    With(s, t, s.txns[t].(next := s.txns[t].next + 1, lookup := NotLooked))
  }

  lemma PassPos(s: State, t: TxnId)
    requires PosOk(s) && PassStep(s, t)
    ensures PosOk(DoPass(s, t))
    ensures forall n, k :: 0 <= n <= |s.points| ==> Serial(DoPass(s, t), n, k) == Serial(s, n, k)
  {
    var s' := DoPass(s, t);
    forall u | u in s'.txns ensures PosTxnOk(s', u) { assert PosTxnOk(s, u); }
    forall n, k | 0 <= n <= |s.points| ensures Serial(s', n, k) == Serial(s, n, k) {
      SerialFrame(s.initial, s.txns, s'.txns, s.points, n, k);
    }
  }

  lemma PassLogicalAt(s: State, t: TxnId, k: Key)
    requires PassStep(s, t)
    ensures Logical(DoPass(s, t), k) == Logical(s, k)
  {
    hide ReadHolds;
    assert Writer(DoPass(s, t), k) == Writer(s, k);
  }

  lemma PassLogical(s: State, t: TxnId)
    requires PosOk(s) && LogicalOk(s) && PassStep(s, t)
    ensures LogicalOk(DoPass(s, t))
  {
    hide PosOk, Logical, Serial, ReadHolds;
    var s' := DoPass(s, t);
    PassPos(s, t);
    forall k ensures Serial(s', |s'.points|, k) == Logical(s', k) {
      assert Serial(s, |s.points|, k) == Logical(s, k);
      PassLogicalAt(s, t, k);
    }
  }

  lemma PassApart(s: State, t: TxnId)
    requires LockInv(s) && HistInv(s) && ReadInv(s) && ApartOk(s) && PassStep(s, t)
    ensures ApartOk(DoPass(s, t))
  {
    hide LockInv, HistInv, ReadInv, ReadHolds;
    var s' := DoPass(s, t);
    var x := s.txns[t];
    forall a, b | a in s'.txns && b in s'.txns && s'.txns[a].phase == Validating && s'.txns[a].pos < s'.txns[b].pos
      ensures NoOverlap(s'.txns[a], s'.txns[b])
    {
      assert NoOverlap(s.txns[a], s.txns[b]);
      if b == t && Protected(x, x.next) { ValidateApart(s, t, a); }
    }
  }

  lemma PassReads(s: State, t: TxnId)
    requires LockInv(s) && HistInv(s) && ReadInv(s) && SerialInv(s) && PassStep(s, t)
    ensures ReadsOk(DoPass(s, t))
  {
    hide LockInv, HistInv, ReadInv, ReadHolds, LogicalOk, ApartOk, StaleOk, PosOk;
    var s' := DoPass(s, t);
    PassPos(s, t);
    var x := s.txns[t];
    if Protected(x, x.next) { ValidateSerialRead(s, t); }
    forall u | u in s'.txns ensures SerialReads(s', u) {
      assert SerialReads(s, u);
    }
  }

  lemma PassStale(s: State, t: TxnId)
    requires StaleOk(s) && PassStep(s, t)
    ensures StaleOk(DoPass(s, t))
  {
    hide ReadHolds, Outdated, Writer;
    var s' := DoPass(s, t);
    forall k ensures Writer(s', k) == Writer(s, k) { PassWriter(s, t, k); }
    forall a, b | a in s'.txns && b in s'.txns && Committed(s'.txns[b])
                  && s'.txns[a].phase == Validating && s'.txns[a].pos < s'.txns[b].pos
      ensures Outdated(s', s'.txns[a], b)
    {
      assert Outdated(s, s.txns[a], b);
      OutdatedFrame(s, s', a, b);
    }
  }

  lemma PassWriter(s: State, t: TxnId, k: Key)
    requires PassStep(s, t)
    ensures Writer(DoPass(s, t), k) == Writer(s, k)
  {
    hide ReadHolds;
  }

  lemma PassKeepsSerialInv(s: State, t: TxnId)
    requires LockInv(s) && HistInv(s) && ReadInv(s) && SerialInv(s) && PassStep(s, t)
    ensures SerialInv(DoPass(s, t))
  {
    hide LockInv, HistInv, ReadInv, ReadHolds, PosOk, LogicalOk, ApartOk, ReadsOk, StaleOk;
    PassPos(s, t);
    PassLogical(s, t);
    PassApart(s, t);
    PassReads(s, t);
    PassStale(s, t);
  }

  // ----- Deciding to commit ---------------------------------------------------------------------

  /** A commit decision shows in the serial order only from its own point on and at its own keys. */
  lemma DecideSerial(s: State, t: TxnId, n: nat, k: Key)
    requires PosOk(s) && ApartOk(s) && CanDecide(s, t) && n <= |s.points|
    ensures n <= s.txns[t].pos || !WritesKey(s.txns[t].writeSet, k) ==> Serial(DoDecide(s, t), n, k) == Serial(s, n, k)
    ensures n > s.txns[t].pos && WritesKey(s.txns[t].writeSet, k) ==>
              forall before :: Serial(DoDecide(s, t), n, k) == Effect(s.txns[t].writeSet, k, before)
    decreases n
  {
    hide WritesKey, Effect, NoOverlap, PosOk, ApartOk;
    var s' := DoDecide(s, t);
    var x := s.txns[t];
    PlaceOf(s, t);
    if n > 0 {
      DecideSerial(s, t, n - 1, k);
      var u := s.points[n - 1];
      PointAt(s, n - 1);
      if u == t {
        DecideOwn(x.writeSet, k, Serial(s', n - 1, k));
      } else if n - 1 > x.pos && WritesKey(x.writeSet, k) && Committed(s.txns[u]) {
        ApartOf(s, t, u);
        ApartWrites(x, s.txns[u], k);
        EffectOfOther(s.txns[u].writeSet, k, Serial(s', n - 1, k));
      }
    }
  }

  lemma PlaceOf(s: State, t: TxnId)
    requires PosOk(s) && t in s.txns && s.txns[t].phase == Validating
    ensures 0 <= s.txns[t].pos < |s.points| && s.points[s.txns[t].pos] == t
  {
    assert PosTxnOk(s, t);
  }

  lemma PointAt(s: State, n: nat)
    requires PosOk(s) && n < |s.points|
    ensures s.points[n] in s.txns && s.txns[s.points[n]].pos == n
  {
  }

  lemma ApartOf(s: State, t: TxnId, u: TxnId)
    requires ApartOk(s) && t in s.txns && u in s.txns && s.txns[t].phase == Validating && s.txns[t].pos < s.txns[u].pos
    ensures NoOverlap(s.txns[t], s.txns[u])
  {
  }

  /** Its own writes decide what a request leaves under a key, or leave it as it was. */
  lemma DecideOwn(ws: seq<Write>, k: Key, now: Bytes)
    ensures WritesKey(ws, k) ==> forall before :: Effect(ws, k, now) == Effect(ws, k, before)
    ensures !WritesKey(ws, k) ==> Effect(ws, k, now) == now
  {
    hide WritesKey, Effect;
    if WritesKey(ws, k) {
      forall before ensures Effect(ws, k, now) == Effect(ws, k, before) { EffectOfWriter(ws, k, now, before); }
    } else {
      EffectOfOther(ws, k, now);
    }
  }

  lemma ApartWrites(x: Txn, y: Txn, k: Key)
    requires NoOverlap(x, y) && WritesKey(x.writeSet, k)
    ensures !WritesKey(y.writeSet, k)
  {
    var a :| 0 <= a < |x.writeSet| && x.writeSet[a].key == k;
  }

  lemma DecidePos(s: State, t: TxnId)
    requires PosOk(s) && CanDecide(s, t)
    ensures PosOk(DoDecide(s, t))
  {
    var s' := DoDecide(s, t);
    forall u | u in s'.txns ensures PosTxnOk(s', u) { assert PosTxnOk(s, u); }
  }

  lemma DecideLogical(s: State, t: TxnId)
    requires LockInv(s) && PosOk(s) && ApartOk(s) && LogicalOk(s) && CanDecide(s, t)
    ensures LogicalOk(DoDecide(s, t))
  {
    hide LockInv, PosOk, ApartOk, SerialOf, Logical;
    var s' := DoDecide(s, t);
    forall k ensures Serial(s', |s'.points|, k) == Logical(s', k) {
      assert Serial(s, |s.points|, k) == Logical(s, k);
      DecideLogicalAt(s, t, k);
    }
  }

  lemma DecideLogicalAt(s: State, t: TxnId, k: Key)
    requires LockInv(s) && PosOk(s) && ApartOk(s) && CanDecide(s, t) && Serial(s, |s.points|, k) == Logical(s, k)
    ensures Serial(DoDecide(s, t), |s.points|, k) == Logical(DoDecide(s, t), k)
  {
    hide LockInv, ApartOk, SerialOf, PosOk, Writer, WritesKey, Effect, DoDecide;
    DecidePointed(s, t);
    DecideWriter(s, t, k);
    DecideSerial(s, t, |s.points|, k);
  }

  lemma DecidePointed(s: State, t: TxnId)
    requires PosOk(s) && CanDecide(s, t)
    ensures 0 <= s.txns[t].pos < |s.points|
    ensures DoDecide(s, t).points == s.points && DoDecide(s, t).txns.Keys == s.txns.Keys
    ensures forall u :: u in s.txns ==> DoDecide(s, t).txns[u].writeSet == s.txns[u].writeSet
    ensures forall k :: Current(DoDecide(s, t), k) == Current(s, k)
  {
    assert PosTxnOk(s, t);
  }

  /** Deciding makes the transaction the writer of exactly its own keys. */
  lemma DecideWriter(s: State, t: TxnId, k: Key)
    requires LockInv(s) && CanDecide(s, t)
    ensures WritesKey(s.txns[t].writeSet, k) ==> Writer(DoDecide(s, t), k) == Some(t)
    ensures !WritesKey(s.txns[t].writeSet, k) ==> Writer(DoDecide(s, t), k) == Writer(s, k)
  {
    hide LockInv, WritesKey;
    if WritesKey(s.txns[t].writeSet, k) {
      OwnsItsKeys(s, t, k);
    } else if k in s.index && s.index[k] in s.slots && s.slots[s.index[k]].owner == ByTxn(t) {
      UnwrittenNotOwned(s, t, k);
    }
  }

  lemma UnwrittenNotOwned(s: State, t: TxnId, k: Key)
    requires LockInv(s) && InPhase(s, t, Validating) && k in s.index && s.slots[s.index[k]].owner == ByTxn(t)
    ensures WritesKey(s.txns[t].writeSet, k)
  {
    hide LockInv;
    TableOf(s);
    OwnerOkOf(s, s.index[k]);
    OwnedKeyIsWritten(s, t, k);
  }

  lemma DecideReads(s: State, t: TxnId)
    requires PosOk(s) && ApartOk(s) && ReadsOk(s) && CanDecide(s, t)
    ensures ReadsOk(DoDecide(s, t))
  {
    var s' := DoDecide(s, t);
    var x := s.txns[t];
    assert PosTxnOk(s, t);
    forall u | u in s'.txns ensures SerialReads(s', u) {
      assert SerialReads(s, u) && PosTxnOk(s, u);
      var y := s'.txns[u];
      forall i | y.pos >= 0 && 0 <= i < Validated(y) && Protected(y, i)
        ensures Serial(s', y.pos, y.readSet[i].key) == y.readSet[i].bytes
      {
        DecideSerial(s, t, y.pos, y.readSet[i].key);
        if y.pos > x.pos { assert NoOverlap(x, s.txns[u]); }
      }
    }
  }

  lemma DecideApart(s: State, t: TxnId)
    requires ApartOk(s) && CanDecide(s, t)
    ensures ApartOk(DoDecide(s, t))
  {
    var s' := DoDecide(s, t);
    forall a, b | a in s'.txns && b in s'.txns && s'.txns[a].phase == Validating && s'.txns[a].pos < s'.txns[b].pos
      ensures NoOverlap(s'.txns[a], s'.txns[b])
    {
      assert NoOverlap(s.txns[a], s.txns[b]);
    }
  }

  lemma DecideStale(s: State, t: TxnId)
    requires LockInv(s) && StaleOk(s) && CanDecide(s, t)
    ensures StaleOk(DoDecide(s, t))
  {
    hide LockInv;
    var s' := DoDecide(s, t);
    forall a, b | a in s'.txns && b in s'.txns && Committed(s'.txns[b])
                  && s'.txns[a].phase == Validating && s'.txns[a].pos < s'.txns[b].pos
      ensures Outdated(s', s'.txns[a], b)
    {
      var y := s.txns[a];
      forall i | 0 <= i < |y.readSet| && y.readSet[i].found && WritesKey(s.txns[b].writeSet, y.readSet[i].key)
        ensures Writer(s', y.readSet[i].key) == Some(b) || Less(y.readSet[i].tid, LastTid(s', y.readSet[i].key))
      {
        if b == t { OwnsItsKeys(s, t, y.readSet[i].key); } else { assert Outdated(s, y, b); }
      }
    }
  }

  lemma DecideKeepsSerialInv(s: State, t: TxnId)
    requires LockInv(s) && SerialInv(s) && CanDecide(s, t)
    ensures SerialInv(DoDecide(s, t))
  {
    hide LockInv, PosOk, LogicalOk, ApartOk, ReadsOk, StaleOk;
    DecidePos(s, t);
    DecideLogical(s, t);
    DecideApart(s, t);
    DecideReads(s, t);
    DecideStale(s, t);
  }

  // ----- Publishing ---------------------------------------------------------------------------

  /** Publication turns the pending effect of a commit on a key into its current contents. */
  lemma PublishLogicalAt(s: State, t: TxnId, k: Key)
    requires LockInv(s) && HistInv(s) && CanPublish(s, t)
    ensures Logical(DoPublish(s, t), k) == Logical(s, k)
    ensures Writer(DoPublish(s, t), k) == if k == s.slots[s.txns[t].order[s.txns[t].next]].key then None
            else Writer(s, k)
    ensures k == s.slots[s.txns[t].order[s.txns[t].next]].key ==> Writer(s, k) == Some(t)
  {
    hide LockInv, HistInv, Effect, WritesKey, Successor;
    PublishTarget(s, t);
    TableOf(s);
  }

  lemma PublishSerial(s: State, t: TxnId, n: nat, k: Key)
    requires PosOk(s) && CanPublish(s, t) && n <= |s.points|
    ensures Serial(DoPublish(s, t), n, k) == Serial(s, n, k)
  {
    SerialFrame(s.initial, s.txns, DoPublish(s, t).txns, s.points, n, k);
  }

  lemma PublishPos(s: State, t: TxnId)
    requires PosOk(s) && CanPublish(s, t)
    ensures PosOk(DoPublish(s, t))
  {
    var s' := DoPublish(s, t);
    forall u | u in s'.txns ensures PosTxnOk(s', u) { assert PosTxnOk(s, u); }
  }

  lemma PublishLogical(s: State, t: TxnId)
    requires LockInv(s) && HistInv(s) && PosOk(s) && LogicalOk(s) && CanPublish(s, t)
    ensures LogicalOk(DoPublish(s, t))
  {
    hide LockInv, HistInv, PosOk;
    var s' := DoPublish(s, t);
    forall k ensures Serial(s', |s'.points|, k) == Logical(s', k) {
      assert Serial(s, |s.points|, k) == Logical(s, k);
      PublishSerial(s, t, |s.points|, k);
      PublishLogicalAt(s, t, k);
    }
  }

  lemma PublishApart(s: State, t: TxnId)
    requires ApartOk(s) && CanPublish(s, t)
    ensures ApartOk(DoPublish(s, t))
  {
    var s' := DoPublish(s, t);
    forall a, b | a in s'.txns && b in s'.txns && s'.txns[a].phase == Validating && s'.txns[a].pos < s'.txns[b].pos
      ensures NoOverlap(s'.txns[a], s'.txns[b])
    {
      assert NoOverlap(s.txns[a], s.txns[b]);
    }
  }

  lemma PublishReads(s: State, t: TxnId)
    requires PosOk(s) && ReadsOk(s) && CanPublish(s, t)
    ensures ReadsOk(DoPublish(s, t))
  {
    var s' := DoPublish(s, t);
    forall u | u in s'.txns ensures SerialReads(s', u) {
      assert SerialReads(s, u) && PosTxnOk(s, u);
      var y := s'.txns[u];
      forall i | y.pos >= 0 && 0 <= i < Validated(y) && Protected(y, i)
        ensures Serial(s', y.pos, y.readSet[i].key) == y.readSet[i].bytes
      {
        PublishSerial(s, t, y.pos, y.readSet[i].key);
      }
    }
  }

  /** Publishing a key outdates every read of it taken before. */
  lemma PublishOutdates(s: State, t: TxnId, rd: Read)
    requires LockInv(s) && HistInv(s) && CanPublish(s, t) && rd.found && Genuine(s, rd)
    ensures Less(rd.tid, LastTid(s, rd.key)) ==> Less(rd.tid, LastTid(DoPublish(s, t), rd.key))
    ensures rd.key == s.slots[s.txns[t].order[s.txns[t].next]].key ==> Less(rd.tid, LastTid(DoPublish(s, t), rd.key))
  {
    hide LockInv, HistInv;
    PublishedTid(s, t);
    FoundRead(s, rd);
  }

  lemma PublishStale(s: State, t: TxnId)
    requires LockInv(s) && HistInv(s) && ReadInv(s) && StaleOk(s) && CanPublish(s, t)
    ensures StaleOk(DoPublish(s, t))
  {
    hide LockInv, HistInv;
    var s' := DoPublish(s, t);
    forall a, b | a in s'.txns && b in s'.txns && Committed(s'.txns[b])
                  && s'.txns[a].phase == Validating && s'.txns[a].pos < s'.txns[b].pos
      ensures Outdated(s', s'.txns[a], b)
    {
      var y := s.txns[a];
      assert Outdated(s, y, b);
      forall i | 0 <= i < |y.readSet| && y.readSet[i].found && WritesKey(s.txns[b].writeSet, y.readSet[i].key)
        ensures Writer(s', y.readSet[i].key) == Some(b) || Less(y.readSet[i].tid, LastTid(s', y.readSet[i].key))
      {
        assert Genuine(s, y.readSet[i]);
        PublishLogicalAt(s, t, y.readSet[i].key);
        PublishOutdates(s, t, y.readSet[i]);
      }
    }
  }

  lemma PublishKeepsSerialInv(s: State, t: TxnId)
    requires LockInv(s) && HistInv(s) && ReadInv(s) && SerialInv(s) && CanPublish(s, t)
    ensures SerialInv(DoPublish(s, t))
  {
    hide LockInv, HistInv, ReadInv, PosOk, LogicalOk, ApartOk, ReadsOk, StaleOk;
    PublishPos(s, t);
    PublishLogical(s, t);
    PublishApart(s, t);
    PublishReads(s, t);
    PublishStale(s, t);
  }

  // ----- Every step -----------------------------------------------------------------------------

  ghost predicate Inv(s: State) {
    LockInv(s) && HistInv(s) && ReadInv(s) && SerialInv(s)
  }

  lemma InvInit(s: State)
    requires Init(s)
    ensures Inv(s)
  {
    hide LockInv, HistInv, ReadInv;
    LockInvInit(s);
    HistInvInit(s);
    ReadInvInit(s);
  }

  /** Every step is quiet or one of the four kinds the serial order depends on. */
  ghost predicate Kind(s: State, s': State, t: TxnId) {
    || Quiet(s, s')
    || (CanPoint(s, t) && s' == DoPoint(s, t))
    || (PassStep(s, t) && s' == DoPass(s, t))
    || (CanDecide(s, t) && s' == DoDecide(s, t))
    || (CanPublish(s, t) && s' == DoPublish(s, t))
  }

  lemma TxnStepKind(s: State, t: TxnId, a: CommitAct, s': State)
    requires LockInv(s) && TxnStep(s, t, a, s')
    ensures Kind(s, s', t)
  {
    hide LockInv, Quiet;
    match a
    case Begin(rs, ws) => BeginQuiet(s, t, rs, ws);
    case Resolve(blank) => ResolveQuiet(s, t, blank);
    case Sort(order) => SortQuiet(s, t, order);
    case LockItem => LockItemQuiet(s, t);
    case CheckItem => CheckItemQuiet(s, t);
    case Point =>
    case LookUp => LookUpQuiet(s, t);
    case Validate => if !ReadHolds(s, s.txns[t], s.txns[t].readSet[s.txns[t].next]) { GiveUpQuiet(s, t); }
    case GiveUp => GiveUpQuiet(s, t);
    case Decide =>
    case Tear(_) => BytesQuiet(s, s', t, s.txns[t].items[s.txns[t].next]);
    case Install => BytesQuiet(s, s', t, s.txns[t].items[s.txns[t].next]);
    case Installed => InstalledQuiet(s, t);
    case Publish =>
    case Register => RegisterQuiet(s, t);
    case Unlock(x) => UnlockQuiet(s, t, x);
    case Unlocked => UnlockedQuiet(s, t);
  }

  lemma StepKind(s: State, a: Action, s': State) returns (t: TxnId)
    requires LockInv(s) && Step(s, a, s')
    ensures Kind(s, s', t)
  {
    hide LockInv, Quiet, TxnStep, ReaperStep, ReaderStep;
    t := 0;
    match a
    case Tick => SameRowsQuiet(s, s');
    case ReaderAct(r, ra) => ReaderQuiet(s, r, ra, s');
    case TxnAct(u, ca) => TxnStepKind(s, u, ca, s'); t := u;
    case ReaperAct(pa) => ReaperQuiet(s, pa, s');
  }

  lemma KindKeepsSerialInv(s: State, s': State, t: TxnId)
    requires LockInv(s) && HistInv(s) && ReadInv(s) && SerialInv(s) && Kind(s, s', t)
    ensures SerialInv(s')
  {
    hide LockInv, HistInv, ReadInv, SerialInv, Quiet, DoPoint, DoPass, DoDecide, DoPublish, PassStep, CanPoint,
      CanDecide, CanPublish;
    if Quiet(s, s') { QuietKeepsSerialInv(s, s'); }
    else if CanPoint(s, t) && s' == DoPoint(s, t) { PointKeepsSerialInv(s, t); }
    else if PassStep(s, t) && s' == DoPass(s, t) { PassKeepsSerialInv(s, t); }
    else if CanDecide(s, t) && s' == DoDecide(s, t) { DecideKeepsSerialInv(s, t); }
    else { PublishKeepsSerialInv(s, t); }
  }

  lemma StepKeepsInv(s: State, a: Action, s': State)
    requires Inv(s) && Step(s, a, s')
    ensures Inv(s')
  {
    hide LockInv, HistInv, ReadInv, SerialInv, Kind, Step;
    StepKeepsLockInv(s, a, s');
    StepKeepsHistInv(s, a, s');
    StepKeepsReadInv(s, a, s');
    var t := StepKind(s, a, s');
    KindKeepsSerialInv(s, s', t);
  }

  lemma {:induction false} RunKeepsInv(run: seq<State>, acts: seq<Action>, n: nat)
    requires IsRun(run, acts) && n <= |acts|
    ensures Inv(run[n])
  {
    hide Inv, Step, Init;
    if n == 0 {
      InvInit(run[0]);
    } else {
      RunKeepsInv(run, acts, n - 1);
      StepKeepsInv(run[n - 1], acts[n - 1], run[n]);
    }
  }
}
