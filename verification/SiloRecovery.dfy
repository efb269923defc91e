/**
 * What a crash may cut off: the commits of the epochs up to any closed frontier are a prefix
 * of the serial order, so replaying the newest version of each key among them rebuilds exactly
 * the rows that prefix leaves, and no transaction of the prefix read a version outside it.
 */
module SiloRecovery {
  import opened Basics
  import opened Versions
  import opened SiloModel
  import opened SiloLocks
  import opened SiloHistory
  import opened SiloReads
  import opened SiloSerial

  /** Serial position of the writer of a version; the rows of the start come before all points. */
  function PosOfWriter(txns: map<TxnId, Txn>, v: Version): int {
    match v.writer
    case None => -1
    case Some(t) => if t in txns then txns[t].pos else -1
  }

  predicate WriterOk(s: State, k: Key, i: nat, v: Version) {
    match v.writer
    case None => i == 0 && k in s.initial && v.bytes == s.initial[k]
    case Some(t) =>
      && t in s.txns && Committed(s.txns[t]) && 0 <= s.txns[t].pos < |s.points|
      && WritesKey(s.txns[t].writeSet, k) && v.bytes == Effect(s.txns[t].writeSet, k, [])
      && v.tid.epoch == s.txns[t].epoch
  }

  predicate WritersAscend(txns: map<TxnId, Txn>, h: seq<Version>) {
    forall i, j :: 0 <= i < j < |h| ==> PosOfWriter(txns, h[i]) < PosOfWriter(txns, h[j])
  }

  predicate ChainOk(s: State, k: Key) {
    var h := Hist(s, k);
    && (forall i :: 0 <= i < |h| ==> WriterOk(s, k, i, h[i]))
    && WritersAscend(s.txns, h)
    && (k in s.initial ==> h != [] && h[0].writer == None)
  }

  predicate HasVersionBy(h: seq<Version>, t: TxnId) {
    exists i :: 0 <= i < |h| && h[i].writer == Some(t)
  }

  predicate WrittenOrPending(s: State, t: TxnId, k: Key) {
    Writer(s, k) == Some(t) || HasVersionBy(Hist(s, k), t)
  }

  predicate AllWritten(s: State) {
    forall t, a :: t in s.txns && Committed(s.txns[t]) && 0 <= a < |s.txns[t].writeSet| ==>
      WrittenOrPending(s, t, s.txns[t].writeSet[a].key)
  }

  predicate Newer(s: State, t: TxnId, k: Key)
    requires t in s.txns
  {
    forall i :: 0 <= i < |Hist(s, k)| ==> PosOfWriter(s.txns, Hist(s, k)[i]) < s.txns[t].pos
  }

  predicate ValidatingNewer(s: State) {
    forall t, a :: t in s.txns && s.txns[t].phase == Validating && 0 <= a < |s.txns[t].writeSet| ==>
      Newer(s, t, s.txns[t].writeSet[a].key)
  }

  ghost predicate WritersNewer(s: State) {
    forall k :: Writer(s, k).Some? ==> Writer(s, k).value in s.txns && Newer(s, Writer(s, k).value, k)
  }

  predicate ReadEpochsOk(s: State) {
    forall t, i :: t in s.txns && s.txns[t].pos >= 0 && 0 <= i < |s.txns[t].readSet| && s.txns[t].readSet[i].found ==>
      s.txns[t].readSet[i].tid.epoch <= s.txns[t].epoch
  }

  ghost predicate RecInv(s: State) {
    && (forall k :: ChainOk(s, k))
    && AllWritten(s) && ValidatingNewer(s) && WritersNewer(s) && ReadEpochsOk(s)
  }

  lemma RecInvInit(s: State)
    requires Init(s)
    ensures RecInv(s)
  {
    forall k ensures ChainOk(s, k) {
      if k in s.hist { assert s.slots[s.index[k]].key == k; }
    }
    forall k ensures Writer(s, k) == None {
    }
  }

  // ----- Quiet steps -----------------------------------------------------------------------------

  lemma ChainFrame(s: State, s': State, k: Key)
    requires ChainOk(s, k) && Hist(s', k) == Hist(s, k) && s'.initial == s.initial && s.points <= s'.points
    requires forall t :: t in s.txns && Committed(s.txns[t]) ==>
               && t in s'.txns && Committed(s'.txns[t]) && s'.txns[t].pos == s.txns[t].pos
               && s'.txns[t].writeSet == s.txns[t].writeSet && s'.txns[t].epoch == s.txns[t].epoch
    ensures ChainOk(s', k)
  {
    var h := Hist(s, k);
    forall i | 0 <= i < |h| ensures WriterOk(s', k, i, h[i])
        && PosOfWriter(s'.txns, h[i]) == PosOfWriter(s.txns, h[i]) {
      assert WriterOk(s, k, i, h[i]);
    }
  }

  lemma NewerFrame(s: State, s': State, t: TxnId, k: Key)
    requires ChainOk(s, k) && t in s.txns && Newer(s, t, k) && Hist(s', k) == Hist(s, k)
    requires t in s'.txns && s'.txns[t].pos == s.txns[t].pos
    requires forall u :: u in s.txns && Committed(s.txns[u]) ==> u in s'.txns && s'.txns[u].pos == s.txns[u].pos
    ensures Newer(s', t, k)
  {
    var h := Hist(s, k);
    forall i | 0 <= i < |h| ensures PosOfWriter(s'.txns, h[i]) < s'.txns[t].pos {
      assert WriterOk(s, k, i, h[i]);
    }
  }

  lemma QuietKeepsRecInv(s: State, s': State)
    requires PosOk(s) && RecInv(s) && Quiet(s, s')
    ensures RecInv(s')
  {
    hide ChainOk, Newer, Writer;
    forall k ensures ChainOk(s', k) { ChainFrame(s, s', k); }
    forall t, a | t in s'.txns && s'.txns[t].phase == Validating && 0 <= a < |s'.txns[t].writeSet|
      ensures Newer(s', t, s'.txns[t].writeSet[a].key)
    {
      NewerFrame(s, s', t, s'.txns[t].writeSet[a].key);
    }
    forall t, a | t in s'.txns && Committed(s'.txns[t]) && 0 <= a < |s'.txns[t].writeSet|
      ensures WrittenOrPending(s', t, s'.txns[t].writeSet[a].key)
    {
      assert WrittenOrPending(s, t, s.txns[t].writeSet[a].key);
    }
    forall k | Writer(s', k).Some?
      ensures Writer(s', k).value in s'.txns && Newer(s', Writer(s', k).value, k)
    {
      NewerFrame(s, s', Writer(s, k).value, k);
    }
  }

  // ----- The four kinds of step that matter ---------------------------------------------------------

  lemma PointNewer(s: State, t: TxnId, k: Key)
    requires PosOk(s) && ChainOk(s, k) && CanPoint(s, t)
    ensures Newer(DoPoint(s, t), t, k)
  {
    var s' := DoPoint(s, t);
    var h := Hist(s, k);
    forall i | 0 <= i < |h| ensures PosOfWriter(s'.txns, h[i]) < s'.txns[t].pos {
      assert WriterOk(s, k, i, h[i]);
      if h[i].writer.Some? { assert h[i].writer.value != t; }
    }
  }

  lemma PointReadEpochs(s: State, t: TxnId)
    requires HistInv(s) && ReadInv(s) && ReadEpochsOk(s) && CanPoint(s, t)
    ensures ReadEpochsOk(DoPoint(s, t))
  {
    hide HistInv;
    HistParts(s);
    var s' := DoPoint(s, t);
    forall u, i | u in s'.txns && s'.txns[u].pos >= 0 && 0 <= i < |s'.txns[u].readSet| && s'.txns[u].readSet[i].found
      ensures s'.txns[u].readSet[i].tid.epoch <= s'.txns[u].epoch
    {
      if u == t {
        var rd := s.txns[t].readSet[i];
        assert Genuine(s, rd);
        var h := Hist(s, rd.key);
        var j :| 0 <= j < |h| && h[j].tid == rd.tid && h[j].bytes == rd.bytes;
        assert h[j].tid.epoch <= s.epoch;
      }
    }
  }

  lemma PointKeepsRecInv(s: State, t: TxnId)
    requires HistInv(s) && ReadInv(s) && PosOk(s) && RecInv(s) && CanPoint(s, t)
    ensures RecInv(DoPoint(s, t))
  {
    hide HistInv, ReadInv, ChainOk, AllWritten, ValidatingNewer, WritersNewer, ReadEpochsOk;
    var s' := DoPoint(s, t);
    assert PosTxnOk(s, t);
    PointReadEpochs(s, t);
    forall k ensures ChainOk(s', k) { ChainFrame(s, s', k); }
    PointAllWritten(s, t);
    PointValidatingNewer(s, t);
    PointWritersNewer(s, t);
  }

  lemma PointAllWritten(s: State, t: TxnId)
    requires AllWritten(s) && CanPoint(s, t)
    ensures AllWritten(DoPoint(s, t))
  {
    hide Writer, HasVersionBy;
    var s' := DoPoint(s, t);
    forall u, a | u in s'.txns && Committed(s'.txns[u]) && 0 <= a < |s'.txns[u].writeSet|
      ensures WrittenOrPending(s', u, s'.txns[u].writeSet[a].key)
    {
      PointWriter(s, t, s.txns[u].writeSet[a].key);
      assert WrittenOrPending(s, u, s.txns[u].writeSet[a].key);
    }
  }

  lemma PointValidatingNewer(s: State, t: TxnId)
    requires PosOk(s) && (forall k :: ChainOk(s, k)) && ValidatingNewer(s) && CanPoint(s, t)
    ensures ValidatingNewer(DoPoint(s, t))
  {
    hide ChainOk, Newer;
    var s' := DoPoint(s, t);
    forall u, a | u in s'.txns && s'.txns[u].phase == Validating && 0 <= a < |s'.txns[u].writeSet|
      ensures Newer(s', u, s'.txns[u].writeSet[a].key)
    {
      if u == t { PointNewer(s, t, s'.txns[u].writeSet[a].key); }
      else { NewerFrame(s, s', u, s'.txns[u].writeSet[a].key); }
    }
  }

  lemma PointWritersNewer(s: State, t: TxnId)
    requires (forall k :: ChainOk(s, k)) && WritersNewer(s) && CanPoint(s, t)
    ensures WritersNewer(DoPoint(s, t))
  {
    hide ChainOk, Newer, Writer;
    var s' := DoPoint(s, t);
    forall k | Writer(s', k).Some?
      ensures Writer(s', k).value in s'.txns && Newer(s', Writer(s', k).value, k)
    {
      PointWriter(s, t, k);
      WriterIsTxn(s, k);
      NewerFrame(s, s', Writer(s, k).value, k);
    }
  }

  lemma PassKeepsRecInv(s: State, t: TxnId)
    requires RecInv(s) && PassStep(s, t)
    ensures RecInv(DoPass(s, t))
  {
    hide ChainOk, Newer, ReadHolds;
    var s' := DoPass(s, t);
    forall k ensures ChainOk(s', k) && Writer(s', k) == Writer(s, k) { ChainFrame(s, s', k); }
    forall u, a | u in s'.txns && s'.txns[u].phase == Validating && 0 <= a < |s'.txns[u].writeSet|
      ensures Newer(s', u, s'.txns[u].writeSet[a].key)
    {
      NewerFrame(s, s', u, s'.txns[u].writeSet[a].key);
    }
    forall u, a | u in s'.txns && Committed(s'.txns[u]) && 0 <= a < |s'.txns[u].writeSet|
      ensures WrittenOrPending(s', u, s'.txns[u].writeSet[a].key)
    {
      assert WrittenOrPending(s, u, s.txns[u].writeSet[a].key);
    }
    forall k | Writer(s', k).Some?
      ensures Writer(s', k).value in s'.txns && Newer(s', Writer(s', k).value, k)
    {
      NewerFrame(s, s', Writer(s, k).value, k);
    }
  }

  lemma DecideKeepsRecInv(s: State, t: TxnId)
    requires LockInv(s) && RecInv(s) && CanDecide(s, t)
    ensures RecInv(DoDecide(s, t))
  {
    hide LockInv, ChainOk, Newer, Writer;
    var s' := DoDecide(s, t);
    forall k ensures ChainOk(s', k) { ChainFrame(s, s', k); }
    forall u, a | u in s'.txns && s'.txns[u].phase == Validating && 0 <= a < |s'.txns[u].writeSet|
      ensures Newer(s', u, s'.txns[u].writeSet[a].key)
    {
      NewerFrame(s, s', u, s'.txns[u].writeSet[a].key);
    }
    forall u, a | u in s'.txns && Committed(s'.txns[u]) && 0 <= a < |s'.txns[u].writeSet|
      ensures WrittenOrPending(s', u, s'.txns[u].writeSet[a].key)
    {
      var k := s'.txns[u].writeSet[a].key;
      DecideWriter(s, t, k);
      if u != t {
        assert WrittenOrPending(s, u, k);
        if WritesKey(s.txns[t].writeSet, k) { OneWriter(s, t, u, k); }
      }
    }
    forall k | Writer(s', k).Some?
      ensures Writer(s', k).value in s'.txns && Newer(s', Writer(s', k).value, k)
    {
      DecideWriter(s, t, k);
      if WritesKey(s.txns[t].writeSet, k) {
        var a :| 0 <= a < |s.txns[t].writeSet| && s.txns[t].writeSet[a].key == k;
        assert Newer(s, t, s.txns[t].writeSet[a].key);
        NewerFrame(s, s', t, k);
      } else {
        NewerFrame(s, s', Writer(s, k).value, k);
      }
    }
  }

  lemma OneWriter(s: State, t: TxnId, u: TxnId, k: Key)
    requires LockInv(s) && t in s.txns && HoldsAll(s.txns[t]) && WritesKey(s.txns[t].writeSet, k) && u != t
    ensures Writer(s, k) != Some(u)
  {
    hide LockInv;
    OwnsItsKeys(s, t, k);
  }

  lemma ChainOkOf(s: State, k: Key)
    requires RecInv(s)
    ensures ChainOk(s, k)
    ensures Writer(s, k).Some? ==> Writer(s, k).value in s.txns && Newer(s, Writer(s, k).value, k)
  {
  }

  lemma PosTxnOkOf(s: State, t: TxnId)
    requires PosOk(s) && t in s.txns
    ensures PosTxnOk(s, t)
  {
  }

  /** Appending a version by a transaction ordered after all writers so far. */
  lemma AppendVersion(s: State, s': State, t: TxnId, k: Key, v: Version)
    requires ChainOk(s, k) && t in s.txns && Newer(s, t, k) && v.writer == Some(t)
    requires Hist(s', k) == Hist(s, k) + [v] && s'.initial == s.initial && s'.points == s.points
    requires forall u :: u in s.txns && Committed(s.txns[u]) ==>
               && u in s'.txns && Committed(s'.txns[u]) && s'.txns[u].pos == s.txns[u].pos
               && s'.txns[u].writeSet == s.txns[u].writeSet && s'.txns[u].epoch == s.txns[u].epoch
    requires Committed(s.txns[t]) && WriterOk(s, k, |Hist(s, k)|, v)
    ensures ChainOk(s', k)
  {
    var h, h' := Hist(s, k), Hist(s', k);
    forall i | 0 <= i < |h'| ensures WriterOk(s', k, i, h'[i])
        && PosOfWriter(s'.txns, h'[i]) == PosOfWriter(s.txns, h'[i]) {
      if i < |h| { assert WriterOk(s, k, i, h[i]); }
    }
    forall i, j | 0 <= i < j < |h'| ensures PosOfWriter(s'.txns, h'[i]) < PosOfWriter(s'.txns, h'[j]) {
      if j < |h| { assert PosOfWriter(s.txns, h[i]) < PosOfWriter(s.txns, h[j]); }
    }
  }

  lemma PublishChain(s: State, t: TxnId, k: Key)
    requires LockInv(s) && HistInv(s) && PosOk(s) && RecInv(s) && CanPublish(s, t)
    ensures ChainOk(DoPublish(s, t), k)
  {
    hide LockInv, HistInv, RecInv, PosOk, ChainOk, Newer;
    var s' := DoPublish(s, t);
    var x := s.txns[t];
    var sl := s.slots[x.order[x.next]];
    ChainOkOf(s, k);
    if k != sl.key {
      ChainFrame(s, s', k);
    } else {
      PublishTarget(s, t);
      PublishedTid(s, t);
      PublishLogicalAt(s, t, k);
      PosTxnOkOf(s, t);
      EffectOfWriter(x.writeSet, k, Current(s, k), []);
      AppendVersion(s, s', t, k, Version(Successor(sl.word, x.epoch), sl.bytes, Some(t)));
    }
  }

  lemma PublishWritten(s: State, t: TxnId, u: TxnId, k: Key)
    requires LockInv(s) && HistInv(s) && CanPublish(s, t) && WrittenOrPending(s, u, k)
    ensures WrittenOrPending(DoPublish(s, t), u, k)
  {
    hide LockInv, HistInv;
    var s' := DoPublish(s, t);
    PublishLogicalAt(s, t, k);
    var h, h' := Hist(s, k), Hist(s', k);
    if HasVersionBy(h, u) {
      var i :| 0 <= i < |h| && h[i].writer == Some(u);
      assert h'[i].writer == Some(u);
    } else if k == s.slots[s.txns[t].order[s.txns[t].next]].key {
      assert h'[|h|].writer == Some(t);
    }
  }

  lemma PublishNewer(s: State, t: TxnId, u: TxnId, k: Key)
    requires LockInv(s) && HistInv(s) && CanPublish(s, t) && u in s.txns && ChainOk(s, k) && Newer(s, u, k)
    requires k != s.slots[s.txns[t].order[s.txns[t].next]].key
    ensures Newer(DoPublish(s, t), u, k)
  {
    hide LockInv, HistInv, ChainOk, Newer;
    NewerFrame(s, DoPublish(s, t), u, k);
  }

  lemma PublishKeepsRecInv(s: State, t: TxnId)
    requires LockInv(s) && HistInv(s) && PosOk(s) && RecInv(s) && CanPublish(s, t)
    ensures RecInv(DoPublish(s, t))
  {
    hide LockInv, HistInv, ChainOk, Newer, Writer, WrittenOrPending, PosOk;
    var s' := DoPublish(s, t);
    var i := s.txns[t].order[s.txns[t].next];
    PublishTarget(s, t);
    forall k ensures ChainOk(s', k) { PublishChain(s, t, k); }
    forall u, a | u in s'.txns && s'.txns[u].phase == Validating && 0 <= a < |s'.txns[u].writeSet|
      ensures Newer(s', u, s'.txns[u].writeSet[a].key)
    {
      var k := s.txns[u].writeSet[a].key;
      OwnsItsKeys(s, u, k);
      PublishNewer(s, t, u, k);
    }
    forall u, a | u in s'.txns && Committed(s'.txns[u]) && 0 <= a < |s'.txns[u].writeSet|
      ensures WrittenOrPending(s', u, s'.txns[u].writeSet[a].key)
    {
      PublishWritten(s, t, u, s.txns[u].writeSet[a].key);
    }
    forall k | Writer(s', k).Some?
      ensures Writer(s', k).value in s'.txns && Newer(s', Writer(s', k).value, k)
    {
      PublishLogicalAt(s, t, k);
      PublishNewer(s, t, Writer(s, k).value, k);
    }
  }

  lemma KindKeepsRecInv(s: State, s': State, t: TxnId)
    requires Inv(s) && RecInv(s) && Kind(s, s', t)
    ensures RecInv(s')
  {
    hide LockInv, HistInv, ReadInv, PosOk, LogicalOk, ApartOk, ReadsOk, StaleOk, RecInv, Quiet,
      DoPoint, DoPass, DoDecide, DoPublish, PassStep, CanPoint, CanDecide, CanPublish;
    if Quiet(s, s') { QuietKeepsRecInv(s, s'); }
    else if CanPoint(s, t) && s' == DoPoint(s, t) { PointKeepsRecInv(s, t); }
    else if PassStep(s, t) && s' == DoPass(s, t) { PassKeepsRecInv(s, t); }
    else if CanDecide(s, t) && s' == DoDecide(s, t) { DecideKeepsRecInv(s, t); }
    else { PublishKeepsRecInv(s, t); }
  }

  lemma {:induction false} RunKeepsRecInv(run: seq<State>, acts: seq<Action>, n: nat)
    requires IsRun(run, acts) && n <= |acts|
    ensures Inv(run[n]) && RecInv(run[n])
  {
    hide RecInv, Step, Init, LockInv, HistInv, ReadInv, SerialInv, Kind;
    if n == 0 {
      InvInit(run[0]);
      RecInvInit(run[0]);
    } else {
      RunKeepsRecInv(run, acts, n - 1);
      StepKeepsInv(run[n - 1], acts[n - 1], run[n]);
      var t := StepKind(run[n - 1], acts[n - 1], run[n]);
      KindKeepsRecInv(run[n - 1], run[n], t);
    }
  }

  // ----- Who wrote what was read ------------------------------------------------------------------

  /** A present read names a version whose writer comes earlier in the serial order. */
  predicate ReadWriterOk(s: State, t: TxnId, i: nat)
    requires t in s.txns && i < |s.txns[t].readSet|
  {
    var rd := s.txns[t].readSet[i];
    exists j :: 0 <= j < |Hist(s, rd.key)| && Hist(s, rd.key)[j].tid == rd.tid && Hist(s, rd.key)[j].bytes == rd.bytes
                && PosOfWriter(s.txns, Hist(s, rd.key)[j]) < s.txns[t].pos
  }

  predicate ReadWritersOk(s: State) {
    forall t, i :: t in s.txns && s.txns[t].pos >= 0 && 0 <= i < |s.txns[t].readSet| && s.txns[t].readSet[i].found ==>
      ReadWriterOk(s, t, i)
  }

  lemma ReadWriterFrame(s: State, s': State, t: TxnId, i: nat)
    requires t in s.txns && i < |s.txns[t].readSet| && ReadWriterOk(s, t, i) && ChainOk(s, s.txns[t].readSet[i].key)
    requires t in s'.txns && s'.txns[t].readSet == s.txns[t].readSet && s'.txns[t].pos == s.txns[t].pos
    requires Hist(s, s.txns[t].readSet[i].key) <= Hist(s', s.txns[t].readSet[i].key)
    requires forall u :: u in s.txns && Committed(s.txns[u]) ==> u in s'.txns && s'.txns[u].pos == s.txns[u].pos
    ensures ReadWriterOk(s', t, i)
  {
    var rd := s.txns[t].readSet[i];
    var h, h' := Hist(s, rd.key), Hist(s', rd.key);
    var j :| 0 <= j < |h| && h[j].tid == rd.tid && h[j].bytes == rd.bytes && PosOfWriter(s.txns, h[j]) < s.txns[t].pos;
    assert h'[j] == h[j] && WriterOk(s, rd.key, j, h[j]);
  }

  /** At its point a transaction comes after every writer there is. */
  lemma PointReadWriter(s: State, t: TxnId, i: nat)
    requires ReadInv(s) && CanPoint(s, t) && i < |s.txns[t].readSet| && s.txns[t].readSet[i].found
    requires ChainOk(s, s.txns[t].readSet[i].key)
    ensures ReadWriterOk(DoPoint(s, t), t, i)
  {
    var rd := s.txns[t].readSet[i];
    assert Genuine(s, rd);
    var h := Hist(s, rd.key);
    var j :| 0 <= j < |h| && h[j].tid == rd.tid && h[j].bytes == rd.bytes;
    assert WriterOk(s, rd.key, j, h[j]);
    var s' := DoPoint(s, t);
    assert Hist(s', rd.key)[j] == h[j] && PosOfWriter(s'.txns, h[j]) < |s.points| == s'.txns[t].pos;
  }

  /** Steps other than a point keep positions and read sets, and histories only grow. */
  predicate Calm(s: State, s': State) {
    && (forall t :: t in s'.txns && s'.txns[t].pos >= 0 ==>
          t in s.txns && s'.txns[t].readSet == s.txns[t].readSet && s'.txns[t].pos == s.txns[t].pos)
    && (forall u :: u in s.txns && Committed(s.txns[u]) ==> u in s'.txns && s'.txns[u].pos == s.txns[u].pos)
  }

  lemma CalmKeepsReadWriters(s: State, s': State)
    requires RecInv(s) && ReadWritersOk(s) && Calm(s, s') && HistGrows(s, s')
    ensures ReadWritersOk(s')
  {
    hide ChainOk, ReadWriterOk;
    forall t, i | t in s'.txns && s'.txns[t].pos >= 0 && 0 <= i < |s'.txns[t].readSet| && s'.txns[t].readSet[i].found
      ensures ReadWriterOk(s', t, i)
    {
      ReadWriterFrame(s, s', t, i);
    }
  }

  lemma PointKeepsReadWriters(s: State, t: TxnId)
    requires ReadInv(s) && RecInv(s) && ReadWritersOk(s) && CanPoint(s, t) && !Committed(s.txns[t])
    ensures ReadWritersOk(DoPoint(s, t))
  {
    hide ChainOk, ReadWriterOk, ReadInv;
    var s' := DoPoint(s, t);
    forall u, i | u in s'.txns && s'.txns[u].pos >= 0 && 0 <= i < |s'.txns[u].readSet| && s'.txns[u].readSet[i].found
      ensures ReadWriterOk(s', u, i)
    {
      if u == t { PointReadWriter(s, t, i); } else { ReadWriterFrame(s, s', u, i); }
    }
  }

  lemma KindIsCalm(s: State, s': State, t: TxnId)
    requires PosOk(s) && Kind(s, s', t) && !(CanPoint(s, t) && s' == DoPoint(s, t))
    ensures Calm(s, s')
  {
    hide Writer, Quiet, PosOk, DoPass, DoDecide, DoPublish, PassStep, CanPoint, CanDecide, CanPublish;
    if Quiet(s, s') {
      QuietIsCalm(s, s');
    } else if PassStep(s, t) && s' == DoPass(s, t) {
      PassIsCalm(s, t);
    } else if CanDecide(s, t) && s' == DoDecide(s, t) {
      DecideIsCalm(s, t);
    } else {
      PublishIsCalm(s, t);
    }
  }

  lemma QuietIsCalm(s: State, s': State)
    requires Quiet(s, s')
    ensures Calm(s, s')
  {
    hide Writer;
  }

  lemma PassIsCalm(s: State, t: TxnId)
    requires PassStep(s, t)
    ensures Calm(s, DoPass(s, t))
  {
  }

  lemma DecideIsCalm(s: State, t: TxnId)
    requires CanDecide(s, t)
    ensures Calm(s, DoDecide(s, t))
  {
  }

  lemma PublishIsCalm(s: State, t: TxnId)
    requires CanPublish(s, t)
    ensures Calm(s, DoPublish(s, t))
  {
  }

  lemma {:induction false} RunKeepsReadWriters(run: seq<State>, acts: seq<Action>, n: nat)
    requires IsRun(run, acts) && n <= |acts|
    ensures ReadWritersOk(run[n])
  {
    hide RecInv, Step, LockInv, HistInv, ReadInv, LogicalOk, ApartOk, ReadsOk, StaleOk, Kind, PosOk, ReadWriterOk;
    if n > 0 {
      hide Init;
      RunKeepsReadWriters(run, acts, n - 1);
      var s, s' := run[n - 1], run[n];
      RunKeepsRecInv(run, acts, n - 1);
      var t := StepKind(s, acts[n - 1], s');
      if CanPoint(s, t) && s' == DoPoint(s, t) {
        PointKeepsReadWriters(s, t);
      } else {
        KindIsCalm(s, s', t);
        StepGrowsHist(s, acts[n - 1], s');
        CalmKeepsReadWriters(s, s');
      }
    }
  }

  // ----- Cutting the run off at a frontier ------------------------------------------------------

  /** How many serialization points have an epoch up to the frontier. */
  function PointsUpTo(s: State, frontier: nat, n: nat): (r: nat)
    requires PosOk(s) && n <= |s.points|
    ensures r <= n
  {
    if n == 0 then 0
    else if s.txns[s.points[n - 1]].epoch <= frontier then n
    else PointsUpTo(s, frontier, n - 1)
  }

  lemma {:induction false} PointsUpToOk(s: State, frontier: nat, n: nat)
    requires PosOk(s) && n <= |s.points|
    ensures forall i :: 0 <= i < n ==> (s.txns[s.points[i]].epoch <= frontier <==> i < PointsUpTo(s, frontier, n))
  {
    if n > 0 {
      if s.txns[s.points[n - 1]].epoch <= frontier {
        forall i | 0 <= i < n ensures s.txns[s.points[i]].epoch <= frontier {
          if i < n - 1 { assert s.txns[s.points[i]].epoch <= s.txns[s.points[n - 1]].epoch; }
        }
      } else {
        PointsUpToOk(s, frontier, n - 1);
      }
    }
  }

  /** Every commit decided in an epoch up to the frontier has published all its keys. */
  predicate Closed(s: State, frontier: nat) {
    forall t :: t in s.txns && Committed(s.txns[t]) && s.txns[t].epoch <= frontier ==> s.txns[t].phase == Done
  }

  /** The newest contents of a key among the starting rows and the versions up to the frontier. */
  function Replay(h: seq<Version>, frontier: nat): Bytes {
    if h == [] then []
    else
      var v := h[|h| - 1];
      if v.writer == None || v.tid.epoch <= frontier then v.bytes else Replay(h[..|h| - 1], frontier)
  }

  /** The versions from n on come after the first m points, the ones before n strictly before `from`. */
  predicate CutAt(s: State, k: Key, n: nat, from: nat, m: nat) {
    && n <= |Hist(s, k)| && from <= m <= |s.points|
    && (forall i :: n <= i < |Hist(s, k)| ==> PosOfWriter(s.txns, Hist(s, k)[i]) >= m)
    && (forall i :: 0 <= i < n ==> PosOfWriter(s.txns, Hist(s, k)[i]) < from)
  }

  /** Each of the first m points that committed a write of the key has published a version of it. */
  predicate WrittenUpTo(s: State, k: Key, m: nat) {
    m <= |s.points| &&
    forall i | 0 <= i < m && s.points[i] in s.txns && Committed(s.txns[s.points[i]])
               && WritesKey(s.txns[s.points[i]].writeSet, k) :: HasVersionBy(Hist(s, k), s.points[i])
  }

  /** Between the last version kept and the frontier nobody committed a write of the key. */
  lemma NoWriterBetween(s: State, k: Key, n: nat, from: nat, m: nat)
    requires PosOk(s) && CutAt(s, k, n, from, m) && WrittenUpTo(s, k, m)
    ensures Serial(s, m, k) == Serial(s, from, k)
  {
    forall i | from <= i < m && s.points[i] in s.txns && Committed(s.txns[s.points[i]])
      ensures !WritesKey(s.txns[s.points[i]].writeSet, k)
    {
      assert s.txns[s.points[i]].pos == i;
      assert !HasVersionBy(Hist(s, k), s.points[i]);
    }
    SerialUnwritten(s.initial, s.txns, s.points, from, m, k);
  }

  lemma KeptVersion(s: State, k: Key, n: nat, m: nat)
    requires PosOk(s) && ChainOk(s, k) && WrittenUpTo(s, k, m) && 0 < n <= |Hist(s, k)|
    requires forall i :: n <= i < |Hist(s, k)| ==> PosOfWriter(s.txns, Hist(s, k)[i]) >= m
    requires PosOfWriter(s.txns, Hist(s, k)[n - 1]) < m
    ensures Serial(s, m, k) == Hist(s, k)[n - 1].bytes
  {
    var h := Hist(s, k);
    var v := h[n - 1];
    assert WriterOk(s, k, n - 1, v);
    var p := PosOfWriter(s.txns, v);
    forall i | 0 <= i < n ensures PosOfWriter(s.txns, h[i]) < p + 1 {
      if i < n - 1 { assert PosOfWriter(s.txns, h[i]) < PosOfWriter(s.txns, h[n - 1]); }
    }
    NoWriterBetween(s, k, n, p + 1, m);
    if v.writer.Some? {
      var t := v.writer.value;
      assert PosTxnOk(s, t) && s.points[p] == t;
      EffectOfWriter(s.txns[t].writeSet, k, Serial(s, p, k), []);
    }
  }

  lemma NothingKept(s: State, k: Key, m: nat)
    requires PosOk(s) && ChainOk(s, k) && WrittenUpTo(s, k, m)
    requires forall i :: 0 <= i < |Hist(s, k)| ==> PosOfWriter(s.txns, Hist(s, k)[i]) >= m
    ensures Serial(s, m, k) == []
  {
    NoWriterBetween(s, k, 0, 0, m);
  }

  lemma {:induction false} ReplayIsSerial(s: State, frontier: nat, k: Key, n: nat, m: nat)
    requires PosOk(s) && ChainOk(s, k) && n <= |Hist(s, k)| && WrittenUpTo(s, k, m)
    requires forall i :: n <= i < |Hist(s, k)| ==> PosOfWriter(s.txns, Hist(s, k)[i]) >= m
    requires forall i :: 0 <= i < |Hist(s, k)| ==>
               (PosOfWriter(s.txns, Hist(s, k)[i]) < m <==>
                Hist(s, k)[i].writer == None || Hist(s, k)[i].tid.epoch <= frontier)
    ensures Replay(Hist(s, k)[..n], frontier) == Serial(s, m, k)
  {
    hide PosOk, ChainOk, WrittenUpTo, PosOfWriter;
    var h := Hist(s, k);
    if n == 0 {
      NothingKept(s, k, m);
    } else {
      assert h[..n][..n - 1] == h[..n - 1];
      if PosOfWriter(s.txns, h[n - 1]) < m { KeptVersion(s, k, n, m); } else {
        ReplayIsSerial(s, frontier, k, n - 1, m);
      }
    }
  }

  lemma VersionsUpTo(s: State, frontier: nat, k: Key, i: nat)
    requires PosOk(s) && ChainOk(s, k) && i < |Hist(s, k)|
    ensures var v := Hist(s, k)[i];
            PosOfWriter(s.txns, v) < PointsUpTo(s, frontier, |s.points|) <==>
                v.writer == None || v.tid.epoch <= frontier
  {
    var v := Hist(s, k)[i];
    assert WriterOk(s, k, i, v);
    PointsUpToOk(s, frontier, |s.points|);
    if v.writer.Some? { assert PosTxnOk(s, v.writer.value); }
  }

  lemma ClosedIsWritten(s: State, frontier: nat, k: Key, t: TxnId)
    requires LockInv(s) && RecInv(s) && Closed(s, frontier) && t in s.txns && Committed(s.txns[t])
    requires s.txns[t].epoch <= frontier && WritesKey(s.txns[t].writeSet, k)
    ensures HasVersionBy(Hist(s, k), t)
  {
    hide LockInv, ChainOk, Newer;
    var a :| 0 <= a < |s.txns[t].writeSet| && s.txns[t].writeSet[a].key == k;
    assert WrittenOrPending(s, t, s.txns[t].writeSet[a].key);
    if Writer(s, k) == Some(t) { OwnerOkOf(s, s.index[k]); }
  }

  /** What was read is a starting row, or was written by a commit up to the frontier earlier in the serial order. */
  predicate ReadFromPrefix(s: State, t: TxnId, i: nat, frontier: nat)
    requires t in s.txns && i < |s.txns[t].readSet|
  {
    var rd := s.txns[t].readSet[i];
    exists j :: 0 <= j < |Hist(s, rd.key)| && FromPrefix(s, Hist(s, rd.key)[j], rd, s.txns[t].pos, frontier)
  }

  predicate FromPrefix(s: State, v: Version, rd: Read, pos: int, frontier: nat) {
    && v.tid == rd.tid && v.bytes == rd.bytes
    && match v.writer
       case None => rd.key in s.initial && s.initial[rd.key] == rd.bytes
       case Some(u) =>
         && u in s.txns && Committed(s.txns[u]) && s.txns[u].epoch <= frontier && s.txns[u].pos < pos
         && WritesKey(s.txns[u].writeSet, rd.key)
  }

  lemma ReadsFromPrefix(s: State, t: TxnId, i: nat, frontier: nat)
    requires RecInv(s) && ReadWritersOk(s) && t in s.txns && s.txns[t].pos >= 0 && s.txns[t].epoch <= frontier
    requires i < |s.txns[t].readSet| && s.txns[t].readSet[i].found
    ensures ReadFromPrefix(s, t, i, frontier)
  {
    hide WritersAscend;
    var rd := s.txns[t].readSet[i];
    assert ReadWriterOk(s, t, i) && ChainOk(s, rd.key) && rd.tid.epoch <= s.txns[t].epoch;
    var h := Hist(s, rd.key);
    var j :| 0 <= j < |h| && h[j].tid == rd.tid && h[j].bytes == rd.bytes && PosOfWriter(s.txns, h[j]) < s.txns[t].pos;
    assert WriterOk(s, rd.key, j, h[j]);
    assert FromPrefix(s, h[j], rd, s.txns[t].pos, frontier);
  }

  /**
   * Crash consistency. In every reachable state and for every frontier whose epochs are closed,
   * replaying the newest version of each key up to the frontier gives exactly what running the
   * committed transactions of those epochs serially gives; they are a prefix of the serial order;
   * and whatever such a transaction found present was a starting row or written by one of them
   * that comes before it.
   */
  lemma RecoveredStateIsSerialPrefix(run: seq<State>, acts: seq<Action>, frontier: nat)
    requires IsRun(run, acts) && Closed(run[|acts|], frontier)
    ensures var s := run[|acts|];
            && PosOk(s)
            && (forall k :: Replay(Hist(s, k), frontier) == Serial(s, PointsUpTo(s, frontier, |s.points|), k))
            && (forall t :: t in s.txns && s.txns[t].pos >= 0 ==>
                  (s.txns[t].epoch <= frontier <==> s.txns[t].pos < PointsUpTo(s, frontier, |s.points|)))
            && (forall t, i | t in s.txns && Committed(s.txns[t]) && s.txns[t].epoch <= frontier
                              && 0 <= i < |s.txns[t].readSet| && s.txns[t].readSet[i].found ::
                  ReadFromPrefix(s, t, i, frontier))
  {
    hide Step, Init, LockInv, HistInv, ReadInv, LogicalOk, ApartOk, ReadsOk, StaleOk, ChainOk, ReadFromPrefix,
      ReadWriterOk;
    var s := run[|acts|];
    RunKeepsRecInv(run, acts, |acts|);
    RunKeepsReadWriters(run, acts, |acts|);
    PointsUpToOk(s, frontier, |s.points|);
    var m := PointsUpTo(s, frontier, |s.points|);
    forall k ensures Replay(Hist(s, k), frontier) == Serial(s, m, k) {
      ChainOkOf(s, k);
      forall i | 0 <= i < m && s.points[i] in s.txns && Committed(s.txns[s.points[i]])
                 && WritesKey(s.txns[s.points[i]].writeSet, k)
        ensures HasVersionBy(Hist(s, k), s.points[i])
      {
        ClosedIsWritten(s, frontier, k, s.points[i]);
      }
      forall i | 0 <= i < |Hist(s, k)|
        ensures PosOfWriter(s.txns, Hist(s, k)[i]) < m <==>
                Hist(s, k)[i].writer == None || Hist(s, k)[i].tid.epoch <= frontier
      {
        VersionsUpTo(s, frontier, k, i);
      }
      ReplayIsSerial(s, frontier, k, |Hist(s, k)|, m);
      assert Hist(s, k)[..|Hist(s, k)|] == Hist(s, k);
    }
    forall t | t in s.txns && s.txns[t].pos >= 0
      ensures s.txns[t].epoch <= frontier <==> s.txns[t].pos < PointsUpTo(s, frontier, |s.points|)
    {
      PosTxnOkOf(s, t);
    }
    forall t, i | t in s.txns && Committed(s.txns[t]) && s.txns[t].epoch <= frontier
                  && 0 <= i < |s.txns[t].readSet| && s.txns[t].readSet[i].found
      ensures ReadFromPrefix(s, t, i, frontier)
    {
      PosTxnOkOf(s, t);
      ReadsFromPrefix(s, t, i, frontier);
    }
  }
}
