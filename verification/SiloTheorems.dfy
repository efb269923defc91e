/** The main results about the commit protocol, stated for every run of the machine. */
module SiloTheorems {
  import opened Basics
  import opened Versions
  import opened SiloModel
  import opened SiloLocks
  import opened SiloHistory
  import opened SiloReads
  import opened SiloSerial

  // ----- Serializability ------------------------------------------------------------------------

  /** The rows after running the given write sets one at a time from an initial database. */
  function RunSerially(initial: map<Key, Bytes>, requests: seq<Txn>, k: Key): Bytes {
    if requests == [] then InitialOf(initial, k)
    else Effect(requests[|requests| - 1].writeSet, k, RunSerially(initial, requests[..|requests| - 1], k))
  }

  /** Every protected read of every request returns what the requests before it left behind. */
  predicate SerialHistory(initial: map<Key, Bytes>, requests: seq<Txn>) {
    forall i, r :: 0 <= i < |requests| && 0 <= r < |requests[i].readSet| && Protected(requests[i], r) ==>
      requests[i].readSet[r].bytes == RunSerially(initial, requests[..i], requests[i].readSet[r].key)
  }

  /** The committed ones among the first n serialization points, in their order. */
  function CommittedIds(s: State, n: nat): seq<TxnId>
    requires n <= |s.points|
  {
    if n == 0 then []
    else
      var t := s.points[n - 1];
      if t in s.txns && Committed(s.txns[t]) then CommittedIds(s, n - 1) + [t] else CommittedIds(s, n - 1)
  }

  function Requests(s: State, ids: seq<TxnId>): (rs: seq<Txn>)
    requires forall i :: 0 <= i < |ids| ==> ids[i] in s.txns
    ensures |rs| == |ids| && forall i :: 0 <= i < |ids| ==> rs[i] == s.txns[ids[i]]
  {
    seq(|ids|, i requires 0 <= i < |ids| => s.txns[ids[i]])
  }

  /** Exactly the transactions that committed with a point before n, in the order of their points. */
  predicate AreCommitted(s: State, n: nat, ids: seq<TxnId>) {
    && (forall i :: 0 <= i < |ids| ==> ids[i] in s.txns && Committed(s.txns[ids[i]]) && 0 <= s.txns[ids[i]].pos < n)
    && (forall i, j :: 0 <= i < j < |ids| ==> s.txns[ids[i]].pos < s.txns[ids[j]].pos)
    && (forall t :: t in s.txns && Committed(s.txns[t]) && s.txns[t].pos < n ==> t in ids)
  }

  lemma OneMorePoint(s: State, n: nat, ids: seq<TxnId>)
    requires PosOk(s) && n < |s.points| && AreCommitted(s, n, ids)
    ensures s.points[n] in s.txns
    ensures AreCommitted(s, n + 1, if Committed(s.txns[s.points[n]]) then ids + [s.points[n]] else ids)
  {
    hide Committed;
    var t := s.points[n];
    assert t in s.txns && s.txns[t].pos == n;
    forall u | u in s.txns && Committed(s.txns[u]) && s.txns[u].pos < n + 1 ensures u in ids || u == t {
      assert PosTxnOk(s, u);
    }
  }

  lemma {:induction false} CommittedIdsOk(s: State, n: nat)
    requires PosOk(s) && n <= |s.points|
    ensures AreCommitted(s, n, CommittedIds(s, n))
  {
    hide Committed, PosOk, AreCommitted;
    if n == 0 {
      NothingCommitted(s);
    } else {
      CommittedIdsOk(s, n - 1);
      OneMorePoint(s, n - 1, CommittedIds(s, n - 1));
    }
  }

  lemma NothingCommitted(s: State)
    requires PosOk(s)
    ensures AreCommitted(s, 0, [])
  {
    forall t | t in s.txns && Committed(s.txns[t]) ensures s.txns[t].pos >= 0 {
      assert PosTxnOk(s, t);
    }
  }

  lemma RequestsAppend(s: State, ids: seq<TxnId>, t: TxnId, k: Key)
    requires (forall i :: 0 <= i < |ids| ==> ids[i] in s.txns) && t in s.txns
    ensures RunSerially(s.initial, Requests(s, ids + [t]), k)
            == Effect(s.txns[t].writeSet, k, RunSerially(s.initial, Requests(s, ids), k))
  {
    var rs := Requests(s, ids + [t]);
    assert rs[..|rs| - 1] == Requests(s, ids);
  }

  lemma {:induction false} SerialIsRunSerially(s: State, n: nat, k: Key)
    requires n <= |s.points|
    ensures forall i :: 0 <= i < |CommittedIds(s, n)| ==> CommittedIds(s, n)[i] in s.txns
    ensures RunSerially(s.initial, Requests(s, CommittedIds(s, n)), k) == Serial(s, n, k)
  {
    if n > 0 {
      SerialIsRunSerially(s, n - 1, k);
      var t := s.points[n - 1];
      if t in s.txns && Committed(s.txns[t]) { RequestsAppend(s, CommittedIds(s, n - 1), t, k); }
    }
  }

  /** The position-i prefix of the committed order is what committed before that position. */
  lemma {:induction false} CommittedPrefix(s: State, n: nat, i: nat)
    requires PosOk(s) && n <= |s.points| && i < |CommittedIds(s, n)|
    requires CommittedIds(s, n)[i] in s.txns && 0 <= s.txns[CommittedIds(s, n)[i]].pos < n
    ensures CommittedIds(s, n)[..i] == CommittedIds(s, s.txns[CommittedIds(s, n)[i]].pos)
  {
    hide CommittedIds, Committed, PosOk;
    var ids, before := CommittedIds(s, n), CommittedIds(s, n - 1);
    LastPoint(s, n);
    if i < |before| {
      assert ids[i] == before[i] && ids[..i] == before[..i];
      IdPosition(s, n - 1, i);
      CommittedPrefix(s, n - 1, i);
    } else {
      assert ids[..i] == before;
    }
  }

  /** The last serialization point adds its transaction, if that committed, and nothing else. */
  lemma LastPoint(s: State, n: nat)
    requires PosOk(s) && 0 < n <= |s.points|
    ensures s.points[n - 1] in s.txns && s.txns[s.points[n - 1]].pos == n - 1
    ensures CommittedIds(s, n) == CommittedIds(s, n - 1)
            || CommittedIds(s, n) == CommittedIds(s, n - 1) + [s.points[n - 1]]
  {
  }

  lemma IdPosition(s: State, n: nat, i: nat)
    requires PosOk(s) && n <= |s.points| && i < |CommittedIds(s, n)|
    ensures CommittedIds(s, n)[i] in s.txns && Committed(s.txns[CommittedIds(s, n)[i]])
    ensures 0 <= s.txns[CommittedIds(s, n)[i]].pos < n
  {
    hide CommittedIds, Committed, PosOk;
    CommittedIdsOk(s, n);
  }

  lemma InvIsSerializable(s: State)
    requires Inv(s)
    ensures forall i :: 0 <= i < |CommittedIds(s, |s.points|)| ==> CommittedIds(s, |s.points|)[i] in s.txns
    ensures SerialHistory(s.initial, Requests(s, CommittedIds(s, |s.points|)))
  {
    hide LockInv, HistInv, ReadInv, PosOk, LogicalOk, ApartOk, ReadsOk, StaleOk, CommittedIds, Committed,
      RunSerially, Protected;
    var ids := CommittedIds(s, |s.points|);
    forall i | 0 <= i < |ids| ensures ids[i] in s.txns { IdPosition(s, |s.points|, i); }
    var rs := Requests(s, ids);
    forall i, r | 0 <= i < |rs| && 0 <= r < |rs[i].readSet| && Protected(rs[i], r)
      ensures rs[i].readSet[r].bytes == RunSerially(s.initial, rs[..i], rs[i].readSet[r].key)
    {
      IdPosition(s, |s.points|, i);
      var p := s.txns[ids[i]].pos;
      CommittedPrefix(s, |s.points|, i);
      SerialIsRunSerially(s, p, rs[i].readSet[r].key);
      assert rs[..i] == Requests(s, CommittedIds(s, p));
      CommittedReadIsSerial(s, ids[i], r);
    }
  }

  lemma CommittedReadIsSerial(s: State, t: TxnId, r: nat)
    requires ReadsOk(s) && t in s.txns && Committed(s.txns[t]) && s.txns[t].pos >= 0 && s.txns[t].pos <= |s.points|
    requires r < |s.txns[t].readSet| && Protected(s.txns[t], r)
    ensures Serial(s, s.txns[t].pos, s.txns[t].readSet[r].key) == s.txns[t].readSet[r].bytes
  {
    assert SerialReads(s, t);
  }

  /** What the database shows for a key: nothing without a slot, else the bytes of the slot. */
  function Visible(s: State, k: Key): Bytes {
    if k in s.index && s.index[k] in s.slots then s.slots[s.index[k]].bytes else []
  }

  lemma QuietKeyShowsSerial(s: State, k: Key)
    requires Inv(s) && Writer(s, k) == None
    ensures Visible(s, k) == Serial(s, |s.points|, k)
  {
    hide LockInv, HistInv, ReadInv;
    assert Serial(s, |s.points|, k) == Logical(s, k);
    LockInvTable(s);
    if k in s.index { SlotOkOf(s, s.index[k]); } else { VacantOf(s, k); }
  }

  lemma LockInvTable(s: State)
    requires LockInv(s)
    ensures IndexOk(s)
  {
  }

  /**
   * Serializability. In every run, the committed transactions ordered by their serialization
   * points form a serial history of their protected reads, each transaction appears once, and
   * every key that no decided commit still has to publish shows what that serial order leaves.
   */
  lemma Serializability(run: seq<State>, acts: seq<Action>)
    requires IsRun(run, acts)
    ensures var s := run[|acts|];
            var ids := CommittedIds(s, |s.points|);
            && (forall i :: 0 <= i < |ids| ==> ids[i] in s.txns)
            && (forall t :: t in s.txns && Committed(s.txns[t]) <==> t in ids)
            && (forall i, j :: 0 <= i < j < |ids| ==> ids[i] != ids[j])
            && SerialHistory(run[0].initial, Requests(s, ids))
            && (forall k :: Writer(s, k) == None ==> Visible(s, k) == RunSerially(run[0].initial, Requests(s, ids), k))
  {
    hide Step, Init, LockInv, HistInv, ReadInv;
    var s := run[|acts|];
    RunKeepsInv(run, acts, |acts|);
    SameInitial(run, acts, |acts|);
    InvIsSerializable(s);
    CommittedIdsOk(s, |s.points|);
    var ids := CommittedIds(s, |s.points|);
    forall t | t in s.txns && Committed(s.txns[t]) ensures t in ids { assert PosTxnOk(s, t); }
    forall i, j | 0 <= i < j < |ids| ensures ids[i] != ids[j] {
      assert s.txns[ids[i]].pos < s.txns[ids[j]].pos;
    }
    forall k | Writer(s, k) == None ensures Visible(s, k) == RunSerially(run[0].initial, Requests(s, ids), k) {
      QuietKeyShowsSerial(s, k);
      SerialIsRunSerially(s, |s.points|, k);
    }
  }

  lemma {:induction false} SameInitial(run: seq<State>, acts: seq<Action>, n: nat)
    requires IsRun(run, acts) && n <= |acts|
    ensures run[n].initial == run[0].initial
  {
    if n > 0 {
      hide Step, Init;
      SameInitial(run, acts, n - 1);
      StepSameInitial(run[n - 1], acts[n - 1], run[n]);
    }
  }

  lemma StepSameInitial(s: State, a: Action, s': State)
    requires Step(s, a, s')
    ensures s'.initial == s.initial
  {
    hide TxnStep, ReaperStep;
    if a.TxnAct? {
      TxnStepFrame(s, a.t, a.ca, s');
    } else if a.ReaperAct? {
      ReaperKeepsReaders(s, a.pa, s');
    }
  }

  // ----- Versions -------------------------------------------------------------------------------

  lemma {:induction false} HistGrowsAlong(run: seq<State>, acts: seq<Action>, m: nat, n: nat)
    requires IsRun(run, acts) && m <= n <= |acts|
    ensures HistGrows(run[m], run[n])
  {
    if m < n {
      hide Step, Init;
      HistGrowsAlong(run, acts, m, n - 1);
      StepGrowsHist(run[n - 1], acts[n - 1], run[n]);
    }
  }

  /**
   * Along every run the published versions of a key only grow and strictly increase, also when
   * its slot is purged and created anew in between. So two present reads of one key that carry
   * the same version, completed at any two moments, carry the same contents.
   */
  lemma EqualTidSameVersion(run: seq<State>, acts: seq<Action>, m: nat, n: nat, a: Read, b: Read)
    requires IsRun(run, acts) && m <= n <= |acts|
    requires a in run[m].evidence && b in run[n].evidence
    requires a.found && b.found && a.key == b.key
    ensures Increasing(Hist(run[n], a.key)) && Hist(run[m], a.key) <= Hist(run[n], a.key)
    ensures a.tid == b.tid ==> a.bytes == b.bytes
  {
    hide Step, Init, LockInv, HistInv, SerialInv;
    RunKeepsInv(run, acts, m);
    RunKeepsInv(run, acts, n);
    HistGrowsAlong(run, acts, m, n);
    GenuineFrame(run[m], run[n], a);
    assert Genuine(run[n], b);
    HistParts(run[n]);
    var h := Hist(run[n], a.key);
    var i :| 0 <= i < |h| && h[i].tid == a.tid && h[i].bytes == a.bytes;
    var j :| 0 <= j < |h| && h[j].tid == b.tid && h[j].bytes == b.bytes;
    if i < j { assert Less(h[i].tid, h[j].tid); }
    if j < i { assert Less(h[j].tid, h[i].tid); }
  }

  /**
   * A purge removes only an attached tombstone that still carries the version its delete
   * published, at least two epochs after it, and changes the visible contents of no key.
   */
  lemma PurgeIsInvisible(run: seq<State>, acts: seq<Action>, n: nat)
    requires IsRun(run, acts) && n < |acts| && acts[n] == ReaperAct(Detach)
    ensures var s := run[n];
            && s.reaper.Holding? && Attached(s, s.reaper.c.slot)
            && s.slots[s.reaper.c.slot].bytes == []
            && LastTid(s, s.reaper.c.key) == s.reaper.c.tid && s.reaper.c.tid.epoch + 2 <= s.epoch
            && s.reaper.c.key !in run[n + 1].index
            && forall k :: Visible(run[n + 1], k) == Visible(s, k)
  {
    hide Init, LockInv, HistInv, ReadInv, SerialInv;
    var s := run[n];
    RunKeepsInv(run, acts, n);
    assert Step(s, acts[n], run[n + 1]);
    TableOf(s);
    SlotOkOf(s, s.reaper.c.slot);
  }

  // ----- Aborts ---------------------------------------------------------------------------------

  /**
   * Undoing a lock puts back exactly the word the slot carried before the lock, and touches no
   * contents and no other slot; until then nobody else has moved the slot.
   */
  lemma AbortRestores(run: seq<State>, acts: seq<Action>, n: nat, t: TxnId, x: SlotId)
    requires IsRun(run, acts) && n < |acts| && acts[n] == TxnAct(t, Unlock(x))
    ensures var s, s' := run[n], run[n + 1];
            && t in s.txns && x in s.txns[t].locked && x in s.slots
            && s.slots[x].word == WithLock(s.txns[t].locked[x])
            && s'.slots == s.slots[x := s.slots[x].(word := s.txns[t].locked[x], owner := Nobody)]
            && s'.index == s.index && s'.hist == s.hist
  {
    hide Init, LockInv, HistInv, ReadInv, SerialInv;
    RunKeepsInv(run, acts, n);
    assert Step(run[n], acts[n], run[n + 1]);
    OwnerOkOf(run[n], x);
  }

  // ----- Waiting ----------------------------------------------------------------------------------

  /** The slot a committer is spinning on. */
  predicate SpinsOn(s: State, t: TxnId, x: SlotId) {
    t in s.txns && s.txns[t].phase == Locking && s.txns[t].next < |s.txns[t].order|
    && s.txns[t].order[s.txns[t].next] == x && x in s.slots && Locked(s.slots[x].word)
  }

  ghost predicate WaitsFor(s: State, t: TxnId, u: TxnId) {
    exists x :: SpinsOn(s, t, x) && s.slots[x].owner == ByTxn(u)
  }

  /** Along a wait edge the slots waited for strictly increase. */
  lemma WaitAscends(s: State, t: TxnId, u: TxnId, x: SlotId, y: SlotId)
    requires LockInv(s) && SpinsOn(s, t, x) && s.slots[x].owner == ByTxn(u) && SpinsOn(s, u, y)
    ensures x < y
  {
    hide LockInv;
    OwnerOkOf(s, x);
    TxnOkOf(s, u);
    var z := s.txns[u];
    var j :| 0 <= j < |z.order| && z.order[j] == x && Held(z, j);
  }

  ghost predicate WaitChain(s: State, chain: seq<TxnId>) {
    forall i :: 0 <= i < |chain| - 1 ==> WaitsFor(s, chain[i], chain[i + 1])
  }

  lemma {:induction false} WaitChainAscends(s: State, chain: seq<TxnId>, x: SlotId, y: SlotId)
    requires LockInv(s) && |chain| >= 2 && WaitChain(s, chain)
    requires SpinsOn(s, chain[0], x) && SpinsOn(s, chain[|chain| - 1], y)
    ensures x < y
  {
    hide LockInv;
    assert WaitsFor(s, chain[0], chain[1]);
    var z :| SpinsOn(s, chain[0], z) && s.slots[z].owner == ByTxn(chain[1]);
    SpinsOnOne(s, chain[0], x, z);
    if |chain| == 2 {
      WaitAscends(s, chain[0], chain[1], x, y);
    } else {
      assert WaitsFor(s, chain[1], chain[2]);
      var w :| SpinsOn(s, chain[1], w) && s.slots[w].owner == ByTxn(chain[2]);
      WaitAscends(s, chain[0], chain[1], x, w);
      assert WaitChain(s, chain[1..]) by {
        forall i | 0 <= i < |chain[1..]| - 1 ensures WaitsFor(s, chain[1..][i], chain[1..][i + 1]) {
          assert WaitsFor(s, chain[i + 1], chain[i + 2]);
        }
      }
      WaitChainAscends(s, chain[1..], w, y);
    }
  }

  lemma SpinsOnOne(s: State, t: TxnId, x: SlotId, y: SlotId)
    requires SpinsOn(s, t, x) && SpinsOn(s, t, y)
    ensures x == y
  {
  }

  function SlotsAbove(s: State, x: SlotId): set<SlotId> {
    set y | y in s.slots && y > x
  }

  lemma SubsetSmaller(a: set<SlotId>, b: set<SlotId>)
    requires a < b
    ensures |a| < |b|
  {
    assert b == a + (b - a);
    var x :| x in b - a;
    assert |b| == |a| + |b - a|;
  }

  /** A finished transaction holds no lock, so nobody waits for it while it awaits durability. */
  lemma FinishedHoldsNothing(run: seq<State>, acts: seq<Action>, t: TxnId, x: SlotId)
    requires IsRun(run, acts) && t in run[|acts|].txns && x in run[|acts|].slots
    requires run[|acts|].txns[t].phase == Done || run[|acts|].txns[t].phase == Aborted
    ensures run[|acts|].slots[x].owner != ByTxn(t)
  {
    hide Step, Init, LockInv, HistInv, ReadInv, SerialInv;
    RunKeepsInv(run, acts, |acts|);
    OwnerOkOf(run[|acts|], x);
  }
}
