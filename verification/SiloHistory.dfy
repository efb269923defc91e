/**
 * Version histories: in every reachable state the published versions of a key strictly
 * increase, also across physical purge, and an attached slot that is not being installed
 * shows the newest of them.
 */
module SiloHistory {
  import opened Basics
  import opened Versions
  import opened SiloModel
  import opened SiloLocks

  predicate Increasing(h: seq<Version>) {
    forall i, j :: 0 <= i < j < |h| ==> Less(h[i].tid, h[j].tid)
  }

  predicate VersionsOk(s: State) {
    forall k :: k in s.hist ==>
      && Increasing(s.hist[k])
      && forall i :: 0 <= i < |s.hist[k]| ==>
           !Locked(s.hist[k][i].tid) && s.hist[k][i].tid != EMPTY && s.hist[k][i].tid.epoch <= s.epoch
  }

  /** A dead key whose last version, if any, is older than the current epoch. */
  predicate Vacant(s: State, k: Key) {
    Current(s, k) == [] && (Hist(s, k) != [] ==> LastTid(s, k).epoch < s.epoch)
  }

  predicate BeingInstalled(s: State, x: SlotId)
    requires x in s.slots
  {
    s.slots[x].owner.ByTxn? && s.slots[x].owner.txn in s.txns && Committed(s.txns[s.slots[x].owner.txn])
  }

  predicate SlotOk(s: State, x: SlotId)
    requires x in s.slots
  {
    if Attached(s, x) then
      var k := s.slots[x].key;
      && ((Hist(s, k) != [] && Base(s.slots[x].word) == LastTid(s, k))
          || (Base(s.slots[x].word) == EMPTY && Vacant(s, k)))
      && (!BeingInstalled(s, x) ==> s.slots[x].bytes == Current(s, k))
    else s.slots[x].bytes == []
  }

  ghost predicate KeysOk(s: State) {
    forall k :: k !in s.index ==> Vacant(s, k)
  }

  /** What an install in progress has left in the slot at one position of the lock order. */
  predicate ContentsOk(s: State, x: Txn, j: nat)
    requires j < |x.order| && x.order[j] in s.slots
  {
    var sl := s.slots[x.order[j]];
    match x.phase
    case Installing =>
      x.next <= |x.writeSet| &&
      ((x.torn && x.next < |x.items| && x.items[x.next] == x.order[j])
       || sl.bytes == Effect(x.writeSet[..x.next], sl.key, Current(s, sl.key)))
    case Publishing => sl.bytes == Effect(x.writeSet, sl.key, Current(s, sl.key))
    case _ => true
  }

  predicate PastPoint(x: Txn) {
    x.phase == Validating || x.phase == Installing || x.phase == Publishing
  }

  /** The commit epoch is not older than any version the commit will replace. */
  predicate EpochCovers(s: State, x: Txn, j: nat)
    requires j < |x.order| && x.order[j] in s.slots
  {
    var sl := s.slots[x.order[j]];
    Hist(s, sl.key) != [] ==>
      && LastTid(s, sl.key).epoch <= x.epoch
      && (Base(sl.word) == EMPTY ==> LastTid(s, sl.key).epoch < x.epoch)
  }

  predicate CommitOk(s: State, x: Txn) {
    PastPoint(x) ==>
      && x.epoch <= s.epoch
      && forall j :: 0 <= j < |x.order| && Held(x, j) ==>
           x.order[j] in s.slots && EpochCovers(s, x, j) && ContentsOk(s, x, j)
  }

  ghost predicate HistInv(s: State) {
    && VersionsOk(s)
    && (forall x :: x in s.slots ==> SlotOk(s, x))
    && KeysOk(s)
    && (forall t :: t in s.txns ==> CommitOk(s, s.txns[t]))
  }

  // ----- Framing -----------------------------------------------------------------------

  lemma SlotFrame(s: State, s': State, x: SlotId)
    requires x in s.slots && SlotOk(s, x) && x in s'.slots && s'.slots[x].key == s.slots[x].key
    requires Base(s'.slots[x].word) == Base(s.slots[x].word) && s'.slots[x].bytes == s.slots[x].bytes
    requires Attached(s', x) == Attached(s, x)
    requires Attached(s, x) ==> Hist(s', s.slots[x].key) == Hist(s, s.slots[x].key)
    requires Attached(s, x) && BeingInstalled(s, x) ==> BeingInstalled(s', x)
    requires s.epoch <= s'.epoch
    ensures SlotOk(s', x)
  {
  }

  lemma CommitFrame(s: State, s': State, x: Txn)
    requires CommitOk(s, x) && s.epoch <= s'.epoch
    requires forall j :: 0 <= j < |x.order| && Held(x, j) && x.order[j] in s.slots ==>
               && x.order[j] in s'.slots && s'.slots[x.order[j]] == s.slots[x.order[j]]
               && Hist(s', s.slots[x.order[j]].key) == Hist(s, s.slots[x.order[j]].key)
    ensures CommitOk(s', x)
  {
    if PastPoint(x) {
      forall j | 0 <= j < |x.order| && Held(x, j)
        ensures x.order[j] in s'.slots && EpochCovers(s', x, j) && ContentsOk(s', x, j)
      {
        assert EpochCovers(s, x, j) && ContentsOk(s, x, j);
      }
    }
  }

  lemma VersionsFrame(s: State, s': State)
    requires VersionsOk(s) && s'.hist == s.hist && s.epoch <= s'.epoch
    ensures VersionsOk(s')
  {
  }

  lemma KeysFrame(s: State, s': State)
    requires KeysOk(s) && s'.hist == s.hist && s.epoch <= s'.epoch && s.index.Keys <= s'.index.Keys
    ensures KeysOk(s')
  {
    forall k | k !in s'.index ensures Vacant(s', k) { assert Vacant(s, k); }
  }

  lemma HistInvInit(s: State)
    requires Init(s)
    ensures HistInv(s)
  {
  }

  /** Steps that touch no row, no version and no transaction. */
  lemma SameRowsKeepHistInv(s: State, s': State)
    requires HistInv(s) && s'.slots == s.slots && s'.index == s.index && s'.txns == s.txns
    requires s'.hist == s.hist && s.epoch <= s'.epoch
    ensures HistInv(s')
  {
    VersionsFrame(s, s');
    KeysFrame(s, s');
    forall x | x in s'.slots ensures SlotOk(s', x) { SlotFrame(s, s', x); }
    forall t | t in s'.txns ensures CommitOk(s', s'.txns[t]) { CommitFrame(s, s', s.txns[t]); }
  }

  /** Steps of t that touch no row and no version, and do not undo a decision to commit. */
  lemma LocalStepKeepsHistInv(s: State, s': State, t: TxnId)
    requires HistInv(s) && t in s'.txns && s'.txns == s.txns[t := s'.txns[t]]
    requires s'.slots == s.slots && s'.index == s.index && s'.hist == s.hist && s'.epoch == s.epoch
    requires t in s.txns && Committed(s.txns[t]) ==> Committed(s'.txns[t])
    requires CommitOk(s', s'.txns[t])
    ensures HistInv(s')
  {
    VersionsFrame(s, s');
    KeysFrame(s, s');
    forall x | x in s'.slots ensures SlotOk(s', x) { SlotFrame(s, s', x); }
    forall u | u in s'.txns && u != t ensures CommitOk(s', s'.txns[u]) { CommitFrame(s, s', s.txns[u]); }
  }

  // Pieces of the invariants, so that a proof can look at one of them at a time.

  lemma SlotOkOf(s: State, x: SlotId)
    requires HistInv(s) && x in s.slots
    ensures SlotOk(s, x)
  {
  }

  lemma CommitOkOf(s: State, t: TxnId)
    requires HistInv(s) && t in s.txns
    ensures CommitOk(s, s.txns[t])
  {
  }

  lemma HistParts(s: State)
    requires HistInv(s)
    ensures VersionsOk(s) && KeysOk(s)
  {
  }

  lemma VacantOf(s: State, k: Key)
    requires HistInv(s) && k !in s.index
    ensures Vacant(s, k)
  {
  }

  lemma HistJoin(s: State)
    requires VersionsOk(s) && KeysOk(s)
    requires forall x :: x in s.slots ==> SlotOk(s, x)
    requires forall t :: t in s.txns ==> CommitOk(s, s.txns[t])
    ensures HistInv(s)
  {
  }

  lemma HeldRow(s: State, t: TxnId, j: nat)
    requires LockInv(s) && t in s.txns && j < |s.txns[t].order| && HeldAttached(s.txns[t], j)
    ensures s.txns[t].order[j] in s.slots && s.slots[s.txns[t].order[j]].owner == ByTxn(t)
    ensures Attached(s, s.txns[t].order[j])
  {
    hide LockInv;
    TxnOkOf(s, t);
  }

  /** A slot owned by someone else is not among the held slots of u. */
  lemma HeldElsewhere(s: State, u: TxnId, i: SlotId, j: nat)
    requires LockInv(s) && u in s.txns && i in s.slots && s.slots[i].owner != ByTxn(u)
    requires j < |s.txns[u].order| && Held(s.txns[u], j)
    ensures s.txns[u].order[j] != i && s.txns[u].order[j] in s.slots
  {
    TxnOkOf(s, u);
  }

  /** A step at a slot that u does not own, leaving all versions alone, leaves u's commit alone. */
  lemma OtherCommit(s: State, s': State, u: TxnId, i: SlotId)
    requires LockInv(s) && HistInv(s) && u in s.txns && i in s.slots && s.slots[i].owner != ByTxn(u)
    requires i in s'.slots && s'.slots == s.slots[i := s'.slots[i]] && s'.hist == s.hist && s.epoch <= s'.epoch
    ensures CommitOk(s', s.txns[u])
  {
    hide LockInv, HistInv, CommitOk;
    CommitOkOf(s, u);
    var x := s.txns[u];
    forall j | 0 <= j < |x.order| && Held(x, j) && x.order[j] in s.slots
      ensures s'.slots[x.order[j]] == s.slots[x.order[j]]
    {
      HeldElsewhere(s, u, i, j);
    }
    CommitFrame(s, s', x);
  }

  /** A slot step that leaves contents and base version alone: locking and unlocking. */
  lemma LockBitKeepsHistInv(s: State, s': State, t: TxnId, i: SlotId)
    requires LockInv(s) && HistInv(s) && SlotStep(s, s', t, i) && s'.hist == s.hist
    requires Base(s'.slots[i].word) == Base(s.slots[i].word) && s'.slots[i].bytes == s.slots[i].bytes
    requires !Committed(s.txns[t]) && !PastPoint(s'.txns[t])
    ensures HistInv(s')
  {
    hide LockInv, HistInv, VersionsOk, KeysOk, SlotOk;
    HistParts(s);
    VersionsFrame(s, s');
    KeysFrame(s, s');
    forall x | x in s'.slots ensures SlotOk(s', x) { SlotOkOf(s, x); SlotFrame(s, s', x); }
    forall u | u in s'.txns ensures CommitOk(s', s'.txns[u]) {
      if u != t { OtherCommit(s, s', u, i); }
    }
    HistJoin(s');
  }

  // ----- Steps --------------------------------------------------------------------------

  lemma ResolveMissKeepsHistInv(s: State, t: TxnId, k: Key, blank: SlotId)
    requires LockInv(s) && HistInv(s) && InPhase(s, t, Resolving) && blank !in s.slots && k !in s.index
    ensures HistInv(DoResolveMiss(s, t, s.txns[t], k, blank))
  {
    hide LockInv, HistInv, VersionsOk, KeysOk, CommitOk;
    var s' := DoResolveMiss(s, t, s.txns[t], k, blank);
    HistParts(s);
    VacantOf(s, k);
    VersionsFrame(s, s');
    KeysFrame(s, s');
    forall x | x in s'.slots ensures SlotOk(s', x) {
      if x in s.slots { SlotOkOf(s, x); SlotFrame(s, s', x); }
    }
    forall u | u in s'.txns ensures CommitOk(s', s'.txns[u]) {
      if u != t { CommitOkOf(s, u); ResolveMissCommit(s, s', s.txns[u], blank); } else { EarlyCommit(s', s'.txns[t]); }
    }
    HistJoin(s');
  }

  lemma EarlyCommit(s: State, x: Txn)
    requires !PastPoint(x)
    ensures CommitOk(s, x)
  {
  }

  lemma ResolveMissCommit(s: State, s': State, x: Txn, blank: SlotId)
    requires CommitOk(s, x) && blank !in s.slots && blank in s'.slots
    requires s'.slots == s.slots[blank := s'.slots[blank]] && s'.hist == s.hist && s'.epoch == s.epoch
    ensures CommitOk(s', x)
  {
    CommitFrame(s, s', x);
  }

  lemma ResolveKeepsHistInv(s: State, t: TxnId, blank: SlotId)
    requires LockInv(s) && HistInv(s) && CanResolve(s, t, blank)
    ensures HistInv(DoResolve(s, t, blank))
  {
    hide LockInv, HistInv;
    var k := s.txns[t].writeSet[|s.txns[t].items|].key;
    if k in s.index { LocalStepKeepsHistInv(s, DoResolve(s, t, blank), t); }
    else { ResolveMissKeepsHistInv(s, t, k, blank); }
  }

  /** At the point every held slot's version is already published, hence not newer than the epoch. */
  lemma PointCovers(s: State, t: TxnId, j: nat)
    requires LockInv(s) && HistInv(s) && CanPoint(s, t) && j < |s.txns[t].order|
    ensures s.txns[t].order[j] in s.slots
    ensures EpochCovers(s, s.txns[t].(epoch := s.epoch), j)
  {
    var x := s.txns[t];
    assert TxnOk(s, t, x) && HeldAttached(x, j);
    var y := x.order[j];
    assert Attached(s, y) && SlotOk(s, y);
    var k := s.slots[y].key;
    if Hist(s, k) != [] {
      assert s.hist[k][|s.hist[k]| - 1].tid.epoch <= s.epoch;
    }
  }

  lemma PointKeepsHistInv(s: State, t: TxnId)
    requires LockInv(s) && HistInv(s) && CanPoint(s, t)
    ensures HistInv(DoPoint(s, t))
  {
    hide LockInv, HistInv;
    var s' := DoPoint(s, t);
    var x' := s'.txns[t];
    forall j | 0 <= j < |x'.order| && Held(x', j)
      ensures x'.order[j] in s'.slots && EpochCovers(s', x', j) && ContentsOk(s', x', j)
    {
      PointCovers(s, t, j);
    }
    LocalStepKeepsHistInv(s, s', t);
  }

  lemma DecideContents(s: State, t: TxnId, j: nat)
    requires LockInv(s) && HistInv(s) && CanDecide(s, t) && j < |s.txns[t].order|
    ensures var x := s.txns[t];
            && x.order[j] in s.slots && EpochCovers(s, x, j)
            && s.slots[x.order[j]].bytes == Current(s, s.slots[x.order[j]].key)
  {
    hide LockInv, HistInv;
    var x := s.txns[t];
    TxnOkOf(s, t);
    CommitOkOf(s, t);
    assert Held(x, j) && HeldAttached(x, j);
    SlotOkOf(s, x.order[j]);
  }

  lemma DecideKeepsHistInv(s: State, t: TxnId)
    requires LockInv(s) && HistInv(s) && CanDecide(s, t)
    ensures HistInv(DoDecide(s, t))
  {
    hide LockInv, HistInv;
    var s' := DoDecide(s, t);
    var x, x' := s.txns[t], s'.txns[t];
    CommitOkOf(s, t);
    forall j | 0 <= j < |x'.order| && Held(x', j)
      ensures x'.order[j] in s'.slots && EpochCovers(s', x', j) && ContentsOk(s', x', j)
    {
      DecideContents(s, t, j);
      assert x.writeSet[..0] == [];
    }
    LocalStepKeepsHistInv(s, s', t);
  }

  lemma LookUpKeepsHistInv(s: State, t: TxnId)
    requires HistInv(s) && CanLookUp(s, t)
    ensures HistInv(DoLookUp(s, t))
  {
    var s' := DoLookUp(s, t);
    CommitMoves(s, s', s.txns[t], s'.txns[t]);
    LocalStepKeepsHistInv(s, s', t);
  }

  /** Validation progress does not matter to the commit's epoch and contents. */
  lemma CommitMoves(s: State, s': State, x: Txn, x': Txn)
    requires CommitOk(s, x) && s'.slots == s.slots && s'.hist == s.hist && s'.epoch == s.epoch
    requires x.phase == Validating && x'.phase == Validating
    requires x'.order == x.order && x'.epoch == x.epoch
    ensures CommitOk(s', x')
  {
    forall j | 0 <= j < |x'.order| && Held(x', j)
      ensures x'.order[j] in s'.slots && EpochCovers(s', x', j) && ContentsOk(s', x', j)
    {
      assert Held(x, j) && EpochCovers(s, x, j);
    }
  }

  lemma ValidateKeepsHistInv(s: State, t: TxnId)
    requires HistInv(s) && CanValidate(s, t)
    ensures HistInv(DoValidate(s, t))
  {
    var s' := DoValidate(s, t);
    var x := s.txns[t];
    if ReadHolds(s, x, x.readSet[x.next]) { CommitMoves(s, s', x, s'.txns[t]); }
    LocalStepKeepsHistInv(s, s', t);
  }

  lemma EffectSplit(ws: seq<Write>, n: nat, k: Key, before: Bytes)
    requires n < |ws|
    ensures Effect(ws[..n + 1], k, before) == if ws[n].key == k then Payload(ws[n]) else Effect(ws[..n], k, before)
  {
    assert ws[..n + 1][..n] == ws[..n];
  }

  lemma EffectOfWriter(ws: seq<Write>, k: Key, a: Bytes, b: Bytes)
    requires WritesKey(ws, k)
    ensures Effect(ws, k, a) == Effect(ws, k, b)
  {
    if ws[|ws| - 1].key != k {
      var i :| 0 <= i < |ws| && ws[i].key == k;
      assert ws[..|ws| - 1][i].key == k;
      EffectOfWriter(ws[..|ws| - 1], k, a, b);
    }
  }

  lemma EffectOfOther(ws: seq<Write>, k: Key, before: Bytes)
    requires !WritesKey(ws, k)
    ensures Effect(ws, k, before) == before
  {
    if ws != [] {
      assert ws[|ws| - 1].key != k;
      assert forall i :: 0 <= i < |ws| - 1 ==> ws[..|ws| - 1][i] == ws[i];
      EffectOfOther(ws[..|ws| - 1], k, before);
    }
  }

  /** Writing into the slot of the row being installed disturbs no other slot and no other commit. */
  lemma BytesKeepHistInv(s: State, s': State, t: TxnId, i: SlotId)
    requires LockInv(s) && HistInv(s) && SlotStep(s, s', t, i) && s'.hist == s.hist
    requires s.slots[i].owner == ByTxn(t) && s'.slots[i].owner == ByTxn(t) && Attached(s, i)
    requires s'.slots[i].word == s.slots[i].word
    requires s.txns[t].phase == Installing && s'.txns[t].phase == Installing
    requires CommitOk(s', s'.txns[t])
    ensures HistInv(s')
  {
    hide LockInv, HistInv, VersionsOk, KeysOk, CommitOk;
    HistParts(s);
    VersionsFrame(s, s');
    KeysFrame(s, s');
    forall x | x in s'.slots ensures SlotOk(s', x) {
      SlotOkOf(s, x);
      if x != i { SlotFrame(s, s', x); }
    }
    forall u | u in s'.txns && u != t ensures CommitOk(s', s'.txns[u]) { OtherCommit(s, s', u, i); }
    HistJoin(s');
  }

  /** The slot of the row being installed. */
  lemma InstallTarget(s: State, t: TxnId)
    requires LockInv(s) && CanInstall(s, t)
    ensures var i := s.txns[t].items[s.txns[t].next];
            && s.slots[i].owner == ByTxn(t) && Attached(s, i)
            && s.slots[i].key == s.txns[t].writeSet[s.txns[t].next].key
  {
    hide LockInv;
    var x := s.txns[t];
    TxnOkOf(s, t);
    assert x.items[x.next] in x.order;
    var j :| 0 <= j < |x.order| && x.order[j] == x.items[x.next];
    assert HeldAttached(x, j);
  }

  lemma TearContents(s: State, t: TxnId, bytes: Bytes)
    requires CanInstall(s, t) && CommitOk(s, s.txns[t])
    ensures CommitOk(DoTear(s, t, bytes), DoTear(s, t, bytes).txns[t])
  {
    var s' := DoTear(s, t, bytes);
    var x, x' := s.txns[t], s'.txns[t];
    forall j | 0 <= j < |x'.order| && Held(x', j)
      ensures x'.order[j] in s'.slots && EpochCovers(s', x', j) && ContentsOk(s', x', j)
    {
      assert Held(x, j) && EpochCovers(s, x, j) && ContentsOk(s, x, j);
    }
  }

  lemma TearKeepsHistInv(s: State, t: TxnId, bytes: Bytes)
    requires LockInv(s) && HistInv(s) && CanInstall(s, t)
    ensures HistInv(DoTear(s, t, bytes))
  {
    hide LockInv, HistInv;
    InstallTarget(s, t);
    CommitOkOf(s, t);
    TearContents(s, t, bytes);
    hide CommitOk;
    BytesKeepHistInv(s, DoTear(s, t, bytes), t, s.txns[t].items[s.txns[t].next]);
  }

  lemma InstallContents(s: State, t: TxnId, j: nat)
    requires LockInv(s) && HistInv(s) && CanInstall(s, t) && j < |s.txns[t].order|
    ensures var s' := DoInstall(s, t);
            s.txns[t].order[j] in s'.slots && EpochCovers(s', s'.txns[t], j) && ContentsOk(s', s'.txns[t], j)
  {
    hide LockInv, HistInv;
    var x := s.txns[t];
    HeldRow(s, t, j);
    CommitOkOf(s, t);
    InstallTarget(s, t);
    assert Held(x, j) && EpochCovers(s, x, j) && ContentsOk(s, x, j);
    EffectSplit(x.writeSet, x.next, s.slots[x.order[j]].key, Current(s, s.slots[x.order[j]].key));
  }

  lemma InstallKeepsHistInv(s: State, t: TxnId)
    requires LockInv(s) && HistInv(s) && CanInstall(s, t)
    ensures HistInv(DoInstall(s, t))
  {
    hide LockInv, HistInv;
    var s' := DoInstall(s, t);
    var x' := s'.txns[t];
    InstallTarget(s, t);
    assert CommitOk(s', x') by {
      CommitOkOf(s, t);
      forall j | 0 <= j < |x'.order| && Held(x', j)
        ensures x'.order[j] in s'.slots && EpochCovers(s', x', j) && ContentsOk(s', x', j)
      {
        InstallContents(s, t, j);
      }
    }
    hide CommitOk;
    BytesKeepHistInv(s, s', t, s.txns[t].items[s.txns[t].next]);
  }

  lemma InstalledKeepsHistInv(s: State, t: TxnId)
    requires LockInv(s) && HistInv(s) && CanInstalled(s, t)
    ensures HistInv(DoInstalled(s, t))
  {
    hide LockInv, HistInv;
    var s' := DoInstalled(s, t);
    var x, x' := s.txns[t], s'.txns[t];
    TxnOkOf(s, t);
    CommitOkOf(s, t);
    assert x.writeSet[..x.next] == x.writeSet;
    forall j | 0 <= j < |x'.order| && Held(x', j)
      ensures x'.order[j] in s'.slots && EpochCovers(s', x', j) && ContentsOk(s', x', j)
    {
      assert Held(x, j) && EpochCovers(s, x, j) && ContentsOk(s, x, j);
    }
    LocalStepKeepsHistInv(s, s', t);
  }

  /** The slot a publication step unlocks holds exactly what the commit wrote to its key. */
  lemma PublishTarget(s: State, t: TxnId)
    requires LockInv(s) && HistInv(s) && CanPublish(s, t)
    ensures var x := s.txns[t];
            var sl := s.slots[x.order[x.next]];
            && sl.owner == ByTxn(t) && Attached(s, x.order[x.next])
            && sl.bytes == Effect(x.writeSet, sl.key, Current(s, sl.key))
            && WritesKey(x.writeSet, sl.key)
  {
    hide LockInv, HistInv;
    var x := s.txns[t];
    var i := x.order[x.next];
    TxnOkOf(s, t);
    CommitOkOf(s, t);
    assert HeldAttached(x, x.next) && ContentsOk(s, x, x.next);
    assert i in x.items;
    var n :| 0 <= n < |x.items| && x.items[n] == i;
    assert x.writeSet[n].key == s.slots[i].key;
  }

  /** The version a publication step publishes is unlocked and newer than every version of its key. */
  lemma PublishedTid(s: State, t: TxnId)
    requires LockInv(s) && HistInv(s) && CanPublish(s, t)
    ensures var x := s.txns[t];
            var sl := s.slots[x.order[x.next]];
            var w := Successor(sl.word, x.epoch);
            && !Locked(w) && w != EMPTY && w.epoch == x.epoch <= s.epoch
            && (Hist(s, sl.key) != [] ==> Less(LastTid(s, sl.key), w))
  {
    hide LockInv, HistInv;
    var x := s.txns[t];
    var i := x.order[x.next];
    PublishTarget(s, t);
    OwnerOkOf(s, i);
    SlotOkOf(s, i);
    CommitOkOf(s, t);
    assert Held(x, x.next) && EpochCovers(s, x, x.next);
  }

  lemma AppendIncreasing(h: seq<Version>, v: Version)
    requires Increasing(h) && (h != [] ==> Less(h[|h| - 1].tid, v.tid))
    ensures Increasing(h + [v])
  {
    forall i, j | 0 <= i < j < |h + [v]| ensures Less((h + [v])[i].tid, (h + [v])[j].tid) {
      assert j == |h| && i < |h| - 1 ==> Less(h[i].tid, h[|h| - 1].tid);
    }
  }

  lemma PublishKeepsVersions(s: State, t: TxnId)
    requires LockInv(s) && HistInv(s) && CanPublish(s, t)
    ensures VersionsOk(DoPublish(s, t))
  {
    hide LockInv, HistInv;
    PublishedTid(s, t);
    HistParts(s);
    var s' := DoPublish(s, t);
    var x := s.txns[t];
    var sl := s.slots[x.order[x.next]];
    assert Increasing(Hist(s, sl.key));
    AppendIncreasing(Hist(s, sl.key), Version(Successor(sl.word, x.epoch), sl.bytes, Some(t)));
  }

  lemma PublishKeepsOtherCommits(s: State, t: TxnId, u: TxnId)
    requires LockInv(s) && HistInv(s) && CanPublish(s, t) && u in s.txns && u != t
    ensures CommitOk(DoPublish(s, t), s.txns[u])
  {
    hide LockInv, HistInv;
    var s' := DoPublish(s, t);
    var x := s.txns[u];
    PublishTarget(s, t);
    CommitOkOf(s, u);
    if PastPoint(x) {
      forall j | 0 <= j < |x.order| && Held(x, j)
        ensures s'.slots[x.order[j]] == s.slots[x.order[j]]
        ensures Hist(s', s.slots[x.order[j]].key) == Hist(s, s.slots[x.order[j]].key)
      {
        TxnOkOf(s, u);
        assert HeldAttached(x, j);
      }
      CommitFrame(s, s', x);
    }
  }

  lemma PublishKeepsOwnCommit(s: State, t: TxnId)
    requires LockInv(s) && HistInv(s) && CanPublish(s, t)
    ensures CommitOk(DoPublish(s, t), DoPublish(s, t).txns[t])
  {
    hide LockInv, HistInv, Effect, WritesKey, Successor;
    var s' := DoPublish(s, t);
    var x, x' := s.txns[t], s'.txns[t];
    PublishTarget(s, t);
    TxnOkOf(s, t);
    CommitOkOf(s, t);
    forall j | 0 <= j < |x'.order| && Held(x', j)
      ensures x'.order[j] in s'.slots && EpochCovers(s', x', j) && ContentsOk(s', x', j)
    {
      assert Held(x, j) && HeldAttached(x, j) && EpochCovers(s, x, j) && ContentsOk(s, x, j);
      assert x.order[j] != x.order[x.next];
    }
  }

  lemma PublishKeepsSlots(s: State, t: TxnId, y: SlotId)
    requires LockInv(s) && HistInv(s) && CanPublish(s, t) && y in s.slots
    ensures SlotOk(DoPublish(s, t), y)
  {
    hide LockInv, HistInv;
    var s' := DoPublish(s, t);
    PublishTarget(s, t);
    PublishedTid(s, t);
    SlotOkOf(s, y);
    if y != s.txns[t].order[s.txns[t].next] { SlotFrame(s, s', y); }
  }

  lemma PublishKeepsHistInv(s: State, t: TxnId)
    requires LockInv(s) && HistInv(s) && CanPublish(s, t)
    ensures HistInv(DoPublish(s, t))
  {
    hide LockInv, HistInv, SlotOk, CommitOk, VersionsOk;
    PublishTarget(s, t);
    PublishKeepsVersions(s, t);
    var s' := DoPublish(s, t);
    forall y | y in s'.slots ensures SlotOk(s', y) { PublishKeepsSlots(s, t, y); }
    forall q | q !in s'.index ensures Vacant(s', q) { VacantOf(s, q); }
    forall u | u in s'.txns ensures CommitOk(s', s'.txns[u]) {
      if u != t { PublishKeepsOtherCommits(s, t, u); } else { PublishKeepsOwnCommit(s, t); }
    }
    HistJoin(s');
  }

  /** The reaper's slot is never held by a transaction. */
  lemma ReapLockKeepsHistInv(s: State)
    requires LockInv(s) && HistInv(s) && CanReapLock(s)
    ensures HistInv(DoReapLock(s))
  {
    hide LockInv, HistInv, VersionsOk, KeysOk, SlotOk, CommitOk;
    HistParts(s);
    var s' := DoReapLock(s);
    VersionsFrame(s, s');
    KeysFrame(s, s');
    OwnerOkOf(s, s.reaper.c.slot);
    forall x | x in s'.slots ensures SlotOk(s', x) { SlotOkOf(s, x); SlotFrame(s, s', x); }
    forall u | u in s'.txns ensures CommitOk(s', s'.txns[u]) { OtherCommit(s, s', u, s.reaper.c.slot); }
    HistJoin(s');
  }

  lemma ReapReleaseKeepsHistInv(s: State, s': State, w: Tid)
    requires LockInv(s) && HistInv(s) && (s.reaper.Holding? || s.reaper.Detached?)
    requires s.reaper.c.slot in s.slots
    requires s.reaper.Holding? ==> w == s.reaper.c.tid
    requires s' == s.(reaper := Idle,
                      slots := s.slots[s.reaper.c.slot := s.slots[s.reaper.c.slot].(word := w, owner := Nobody)])
    ensures HistInv(s')
  {
    hide LockInv, HistInv, VersionsOk, KeysOk, CommitOk;
    HistParts(s);
    TableOf(s);
    VersionsFrame(s, s');
    KeysFrame(s, s');
    forall x | x in s'.slots ensures SlotOk(s', x) {
      SlotOkOf(s, x);
      if x != s.reaper.c.slot { SlotFrame(s, s', x); }
    }
    forall u | u in s'.txns ensures CommitOk(s', s'.txns[u]) { OtherCommit(s, s', u, s.reaper.c.slot); }
    HistJoin(s');
  }

  lemma ReapDetachKeepsHistInv(s: State)
    requires LockInv(s) && HistInv(s) && CanReapDetach(s)
    ensures HistInv(DoReapDetach(s))
  {
    hide LockInv, HistInv, VersionsOk, CommitOk;
    HistParts(s);
    TableOf(s);
    var s' := DoReapDetach(s);
    var c := s.reaper.c;
    VersionsFrame(s, s');
    SlotOkOf(s, c.slot);
    forall k | k !in s'.index ensures Vacant(s', k) {
      if k != c.key { VacantOf(s, k); }
    }
    forall x | x in s'.slots ensures SlotOk(s', x) {
      if x != c.slot { SlotOkOf(s, x); }
    }
    forall u | u in s'.txns ensures CommitOk(s', s'.txns[u]) { OtherCommit(s, s', u, c.slot); }
    HistJoin(s');
  }

  lemma ReaperKeepsHistInv(s: State, a: ReapAct, s': State)
    requires LockInv(s) && HistInv(s) && ReaperStep(s, a, s')
    ensures HistInv(s')
  {
    hide LockInv, HistInv;
    match a
    case Pick(_) => SameRowsKeepHistInv(s, s');
    case Skip(_) => SameRowsKeepHistInv(s, s');
    case Lock => ReapLockKeepsHistInv(s);
    case Restore => ReapReleaseKeepsHistInv(s, s', s.reaper.c.tid);
    case Detach => ReapDetachKeepsHistInv(s);
    case Retire => ReapReleaseKeepsHistInv(s, s', Tid(s.reaper.c.tid.epoch, s.reaper.c.tid.tid + 2));
  }

  lemma LockItemKeepsHistInv(s: State, t: TxnId)
    requires LockInv(s) && HistInv(s) && CanLockItem(s, t)
    ensures HistInv(DoLockItem(s, t))
  {
    hide LockInv, HistInv;
    var i := s.txns[t].order[s.txns[t].next];
    OwnerOkOf(s, i);
    LockBitKeepsHistInv(s, DoLockItem(s, t), t, i);
  }

  lemma UnlockKeepsHistInv(s: State, t: TxnId, x: SlotId)
    requires LockInv(s) && HistInv(s) && CanUnlock(s, t, x)
    ensures HistInv(DoUnlock(s, t, x))
  {
    hide LockInv, HistInv;
    LockBitKeepsHistInv(s, DoUnlock(s, t, x), t, x);
  }

  lemma TxnKeepsHistInv(s: State, t: TxnId, a: CommitAct, s': State)
    requires LockInv(s) && HistInv(s) && TxnStep(s, t, a, s')
    ensures HistInv(s')
  {
    hide LockInv, HistInv, DoResolve, DoLockItem, DoPoint, DoLookUp, DoValidate, DoDecide, DoTear, DoInstall,
         DoInstalled, DoPublish, DoUnlock;
    match a
    case Begin(_, _) => LocalStepKeepsHistInv(s, s', t);
    case Resolve(blank) => ResolveKeepsHistInv(s, t, blank);
    case Sort(_) => LocalStepKeepsHistInv(s, s', t);
    case LockItem => LockItemKeepsHistInv(s, t);
    case CheckItem => LocalStepKeepsHistInv(s, s', t);
    case Point => PointKeepsHistInv(s, t);
    case LookUp => LookUpKeepsHistInv(s, t);
    case Validate => ValidateKeepsHistInv(s, t);
    case GiveUp => LocalStepKeepsHistInv(s, s', t);
    case Decide => DecideKeepsHistInv(s, t);
    case Tear(bytes) => TearKeepsHistInv(s, t, bytes);
    case Install => InstallKeepsHistInv(s, t);
    case Installed => InstalledKeepsHistInv(s, t);
    case Publish => PublishKeepsHistInv(s, t);
    case Register => LocalStepKeepsHistInv(s, s', t);
    case Unlock(x) => UnlockKeepsHistInv(s, t, x);
    case Unlocked => LocalStepKeepsHistInv(s, s', t);
  }

  lemma ReaderStepSameRows(s: State, r: ReaderId, a: ReadAct, s': State)
    requires ReaderStep(s, r, a, s')
    ensures s'.slots == s.slots && s'.index == s.index && s'.txns == s.txns && s'.hist == s.hist && s'.epoch == s.epoch
  {
  }

  lemma StepKeepsHistInv(s: State, a: Action, s': State)
    requires LockInv(s) && HistInv(s) && Step(s, a, s')
    ensures HistInv(s')
  {
    hide LockInv, HistInv, ReaderStep, TxnStep, ReaperStep;
    match a
    case Tick => SameRowsKeepHistInv(s, s');
    case ReaderAct(r, ra) =>
      ReaderStepSameRows(s, r, ra, s');
      SameRowsKeepHistInv(s, s');
    case TxnAct(t, ca) => TxnKeepsHistInv(s, t, ca, s');
    case ReaperAct(pa) => ReaperKeepsHistInv(s, pa, s');
  }
}
