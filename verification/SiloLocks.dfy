/**
 * Lock discipline of the commit protocol: who holds which slot in every reachable state.
 */
module SiloLocks {
  import opened Basics
  import opened Versions
  import opened SiloModel

  /** Positions of the lock order whose lock the transaction holds in its phase. */
  predicate Held(x: Txn, j: nat) {
    match x.phase
    case Locking => j < x.next
    case Checking => j <= x.next
    case Validating => true
    case Installing => true
    case Publishing => x.next <= j
    case _ => false
  }

  /** Held positions whose slot has also been found attached. */
  predicate HeldAttached(x: Txn, j: nat) {
    Held(x, j) && !(x.phase == Checking && j == x.next)
  }

  predicate Prepared(x: Txn) {
    x.phase in {Locking, Checking, Validating, Installing, Publishing, Done}
  }

  predicate ProgressOk(x: Txn) {
    match x.phase
    case Locking => x.next <= |x.order|
    case Checking => x.next < |x.order|
    case Validating => x.next <= |x.readSet|
    case Installing => x.next <= |x.writeSet|
    case Publishing => x.next <= |x.order|
    case _ => true
  }

  predicate IndexOk(s: State) {
    forall k :: k in s.index ==> s.index[k] in s.slots && s.slots[s.index[k]].key == k
  }

  predicate OwnedBy(s: State, t: TxnId, x: SlotId)
    requires x in s.slots
  {
    && t in s.txns && x in s.txns[t].locked && !Locked(s.txns[t].locked[x])
    && s.slots[x].word == WithLock(s.txns[t].locked[x])
    && (s.txns[t].phase == Aborting
        || exists j :: 0 <= j < |s.txns[t].order| && s.txns[t].order[j] == x && Held(s.txns[t], j))
  }

  predicate OwnerOk(s: State, x: SlotId)
    requires x in s.slots
  {
    && (Locked(s.slots[x].word) <==> s.slots[x].owner != Nobody)
    && (s.slots[x].owner.ByTxn? ==> OwnedBy(s, s.slots[x].owner.txn, x))
    && (s.slots[x].owner == ByReaper ==>
          (s.reaper.Holding? || s.reaper.Detached?) && s.reaper.c.slot == x)
  }

  predicate OwnersOk(s: State) {
    forall x :: x in s.slots ==> OwnerOk(s, x)
  }

  predicate ItemsOk(s: State, x: Txn) {
    && |x.items| <= |x.writeSet|
    && (forall i :: 0 <= i < |x.items| ==> x.items[i] in s.slots && s.slots[x.items[i]].key == x.writeSet[i].key)
  }

  predicate OrderOk(x: Txn) {
    && |x.items| == |x.writeSet|
    && StrictlyAscending(x.order)
    && (forall i :: 0 <= i < |x.order| ==> x.order[i] in x.items)
    && (forall i :: 0 <= i < |x.items| ==> x.items[i] in x.order)
  }

  predicate HoldsOk(s: State, t: TxnId, x: Txn) {
    && (forall j :: 0 <= j < |x.order| && Held(x, j) ==>
          x.order[j] in s.slots && s.slots[x.order[j]].owner == ByTxn(t))
    && (forall j :: 0 <= j < |x.order| && HeldAttached(x, j) ==> Attached(s, x.order[j]))
  }

  predicate LookupOk(s: State, t: TxnId, x: Txn) {
    x.phase == Validating && x.lookup != NotLooked ==>
      && x.next < |x.readSet|
      && (x.lookup.At? ==>
            && x.lookup.slot in s.slots && s.slots[x.lookup.slot].key == x.readSet[x.next].key
            && (WritesKey(x.writeSet, x.readSet[x.next].key) ==>
                  s.slots[x.lookup.slot].owner == ByTxn(t) && Attached(s, x.lookup.slot)))
      && (x.lookup == Missing ==> !WritesKey(x.writeSet, x.readSet[x.next].key))
  }

  predicate TxnOk(s: State, t: TxnId, x: Txn) {
    && ProgressOk(x)
    && ItemsOk(s, x)
    && (Prepared(x) ==> OrderOk(x))
    && (forall y :: y in x.locked ==> y in x.order)
    && (x.phase == Resolving ==> x.order == [])
    && HoldsOk(s, t, x)
    && LookupOk(s, t, x)
  }

  predicate TxnsOk(s: State) {
    forall t :: t in s.txns ==> TxnOk(s, t, s.txns[t])
  }

  predicate ReaperOk(s: State) {
    && (forall i :: 0 <= i < |s.candidates| ==> s.candidates[i].tid != EMPTY)
    && (s.reaper != Idle ==> s.reaper.c.tid != EMPTY && s.reaper.c.tid.epoch + 2 <= s.epoch)
    && (s.reaper.Holding? || s.reaper.Detached? ==>
          var c := s.reaper.c;
          && c.slot in s.slots && s.slots[c.slot].owner == ByReaper && s.slots[c.slot].key == c.key
          && !Locked(c.tid) && s.slots[c.slot].word == WithLock(c.tid))
    && (s.reaper.Holding? ==> Attached(s, s.reaper.c.slot))
    && (s.reaper.Detached? ==> !Attached(s, s.reaper.c.slot))
  }

  predicate LockInv(s: State) {
    IndexOk(s) && OwnersOk(s) && TxnsOk(s) && ReaperOk(s)
  }

  // ----- Preservation -------------------------------------------------------------------

  /** From s to s' no slot disappears or changes its key, and t keeps what it owns. */
  predicate Keeps(s: State, s': State, t: TxnId) {
    && (forall x :: x in s.slots ==> x in s'.slots && s'.slots[x].key == s.slots[x].key)
    && (forall x :: x in s.slots && s.slots[x].owner == ByTxn(t) ==> s'.slots[x].owner == ByTxn(t))
    && (forall x :: x in s.slots && s.slots[x].owner == ByTxn(t) && Attached(s, x) ==> Attached(s', x))
  }

  lemma TxnFrame(s: State, s': State, t: TxnId, x: Txn)
    requires TxnOk(s, t, x) && Keeps(s, s', t)
    ensures TxnOk(s', t, x)
  {
  }

  /** A slot entry that is untouched stays well owned when its owner's locks do. */
  lemma OwnerFrame(s: State, s': State, x: SlotId)
    requires x in s.slots && OwnerOk(s, x)
    requires x in s'.slots && s'.slots[x].word == s.slots[x].word && s'.slots[x].owner == s.slots[x].owner
    requires s.slots[x].owner.ByTxn? ==>
               var t := s.slots[x].owner.txn;
               && t in s'.txns && s'.txns[t].order == s.txns[t].order
               && x in s'.txns[t].locked && s'.txns[t].locked[x] == s.txns[t].locked[x]
               && (s.txns[t].phase == Aborting ==> s'.txns[t].phase == Aborting)
               && (s'.txns[t].phase == Aborting
                   || forall j :: 0 <= j < |s.txns[t].order| && s.txns[t].order[j] == x ==>
                        Held(s.txns[t], j) ==> Held(s'.txns[t], j))
    requires s.slots[x].owner == ByReaper ==>
               (s'.reaper.Holding? || s'.reaper.Detached?) && s'.reaper.c.slot == s.reaper.c.slot
    ensures OwnerOk(s', x)
  {
  }

  // Pieces of the invariant, so that a proof can look at one of them at a time.

  lemma TxnOkOf(s: State, t: TxnId)
    requires LockInv(s) && t in s.txns
    ensures TxnOk(s, t, s.txns[t])
  {
  }

  lemma OwnerOkOf(s: State, x: SlotId)
    requires LockInv(s) && x in s.slots
    ensures OwnerOk(s, x)
  {
  }

  lemma TableOf(s: State)
    requires LockInv(s)
    ensures IndexOk(s) && ReaperOk(s)
  {
  }

  lemma LockJoin(s: State)
    requires IndexOk(s) && ReaperOk(s)
    requires forall x :: x in s.slots ==> OwnerOk(s, x)
    requires forall t :: t in s.txns ==> TxnOk(s, t, s.txns[t])
    ensures LockInv(s)
  {
  }

  /** Every position of the lock order is held and attached. */
  predicate HoldsAll(x: Txn) {
    x.phase == Validating || x.phase == Installing || (x.phase == Locking && x.next == |x.order|)
  }

  /** A transaction that holds its whole lock order holds the attached slot of each key it writes. */
  lemma OwnsItsKeys(s: State, t: TxnId, k: Key)
    requires LockInv(s) && t in s.txns && HoldsAll(s.txns[t]) && WritesKey(s.txns[t].writeSet, k)
    ensures k in s.index && s.index[k] in s.slots && s.slots[s.index[k]].owner == ByTxn(t)
    ensures s.index[k] in s.txns[t].order
  {
    hide LockInv;
    var x := s.txns[t];
    TxnOkOf(s, t);
    var i :| 0 <= i < |x.writeSet| && x.writeSet[i].key == k;
    assert x.items[i] in x.order;
    var j :| 0 <= j < |x.order| && x.order[j] == x.items[i];
    assert HeldAttached(x, j);
  }

  lemma LockInvInit(s: State)
    requires Init(s)
    ensures LockInv(s)
  {
  }

  /** Steps that touch neither rows, nor the index, nor transactions, nor the reaper. */
  lemma SameRowsKeepLockInv(s: State, s': State)
    requires LockInv(s)
    requires s'.slots == s.slots && s'.index == s.index && s'.txns == s.txns
    requires s'.reaper == s.reaper && s'.candidates == s.candidates && s.epoch <= s'.epoch
    ensures LockInv(s')
  {
    hide LockInv, TxnOk;
    TableOf(s);
    forall t | t in s'.txns ensures TxnOk(s', t, s'.txns[t]) { TxnOkOf(s, t); TxnFrame(s, s', t, s.txns[t]); }
    forall x | x in s'.slots ensures OwnerOk(s', x) { OwnerOkOf(s, x); OwnerFrame(s, s', x); }
    LockJoin(s');
  }

  lemma ReaderKeepsLockInv(s: State, r: ReaderId, a: ReadAct, s': State)
    requires LockInv(s) && ReaderStep(s, r, a, s')
    ensures LockInv(s')
  {
    hide LockInv;
    SameRowsKeepLockInv(s, s');
  }

  /** Steps of t that leave every slot and the index alone. */
  lemma LocalStepKeepsLockInv(s: State, s': State, t: TxnId, x: Txn)
    requires LockInv(s) && t in s.txns
    requires s'.slots == s.slots && s'.index == s.index && s'.txns == s.txns[t := x]
    requires s'.reaper == s.reaper && s'.epoch == s.epoch
    requires forall i :: 0 <= i < |s'.candidates| ==> s'.candidates[i].tid != EMPTY
    requires TxnOk(s', t, x)
    requires x.locked == s.txns[t].locked
    requires s.txns[t].phase == Aborting ==> x.phase == Aborting || (forall y :: y in s.slots ==>
        s.slots[y].owner != ByTxn(t))
    requires x.phase == Aborting || (x.order == s.txns[t].order
               && forall j :: 0 <= j < |x.order| && Held(s.txns[t], j) ==> Held(x, j))
    ensures LockInv(s')
  {
    hide LockInv, TxnOk;
    TableOf(s);
    forall u | u in s'.txns && u != t ensures TxnOk(s', u, s'.txns[u]) { TxnOkOf(s, u); TxnFrame(s, s', u, s.txns[u]); }
    forall y | y in s'.slots ensures OwnerOk(s', y) { OwnerOkOf(s, y); }
    LockJoin(s');
  }

  lemma BeginKeepsLockInv(s: State, t: TxnId, rs: seq<Read>, ws: seq<Write>)
    requires LockInv(s) && CanBegin(s, t, rs)
    ensures LockInv(DoBegin(s, t, rs, ws))
  {
    hide LockInv, OwnerOk;
    var s' := DoBegin(s, t, rs, ws);
    TableOf(s);
    forall u | u in s'.txns ensures TxnOk(s', u, s'.txns[u]) {
      if u != t { TxnOkOf(s, u); TxnFrame(s, s', u, s.txns[u]); }
    }
    forall x | x in s'.slots ensures OwnerOk(s', x) { BeginOwner(s, s', t, x); }
    LockJoin(s');
  }

  lemma BeginOwner(s: State, s': State, t: TxnId, x: SlotId)
    requires LockInv(s) && x in s.slots && t !in s.txns && t in s'.txns
    requires s' == s.(txns := s.txns[t := s'.txns[t]])
    ensures OwnerOk(s', x)
  {
    hide LockInv;
    OwnerOkOf(s, x);
    OwnerFrame(s, s', x);
  }

  lemma ResolveHitKeepsLockInv(s: State, t: TxnId, k: Key)
    requires LockInv(s) && InPhase(s, t, Resolving) && k in s.index
    requires |s.txns[t].items| < |s.txns[t].writeSet| && k == s.txns[t].writeSet[|s.txns[t].items|].key
    ensures LockInv(DoResolveHit(s, t, s.txns[t], k))
  {
    hide LockInv;
    var s' := DoResolveHit(s, t, s.txns[t], k);
    TableOf(s);
    assert TxnOk(s', t, s'.txns[t]) by { TxnOkOf(s, t); }
    hide TxnOk;
    LocalStepKeepsLockInv(s, s', t, s'.txns[t]);
  }

  lemma ResolveMissTxn(s: State, t: TxnId, k: Key, blank: SlotId, u: TxnId)
    requires LockInv(s) && blank !in s.slots && k !in s.index && InPhase(s, t, Resolving) && u in s.txns
    requires |s.txns[t].items| < |s.txns[t].writeSet| && k == s.txns[t].writeSet[|s.txns[t].items|].key
    ensures var s' := DoResolveMiss(s, t, s.txns[t], k, blank); TxnOk(s', u, s'.txns[u])
  {
    hide LockInv, TxnOk;
    var s' := DoResolveMiss(s, t, s.txns[t], k, blank);
    TxnOkOf(s, u);
    TxnFrame(s, s', u, s.txns[u]);
    if u == t { MoreItems(s', t, s.txns[t], blank); }
  }

  lemma MoreItems(s: State, t: TxnId, x: Txn, i: SlotId)
    requires TxnOk(s, t, x) && x.phase == Resolving && |x.items| < |x.writeSet|
    requires i in s.slots && s.slots[i].key == x.writeSet[|x.items|].key
    ensures TxnOk(s, t, x.(items := x.items + [i]))
  {
  }

  lemma ResolveMissKeepsLockInv(s: State, t: TxnId, k: Key, blank: SlotId)
    requires LockInv(s) && blank !in s.slots && k !in s.index && InPhase(s, t, Resolving)
    requires |s.txns[t].items| < |s.txns[t].writeSet| && k == s.txns[t].writeSet[|s.txns[t].items|].key
    ensures LockInv(DoResolveMiss(s, t, s.txns[t], k, blank))
  {
    hide LockInv, TxnOk;
    var s' := DoResolveMiss(s, t, s.txns[t], k, blank);
    TableOf(s);
    forall u | u in s'.txns ensures TxnOk(s', u, s'.txns[u]) { ResolveMissTxn(s, t, k, blank, u); }
    forall x | x in s'.slots ensures OwnerOk(s', x) {
      if x in s.slots { OwnerOkOf(s, x); OwnerFrame(s, s', x); }
    }
    LockJoin(s');
  }

  lemma ResolveKeepsLockInv(s: State, t: TxnId, blank: SlotId)
    requires LockInv(s) && CanResolve(s, t, blank)
    ensures LockInv(DoResolve(s, t, blank))
  {
    hide LockInv;
    var k := s.txns[t].writeSet[|s.txns[t].items|].key;
    if k in s.index { ResolveHitKeepsLockInv(s, t, k); } else { ResolveMissKeepsLockInv(s, t, k, blank); }
  }

  lemma SortTxn(s: State, s': State, t: TxnId, x: Txn, order: seq<SlotId>)
    requires TxnOk(s, t, x) && x.phase == Resolving && |x.items| == |x.writeSet| && StrictlyAscending(order)
    requires (forall i :: 0 <= i < |order| ==> order[i] in x.items)
    requires (forall i :: 0 <= i < |x.items| ==> x.items[i] in order)
    requires s'.slots == s.slots && s'.index == s.index
    ensures TxnOk(s', t, x.(phase := Locking, order := order, next := 0))
  {
  }

  lemma SortKeepsLockInv(s: State, t: TxnId, order: seq<SlotId>)
    requires LockInv(s) && CanSort(s, t, order)
    ensures LockInv(DoSort(s, t, order))
  {
    hide LockInv, TxnOk;
    var s' := DoSort(s, t, order);
    TableOf(s);
    TxnOkOf(s, t);
    SortTxn(s, s', t, s.txns[t], order);
    forall u | u in s'.txns && u != t ensures TxnOk(s', u, s'.txns[u]) { TxnOkOf(s, u); TxnFrame(s, s', u, s.txns[u]); }
    forall x | x in s'.slots ensures OwnerOk(s', x) { OwnerOkOf(s, x); }
    LockJoin(s');
  }

  /** A step of t that rewrites one slot which is free or its own. */
  predicate SlotStep(s: State, s': State, t: TxnId, i: SlotId) {
    && t in s.txns && t in s'.txns && s'.txns == s.txns[t := s'.txns[t]]
    && i in s.slots && i in s'.slots && s'.slots == s.slots[i := s'.slots[i]]
    && s'.slots[i].key == s.slots[i].key && s'.index == s.index
    && s.slots[i].owner in {Nobody, ByTxn(t)}
    && s'.reaper == s.reaper && s'.candidates == s.candidates && s'.epoch == s.epoch
  }

  lemma SlotStepKeepsTxn(s: State, s': State, t: TxnId, i: SlotId, u: TxnId)
    requires LockInv(s) && SlotStep(s, s', t, i) && u in s.txns && u != t
    ensures TxnOk(s', u, s.txns[u])
  {
    hide LockInv, TxnOk;
    TxnOkOf(s, u);
    assert Keeps(s, s', u);
    TxnFrame(s, s', u, s.txns[u]);
  }

  lemma SlotStepKeepsOwner(s: State, s': State, t: TxnId, i: SlotId, y: SlotId)
    requires LockInv(s) && SlotStep(s, s', t, i) && y in s.slots && y != i
    requires s'.txns[t].order == s.txns[t].order
    requires s.txns[t].phase == Aborting ==> s'.txns[t].phase == Aborting
    requires forall y :: y in s.txns[t].locked && y != i ==>
               y in s'.txns[t].locked && s'.txns[t].locked[y] == s.txns[t].locked[y]
    requires forall j :: 0 <= j < |s.txns[t].order| && s.txns[t].order[j] != i ==>
               Held(s.txns[t], j) ==> Held(s'.txns[t], j)
    ensures OwnerOk(s', y)
  {
    hide LockInv;
    OwnerOkOf(s, y);
    OwnerFrame(s, s', y);
  }

  lemma SlotStepKeepsLockInv(s: State, s': State, t: TxnId, i: SlotId)
    requires LockInv(s) && SlotStep(s, s', t, i) && OwnerOk(s', i) && TxnOk(s', t, s'.txns[t])
    requires s'.txns[t].order == s.txns[t].order
    requires s.txns[t].phase == Aborting ==> s'.txns[t].phase == Aborting
    requires forall y :: y in s.txns[t].locked && y != i ==>
               y in s'.txns[t].locked && s'.txns[t].locked[y] == s.txns[t].locked[y]
    requires forall j :: 0 <= j < |s.txns[t].order| && s.txns[t].order[j] != i ==>
               Held(s.txns[t], j) ==> Held(s'.txns[t], j)
    ensures LockInv(s')
  {
    hide LockInv, TxnOk, OwnerOk;
    TableOf(s);
    forall u | u in s'.txns ensures TxnOk(s', u, s'.txns[u]) {
      if u != t { SlotStepKeepsTxn(s, s', t, i, u); }
    }
    forall y | y in s'.slots ensures OwnerOk(s', y) {
      if y != i { SlotStepKeepsOwner(s, s', t, i, y); }
    }
    assert ReaperOk(s');
    LockJoin(s');
  }

  lemma LockItemTxn(s: State, t: TxnId)
    requires CanLockItem(s, t) && TxnOk(s, t, s.txns[t])
    ensures TxnOk(DoLockItem(s, t), t, DoLockItem(s, t).txns[t])
  {
    hide StrictlyAscending, WithLock;
    var s' := DoLockItem(s, t);
    assert forall y :: Attached(s', y) == Attached(s, y);
  }

  lemma LockItemKeepsLockInv(s: State, t: TxnId)
    requires LockInv(s) && CanLockItem(s, t)
    ensures LockInv(DoLockItem(s, t))
  {
    hide LockInv, TxnOk;
    var s' := DoLockItem(s, t);
    var i := s.txns[t].order[s.txns[t].next];
    OwnerOkOf(s, i);
    TxnOkOf(s, t);
    LockItemTxn(s, t);
    assert SlotStep(s, s', t, i);
    assert Held(s'.txns[t], s'.txns[t].next);
    SlotStepKeepsLockInv(s, s', t, i);
  }

  lemma CheckTxn(s: State, t: TxnId, x: Txn)
    requires TxnOk(s, t, x) && x.phase == Checking
    ensures TxnOk(s, t, x.(phase := Aborting))
    ensures Attached(s, x.order[x.next]) ==> TxnOk(s, t, x.(phase := Locking, next := x.next + 1))
  {
    hide StrictlyAscending;
    if Attached(s, x.order[x.next]) { CheckHolds(s, t, x); }
  }

  lemma CheckHolds(s: State, t: TxnId, x: Txn)
    requires HoldsOk(s, t, x) && x.phase == Checking && x.next < |x.order| && Attached(s, x.order[x.next])
    ensures HoldsOk(s, t, x.(phase := Locking, next := x.next + 1))
  {
  }

  lemma CheckItemKeepsLockInv(s: State, t: TxnId)
    requires LockInv(s) && CanCheckItem(s, t)
    ensures LockInv(DoCheckItem(s, t))
  {
    hide LockInv, TxnOk;
    var s' := DoCheckItem(s, t);
    TxnOkOf(s, t);
    CheckTxn(s, t, s.txns[t]);
    TxnFrame(s, s', t, s'.txns[t]);
    NonEmptyCandidates(s);
    LocalStepKeepsLockInv(s, s', t, s'.txns[t]);
  }

  lemma NonEmptyCandidates(s: State)
    requires LockInv(s)
    ensures forall i :: 0 <= i < |s.candidates| ==> s.candidates[i].tid != EMPTY
  {
  }

  lemma PointTxn(s: State, t: TxnId, x: Txn, e: nat, p: int)
    requires TxnOk(s, t, x) && x.phase == Locking && x.next == |x.order|
    ensures TxnOk(s, t, x.(phase := Validating, next := 0, lookup := NotLooked, epoch := e, pos := p))
  {
  }

  lemma PointKeepsLockInv(s: State, t: TxnId)
    requires LockInv(s) && CanPoint(s, t)
    ensures LockInv(DoPoint(s, t))
  {
    hide LockInv, TxnOk;
    var s' := DoPoint(s, t);
    TxnOkOf(s, t);
    PointTxn(s, t, s.txns[t], s.epoch, |s.points|);
    TxnFrame(s, s', t, s'.txns[t]);
    NonEmptyCandidates(s);
    LocalStepKeepsLockInv(s, s', t, s'.txns[t]);
  }

  lemma LookUpTxn(s: State, t: TxnId, x: Txn, found: Lookup)
    requires TxnOk(s, t, x) && x.phase == Validating && x.next < |x.readSet|
    requires LookupOk(s, t, x.(lookup := found))
    ensures TxnOk(s, t, x.(lookup := found))
  {
  }

  lemma LookUpKeepsLockInv(s: State, t: TxnId)
    requires LockInv(s) && CanLookUp(s, t)
    ensures LockInv(DoLookUp(s, t))
  {
    hide LockInv, TxnOk;
    var s' := DoLookUp(s, t);
    var k := s.txns[t].readSet[s.txns[t].next].key;
    TableOf(s);
    TxnOkOf(s, t);
    if WritesKey(s.txns[t].writeSet, k) { OwnsItsKeys(s, t, k); }
    LookUpTxn(s, t, s.txns[t], s'.txns[t].lookup);
    TxnFrame(s, s', t, s'.txns[t]);
    LocalStepKeepsLockInv(s, s', t, s'.txns[t]);
  }

  lemma ValidateTxn(s: State, t: TxnId, x: Txn)
    requires TxnOk(s, t, x) && x.phase == Validating && x.next < |x.readSet|
    ensures TxnOk(s, t, x.(next := x.next + 1, lookup := NotLooked))
  {
  }

  lemma ValidateKeepsLockInv(s: State, t: TxnId)
    requires LockInv(s) && CanValidate(s, t)
    ensures LockInv(DoValidate(s, t))
  {
    hide LockInv, TxnOk;
    var x := s.txns[t];
    if ReadHolds(s, x, x.readSet[x.next]) {
      var x' := x.(next := x.next + 1, lookup := NotLooked);
      TxnOkOf(s, t);
      ValidateTxn(s, t, x);
      TxnFrame(s, With(s, t, x'), t, x');
      NonEmptyCandidates(s);
      LocalStepKeepsLockInv(s, With(s, t, x'), t, x');
    } else {
      GiveUpKeepsLockInv(s, t);
    }
  }

  lemma AbortTxn(s: State, t: TxnId, x: Txn)
    requires TxnOk(s, t, x)
    ensures TxnOk(s, t, x.(phase := Aborting)) && TxnOk(s, t, x.(phase := Aborted))
  {
  }

  lemma GiveUpKeepsLockInv(s: State, t: TxnId)
    requires LockInv(s) && CanGiveUp(s, t)
    ensures LockInv(DoGiveUp(s, t))
  {
    hide LockInv, TxnOk;
    var s' := DoGiveUp(s, t);
    TxnOkOf(s, t);
    AbortTxn(s, t, s.txns[t]);
    TxnFrame(s, s', t, s'.txns[t]);
    NonEmptyCandidates(s);
    LocalStepKeepsLockInv(s, s', t, s'.txns[t]);
  }

  lemma UnlockedKeepsLockInv(s: State, t: TxnId)
    requires LockInv(s) && CanUnlocked(s, t)
    ensures LockInv(DoUnlocked(s, t))
  {
    hide LockInv, TxnOk;
    var s' := DoUnlocked(s, t);
    TxnOkOf(s, t);
    AbortTxn(s, t, s.txns[t]);
    TxnFrame(s, s', t, s'.txns[t]);
    NonEmptyCandidates(s);
    LocalStepKeepsLockInv(s, s', t, s'.txns[t]);
  }

  lemma CommitTxn(s: State, t: TxnId, x: Txn, next: nat, torn: bool)
    requires TxnOk(s, t, x)
    ensures (x.phase == Validating || x.phase == Installing) && next <= |x.writeSet| ==>
              TxnOk(s, t, x.(phase := Installing, next := next, torn := torn))
    ensures x.phase == Installing ==> TxnOk(s, t, x.(phase := Publishing, next := 0))
    ensures x.phase == Publishing && x.next == |x.order| ==> TxnOk(s, t, x.(phase := Done))
  {
  }

  lemma DecideKeepsLockInv(s: State, t: TxnId)
    requires LockInv(s) && CanDecide(s, t)
    ensures LockInv(DoDecide(s, t))
  {
    hide LockInv, TxnOk;
    var s' := DoDecide(s, t);
    TxnOkOf(s, t);
    CommitTxn(s, t, s.txns[t], 0, false);
    TxnFrame(s, s', t, s'.txns[t]);
    NonEmptyCandidates(s);
    LocalStepKeepsLockInv(s, s', t, s'.txns[t]);
  }

  lemma InstalledKeepsLockInv(s: State, t: TxnId)
    requires LockInv(s) && CanInstalled(s, t)
    ensures LockInv(DoInstalled(s, t))
  {
    hide LockInv, TxnOk;
    var s' := DoInstalled(s, t);
    TxnOkOf(s, t);
    CommitTxn(s, t, s.txns[t], 0, false);
    TxnFrame(s, s', t, s'.txns[t]);
    NonEmptyCandidates(s);
    LocalStepKeepsLockInv(s, s', t, s'.txns[t]);
  }

  lemma CandidatesNonEmpty(x: Txn, n: nat)
    requires n <= |x.writeSet|
    ensures forall i :: 0 <= i < |Candidates(x, n)| ==> Candidates(x, n)[i].tid != EMPTY
  {
  }

  lemma RegisterKeepsLockInv(s: State, t: TxnId)
    requires LockInv(s) && CanRegister(s, t)
    ensures LockInv(DoRegister(s, t))
  {
    hide LockInv, TxnOk;
    var s' := DoRegister(s, t);
    CandidatesNonEmpty(s.txns[t], |s.txns[t].writeSet|);
    TxnOkOf(s, t);
    CommitTxn(s, t, s.txns[t], 0, false);
    TxnFrame(s, s', t, s'.txns[t]);
    NonEmptyCandidates(s);
    LocalStepKeepsLockInv(s, s', t, s'.txns[t]);
  }

  /** Row contents play no part in the lock discipline. */
  lemma BytesKeepLockInv(s: State, s': State, t: TxnId, i: SlotId, bytes: Bytes, next: nat, torn: bool)
    requires LockInv(s) && CanInstall(s, t) && i == s.txns[t].items[s.txns[t].next] && next <= |s.txns[t].writeSet|
    requires s' == s.(slots := s.slots[i := s.slots[i].(bytes := bytes)],
                      txns := s.txns[t := s.txns[t].(next := next, torn := torn)])
    ensures LockInv(s')
  {
    hide LockInv, TxnOk;
    TableOf(s);
    forall u | u in s'.txns ensures TxnOk(s', u, s'.txns[u]) {
      TxnOkOf(s, u);
      if u == t { CommitTxn(s, t, s.txns[t], next, torn); }
      TxnFrame(s, s', u, s'.txns[u]);
    }
    forall y | y in s'.slots ensures OwnerOk(s', y) { OwnerOkOf(s, y); OwnerFrame(s, s', y); }
    LockJoin(s');
  }

  lemma TearKeepsLockInv(s: State, t: TxnId, bytes: Bytes)
    requires LockInv(s) && CanInstall(s, t)
    ensures LockInv(DoTear(s, t, bytes))
  {
    hide LockInv;
    BytesKeepLockInv(s, DoTear(s, t, bytes), t, s.txns[t].items[s.txns[t].next], bytes, s.txns[t].next, true);
  }

  lemma InstallKeepsLockInv(s: State, t: TxnId)
    requires LockInv(s) && CanInstall(s, t)
    ensures LockInv(DoInstall(s, t))
  {
    hide LockInv;
    var x := s.txns[t];
    BytesKeepLockInv(s, DoInstall(s, t), t, x.items[x.next], Payload(x.writeSet[x.next]), x.next + 1, false);
  }

  lemma PublishTxn(s: State, t: TxnId)
    requires CanPublish(s, t) && TxnOk(s, t, s.txns[t])
    ensures s.slots[s.txns[t].order[s.txns[t].next]].owner == ByTxn(t)
    ensures TxnOk(DoPublish(s, t), t, DoPublish(s, t).txns[t])
  {
    assert Held(s.txns[t], s.txns[t].next);
  }

  lemma PublishKeepsLockInv(s: State, t: TxnId)
    requires LockInv(s) && CanPublish(s, t)
    ensures LockInv(DoPublish(s, t))
  {
    hide LockInv, TxnOk;
    var s' := DoPublish(s, t);
    var i := s.txns[t].order[s.txns[t].next];
    TxnOkOf(s, t);
    OwnerOkOf(s, i);
    PublishTxn(s, t);
    assert SlotStep(s, s', t, i);
    SlotStepKeepsLockInv(s, s', t, i);
  }

  lemma UnlockTxn(s: State, s': State, t: TxnId, x: Txn)
    requires TxnOk(s, t, x) && x.phase == Aborting
    requires forall y :: y in s.slots ==> y in s'.slots && s'.slots[y].key == s.slots[y].key
    ensures TxnOk(s', t, x)
  {
  }

  lemma UnlockKeepsLockInv(s: State, t: TxnId, x: SlotId)
    requires LockInv(s) && CanUnlock(s, t, x)
    ensures LockInv(DoUnlock(s, t, x))
  {
    hide LockInv, TxnOk;
    var s' := DoUnlock(s, t, x);
    TxnOkOf(s, t);
    OwnerOkOf(s, x);
    UnlockTxn(s, s', t, s.txns[t]);
    assert SlotStep(s, s', t, x);
    SlotStepKeepsLockInv(s, s', t, x);
  }

  lemma ReapLockKeepsLockInv(s: State)
    requires LockInv(s) && CanReapLock(s)
    ensures LockInv(DoReapLock(s))
  {
    hide LockInv, TxnOk;
    var s' := DoReapLock(s);
    TableOf(s);
    OwnerOkOf(s, s.reaper.c.slot);
    forall u | u in s'.txns ensures TxnOk(s', u, s'.txns[u]) { TxnOkOf(s, u); TxnFrame(s, s', u, s.txns[u]); }
    forall y | y in s'.slots ensures OwnerOk(s', y) {
      OwnerOkOf(s, y);
      if y != s.reaper.c.slot { OwnerFrame(s, s', y); }
    }
    LockJoin(s');
  }

  /** The reaper gives its slot back under any unlocked word. */
  lemma ReaperReleaseKeepsLockInv(s: State, s': State, w: Tid)
    requires LockInv(s) && (s.reaper.Holding? || s.reaper.Detached?) && !Locked(w)
    requires s.reaper.c.slot in s.slots
    requires s' == s.(reaper := Idle,
                      slots := s.slots[s.reaper.c.slot := s.slots[s.reaper.c.slot].(word := w, owner := Nobody)])
    ensures LockInv(s')
  {
    hide LockInv, TxnOk;
    TableOf(s);
    forall u | u in s'.txns ensures TxnOk(s', u, s'.txns[u]) { TxnOkOf(s, u); TxnFrame(s, s', u, s.txns[u]); }
    forall y | y in s'.slots ensures OwnerOk(s', y) {
      OwnerOkOf(s, y);
      if y != s.reaper.c.slot { OwnerFrame(s, s', y); }
    }
    LockJoin(s');
  }

  lemma ReapDetachKeepsLockInv(s: State)
    requires LockInv(s) && CanReapDetach(s)
    ensures LockInv(DoReapDetach(s))
  {
    hide LockInv, TxnOk;
    var s' := DoReapDetach(s);
    TableOf(s);
    forall u | u in s'.txns ensures TxnOk(s', u, s'.txns[u]) { TxnOkOf(s, u); TxnFrame(s, s', u, s.txns[u]); }
    forall y | y in s'.slots ensures OwnerOk(s', y) { OwnerOkOf(s, y); OwnerFrame(s, s', y); }
    LockJoin(s');
  }

  lemma ReapQueueKeepsLockInv(s: State, s': State)
    requires LockInv(s) && s'.slots == s.slots && s'.index == s.index && s'.txns == s.txns && s'.epoch == s.epoch
    requires (s.reaper == Idle && s'.reaper.Picked? && s'.reaper.c in s.candidates
             && s'.reaper.c.tid.epoch + 2 <= s.epoch)
             || (s.reaper.Picked? && s'.reaper == Idle)
    requires forall c :: c in s'.candidates ==> c in s.candidates || (s.reaper.Picked? && c == s.reaper.c)
    ensures LockInv(s')
  {
    hide LockInv, TxnOk;
    TableOf(s);
    forall u | u in s'.txns ensures TxnOk(s', u, s'.txns[u]) { TxnOkOf(s, u); TxnFrame(s, s', u, s.txns[u]); }
    forall y | y in s'.slots ensures OwnerOk(s', y) { OwnerOkOf(s, y); OwnerFrame(s, s', y); }
    forall i | 0 <= i < |s'.candidates| ensures s'.candidates[i].tid != EMPTY {
      assert s'.candidates[i] in s'.candidates;
    }
    LockJoin(s');
  }

  lemma ReaperKeepsLockInv(s: State, a: ReapAct, s': State)
    requires LockInv(s) && ReaperStep(s, a, s')
    ensures LockInv(s')
  {
    hide LockInv;
    match a
    case Pick(_) => ReapQueueKeepsLockInv(s, s');
    case Skip(_) => ReapQueueKeepsLockInv(s, s');
    case Lock => ReapLockKeepsLockInv(s);
    case Restore => TableOf(s); ReaperReleaseKeepsLockInv(s, s', s.reaper.c.tid);
    case Detach => ReapDetachKeepsLockInv(s);
    case Retire => TableOf(s); ReaperReleaseKeepsLockInv(s, s', Tid(s.reaper.c.tid.epoch, s.reaper.c.tid.tid + 2));
  }

  lemma TxnKeepsLockInv(s: State, t: TxnId, a: CommitAct, s': State)
    requires LockInv(s) && TxnStep(s, t, a, s')
    ensures LockInv(s')
  {
    hide LockInv;
    match a
    case Begin(rs, ws) => BeginKeepsLockInv(s, t, rs, ws);
    case Resolve(blank) => ResolveKeepsLockInv(s, t, blank);
    case Sort(order) => SortKeepsLockInv(s, t, order);
    case LockItem => LockItemKeepsLockInv(s, t);
    case CheckItem => CheckItemKeepsLockInv(s, t);
    case Point => PointKeepsLockInv(s, t);
    case LookUp => LookUpKeepsLockInv(s, t);
    case Validate => ValidateKeepsLockInv(s, t);
    case GiveUp => GiveUpKeepsLockInv(s, t);
    case Decide => DecideKeepsLockInv(s, t);
    case Tear(bytes) => TearKeepsLockInv(s, t, bytes);
    case Install => InstallKeepsLockInv(s, t);
    case Installed => InstalledKeepsLockInv(s, t);
    case Publish => PublishKeepsLockInv(s, t);
    case Register => RegisterKeepsLockInv(s, t);
    case Unlock(x) => UnlockKeepsLockInv(s, t, x);
    case Unlocked => UnlockedKeepsLockInv(s, t);
  }

  lemma StepKeepsLockInv(s: State, a: Action, s': State)
    requires LockInv(s) && Step(s, a, s')
    ensures LockInv(s')
  {
    hide LockInv;
    match a
    case Tick => SameRowsKeepLockInv(s, s');
    case ReaderAct(r, ra) => ReaderKeepsLockInv(s, r, ra, s');
    case TxnAct(t, ca) => TxnKeepsLockInv(s, t, ca, s');
    case ReaperAct(pa) => ReaperKeepsLockInv(s, pa, s');
  }

  // ----- Fresh slots and sorted orders exist ------------------------------------------------------------

  /** Numbers beyond a finite set. */
  lemma {:induction false} Bound(xs: set<nat>) returns (b: nat)
    ensures forall x :: x in xs ==> x < b
  {
    if xs == {} {
      b := 0;
    } else {
      var x :| x in xs;
      var rest := Bound(xs - {x});
      b := if rest > x then rest else x + 1;
      forall y | y in xs ensures y < b { if y != x { assert y in xs - {x}; } }
    }
  }

  lemma {:induction false} InsertSorted(xs: seq<SlotId>, x: SlotId) returns (ys: seq<SlotId>)
    requires StrictlyAscending(xs)
    ensures StrictlyAscending(ys) && forall y :: y in ys <==> y in xs || y == x
  {
    if xs == [] || x < xs[0] {
      ys := [x] + xs;
    } else if x == xs[0] {
      ys := xs;
    } else {
      var rest := InsertSorted(xs[1..], x);
      ys := [xs[0]] + rest;
      forall i | 0 <= i < |rest| ensures xs[0] < rest[i] { assert rest[i] in rest; }
      assert xs == [xs[0]] + xs[1..];
    }
  }

  lemma {:induction false} SortedItems(items: seq<SlotId>) returns (order: seq<SlotId>)
    ensures StrictlyAscending(order) && forall y :: y in order <==> y in items
  {
    if items == [] {
      order := [];
    } else {
      var n := |items| - 1;
      var rest := SortedItems(items[..n]);
      order := InsertSorted(rest, items[n]);
      assert items == items[..n] + [items[n]];
    }
  }
}
