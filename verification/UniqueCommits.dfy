/**
 * UNIQUE secondary keys under concurrency. Committers resolve the posting lists of their
 * operations, lock them in slot order, check that they are still attached, recheck UNIQUE on
 * copies, install operation by operation and publish slot by slot, while a reaper detaches empty
 * lists and other committers re-create them. Every interleaving is a run.
 */
module UniqueCommits {
  import opened Basics
  import opened CommitChecks

  type SlotId = nat
  type TxnId = nat

  datatype Owner = Nobody | ByTxn(t: TxnId) | ByReaper

  /** The entry of a secondary key: its posting list and who holds its lock. */
  datatype Slot = Slot(list: ListId, keys: set<string>, owner: Owner)

  datatype Phase = Resolving | Locking | Checking | Rechecking | Installing | Publishing | Done | Aborting | Aborted

  datatype Txn = Txn(
    ops: seq<SiOp>,
    phase: Phase,
    items: seq<SlotId>,               // slot of ops[i]
    order: seq<SlotId>,               // items, address-sorted and deduplicated
    next: nat,                        // progress inside the current phase
    copies: map<SlotId, set<string>>, // lists the recheck simulates on
    base: Lists)                      // auxiliary: what the lists showed when the recheck began

  datatype Reaper = Idle | Holding(x: SlotId) | Detached(x: SlotId)

  datatype State = State(slots: map<SlotId, Slot>, index: map<ListId, SlotId>, txns: map<TxnId, Txn>, reaper: Reaper)

  datatype Action =
    | Begin(t: TxnId, ops: seq<SiOp>) | Resolve(t: TxnId, blank: SlotId) | Sort(t: TxnId, order: seq<SlotId>)
    | LockItem(t: TxnId) | CheckItem(t: TxnId) | BeginRecheck(t: TxnId) | RecheckOp(t: TxnId) | Decide(t: TxnId)
    | InstallOp(t: TxnId) | Installed(t: TxnId) | Publish(t: TxnId) | Finish(t: TxnId)
    | GiveUp(t: TxnId) | Unlock(t: TxnId, x: SlotId) | Unlocked(t: TxnId)
    | ReapLock(x: SlotId) | ReapRestore | ReapDetach | ReapRetire

  predicate Attached(s: State, x: SlotId) {
    x in s.slots && s.slots[x].list in s.index && s.index[s.slots[x].list] == x
  }

  /** What a reader finds under a secondary key. */
  function Shown(s: State, l: ListId): set<string> {
    if l in s.index && s.index[l] in s.slots then s.slots[s.index[l]].keys else {}
  }

  function AllShown(s: State): (ls: Lists)
    ensures forall l :: ListOf(ls, l) == Shown(s, l)
  {
    map l | l in s.index :: Shown(s, l)
  }

  function Applied(op: SiOp, keys: set<string>): set<string> {
    if op.isDelete then keys - {op.primaryKey} else keys + {op.primaryKey}
  }

  predicate InPhase(s: State, t: TxnId, p: Phase) {
    t in s.txns && s.txns[t].phase == p
  }

  function With(s: State, t: TxnId, x: Txn): State {
    s.(txns := s.txns[t := x])
  }

  function Owned(s: State, x: SlotId, owner: Owner): State
    requires x in s.slots
  {
    s.(slots := s.slots[x := s.slots[x].(owner := owner)])
  }

  predicate StrictlyAscending(xs: seq<SlotId>) {
    forall i, j :: 0 <= i < j < |xs| ==> xs[i] < xs[j]
  }

  // ----- Steps ----------------------------------------------------------------------------------

  /** The request adds a UNIQUE key it already added. */
  predicate RepeatsAdd(ops: seq<SiOp>, i: nat, unique: ListId -> bool)
    requires i < |ops|
  {
    !ops[i].isDelete && unique(ops[i].list) && exists j :: 0 <= j < i && !ops[j].isDelete && ops[j].list == ops[i].list
  }

  predicate StepResolve(s: State, t: TxnId, blank: SlotId, unique: ListId -> bool, s': State) {
    && InPhase(s, t, Resolving) && |s.txns[t].items| < |s.txns[t].ops| && blank !in s.slots
    && var x := s.txns[t];
       var i := |x.items|;
       var l := x.ops[i].list;
       if RepeatsAdd(x.ops, i, unique) then s' == With(s, t, x.(phase := Aborting))
       else if l in s.index then s' == With(s, t, x.(items := x.items + [s.index[l]]))
       else s' == With(s, t, x.(items := x.items + [blank]))
                    .(slots := s.slots[blank := Slot(l, {}, Nobody)], index := s.index[l := blank])
  }

  predicate StepSort(s: State, t: TxnId, order: seq<SlotId>, s': State) {
    && InPhase(s, t, Resolving) && |s.txns[t].items| == |s.txns[t].ops| && StrictlyAscending(order)
    && (forall i :: 0 <= i < |order| ==> order[i] in s.txns[t].items)
    && (forall i :: 0 <= i < |s.txns[t].items| ==> s.txns[t].items[i] in order)
    && s' == With(s, t, s.txns[t].(phase := Locking, order := order, next := 0))
  }

  predicate StepLockItem(s: State, t: TxnId, s': State) {
    && InPhase(s, t, Locking) && s.txns[t].next < |s.txns[t].order|
    && var x := s.txns[t].order[s.txns[t].next];
       x in s.slots && s.slots[x].owner == Nobody && s' == With(Owned(s, x, ByTxn(t)), t, s.txns[t].(phase := Checking))
  }

  /** The locked slot must still be the one its key resolves to. */
  predicate StepCheckItem(s: State, t: TxnId, s': State) {
    && InPhase(s, t, Checking) && s.txns[t].next < |s.txns[t].order|
    && var x := s.txns[t];
       s' == if Attached(s, x.order[x.next]) then With(s, t, x.(phase := Locking, next := x.next + 1))
             else With(s, t, x.(phase := Aborting))
  }

  predicate StepBeginRecheck(s: State, t: TxnId, s': State) {
    && InPhase(s, t, Locking) && s.txns[t].next == |s.txns[t].order|
    && s' == With(s, t, s.txns[t].(phase := Rechecking, next := 0, copies := map[], base := AllShown(s)))
  }

  function Copy(s: State, x: Txn, i: SlotId): set<string>
    requires i in s.slots
  {
    if i in x.copies then x.copies[i] else s.slots[i].keys
  }

  /** One operation simulated: an addition to a UNIQUE key must find its list empty. */
  predicate StepRecheckOp(s: State, t: TxnId, unique: ListId -> bool, s': State) {
    && InPhase(s, t, Rechecking) && s.txns[t].next < |s.txns[t].ops| && s.txns[t].next < |s.txns[t].items|
    && s.txns[t].items[s.txns[t].next] in s.slots
    && var x := s.txns[t];
       var op, i := x.ops[x.next], x.items[x.next];
       if !unique(op.list) then s' == With(s, t, x.(next := x.next + 1))
       else if !op.isDelete && Copy(s, x, i) != {} then s' == With(s, t, x.(phase := Aborting))
       else s' == With(s, t, x.(next := x.next + 1, copies := x.copies[i := Applied(op, Copy(s, x, i))]))
  }

  predicate StepDecide(s: State, t: TxnId, s': State) {
    && InPhase(s, t, Rechecking) && s.txns[t].next == |s.txns[t].ops|
    && s' == With(s, t, s.txns[t].(phase := Installing, next := 0))
  }

  predicate StepInstallOp(s: State, t: TxnId, s': State) {
    && InPhase(s, t, Installing) && s.txns[t].next < |s.txns[t].ops| && s.txns[t].next < |s.txns[t].items|
    && s.txns[t].items[s.txns[t].next] in s.slots
    && var x := s.txns[t];
       var op, i := x.ops[x.next], x.items[x.next];
       s' == With(s, t, x.(next := x.next + 1)).(
               slots := s.slots[i := s.slots[i].(keys := Applied(op, s.slots[i].keys))])
  }

  predicate StepInstalled(s: State, t: TxnId, s': State) {
    && InPhase(s, t, Installing) && s.txns[t].next == |s.txns[t].ops|
    && s' == With(s, t, s.txns[t].(phase := Publishing, next := 0))
  }

  predicate StepPublish(s: State, t: TxnId, s': State) {
    && InPhase(s, t, Publishing) && s.txns[t].next < |s.txns[t].order|
    && var x := s.txns[t].order[s.txns[t].next];
       x in s.slots && s' == With(Owned(s, x, Nobody), t, s.txns[t].(next := s.txns[t].next + 1))
  }

  predicate StepFinish(s: State, t: TxnId, s': State) {
    && InPhase(s, t, Publishing) && s.txns[t].next == |s.txns[t].order|
    && s' == With(s, t, s.txns[t].(phase := Done))
  }

  predicate StepGiveUp(s: State, t: TxnId, s': State) {
    && t in s.txns && s.txns[t].phase in {Resolving, Locking, Checking, Rechecking}
    && s' == With(s, t, s.txns[t].(phase := Aborting))
  }

  predicate StepUnlock(s: State, t: TxnId, x: SlotId, s': State) {
    InPhase(s, t, Aborting) && x in s.slots && s.slots[x].owner == ByTxn(t) && s' == Owned(s, x, Nobody)
  }

  predicate StepUnlocked(s: State, t: TxnId, s': State) {
    && InPhase(s, t, Aborting) && (forall x :: x in s.slots ==> s.slots[x].owner != ByTxn(t))
    && s' == With(s, t, s.txns[t].(phase := Aborted))
  }

  /** The reaper takes any free attached slot; whether to purge is decided under the lock. */
  predicate StepReapLock(s: State, x: SlotId, s': State) {
    && s.reaper == Idle && Attached(s, x) && s.slots[x].owner == Nobody
    && s' == Owned(s, x, ByReaper).(reaper := Holding(x))
  }

  predicate StepReapRestore(s: State, s': State) {
    s.reaper.Holding? && s.reaper.x in s.slots && s' == Owned(s, s.reaper.x, Nobody).(reaper := Idle)
  }

  predicate StepReapDetach(s: State, s': State) {
    && s.reaper.Holding? && Attached(s, s.reaper.x) && s.slots[s.reaper.x].keys == {}
    && s' == s.(index := s.index - {s.slots[s.reaper.x].list}, reaper := Detached(s.reaper.x))
  }

  predicate StepReapRetire(s: State, s': State) {
    s.reaper.Detached? && s.reaper.x in s.slots && s' == Owned(s, s.reaper.x, Nobody).(reaper := Idle)
  }

  predicate Step(s: State, a: Action, unique: ListId -> bool, s': State) {
    match a
    case Begin(t, ops) => t !in s.txns && s' == With(s, t, Txn(ops, Resolving, [], [], 0, map[], map[]))
    case Resolve(t, blank) => StepResolve(s, t, blank, unique, s')
    case Sort(t, order) => StepSort(s, t, order, s')
    case LockItem(t) => StepLockItem(s, t, s')
    case CheckItem(t) => StepCheckItem(s, t, s')
    case BeginRecheck(t) => StepBeginRecheck(s, t, s')
    case RecheckOp(t) => StepRecheckOp(s, t, unique, s')
    case Decide(t) => StepDecide(s, t, s')
    case InstallOp(t) => StepInstallOp(s, t, s')
    case Installed(t) => StepInstalled(s, t, s')
    case Publish(t) => StepPublish(s, t, s')
    case Finish(t) => StepFinish(s, t, s')
    case GiveUp(t) => StepGiveUp(s, t, s')
    case Unlock(t, x) => StepUnlock(s, t, x, s')
    case Unlocked(t) => StepUnlocked(s, t, s')
    case ReapLock(x) => StepReapLock(s, x, s')
    case ReapRestore => StepReapRestore(s, s')
    case ReapDetach => StepReapDetach(s, s')
    case ReapRetire => StepReapRetire(s, s')
  }

  /** Some lists, all attached and free, at most one key under each UNIQUE one. */
  ghost predicate Init(s: State, unique: ListId -> bool) {
    && s.txns == map[] && s.reaper == Idle
    && (forall l :: l in s.index ==> s.index[l] in s.slots && s.slots[s.index[l]].list == l)
    && (forall x :: x in s.slots ==>
        s.slots[x].owner == Nobody && (unique(s.slots[x].list) ==> AtMostOne(s.slots[x].keys)))
  }

  ghost predicate IsRun(run: seq<State>, acts: seq<Action>, unique: ListId -> bool) {
    && |run| == |acts| + 1 && Init(run[0], unique)
    && forall i :: 0 <= i < |acts| ==> Step(run[i], acts[i], unique, run[i + 1])
  }

  // ----- Locks ------------------------------------------------------------------------------------

  /** Position j of the order is locked by the transaction. */
  predicate Held(x: Txn, j: nat) {
    match x.phase
    case Locking => j < x.next
    case Checking => j <= x.next
    case Rechecking => true
    case Installing => true
    case Publishing => j >= x.next
    case _ => false
  }

  /** Position j was locked and found attached. */
  predicate HeldAttached(x: Txn, j: nat) {
    Held(x, j) && (x.phase == Checking ==> j < x.next)
  }

  predicate Sorted(x: Txn) {
    x.phase in {Locking, Checking, Rechecking, Installing, Publishing}
  }

  predicate HoldsOk(s: State, t: TxnId, x: Txn) {
    && (forall j :: 0 <= j < |x.order| && Held(x, j) ==> x.order[j] in s.slots && s.slots[x.order[j]].owner == ByTxn(t))
    && (forall j :: 0 <= j < |x.order| && HeldAttached(x, j) ==> Attached(s, x.order[j]))
  }

  predicate OrderOk(x: Txn) {
    && |x.items| == |x.ops| && StrictlyAscending(x.order)
    && (forall i :: 0 <= i < |x.order| ==> x.order[i] in x.items)
    && (forall i :: 0 <= i < |x.items| ==> x.items[i] in x.order)
    && (x.phase == Checking ==> x.next < |x.order|)
    && (x.phase == Rechecking || x.phase == Installing ==> x.next <= |x.ops|)
  }

  predicate ItemsOk(s: State, x: Txn) {
    && |x.items| <= |x.ops|
    && (forall i :: 0 <= i < |x.items| ==> x.items[i] in s.slots && s.slots[x.items[i]].list == x.ops[i].list)
  }

  predicate OwnerOk(s: State, x: SlotId)
    requires x in s.slots
  {
    match s.slots[x].owner
    case Nobody => true
    case ByReaper => !s.reaper.Idle? && s.reaper.x == x
    case ByTxn(t) =>
      && t in s.txns
      && (s.txns[t].phase == Aborting
          || exists j :: 0 <= j < |s.txns[t].order| && s.txns[t].order[j] == x && Held(s.txns[t], j))
  }

  predicate LocksOk(s: State) {
    && (forall l :: l in s.index ==> s.index[l] in s.slots && s.slots[s.index[l]].list == l)
    && (forall x :: x in s.slots ==> OwnerOk(s, x))
    && (!s.reaper.Idle? ==> s.reaper.x in s.slots && s.slots[s.reaper.x].owner == ByReaper)
  }

  // ----- Contents -----------------------------------------------------------------------------------

  /** The simulation has followed the operations, and every addition so far found its list empty. */
  ghost predicate RecheckOk(s: State, x: Txn, unique: ListId -> bool)
    requires ItemsOk(s, x) && OrderOk(x) && x.next <= |x.ops|
  {
    && (forall i :: 0 <= i < |x.ops| ==> s.slots[x.items[i]].keys == ListOf(x.base, x.ops[i].list))
    && (forall i :: 0 <= i < |x.ops| && unique(x.ops[i].list) ==>
          Copy(s, x, x.items[i]) == After(x.base, x.ops, x.next, x.ops[i].list))
    && (forall j :: 0 <= j < x.next && !x.ops[j].isDelete && unique(x.ops[j].list) ==>
          After(x.base, x.ops, j, x.ops[j].list) == {})
  }

  /** The lists the transaction still holds show the operations installed so far. */
  ghost predicate InstallOk(s: State, x: Txn, n: nat, unique: ListId -> bool)
    requires ItemsOk(s, x) && OrderOk(x) && n <= |x.ops|
  {
    && AddsFindEmpty(x.base, x.ops, unique)
    && (forall i, j :: 0 <= i < |x.ops| && 0 <= j < |x.order| && x.order[j] == x.items[i] && Held(x, j) ==>
          s.slots[x.items[i]].keys == After(x.base, x.ops, n, x.ops[i].list))
  }

  ghost predicate TxnOk(s: State, t: TxnId, x: Txn, unique: ListId -> bool) {
    && ItemsOk(s, x)
    && (Sorted(x) ==> OrderOk(x) && HoldsOk(s, t, x))
    && (x.phase in {Rechecking, Installing, Publishing} ==> UniqueHolds(x.base, unique))
    && (x.phase == Rechecking ==> RecheckOk(s, x, unique))
    && (x.phase == Installing ==> InstallOk(s, x, x.next, unique))
    && (x.phase == Publishing ==> InstallOk(s, x, |x.ops|, unique))
  }

  ghost predicate SlotsUnique(s: State, unique: ListId -> bool) {
    forall x :: x in s.slots && unique(s.slots[x].list) ==> AtMostOne(s.slots[x].keys)
  }

  ghost predicate Inv(s: State, unique: ListId -> bool) {
    LocksOk(s) && (forall t :: t in s.txns ==> TxnOk(s, t, s.txns[t], unique)) && SlotsUnique(s, unique)
  }

  // ----- Frames -------------------------------------------------------------------------------------

  /** No slot disappears or changes its key, and t's slots stay as they are. */
  predicate Keeps(s: State, s': State, t: TxnId) {
    && (forall x :: x in s.slots ==> x in s'.slots && s'.slots[x].list == s.slots[x].list)
    && (forall x :: x in s.slots && s.slots[x].owner == ByTxn(t) ==> s'.slots[x] == s.slots[x])
    && (forall x :: x in s.slots && s.slots[x].owner == ByTxn(t) && Attached(s, x) ==> Attached(s', x))
  }

  lemma TxnFrame(s: State, s': State, t: TxnId, x: Txn, unique: ListId -> bool)
    requires TxnOk(s, t, x, unique) && Keeps(s, s', t)
    ensures TxnOk(s', t, x, unique)
  {
    hide AtMostOne, AddsFindEmpty, After, UniqueHolds;
    if Sorted(x) { HoldsFrame(s, s', t, x); }
    if x.phase == Rechecking { OwnsItems(s, t, x); }
  }

  lemma HoldsFrame(s: State, s': State, t: TxnId, x: Txn)
    requires HoldsOk(s, t, x) && Keeps(s, s', t)
    ensures HoldsOk(s', t, x)
  {
  }

  /** With every lock held, the slots of all operations are owned and attached. */
  lemma OwnsItems(s: State, t: TxnId, x: Txn)
    requires ItemsOk(s, x) && OrderOk(x) && HoldsOk(s, t, x) && (x.phase == Rechecking || x.phase == Installing)
    ensures forall i :: 0 <= i < |x.items| ==> s.slots[x.items[i]].owner == ByTxn(t) && Attached(s, x.items[i])
  {
    hide StrictlyAscending, Attached;
    forall i | 0 <= i < |x.items| ensures s.slots[x.items[i]].owner == ByTxn(t) && Attached(s, x.items[i]) {
      assert x.items[i] in x.order;
      var j :| 0 <= j < |x.order| && x.order[j] == x.items[i];
      assert Held(x, j) && HeldAttached(x, j);
    }
  }

  /** A step of t leaves the other transactions alone. */
  predicate OthersKept(s: State, s': State, t: TxnId) {
    && t in s'.txns && s'.txns == s.txns[t := s'.txns[t]]
    && forall u :: u in s.txns && u != t ==> Keeps(s, s', u)
  }

  lemma StepOf(s: State, s': State, t: TxnId, unique: ListId -> bool)
    requires Inv(s, unique) && OthersKept(s, s', t)
    requires LocksOk(s') && TxnOk(s', t, s'.txns[t], unique) && SlotsUnique(s', unique)
    ensures Inv(s', unique)
  {
    hide LocksOk, TxnOk, SlotsUnique, Keeps;
    forall u | u in s'.txns ensures TxnOk(s', u, s'.txns[u], unique) {
      if u != t { TxnFrame(s, s', u, s.txns[u], unique); }
    }
  }

  // ----- Steps before the recheck -----------------------------------------------------------------------

  lemma SameSlots(s: State, s': State, t: TxnId)
    requires t in s'.txns && s' == With(s, t, s'.txns[t])
    ensures OthersKept(s, s', t) && Keeps(s, s', t)
  {
  }

  /** An owner stays one when its transaction's locked positions grow or stay, or it turns to abort. */
  lemma SameOwners(s: State, s': State, t: TxnId)
    requires LocksOk(s) && t in s'.txns && s' == With(s, t, s'.txns[t])
    requires t in s.txns ==> s'.txns[t].phase == Aborting
                             || (s.txns[t].phase != Aborting
                                && (forall j :: 0 <= j < |s.txns[t].order| && Held(s.txns[t], j) ==>
                                   j < |s'.txns[t].order| && s'.txns[t].order[j] == s.txns[t].order[j]
                                       && Held(s'.txns[t], j)))
                             || (forall x :: x in s.slots ==> s.slots[x].owner != ByTxn(t))
    ensures LocksOk(s')
  {
    forall x | x in s'.slots ensures OwnerOk(s', x) { assert OwnerOk(s, x); }
  }

  lemma BeginKeeps(s: State, t: TxnId, ops: seq<SiOp>, unique: ListId -> bool, s': State)
    requires Inv(s, unique) && Step(s, Begin(t, ops), unique, s')
    ensures Inv(s', unique)
  {
    hide TxnOk, AtMostOne, OthersKept, Keeps;
    SameSlots(s, s', t);
    SameOwners(s, s', t);
    FreshTxn(s', t, ops, unique);
    StepOf(s, s', t, unique);
  }

  lemma FreshTxn(s: State, t: TxnId, ops: seq<SiOp>, unique: ListId -> bool)
    ensures TxnOk(s, t, Txn(ops, Resolving, [], [], 0, map[], map[]), unique)
  {
  }

  lemma ResolveKeeps(s: State, t: TxnId, blank: SlotId, unique: ListId -> bool, s': State)
    requires Inv(s, unique) && StepResolve(s, t, blank, unique, s')
    ensures Inv(s', unique)
  {
    hide AtMostOne, TxnOk, LocksOk, OthersKept, SlotsUnique, RepeatsAdd;
    ResolvesTo(s, t, blank, unique, s');
    if s'.slots == s.slots {
      SameSlots(s, s', t);
      SameOwners(s, s', t);
      assert SlotsUnique(s', unique) by { SameUnique(s, s', unique); }
    } else {
      BlankLocks(s, t, blank, s.txns[t].ops[|s.txns[t].items|].list, s');
      BlankUnique(s, blank, unique, s');
    }
    StepOf(s, s', t, unique);
  }

  lemma SameUnique(s: State, s': State, unique: ListId -> bool)
    requires SlotsUnique(s, unique) && s'.slots == s.slots
    ensures SlotsUnique(s', unique)
  {
  }

  /** The operation resolves to the slot of its key, or the request gives up. */
  lemma ResolvesTo(s: State, t: TxnId, blank: SlotId, unique: ListId -> bool, s': State)
    requires LocksOk(s) && StepResolve(s, t, blank, unique, s') && TxnOk(s, t, s.txns[t], unique)
    ensures TxnOk(s', t, s'.txns[t], unique)
  {
    hide AtMostOne, OwnerOk, UniqueHolds, OrderOk, HoldsOk, InstallOk, RecheckOk, RepeatsAdd;
  }

  /** A blank slot for a key that has none. */
  lemma BlankLocks(s: State, t: TxnId, blank: SlotId, l: ListId, s': State)
    requires LocksOk(s) && InPhase(s, t, Resolving) && blank !in s.slots && l !in s.index && InPhase(s', t, Resolving)
    requires s' == With(s, t, s'.txns[t]).(slots := s.slots[blank := Slot(l, {}, Nobody)], index := s.index[l := blank])
    ensures LocksOk(s') && OthersKept(s, s', t)
  {
    hide OwnerOk, Attached;
    forall x | x in s'.slots ensures OwnerOk(s', x) { BlankOwner(s, t, blank, l, s', x); }
    forall x | Attached(s, x) ensures Attached(s', x) { BlankAttached(s, blank, l, s', x); }
  }

  lemma BlankOwner(s: State, t: TxnId, blank: SlotId, l: ListId, s': State, x: SlotId)
    requires InPhase(s, t, Resolving) && InPhase(s', t, Resolving) && s'.txns == s.txns[t := s'.txns[t]]
    requires s'.slots == s.slots[blank := Slot(l, {}, Nobody)] && s'.reaper == s.reaper && x in s'.slots
    requires x in s.slots && x != blank ==> OwnerOk(s, x)
    ensures OwnerOk(s', x)
  {
  }

  lemma BlankAttached(s: State, blank: SlotId, l: ListId, s': State, x: SlotId)
    requires Attached(s, x) && blank !in s.slots && l !in s.index
    requires s'.slots == s.slots[blank := Slot(l, {}, Nobody)] && s'.index == s.index[l := blank]
    ensures Attached(s', x)
  {
  }

  lemma BlankUnique(s: State, blank: SlotId, unique: ListId -> bool, s': State)
    requires SlotsUnique(s, unique) && blank in s'.slots && s'.slots == s.slots[blank := s'.slots[blank]]
    requires s'.slots[blank].keys == {}
    ensures SlotsUnique(s', unique)
  {
  }

  lemma SortKeeps(s: State, t: TxnId, order: seq<SlotId>, unique: ListId -> bool, s': State)
    requires Inv(s, unique) && StepSort(s, t, order, s')
    ensures Inv(s', unique)
  {
    hide AtMostOne, AddsFindEmpty, After, UniqueHolds, RecheckOk, InstallOk;
    assert TxnOk(s, t, s.txns[t], unique);
    SameSlots(s, s', t);
    SameOwners(s, s', t);
    StepOf(s, s', t, unique);
  }

  /** Taking a free slot. */
  lemma TakenLocks(s: State, s': State, t: TxnId, x: SlotId)
    requires LocksOk(s) && t in s.txns && x in s.slots && s.slots[x].owner == Nobody
    requires t in s'.txns && s' == With(Owned(s, x, ByTxn(t)), t, s'.txns[t])
    requires s.txns[t].phase == Locking && s.txns[t].next < |s.txns[t].order| && s.txns[t].order[s.txns[t].next] == x
    requires s'.txns[t] == s.txns[t].(phase := Checking)
    ensures LocksOk(s') && OthersKept(s, s', t)
  {
    forall y | y in s'.slots ensures OwnerOk(s', y) {
      assert OwnerOk(s, y);
      if y == x {
        assert Held(s'.txns[t], s.txns[t].next);
      } else if s.slots[y].owner == ByTxn(t) {
        var j :| 0 <= j < |s.txns[t].order| && s.txns[t].order[j] == y && Held(s.txns[t], j);
        assert Held(s'.txns[t], j);
      }
    }
    assert forall y :: Attached(s, y) ==> Attached(s', y);
  }

  lemma LockItemKeeps(s: State, t: TxnId, unique: ListId -> bool, s': State)
    requires Inv(s, unique) && StepLockItem(s, t, s')
    ensures Inv(s', unique)
  {
    hide AtMostOne, AddsFindEmpty, After, UniqueHolds, RecheckOk, InstallOk, LocksOk, OthersKept, StrictlyAscending;
    assert TxnOk(s, t, s.txns[t], unique);
    var i := s.txns[t].next;
    TakenLocks(s, s', t, s.txns[t].order[i]);
    assert forall y :: Attached(s, y) ==> Attached(s', y);
    StepOf(s, s', t, unique);
  }

  lemma CheckItemKeeps(s: State, t: TxnId, unique: ListId -> bool, s': State)
    requires Inv(s, unique) && StepCheckItem(s, t, s')
    ensures Inv(s', unique)
  {
    hide AtMostOne, AddsFindEmpty, After, UniqueHolds, RecheckOk, InstallOk, OthersKept, Keeps, LocksOk, Held,
      HeldAttached;
    assert TxnOk(s, t, s.txns[t], unique);
    SameSlots(s, s', t);
    if s'.txns[t].phase == Locking { CheckPasses(s, t, s'); }
    CheckedOwners(s, t, s');
    StepOf(s, s', t, unique);
  }

  lemma CheckedOwners(s: State, t: TxnId, s': State)
    requires LocksOk(s) && StepCheckItem(s, t, s')
    ensures LocksOk(s')
  {
    hide Attached, LocksOk, OwnerOk;
    SameOwners(s, s', t);
  }

  lemma CheckPasses(s: State, t: TxnId, s': State)
    requires StepCheckItem(s, t, s') && OrderOk(s.txns[t]) && HoldsOk(s, t, s.txns[t]) && s'.txns[t].phase == Locking
    ensures OrderOk(s'.txns[t]) && HoldsOk(s', t, s'.txns[t])
  {
    hide StrictlyAscending;
  }

  // ----- The recheck ---------------------------------------------------------------------------------------

  lemma ShownUnique(s: State, unique: ListId -> bool)
    requires LocksOk(s) && SlotsUnique(s, unique)
    ensures UniqueHolds(AllShown(s), unique)
  {
  }

  lemma BeginRecheckKeeps(s: State, t: TxnId, unique: ListId -> bool, s': State)
    requires Inv(s, unique) && StepBeginRecheck(s, t, s')
    ensures Inv(s', unique)
  {
    hide AtMostOne, AddsFindEmpty, UniqueHolds, InstallOk, OthersKept, StrictlyAscending;
    assert TxnOk(s, t, s.txns[t], unique);
    SameSlots(s, s', t);
    SameOwners(s, s', t);
    ShownUnique(s, unique);
    var x' := s'.txns[t];
    OwnsItems(s', t, x');
    StepOf(s, s', t, unique);
  }

  lemma RecheckOpKeeps(s: State, t: TxnId, unique: ListId -> bool, s': State)
    requires Inv(s, unique) && StepRecheckOp(s, t, unique, s')
    ensures Inv(s', unique)
  {
    hide AtMostOne, TxnOk, LocksOk, OthersKept, Keeps, SlotsUnique;
    SameSlots(s, s', t);
    SameOwners(s, s', t);
    SameUnique(s, s', unique);
    RecheckTxn(s, t, unique, s');
    StepOf(s, s', t, unique);
  }

  lemma RecheckTxn(s: State, t: TxnId, unique: ListId -> bool, s': State)
    requires StepRecheckOp(s, t, unique, s') && TxnOk(s, t, s.txns[t], unique)
    ensures TxnOk(s', t, s'.txns[t], unique)
  {
    hide AtMostOne, AddsFindEmpty, UniqueHolds, RecheckOk, InstallOk, StrictlyAscending;
    if s'.txns[t].phase == Rechecking { RecheckAdvances(s, t, unique, s'); }
  }

  /** Attached slots of one list are one slot. */
  lemma OneSlot(s: State, t: TxnId, x: Txn, i: nat, j: nat)
    requires ItemsOk(s, x) && OrderOk(x) && HoldsOk(s, t, x) && (x.phase == Rechecking || x.phase == Installing)
    requires i < |x.ops| && j < |x.ops|
    ensures x.items[i] == x.items[j] <==> x.ops[i].list == x.ops[j].list
  {
    OwnsItems(s, t, x);
  }

  lemma RecheckAdvances(s: State, t: TxnId, unique: ListId -> bool, s': State)
    requires t in s.txns && ItemsOk(s, s.txns[t]) && OrderOk(s.txns[t]) && HoldsOk(s, t, s.txns[t])
    requires s.txns[t].phase == Rechecking && RecheckOk(s, s.txns[t], unique)
    requires StepRecheckOp(s, t, unique, s') && s'.txns[t].phase == Rechecking
    ensures ItemsOk(s', s'.txns[t]) && OrderOk(s'.txns[t]) && RecheckOk(s', s'.txns[t], unique)
  {
    hide StrictlyAscending, HoldsOk, After, Applied, Copy;
    var x, x' := s.txns[t], s'.txns[t];
    forall i | 0 <= i < |x.ops| && unique(x.ops[i].list)
      ensures Copy(s', x', x'.items[i]) == After(x.base, x.ops, x.next + 1, x.ops[i].list)
    {
      OneSlot(s, t, x, i, x.next);
      AfterStep(x.base, x.ops, x.next, x.ops[i].list);
      CopyStep(s, t, unique, s', x.items[i]);
    }
  }

  /** The simulation applies the operation to the copy of its own list and to no other. */
  lemma CopyStep(s: State, t: TxnId, unique: ListId -> bool, s': State, y: SlotId)
    requires StepRecheckOp(s, t, unique, s') && s'.txns[t].phase == Rechecking && y in s.slots
    requires unique(s.txns[t].ops[s.txns[t].next].list)
             || y != s.txns[t].items[s.txns[t].next]
    ensures var x := s.txns[t];
            Copy(s', s'.txns[t], y)
            == if y == x.items[x.next] then Applied(x.ops[x.next], Copy(s, x, y)) else Copy(s, x, y)
  {
    hide Applied;
  }

  lemma AfterStep(ls: Lists, ops: seq<SiOp>, n: nat, l: ListId)
    requires n < |ops|
    ensures After(ls, ops, n + 1, l) == if ops[n].list == l then Applied(ops[n], After(ls, ops, n, l))
            else After(ls, ops, n, l)
  {
  }

  lemma DecideKeeps(s: State, t: TxnId, unique: ListId -> bool, s': State)
    requires Inv(s, unique) && StepDecide(s, t, s')
    ensures Inv(s', unique)
  {
    hide AtMostOne, UniqueHolds, OthersKept, StrictlyAscending, Attached;
    assert TxnOk(s, t, s.txns[t], unique);
    SameSlots(s, s', t);
    SameOwners(s, s', t);
    StepOf(s, s', t, unique);
  }

  // ----- The install -----------------------------------------------------------------------------------------

  lemma InstallOpKeeps(s: State, t: TxnId, unique: ListId -> bool, s': State)
    requires Inv(s, unique) && StepInstallOp(s, t, s')
    ensures Inv(s', unique)
  {
    hide AtMostOne, AddsFindEmpty, UniqueHolds, RecheckOk, InstallOk, OthersKept, StrictlyAscending, LocksOk;
    assert TxnOk(s, t, s.txns[t], unique);
    InstallLocks(s, t, s');
    InstallAdvances(s, t, unique, s');
    InstalledUnique(s, t, unique, s');
    StepOf(s, s', t, unique);
  }

  lemma InstallLocks(s: State, t: TxnId, s': State)
    requires LocksOk(s) && StepInstallOp(s, t, s') && ItemsOk(s, s.txns[t]) && OrderOk(s.txns[t])
    requires HoldsOk(s, t, s.txns[t])
    ensures LocksOk(s') && OthersKept(s, s', t) && ItemsOk(s', s'.txns[t]) && OrderOk(s'.txns[t])
    ensures HoldsOk(s', t, s'.txns[t])
  {
    hide StrictlyAscending, OwnerOk;
    OwnsItems(s, t, s.txns[t]);
    assert forall y :: Attached(s', y) <==> Attached(s, y);
    forall y | y in s'.slots ensures OwnerOk(s', y) { InstallOwner(s, t, s', y); }
  }

  lemma InstallOwner(s: State, t: TxnId, s': State, y: SlotId)
    requires StepInstallOp(s, t, s') && y in s.slots && OwnerOk(s, y)
    ensures y in s'.slots && OwnerOk(s', y)
  {
    hide Applied;
    if s.slots[y].owner == ByTxn(t) {
      var j :| 0 <= j < |s.txns[t].order| && s.txns[t].order[j] == y && Held(s.txns[t], j);
      assert s'.txns[t].order[j] == y && Held(s'.txns[t], j);
    }
  }

  lemma InstallAdvances(s: State, t: TxnId, unique: ListId -> bool, s': State)
    requires StepInstallOp(s, t, s') && ItemsOk(s, s.txns[t]) && OrderOk(s.txns[t]) && HoldsOk(s, t, s.txns[t])
    requires ItemsOk(s', s'.txns[t]) && OrderOk(s'.txns[t]) && InstallOk(s, s.txns[t], s.txns[t].next, unique)
    ensures InstallOk(s', s'.txns[t], s'.txns[t].next, unique)
  {
    hide StrictlyAscending, HoldsOk, AddsFindEmpty;
    var x, x' := s.txns[t], s'.txns[t];
    var n := x.next;
    forall i | 0 <= i < |x.ops| ensures s'.slots[x.items[i]].keys == After(x.base, x.ops, n + 1, x.ops[i].list) {
      OneSlot(s, t, x, i, n);
      var j :| 0 <= j < |x.order| && x.order[j] == x.items[i];
      assert Held(x, j);
      var k :| 0 <= k < |x.order| && x.order[k] == x.items[n];
      assert Held(x, k);
    }
  }

  lemma InstalledUnique(s: State, t: TxnId, unique: ListId -> bool, s': State)
    requires SlotsUnique(s, unique) && StepInstallOp(s, t, s') && UniqueHolds(s.txns[t].base, unique)
    requires ItemsOk(s', s'.txns[t]) && OrderOk(s'.txns[t]) && InstallOk(s', s'.txns[t], s'.txns[t].next, unique)
    ensures SlotsUnique(s', unique)
  {
    hide StrictlyAscending, AtMostOne, UniqueHolds, AddsFindEmpty, After;
    var x', n := s'.txns[t], s.txns[t].next;
    var j :| 0 <= j < |x'.order| && x'.order[j] == x'.items[n];
    assert Held(x', j);
    if unique(x'.ops[n].list) { UniqueStays(x'.base, x'.ops, n + 1, unique, x'.ops[n].list); }
  }

  lemma InstalledKeeps(s: State, t: TxnId, unique: ListId -> bool, s': State)
    requires Inv(s, unique) && StepInstalled(s, t, s')
    ensures Inv(s', unique)
  {
    hide AtMostOne, AddsFindEmpty, UniqueHolds, OthersKept, StrictlyAscending, Attached, After;
    assert TxnOk(s, t, s.txns[t], unique);
    SameSlots(s, s', t);
    SameOwners(s, s', t);
    StepOf(s, s', t, unique);
  }

  /** Giving up a slot. */
  lemma ReleasedLocks(s: State, s': State, t: TxnId, x: SlotId)
    requires LocksOk(s) && t in s.txns && x in s.slots && s.slots[x].owner == ByTxn(t)
    requires t in s'.txns && s' == With(Owned(s, x, Nobody), t, s'.txns[t])
    requires s'.txns[t].phase == Aborting
             || (s.txns[t].phase != Aborting
                && forall j | 0 <= j < |s.txns[t].order| && Held(s.txns[t], j) && s.txns[t].order[j] != x ::
                   j < |s'.txns[t].order| && s'.txns[t].order[j] == s.txns[t].order[j] && Held(s'.txns[t], j))
    ensures LocksOk(s') && OthersKept(s, s', t)
  {
    forall y | y in s'.slots ensures OwnerOk(s', y) {
      assert OwnerOk(s, y);
    }
    ReleasedKept(s, s', t, x);
  }

  lemma ReleasedKept(s: State, s': State, t: TxnId, x: SlotId)
    requires x in s.slots && s.slots[x].owner == ByTxn(t) && t in s'.txns
    requires s' == With(Owned(s, x, Nobody), t, s'.txns[t])
    ensures OthersKept(s, s', t)
  {
    assert forall y :: Attached(s, y) ==> Attached(s', y);
  }

  lemma PublishKeeps(s: State, t: TxnId, unique: ListId -> bool, s': State)
    requires Inv(s, unique) && StepPublish(s, t, s')
    ensures Inv(s', unique)
  {
    hide AtMostOne, OthersKept, LocksOk, TxnOk, Attached;
    assert TxnOk(s, t, s.txns[t], unique);
    PublishedTxn(s, t, unique, s');
    var x := s.txns[t];
    forall j | 0 <= j < |x.order| && Held(x, j) && x.order[j] != x.order[x.next] ensures Held(s'.txns[t], j) { }
    ReleasedLocks(s, s', t, x.order[x.next]);
    StepOf(s, s', t, unique);
  }

  lemma PublishedTxn(s: State, t: TxnId, unique: ListId -> bool, s': State)
    requires StepPublish(s, t, s') && TxnOk(s, t, s.txns[t], unique)
    ensures s.slots[s.txns[t].order[s.txns[t].next]].owner == ByTxn(t) && TxnOk(s', t, s'.txns[t], unique)
  {
    hide AddsFindEmpty, UniqueHolds, After, RecheckOk;
    assert Held(s.txns[t], s.txns[t].next);
    assert forall y :: Attached(s, y) ==> Attached(s', y);
  }

  lemma FinishKeeps(s: State, t: TxnId, unique: ListId -> bool, s': State)
    requires Inv(s, unique) && StepFinish(s, t, s')
    ensures Inv(s', unique)
  {
    hide AtMostOne, AddsFindEmpty, UniqueHolds, OthersKept, After, RecheckOk, InstallOk, StrictlyAscending;
    assert TxnOk(s, t, s.txns[t], unique);
    SameSlots(s, s', t);
    forall x | x in s.slots ensures s.slots[x].owner != ByTxn(t) { assert OwnerOk(s, x); }
    SameOwners(s, s', t);
    StepOf(s, s', t, unique);
  }

  // ----- Aborts ------------------------------------------------------------------------------------------------

  lemma GiveUpKeeps(s: State, t: TxnId, unique: ListId -> bool, s': State)
    requires Inv(s, unique) && StepGiveUp(s, t, s')
    ensures Inv(s', unique)
  {
    hide AtMostOne, AddsFindEmpty, UniqueHolds, OthersKept, After, RecheckOk, InstallOk, OrderOk, HoldsOk;
    assert TxnOk(s, t, s.txns[t], unique);
    SameSlots(s, s', t);
    SameOwners(s, s', t);
    StepOf(s, s', t, unique);
  }

  lemma UnlockKeeps(s: State, t: TxnId, x: SlotId, unique: ListId -> bool, s': State)
    requires Inv(s, unique) && StepUnlock(s, t, x, s')
    ensures Inv(s', unique)
  {
    hide AtMostOne, AddsFindEmpty, UniqueHolds, OthersKept, After, RecheckOk, InstallOk, OrderOk, HoldsOk, LocksOk;
    assert TxnOk(s, t, s.txns[t], unique);
    assert s' == With(Owned(s, x, Nobody), t, s'.txns[t]);
    ReleasedLocks(s, s', t, x);
    StepOf(s, s', t, unique);
  }

  lemma UnlockedKeeps(s: State, t: TxnId, unique: ListId -> bool, s': State)
    requires Inv(s, unique) && StepUnlocked(s, t, s')
    ensures Inv(s', unique)
  {
    hide AtMostOne, AddsFindEmpty, UniqueHolds, OthersKept, After, RecheckOk, InstallOk, OrderOk, HoldsOk;
    assert TxnOk(s, t, s.txns[t], unique);
    SameSlots(s, s', t);
    SameOwners(s, s', t);
    StepOf(s, s', t, unique);
  }

  // ----- The reaper ---------------------------------------------------------------------------------------------

  lemma ReaperKeeps(s: State, a: Action, unique: ListId -> bool, s': State)
    requires Inv(s, unique) && Step(s, a, unique, s')
    requires (a.ReapLock? || a.ReapRestore? || a.ReapDetach? || a.ReapRetire?)
    ensures Inv(s', unique)
  {
    hide AtMostOne, TxnOk, LocksOk, Keeps;
    ReaperLocks(s, a, unique, s');
    forall u | u in s'.txns ensures TxnOk(s', u, s'.txns[u], unique) { TxnFrame(s, s', u, s.txns[u], unique); }
  }

  lemma ReaperLocks(s: State, a: Action, unique: ListId -> bool, s': State)
    requires LocksOk(s) && Step(s, a, unique, s') && (a.ReapLock? || a.ReapRestore? || a.ReapDetach? || a.ReapRetire?)
    ensures LocksOk(s') && s'.txns == s.txns && (forall u :: u in s.txns ==> Keeps(s, s', u))
    ensures forall x :: x in s'.slots ==>
        x in s.slots && s'.slots[x].keys == s.slots[x].keys && s'.slots[x].list == s.slots[x].list
    ensures forall l :: Shown(s', l) == Shown(s, l)
  {
    hide LocksOk, Keeps, Shown;
    match a
    case ReapLock(x) => ReapLockLocks(s, x, s');
    case ReapDetach => ReapDetachLocks(s, s');
    case _ => ReapReleaseLocks(s, s');
  }

  lemma ReapLockLocks(s: State, x: SlotId, s': State)
    requires LocksOk(s) && StepReapLock(s, x, s')
    ensures LocksOk(s') && (forall u :: u in s.txns ==> Keeps(s, s', u)) && forall l :: Shown(s', l) == Shown(s, l)
  {
    forall y | y in s'.slots ensures OwnerOk(s', y) { assert OwnerOk(s, y); }
    assert forall y :: Attached(s, y) ==> Attached(s', y);
  }

  lemma ReapReleaseLocks(s: State, s': State)
    requires LocksOk(s) && !s.reaper.Idle? && s.reaper.x in s.slots
    requires s' == Owned(s, s.reaper.x, Nobody).(reaper := Idle)
    ensures LocksOk(s') && (forall u :: u in s.txns ==> Keeps(s, s', u)) && forall l :: Shown(s', l) == Shown(s, l)
  {
    hide OwnerOk;
    forall y | y in s'.slots ensures OwnerOk(s', y) { ReleasedOwner(s, s', y); }
    assert forall y :: Attached(s, y) ==> Attached(s', y);
  }

  lemma ReleasedOwner(s: State, s': State, y: SlotId)
    requires LocksOk(s) && !s.reaper.Idle? && s.reaper.x in s.slots && y in s.slots
    requires s' == Owned(s, s.reaper.x, Nobody).(reaper := Idle)
    ensures OwnerOk(s', y)
  {
    hide Held;
    assert OwnerOk(s, y);
  }

  /** The detached list was empty, so nobody finds a difference; its slot is the reaper's, nobody else's. */
  lemma ReapDetachLocks(s: State, s': State)
    requires LocksOk(s) && StepReapDetach(s, s')
    ensures LocksOk(s') && (forall u :: u in s.txns ==> Keeps(s, s', u)) && forall l :: Shown(s', l) == Shown(s, l)
  {
    forall y | y in s'.slots ensures OwnerOk(s', y) { assert OwnerOk(s, y); }
    assert forall y :: Attached(s, y) && y != s.reaper.x ==> Attached(s', y);
  }

  // ----- Every state of every run --------------------------------------------------------------------------------

  lemma StepKeepsInv(s: State, a: Action, unique: ListId -> bool, s': State)
    requires Inv(s, unique) && Step(s, a, unique, s')
    ensures Inv(s', unique)
  {
    hide Inv, StepResolve, StepSort, StepLockItem, StepCheckItem, StepBeginRecheck, StepRecheckOp, StepDecide,
      StepInstallOp,
      StepInstalled, StepPublish, StepFinish, StepGiveUp, StepUnlock, StepUnlocked;
    match a
    case Begin(t, ops) => BeginKeeps(s, t, ops, unique, s');
    case Resolve(t, blank) => ResolveKeeps(s, t, blank, unique, s');
    case Sort(t, order) => SortKeeps(s, t, order, unique, s');
    case LockItem(t) => LockItemKeeps(s, t, unique, s');
    case CheckItem(t) => CheckItemKeeps(s, t, unique, s');
    case BeginRecheck(t) => BeginRecheckKeeps(s, t, unique, s');
    case RecheckOp(t) => RecheckOpKeeps(s, t, unique, s');
    case Decide(t) => DecideKeeps(s, t, unique, s');
    case InstallOp(t) => InstallOpKeeps(s, t, unique, s');
    case Installed(t) => InstalledKeeps(s, t, unique, s');
    case Publish(t) => PublishKeeps(s, t, unique, s');
    case Finish(t) => FinishKeeps(s, t, unique, s');
    case GiveUp(t) => GiveUpKeeps(s, t, unique, s');
    case Unlock(t, x) => UnlockKeeps(s, t, x, unique, s');
    case Unlocked(t) => UnlockedKeeps(s, t, unique, s');
    case _ => ReaperKeeps(s, a, unique, s');
  }

  lemma {:induction false} RunKeepsInv(run: seq<State>, acts: seq<Action>, unique: ListId -> bool, n: nat)
    requires IsRun(run, acts, unique) && n <= |acts|
    ensures Inv(run[n], unique)
  {
    hide Step, AtMostOne;
    if n > 0 {
      RunKeepsInv(run, acts, unique, n - 1);
      StepKeepsInv(run[n - 1], acts[n - 1], unique, run[n]);
    }
  }

  /**
   * In every state of every interleaving, between the installs of one request included, at most
   * one primary key is found under every UNIQUE secondary key.
   */
  lemma UniqueInEveryState(run: seq<State>, acts: seq<Action>, unique: ListId -> bool, n: nat, l: ListId)
    requires IsRun(run, acts, unique) && n <= |acts| && unique(l)
    ensures AtMostOne(Shown(run[n], l))
  {
    hide Step, TxnOk;
    RunKeepsInv(run, acts, unique, n);
  }

  /**
   * When a request has installed everything, each of its lists shows what its operations, in
   * order, make of the list the recheck found; purges change what nobody finds.
   */
  lemma InstallsWhatWasChecked(run: seq<State>, acts: seq<Action>, unique: ListId -> bool, n: nat, t: TxnId, i: nat)
    requires IsRun(run, acts, unique) && n < |acts| && acts[n] == Installed(t) && t in run[n].txns
    requires i < |run[n].txns[t].ops|
    ensures var s, x := run[n], run[n].txns[t];
            && Shown(s, x.ops[i].list) == After(x.base, x.ops, |x.ops|, x.ops[i].list)
            && AddsFindEmpty(x.base, x.ops, unique)
  {
    hide AtMostOne, UniqueHolds, AddsFindEmpty, After;
    RunKeepsInv(run, acts, unique, n);
    var s, x := run[n], run[n].txns[t];
    assert Step(run[n], acts[n], unique, run[n + 1]);
    assert TxnOk(s, t, x, unique);
    OwnsItems(s, t, x);
    assert x.items[i] in x.order;
    var j :| 0 <= j < |x.order| && x.order[j] == x.items[i];
    assert Held(x, j);
  }
}
