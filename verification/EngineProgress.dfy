/**
 * No deadlock: from whoever waits, following the waits leads to a party that waits for nobody and
 * can take a step, without anybody giving up. Only a failed log is beyond help.
 */
module EngineProgress {
  import S = SiloModel
  import D = Durability
  import DurabilityProgress
  import EpochSpec
  import SiloLocks
  import SiloSerial
  import SiloTheorems
  import opened Engine
  import opened EngineTheorems

  ghost predicate Blocked(s: State, a: Party) {
    exists b :: WaitsFor(s, a, b)
  }

  // ----- Following the waits -------------------------------------------------------------------------

  /** How many slots lie above the one a committer spins on. */
  function SpinRank(s: State, a: Party): nat {
    if a.Committer? && a.t in s.silo.txns && s.silo.txns[a.t].next < |s.silo.txns[a.t].order|
       && SiloTheorems.SpinsOn(s.silo, a.t, s.silo.txns[a.t].order[s.silo.txns[a.t].next])
    then |SiloTheorems.SlotsAbove(s.silo, s.silo.txns[a.t].order[s.silo.txns[a.t].next])| + 1
    else 0
  }

  lemma LockWaitRanks(s: State, a: Party, b: Party)
    requires SiloLocked(s) && LockWait(s, a, b)
    ensures SpinRank(s, b) < SpinRank(s, a)
  {
    hide SiloLocked, SiloTheorems.SlotsAbove;
    var x :| SiloTheorems.SpinsOn(s.silo, a.t, x) && s.silo.slots[x].owner == S.ByTxn(b.t);
    if SpinRank(s, b) > 0 {
      var y := s.silo.txns[b.t].order[s.silo.txns[b.t].next];
      SlotsRise(s, a.t, b.t, x, y);
    }
  }

  lemma SlotsRise(s: State, t: TxnId, u: TxnId, x: S.SlotId, y: S.SlotId)
    requires SiloLocked(s) && SiloTheorems.SpinsOn(s.silo, t, x) && s.silo.slots[x].owner == S.ByTxn(u)
    requires SiloTheorems.SpinsOn(s.silo, u, y)
    ensures |SiloTheorems.SlotsAbove(s.silo, y)| < |SiloTheorems.SlotsAbove(s.silo, x)|
  {
    hide SiloLocks.LockInv;
    SiloTheorems.WaitAscends(s.silo, t, u, x, y);
    assert y in SiloTheorems.SlotsAbove(s.silo, x) && y !in SiloTheorems.SlotsAbove(s.silo, y);
    assert SiloTheorems.SlotsAbove(s.silo, y) < SiloTheorems.SlotsAbove(s.silo, x);
    SiloTheorems.SubsetSmaller(SiloTheorems.SlotsAbove(s.silo, y), SiloTheorems.SlotsAbove(s.silo, x));
  }

  /** Following the waits comes to an end, at somebody who waits for nobody. */
  lemma {:induction false} WaitsEnd(s: State, a: Party) returns (chain: seq<Party>)
    requires SiloLocked(s) && Coupled(s)
    ensures |chain| >= 1 && chain[0] == a && Chain(s, chain) && !Blocked(s, chain[|chain| - 1])
    ensures Blocked(s, a) ==> |chain| >= 2
    decreases Level(s, a), SpinRank(s, a)
  {
    hide SiloLocked, Coupled, WaitsFor, Level, SpinRank, LockWait;
    if b :| WaitsFor(s, a, b) {
      WaitDescends(s, a, b);
      if Level(s, b) >= Level(s, a) { LockWaitHere(s, a, b); }
      var rest := WaitsEnd(s, b);
      chain := [a] + rest;
      forall i | 0 <= i < |chain| - 1 ensures WaitsFor(s, chain[i], chain[i + 1]) {
        if i > 0 { assert WaitsFor(s, rest[i - 1], rest[i]); }
      }
    } else {
      chain := [a];
    }
  }

  lemma LockWaitHere(s: State, a: Party, b: Party)
    requires SiloLocked(s) && a.Committer? && b.Committer? && SiloTheorems.WaitsFor(s.silo, a.t, b.t)
    ensures SpinRank(s, b) < SpinRank(s, a)
  {
    hide SiloLocked, SpinRank;
    LockWaitRanks(s, a, b);
  }

  // ----- Going on -------------------------------------------------------------------------------------

  /** An action of a committer that moves it forward. */
  predicate Forward(a: Action, t: TxnId) {
    match a
    case Local(b) => b.TxnAct? && b.t == t && !b.ca.GiveUp?
    case LeaveAtPoint(u) => u == t
    case Point(u) => u == t
    case Enqueue(u) => u == t
    case Capture(u) => u == t
    case Leave(u) => u == t
    case _ => false
  }

  predicate Flushes(d: D.Action) {
    d.DoWake? || d.DoCollect? || d.DoWrite? || d.DoSynced? || d.DoPublish?
  }

  /** The party can take a step of its own. */
  ghost predicate CanGoOn(s: State, c: Party) {
    match c
    case Committer(t) => exists a, s' :: Forward(a, t) && Step(s, a, s')
    case Reading(_) => true
    case Reaping => exists b: S.Action, s' :: b.ReaperAct? && Step(s, Local(b), s')
    case Closing => exists s' :: Step(s, Tick, s')
    case Flushing => exists d, s' :: Flushes(d) && Step(s, Background(d), s')
    case Switching => true
  }

  lemma TakesLocal(s: State, t: TxnId, ca: S.CommitAct, silo': S.State)
    requires S.TxnStep(s.silo, t, ca, silo') && !ca.Begin? && !ca.Point? && !ca.GiveUp? && IsOnline(s, t)
    ensures CanGoOn(s, Committer(t))
  {
    hide S.TxnStep;
    var a, s' := Local(S.TxnAct(t, ca)), s.(silo := silo');
    assert S.Step(s.silo, S.TxnAct(t, ca), silo');
    assert Forward(a, t) && Step(s, a, s');
  }

  // ----- Before the locks ---------------------------------------------------------------------------------

  lemma ResolvingGoesOn(s: State, t: TxnId)
    requires SiloLocked(s) && t in s.silo.txns && s.silo.txns[t].phase == S.Resolving && IsOnline(s, t)
    ensures CanGoOn(s, Committer(t))
  {
    hide CanGoOn;
    SiloLocks.TxnOkOf(s.silo, t);
    hide SiloLocks.LockInv;
    var x := s.silo.txns[t];
    if |x.items| < |x.writeSet| {
      var blank := SiloLocks.Bound(s.silo.slots.Keys);
      TakesLocal(s, t, S.Resolve(blank), S.DoResolve(s.silo, t, blank));
    } else {
      var order := SiloLocks.SortedItems(x.items);
      TakesLocal(s, t, S.Sort(order), S.DoSort(s.silo, t, order));
    }
  }

  // ----- With locks ----------------------------------------------------------------------------------------

  /** What the lock discipline says about a transaction's progress. */
  lemma ProgressOf(s: State, t: TxnId)
    requires SiloLocked(s) && t in s.silo.txns
    ensures var x := s.silo.txns[t];
            && SiloLocks.ProgressOk(x)
            && (SiloLocks.Prepared(x) ==>
                  && |x.items| == |x.writeSet| && (forall i :: 0 <= i < |x.items| ==> x.items[i] in s.silo.slots)
                  && (forall j :: 0 <= j < |x.order| ==> x.order[j] in s.silo.slots))
  {
    hide SiloLocks.LockInv;
    SiloLocks.TxnOkOf(s.silo, t);
  }

  lemma LockingGoesOn(s: State, t: TxnId)
    requires SiloLocked(s) && Coupled(s) && t in s.silo.txns && !Blocked(s, Committer(t))
    requires s.silo.txns[t].phase == S.Locking || s.silo.txns[t].phase == S.Checking
    ensures CanGoOn(s, Committer(t))
  {
    hide CanGoOn, Coupled, WaitsFor, SiloLocked;
    ProgressOf(s, t);
    var x := s.silo.txns[t];
    if x.phase == S.Checking {
      IsOnlineEarly(s, t);
      TakesLocal(s, t, S.CheckItem, S.DoCheckItem(s.silo, t));
    } else if x.next < |x.order| {
      IsOnlineEarly(s, t);
      NotSpinning(s, t, x.order[x.next]);
      TakesLocal(s, t, S.LockItem, S.DoLockItem(s.silo, t));
    } else {
      PointGoesOn(s, t);
    }
  }

  lemma NotSpinning(s: State, t: TxnId, x: S.SlotId)
    requires SiloLocked(s) && !Blocked(s, Committer(t)) && x in s.silo.slots
    ensures !SiloTheorems.SpinsOn(s.silo, t, x)
  {
    hide SiloLocks.LockInv;
    SiloLocks.OwnerOkOf(s.silo, x);
    var b := if s.silo.slots[x].owner.ByTxn? then Committer(s.silo.slots[x].owner.txn) else Reaping;
    assert SiloTheorems.SpinsOn(s.silo, t, x) ==> HeldBy(s, x, b) && WaitsFor(s, Committer(t), b);
  }

  lemma PointGoesOn(s: State, t: TxnId)
    requires Coupled(s) && S.CanPoint(s.silo, t)
    ensures CanGoOn(s, Committer(t))
  {
    hide CanGoOn, D.Inv;
    assert TxnCoupled(s, t);
    if IsOnline(s, t) {
      OnlineHasWork(s.dur, t);
      CanLeaveAtPoint(s, t);
    } else {
      CanRejoin(s, t);
    }
  }

  lemma CanLeaveAtPoint(s: State, t: TxnId)
    requires S.CanPoint(s.silo, t) && IsOnline(s, t) && t in s.dur.work && s.dur.work[t] == D.Joined
    ensures CanGoOn(s, Committer(t))
  {
    var dur' := s.dur.(clock := s.dur.clock.(online := s.dur.clock.online - {t}), work := s.dur.work - {t});
    assert D.Step(s.dur, D.DoLeave(t), dur');
    assert Forward(LeaveAtPoint(t), t) && Step(s, LeaveAtPoint(t), s.(dur := dur'));
  }

  lemma CanRejoin(s: State, t: TxnId)
    requires S.CanPoint(s.silo, t) && !IsOnline(s, t)
    ensures CanGoOn(s, Committer(t))
  {
    var dur' := s.dur.(clock := s.dur.clock.(online := s.dur.clock.online[t := s.dur.clock.now]),
                       work := s.dur.work[t := D.Joined]);
    assert D.Step(s.dur, D.DoJoin(t), dur');
    assert S.Step(s.silo, S.TxnAct(t, S.Point), S.DoPoint(s.silo, t));
    assert Forward(Point(t), t) && Step(s, Point(t), s.(silo := S.DoPoint(s.silo, t), dur := dur'));
  }

  lemma LateIsOnline(s: State, t: TxnId)
    requires Coupled(s) && t in s.silo.txns && Late(s.silo.txns[t])
    ensures IsOnline(s, t)
  {
    hide D.Inv;
    assert TxnCoupled(s, t);
  }

  lemma LateGoesOn(s: State, t: TxnId)
    requires SiloLocked(s) && Coupled(s) && t in s.silo.txns && Late(s.silo.txns[t])
    ensures CanGoOn(s, Committer(t))
  {
    hide CanGoOn, Coupled, SiloLocked;
    ProgressOf(s, t);
    LateIsOnline(s, t);
    match s.silo.txns[t].phase
    case Validating => ValidatingGoesOn(s, t);
    case Installing => InstallingGoesOn(s, t);
    case Publishing => PublishingGoesOn(s, t);
  }

  lemma ValidatingGoesOn(s: State, t: TxnId)
    requires S.InPhase(s.silo, t, S.Validating) && IsOnline(s, t) && s.silo.txns[t].next <= |s.silo.txns[t].readSet|
    ensures CanGoOn(s, Committer(t))
  {
    hide CanGoOn, S.ReadHolds, S.Attached;
    var x := s.silo.txns[t];
    if x.next == |x.readSet| {
      TakesLocal(s, t, S.Decide, S.DoDecide(s.silo, t));
    } else if x.lookup == S.NotLooked {
      TakesLocal(s, t, S.LookUp, S.DoLookUp(s.silo, t));
    } else {
      TakesLocal(s, t, S.Validate, S.DoValidate(s.silo, t));
    }
  }

  lemma InstallingGoesOn(s: State, t: TxnId)
    requires S.InPhase(s.silo, t, S.Installing) && IsOnline(s, t) && s.silo.txns[t].next <= |s.silo.txns[t].writeSet|
    requires |s.silo.txns[t].items| == |s.silo.txns[t].writeSet|
    requires forall i :: 0 <= i < |s.silo.txns[t].items| ==> s.silo.txns[t].items[i] in s.silo.slots
    ensures CanGoOn(s, Committer(t))
  {
    hide CanGoOn, S.Attached;
    var x := s.silo.txns[t];
    if x.next == |x.writeSet| {
      TakesLocal(s, t, S.Installed, S.DoInstalled(s.silo, t));
    } else {
      TakesLocal(s, t, S.Install, S.DoInstall(s.silo, t));
    }
  }

  lemma PublishingGoesOn(s: State, t: TxnId)
    requires S.InPhase(s.silo, t, S.Publishing) && IsOnline(s, t) && s.silo.txns[t].next <= |s.silo.txns[t].order|
    requires forall j :: 0 <= j < |s.silo.txns[t].order| ==> s.silo.txns[t].order[j] in s.silo.slots
    ensures CanGoOn(s, Committer(t))
  {
    hide CanGoOn, S.Attached, S.Candidates;
    var x := s.silo.txns[t];
    if x.next == |x.order| {
      TakesLocal(s, t, S.Register, S.DoRegister(s.silo, t));
    } else {
      TakesLocal(s, t, S.Publish, S.DoPublish(s.silo, t));
    }
  }

  lemma AbortingGoesOn(s: State, t: TxnId)
    requires SiloLocked(s) && Coupled(s) && t in s.silo.txns && s.silo.txns[t].phase == S.Aborting
    ensures CanGoOn(s, Committer(t))
  {
    hide CanGoOn, Coupled, SiloLocks.LockInv, S.Attached;
    IsOnlineEarly(s, t);
    if y :| y in s.silo.slots && s.silo.slots[y].owner == S.ByTxn(t) {
      SiloLocks.OwnerOkOf(s.silo, y);
      TakesLocal(s, t, S.Unlock(y), S.DoUnlock(s.silo, t, y));
    } else {
      TakesLocal(s, t, S.Unlocked, S.DoUnlocked(s.silo, t));
    }
  }

  // ----- Finished, still online --------------------------------------------------------------------------------

  lemma FinishedGoesOn(s: State, t: TxnId)
    requires Coupled(s) && t in s.silo.txns && IsOnline(s, t)
    requires s.silo.txns[t].phase == S.Done || s.silo.txns[t].phase == S.Aborted
    ensures CanGoOn(s, Committer(t))
  {
    hide CanGoOn;
    assert TxnCoupled(s, t);
    OnlineHasWork(s.dur, t);
    hide D.Inv;
    if s.silo.txns[t].phase == S.Done && s.silo.txns[t].writeSet != [] && !s.dur.work[t].Captured? {
      if s.dur.work[t].Joined? { CanEnqueue(s, t); } else { CanCapture(s, t); }
    } else if s.dur.work[t].Enqueued? {
      CanCapture(s, t);
    } else {
      CanLeave(s, t);
    }
  }

  lemma CanLeave(s: State, t: TxnId)
    requires MayLeave(s, t) && IsOnline(s, t) && !s.dur.work[t].Enqueued?
    ensures CanGoOn(s, Committer(t))
  {
    var w := s.dur.work[t];
    var dur' := s.dur.(clock := s.dur.clock.(online := s.dur.clock.online - {t}), work := s.dur.work - {t},
                       waiting := if w.Captured? && w.awaits then s.dur.waiting + {w.r} else s.dur.waiting);
    assert D.Step(s.dur, D.DoLeave(t), dur');
    assert Forward(Leave(t), t) && Step(s, Leave(t), s.(dur := dur'));
  }

  lemma CanCapture(s: State, t: TxnId)
    requires t in s.dur.work && s.dur.work[t].Enqueued?
    ensures CanGoOn(s, Committer(t))
  {
    var r := s.dur.work[t].r;
    var dur' := s.dur.(work := s.dur.work[t := D.Captured(r, s.dur.policy == D.Sync)],
                       async := if s.dur.policy == D.Async then s.dur.async + {r} else s.dur.async);
    assert D.Step(s.dur, D.DoCapture(t), dur');
    assert Forward(Capture(t), t) && Step(s, Capture(t), s.(dur := dur'));
  }

  lemma CanEnqueue(s: State, t: TxnId)
    requires Coupled(s) && t in s.silo.txns && IsOnline(s, t) && t in s.dur.work && s.dur.work[t].Joined?
    requires s.silo.txns[t].phase == S.Done && s.silo.txns[t].writeSet != []
    ensures CanGoOn(s, Committer(t))
  {
    var r := RecOf(s, t);
    assert TxnCoupled(s, t);
    NotEnqueuedYet(s, t);
    hide D.Inv;
    var dur' := s.dur.(work := s.dur.work[t := D.Enqueued(r)],
        buffers := s.dur.buffers[t := D.BufferOf(s.dur, t) + {r}],
                       committed := s.dur.committed + {r});
    assert D.Step(s.dur, D.DoEnqueue(t, r), dur');
    assert Forward(Enqueue(t), t) && Step(s, Enqueue(t), s.(dur := dur'));
  }

  lemma NotEnqueuedYet(s: State, t: TxnId)
    requires Coupled(s) && t in s.silo.txns && t in s.dur.work && s.dur.work[t].Joined?
    requires s.silo.txns[t].phase == S.Done
    requires IsOnline(s, t)
    ensures var r := RecOf(s, t); r !in s.dur.committed && r !in s.dur.acked && r !in s.dur.async && r !in s.dur.waiting
  {
    var r := RecOf(s, t);
    assert TxnCoupled(s, t);
    assert r in s.dur.committed ==> RecordOk(s, r);
  }

  // ----- The clock, the flusher and the reaper ---------------------------------------------------------------------

  lemma ClosingGoesOn(s: State)
    requires Coupled(s) && !Blocked(s, Closing)
    ensures CanGoOn(s, Closing)
  {
    var c' := s.dur.clock.(now := s.dur.clock.now + 1);
    forall t | t in s.dur.clock.online ensures s.dur.clock.online[t] == s.dur.clock.now {
      assert s.dur.clock.online[t] < s.dur.clock.now ==> WaitsFor(s, Closing, Committer(t));
    }
    hide D.Inv;
    assert EpochSpec.Tick(s.dur.clock, c');
    assert D.Step(s.dur, D.DoTick, s.dur.(clock := c'));
    assert S.Step(s.silo, S.Tick, S.DoTick(s.silo));
    assert Step(s, Tick, s.(silo := S.DoTick(s.silo), dur := s.dur.(clock := c')));
  }

  lemma ReapingGoesOn(s: State, x: S.SlotId)
    requires SiloLocked(s) && x in s.silo.slots && s.silo.slots[x].owner == S.ByReaper
    ensures CanGoOn(s, Reaping)
  {
    SiloLocks.OwnerOkOf(s.silo, x);
    SiloLocks.TableOf(s.silo);
    hide SiloLocks.LockInv;
    if s.silo.reaper.Holding? {
      var b, silo' := S.ReaperAct(S.Restore), S.DoReapUnlock(s.silo);
      assert S.Step(s.silo, b, silo');
      assert b.ReaperAct? && Step(s, Local(b), s.(silo := silo'));
    } else {
      var b, silo' := S.ReaperAct(S.Retire), S.DoReapRetire(s.silo);
      assert S.Step(s.silo, b, silo');
      assert b.ReaperAct? && Step(s, Local(b), s.(silo := silo'));
    }
  }

  lemma TakesBackground(s: State, d: D.Action, dur': D.State)
    requires Flushes(d) && D.Step(s.dur, d, dur')
    ensures CanGoOn(s, Flushing)
  {
    hide D.Step;
    assert Flushes(d) && Step(s, Background(d), s.(dur := dur'));
  }

  lemma FlushingGoesOn(s: State)
    requires Coupled(s) && !Blocked(s, Flushing) && !s.dur.flusher.Halted?
    ensures CanGoOn(s, Flushing)
  {
    hide CanGoOn, D.GroupOf, D.Recs, D.Frontier, D.Above;
    var d := s.dur;
    match d.flusher
    case Idle =>
      assert d.pending <= d.durable ==> WaitsFor(s, Flushing, Closing);
      TakesBackground(s, D.DoWake, d.(flusher := D.Collecting(d.pending, d.durable, d.buffers.Keys)));
    case Collecting(target, before, todo) =>
      if t :| t in todo {
        DurabilityProgress.CollectsFromBuffers(d);
        TakesBackground(s, D.DoCollect(t),
                        d.(flusher := d.flusher.(todo := todo - {t}), buffers := d.buffers[t := {}],
                            carry := d.carry + d.buffers[t],
                           broken := d.broken || exists r :: r in d.buffers[t] && r.epoch <= before));
      } else {
        var group := DurabilityProgress.GroupUpTo(d.carry, target);
        DurabilityProgress.GroupUpToIsGroup(d.carry, target);
        WriteGoesOn(s, group);
      }
    case Writing(target, group) =>
      TakesBackground(s, D.DoSynced,
                      d.(device := d.device + group, carry := D.Above(d.carry, target),
                          flusher := D.Publishing(target)));
    case Publishing(target) =>
      TakesBackground(s, D.DoPublish, d.(durable := target, flusher := D.Idle,
                                               broken := d.broken || target < d.durable));
  }

  lemma WriteGoesOn(s: State, group: seq<D.Frame>)
    requires s.dur.flusher.Collecting? && s.dur.flusher.todo == {}
    requires D.GroupOf(s.dur.carry, s.dur.flusher.target, group)
    ensures CanGoOn(s, Flushing)
  {
    hide CanGoOn, D.GroupOf, D.Frontier;
    var d := s.dur;
    var broken := exists i :: 0 <= i < |group| && (group[i].epoch == 0 || group[i].epoch < D.Frontier(d.device));
    TakesBackground(s, D.DoWrite(group),
                    d.(flusher := D.Writing(d.flusher.target, group), broken := d.broken || broken));
  }

  // ----- No deadlock -------------------------------------------------------------------------------------------------

  lemma CommitterGoesOn(s: State, t: TxnId)
    requires SiloLocked(s) && Coupled(s) && !Blocked(s, Committer(t)) && t in s.silo.txns
    requires IsOnline(s, t) || exists x :: x in s.silo.slots && s.silo.slots[x].owner == S.ByTxn(t)
    ensures CanGoOn(s, Committer(t))
  {
    hide CanGoOn, SiloLocked, Coupled, Blocked;
    var phase := s.silo.txns[t].phase;
    if phase == S.Done || phase == S.Aborted {
      if !IsOnline(s, t) { FinishedOwnsNothing(s, t); }
      FinishedGoesOn(s, t);
    } else if phase == S.Resolving {
      IsOnlineEarly(s, t);
      ResolvingGoesOn(s, t);
    } else if phase == S.Aborting {
      AbortingGoesOn(s, t);
    } else if phase == S.Locking || phase == S.Checking {
      LockingGoesOn(s, t);
    } else {
      LateGoesOn(s, t);
    }
  }

  lemma IsOnlineEarly(s: State, t: TxnId)
    requires Coupled(s) && t in s.silo.txns && Early(s.silo.txns[t])
    ensures IsOnline(s, t)
  {
    hide D.Inv;
    assert TxnCoupled(s, t);
  }

  lemma FinishedOwnsNothing(s: State, t: TxnId)
    requires SiloLocked(s) && t in s.silo.txns && (s.silo.txns[t].phase == S.Done || s.silo.txns[t].phase == S.Aborted)
    ensures forall x :: x in s.silo.slots ==> s.silo.slots[x].owner != S.ByTxn(t)
  {
    hide SiloLocks.LockInv;
    forall x | x in s.silo.slots ensures s.silo.slots[x].owner != S.ByTxn(t) { SiloLocks.OwnerOkOf(s.silo, x); }
  }

  /** Whoever is waited for and waits for nobody can go on. */
  lemma WaitedForGoesOn(s: State, a: Party, c: Party)
    requires SiloLocked(s) && Coupled(s) && WaitsFor(s, a, c) && !Blocked(s, c)
    requires c == Flushing ==> !s.dur.flusher.Halted?
    ensures CanGoOn(s, c)
  {
    hide CanGoOn, SiloLocked, Coupled, Blocked;
    match c
    case Committer(t) =>
      WaitedForIsBusy(s, a, t);
      CommitterGoesOn(s, t);
    case Reaping =>
      var x := ReaperHolds(s, a);
      ReapingGoesOn(s, x);
    case Closing => ClosingGoesOn(s);
    case Flushing => FlushingGoesOn(s);
    case _ =>
  }

  lemma WaitedForIsBusy(s: State, a: Party, t: TxnId)
    requires SiloLocked(s) && Coupled(s) && WaitsFor(s, a, Committer(t))
    ensures t in s.silo.txns
    ensures IsOnline(s, t) || exists x :: x in s.silo.slots && s.silo.slots[x].owner == S.ByTxn(t)
  {
    hide SiloLocked, D.Inv;
    if a != Closing {
      var x :| HeldBy(s, x, Committer(t));
      HeldByTxn(s, x, t);
      OwnerIsBusy(s, x, t);
    }
  }

  lemma HeldByTxn(s: State, x: S.SlotId, t: TxnId)
    requires HeldBy(s, x, Committer(t))
    ensures x in s.silo.slots && s.silo.slots[x].owner == S.ByTxn(t)
  {
  }

  lemma HeldByReaper(s: State, x: S.SlotId)
    requires HeldBy(s, x, Reaping)
    ensures x in s.silo.slots && s.silo.slots[x].owner == S.ByReaper
  {
  }

  lemma ReaperHolds(s: State, a: Party) returns (x: S.SlotId)
    requires WaitsFor(s, a, Reaping)
    ensures x in s.silo.slots && s.silo.slots[x].owner == S.ByReaper
  {
    x :| HeldBy(s, x, Reaping);
    HeldByReaper(s, x);
  }

  /**
   * Deadlock freedom. In every reachable state, from any party that waits, following the waits
   * ends at a party that waits for nobody; and it can take a step without anybody giving up, or it
   * is the flusher of a log that has failed.
   */
  lemma SomebodyGoesOn(run: seq<State>, acts: seq<Action>, a: Party) returns (chain: seq<Party>)
    requires IsRun(run, acts) && Blocked(run[|acts|], a)
    ensures var s := run[|acts|];
            && |chain| >= 2 && chain[0] == a && Chain(s, chain)
            && var c := chain[|chain| - 1];
               !Blocked(s, c) && (CanGoOn(s, c) || (c == Flushing && s.dur.flusher.Halted?))
  {
    hide Step, Init, SiloLocked, Coupled, SiloSerial.Inv, CanGoOn, WaitsFor, Blocked;
    var s := run[|acts|];
    RunIsLocked(run, acts, |acts|);
    RunKeepsCoupled(run, acts, |acts|);
    chain := WaitsEnd(s, a);
    var n := |chain|;
    assert WaitsFor(s, chain[n - 2], chain[n - 1]);
    if !(chain[n - 1] == Flushing && s.dur.flusher.Halted?) { WaitedForGoesOn(s, chain[n - 2], chain[n - 1]); }
  }
}
