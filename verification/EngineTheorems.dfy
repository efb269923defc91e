/**
 * What holds of committers, reaper, clock and log together: nobody waits in a circle, over row
 * locks, epoch closure and durability at once; somebody a waiter depends on can always go on; and
 * whatever a crash leaves of the log is a serial prefix of the commits.
 */
module EngineTheorems {
  import opened Basics
  import S = SiloModel
  import D = Durability
  import SiloLocks
  import SiloSerial
  import SiloTheorems
  import SiloRecovery
  import opened Engine

  // ----- One wait-for relation ----------------------------------------------------------------------

  /** Whoever can wait or be waited for. */
  datatype Party = Committer(t: TxnId) | Reading(r: S.ReaderId) | Reaping | Closing | Flushing | Switching

  predicate HeldBy(s: State, x: S.SlotId, b: Party) {
    x in s.silo.slots &&
    match s.silo.slots[x].owner
    case Nobody => false
    case ByTxn(u) => b == Committer(u)
    case ByReaper => b == Reaping
  }

  /** A finished Sync commit whose epoch is not durable yet. */
  predicate Awaits(s: State, t: TxnId) {
    exists r :: r in s.dur.waiting && r.id == t && s.dur.durable < r.epoch
  }

  /** A stable reader spins on a locked word. */
  predicate ReaderSpins(s: State, r: S.ReaderId, x: S.SlotId) {
    r in s.silo.readers && s.silo.readers[r].sample.None? && s.silo.readers[r].slot == x
  }

  /**
   * The first party cannot go on before the second has: a committer or reader spins on a lock, a
   * finished commit awaits the durable epoch, the clock awaits threads online in an older epoch,
   * the idle flusher awaits the next closed epoch, and a policy switch awaits its fence and the
   * durable epoch.
   */
  ghost predicate WaitsFor(s: State, a: Party, b: Party) {
    match a
    case Committer(t) => (exists x :: SiloTheorems.SpinsOn(s.silo, t, x) && HeldBy(s, x, b))
      || (Awaits(s, t) && b == Flushing)
    case Reading(r) => exists x :: ReaderSpins(s, r, x) && HeldBy(s, x, b)
    case Reaping => false
    case Closing => b.Committer? && IsOnline(s, b.t) && s.dur.clock.online[b.t] < s.dur.clock.now
    case Flushing => s.dur.flusher == D.Idle && s.dur.pending <= s.dur.durable && b == Closing
    case Switching =>
      || (s.dur.switch.Cut? && s.dur.clock.now < s.dur.switch.cut + 2 && b == Closing)
      || (s.dur.switch.Fenced? && s.dur.durable < s.dur.switch.cut && b == Flushing)
  }

  ghost predicate Chain(s: State, chain: seq<Party>) {
    forall i :: 0 <= i < |chain| - 1 ==> WaitsFor(s, chain[i], chain[i + 1])
  }

  /** Where a party stands: whoever it waits for stands lower, or both hold or want locks. */
  function Level(s: State, a: Party): nat {
    match a
    case Committer(t) => if Awaits(s, t) then 4 else 1
    case Reading(_) => 5
    case Reaping => 0
    case Closing => 2
    case Flushing => 3
    case Switching => 5
  }

  predicate SiloLocked(s: State) {
    SiloLocks.LockInv(s.silo)
  }

  /** A lock owner has not finished, so it does not await durability. */
  lemma OwnerIsBusy(s: State, x: S.SlotId, u: TxnId)
    requires SiloLocked(s) && Coupled(s) && x in s.silo.slots && s.silo.slots[x].owner == S.ByTxn(u)
    ensures u in s.silo.txns && s.silo.txns[u].phase != S.Done && !Awaits(s, u)
  {
    hide Coupled, SiloLocks.LockInv;
    SiloLocks.OwnerOkOf(s.silo, x);
    NotWaiting(s, u);
  }

  lemma HolderLevel(s: State, x: S.SlotId, b: Party)
    requires SiloLocked(s) && Coupled(s) && HeldBy(s, x, b)
    ensures Level(s, b) <= 1 && (b.Committer? || b.Reaping?)
  {
    hide SiloLocked, Coupled;
    if b.Committer? { OwnerIsBusy(s, x, b.t); }
  }

  /** Along every wait the level falls, except from one lock to the next. */
  lemma WaitDescends(s: State, a: Party, b: Party)
    requires SiloLocked(s) && Coupled(s) && WaitsFor(s, a, b)
    ensures Level(s, b) < Level(s, a)
            || (a.Committer? && b.Committer? && Level(s, a) == Level(s, b) && SiloTheorems.WaitsFor(s.silo, a.t, b.t))
  {
    hide SiloLocked, Coupled;
    match a
    case Committer(t) =>
      if x :| SiloTheorems.SpinsOn(s.silo, t, x) && HeldBy(s, x, b) {
        HolderLevel(s, x, b);
        NotWaiting(s, t);
      }
    case Reading(r) =>
      var x :| ReaderSpins(s, r, x) && HeldBy(s, x, b);
      HolderLevel(s, x, b);
    case Closing => OnlineNotWaiting(s, b.t);
    case _ =>
  }

  lemma {:induction false} ChainDescends(s: State, chain: seq<Party>, i: nat, j: nat)
    requires SiloLocked(s) && Coupled(s) && Chain(s, chain) && i <= j < |chain|
    ensures Level(s, chain[j]) <= Level(s, chain[i])
    decreases j - i
  {
    hide SiloLocked, Coupled, WaitsFor, Level;
    if i < j {
      ChainDescends(s, chain, i, j - 1);
      WaitDescends(s, chain[j - 1], chain[j]);
    }
  }

  /** A wait of one committer for a lock of another. */
  ghost predicate LockWait(s: State, a: Party, b: Party) {
    a.Committer? && b.Committer? && SiloTheorems.WaitsFor(s.silo, a.t, b.t)
  }

  lemma CircleIsOfLocks(s: State, chain: seq<Party>)
    requires SiloLocked(s) && Coupled(s) && Chain(s, chain) && |chain| >= 2 && chain[0] == chain[|chain| - 1]
    ensures forall i :: 0 <= i < |chain| - 1 ==> LockWait(s, chain[i], chain[i + 1])
  {
    hide SiloLocked, Coupled, WaitsFor, Level, SiloTheorems.WaitsFor;
    forall i | 0 <= i < |chain| - 1 ensures LockWait(s, chain[i], chain[i + 1]) {
      ChainDescends(s, chain, 0, i);
      ChainDescends(s, chain, i + 1, |chain| - 1);
      assert WaitsFor(s, chain[i], chain[i + 1]);
      WaitDescends(s, chain[i], chain[i + 1]);
    }
  }

  lemma NoCircle(s: State, chain: seq<Party>)
    requires SiloLocked(s) && Coupled(s) && Chain(s, chain) && |chain| >= 2
    ensures chain[0] != chain[|chain| - 1]
  {
    hide Coupled, WaitsFor, SiloLocks.LockInv;
    if chain[0] == chain[|chain| - 1] {
      CircleIsOfLocks(s, chain);
      var ts := Txns(chain);
      forall i | 0 <= i < |ts| - 1 ensures SiloTheorems.WaitsFor(s.silo, ts[i], ts[i + 1]) {
        assert LockWait(s, chain[i], chain[i + 1]);
      }
      assert SiloTheorems.WaitChain(s.silo, ts);
      assert SiloTheorems.WaitsFor(s.silo, ts[0], ts[1]);
      var x :| SiloTheorems.SpinsOn(s.silo, ts[0], x) && s.silo.slots[x].owner == S.ByTxn(ts[1]);
      SiloTheorems.WaitChainAscends(s.silo, ts, x, x);
    }
  }

  function Txns(chain: seq<Party>): (ts: seq<TxnId>)
    ensures |ts| == |chain| && forall i :: 0 <= i < |chain| && chain[i].Committer? ==> ts[i] == chain[i].t
  {
    seq(|chain|, i requires 0 <= i < |chain| => if chain[i].Committer? then chain[i].t else 0)
  }

  lemma RunIsLocked(run: seq<State>, acts: seq<Action>, n: nat)
    requires IsRun(run, acts) && n <= |acts|
    ensures SiloLocked(run[n]) && SiloSerial.Inv(run[n].silo)
  {
    hide Step, Init, S.Step, S.Init, SiloLocks.LockInv;
    var r, b := SiloRun(run, acts, n);
    SiloSerial.RunKeepsInv(r, b, |b|);
  }

  /**
   * In no reachable state do committers, readers, the reaper, the clock, the flusher and a policy
   * switch wait for each other in a circle, over row locks, epoch closure and durability at once.
   */
  lemma NoWaitCycle(run: seq<State>, acts: seq<Action>, chain: seq<Party>)
    requires IsRun(run, acts) && |chain| >= 2 && Chain(run[|acts|], chain)
    ensures chain[0] != chain[|chain| - 1]
  {
    hide Step, Init, SiloLocked, Coupled, Chain, SiloSerial.Inv;
    RunIsLocked(run, acts, |acts|);
    RunKeepsCoupled(run, acts, |acts|);
    NoCircle(run[|acts|], chain);
  }

  // ----- What a crash leaves ----------------------------------------------------------------------------

  /** The last epoch on the device when the process stops with n frames of the group written. */
  function CrashFrontier(s: State, n: nat): nat
    requires n <= |D.InFlight(s.dur)|
  {
    D.Frontier(s.dur.device + D.InFlight(s.dur)[..n])
  }

  lemma FrontierIsClosed(d: D.State, n: nat)
    requires D.Inv(d) && n <= |D.InFlight(d)|
    ensures forall t :: t in d.clock.online ==> d.clock.online[t] > D.Frontier(d.device + D.InFlight(d)[..n])
  {
    var group := D.InFlight(d);
    if n == 0 {
      assert d.device + group[..0] == d.device;
    } else {
      assert (d.device + group[..n])[|d.device| + n - 1] == group[n - 1];
    }
  }

  /** Nobody past its point is still online at or below the frontier a crash leaves. */
  lemma CrashIsClosed(s: State, n: nat)
    requires Coupled(s) && n <= |D.InFlight(s.dur)|
    ensures SiloRecovery.Closed(s.silo, CrashFrontier(s, n))
  {
    hide D.Inv;
    FrontierIsClosed(s.dur, n);
    forall t | t in s.silo.txns && S.Committed(s.silo.txns[t]) && s.silo.txns[t].epoch <= CrashFrontier(s, n)
      ensures s.silo.txns[t].phase == S.Done
    {
      assert TxnCoupled(s, t);
    }
  }

  /** The record of a commit that wrote is on the device exactly when its epoch is. */
  lemma CrashKeepsRecord(s: State, n: nat, t: TxnId)
    requires Coupled(s) && n <= |D.InFlight(s.dur)|
    requires t in s.silo.txns && S.Committed(s.silo.txns[t]) && s.silo.txns[t].writeSet != []
    ensures RecOf(s, t) in D.Recs(s.dur.device + D.InFlight(s.dur)[..n]) <==>
            s.silo.txns[t].epoch <= CrashFrontier(s, n)
  {
    hide D.Inv, D.Recs, D.Frontier;
    D.CrashIsExact(s.dur, n);
    FrontierIsClosed(s.dur, n);
    assert TxnCoupled(s, t);
  }

  /**
   * Whenever the process stops and whatever leading frames of the group reach the device, the
   * recovered commits are exactly those of the epochs up to the last frame; they are a prefix of
   * the serial order; replaying them gives what running that prefix gives; and whatever one of
   * them found present was a starting row or written by an earlier one of them.
   */
  lemma CrashLeavesSerialPrefix(run: seq<State>, acts: seq<Action>, n: nat)
    requires IsRun(run, acts) && n <= |D.InFlight(run[|acts|].dur)|
    ensures var s := run[|acts|];
            var f := CrashFrontier(s, n);
            && SiloSerial.PosOk(s.silo)
            && (forall t :: t in s.silo.txns && S.Committed(s.silo.txns[t]) && s.silo.txns[t].writeSet != [] ==>
                  (RecOf(s, t) in D.Recs(s.dur.device + D.InFlight(s.dur)[..n]) <==> s.silo.txns[t].epoch <= f))
            && (forall t | t in s.silo.txns && S.Committed(s.silo.txns[t]) && s.silo.txns[t].writeSet != [] ::
                  s.silo.txns[t].epoch <= s.dur.durable ==> s.silo.txns[t].epoch <= f)
            && (forall t :: t in s.silo.txns && s.silo.txns[t].pos >= 0 ==>
                  (s.silo.txns[t].epoch <= f <==>
                     s.silo.txns[t].pos < SiloRecovery.PointsUpTo(s.silo, f, |s.silo.points|)))
            && (forall k :: SiloRecovery.Replay(S.Hist(s.silo, k), f)
                            == SiloSerial.Serial(s.silo, SiloRecovery.PointsUpTo(s.silo, f, |s.silo.points|), k))
            && (forall t, i | t in s.silo.txns && S.Committed(s.silo.txns[t]) && s.silo.txns[t].epoch <= f
                              && 0 <= i < |s.silo.txns[t].readSet| && s.silo.txns[t].readSet[i].found ::
                  SiloRecovery.ReadFromPrefix(s.silo, t, i, f))
  {
    hide Step, Init, S.Step, S.Init, Coupled, SiloRecovery.Closed, SiloRecovery.ReadFromPrefix, D.Recs;
    var s := run[|acts|];
    var f := CrashFrontier(s, n);
    RunKeepsCoupled(run, acts, |acts|);
    CrashIsClosed(s, n);
    var r, b := SiloRun(run, acts, |acts|);
    SiloRecovery.RecoveredStateIsSerialPrefix(r, b, f);
    forall t | t in s.silo.txns && S.Committed(s.silo.txns[t]) && s.silo.txns[t].writeSet != []
      ensures RecOf(s, t) in D.Recs(s.dur.device + D.InFlight(s.dur)[..n]) <==> s.silo.txns[t].epoch <= f
    {
      CrashKeepsRecord(s, n, t);
    }
    forall t | t in s.silo.txns && S.Committed(s.silo.txns[t]) && s.silo.txns[t].writeSet != []
               && s.silo.txns[t].epoch <= s.dur.durable
      ensures s.silo.txns[t].epoch <= f
    {
      DurableSurvives(s, n, t);
    }
  }

  /** What was reported durable survives. */
  lemma DurableSurvives(s: State, n: nat, t: TxnId)
    requires Coupled(s) && n <= |D.InFlight(s.dur)|
    requires t in s.silo.txns && S.Committed(s.silo.txns[t]) && s.silo.txns[t].writeSet != []
    requires s.silo.txns[t].epoch <= s.dur.durable
    ensures s.silo.txns[t].epoch <= CrashFrontier(s, n)
  {
    hide D.Recs, D.Frontier;
    assert TxnCoupled(s, t);
    D.DurableIsOnDevice(s.dur, RecOf(s, t));
    D.CrashIsExact(s.dur, n);
  }
}
