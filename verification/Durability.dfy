/**
 * Epochs, group flushes, Sync acknowledgements, the runtime switch of the commit policy, crashes
 * and restarts as one step machine. The device holds whole frames; what a torn write leaves is
 * the business of the log scan.
 */
module Durability {
  import opened Basics
  import opened EpochSpec

  /** The log record of one commit, with an auxiliary identity. */
  datatype Rec = Rec(id: nat, epoch: nat)

  datatype Frame = Frame(epoch: nat, recs: set<Rec>)

  datatype Policy = Sync | Async

  /** What an online thread has done since it joined. */
  datatype Work = Joined | Enqueued(r: Rec) | Captured(r: Rec, awaits: bool)

  datatype Flusher = Idle
                   | Collecting(target: nat, before: nat, todo: set<Thread>)
                   | Writing(target: nat, group: seq<Frame>)
                   | Publishing(target: nat)
                   | Halted(target: nat, group: seq<Frame>)

  /** The one switch to Sync in progress: policy stored, cut taken, epoch fence passed. */
  datatype Switch = NoSwitch | Stored | Cut(cut: nat) | Fenced(cut: nat)

  datatype State = State(
    clock: Clock,
    work: map<Thread, Work>,
    buffers: map<Thread, set<Rec>>,
    carry: set<Rec>,
    policy: Policy,
    pending: nat,
    durable: nat,
    flusher: Flusher,
    device: seq<Frame>,
    switch: Switch,
    waiting: set<Rec>,       // Sync commits that left their epoch
    acked: set<Rec>,         // Sync commits that were acknowledged
    async: set<Rec>,         // commits that captured Async
    committed: set<Rec>,     // auxiliary: enqueued and not lost to a crash
    broken: bool)            // a fail-stop check of the flusher fired

  // ----- Frames -----------------------------------------------------------------------------

  function Recs(fs: seq<Frame>): set<Rec> {
    if fs == [] then {} else Recs(fs[..|fs| - 1]) + fs[|fs| - 1].recs
  }

  function Frontier(fs: seq<Frame>): nat {
    if fs == [] then 0 else fs[|fs| - 1].epoch
  }

  /** Each frame holds the records of its epoch, and epochs do not step back. */
  predicate Sorted(fs: seq<Frame>) {
    && (forall i, j :: 0 <= i < j < |fs| ==> fs[i].epoch <= fs[j].epoch)
    && (forall i :: 0 <= i < |fs| ==> fs[i].epoch > 0 && forall r :: r in fs[i].recs ==> r.epoch == fs[i].epoch)
  }

  /** One frame per epoch at or below the target, ascending, holding every record of its epoch. */
  predicate GroupOf(carry: set<Rec>, target: nat, group: seq<Frame>) {
    && (forall i, j :: 0 <= i < j < |group| ==> group[i].epoch < group[j].epoch)
    && (forall i :: 0 <= i < |group| ==>
          group[i].epoch <= target && group[i].recs != {} && group[i].recs == EpochRecs(carry, group[i].epoch))
    && (forall r :: r in carry && r.epoch <= target ==> exists i :: 0 <= i < |group| && group[i].epoch == r.epoch)
  }

  function EpochRecs(carry: set<Rec>, epoch: nat): set<Rec> {
    set r | r in carry && r.epoch == epoch
  }

  function Above(rs: set<Rec>, target: nat): set<Rec> {
    set r | r in rs && r.epoch > target
  }

  lemma {:induction false} RecsIn(fs: seq<Frame>, r: Rec)
    ensures r in Recs(fs) <==> exists i :: 0 <= i < |fs| && r in fs[i].recs
  {
    if fs != [] { RecsIn(fs[..|fs| - 1], r); }
  }

  lemma {:induction false} RecsConcat(fs: seq<Frame>, gs: seq<Frame>)
    ensures Recs(fs + gs) == Recs(fs) + Recs(gs)
  {
    if gs == [] {
      assert fs + gs == fs;
    } else {
      RecsConcat(fs, gs[..|gs| - 1]);
      assert (fs + gs)[..|fs + gs| - 1] == fs + gs[..|gs| - 1];
    }
  }

  // ----- Steps ------------------------------------------------------------------------------

  datatype Action =
    | DoJoin(t: Thread) | DoEnqueue(t: Thread, r: Rec) | DoCapture(t: Thread) | DoLeave(t: Thread) | DoAck(r: Rec)
    | DoTick | DoSchedule(closed: nat)
    | DoWake | DoCollect(t: Thread) | DoWrite(group: seq<Frame>) | DoSynced | DoPublish | DoFail
    | DoStore(mode: Policy) | DoCut | DoFence | DoSwitched | DoGiveUp
    | DoCrash(n: nat, mode: Policy)

  predicate StepJoin(s: State, t: Thread, s': State) {
    Join(s.clock, t, s'.clock) && s' == s.(clock := s'.clock, work := s.work[t := Joined])
  }

  function BufferOf(s: State, t: Thread): set<Rec> {
    if t in s.buffers then s.buffers[t] else {}
  }

  /** The record carries the epoch the thread is online at. */
  predicate StepEnqueue(s: State, t: Thread, r: Rec, s': State) {
    && t in s.work && s.work[t] == Joined && t in s.clock.online
    && r.epoch == s.clock.online[t] && r !in s.committed && r !in s.acked && r !in s.async && r !in s.waiting
    && s' == s.(work := s.work[t := Enqueued(r)], buffers := s.buffers[t := BufferOf(s, t) + {r}],
                committed := s.committed + {r})
  }

  /** The policy is captured once, while still online. */
  predicate StepCapture(s: State, t: Thread, s': State) {
    && t in s.work && s.work[t].Enqueued?
    && var r := s.work[t].r;
       s' == s.(work := s.work[t := Captured(r, s.policy == Sync)],
                async := if s.policy == Async then s.async + {r} else s.async)
  }

  predicate StepLeave(s: State, t: Thread, s': State) {
    && t in s.work && !s.work[t].Enqueued? && Leave(s.clock, t, s'.clock)
    && s' == s.(clock := s'.clock, work := s.work - {t},
                waiting := if s.work[t].Captured? && s.work[t].awaits then s.waiting + {s.work[t].r} else s.waiting)
  }

  predicate StepAck(s: State, r: Rec, s': State) {
    r in s.waiting && s.durable >= r.epoch && s' == s.(waiting := s.waiting - {r}, acked := s.acked + {r})
  }

  predicate StepTick(s: State, s': State) {
    Tick(s.clock, s'.clock) && s' == s.(clock := s'.clock)
  }

  /** The epoch hook: after a tick to U, epoch U - 2 is handed to the flusher. */
  predicate StepSchedule(s: State, closed: nat, s': State) {
    closed >= 1 && closed + 2 <= s.clock.now && s' == s.(pending := Max(s.pending, closed))
  }

  predicate StepWake(s: State, s': State) {
    s.flusher == Idle && s.pending > s.durable && s' == s.(flusher := Collecting(s.pending, s.durable, s.buffers.Keys))
  }

  /** Take one thread's buffer; a record at or below the durable epoch stops the process. */
  predicate StepCollect(s: State, t: Thread, s': State) {
    && s.flusher.Collecting? && t in s.buffers
    && s' == s.(flusher := s.flusher.(todo := s.flusher.todo - {t}),
                buffers := s.buffers[t := {}], carry := s.carry + s.buffers[t],
                broken := s.broken || exists r :: r in s.buffers[t] && r.epoch <= s.flusher.before)
  }

  /** Encode the due buckets; one the log would refuse stops the process. */
  predicate StepWrite(s: State, group: seq<Frame>, s': State) {
    && s.flusher.Collecting? && s.flusher.todo == {} && GroupOf(s.carry, s.flusher.target, group)
    && s' == s.(flusher := Writing(s.flusher.target, group),
                broken := s.broken
                  || exists i :: 0 <= i < |group| && (group[i].epoch == 0 || group[i].epoch < Frontier(s.device)))
  }

  predicate StepSynced(s: State, s': State) {
    && s.flusher.Writing?
    && s' == s.(device := s.device + s.flusher.group, carry := Above(s.carry, s.flusher.target),
                flusher := Publishing(s.flusher.target))
  }

  /** Publishing a lower epoch than before stops the process. */
  predicate StepPublish(s: State, s': State) {
    && s.flusher.Publishing?
    && s' == s.(durable := s.flusher.target, flusher := Idle, broken := s.broken || s.flusher.target < s.durable)
  }

  predicate StepFail(s: State, s': State) {
    s.flusher.Writing? && s' == s.(flusher := Halted(s.flusher.target, s.flusher.group))
  }

  predicate StepStore(s: State, mode: Policy, s': State) {
    s.switch == NoSwitch && s' == s.(policy := mode, switch := if mode == Sync then Stored else NoSwitch)
  }

  predicate StepCut(s: State, s': State) {
    s.switch == Stored && s' == s.(switch := Cut(s.clock.now))
  }

  predicate StepFence(s: State, s': State) {
    s.switch.Cut? && s.clock.now >= s.switch.cut + 2 && s' == s.(switch := Fenced(s.switch.cut))
  }

  /** The switch returns true. */
  predicate StepSwitched(s: State, s': State) {
    s.switch.Fenced? && s.durable >= s.switch.cut && s' == s.(switch := NoSwitch)
  }

  predicate StepGiveUp(s: State, s': State) {
    s.switch != NoSwitch && s' == s.(switch := NoSwitch)
  }

  /** The frames being written when the process stops. */
  function InFlight(s: State): seq<Frame> {
    if s.flusher.Writing? || s.flusher.Halted? then s.flusher.group else []
  }

  /** Strictly above the recovered frontier, and above epoch 1. */
  function ResumeEpochAbove(frontier: nat): nat {
    Max(1, frontier) + 1
  }

  /** A crash keeps some leading frames of the group in flight; the restart scans and resumes. */
  predicate StepCrash(s: State, n: nat, mode: Policy, s': State) {
    && n <= |InFlight(s)|
    && var device := s.device + InFlight(s)[..n];
       s' == State(Clock(ResumeEpochAbove(Frontier(device)), map[]), map[], map[], {}, mode, 0, Frontier(device), Idle,
                   device, NoSwitch, {}, s.acked, s.async * Recs(device), Recs(device), s.broken)
  }

  predicate Step(s: State, a: Action, s': State) {
    match a
    case DoJoin(t) => StepJoin(s, t, s')
    case DoEnqueue(t, r) => StepEnqueue(s, t, r, s')
    case DoCapture(t) => StepCapture(s, t, s')
    case DoLeave(t) => StepLeave(s, t, s')
    case DoAck(r) => StepAck(s, r, s')
    case DoTick => StepTick(s, s')
    case DoSchedule(closed) => StepSchedule(s, closed, s')
    case DoWake => StepWake(s, s')
    case DoCollect(t) => StepCollect(s, t, s')
    case DoWrite(group) => StepWrite(s, group, s')
    case DoSynced => StepSynced(s, s')
    case DoPublish => StepPublish(s, s')
    case DoFail => StepFail(s, s')
    case DoStore(mode) => StepStore(s, mode, s')
    case DoCut => StepCut(s, s')
    case DoFence => StepFence(s, s')
    case DoSwitched => StepSwitched(s, s')
    case DoGiveUp => StepGiveUp(s, s')
    case DoCrash(n, mode) => StepCrash(s, n, mode, s')
  }

  /** A fresh database: an empty log, the clock at 1 or resumed above it. */
  predicate Init(s: State) {
    && s.clock.online == map[] && s.clock.now >= 1 && s.work == map[] && s.buffers == map[] && s.carry == {}
    && s.pending == 0 && s.durable == 0 && s.flusher == Idle && s.device == [] && s.switch == NoSwitch
    && s.waiting == {} && s.acked == {} && s.async == {} && s.committed == {} && !s.broken
  }

  predicate IsRun(run: seq<State>, acts: seq<Action>) {
    |run| == |acts| + 1 && Init(run[0]) && forall i :: 0 <= i < |acts| ==> Step(run[i], acts[i], run[i + 1])
  }

  // ----- Invariant --------------------------------------------------------------------------

  /** No online thread can still produce a record for an epoch handed to the flusher. */
  predicate ClockOk(s: State) {
    && Bounded(s.clock) && s.work.Keys == s.clock.online.Keys
    && (s.pending == 0 || s.pending + 2 <= s.clock.now) && s.durable < s.clock.now && s.clock.now >= 1
    && (forall t :: t in s.clock.online ==> s.clock.online[t] > s.durable && s.clock.online[t] > s.pending)
  }

  /** Records the flusher has not yet seen, given how far its pass has got. */
  predicate BuffersOk(s: State) {
    forall t, r :: t in s.buffers && r in s.buffers[t] ==>
      && r in s.committed && r.epoch > s.durable
      && (s.flusher.Collecting? && t !in s.flusher.todo ==> r.epoch > s.flusher.target)
      && (s.flusher.Writing? || s.flusher.Publishing? || s.flusher.Halted? ==> r.epoch > s.flusher.target)
  }

  predicate FlusherOk(s: State) {
    && (forall r :: r in s.carry ==> r in s.committed && r.epoch > s.durable)
    && match s.flusher
       case Idle => true
       case Collecting(target, before, todo) => before == s.durable && s.durable < target <= s.pending
         && todo <= s.buffers.Keys
       case Writing(target, group) => s.durable < target <= s.pending && GroupOf(s.carry, target, group)
       case Halted(target, group) => s.durable < target <= s.pending && GroupOf(s.carry, target, group)
       case Publishing(target) => s.durable < target <= s.pending && forall r :: r in s.carry ==> r.epoch > target
  }

  /** How far the frames on the device may reach. */
  function Limit(s: State): nat {
    if s.flusher.Publishing? then s.flusher.target else s.durable
  }

  predicate DeviceOk(s: State) {
    && Sorted(s.device) && Frontier(s.device) <= Limit(s)
    && (forall r :: r in Recs(s.device) ==> r in s.committed)
  }

  /** Every commit is on the device, carried, or still buffered. */
  predicate Accounted(s: State) {
    forall r :: r in s.committed ==>
      r in Recs(s.device) || r in s.carry || exists t :: t in s.buffers && r in s.buffers[t]
  }

  predicate PromisesOk(s: State) {
    && s.acked <= Recs(s.device) && s.waiting <= s.committed && s.async <= s.committed
    && (forall r :: r in s.committed ==> r.epoch <= s.clock.now)
    && (forall t :: t in s.work && !s.work[t].Joined? ==> s.work[t].r in s.committed)
  }

  /** From the store to the return, nobody captures Async, and the cut bounds who did. */
  predicate SwitchOk(s: State) {
    && (s.switch != NoSwitch ==> s.policy == Sync)
    && (s.switch.Cut? || s.switch.Fenced? ==> forall r :: r in s.async ==> r.epoch <= s.switch.cut)
  }

  predicate Inv(s: State) {
    ClockOk(s) && BuffersOk(s) && FlusherOk(s) && DeviceOk(s) && Accounted(s) && PromisesOk(s) && SwitchOk(s)
        && !s.broken
  }

  /** What is at or below the durable epoch is on the device. */
  lemma DurableIsOnDevice(s: State, r: Rec)
    requires Inv(s) && r in s.committed && r.epoch <= Limit(s)
    ensures r in Recs(s.device)
  {
  }

  lemma StepKeepsInv(s: State, a: Action, s': State)
    requires Inv(s) && Step(s, a, s')
    ensures Inv(s')
  {
    hide Inv, StepJoin, StepEnqueue, StepCapture, StepLeave, StepAck, StepTick, StepSchedule, StepWake, StepCollect,
         StepWrite, StepSynced, StepPublish, StepFail, StepStore, StepCut, StepFence, StepSwitched, StepGiveUp,
         StepCrash;
    match a
    case DoJoin(t) => ThreadKeeps(s, t, s');
    case DoCapture(t) => ThreadKeeps(s, t, s');
    case DoLeave(t) => ThreadKeeps(s, t, s');
    case DoEnqueue(t, r) => EnqueueKeeps(s, t, r, s');
    case DoAck(r) => AckKeeps(s, r, s');
    case DoTick => ClockKeeps(s, 0, s');
    case DoSchedule(closed) => ClockKeeps(s, closed, s');
    case DoWake => WakeKeeps(s, s');
    case DoCollect(t) => CollectKeeps(s, t, s');
    case DoWrite(group) => WriteKeeps(s, group, s');
    case DoSynced => SyncedKeeps(s, s');
    case DoPublish => PublishKeeps(s, s');
    case DoFail => WakeKeeps(s, s');
    case DoCrash(n, mode) => CrashKeeps(s, n, mode, s');
    case DoStore(mode) => SwitchKeeps(s, mode, s');
    case _ => SwitchKeeps(s, Sync, s');
  }

  lemma ThreadKeeps(s: State, t: Thread, s': State)
    requires Inv(s) && (StepJoin(s, t, s') || StepCapture(s, t, s') || StepLeave(s, t, s'))
    ensures Inv(s')
  {
    hide Recs, GroupOf, Sorted;
    SameStores(s, s');
  }

  /** Steps that touch neither buffers, carry, flusher nor device keep what is said about them. */
  lemma SameStores(s: State, s': State)
    requires Inv(s)
    requires s'.buffers == s.buffers && s'.carry == s.carry && s'.device == s.device && s'.committed == s.committed
    requires s'.flusher == s.flusher && s'.durable == s.durable && s'.pending >= s.pending
    ensures BuffersOk(s') && FlusherOk(s') && DeviceOk(s') && Accounted(s')
  {
    hide Recs, GroupOf, Sorted;
  }

  lemma AckKeeps(s: State, r: Rec, s': State)
    requires Inv(s) && StepAck(s, r, s')
    ensures Inv(s')
  {
    hide Recs, GroupOf, Sorted;
    SameStores(s, s');
    DurableIsOnDevice(s, r);
  }

  lemma ClockKeeps(s: State, closed: nat, s': State)
    requires Inv(s) && (StepTick(s, s') || StepSchedule(s, closed, s'))
    ensures Inv(s')
  {
    hide Recs, GroupOf, Sorted;
    SameStores(s, s');
  }

  lemma SwitchKeeps(s: State, mode: Policy, s': State)
    requires Inv(s)
    requires StepStore(s, mode, s') || StepCut(s, s') || StepFence(s, s') || StepSwitched(s, s') || StepGiveUp(s, s')
    ensures Inv(s')
  {
    hide Recs, GroupOf, Sorted;
    SameStores(s, s');
  }

  lemma WakeKeeps(s: State, s': State)
    requires Inv(s) && (StepWake(s, s') || StepFail(s, s'))
    ensures Inv(s')
  {
    hide Recs, GroupOf, Sorted;
  }

  lemma WriteKeeps(s: State, group: seq<Frame>, s': State)
    requires Inv(s) && StepWrite(s, group, s')
    ensures Inv(s')
  {
    GroupSorted(s, group, s.flusher.target, 0);
  }

  lemma PublishKeeps(s: State, s': State)
    requires Inv(s) && StepPublish(s, s')
    ensures Inv(s')
  {
    hide Recs, GroupOf, Sorted;
  }

  lemma EnqueueKeeps(s: State, t: Thread, r: Rec, s': State)
    requires Inv(s) && StepEnqueue(s, t, r, s')
    ensures Inv(s')
  {
    hide Recs, GroupOf, Sorted, Frontier;
    forall q | q in s'.committed
      ensures q in Recs(s'.device) || q in s'.carry || exists u :: u in s'.buffers && q in s'.buffers[u]
    {
      if q == r {
        assert t in s'.buffers && r in s'.buffers[t];
      } else if q !in Recs(s.device) && q !in s.carry {
        var u :| u in s.buffers && q in s.buffers[u];
        assert u in s'.buffers && q in s'.buffers[u];
      }
    }
  }

  lemma CollectKeeps(s: State, t: Thread, s': State)
    requires Inv(s) && StepCollect(s, t, s')
    ensures Inv(s')
  {
    hide Recs, GroupOf, Sorted, Frontier;
    forall q | q in s'.committed
      ensures q in Recs(s'.device) || q in s'.carry || exists u :: u in s'.buffers && q in s'.buffers[u]
    {
      if q !in Recs(s.device) && q !in s'.carry {
        var u :| u in s.buffers && q in s.buffers[u];
        assert u in s'.buffers && q in s'.buffers[u];
      }
    }
  }

  /** The group holds exactly the carried records at or below its target. */
  lemma GroupRecs(carry: set<Rec>, target: nat, group: seq<Frame>, r: Rec)
    requires GroupOf(carry, target, group)
    ensures r in Recs(group) <==> r in carry && r.epoch <= target
  {
    RecsIn(group, r);
    if r in carry && r.epoch <= target {
      var i :| 0 <= i < |group| && group[i].epoch == r.epoch;
      assert r in group[i].recs;
    }
  }

  lemma GroupSorted(s: State, group: seq<Frame>, target: nat, n: nat)
    requires Sorted(s.device) && Frontier(s.device) <= s.durable && n <= |group|
    requires GroupOf(s.carry, target, group) && forall r :: r in s.carry ==> r.epoch > s.durable
    ensures Sorted(s.device + group[..n]) && Frontier(s.device + group[..n]) <= Max(s.durable, target)
    ensures forall i :: 0 <= i < |group| ==> group[i].epoch > s.durable
  {
    forall i | 0 <= i < |group| ensures group[i].epoch > s.durable {
      assert group[i].recs != {};
      var r :| r in group[i].recs;
      assert r in s.carry;
    }
    var fs := s.device + group[..n];
    forall i, j | 0 <= i < j < |fs| ensures fs[i].epoch <= fs[j].epoch {
      if i < |s.device| { assert fs[i].epoch <= Frontier(s.device); }
    }
  }

  lemma SyncedDevice(s: State, target: nat, group: seq<Frame>)
    requires Sorted(s.device) && Frontier(s.device) <= s.durable < target && GroupOf(s.carry, target, group)
    requires forall r :: r in s.carry ==> r.epoch > s.durable
    ensures Sorted(s.device + group) && Frontier(s.device + group) <= target
    ensures forall r :: r in Recs(s.device + group) <==> r in Recs(s.device) || (r in s.carry && r.epoch <= target)
  {
    hide Recs;
    assert group[..|group|] == group;
    GroupSorted(s, group, target, |group|);
    RecsConcat(s.device, group);
    forall r ensures r in Recs(group) <==> r in s.carry && r.epoch <= target { GroupRecs(s.carry, target, group, r); }
  }

  lemma SyncedKeeps(s: State, s': State)
    requires Inv(s) && StepSynced(s, s')
    ensures Inv(s')
  {
    hide Recs, GroupOf, Sorted, Frontier;
    SyncedDevice(s, s.flusher.target, s.flusher.group);
  }

  /** The frames that survive a crash hold exactly the commits at or below the last of them. */
  lemma CrashIsExact(s: State, n: nat)
    requires Inv(s) && n <= |InFlight(s)|
    ensures var device := s.device + InFlight(s)[..n];
            && Sorted(device) && Recs(s.device) <= Recs(device)
            && forall r :: r in Recs(device) <==> r in s.committed && r.epoch <= Frontier(device)
  {
    hide Recs, GroupOf, Sorted;
    var group := InFlight(s);
    var device := s.device + group[..n];
    RecsConcat(s.device, group[..n]);
    if n == 0 {
      assert device == s.device;
      forall r ensures r in Recs(device) <==> r in s.committed && r.epoch <= Frontier(device) {
        OnSorted(device, r);
        if r in s.committed && r.epoch <= Frontier(device) { DurableIsOnDevice(s, r); }
      }
    } else {
      GroupSorted(s, group, s.flusher.target, n);
      forall r ensures r in Recs(device) <==> r in s.committed && r.epoch <= Frontier(device) {
        CrashMember(s, s.flusher.target, group, n, r);
      }
    }
  }

  lemma OnSorted(fs: seq<Frame>, r: Rec)
    requires Sorted(fs)
    ensures r in Recs(fs) ==> r.epoch <= Frontier(fs)
  {
    RecsIn(fs, r);
  }

  lemma CrashMember(s: State, target: nat, group: seq<Frame>, n: nat, r: Rec)
    requires GroupOf(s.carry, target, group) && 0 < n <= |group| && Sorted(s.device + group[..n])
    requires r in s.committed ==> r in Recs(s.device) || r in s.carry || r.epoch > target
    requires r in Recs(s.device) || r in s.carry ==> r in s.committed
    ensures r in Recs(s.device + group[..n]) <==> r in s.committed && r.epoch <= Frontier(s.device + group[..n])
  {
    hide Recs;
    var device := s.device + group[..n];
    RecsConcat(s.device, group[..n]);
    RecsIn(device, r);
    RecsIn(group[..n], r);
    if r in Recs(group[..n]) {
      var i :| 0 <= i < n && r in group[..n][i].recs;
      assert r in group[i].recs;
    }
    if r in s.carry && r.epoch <= group[n - 1].epoch {
      var i :| 0 <= i < |group| && group[i].epoch == r.epoch;
      assert i < n && r in group[..n][i].recs;
    }
  }

  lemma CrashKeeps(s: State, n: nat, mode: Policy, s': State)
    requires Inv(s) && StepCrash(s, n, mode, s')
    ensures Inv(s')
  {
    CrashIsExact(s, n);
  }

  lemma {:induction false} RunKeepsInv(run: seq<State>, acts: seq<Action>, n: nat)
    requires IsRun(run, acts) && n <= |acts|
    ensures Inv(run[n])
  {
    hide Step;
    if n == 0 {
    } else {
      RunKeepsInv(run, acts, n - 1);
      StepKeepsInv(run[n - 1], acts[n - 1], run[n]);
    }
  }

  // ----- Theorems ---------------------------------------------------------------------------

  /** Acknowledgements and the device only grow, through crashes too. */
  lemma StepGrows(s: State, a: Action, s': State)
    requires Inv(s) && Step(s, a, s')
    ensures s.acked <= s'.acked && Recs(s.device) <= Recs(s'.device)
  {
    hide Inv, StepEnqueue, StepCollect, StepWrite;
    match a
    case DoSynced => RecsConcat(s.device, s.flusher.group);
    case DoCrash(n, mode) => RecsConcat(s.device, InFlight(s)[..n]);
    case DoEnqueue(t, r) => assert s'.acked == s.acked && s'.device == s.device by { EnqueueFrame(s, t, r, s'); }
    case DoCollect(t) => assert s'.acked == s.acked && s'.device == s.device by { CollectFrame(s, t, s'); }
    case DoWrite(group) => assert s'.acked == s.acked && s'.device == s.device by { WriteFrame(s, group, s'); }
    case _ =>
  }

  lemma EnqueueFrame(s: State, t: Thread, r: Rec, s': State)
    requires StepEnqueue(s, t, r, s')
    ensures s'.acked == s.acked && s'.device == s.device
  {
  }

  lemma CollectFrame(s: State, t: Thread, s': State)
    requires StepCollect(s, t, s')
    ensures s'.acked == s.acked && s'.device == s.device
  {
  }

  lemma WriteFrame(s: State, group: seq<Frame>, s': State)
    requires StepWrite(s, group, s')
    ensures s'.acked == s.acked && s'.device == s.device
  {
  }

  lemma {:induction false} RunGrows(run: seq<State>, acts: seq<Action>, i: nat, j: nat)
    requires IsRun(run, acts) && i <= j <= |acts|
    ensures run[i].acked <= run[j].acked && Recs(run[i].device) <= Recs(run[j].device)
  {
    hide Step, Inv, Recs;
    if i < j {
      RunGrows(run, acts, i, j - 1);
      RunKeepsInv(run, acts, j - 1);
      StepGrows(run[j - 1], acts[j - 1], run[j]);
    }
  }

  /**
   * A Sync commit, once acknowledged, is on the device in every later state of the run, whatever
   * crashes and restarts lie between.
   */
  lemma AcknowledgedIsForever(run: seq<State>, acts: seq<Action>, i: nat, j: nat)
    requires IsRun(run, acts) && i <= j <= |acts|
    ensures run[i].acked <= Recs(run[j].device)
  {
    hide Step, Recs, ClockOk, BuffersOk, FlusherOk, DeviceOk, Accounted, SwitchOk;
    RunGrows(run, acts, i, j);
    RunKeepsInv(run, acts, j);
  }

  /**
   * Every restart recovers exactly the commits at or below the scanned frontier, among them every
   * acknowledged one, and resumes in an epoch above all of them.
   */
  lemma RestartIsExact(run: seq<State>, acts: seq<Action>, i: nat)
    requires IsRun(run, acts) && i < |acts| && acts[i].DoCrash?
    ensures var s, s' := run[i], run[i + 1];
            && s'.committed == Recs(s'.device)
            && (forall r :: r in s'.committed <==> r in s.committed && r.epoch <= Frontier(s'.device))
            && s.acked <= s'.committed
            && (forall r :: r in s'.committed ==> r.epoch < s'.clock.now) && s'.durable < s'.clock.now
  {
    hide Inv;
    RunKeepsInv(run, acts, i);
    RunKeepsInv(run, acts, i + 1);
    assert Step(run[i], acts[i], run[i + 1]);
    CrashIsExact(run[i], acts[i].n);
    AcknowledgedIsForever(run, acts, i, i + 1);
  }

  /**
   * When a switch to Sync returns true, every commit that captured Async is on the device, then
   * and in every later state.
   */
  lemma SwitchedIsDurable(run: seq<State>, acts: seq<Action>, i: nat, j: nat)
    requires IsRun(run, acts) && i < |acts| && acts[i].DoSwitched? && i <= j <= |acts|
    ensures run[i].async <= Recs(run[j].device)
  {
    RunKeepsInv(run, acts, i);
    RunGrows(run, acts, i, j);
    assert Step(run[i], acts[i], run[i + 1]);
    forall r | r in run[i].async ensures r in Recs(run[i].device) { DurableIsOnDevice(run[i], r); }
  }

  /**
   * The flusher's fail-stop checks never fire: no record arrives for an epoch already reported
   * durable, no group is refused by the log, and the durable epoch never moves back.
   */
  lemma FailStopsNeverFire(run: seq<State>, acts: seq<Action>, n: nat)
    requires IsRun(run, acts) && n <= |acts|
    ensures !run[n].broken
  {
    RunKeepsInv(run, acts, n);
  }

  /** What the durable epoch promises, in every reachable state: all commits up to it, and only closed epochs. */
  lemma DurableEpochIsClosed(run: seq<State>, acts: seq<Action>, n: nat)
    requires IsRun(run, acts) && n <= |acts|
    ensures var s := run[n];
            && (forall r :: r in s.committed && r.epoch <= s.durable ==> r in Recs(s.device))
            && (forall t :: t in s.clock.online ==> s.clock.online[t] > s.durable)
  {
    RunKeepsInv(run, acts, n);
    forall r | r in run[n].committed && r.epoch <= run[n].durable ensures r in Recs(run[n].device) {
      DurableIsOnDevice(run[n], r);
    }
  }
}
