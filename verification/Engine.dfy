/**
 * Committers, readers, the reaper, the epoch clock and the log together. A committer is online in
 * an epoch from its first step until it has enqueued its record, leaving and rejoining at its
 * serialization point; the clock waits for whoever is online in an older epoch; the flusher waits
 * for the clock, and Sync commits wait for the flusher. Every run of the engine is a run of the
 * commit protocol, so what holds there holds here, with the frontiers the log really reaches.
 */
module Engine {
  import opened Basics
  import S = SiloModel
  import D = Durability
  import SiloReads

  type TxnId = S.TxnId

  /** The protocol and the log, with the epoch the run started at. */
  datatype State = State(silo: S.State, dur: D.State, start: nat)

  datatype Action =
    | Local(a: S.Action)                                             // touches neither clock nor log
    | Tick
    | Begin(t: TxnId, readSet: seq<S.Read>, writeSet: seq<S.Write>)  // joins the current epoch
    | LeaveAtPoint(t: TxnId)                                         // all locks held, before the re-read
    | Point(t: TxnId)                                                // rejoins: the serialization point
    | Enqueue(t: TxnId) | Capture(t: TxnId) | Leave(t: TxnId)
    | Background(d: D.Action)                                        // flusher, acknowledgements, policy switch

  /** The log record of a committed transaction. */
  function RecOf(s: State, t: TxnId): D.Rec
    requires t in s.silo.txns
  {
    D.Rec(t, s.silo.txns[t].epoch)
  }

  predicate IsOnline(s: State, t: TxnId) {
    t in s.dur.clock.online
  }

  predicate IsLocal(a: S.Action) {
    a.ReaderAct? || a.ReaperAct? || (a.TxnAct? && !a.ca.Begin? && !a.ca.Point?)
  }

  predicate IsBackground(d: D.Action) {
    !d.DoJoin? && !d.DoEnqueue? && !d.DoCapture? && !d.DoLeave? && !d.DoTick? && !d.DoCrash?
  }

  /** An aborted transaction leaves; a committed one once its record, if it wrote, is enqueued. */
  predicate MayLeave(s: State, t: TxnId) {
    && t in s.silo.txns && t in s.dur.work
    && (s.silo.txns[t].phase == S.Aborted
        || (s.silo.txns[t].phase == S.Done && (s.silo.txns[t].writeSet == [] || s.dur.work[t].Captured?)))
  }

  predicate Step(s: State, a: Action, s': State) {
    s'.start == s.start &&
    match a
    case Local(b) =>
      && IsLocal(b) && (b.TxnAct? ==> IsOnline(s, b.t)) && S.Step(s.silo, b, s'.silo) && s'.dur == s.dur
    case Tick => S.Step(s.silo, S.Tick, s'.silo) && D.Step(s.dur, D.DoTick, s'.dur)
    case Begin(t, readSet, writeSet) =>
      S.Step(s.silo, S.TxnAct(t, S.Begin(readSet, writeSet)), s'.silo) && D.Step(s.dur, D.DoJoin(t), s'.dur)
    case LeaveAtPoint(t) =>
      S.CanPoint(s.silo, t) && IsOnline(s, t) && s'.silo == s.silo && D.Step(s.dur, D.DoLeave(t), s'.dur)
    case Point(t) =>
      !IsOnline(s, t) && S.Step(s.silo, S.TxnAct(t, S.Point), s'.silo) && D.Step(s.dur, D.DoJoin(t), s'.dur)
    case Enqueue(t) =>
      && t in s.silo.txns && s.silo.txns[t].phase == S.Done && s.silo.txns[t].writeSet != []
      && s'.silo == s.silo && D.Step(s.dur, D.DoEnqueue(t, RecOf(s, t)), s'.dur)
    case Capture(t) => s'.silo == s.silo && D.Step(s.dur, D.DoCapture(t), s'.dur)
    case Leave(t) => MayLeave(s, t) && s'.silo == s.silo && D.Step(s.dur, D.DoLeave(t), s'.dur)
    case Background(d) => IsBackground(d) && s'.silo == s.silo && D.Step(s.dur, d, s'.dur)
  }

  /** A log as startup leaves it: nobody online, nothing buffered, nothing awaited. */
  predicate Restarted(d: D.State) {
    && D.Inv(d) && d.clock.online == map[] && d.work == map[] && d.buffers == map[] && d.carry == {}
    && d.flusher == D.Idle && d.switch == D.NoSwitch && d.waiting == {}
  }

  predicate Init(s: State) {
    S.Init(s.silo) && Restarted(s.dur) && s.dur.clock.now == s.silo.epoch == s.start
  }

  predicate IsRun(run: seq<State>, acts: seq<Action>) {
    |run| == |acts| + 1 && Init(run[0]) && forall i :: 0 <= i < |acts| ==> Step(run[i], acts[i], run[i + 1])
  }

  // ----- Every run of the engine is a run of the commit protocol ------------------------------------

  /** The step of the commit protocol an action takes, if it takes one. */
  function SiloAction(a: Action): Option<S.Action> {
    match a
    case Local(b) => Some(b)
    case Tick => Some(S.Tick)
    case Begin(t, readSet, writeSet) => Some(S.TxnAct(t, S.Begin(readSet, writeSet)))
    case Point(t) => Some(S.TxnAct(t, S.Point))
    case _ => None
  }

  lemma StepProjects(s: State, a: Action, s': State)
    requires Step(s, a, s')
    ensures SiloAction(a).None? ==> s'.silo == s.silo
    ensures SiloAction(a).Some? ==> S.Step(s.silo, SiloAction(a).value, s'.silo)
  {
    hide S.Step, D.Step;
  }

  lemma {:induction false} SiloRun(run: seq<State>, acts: seq<Action>, n: nat)
    returns (r: seq<S.State>, b: seq<S.Action>)
    requires IsRun(run, acts) && n <= |acts|
    ensures S.IsRun(r, b) && r[|b|] == run[n].silo
  {
    hide S.Step, D.Step, S.Init, Restarted;
    if n == 0 {
      r, b := [run[0].silo], [];
    } else {
      hide Step;
      r, b := SiloRun(run, acts, n - 1);
      StepProjects(run[n - 1], acts[n - 1], run[n]);
      if SiloAction(acts[n - 1]).Some? {
        r, b := AppendStep(r, b, SiloAction(acts[n - 1]).value, run[n].silo);
      }
    }
  }

  lemma AppendStep(r: seq<S.State>, b: seq<S.Action>, a: S.Action, s': S.State)
    returns (r': seq<S.State>, b': seq<S.Action>)
    requires S.IsRun(r, b) && S.Step(r[|b|], a, s')
    ensures S.IsRun(r', b') && r'[|b'|] == s'
  {
    hide S.Step, S.Init;
    r', b' := r + [s'], b + [a];
    forall i | 0 <= i < |b'| ensures S.Step(r'[i], b'[i], r'[i + 1]) {
      if i < |b| { assert S.Step(r[i], b[i], r[i + 1]); }
    }
  }

  // ----- Clock, log and protocol agree ----------------------------------------------------------------

  /** Until it has finished a transaction is online, except between leaving and rejoining at its point. */
  predicate Early(x: S.Txn) {
    x.phase in {S.Resolving, S.Checking, S.Aborting} || (x.phase == S.Locking && x.next < |x.order|)
  }

  /** Past its point it is online in its commit epoch. */
  predicate Late(x: S.Txn) {
    x.phase in {S.Validating, S.Installing, S.Publishing}
  }

  predicate TxnCoupled(s: State, t: TxnId)
    requires t in s.silo.txns
  {
    var x := s.silo.txns[t];
    && (Early(x) ==> IsOnline(s, t))
    && (Late(x) ==> IsOnline(s, t) && s.dur.clock.online[t] == x.epoch)
    && (Late(x) || x.phase == S.Done ==> x.epoch >= s.start)
    && (x.phase != S.Done && t in s.dur.work ==> s.dur.work[t] == D.Joined)
    && (x.phase == S.Done && IsOnline(s, t) ==>
          && s.dur.clock.online[t] == x.epoch
          && t in s.dur.work && (!s.dur.work[t].Joined? ==> s.dur.work[t].r == RecOf(s, t)))
    && (x.phase == S.Done && !IsOnline(s, t) && x.writeSet != [] ==> RecOf(s, t) in s.dur.committed)
  }

  /** A commit that awaits durability has finished and left its epoch. */
  predicate WaiterOk(s: State, r: D.Rec) {
    && r.id in s.silo.txns && s.silo.txns[r.id].phase == S.Done && r == RecOf(s, r.id) && !IsOnline(s, r.id)
  }

  /** A record of this run belongs to a finished transaction that has enqueued it. */
  predicate RecordOk(s: State, r: D.Rec) {
    r.epoch >= s.start ==>
      && r.id in s.silo.txns && s.silo.txns[r.id].phase == S.Done && r == RecOf(s, r.id)
      && (r.id in s.dur.work ==> !s.dur.work[r.id].Joined?)
  }

  predicate Coupled(s: State) {
    && D.Inv(s.dur) && s.silo.epoch == s.dur.clock.now && s.start <= s.dur.clock.now
    && (forall r :: r in s.dur.committed ==> RecordOk(s, r))
    && (forall t :: t in s.dur.clock.online ==> t in s.silo.txns)
    && (forall t :: t in s.silo.txns ==> TxnCoupled(s, t))
    && (forall r :: r in s.dur.waiting ==> WaiterOk(s, r))
  }

  // ----- The coupling is kept -----------------------------------------------------------------------------

  /** A committer moves on, without finishing for good and without a new point. */
  predicate MovesLocally(s: S.State, t: TxnId, s': S.State) {
    && t in s.txns && t in s'.txns && s'.txns == s.txns[t := s'.txns[t]] && s'.epoch == s.epoch
    && s.txns[t].phase != S.Done && s.txns[t].phase != S.Aborted
    && s'.txns[t].epoch == s.txns[t].epoch && s'.txns[t].writeSet == s.txns[t].writeSet
    && (Late(s'.txns[t]) || s'.txns[t].phase == S.Done ==> Late(s.txns[t]))
  }

  lemma BeforePoint(s: S.State, t: TxnId, a: S.CommitAct, s': S.State)
    requires S.TxnStep(s, t, a, s') && (a.Resolve? || a.Sort? || a.LockItem? || a.CheckItem?)
    ensures MovesLocally(s, t, s')
  {
    hide MovesLocally, S.Frame, S.CanResolve, S.CanSort, S.CanLockItem, S.CanCheckItem, S.DoResolve, S.DoSort,
         S.DoLockItem, S.DoCheckItem;
    match a
    case Resolve(blank) => ResolveMoves(s, t, blank);
    case Sort(order) => SortMoves(s, t, order);
    case LockItem => LockMoves(s, t);
    case CheckItem => CheckMoves(s, t);
  }

  lemma ResolveMoves(s: S.State, t: TxnId, blank: S.SlotId)
    requires S.CanResolve(s, t, blank)
    ensures MovesLocally(s, t, S.DoResolve(s, t, blank))
  {
  }

  lemma SortMoves(s: S.State, t: TxnId, order: seq<S.SlotId>)
    requires S.CanSort(s, t, order)
    ensures MovesLocally(s, t, S.DoSort(s, t, order))
  {
    hide S.StrictlyAscending;
  }

  lemma LockMoves(s: S.State, t: TxnId)
    requires S.CanLockItem(s, t)
    ensures MovesLocally(s, t, S.DoLockItem(s, t))
  {
  }

  lemma CheckMoves(s: S.State, t: TxnId)
    requires S.CanCheckItem(s, t)
    ensures MovesLocally(s, t, S.DoCheckItem(s, t))
  {
    hide S.Attached;
  }

  lemma AfterPoint(s: S.State, t: TxnId, a: S.CommitAct, s': S.State)
    requires S.TxnStep(s, t, a, s') && (a.LookUp? || a.Validate? || a.GiveUp? || a.Decide?)
    ensures MovesLocally(s, t, s')
  {
    hide MovesLocally, S.Frame, S.CanLookUp, S.CanValidate, S.CanGiveUp, S.CanDecide, S.DoLookUp, S.DoValidate,
         S.DoGiveUp, S.DoDecide;
    match a
    case LookUp => LookUpMoves(s, t);
    case Validate => ValidateMoves(s, t);
    case GiveUp => GiveUpMoves(s, t);
    case Decide => DecideMoves(s, t);
  }

  lemma LookUpMoves(s: S.State, t: TxnId)
    requires S.CanLookUp(s, t)
    ensures MovesLocally(s, t, S.DoLookUp(s, t))
  {
  }

  lemma ValidateMoves(s: S.State, t: TxnId)
    requires S.CanValidate(s, t)
    ensures MovesLocally(s, t, S.DoValidate(s, t))
  {
    hide S.ReadHolds;
  }

  lemma GiveUpMoves(s: S.State, t: TxnId)
    requires S.CanGiveUp(s, t)
    ensures MovesLocally(s, t, S.DoGiveUp(s, t))
  {
  }

  lemma DecideMoves(s: S.State, t: TxnId)
    requires S.CanDecide(s, t)
    ensures MovesLocally(s, t, S.DoDecide(s, t))
  {
  }

  lemma WhileInstalling(s: S.State, t: TxnId, a: S.CommitAct, s': S.State)
    requires S.TxnStep(s, t, a, s') && (a.Tear? || a.Install? || a.Installed? || a.Publish? || a.Register?)
    ensures MovesLocally(s, t, s')
  {
    hide S.DoBegin, S.DoResolve, S.DoSort, S.DoLockItem, S.DoCheckItem, S.DoPoint, S.DoLookUp, S.DoValidate,
         S.DoGiveUp, S.DoDecide, S.DoUnlock, S.DoUnlocked, S.Attached, S.Candidates, S.Hist, S.Frame;
  }

  lemma WhileAborting(s: S.State, t: TxnId, a: S.CommitAct, s': S.State)
    requires S.TxnStep(s, t, a, s') && (a.Unlock? || a.Unlocked?)
    ensures MovesLocally(s, t, s')
  {
    hide S.DoBegin, S.DoResolve, S.DoSort, S.DoLockItem, S.DoCheckItem, S.DoPoint, S.DoLookUp, S.DoValidate,
         S.DoGiveUp, S.DoDecide, S.DoTear, S.DoInstall, S.DoInstalled, S.DoPublish, S.DoRegister, S.Attached,
         S.Hist, S.Frame;
  }

  /** A local step of a committer that is not finished: only that transaction moves, and not past its point. */
  lemma LocalStep(s: S.State, t: TxnId, a: S.CommitAct, s': S.State)
    requires S.TxnStep(s, t, a, s') && !a.Begin? && !a.Point?
    ensures MovesLocally(s, t, s')
  {
    hide S.TxnStep, MovesLocally;
    if a.Resolve? || a.Sort? || a.LockItem? || a.CheckItem? {
      BeforePoint(s, t, a, s');
    } else if a.LookUp? || a.Validate? || a.GiveUp? || a.Decide? {
      AfterPoint(s, t, a, s');
    } else if a.Unlock? || a.Unlocked? {
      WhileAborting(s, t, a, s');
    } else {
      WhileInstalling(s, t, a, s');
    }
  }

  lemma LocalKeeps(s: State, b: S.Action, s': State)
    requires Coupled(s) && Step(s, Local(b), s')
    ensures Coupled(s')
  {
    hide D.Inv, S.TxnStep, S.ReaderStep, S.ReaperStep;
    if b.TxnAct? {
      LocalStep(s.silo, b.t, b.ca, s'.silo);
      OnlineHasWork(s.dur, b.t);
      forall u | u in s'.silo.txns ensures TxnCoupled(s', u) { assert TxnCoupled(s, u); }
      forall r | r in s'.dur.waiting ensures WaiterOk(s', r) { assert WaiterOk(s, r); }
      forall r | r in s'.dur.committed ensures RecordOk(s', r) { assert RecordOk(s, r); }
    } else {
      OthersLeaveTxns(s.silo, b, s'.silo);
      forall u | u in s'.silo.txns ensures TxnCoupled(s', u) { assert TxnCoupled(s, u); }
      forall r | r in s'.dur.waiting ensures WaiterOk(s', r) { assert WaiterOk(s, r); }
      forall r | r in s'.dur.committed ensures RecordOk(s', r) { assert RecordOk(s, r); }
    }
  }

  lemma OnlineHasWork(d: D.State, t: TxnId)
    requires D.Inv(d) && t in d.clock.online
    ensures t in d.work
  {
  }

  lemma OthersLeaveTxns(s: S.State, b: S.Action, s': S.State)
    requires S.Step(s, b, s') && (b.ReaderAct? || b.ReaperAct?)
    ensures s'.txns == s.txns && s'.epoch == s.epoch
  {
    hide S.TxnStep, S.ReaperStep;
    if b.ReaperAct? {
      SiloReads.ReaperKeepsReaders(s, b.pa, s');
    }
  }

  /** What the log machine changes of the clock and of a thread's work, when a thread is not the one acting. */
  predicate ThreadKept(d: D.State, d': D.State, t: TxnId) {
    && (t in d'.clock.online <==> t in d.clock.online)
    && (t in d.clock.online ==> d'.clock.online[t] == d.clock.online[t])
    && (t in d'.work <==> t in d.work) && (t in d.work ==> d'.work[t] == d.work[t])
  }

  lemma CoupledFrame(s: State, s': State, t: TxnId)
    requires t in s.silo.txns && TxnCoupled(s, t) && t in s'.silo.txns && s'.silo.txns[t] == s.silo.txns[t]
    requires ThreadKept(s.dur, s'.dur, t) && s.dur.committed <= s'.dur.committed && s'.start == s.start
    ensures TxnCoupled(s', t)
  {
  }

  lemma RecordFrame(s: State, s': State, r: D.Rec)
    requires RecordOk(s, r) && s'.start == s.start
    requires r.id in s.silo.txns ==>
        r.id in s'.silo.txns && s'.silo.txns[r.id] == s.silo.txns[r.id] && ThreadKept(s.dur, s'.dur, r.id)
    ensures RecordOk(s', r)
  {
  }

  lemma WaiterFrame(s: State, s': State, r: D.Rec)
    requires WaiterOk(s, r) && r.id in s'.silo.txns && s'.silo.txns[r.id] == s.silo.txns[r.id]
    requires ThreadKept(s.dur, s'.dur, r.id)
    ensures WaiterOk(s', r)
  {
  }

  lemma TickKeeps(s: State, s': State)
    requires Coupled(s) && Step(s, Tick, s')
    ensures Coupled(s')
  {
    hide D.Inv, TxnCoupled, WaiterOk, RecordOk;
    D.StepKeepsInv(s.dur, D.DoTick, s'.dur);
    forall r | r in s'.dur.committed ensures RecordOk(s', r) { RecordFrame(s, s', r); }
    forall t | t in s'.silo.txns ensures TxnCoupled(s', t) { CoupledFrame(s, s', t); }
    forall r | r in s'.dur.waiting ensures WaiterOk(s', r) {
      assert WaiterOk(s, r);
      WaiterIsTxn(s, r);
      WaiterFrame(s, s', r);
    }
  }

  lemma WaiterIsTxn(s: State, r: D.Rec)
    requires WaiterOk(s, r)
    ensures r.id in s.silo.txns && s.silo.txns[r.id].phase == S.Done && !IsOnline(s, r.id)
  {
  }

  lemma BackgroundKeeps(s: State, d: D.Action, s': State)
    requires Coupled(s) && Step(s, Background(d), s')
    ensures Coupled(s')
  {
    hide D.Inv, TxnCoupled, WaiterOk, RecordOk, D.Step;
    D.StepKeepsInv(s.dur, d, s'.dur);
    BackgroundLeavesThreads(s.dur, d, s'.dur);
    forall r | r in s'.dur.committed ensures RecordOk(s', r) { RecordFrame(s, s', r); }
    forall t | t in s'.silo.txns ensures TxnCoupled(s', t) { CoupledFrame(s, s', t); }
    forall r | r in s'.dur.waiting ensures WaiterOk(s', r) {
      assert WaiterOk(s, r);
      WaiterIsTxn(s, r);
      WaiterFrame(s, s', r);
    }
  }

  lemma BackgroundLeavesThreads(d: D.State, a: D.Action, d': D.State)
    requires D.Step(d, a, d') && IsBackground(a)
    ensures d'.clock == d.clock && d'.work == d.work && d'.committed == d.committed && d'.waiting <= d.waiting
  {
    hide D.GroupOf, D.Recs, D.Frontier, D.Above;
  }

  lemma JoinedOnly(d: D.State, t: TxnId, d': D.State)
    requires D.Step(d, D.DoJoin(t), d')
    ensures t !in d.clock.online && d'.clock.online == d.clock.online[t := d.clock.now] && d'.clock.now == d.clock.now
    ensures d'.work == d.work[t := D.Joined] && d'.committed == d.committed && d'.waiting == d.waiting
  {
  }

  lemma LeftOnly(d: D.State, t: TxnId, d': D.State)
    requires D.Step(d, D.DoLeave(t), d')
    ensures t in d.clock.online && t in d.work && !d.work[t].Enqueued?
    ensures d'.clock == d.clock.(online := d.clock.online - {t})
    ensures d'.work == d.work - {t} && d'.committed == d.committed
    ensures d'.waiting == if d.work[t].Captured? && d.work[t].awaits then d.waiting + {d.work[t].r} else d.waiting
  {
  }

  /** After a step of the clock and the log that concerns thread t alone. */
  lemma OneThreadKeeps(s: State, t: TxnId, s': State)
    requires Coupled(s) && D.Inv(s'.dur) && s'.silo.epoch == s'.dur.clock.now && s'.start == s.start <= s'.dur.clock.now
    requires forall r :: r in s'.dur.committed ==> (r in s.dur.committed && r.id != t) || RecordOk(s', r)
    requires t in s'.silo.txns && s'.silo.txns == s.silo.txns[t := s'.silo.txns[t]]
    requires s.dur.committed <= s'.dur.committed
    requires TxnCoupled(s', t) && forall u :: u != t ==> ThreadKept(s.dur, s'.dur, u)
    requires forall r :: r in s'.dur.waiting ==> (r in s.dur.waiting && r.id != t) || WaiterOk(s', r)
    ensures Coupled(s')
  {
    hide D.Inv, TxnCoupled, WaiterOk, RecordOk;
    forall r | r in s'.dur.committed ensures RecordOk(s', r) {
      if r in s.dur.committed && r.id != t { RecordFrame(s, s', r); }
    }
    forall u | u in s'.silo.txns ensures TxnCoupled(s', u) { if u != t { CoupledFrame(s, s', u); } }
    forall r | r in s'.dur.waiting ensures WaiterOk(s', r) {
      if r in s.dur.waiting && r.id != t {
        assert WaiterOk(s, r);
        WaiterIsTxn(s, r);
        WaiterFrame(s, s', r);
      }
    }
    forall u | u in s'.dur.clock.online ensures u in s'.silo.txns { if u != t { assert ThreadKept(s.dur, s'.dur, u); } }
  }

  lemma BeginKeeps(s: State, t: TxnId, readSet: seq<S.Read>, writeSet: seq<S.Write>, s': State)
    requires Coupled(s) && Step(s, Begin(t, readSet, writeSet), s')
    ensures Coupled(s')
  {
    hide D.Inv, D.Step;
    D.StepKeepsInv(s.dur, D.DoJoin(t), s'.dur);
    JoinedOnly(s.dur, t, s'.dur);
    NotWaiting(s, t);
    OneThreadKeeps(s, t, s');
  }

  /** A transaction that has not finished does not await durability and has no record. */
  lemma NotWaiting(s: State, t: TxnId)
    requires Coupled(s) && (t in s.silo.txns ==> s.silo.txns[t].phase != S.Done)
    ensures forall r :: r in s.dur.waiting ==> r.id != t
    ensures forall r :: r in s.dur.committed && r.id == t ==> r.epoch < s.start
  {
    hide D.Inv, TxnCoupled;
    forall r | r in s.dur.waiting ensures r.id != t { assert WaiterOk(s, r); }
    forall r | r in s.dur.committed && r.id == t ensures r.epoch < s.start { assert RecordOk(s, r); }
  }

  lemma LeaveAtPointKeeps(s: State, t: TxnId, s': State)
    requires Coupled(s) && Step(s, LeaveAtPoint(t), s')
    ensures Coupled(s')
  {
    hide D.Inv, D.Step;
    D.StepKeepsInv(s.dur, D.DoLeave(t), s'.dur);
    LeftOnly(s.dur, t, s'.dur);
    NotWaiting(s, t);
    assert TxnCoupled(s, t);
    OneThreadKeeps(s, t, s');
  }

  lemma PointKeeps(s: State, t: TxnId, s': State)
    requires Coupled(s) && Step(s, Point(t), s')
    ensures Coupled(s')
  {
    hide D.Inv, D.Step;
    D.StepKeepsInv(s.dur, D.DoJoin(t), s'.dur);
    JoinedOnly(s.dur, t, s'.dur);
    NotWaiting(s, t);
    OneThreadKeeps(s, t, s');
  }

  lemma EnqueueKeeps(s: State, t: TxnId, s': State)
    requires Coupled(s) && Step(s, Enqueue(t), s')
    ensures Coupled(s')
  {
    hide D.Inv;
    D.StepKeepsInv(s.dur, D.DoEnqueue(t, RecOf(s, t)), s'.dur);
    assert TxnCoupled(s, t);
    OnlineNotWaiting(s, t);
    OneThreadKeeps(s, t, s');
  }

  lemma OnlineNotWaiting(s: State, t: TxnId)
    requires Coupled(s) && IsOnline(s, t)
    ensures forall r :: r in s.dur.waiting ==> r.id != t
  {
    hide D.Inv, TxnCoupled;
    forall r | r in s.dur.waiting ensures r.id != t { assert WaiterOk(s, r); }
  }

  lemma CaptureKeeps(s: State, t: TxnId, s': State)
    requires Coupled(s) && Step(s, Capture(t), s')
    ensures Coupled(s')
  {
    hide D.Inv, D.Step, TxnCoupled, WaiterOk, RecordOk;
    D.StepKeepsInv(s.dur, D.DoCapture(t), s'.dur);
    CapturedOnly(s.dur, t, s'.dur);
    WorkIsOnline(s.dur, t);
    CapturedCoupled(s, t, s');
    OnlineNotWaiting(s, t);
    forall r | r in s'.dur.committed && r.id == t ensures RecordOk(s', r) { CapturedRecord(s, t, s', r); }
    OneThreadKeeps(s, t, s');
  }

  lemma CapturedOnly(d: D.State, t: TxnId, d': D.State)
    requires D.Step(d, D.DoCapture(t), d')
    ensures t in d.work && d.work[t].Enqueued? && d'.clock == d.clock
    ensures t in d'.work && d'.work == d.work[t := d'.work[t]] && d'.work[t].Captured? && d'.work[t].r == d.work[t].r
    ensures d'.committed == d.committed && d'.waiting == d.waiting
  {
  }

  lemma CapturedCoupled(s: State, t: TxnId, s': State)
    requires t in s.silo.txns && TxnCoupled(s, t) && s'.silo == s.silo && s'.start == s.start
    requires s'.dur.clock == s.dur.clock && s'.dur.committed == s.dur.committed && t in s.dur.work && t in s'.dur.work
    requires s.dur.work[t].Enqueued? && s'.dur.work[t].Captured? && s'.dur.work[t].r == s.dur.work[t].r
    ensures TxnCoupled(s', t)
  {
  }

  lemma CapturedRecord(s: State, t: TxnId, s': State, r: D.Rec)
    requires RecordOk(s, r) && r.id == t && s'.silo == s.silo && s'.start == s.start
    requires t in s'.dur.work && s'.dur.work[t].Captured?
    ensures RecordOk(s', r)
  {
  }

  lemma WorkIsOnline(d: D.State, t: TxnId)
    requires D.Inv(d) && t in d.work
    ensures t in d.clock.online && (!d.work[t].Joined? ==> d.work[t].r in d.committed)
  {
  }

  lemma LeaveKeeps(s: State, t: TxnId, s': State)
    requires Coupled(s) && Step(s, Leave(t), s')
    ensures Coupled(s')
  {
    hide D.Inv, D.Step, TxnCoupled, WaiterOk, RecordOk;
    D.StepKeepsInv(s.dur, D.DoLeave(t), s'.dur);
    LeftOnly(s.dur, t, s'.dur);
    WorkIsOnline(s.dur, t);
    OnlineNotWaiting(s, t);
    LeftCoupled(s, t, s');
    forall r | r in s'.dur.committed && r.id == t ensures RecordOk(s', r) { LeftRecord(s, t, s', r); }
    OneThreadKeeps(s, t, s');
  }

  /** Whoever leaves has its record in the log if it wrote, and awaits it only once it is finished. */
  lemma LeftCoupled(s: State, t: TxnId, s': State)
    requires MayLeave(s, t) && TxnCoupled(s, t) && IsOnline(s, t) && s'.silo == s.silo && s'.start == s.start
    requires s'.dur.clock.online == s.dur.clock.online - {t} && s'.dur.work == s.dur.work - {t}
    requires s'.dur.committed == s.dur.committed && (!s.dur.work[t].Joined? ==> s.dur.work[t].r in s.dur.committed)
    ensures TxnCoupled(s', t)
    ensures s.dur.work[t].Captured? ==> WaiterOk(s', s.dur.work[t].r)
  {
  }

  lemma LeftRecord(s: State, t: TxnId, s': State, r: D.Rec)
    requires RecordOk(s, r) && r.id == t && s'.silo == s.silo && s'.start == s.start && s'.dur.work == s.dur.work - {t}
    ensures RecordOk(s', r)
  {
  }

  lemma InitCoupled(s: State)
    requires Init(s)
    ensures Coupled(s)
  {
    hide D.Inv;
    forall r | r in s.dur.committed ensures r.epoch < s.start { OldRecord(s.dur, r); }
  }

  /** What a restart finds is on the device, in epochs before the clock. */
  lemma OldRecord(d: D.State, r: D.Rec)
    requires Restarted(d) && r in d.committed
    ensures r.epoch < d.clock.now
  {
    hide D.Recs, D.Frontier;
    D.OnSorted(d.device, r);
  }

  lemma {:induction false} RunKeepsCoupled(run: seq<State>, acts: seq<Action>, n: nat)
    requires IsRun(run, acts) && n <= |acts|
    ensures Coupled(run[n])
  {
    hide Step, Init, Coupled;
    if n == 0 {
      InitCoupled(run[0]);
    } else {
      RunKeepsCoupled(run, acts, n - 1);
      StepKeepsCoupled(run[n - 1], acts[n - 1], run[n]);
    }
  }

  lemma StepKeepsCoupled(s: State, a: Action, s': State)
    requires Coupled(s) && Step(s, a, s')
    ensures Coupled(s')
  {
    hide Coupled, Step;
    match a
    case Local(b) => LocalKeeps(s, b, s');
    case Tick => TickKeeps(s, s');
    case Begin(t, readSet, writeSet) => BeginKeeps(s, t, readSet, writeSet, s');
    case LeaveAtPoint(t) => LeaveAtPointKeeps(s, t, s');
    case Point(t) => PointKeeps(s, t, s');
    case Enqueue(t) => EnqueueKeeps(s, t, s');
    case Capture(t) => CaptureKeeps(s, t, s');
    case Leave(t) => LeaveKeeps(s, t, s');
    case Background(d) => BackgroundKeeps(s, d, s');
  }
}
