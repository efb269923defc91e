/**
 * The engine through any number of crashes and restarts. Each life runs until the process stops,
 * leaves some leading frames of the group in flight, and the next life starts from the fold of all
 * that was ever recorded. What recovery finds is always what the surviving commits of all lives
 * leave when run one at a time, and no survivor ever read a version that was lost.
 */
module EngineLives {
  import opened Basics
  import opened Versions
  import S = SiloModel
  import D = Durability
  import R = RecoveryFold
  import CheckpointFold
  import EpochSpec
  import SiloHistory
  import SiloReads
  import SiloSerial
  import SiloRecovery
  import opened Engine
  import opened EngineTheorems

  // ----- Lives ----------------------------------------------------------------------------------------

  /** What recovery folded, the run that followed, and how many frames of its last group survived. */
  datatype Life = Life(log: seq<R.Event>, run: seq<State>, acts: seq<Action>, kept: nat)

  predicate LifeOk(l: Life) {
    IsRun(l.run, l.acts) && l.kept <= |D.InFlight(l.run[|l.acts|].dur)|
  }

  function End(l: Life): State
    requires LifeOk(l)
  {
    l.run[|l.acts|]
  }

  /** The epoch of the last frame that survived. */
  function Front(l: Life): nat
    requires LifeOk(l)
  {
    CrashFrontier(End(l), l.kept)
  }

  function Left(l: Life): seq<D.Frame>
    requires LifeOk(l)
  {
    End(l).dur.device + D.InFlight(End(l).dur)[..l.kept]
  }

  function RowOf(k: S.Key): R.Subject {
    R.Row(k.table, k.key)
  }

  function EventOf(k: S.Key, v: S.Version): R.Event {
    R.Event(RowOf(k), v.tid, R.Bytes_(v.bytes))
  }

  function HistOf(l: Life, k: S.Key): seq<S.Version>
    requires LifeOk(l)
  {
    S.Hist(End(l).silo, k)
  }

  /** The record of the version's writer is on the device the crash leaves. */
  predicate OnDevice(l: Life, v: S.Version)
    requires LifeOk(l)
  {
    v.writer.Some? && v.writer.value in End(l).silo.txns && RecOf(End(l), v.writer.value) in D.Recs(Left(l))
  }

  predicate Recorded(l: Life, k: S.Key, e: R.Event)
    requires LifeOk(l)
  {
    exists j :: 0 <= j < |HistOf(l, k)| && OnDevice(l, HistOf(l, k)[j]) && e == EventOf(k, HistOf(l, k)[j])
  }

  predicate AllOk(lives: seq<Life>) {
    forall i :: 0 <= i < |lives| ==> LifeOk(lives[i])
  }

  predicate RecordedBy(lives: seq<Life>, k: S.Key, e: R.Event)
    requires AllOk(lives)
  {
    exists i :: 0 <= i < |lives| && Recorded(lives[i], k, e)
  }

  /** About rows, a log of some lives holds exactly what they recorded, in any order. */
  ghost predicate Holds(log: seq<R.Event>, lives: seq<Life>)
    requires AllOk(lives)
  {
    forall k, e: R.Event :: e.subject == RowOf(k) ==> (e in log <==> RecordedBy(lives, k, e))
  }

  /** A table as the fold of a log leaves it: exactly the live rows, under their versions. */
  ghost predicate StartsFrom(s: S.State, log: seq<R.Event>) {
    forall k :: StartsAt(s, k, CheckpointFold.LiveRow(R.Newest(log, RowOf(k))))
  }

  predicate StartsAt(s: S.State, k: S.Key, e: Option<R.Event>) {
    match e
    case None => k !in s.index
    case Some(v) =>
      k in s.index && v.content.Bytes_? && S.Hist(s, k) == [S.Version(v.tid, v.content.bytes, None)]
  }

  ghost predicate Follows(l: Life, l': Life)
    requires LifeOk(l) && LifeOk(l')
  {
    exists mode :: D.StepCrash(End(l).dur, l.kept, mode, l'.run[0].dur)
  }

  /** Lives of one database, from an empty log on. */
  ghost predicate Chained(lives: seq<Life>) {
    && AllOk(lives)
    && (forall i :: 0 <= i < |lives| ==>
          Holds(lives[i].log, lives[..i]) && StartsFrom(lives[i].run[0].silo, lives[i].log))
    && (forall i :: 0 < i < |lives| ==> Follows(lives[i - 1], lives[i]))
  }

  // ----- One life ----------------------------------------------------------------------------------------

  /** What every life ends with: increasing versions, each with its writer, of this life's epochs or from its start. */
  ghost predicate Ends(l: Life, k: S.Key)
    requires LifeOk(l)
  {
    var s, h := End(l).silo, HistOf(l, k);
    && SiloHistory.Increasing(h)
    && (forall j :: 0 <= j < |h| && h[j].writer.Some? ==> OnDevice(l, h[j]) == (h[j].tid.epoch <= Front(l)))
    && (forall j :: 0 <= j < |h| && h[j].writer.Some? ==> h[j].tid.epoch >= End(l).start)
    && (forall j :: 0 <= j < |h| && h[j].writer.None? ==> j == 0 && h == S.Hist(l.run[0].silo, k) + h[1..])
    && (k in l.run[0].silo.initial ==> S.Hist(l.run[0].silo, k) != [] && S.Hist(l.run[0].silo, k) <= h)
    && s.initial == l.run[0].silo.initial && End(l).start == l.run[0].start
  }

  lemma StepKeepsStart(s: State, a: Action, s': State)
    requires Step(s, a, s')
    ensures s'.start == s.start && s'.silo.initial == s.silo.initial && s.dur.device <= s'.dur.device
    ensures SiloReads.HistGrows(s.silo, s'.silo)
  {
    hide S.Step, D.Step, SiloReads.HistGrows;
    StepProjects(s, a, s');
    if SiloAction(a).Some? {
      SiloKeepsInitial(s.silo, SiloAction(a).value, s'.silo);
      SiloReads.StepGrowsHist(s.silo, SiloAction(a).value, s'.silo);
    } else {
      SameHist(s.silo, s'.silo);
    }
    match a
    case Local(_) =>
    case Tick => DeviceGrows(s.dur, D.DoTick, s'.dur);
    case Begin(t, _, _) => DeviceGrows(s.dur, D.DoJoin(t), s'.dur);
    case LeaveAtPoint(t) => DeviceGrows(s.dur, D.DoLeave(t), s'.dur);
    case Point(t) => DeviceGrows(s.dur, D.DoJoin(t), s'.dur);
    case Enqueue(t) => DeviceGrows(s.dur, D.DoEnqueue(t, RecOf(s, t)), s'.dur);
    case Capture(t) => DeviceGrows(s.dur, D.DoCapture(t), s'.dur);
    case Leave(t) => DeviceGrows(s.dur, D.DoLeave(t), s'.dur);
    case Background(d) => DeviceGrows(s.dur, d, s'.dur);
  }

  lemma SameHist(s: S.State, s': S.State)
    requires s' == s
    ensures SiloReads.HistGrows(s, s')
  {
  }

  lemma SiloKeepsInitial(s: S.State, a: S.Action, s': S.State)
    requires S.Step(s, a, s')
    ensures s'.initial == s.initial
  {
    hide S.TxnStep, S.ReaperStep;
    match a
    case TxnAct(t, ca) => SiloReads.TxnStepFrame(s, t, ca, s');
    case ReaperAct(pa) => SiloReads.ReaperKeepsReaders(s, pa, s');
    case _ =>
  }

  lemma DeviceGrows(d: D.State, a: D.Action, d': D.State)
    requires D.Step(d, a, d') && !a.DoCrash?
    ensures d.device <= d'.device
  {
    hide D.GroupOf, D.Above, D.Frontier;
  }

  lemma {:induction false} RunKeepsStart(run: seq<State>, acts: seq<Action>, n: nat)
    requires IsRun(run, acts) && n <= |acts|
    ensures run[n].start == run[0].start && run[n].silo.initial == run[0].silo.initial
    ensures run[0].dur.device <= run[n].dur.device && SiloReads.HistGrows(run[0].silo, run[n].silo)
  {
    hide Step, Init, SiloReads.HistGrows;
    if n == 0 {
      SameHist(run[0].silo, run[0].silo);
    } else {
      RunKeepsStart(run, acts, n - 1);
      StepKeepsStart(run[n - 1], acts[n - 1], run[n]);
      GrowsOn(run[0].silo, run[n - 1].silo, run[n].silo);
    }
  }

  lemma GrowsOn(a: S.State, b: S.State, c: S.State)
    requires SiloReads.HistGrows(a, b) && SiloReads.HistGrows(b, c)
    ensures SiloReads.HistGrows(a, c)
  {
    forall k ensures S.Hist(a, k) <= S.Hist(c, k) { assert S.Hist(a, k) <= S.Hist(b, k) <= S.Hist(c, k); }
  }

  /** The versions of a reachable protocol state: increasing, and each written by a commit or a starting row. */
  lemma SiloChain(run: seq<State>, acts: seq<Action>, k: S.Key)
    requires IsRun(run, acts)
    ensures var s := run[|acts|].silo;
            && SiloHistory.Increasing(S.Hist(s, k)) && SiloRecovery.ChainOk(s, k) && SiloSerial.PosOk(s)
  {
    hide Step, Init, S.Step, S.Init, SiloSerial.LogicalOk, SiloRecovery.ChainOk, SiloSerial.PosOk;
    var r, b := SiloRun(run, acts, |acts|);
    SiloRecovery.RunKeepsRecInv(r, b, |b|);
    SiloHistory.HistParts(r[|b|]);
    assert SiloHistory.VersionsOk(r[|b|]);
  }

  lemma LifeEnds(l: Life, k: S.Key)
    requires LifeOk(l)
    ensures Ends(l, k)
  {
    hide Step, Init, Coupled, SiloRecovery.ChainOk, SiloSerial.PosOk, SiloHistory.Increasing, D.Recs, OnDevice;
    RunKeepsCoupled(l.run, l.acts, |l.acts|);
    RunKeepsStart(l.run, l.acts, |l.acts|);
    SiloChain(l.run, l.acts, k);
    var h := HistOf(l, k);
    forall j | 0 <= j < |h| && h[j].writer.Some?
      ensures OnDevice(l, h[j]) == (h[j].tid.epoch <= Front(l)) && h[j].tid.epoch >= End(l).start
    {
      WriterRecorded(l, k, j);
    }
    StartingRow(l, k);
  }

  lemma WriterRecorded(l: Life, k: S.Key, j: nat)
    requires LifeOk(l) && Coupled(End(l)) && SiloRecovery.ChainOk(End(l).silo, k)
    requires j < |HistOf(l, k)| && HistOf(l, k)[j].writer.Some?
    ensures var v := HistOf(l, k)[j]; OnDevice(l, v) == (v.tid.epoch <= Front(l)) && v.tid.epoch >= End(l).start
  {
    hide IsRun, D.Recs, D.Frontier, D.InFlight, D.Inv, SiloRecovery.WritersAscend;
    var s, v := End(l), HistOf(l, k)[j];
    assert SiloRecovery.WriterOk(s.silo, k, j, v);
    CrashKeepsRecord(s, l.kept, v.writer.value);
    assert TxnCoupled(s, v.writer.value);
  }

  lemma StartingRow(l: Life, k: S.Key)
    requires LifeOk(l) && SiloRecovery.ChainOk(End(l).silo, k)
    requires End(l).silo.initial == l.run[0].silo.initial && SiloReads.HistGrows(l.run[0].silo, End(l).silo)
    ensures var h, h0 := HistOf(l, k), S.Hist(l.run[0].silo, k);
            && (forall j :: 0 <= j < |h| && h[j].writer.None? ==> j == 0 && h == h0 + h[1..])
            && (k in l.run[0].silo.initial ==> h0 != [] && h0 <= h)
  {
    hide Step, SiloRecovery.WritersAscend, Restarted;
    var h, h0 := HistOf(l, k), S.Hist(l.run[0].silo, k);
    assert S.Init(l.run[0].silo) && h0 <= h;
    FirstVersions(l.run[0].silo, k);
    forall j | 0 <= j < |h| && h[j].writer.None? ensures j == 0 && h == h0 + h[1..] {
      assert SiloRecovery.WriterOk(End(l).silo, k, j, h[j]);
    }
  }

  /** A key has one version at the start if it has a row, and none otherwise. */
  lemma FirstVersions(s: S.State, k: S.Key)
    requires S.Init(s)
    ensures k in s.initial <==> k in s.index
    ensures k in s.initial ==> |S.Hist(s, k)| == 1 && s.initial[k] == S.Hist(s, k)[0].bytes
    ensures k !in s.initial ==> S.Hist(s, k) == []
  {
    if k in s.index { assert S.Attached(s, s.index[k]); }
  }

  // ----- Epochs go on from life to life --------------------------------------------------------------------

  lemma PrefixFrontier(a: seq<D.Frame>, b: seq<D.Frame>)
    requires a <= b && D.Sorted(b)
    ensures D.Frontier(a) <= D.Frontier(b)
  {
    if a != [] { assert b[|a| - 1] == a[|a| - 1]; }
  }

  /** A life never gives up an epoch that was on the device when it started. */
  lemma FrontGrows(l: Life)
    requires LifeOk(l)
    ensures D.Frontier(l.run[0].dur.device) <= Front(l)
  {
    hide Step, Init, Coupled, D.Frontier, D.Sorted, SiloReads.HistGrows;
    RunKeepsCoupled(l.run, l.acts, |l.acts|);
    LogSound(End(l));
    RunKeepsStart(l.run, l.acts, |l.acts|);
    D.CrashIsExact(End(l).dur, l.kept);
    PrefixFrontier(l.run[0].dur.device, Left(l));
  }

  lemma LogSound(s: State)
    requires Coupled(s)
    ensures D.Inv(s.dur)
  {
  }

  lemma NextStart(l: Life, l': Life)
    requires LifeOk(l) && LifeOk(l') && Follows(l, l')
    ensures Front(l) < l'.run[0].start && D.Frontier(l'.run[0].dur.device) == Front(l)
  {
    hide Step, S.Init, Restarted, D.Frontier;
  }

  /** Whatever a life left is older than whatever a later life writes. */
  lemma {:induction false} FrontsAscend(lives: seq<Life>, i: nat, n: nat)
    requires Chained(lives) && i < n < |lives|
    ensures Front(lives[i]) < lives[n].run[0].start
    ensures Front(lives[i]) <= Front(lives[n])
    decreases n
  {
    hide LifeOk, Holds, StartsFrom, Follows, Front;
    assert Follows(lives[n - 1], lives[n]);
    NextStart(lives[n - 1], lives[n]);
    FrontGrows(lives[n]);
    if i < n - 1 { FrontsAscend(lives, i, n - 1); }
  }

  // ----- The newest record of a row --------------------------------------------------------------------------

  /** The one event all else that some lives recorded about a row is older than, unless they recorded nothing. */
  ghost predicate Top(lives: seq<Life>, k: S.Key, top: Option<R.Event>)
    requires AllOk(lives)
  {
    match top
    case None => forall e :: !RecordedBy(lives, k, e)
    case Some(t) =>
      && t.subject == RowOf(k) && t.content.Bytes_? && RecordedBy(lives, k, t)
      && forall e :: RecordedBy(lives, k, e) ==> e == t || Less(e.tid, t.tid)
  }

  lemma TopIsNewest(log: seq<R.Event>, lives: seq<Life>, k: S.Key, top: Option<R.Event>)
    requires AllOk(lives) && Holds(log, lives) && Top(lives, k, top)
    ensures R.Newest(log, RowOf(k)) == top
  {
    hide AllOk, RecordedBy, R.Newest;
    if top.Some? {
      R.NewestIs(log, RowOf(k), top.value);
    } else {
      R.NewestSpec(log, RowOf(k));
      assert forall i :: 0 <= i < |log| && log[i].subject == RowOf(k) ==> log[i] in log;
    }
  }

  function RowBytes(e: Option<R.Event>): Bytes {
    if e.Some? && e.value.content.Bytes_? then e.value.content.bytes else []
  }

  /** A version some commit published in an epoch that survived. */
  predicate Kept(v: S.Version, frontier: nat) {
    v.writer.Some? && v.tid.epoch <= frontier
  }

  /** The last version of a history that survived, or -1. */
  function LastKept(h: seq<S.Version>, frontier: nat): (j: int)
    ensures -1 <= j < |h| && (j >= 0 ==> Kept(h[j], frontier)) && forall i :: j < i < |h| ==> !Kept(h[i], frontier)
  {
    if h == [] then -1
    else if Kept(h[|h| - 1], frontier) then |h| - 1
    else LastKept(h[..|h| - 1], frontier)
  }

  /** What a replay up to the frontier finds: the last version that survived, or else the starting row. */
  lemma {:induction false} ReplayIsLast(h: seq<S.Version>, frontier: nat)
    requires forall j :: 0 < j < |h| ==> h[j].writer.Some?
    ensures SiloRecovery.Replay(h, frontier)
            == if LastKept(h, frontier) >= 0 then h[LastKept(h, frontier)].bytes
               else if h != [] && h[0].writer.None? then h[0].bytes else []
  {
    if h != [] { ReplayIsLast(h[..|h| - 1], frontier); }
  }

  /** Of a life's versions exactly the survivors are on the device. */
  lemma KeptIsOnDevice(l: Life, k: S.Key, j: nat)
    requires LifeOk(l) && Ends(l, k) && j < |HistOf(l, k)|
    ensures OnDevice(l, HistOf(l, k)[j]) <==> Kept(HistOf(l, k)[j], Front(l))
  {
    hide IsRun, Front, D.Recs, SiloHistory.Increasing;
  }

  lemma StartRow(l: Life, k: S.Key)
    requires LifeOk(l) && Ends(l, k)
    ensures var h := HistOf(l, k);
            S.InitialOf(End(l).silo.initial, k) == if h != [] && h[0].writer.None? then h[0].bytes else []
  {
    hide Step, Restarted, OnDevice, Front, SiloHistory.Increasing;
    assert S.Init(l.run[0].silo);
    FirstVersions(l.run[0].silo, k);
    FirstWriter(l.run[0].silo, k);
  }

  lemma FirstWriter(s: S.State, k: S.Key)
    requires S.Init(s)
    ensures forall j :: 0 <= j < |S.Hist(s, k)| ==> S.Hist(s, k)[j].writer.None?
  {
    if k in s.index { assert S.Attached(s, s.index[k]); }
  }

  // ----- Running the survivors of all lives -------------------------------------------------------------------

  /** Run the committed ones among the first n points over what a key held before. */
  function RunOn(txns: map<TxnId, S.Txn>, points: seq<TxnId>, n: nat, k: S.Key, before: Bytes): Bytes
    requires n <= |points|
  {
    if n == 0 then before
    else
      var so := RunOn(txns, points, n - 1, k, before);
      var t := points[n - 1];
      if t in txns && S.Committed(txns[t]) then S.Effect(txns[t].writeSet, k, so) else so
  }

  lemma {:induction false} SerialIsRunOn(initial: map<S.Key, Bytes>, txns: map<TxnId, S.Txn>, points: seq<TxnId>,
                                         n: nat, k: S.Key)
    requires n <= |points|
    ensures SiloSerial.SerialOf(initial, txns, points, n, k) == RunOn(txns, points, n, k, S.InitialOf(initial, k))
  {
    if n > 0 { SerialIsRunOn(initial, txns, points, n - 1, k); }
  }

  /** How many serialization points of a life survived. */
  function Survived(l: Life): (n: nat)
    requires LifeOk(l)
    ensures n <= |End(l).silo.points|
  {
    if SiloSerial.PosOk(End(l).silo) then SiloRecovery.PointsUpTo(End(l).silo, Front(l), |End(l).silo.points|) else 0
  }

  /** A row after the survivors of the first n lives have run one at a time, life after life. */
  function Across(lives: seq<Life>, n: nat, k: S.Key): Bytes
    requires AllOk(lives) && n <= |lives|
  {
    if n == 0 then []
    else
      var l := lives[n - 1];
      RunOn(End(l).silo.txns, End(l).silo.points, Survived(l), k, Across(lives, n - 1, k))
  }

  lemma LifeReplays(l: Life, k: S.Key)
    requires LifeOk(l)
    ensures SiloRecovery.Replay(HistOf(l, k), Front(l))
            == RunOn(End(l).silo.txns, End(l).silo.points, Survived(l), k, S.InitialOf(End(l).silo.initial, k))
  {
    hide IsRun, RunOn, SiloRecovery.Replay, SiloSerial.SerialOf, D.Recs, SiloRecovery.ReadFromPrefix;
    CrashLeavesSerialPrefix(l.run, l.acts, l.kept);
    var s := End(l).silo;
    SerialIsRunOn(s.initial, s.txns, s.points, Survived(l), k);
  }

  // ----- Recovery, life after life -----------------------------------------------------------------------------

  /** What a life adds to the record of a row: its last version that survived, if any. */
  lemma NextTop(lives: seq<Life>, n: nat, k: S.Key, top: Option<R.Event>) returns (top': Option<R.Event>)
    requires Chained(lives) && n < |lives| && Top(lives[..n], k, top) && Ends(lives[n], k)
    ensures Top(lives[..n + 1], k, top')
    ensures var l, j := lives[n], LastKept(HistOf(lives[n], k), Front(lives[n]));
            top' == if j >= 0 then Some(EventOf(k, HistOf(l, k)[j])) else top
  {
    hide Chained, Holds, LifeOk, Ends, Recorded, RecordedBy, LastKept, Front, OnDevice, Kept;
    assert AllOk(lives) by { ChainedOk(lives); }
    var l, h := lives[n], HistOf(lives[n], k);
    var j := LastKept(h, Front(l));
    LastLife(lives, n, k);
    if j < 0 {
      top' := top;
      forall e ensures !Recorded(l, k, e) { NothingLeft(l, k, e); }
      SameTop(lives[..n], lives[..n + 1], k, top);
    } else {
      var t := EventOf(k, h[j]);
      top' := Some(t);
      KeptIsOnDevice(l, k, j);
      LeftIsRecorded(l, k, j);
      assert RecordedBy(lives[..n + 1], k, t);
      forall e | RecordedBy(lives[..n + 1], k, e) ensures e == t || Less(e.tid, t.tid) {
        if Recorded(l, k, e) {
          LastIsNewest(l, k, j, e);
        } else {
          EarlierIsOlder(lives, n, k, j, e);
        }
      }
      assert Top(lives[..n + 1], k, Some(t));
    }
  }

  lemma SameTop(lives: seq<Life>, lives': seq<Life>, k: S.Key, top: Option<R.Event>)
    requires AllOk(lives) && AllOk(lives') && Top(lives, k, top)
    requires forall e :: RecordedBy(lives', k, e) <==> RecordedBy(lives, k, e)
    ensures Top(lives', k, top)
  {
    hide AllOk, RecordedBy;
  }

  lemma ChainedOk(lives: seq<Life>)
    requires Chained(lives)
    ensures AllOk(lives)
  {
  }

  lemma LastLife(lives: seq<Life>, n: nat, k: S.Key)
    requires AllOk(lives) && n < |lives|
    ensures forall e :: RecordedBy(lives[..n + 1], k, e) <==> RecordedBy(lives[..n], k, e) || Recorded(lives[n], k, e)
  {
    hide LifeOk, Recorded;
    assert forall i :: 0 <= i < n ==> lives[..n + 1][i] == lives[..n][i] == lives[i];
    assert lives[..n + 1][n] == lives[n];
  }

  lemma NothingLeft(l: Life, k: S.Key, e: R.Event)
    requires LifeOk(l) && Ends(l, k) && LastKept(HistOf(l, k), Front(l)) < 0
    ensures !Recorded(l, k, e)
  {
    hide LifeOk, OnDevice, LastKept, Ends, Front, Kept;
    forall j | 0 <= j < |HistOf(l, k)| ensures !OnDevice(l, HistOf(l, k)[j]) { KeptIsOnDevice(l, k, j); }
  }

  lemma LeftIsRecorded(l: Life, k: S.Key, j: nat)
    requires LifeOk(l) && j < |HistOf(l, k)| && OnDevice(l, HistOf(l, k)[j])
    ensures Recorded(l, k, EventOf(k, HistOf(l, k)[j]))
  {
  }

  lemma LastIsNewest(l: Life, k: S.Key, j: nat, e: R.Event)
    requires LifeOk(l) && Ends(l, k) && j == LastKept(HistOf(l, k), Front(l)) && Recorded(l, k, e)
    ensures e == EventOf(k, HistOf(l, k)[j]) || Less(e.tid, HistOf(l, k)[j].tid)
  {
    hide LifeOk, OnDevice, LastKept, Less, Front, Kept;
    var i :| 0 <= i < |HistOf(l, k)| && OnDevice(l, HistOf(l, k)[i]) && e == EventOf(k, HistOf(l, k)[i]);
    KeptIsOnDevice(l, k, i);
    assert i <= j;
  }

  lemma EarlierIsOlder(lives: seq<Life>, n: nat, k: S.Key, j: nat, e: R.Event)
    requires Chained(lives) && n < |lives| && Ends(lives[n], k) && j < |HistOf(lives[n], k)|
    requires OnDevice(lives[n], HistOf(lives[n], k)[j]) && RecordedBy(lives[..n], k, e)
    ensures Less(e.tid, HistOf(lives[n], k)[j].tid)
  {
    hide LifeOk, Holds, StartsFrom, Follows, Front, SiloHistory.Increasing;
    var i :| 0 <= i < n && Recorded(lives[..n][i], k, e);
    var l := lives[i];
    assert lives[..n][i] == l;
    var m :| 0 <= m < |HistOf(l, k)| && OnDevice(l, HistOf(l, k)[m]) && e == EventOf(k, HistOf(l, k)[m]);
    LifeEnds(l, k);
    FrontsAscend(lives, i, n);
  }

  /** After any number of lives: what is newest about a row is what its survivors leave when run one at a time. */
  lemma {:induction false} SurvivorsLeave(lives: seq<Life>, n: nat, k: S.Key) returns (top: Option<R.Event>)
    requires Chained(lives) && n <= |lives|
    ensures Top(lives[..n], k, top) && RowBytes(top) == Across(lives, n, k)
  {
    hide LifeOk, Holds, StartsFrom, Follows, Recorded, Top, RunOn, Survived, Ends, LastKept, Front,
         SiloRecovery.Replay;
    if n == 0 {
      top := None;
      NoLives(k);
      assert lives[..0] == [];
    } else {
      var l := lives[n - 1];
      var before := SurvivorsLeave(lives, n - 1, k);
      LifeEnds(l, k);
      top := NextTop(lives, n - 1, k, before);
      StartsAsLeft(lives, n - 1, k, before);
      LaterHaveWriters(l, k);
      ReplayIsLast(HistOf(l, k), Front(l));
      StartRow(l, k);
      LifeReplays(l, k);
    }
  }

  lemma LaterHaveWriters(l: Life, k: S.Key)
    requires LifeOk(l) && Ends(l, k)
    ensures forall j :: 0 < j < |HistOf(l, k)| ==> HistOf(l, k)[j].writer.Some?
  {
    hide LifeOk, OnDevice, Front, SiloHistory.Increasing;
  }

  lemma NoLives(k: S.Key)
    ensures Top([], k, None)
  {
  }

  /** The starting row of a life is what the lives before it leave. */
  lemma StartsAsLeft(lives: seq<Life>, n: nat, k: S.Key, top: Option<R.Event>)
    requires Chained(lives) && n < |lives| && Top(lives[..n], k, top)
    ensures S.InitialOf(lives[n].run[0].silo.initial, k) == RowBytes(top)
    ensures LifeOk(lives[n]) && End(lives[n]).silo.initial == lives[n].run[0].silo.initial
  {
    hide Step, Restarted, Follows, Recorded, SiloReads.HistGrows;
    var l := lives[n];
    TopIsNewest(l.log, lives[..n], k, top);
    assert S.Init(l.run[0].silo) && StartsAt(l.run[0].silo, k, CheckpointFold.LiveRow(top));
    FirstVersions(l.run[0].silo, k);
    RunKeepsStart(l.run, l.acts, |l.acts|);
  }

  /**
   * Whatever log of all lives recovery folds, it finds of every row exactly what the surviving
   * commits of all lives leave when run one at a time, in the order of their serialization points
   * and life after life.
   */
  lemma RecoveryIsSerial(lives: seq<Life>, log: seq<R.Event>, k: S.Key)
    requires Chained(lives) && Holds(log, lives)
    ensures RowBytes(R.Newest(log, RowOf(k))) == Across(lives, |lives|, k)
  {
    hide LifeOk, Chained, Holds, Top, Across, R.Newest;
    ChainedOk(lives);
    var top := SurvivorsLeave(lives, |lives|, k);
    assert lives[..|lives|] == lives;
    TopIsNewest(log, lives, k, top);
  }

  // ----- No survivor read a lost version ------------------------------------------------------------------------

  /** A committed transaction of a life whose epoch survived. */
  predicate Survivor(l: Life, t: TxnId)
    requires LifeOk(l)
  {
    t in End(l).silo.txns && S.Committed(End(l).silo.txns[t]) && End(l).silo.txns[t].epoch <= Front(l)
  }

  /** The version was published in a life by a survivor of that life, which wrote the key. */
  predicate PublishedBy(l: Life, u: TxnId, rd: S.Read)
    requires LifeOk(l)
  {
    && Survivor(l, u) && S.WritesKey(End(l).silo.txns[u].writeSet, rd.key)
    && exists j :: 0 <= j < |HistOf(l, rd.key)| && Shows(HistOf(l, rd.key)[j], u, rd)
  }

  predicate Shows(v: S.Version, u: TxnId, rd: S.Read) {
    v.tid == rd.tid && v.bytes == rd.bytes && v.writer == Some(u)
  }

  /** What was read was published by a survivor of this life that comes before, or of an earlier life. */
  ghost predicate ReadSurvivor(lives: seq<Life>, i: nat, t: TxnId, rd: S.Read)
    requires AllOk(lives) && i < |lives| && t in End(lives[i]).silo.txns
  {
    exists j, u :: ReadsFrom(lives, i, t, rd, j, u)
  }

  predicate ReadsFrom(lives: seq<Life>, i: nat, t: TxnId, rd: S.Read, j: nat, u: TxnId)
    requires AllOk(lives) && i < |lives|
  {
    j <= i && PublishedBy(lives[j], u, rd) && (j == i ==> Precedes(lives[i], u, t))
  }

  predicate Precedes(l: Life, u: TxnId, t: TxnId)
    requires LifeOk(l)
  {
    u in End(l).silo.txns && t in End(l).silo.txns && End(l).silo.txns[u].pos < End(l).silo.txns[t].pos
  }

  /** Within its life, what a survivor found present was a starting row or published by an earlier survivor. */
  lemma ReadInLife(l: Life, t: TxnId, r: nat) returns (j: nat)
    requires LifeOk(l) && Survivor(l, t)
    requires r < |End(l).silo.txns[t].readSet| && End(l).silo.txns[t].readSet[r].found
    ensures var rd := End(l).silo.txns[t].readSet[r];
            && j < |HistOf(l, rd.key)| && HistOf(l, rd.key)[j].tid == rd.tid && HistOf(l, rd.key)[j].bytes == rd.bytes
            && var w := HistOf(l, rd.key)[j].writer;
               w.Some? ==> PublishedBy(l, w.value, rd) && Precedes(l, w.value, t)
  {
    hide IsRun, D.Recs, SiloRecovery.Replay, SiloSerial.SerialOf, SiloRecovery.PointsUpTo, SiloRecovery.FromPrefix;
    var s := End(l).silo;
    var rd := s.txns[t].readSet[r];
    CrashLeavesSerialPrefix(l.run, l.acts, l.kept);
    assert SiloRecovery.ReadFromPrefix(s, t, r, Front(l));
    j :| 0 <= j < |S.Hist(s, rd.key)|
         && SiloRecovery.FromPrefix(s, S.Hist(s, rd.key)[j], rd, s.txns[t].pos, Front(l));
    FromPrefixIs(l, t, rd, j);
  }

  lemma FromPrefixIs(l: Life, t: TxnId, rd: S.Read, j: nat)
    requires LifeOk(l) && t in End(l).silo.txns && j < |HistOf(l, rd.key)|
    requires SiloRecovery.FromPrefix(End(l).silo, HistOf(l, rd.key)[j], rd, End(l).silo.txns[t].pos, Front(l))
    ensures var v := HistOf(l, rd.key)[j];
            && v.tid == rd.tid && v.bytes == rd.bytes
            && (v.writer.Some? ==> PublishedBy(l, v.writer.value, rd) && Precedes(l, v.writer.value, t))
  {
    hide IsRun, Front, S.WritesKey;
    var v := HistOf(l, rd.key)[j];
    if v.writer.Some? { assert Shows(HistOf(l, rd.key)[j], v.writer.value, rd); }
  }

  /** Through any number of restarts, whatever a survivor found present was published by a survivor. */
  lemma NoLostRead(lives: seq<Life>, i: nat, t: TxnId, r: nat)
    requires Chained(lives) && i < |lives| && Survivor(lives[i], t)
    requires r < |End(lives[i]).silo.txns[t].readSet| && End(lives[i]).silo.txns[t].readSet[r].found
    ensures ReadSurvivor(lives, i, t, End(lives[i]).silo.txns[t].readSet[r])
  {
    hide IsRun, Holds, StartsFrom, Follows, PublishedBy, Precedes, Front;
    var rd := End(lives[i]).silo.txns[t].readSet[r];
    var j := ReadInLife(lives[i], t, r);
    var w := HistOf(lives[i], rd.key)[j].writer;
    if w.Some? {
      assert ReadsFrom(lives, i, t, rd, i, w.value);
    } else {
      var m, u := ReadOfStart(lives, i, rd, j);
      assert ReadsFrom(lives, i, t, rd, m, u);
    }
  }

  lemma ReadOfStart(lives: seq<Life>, i: nat, rd: S.Read, m: nat) returns (j: nat, u: TxnId)
    requires Chained(lives) && i < |lives| && m < |HistOf(lives[i], rd.key)|
    requires var v := HistOf(lives[i], rd.key)[m]; v.writer.None? && v.tid == rd.tid && v.bytes == rd.bytes
    ensures j < i && PublishedBy(lives[j], u, rd)
  {
    hide Step, Init, Holds, Follows, OnDevice, Front, PublishedBy, SiloHistory.Increasing, R.Newest, RecordedBy;
    var l, k := lives[i], rd.key;
    LifeEnds(l, k);
    StartVersion(l, k, m);
    var e := CheckpointFold.LiveRow(R.Newest(l.log, RowOf(k)));
    assert StartsAt(l.run[0].silo, k, e);
    assert e == Some(R.Event(e.value.subject, rd.tid, R.Bytes_(rd.bytes)));
    NewestIsIn(l.log, k);
    Unfold(l.log, lives[..i], k, e.value);
    j, u := RecordedIsPublished(lives[..i], rd, e.value);
    assert lives[..i][j] == lives[j];
  }

  lemma StartVersion(l: Life, k: S.Key, m: nat)
    requires LifeOk(l) && Ends(l, k) && m < |HistOf(l, k)| && HistOf(l, k)[m].writer.None?
    ensures k in l.run[0].silo.index && S.Hist(l.run[0].silo, k) == [HistOf(l, k)[m]]
  {
    hide Step, Restarted, OnDevice, Front, SiloHistory.Increasing;
    assert S.Init(l.run[0].silo);
    FirstVersions(l.run[0].silo, k);
    var h, h0 := HistOf(l, k), S.Hist(l.run[0].silo, k);
    assert h == h0 + h[1..];
    assert h0 == [h[0]];
  }

  lemma NewestIsIn(log: seq<R.Event>, k: S.Key)
    ensures R.Newest(log, RowOf(k)).Some? ==>
              R.Newest(log, RowOf(k)).value in log && R.Newest(log, RowOf(k)).value.subject == RowOf(k)
  {
    R.NewestSpec(log, RowOf(k));
  }

  lemma Unfold(log: seq<R.Event>, lives: seq<Life>, k: S.Key, e: R.Event)
    requires AllOk(lives) && Holds(log, lives) && e in log && e.subject == RowOf(k)
    ensures RecordedBy(lives, k, e)
  {
  }

  lemma RecordedIsPublished(lives: seq<Life>, rd: S.Read, e: R.Event) returns (j: nat, u: TxnId)
    requires AllOk(lives) && RecordedBy(lives, rd.key, e) && e.tid == rd.tid && e.content == R.Bytes_(rd.bytes)
    ensures j < |lives| && PublishedBy(lives[j], u, rd)
  {
    hide LifeOk, D.Recs;
    j :| 0 <= j < |lives| && Recorded(lives[j], rd.key, e);
    var l := lives[j];
    var m :| 0 <= m < |HistOf(l, rd.key)| && OnDevice(l, HistOf(l, rd.key)[m])
             && e == EventOf(rd.key, HistOf(l, rd.key)[m]);
    var v := HistOf(l, rd.key)[m];
    u := v.writer.value;
    LifeEnds(l, rd.key);
    WriterCommitted(l, rd.key, m);
    assert Shows(HistOf(l, rd.key)[m], u, rd);
  }

  lemma WriterCommitted(l: Life, k: S.Key, m: nat)
    requires LifeOk(l) && m < |HistOf(l, k)| && HistOf(l, k)[m].writer.Some?
    ensures var v, s := HistOf(l, k)[m], End(l).silo;
            && v.writer.value in s.txns && S.Committed(s.txns[v.writer.value])
            && S.WritesKey(s.txns[v.writer.value].writeSet, k) && s.txns[v.writer.value].epoch == v.tid.epoch
  {
    hide Step, Init, SiloRecovery.WritersAscend, SiloHistory.Increasing, SiloSerial.PosOk;
    SiloChain(l.run, l.acts, k);
    assert SiloRecovery.WriterOk(End(l).silo, k, m, HistOf(l, k)[m]);
  }

  // ----- Every crash can be recovered from ------------------------------------------------------------------------

  lemma {:induction false} Numbered(ks: set<S.Key>) returns (index: map<S.Key, S.SlotId>)
    ensures index.Keys == ks
    ensures forall a, b :: a in index && b in index && index[a] == index[b] ==> a == b
    ensures forall k :: k in index ==> index[k] < |ks|
    decreases |ks|
  {
    index := map[];
    if ks != {} {
      var k :| k in ks;
      var rest := Numbered(ks - {k});
      index := rest[k := |ks| - 1];
    }
  }

  /** Versions a table can start from at an epoch. */
  predicate Startable(rows: map<S.Key, (Tid, Bytes)>, epoch: nat) {
    forall k :: k in rows ==> !Locked(rows[k].0) && rows[k].0 != EMPTY && rows[k].0.epoch < epoch
  }

  function SlotFor(rows: map<S.Key, (Tid, Bytes)>, k: S.Key): S.Slot
    requires k in rows
  {
    S.Slot(k, rows[k].0, rows[k].1, S.Nobody)
  }

  /** A table with given rows. */
  lemma Loaded(rows: map<S.Key, (Tid, Bytes)>, epoch: nat) returns (s: S.State)
    requires Startable(rows, epoch)
    ensures S.Init(s) && s.epoch == epoch && s.index.Keys == rows.Keys
    ensures forall k :: k in rows ==> S.Hist(s, k) == [S.Version(rows[k].0, rows[k].1, None)]
  {
    hide S.Init, Startable;
    var index := Numbered(rows.Keys);
    var slots := Slots(rows, index);
    var initial := map k | k in rows :: rows[k].1;
    var hist := map k | k in rows :: [S.Version(rows[k].0, rows[k].1, None)];
    s := S.State(epoch, slots, index, map[], map[], {}, [], S.Idle, initial, [], hist);
    LoadedIsInit(rows, s);
  }

  lemma Slots(rows: map<S.Key, (Tid, Bytes)>, index: map<S.Key, S.SlotId>) returns (slots: map<S.SlotId, S.Slot>)
    requires index.Keys == rows.Keys
    requires forall a, b :: a in index && b in index && index[a] == index[b] ==> a == b
    ensures forall k :: k in rows ==> index[k] in slots && slots[index[k]] == SlotFor(rows, k)
    ensures forall x :: x in slots ==> slots[x].key in rows && index[slots[x].key] == x
  {
    slots := map x | x in index.Values :: SlotFor(rows, var k :| k in index && index[k] == x; k);
    forall k | k in rows ensures index[k] in slots && slots[index[k]] == SlotFor(rows, k) {
      assert index[k] in index.Values;
    }
  }

  lemma LoadedIsInit(rows: map<S.Key, (Tid, Bytes)>, s: S.State)
    requires Startable(rows, s.epoch) && s.index.Keys == s.initial.Keys == s.hist.Keys == rows.Keys
    requires s.txns == map[] && s.readers == map[] && s.evidence == {} && s.points == [] && s.candidates == []
    requires s.reaper == S.Idle
    requires forall k :: k in rows ==> s.index[k] in s.slots && s.slots[s.index[k]] == SlotFor(rows, k)
    requires forall x :: x in s.slots ==> s.slots[x].key in rows && s.index[s.slots[x].key] == x
    requires forall k :: k in rows ==>
               s.initial[k] == rows[k].1 && s.hist[k] == [S.Version(rows[k].0, rows[k].1, None)]
    ensures S.Init(s)
  {
    hide Locked;
    forall x | x in s.slots ensures s.slots[x] == SlotFor(rows, s.slots[x].key) { }
  }

  /** The rows a log of some lives leaves live, with their versions. */
  ghost function LiveRows(log: seq<R.Event>): map<S.Key, (Tid, Bytes)> {
    map e | e in log && e.subject.Row? && LiveAt(log, KeyOf(e)).Some? && LiveAt(log, KeyOf(e)).value.content.Bytes_?
      :: KeyOf(e) := (LiveAt(log, KeyOf(e)).value.tid, LiveAt(log, KeyOf(e)).value.content.bytes)
  }

  function KeyOf(e: R.Event): S.Key
    requires e.subject.Row?
  {
    S.Key(e.subject.table, e.subject.key)
  }

  function LiveAt(log: seq<R.Event>, k: S.Key): Option<R.Event> {
    CheckpointFold.LiveRow(R.Newest(log, RowOf(k)))
  }

  /** Whatever is newest about a row was published, by a life, under a whole and unlocked version. */
  lemma NewestIsVersion(lives: seq<Life>, log: seq<R.Event>, k: S.Key, e: R.Event, epoch: nat)
    requires AllOk(lives) && Holds(log, lives) && R.Newest(log, RowOf(k)) == Some(e)
    requires forall i :: 0 <= i < |lives| ==> Front(lives[i]) < epoch
    ensures e in log && e.subject == RowOf(k) && e.content.Bytes_?
    ensures !Locked(e.tid) && e.tid != EMPTY && e.tid.epoch < epoch
  {
    hide LifeOk, Holds, R.Newest, Front;
    NewestIsIn(log, k);
    Unfold(log, lives, k, e);
    var i :| 0 <= i < |lives| && Recorded(lives[i], k, e);
    var l := lives[i];
    var j :| 0 <= j < |HistOf(l, k)| && OnDevice(l, HistOf(l, k)[j]) && e == EventOf(k, HistOf(l, k)[j]);
    LifeEnds(l, k);
    WholeVersion(l, k, j);
  }

  lemma WholeVersion(l: Life, k: S.Key, j: nat)
    requires LifeOk(l) && j < |HistOf(l, k)|
    ensures !Locked(HistOf(l, k)[j].tid) && HistOf(l, k)[j].tid != EMPTY
  {
    hide Step, Init, S.Step, S.Init, SiloSerial.LogicalOk, SiloRecovery.RecInv;
    var r, b := SiloRun(l.run, l.acts, |l.acts|);
    SiloRecovery.RunKeepsRecInv(r, b, |b|);
    SiloHistory.HistParts(r[|b|]);
  }

  lemma LiveRowsAre(lives: seq<Life>, log: seq<R.Event>, epoch: nat)
    requires AllOk(lives) && Holds(log, lives) && forall i :: 0 <= i < |lives| ==> Front(lives[i]) < epoch
    ensures Startable(LiveRows(log), epoch)
    ensures forall k :: k in LiveRows(log) <==> LiveAt(log, k).Some?
    ensures forall k :: LiveAt(log, k).Some? ==>
              && LiveAt(log, k).value.content.Bytes_?
              && LiveRows(log)[k] == (LiveAt(log, k).value.tid, LiveAt(log, k).value.content.bytes)
  {
    hide AllOk, Holds, R.Newest, Front;
    forall k | LiveAt(log, k).Some?
      ensures k in LiveRows(log) && LiveAt(log, k).value.content.Bytes_?
      ensures var e := LiveAt(log, k).value; !Locked(e.tid) && e.tid != EMPTY && e.tid.epoch < epoch
    {
      var e := LiveAt(log, k).value;
      NewestIsVersion(lives, log, k, e, epoch);
      assert KeyOf(e) == k;
    }
  }

  /** From every crash a next life can start. */
  lemma RestartIsPossible(lives: seq<Life>, log: seq<R.Event>, mode: D.Policy) returns (l: Life)
    requires Chained(lives) && lives != [] && Holds(log, lives)
    ensures Chained(lives + [l]) && l.log == log
  {
    hide Step, Coupled, Holds, D.Inv, D.Recs, D.Frontier, StartsFrom, Follows;
    var last := lives[|lives| - 1];
    var d := End(last).dur;
    var device := Left(last);
    var epoch := D.ResumeEpochAbove(D.Frontier(device));
    var d' := D.State(EpochSpec.Clock(epoch, map[]), map[], map[], {}, mode, 0, D.Frontier(device), D.Idle, device,
                      D.NoSwitch, {}, d.acked, d.async * D.Recs(device), D.Recs(device), d.broken);
    RunKeepsCoupled(last.run, last.acts, |last.acts|);
    LogSound(End(last));
    D.CrashKeeps(d, last.kept, mode, d');
    EpochsOver(lives, epoch);
    LiveRowsAre(lives, log, epoch);
    var silo := Loaded(LiveRows(log), epoch);
    l := Life(log, [State(silo, d', epoch)], [], 0);
    assert StartsFrom(silo, log) by { LoadedStarts(silo, log); }
    assert Follows(last, l) by { CrashFollows(last, mode, l); }
    OneMoreLife(lives, l);
  }

  lemma EpochsOver(lives: seq<Life>, epoch: nat)
    requires Chained(lives) && lives != []
    requires epoch == D.ResumeEpochAbove(Front(lives[|lives| - 1]))
    ensures forall i :: 0 <= i < |lives| ==> Front(lives[i]) < epoch
  {
    hide Chained, Front, LifeOk;
    ChainedOk(lives);
    forall i | 0 <= i < |lives| ensures Front(lives[i]) < epoch {
      if i < |lives| - 1 { FrontsAscend(lives, i, |lives| - 1); }
    }
  }

  lemma LoadedStarts(s: S.State, log: seq<R.Event>)
    requires forall k :: k in s.index <==> LiveAt(log, k).Some?
    requires forall k :: LiveAt(log, k).Some? ==>
               && LiveAt(log, k).value.content.Bytes_?
               && S.Hist(s, k) == [S.Version(LiveAt(log, k).value.tid, LiveAt(log, k).value.content.bytes, None)]
    ensures StartsFrom(s, log)
  {
    hide R.Newest;
    forall k ensures StartsAt(s, k, LiveAt(log, k)) { }
  }

  lemma CrashFollows(l: Life, mode: D.Policy, l': Life)
    requires LifeOk(l) && LifeOk(l') && D.StepCrash(End(l).dur, l.kept, mode, l'.run[0].dur)
    ensures Follows(l, l')
  {
  }

  lemma OneMoreLife(lives: seq<Life>, l: Life)
    requires Chained(lives) && lives != [] && LifeOk(l) && Holds(l.log, lives) && StartsFrom(l.run[0].silo, l.log)
    requires Follows(lives[|lives| - 1], l)
    ensures Chained(lives + [l])
  {
    hide Step, Init, Holds, StartsFrom, Follows;
    var more := lives + [l];
    forall i | 0 <= i < |more| ensures Holds(more[i].log, more[..i]) && StartsFrom(more[i].run[0].silo, more[i].log) {
      assert more[..i] == if i < |lives| then lives[..i] else lives;
    }
  }
}
