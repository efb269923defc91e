/** The contract every epoch-based argument rests on, as an abstract step relation. */
module EpochSpec {

  type Thread = nat

  /** The global epoch and the threads that have joined one, with the epoch they joined. */
  datatype Clock = Clock(now: nat, online: map<Thread, nat>)

  predicate Join(c: Clock, t: Thread, c': Clock) {
    t !in c.online && c' == c.(online := c.online[t := c.now])
  }

  predicate Leave(c: Clock, t: Thread, c': Clock) {
    t in c.online && c' == c.(online := c.online - {t})
  }

  /** The epoch advances only when every thread online has joined the current one. */
  predicate Tick(c: Clock, c': Clock) {
    (forall t :: t in c.online ==> c.online[t] == c.now) && c' == c.(now := c.now + 1)
  }

  predicate Next(c: Clock, c': Clock) {
    c' == c || Tick(c, c') || (exists t: Thread :: t in c'.online && Join(c, t, c'))
        || (exists t: Thread :: t in c.online && Leave(c, t, c'))
  }

  /** A thread online at e keeps the global epoch at e or e + 1. */
  predicate Bounded(c: Clock) {
    forall t :: t in c.online ==> c.online[t] <= c.now <= c.online[t] + 1
  }

  lemma NextKeepsBounded(c: Clock, c': Clock)
    requires Bounded(c) && Next(c, c')
    ensures Bounded(c') && c.now <= c'.now
  {
  }

  /** Two epochs on, whoever was online at the cut or before has left. */
  lemma TwoEpochsDrain(c: Clock, cut: nat)
    requires Bounded(c) && c.now >= cut + 2
    ensures forall t :: t in c.online ==> c.online[t] > cut
  {
  }
}

/**
 * The epoch framework itself: a join is a store and a reload, retried until they agree, and the
 * writer reads the slots one at a time while threads come and go. Its steps refine the contract.
 */
module EpochFramework {
  import opened Basics
  import opened EpochSpec

  /** Offline, about to store, stored and about to reload, or returned from the join. */
  datatype Pc = Offline | Storing(p: nat) | Stored(p: nat) | Online(e: nat)

  /** The writer: between scans, or with slots left to read and the smallest epoch so far. */
  datatype Writer = Resting | Scanning(todo: set<Thread>, min: Option<nat>)

  datatype State = State(now: nat, slot: map<Thread, Option<nat>>, pc: map<Thread, Pc>, writer: Writer)

  datatype Action = Register(t: Thread) | LoadEpoch(t: Thread) | StoreSlot(t: Thread) | Reload(t: Thread)
                  | GoOffline(t: Thread) | BeginScan | ReadSlot(t: Thread) | EndScan

  predicate Init(s: State) {
    s.now >= 1 && s.slot == map[] && s.pc == map[] && s.writer == Resting
  }

  function Smaller(min: Option<nat>, e: Option<nat>): Option<nat> {
    if e.None? || e.value == 0 then min
    else if min.None? || e.value < min.value then e
    else min
  }

  /** The writer advances when no thread is online, or the oldest one is at the current epoch. */
  predicate MayAdvance(min: Option<nat>, now: nat) {
    min == None || min == Some(now)
  }

  predicate Step(s: State, a: Action, s': State) {
    match a
    case Register(t) =>
      t !in s.slot && s' == s.(slot := s.slot[t := None], pc := s.pc[t := Offline])
    case LoadEpoch(t) =>
      t in s.pc && s.pc[t] == Offline && s' == s.(pc := s.pc[t := Storing(s.now)])
    case StoreSlot(t) =>
      t in s.pc && s.pc[t].Storing? && s' == s.(slot := s.slot[t := Some(s.pc[t].p)],
          pc := s.pc[t := Stored(s.pc[t].p)])
    case Reload(t) =>
      t in s.pc && s.pc[t].Stored?
      && s' == s.(pc := s.pc[t := if s.now == s.pc[t].p then Online(s.now) else Storing(s.now)])
    case GoOffline(t) =>
      t in s.pc && s.pc[t].Online? && s' == s.(slot := s.slot[t := None], pc := s.pc[t := Offline])
    case BeginScan =>
      s.writer == Resting && s' == s.(writer := Scanning(s.slot.Keys, None))
    case ReadSlot(t) =>
      s.writer.Scanning? && t in s.slot
      && s' == s.(writer := Scanning(s.writer.todo - {t}, Smaller(s.writer.min, s.slot[t])))
    case EndScan =>
      s.writer.Scanning? && s.writer.todo == {}
      && s' == s.(writer := Resting, now := if MayAdvance(s.writer.min, s.now) then s.now + 1 else s.now)
  }

  predicate IsRun(run: seq<State>, acts: seq<Action>) {
    |run| == |acts| + 1 && Init(run[0]) && forall i :: 0 <= i < |acts| ==> Step(run[i], acts[i], run[i + 1])
  }

  /** A joined thread's slot shows its epoch; one epoch on, the scan under way has it or will. */
  predicate ThreadOk(s: State, t: Thread)
    requires t in s.pc
  {
    && t in s.slot
    && match s.pc[t]
       case Offline => s.slot[t] == None
       case Storing(p) => 1 <= p <= s.now
       case Stored(p) => s.slot[t] == Some(p) && 1 <= p <= s.now
       case Online(e) =>
         && s.slot[t] == Some(e) && 1 <= e <= s.now <= e + 1
         && (s.writer.Scanning? && s.now == e + 1 ==>
               t in s.writer.todo || (s.writer.min.Some? && s.writer.min.value <= e))
  }

  predicate Inv(s: State) {
    s.now >= 1 && s.pc.Keys == s.slot.Keys && forall t :: t in s.pc ==> ThreadOk(s, t)
  }

  /** The clock of the contract: a thread is online once its join has returned. */
  function Abs(s: State): Clock {
    Clock(s.now, map t | t in s.pc && s.pc[t].Online? :: s.pc[t].e)
  }

  lemma StepKeepsInv(s: State, a: Action, s': State)
    requires Inv(s) && Step(s, a, s')
    ensures Inv(s')
  {
    hide ThreadOk;
    forall t | t in s'.pc ensures ThreadOk(s', t) {
      match a
      case Register(u) => if t != u { OtherThread(s, s', t); } else { Registered(s, u, s'); }
      case LoadEpoch(u) => if t != u { OtherThread(s, s', t); } else { OwnStep(s, a, u, s'); }
      case StoreSlot(u) => if t != u { OtherThread(s, s', t); } else { OwnStep(s, a, u, s'); }
      case Reload(u) => if t != u { OtherThread(s, s', t); } else { OwnStep(s, a, u, s'); }
      case GoOffline(u) => if t != u { OtherThread(s, s', t); } else { OwnStep(s, a, u, s'); }
      case _ => WriterStep(s, a, t, s');
    }
  }

  lemma OtherThread(s: State, s': State, t: Thread)
    requires t in s.pc && ThreadOk(s, t) && t in s'.pc && t in s'.slot && s'.pc[t] == s.pc[t] && s'.slot[t] == s.slot[t]
    requires s'.now == s.now && s'.writer == s.writer
    ensures ThreadOk(s', t)
  {
  }

  lemma Registered(s: State, t: Thread, s': State)
    requires Step(s, Register(t), s')
    ensures ThreadOk(s', t)
  {
  }

  lemma OwnStep(s: State, a: Action, t: Thread, s': State)
    requires s.now >= 1 && t in s.pc && ThreadOk(s, t) && Step(s, a, s')
    requires a == LoadEpoch(t) || a == StoreSlot(t) || a == Reload(t) || a == GoOffline(t)
    ensures ThreadOk(s', t)
  {
  }

  lemma WriterStep(s: State, a: Action, t: Thread, s': State)
    requires s.now >= 1 && s.pc.Keys == s.slot.Keys && t in s.pc && ThreadOk(s, t) && Step(s, a, s')
    requires a == BeginScan || a.ReadSlot? || a == EndScan
    ensures t in s'.pc && ThreadOk(s', t)
  {
  }

  /** Every step of the framework is a step of the contract, or none. */
  lemma StepRefines(s: State, a: Action, s': State)
    requires Inv(s) && Step(s, a, s')
    ensures Next(Abs(s), Abs(s'))
  {
    match a
    case Reload(t) =>
      if s.now == s.pc[t].p {
        assert t in Abs(s').online && Join(Abs(s), t, Abs(s'));
      } else {
        assert Abs(s') == Abs(s);
      }
    case GoOffline(t) =>
      assert t in Abs(s).online && Leave(Abs(s), t, Abs(s'));
    case EndScan =>
      assert Abs(s').online == Abs(s).online;
      if MayAdvance(s.writer.min, s.now) {
        forall t | t in Abs(s).online ensures Abs(s).online[t] == s.now { assert ThreadOk(s, t); }
        assert Tick(Abs(s), Abs(s'));
      }
    case _ => assert Abs(s') == Abs(s);
  }

  /**
   * In every run, under every interleaving of joins with the writer's slot-by-slot scans, each
   * step refines the contract, and a thread that has joined e sees the global epoch at e or e + 1.
   */
  lemma {:induction false} RunRefines(run: seq<State>, acts: seq<Action>, n: nat)
    requires IsRun(run, acts) && n <= |acts|
    ensures Inv(run[n]) && Bounded(Abs(run[n]))
    ensures forall i :: 0 <= i < n ==> Next(Abs(run[i]), Abs(run[i + 1]))
  {
    hide Step;
    if n > 0 {
      RunRefines(run, acts, n - 1);
      StepKeepsInv(run[n - 1], acts[n - 1], run[n]);
      StepRefines(run[n - 1], acts[n - 1], run[n]);
    }
    forall t | t in Abs(run[n]).online ensures Abs(run[n]).online[t] <= run[n].now <= Abs(run[n]).online[t] + 1 {
      assert ThreadOk(run[n], t);
    }
  }

  /** A scan that passes a slot before the store lands sees nobody online. */
  lemma ScanMisses(s: State, t: Thread)
    requires s.slot == map[t := None] && s.writer == Resting
    ensures Step(s, BeginScan, s.(writer := Scanning({t}, None)))
    ensures Step(s.(writer := Scanning({t}, None)), ReadSlot(t), s.(writer := Scanning({}, None)))
  {
    assert s.slot.Keys == {t} && {t} - {t} == {};
  }

  /** A join that stored once without reloading could be left two epochs behind. */
  lemma SingleStoreFallsBehind(t: Thread, e: nat) returns (run: seq<State>, acts: seq<Action>)
    requires e >= 1
    ensures IsRun(run, acts)
    ensures var s := run[|acts|];
            t in s.pc && s.pc[t] == Stored(e) && t in s.slot && s.slot[t] == Some(e) && s.now == e + 2
  {
    var s0 := State(e, map[], map[], Resting);
    var s1 := State(e, map[t := None], map[t := Offline], Resting);
    var s2 := State(e, map[t := None], map[t := Storing(e)], Resting);
    var s5 := s2.(now := e + 1);
    var s7 := s5.(writer := Scanning({}, None));
    var s8 := State(e + 1, map[t := Some(e)], map[t := Stored(e)], Scanning({}, None));
    var s9 := s8.(now := e + 2, writer := Resting);
    assert Step(s0, Register(t), s1) && Step(s1, LoadEpoch(t), s2);
    assert Step(s2.(writer := Scanning({}, None)), EndScan, s5);
    assert Step(s7, StoreSlot(t), s8) && Step(s8, EndScan, s9);
    ScanMisses(s2, t);
    ScanMisses(s5, t);
    hide Step;
    run := [s0, s1, s2, s2.(writer := Scanning({t}, None)), s2.(writer := Scanning({}, None)), s5,
            s5.(writer := Scanning({t}, None)), s7, s8, s9];
    acts := [Register(t), LoadEpoch(t), BeginScan, ReadSlot(t), EndScan, BeginScan, ReadSlot(t), StoreSlot(t), EndScan];
  }
}
