/**
 * A Sync commit waits for its epoch to close and for the flusher, and for nothing else: once no
 * thread is online, an acknowledgement can be reached from every reachable state in which the log
 * has not failed. So durability waits, which hold neither a row nor an epoch, never deadlock.
 */
module DurabilityProgress {
  import opened Basics
  import opened EpochSpec
  import opened Durability

  /** A continuation of a state without crashes or log failures. */
  datatype Path = Path(states: seq<State>, acts: seq<Action>)

  predicate Smooth(a: Action) {
    !a.DoCrash? && !a.DoFail?
  }

  predicate IsPath(p: Path) {
    && |p.states| == |p.acts| + 1
    && forall i :: 0 <= i < |p.acts| ==> Smooth(p.acts[i]) && Step(p.states[i], p.acts[i], p.states[i + 1])
  }

  function First(p: Path): State
    requires IsPath(p)
  {
    p.states[0]
  }

  function Final(p: Path): State
    requires IsPath(p)
  {
    p.states[|p.acts|]
  }

  function Here(s: State): (p: Path)
    ensures IsPath(p) && First(p) == s && Final(p) == s
  {
    Path([s], [])
  }

  /** One more step. */
  lemma Then(p: Path, a: Action, s': State) returns (q: Path)
    requires IsPath(p) && Inv(Final(p)) && Smooth(a) && Step(Final(p), a, s')
    ensures IsPath(q) && First(q) == First(p) && Final(q) == s' && Inv(s')
  {
    hide Step, Inv;
    q := Path(p.states + [s'], p.acts + [a]);
    forall i | 0 <= i < |q.acts| ensures Smooth(q.acts[i]) && Step(q.states[i], q.acts[i], q.states[i + 1]) {
      if i < |p.acts| { assert Step(p.states[i], p.acts[i], p.states[i + 1]); }
    }
    StepKeepsInv(Final(p), a, s');
  }

  // ----- A group always exists -------------------------------------------------------------------

  function GroupUpTo(carry: set<Rec>, target: nat): seq<Frame> {
    var rest := if target == 0 then [] else GroupUpTo(carry, target - 1);
    if EpochRecs(carry, target) == {} then rest else rest + [Frame(target, EpochRecs(carry, target))]
  }

  lemma {:induction false} GroupUpToIsGroup(carry: set<Rec>, target: nat)
    ensures GroupOf(carry, target, GroupUpTo(carry, target))
  {
    hide GroupOf, EpochRecs;
    if target == 0 {
      GroupGrows(carry, 0, []);
    } else {
      GroupUpToIsGroup(carry, target - 1);
      GroupGrows(carry, target, GroupUpTo(carry, target - 1));
    }
  }

  /** A group below the target becomes one of the target with the target's own frame, if any. */
  lemma GroupGrows(carry: set<Rec>, target: nat, rest: seq<Frame>)
    requires if target == 0 then rest == [] else GroupOf(carry, target - 1, rest)
    ensures GroupOf(carry, target, if EpochRecs(carry, target) == {} then rest
                                   else rest + [Frame(target, EpochRecs(carry, target))])
  {
    var own := EpochRecs(carry, target);
    var group := if own == {} then rest else rest + [Frame(target, own)];
    forall r | r in carry && r.epoch <= target ensures exists i :: 0 <= i < |group| && group[i].epoch == r.epoch {
      if r.epoch == target {
        assert r in own && group[|group| - 1].epoch == target;
      } else {
        var i :| 0 <= i < |rest| && rest[i].epoch == r.epoch;
        assert group[i].epoch == r.epoch;
      }
    }
  }

  // ----- The flusher finishes its pass -------------------------------------------------------------

  /** What a flusher pass leaves alone, and what it leaves behind. */
  predicate Flushed(s: State, s': State, target: nat) {
    s'.clock == s.clock && s'.pending == s.pending && s'.waiting == s.waiting && s'.acked == s.acked
    && s'.flusher == Idle && s'.durable == target
  }

  lemma {:induction false} CollectAll(p: Path, n: nat) returns (q: Path)
    requires IsPath(p) && Inv(Final(p)) && Final(p).flusher.Collecting? && n == |Final(p).flusher.todo|
    requires Final(p).flusher.todo <= Final(p).buffers.Keys
    ensures IsPath(q) && First(q) == First(p) && Inv(Final(q)) && Final(q).flusher.Collecting?
    ensures Final(q).flusher.todo == {}
    ensures var s, s' := Final(p), Final(q);
            && s'.clock == s.clock && s'.pending == s.pending && s'.waiting == s.waiting && s'.acked == s.acked
            && s'.flusher.target == s.flusher.target
    decreases n
  {
    hide Inv, Step;
    var s := Final(p);
    if s.flusher.todo == {} {
      q := p;
    } else {
      var t :| t in s.flusher.todo;
      var s' := s.(flusher := s.flusher.(todo := s.flusher.todo - {t}),
                   buffers := s.buffers[t := {}], carry := s.carry + s.buffers[t],
                   broken := s.broken || exists r :: r in s.buffers[t] && r.epoch <= s.flusher.before);
      CollectSteps(s, t, s');
      var next := Then(p, DoCollect(t), s');
      q := CollectAll(next, n - 1);
    }
  }

  lemma CollectSteps(s: State, t: Thread, s': State)
    requires StepCollect(s, t, s')
    ensures Step(s, DoCollect(t), s')
  {
  }

  lemma WriteAndPublish(p: Path) returns (q: Path)
    requires IsPath(p) && Inv(Final(p)) && Final(p).flusher.Writing?
    ensures IsPath(q) && First(q) == First(p) && Inv(Final(q)) && Flushed(Final(p), Final(q), Final(p).flusher.target)
  {
    hide Inv, Recs, Above;
    var s := Final(p);
    var s1 := s.(device := s.device + s.flusher.group, carry := Above(s.carry, s.flusher.target),
        flusher := Publishing(s.flusher.target));
    assert Step(s, DoSynced, s1);
    var p1 := Then(p, DoSynced, s1);
    q := PublishNow(p1);
  }

  lemma PublishNow(p: Path) returns (q: Path)
    requires IsPath(p) && Inv(Final(p)) && Final(p).flusher.Publishing?
    ensures IsPath(q) && First(q) == First(p) && Inv(Final(q)) && Flushed(Final(p), Final(q), Final(p).flusher.target)
  {
    hide Inv;
    var s := Final(p);
    var s' := s.(durable := s.flusher.target, flusher := Idle, broken := s.broken || s.flusher.target < s.durable);
    assert Step(s, DoPublish, s');
    q := Then(p, DoPublish, s');
  }

  lemma FinishCollecting(p: Path) returns (q: Path)
    requires IsPath(p) && Inv(Final(p)) && Final(p).flusher.Collecting?
    requires Final(p).flusher.todo <= Final(p).buffers.Keys
    ensures IsPath(q) && First(q) == First(p) && Inv(Final(q)) && Flushed(Final(p), Final(q), Final(p).flusher.target)
  {
    hide Inv, Step, GroupOf, Frontier;
    var c := CollectAll(p, |Final(p).flusher.todo|);
    var s := Final(c);
    var group := GroupUpTo(s.carry, s.flusher.target);
    GroupUpToIsGroup(s.carry, s.flusher.target);
    var s' := s.(flusher := Writing(s.flusher.target, group),
                 broken := s.broken
                   || exists i :: 0 <= i < |group| && (group[i].epoch == 0 || group[i].epoch < Frontier(s.device)));
    WriteSteps(s, group, s');
    var w := Then(c, DoWrite(group), s');
    q := WriteAndPublish(w);
  }

  lemma WriteSteps(s: State, group: seq<Frame>, s': State)
    requires StepWrite(s, group, s')
    ensures Step(s, DoWrite(group), s')
  {
  }

  /** A pass from its start: everything pending becomes durable. */
  lemma FullPass(p: Path) returns (q: Path)
    requires IsPath(p) && Inv(Final(p)) && Final(p).flusher == Idle && Final(p).pending > Final(p).durable
    ensures IsPath(q) && First(q) == First(p) && Inv(Final(q)) && Flushed(Final(p), Final(q), Final(p).pending)
  {
    hide Inv;
    var s := Final(p);
    var s' := s.(flusher := Collecting(s.pending, s.durable, s.buffers.Keys));
    assert Step(s, DoWake, s');
    var w := Then(p, DoWake, s');
    q := FinishCollecting(w);
  }

  /** Whatever the flusher is doing, it can come to rest. */
  lemma ComeToRest(p: Path) returns (q: Path)
    requires IsPath(p) && Inv(Final(p)) && !Final(p).flusher.Halted?
    requires Final(p).flusher.Collecting? ==> Final(p).flusher.todo <= Final(p).buffers.Keys
    ensures IsPath(q) && First(q) == First(p) && Inv(Final(q)) && Final(q).flusher == Idle
    ensures Final(q).clock == Final(p).clock && Final(q).waiting == Final(p).waiting
  {
    hide Inv;
    match Final(p).flusher
    case Idle => q := p;
    case Collecting(_, _, _) => q := FinishCollecting(p);
    case Writing(_, _) => q := WriteAndPublish(p);
    case Publishing(_) => q := PublishNow(p);
  }

  // ----- The clock moves on ---------------------------------------------------------------------------

  lemma TickOnce(p: Path) returns (q: Path)
    requires IsPath(p) && Inv(Final(p)) && Final(p).clock.online == map[]
    ensures IsPath(q) && First(q) == First(p) && Inv(Final(q))
    ensures Final(q) == Final(p).(clock := Clock(Final(p).clock.now + 1, map[]))
  {
    hide Inv;
    var s := Final(p);
    var s' := s.(clock := Clock(s.clock.now + 1, map[]));
    assert Tick(s.clock, s'.clock);
    assert Step(s, DoTick, s');
    q := Then(p, DoTick, s');
  }

  /** With nobody online the clock can reach any later epoch. */
  lemma {:induction false} TicksTo(p: Path, now: nat) returns (q: Path)
    requires IsPath(p) && Inv(Final(p)) && Final(p).clock.online == map[] && Final(p).clock.now <= now
    ensures IsPath(q) && First(q) == First(p) && Inv(Final(q)) && Final(q) == Final(p).(clock := Clock(now, map[]))
    decreases now - Final(p).clock.now
  {
    hide Inv, Step;
    if Final(p).clock.now == now {
      q := p;
    } else {
      q := TickOnce(p);
      q := TicksTo(q, now);
    }
  }

  /**
   * From every reachable state in which nobody is online and the log has not failed, any waiting
   * commit can be acknowledged, without a crash and without a failure.
   */
  lemma AcknowledgementIsReachable(run: seq<State>, acts: seq<Action>, r: Rec) returns (p: Path)
    requires IsRun(run, acts) && run[|acts|].clock.online == map[]
    requires r in run[|acts|].waiting && !run[|acts|].flusher.Halted?
    ensures IsPath(p) && First(p) == run[|acts|] && r in Final(p).acked
  {
    hide Inv, Step;
    RunKeepsInv(run, acts, |acts|);
    p := WaitingCanBeAcknowledged(run[|acts|], r);
  }

  lemma WaitingCanBeAcknowledged(s: State, r: Rec) returns (p: Path)
    requires Inv(s) && s.clock.online == map[] && r in s.waiting && !s.flusher.Halted?
    ensures IsPath(p) && First(p) == s && r in Final(p).acked
  {
    hide Inv, Step;
    EpochOfWaiting(s, r);
    CollectsFromBuffers(s);
    p := ComeToRest(Here(s));
    p := TickOnce(p);
    p := TickOnce(p);
    var t := Final(p);
    var closed := t.clock.now - 2;
    assert closed >= r.epoch;
    if closed >= 1 {
      var t' := t.(pending := Max(t.pending, closed));
      ScheduleSteps(t, closed, t');
      p := Then(p, DoSchedule(closed), t');
    }
    if Final(p).pending > Final(p).durable { p := FullPass(p); }
    var u := Final(p);
    var u' := u.(waiting := u.waiting - {r}, acked := u.acked + {r});
    AckSteps(u, r, u');
    p := Then(p, DoAck(r), u');
  }

  lemma CollectsFromBuffers(s: State)
    requires Inv(s)
    ensures s.flusher.Collecting? ==> s.flusher.todo <= s.buffers.Keys
  {
  }

  lemma EpochOfWaiting(s: State, r: Rec)
    requires Inv(s) && r in s.waiting
    ensures r.epoch <= s.clock.now && s.clock.now >= 1
  {
  }

  lemma ScheduleSteps(s: State, closed: nat, s': State)
    requires closed >= 1 && closed + 2 <= s.clock.now && s' == s.(pending := Max(s.pending, closed))
    ensures Step(s, DoSchedule(closed), s')
  {
  }

  lemma AckSteps(s: State, r: Rec, s': State)
    requires r in s.waiting && s.durable >= r.epoch && s' == s.(waiting := s.waiting - {r}, acked := s.acked + {r})
    ensures Step(s, DoAck(r), s')
  {
  }
}
