/**
 * An image that outlives the incarnation that wrote it. Epochs resume from the frames of the log,
 * not from the image's cut, and epochs that closed without a record leave no frame. So after a
 * restart commits can land at or below the cut, where a later recovery from the same image skips
 * them. Image and log keep agreeing exactly when the log reached the cut.
 */
module CheckpointRestart {
  import opened Basics
  import opened Versions
  import opened RecoveryFold
  import opened CheckpointFold
  import Durability
  import opened DurabilityProgress
  import EpochSpec

  /** What commits of a new incarnation may add: newer versions, from the resumed epoch on. */
  predicate Continues(h: History, h': History, resumed: nat) {
    && h'.Keys == h.Keys && HistoryOk(h')
    && forall x :: x in h ==>
         && h[x] <= h'[x]
         && forall i :: |h[x]| <= i < |h'[x]| ==> h'[x][i].tid.epoch >= resumed
  }

  /** The history a restart recovers: nothing past the frontier of the log. */
  predicate UpToFrontier(h: History, frontier: nat) {
    forall x, i :: x in h && 0 <= i < |h[x]| ==> h[x][i].tid.epoch <= frontier
  }

  /** The image still describes the log, whatever is committed next and wherever the log then ends. */
  ghost predicate StaysUsable(h: History, captured: map<Thing, nat>, cut: nat, frontier: nat) {
    forall h', frontier' :: Continues(h, h', Durability.ResumeEpochAbove(frontier)) && frontier' >= frontier ==>
      ImageAgrees(h', captured, cut, frontier')
  }

  /** About every plain subject, recovery from image and tail gives what recovery from the whole log gives. */
  ghost predicate ImageAgrees(h: History, captured: map<Thing, nat>, cut: nat, frontier: nat) {
    forall log, image, tail, s :: AgreesAbout(h, captured, cut, frontier, log, image, tail, s)
  }

  ghost predicate AgreesAbout(h: History, captured: map<Thing, nat>, cut: nat, frontier: nat,
                              log: seq<Event>, image: seq<Event>, tail: seq<Event>, s: Subject) {
    && Plain(h, s) && LogAbout(log, h, -1, frontier, s)
    && LogAbout(tail, h, cut, frontier, s) && ImageAbout(image, h, captured, s) ==>
      && (s.Row? ==> LiveRow(Newest(image + tail, s)) == LiveRow(Newest(log, s)))
      && (s.Posting? ==> Added(Newest(image + tail, s)) == Added(Newest(log, s)))
  }

  lemma FuzzyAgrees(h: History, captured: map<Thing, nat>, cut: nat, frontier: nat)
    requires HistoryOk(h) && Fuzzy(h, captured, cut, frontier) && captured.Keys <= h.Keys
    ensures ImageAgrees(h, captured, cut, frontier)
  {
    hide HistoryOk, Fuzzy, LogAbout, ImageAbout, Newest, Plain, LogFaithful, ImageFaithful, BothAgree;
    forall log, image, tail, s ensures AgreesAbout(h, captured, cut, frontier, log, image, tail, s) {
      if && Plain(h, s) && LogAbout(log, h, -1, frontier, s)
         && LogAbout(tail, h, cut, frontier, s) && ImageAbout(image, h, captured, s)
      {
        ImageAndTailRebuildTheLog(log, image, tail, h, captured, cut, frontier, s);
        if s.Posting? {
          var vs := VersionsOf(h, ThingOf(s));
          PlainIsFaithful(h, s, Captured(captured, ThingOf(s)), UpTo(vs, frontier), cut);
        }
      }
    }
  }

  /** If the log reached the cut, new epochs lie above it and the image stays fuzzy. */
  lemma ReachedCutStaysFuzzy(h: History, h': History, captured: map<Thing, nat>, cut: nat, frontier: nat,
                             frontier': nat)
    requires Fuzzy(h, captured, cut, frontier) && captured.Keys <= h.Keys && Max(1, frontier) >= cut
    requires frontier' >= frontier
    requires Continues(h, h', Durability.ResumeEpochAbove(frontier))
    ensures Fuzzy(h', captured, cut, frontier')
  {
    hide HistoryOk;
    forall x | x in h'
      ensures Captured(captured, x) <= |h'[x]|
           && (forall i :: Captured(captured, x) <= i < |h'[x]| ==> h'[x][i].tid.epoch > cut)
           && (forall i :: 0 <= i < Captured(captured, x) ==> h'[x][i].tid.epoch <= frontier')
    {
      assert x in h && h[x] <= h'[x];
      assert forall i :: 0 <= i < |h[x]| ==> h'[x][i] == h[x][i];
    }
  }

  // ----- The lost commit ----------------------------------------------------------------------------

  /** One more commit of the new incarnation, in its first epoch. */
  function NextCommit(h: History, x: Thing, frontier: nat, bytes: Bytes): History
    requires x in h
  {
    h[x := h[x] + [Version(Tid(Durability.ResumeEpochAbove(frontier), 2), bytes, [])]]
  }

  lemma NextCommitContinues(h: History, x: Thing, frontier: nat, bytes: Bytes)
    requires HistoryOk(h) && UpToFrontier(h, frontier) && x in h
    ensures Continues(h, NextCommit(h, x, frontier, bytes), Durability.ResumeEpochAbove(frontier))
  {
    var h' := NextCommit(h, x, frontier, bytes);
    forall y | y in h' ensures Increasing(h'[y]) {
      assert Increasing(h[y]);
      if y == x {
        forall i | 0 <= i < |h[x]| ensures Less(h[x][i].tid, h'[x][|h[x]|].tid) {
          assert h[x][i].tid.epoch <= frontier;
        }
      }
    }
  }

  function RowEvents(vs: seq<Version>, s: Subject): (es: seq<Event>)
    ensures |es| == |vs| && forall i :: 0 <= i < |vs| ==> es[i] == Event(s, vs[i].tid, Bytes_(vs[i].bytes))
  {
    seq(|vs|, i requires 0 <= i < |vs| => Event(s, vs[i].tid, Bytes_(vs[i].bytes)))
  }

  /** The commit is the newest word of the log, and the image with its tail has never heard of it. */
  lemma CommitBelowCutIsLost(h: History, captured: map<Thing, nat>, cut: nat, frontier: nat, s: Subject, bytes: Bytes)
    requires HistoryOk(h) && UpToFrontier(h, frontier) && Fuzzy(h, captured, cut, frontier)
    requires s.Row? && ThingOf(s) in h && bytes != [] && Max(1, frontier) < cut
    ensures var h' := NextCommit(h, ThingOf(s), frontier, bytes);
            !ImageAgrees(h', captured, cut, Durability.ResumeEpochAbove(frontier))
  {
    hide HistoryOk, Newest, ImageAgrees, LogAbout, ImageAbout, UpToFrontier, Fuzzy;
    var x, resumed := ThingOf(s), Durability.ResumeEpochAbove(frontier);
    var h' := NextCommit(h, x, frontier, bytes);
    NextCommitContinues(h, x, frontier, bytes);
    var log := RowEvents(h'[x], s);
    var image := CapturedRow(h, h', captured, cut, frontier, s);
    NextCommitLogged(h, h', cut, frontier, s, bytes);
    NewestRow(h', s, h'[x], log);
    assert image + [] == image && Plain(h', s);
    Disagrees(h', captured, cut, resumed, log, image, [], s);
  }

  /** The log has every version of the row, and its tail past the cut none. */
  lemma NextCommitLogged(h: History, h': History, cut: nat, frontier: nat, s: Subject, bytes: Bytes)
    requires s.Row? && ThingOf(s) in h && UpToFrontier(h, frontier) && h' == NextCommit(h, ThingOf(s), frontier, bytes)
    requires HistoryOk(h') && Max(1, frontier) < cut
    ensures var resumed := Durability.ResumeEpochAbove(frontier);
            && LogAbout(RowEvents(h'[ThingOf(s)], s), h', -1, resumed, s) && LogAbout([], h', cut, resumed, s)
            && forall i :: 0 <= i < |h'[ThingOf(s)]| ==> h'[ThingOf(s)][i].tid.epoch <= cut
  {
    var x, resumed := ThingOf(s), Durability.ResumeEpochAbove(frontier);
    EveryVersionLogged(h', s, resumed, RowEvents(h'[x], s));
  }

  /** The image of the row as it was captured, before the last commit. */
  lemma CapturedRow(h: History, h': History, captured: map<Thing, nat>, cut: nat, frontier: nat, s: Subject)
    returns (image: seq<Event>)
    requires s.Row? && ThingOf(s) in h && ThingOf(s) in h' && h[ThingOf(s)] <= h'[ThingOf(s)]
    requires Fuzzy(h, captured, cut, frontier) && UpToFrontier(h, frontier)
    ensures ImageAbout(image, h', captured, s)
    ensures Newest(image, s).Some? ==> Newest(image, s).value.tid.epoch <= frontier
  {
    var x := ThingOf(s);
    var c := CapturedEvent(s, h'[x], Captured(captured, x));
    image := if c.Some? then [c.value] else [];
    NewestInImage(image, h', captured, s);
    if c.Some? { assert h'[x][Captured(captured, x) - 1] == h[x][Captured(captured, x) - 1]; }
  }

  lemma Disagrees(h: History, captured: map<Thing, nat>, cut: nat, frontier: nat, log: seq<Event>, image: seq<Event>,
                  tail: seq<Event>, s: Subject)
    requires !AgreesAbout(h, captured, cut, frontier, log, image, tail, s)
    ensures !ImageAgrees(h, captured, cut, frontier)
  {
  }

  lemma EveryVersionLogged(h: History, s: Subject, high: nat, log: seq<Event>)
    requires s.Row? && ThingOf(s) in h && log == RowEvents(h[ThingOf(s)], s)
    requires forall i :: 0 <= i < |h[ThingOf(s)]| ==> h[ThingOf(s)][i].tid.epoch <= high
    requires Increasing(h[ThingOf(s)])
    ensures LogAbout(log, h, -1, high, s)
  {
    var vs := h[ThingOf(s)];
    assert forall i :: 0 <= i < |vs| ==> LoggedEvents(s, vs[i]) == [log[i]];
    forall e: Event | e.subject == s
      ensures e in log <==> exists i :: 0 <= i < |vs| && Within(vs[i], -1, high) && e in LoggedEvents(s, vs[i])
    {
      if e in log {
        var i :| 0 <= i < |log| && log[i] == e;
        assert Within(vs[i], -1, high) && e in LoggedEvents(s, vs[i]);
      }
    }
    forall i | 0 <= i < |vs| ensures ComesFirst(log, log[i]) {
      assert log[i] == log[i];
    }
  }

  lemma NewestRow(h: History, s: Subject, vs: seq<Version>, log: seq<Event>)
    requires HistoryOk(h) && s.Row? && ThingOf(s) in h && vs == h[ThingOf(s)] && vs != [] && log == RowEvents(vs, s)
    ensures Newest(log, s) == Some(log[|vs| - 1])
  {
    hide Newest;
    assert Increasing(vs);
    NewestIs(log, s, log[|vs| - 1]);
  }

  /**
   * After a restart the image keeps agreeing with the log, whatever is committed next, exactly
   * when the frames of the log reached the image's cut.
   */
  lemma ImageOutlivesRestartIffLogReachedCut(h: History, captured: map<Thing, nat>, cut: nat, frontier: nat, s: Subject)
    requires HistoryOk(h) && UpToFrontier(h, frontier) && Fuzzy(h, captured, cut, frontier) && captured.Keys <= h.Keys
    requires s.Row? && ThingOf(s) in h
    ensures StaysUsable(h, captured, cut, frontier) <==> Max(1, frontier) >= cut
  {
    hide HistoryOk, Fuzzy, ImageAgrees, UpToFrontier;
    if Max(1, frontier) >= cut {
      forall h', frontier' | Continues(h, h', Durability.ResumeEpochAbove(frontier)) && frontier' >= frontier
        ensures ImageAgrees(h', captured, cut, frontier')
      {
        ReachedCutStaysFuzzy(h, h', captured, cut, frontier, frontier');
        FuzzyAgrees(h', captured, cut, frontier');
      }
    } else {
      NextCommitContinues(h, ThingOf(s), frontier, [1]);
      CommitBelowCutIsLost(h, captured, cut, frontier, s, [1]);
    }
  }

  // ----- It happens ---------------------------------------------------------------------------------

  /** With nothing to persist the flusher passes the pending epoch without a frame. */
  lemma IdleFlush(s: Durability.State, cut: nat)
    requires s.pending == cut && s.durable == 0 < cut && s.flusher == Durability.Idle && s.buffers == map[]
    requires s.carry == {}
    requires s.device == [] && !s.broken
    ensures Durability.Step(s, Durability.DoWake, s.(flusher := Durability.Collecting(cut, 0, {})))
    ensures Durability.Step(s.(flusher := Durability.Collecting(cut, 0, {})), Durability.DoWrite([]),
            s.(flusher := Durability.Writing(cut, [])))
    ensures Durability.Step(s.(flusher := Durability.Writing(cut, [])), Durability.DoSynced,
            s.(flusher := Durability.Publishing(cut)))
    ensures Durability.Step(s.(flusher := Durability.Publishing(cut)), Durability.DoPublish, s.(durable := cut))
  {
    assert s.buffers.Keys == {} && Durability.GroupOf({}, cut, []) && Durability.Above({}, cut) == {};
  }

  /**
   * For every cut of at least 2 there is a run of a fresh database, ticking from epoch 1, in which
   * the log is durable through the cut, so an image with that cut may be published, while the log
   * holds no frame to resume above it.
   */
  lemma IdleEpochsOutrunTheLog(cut: nat, mode: Durability.Policy)
    returns (run: seq<Durability.State>, acts: seq<Durability.Action>)
    requires cut >= 2
    ensures Durability.IsRun(run, acts) && run[0].clock.now == 1
    ensures var s := run[|acts|]; s.durable >= cut && Max(1, Durability.Frontier(s.device)) < cut
  {
    var s0 := Durability.State(EpochSpec.Clock(1, map[]), map[], map[], {}, mode, 0, 0, Durability.Idle, [],
                               Durability.NoSwitch, {}, {}, {}, {}, false);
    Durability.RunKeepsInv([s0], [], 0);
    hide Durability.Inv;
    var p := TicksTo(Here(s0), cut + 2);
    var s := Final(p).(pending := cut);
    ScheduleSteps(Final(p), cut, s);
    IdleFlush(s, cut);
    hide Durability.Step;
    p := Then(p, Durability.DoSchedule(cut), s);
    p := Then(p, Durability.DoWake, s.(flusher := Durability.Collecting(cut, 0, {})));
    p := Then(p, Durability.DoWrite([]), s.(flusher := Durability.Writing(cut, [])));
    p := Then(p, Durability.DoSynced, s.(flusher := Durability.Publishing(cut)));
    p := Then(p, Durability.DoPublish, s.(durable := cut));
    run, acts := p.states, p.acts;
  }
}
