/**
 * What commits hand to the logger, in any order of the commits and with the lists of one commit
 * interleaved, is what the recovery theorems take a log to be.
 */
module LoggedHistories {
  import opened Basics
  import opened Versions
  import opened LogRecords
  import opened RecoveryFold
  import opened CheckpointFold

  // ----- Events about one subject -----------------------------------------------------------------

  function About(es: seq<Event>, s: Subject): seq<Event> {
    if es == [] then []
    else
      var before, e := About(es[..|es| - 1], s), es[|es| - 1];
      if e.subject == s then before + [e] else before
  }

  lemma {:induction false} AboutConcat(a: seq<Event>, b: seq<Event>, s: Subject)
    ensures About(a + b, s) == About(a, s) + About(b, s)
  {
    if b == [] {
      assert a + b == a;
    } else {
      AboutConcat(a, b[..|b| - 1], s);
      assert (a + b)[..|a + b| - 1] == a + b[..|b| - 1];
    }
  }

  lemma {:induction false} AboutHas(es: seq<Event>, s: Subject, e: Event)
    ensures e in About(es, s) <==> e in es && e.subject == s
  {
    if es != [] {
      AboutHas(es[..|es| - 1], s, e);
      assert es == es[..|es| - 1] + [es[|es| - 1]];
    }
  }

  /** An event that comes first among those about its subject comes first in all. */
  lemma {:induction false} FirstAbout(es: seq<Event>, s: Subject, before: seq<Event>, e: Event, after: seq<Event>)
    requires About(es, s) == before + [e] + after && e.subject == s && forall i :: 0 <= i < |before| ==>
        before[i].tid != e.tid
    ensures ComesFirst(es, e)
  {
    var n := |es| - 1;
    var last := es[n];
    if last.subject == s && after == [] {
      assert About(es[..n], s) == before && last == e by {
        assert About(es[..n], s) + [last] == before + [e];
        assert (About(es[..n], s) + [last])[..|before|] == before;
      }
      forall r | 0 <= r < n && es[r].subject == s ensures es[r].tid != e.tid {
        AboutHas(es[..n], s, es[r]);
        assert es[..n][r] == es[r];
      }
    } else {
      var rest := if last.subject == s then after[..|after| - 1] else after;
      assert About(es[..n], s) == before + [e] + rest by {
        if last.subject == s {
          assert About(es[..n], s) + [last] == (before + [e] + rest) + [after[|after| - 1]];
          assert (About(es[..n], s) + [last])[..|before| + 1 + |rest|] == before + [e] + rest;
        }
      }
      FirstAbout(es[..n], s, before, e, rest);
      var p :| 0 <= p < n && es[..n][p] == e && forall r :: 0 <= r < p && es[..n][r].subject == e.subject ==>
        es[..n][r].tid != e.tid;
      assert es[p] == e && forall r :: 0 <= r < p ==> es[r] == es[..n][r];
    }
  }

  // ----- What the logger writes for a write set -------------------------------------------------------

  /** A write-set entry: a row, or operations on the list of a secondary key of a named index. */
  datatype Snapshot = Snapshot(table: string, index: string, indexType: nat, key: string, buffer: Bytes, tid: Tid,
                               primaryKeys: seq<string>, deltas: seq<ListOp>)

  function DeltaEntry(sn: Snapshot, d: ListOp): KeyValue {
    KeyValue(sn.table, sn.index, sn.indexType, sn.key, sn.buffer, sn.tid, [], d.op, d.primaryKey)
  }

  function DeltaEntries(sn: Snapshot, ds: seq<ListOp>): seq<KeyValue> {
    if ds == [] then [] else DeltaEntries(sn, ds[..|ds| - 1]) + [DeltaEntry(sn, ds[|ds| - 1])]
  }

  function RowEntry(sn: Snapshot): KeyValue {
    KeyValue(sn.table, sn.index, sn.indexType, sn.key, sn.buffer, sn.tid, sn.primaryKeys, NoOp, "")
  }

  function SnapshotEntries(sn: Snapshot): seq<KeyValue> {
    if sn.index == "" then [RowEntry(sn)] else DeltaEntries(sn, sn.deltas)
  }

  function SetEntries(ws: seq<Snapshot>): seq<KeyValue> {
    if ws == [] then [] else SetEntries(ws[..|ws| - 1]) + SnapshotEntries(ws[|ws| - 1])
  }

  /** One entry per row and per operation, in order; no record at all for a write set without any. */
  method Enqueue(ws: seq<Snapshot>, epoch: nat) returns (r: Option<LogRecord>)
    ensures r == if SetEntries(ws) == [] then None else Some(LogRecord(epoch, SetEntries(ws)))
  {
    var kvps: seq<KeyValue> := [];
    for i := 0 to |ws|
      invariant kvps == SetEntries(ws[..i])
    {
      var sn := ws[i];
      assert ws[..i + 1][..i] == ws[..i];
      if sn.index == "" {
        kvps := kvps + [RowEntry(sn)];
      } else {
        ghost var before := kvps;
        for j := 0 to |sn.deltas|
          invariant kvps == before + DeltaEntries(sn, sn.deltas[..j])
        {
          assert sn.deltas[..j + 1][..j] == sn.deltas[..j];
          kvps := kvps + [DeltaEntry(sn, sn.deltas[j])];
        }
        assert sn.deltas[..|sn.deltas|] == sn.deltas;
      }
    }
    assert ws[..|ws|] == ws;
    return if kvps == [] then None else Some(LogRecord(epoch, kvps));
  }

  // ----- Their events about one subject --------------------------------------------------------------

  lemma {:induction false} KvConcat(a: seq<KeyValue>, b: seq<KeyValue>)
    ensures KvEvents(a + b) == KvEvents(a) + KvEvents(b)
  {
    hide EventsOf;
    if b == [] {
      assert a + b == a;
    } else {
      KvConcat(a, b[..|b| - 1]);
      assert (a + b)[..|a + b| - 1] == a + b[..|b| - 1];
    }
  }

  lemma OneEntry(kv: KeyValue)
    ensures KvEvents([kv]) == EventsOf(kv)
  {
    assert [kv][..0] == [] && KvEvents([kv]) == KvEvents([]) + EventsOf(kv);
  }

  lemma OneAbout(es: seq<Event>, s: Subject)
    requires |es| <= 1
    ensures About(es, s) == if es != [] && es[0].subject == s then es else []
  {
    if es != [] { assert es[..0] == []; }
  }

  /** The events about a subject that some entries stand for. */
  function Said(kvs: seq<KeyValue>, s: Subject): seq<Event> {
    About(KvEvents(kvs), s)
  }

  lemma SaidConcat(a: seq<KeyValue>, b: seq<KeyValue>, s: Subject)
    ensures Said(a + b, s) == Said(a, s) + Said(b, s)
  {
    hide About, KvEvents;
    KvConcat(a, b);
    AboutConcat(KvEvents(a), KvEvents(b), s);
  }

  lemma RowSaid(sn: Snapshot, s: Subject)
    requires sn.index == "" && sn.indexType == 0 && sn.primaryKeys == []
    ensures Said([RowEntry(sn)], s) == if s == Row(sn.table, sn.key) then [Event(s, sn.tid, Bytes_(sn.buffer))] else []
  {
    OneEntry(RowEntry(sn));
    OneAbout(EventsOf(RowEntry(sn)), s);
  }

  predicate OnList(sn: Snapshot, list: ListKey) {
    sn.table == list.table && sn.index == list.index && sn.indexType == list.indexType && sn.key == list.key
  }

  lemma DeltaSaid(sn: Snapshot, d: ListOp, s: Subject)
    requires sn.index != "" && OpsOk([d])
    ensures Said([DeltaEntry(sn, d)], s)
            == if s.Posting? && OnList(sn, s.list) && d.primaryKey == s.primaryKey != ""
               then [Event(s, sn.tid, Op(d.op))] else []
  {
    assert [d][0] == d;
    OneEntry(DeltaEntry(sn, d));
    OneAbout(EventsOf(DeltaEntry(sn, d)), s);
  }

  lemma {:induction false} DeltasSaid(sn: Snapshot, ds: seq<ListOp>, s: Subject)
    requires sn.index != "" && OpsOk(ds)
    ensures Said(DeltaEntries(sn, ds), s)
            == if s.Posting? && OnList(sn, s.list) && s.primaryKey != ""
               then OpEvents(s, sn.tid, OpsOn(ds, s.primaryKey)) else []
  {
    hide Said, DeltaEntry;
    if ds == [] {
      NothingSaid(s);
    } else {
      var n := |ds| - 1;
      DeltasSaid(sn, ds[..n], s);
      SaidConcat(DeltaEntries(sn, ds[..n]), [DeltaEntry(sn, ds[n])], s);
      DeltaSaid(sn, ds[n], s);
    }
  }

  lemma NothingSaid(s: Subject)
    ensures Said([], s) == []
  {
  }

  // ----- Commits -----------------------------------------------------------------------------------------

  /**
   * What a commit wrote: rows, each as often as the request writes it; operations on lists in the
   * order of the request, lists interleaved; and which version of each item it published.
   */
  datatype Commit = Commit(epoch: nat, rows: seq<(string, string)>, lists: seq<(ListKey, seq<ListOp>)>,
                           at: map<Thing, nat>)

  /** The operations on one list, in the order of the request. */
  function OpsFor(ls: seq<(ListKey, seq<ListOp>)>, list: ListKey): seq<ListOp> {
    if ls == [] then []
    else
      var before, last := OpsFor(ls[..|ls| - 1], list), ls[|ls| - 1];
      if last.0 == list then before + last.1 else before
  }

  predicate Touches(c: Commit, x: Thing) {
    match x
    case RowThing(table, key) => (table, key) in c.rows
    case ListThing(list) => exists i :: 0 <= i < |c.lists| && c.lists[i].0 == list
  }

  /** A commit published one version of every item it touched, with exactly its operations. */
  ghost predicate Committed(h: History, c: Commit) {
    && (forall x :: x in c.at <==> Touches(c, x))
    && (forall x :: x in c.at ==> x in h && c.at[x] < |h[x]| && h[x][c.at[x]].tid.epoch == c.epoch)
    && (forall i :: 0 <= i < |c.lists| ==>
          c.lists[i].0.index != "" && h[ListThing(c.lists[i].0)][c.at[ListThing(c.lists[i].0)]].ops
                                      == OpsFor(c.lists, c.lists[i].0))
  }

  function VersionBy(h: History, c: Commit, x: Thing): Version
    requires x in c.at && x in h && c.at[x] < |h[x]|
  {
    h[x][c.at[x]]
  }

  /** The write set as the commit snapshots it under its locks: rows as installed, then the operations. */
  ghost function RowSnapshot(h: History, c: Commit, i: nat): Snapshot
    requires Committed(h, c) && i < |c.rows|
  {
    var w := c.rows[i];
    assert Touches(c, RowThing(w.0, w.1));
    var v := VersionBy(h, c, RowThing(w.0, w.1));
    Snapshot(w.0, "", 0, w.1, v.bytes, v.tid, [], [])
  }

  ghost function RowSnapshots(h: History, c: Commit, n: nat): seq<Snapshot>
    requires Committed(h, c) && n <= |c.rows|
  {
    if n == 0 then [] else RowSnapshots(h, c, n - 1) + [RowSnapshot(h, c, n - 1)]
  }

  ghost function ListSnapshot(h: History, c: Commit, i: nat): Snapshot
    requires Committed(h, c) && i < |c.lists|
  {
    var l := c.lists[i].0;
    assert Touches(c, ListThing(l));
    Snapshot(l.table, l.index, l.indexType, l.key, [], VersionBy(h, c, ListThing(l)).tid, [], c.lists[i].1)
  }

  ghost function ListSnapshots(h: History, c: Commit, n: nat): seq<Snapshot>
    requires Committed(h, c) && n <= |c.lists|
  {
    if n == 0 then [] else ListSnapshots(h, c, n - 1) + [ListSnapshot(h, c, n - 1)]
  }

  ghost function LogSet(h: History, c: Commit): seq<Snapshot>
    requires Committed(h, c)
  {
    RowSnapshots(h, c, |c.rows|) + ListSnapshots(h, c, |c.lists|)
  }

  lemma {:induction false} SetConcat(a: seq<Snapshot>, b: seq<Snapshot>)
    ensures SetEntries(a + b) == SetEntries(a) + SetEntries(b)
  {
    hide SnapshotEntries;
    if b == [] {
      assert a + b == a;
    } else {
      SetConcat(a, b[..|b| - 1]);
      assert (a + b)[..|a + b| - 1] == a + b[..|b| - 1];
    }
  }

  lemma OneMore(ws: seq<Snapshot>, sn: Snapshot, s: Subject)
    ensures Said(SetEntries(ws + [sn]), s) == Said(SetEntries(ws), s) + Said(SnapshotEntries(sn), s)
  {
    hide SnapshotEntries, Said;
    assert (ws + [sn])[..|ws|] == ws;
    SaidConcat(SetEntries(ws), SnapshotEntries(sn), s);
  }

  function RowEvent(s: Subject, v: Version): Event {
    Event(s, v.tid, Bytes_(v.bytes))
  }

  /** One event, any number of times. */
  predicate Only(es: seq<Event>, e: Event) {
    forall i :: 0 <= i < |es| ==> es[i] == e
  }

  /** What one snapshot of a row says. */
  lemma RowSnapshotSaid(h: History, c: Commit, i: nat, s: Subject)
    requires Committed(h, c) && i < |c.rows|
    ensures var w := c.rows[i];
            && RowThing(w.0, w.1) in c.at && RowThing(w.0, w.1) in h
            && c.at[RowThing(w.0, w.1)] < |h[RowThing(w.0, w.1)]|
            && Said(SnapshotEntries(RowSnapshot(h, c, i)), s)
               == if s == Row(w.0, w.1) then [RowEvent(s, VersionBy(h, c, ThingOf(s)))] else []
  {
    hide Said;
    var w := c.rows[i];
    assert Touches(c, RowThing(w.0, w.1));
    RowSaid(RowSnapshot(h, c, i), s);
  }

  lemma OnlyMore(es: seq<Event>, e: Event, fs: seq<Event>)
    requires Only(es, e) && (fs == [] || fs == [e])
    ensures Only(es + fs, e) && (es + fs != [] <==> es != [] || fs != [])
  {
  }

  lemma WrittenNow(rows: seq<(string, string)>, n: nat, w: (string, string))
    requires n < |rows|
    ensures w in rows[..n + 1] <==> w in rows[..n] || w == rows[n]
  {
    assert rows[..n + 1] == rows[..n] + [rows[n]];
  }

  /** About a row, its version as often as it was written. */
  lemma {:induction false} RowsSaid(h: History, c: Commit, n: nat, s: Subject)
    requires Committed(h, c) && n <= |c.rows| && s.Row? && ThingOf(s) in c.at
    ensures ThingOf(s) in h && c.at[ThingOf(s)] < |h[ThingOf(s)]|
    ensures Said(SetEntries(RowSnapshots(h, c, n)), s) != [] <==> (s.table, s.key) in c.rows[..n]
    ensures Only(Said(SetEntries(RowSnapshots(h, c, n)), s), RowEvent(s, VersionBy(h, c, ThingOf(s))))
  {
    hide Said, SnapshotEntries, Committed, SetEntries, RowSnapshot, VersionBy, Only;
    InHistory(h, c, ThingOf(s));
    var e := RowEvent(s, VersionBy(h, c, ThingOf(s)));
    if n == 0 {
      NothingSet(s, e);
    } else {
      RowsSaid(h, c, n - 1, s);
      OneMore(RowSnapshots(h, c, n - 1), RowSnapshot(h, c, n - 1), s);
      RowSnapshotSaid(h, c, n - 1, s);
      WrittenNow(c.rows, n - 1, (s.table, s.key));
      OnlyMore(Said(SetEntries(RowSnapshots(h, c, n - 1)), s), e, Said(SnapshotEntries(RowSnapshot(h, c, n - 1)), s));
    }
  }

  lemma NothingSet(s: Subject, e: Event)
    ensures Said(SetEntries([]), s) == [] && Only([], e)
  {
  }

  /** And nothing about anything else. */
  lemma {:induction false} RowsSayNoMore(h: History, c: Commit, n: nat, s: Subject)
    requires Committed(h, c) && n <= |c.rows| && (s.Row? ==> ThingOf(s) !in c.at)
    ensures Said(SetEntries(RowSnapshots(h, c, n)), s) == []
  {
    hide Said, SnapshotEntries, Committed, SetEntries, RowSnapshot, VersionBy;
    if n == 0 {
      NothingSet(s, Event(s, EMPTY, Op(NoOp)));
    } else {
      RowsSayNoMore(h, c, n - 1, s);
      OneMore(RowSnapshots(h, c, n - 1), RowSnapshot(h, c, n - 1), s);
      RowSnapshotSaid(h, c, n - 1, s);
    }
  }

  lemma InHistory(h: History, c: Commit, x: Thing)
    requires Committed(h, c)
    ensures x in c.at <==> Touches(c, x)
    ensures x in c.at ==> x in h && c.at[x] < |h[x]|
  {
  }

  /** About a posting, the operations on it in order, and nothing about anything else. */
  lemma {:induction false} ListsSaid(h: History, c: Commit, n: nat, s: Subject)
    requires HistoryOk(h) && Committed(h, c) && n <= |c.lists|
    ensures var es := Said(SetEntries(ListSnapshots(h, c, n)), s);
            if s.Posting? && ThingOf(s) in c.at && s.primaryKey != ""
            then es == OpEvents(s, VersionBy(h, c, ThingOf(s)).tid, OpsOn(OpsFor(c.lists[..n], s.list), s.primaryKey))
            else es == []
  {
    hide Said, SnapshotEntries, HistoryOk, OpsOn, SetEntries, ListSnapshot, OpsFor, Touches;
    if n == 0 {
      NothingSet(s, Event(s, EMPTY, Op(NoOp)));
      NoOps();
    } else {
      ListsSaid(h, c, n - 1, s);
      OneMore(ListSnapshots(h, c, n - 1), ListSnapshot(h, c, n - 1), s);
      ListSnapshotSaid(h, c, n, s);
      if s.Posting? && ThingOf(s) in c.at {
        OpsForMore(c.lists, n - 1, s.list, s.primaryKey);
        OpEventsConcat(s, VersionBy(h, c, ThingOf(s)).tid, OpsOn(OpsFor(c.lists[..n - 1], s.list), s.primaryKey),
                       OpsOn(c.lists[n - 1].1, s.primaryKey));
      }
    }
  }

  lemma OpEventsConcat(s: Subject, tid: Tid, a: seq<SecondaryOp>, b: seq<SecondaryOp>)
    ensures OpEvents(s, tid, a + b) == OpEvents(s, tid, a) + OpEvents(s, tid, b)
    ensures OpEvents(s, tid, a + []) == OpEvents(s, tid, a) + []
  {
    assert a + [] == a;
  }

  lemma OpsForMore(ls: seq<(ListKey, seq<ListOp>)>, n: nat, list: ListKey, pk: string)
    requires n < |ls|
    ensures OpsOn(OpsFor(ls[..n + 1], list), pk)
            == OpsOn(OpsFor(ls[..n], list), pk) + if ls[n].0 == list then OpsOn(ls[n].1, pk) else []
  {
    hide OpsOn;
    assert ls[..n + 1][..n] == ls[..n];
    OpsOnConcat(OpsFor(ls[..n], list), ls[n].1, pk);
  }

  lemma NoOps()
    ensures forall pk, list :: OpsOn(OpsFor([], list), pk) == []
  {
  }

  lemma ListSnapshotSaid(h: History, c: Commit, n: nat, s: Subject)
    requires HistoryOk(h) && Committed(h, c) && 0 < n <= |c.lists|
    ensures ListThing(c.lists[n - 1].0) in c.at
    ensures Said(SnapshotEntries(ListSnapshot(h, c, n - 1)), s)
            == if s.Posting? && s.list == c.lists[n - 1].0 && s.primaryKey != ""
               then OpEvents(s, VersionBy(h, c, ThingOf(s)).tid, OpsOn(c.lists[n - 1].1, s.primaryKey)) else []
  {
    hide Said, OpsOn, DeltaEntries;
    OpsForOk(c.lists, n - 1);
    assert Touches(c, ListThing(c.lists[n - 1].0));
    DeltasSaid(ListSnapshot(h, c, n - 1), c.lists[n - 1].1, s);
  }

  /** The operations of one snapshot are among those on its list. */
  lemma {:induction false} OpsForOk(ls: seq<(ListKey, seq<ListOp>)>, i: nat)
    requires i < |ls|
    ensures OpsOk(OpsFor(ls, ls[i].0)) ==> OpsOk(ls[i].1)
  {
    var n := |ls| - 1;
    if OpsOk(OpsFor(ls, ls[i].0)) {
      var before := OpsFor(ls[..n], ls[i].0);
      if i < n {
        assert forall k :: 0 <= k < |before| ==> before[k] == OpsFor(ls, ls[i].0)[k];
        OpsForOk(ls[..n], i);
      } else {
        assert forall k :: 0 <= k < |ls[n].1| ==> ls[n].1[k] == OpsFor(ls, ls[i].0)[|before| + k];
      }
    }
  }

  lemma {:induction false} OpsOnConcat(a: seq<ListOp>, b: seq<ListOp>, pk: string)
    ensures OpsOn(a + b, pk) == OpsOn(a, pk) + OpsOn(b, pk)
  {
    if b == [] {
      assert a + b == a;
    } else {
      OpsOnConcat(a, b[..|b| - 1], pk);
      assert (a + b)[..|a + b| - 1] == a + b[..|b| - 1];
    }
  }

  // ----- What one commit logs about a subject ---------------------------------------------------------------

  /** The same events, first ones first. */
  ghost predicate SameEvents(es: seq<Event>, fs: seq<Event>) {
    (forall e :: e in es <==> e in fs) && (es != [] <==> fs != []) && (es != [] && fs != [] ==> es[0] == fs[0])
  }

  ghost function Piece(h: History, c: Commit, s: Subject): seq<Event>
    requires Committed(h, c)
  {
    Said(SetEntries(LogSet(h, c)), s)
  }

  /** A commit logs about a subject what its version of the subject's item says, and else nothing. */
  lemma PieceIs(h: History, c: Commit, s: Subject)
    requires HistoryOk(h) && Committed(h, c)
    ensures ThingOf(s) !in c.at ==> Piece(h, c, s) == []
    ensures ThingOf(s) in c.at ==> SameEvents(Piece(h, c, s), LoggedEvents(s, VersionBy(h, c, ThingOf(s))))
  {
    hide Said, HistoryOk, Committed, SetEntries, RowSnapshots, ListSnapshots, OpsOn, OpsFor;
    var rows, lists := RowSnapshots(h, c, |c.rows|), ListSnapshots(h, c, |c.lists|);
    SetConcat(rows, lists);
    SaidConcat(SetEntries(rows), SetEntries(lists), s);
    ListsSaid(h, c, |c.lists|, s);
    assert c.rows[..|c.rows|] == c.rows && c.lists[..|c.lists|] == c.lists;
    InHistory(h, c, ThingOf(s));
    if s.Row? && ThingOf(s) in c.at {
      RowsSaid(h, c, |c.rows|, s);
      assert Piece(h, c, s) == Said(SetEntries(rows), s);
      AllThatOne(Said(SetEntries(rows), s), RowEvent(s, VersionBy(h, c, ThingOf(s))));
    } else {
      RowsSayNoMore(h, c, |c.rows|, s);
      assert Piece(h, c, s) == Said(SetEntries(lists), s);
      if ThingOf(s) in c.at { VersionOps(h, c, s.list); }
    }
  }

  lemma VersionOps(h: History, c: Commit, list: ListKey)
    requires Committed(h, c) && ListThing(list) in c.at
    ensures VersionBy(h, c, ListThing(list)).ops == OpsFor(c.lists, list)
  {
    assert Touches(c, ListThing(list));
    var i :| 0 <= i < |c.lists| && c.lists[i].0 == list;
  }

  lemma AllThatOne(es: seq<Event>, e: Event)
    requires es != [] && Only(es, e)
    ensures SameEvents(es, [e])
  {
    assert es[0] in es;
  }

  // ----- A whole log --------------------------------------------------------------------------------------

  ghost predicate AllCommitted(h: History, cs: seq<Commit>) {
    forall i :: 0 <= i < |cs| ==> Committed(h, cs[i])
  }

  /** The log of some commits in the order they were enqueued, as the logger records them. */
  ghost function Logged(h: History, cs: seq<Commit>): seq<LogRecord>
    requires AllCommitted(h, cs)
  {
    if cs == [] then []
    else
      var n := |cs| - 1;
      assert Committed(h, cs[n]);
      var kvs := SetEntries(LogSet(h, cs[n]));
      Logged(h, cs[..n]) + if kvs == [] then [] else [LogRecord(cs[n].epoch, kvs)]
  }

  /** The commits of the epochs in (low, high], in any order: every version is by exactly one of them. */
  ghost predicate WrittenBy(h: History, cs: seq<Commit>, low: int, high: nat) {
    && AllCommitted(h, cs) && (forall i :: 0 <= i < |cs| ==> low < cs[i].epoch <= high)
    && (forall i, j, x :: 0 <= i < j < |cs| && x in cs[i].at && x in cs[j].at ==> cs[i].at[x] != cs[j].at[x])
    && (forall x, n :: x in h && 0 <= n < |h[x]| && Within(h[x][n], low, high) ==> Publisher(cs, x, n))
  }

  predicate Publisher(cs: seq<Commit>, x: Thing, n: nat) {
    exists i :: 0 <= i < |cs| && x in cs[i].at && cs[i].at[x] == n
  }

  /** The events about a subject, commit by commit. */
  ghost function Pieces(h: History, cs: seq<Commit>, s: Subject): seq<Event>
    requires AllCommitted(h, cs)
  {
    if cs == [] then []
    else
      var n := |cs| - 1;
      assert Committed(h, cs[n]);
      Pieces(h, cs[..n], s) + Piece(h, cs[n], s)
  }

  lemma {:induction false} LogIsPieces(h: History, cs: seq<Commit>, s: Subject)
    requires AllCommitted(h, cs)
    ensures About(Events(Logged(h, cs)), s) == Pieces(h, cs, s)
  {
    hide LogSet, SetEntries, KvEvents, Committed;
    if cs == [] {
      NothingSaid(s);
    } else {
      var n := |cs| - 1;
      assert Committed(h, cs[n]);
      var kvs, before := SetEntries(LogSet(h, cs[n])), Logged(h, cs[..n]);
      LogIsPieces(h, cs[..n], s);
      if kvs == [] {
        NothingSaid(s);
        assert before + [] == before;
      } else {
        OneRecordMore(before, LogRecord(cs[n].epoch, kvs));
        AboutConcat(Events(before), KvEvents(kvs), s);
      }
    }
  }

  lemma OneRecordMore(rs: seq<LogRecord>, r: LogRecord)
    ensures Events(rs + [r]) == Events(rs) + KvEvents(r.kvps)
  {
    assert (rs + [r])[..|rs|] == rs;
  }

  lemma {:induction false} PiecesHave(h: History, cs: seq<Commit>, s: Subject, e: Event)
    requires AllCommitted(h, cs)
    ensures e in Pieces(h, cs, s) <==> exists i :: 0 <= i < |cs| && e in Piece(h, cs[i], s)
  {
    hide Piece, Committed;
    if cs != [] {
      var n := |cs| - 1;
      PiecesHave(h, cs[..n], s, e);
      assert forall i :: 0 <= i < n ==> cs[..n][i] == cs[i];
    }
  }

  lemma {:induction false} PiecesSplit(h: History, cs: seq<Commit>, s: Subject, p: nat) returns (after: seq<Event>)
    requires AllCommitted(h, cs) && p < |cs|
    ensures Pieces(h, cs, s) == Pieces(h, cs[..p], s) + Piece(h, cs[p], s) + after
  {
    hide Piece, Committed;
    var n := |cs| - 1;
    if p == n {
      after := [];
    } else {
      var rest := PiecesSplit(h, cs[..n], s, p);
      assert cs[..n][..p] == cs[..p];
      after := rest + Piece(h, cs[n], s);
    }
  }

  /** Whatever the order of the commits, their records are a log of the history. */
  lemma CommitsAreLog(h: History, cs: seq<Commit>, low: int, high: nat)
    requires HistoryOk(h) && WrittenBy(h, cs, low, high)
    ensures LogOf(Events(Logged(h, cs)), h, low, high)
  {
    hide LoggedEvents, HistoryOk, Pieces, About, WrittenBy, Logged, ComesFirst;
    assert AllCommitted(h, cs) by { Parts(h, cs, low, high); }
    var es := Events(Logged(h, cs));
    forall s ensures LogAbout(es, h, low, high, s) {
      var vs := VersionsOf(h, ThingOf(s));
      forall e: Event | e.subject == s
        ensures e in es <==> exists i :: 0 <= i < |vs| && Within(vs[i], low, high) && e in LoggedEvents(s, vs[i])
      {
        LogHas(h, cs, low, high, s, e);
      }
      forall i | 0 <= i < |vs| && Within(vs[i], low, high) && LoggedEvents(s, vs[i]) != []
        ensures ComesFirst(es, LoggedEvents(s, vs[i])[0])
      {
        LogFirst(h, cs, low, high, s, i);
      }
    }
  }

  lemma Parts(h: History, cs: seq<Commit>, low: int, high: nat)
    requires WrittenBy(h, cs, low, high)
    ensures AllCommitted(h, cs)
  {
  }

  /** A commit's version of an item is one of the item's versions within its epochs. */
  lemma OwnVersion(h: History, cs: seq<Commit>, low: int, high: nat, j: nat, x: Thing)
    requires WrittenBy(h, cs, low, high) && j < |cs| && x in cs[j].at
    ensures x in h && cs[j].at[x] < |h[x]| && Within(h[x][cs[j].at[x]], low, high)
  {
    assert Committed(h, cs[j]);
  }

  lemma LogHas(h: History, cs: seq<Commit>, low: int, high: nat, s: Subject, e: Event)
    requires HistoryOk(h) && WrittenBy(h, cs, low, high) && e.subject == s
    ensures var vs := VersionsOf(h, ThingOf(s));
            e in Events(Logged(h, cs)) <==>
            exists i :: 0 <= i < |vs| && Within(vs[i], low, high) && e in LoggedEvents(s, vs[i])
  {
    hide LoggedEvents, HistoryOk, Pieces, About, Logged, Committed, Piece, Events;
    var x := ThingOf(s);
    var vs := VersionsOf(h, x);
    LogIsPieces(h, cs, s);
    AboutHas(Events(Logged(h, cs)), s, e);
    PiecesHave(h, cs, s, e);
    if j :| 0 <= j < |cs| && e in Piece(h, cs[j], s) {
      PieceIs(h, cs[j], s);
      OwnVersion(h, cs, low, high, j, x);
      assert e in LoggedEvents(s, vs[cs[j].at[x]]);
    }
    if i :| 0 <= i < |vs| && Within(vs[i], low, high) && e in LoggedEvents(s, vs[i]) {
      assert Publisher(cs, x, i);
      var j :| 0 <= j < |cs| && x in cs[j].at && cs[j].at[x] == i;
      PieceIs(h, cs[j], s);
      OwnVersion(h, cs, low, high, j, x);
      assert e in Piece(h, cs[j], s);
    }
  }

  lemma LogFirst(h: History, cs: seq<Commit>, low: int, high: nat, s: Subject, i: nat)
    requires HistoryOk(h) && WrittenBy(h, cs, low, high)
    requires i < |VersionsOf(h, ThingOf(s))| && Within(VersionsOf(h, ThingOf(s))[i], low, high)
    requires LoggedEvents(s, VersionsOf(h, ThingOf(s))[i]) != []
    ensures ComesFirst(Events(Logged(h, cs)), LoggedEvents(s, VersionsOf(h, ThingOf(s))[i])[0])
  {
    hide LoggedEvents, Pieces, About, ComesFirst, HistoryOk, Piece, Logged, Committed, Events;
    var x := ThingOf(s);
    assert Publisher(cs, x, i);
    var p :| 0 <= p < |cs| && x in cs[p].at && cs[p].at[x] == i;
    OwnVersion(h, cs, low, high, p, x);
    PieceIs(h, cs[p], s);
    LogIsPieces(h, cs, s);
    var after := PiecesSplit(h, cs, s, p);
    var before, here := Pieces(h, cs[..p], s), Piece(h, cs[p], s);
    LoggedUnder(s, h[x][i], here[0]);
    forall r | 0 <= r < |before| ensures before[r].tid != here[0].tid {
      EarlierCommit(h, cs, low, high, s, p, before[r]);
    }
    assert before + here + after == before + [here[0]] + (here[1..] + after);
    FirstAbout(Events(Logged(h, cs)), s, before, here[0], here[1..] + after);
  }

  /** What precedes a commit in the log belongs to another version. */
  lemma EarlierCommit(h: History, cs: seq<Commit>, low: int, high: nat, s: Subject, p: nat, e: Event)
    requires HistoryOk(h) && WrittenBy(h, cs, low, high)
    requires p < |cs| && ThingOf(s) in cs[p].at && e in Pieces(h, cs[..p], s)
    ensures e.tid != VersionBy(h, cs[p], ThingOf(s)).tid
  {
    hide LoggedEvents, Pieces, Piece, Committed;
    var x := ThingOf(s);
    PiecesHave(h, cs[..p], s, e);
    var j :| 0 <= j < p && e in Piece(h, cs[..p][j], s);
    PieceIs(h, cs[j], s);
    OwnVersion(h, cs, low, high, j, x);
    OwnVersion(h, cs, low, high, p, x);
    LoggedUnder(s, VersionBy(h, cs[j], x), e);
    assert Increasing(h[x]) && cs[j].at[x] != cs[p].at[x];
  }
}

/**
 * Two inputs on which recovery loses or invents a committed posting, in the bytes the logger
 * writes: they are why the conditions of the recovery theorem are there.
 */
module RecoveryWitnesses {
  import opened Basics
  import opened Versions
  import opened LogRecords
  import opened RecoveryFold
  import opened CheckpointFold
  import opened LoggedHistories
  import CommitChecks

  /** What an operation on a list is logged as. */
  function OpEntry(list: ListKey, tid: Tid, op: ListOp): KeyValue {
    KeyValue(list.table, list.index, list.indexType, list.key, [], tid, [], op.op, op.primaryKey)
  }

  /** What a captured posting list is written as. */
  function CapturedList(list: ListKey, tid: Tid, pks: seq<string>): KeyValue {
    KeyValue(list.table, list.index, list.indexType, list.key, [], tid, pks, Full, "")
  }

  lemma OneRecord(epoch: nat, kv: KeyValue)
    ensures Events([LogRecord(epoch, [kv])]) == EventsOf(kv)
  {
    OneEntry(kv);
    assert Events([LogRecord(epoch, [kv])]) == Events([]) + KvEvents([kv]);
  }

  lemma TwoEntries(epoch: nat, a: KeyValue, b: KeyValue)
    ensures Events([LogRecord(epoch, [a, b])]) == EventsOf(a) + EventsOf(b)
  {
    assert [a, b][..1] == [a] && [a][..0] == [];
    assert KvEvents([a]) == EventsOf(a);
    assert KvEvents([a, b]) == EventsOf(a) + EventsOf(b);
    assert Events([LogRecord(epoch, [a, b])]) == Events([]) + KvEvents([a, b]);
  }

  /** Removing and adding a primary key in one request: accepted. */
  function RemoveThenAdd(l: CommitChecks.ListId, pk: string): seq<CommitChecks.SiOp> {
    [CommitChecks.SiOp(l, pk, true), CommitChecks.SiOp(l, pk, false)]
  }

  /**
   * A request that removes and adds a listed primary key is accepted, UNIQUE or not, and leaves
   * the key listed. Recovery from its log record drops the key, because of two operations under
   * one version the fold keeps the first; an image taken after it keeps the key.
   */
  lemma RemoveThenAddIsLost(ls: CommitChecks.Lists, l: CommitChecks.ListId, unique: CommitChecks.ListId -> bool,
                            list: ListKey, tid: Tid, pk: string)
    requires CommitChecks.ListOf(ls, l) == {pk} && pk != ""
    ensures CommitChecks.Accepts(ls, RemoveThenAdd(l, pk), unique)
    ensures CommitChecks.After(ls, RemoveThenAdd(l, pk), 2, l) == {pk}
    ensures !Added(Newest(Events([RemoveAddRecord(list, tid, pk)]), Posting(list, pk)))
    ensures Added(Newest(Events([LogRecord(tid.epoch, [CapturedList(list, tid, [pk])])]), Posting(list, pk)))
  {
    hide Newest, Events;
    var ops := RemoveThenAdd(l, pk);
    assert CommitChecks.After(ls, ops, 1, l) == {};
    assert CommitChecks.After(ls, ops, 2, l) == {pk};
    RemoveStays(list, tid, pk);
    AddStays(list, tid, pk);
  }

  /** The log record of that request. */
  function RemoveAddRecord(list: ListKey, tid: Tid, pk: string): LogRecord {
    LogRecord(tid.epoch, [OpEntry(list, tid, ListOp(pk, Remove)), OpEntry(list, tid, ListOp(pk, Add))])
  }

  lemma RemoveStays(list: ListKey, tid: Tid, pk: string)
    requires pk != ""
    ensures !Added(Newest(Events([RemoveAddRecord(list, tid, pk)]), Posting(list, pk)))
  {
    var gone, back := Event(Posting(list, pk), tid, Op(Remove)), Event(Posting(list, pk), tid, Op(Add));
    TwoEntries(tid.epoch, OpEntry(list, tid, ListOp(pk, Remove)), OpEntry(list, tid, ListOp(pk, Add)));
    assert [gone, back][..1] == [gone] && Newest([gone], Posting(list, pk)) == Some(gone);
  }

  lemma AddStays(list: ListKey, tid: Tid, pk: string)
    ensures Added(Newest(Events([LogRecord(tid.epoch, [CapturedList(list, tid, [pk])])]), Posting(list, pk)))
  {
    var back := Event(Posting(list, pk), tid, Op(Add));
    OneRecord(tid.epoch, CapturedList(list, tid, [pk]));
    assert FullEvents(CapturedList(list, tid, [pk]), [pk]) == [back];
    assert Newest([back], Posting(list, pk)) == Some(back);
  }

  /** The fold drops a logged operation on the empty key and keeps the empty key of a captured list. */
  lemma EmptyPrimaryKeyDisagrees(list: ListKey, tid: Tid)
    ensures !Added(Newest(Events([LogRecord(tid.epoch, [OpEntry(list, tid, ListOp("", Add))])]), Posting(list, "")))
    ensures Added(Newest(Events([LogRecord(tid.epoch, [CapturedList(list, tid, [""])])]), Posting(list, "")))
  {
    var e := Event(Posting(list, ""), tid, Op(Add));
    OneRecord(tid.epoch, OpEntry(list, tid, ListOp("", Add)));
    OneRecord(tid.epoch, CapturedList(list, tid, [""]));
    assert FullEvents(CapturedList(list, tid, [""]), [""]) == [e];
    assert Newest([e], Posting(list, "")) == Some(e);
  }
}
