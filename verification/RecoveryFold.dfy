/**
 * Recovery's fold of logged writes: the newest version of every row and of every (secondary key,
 * primary key) pair, and the posting lists regrouped from them.
 */
module RecoveryFold {
  import opened Basics
  import opened Versions
  import opened LogRecords

  /** What a logged write speaks about: a row, or one primary key under a secondary key. */
  datatype Subject = Row(table: string, key: string)
                   | Posting(list: ListKey, primaryKey: string)

  datatype ListKey = ListKey(table: string, index: string, indexType: nat, key: string)

  datatype Content = Bytes_(bytes: Bytes) | Op(op: SecondaryOp)

  datatype Event = Event(subject: Subject, tid: Tid, content: Content)

  predicate IsSecondary(kv: KeyValue) {
    kv.index != "" || kv.op != NoOp || kv.primaryKeys != [] || kv.secondaryPrimaryKey != "" || kv.indexType != 0
  }

  function ListOf(kv: KeyValue): ListKey {
    ListKey(kv.table, kv.index, kv.indexType, kv.key)
  }

  function FullEvents(kv: KeyValue, pks: seq<string>): seq<Event> {
    if pks == [] then []
    else FullEvents(kv, pks[..|pks| - 1]) + [Event(Posting(ListOf(kv), pks[|pks| - 1]), kv.tid, Op(Add))]
  }

  /** A full list stands for an addition of each of its keys; a delta without a key is dropped. */
  function EventsOf(kv: KeyValue): seq<Event> {
    if !IsSecondary(kv) then [Event(Row(kv.table, kv.key), kv.tid, Bytes_(kv.buffer))]
    else if kv.op == Full then FullEvents(kv, kv.primaryKeys)
    else if kv.secondaryPrimaryKey != "" then [Event(Posting(ListOf(kv), kv.secondaryPrimaryKey), kv.tid, Op(kv.op))]
    else []
  }

  function KvEvents(kvs: seq<KeyValue>): seq<Event> {
    if kvs == [] then [] else KvEvents(kvs[..|kvs| - 1]) + EventsOf(kvs[|kvs| - 1])
  }

  function Events(rs: seq<LogRecord>): seq<Event> {
    if rs == [] then [] else Events(rs[..|rs| - 1]) + KvEvents(rs[|rs| - 1].kvps)
  }

  /** The newest event about a subject; of equal versions the first. */
  function Newest(es: seq<Event>, s: Subject): Option<Event> {
    if es == [] then None
    else
      var before, e := Newest(es[..|es| - 1], s), es[|es| - 1];
      if e.subject != s then before
      else if before.None? || Less(before.value.tid, e.tid) then Some(e)
      else before
  }

  lemma NewestAppend(es: seq<Event>, e: Event, s: Subject)
    ensures Newest(es + [e], s)
            == if e.subject == s && (Newest(es, s).None? || Less(Newest(es, s).value.tid, e.tid)) then Some(e)
                else Newest(es, s)
  {
    assert (es + [e])[..|es|] == es;
  }

  /** The declarative meaning of the fold: nothing about the subject is newer, and ties go to the first. */
  lemma {:induction false} NewestSpec(es: seq<Event>, s: Subject)
    ensures Newest(es, s).None? <==> forall i :: 0 <= i < |es| ==> es[i].subject != s
    ensures Newest(es, s).Some? ==> exists i :: 0 <= i < |es| && es[i] == Newest(es, s).value && FirstNewest(es, s, i)
  {
    if es != [] {
      hide FirstNewest;
      var n := |es| - 1;
      NewestSpec(es[..n], s);
      var before := Newest(es[..n], s);
      assert forall j :: 0 <= j < n ==> es[..n][j] == es[j];
      if es[n].subject == s {
        if before.None? {
          OnlyOne(es, s);
        } else {
          var i :| 0 <= i < n && es[..n][i] == before.value && FirstNewest(es[..n], s, i);
          if Less(before.value.tid, es[n].tid) { NewOneWins(es, s, i); } else { OldOneStays(es, s, i); }
        }
      } else if before.Some? {
        var i :| 0 <= i < n && es[..n][i] == before.value && FirstNewest(es[..n], s, i);
        OldOneStays(es, s, i);
      }
    }
  }

  /** Nothing about the subject is newer than the event at i, and what comes before it is older. */
  predicate FirstNewest(es: seq<Event>, s: Subject, i: nat) {
    && i < |es| && es[i].subject == s
    && (forall j :: 0 <= j < |es| && es[j].subject == s ==> !Less(es[i].tid, es[j].tid))
    && (forall j :: 0 <= j < i && es[j].subject == s ==> Less(es[j].tid, es[i].tid))
  }

  lemma OnlyOne(es: seq<Event>, s: Subject)
    requires es != [] && es[|es| - 1].subject == s && forall j :: 0 <= j < |es| - 1 ==> es[j].subject != s
    ensures FirstNewest(es, s, |es| - 1)
  {
  }

  lemma NewOneWins(es: seq<Event>, s: Subject, i: nat)
    requires es != [] && es[|es| - 1].subject == s && FirstNewest(es[..|es| - 1], s, i)
    requires Less(es[i].tid, es[|es| - 1].tid)
    ensures FirstNewest(es, s, |es| - 1)
  {
    var n := |es| - 1;
    forall j | 0 <= j < n && es[j].subject == s ensures Less(es[j].tid, es[n].tid) { assert es[..n][j] == es[j]; }
  }

  lemma OldOneStays(es: seq<Event>, s: Subject, i: nat)
    requires es != [] && FirstNewest(es[..|es| - 1], s, i)
    requires es[|es| - 1].subject == s ==> !Less(es[i].tid, es[|es| - 1].tid)
    ensures FirstNewest(es, s, i)
  {
    assert forall j :: 0 <= j < |es| - 1 ==> es[..|es| - 1][j] == es[j];
  }

  /** An event that is first among the newest about its subject is what the fold keeps. */
  lemma NewestAt(es: seq<Event>, s: Subject, p: nat)
    requires p < |es| && es[p].subject == s
    requires forall r :: 0 <= r < |es| && es[r].subject == s ==> es[r].tid == es[p].tid || Less(es[r].tid, es[p].tid)
    requires forall r :: 0 <= r < p && es[r].subject == s ==> es[r].tid != es[p].tid
    ensures Newest(es, s) == Some(es[p])
  {
    NewestSpec(es, s);
    var i :| 0 <= i < |es| && es[i] == Newest(es, s).value && FirstNewest(es, s, i);
    assert i == p;
  }

  /** Of two newest events the fold of the concatenation keeps the newer, of equal ones the first. */
  function Newer(a: Option<Event>, b: Option<Event>): Option<Event> {
    if a.None? then b else if b.None? || !Less(a.value.tid, b.value.tid) then a else b
  }

  lemma {:induction false} NewestConcat(a: seq<Event>, b: seq<Event>, s: Subject)
    ensures Newest(a + b, s) == Newer(Newest(a, s), Newest(b, s))
  {
    if b == [] {
      assert a + b == a;
    } else {
      var n := |b| - 1;
      NewestConcat(a, b[..n], s);
      assert (a + b)[..|a + b| - 1] == a + b[..n];
    }
  }

  /** With one strictly newest event about a subject, the order of the log does not matter. */
  lemma NewestIs(es: seq<Event>, s: Subject, e: Event)
    requires e in es && e.subject == s
    requires forall f :: f in es && f.subject == s ==> f == e || Less(f.tid, e.tid)
    ensures Newest(es, s) == Some(e)
  {
    NewestSpec(es, s);
    var k :| 0 <= k < |es| && es[k] == e;
    var i :| 0 <= i < |es| && es[i] == Newest(es, s).value && FirstNewest(es, s, i);
    assert es[i] in es && !Less(es[i].tid, es[k].tid);
  }

  // ----- The loops ----------------------------------------------------------------------------

  datatype Item = Item(table: string, key: string, buffer: Bytes, tid: Tid)
  datatype OpState = OpState(tid: Tid, op: SecondaryOp)
  datatype Listed = Listed(maxTid: Tid, primaryKeys: set<string>)

  /** The accumulators: rows in order of first appearance with an index, newest operation per posting. */
  datatype Acc = Acc(items: seq<Item>, position: map<(string, string), nat>, latest: map<(ListKey, string), OpState>)

  predicate RowFolds(acc: Acc, e: Option<Event>, table: string, key: string) {
    match e
    case None => (table, key) !in acc.position
    case Some(f) =>
      && (table, key) in acc.position && acc.position[(table, key)] < |acc.items|
      && f.content.Bytes_? && acc.items[acc.position[(table, key)]] == Item(table, key, f.content.bytes, f.tid)
  }

  predicate PostingFolds(acc: Acc, e: Option<Event>, list: ListKey, pk: string) {
    match e
    case None => (list, pk) !in acc.latest
    case Some(f) => (list, pk) in acc.latest && f.content.Op? && acc.latest[(list, pk)] == OpState(f.tid, f.content.op)
  }

  /** The index and the item vector agree: one item per row. */
  predicate Indexed(acc: Acc) {
    && (forall p :: p in acc.position ==> acc.position[p] < |acc.items|)
    && (forall i :: 0 <= i < |acc.items| ==>
          (acc.items[i].table, acc.items[i].key) in acc.position
              && acc.position[(acc.items[i].table, acc.items[i].key)] == i)
  }

  /** The accumulators hold the fold of the events. */
  ghost predicate Folds(acc: Acc, es: seq<Event>) {
    && Indexed(acc)
    && (forall table, key :: RowFolds(acc, Newest(es, Row(table, key)), table, key))
    && (forall list, pk :: PostingFolds(acc, Newest(es, Posting(list, pk)), list, pk))
  }

  lemma FoldsRow(acc: Acc, es: seq<Event>, table: string, key: string)
    requires Folds(acc, es)
    ensures RowFolds(acc, Newest(es, Row(table, key)), table, key)
  {
  }

  lemma FoldsPosting(acc: Acc, es: seq<Event>, list: ListKey, pk: string)
    requires Folds(acc, es)
    ensures PostingFolds(acc, Newest(es, Posting(list, pk)), list, pk)
  {
  }

  method FoldRow(acc: Acc, kv: KeyValue, ghost es: seq<Event>) returns (acc': Acc)
    requires Folds(acc, es) && !IsSecondary(kv)
    ensures Folds(acc', es + EventsOf(kv))
  {
    hide Newest;
    ghost var e := Event(Row(kv.table, kv.key), kv.tid, Bytes_(kv.buffer));
    FoldsRow(acc, es, kv.table, kv.key);
    var at := (kv.table, kv.key);
    if at in acc.position {
      var i := acc.position[at];
      if Less(acc.items[i].tid, kv.tid) {
        acc' := acc.(items := acc.items[i := Item(kv.table, kv.key, kv.buffer, kv.tid)]);
      } else {
        acc' := acc;
      }
    } else {
      acc' := acc.(position := acc.position[at := |acc.items|],
          items := acc.items + [Item(kv.table, kv.key, kv.buffer, kv.tid)]);
    }
    forall table, key ensures RowFolds(acc', Newest(es + [e], Row(table, key)), table, key) {
      NewestAppend(es, e, Row(table, key));
      FoldsRow(acc, es, table, key);
    }
    forall list, pk ensures PostingFolds(acc', Newest(es + [e], Posting(list, pk)), list, pk) {
      NewestAppend(es, e, Posting(list, pk));
      FoldsPosting(acc, es, list, pk);
    }
  }

  /** One operation on a posting: the newer version wins, of equal ones the first. */
  method FoldOp(acc: Acc, list: ListKey, pk: string, tid: Tid, op: SecondaryOp, ghost es: seq<Event>)
    returns (acc': Acc)
    requires Folds(acc, es)
    ensures Folds(acc', es + [Event(Posting(list, pk), tid, Op(op))])
  {
    hide Newest;
    ghost var e := Event(Posting(list, pk), tid, Op(op));
    FoldsPosting(acc, es, list, pk);
    if (list, pk) !in acc.latest || Less(acc.latest[(list, pk)].tid, tid) {
      acc' := acc.(latest := acc.latest[(list, pk) := OpState(tid, op)]);
    } else {
      acc' := acc;
    }
    forall table, key ensures RowFolds(acc', Newest(es + [e], Row(table, key)), table, key) {
      NewestAppend(es, e, Row(table, key));
      FoldsRow(acc, es, table, key);
    }
    forall l, p ensures PostingFolds(acc', Newest(es + [e], Posting(l, p)), l, p) {
      NewestAppend(es, e, Posting(l, p));
      FoldsPosting(acc, es, l, p);
    }
  }

  method FoldKeyValue(acc: Acc, kv: KeyValue, ghost es: seq<Event>) returns (acc': Acc)
    requires Folds(acc, es)
    ensures Folds(acc', es + EventsOf(kv))
  {
    hide Folds;
    if !IsSecondary(kv) {
      acc' := FoldRow(acc, kv, es);
      return;
    }
    acc' := acc;
    if kv.op == Full {
      var i := 0;
      assert es + FullEvents(kv, kv.primaryKeys[..0]) == es;
      while i < |kv.primaryKeys|
        invariant 0 <= i <= |kv.primaryKeys| && Folds(acc', es + FullEvents(kv, kv.primaryKeys[..i]))
      {
        acc' := FoldOp(acc', ListOf(kv), kv.primaryKeys[i], kv.tid, Add, es + FullEvents(kv, kv.primaryKeys[..i]));
        assert kv.primaryKeys[..i + 1][..i] == kv.primaryKeys[..i];
        assert es + FullEvents(kv, kv.primaryKeys[..i + 1])
            == (es + FullEvents(kv, kv.primaryKeys[..i]))
                + [Event(Posting(ListOf(kv), kv.primaryKeys[i]), kv.tid, Op(Add))];
        i := i + 1;
      }
      assert kv.primaryKeys[..i] == kv.primaryKeys;
    } else if kv.secondaryPrimaryKey != "" {
      acc' := FoldOp(acc', ListOf(kv), kv.secondaryPrimaryKey, kv.tid, kv.op, es);
    } else {
      assert es + EventsOf(kv) == es;
    }
  }

  method FoldRecord(acc: Acc, r: LogRecord, ghost es: seq<Event>) returns (acc': Acc)
    requires Folds(acc, es)
    ensures Folds(acc', es + KvEvents(r.kvps))
  {
    hide Folds, EventsOf;
    acc' := acc;
    assert es + KvEvents(r.kvps[..0]) == es;
    var i := 0;
    while i < |r.kvps|
      invariant 0 <= i <= |r.kvps| && Folds(acc', es + KvEvents(r.kvps[..i]))
    {
      acc' := FoldKeyValue(acc', r.kvps[i], es + KvEvents(r.kvps[..i]));
      assert r.kvps[..i + 1][..i] == r.kvps[..i];
      assert es + KvEvents(r.kvps[..i + 1]) == (es + KvEvents(r.kvps[..i])) + EventsOf(r.kvps[i]);
      i := i + 1;
    }
    assert r.kvps[..i] == r.kvps;
  }

  method FoldSource(acc: Acc, rs: seq<LogRecord>, ghost es: seq<Event>) returns (acc': Acc)
    requires Folds(acc, es)
    ensures Folds(acc', es + Events(rs))
  {
    hide Folds, KvEvents;
    acc' := acc;
    assert es + Events(rs[..0]) == es;
    var i := 0;
    while i < |rs|
      invariant 0 <= i <= |rs| && Folds(acc', es + Events(rs[..i]))
    {
      acc' := FoldRecord(acc', rs[i], es + Events(rs[..i]));
      assert rs[..i + 1][..i] == rs[..i];
      assert es + Events(rs[..i + 1]) == (es + Events(rs[..i])) + KvEvents(rs[i].kvps);
      i := i + 1;
    }
    assert rs[..i] == rs;
  }

  /** A posting survives when the newest operation on it is an addition. */
  predicate Added(e: Option<Event>) {
    e.Some? && e.value.content == Op(Add)
  }

  /** The version of a regrouped list is the newest among its postings. */
  ghost predicate MaxOf(latest: map<(ListKey, string), OpState>, list: ListKey, l: Listed) {
    && (forall pk :: pk in l.primaryKeys ==> (list, pk) in latest && !Less(l.maxTid, latest[(list, pk)].tid))
    && (exists pk :: pk in l.primaryKeys && (list, pk) in latest && latest[(list, pk)].tid == l.maxTid)
  }

  lemma MaxGrows(latest: map<(ListKey, string), OpState>, list: ListKey, l: Option<Listed>, pk: string)
    requires (list, pk) in latest && (l.Some? ==> MaxOf(latest, list, l.value))
    ensures var was := if l.Some? then l.value else Listed(EMPTY, {});
            var tid := latest[(list, pk)].tid;
            MaxOf(latest, list, Listed(if Less(was.maxTid, tid) then tid else was.maxTid, was.primaryKeys + {pk}))
  {
    var was := if l.Some? then l.value else Listed(EMPTY, {});
    var tid := latest[(list, pk)].tid;
    var now := Listed(if Less(was.maxTid, tid) then tid else was.maxTid, was.primaryKeys + {pk});
    if l.Some? {
      var q :| q in was.primaryKeys && (list, q) in latest && latest[(list, q)].tid == was.maxTid;
      assert q in now.primaryKeys;
    }
    assert pk in now.primaryKeys;
  }

  /** Regroup the surviving postings into one list per secondary key. */
  method Regroup(latest: map<(ListKey, string), OpState>) returns (lists: map<ListKey, Listed>)
    ensures forall list, pk :: (list in lists && pk in lists[list].primaryKeys)
                               <==> (list, pk) in latest && latest[(list, pk)].op == Add
    ensures forall list :: list in lists ==> MaxOf(latest, list, lists[list])
  {
    hide MaxOf;
    lists := map[];
    var todo := latest.Keys;
    while todo != {}
      invariant todo <= latest.Keys
      invariant forall list, pk :: (list in lists && pk in lists[list].primaryKeys)
                                   <==> (list, pk) in latest && (list, pk) !in todo && latest[(list, pk)].op == Add
      invariant forall list :: list in lists ==> MaxOf(latest, list, lists[list])
      decreases |todo|
    {
      var p :| p in todo;
      todo := todo - {p};
      if latest[p].op == Add {
        var entry := if p.0 in lists then lists[p.0] else Listed(EMPTY, {});
        MaxGrows(latest, p.0, if p.0 in lists then Some(lists[p.0]) else None, p.1);
        lists := lists[p.0 := Listed(if Less(entry.maxTid, latest[p].tid) then latest[p].tid else entry.maxTid,
                                     entry.primaryKeys + {p.1})];
      }
    }
  }

  /**
   * The fold of image and tail: per row the newest version, of equal ones the first, image before
   * tail; per secondary key exactly the primary keys whose newest operation is an addition.
   */
  method BuildRecoverySet(image: seq<LogRecord>, tail: seq<LogRecord>)
    returns (items: seq<Item>, lists: map<ListKey, Listed>)
    ensures forall i, j :: 0 <= i < j < |items| ==> (items[i].table, items[i].key) != (items[j].table, items[j].key)
    ensures forall item :: item in items <==>
              var e := Newest(Events(image) + Events(tail), Row(item.table, item.key));
              e.Some? && e.value.content == Bytes_(item.buffer) && e.value.tid == item.tid
    ensures forall list, pk :: (list in lists && pk in lists[list].primaryKeys)
                               <==> Added(Newest(Events(image) + Events(tail), Posting(list, pk)))
    ensures forall list :: list in lists ==> NewestOf(Events(image) + Events(tail), list, lists[list])
  {
    hide Events, Newest;
    var acc := Acc([], map[], map[]);
    NothingFolded();
    acc := FoldSource(acc, image, []);
    assert [] + Events(image) == Events(image);
    acc := FoldSource(acc, tail, Events(image));
    items := acc.items;
    lists := Regroup(acc.latest);
    ghost var es := Events(image) + Events(tail);
    forall list, pk ensures (list in lists && pk in lists[list].primaryKeys) <==> Added(Newest(es, Posting(list, pk))) {
      FoldsPosting(acc, es, list, pk);
    }
    forall list | list in lists ensures NewestOf(es, list, lists[list]) {
      RegroupedIsNewest(acc, es, list, lists[list]);
    }
    forall item
      ensures item in items <==>
                var e := Newest(es, Row(item.table, item.key));
                e.Some? && e.value.content == Bytes_(item.buffer) && e.value.tid == item.tid
    {
      FoldsRow(acc, es, item.table, item.key);
      if item in items {
        var i :| 0 <= i < |items| && items[i] == item;
      }
    }
  }

  /** A list is not empty and carries the newest version among its surviving postings. */
  ghost predicate NewestOf(es: seq<Event>, list: ListKey, l: Listed) {
    && (forall pk :: pk in l.primaryKeys ==>
        Newest(es, Posting(list, pk)).Some? && !Less(l.maxTid, Newest(es, Posting(list, pk)).value.tid))
    && (exists pk ::
          pk in l.primaryKeys && Newest(es, Posting(list, pk)).Some?
          && Newest(es, Posting(list, pk)).value.tid == l.maxTid)
  }

  lemma RegroupedIsNewest(acc: Acc, es: seq<Event>, list: ListKey, l: Listed)
    requires Folds(acc, es) && MaxOf(acc.latest, list, l)
    ensures NewestOf(es, list, l)
  {
    hide Newest;
    forall pk | pk in l.primaryKeys
      ensures Newest(es, Posting(list, pk)).Some?
      ensures Newest(es, Posting(list, pk)).value.tid == acc.latest[(list, pk)].tid
    {
      FoldsPosting(acc, es, list, pk);
    }
    var pk :| pk in l.primaryKeys && (list, pk) in acc.latest && acc.latest[(list, pk)].tid == l.maxTid;
    assert Newest(es, Posting(list, pk)).value.tid == l.maxTid;
  }

  lemma NothingFolded()
    ensures Folds(Acc([], map[], map[]), [])
  {
  }
}
