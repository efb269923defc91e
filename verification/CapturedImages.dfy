/**
 * What the scan writes for the items it captured is what the recovery theorems take an image to
 * be; and with what commits hand to the logger, recovery from image and log agrees with recovery
 * from the log alone as those theorems say.
 */
module CapturedImages {
  import opened Basics
  import opened Versions
  import opened LogRecords
  import opened RecoveryFold
  import opened CheckpointFold
  import opened LoggedHistories

  // ----- What the scan writes -----------------------------------------------------------------------

  /** A row that was copied; a blank slot or a tombstone is skipped. */
  function CapturePrimaryRow(table: string, key: string, bytes: Bytes, tid: Tid): Option<KeyValue> {
    if bytes == [] then None else Some(KeyValue(table, "", 0, key, bytes, tid, [], NoOp, ""))
  }

  /** A whole posting list; an empty one is skipped. */
  function CaptureSecondaryEntry(list: ListKey, keys: seq<string>, tid: Tid): Option<KeyValue> {
    if keys == [] then None
    else Some(KeyValue(list.table, list.index, list.indexType, list.key, [], tid, keys, Full, ""))
  }

  /** The keys of a list in the order they are stored. */
  ghost predicate Lists(listing: set<string> -> seq<string>) {
    forall keys, pk :: pk in listing(keys) <==> pk in keys
  }

  /** An item captured after n versions. */
  function CaptureThing(x: Thing, vs: seq<Version>, n: nat, listing: set<string> -> seq<string>): Option<KeyValue>
    requires n <= |vs|
  {
    if n == 0 then None
    else
      match x
      case RowThing(table, key) => CapturePrimaryRow(table, key, vs[n - 1].bytes, vs[n - 1].tid)
      case ListThing(list) => CaptureSecondaryEntry(list, listing(ListAt(vs, n)), vs[n - 1].tid)
  }

  predicate CaptureOk(h: History, captured: map<Thing, nat>) {
    forall x :: x in captured ==> captured[x] <= |VersionsOf(h, x)|
  }

  /** The entries of one table, in the order its items settled. */
  function TableEntries(h: History, captured: map<Thing, nat>, listing: set<string> -> seq<string>,
                        xs: seq<Thing>): seq<KeyValue>
    requires CaptureOk(h, captured) && forall x :: x in xs ==> x in captured
  {
    if xs == [] then []
    else
      var n := |xs| - 1;
      var kv := CaptureThing(xs[n], VersionsOf(h, xs[n]), captured[xs[n]], listing);
      TableEntries(h, captured, listing, xs[..n]) + if kv.None? then [] else [kv.value]
  }

  predicate TablesOk(captured: map<Thing, nat>, tables: seq<seq<Thing>>) {
    forall i, j :: 0 <= i < |tables| && 0 <= j < |tables[i]| ==> tables[i][j] in captured
  }

  /** One record per table that has any entry, all under the cut. */
  function Image(h: History, captured: map<Thing, nat>, listing: set<string> -> seq<string>,
                 tables: seq<seq<Thing>>, cut: nat): seq<LogRecord>
    requires CaptureOk(h, captured) && TablesOk(captured, tables)
  {
    if tables == [] then []
    else
      var n := |tables| - 1;
      var kvs := TableEntries(h, captured, listing, tables[n]);
      Image(h, captured, listing, tables[..n], cut) + if kvs == [] then [] else [LogRecord(cut, kvs)]
  }

  /** The tables hold exactly the captured items. */
  predicate Covers(captured: map<Thing, nat>, tables: seq<seq<Thing>>) {
    TablesOk(captured, tables) && forall x :: x in captured ==> exists i :: 0 <= i < |tables| && x in tables[i]
  }

  // ----- Its events ------------------------------------------------------------------------------------

  lemma {:induction false} FullEventsHave(kv: KeyValue, pks: seq<string>, e: Event)
    ensures e in FullEvents(kv, pks) <==>
              e.subject.Posting? && e.subject.list == ListOf(kv) && e.subject.primaryKey in pks
              && e.tid == kv.tid && e.content == Op(Add)
  {
    if pks != [] { FullEventsHave(kv, pks[..|pks| - 1], e); }
  }

  /** An entry stands for exactly the captured events of its item. */
  lemma ThingEvents(x: Thing, vs: seq<Version>, n: nat, listing: set<string> -> seq<string>, e: Event)
    requires n <= |vs| && Lists(listing)
    ensures var kv := CaptureThing(x, vs, n, listing);
            kv.Some? && e in EventsOf(kv.value) <==>
            ThingOf(e.subject) == x && CapturedEvent(e.subject, vs, n) == Some(e)
  {
    hide ListAt;
    var kv := CaptureThing(x, vs, n, listing);
    if kv.Some? && x.ListThing? { FullEventsHave(kv.value, kv.value.primaryKeys, e); }
    if n > 0 && x.ListThing? && kv.None? { assert forall pk :: pk !in listing(ListAt(vs, n)); }
  }

  /** An event is in some table exactly when its item is and was captured so. */
  ghost predicate Shows(h: History, captured: map<Thing, nat>, xs: seq<Thing>, e: Event)
    requires CaptureOk(h, captured)
  {
    var x := ThingOf(e.subject);
    x in xs && x in captured && CapturedEvent(e.subject, VersionsOf(h, x), captured[x]) == Some(e)
  }

  lemma {:induction false} TableEvents(h: History, captured: map<Thing, nat>, listing: set<string> -> seq<string>,
                                       xs: seq<Thing>, e: Event)
    requires CaptureOk(h, captured) && Lists(listing) && forall x :: x in xs ==> x in captured
    ensures e in KvEvents(TableEntries(h, captured, listing, xs)) <==> Shows(h, captured, xs, e)
  {
    hide CapturedEvent, EventsOf, CaptureThing, Lists, KvEvents;
    if xs == [] { NoEvents(); }
    if xs != [] {
      var n := |xs| - 1;
      var x := xs[n];
      var kv := CaptureThing(x, VersionsOf(h, x), captured[x], listing);
      var before := TableEntries(h, captured, listing, xs[..n]);
      TableEvents(h, captured, listing, xs[..n], e);
      ThingEvents(x, VersionsOf(h, x), captured[x], listing, e);
      assert xs == xs[..n] + [x];
      if kv.Some? {
        KvConcat(before, [kv.value]);
        OneEntry(kv.value);
      } else {
        assert before + [] == before;
      }
    }
  }

  ghost predicate InSome(h: History, captured: map<Thing, nat>, tables: seq<seq<Thing>>, e: Event)
    requires CaptureOk(h, captured)
  {
    exists i :: 0 <= i < |tables| && Shows(h, captured, tables[i], e)
  }

  lemma {:induction false} ImageEvents(h: History, captured: map<Thing, nat>, listing: set<string> -> seq<string>,
                                       tables: seq<seq<Thing>>, cut: nat, e: Event)
    requires CaptureOk(h, captured) && Lists(listing) && TablesOk(captured, tables)
    ensures e in Events(Image(h, captured, listing, tables, cut)) <==> InSome(h, captured, tables, e)
  {
    hide Lists, TableEntries, Shows, KvEvents, CaptureOk, InSome, TablesOk;
    if tables == [] {
      InNone(h, captured, e);
    } else {
      var n := |tables| - 1;
      LastTable(h, captured, tables, e);
      var kvs, before := TableEntries(h, captured, listing, tables[n]), Image(h, captured, listing, tables[..n], cut);
      ImageEvents(h, captured, listing, tables[..n], cut, e);
      TableEvents(h, captured, listing, tables[n], e);
      if kvs == [] {
        NoEvents();
        assert before + [] == before;
      } else {
        OneRecordMore(before, LogRecord(cut, kvs));
      }
    }
  }

  lemma InNone(h: History, captured: map<Thing, nat>, e: Event)
    requires CaptureOk(h, captured)
    ensures !InSome(h, captured, [], e)
  {
  }

  lemma LastTable(h: History, captured: map<Thing, nat>, tables: seq<seq<Thing>>, e: Event)
    requires CaptureOk(h, captured) && TablesOk(captured, tables) && tables != []
    ensures TablesOk(captured, tables[..|tables| - 1])
    ensures forall x :: x in tables[|tables| - 1] ==> x in captured
    ensures InSome(h, captured, tables, e) <==>
              InSome(h, captured, tables[..|tables| - 1], e) || Shows(h, captured, tables[|tables| - 1], e)
  {
    hide Shows, CaptureOk;
    var n := |tables| - 1;
    assert forall i :: 0 <= i < n ==> tables[..n][i] == tables[i];
  }

  lemma NoEvents()
    ensures KvEvents([]) == []
  {
  }

  /** What the scan writes is the image of what it captured. */
  lemma CapturedIsImage(h: History, captured: map<Thing, nat>, listing: set<string> -> seq<string>,
                        tables: seq<seq<Thing>>, cut: nat)
    requires CaptureOk(h, captured) && Lists(listing) && Covers(captured, tables)
    ensures ImageOf(Events(Image(h, captured, listing, tables, cut)), h, captured)
  {
    hide Lists, Image, Events, CapturedEvent;
    var es := Events(Image(h, captured, listing, tables, cut));
    forall s: Subject ensures ImageAbout(es, h, captured, s) {
      var x := ThingOf(s);
      NeverCaptured(s, VersionsOf(h, x));
      forall e: Event | e.subject == s
        ensures e in es <==> CapturedEvent(s, VersionsOf(h, x), Captured(captured, x)) == Some(e)
      {
        ImageEvents(h, captured, listing, tables, cut, e);
      }
    }
  }

  lemma NeverCaptured(s: Subject, vs: seq<Version>)
    ensures CapturedEvent(s, vs, 0) == None
  {
  }
}

/** Recovery from what the scan and the logger really write. */
module WrittenRecovery {
  import opened RecoveryFold
  import opened CheckpointFold
  import opened Checkpoint
  import LoggedHistories
  import CapturedImages

  /**
   * For every run of the capture, every order in which commits were enqueued and every order in
   * which the scan wrote its items: the same rows from image and tail as from the log, and postings
   * exactly as the three conditions say.
   */
  lemma WrittenRecoveryAgrees(run: seq<State>, acts: seq<Action>, n: nat, frontier: nat, s: Subject,
                              all: seq<LoggedHistories.Commit>, late: seq<LoggedHistories.Commit>,
                              listing: set<string> -> seq<string>, tables: seq<seq<Thing>>)
    requires IsRun(run, acts) && n <= |acts| && run[n].scan.Published? && Covers(run[n], frontier)
    requires LoggedHistories.WrittenBy(run[n].hist, all, -1, frontier)
    requires LoggedHistories.WrittenBy(run[n].hist, late, run[n].scan.cut, frontier)
    requires CapturedImages.Lists(listing) && CapturedImages.Covers(run[n].scan.captured, tables)
    ensures CapturedImages.CaptureOk(run[n].hist, run[n].scan.captured)
    ensures var h, cut := run[n].hist, run[n].scan.cut;
            var log, tail := LoggedHistories.Logged(h, all), LoggedHistories.Logged(h, late);
            var image := CapturedImages.Image(h, run[n].scan.captured, listing, tables, cut);
            && (s.Row? ==> LiveRow(Newest(Events(image) + Events(tail), s)) == LiveRow(Newest(Events(log), s)))
            && (s.Posting? ==>
                  var vs, c := VersionsOf(h, ThingOf(s)), Captured(run[n].scan.captured, ThingOf(s));
                  var m := UpTo(vs, frontier);
                  var byLog, byImage := Added(Newest(Events(log), s)), Added(Newest(Events(image) + Events(tail), s));
                  && c <= m
                  && (byLog == (s.primaryKey in LiveList(h, s.list, frontier)) <==> LogFaithful(vs, m, s.primaryKey))
                  && (byImage == (s.primaryKey in LiveList(h, s.list, frontier)) <==>
                        ImageFaithful(vs, c, m, cut, s.primaryKey))
                  && (byImage == byLog <==> BothAgree(vs, c, m, cut, s.primaryKey)))
  {
    hide Step, HistoryOk, LogOf, ImageOf, LoggedHistories.WrittenBy, LoggedHistories.Logged, CapturedImages.Image,
         CapturedImages.Lists, Newest, Events, LogFaithful, ImageFaithful, BothAgree, UpTo,
         LiveList;
    var h, cut, captured := run[n].hist, run[n].scan.cut, run[n].scan.captured;
    PublishedImageIsFuzzy(run, acts, n, frontier);
    LoggedHistories.CommitsAreLog(h, all, -1, frontier);
    LoggedHistories.CommitsAreLog(h, late, cut, frontier);
    CapturedImages.CapturedIsImage(h, captured, listing, tables, cut);
    LoggedHistories.Parts(h, all, -1, frontier);
    LoggedHistories.Parts(h, late, cut, frontier);
    CheckpointedRecoveryAgrees(run, acts, n, frontier, LoggedHistories.Logged(h, all),
                               CapturedImages.Image(h, captured, listing, tables, cut),
                               LoggedHistories.Logged(h, late), s);
  }
}
