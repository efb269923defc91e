/**
 * The fuzzy checkpoint: an image scanned item by item while writers keep committing, folded with
 * the log above its cut. What each recovery makes of a row or a posting is computed exactly, and
 * with it when the two agree with each other and with the lists that were live.
 */
module CheckpointFold {
  import opened Basics
  import opened Versions
  import opened LogRecords
  import opened RecoveryFold

  /** Something the scan visits: a row or the posting list of a secondary key. */
  datatype Thing = RowThing(table: string, key: string) | ListThing(list: ListKey)

  /** One operation of a transaction on a posting list. */
  datatype ListOp = ListOp(primaryKey: string, op: SecondaryOp)

  /** One committed version: the bytes of a row, or the operations on a posting list in order. */
  datatype Version = Version(tid: Tid, bytes: Bytes, ops: seq<ListOp>)

  type History = map<Thing, seq<Version>>

  function VersionsOf(h: History, x: Thing): seq<Version> {
    if x in h then h[x] else []
  }

  /** The operations on one primary key, in order. */
  function OpsOn(ops: seq<ListOp>, pk: string): seq<SecondaryOp> {
    if ops == [] then []
    else
      var before, last := OpsOn(ops[..|ops| - 1], pk), ops[|ops| - 1];
      if last.primaryKey == pk then before + [last.op] else before
  }

  /** A posting list after some operations. */
  function Applied(ops: seq<ListOp>, keys: set<string>): set<string> {
    if ops == [] then keys
    else
      var before, last := Applied(ops[..|ops| - 1], keys), ops[|ops| - 1];
      if last.op == Add then before + {last.primaryKey} else before - {last.primaryKey}
  }

  /** The posting list after the first n versions. */
  function ListAt(vs: seq<Version>, n: nat): set<string>
    requires n <= |vs|
  {
    if n == 0 then {} else Applied(vs[n - 1].ops, ListAt(vs, n - 1))
  }

  predicate Increasing(vs: seq<Version>) {
    forall i, j :: 0 <= i < j < |vs| ==> Less(vs[i].tid, vs[j].tid)
  }

  predicate OpsOk(ops: seq<ListOp>) {
    forall i :: 0 <= i < |ops| ==> ops[i].op == Add || ops[i].op == Remove
  }

  /** Versions increase, and an operation adds or removes a primary key. */
  predicate HistoryOk(h: History) {
    forall x :: x in h ==> Increasing(h[x]) && forall i :: 0 <= i < |h[x]| ==> OpsOk(h[x][i].ops)
  }

  // ----- The three sets of events -------------------------------------------------------------

  function OpEvents(s: Subject, tid: Tid, ops: seq<SecondaryOp>): (es: seq<Event>)
    ensures |es| == |ops| && forall i :: 0 <= i < |ops| ==> es[i] == Event(s, tid, Op(ops[i]))
  {
    seq(|ops|, i requires 0 <= i < |ops| => Event(s, tid, Op(ops[i])))
  }

  /**
   * The events a version of the subject's item logs about the subject, in order and all under one
   * version. An operation on the empty primary key is logged in a form the fold drops.
   */
  function LoggedEvents(s: Subject, v: Version): seq<Event> {
    match s
    case Row(_, _) => [Event(s, v.tid, Bytes_(v.bytes))]
    case Posting(_, pk) => if pk == "" then [] else OpEvents(s, v.tid, OpsOn(v.ops, pk))
  }

  function ThingOf(s: Subject): Thing {
    match s
    case Row(t, k) => RowThing(t, k)
    case Posting(l, _) => ListThing(l)
  }

  /** An event comes before every other event about its subject under the same version. */
  predicate ComesFirst(es: seq<Event>, e: Event) {
    exists p :: 0 <= p < |es| && es[p] == e && forall r :: 0 <= r < p && es[r].subject == e.subject ==>
      es[r].tid != e.tid
  }

  predicate Within(v: Version, low: int, high: nat) {
    low < v.tid.epoch <= high
  }

  /**
   * About a subject, the events are those of the versions of epochs in (low, high], in any order
   * of the versions but with the operations of one version in their order.
   */
  ghost predicate LogAbout(es: seq<Event>, h: History, low: int, high: nat, s: Subject) {
    var vs := VersionsOf(h, ThingOf(s));
    && (forall e: Event :: e.subject == s ==>
          (e in es <==> exists i :: 0 <= i < |vs| && Within(vs[i], low, high) && e in LoggedEvents(s, vs[i])))
    && (forall i :: 0 <= i < |vs| && Within(vs[i], low, high) && LoggedEvents(s, vs[i]) != [] ==>
          ComesFirst(es, LoggedEvents(s, vs[i])[0]))
  }

  ghost predicate LogOf(es: seq<Event>, h: History, low: int, high: nat) {
    forall s :: LogAbout(es, h, low, high, s)
  }

  /** The image event of a subject whose item was captured after n versions. */
  function CapturedEvent(s: Subject, vs: seq<Version>, n: nat): Option<Event>
    requires n <= |vs|
  {
    if n == 0 then None
    else
      match s
      case Row(_, _) => if vs[n - 1].bytes == [] then None else Some(Event(s, vs[n - 1].tid, Bytes_(vs[n - 1].bytes)))
      case Posting(_, pk) => if pk in ListAt(vs, n) then Some(Event(s, vs[n - 1].tid, Op(Add))) else None
  }

  function Captured(captured: map<Thing, nat>, x: Thing): nat {
    if x in captured then captured[x] else 0
  }

  /** About a subject, the image holds its item as it stood when captured, if it was live. */
  ghost predicate ImageAbout(es: seq<Event>, h: History, captured: map<Thing, nat>, s: Subject) {
    var vs, n := VersionsOf(h, ThingOf(s)), Captured(captured, ThingOf(s));
    n <= |vs| && forall e: Event :: e.subject == s ==> (e in es <==> CapturedEvent(s, vs, n) == Some(e))
  }

  ghost predicate ImageOf(es: seq<Event>, h: History, captured: map<Thing, nat>) {
    forall s :: ImageAbout(es, h, captured, s)
  }

  /** Nothing at or below the cut follows a capture, and what was captured is in the log. */
  predicate Fuzzy(h: History, captured: map<Thing, nat>, cut: nat, frontier: nat) {
    forall x :: x in h ==>
      && Captured(captured, x) <= |h[x]|
      && (forall i :: Captured(captured, x) <= i < |h[x]| ==> h[x][i].tid.epoch > cut)
      && (forall i :: 0 <= i < Captured(captured, x) ==> h[x][i].tid.epoch <= frontier)
  }

  // ----- Versions of one item --------------------------------------------------------------------

  /** How many leading versions are at or below an epoch. */
  function UpTo(vs: seq<Version>, epoch: nat): (m: nat)
    ensures m <= |vs| && (m < |vs| ==> vs[m].tid.epoch > epoch)
    ensures forall i :: 0 <= i < m ==> vs[i].tid.epoch <= epoch
  {
    if vs == [] || vs[0].tid.epoch > epoch then 0 else 1 + UpTo(vs[1..], epoch)
  }

  /** Epochs do not step back, so the versions up to an epoch are a prefix. */
  lemma UpToIsPrefix(vs: seq<Version>, epoch: nat, i: nat)
    requires Increasing(vs) && i < |vs|
    ensures vs[i].tid.epoch <= epoch <==> i < UpTo(vs, epoch)
  {
  }

  /** The last of the first n versions that operates on a primary key, or -1. */
  function LastTouch(vs: seq<Version>, n: nat, pk: string): (q: int)
    requires n <= |vs|
    ensures -1 <= q < n && (q >= 0 ==> OpsOn(vs[q].ops, pk) != [])
    ensures forall i :: q < i < n ==> OpsOn(vs[i].ops, pk) == []
  {
    if n == 0 then -1 else if OpsOn(vs[n - 1].ops, pk) != [] then n - 1 else LastTouch(vs, n - 1, pk)
  }

  function FirstOp(v: Version, pk: string): SecondaryOp
    requires OpsOn(v.ops, pk) != []
  {
    OpsOn(v.ops, pk)[0]
  }

  function LastOp(v: Version, pk: string): SecondaryOp
    requires OpsOn(v.ops, pk) != []
  {
    OpsOn(v.ops, pk)[|OpsOn(v.ops, pk)| - 1]
  }

  /** The last operation on a primary key decides whether it is listed. */
  lemma {:induction false} AppliedByLast(ops: seq<ListOp>, keys: set<string>, pk: string)
    ensures pk in Applied(ops, keys) <==>
              if OpsOn(ops, pk) == [] then pk in keys else OpsOn(ops, pk)[|OpsOn(ops, pk)| - 1] == Add
  {
    if ops != [] { AppliedByLast(ops[..|ops| - 1], keys, pk); }
  }

  /** A posting is listed exactly when the last operation on it added it. */
  lemma {:induction false} ListedByLastTouch(vs: seq<Version>, n: nat, pk: string)
    requires n <= |vs|
    ensures pk in ListAt(vs, n) <==> var q := LastTouch(vs, n, pk); q >= 0 && LastOp(vs[q], pk) == Add
  {
    if n > 0 {
      ListedByLastTouch(vs, n - 1, pk);
      AppliedByLast(vs[n - 1].ops, ListAt(vs, n - 1), pk);
    }
  }

  lemma {:induction false} OpsOnOk(ops: seq<ListOp>, pk: string)
    requires OpsOk(ops)
    ensures forall i :: 0 <= i < |OpsOn(ops, pk)| ==> OpsOn(ops, pk)[i] == Add || OpsOn(ops, pk)[i] == Remove
  {
    if ops != [] { OpsOnOk(ops[..|ops| - 1], pk); }
  }

  lemma InOrder(h: History, x: Thing)
    requires HistoryOk(h)
    ensures Increasing(VersionsOf(h, x))
    ensures forall i :: 0 <= i < |VersionsOf(h, x)| ==> OpsOk(VersionsOf(h, x)[i].ops)
  {
  }

  // ----- What the fold makes of a log and of an image ----------------------------------------------

  /** The last of the first n versions that logs something about a subject, or -1. */
  function LastLogged(vs: seq<Version>, n: nat, s: Subject): (q: int)
    requires n <= |vs|
    ensures -1 <= q < n && (q >= 0 ==> LoggedEvents(s, vs[q]) != [])
    ensures forall i :: q < i < n ==> LoggedEvents(s, vs[i]) == []
  {
    if n == 0 then -1 else if LoggedEvents(s, vs[n - 1]) != [] then n - 1 else LastLogged(vs, n - 1, s)
  }

  lemma {:induction false} LoggedTouch(vs: seq<Version>, n: nat, s: Subject)
    requires n <= |vs|
    ensures s.Row? ==> LastLogged(vs, n, s) == n - 1
    ensures s.Posting? && s.primaryKey == "" ==> LastLogged(vs, n, s) == -1
    ensures s.Posting? && s.primaryKey != "" ==> LastLogged(vs, n, s) == LastTouch(vs, n, s.primaryKey)
  {
    if n > 0 { LoggedTouch(vs, n - 1, s); }
  }

  lemma LoggedUnder(s: Subject, v: Version, e: Event)
    requires e in LoggedEvents(s, v)
    ensures e.subject == s && e.tid == v.tid
  {
  }

  lemma InLog(es: seq<Event>, h: History, low: int, high: nat, s: Subject, e: Event)
    requires LogAbout(es, h, low, high, s) && e.subject == s && e in es
    ensures exists i :: 0 <= i < |VersionsOf(h, ThingOf(s))| && Within(VersionsOf(h, ThingOf(s))[i], low, high)
                        && e in LoggedEvents(s, VersionsOf(h, ThingOf(s))[i])
  {
  }

  lemma FirstInLog(es: seq<Event>, h: History, low: int, high: nat, s: Subject, i: nat)
    requires LogAbout(es, h, low, high, s) && i < |VersionsOf(h, ThingOf(s))|
    requires Within(VersionsOf(h, ThingOf(s))[i], low, high)
    requires LoggedEvents(s, VersionsOf(h, ThingOf(s))[i]) != []
    ensures ComesFirst(es, LoggedEvents(s, VersionsOf(h, ThingOf(s))[i])[0])
  {
  }

  /** With no logging version in range, the log is silent about the subject. */
  lemma LogIsSilent(es: seq<Event>, h: History, low: int, high: nat, s: Subject)
    requires LogAbout(es, h, low, high, s)
    requires forall i :: 0 <= i < |VersionsOf(h, ThingOf(s))| && Within(VersionsOf(h, ThingOf(s))[i], low, high) ==>
               LoggedEvents(s, VersionsOf(h, ThingOf(s))[i]) == []
    ensures Newest(es, s) == None
  {
    hide LogAbout, LoggedEvents;
    NewestSpec(es, s);
    forall i | 0 <= i < |es| ensures es[i].subject != s {
      if es[i].subject == s { InLog(es, h, low, high, s, es[i]); }
    }
  }

  /** The first event of the last logging version is the newest the fold finds. */
  lemma LogSpeaks(es: seq<Event>, h: History, low: int, high: nat, s: Subject, q: nat)
    requires HistoryOk(h) && LogAbout(es, h, low, high, s)
    requires var vs := VersionsOf(h, ThingOf(s));
             && q < |vs| && Within(vs[q], low, high) && LoggedEvents(s, vs[q]) != []
             && forall i :: q < i < |vs| && Within(vs[i], low, high) ==> LoggedEvents(s, vs[i]) == []
    ensures Newest(es, s) == Some(LoggedEvents(s, VersionsOf(h, ThingOf(s))[q])[0])
  {
    hide LogAbout, HistoryOk, LoggedEvents, Newest;
    var vs := VersionsOf(h, ThingOf(s));
    var e := LoggedEvents(s, vs[q])[0];
    LoggedUnder(s, vs[q], e);
    FirstInLog(es, h, low, high, s, q);
    InOrder(h, ThingOf(s));
    var p :| 0 <= p < |es| && es[p] == e && forall r :: 0 <= r < p && es[r].subject == s ==> es[r].tid != e.tid;
    forall r | 0 <= r < |es| && es[r].subject == s ensures es[r].tid == e.tid || Less(es[r].tid, e.tid) {
      InLog(es, h, low, high, s, es[r]);
      var i :| 0 <= i < |vs| && Within(vs[i], low, high) && es[r] in LoggedEvents(s, vs[i]);
      LoggedUnder(s, vs[i], es[r]);
      assert i <= q;
    }
    NewestAt(es, s, p);
  }

  /** What the fold finds about a subject in a log of the epochs in (low, high]. */
  lemma NewestInLog(es: seq<Event>, h: History, low: int, high: nat, s: Subject)
    requires HistoryOk(h) && LogAbout(es, h, low, high, s)
    ensures var vs := VersionsOf(h, ThingOf(s));
            var q := LastLogged(vs, UpTo(vs, high), s);
            Newest(es, s) == if q >= 0 && vs[q].tid.epoch > low then Some(LoggedEvents(s, vs[q])[0]) else None
  {
    hide LogAbout, HistoryOk, LoggedEvents, Newest;
    var vs := VersionsOf(h, ThingOf(s));
    var m := UpTo(vs, high);
    var q := LastLogged(vs, m, s);
    InOrder(h, ThingOf(s));
    forall i | 0 <= i < |vs| ensures vs[i].tid.epoch <= high <==> i < m { UpToIsPrefix(vs, high, i); }
    if q >= 0 && vs[q].tid.epoch > low {
      LogSpeaks(es, h, low, high, s, q);
    } else {
      assert forall i :: 0 <= i < q ==> Less(vs[i].tid, vs[q].tid);
      assert forall i :: 0 <= i < |vs| && Within(vs[i], low, high) ==> LoggedEvents(s, vs[i]) == [];
      LogIsSilent(es, h, low, high, s);
    }
  }

  /** What the fold finds about a subject in an image. */
  lemma NewestInImage(im: seq<Event>, h: History, captured: map<Thing, nat>, s: Subject)
    requires ImageAbout(im, h, captured, s)
    ensures Newest(im, s) == CapturedEvent(s, VersionsOf(h, ThingOf(s)), Captured(captured, ThingOf(s)))
  {
    var c := CapturedEvent(s, VersionsOf(h, ThingOf(s)), Captured(captured, ThingOf(s)));
    hide Newest, CapturedEvent;
    CapturedAbout(s, VersionsOf(h, ThingOf(s)), Captured(captured, ThingOf(s)));
    if c.Some? {
      NewestIs(im, s, c.value);
    } else {
      NewestSpec(im, s);
      forall i | 0 <= i < |im| ensures im[i].subject != s { assert im[i] in im; }
    }
  }

  lemma CapturedAbout(s: Subject, vs: seq<Version>, n: nat)
    requires n <= |vs|
    ensures CapturedEvent(s, vs, n).Some? ==> CapturedEvent(s, vs, n).value.subject == s
  {
  }

  /** What recovery makes of the newest event about a row: nothing if it is a tombstone. */
  function LiveRow(e: Option<Event>): Option<Event> {
    if e.Some? && e.value.content == Bytes_([]) then None else e
  }

  // ----- Rows ----------------------------------------------------------------------------------

  lemma RowAgrees(all: seq<Event>, im: seq<Event>, tail: seq<Event>, h: History,
                  captured: map<Thing, nat>, cut: nat, frontier: nat, s: Subject)
    requires HistoryOk(h) && s.Row? && Fuzzy(h, captured, cut, frontier) && (ThingOf(s) in captured ==> ThingOf(s) in h)
    requires LogAbout(all, h, -1, frontier, s) && LogAbout(tail, h, cut, frontier, s) && ImageAbout(im, h, captured, s)
    ensures LiveRow(Newest(im + tail, s)) == LiveRow(Newest(all, s))
  {
    hide LogAbout, ImageAbout, Newest, HistoryOk;
    var vs := VersionsOf(h, ThingOf(s));
    var m := UpTo(vs, frontier);
    NewestInLog(all, h, -1, frontier, s);
    NewestInLog(tail, h, cut, frontier, s);
    NewestInImage(im, h, captured, s);
    NewestConcat(im, tail, s);
    LoggedTouch(vs, m, s);
    InOrder(h, ThingOf(s));
    CapturedUpTo(h, captured, cut, frontier, ThingOf(s));
  }

  /** What was captured is a prefix of what the frontier covers, and all of it up to the cut. */
  lemma CapturedUpTo(h: History, captured: map<Thing, nat>, cut: nat, frontier: nat, x: Thing)
    requires HistoryOk(h) && Fuzzy(h, captured, cut, frontier) && (x in captured ==> x in h)
    ensures var vs, n := VersionsOf(h, x), Captured(captured, x);
            n <= UpTo(vs, frontier) && forall i :: 0 <= i < |vs| && vs[i].tid.epoch <= cut ==> i < n
  {
    hide HistoryOk;
    var vs, n := VersionsOf(h, x), Captured(captured, x);
    InOrder(h, x);
    if n > 0 { UpToIsPrefix(vs, frontier, n - 1); }
  }

  // ----- Postings --------------------------------------------------------------------------------

  /** What recovery from the log alone makes of a posting: the first operation of the last version. */
  predicate LogLists(vs: seq<Version>, m: nat, pk: string)
    requires m <= |vs|
  {
    var q := LastTouch(vs, m, pk);
    pk != "" && q >= 0 && FirstOp(vs[q], pk) == Add
  }

  /** The last version on a posting is left to the tail: past the cut and, if captured, not listed. */
  predicate TailDecides(vs: seq<Version>, n: nat, cut: nat, q: nat, pk: string)
    requires q < |vs| && OpsOn(vs[q].ops, pk) != []
  {
    vs[q].tid.epoch > cut && (q >= n || LastOp(vs[q], pk) != Add)
  }

  /** What recovery from an image captured after n versions, and the tail, makes of a posting. */
  predicate ImageLists(vs: seq<Version>, n: nat, m: nat, cut: nat, pk: string)
    requires n <= m <= |vs|
  {
    var q := LastTouch(vs, m, pk);
    if pk == "" then pk in ListAt(vs, n)
    else q >= 0 && (if TailDecides(vs, n, cut, q, pk) then FirstOp(vs[q], pk) else LastOp(vs[q], pk)) == Add
  }

  /** The log alone: its fold lists a posting exactly as its first logged operation says. */
  lemma LogRecovers(all: seq<Event>, h: History, frontier: nat, s: Subject)
    requires HistoryOk(h) && s.Posting? && LogAbout(all, h, -1, frontier, s)
    ensures var vs := VersionsOf(h, ThingOf(s));
            Added(Newest(all, s)) == LogLists(vs, UpTo(vs, frontier), s.primaryKey)
  {
    hide LogAbout, HistoryOk, Newest;
    var vs := VersionsOf(h, ThingOf(s));
    NewestInLog(all, h, -1, frontier, s);
    LoggedTouch(vs, UpTo(vs, frontier), s);
  }

  /** Image and tail: the captured list decides, unless the last version on the posting is left to the tail. */
  lemma ImageRecovers(im: seq<Event>, tail: seq<Event>, h: History,
                      captured: map<Thing, nat>, cut: nat, frontier: nat, s: Subject)
    requires HistoryOk(h) && s.Posting? && Fuzzy(h, captured, cut, frontier)
    requires (ThingOf(s) in captured ==> ThingOf(s) in h)
    requires LogAbout(tail, h, cut, frontier, s) && ImageAbout(im, h, captured, s)
    ensures var vs, n := VersionsOf(h, ThingOf(s)), Captured(captured, ThingOf(s));
            var m := UpTo(vs, frontier);
            n <= m && Added(Newest(im + tail, s)) == ImageLists(vs, n, m, cut, s.primaryKey)
  {
    hide LogAbout, ImageAbout, HistoryOk, Newest, OpsOn, ListAt, UpTo;
    var vs, n, pk := VersionsOf(h, ThingOf(s)), Captured(captured, ThingOf(s)), s.primaryKey;
    var m := UpTo(vs, frontier);
    CapturedUpTo(h, captured, cut, frontier, ThingOf(s));
    InOrder(h, ThingOf(s));
    NewestInLog(tail, h, cut, frontier, s);
    NewestInImage(im, h, captured, s);
    NewestConcat(im, tail, s);
    LoggedTouch(vs, m, s);
    ListedByLastTouch(vs, n, pk);
    SameTouch(vs, n, m, pk);
  }

  /** A version among the first n that is the last of the first m is the last of the first n. */
  lemma {:induction false} SameTouch(vs: seq<Version>, n: nat, m: nat, pk: string)
    requires n <= m <= |vs|
    ensures LastTouch(vs, m, pk) < n ==> LastTouch(vs, n, pk) == LastTouch(vs, m, pk)
    ensures LastTouch(vs, n, pk) <= LastTouch(vs, m, pk)
  {
  }

  predicate SameEnds(v: Version, pk: string)
    requires OpsOn(v.ops, pk) != []
  {
    FirstOp(v, pk) == LastOp(v, pk)
  }

  /**
   * When the log alone gives the live list at a primary key: the key is not empty, or not listed;
   * and the first operation of the version that decides is also its last.
   */
  predicate LogFaithful(vs: seq<Version>, m: nat, pk: string)
    requires m <= |vs|
  {
    var q := LastTouch(vs, m, pk);
    if pk == "" then pk !in ListAt(vs, m) else q >= 0 ==> SameEnds(vs[q], pk)
  }

  /** The same for image and tail: the version that decides matters only where the tail decides. */
  predicate ImageFaithful(vs: seq<Version>, n: nat, m: nat, cut: nat, pk: string)
    requires n <= m <= |vs|
  {
    var q := LastTouch(vs, m, pk);
    if pk == "" then pk in ListAt(vs, n) <==> pk in ListAt(vs, m)
    else q >= 0 && TailDecides(vs, n, cut, q, pk) ==> SameEnds(vs[q], pk)
  }

  /** When the two recoveries agree with each other. */
  predicate BothAgree(vs: seq<Version>, n: nat, m: nat, cut: nat, pk: string)
    requires n <= m <= |vs|
  {
    var q := LastTouch(vs, m, pk);
    if pk == "" then pk !in ListAt(vs, n)
    else q >= 0 && !TailDecides(vs, n, cut, q, pk) ==> SameEnds(vs[q], pk)
  }

  lemma ExactConditions(vs: seq<Version>, n: nat, m: nat, cut: nat, pk: string)
    requires n <= m <= |vs| && forall i :: 0 <= i < |vs| ==> OpsOk(vs[i].ops)
    ensures LogLists(vs, m, pk) == (pk in ListAt(vs, m)) <==> LogFaithful(vs, m, pk)
    ensures ImageLists(vs, n, m, cut, pk) == (pk in ListAt(vs, m)) <==> ImageFaithful(vs, n, m, cut, pk)
    ensures ImageLists(vs, n, m, cut, pk) == LogLists(vs, m, pk) <==> BothAgree(vs, n, m, cut, pk)
  {
    hide OpsOn, ListAt, LastTouch;
    ListedByLastTouch(vs, m, pk);
    ListedByLastTouch(vs, n, pk);
    var q := LastTouch(vs, m, pk);
    if q >= 0 { OpsOnOk(vs[q].ops, pk); }
  }

  // ----- The theorems ------------------------------------------------------------------------------

  /** What a committed history leaves under a secondary key. */
  function LiveList(h: History, list: ListKey, frontier: nat): set<string> {
    var vs := VersionsOf(h, ListThing(list)); ListAt(vs, UpTo(vs, frontier))
  }

  /**
   * For any history and any fuzzy capture of it, folding the image with the log above the cut
   * gives the same live rows, bytes and versions included, as folding the whole log. About a
   * posting the two agree exactly under BothAgree, the log gives the committed list exactly under
   * LogFaithful, and image and tail give it exactly under ImageFaithful.
   */
  lemma ImageAndTailRebuildTheLog(log: seq<Event>, image: seq<Event>, tail: seq<Event>,
                                  h: History, captured: map<Thing, nat>, cut: nat, frontier: nat, s: Subject)
    requires HistoryOk(h) && Fuzzy(h, captured, cut, frontier) && captured.Keys <= h.Keys
    requires LogAbout(log, h, -1, frontier, s) && LogAbout(tail, h, cut, frontier, s)
    requires ImageAbout(image, h, captured, s)
    ensures s.Row? ==> LiveRow(Newest(image + tail, s)) == LiveRow(Newest(log, s))
    ensures s.Posting? ==>
              var vs, n, pk := VersionsOf(h, ThingOf(s)), Captured(captured, ThingOf(s)), s.primaryKey;
              var m := UpTo(vs, frontier);
              var byLog, byImage := Added(Newest(log, s)), Added(Newest(image + tail, s));
              && n <= m
              && (byLog == (pk in LiveList(h, s.list, frontier)) <==> LogFaithful(vs, m, pk))
              && (byImage == (pk in LiveList(h, s.list, frontier)) <==> ImageFaithful(vs, n, m, cut, pk))
              && (byImage == byLog <==> BothAgree(vs, n, m, cut, pk))
  {
    hide LogAbout, ImageAbout, Newest, Fuzzy, HistoryOk, LogFaithful, ImageFaithful, BothAgree, LogLists, ImageLists;
    if s.Row? {
      RowAgrees(log, image, tail, h, captured, cut, frontier, s);
    } else {
      var vs, n := VersionsOf(h, ThingOf(s)), Captured(captured, ThingOf(s));
      LogRecovers(log, h, frontier, s);
      ImageRecovers(image, tail, h, captured, cut, frontier, s);
      InOrder(h, ThingOf(s));
      ExactConditions(vs, n, UpTo(vs, frontier), cut, s.primaryKey);
    }
  }

  /** No version operates on the subject under the empty key, nor begins and ends with different operations. */
  predicate Plain(h: History, s: Subject) {
    s.Posting? ==>
      && s.primaryKey != ""
      && forall v <- VersionsOf(h, ThingOf(s)) | OpsOn(v.ops, s.primaryKey) != [] :: SameEnds(v, s.primaryKey)
  }

  /** About a plain subject both recoveries give what was committed. */
  lemma PlainIsFaithful(h: History, s: Subject, n: nat, m: nat, cut: nat)
    requires s.Posting? && Plain(h, s) && n <= m <= |VersionsOf(h, ThingOf(s))|
    ensures var vs, pk := VersionsOf(h, ThingOf(s)), s.primaryKey;
            LogFaithful(vs, m, pk) && ImageFaithful(vs, n, m, cut, pk) && BothAgree(vs, n, m, cut, pk)
  {
    hide OpsOn, SameEnds, TailDecides;
  }
}

/**
 * The capture itself, interleaved with committing writers and the flusher: cut before the barrier,
 * items one at a time, the end epoch after the last, publication once the log is durable through
 * the end.
 */
module Checkpoint {
  import opened Versions
  import opened LogRecords
  import opened EpochSpec
  import opened RecoveryFold
  import opened CheckpointFold

  datatype Scan = NoScan
                | CutTaken(cut: nat)
                | Scanning(cut: nat, captured: map<Thing, nat>)
                | Scanned(cut: nat, captured: map<Thing, nat>, end: nat)
                | Published(cut: nat, captured: map<Thing, nat>, end: nat)

  /** A version, by its item and its number. */
  type Written = (Thing, nat)

  datatype State = State(
    clock: Clock,
    hist: History,
    unlogged: map<Thread, set<Written>>,   // published by an online thread, not yet enqueued
    queued: set<Written>,                  // enqueued, not yet on the device
    device: set<Written>,
    durable: nat,
    scan: Scan)

  datatype Action =
    | DoTick | DoJoin(t: Thread) | DoPublish(t: Thread, x: Thing, v: Version) | DoEnqueue(t: Thread)
        | DoLeave(t: Thread)
    | DoFlush(closed: nat) | DoCut | DoBarrier | DoCapture(x: Thing) | DoEnd | DoGate

  function LastTid(vs: seq<Version>): Tid {
    if vs == [] then EMPTY else vs[|vs| - 1].tid
  }

  /** A commit publishes a newer version, tagged with the epoch it is online at. */
  predicate StepPublish(s: State, t: Thread, x: Thing, v: Version, s': State) {
    && t in s.clock.online && t in s.unlogged && x in s.hist
    && v.tid.epoch == s.clock.online[t] && Less(LastTid(s.hist[x]), v.tid) && OpsOk(v.ops)
    && s' == s.(hist := s.hist[x := s.hist[x] + [v]], unlogged := s.unlogged[t := s.unlogged[t] + {(x, |s.hist[x]|)}])
  }

  predicate Exists(s: State, w: Written) {
    w.0 in s.hist && w.1 < |s.hist[w.0]|
  }

  function EpochOf(s: State, w: Written): nat
    requires Exists(s, w)
  {
    s.hist[w.0][w.1].tid.epoch
  }

  function Due(s: State, closed: nat): set<Written> {
    set w | w in s.queued && Exists(s, w) && EpochOf(s, w) <= closed
  }

  /** The flusher writes the queued records of a closed epoch and those before it, then reports it durable. */
  predicate StepFlush(s: State, closed: nat, s': State) {
    && s.durable < closed && closed + 2 <= s.clock.now
    && s' == s.(queued := s.queued - Due(s, closed), device := s.device + Due(s, closed), durable := closed)
  }

  predicate Step(s: State, a: Action, s': State) {
    match a
    case DoTick => Tick(s.clock, s'.clock) && s' == s.(clock := s'.clock)
    case DoJoin(t) => Join(s.clock, t, s'.clock) && s' == s.(clock := s'.clock, unlogged := s.unlogged[t := {}])
    case DoPublish(t, x, v) => StepPublish(s, t, x, v, s')
    case DoEnqueue(t) => t in s.unlogged && s' == s.(queued := s.queued + s.unlogged[t],
                                                  unlogged := s.unlogged[t := {}])
    case DoLeave(t) =>
      && t in s.unlogged && s.unlogged[t] == {} && Leave(s.clock, t, s'.clock)
      && s' == s.(clock := s'.clock, unlogged := s.unlogged - {t})
    case DoFlush(closed) => StepFlush(s, closed, s')
    case DoCut => s.scan == NoScan && s' == s.(scan := CutTaken(s.clock.now))
    case DoBarrier => s.scan.CutTaken? && s.clock.now >= s.scan.cut + 2 && s' == s.(scan := Scanning(s.scan.cut, map[]))
    case DoCapture(x) =>
      s.scan.Scanning? && x in s.hist && x !in s.scan.captured
      && s' == s.(scan := Scanning(s.scan.cut, s.scan.captured[x := |s.hist[x]|]))
    case DoEnd =>
      && s.scan.Scanning? && s.scan.captured.Keys == s.hist.Keys
      && s' == s.(scan := Scanned(s.scan.cut, s.scan.captured, s.clock.now))
    case DoGate =>
      s.scan.Scanned? && s.durable >= s.scan.end && s' == s.(scan := Published(s.scan.cut, s.scan.captured, s.scan.end))
  }

  /** A database as startup leaves it: whatever it holds is older than the clock and in the log. */
  predicate Init(s: State) {
    && s.clock.online == map[] && s.unlogged == map[] && s.queued == {} && s.scan == NoScan && HistoryOk(s.hist)
    && s.durable < s.clock.now
    && (forall x, i :: x in s.hist && 0 <= i < |s.hist[x]| ==>
          s.hist[x][i].tid.epoch < s.clock.now && (x, i) in s.device && s.hist[x][i].tid != EMPTY)
  }

  predicate IsRun(run: seq<State>, acts: seq<Action>) {
    |run| == |acts| + 1 && Init(run[0]) && forall i :: 0 <= i < |acts| ==> Step(run[i], acts[i], run[i + 1])
  }

  predicate Unlogged(s: State, w: Written, t: Thread) {
    t in s.unlogged && w in s.unlogged[t]
  }

  /** Every version is on the device, queued, or its writer is still online in its epoch. */
  predicate VersionOk(s: State, x: Thing, i: nat)
    requires x in s.hist && i < |s.hist[x]|
  {
    && s.hist[x][i].tid.epoch <= s.clock.now
    && ((x, i) in s.device
        || (s.hist[x][i].tid.epoch > s.durable
            && ((x, i) in s.queued
                || exists t ::
                     Unlogged(s, (x, i), t) && t in s.clock.online
                     && s.clock.online[t] == s.hist[x][i].tid.epoch)))
  }

  predicate CaptureOk(s: State, cut: nat, captured: map<Thing, nat>) {
    forall x :: x in captured ==>
      && x in s.hist && captured[x] <= |s.hist[x]|
      && forall i :: captured[x] <= i < |s.hist[x]| ==> s.hist[x][i].tid.epoch > cut
  }

  predicate ScanOk(s: State) {
    match s.scan
    case NoScan => true
    case CutTaken(cut) => cut <= s.clock.now
    case Scanning(cut, captured) => cut + 2 <= s.clock.now && CaptureOk(s, cut, captured)
    case Scanned(cut, captured, end) =>
      && cut + 2 <= s.clock.now && CaptureOk(s, cut, captured) && captured.Keys == s.hist.Keys
      && (forall x, i :: x in captured && 0 <= i < captured[x] ==> s.hist[x][i].tid.epoch <= end)
    case Published(cut, captured, end) =>
      && cut + 2 <= s.clock.now && CaptureOk(s, cut, captured) && captured.Keys == s.hist.Keys && end <= s.durable
      && (forall x, i :: x in captured && 0 <= i < captured[x] ==> s.hist[x][i].tid.epoch <= end && (x, i) in s.device)
  }

  /** Nobody online can still write for a durable epoch. */
  predicate ClockOk(s: State) {
    && Bounded(s.clock) && s.unlogged.Keys == s.clock.online.Keys && s.durable < s.clock.now
    && (forall t :: t in s.clock.online ==> s.clock.online[t] > s.durable)
  }

  predicate Inv(s: State) {
    && ClockOk(s) && HistoryOk(s.hist)
    && (forall x, i :: x in s.hist && 0 <= i < |s.hist[x]| ==> VersionOk(s, x, i)) && ScanOk(s)
  }

  lemma PublishKeeps(s: State, t: Thread, x: Thing, v: Version, s': State)
    requires Inv(s) && StepPublish(s, t, x, v, s')
    ensures Inv(s')
  {
    hide HistoryOk;
    PublishHistory(s, t, x, v, s');
    forall y, i | y in s'.hist && 0 <= i < |s'.hist[y]| ensures VersionOk(s', y, i) {
      if y == x && i == |s.hist[x]| {
        assert Unlogged(s', (x, i), t);
      } else {
        assert VersionOk(s, y, i);
        if u :| Unlogged(s, (y, i), u) && u in s.clock.online && s.clock.online[u] == s.hist[y][i].tid.epoch {
          assert Unlogged(s', (y, i), u);
        }
      }
    }
  }

  lemma PublishHistory(s: State, t: Thread, x: Thing, v: Version, s': State)
    requires HistoryOk(s.hist) && StepPublish(s, t, x, v, s')
    ensures HistoryOk(s'.hist)
  {
    var vs := s'.hist[x];
    forall i, j | 0 <= i < j < |vs| ensures Less(vs[i].tid, vs[j].tid) {
      if j == |s.hist[x]| && i < |s.hist[x]| - 1 { assert Less(s.hist[x][i].tid, LastTid(s.hist[x])); }
    }
  }

  lemma LogKeeps(s: State, a: Action, s': State)
    requires Inv(s) && Step(s, a, s') && (a.DoEnqueue? || a.DoLeave? || a.DoJoin? || a.DoTick?)
    ensures Inv(s')
  {
    hide HistoryOk;
    forall y, i | y in s'.hist && 0 <= i < |s'.hist[y]| ensures VersionOk(s', y, i) {
      assert VersionOk(s, y, i);
      if u :| Unlogged(s, (y, i), u) && u in s.clock.online && s.clock.online[u] == s.hist[y][i].tid.epoch {
        assert (y, i) in s'.queued || Unlogged(s', (y, i), u);
      }
    }
  }

  /** Once an epoch is closed nobody online can add to it, so all its versions are queued or on the device. */
  lemma FlushKeeps(s: State, closed: nat, s': State)
    requires Inv(s) && StepFlush(s, closed, s')
    ensures Inv(s')
  {
    hide HistoryOk;
    TwoEpochsDrain(s.clock, closed);
    forall y, i | y in s'.hist && 0 <= i < |s'.hist[y]| ensures VersionOk(s', y, i) {
      assert VersionOk(s, y, i);
      if u :| Unlogged(s, (y, i), u) && u in s.clock.online && s.clock.online[u] == s.hist[y][i].tid.epoch {
        assert Unlogged(s', (y, i), u);
      }
      if (y, i) in s.queued { assert (y, i) in Due(s, closed) <==> s.hist[y][i].tid.epoch <= closed; }
    }
  }

  /** Past the gate every captured version is on the device. */
  lemma GateKeeps(s: State, s': State)
    requires Inv(s) && Step(s, DoGate, s')
    ensures Inv(s')
  {
    hide HistoryOk;
    SameVersions(s, s');
    forall x, i | x in s.scan.captured && 0 <= i < s.scan.captured[x] ensures (x, i) in s.device {
      assert VersionOk(s, x, i);
    }
  }

  lemma SameVersions(s: State, s': State)
    requires Inv(s) && s' == s.(scan := s'.scan)
    ensures forall y, i :: y in s'.hist && 0 <= i < |s'.hist[y]| ==> VersionOk(s', y, i)
  {
    hide HistoryOk;
    forall y, i | y in s'.hist && 0 <= i < |s'.hist[y]| ensures VersionOk(s', y, i) {
      assert VersionOk(s, y, i);
      if u :| Unlogged(s, (y, i), u) && u in s.clock.online && s.clock.online[u] == s.hist[y][i].tid.epoch {
        assert Unlogged(s', (y, i), u);
      }
    }
  }

  lemma ScanKeeps(s: State, a: Action, s': State)
    requires Inv(s) && Step(s, a, s') && (a.DoCut? || a.DoBarrier? || a.DoCapture? || a.DoEnd?)
    ensures Inv(s')
  {
    hide HistoryOk;
    SameVersions(s, s');
    if a.DoEnd? {
      forall x, i | x in s.scan.captured && 0 <= i < s.scan.captured[x] ensures s.hist[x][i].tid.epoch <= s.clock.now {
        assert VersionOk(s, x, i);
      }
    }
  }

  lemma {:induction false} RunKeepsInv(run: seq<State>, acts: seq<Action>, n: nat)
    requires IsRun(run, acts) && n <= |acts|
    ensures Inv(run[n])
  {
    hide HistoryOk, Step;
    if n > 0 {
      RunKeepsInv(run, acts, n - 1);
      StepKeepsInv(run[n - 1], acts[n - 1], run[n]);
    }
  }

  lemma StepKeepsInv(s: State, a: Action, s': State)
    requires Inv(s) && Step(s, a, s')
    ensures Inv(s')
  {
    hide Inv, StepPublish, StepFlush;
    match a
    case DoPublish(t, x, v) => PublishKeeps(s, t, x, v, s');
    case DoFlush(closed) => FlushKeeps(s, closed, s');
    case DoGate => GateKeeps(s, s');
    case DoCut => ScanKeeps(s, a, s');
    case DoBarrier => ScanKeeps(s, a, s');
    case DoCapture(_) => ScanKeeps(s, a, s');
    case DoEnd => ScanKeeps(s, a, s');
    case _ => LogKeeps(s, a, s');
  }

  /** A frontier that covers every version on the device. */
  predicate Covers(s: State, frontier: nat) {
    forall x, i :: x in s.hist && 0 <= i < |s.hist[x]| && (x, i) in s.device ==> s.hist[x][i].tid.epoch <= frontier
  }

  /**
   * In every interleaving of the capture with committing writers and the flusher, everything in a
   * published image is on the device, and the image is fuzzy at its cut for every frontier that
   * covers the device.
   */
  lemma PublishedImageIsFuzzy(run: seq<State>, acts: seq<Action>, n: nat, frontier: nat)
    requires IsRun(run, acts) && n <= |acts| && run[n].scan.Published? && Covers(run[n], frontier)
    ensures var s := run[n];
            && HistoryOk(s.hist) && s.scan.captured.Keys == s.hist.Keys
            && Fuzzy(s.hist, s.scan.captured, s.scan.cut, frontier)
            && forall x, i :: x in s.scan.captured && 0 <= i < s.scan.captured[x] ==> (x, i) in s.device
  {
    RunKeepsInv(run, acts, n);
  }

  /**
   * Recovery from the image and the log above its cut, for every run, every later crash and every
   * subject: the same rows as recovery from the whole log, and postings exactly as BothAgree,
   * LogFaithful and ImageFaithful say.
   */
  lemma CheckpointedRecoveryAgrees(run: seq<State>, acts: seq<Action>, n: nat, frontier: nat,
                                   log: seq<LogRecord>, image: seq<LogRecord>, tail: seq<LogRecord>, s: Subject)
    requires IsRun(run, acts) && n <= |acts| && run[n].scan.Published? && Covers(run[n], frontier)
    requires LogOf(Events(log), run[n].hist, -1, frontier)
    requires LogOf(Events(tail), run[n].hist, run[n].scan.cut, frontier)
    requires ImageOf(Events(image), run[n].hist, run[n].scan.captured)
    ensures s.Row? ==> LiveRow(Newest(Events(image) + Events(tail), s)) == LiveRow(Newest(Events(log), s))
    ensures s.Posting? ==>
              var h, cut, pk := run[n].hist, run[n].scan.cut, s.primaryKey;
              var vs, c := VersionsOf(h, ThingOf(s)), Captured(run[n].scan.captured, ThingOf(s));
              var m := UpTo(vs, frontier);
              var byLog, byImage := Added(Newest(Events(log), s)), Added(Newest(Events(image) + Events(tail), s));
              && c <= m
              && (byLog == (pk in LiveList(h, s.list, frontier)) <==> LogFaithful(vs, m, pk))
              && (byImage == (pk in LiveList(h, s.list, frontier)) <==> ImageFaithful(vs, c, m, cut, pk))
              && (byImage == byLog <==> BothAgree(vs, c, m, cut, pk))
  {
    hide LogAbout, ImageAbout, Newest, Events, Fuzzy, HistoryOk, LogFaithful, ImageFaithful, BothAgree;
    PublishedImageIsFuzzy(run, acts, n, frontier);
    ImageAndTailRebuildTheLog(Events(log), Events(image), Events(tail),
                              run[n].hist, run[n].scan.captured, run[n].scan.cut, frontier, s);
  }
}
