/**
 * Why reads of absent keys need the key among the request's own writes. For every request with an
 * absent read that is not protected so, on every database, there is a run in which the request
 * commits although the serial order of the points gives the key another value: an earlier commit
 * that has decided but not yet installed is not seen by a validation that looks at liveness alone.
 */
module SiloUnprotected {
  import opened Basics
  import opened Versions
  import opened SiloModel
  import opened SiloLocks
  import opened SiloSerial
  import SiloAnomaly

  /** A run under construction. */
  datatype Path = Path(states: seq<State>, acts: seq<Action>)

  predicate IsPath(p: Path) {
    IsRun(p.states, p.acts)
  }

  function First(p: Path): State
    requires IsPath(p)
  {
    p.states[0]
  }

  function Final(p: Path): State
    requires IsPath(p)
  {
    p.states[|p.acts|]
  }

  lemma Then(p: Path, a: Action, s': State) returns (q: Path)
    requires IsPath(p) && Step(Final(p), a, s')
    ensures IsPath(q) && First(q) == First(p) && Final(q) == s'
  {
    hide Step, Init;
    var run, acts := SiloAnomaly.Extend(p.states, p.acts, a, s');
    q := Path(run, acts);
  }

  lemma Moves(p: Path, t: TxnId, a: CommitAct, s': State) returns (q: Path)
    requires IsPath(p) && TxnStep(Final(p), t, a, s')
    ensures IsPath(q) && First(q) == First(p) && Final(q) == s'
  {
    hide TxnStep, IsRun;
    assert Step(Final(p), TxnAct(t, a), s');
    q := Then(p, TxnAct(t, a), s');
  }

  // ----- Collecting the evidence of the present reads -----------------------------------------------------

  /** A read shows a row of the database, or its absence. */
  predicate Matches(s: State, rd: Read) {
    if rd.found then
      && rd.key in s.index && s.index[rd.key] in s.slots
      && s.slots[s.index[rd.key]].word == rd.tid && s.slots[s.index[rd.key]].bytes == rd.bytes && rd.bytes != []
    else
      && rd.bytes == []
      && (rd.key in s.index ==> s.index[rd.key] in s.slots && s.slots[s.index[rd.key]].bytes == [])
  }

  /** A reader that has copied n bytes of a row. */
  function Copying(s: State, rd: Read, n: nat): State
    requires rd.key in s.index && n <= |rd.bytes|
  {
    s.(readers := map[0 := Reader(rd.key, s.index[rd.key], Some(rd.tid), Some(|rd.bytes|), rd.bytes[..n])])
  }

  predicate Readable(s: State, rd: Read) {
    rd.found && Matches(s, rd) && s.readers == map[] && !Locked(rd.tid)
  }

  lemma {:induction false} CopiesRest(p: Path, s: State, rd: Read, n: nat) returns (q: Path)
    requires IsPath(p) && Readable(s, rd) && n <= |rd.bytes| && Final(p) == Copying(s, rd, n)
    ensures IsPath(q) && First(q) == First(p) && Final(q) == Copying(s, rd, |rd.bytes|)
    decreases |rd.bytes| - n
  {
    hide IsRun;
    if n == |rd.bytes| {
      q := p;
    } else {
      var s', s'' := Copying(s, rd, n), Copying(s, rd, n + 1);
      assert rd.bytes[..n] + [rd.bytes[n]] == rd.bytes[..n + 1];
      assert s'' == DoReadByte(s', 0, 0);
      assert Step(s', ReaderAct(0, ReadByte(0)), s'');
      var next := Then(p, ReaderAct(0, ReadByte(0)), s'');
      q := CopiesRest(next, s, rd, n + 1);
    }
  }

  lemma ReadsOne(p: Path, rd: Read) returns (q: Path)
    requires IsPath(p) && Readable(Final(p), rd)
    ensures IsPath(q) && First(q) == First(p) && Final(q) == Final(p).(evidence := Final(p).evidence + {rd})
  {
    hide IsRun;
    var s := Final(p);
    var s1 := DoReadBegin(s, 0, rd.key);
    assert Step(s, ReaderAct(0, ReadBegin(rd.key)), s1);
    q := Then(p, ReaderAct(0, ReadBegin(rd.key)), s1);
    var s2 := DoReadSample(s1, 0);
    assert Step(s1, ReaderAct(0, ReadSample), s2);
    q := Then(q, ReaderAct(0, ReadSample), s2);
    var s3 := DoReadSize(s2, 0);
    assert Step(s2, ReaderAct(0, ReadSize), s3);
    q := Then(q, ReaderAct(0, ReadSize), s3);
    assert s3 == Copying(s, rd, 0);
    q := CopiesRest(q, s, rd, 0);
    var s4 := Copying(s, rd, |rd.bytes|);
    assert rd.bytes[..|rd.bytes|] == rd.bytes;
    var s5 := DoReadEnd(s4, 0);
    assert Step(s4, ReaderAct(0, ReadEnd), s5);
    q := Then(q, ReaderAct(0, ReadEnd), s5);
    assert s4.readers - {0} == map[];
    assert s5 == s.(evidence := s.evidence + {rd});
  }

  /** The database after reads, with their evidence. */
  predicate Evident(db: State, s: State, rds: seq<Read>, n: nat)
    requires n <= |rds|
  {
    s == db.(evidence := s.evidence) && forall i :: 0 <= i < n && rds[i].found ==> rds[i] in s.evidence
  }

  lemma {:induction false} ReadsAll(db: State, rds: seq<Read>, n: nat) returns (p: Path)
    requires Init(db) && n <= |rds| && forall i :: 0 <= i < |rds| ==> Matches(db, rds[i])
    ensures IsPath(p) && First(p) == db && Evident(db, Final(p), rds, n)
  {
    if n == 0 {
      p := Path([db], []);
    } else {
      p := ReadsAll(db, rds, n - 1);
      if rds[n - 1].found {
        hide IsRun;
        var s := Final(p);
        assert Matches(s, rds[n - 1]);
        assert !Locked(db.slots[db.index[rds[n - 1].key]].word);
        p := ReadsOne(p, rds[n - 1]);
      }
    }
  }

  // ----- An earlier writer that has decided but not installed ------------------------------------------------

  function Blind(k: Key, v: Bytes): seq<Write> {
    [Write(k, v, false)]
  }

  predicate Consistent(s: State) {
    && (forall x :: x in s.slots ==> Attached(s, x))
    && (forall l :: l in s.index ==> s.index[l] in s.slots && s.slots[s.index[l]].key == l)
  }

  /** The rows of the database are there, except that k may have got a blank slot. */
  predicate DbKept(db: State, b: State, k: Key) {
    && (forall l :: l in db.index ==> l in b.index && b.index[l] == db.index[l])
    && (forall x :: x in db.slots && db.slots[x].key != k ==> x in b.slots && b.slots[x] == db.slots[x])
    && (forall l :: l in b.index && l !in db.index ==> l == k)
  }

  /** Nothing but the slot of k is locked. */
  predicate OthersFree(b: State, k: Key) {
    forall x :: x in b.slots && b.slots[x].key != k ==> b.slots[x].owner == Nobody && !Locked(b.slots[x].word)
  }

  /** Transaction 1 has decided to write k and holds its slot; nothing else is locked, nothing installed. */
  predicate Base(db: State, b: State, k: Key, v: Bytes) {
    && b.txns.Keys == {1} && b.txns[1].phase == Installing && b.txns[1].writeSet == Blind(k, v) && b.txns[1].pos == 0
    && b.points == [1] && b.initial == db.initial && Consistent(b) && OthersFree(b, k) && DbKept(db, b, k)
    && k in b.index && b.index[k] in b.slots && b.slots[b.index[k]].bytes == []
  }

  /** Transaction 1 at a phase before its decision, with its one slot. */
  predicate Writing(db: State, s: State, x: SlotId, k: Key, v: Bytes, phase: Phase, next: nat) {
    && s.txns.Keys == {1} && s.txns[1].writeSet == Blind(k, v) && s.txns[1].readSet == []
    && s.txns[1].phase == phase && s.txns[1].next == next && s.txns[1].order == [x]
    && s.initial == db.initial && Consistent(s) && OthersFree(s, k) && DbKept(db, s, k)
    && k in s.index && s.index[k] == x && x in s.slots && s.slots[x].bytes == []
  }

  lemma WriterDecides(p: Path, db: State, rds: seq<Read>, k: Key, v: Bytes) returns (q: Path)
    requires IsPath(p) && Init(db) && Evident(db, Final(p), rds, |rds|)
    requires k in db.index ==> db.slots[db.index[k]].bytes == []
    ensures IsPath(q) && First(q) == First(p) && Base(db, Final(q), k, v) && Final(q).evidence == Final(p).evidence
  {
    hide IsRun, TxnStep, Init, Base, Writing;
    var s := Final(p);
    StartIsFree(db, s, k);
    var s1 := DoBegin(s, 1, [], Blind(k, v));
    WriterBegins(s, k, v);
    q := Moves(p, 1, Begin([], Blind(k, v)), s1);
    var blank := Bound(s.slots.Keys);
    var s2 := WriterResolves(db, s, k, v, blank);
    q := Moves(q, 1, Resolve(blank), s2);
    var x, s3 := WriterSorts(db, s2, k, v);
    q := Moves(q, 1, Sort([x]), s3);
    q := WriterLocks(q, db, x, k, v);
  }

  lemma StartIsFree(db: State, s: State, k: Key)
    requires Init(db) && s == db.(evidence := s.evidence)
    ensures s.txns == map[] && s.points == [] && Consistent(s) && OthersFree(s, k) && DbKept(db, s, k)
    ensures k in s.index ==> !Locked(s.slots[s.index[k]].word)
  {
  }

  lemma WriterBegins(s: State, k: Key, v: Bytes)
    requires s.txns == map[]
    ensures TxnStep(s, 1, Begin([], Blind(k, v)), DoBegin(s, 1, [], Blind(k, v)))
  {
  }

  /** Transaction 1 has its slot, and the slot is free. */
  predicate HasSlot(db: State, s: State, k: Key, v: Bytes) {
    && s.txns.Keys == {1} && s.txns[1].phase == Resolving && s.txns[1].readSet == []
       && s.txns[1].writeSet == Blind(k, v)
    && k in s.index && s.index[k] in s.slots && s.txns[1].items == [s.index[k]] && s.points == []
    && s.slots[s.index[k]].bytes == [] && !Locked(s.slots[s.index[k]].word)
    && s.initial == db.initial && Consistent(s) && OthersFree(s, k) && DbKept(db, s, k)
  }

  lemma WriterResolves(db: State, s: State, k: Key, v: Bytes, blank: SlotId) returns (s2: State)
    requires s.txns == map[] && s.points == [] && Consistent(s) && OthersFree(s, k) && DbKept(db, s, k)
    requires blank !in s.slots && s.initial == db.initial
    requires k in s.index ==>
        s.index[k] in s.slots && !Locked(s.slots[s.index[k]].word) && s.slots[s.index[k]].bytes == []
    ensures TxnStep(DoBegin(s, 1, [], Blind(k, v)), 1, Resolve(blank), s2) && s2.evidence == s.evidence
    ensures 1 in s2.txns && HasSlot(db, s2, k, v)
  {
    hide OthersFree, DbKept, Consistent;
    var s1 := DoBegin(s, 1, [], Blind(k, v));
    s2 := DoResolve(s1, 1, blank);
    assert Blind(k, v)[0].key == k;
    if k in s.index {
      SlotOfKey(s, k);
      SameTable(db, s, s2, k);
    } else {
      BlankTable(db, s, s2, k, blank);
    }
  }

  lemma SlotOfKey(s: State, k: Key)
    requires Consistent(s) && k in s.index
    ensures s.index[k] in s.slots
  {
  }

  /** A blank slot for k. */
  lemma BlankTable(db: State, s: State, s': State, k: Key, blank: SlotId)
    requires Consistent(s) && OthersFree(s, k) && DbKept(db, s, k) && k !in s.index && blank !in s.slots
    requires s'.slots == s.slots[blank := Slot(k, EMPTY, [], Nobody)] && s'.index == s.index[k := blank]
    ensures Consistent(s') && OthersFree(s', k) && DbKept(db, s', k)
  {
    OneSlotTable(db, s, s', k, blank);
  }

  /** Only the key's own slot is new or changed, and it stays the key's. */
  predicate OnlySlot(s: State, s': State, k: Key, x: SlotId) {
    && x in s'.slots && s'.slots[x].key == k && s'.slots == s.slots[x := s'.slots[x]] && s'.index == s.index[k := x]
    && (x in s.slots ==> s.slots[x].key == k) && (k in s.index ==> s.index[k] == x)
  }

  lemma OneSlotTable(db: State, s: State, s': State, k: Key, x: SlotId)
    requires OnlySlot(s, s', k, x) && Consistent(s) && OthersFree(s, k) && DbKept(db, s, k)
    ensures Consistent(s') && OthersFree(s', k) && DbKept(db, s', k)
  {
    hide Consistent, OthersFree, DbKept;
    OneSlotConsistent(s, s', k, x);
    OneSlotFree(s, s', k, x);
    OneSlotKept(db, s, s', k, x);
  }

  lemma OneSlotConsistent(s: State, s': State, k: Key, x: SlotId)
    requires OnlySlot(s, s', k, x) && Consistent(s)
    ensures Consistent(s')
  {
    forall y | y in s'.slots ensures Attached(s', y) {
      if y != x { assert Attached(s, y) && s.slots[y].key != k; }
    }
  }

  lemma OneSlotFree(s: State, s': State, k: Key, x: SlotId)
    requires OnlySlot(s, s', k, x) && OthersFree(s, k)
    ensures OthersFree(s', k)
  {
    hide Locked;
  }

  lemma OneSlotKept(db: State, s: State, s': State, k: Key, x: SlotId)
    requires OnlySlot(s, s', k, x) && DbKept(db, s, k) && Consistent(s)
    ensures DbKept(db, s', k)
  {
    forall y | y in db.slots && db.slots[y].key != k ensures y in s'.slots && s'.slots[y] == db.slots[y] {
      assert y in s.slots && s.slots[y] == db.slots[y];
    }
  }

  lemma WriterSorts(db: State, s2: State, k: Key, v: Bytes) returns (x: SlotId, s3: State)
    requires 1 in s2.txns && HasSlot(db, s2, k, v)
    ensures TxnStep(s2, 1, Sort([x]), s3) && s3.evidence == s2.evidence && s3.points == []
    ensures Writing(db, s3, x, k, v, Locking, 0) && !Locked(s3.slots[x].word)
  {
    hide OthersFree, DbKept;
    x := s2.txns[1].items[0];
    assert CanSort(s2, 1, [x]);
    s3 := DoSort(s2, 1, [x]);
    SameTable(db, s2, s3, k);
  }

  /** A step that leaves slots and index alone. */
  lemma SameTable(db: State, s: State, s': State, k: Key)
    requires s'.slots == s.slots && s'.index == s.index && Consistent(s) && OthersFree(s, k) && DbKept(db, s, k)
    ensures Consistent(s') && OthersFree(s', k) && DbKept(db, s', k)
  {
    assert forall x :: x in s'.slots ==> Attached(s', x) == Attached(s, x);
  }

  lemma WriterLocks(p: Path, db: State, x: SlotId, k: Key, v: Bytes) returns (q: Path)
    requires IsPath(p) && Writing(db, Final(p), x, k, v, Locking, 0) && !Locked(Final(p).slots[x].word)
    requires Final(p).points == []
    ensures IsPath(q) && First(q) == First(p) && Base(db, Final(q), k, v) && Final(q).evidence == Final(p).evidence
  {
    hide IsRun, TxnStep, Base, Writing;
    var s := Final(p);
    var s' := TakesLock(db, s, x, k, v);
    q := Moves(p, 1, LockItem, s');
    var s'' := Checks(db, s', x, k, v);
    q := Moves(q, 1, CheckItem, s'');
    var t := Decides(db, s'', x, k, v);
    q := Moves(q, 1, Point, t);
    var b := DecidesNow(db, t, x, k, v);
    q := Moves(q, 1, Decide, b);
  }

  lemma TakesLock(db: State, s: State, x: SlotId, k: Key, v: Bytes) returns (s': State)
    requires Writing(db, s, x, k, v, Locking, 0) && !Locked(s.slots[x].word) && s.points == []
    ensures TxnStep(s, 1, LockItem, s') && Writing(db, s', x, k, v, Checking, 0) && s'.evidence == s.evidence
    ensures s'.points == []
  {
    hide Consistent, OthersFree, DbKept;
    s' := DoLockItem(s, 1);
    KeyAt(s, k);
    OneSlotTable(db, s, s', k, x);
  }

  lemma KeyAt(s: State, k: Key)
    requires Consistent(s) && k in s.index
    ensures s.index[k] in s.slots && s.slots[s.index[k]].key == k
  {
  }

  lemma Checks(db: State, s: State, x: SlotId, k: Key, v: Bytes) returns (s': State)
    requires Writing(db, s, x, k, v, Checking, 0) && s.points == []
    ensures TxnStep(s, 1, CheckItem, s') && Writing(db, s', x, k, v, Locking, 1) && s'.evidence == s.evidence
    ensures s'.points == []
  {
    hide OthersFree, DbKept;
    s' := DoCheckItem(s, 1);
    assert s.slots[x].key == k && Attached(s, x);
    SameTable(db, s, s', k);
  }

  lemma Decides(db: State, s: State, x: SlotId, k: Key, v: Bytes) returns (s': State)
    requires Writing(db, s, x, k, v, Locking, 1) && s.points == []
    ensures TxnStep(s, 1, Point, s') && Writing(db, s', x, k, v, Validating, 0) && s'.evidence == s.evidence
    ensures s'.points == [1] && s'.txns[1].pos == 0
  {
    hide OthersFree, DbKept;
    s' := DoPoint(s, 1);
    SameTable(db, s, s', k);
  }

  lemma DecidesNow(db: State, s: State, x: SlotId, k: Key, v: Bytes) returns (b: State)
    requires Writing(db, s, x, k, v, Validating, 0) && s.points == [1] && s.txns[1].pos == 0
    ensures TxnStep(s, 1, Decide, b) && Base(db, b, k, v) && b.evidence == s.evidence
  {
    hide OthersFree, DbKept;
    b := DoDecide(s, 1);
    SameTable(db, s, b, k);
  }

  // ----- The request goes through -----------------------------------------------------------------------------

  /** What a slot was before transaction 2 came. */
  function Before(b: State, s: State, x: SlotId): Slot
    requires x in s.slots
  {
    if x in b.slots then b.slots[x] else Slot(s.slots[x].key, EMPTY, [], Nobody)
  }

  /** A slot is as it was, or as it was and locked by transaction 2. */
  predicate SlotFrom(b: State, s: State, x: SlotId)
    requires x in s.slots && 2 in s.txns
  {
    var was := Before(b, s, x);
    if x in s.txns[2].locked then
      s.txns[2].locked[x] == was.word && s.slots[x] == was.(word := WithLock(was.word), owner := ByTxn(2))
    else s.slots[x] == was
  }

  predicate SlotsFrom(b: State, s: State)
    requires 2 in s.txns
  {
    s.txns[2].locked.Keys <= s.slots.Keys && forall x :: x in s.slots ==> SlotFrom(b, s, x)
  }

  predicate IndexFrom(b: State, s: State) {
    && (forall x :: x in b.slots ==> x in s.slots)
    && (forall x :: x in s.slots ==> Attached(s, x))
    && (forall l :: l in b.index ==> l in s.index && s.index[l] == b.index[l])
    && (forall l :: l in s.index ==> s.index[l] in s.slots && s.slots[s.index[l]].key == l)
    && (forall l :: l in s.index && l !in b.index ==> s.index[l] !in b.slots)
  }

  predicate Along(b: State, s: State, rds: seq<Read>, ws: seq<Write>) {
    && s.txns.Keys == {1, 2} && 1 in b.txns && s.txns[1] == b.txns[1] && s.initial == b.initial
    && s.txns[2].readSet == rds && s.txns[2].writeSet == ws
    && IndexFrom(b, s) && SlotsFrom(b, s)
  }

  lemma Begins(p: Path, b: State, rds: seq<Read>, ws: seq<Write>) returns (q: Path)
    requires IsPath(p) && Final(p) == b && b.txns.Keys == {1} && IndexFrom(b, b)
    requires forall i :: 0 <= i < |rds| ==> if rds[i].found then rds[i] in b.evidence else rds[i].bytes == []
    ensures IsPath(q) && First(q) == First(p) && Along(b, Final(q), rds, ws) && Final(q).txns[2].phase == Resolving
    ensures Final(q).points == b.points && Final(q).txns[2].items == []
  {
    hide IsRun;
    var s := DoBegin(b, 2, rds, ws);
    q := Moves(p, 2, Begin(rds, ws), s);
    assert IndexFrom(b, s) by { assert forall x :: x in s.slots ==> Attached(s, x) == Attached(b, x); }
  }

  lemma {:induction false} ResolvesAll(p: Path, b: State, rds: seq<Read>, ws: seq<Write>) returns (q: Path)
    requires IsPath(p) && Along(b, Final(p), rds, ws) && Final(p).txns[2].phase == Resolving
    requires |Final(p).txns[2].items| <= |ws|
    requires Final(p).points == b.points
    ensures IsPath(q) && First(q) == First(p) && Along(b, Final(q), rds, ws) && Final(q).txns[2].phase == Resolving
    ensures |Final(q).txns[2].items| == |ws| && Final(q).points == b.points
    decreases |ws| - |Final(p).txns[2].items|
  {
    hide IsRun, Along, TxnStep;
    var s := Final(p);
    AlongFacts(b, s, rds, ws);
    if |s.txns[2].items| == |ws| {
      q := p;
    } else {
      var blank := Bound(s.slots.Keys + b.slots.Keys);
      var s' := ResolvesOne(b, s, rds, ws, blank);
      q := Moves(p, 2, Resolve(blank), s');
      q := ResolvesAll(q, b, rds, ws);
    }
  }

  lemma AlongFacts(b: State, s: State, rds: seq<Read>, ws: seq<Write>)
    requires Along(b, s, rds, ws)
    ensures s.txns.Keys == {1, 2} && s.txns[2].readSet == rds && s.txns[2].writeSet == ws
  {
  }

  lemma ResolvesOne(b: State, s: State, rds: seq<Read>, ws: seq<Write>, blank: SlotId) returns (s': State)
    requires Along(b, s, rds, ws) && s.txns[2].phase == Resolving && |s.txns[2].items| < |ws|
    requires blank !in s.slots && blank !in b.slots
    ensures TxnStep(s, 2, Resolve(blank), s') && Along(b, s', rds, ws) && s'.txns[2].phase == Resolving
    ensures |s'.txns[2].items| == |s.txns[2].items| + 1 && s'.points == s.points
  {
    hide IndexFrom, SlotsFrom, Attached;
    s' := DoResolve(s, 2, blank);
    ResolvedIndex(b, s, s', blank, ws[|s.txns[2].items|].key);
    ResolvedSlots(b, s, s', blank, ws[|s.txns[2].items|].key);
  }

  lemma ResolvedSlots(b: State, s: State, s': State, blank: SlotId, k: Key)
    requires 2 in s.txns && 2 in s'.txns && s'.txns[2].locked == s.txns[2].locked && SlotsFrom(b, s)
    requires blank !in s.slots && blank !in b.slots
    requires s'.slots == s.slots || s'.slots == s.slots[blank := Slot(k, EMPTY, [], Nobody)]
    ensures SlotsFrom(b, s')
  {
    forall x | x in s'.slots ensures SlotFrom(b, s', x) {
      if x in s.slots { assert SlotFrom(b, s, x); }
    }
  }

  lemma ResolvedIndex(b: State, s: State, s': State, blank: SlotId, k: Key)
    requires IndexFrom(b, s) && blank !in s.slots && blank !in b.slots
    requires if k in s.index then s'.slots == s.slots && s'.index == s.index
             else s'.slots == s.slots[blank := Slot(k, EMPTY, [], Nobody)] && s'.index == s.index[k := blank]
    ensures IndexFrom(b, s')
  {
    forall x | x in s'.slots ensures Attached(s', x) { if x in s.slots { assert Attached(s, x); } }
  }

  /** A step that leaves slots, index and locks alone. */
  lemma SameSlotsAlong(b: State, s: State, s': State, rds: seq<Read>, ws: seq<Write>)
    requires Along(b, s, rds, ws) && s'.slots == s.slots && s'.index == s.index && s'.initial == s.initial
    requires 2 in s'.txns && s'.txns == s.txns[2 := s'.txns[2]] && s'.txns[2].locked == s.txns[2].locked
    requires s'.txns[2].readSet == rds && s'.txns[2].writeSet == ws
    ensures Along(b, s', rds, ws)
  {
    assert IndexFrom(b, s') by { assert forall x :: x in s'.slots ==> Attached(s', x) == Attached(s, x); }
    assert SlotsFrom(b, s') by { forall x | x in s'.slots ensures SlotFrom(b, s', x) { assert SlotFrom(b, s, x); } }
  }

  lemma Sorts(p: Path, b: State, rds: seq<Read>, ws: seq<Write>) returns (q: Path)
    requires IsPath(p) && Along(b, Final(p), rds, ws) && Final(p).txns[2].phase == Resolving
    requires |Final(p).txns[2].items| == |ws|
    ensures IsPath(q) && First(q) == First(p) && Along(b, Final(q), rds, ws) && Final(q).txns[2].phase == Locking
    ensures Final(q).txns[2].next == 0 && Final(q).points == Final(p).points
  {
    hide IsRun, IndexFrom, SlotsFrom;
    var s := Final(p);
    var order := SortedItems(s.txns[2].items);
    assert CanSort(s, 2, order);
    var s' := DoSort(s, 2, order);
    q := Moves(p, 2, Sort(order), s');
    SameSlotsAlong(b, s, s', rds, ws);
  }

  /** What is known of the next slot to lock: it belongs to a key of the request and is free. */
  lemma NextIsFree(p: Path, db: State, b: State, k: Key, v: Bytes, rds: seq<Read>, ws: seq<Write>)
    requires IsPath(p) && Base(db, b, k, v) && Along(b, Final(p), rds, ws) && !WritesKey(ws, k)
    requires Final(p).txns[2].phase == Locking && Final(p).txns[2].next < |Final(p).txns[2].order|
    ensures var s := Final(p);
            var x := s.txns[2].order[s.txns[2].next];
            x in s.slots && x !in s.txns[2].locked && !Locked(s.slots[x].word) && s.slots[x].owner == Nobody
  {
    hide IsRun, IndexFrom, LockInv, WritesKey;
    var s := Final(p);
    RunIsLocked(p);
    NextIsNotOwn(s);
    FreeUnlessOwn(db, b, s, k, v, rds, ws, s.txns[2].order[s.txns[2].next]);
  }

  /** The next slot belongs to a key of the request, and the request does not hold it yet. */
  lemma NextIsNotOwn(s: State)
    requires LockInv(s) && 2 in s.txns && s.txns[2].phase == Locking && s.txns[2].next < |s.txns[2].order|
    ensures var x := s.txns[2].order[s.txns[2].next];
            x in s.slots && s.slots[x].owner != ByTxn(2) && WritesKey(s.txns[2].writeSet, s.slots[x].key)
  {
    TxnOkOf(s, 2);
    hide LockInv;
    var t := s.txns[2];
    var x := t.order[t.next];
    assert x in t.items;
    var i :| 0 <= i < |t.items| && t.items[i] == x;
    assert t.writeSet[i].key == s.slots[x].key;
    OwnerOkOf(s, x);
  }

  lemma FreeUnlessOwn(db: State, b: State, s: State, k: Key, v: Bytes, rds: seq<Read>, ws: seq<Write>, x: SlotId)
    requires Base(db, b, k, v) && Along(b, s, rds, ws) && x in s.slots && s.slots[x].owner != ByTxn(2)
    requires s.slots[x].key != k
    ensures x !in s.txns[2].locked && !Locked(s.slots[x].word) && s.slots[x].owner == Nobody
  {
    hide IndexFrom, Consistent, DbKept;
    assert SlotFrom(b, s, x);
  }

  lemma RunIsLocked(p: Path)
    requires IsPath(p)
    ensures LockInv(Final(p))
  {
    hide Step, Init, LockInv, SerialInv;
    RunKeepsInv(p.states, p.acts, |p.acts|);
  }

  lemma LocksNext(b: State, s: State, rds: seq<Read>, ws: seq<Write>) returns (s': State)
    requires Along(b, s, rds, ws) && s.txns[2].phase == Locking && s.txns[2].next < |s.txns[2].order|
    requires var x := s.txns[2].order[s.txns[2].next];
             x in s.slots && x !in s.txns[2].locked && !Locked(s.slots[x].word) && s.slots[x].owner == Nobody
    ensures TxnStep(s, 2, LockItem, s') && Along(b, s', rds, ws)
    ensures s'.txns[2] == s.txns[2].(phase := Checking, locked := s'.txns[2].locked) && s'.points == s.points
  {
    hide IndexFrom, SlotsFrom, Attached;
    s' := DoLockItem(s, 2);
    LockedIndex(b, s, s', s.txns[2].order[s.txns[2].next]);
    LockedSlots(b, s, s', s.txns[2].order[s.txns[2].next]);
  }

  lemma LockedIndex(b: State, s: State, s': State, x: SlotId)
    requires IndexFrom(b, s) && x in s.slots && s'.index == s.index && x in s'.slots
    requires s'.slots == s.slots[x := s'.slots[x]] && s'.slots[x].key == s.slots[x].key
    ensures IndexFrom(b, s')
  {
    assert forall y :: y in s'.slots ==> Attached(s', y) == Attached(s, y);
  }

  lemma LockedSlots(b: State, s: State, s': State, x: SlotId)
    requires 2 in s.txns && 2 in s'.txns && SlotsFrom(b, s) && x in s.slots && x !in s.txns[2].locked
    requires s.slots[x].owner == Nobody
    requires s'.slots == s.slots[x := s.slots[x].(word := WithLock(s.slots[x].word), owner := ByTxn(2))]
    requires s'.txns[2].locked == s.txns[2].locked[x := s.slots[x].word]
    ensures SlotsFrom(b, s')
  {
    forall y | y in s'.slots ensures SlotFrom(b, s', y) { assert SlotFrom(b, s, y); }
  }

  lemma ChecksNext(b: State, s: State, rds: seq<Read>, ws: seq<Write>) returns (s': State)
    requires Along(b, s, rds, ws) && s.txns[2].phase == Checking && s.txns[2].next < |s.txns[2].order|
    requires s.txns[2].order[s.txns[2].next] in s.slots
    ensures TxnStep(s, 2, CheckItem, s') && Along(b, s', rds, ws)
    ensures s'.txns[2] == s.txns[2].(phase := Locking, next := s.txns[2].next + 1) && s'.points == s.points
  {
    hide SlotsFrom;
    s' := DoCheckItem(s, 2);
    assert Attached(s, s.txns[2].order[s.txns[2].next]);
    SameSlotsAlong(b, s, s', rds, ws);
  }

  lemma {:induction false} LocksAll(p: Path, db: State, b: State, k: Key, v: Bytes, rds: seq<Read>, ws: seq<Write>)
    returns (q: Path)
    requires IsPath(p) && Base(db, b, k, v) && Along(b, Final(p), rds, ws) && !WritesKey(ws, k)
    requires Final(p).txns[2].phase == Locking && Final(p).txns[2].next <= |Final(p).txns[2].order|
    ensures IsPath(q) && First(q) == First(p) && Along(b, Final(q), rds, ws) && CanPoint(Final(q), 2)
    ensures Final(q).points == Final(p).points
    decreases |Final(p).txns[2].order| - Final(p).txns[2].next
  {
    hide IsRun, Along, Base, TxnStep, WritesKey;
    var s := Final(p);
    AlongFacts(b, s, rds, ws);
    if s.txns[2].next == |s.txns[2].order| {
      q := p;
    } else {
      NextIsFree(p, db, b, k, v, rds, ws);
      var s' := LocksNext(b, s, rds, ws);
      q := Moves(p, 2, LockItem, s');
      AlongFacts(b, s', rds, ws);
      RunIsLocked(q);
      CheckingSlot(s');
      var s'' := ChecksNext(b, s', rds, ws);
      q := Moves(q, 2, CheckItem, s'');
      AlongFacts(b, s'', rds, ws);
      q := LocksAll(q, db, b, k, v, rds, ws);
    }
  }

  lemma CheckingSlot(s: State)
    requires LockInv(s) && 2 in s.txns && s.txns[2].phase == Checking
    ensures s.txns[2].next < |s.txns[2].order| && s.txns[2].order[s.txns[2].next] in s.slots
  {
    TxnOkOf(s, 2);
    assert Held(s.txns[2], s.txns[2].next);
  }

  // ----- Validation sees nothing wrong ---------------------------------------------------------------------------

  lemma ReadStillHolds(db: State, b: State, s: State, k: Key, v: Bytes, rds: seq<Read>, ws: seq<Write>, rd: Read)
    requires Base(db, b, k, v) && Along(b, s, rds, ws) && Matches(db, rd) && (rd.found ==> rd.key != k)
    requires rd.found ==> rd.key in db.index && db.index[rd.key] in db.slots && db.slots[db.index[rd.key]].key == rd.key
    requires !rd.found && rd.key in db.index && rd.key != k ==> db.slots[db.index[rd.key]].key == rd.key
    requires s.txns[2].lookup == if rd.key in s.index then At(s.index[rd.key]) else Missing
    ensures ReadHolds(s, s.txns[2], rd)
  {
    hide OthersFree;
    if rd.key in s.index {
      var x := s.index[rd.key];
      assert x in s.slots && SlotFrom(b, s, x);
      if rd.key in b.index {
        assert x == b.index[rd.key] && x in b.slots;
      } else {
        assert x !in b.slots;
      }
    }
  }

  lemma {:induction false} ValidatesAll(p: Path, db: State, b: State, k: Key, v: Bytes, rds: seq<Read>, ws: seq<Write>)
    returns (q: Path)
    requires IsPath(p) && Init(db) && Base(db, b, k, v) && Along(b, Final(p), rds, ws)
    requires forall i :: 0 <= i < |rds| ==> Matches(db, rds[i]) && (rds[i].found ==> rds[i].key != k)
    requires InPhase(Final(p), 2, Validating) && Final(p).txns[2].next <= |rds| && Final(p).txns[2].lookup == NotLooked
    ensures IsPath(q) && First(q) == First(p) && Along(b, Final(q), rds, ws) && CanDecide(Final(q), 2)
    ensures Final(q).points == Final(p).points && Final(q).txns[2].pos == Final(p).txns[2].pos
    decreases |rds| - Final(p).txns[2].next
  {
    hide IsRun, Along, Base, Init, Matches;
    var s := Final(p);
    AlongFacts(b, s, rds, ws);
    var n := s.txns[2].next;
    if n == |rds| {
      q := p;
    } else {
      var s' := DoLookUp(s, 2);
      q := Moves(p, 2, LookUp, s');
      SameSlotsAlong(b, s, s', rds, ws);
      RowOf(db, rds[n]);
      ReadStillHolds(db, b, s', k, v, rds, ws, rds[n]);
      var s'' := DoValidate(s', 2);
      q := Moves(q, 2, Validate, s'');
      SameSlotsAlong(b, s', s'', rds, ws);
      q := ValidatesAll(q, db, b, k, v, rds, ws);
    }
  }

  lemma RowOf(db: State, rd: Read)
    requires Init(db) && Matches(db, rd)
    ensures rd.key in db.index ==> db.index[rd.key] in db.slots && db.slots[db.index[rd.key]].key == rd.key
    ensures rd.found ==> rd.key in db.index
  {
  }

  // ----- The theorem -----------------------------------------------------------------------------------------------

  /**
   * For every database, every request whose reads match it, and every absent read of the request
   * whose key it does not write: there is a run in which the request commits, and in the order of
   * the serialization points the key has another value at the request's place.
   */
  lemma UnprotectedReadCanMiss(db: State, rds: seq<Read>, ws: seq<Write>, i: nat, v: Bytes)
    returns (run: seq<State>, acts: seq<Action>)
    requires Init(db) && (forall j :: 0 <= j < |rds| ==> Matches(db, rds[j]))
    requires i < |rds| && !rds[i].found && !WritesKey(ws, rds[i].key) && v != []
    ensures IsRun(run, acts) && run[0] == db
    ensures var s := run[|acts|];
            && 2 in s.txns && s.txns[2].readSet == rds && s.txns[2].writeSet == ws && Committed(s.txns[2])
            && 0 <= s.txns[2].pos < |s.points| && Serial(s, s.txns[2].pos, rds[i].key) == v != rds[i].bytes
  {
    hide IsRun, Init, Along, Base, WritesKey, Matches, CanPoint, CanDecide, TxnStep;
    var k := rds[i].key;
    AbsentIsBlank(db, rds, i);
    var p := ReadsAll(db, rds, |rds|);
    EvidentReads(db, Final(p), rds);
    p := WriterDecides(p, db, rds, k, v);
    var b := Final(p);
    BaseFacts(db, b, k, v);
    p := Prepares(p, db, b, k, v, rds, ws);
    p := PointsAndDecides(p, db, b, k, v, rds, ws);
    run, acts := p.states, p.acts;
  }

  /** From the arrival of the request until it holds all its locks. */
  lemma Prepares(p: Path, db: State, b: State, k: Key, v: Bytes, rds: seq<Read>, ws: seq<Write>) returns (q: Path)
    requires IsPath(p) && Final(p) == b && Base(db, b, k, v) && b.txns.Keys == {1} && IndexFrom(b, b)
    requires !WritesKey(ws, k)
    requires forall j :: 0 <= j < |rds| ==> if rds[j].found then rds[j] in b.evidence else rds[j].bytes == []
    ensures IsPath(q) && First(q) == First(p) && Along(b, Final(q), rds, ws) && CanPoint(Final(q), 2)
    ensures Final(q).points == b.points
  {
    hide IsRun, Along, Base, WritesKey, IndexFrom, TxnStep;
    q := Begins(p, b, rds, ws);
    AlongFacts(b, Final(q), rds, ws);
    q := ResolvesAll(q, b, rds, ws);
    AlongFacts(b, Final(q), rds, ws);
    q := Sorts(q, b, rds, ws);
    AlongFacts(b, Final(q), rds, ws);
    q := LocksAll(q, db, b, k, v, rds, ws);
  }

  /** From its point to its decision. */
  lemma PointsAndDecides(p: Path, db: State, b: State, k: Key, v: Bytes, rds: seq<Read>, ws: seq<Write>)
    returns (q: Path)
    requires IsPath(p) && Init(db) && Base(db, b, k, v) && Along(b, Final(p), rds, ws) && CanPoint(Final(p), 2)
    requires Final(p).points == [1]
    requires forall j :: 0 <= j < |rds| ==> Matches(db, rds[j]) && (rds[j].found ==> rds[j].key != k)
    ensures IsPath(q) && First(q) == First(p) && Along(b, Final(q), rds, ws)
    ensures 2 in Final(q).txns && Final(q).txns[2].readSet == rds && Final(q).txns[2].writeSet == ws
    ensures Committed(Final(q).txns[2]) && Final(q).txns[2].pos == 1 && Final(q).points == [1, 2]
    ensures Serial(Final(q), 1, k) == v
  {
    hide IsRun, Init, Along, Base, Matches, Serial;
    var s := Final(p);
    AlongFacts(b, s, rds, ws);
    var s' := DoPoint(s, 2);
    q := Moves(p, 2, Point, s');
    SameSlotsAlong(b, s, s', rds, ws);
    q := ValidatesAll(q, db, b, k, v, rds, ws);
    AlongFacts(b, Final(q), rds, ws);
    var last := DoDecide(Final(q), 2);
    SameSlotsAlong(b, Final(q), last, rds, ws);
    q := Moves(q, 2, Decide, last);
    SecondSeesFirst(db, b, last, k, v, rds, ws);
  }

  lemma AbsentIsBlank(db: State, rds: seq<Read>, i: nat)
    requires (forall j :: 0 <= j < |rds| ==> Matches(db, rds[j])) && i < |rds| && !rds[i].found
    ensures rds[i].bytes == []
    ensures rds[i].key in db.index ==> db.index[rds[i].key] in db.slots && db.slots[db.index[rds[i].key]].bytes == []
    ensures forall j :: 0 <= j < |rds| && rds[j].found ==> rds[j].key != rds[i].key
    ensures forall j :: 0 <= j < |rds| && !rds[j].found ==> rds[j].bytes == []
  {
    assert Matches(db, rds[i]);
  }

  lemma EvidentReads(db: State, s: State, rds: seq<Read>)
    requires Evident(db, s, rds, |rds|)
    ensures forall j :: 0 <= j < |rds| && rds[j].found ==> rds[j] in s.evidence
  {
  }

  lemma BaseFacts(db: State, b: State, k: Key, v: Bytes)
    requires Base(db, b, k, v)
    ensures b.txns.Keys == {1} && IndexFrom(b, b) && b.points == [1]
  {
  }

  lemma SecondSeesFirst(db: State, b: State, s: State, k: Key, v: Bytes, rds: seq<Read>, ws: seq<Write>)
    requires Base(db, b, k, v) && Along(b, s, rds, ws) && s.points == [1, 2]
    ensures Serial(s, 1, k) == v
  {
    assert Blind(k, v)[|Blind(k, v)| - 1].key == k;
    assert Serial(s, 1, k) == Effect(s.txns[1].writeSet, k, Serial(s, 0, k));
  }
}
