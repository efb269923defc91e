/**
 * Where the protection of reads ends. A read of an absent key that the request does not itself
 * write is validated by liveness alone, so two requests that each insert the key the other one
 * found absent can both commit, and no serial order explains them.
 */
module SiloAnomaly {
  import opened Basics
  import opened Versions
  import opened SiloModel
  import opened SiloTheorems

  /** A serial history in which every read counts, protected or not. */
  predicate StrictSerialHistory(initial: map<Key, Bytes>, requests: seq<Txn>) {
    forall i, r :: 0 <= i < |requests| && 0 <= r < |requests[i].readSet| ==>
      requests[i].readSet[r].bytes == RunSerially(initial, requests[..i], requests[i].readSet[r].key)
  }

  function Absent(k: Key): Read {
    Read(k, false, EMPTY, [])
  }

  function Insert(k: Key, v: Bytes): Write {
    Write(k, v, false)
  }

  /** One side of the skew: transaction t finds `other` absent and inserts `own` into slot x. */
  datatype Side = Side(t: TxnId, x: SlotId, own: Key, other: Key, value: Bytes)

  datatype Progress = Begun | HasSlot | Ordered | Locks | Rechecked | Pointed | Looked | Passed | Won

  /** The two sides insert different keys, each of them the one the other found absent. */
  predicate Crossed(p: Side, q: Side) {
    p.t != q.t && p.x != q.x && p.own != q.own && p.other == q.own && q.other == p.own
  }

  /** The blank slot of a side, and whether it is locked. */
  predicate Row(s: State, p: Side, locked: bool) {
    && p.x in s.slots && s.slots[p.x].bytes == [] && s.slots[p.x].key == p.own
    && Locked(s.slots[p.x].word) == locked
    && p.own in s.index && s.index[p.own] == p.x
  }

  predicate Stands(s: State, p: Side, g: Progress) {
    p.t in s.txns &&
    var x := s.txns[p.t];
    && x.readSet == [Absent(p.other)] && x.writeSet == [Insert(p.own, p.value)]
    && match g
       case Begun => x.phase == Resolving && x.items == [] && p.x !in s.slots && p.own !in s.index
       case HasSlot => x.phase == Resolving && x.items == [p.x] && Row(s, p, false)
       case Ordered => x.phase == Locking && x.order == [p.x] && x.next == 0 && Row(s, p, false)
       case Locks => x.phase == Checking && x.order == [p.x] && x.next == 0 && Row(s, p, true)
       case Rechecked => x.phase == Locking && x.order == [p.x] && x.next == 1 && Row(s, p, true)
       case Pointed => x.phase == Validating && x.next == 0 && x.lookup == NotLooked && Row(s, p, true)
       case Looked => x.phase == Validating && x.next == 0 && x.lookup.At? && Row(s, p, true)
                      && x.lookup.slot in s.slots && s.slots[x.lookup.slot].bytes == []
       case Passed => x.phase == Validating && x.next == 1 && Row(s, p, true)
       case Won => x.phase == Installing && Row(s, p, true)
  }

  predicate Scene(s: State, p: Side, g: Progress, q: Side, h: Progress) {
    Crossed(p, q) && s.txns.Keys == {p.t, q.t} && Stands(s, p, g) && Stands(s, q, h)
  }

  /** One step of side p; the other side does not notice. */
  lemma Resolves(s: State, p: Side, q: Side, h: Progress) returns (s': State)
    requires Scene(s, p, Begun, q, h) && !h.Looked?
    ensures Step(s, TxnAct(p.t, Resolve(p.x)), s') && Scene(s', p, HasSlot, q, h)
  {
    s' := DoResolve(s, p.t, p.x);
  }

  lemma Sorts(s: State, p: Side, q: Side, h: Progress) returns (s': State)
    requires Scene(s, p, HasSlot, q, h)
    ensures Step(s, TxnAct(p.t, Sort([p.x])), s') && Scene(s', p, Ordered, q, h)
  {
    assert CanSort(s, p.t, [p.x]);
    s' := DoSort(s, p.t, [p.x]);
  }

  lemma TakesLock(s: State, p: Side, q: Side, h: Progress) returns (s': State)
    requires Scene(s, p, Ordered, q, h)
    ensures Step(s, TxnAct(p.t, LockItem), s') && Scene(s', p, Locks, q, h)
  {
    s' := DoLockItem(s, p.t);
  }

  lemma Rechecks(s: State, p: Side, q: Side, h: Progress) returns (s': State)
    requires Scene(s, p, Locks, q, h)
    ensures Step(s, TxnAct(p.t, CheckItem), s') && Scene(s', p, Rechecked, q, h)
  {
    s' := DoCheckItem(s, p.t);
  }

  lemma Points(s: State, p: Side, q: Side, h: Progress) returns (s': State)
    requires Scene(s, p, Rechecked, q, h)
    ensures Step(s, TxnAct(p.t, Point), s') && Scene(s', p, Pointed, q, h)
  {
    s' := DoPoint(s, p.t);
  }

  /** The absent read finds the other side's blank slot, whose lock bit it ignores. */
  lemma Looks(s: State, p: Side, q: Side, h: Progress) returns (s': State)
    requires Scene(s, p, Pointed, q, h) && Row(s, q, true)
    ensures Step(s, TxnAct(p.t, LookUp), s') && Scene(s', p, Looked, q, h)
  {
    s' := DoLookUp(s, p.t);
  }

  lemma Passes(s: State, p: Side, q: Side, h: Progress) returns (s': State)
    requires Scene(s, p, Looked, q, h)
    ensures Step(s, TxnAct(p.t, Validate), s') && Scene(s', p, Passed, q, h)
  {
    s' := DoValidate(s, p.t);
  }

  lemma Wins(s: State, p: Side, q: Side, h: Progress) returns (s': State)
    requires Scene(s, p, Passed, q, h)
    ensures Step(s, TxnAct(p.t, Decide), s') && Scene(s', p, Won, q, h)
  {
    s' := DoDecide(s, p.t);
  }

  lemma Extend(run: seq<State>, acts: seq<Action>, a: Action, s: State) returns (run': seq<State>, acts': seq<Action>)
    requires IsRun(run, acts) && Step(run[|acts|], a, s)
    ensures IsRun(run', acts') && run'[|acts'|] == s && run'[0] == run[0]
  {
    hide Step, Init;
    run', acts' := run + [s], acts + [a];
    forall i | 0 <= i < |acts'| ensures Step(run'[i], acts'[i], run'[i + 1]) {
      if i < |acts| { assert Step(run[i], acts[i], run[i + 1]); }
    }
  }

  /** An empty database takes in both requests. */
  lemma Begins(p: Side, q: Side) returns (run: seq<State>, acts: seq<Action>)
    requires Crossed(p, q)
    ensures IsRun(run, acts) && run[0].initial == map[] && Scene(run[|acts|], p, Begun, q, Begun)
  {
    var s0 := State(1, map[], map[], map[], map[], {}, [], Idle, map[], [], map[]);
    var s1 := DoBegin(s0, p.t, [Absent(p.other)], [Insert(p.own, p.value)]);
    var s2 := DoBegin(s1, q.t, [Absent(q.other)], [Insert(q.own, q.value)]);
    run, acts := [s0], [];
    run, acts := Extend(run, acts, TxnAct(p.t, Begin([Absent(p.other)], [Insert(p.own, p.value)])), s1);
    run, acts := Extend(run, acts, TxnAct(q.t, Begin([Absent(q.other)], [Insert(q.own, q.value)])), s2);
  }

  /** Both sides reach their serialization point before either validates. */
  lemma BothPoint(p: Side, q: Side) returns (run: seq<State>, acts: seq<Action>)
    requires Crossed(p, q)
    ensures IsRun(run, acts) && run[0].initial == map[] && Scene(run[|acts|], p, Pointed, q, Pointed)
  {
    hide Step, IsRun, Stands;
    run, acts := Begins(p, q);
    var s := Resolves(run[|acts|], p, q, Begun);
    run, acts := Extend(run, acts, TxnAct(p.t, Resolve(p.x)), s);
    s := Resolves(s, q, p, HasSlot);
    run, acts := Extend(run, acts, TxnAct(q.t, Resolve(q.x)), s);
    s := Sorts(s, p, q, HasSlot);
    run, acts := Extend(run, acts, TxnAct(p.t, Sort([p.x])), s);
    s := Sorts(s, q, p, Ordered);
    run, acts := Extend(run, acts, TxnAct(q.t, Sort([q.x])), s);
    s := TakesLock(s, p, q, Ordered);
    run, acts := Extend(run, acts, TxnAct(p.t, LockItem), s);
    s := TakesLock(s, q, p, Locks);
    run, acts := Extend(run, acts, TxnAct(q.t, LockItem), s);
    s := Rechecks(s, p, q, Locks);
    run, acts := Extend(run, acts, TxnAct(p.t, CheckItem), s);
    s := Rechecks(s, q, p, Rechecked);
    run, acts := Extend(run, acts, TxnAct(q.t, CheckItem), s);
    s := Points(s, p, q, Rechecked);
    run, acts := Extend(run, acts, TxnAct(p.t, Point), s);
    s := Points(s, q, p, Pointed);
    run, acts := Extend(run, acts, TxnAct(q.t, Point), s);
  }

  /** Neither validation sees the other side, so both decide to commit. */
  lemma BothWin(p: Side, q: Side) returns (run: seq<State>, acts: seq<Action>)
    requires Crossed(p, q)
    ensures IsRun(run, acts) && run[0].initial == map[] && Scene(run[|acts|], p, Won, q, Won)
  {
    run, acts := BothPoint(p, q);
    hide Step, IsRun;
    var s := Looks(run[|acts|], p, q, Pointed);
    run, acts := Extend(run, acts, TxnAct(p.t, LookUp), s);
    s := Looks(s, q, p, Looked);
    run, acts := Extend(run, acts, TxnAct(q.t, LookUp), s);
    s := Passes(s, p, q, Looked);
    run, acts := Extend(run, acts, TxnAct(p.t, Validate), s);
    s := Passes(s, q, p, Passed);
    run, acts := Extend(run, acts, TxnAct(q.t, Validate), s);
    s := Wins(s, p, q, Passed);
    run, acts := Extend(run, acts, TxnAct(p.t, Decide), s);
    s := Wins(s, q, p, Won);
    run, acts := Extend(run, acts, TxnAct(q.t, Decide), s);
  }

  /**
   * Write skew. For any two keys and any non-empty values there is a run in which two requests,
   * each inserting the key the other found absent, both commit although neither order of the two
   * explains both reads.
   */
  lemma AbsentReadsAdmitWriteSkew(j: Key, k: Key, v: Bytes, w: Bytes) returns (run: seq<State>, acts: seq<Action>)
    requires j != k && v != [] && w != []
    ensures IsRun(run, acts)
    ensures var s := run[|acts|];
            && s.txns.Keys == {1, 2} && Committed(s.txns[1]) && Committed(s.txns[2])
            && !StrictSerialHistory(run[0].initial, [s.txns[1], s.txns[2]])
            && !StrictSerialHistory(run[0].initial, [s.txns[2], s.txns[1]])
  {
    var p, q := Side(1, 1, j, k, v), Side(2, 2, k, j, w);
    run, acts := BothWin(p, q);
    var s := run[|acts|];
    var a, b := s.txns[1], s.txns[2];
    LastReadFails([a, b], k, v, j);
    LastReadFails([b, a], j, w, k);
  }

  /** The second of two skewed requests reads a key the first one has just inserted. */
  lemma LastReadFails(rs: seq<Txn>, own: Key, v: Bytes, other: Key)
    requires |rs| == 2 && own != other && v != []
    requires rs[0].writeSet == [Insert(other, v)] && rs[1].readSet == [Absent(other)]
    ensures !StrictSerialHistory(map[], rs)
  {
    assert rs[..1] == [rs[0]];
    assert RunSerially(map[], [rs[0]], other) == v;
    assert rs[1].readSet[0].bytes == [];
  }
}
