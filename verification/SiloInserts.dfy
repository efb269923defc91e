/**
 * What the insert checks mean on the commit machine: under its locks, past its serialization
 * point, a request finds its keys exactly as the serial order leaves them at its place.
 */
module SiloInserts {
  import opened Basics
  import opened SiloModel
  import opened SiloLocks
  import opened SiloHistory
  import opened SiloReads
  import opened SiloSerial
  import CommitChecks

  /** What the recheck sees of a key: the row in the slot it resolves to. */
  function RowOf(s: State, k: Key): Bytes {
    if k in s.index && s.index[k] in s.slots then s.slots[s.index[k]].bytes else []
  }

  function Live(s: State): Key -> bool {
    k => RowOf(s, k) != []
  }

  /** Between its point and its decision a request finds every key it writes as the serial order leaves it. */
  lemma LockedRowIsSerial(s: State, t: TxnId, k: Key)
    requires LockInv(s) && HistInv(s) && SerialInv(s)
    requires t in s.txns && s.txns[t].phase == Validating && WritesKey(s.txns[t].writeSet, k)
    ensures 0 <= s.txns[t].pos <= |s.points| && RowOf(s, k) == Serial(s, s.txns[t].pos, k)
  {
    hide LockInv, HistInv;
    var x := s.txns[t];
    OwnsItsKeys(s, t, k);
    var i := s.index[k];
    OwnRowIsCurrent(s, t, k);
    assert PosTxnOk(s, t);
    forall j | x.pos <= j < |s.points| && s.points[j] in s.txns && Committed(s.txns[s.points[j]])
      ensures !WritesKey(s.txns[s.points[j]].writeSet, k)
    {
      assert s.txns[s.points[j]].pos == j && j != x.pos;
      assert NoOverlap(x, s.txns[s.points[j]]);
    }
    SerialUnwritten(s.initial, s.txns, s.points, x.pos, |s.points|, k);
    assert Serial(s, |s.points|, k) == Logical(s, k);
  }

  lemma OwnRowIsCurrent(s: State, t: TxnId, k: Key)
    requires LockInv(s) && HistInv(s) && t in s.txns && s.txns[t].phase == Validating
    requires WritesKey(s.txns[t].writeSet, k)
    ensures RowOf(s, k) == Current(s, k) && Writer(s, k) == None
  {
    hide LockInv, HistInv;
    OwnsItsKeys(s, t, k);
    var i := s.index[k];
    SlotOkOf(s, i);
    TableOf(s);
    assert Attached(s, i) && !BeingInstalled(s, i);
  }

  /** The entries of a request, some of them inserts. */
  function Marked(ws: seq<Write>, inserts: seq<bool>): (r: seq<CommitChecks.Write>)
    requires |inserts| == |ws|
    ensures |r| == |ws|
    ensures forall i :: 0 <= i < |ws| ==>
              r[i] == CommitChecks.Write(ws[i].key, ws[i].value, ws[i].isDelete, inserts[i])
  {
    seq(|ws|, i requires 0 <= i < |ws| => CommitChecks.Write(ws[i].key, ws[i].value, ws[i].isDelete, inserts[i]))
  }

  /** Run serially at its place, entry by entry, every insert of the request finds its key dead. */
  ghost predicate SeriallyFree(s: State, t: TxnId, inserts: seq<bool>)
    requires t in s.txns && 0 <= s.txns[t].pos <= |s.points| && |inserts| == |s.txns[t].writeSet|
  {
    var x := s.txns[t];
    forall i :: 0 <= i < |x.writeSet| && inserts[i] ==>
      Effect(x.writeSet[..i], x.writeSet[i].key, Serial(s, x.pos, x.writeSet[i].key)) == []
  }

  lemma {:induction false} LiveIsEffect(ws: seq<Write>, inserts: seq<bool>, n: nat, live: Key -> bool, k: Key,
                                        before: Bytes)
    requires |inserts| == |ws| && n <= |ws| && (live(k) <==> before != [])
    ensures CommitChecks.LiveAfter(Marked(ws, inserts), n, live, k) <==> Effect(ws[..n], k, before) != []
  {
    if n > 0 {
      LiveIsEffect(ws, inserts, n - 1, live, k, before);
      assert ws[..n][..n - 1] == ws[..n - 1];
    }
  }

  /** In every reachable state, what the recheck asks of the rows is what the serial order asks. */
  lemma FreeIsSerial(run: seq<State>, acts: seq<Action>, t: TxnId, inserts: seq<bool>)
    requires IsRun(run, acts) && t in run[|acts|].txns && run[|acts|].txns[t].phase == Validating
    requires |inserts| == |run[|acts|].txns[t].writeSet|
    ensures var s := run[|acts|];
            && 0 <= s.txns[t].pos <= |s.points|
            && (CommitChecks.InsertsFree(Marked(s.txns[t].writeSet, inserts), Live(s)) <==>
                SeriallyFree(s, t, inserts))
  {
    hide Step, LockInv, HistInv, ReadInv, LogicalOk, PosOk, Serial, Effect, CommitChecks.LiveAfter;
    var s := run[|acts|];
    RunKeepsInv(run, acts, |acts|);
    PlaceOf(s, t);
    var x := s.txns[t];
    var ws, live := Marked(x.writeSet, inserts), Live(s);
    forall i | 0 <= i < |ws|
      ensures CommitChecks.LiveAfter(ws, i, live, ws[i].key) <==>
              Effect(x.writeSet[..i], x.writeSet[i].key, Serial(s, x.pos, x.writeSet[i].key)) != []
    {
      var k := x.writeSet[i].key;
      assert WritesKey(x.writeSet, k);
      LockedRowIsSerial(s, t, k);
      LiveIsEffect(x.writeSet, inserts, i, live, k, Serial(s, x.pos, k));
    }
  }

  /**
   * The two insert checks of a request, the second under its locks past its serialization point:
   * it goes on exactly when, run serially at its place, every insert finds its key dead, and no
   * insert comes right after an empty write of the request.
   */
  method CheckInserts(s: State, t: TxnId, inserts: seq<bool>, ghost run: seq<State>, ghost acts: seq<Action>)
    returns (ok: bool)
    requires IsRun(run, acts) && run[|acts|] == s && t in s.txns && s.txns[t].phase == Validating
    requires |inserts| == |s.txns[t].writeSet|
    ensures 0 <= s.txns[t].pos <= |s.points|
    ensures ok <==> SeriallyFree(s, t, inserts)
                    && CommitChecks.NoInsertOnEmptyWrite(Marked(s.txns[t].writeSet, inserts))
  {
    hide IsRun, SeriallyFree, CommitChecks.InsertsFree, CommitChecks.NoInsertOnEmptyWrite;
    FreeIsSerial(run, acts, t, inserts);
    ok := CommitChecks.InsertsAccepted(Marked(s.txns[t].writeSet, inserts), Live(s));
  }
}
