/**
 * The checks a commit makes before it installs anything: an insert must find its key free, and a
 * UNIQUE secondary key must not gain a second primary key. Both run under the locks of the rows
 * and lists they read, which are held until the install is published.
 */
module CommitChecks {
  import opened Basics
  import SiloModel

  type Key = SiloModel.Key

  // ----- Inserts --------------------------------------------------------------------------------

  datatype Write = Write(key: Key, value: Bytes, isDelete: bool, isInsert: bool)

  /** Is a key live once the first n entries have been applied to the locked state? */
  function LiveAfter(ws: seq<Write>, n: nat, live: Key -> bool, k: Key): bool
    requires n <= |ws|
  {
    if n == 0 then live(k)
    else if ws[n - 1].key == k then !ws[n - 1].isDelete && ws[n - 1].value != []
    else LiveAfter(ws, n - 1, live, k)
  }

  /** Replayed in order over the locked state, every insert finds its key dead. */
  ghost predicate InsertsFree(ws: seq<Write>, live: Key -> bool) {
    forall i :: 0 <= i < |ws| && ws[i].isInsert ==> !LiveAfter(ws, i, live, ws[i].key)
  }

  /** The last entry among the first n that touches a key, or -1. */
  function LastTouch(ws: seq<Write>, n: nat, k: Key): (q: int)
    requires n <= |ws|
    ensures -1 <= q < n && (q >= 0 ==> ws[q].key == k) && forall i :: q < i < n ==> ws[i].key != k
  {
    if n == 0 then -1 else if ws[n - 1].key == k then n - 1 else LastTouch(ws, n - 1, k)
  }

  lemma {:induction false} LiveByLastTouch(ws: seq<Write>, n: nat, live: Key -> bool, k: Key)
    requires n <= |ws|
    ensures var q := LastTouch(ws, n, k);
            LiveAfter(ws, n, live, k) == if q < 0 then live(k) else !ws[q].isDelete && ws[q].value != []
  {
    if n > 0 && ws[n - 1].key != k { LiveByLastTouch(ws, n - 1, live, k); }
  }

  /** The entry inserts a key that the request itself has written before and not deleted since. */
  predicate Duplicate(ws: seq<Write>, i: nat)
    requires i < |ws|
  {
    var q := LastTouch(ws, i, ws[i].key);
    ws[i].isInsert && q >= 0 && !ws[q].isDelete
  }

  /** An insert that no earlier entry of the request concerns. */
  predicate FirstTouch(ws: seq<Write>, i: nat)
    requires i < |ws|
  {
    ws[i].isInsert && LastTouch(ws, i, ws[i].key) < 0
  }

  /** No insert comes right after an empty write of its key, which leaves the key dead. */
  predicate NoInsertOnEmptyWrite(ws: seq<Write>) {
    forall i :: 0 <= i < |ws| && ws[i].isInsert ==> !OnEmptyWrite(ws, i)
  }

  predicate OnEmptyWrite(ws: seq<Write>, i: nat)
    requires i < |ws|
  {
    var q := LastTouch(ws, i, ws[i].key);
    q >= 0 && !ws[q].isDelete && ws[q].value == []
  }

  /** The map holds the liveness each key reached through the first n entries. */
  ghost predicate Tracks(ws: seq<Write>, n: nat, reached: map<Key, bool>) {
    && n <= |ws|
    && forall k ::
      (k in reached <==> LastTouch(ws, n, k) >= 0)
      && (k in reached ==> reached[k] == !ws[LastTouch(ws, n, k)].isDelete)
  }

  lemma TracksNext(ws: seq<Write>, n: nat, reached: map<Key, bool>)
    requires Tracks(ws, n, reached) && n < |ws|
    ensures Tracks(ws, n + 1, reached[ws[n].key := !ws[n].isDelete])
    ensures Duplicate(ws, n) <==> ws[n].isInsert && ws[n].key in reached && reached[ws[n].key]
    ensures FirstTouch(ws, n) <==> ws[n].isInsert && ws[n].key !in reached
  {
  }

  /** Resolve time: which inserts are left to the committed row; None for a duplicate in the request. */
  method ResolveInserts(ws: seq<Write>) returns (r: Option<seq<bool>>)
    ensures r.Some? <==> forall i :: 0 <= i < |ws| ==> !Duplicate(ws, i)
    ensures r.Some? ==> |r.value| == |ws| && forall i :: 0 <= i < |ws| ==> r.value[i] == FirstTouch(ws, i)
  {
    hide Tracks, Duplicate, FirstTouch;
    var liveInRequest: map<Key, bool> := map[];
    var checks: seq<bool> := [];
    var i := 0;
    NothingTracked(ws);
    while i < |ws|
      invariant 0 <= i <= |ws| && |checks| == i && Tracks(ws, i, liveInRequest)
      invariant forall j :: 0 <= j < i ==> !Duplicate(ws, j) && checks[j] == FirstTouch(ws, j)
    {
      var w := ws[i];
      TracksNext(ws, i, liveInRequest);
      if w.isInsert && w.key in liveInRequest && liveInRequest[w.key] { return None; }
      checks := checks + [w.isInsert && w.key !in liveInRequest];
      liveInRequest := liveInRequest[w.key := !w.isDelete];
      i := i + 1;
    }
    return Some(checks);
  }

  lemma NothingTracked(ws: seq<Write>)
    ensures Tracks(ws, 0, map[])
  {
  }

  /** Under the locks: no insert left to the committed row may find one. */
  method RecheckInserts(ws: seq<Write>, checks: seq<bool>, live: Key -> bool) returns (ok: bool)
    requires |checks| == |ws|
    ensures ok <==> forall i :: 0 <= i < |ws| && checks[i] ==> !live(ws[i].key)
  {
    for i := 0 to |ws|
      invariant forall j :: 0 <= j < i && checks[j] ==> !live(ws[j].key)
    {
      if checks[i] && live(ws[i].key) { return false; }
    }
    return true;
  }

  /** An insert is refused for meeting a live row, or an empty write of the request. */
  lemma InsertRefused(ws: seq<Write>, i: nat, live: Key -> bool)
    requires i < |ws| && ws[i].isInsert
    ensures LiveAfter(ws, i, live, ws[i].key) || OnEmptyWrite(ws, i) <==>
            Duplicate(ws, i) || (FirstTouch(ws, i) && live(ws[i].key))
  {
    LiveByLastTouch(ws, i, live, ws[i].key);
  }

  lemma OnlyInserts(ws: seq<Write>, i: nat)
    requires i < |ws| && (Duplicate(ws, i) || FirstTouch(ws, i))
    ensures ws[i].isInsert
  {
  }

  /**
   * The two checks together: a request is accepted exactly when all its inserts find their key
   * dead as the entries are replayed in order, and none comes right after an empty write. So
   * whatever is accepted is free, and a free request is refused only for an empty write.
   */
  method InsertsAccepted(ws: seq<Write>, live: Key -> bool) returns (ok: bool)
    ensures ok <==> InsertsFree(ws, live) && NoInsertOnEmptyWrite(ws)
  {
    hide Duplicate, FirstTouch, LiveAfter, OnEmptyWrite;
    forall i | 0 <= i < |ws| && ws[i].isInsert
      ensures LiveAfter(ws, i, live, ws[i].key) || OnEmptyWrite(ws, i) <==>
              Duplicate(ws, i) || (FirstTouch(ws, i) && live(ws[i].key))
    {
      InsertRefused(ws, i, live);
    }
    forall i | 0 <= i < |ws| && (Duplicate(ws, i) || FirstTouch(ws, i)) ensures ws[i].isInsert {
      OnlyInserts(ws, i);
    }
    var checks := ResolveInserts(ws);
    if checks.None? { return false; }
    ok := RecheckInserts(ws, checks.value, live);
  }

  /** Such a request exists: free, yet an insert in it is a duplicate. */
  lemma EmptyWriteBlocksInsert(k: Key, v: Bytes)
    ensures var ws := [Write(k, [], false, false), Write(k, v, false, true)];
            InsertsFree(ws, _ => false) && Duplicate(ws, 1) && !NoInsertOnEmptyWrite(ws)
  {
    var ws := [Write(k, [], false, false), Write(k, v, false, true)];
    forall i | 0 <= i < |ws| && ws[i].isInsert ensures !LiveAfter(ws, i, _ => false, ws[i].key) {
      assert i == 1 && ws[0].key == k;
    }
    assert OnEmptyWrite(ws, 1);
  }

  // ----- UNIQUE secondary keys -------------------------------------------------------------------

  type ListId = (string, string, string)

  datatype SiOp = SiOp(list: ListId, primaryKey: string, isDelete: bool)

  type Lists = map<ListId, set<string>>

  function ListOf(ls: Lists, l: ListId): set<string> {
    if l in ls then ls[l] else {}
  }

  /** One list after the first n operations. */
  function After(ls: Lists, ops: seq<SiOp>, n: nat, l: ListId): set<string>
    requires n <= |ops|
  {
    if n == 0 then ListOf(ls, l)
    else
      var before, op := After(ls, ops, n - 1, l), ops[n - 1];
      if op.list != l then before
      else if op.isDelete then before - {op.primaryKey}
      else before + {op.primaryKey}
  }

  /** At most one primary key under every UNIQUE secondary key. */
  ghost predicate UniqueHolds(ls: Lists, unique: ListId -> bool) {
    forall l :: unique(l) ==> AtMostOne(ListOf(ls, l))
  }

  predicate AtMostOne(s: set<string>) {
    forall a, b :: a in s && b in s ==> a == b
  }

  /** No UNIQUE key is added twice by the request. */
  ghost predicate NoRepeatedAdd(ops: seq<SiOp>, unique: ListId -> bool) {
    forall i, j :: 0 <= i < j < |ops| && !ops[i].isDelete && !ops[j].isDelete && ops[i].list == ops[j].list ==>
      !unique(ops[i].list)
  }

  /** In order over the locked state, every addition to a UNIQUE key finds its list empty. */
  ghost predicate AddsFindEmpty(ls: Lists, ops: seq<SiOp>, unique: ListId -> bool) {
    forall i :: 0 <= i < |ops| && !ops[i].isDelete && unique(ops[i].list) ==> After(ls, ops, i, ops[i].list) == {}
  }

  /** What the two checks decide about a request on some lists. */
  ghost predicate Accepts(ls: Lists, ops: seq<SiOp>, unique: ListId -> bool) {
    NoRepeatedAdd(ops, unique) && AddsFindEmpty(ls, ops, unique)
  }

  method CheckRepeatedAdds(ops: seq<SiOp>, unique: ListId -> bool) returns (ok: bool)
    ensures ok <==> NoRepeatedAdd(ops, unique)
  {
    var added: set<ListId> := {};
    for i := 0 to |ops|
      invariant forall l :: l in added <==> unique(l) && exists j :: 0 <= j < i && !ops[j].isDelete && ops[j].list == l
      invariant forall a, b | 0 <= a < b < i ::
                  !ops[a].isDelete && !ops[b].isDelete && ops[a].list == ops[b].list ==> !unique(ops[a].list)
    {
      if !ops[i].isDelete && unique(ops[i].list) {
        if ops[i].list in added { return false; }
        added := added + {ops[i].list};
      }
    }
    return true;
  }

  /** Simulate the UNIQUE operations over copies of the locked lists. */
  method RecheckUnique(ls: Lists, ops: seq<SiOp>, unique: ListId -> bool) returns (ok: bool)
    ensures ok <==> AddsFindEmpty(ls, ops, unique)
  {
    var copies: Lists := map[];
    var i := 0;
    while i < |ops|
      invariant 0 <= i <= |ops|
      invariant forall l :: unique(l) ==> (if l in copies then copies[l] else ListOf(ls, l)) == After(ls, ops, i, l)
      invariant forall j :: 0 <= j < i && !ops[j].isDelete && unique(ops[j].list) ==>
          After(ls, ops, j, ops[j].list) == {}
    {
      var op := ops[i];
      if unique(op.list) {
        var keys := if op.list in copies then copies[op.list] else ListOf(ls, op.list);
        if op.isDelete {
          copies := copies[op.list := keys - {op.primaryKey}];
        } else {
          if keys != {} { return false; }
          copies := copies[op.list := keys + {op.primaryKey}];
        }
      }
      i := i + 1;
    }
    return true;
  }

  /** Install the operations into the lists. */
  method InstallLists(ls: Lists, ops: seq<SiOp>) returns (r: Lists)
    ensures forall l :: ListOf(r, l) == After(ls, ops, |ops|, l)
  {
    r := ls;
    var i := 0;
    while i < |ops|
      invariant 0 <= i <= |ops| && forall l :: ListOf(r, l) == After(ls, ops, i, l)
    {
      var op := ops[i];
      var keys := ListOf(r, op.list);
      r := r[op.list := if op.isDelete then keys - {op.primaryKey} else keys + {op.primaryKey}];
      i := i + 1;
    }
  }

  lemma {:induction false} UniqueStays(ls: Lists, ops: seq<SiOp>, n: nat, unique: ListId -> bool, l: ListId)
    requires n <= |ops| && UniqueHolds(ls, unique) && AddsFindEmpty(ls, ops, unique) && unique(l)
    ensures AtMostOne(After(ls, ops, n, l))
  {
    if n > 0 { UniqueStays(ls, ops, n - 1, unique, l); }
  }

  /** A commit's secondary-index part: checks, then the install; an abort changes nothing. */
  method CommitLists(ls: Lists, ops: seq<SiOp>, unique: ListId -> bool) returns (ok: bool, r: Lists)
    ensures ok <==> Accepts(ls, ops, unique)
    ensures forall l :: ListOf(r, l) == if ok then After(ls, ops, |ops|, l) else ListOf(ls, l)
    ensures UniqueHolds(ls, unique) ==> UniqueHolds(r, unique)
  {
    hide NoRepeatedAdd, AddsFindEmpty, AtMostOne;
    var once := CheckRepeatedAdds(ops, unique);
    if !once { return false, ls; }
    var free := RecheckUnique(ls, ops, unique);
    if !free { return false, ls; }
    r := InstallLists(ls, ops);
    if UniqueHolds(ls, unique) {
      forall l | unique(l) ensures AtMostOne(ListOf(r, l)) { UniqueStays(ls, ops, |ops|, unique, l); }
    }
    return true, r;
  }
}
