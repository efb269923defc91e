/**
 * A transaction's scans over an ordered index with its own buffered writes laid over it, and the
 * set lookup they rest on.
 */
module Overlay {
  import opened Basics
  import opened PackedKeys

  /** An entry of the read or write set. No bytes means a deleted or absent row. */
  datatype Snapshot = Snapshot(table: string, index: string, key: Key, value: Bytes)

  /** A row of the primary index inside the scanned range. */
  datatype Row = Row(key: Key, value: Bytes)

  predicate Matches(s: Snapshot, table: string, index: string, key: Key) {
    s.key == key && s.table == table && s.index == index
  }

  /** The first matching entry of a set, as a linear scan finds it. */
  function FirstMatch(set_: seq<Snapshot>, table: string, index: string, key: Key): (r: Option<nat>)
    ensures r.Some? ==> r.value < |set_| && Matches(set_[r.value], table, index, key)
                        && forall j :: 0 <= j < r.value ==> !Matches(set_[j], table, index, key)
    ensures r.None? ==> forall j :: 0 <= j < |set_| ==> !Matches(set_[j], table, index, key)
  {
    if set_ == [] then None
    else if Matches(set_[0], table, index, key) then Some(0)
    else
      match FirstMatch(set_[1..], table, index, key)
      case None => None
      case Some(i) => Some(i + 1)
  }

  lemma FirstMatchIs(set_: seq<Snapshot>, table: string, index: string, key: Key, i: nat)
    requires i < |set_| && Matches(set_[i], table, index, key) && forall j :: 0 <= j < i ==>
        !Matches(set_[j], table, index, key)
    ensures FirstMatch(set_, table, index, key) == Some(i)
  {
  }

  // ----- The set lookup -------------------------------------------------------------------------

  const SET_INDEX_THRESHOLD: nat := 64

  /** The lazily extended hash index over a set: positions by hash, up to `indexed`. */
  class SetIndex {
    const hash: (string, string, Key) -> nat
    var positions: map<nat, set<nat>>
    var indexed: nat

    constructor (hash: (string, string, Key) -> nat)
      ensures this.hash == hash && positions == map[] && indexed == 0
    {
      this.hash := hash;
      positions, indexed := map[], 0;
    }

    function HashOf(s: Snapshot): nat {
      hash(s.table, s.index, s.key)
    }

    /** Every indexed position is filed under its hash and nothing else is filed. */
    ghost predicate Indexes(entries: seq<Snapshot>)
      reads this
    {
      && indexed <= |entries|
      && (forall i :: 0 <= i < indexed ==> HashOf(entries[i]) in positions && i in positions[HashOf(entries[i])])
      && (forall h :: h in positions ==> FiledUnder(entries, h, positions[h]))
    }

    predicate FiledUnder(entries: seq<Snapshot>, h: nat, at: set<nat>)
      reads this
      requires indexed <= |entries|
    {
      forall i :: i in at ==> i < indexed && HashOf(entries[i]) == h
    }

    /** File the positions that are not indexed yet. */
    method CatchUp(entries: seq<Snapshot>)
      requires Indexes(entries)
      modifies this`positions, this`indexed
      ensures Indexes(entries) && indexed == |entries|
    {
      while indexed < |entries|
        invariant Indexes(entries)
      {
        var h := HashOf(entries[indexed]);
        assert forall g :: g in positions ==> FiledUnder(entries, g, positions[g]);
        positions := positions[h := (if h in positions then positions[h] else {}) + {indexed}];
        indexed := indexed + 1;
      }
    }

    /** The earliest match among the positions filed under a hash, in whatever order they come. */
    method Earliest(entries: seq<Snapshot>, candidates: set<nat>, table: string, index: string, key: Key)
      returns (at: nat)
      requires forall i :: i in candidates ==> i < |entries|
      requires forall i :: 0 <= i < |entries| && Matches(entries[i], table, index, key) ==> i in candidates
      ensures at <= |entries| && (at < |entries| ==> Matches(entries[at], table, index, key))
      ensures forall j :: 0 <= j < at ==> !Matches(entries[j], table, index, key)
    {
      var todo := candidates;
      at := |entries|;
      while todo != {}
        invariant todo <= candidates && at <= |entries| && (at < |entries| ==> Matches(entries[at], table, index, key))
        invariant forall j :: 0 <= j < at && Matches(entries[j], table, index, key) ==> j in todo
        decreases |todo|
      {
        var i :| i in todo;
        todo := todo - {i};
        if i < at && Matches(entries[i], table, index, key) { at := i; }
      }
    }

    /** The incremental index returns the linear scan's first match, whatever the hash does. */
    method FindInSet(entries: seq<Snapshot>, table: string, index: string, key: Key) returns (r: Option<nat>)
      requires Indexes(entries)
      modifies this`positions, this`indexed
      ensures Indexes(entries) && r == FirstMatch(entries, table, index, key)
    {
      if |entries| < SET_INDEX_THRESHOLD {
        for i := 0 to |entries|
          invariant forall j :: 0 <= j < i ==> !Matches(entries[j], table, index, key)
          invariant positions == old(positions) && indexed == old(indexed)
        {
          if Matches(entries[i], table, index, key) {
            FirstMatchIs(entries, table, index, key, i);
            return Some(i);
          }
        }
        return None;
      }
      CatchUp(entries);
      var h := hash(table, index, key);
      var candidates := if h in positions then positions[h] else {};
      assert h in positions ==> FiledUnder(entries, h, positions[h]);
      var at := Earliest(entries, candidates, table, index, key);
      if at == |entries| { return None; }
      FirstMatchIs(entries, table, index, key, at);
      return Some(at);
    }
  }

  // ----- The reference ---------------------------------------------------------------------------

  /** A transaction about to scan: its table, its sets, and the index rows of the range in order. */
  datatype Env = Env(table: string, writes: seq<Snapshot>, reads_: seq<Snapshot>, rows: seq<Row>, low: Key,
                     high: Option<Key>)

  predicate InRange(e: Env, k: Key) {
    !Before(k, e.low) && (e.high.Some? ==> Before(k, e.high.value))
  }

  /** What an ordered index gives a range scan: the rows of the range, ascending. */
  predicate EnvOk(e: Env) {
    && (forall i, j :: 0 <= i < j < |e.rows| ==> Before(e.rows[i].key, e.rows[j].key))
    && (forall i :: 0 <= i < |e.rows| ==> InRange(e, e.rows[i].key))
  }

  function Committed(rows: seq<Row>, k: Key): Bytes {
    if rows == [] then [] else if rows[0].key == k then rows[0].value else Committed(rows[1..], k)
  }

  /** The row as the transaction sees it: its own write, else what it read before, else the index. */
  function View(e: Env, k: Key): Bytes {
    var w := FirstMatch(e.writes, e.table, "", k);
    if w.Some? then e.writes[w.value].value
    else
      var r := FirstMatch(e.reads_, e.table, "", k);
      if r.Some? then e.reads_[r.value].value else Committed(e.rows, k)
  }

  predicate OwnWrite(e: Env, s: Snapshot) {
    s.table == e.table && s.index == "" && InRange(e, s.key)
  }

  /** The keys a scan must consider: those of the index and of its own writes in the range. */
  ghost predicate Candidate(e: Env, k: Key) {
    (exists i :: 0 <= i < |e.rows| && e.rows[i].key == k)
        || (exists i :: 0 <= i < |e.writes| && OwnWrite(e, e.writes[i]) && e.writes[i].key == k)
  }

  /** The live candidates among some keys, with their values. */
  function LiveRows(e: Env, ks: seq<Key>): seq<Row> {
    if ks == [] then []
    else
      var k := ks[|ks| - 1];
      LiveRows(e, ks[..|ks| - 1]) + if View(e, k) == [] then [] else [Row(k, View(e, k))]
  }

  /** What a callback sees that may stop the scan: everything up to the row it stops at. */
  function Until(rows: seq<Row>, stop: Row -> bool): seq<Row> {
    if rows == [] then []
    else if stop(rows[0]) then [rows[0]]
    else [rows[0]] + Until(rows[1..], stop)
  }

  /** Exactly the candidates of the scan, each once, ascending. */
  ghost predicate Lists(e: Env, ks: seq<Key>) {
    Sorted(ks) && forall k :: k in ks <==> Candidate(e, k)
  }

  /** There is only one such list, so what a scan visits is determined. */
  lemma {:induction false} SortedUnique(a: seq<Key>, b: seq<Key>)
    requires Sorted(a) && Sorted(b) && forall k :: k in a <==> k in b
    ensures a == b
  {
    assert (a != [] ==> a[0] in a) && (b != [] ==> b[0] in b);
    if a != [] && b != [] {
      hide Before;
      var x, y := a[|a| - 1], b[|b| - 1];
      assert x in b && y in a;
      LastIsLast(a, b);
      var a', b' := a[..|a| - 1], b[..|b| - 1];
      forall k ensures k in a' <==> k in b' { DropLast(a, k); DropLast(b, k); }
      SortedUnique(a', b');
      assert a == a' + [x] && b == b' + [y];
    }
  }

  lemma LastIsLast(a: seq<Key>, b: seq<Key>)
    requires Sorted(a) && Sorted(b) && a != [] && b != [] && (forall k :: k in a <==> k in b)
    ensures a[|a| - 1] == b[|b| - 1]
  {
    var x, y := a[|a| - 1], b[|b| - 1];
    assert x in a && y in b;
    var i :| 0 <= i < |b| && b[i] == x;
    var j :| 0 <= j < |a| && a[j] == y;
    BeforeIsTotal(x, y);
  }

  lemma DropLast(a: seq<Key>, k: Key)
    requires Sorted(a) && a != []
    ensures k in a[..|a| - 1] <==> k in a && k != a[|a| - 1]
  {
    WithoutAt(a, |a| - 1);
    assert a[..|a| - 1] + a[|a|..] == a[..|a| - 1];
  }

  // ----- The scans --------------------------------------------------------------------------------

  method HasOwnBaseRowWriteInRange(e: Env) returns (has: bool)
    ensures has <==> exists i :: 0 <= i < |e.writes| && OwnWrite(e, e.writes[i])
  {
    for i := 0 to |e.writes|
      invariant forall j :: 0 <= j < i ==> !OwnWrite(e, e.writes[j])
    {
      if OwnWrite(e, e.writes[i]) { return true; }
    }
    return false;
  }

  /** The keys of the own writes in the range, sorted, duplicates and all. */
  method CollectWriteKeys(e: Env) returns (ks: seq<Key>)
    ensures NonDescending(ks)
    ensures forall k :: k in ks <==> exists i :: 0 <= i < |e.writes| && OwnWrite(e, e.writes[i]) && e.writes[i].key == k
  {
    ks := [];
    for i := 0 to |e.writes|
      invariant NonDescending(ks)
      invariant forall k :: k in ks <==> exists j :: 0 <= j < i && OwnWrite(e, e.writes[j]) && e.writes[j].key == k
    {
      if OwnWrite(e, e.writes[i]) { ks := SortedIn(ks, e.writes[i].key); }
    }
  }

  predicate NonDescending(ks: seq<Key>) {
    forall i, j :: 0 <= i < j < |ks| ==> !Before(ks[j], ks[i])
  }

  /** Put one more key in its place. */
  method SortedIn(ks: seq<Key>, k: Key) returns (r: seq<Key>)
    requires NonDescending(ks)
    ensures NonDescending(r) && forall x :: x in r <==> x in ks || x == k
  {
    hide Before;
    var i := 0;
    while i < |ks| && Before(ks[i], k)
      invariant 0 <= i <= |ks| && forall j :: 0 <= j < i ==> Before(ks[j], k)
    {
      i := i + 1;
    }
    r := ks[..i] + [k] + ks[i..];
    forall a, b | 0 <= a < b < |r| ensures !Before(r[b], r[a]) { Placed(ks, k, i, a, b); }
    assert forall x :: x in ks <==> x in ks[..i] || x in ks[i..] by { assert ks == ks[..i] + ks[i..]; }
  }

  lemma Placed(ks: seq<Key>, k: Key, i: nat, a: nat, b: nat)
    requires NonDescending(ks) && i <= |ks| && (i < |ks| ==> !Before(ks[i], k)) && forall j :: 0 <= j < i ==>
        Before(ks[j], k)
    requires a < b < |ks| + 1
    ensures var r := ks[..i] + [k] + ks[i..]; !Before(r[b], r[a])
  {
    var r := ks[..i] + [k] + ks[i..];
    if b == i { BeforeIsTotal(ks[a], k); }
    if a == i {
      BeforeIsTotal(ks[i], ks[b - 1]);
      if Before(ks[b - 1], k) && ks[i] != ks[b - 1] { BeforeIsTransitive(ks[i], ks[b - 1], k); }
    }
  }

  /** Merge the index keys with the write keys and drop duplicates. */
  method MergeKeys(a: seq<Key>, b: seq<Key>) returns (r: seq<Key>)
    requires Sorted(a) && NonDescending(b)
    ensures Sorted(r) && forall k :: k in r <==> k in a || k in b
  {
    hide Before;
    r := [];
    var i, j := 0, 0;
    while i < |a| || j < |b|
      invariant 0 <= i <= |a| && 0 <= j <= |b| && Sorted(r)
      invariant forall k :: k in r <==> k in a[..i] || k in b[..j]
      invariant r != [] && i < |a| ==> !Before(a[i], r[|r| - 1])
      invariant r != [] && j < |b| ==> !Before(b[j], r[|r| - 1])
      decreases |a| - i + |b| - j
    {
      var takeA := i < |a| && (j == |b| || !Before(b[j], a[i]));
      var k := if takeA then a[i] else b[j];
      Taken(a, b, i, j, takeA);
      if r == [] || r[|r| - 1] != k {
        if r != [] { Extends(r, k); }
        r := r + [k];
      }
      if takeA {
        assert a[..i + 1] == a[..i] + [a[i]];
        i := i + 1;
      } else {
        assert b[..j + 1] == b[..j] + [b[j]];
        j := j + 1;
      }
    }
    assert a[..i] == a && b[..j] == b;
  }

  /** The smaller head is not after what comes next on either side. */
  lemma Taken(a: seq<Key>, b: seq<Key>, i: nat, j: nat, takeA: bool)
    requires Sorted(a) && NonDescending(b) && i <= |a| && j <= |b| && (i < |a| || j < |b|)
    requires takeA <==> i < |a| && (j == |b| || !Before(b[j], a[i]))
    ensures var k := if takeA then a[i] else b[j];
            var i', j' := if takeA then i + 1 else i, if takeA then j else j + 1;
            (i' < |a| ==> !Before(a[i'], k)) && (j' < |b| ==> !Before(b[j'], k))
  {
    if takeA && i + 1 < |a| { BeforeIsTotal(a[i], a[i + 1]); }
    if !takeA && i < |a| { BeforeIsTotal(b[j], a[i]); }
  }

  lemma Extends(r: seq<Key>, k: Key)
    requires Sorted(r) && r != [] && !Before(k, r[|r| - 1]) && r[|r| - 1] != k
    ensures Sorted(r + [k])
  {
    BeforeIsTotal(r[|r| - 1], k);
    forall i | 0 <= i < |r| ensures Before(r[i], k) {
      if i < |r| - 1 { BeforeIsTransitive(r[i], r[|r| - 1], k); }
    }
  }

  function RowKeys(rows: seq<Row>): (ks: seq<Key>)
    ensures |ks| == |rows| && forall i :: 0 <= i < |rows| ==> ks[i] == rows[i].key
  {
    seq(|rows|, i requires 0 <= i < |rows| => rows[i].key)
  }

  /** Step the callback along some keys until it stops. */
  method Walk(e: Env, ks: seq<Key>, stop: Row -> bool) returns (seen: seq<Row>)
    ensures seen == Until(LiveRows(e, ks), stop)
  {
    hide View, LiveRows;
    seen := [];
    var i := 0;
    NoLiveRows(e, ks);
    while i < |ks|
      invariant 0 <= i <= |ks| && seen == LiveRows(e, ks[..i]) && forall j :: 0 <= j < |seen| ==> !stop(seen[j])
    {
      var v := View(e, ks[i]);
      LiveStep(e, ks, i);
      if v != [] {
        seen := seen + [Row(ks[i], v)];
        if stop(Row(ks[i], v)) {
          LivePrefix(e, ks, i + 1);
          UntilStops(LiveRows(e, ks), seen, stop);
          return;
        }
      }
      i := i + 1;
    }
    assert ks[..i] == ks;
    UntilAll(seen, stop);
  }

  lemma NoLiveRows(e: Env, ks: seq<Key>)
    ensures LiveRows(e, ks[..0]) == []
  {
  }

  lemma LiveStep(e: Env, ks: seq<Key>, i: nat)
    requires i < |ks|
    ensures LiveRows(e, ks[..i + 1])
            == LiveRows(e, ks[..i]) + if View(e, ks[i]) == [] then [] else [Row(ks[i], View(e, ks[i]))]
  {
    assert ks[..i + 1][..i] == ks[..i];
  }

  lemma {:induction false} LivePrefix(e: Env, ks: seq<Key>, i: nat)
    requires i <= |ks|
    ensures LiveRows(e, ks[..i]) <= LiveRows(e, ks)
    decreases |ks| - i
  {
    hide View;
    if i == |ks| {
      assert ks[..i] == ks;
    } else {
      LiveStep(e, ks, i);
      LivePrefix(e, ks, i + 1);
    }
  }

  lemma {:induction false} UntilStops(rows: seq<Row>, seen: seq<Row>, stop: Row -> bool)
    requires seen != [] && seen <= rows && stop(seen[|seen| - 1]) && forall j :: 0 <= j < |seen| - 1 ==> !stop(seen[j])
    ensures Until(rows, stop) == seen
  {
    if |seen| > 1 {
      UntilStops(rows[1..], seen[1..], stop);
      assert seen == [seen[0]] + seen[1..];
    } else {
      assert seen == [rows[0]];
    }
  }

  lemma {:induction false} UntilAll(rows: seq<Row>, stop: Row -> bool)
    requires forall j :: 0 <= j < |rows| ==> !stop(rows[j])
    ensures Until(rows, stop) == rows
  {
    if rows != [] {
      UntilAll(rows[1..], stop);
      assert rows == [rows[0]] + rows[1..];
    }
  }

  function Reversed<T>(s: seq<T>): (r: seq<T>)
    ensures |r| == |s| && forall i :: 0 <= i < |s| ==> r[i] == s[|s| - 1 - i]
  {
    seq(|s|, i requires 0 <= i < |s| => s[|s| - 1 - i])
  }

  lemma {:induction false} LiveConcat(e: Env, a: seq<Key>, b: seq<Key>)
    ensures LiveRows(e, a + b) == LiveRows(e, a) + LiveRows(e, b)
  {
    hide View;
    if b == [] {
      assert a + b == a;
    } else {
      LiveConcat(e, a, b[..|b| - 1]);
      assert (a + b)[..|a + b| - 1] == a + b[..|b| - 1];
    }
  }

  lemma {:induction false} LiveReversed(e: Env, ks: seq<Key>)
    ensures LiveRows(e, Reversed(ks)) == Reversed(LiveRows(e, ks))
  {
    hide View;
    if ks != [] {
      var n := |ks| - 1;
      LiveReversed(e, ks[..n]);
      assert Reversed(ks) == [ks[n]] + Reversed(ks[..n]);
      LiveConcat(e, [ks[n]], Reversed(ks[..n]));
      var one: seq<Key> := [ks[n]];
      assert one[..0] == [] && LiveRows(e, one)
             == LiveRows(e, []) + if View(e, ks[n]) == [] then [] else [Row(ks[n], View(e, ks[n]))];
      if View(e, ks[n]) != [] {
        assert Reversed(LiveRows(e, ks)) == [Row(ks[n], View(e, ks[n]))] + Reversed(LiveRows(e, ks[..n]));
      } else {
        assert LiveRows(e, ks) == LiveRows(e, ks[..n]);
      }
    }
  }

  lemma IndexKeys(e: Env, k: Key)
    ensures k in RowKeys(e.rows) <==> exists i :: 0 <= i < |e.rows| && e.rows[i].key == k
  {
    if exists i :: 0 <= i < |e.rows| && e.rows[i].key == k {
      var i :| 0 <= i < |e.rows| && e.rows[i].key == k;
      assert RowKeys(e.rows)[i] == k;
    }
  }

  /** The candidate keys of the merge path. */
  method MergedKeys(e: Env) returns (ks: seq<Key>)
    requires EnvOk(e)
    ensures Lists(e, ks)
  {
    hide Before, InRange;
    var indexKeys := RowKeys(e.rows);
    forall k ensures k in indexKeys <==> exists i :: 0 <= i < |e.rows| && e.rows[i].key == k { IndexKeys(e, k); }
    var writeKeys := CollectWriteKeys(e);
    ks := MergeKeys(indexKeys, writeKeys);
  }

  /** Without own writes in the range the index keys are all there is to consider. */
  lemma IndexKeysSuffice(e: Env)
    requires EnvOk(e) && forall i :: 0 <= i < |e.writes| ==> !OwnWrite(e, e.writes[i])
    ensures Lists(e, RowKeys(e.rows))
  {
    hide Before, InRange;
    forall k ensures k in RowKeys(e.rows) <==> Candidate(e, k) { IndexKeys(e, k); }
  }

  lemma {:induction false} CommittedAt(rows: seq<Row>, i: nat)
    requires i < |rows| && forall a, b :: 0 <= a < b < |rows| ==> Before(rows[a].key, rows[b].key)
    ensures Committed(rows, rows[i].key) == rows[i].value
  {
    BeforeIsTotal(rows[0].key, rows[0].key);
    if i > 0 { CommittedAt(rows[1..], i - 1); }
  }

  /** The fast path's row: what was read before, else what the index holds. */
  function Direct(e: Env, row: Row): Bytes {
    var r := FirstMatch(e.reads_, e.table, "", row.key);
    if r.Some? then e.reads_[r.value].value else row.value
  }

  lemma DirectView(e: Env, i: nat)
    requires EnvOk(e) && i < |e.rows| && forall j :: 0 <= j < |e.writes| ==> !OwnWrite(e, e.writes[j])
    ensures View(e, e.rows[i].key) == Direct(e, e.rows[i])
  {
    hide Before;
    CommittedAt(e.rows, i);
  }

  /** Along index rows given in some order, stopping with the callback. */
  method WalkRows(e: Env, rows: seq<Row>, stop: Row -> bool) returns (seen: seq<Row>)
    requires forall i :: 0 <= i < |rows| ==> View(e, rows[i].key) == Direct(e, rows[i])
    ensures seen == Until(LiveRows(e, RowKeys(rows)), stop)
  {
    hide View, LiveRows, Direct;
    ghost var ks := RowKeys(rows);
    seen := [];
    var i := 0;
    NoLiveRows(e, ks);
    while i < |rows|
      invariant 0 <= i <= |rows| && seen == LiveRows(e, ks[..i]) && forall j :: 0 <= j < |seen| ==> !stop(seen[j])
    {
      LiveStep(e, ks, i);
      var v := Direct(e, rows[i]);
      if v != [] {
        seen := seen + [Row(rows[i].key, v)];
        if stop(Row(rows[i].key, v)) {
          LivePrefix(e, ks, i + 1);
          UntilStops(LiveRows(e, ks), seen, stop);
          return;
        }
      }
      i := i + 1;
    }
    assert ks[..i] == ks;
    UntilAll(seen, stop);
  }

  /** The scan without own writes to merge: straight along the index, stopping with the callback. */
  method ScanPrimaryIndexWithEarlyStop(e: Env, stop: Row -> bool, reverse: bool) returns (seen: seq<Row>)
    requires EnvOk(e) && forall i :: 0 <= i < |e.writes| ==> !OwnWrite(e, e.writes[i])
    ensures var all := LiveRows(e, RowKeys(e.rows)); seen == Until(if reverse then Reversed(all) else all, stop)
  {
    hide View, LiveRows, Direct, EnvOk, OwnWrite, Until;
    forall i | 0 <= i < |e.rows| ensures View(e, e.rows[i].key) == Direct(e, e.rows[i]) { DirectView(e, i); }
    if reverse {
      LiveReversed(e, RowKeys(e.rows));
      assert RowKeys(Reversed(e.rows)) == Reversed(RowKeys(e.rows));
      seen := WalkRows(e, Reversed(e.rows), stop);
    } else {
      seen := WalkRows(e, e.rows, stop);
    }
  }

  lemma ListsUnique(e: Env, a: seq<Key>, b: seq<Key>)
    requires Lists(e, a) && Lists(e, b)
    ensures a == b
  {
    hide Sorted, Candidate;
    SortedUnique(a, b);
  }

  /**
   * A forward scan visits exactly the committed rows of the range overlaid by the transaction's
   * own writes, once each and ascending, until the callback stops it; by either path. The list of
   * candidates exists and is unique, so this fixes what is visited.
   */
  method Scan(e: Env, stop: Row -> bool) returns (seen: seq<Row>)
    requires EnvOk(e)
    ensures exists ks :: Lists(e, ks)
    ensures forall ks :: Lists(e, ks) ==> seen == Until(LiveRows(e, ks), stop)
  {
    hide EnvOk, OwnWrite, Lists, Until, LiveRows;
    ghost var all: seq<Key>;
    var own := HasOwnBaseRowWriteInRange(e);
    if e.high.Some? && !own {
      IndexKeysSuffice(e);
      all := RowKeys(e.rows);
      seen := ScanPrimaryIndexWithEarlyStop(e, stop, false);
    } else {
      var ks := MergedKeys(e);
      all := ks;
      seen := Walk(e, ks, stop);
    }
    forall ks | Lists(e, ks) ensures seen == Until(LiveRows(e, ks), stop) { ListsUnique(e, ks, all); }
  }

  /** The reverse scan visits the mirror image. */
  method ScanReverse(e: Env, stop: Row -> bool) returns (seen: seq<Row>)
    requires EnvOk(e)
    ensures exists ks :: Lists(e, ks)
    ensures forall ks :: Lists(e, ks) ==> seen == Until(Reversed(LiveRows(e, ks)), stop)
  {
    hide EnvOk, OwnWrite, Lists, Until, LiveRows;
    ghost var all: seq<Key>;
    var own := HasOwnBaseRowWriteInRange(e);
    if e.high.Some? && !own {
      IndexKeysSuffice(e);
      all := RowKeys(e.rows);
      seen := ScanPrimaryIndexWithEarlyStop(e, stop, true);
    } else {
      var ks := MergedKeys(e);
      all := ks;
      LiveReversed(e, ks);
      seen := Walk(e, Reversed(ks), stop);
    }
    forall ks | Lists(e, ks) ensures seen == Until(Reversed(LiveRows(e, ks)), stop) { ListsUnique(e, ks, all); }
  }
}
