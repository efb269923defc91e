/**
 * Packed primary-key lists: varint length-prefixed records in one byte string, kept sorted and
 * without duplicates. The byte-level operations refine operations on finite sets of keys.
 */
module PackedKeys {
  import opened Basics

  type Key = Bytes

  const UINT32_MAX: nat := 0xffff_ffff

  // ----- Order --------------------------------------------------------------------------------

  /** Lexicographic order of keys. */
  predicate Before(a: Key, b: Key) {
    if b == [] then false
    else if a == [] then true
    else a[0] < b[0] || (a[0] == b[0] && Before(a[1..], b[1..]))
  }

  lemma {:induction false} BeforeIsTotal(a: Key, b: Key)
    ensures a == b || Before(a, b) || Before(b, a)
    ensures !(Before(a, b) && Before(b, a)) && !Before(a, a)
  {
    if a != [] && b != [] && a[0] == b[0] {
      BeforeIsTotal(a[1..], b[1..]);
      assert a == [a[0]] + a[1..] && b == [b[0]] + b[1..];
    }
    if a != [] { BeforeIsTotal(a[1..], a[1..]); }
  }

  lemma {:induction false} BeforeIsTransitive(a: Key, b: Key, c: Key)
    requires Before(a, b) && Before(b, c)
    ensures Before(a, c)
  {
    if a != [] && a[0] == b[0] && b[0] == c[0] { BeforeIsTransitive(a[1..], b[1..], c[1..]); }
  }

  predicate Sorted(ks: seq<Key>) {
    forall i, j :: 0 <= i < j < |ks| ==> Before(ks[i], ks[j])
  }

  // ----- Records ------------------------------------------------------------------------------

  function Varint(n: nat): (b: Bytes)
    ensures b != []
  {
    if n < 128 then [n] else [n % 128 + 128] + Varint(n / 128)
  }

  function Record(k: Key): Bytes {
    Varint(|k|) + k
  }

  function Records(ks: seq<Key>): Bytes {
    if ks == [] then [] else Record(ks[0]) + Records(ks[1..])
  }

  /** The number a varint at the front of some bytes spells, and its length. */
  function Spelled(b: Bytes): (r: Option<(nat, nat)>)
    ensures r.Some? ==> 0 < r.value.1 <= |b|
  {
    if b == [] then None
    else if b[0] < 128 then Some((b[0] as nat, 1))
    else
      match Spelled(b[1..])
      case None => None
      case Some(r) => Some((b[0] as int - 128 + 128 * r.0, 1 + r.1))
  }

  /** A varint is read back, whatever follows: records decode uniquely. */
  lemma {:induction false} VarintRoundTrip(n: nat, rest: Bytes)
    ensures Spelled(Varint(n) + rest) == Some((n, |Varint(n)|))
  {
    if n >= 128 {
      VarintRoundTrip(n / 128, rest);
      assert (Varint(n) + rest)[1..] == Varint(n / 128) + rest;
    }
  }

  lemma {:induction false} RecordsConcat(a: seq<Key>, b: seq<Key>)
    ensures Records(a + b) == Records(a) + Records(b)
  {
    hide Record;
    if a == [] {
      assert a + b == b;
    } else {
      RecordsConcat(a[1..], b);
      assert (a + b)[1..] == a[1..] + b;
      assert Record(a[0]) + (Records(a[1..]) + Records(b)) == (Record(a[0]) + Records(a[1..])) + Records(b);
    }
  }

  /** The records around position i. */
  lemma RecordsAt(ks: seq<Key>, i: nat)
    requires i < |ks|
    ensures Records(ks) == Records(ks[..i]) + Record(ks[i]) + Records(ks[i + 1..])
    ensures Records(ks[..i + 1]) == Records(ks[..i]) + Record(ks[i])
  {
    hide Records, Record;
    assert ks == ks[..i + 1] + ks[i + 1..];
    RecordsConcat(ks[..i + 1], ks[i + 1..]);
    RecordsConcat(ks[..i], [ks[i]]);
    assert ks[..i + 1] == ks[..i] + [ks[i]];
    OneRecord(ks[i]);
  }

  lemma OneRecord(k: Key)
    ensures Records([k]) == Record(k) && Records([]) == []
  {
  }

  // ----- Lists --------------------------------------------------------------------------------

  datatype Packed = Packed(count: nat, records: Bytes)

  /** A list, or none, that packs exactly these keys: count, byte length and order are right. */
  predicate Packs(p: Option<Packed>, ks: seq<Key>) {
    Sorted(ks) && match p
                  case None => ks == []
                  case Some(l) => l.count == |ks| && l.records == Records(ks)
  }

  function Members(ks: seq<Key>): set<Key> {
    set k | k in ks
  }

  /** The position of the first key not before k. */
  function LowerBound(ks: seq<Key>, k: Key): (i: nat)
    ensures i <= |ks| && (i < |ks| ==> !Before(ks[i], k)) && forall j :: 0 <= j < i ==> Before(ks[j], k)
  {
    if ks == [] || !Before(ks[0], k) then 0 else 1 + LowerBound(ks[1..], k)
  }

  lemma LowerBoundIs(ks: seq<Key>, k: Key, i: nat)
    requires i <= |ks| && (i < |ks| ==> !Before(ks[i], k)) && forall j :: 0 <= j < i ==> Before(ks[j], k)
    ensures LowerBound(ks, k) == i
  {
  }

  /** A key is in a sorted list exactly when it stands at its lower bound. */
  lemma MemberAtLowerBound(ks: seq<Key>, k: Key)
    requires Sorted(ks)
    ensures var i := LowerBound(ks, k); k in ks <==> i < |ks| && ks[i] == k
  {
    var i := LowerBound(ks, k);
    if k in ks {
      var j :| 0 <= j < |ks| && ks[j] == k;
      BeforeIsTotal(k, k);
    }
  }

  function Inserted(ks: seq<Key>, k: Key): seq<Key> {
    var i := LowerBound(ks, k);
    if i < |ks| && ks[i] == k then ks else ks[..i] + [k] + ks[i..]
  }

  function Erased(ks: seq<Key>, k: Key): seq<Key> {
    var i := LowerBound(ks, k);
    if i < |ks| && ks[i] == k then ks[..i] + ks[i + 1..] else ks
  }

  /** Adding a key makes the count or the records outgrow 32 bits. */
  predicate NoRoom(ks: seq<Key>, k: Key) {
    Inserted(ks, k) != ks && (|ks| + 1 > UINT32_MAX || |Records(Inserted(ks, k))| > UINT32_MAX)
  }

  /** Insertion is set union and keeps the order. */
  lemma InsertedIsUnion(ks: seq<Key>, k: Key)
    requires Sorted(ks)
    ensures Sorted(Inserted(ks, k)) && Members(Inserted(ks, k)) == Members(ks) + {k}
  {
    var i := LowerBound(ks, k);
    var r := Inserted(ks, k);
    if !(i < |ks| && ks[i] == k) {
      forall a, b | 0 <= a < b < |r| ensures Before(r[a], r[b]) {
        if a == i || b == i {
          if b > i { BeforeIsTotal(k, ks[i]); if b > i + 1 { BeforeIsTransitive(k, ks[i], ks[b - 1]); } }
        } else if a < i && b > i { assert r[a] == ks[a] && r[b] == ks[b - 1]; }
      }
      assert forall x :: x in ks <==> x in ks[..i] || x in ks[i..] by { assert ks == ks[..i] + ks[i..]; }
    }
  }

  lemma WithoutAt(ks: seq<Key>, i: nat)
    requires Sorted(ks) && i < |ks|
    ensures var r := ks[..i] + ks[i + 1..]; Sorted(r) && forall x :: x in r <==> x in ks && x != ks[i]
  {
    hide Before;
    var r := ks[..i] + ks[i + 1..];
    forall j | 0 <= j < |ks| && j != i ensures ks[j] != ks[i] {
      BeforeIsTotal(ks[j], ks[i]);
      BeforeIsTotal(ks[i], ks[i]);
    }
    forall x | x in r ensures x in ks && x != ks[i] {
      var j :| 0 <= j < |r| && r[j] == x;
      assert r[j] == if j < i then ks[j] else ks[j + 1];
    }
    forall x | x in ks && x != ks[i] ensures x in r {
      var j :| 0 <= j < |ks| && ks[j] == x;
      assert r[if j < i then j else j - 1] == x;
    }
  }

  /** Erasure is set difference and keeps the order. */
  lemma ErasedIsDifference(ks: seq<Key>, k: Key)
    requires Sorted(ks)
    ensures Sorted(Erased(ks, k)) && Members(Erased(ks, k)) == Members(ks) - {k}
  {
    hide Before, LowerBound, Sorted;
    var i := LowerBound(ks, k);
    MemberAtLowerBound(ks, k);
    if i < |ks| && ks[i] == k { WithoutAt(ks, i); }
  }

  // ----- The cursor loops -----------------------------------------------------------------------

  method VarintSize(value: nat) returns (size: nat)
    ensures size == |Varint(value)|
  {
    size := 1;
    var v := value;
    while v >= 128
      invariant |Varint(value)| == size - 1 + |Varint(v)|
    {
      v := v / 128;
      size := size + 1;
    }
  }

  method WriteVarint(value: nat) returns (out: Bytes)
    ensures out == Varint(value)
  {
    out := [];
    var v := value;
    while v >= 128
      invariant out + Varint(v) == Varint(value)
    {
      assert out + [v % 128 + 128] + Varint(v / 128) == out + Varint(v);
      out := out + [v % 128 + 128];
      v := v / 128;
    }
    out := out + [v];
  }

  /** One byte read: the length so far and what is left of it still add up. */
  lemma SpelledStep(b: Bytes, at: nat, scale: nat, length: nat, whole: nat)
    requires at < |b| && Spelled(b[at..]).Some? && length + scale * Spelled(b[at..]).value.0 == whole
    ensures b[at] < 128 ==> length + scale * (b[at] as int) == whole && Spelled(b[at..]).value.1 == 1
    ensures b[at] >= 128 ==>
              && at + 1 < |b| && Spelled(b[at + 1..]).Some?
              && Spelled(b[at..]).value.1 == 1 + Spelled(b[at + 1..]).value.1
              && length + scale * (b[at] as int - 128) + scale * 128 * Spelled(b[at + 1..]).value.0 == whole
  {
    assert b[at..][1..] == b[at + 1..];
  }

  /** Decode the varint at a position. */
  method DecodeVarint(b: Bytes, start: nat) returns (length: nat, cursor: nat)
    requires start <= |b| && Spelled(b[start..]).Some?
    ensures length == Spelled(b[start..]).value.0 && cursor == start + Spelled(b[start..]).value.1
  {
    hide Spelled;
    length, cursor := 0, start;
    var scale: nat := 1;
    ghost var whole := Spelled(b[start..]).value;
    SpelledFits(b, start);
    while true
      invariant start <= cursor < |b| && Spelled(b[cursor..]).Some?
      invariant length + scale * Spelled(b[cursor..]).value.0 == whole.0
      invariant cursor + Spelled(b[cursor..]).value.1 == start + whole.1
      decreases |b| - cursor
    {
      var byte := b[cursor];
      SpelledStep(b, cursor, scale, length, whole.0);
      cursor := cursor + 1;
      if byte < 128 {
        length := length + scale * byte as int;
        return;
      }
      length := length + scale * (byte as int - 128);
      scale := scale * 128;
    }
  }

  lemma SpelledFits(b: Bytes, at: nat)
    requires at <= |b| && Spelled(b[at..]).Some?
    ensures at < |b|
  {
  }

  /** Decode the record at a position: where its key begins and ends. */
  method DecodeRecord(b: Bytes, start: nat, ghost k: Key, ghost rest: Bytes) returns (value: nat, next: nat)
    requires start <= |b| && b[start..] == Record(k) + rest
    ensures value <= next <= |b| && b[value..next] == k && next == start + |Record(k)| && b[next..] == rest
  {
    hide Spelled, Varint;
    VarintRoundTrip(|k|, k + rest);
    assert Varint(|k|) + (k + rest) == b[start..];
    var length, cursor := DecodeVarint(b, start);
    value, next := cursor, cursor + length;
    assert b[value..] == b[start..][|Varint(|k|)|..] == k + rest;
    assert b[value..next] == (k + rest)[..|k|] && b[next..] == (k + rest)[|k|..];
  }

  /** Where a key is or would be: the offset of the first record not before it. */
  method Find(p: Packed, k: Key, ghost ks: seq<Key>) returns (at: nat, next: nat, found: bool)
    requires Packs(Some(p), ks)
    ensures var i := LowerBound(ks, k);
            && at == |Records(ks[..i])| && (found <==> i < |ks| && ks[i] == k)
            && (found ==> next == |Records(ks[..i + 1])|)
  {
    hide Records, Record, Before;
    at, next, found := 0, 0, false;
    ghost var i := 0;
    NoRecords(ks);
    while at != |p.records|
      invariant i <= |ks| && at == |Records(ks[..i])| <= |p.records| && (i == |ks| <==> at == |p.records|)
      invariant forall j :: 0 <= j < i ==> Before(ks[j], k)
      decreases |ks| - i
    {
      RecordsAt(ks, i);
      RecordIsLong(ks, i);
      assert p.records[at..] == Record(ks[i]) + Records(ks[i + 1..]);
      var value, after := DecodeRecord(p.records, at, ks[i], Records(ks[i + 1..]));
      var key := p.records[value..after];
      if key == k {
        BeforeIsTotal(k, k);
        LowerBoundIs(ks, k, i);
        return at, after, true;
      }
      if !Before(key, k) {
        LowerBoundIs(ks, k, i);
        return at, after, false;
      }
      at := after;
      i := i + 1;
    }
    LowerBoundIs(ks, k, i);
  }

  lemma NoRecords(ks: seq<Key>)
    ensures ks[..0] == [] && Records([]) == [] && (ks == [] <==> Records(ks) == [])
  {
    if ks != [] { assert Record(ks[0]) != []; }
  }

  /** Only at the end of the list have all its bytes been passed. */
  lemma RecordIsLong(ks: seq<Key>, i: nat)
    requires i < |ks|
    ensures |Records(ks[..i + 1])| <= |Records(ks)| && (i + 1 == |ks| <==> |Records(ks[..i + 1])| == |Records(ks)|)
  {
    hide Record;
    assert ks == ks[..i + 1] + ks[i + 1..];
    RecordsConcat(ks[..i + 1], ks[i + 1..]);
    NoRecords(ks[i + 1..]);
  }

  /** Add a key; a list that would outgrow 32 bits is refused. */
  method Insert(p: Option<Packed>, k: Key, ghost ks: seq<Key>) returns (r: Option<Packed>, ok: bool)
    requires Packs(p, ks)
    ensures ok ==> Packs(r, Inserted(ks, k))
    ensures !ok <==> NoRoom(ks, k)
  {
    hide Records, Record, Before;
    InsertedIsUnion(ks, k);
    if p.None? {
      OneRecord(k);
      assert Inserted(ks, k) == [k];
      var head := WriteVarint(|k|);
      RecordBytes(k);
      if |head + k| > UINT32_MAX { return None, false; }
      return Some(Packed(1, head + k)), true;
    }
    var l := p.value;
    var at, next, found := Find(l, k, ks);
    if found { return p, true; }
    ghost var i := LowerBound(ks, k);
    SplitRecords(ks, i);
    InsertedRecords(ks, k);
    var head := WriteVarint(|k|);
    RecordBytes(k);
    if l.count + 1 > UINT32_MAX || |l.records| + |head| + |k| > UINT32_MAX { return None, false; }
    return Some(Packed(l.count + 1, l.records[..at] + (head + k) + l.records[at..])), true;
  }

  lemma RecordBytes(k: Key)
    ensures Record(k) == Varint(|k|) + k
  {
  }

  lemma SplitRecords(ks: seq<Key>, i: nat)
    requires i <= |ks|
    ensures Records(ks) == Records(ks[..i]) + Records(ks[i..])
  {
    assert ks == ks[..i] + ks[i..];
    RecordsConcat(ks[..i], ks[i..]);
  }

  lemma InsertedRecords(ks: seq<Key>, k: Key)
    requires var i := LowerBound(ks, k); !(i < |ks| && ks[i] == k)
    ensures var i := LowerBound(ks, k);
            Records(Inserted(ks, k)) == Records(ks[..i]) + Record(k) + Records(ks[i..]) && |Inserted(ks, k)| == |ks| + 1
  {
    hide Records;
    var i := LowerBound(ks, k);
    RecordsConcat(ks[..i] + [k], ks[i..]);
    RecordsConcat(ks[..i], [k]);
    OneRecord(k);
  }

  /** Remove a key, if it is there. */
  method Erase(p: Option<Packed>, k: Key, ghost ks: seq<Key>) returns (r: Option<Packed>)
    requires Packs(p, ks)
    ensures Packs(r, Erased(ks, k))
  {
    hide Records, Record, Before;
    ErasedIsDifference(ks, k);
    if p.None? || p.value.count == 0 { return p; }
    var l := p.value;
    var at, next, found := Find(l, k, ks);
    if !found { return p; }
    ghost var i := LowerBound(ks, k);
    SplitRecords(ks, i);
    SplitRecords(ks, i + 1);
    RecordsConcat(ks[..i], ks[i + 1..]);
    return Some(Packed(l.count - 1, l.records[..at] + l.records[next..]));
  }

  method FromSortedDeduped(ks: seq<Key>) returns (r: Option<Packed>)
    requires Sorted(ks)
    ensures r.Some? ==> Packs(r, ks)
    ensures r.None? <==> |Records(ks)| > UINT32_MAX || |ks| > UINT32_MAX
  {
    hide Records, Before;
    var total, i := 0, 0;
    NoRecords(ks);
    while i < |ks|
      invariant 0 <= i <= |ks| && total == |Records(ks[..i])| <= UINT32_MAX
    {
      RecordsAt(ks, i);
      RecordIsLong(ks, i);
      var n := VarintSize(|ks[i]|);
      total := total + n + |ks[i]|;
      if total > UINT32_MAX { return None; }
      i := i + 1;
    }
    assert ks[..i] == ks;
    if |ks| > UINT32_MAX { return None; }
    var out := [];
    i := 0;
    while i < |ks|
      invariant 0 <= i <= |ks| && out == Records(ks[..i])
    {
      RecordsAt(ks, i);
      var head := WriteVarint(|ks[i]|);
      out := out + (head + ks[i]);
      i := i + 1;
    }
    assert ks[..i] == ks;
    return Some(Packed(|ks|, out));
  }
}

/**
 * A transaction's recorded changes to a posting list: only the last operation per primary key is
 * kept, and applying those equals replaying everything the transaction did.
 */
module IndexDeltas {
  import opened Basics
  import opened PackedKeys

  datatype Delta = Delta(primaryKey: Key, add: bool)

  function Step(d: Delta, keys: set<Key>): set<Key> {
    if d.add then keys + {d.primaryKey} else keys - {d.primaryKey}
  }

  /** Replay operations in order. */
  function Replay(ds: seq<Delta>, keys: set<Key>): set<Key> {
    if ds == [] then keys else Step(ds[|ds| - 1], Replay(ds[..|ds| - 1], keys))
  }

  /** Overwrite the entry of a primary key, or append one. */
  function Recorded(ds: seq<Delta>, d: Delta): seq<Delta> {
    if ds == [] then [d]
    else if ds[0].primaryKey == d.primaryKey then [d] + ds[1..]
    else [ds[0]] + Recorded(ds[1..], d)
  }

  /** What a transaction keeps of a history. */
  function Summary(h: seq<Delta>): seq<Delta> {
    if h == [] then [] else Recorded(Summary(h[..|h| - 1]), h[|h| - 1])
  }

  predicate Distinct(ds: seq<Delta>) {
    forall i, j :: 0 <= i < j < |ds| ==> ds[i].primaryKey != ds[j].primaryKey
  }

  method RecordSecondaryIndexDelta(ds: seq<Delta>, d: Delta) returns (r: seq<Delta>)
    ensures r == Recorded(ds, d)
  {
    var i := 0;
    assert ds[..0] + Recorded(ds[0..], d) == Recorded(ds, d);
    while i < |ds|
      invariant 0 <= i <= |ds| && ds[..i] + Recorded(ds[i..], d) == Recorded(ds, d)
    {
      if ds[i].primaryKey == d.primaryKey {
        assert ds[..i] + ([d] + ds[i..][1..]) == ds[i := d];
        return ds[i := d];
      }
      assert ds[i..][1..] == ds[i + 1..] && ds[..i] + [ds[i]] == ds[..i + 1];
      assert ds[..i] + ([ds[i]] + Recorded(ds[i + 1..], d)) == ds[..i + 1] + Recorded(ds[i + 1..], d);
      i := i + 1;
    }
    return ds + [d];
  }

  lemma {:induction false} RecordedKeys(ds: seq<Delta>, d: Delta)
    requires Distinct(ds)
    ensures Distinct(Recorded(ds, d))
    ensures forall x :: x in Recorded(ds, d) ==> x == d || x in ds
  {
    if ds != [] && ds[0].primaryKey != d.primaryKey {
      RecordedKeys(ds[1..], d);
      var r := Recorded(ds[1..], d);
      forall j | 0 <= j < |r| ensures r[j].primaryKey != ds[0].primaryKey { assert r[j] in r; }
    }
  }

  lemma {:induction false} SummaryIsDistinct(h: seq<Delta>)
    ensures Distinct(Summary(h))
  {
    if h != [] {
      SummaryIsDistinct(h[..|h| - 1]);
      RecordedKeys(Summary(h[..|h| - 1]), h[|h| - 1]);
    }
  }

  lemma {:induction false} ReplayConcat(a: seq<Delta>, b: seq<Delta>, keys: set<Key>)
    ensures Replay(a + b, keys) == Replay(b, Replay(a, keys))
  {
    if b == [] {
      assert a + b == a;
    } else {
      ReplayConcat(a, b[..|b| - 1], keys);
      assert (a + b)[..|a + b| - 1] == a + b[..|b| - 1];
    }
  }

  /** Operations on other keys commute with an operation on this one. */
  lemma {:induction false} StepCommutes(d: Delta, ds: seq<Delta>, keys: set<Key>)
    requires forall i :: 0 <= i < |ds| ==> ds[i].primaryKey != d.primaryKey
    ensures Replay(ds, Step(d, keys)) == Step(d, Replay(ds, keys))
  {
    if ds != [] { StepCommutes(d, ds[..|ds| - 1], keys); }
  }

  /** Recording an operation has the effect of performing it last. */
  lemma {:induction false} RecordedReplays(ds: seq<Delta>, d: Delta, keys: set<Key>)
    requires Distinct(ds)
    ensures Replay(Recorded(ds, d), keys) == Step(d, Replay(ds, keys))
  {
    hide Step;
    if ds == [] {
      assert [d][..0] == [];
    } else if ds[0].primaryKey == d.primaryKey {
      ReplayConcat([d], ds[1..], keys);
      ReplayConcat([ds[0]], ds[1..], keys);
      assert ds == [ds[0]] + ds[1..] && [d][..0] == [] && [ds[0]][..0] == [];
      StepCommutes(d, ds[1..], Step(ds[0], keys));
      StepTwice(ds[0], d, keys);
    } else {
      RecordedReplays(ds[1..], d, Replay([ds[0]], keys));
      ReplayConcat([ds[0]], Recorded(ds[1..], d), keys);
      ReplayConcat([ds[0]], ds[1..], keys);
      assert ds == [ds[0]] + ds[1..];
    }
  }

  lemma StepTwice(a: Delta, b: Delta, keys: set<Key>)
    requires a.primaryKey == b.primaryKey
    ensures Step(b, Step(a, keys)) == Step(b, keys)
  {
  }

  /** Applying the last recorded operation per key equals replaying the full history, on any list. */
  lemma {:induction false} SummaryReplays(h: seq<Delta>, keys: set<Key>)
    ensures Replay(Summary(h), keys) == Replay(h, keys)
  {
    if h != [] {
      SummaryReplays(h[..|h| - 1], keys);
      SummaryIsDistinct(h[..|h| - 1]);
      RecordedReplays(Summary(h[..|h| - 1]), h[|h| - 1], keys);
    }
  }

  /** The sorted list after the operations, one by one. */
  function Applied(ds: seq<Delta>, ks: seq<Key>): seq<Key> {
    if ds == [] then ks
    else
      var d, before := ds[|ds| - 1], Applied(ds[..|ds| - 1], ks);
      if d.add then Inserted(before, d.primaryKey) else Erased(before, d.primaryKey)
  }

  /** The list is what replaying does to its set, in order. */
  lemma {:induction false} AppliedReplays(ds: seq<Delta>, ks: seq<Key>)
    requires Sorted(ks)
    ensures Sorted(Applied(ds, ks)) && Members(Applied(ds, ks)) == Replay(ds, Members(ks))
  {
    hide Inserted, Erased, Members, Sorted;
    if ds != [] {
      AppliedReplays(ds[..|ds| - 1], ks);
      InsertedIsUnion(Applied(ds[..|ds| - 1], ks), ds[|ds| - 1].primaryKey);
      ErasedIsDifference(Applied(ds[..|ds| - 1], ks), ds[|ds| - 1].primaryKey);
    }
  }

  /** The operation after the first i adds a key the list has no room for. */
  predicate Outgrows(ds: seq<Delta>, i: nat, ks: seq<Key>)
    requires i < |ds|
  {
    var before := Applied(ds[..i], ks);
    ds[i].add && NoRoom(before, ds[i].primaryKey)
  }

  /**
   * Apply recorded operations to a packed list: byte by byte what replaying does to its set, unless
   * some addition outgrows 32 bits.
   */
  method ApplySecondaryIndexDeltas(p: Option<Packed>, ds: seq<Delta>, ghost ks: seq<Key>)
    returns (r: Option<Packed>, ok: bool)
    requires Packs(p, ks)
    ensures ok <==> forall i :: 0 <= i < |ds| ==> !Outgrows(ds, i, ks)
    ensures ok ==> Packs(r, Applied(ds, ks)) && Members(Applied(ds, ks)) == Replay(ds, Members(ks))
  {
    hide Packs, Inserted, Erased, Members, NoRoom;
    r, ok := p, true;
    var i := 0;
    assert ds[..0] == [];
    while i < |ds|
      invariant 0 <= i <= |ds| && ok && Packs(r, Applied(ds[..i], ks)) && forall j :: 0 <= j < i ==>
          !Outgrows(ds, j, ks)
    {
      ghost var before := Applied(ds[..i], ks);
      assert ds[..i + 1][..i] == ds[..i];
      if ds[i].add {
        var q, fits := Insert(r, ds[i].primaryKey, before);
        if !fits {
          assert Outgrows(ds, i, ks);
          return r, false;
        }
        r := q;
      } else {
        r := Erase(r, ds[i].primaryKey, before);
      }
      i := i + 1;
    }
    assert ds[..i] == ds;
    PacksIsSorted(p, ks);
    AppliedReplays(ds, ks);
  }

  lemma PacksIsSorted(p: Option<Packed>, ks: seq<Key>)
    requires Packs(p, ks)
    ensures Sorted(ks)
  {
  }
}
