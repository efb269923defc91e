/**
 * One row group of the columnar store: per-field strips of fixed-width cells in one byte arena.
 * Rows are scattered into the cells of a slot and gathered back.
 */
module PaxGroup {
  import opened Basics
  import opened PaxCodec
  import opened PaxRow

  const ROWS: nat := 8192
  const MAX_FIELDS: nat := 512
  const CELL_LEN: nat := 2

  datatype Schema = Schema(maxBytes: seq<nat>, kinds: seq<Kind>)

  /** A typed field is as wide as its binary; a decimal scale is a small number. */
  predicate SchemaOk(sc: Schema) {
    && |sc.kinds| == |sc.maxBytes|
    && forall f :: 0 <= f < |sc.kinds| ==>
         && (!sc.kinds[f].Untyped? ==> sc.maxBytes[f] == Width(sc.kinds[f]))
         && (sc.kinds[f].Dec64? ==> sc.kinds[f].scale < 128)
  }

  // ----- Layout -------------------------------------------------------------------------------

  function Stride(sc: Schema, f: nat): nat
    requires f < |sc.maxBytes|
  {
    CELL_LEN + sc.maxBytes[f]
  }

  function Align(n: nat): (a: nat)
    ensures n <= a && a % 64 == 0
  {
    (n + 63) / 64 * 64
  }

  /** Where the first f strips end. */
  function EndOf(sc: Schema, f: nat): nat
    requires f <= |sc.maxBytes|
  {
    if f == 0 then 0 else Align(EndOf(sc, f - 1)) + Stride(sc, f - 1) * ROWS
  }

  function CellAt(sc: Schema, f: nat, slot: nat): nat
    requires f < |sc.maxBytes|
  {
    Align(EndOf(sc, f)) + Stride(sc, f) * slot
  }

  lemma {:induction false} EndsGrow(sc: Schema, f: nat, g: nat)
    requires f <= g <= |sc.maxBytes|
    ensures EndOf(sc, f) <= EndOf(sc, g)
    decreases g - f
  {
    if f < g { EndsGrow(sc, f, g - 1); }
  }

  /** A cell lies inside its strip. */
  lemma CellInside(sc: Schema, f: nat, slot: nat)
    requires f < |sc.maxBytes| && slot < ROWS
    ensures EndOf(sc, f) <= CellAt(sc, f, slot)
    ensures CellAt(sc, f, slot) + Stride(sc, f) <= EndOf(sc, f + 1) <= EndOf(sc, |sc.maxBytes|)
  {
    hide Align;
    EndsGrow(sc, f + 1, |sc.maxBytes|);
    SlotInside(Stride(sc, f), slot);
  }

  lemma SlotInside(s: nat, slot: nat)
    requires slot < ROWS
    ensures 0 <= s * slot && s * slot + s <= s * ROWS
  {
    assert s * slot + s == s * (slot + 1);
    Times(s, slot + 1, ROWS);
  }

  lemma Times(s: nat, a: nat, b: nat)
    requires a <= b
    ensures s * a <= s * b
  {
  }

  /** Distinct cells never overlap. */
  lemma CellsApart(sc: Schema, f: nat, s: nat, g: nat, t: nat)
    requires f < |sc.maxBytes| && g < |sc.maxBytes| && s < ROWS && t < ROWS && (f != g || s != t)
    ensures CellAt(sc, f, s) + Stride(sc, f) <= CellAt(sc, g, t) || CellAt(sc, g, t) + Stride(sc, g) <= CellAt(sc, f, s)
  {
    hide EndOf;
    CellInside(sc, f, s);
    CellInside(sc, g, t);
    if f < g {
      EndsGrow(sc, f + 1, g);
    } else if g < f {
      EndsGrow(sc, g + 1, f);
    } else {
      var w := Stride(sc, f);
      if s < t { Times(w, s + 1, t); } else { Times(w, t + 1, s); }
      assert w * s + w == w * (s + 1) && w * t + w == w * (t + 1);
    }
  }

  // ----- Cells --------------------------------------------------------------------------------

  predicate Sized(sc: Schema, arena: Bytes) {
    |arena| == EndOf(sc, |sc.maxBytes|)
  }

  /** The payload of a cell; a length beyond the width reads as empty. */
  function Stored(sc: Schema, arena: Bytes, f: nat, slot: nat): Bytes
    requires f < |sc.maxBytes| && slot < ROWS && Sized(sc, arena)
  {
    CellInside(sc, f, slot);
    var at := CellAt(sc, f, slot);
    var len := GetLe(arena[at..at + 2]);
    if len > sc.maxBytes[f] then [] else arena[at + 2..at + 2 + len]
  }

  /** What a field of a row becomes in its cell. */
  function Content(k: Kind, p: Bytes): Bytes
    requires FieldParses(k, p)
  {
    if k.Untyped? || p == [] then p else Binary(k, ParseTyped(k, p).value)
  }

  predicate FieldParses(k: Kind, p: Bytes) {
    k.Untyped? || p == [] || (ParseTyped(k, p).Some? && -MaxOf(k) - 1 <= ParseTyped(k, p).value <= MaxOf(k))
  }

  predicate FieldFits(k: Kind, max: nat, p: Bytes) {
    FieldParses(k, p) && (k.Untyped? ==> |p| <= max && |p| <= 0xFFFF)
  }

  /** A row the group can take: the schema's shape, every field within its cell. */
  predicate RowFits(sc: Schema, row: Bytes) {
    && |sc.maxBytes| == |sc.kinds| <= MAX_FIELDS && ParseFields(row).Some?
    && var fs := ParseFields(row).value;
       |fs| == |sc.kinds| && forall f :: 0 <= f < |fs| ==> FieldFits(sc.kinds[f], sc.maxBytes[f], fs[f])
  }

  /** The text a cell stands for. */
  function TextOf(k: Kind, cell: Bytes): Bytes {
    if k.Untyped? || cell == [] then cell else FormatTyped(k, FromBinary(k, cell))
  }

  function TextAt(sc: Schema, arena: Bytes, f: nat, slot: nat): Bytes
    requires SchemaOk(sc) && f < |sc.maxBytes| && slot < ROWS && Sized(sc, arena)
  {
    TextOf(sc.kinds[f], Stored(sc, arena, f, slot))
  }

  /** The texts of a slot, with those outside a selection emptied. */
  function Texts(sc: Schema, arena: Bytes, slot: nat, picked: nat -> bool, n: nat): (ts: seq<Bytes>)
    requires SchemaOk(sc) && slot < ROWS && Sized(sc, arena) && n <= |sc.maxBytes|
    ensures |ts| == n
    ensures forall f :: 0 <= f < n ==> ts[f] == if picked(f) then TextAt(sc, arena, f, slot) else []
  {
    seq(n, f requires 0 <= f < n => if picked(f) then TextAt(sc, arena, f, slot) else [])
  }

  /** All the texts of a slot. */
  function SlotRow(sc: Schema, arena: Bytes, slot: nat): (ts: seq<Bytes>)
    requires SchemaOk(sc) && slot < ROWS && Sized(sc, arena)
    ensures |ts| == |sc.kinds| && forall f :: 0 <= f < |ts| ==> ts[f] == TextAt(sc, arena, f, slot)
  {
    Texts(sc, arena, slot, _ => true, |sc.kinds|)
  }

  // ----- Acceptance --------------------------------------------------------------------------------

  /** What a column promises to take: text of its kind, of a number that fits. */
  predicate Promised(k: Kind, max: nat, p: Bytes) {
    if k.Dec64? && p != [] then ExactDec(p, k.scale).Some? else FieldFits(k, max, p)
  }

  /** A decimal past what the accumulator holds, of which 128 bits leave a number in range. */
  predicate Overflows(k: Kind, p: Bytes) {
    && k.Dec64? && p != [] && Magnitude(p, k.scale).Some? && Magnitude(p, k.scale).value >= TWO127
    && Narrow(Wrap128(DecValue(p, k.scale).value)).Some?
  }

  /** A column takes what it promises and decimals that overflow into its range, nothing else. */
  lemma FitsAsPromised(k: Kind, max: nat, p: Bytes)
    ensures FieldFits(k, max, p) <==> Promised(k, max, p) || Overflows(k, p)
    ensures !(Promised(k, max, p) && Overflows(k, p))
  {
    hide Magnitude, Wrap128;
    if k.Dec64? && p != [] && Magnitude(p, k.scale).Some? { ParseDecExact(p, k.scale); }
  }

  predicate RowPromised(sc: Schema, row: Bytes) {
    && |sc.maxBytes| == |sc.kinds| <= MAX_FIELDS && ParseFields(row).Some?
    && var fs := ParseFields(row).value;
       |fs| == |sc.kinds| && forall f :: 0 <= f < |fs| ==> Promised(sc.kinds[f], sc.maxBytes[f], fs[f])
  }

  /** The fields are as promised, except for at least one decimal that overflows into range. */
  predicate SomeOverflow(sc: Schema, row: Bytes) {
    && |sc.maxBytes| == |sc.kinds| <= MAX_FIELDS && ParseFields(row).Some?
    && var fs := ParseFields(row).value;
       && |fs| == |sc.kinds|
       && (forall f :: 0 <= f < |fs| ==> Promised(sc.kinds[f], sc.maxBytes[f], fs[f]) || Overflows(sc.kinds[f], fs[f]))
       && exists f :: 0 <= f < |fs| && Overflows(sc.kinds[f], fs[f])
  }

  /** So a row is taken exactly when it is promised or some decimal in it overflows into range. */
  lemma RowFitsAsPromised(sc: Schema, row: Bytes)
    ensures RowFits(sc, row) <==> RowPromised(sc, row) || SomeOverflow(sc, row)
    ensures !(RowPromised(sc, row) && SomeOverflow(sc, row))
  {
    hide ParseFields, FieldFits, Promised, Overflows;
    if |sc.maxBytes| == |sc.kinds| && ParseFields(row).Some? && |ParseFields(row).value| == |sc.kinds| {
      var fs := ParseFields(row).value;
      forall f | 0 <= f < |fs|
        ensures FieldFits(sc.kinds[f], sc.maxBytes[f], fs[f]) <==>
                Promised(sc.kinds[f], sc.maxBytes[f], fs[f]) || Overflows(sc.kinds[f], fs[f])
        ensures !(Promised(sc.kinds[f], sc.maxBytes[f], fs[f]) && Overflows(sc.kinds[f], fs[f]))
      {
        FitsAsPromised(sc.kinds[f], sc.maxBytes[f], fs[f]);
      }
    }
  }

  /** Does one field fit its cell? A decimal is read by the accumulator. */
  method CheckField(k: Kind, max: nat, p: Bytes) returns (ok: bool)
    ensures ok <==> FieldFits(k, max, p)
  {
    if k.Dec64? && p != [] {
      ghost var overflowed;
      var v;
      v, overflowed := ParseDecScaled(p, k.scale);
      return v.Some?;
    }
    return FieldFits(k, max, p);
  }

  // ----- Storing one cell ------------------------------------------------------------------------

  /** The arena after bytes are written at an offset. */
  function Overwritten(arena: Bytes, at: nat, b: Bytes): (r: Bytes)
    requires at + |b| <= |arena|
    ensures |r| == |arena|
  {
    arena[..at] + b + arena[at + |b|..]
  }

  lemma TwoByteLength(n: nat)
    requires n <= 0xFFFF
    ensures GetLe(PutLe(n, 2)) == n
  {
    assert Pow256(1) == 256 && Pow256(2) == 0x1_0000;
    LeRoundTrip(n, 2);
  }

  lemma StoredHere(sc: Schema, arena: Bytes, f: nat, slot: nat, content: Bytes)
    requires f < |sc.maxBytes| && slot < ROWS && Sized(sc, arena) && |content| <= sc.maxBytes[f] && |content| <= 0xFFFF
    ensures CellAt(sc, f, slot) + 2 + |content| <= |arena|
    ensures Stored(sc, Overwritten(arena, CellAt(sc, f, slot), PutLe(|content|, 2) + content), f, slot) == content
  {
    hide EndOf, CellAt, PutLe, GetLe, Overwritten;
    CellInside(sc, f, slot);
    TwoByteLength(|content|);
    OverwrittenReads(arena, CellAt(sc, f, slot), PutLe(|content|, 2), content);
  }

  lemma OverwrittenReads(arena: Bytes, at: nat, head: Bytes, content: Bytes)
    requires |head| == 2 && at + 2 + |content| <= |arena|
    ensures Overwritten(arena, at, head + content)[at..at + 2] == head
    ensures Overwritten(arena, at, head + content)[at + 2..at + 2 + |content|] == content
  {
  }

  lemma StoredElsewhere(sc: Schema, arena: Bytes, f: nat, slot: nat, b: Bytes, g: nat, t: nat)
    requires f < |sc.maxBytes| && slot < ROWS && Sized(sc, arena) && |b| <= Stride(sc, f)
    requires g < |sc.maxBytes| && t < ROWS && (f != g || slot != t)
    ensures CellAt(sc, f, slot) + |b| <= |arena|
    ensures Stored(sc, Overwritten(arena, CellAt(sc, f, slot), b), g, t) == Stored(sc, arena, g, t)
  {
    hide EndOf, CellAt, GetLe;
    CellInside(sc, f, slot);
    CellInside(sc, g, t);
    CellsApart(sc, f, slot, g, t);
    var at, other := CellAt(sc, f, slot), CellAt(sc, g, t);
    var r := Overwritten(arena, at, b);
    forall i | other <= i < other + Stride(sc, g) ensures r[i] == arena[i] { }
    assert r[other..other + 2] == arena[other..other + 2];
    var len := GetLe(arena[other..other + 2]);
    if len <= sc.maxBytes[g] { assert r[other + 2..other + 2 + len] == arena[other + 2..other + 2 + len]; }
  }

  // ----- The round trip ---------------------------------------------------------------------------

  function Contents(sc: Schema, row: Bytes): (cs: seq<Bytes>)
    requires RowFits(sc, row)
    ensures |cs| == |sc.kinds| && forall f :: 0 <= f < |cs| ==> cs[f] == Content(sc.kinds[f], ParseFields(row).value[f])
  {
    var fs := ParseFields(row).value;
    seq(|fs|, f requires 0 <= f < |fs| => Content(sc.kinds[f], fs[f]))
  }

  /** The row format is canonical and so is the text of every typed value. */
  predicate Canonical(sc: Schema, row: Bytes)
    requires RowFits(sc, row)
  {
    var fs := ParseFields(row).value;
    CanonicalRow(row) && forall f :: 0 <= f < |fs| ==> fs[f] == [] || CanonicalText(sc.kinds[f], fs[f])
  }

  function Rendered(sc: Schema, cs: seq<Bytes>): (ts: seq<Bytes>)
    requires |cs| == |sc.kinds|
    ensures |ts| == |cs| && forall f :: 0 <= f < |cs| ==> ts[f] == TextOf(sc.kinds[f], cs[f])
  {
    seq(|cs|, f requires 0 <= f < |cs| => TextOf(sc.kinds[f], cs[f]))
  }

  /** One field comes back as it was exactly when its text is canonical. */
  lemma FieldComesBack(k: Kind, p: Bytes)
    requires FieldParses(k, p)
    ensures TextOf(k, Content(k, p)) == p <==> p == [] || CanonicalText(k, p)
  {
    if !k.Untyped? && p != [] {
      TypedTextExact(k, p);
      assert |Binary(k, ParseTyped(k, p).value)| == Width(k) > 0;
    }
  }

  lemma {:induction false} DigitsLength(n: nat, k: nat)
    requires 1 <= k && n < Pow10(k)
    ensures |Digits(n)| <= k
  {
    if n >= 10 {
      assert Pow10(1) == 10 * Pow10(0);
      DigitsLength(n / 10, k - 1);
    }
  }

  lemma IntTextIsShort(v: int)
    requires -INT64_MAX - 1 <= v <= INT64_MAX
    ensures |Digits(if v < 0 then -v else v)| <= 20 && |IntText(v)| <= 21
  {
    TenToTheTwenty();
    DigitsLength(if v < 0 then -v else v, 20);
  }

  lemma DecTextIsShort(v: int, scale: nat)
    requires -INT64_MAX - 1 <= v <= INT64_MAX && scale < 128
    ensures |DecText(v, scale)| <= 200
  {
    hide Digits, Value;
    IntTextIsShort(v);
  }

  lemma TextIsShort(k: Kind, max: nat, p: Bytes)
    requires FieldFits(k, max, p) && (k.Dec64? ==> k.scale < 128)
    ensures |TextOf(k, Content(k, p))| < 0x1_0000_0000
  {
    hide Digits, Value, IntText, DecText, DateText, Binary, FromBinary, ParseTyped, DateShaped;
    if !k.Untyped? && p != [] {
      var v := ParseTyped(k, p).value;
      BinaryRoundTrip(k, v);
      match k
      case Int32 => IntTextIsShort(v);
      case Int64 => IntTextIsShort(v);
      case Date => DateIsShort(p);
      case Dec64(scale) => DecTextIsShort(v, scale);
    }
  }

  lemma DateIsShort(p: Bytes)
    requires ParseTyped(Date, p).Some?
    ensures ParseTyped(Date, p).value >= 0 && |DateText(ParseTyped(Date, p).value)| == 10
  {
    DateTextExact(p);
  }

  lemma TenToTheTwenty()
    ensures Pow10(20) > 0x8000_0000_0000_0000
  {
    assert Pow10(1) == 10 && Pow10(2) == 100 && Pow10(3) == 1000 && Pow10(4) == 10000 && Pow10(5) == 100000;
    assert Pow10(6) == 1000000 && Pow10(7) == 10000000 && Pow10(8) == 100000000 && Pow10(9) == 1000000000;
    assert Pow10(10) == 10000000000 && Pow10(11) == 100000000000 && Pow10(12) == 1000000000000;
    assert Pow10(13) == 10 * Pow10(12) && Pow10(14) == 10 * Pow10(13) && Pow10(15) == 10 * Pow10(14)
           && Pow10(16) == 10 * Pow10(15);
    assert Pow10(17) == 10 * Pow10(16) && Pow10(18) == 10 * Pow10(17) && Pow10(19) == 10 * Pow10(18)
           && Pow10(20) == 10 * Pow10(19);
  }

  /** A row the group takes is gathered byte for byte exactly when it is canonical. */
  lemma ScatterGatherExact(sc: Schema, row: Bytes)
    requires SchemaOk(sc) && RowFits(sc, row)
    ensures EncodeRow(Rendered(sc, Contents(sc, row))) == row <==> Canonical(sc, row)
  {
    hide ParseFields, EncodeRow, CanonicalRow, CanonicalText, FieldParses, TextOf, Content;
    var fs, ts := ParseFields(row).value, Rendered(sc, Contents(sc, row));
    forall f | 0 <= f < |fs|
      ensures |ts[f]| < 0x1_0000_0000 && (ts[f] == fs[f] <==> fs[f] == [] || CanonicalText(sc.kinds[f], fs[f]))
    {
      assert FieldFits(sc.kinds[f], sc.maxBytes[f], fs[f]);
      TextIsShort(sc.kinds[f], sc.maxBytes[f], fs[f]);
      FieldComesBack(sc.kinds[f], fs[f]);
    }
    RowRoundTrip(ts);
    RowExact(row);
    if Canonical(sc, row) { assert ts == fs; }
  }

  // ----- Gathering into a destination of some size ------------------------------------------------

  /** How many leading fields fit the destination. */
  function Fitting(ts: seq<Bytes>, size: nat): (n: nat)
    ensures n <= |ts| && |EncodeRow(ts[..n])| <= size && (n < |ts| ==> |EncodeRow(ts[..n + 1])| > size)
  {
    if ts == [] then 0
    else
      var k := |ts| - 1;
      var n := Fitting(ts[..k], size);
      assert ts[..k][..n] == ts[..n] && (n < k ==> ts[..k][..n + 1] == ts[..n + 1]) && ts[..k + 1] == ts;
      if n == k && |EncodeRow(ts)| <= size then |ts| else n
  }

  lemma {:induction false} FittingIs(ts: seq<Bytes>, size: nat, n: nat)
    requires n <= |ts| && |EncodeRow(ts[..n])| <= size && (n < |ts| ==> |EncodeRow(ts[..n + 1])| > size)
    ensures Fitting(ts, size) == n
  {
    hide EncodeRow;
    var m := Fitting(ts, size);
    if m < n { PrefixIsShorter(ts, m + 1, n); }
    if n < m { PrefixIsShorter(ts, n + 1, m); }
  }

  lemma PrefixIsShorter(ts: seq<Bytes>, a: nat, b: nat)
    requires a <= b <= |ts|
    ensures |EncodeRow(ts[..a])| <= |EncodeRow(ts[..b])|
  {
    hide EncodeRow;
    assert ts[..b] == ts[..a] + ts[a..b];
    EncodeConcat(ts[..a], ts[a..b]);
  }

  /** What a slot gives a destination of some size: whole leading fields. */
  function Gathered(ts: seq<Bytes>, size: nat): Bytes {
    EncodeRow(ts[..Fitting(ts, size)])
  }

  /**
   * A row stored and gathered into a destination of its own size comes back exactly when it is
   * canonical; a rendering that is longer is cut to whole fields, which are fewer than the row's.
   */
  lemma StoredRowComesBack(sc: Schema, row: Bytes)
    requires SchemaOk(sc) && RowFits(sc, row)
    ensures Gathered(Rendered(sc, Contents(sc, row)), |row|) == row <==> Canonical(sc, row)
  {
    hide ParseFields, EncodeRow, Canonical, Fitting, RowFits, TextOf, Content;
    var ts := Rendered(sc, Contents(sc, row));
    ScatterGatherExact(sc, row);
    var n := Fitting(ts, |row|);
    FieldCount(sc, row);
    if n == |ts| {
      assert ts[..n] == ts;
    } else {
      PrefixIsShorter(ts, n + 1, |ts|);
      assert ts[..|ts|] == ts;
      RowRoundTrip(ts[..n]);
    }
  }

  lemma FieldCount(sc: Schema, row: Bytes)
    requires SchemaOk(sc) && RowFits(sc, row)
    ensures ParseFields(row).Some? && |ParseFields(row).value| == |sc.kinds|
    ensures forall f :: 0 <= f < |sc.kinds| ==> |Rendered(sc, Contents(sc, row))[f]| < 0x1_0000_0000
  {
    hide ParseFields, TextOf, Content, FieldParses;
    forall f | 0 <= f < |sc.kinds| ensures |Rendered(sc, Contents(sc, row))[f]| < 0x1_0000_0000 {
      assert FieldFits(sc.kinds[f], sc.maxBytes[f], ParseFields(row).value[f]);
      TextIsShort(sc.kinds[f], sc.maxBytes[f], ParseFields(row).value[f]);
    }
  }

  // ----- The group ---------------------------------------------------------------------------------

  class PaxGroup {
    const schema: Schema
    const arena: array<Byte>
    var visible: seq<bool>

    ghost predicate Valid()
      reads this, arena
    {
      SchemaOk(schema) && Sized(schema, arena[..]) && |visible| == ROWS
    }

    /** What a strip reader sees: the rows of the visible slots. */
    ghost function StripRows(): map<nat, seq<Bytes>>
      requires Valid()
      reads this, arena
    {
      map s: nat | s < ROWS && visible[s] :: SlotRow(schema, arena[..], s)
    }

    constructor (schema: Schema)
      requires SchemaOk(schema)
      ensures Valid() && this.schema == schema && fresh(arena) && StripRows() == map[]
    {
      this.schema := schema;
      arena := new Byte[EndOf(schema, |schema.maxBytes|)](_ => 0);
      visible := seq(ROWS, _ => false);
    }

    /** Copy bytes into the arena. */
    method Store(at: nat, b: Bytes)
      requires at + |b| <= arena.Length
      modifies arena
      ensures arena[..] == Overwritten(old(arena[..]), at, b)
    {
      var i := 0;
      while i < |b|
        invariant 0 <= i <= |b| && arena[..] == old(arena[..at]) + b[..i] + old(arena[at + i..])
      {
        arena[at + i] := b[i];
        i := i + 1;
      }
      assert b[..i] == b;
    }

    /** Is every field of the row within its cell? Nothing is written before this is known. */
    method CheckRow(row: Bytes) returns (fields: Option<seq<Bytes>>)
      requires Valid()
      ensures fields.Some? <==> RowFits(schema, row)
      ensures fields.Some? ==> fields == ParseFields(row)
    {
      hide ParseFields, FieldFits;
      if |schema.maxBytes| > MAX_FIELDS { return None; }
      var refs := ParseRow(row, |schema.maxBytes|);
      if refs.None? || |refs.value| != |schema.maxBytes| { return None; }
      var f := 0;
      while f < |refs.value|
        invariant 0 <= f <= |refs.value|
        invariant forall g :: 0 <= g < f ==> FieldFits(schema.kinds[g], schema.maxBytes[g], refs.value[g])
      {
        var fits := CheckField(schema.kinds[f], schema.maxBytes[f], refs.value[f]);
        if !fits { return None; }
        f := f + 1;
      }
      return refs;
    }

    /**
     * A refused row changes nothing; an accepted one fills the cells of its slot and no other, and
     * a strip reader then sees its rendering in the slot and every other row as before. Rows are
     * accepted as promised, unless a decimal overflows into range.
     */
    method ScatterRow(slot: nat, row: Bytes) returns (ok: bool)
      requires Valid() && slot < ROWS
      modifies this`visible, arena
      ensures Valid() && (ok <==> RowFits(schema, row))
      ensures (ok <==> RowPromised(schema, row) || SomeOverflow(schema, row))
      ensures StripRows() == if ok then old(StripRows())[slot := Rendered(schema, Contents(schema, row))]
              else old(StripRows())
      ensures !ok ==> arena[..] == old(arena[..]) && visible == old(visible)
      ensures ok ==> visible == old(visible)[slot := true]
      ensures ok ==> forall f :: 0 <= f < |schema.kinds| ==>
          Stored(schema, arena[..], f, slot) == Contents(schema, row)[f]
      ensures forall f, s :: 0 <= f < |schema.kinds| && 0 <= s < ROWS && s != slot ==>
                Stored(schema, arena[..], f, s) == Stored(schema, old(arena[..]), f, s)
    {
      hide ParseFields, FieldFits, FieldParses, Content, EndOf, CellAt, Stored, Overwritten, RowPromised,
        SomeOverflow, TextOf;
      RowFitsAsPromised(schema, row);
      var fields := CheckRow(row);
      if fields.None? { return false; }
      ghost var before := arena[..];
      var f := 0;
      while f < |schema.maxBytes|
        invariant 0 <= f <= |schema.maxBytes| && Valid() && visible == old(visible)
        invariant forall g :: 0 <= g < f ==> Stored(schema, arena[..], g, slot) == Contents(schema, row)[g]
        invariant forall g, s :: 0 <= g < |schema.kinds| && 0 <= s < ROWS && s != slot ==>
                    Stored(schema, arena[..], g, s) == Stored(schema, before, g, s)
      {
        assert FieldFits(schema.kinds[f], schema.maxBytes[f], fields.value[f]);
        FitsParses(schema.kinds[f], schema.maxBytes[f], fields.value[f]);
        var content := Content(schema.kinds[f], fields.value[f]);
        ghost var now := arena[..];
        StoredHere(schema, now, f, slot, content);
        Store(CellAt(schema, f, slot), PutLe(|content|, 2) + content);
        forall g, s | 0 <= g < |schema.kinds| && 0 <= s < ROWS && (g != f || s != slot)
          ensures Stored(schema, arena[..], g, s) == Stored(schema, now, g, s)
        {
          StoredElsewhere(schema, now, f, slot, PutLe(|content|, 2) + content, g, s);
        }
        f := f + 1;
      }
      visible := visible[slot := true];
      SlotRendered(schema, arena[..], slot, row);
      forall s | 0 <= s < ROWS && s != slot ensures SlotRow(schema, arena[..], s) == SlotRow(schema, before, s) {
        SlotSame(schema, before, arena[..], s);
      }
      return true;
    }

    static lemma SlotRendered(sc: Schema, arena: Bytes, slot: nat, row: Bytes)
      requires SchemaOk(sc) && Sized(sc, arena) && slot < ROWS && RowFits(sc, row)
      requires forall f :: 0 <= f < |sc.kinds| ==> Stored(sc, arena, f, slot) == Contents(sc, row)[f]
      ensures SlotRow(sc, arena, slot) == Rendered(sc, Contents(sc, row))
    {
      hide RowFits, Stored, TextOf;
    }

    static lemma SlotSame(sc: Schema, before: Bytes, after: Bytes, s: nat)
      requires SchemaOk(sc) && Sized(sc, before) && Sized(sc, after) && s < ROWS
      requires forall f :: 0 <= f < |sc.kinds| ==> Stored(sc, after, f, s) == Stored(sc, before, f, s)
      ensures SlotRow(sc, after, s) == SlotRow(sc, before, s)
    {
      hide Stored, TextOf;
    }

    static lemma FitsParses(k: Kind, max: nat, p: Bytes)
      requires FieldFits(k, max, p) && (!k.Untyped? ==> max == Width(k))
      ensures FieldParses(k, p) && |Content(k, p)| <= max && |Content(k, p)| <= 0xFFFF
    {
    }

    /** A strip reader no longer sees the slot's row and sees every other as before; the cells stay. */
    method RetireSlot(slot: nat)
      requires Valid() && slot < ROWS
      modifies this`visible
      ensures Valid() && StripRows() == old(StripRows()) - {slot}
      ensures forall s :: 0 <= s < ROWS ==> SlotRow(schema, arena[..], s) == old(SlotRow(schema, arena[..], s))
    {
      visible := visible[slot := false];
    }

    /** The row of a slot, if it fits the expected size; else exactly the whole fields that do. */
    method GatherRow(slot: nat, expected: nat) returns (out: Bytes)
      requires Valid() && slot < ROWS
      ensures out == Gathered(SlotRow(schema, arena[..], slot), expected)
    {
      hide EndOf, Stored, EncodeRow, EncodeField, TextOf, Fitting;
      out := [];
      var f := 0;
      ghost var ts := SlotRow(schema, arena[..], slot);
      NothingEncoded();
      assert ts[..0] == [];
      while f < |schema.kinds|
        invariant 0 <= f <= |schema.kinds| && out == EncodeRow(ts[..f]) && |out| <= expected
      {
        var p := TextAt(schema, arena[..], f, slot);
        var field := EncodeField(p);
        assert ts[f] == p;
        EncodeRowStep(ts, f);
        if |out| + |field| > expected {
          FittingIs(ts, expected, f);
          return;
        }
        out := out + field;
        f := f + 1;
      }
      FittingIs(ts, expected, f);
    }

    /**
     * A row written and read back with the size it was written with: byte for byte itself exactly
     * when it is canonical.
     */
    method ScatterThenGather(slot: nat, row: Bytes) returns (ok: bool, out: Bytes)
      requires Valid() && slot < ROWS
      modifies this`visible, arena
      ensures Valid() && (ok <==> RowFits(schema, row)) && (!ok ==> StripRows() == old(StripRows()))
      ensures ok ==> (out == row <==> Canonical(schema, row))
    {
      hide RowFits, Canonical, Gathered, RowPromised, SomeOverflow, Stored, Sized, SchemaOk;
      out := [];
      ok := ScatterRow(slot, row);
      if ok {
        StoredRowComesBack(schema, row);
        assert slot in StripRows();
        out := GatherRow(slot, |row|);
      }
    }

    /** The null-flags field and the listed columns, the other fields emptied. */
    method GatherRowMasked(slot: nat, columns: seq<nat>) returns (out: Bytes)
      requires Valid() && slot < ROWS && |schema.kinds| >= 1
      requires forall i, j :: 0 <= i < j < |columns| ==> columns[i] < columns[j]
      ensures out == EncodeRow(Texts(schema, arena[..], slot, f => f == 0 || f - 1 in columns, |schema.kinds|))
    {
      hide EndOf, Stored, EncodeRow, TextOf, EncodeField;
      ghost var ts := Texts(schema, arena[..], slot, f => f == 0 || f - 1 in columns, |schema.kinds|);
      NothingEncoded();
      assert ts[..0] == [];
      EncodeRowStep(ts, 0);
      out := EncodeField(TextAt(schema, arena[..], 0, slot));
      assert ts[0] == TextAt(schema, arena[..], 0, slot);
      var c := 0;
      var f := 1;
      while f < |schema.kinds|
        invariant 1 <= f <= |schema.kinds| && 0 <= c <= |columns| && out == EncodeRow(ts[..f])
        invariant (forall i :: 0 <= i < c ==> columns[i] < f - 1) && (c < |columns| ==> columns[c] >= f - 1)
      {
        EncodeRowStep(ts, f);
        if c < |columns| && columns[c] + 1 == f {
          assert f - 1 in columns;
          out := out + EncodeField(TextAt(schema, arena[..], f, slot));
          c := c + 1;
        } else {
          NotListed(columns, c, f - 1);
          out := out + [NO_VALUE];
        }
        f := f + 1;
      }
      assert ts[..f] == ts;
    }

    static lemma NothingEncoded()
      ensures EncodeRow([]) == [] && EncodeField([]) == [NO_VALUE]
    {
    }

    /** Ascending columns that skip a column from the cursor on do not list it. */
    static lemma NotListed(columns: seq<nat>, c: nat, column: nat)
      requires forall i, j :: 0 <= i < j < |columns| ==> columns[i] < columns[j]
      requires c <= |columns| && (forall i :: 0 <= i < c ==> columns[i] < column)
      requires (c < |columns| ==> columns[c] > column)
      ensures column !in columns
    {
      forall i | 0 <= i < |columns| ensures columns[i] != column {
        if i > c { assert columns[c] < columns[i]; }
      }
    }
  }

  lemma {:induction false} EncodeRowStep(ts: seq<Bytes>, f: nat)
    requires f < |ts|
    ensures EncodeRow(ts[..f + 1]) == EncodeRow(ts[..f]) + EncodeField(ts[f])
    ensures EncodeRow(ts[..f + 1]) <= EncodeRow(ts)
  {
    hide EncodeField;
    EncodeConcat(ts[..f], [ts[f]]);
    assert ts[..f + 1] == ts[..f] + [ts[f]] && ts == ts[..f + 1] + ts[f + 1..];
    EncodeConcat(ts[..f + 1], ts[f + 1..]);
    assert EncodeRow([ts[f]]) == EncodeField(ts[f]) + EncodeRow([]);
  }

  lemma {:induction false} EncodeConcat(a: seq<Bytes>, b: seq<Bytes>)
    ensures EncodeRow(a + b) == EncodeRow(a) + EncodeRow(b)
  {
    hide EncodeField;
    if a == [] {
      assert a + b == b;
    } else {
      EncodeConcat(a[1..], b);
      assert (a + b)[1..] == a[1..] + b;
    }
  }
}
