/**
 * The proxy row format: fields with a minimal little-endian length prefix, 0xFF for no value.
 * Parsing accepts longer prefixes too, so re-encoding is exact on canonical rows only.
 */
module PaxRow {
  import opened Basics
  import opened PaxCodec

  const NO_VALUE: Byte := 255

  /** The minimal little-endian base-256 digits of a length. */
  function LengthBytes(n: nat): (b: Bytes)
    ensures GetLe(b) == n && (b != [] ==> b[|b| - 1] != 0) && (b == [] <==> n == 0)
  {
    if n == 0 then []
    else
      var b := [n % 256] + LengthBytes(n / 256);
      assert b[1..] == LengthBytes(n / 256);
      b
  }

  /** A length has one minimal prefix. */
  lemma {:induction false} LengthBytesUnique(b: Bytes)
    requires b != [] ==> b[|b| - 1] != 0
    ensures LengthBytes(GetLe(b)) == b
  {
    if b != [] {
      LengthBytesUnique(b[1..]);
      assert GetLe(b) % 256 == b[0] as int && GetLe(b) / 256 == GetLe(b[1..]);
    }
  }

  lemma {:induction false} LengthBytesShort(n: nat, k: nat)
    requires n < Pow256(k)
    ensures |LengthBytes(n)| <= k
  {
    if n > 0 && k > 0 { LengthBytesShort(n / 256, k - 1); }
  }

  function EncodeField(p: Bytes): Bytes {
    if p == [] then [NO_VALUE] else [|LengthBytes(|p|)| as int % 256] + LengthBytes(|p|) + p
  }

  function EncodeRow(fs: seq<Bytes>): Bytes {
    if fs == [] then [] else EncodeField(fs[0]) + EncodeRow(fs[1..])
  }

  /** The field at the front of some bytes, and how long its encoding is. */
  function FrontField(b: Bytes): (r: Option<(Bytes, nat)>)
    requires b != []
    ensures r.Some? ==> 0 < r.value.1 <= |b|
  {
    if b[0] == NO_VALUE then Some(([], 1))
    else if b[0] > 4 || 1 + b[0] as int > |b| then None
    else
      var k: nat := b[0];
      var n := GetLe(b[1..1 + k]);
      if 1 + k + n > |b| then None else Some((b[1 + k..1 + k + n], 1 + k + n))
  }

  function ParseFields(b: Bytes): (r: Option<seq<Bytes>>)
    decreases |b|
  {
    if b == [] then Some([])
    else
      match FrontField(b)
      case None => None
      case Some(f) =>
        match ParseFields(b[f.1..])
        case None => None
        case Some(rest) => Some([f.0] + rest)
  }

  /** No value is 0xFF, and a length prefix has no idle high byte. */
  predicate CanonicalFront(b: Bytes)
    requires b != []
  {
    b[0] == NO_VALUE || (1 <= b[0] <= 4 && 1 + b[0] as int <= |b| && b[b[0]] != 0)
  }

  predicate CanonicalRow(b: Bytes)
    decreases |b|
  {
    b == [] || (CanonicalFront(b) && FrontField(b).Some? && CanonicalRow(b[FrontField(b).value.1..]))
  }

  lemma LengthOfField(n: nat)
    requires n < 0x1_0000_0000
    ensures |LengthBytes(n)| <= 4
  {
    assert Pow256(1) == 256 && Pow256(2) == 0x1_0000 && Pow256(3) == 0x100_0000 && Pow256(4) == 0x1_0000_0000;
    LengthBytesShort(n, 4);
  }

  /** An encoded field is read back, whatever follows it. */
  lemma FieldRoundTrip(p: Bytes, rest: Bytes)
    requires |p| < 0x1_0000_0000
    ensures FrontField(EncodeField(p) + rest) == Some((p, |EncodeField(p)|)) && CanonicalFront(EncodeField(p) + rest)
  {
    hide LengthBytes, GetLe;
    if p != [] {
      var l := LengthBytes(|p|);
      LengthOfField(|p|);
      var b := EncodeField(p) + rest;
      assert b[1..1 + |l|] == l;
      assert b[1 + |l|..1 + |l| + |p|] == p;
      assert b[|l|] == l[|l| - 1];
    }
  }

  /** Every row of encodable fields is parsed back. */
  lemma {:induction false} RowRoundTrip(fs: seq<Bytes>)
    requires forall i :: 0 <= i < |fs| ==> |fs[i]| < 0x1_0000_0000
    ensures ParseFields(EncodeRow(fs)) == Some(fs) && CanonicalRow(EncodeRow(fs))
  {
    if fs != [] {
      RowRoundTrip(fs[1..]);
      var b := EncodeRow(fs);
      FieldRoundTrip(fs[0], EncodeRow(fs[1..]));
      assert b[|EncodeField(fs[0])|..] == EncodeRow(fs[1..]);
      assert [fs[0]] + fs[1..] == fs;
    }
  }

  lemma {:induction false} GetLeBound(b: Bytes)
    ensures GetLe(b) < Pow256(|b|)
  {
    if b != [] { GetLeBound(b[1..]); }
  }

  lemma FrontIsShort(b: Bytes)
    requires b != [] && FrontField(b).Some?
    ensures |FrontField(b).value.0| < 0x1_0000_0000
  {
    if b[0] != NO_VALUE {
      GetLeBound(b[1..1 + b[0] as int]);
      assert Pow256(0) == 1 && Pow256(1) == 256 && Pow256(2) == 0x1_0000 && Pow256(3) == 0x100_0000
             && Pow256(4) == 0x1_0000_0000;
    }
  }

  lemma CanonicalIsEncoding(b: Bytes)
    requires b != [] && FrontField(b).Some? && CanonicalFront(b)
    ensures EncodeField(FrontField(b).value.0) == b[..FrontField(b).value.1]
  {
    hide LengthBytes, GetLe, FrontField;
    FrontParts(b);
    if b[0] != NO_VALUE {
      var k: nat := b[0];
      var l := b[1..1 + k];
      assert l[k - 1] == b[k];
      LengthBytesUnique(l);
      assert LengthBytes(|FrontField(b).value.0|) == l;
    }
  }

  lemma FrontParts(b: Bytes)
    requires b != [] && FrontField(b).Some?
    ensures b[0] == NO_VALUE ==> FrontField(b).value.0 == [] && b[..FrontField(b).value.1] == [NO_VALUE]
    ensures b[0] != NO_VALUE ==>
              var f := FrontField(b).value;
              && 1 + b[0] as int <= |b| && GetLe(b[1..1 + b[0] as int]) == |f.0|
              && b[..f.1] == [b[0]] + b[1..1 + b[0] as int] + f.0
  {
  }

  /** The bytes a field was read from are its encoding exactly when they are canonical. */
  lemma FieldExact(b: Bytes)
    requires b != [] && FrontField(b).Some?
    ensures EncodeField(FrontField(b).value.0) == b[..FrontField(b).value.1] <==> CanonicalFront(b)
  {
    hide FrontField, EncodeField, CanonicalFront;
    var f := FrontField(b).value;
    if CanonicalFront(b) { CanonicalIsEncoding(b); }
    FrontIsShort(b);
    FieldRoundTrip(f.0, b[f.1..]);
    assert b == b[..f.1] + b[f.1..];
  }

  /** Parsing a row is undone by encoding exactly on canonical rows. */
  lemma {:induction false} RowExact(b: Bytes)
    requires ParseFields(b).Some?
    ensures EncodeRow(ParseFields(b).value) == b <==> CanonicalRow(b)
    decreases |b|
  {
    hide FrontField, CanonicalFront, EncodeField, ParseFields, CanonicalRow, EncodeRow;
    if b == [] {
      EmptyRow();
    } else {
      FrontOfRow(b);
      var f := FrontField(b).value;
      RowExact(b[f.1..]);
      FrontExact(b, EncodeRow(ParseFields(b[f.1..]).value));
    }
  }

  lemma EmptyRow()
    ensures ParseFields([]) == Some([]) && EncodeRow([]) == [] && CanonicalRow([])
  {
  }

  /** A parsed row is its front field and the row after it, and so are its encoding and its canonicity. */
  lemma FrontOfRow(b: Bytes)
    requires b != [] && ParseFields(b).Some?
    ensures FrontField(b).Some? && 0 < FrontField(b).value.1 <= |b|
    ensures var f := FrontField(b).value;
            && ParseFields(b[f.1..]).Some?
            && EncodeRow(ParseFields(b).value) == EncodeField(f.0) + EncodeRow(ParseFields(b[f.1..]).value)
            && (CanonicalRow(b) <==> CanonicalFront(b) && CanonicalRow(b[f.1..]))
  {
    hide FrontField, CanonicalFront, EncodeField;
    var f := FrontField(b).value;
    var fs := ParseFields(b[f.1..]).value;
    assert ParseFields(b).value == [f.0] + fs;
    assert ([f.0] + fs)[1..] == fs;
  }

  /** A row is its front field encoded, and something, exactly when its front is canonical and the rest is that. */
  lemma FrontExact(b: Bytes, rest: Bytes)
    requires b != [] && FrontField(b).Some? && FrontField(b).value.1 <= |b|
    ensures var f := FrontField(b).value;
            EncodeField(f.0) + rest == b <==> CanonicalFront(b) && rest == b[f.1..]
  {
    hide FrontField, CanonicalFront, EncodeField;
    var f := FrontField(b).value;
    FieldExact(b);
    FrontIsShort(b);
    assert b == b[..f.1] + b[f.1..];
    if EncodeField(f.0) + rest == b { FrontEncodings(b, f.0, rest); }
  }

  /** If a row equals an encoded field followed by something, that field is its front. */
  lemma FrontEncodings(b: Bytes, p: Bytes, rest: Bytes)
    requires b != [] && FrontField(b).Some? && FrontField(b).value.0 == p && b == EncodeField(p) + rest
    requires |p| < 0x1_0000_0000
    ensures EncodeField(p) == b[..FrontField(b).value.1] && rest == b[FrontField(b).value.1..]
  {
    hide FrontField, EncodeField;
    FieldRoundTrip(p, rest);
  }

  /** The fields read so far in front of what is left to parse. */
  function Before(done: seq<Bytes>, rest: Option<seq<Bytes>>): Option<seq<Bytes>> {
    if rest.None? then None else Some(done + rest.value)
  }

  lemma ParseStep(b: Bytes, off: nat, done: seq<Bytes>)
    requires off < |b|
    ensures FrontField(b[off..]).None? ==> ParseFields(b[off..]).None?
    ensures FrontField(b[off..]).Some? ==>
              var f := FrontField(b[off..]).value;
              off + f.1 <= |b| && Before(done, ParseFields(b[off..]))
                  == Before(done + [f.0], ParseFields(b[off + f.1..]))
  {
    var rest := b[off..];
    if FrontField(rest).Some? {
      var f := FrontField(rest).value;
      assert rest[f.1..] == b[off + f.1..];
      if ParseFields(rest[f.1..]).Some? {
        assert (done + [f.0]) + ParseFields(rest[f.1..]).value == done + ([f.0] + ParseFields(rest[f.1..]).value);
      }
    }
  }

  /** Parse a row of at most so many fields. */
  method ParseRow(row: Bytes, maxFields: nat) returns (r: Option<seq<Bytes>>)
    ensures r == if ParseFields(row).Some? && |ParseFields(row).value| <= maxFields then ParseFields(row) else None
  {
    hide FrontField, ParseFields;
    var off: nat, fields: seq<Bytes> := 0, [];
    assert row[0..] == row;
    assert ParseFields(row).Some? ==> [] + ParseFields(row).value == ParseFields(row).value;
    while off < |row|
      invariant off <= |row| && |fields| <= maxFields && Before(fields, ParseFields(row[off..])) == ParseFields(row)
      decreases |row| - off
    {
      ParseStep(row, off, fields);
      if |fields| == maxFields {
        TooMany(row[off..]);
        return None;
      }
      var f := FrontField(row[off..]);
      if f.None? { return None; }
      fields := fields + [f.value.0];
      off := off + f.value.1;
    }
    assert row[off..] == [];
    NoFields();
    assert fields + [] == fields;
    return Some(fields);
  }

  lemma NoFields()
    ensures ParseFields([]) == Some([])
  {
  }

  lemma TooMany(b: Bytes)
    requires b != []
    ensures ParseFields(b).Some? ==> |ParseFields(b).value| >= 1
  {
  }
}
