/**
 * The typed cell codec: column text in, fixed-width binary in the strip, text out again. Parsing
 * accepts more spellings than formatting produces, so the round trip is exact on canonical text
 * and on nothing else.
 */
module PaxCodec {
  import opened Basics

  const ZERO: Byte := 48
  const MINUS: Byte := 45
  const PLUS: Byte := 43
  const DOT: Byte := 46
  const INT32_MAX: int := 0x7fff_ffff
  const INT64_MAX: int := 0x7fff_ffff_ffff_ffff
  const TWO127: int := 0x8000_0000_0000_0000_0000_0000_0000_0000
  const TWO128: int := 0x1_0000_0000_0000_0000_0000_0000_0000_0000

  datatype Kind = Untyped | Int32 | Int64 | Date | Dec64(scale: nat)

  // ----- Digits -------------------------------------------------------------------------------

  predicate IsDigit(b: Byte) {
    48 <= b <= 57
  }

  predicate AllDigits(s: Bytes) {
    forall i :: 0 <= i < |s| ==> IsDigit(s[i])
  }

  function Value(s: Bytes): (v: nat)
    requires AllDigits(s)
  {
    if s == [] then 0 else 10 * Value(s[..|s| - 1]) + (s[|s| - 1] as int - 48)
  }

  function Digits(n: nat): (s: Bytes)
    ensures AllDigits(s) && s != [] && (|s| > 1 ==> s[0] != ZERO) && Value(s) == n
  {
    if n < 10 then [48 + n]
    else
      var s := Digits(n / 10) + [48 + n % 10];
      assert s[..|s| - 1] == Digits(n / 10);
      s
  }

  function Zeros(n: nat): (s: Bytes)
    ensures |s| == n && AllDigits(s) && forall i :: 0 <= i < n ==> s[i] == ZERO
  {
    seq(n, i => ZERO)
  }

  /** Digits padded with zeroes on the left to at least k places. */
  function Padded(s: Bytes, k: nat): (r: Bytes)
    requires AllDigits(s)
    ensures AllDigits(r) && |r| >= k && |r| >= |s|
  {
    if |s| >= k then s else Zeros(k - |s|) + s
  }

  lemma {:induction false} ValueOfZeros(n: nat, s: Bytes)
    requires AllDigits(s)
    ensures AllDigits(Zeros(n) + s) && Value(Zeros(n) + s) == Value(s)
  {
    if s == [] {
      if n > 0 {
        ValueOfZeros(n - 1, s);
        assert (Zeros(n) + s)[..n - 1] == Zeros(n - 1) + s;
      }
    } else {
      ValueOfZeros(n, s[..|s| - 1]);
      assert (Zeros(n) + s)[..n + |s| - 1] == Zeros(n) + s[..|s| - 1];
    }
  }

  /** A number has one spelling without leading zeroes. */
  lemma {:induction false} DigitsUnique(s: Bytes)
    requires AllDigits(s) && s != [] && (|s| > 1 ==> s[0] != ZERO)
    ensures Digits(Value(s)) == s && (s[0] != ZERO ==> Value(s) > 0)
  {
    if |s| > 1 {
      var t := s[..|s| - 1];
      DigitsUnique(t);
      assert Value(t) > 0;
      assert Value(s) / 10 == Value(t) && Value(s) % 10 == s[|s| - 1] as int - 48;
    }
  }

  /** With a fixed number of places a number has one spelling; beyond them no leading zero. */
  lemma {:induction false} PaddedUnique(s: Bytes, k: nat)
    requires AllDigits(s) && |s| >= k >= 1 && (|s| > k ==> s[0] != ZERO)
    ensures Padded(Digits(Value(s)), k) == s
  {
    if s[0] != ZERO || |s| == 1 {
      DigitsUnique(s);
    } else {
      hide Digits, Value, Padded, Zeros;
      PaddedUnique(s[1..], k - 1);
      LeadingZero(s);
      PadMore(Digits(Value(s)), k - 1);
    }
  }

  lemma LeadingZero(s: Bytes)
    requires AllDigits(s) && s != [] && s[0] == ZERO
    ensures s == [ZERO] + s[1..] && Value(s) == Value(s[1..])
  {
    ValueOfZeros(1, s[1..]);
    assert s == Zeros(1) + s[1..];
  }

  /** One place more is one zero more in front, for text that leaves a place. */
  lemma PadMore(s: Bytes, k: nat)
    requires AllDigits(s) && |s| <= k
    ensures Padded(s, k + 1) == [ZERO] + Padded(s, k)
  {
    assert Zeros(k + 1 - |s|) == [ZERO] + Zeros(k - |s|);
  }

  // ----- Integers ------------------------------------------------------------------------------

  function IntText(v: int): Bytes {
    if v < 0 then [MINUS] + Digits(-v) else Digits(v)
  }

  function Unsigned(s: Bytes): Bytes {
    if s != [] && s[0] == MINUS then s[1..] else s
  }

  /** An optional minus and digits, as a number. */
  function ParseInt(s: Bytes, max: int): (r: Option<int>)
    ensures r.Some? ==> -max - 1 <= r.value <= max
  {
    var body := Unsigned(s);
    if body == [] || !AllDigits(body) then None
    else
      var v: int := if |body| < |s| then -(Value(body) as int) else Value(body);
      if -max - 1 <= v <= max then Some(v) else None
  }

  /** No leading zero, and no minus before zero. */
  predicate CanonicalInt(s: Bytes) {
    var body := Unsigned(s);
    body != [] && AllDigits(body) && (|body| > 1 ==> body[0] != ZERO) && (|body| < |s| ==> body != [ZERO])
  }

  lemma IntTextIsCanonical(v: int)
    ensures CanonicalInt(IntText(v))
    ensures Unsigned(IntText(v)) == Digits(if v < 0 then -v else v)
  {
    var n := if v < 0 then -v else v;
    assert IntText(v)[0] == MINUS <==> v < 0;
    if v < 0 { assert IntText(v)[1..] == Digits(n) && Value([ZERO]) == 0; }
  }

  /** Formatting is undone by parsing, for every number in range. */
  lemma IntRoundTrip(v: int, max: int)
    requires -max - 1 <= v <= max
    ensures ParseInt(IntText(v), max) == Some(v)
  {
    IntTextIsCanonical(v);
  }

  /** Parsing is undone by formatting exactly on canonical text. */
  lemma IntTextExact(s: Bytes, max: int)
    requires ParseInt(s, max).Some?
    ensures IntText(ParseInt(s, max).value) == s <==> CanonicalInt(s)
  {
    hide Digits, Value;
    var body := Unsigned(s);
    var v := ParseInt(s, max).value;
    IntTextIsCanonical(v);
    if CanonicalInt(s) {
      DigitsUnique(body);
      if |body| < |s| { assert s == [MINUS] + body; }
    }
  }

  // ----- Dates ---------------------------------------------------------------------------------

  function Field(n: nat, k: nat): Bytes {
    Padded(Digits(n), k)
  }

  function DateText(v: nat): Bytes {
    Field(v / 10000, 4) + [MINUS] + Field(v / 100 % 100, 2) + [MINUS] + Field(v % 100, 2)
  }

  predicate DateShaped(s: Bytes) {
    |s| == 10 && s[4] == MINUS && s[7] == MINUS && AllDigits(s[..4]) && AllDigits(s[5..7]) && AllDigits(s[8..])
  }

  function ParseDate(s: Bytes): (r: Option<int>) {
    if !DateShaped(s) then None else Some(Value(s[..4]) * 10000 + Value(s[5..7]) * 100 + Value(s[8..]))
  }

  lemma TwoDigits(s: Bytes)
    requires |s| == 2 && AllDigits(s)
    ensures Value(s) < 100 && Field(Value(s), 2) == s
  {
    assert s[..1] == [s[0]] && s[..1][..0] == [];
    PaddedUnique(s, 2);
  }

  lemma FourDigits(s: Bytes)
    requires |s| == 4 && AllDigits(s)
    ensures Value(s) < 10000 && Field(Value(s), 4) == s
  {
    assert s[..3][..2] == s[..2];
    TwoDigits(s[..2]);
    PaddedUnique(s, 4);
  }

  /** Every date-shaped text comes back as it was, whatever month and day it names, and fits 32 bits. */
  lemma DateTextExact(s: Bytes)
    requires ParseDate(s).Some?
    ensures 0 <= ParseDate(s).value <= INT32_MAX && DateText(ParseDate(s).value) == s
  {
    FourDigits(s[..4]);
    TwoDigits(s[5..7]);
    TwoDigits(s[8..]);
    var y, m, d := Value(s[..4]), Value(s[5..7]), Value(s[8..]);
    var v := y * 10000 + m * 100 + d;
    assert v / 10000 == y && v / 100 == y * 100 + m && v / 100 % 100 == m && v % 100 == d;
    assert s == s[..4] + [MINUS] + s[5..7] + [MINUS] + s[8..];
  }

  // ----- Scaled decimals -------------------------------------------------------------------------

  function Pow10(n: nat): (p: nat)
    ensures p >= 1
  {
    if n == 0 then 1 else 10 * Pow10(n - 1)
  }

  function DecBody(n: nat, scale: nat): Bytes {
    var d := Padded(Digits(n), scale + 1);
    if scale == 0 then d else d[..|d| - scale] + [DOT] + d[|d| - scale..]
  }

  function DecText(v: int, scale: nat): Bytes {
    if v < 0 then [MINUS] + DecBody(-v, scale) else DecBody(v, scale)
  }

  function Unsigned2(s: Bytes): Bytes {
    if s != [] && (s[0] == MINUS || s[0] == PLUS) then s[1..] else s
  }

  /** Position of the first dot, or the length. */
  function DotAt(s: Bytes): (i: nat)
    ensures i <= |s| && (i < |s| ==> s[i] == DOT) && forall j :: 0 <= j < i ==> s[j] != DOT
  {
    if s == [] || s[0] == DOT then 0 else 1 + DotAt(s[1..])
  }

  function Fraction(s: Bytes): Bytes {
    if DotAt(s) == |s| then [] else s[DotAt(s) + 1..]
  }

  function Whole(s: Bytes): Bytes {
    s[..DotAt(s)]
  }

  /** Sign, digits, at most one dot, no more fractional digits than the scale: the magnitude, scaled exactly. */
  function Magnitude(s: Bytes, scale: nat): Option<nat> {
    var body := Unsigned2(s);
    var w, f := Whole(body), Fraction(body);
    if !AllDigits(w) || !AllDigits(f) || w + f == [] || |f| > scale then None
    else Some(Value(w + f) * Pow10(scale - |f|))
  }

  /** The number a decimal text stands for, of any size. */
  function DecValue(s: Bytes, scale: nat): Option<int> {
    var m := Magnitude(s, scale);
    if m.None? then None else Some(if s != [] && s[0] == MINUS then -(m.value as int) else m.value as int)
  }

  function Narrow(v: int): Option<int> {
    if -INT64_MAX - 1 <= v <= INT64_MAX then Some(v) else None
  }

  /** What a decimal column promises to accept: the number, if it fits 64 bits. */
  function ExactDec(s: Bytes, scale: nat): Option<int> {
    var v := DecValue(s, scale);
    if v.None? then None else Narrow(v.value)
  }

  /** What 128-bit two's-complement arithmetic leaves of a number. */
  function Wrap128(v: int): (r: int)
    ensures -TWO127 <= r < TWO127
  {
    (v + TWO127) % TWO128 - TWO127
  }

  /** What is accepted: the number as the 128-bit accumulator holds it, if that fits 64 bits. */
  function ParseDec(s: Bytes, scale: nat): (r: Option<int>)
    ensures r.Some? ==> -INT64_MAX - 1 <= r.value <= INT64_MAX
  {
    var v := DecValue(s, scale);
    if v.None? then None else Narrow(Wrap128(v.value))
  }

  lemma WrapIsCongruent(v: int) returns (k: int)
    ensures Wrap128(v) == v + k * TWO128
  {
    k := -((v + TWO127) / TWO128);
  }

  lemma WrapForgets(v: int, k: int)
    ensures Wrap128(v + k * TWO128) == Wrap128(v)
  {
  }

  lemma WrapInRange(v: int)
    requires -TWO127 <= v < TWO127
    ensures Wrap128(v) == v
  {
  }

  /** Shifting in a digit commutes with wrapping. */
  lemma WrapStep(v: int, d: int)
    ensures Wrap128(10 * Wrap128(v) + d) == Wrap128(10 * v + d)
  {
    hide Wrap128;
    var k := WrapIsCongruent(v);
    assert 10 * Wrap128(v) + d == (10 * v + d) + (10 * k) * TWO128;
    WrapForgets(10 * v + d, 10 * k);
  }

  lemma WrapNegates(v: int)
    ensures Wrap128(-Wrap128(v)) == Wrap128(-v)
  {
    hide Wrap128;
    var k := WrapIsCongruent(v);
    WrapForgets(-v, -k);
  }

  /**
   * Acceptance is as promised exactly while the magnitude is below 2^127 or what 128 bits leave of
   * the number is out of range.
   */
  lemma ParseDecExact(s: Bytes, scale: nat)
    requires Magnitude(s, scale).Some?
    ensures ParseDec(s, scale) == ExactDec(s, scale) <==>
              Magnitude(s, scale).value < TWO127 || Narrow(Wrap128(DecValue(s, scale).value)).None?
  {
    hide Magnitude, Wrap128;
    if Magnitude(s, scale).value < TWO127 { WrapInRange(DecValue(s, scale).value); }
  }

  /** Exactly the declared fractional digits, no leading zero, no plus, no minus before zero. */
  predicate CanonicalDec(s: Bytes, scale: nat) {
    var body := Unsigned(s);
    var w, f := Whole(body), Fraction(body);
    && AllDigits(w) && AllDigits(f) && w != [] && |f| == scale && (|w| > 1 ==> w[0] != ZERO)
    && (DotAt(body) < |body| <==> scale > 0) && (|body| < |s| ==> Value(w + f) != 0)
  }

  /** Splitting a formatted magnitude finds the dot where it was put. */
  lemma DecBodySplits(n: nat, scale: nat)
    ensures var d, b := Padded(Digits(n), scale + 1), DecBody(n, scale);
            && Whole(b) == d[..|d| - scale] && Fraction(b) == d[|d| - scale..] && (DotAt(b) < |b| <==> scale > 0)
            && b != [] && b[0] != MINUS && b[0] != PLUS
  {
    hide Value, Digits;
    var d, b := Padded(Digits(n), scale + 1), DecBody(n, scale);
    var k := |d| - scale;
    assert forall i :: 0 <= i < k ==> b[i] == d[i] && IsDigit(d[i]);
    if scale > 0 { assert b[k] == DOT; }
    assert DotAt(b) == k;
  }

  lemma PaddedValue(n: nat, k: nat)
    requires k >= 1
    ensures Value(Padded(Digits(n), k)) == n
    ensures |Padded(Digits(n), k)| > k ==> Padded(Digits(n), k)[0] != ZERO
  {
    if |Digits(n)| < k { ValueOfZeros(k - |Digits(n)|, Digits(n)); }
  }

  /** What a formatted magnitude is made of. */
  lemma DecBodyParts(n: nat, scale: nat)
    ensures var b := DecBody(n, scale);
            var w, f := Whole(b), Fraction(b);
            && AllDigits(w) && AllDigits(f) && w != [] && |f| == scale && (|w| > 1 ==> w[0] != ZERO)
               && Value(w + f) == n
            && (DotAt(b) < |b| <==> scale > 0) && b != [] && b[0] != MINUS && b[0] != PLUS
  {
    hide Value, Digits, DecBody, DotAt;
    var d := Padded(Digits(n), scale + 1);
    DecBodySplits(n, scale);
    PaddedValue(n, scale + 1);
    assert d == d[..|d| - scale] + d[|d| - scale..];
  }

  lemma DecTextIsCanonical(v: int, scale: nat)
    ensures CanonicalDec(DecText(v, scale), scale)
    ensures Unsigned(DecText(v, scale)) == DecBody(if v < 0 then -v else v, scale)
  {
    hide Value, Digits, DecBody, DotAt, Whole, Fraction;
    var n := if v < 0 then -v else v;
    DecBodyParts(n, scale);
    if v < 0 { assert DecText(v, scale)[1..] == DecBody(n, scale); }
  }

  /** Formatting a scaled number is undone by parsing, for every 64-bit number. */
  lemma DecRoundTrip(v: int, scale: nat)
    requires -INT64_MAX - 1 <= v <= INT64_MAX
    ensures ParseDec(DecText(v, scale), scale) == Some(v)
  {
    hide DecValue, DecText, Wrap128;
    DecTextValue(v, scale);
    WrapInRange(v);
  }

  /**
   * Numbers that are out of range for the column but a multiple of 2^128 away from one in range
   * are accepted as that one, at every scale.
   */
  lemma OverflowIsAccepted(q: int, r: int, scale: nat)
    requires q != 0 && -INT64_MAX - 1 <= r <= INT64_MAX
    ensures var s := DecText(q * TWO128 + r, scale); ParseDec(s, scale) == Some(r) && ExactDec(s, scale) == None
  {
    hide DecValue, DecText, Wrap128;
    DecTextValue(q * TWO128 + r, scale);
    WrapForgets(r, q);
    WrapInRange(r);
  }

  /** The text of a number of any size stands for that number. */
  lemma DecTextValue(v: int, scale: nat)
    ensures DecValue(DecText(v, scale), scale) == Some(v)
  {
    hide Value, Digits, DecBody, DotAt, Whole, Fraction;
    var n := if v < 0 then -v else v;
    DecBodyParts(n, scale);
    if v < 0 { assert DecText(v, scale)[1..] == DecBody(n, scale); }
    assert Unsigned2(DecText(v, scale)) == DecBody(n, scale);
    assert Pow10(0) == 1;
  }

  /** Parsing a decimal is undone by formatting exactly on canonical text of numbers that fit 64 bits. */
  lemma DecTextExact(s: Bytes, scale: nat)
    requires ParseDec(s, scale).Some?
    ensures DecText(ParseDec(s, scale).value, scale) == s <==> CanonicalDec(s, scale) && ExactDec(s, scale).Some?
  {
    hide DecValue, DecText, Wrap128, CanonicalDec;
    var v := ParseDec(s, scale).value;
    DecTextIsCanonical(v, scale);
    DecTextValue(v, scale);
    if CanonicalDec(s, scale) && ExactDec(s, scale).Some? {
      WrapInRange(DecValue(s, scale).value);
      CanonicalDecComesBack(s, scale);
    }
  }

  lemma CanonicalDecComesBack(s: Bytes, scale: nat)
    requires DecValue(s, scale).Some? && CanonicalDec(s, scale)
    ensures DecText(DecValue(s, scale).value, scale) == s
  {
    hide Value, Digits, DotAt, Padded, DecBody;
    var body := Unsigned(s);
    var w, f := Whole(body), Fraction(body);
    assert body[0] == w[0] && IsDigit(w[0]);
    assert Unsigned2(s) == body;
    assert Pow10(0) == 1;
    BodyOfParts(body, scale);
    if |body| < |s| { assert s == [MINUS] + body; }
  }

  /** Canonical digits around a dot are the formatted body of their value. */
  lemma BodyOfParts(body: Bytes, scale: nat)
    requires var w, f := Whole(body), Fraction(body);
             && AllDigits(w) && AllDigits(f) && w != [] && |f| == scale && (|w| > 1 ==> w[0] != ZERO)
             && (DotAt(body) < |body| <==> scale > 0)
    ensures DecBody(Value(Whole(body) + Fraction(body)), scale) == body
  {
    hide Value, Digits;
    var w, f := Whole(body), Fraction(body);
    var d := w + f;
    PaddedUnique(d, scale + 1);
    assert d[..|d| - scale] == w && d[|d| - scale..] == f;
    if scale == 0 {
      assert body == w && d == w;
    } else {
      assert body == w + [DOT] + f;
    }
  }

  // ----- The accumulator loops --------------------------------------------------------------------

  lemma ValueStep(s: Bytes, b: Byte)
    requires AllDigits(s) && IsDigit(b)
    ensures AllDigits(s + [b]) && Value(s + [b]) == 10 * Value(s) + (b as int - 48)
  {
    assert (s + [b])[..|s|] == s;
  }

  /** Digits read so far, the dot and everything before it skipped. */
  function Read(body: Bytes, i: nat, dot: int): Bytes
    requires i <= |body| && -1 <= dot < i
  {
    if dot < 0 then body[..i] else body[..dot] + body[dot + 1..i]
  }

  /** The scan of a body up to i: one dot at most, digits otherwise, the number read so far. */
  ghost predicate Scanned(body: Bytes, i: nat, dot: int, m: nat, fdig: nat, any: bool) {
    && i <= |body| && -1 <= dot < i && (dot >= 0 ==> body[dot] == DOT)
    && (forall j :: 0 <= j < i && j != dot ==> IsDigit(body[j]))
    && AllDigits(Read(body, i, dot)) && m == Value(Read(body, i, dot))
    && fdig == (if dot >= 0 then i - dot - 1 else 0) && (any <==> Read(body, i, dot) != [])
  }

  lemma ScanDot(body: Bytes, i: nat, m: nat, any: bool)
    requires Scanned(body, i, -1, m, 0, any) && i < |body| && body[i] == DOT
    ensures Scanned(body, i + 1, i, m, 0, any)
  {
    assert Read(body, i + 1, i) == Read(body, i, -1);
  }

  lemma ScanDigit(body: Bytes, i: nat, dot: int, m: nat, fdig: nat, any: bool)
    requires Scanned(body, i, dot, m, fdig, any) && i < |body| && IsDigit(body[i])
    ensures Scanned(body, i + 1, dot, 10 * m + (body[i] as int - 48), if dot >= 0 then fdig + 1 else fdig, true)
  {
    hide Value, Read;
    ValueStep(Read(body, i, dot), body[i]);
    ReadGrows(body, i, dot);
  }

  lemma ReadGrows(body: Bytes, i: nat, dot: int)
    requires i < |body| && -1 <= dot < i
    ensures Read(body, i + 1, dot) == Read(body, i, dot) + [body[i]]
  {
    if dot < 0 {
      assert body[..i + 1] == body[..i] + [body[i]];
    } else {
      assert body[dot + 1..i + 1] == body[dot + 1..i] + [body[i]];
    }
  }

  lemma ScanBad(body: Bytes, i: nat, dot: int, m: nat, fdig: nat, any: bool)
    requires Scanned(body, i, dot, m, fdig, any) && i < |body| && !IsDigit(body[i]) && (body[i] == DOT ==> dot >= 0)
    ensures !AllDigits(Whole(body)) || !AllDigits(Fraction(body))
  {
    hide Value;
    if body[i] == DOT { TwoDots(body, dot, i); } else { NotADigit(body, i); }
  }

  /** The 128-bit accumulator for an exact number, and whether some operation on it has overflowed. */
  ghost predicate Accumulates(m: int, exact: nat, overflowed: bool) {
    m == Wrap128(exact) && (overflowed <==> exact >= TWO127)
  }

  lemma AccumulateStep(m: int, exact: nat, overflowed: bool, d: nat)
    requires Accumulates(m, exact, overflowed)
    ensures Accumulates(Wrap128(10 * m + d), 10 * exact + d, overflowed || 10 * m + d >= TWO127)
  {
    WrapStep(exact, d);
    if !overflowed { WrapInRange(exact); }
  }

  /** Read digits and at most one dot; None for anything else. */
  method ReadBody(body: Bytes) returns (r: Option<(int, nat, bool)>, ghost overflowed: bool)
    ensures r.None? <==> !AllDigits(Whole(body)) || !AllDigits(Fraction(body))
    ensures r.Some? ==> AllDigits(Whole(body) + Fraction(body))
    ensures r.Some? ==> Accumulates(r.value.0, Value(Whole(body) + Fraction(body)), overflowed)
    ensures r.Some? ==> r.value.1 == |Fraction(body)| && (r.value.2 <==> Whole(body) + Fraction(body) != [])
  {
    hide Scanned, Value, AllDigits, Accumulates, Wrap128;
    var i, m: int, fdig: nat, seenDot, any := 0, 0, 0, false, false;
    ghost var dot, exact: nat := -1, 0;
    overflowed := false;
    ScanStart(body);
    while i < |body|
      invariant 0 <= i <= |body| && Scanned(body, i, dot, exact, fdig, any) && Accumulates(m, exact, overflowed)
      invariant (seenDot <==> dot >= 0) && (!seenDot ==> fdig == 0 && dot == -1)
    {
      var c := body[i];
      if c == DOT {
        if seenDot {
          ScanBad(body, i, dot, exact, fdig, any);
          return None, overflowed;
        }
        ScanDot(body, i, exact, any);
        dot, seenDot := i, true;
      } else if c < 48 || c > 57 {
        ScanBad(body, i, dot, exact, fdig, any);
        return None, overflowed;
      } else {
        ScanDigit(body, i, dot, exact, fdig, any);
        AccumulateStep(m, exact, overflowed, c as int - 48);
        overflowed := overflowed || 10 * m + (c as int - 48) >= TWO127;
        m := Wrap128(10 * m + (c as int - 48));
        exact := 10 * exact + (c as int - 48);
        if seenDot { fdig := fdig + 1; }
        any := true;
      }
      i := i + 1;
    }
    ScanEnd(body, dot, exact, fdig, any);
    return Some((m, fdig, any)), overflowed;
  }

  lemma ScanStart(body: Bytes)
    ensures Scanned(body, 0, -1, 0, 0, false) && Accumulates(0, 0, false)
  {
  }

  lemma ScanEnd(body: Bytes, dot: int, m: nat, fdig: nat, any: bool)
    requires Scanned(body, |body|, dot, m, fdig, any)
    ensures AllDigits(Whole(body)) && AllDigits(Fraction(body)) && AllDigits(Whole(body) + Fraction(body))
    ensures m == Value(Whole(body) + Fraction(body)) && fdig == |Fraction(body)|
    ensures (any <==> Whole(body) + Fraction(body) != [])
  {
    hide Value;
    SplitAt(body, dot);
  }

  /**
   * The accumulator loops, in 128-bit arithmetic that is range-checked only at the end. Some
   * operation overflows exactly when the scaled magnitude reaches 2^127.
   */
  method ParseDecScaled(s: Bytes, scale: nat) returns (r: Option<int>, ghost overflowed: bool)
    ensures r == ParseDec(s, scale)
    ensures Magnitude(s, scale).Some? ==> (overflowed <==> Magnitude(s, scale).value >= TWO127)
  {
    hide Value, AllDigits, Whole, Fraction, Accumulates, Wrap128;
    if s == [] {
      NothingRead();
      return None, false;
    }
    var neg := s[0] == MINUS;
    var body := if s[0] == MINUS || s[0] == PLUS then s[1..] else s;
    var read;
    read, overflowed := ReadBody(body);
    if read.None? { return None, overflowed; }
    var m, fdig := read.value.0, read.value.1;
    if !read.value.2 { return None, overflowed; }
    if fdig > scale { return None, overflowed; }
    ghost var exact: nat, f0 := Value(Whole(body) + Fraction(body)), fdig;
    assert Pow10(0) == 1;
    while fdig < scale
      invariant f0 <= fdig <= scale && Accumulates(m, exact * Pow10(fdig - f0), overflowed)
    {
      Scale(exact, fdig - f0);
      AccumulateStep(m, exact * Pow10(fdig - f0), overflowed, 0);
      overflowed := overflowed || 10 * m >= TWO127;
      m := Wrap128(10 * m);
      fdig := fdig + 1;
    }
    Accumulated(m, exact * Pow10(scale - f0), overflowed);
    var v := if neg then Wrap128(-m) else m;
    if v > INT64_MAX || v < -INT64_MAX - 1 { return None, overflowed; }
    return Some(v), overflowed;
  }

  lemma Accumulated(m: int, exact: nat, overflowed: bool)
    requires Accumulates(m, exact, overflowed)
    ensures m == Wrap128(exact) && Wrap128(-m) == Wrap128(-(exact as int)) && (overflowed <==> exact >= TWO127)
  {
    WrapNegates(exact);
  }

  lemma Scale(x: nat, n: nat)
    ensures 10 * (x * Pow10(n)) + 0 == x * Pow10(n + 1)
  {
  }

  lemma NothingRead()
    ensures Whole([]) + Fraction([]) == []
  {
  }

  /** A second dot is not a digit of the fraction. */
  lemma TwoDots(body: Bytes, dot: nat, i: nat)
    requires dot < i < |body| && body[dot] == DOT && body[i] == DOT && forall j :: 0 <= j < dot ==> IsDigit(body[j])
    ensures !AllDigits(Fraction(body))
  {
    assert DotAt(body) == dot;
    assert Fraction(body)[i - dot - 1] == DOT;
  }

  lemma NotADigit(body: Bytes, i: nat)
    requires i < |body| && body[i] != DOT && !IsDigit(body[i])
    ensures !AllDigits(Whole(body)) || !AllDigits(Fraction(body))
  {
    var d := DotAt(body);
    if i < d {
      assert Whole(body)[i] == body[i];
    } else {
      assert Fraction(body)[i - d - 1] == body[i];
    }
  }

  lemma SplitAt(body: Bytes, dot: int)
    requires -1 <= dot < |body| && (dot >= 0 ==> body[dot] == DOT)
    requires forall j :: 0 <= j < |body| && j != dot ==> IsDigit(body[j])
    ensures DotAt(body) == (if dot < 0 then |body| else dot) && AllDigits(Whole(body)) && AllDigits(Fraction(body))
    ensures Whole(body) + Fraction(body) == Read(body, |body|, dot)
            && |Fraction(body)| == if dot < 0 then 0 else |body| - dot - 1
  {
    var d := DotAt(body);
    if dot < 0 {
      assert d == |body|;
    } else {
      assert d == dot;
      forall j | 0 <= j < |Fraction(body)| ensures IsDigit(Fraction(body)[j]) {
        assert Fraction(body)[j] == body[dot + 1 + j];
      }
    }
  }

  method FormatDigits(n: nat) returns (digits: Bytes)
    ensures digits == Digits(n)
  {
    hide Value;
    digits := [];
    if n == 0 { return [ZERO]; }
    var mm := n;
    while mm != 0
      invariant digits == [] ==> mm == n
      invariant digits != [] ==> Digits(n) == (if mm == 0 then digits else Digits(mm) + digits)
    {
      ghost var was := digits;
      digits := [48 + mm % 10] + digits;
      if mm >= 10 { assert Digits(mm) + was == Digits(mm / 10) + digits; }
      mm := mm / 10;
    }
  }

  method PadDigits(s: Bytes, places: nat) returns (digits: Bytes)
    requires AllDigits(s)
    ensures digits == Padded(s, places)
  {
    digits := s;
    while |digits| < places
      invariant |s| <= |digits| && (|digits| > |s| ==> |digits| <= places) && digits == Zeros(|digits| - |s|) + s
    {
      assert [ZERO] + digits == Zeros(|digits| + 1 - |s|) + s;
      digits := [ZERO] + digits;
    }
  }

  method FormatDec(v: int, scale: nat) returns (out: Bytes)
    ensures out == DecText(v, scale)
  {
    hide Value, Digits, Padded;
    var neg := v < 0;
    var digits := FormatDigits(if neg then -v else v);
    digits := PadDigits(digits, scale + 1);
    out := if neg then [MINUS] else [];
    if scale == 0 {
      out := out + digits;
    } else {
      var ip := |digits| - scale;
      out := out + (digits[..ip] + [DOT] + digits[ip..]);
    }
  }

  // ----- Binary cells ---------------------------------------------------------------------------

  /** n little-endian bytes. */
  function PutLe(v: nat, n: nat): (b: Bytes)
    ensures |b| == n
  {
    if n == 0 then [] else [v % 256] + PutLe(v / 256, n - 1)
  }

  function GetLe(b: Bytes): nat {
    if b == [] then 0 else b[0] as int + 256 * GetLe(b[1..])
  }

  function Pow256(n: nat): (p: nat)
    ensures p >= 1
  {
    if n == 0 then 1 else 256 * Pow256(n - 1)
  }

  lemma {:induction false} LeRoundTrip(v: nat, n: nat)
    requires v < Pow256(n)
    ensures GetLe(PutLe(v, n)) == v
  {
    if n > 0 {
      LeRoundTrip(v / 256, n - 1);
      assert PutLe(v, n)[1..] == PutLe(v / 256, n - 1);
    }
  }

  function Width(k: Kind): nat {
    match k
    case Untyped => 0
    case Int32 => 4
    case Date => 4
    case Int64 => 8
    case Dec64(_) => 8
  }

  /** The signed range of a typed cell. */
  function MaxOf(k: Kind): int {
    if Width(k) == 4 then INT32_MAX else INT64_MAX
  }

  /** Two's complement in the width of the kind. */
  function Binary(k: Kind, v: int): (b: Bytes)
    requires !k.Untyped? && -MaxOf(k) - 1 <= v <= MaxOf(k)
    ensures |b| == Width(k)
  {
    PutLe(if v < 0 then v + 2 * (MaxOf(k) + 1) else v, Width(k))
  }

  function FromBinary(k: Kind, b: Bytes): int
    requires !k.Untyped?
  {
    var u := GetLe(b);
    if u > MaxOf(k) then u - 2 * (MaxOf(k) + 1) else u
  }

  lemma BinaryRoundTrip(k: Kind, v: int)
    requires !k.Untyped? && -MaxOf(k) - 1 <= v <= MaxOf(k)
    ensures FromBinary(k, Binary(k, v)) == v
  {
    var u := if v < 0 then v + 2 * (MaxOf(k) + 1) else v;
    assert Pow256(4) == 0x1_0000_0000 && Pow256(8) == Pow256(4) * Pow256(4) by {
      assert Pow256(1) == 256 && Pow256(2) == 0x1_0000 && Pow256(3) == 0x100_0000;
      assert Pow256(5) == 256 * Pow256(4) && Pow256(6) == 256 * Pow256(5) && Pow256(7) == 256 * Pow256(6);
    }
    LeRoundTrip(u, Width(k));
  }

  /** Parse one present field by kind. */
  function ParseTyped(k: Kind, s: Bytes): (r: Option<int>)
    ensures r.Some? && k != Date ==> -MaxOf(k) - 1 <= r.value <= MaxOf(k)
  {
    match k
    case Untyped => None
    case Int32 => ParseInt(s, INT32_MAX)
    case Int64 => ParseInt(s, INT64_MAX)
    case Date => ParseDate(s)
    case Dec64(scale) => ParseDec(s, scale)
  }

  function FormatTyped(k: Kind, v: int): Bytes {
    match k
    case Untyped => []
    case Int32 => IntText(v)
    case Int64 => IntText(v)
    case Date => if v < 0 then [] else DateText(v)
    case Dec64(scale) => DecText(v, scale)
  }

  /** The spellings formatting produces, of numbers that fit the cell. */
  predicate CanonicalText(k: Kind, s: Bytes) {
    match k
    case Untyped => true
    case Int32 => CanonicalInt(s)
    case Int64 => CanonicalInt(s)
    case Date => DateShaped(s)
    case Dec64(scale) => CanonicalDec(s, scale) && ExactDec(s, scale).Some?
  }

  /** A typed value survives the strip exactly when its text is canonical. */
  lemma TypedTextExact(k: Kind, s: Bytes)
    requires !k.Untyped? && ParseTyped(k, s).Some?
    ensures -MaxOf(k) - 1 <= ParseTyped(k, s).value <= MaxOf(k)
    ensures FormatTyped(k, FromBinary(k, Binary(k, ParseTyped(k, s).value))) == s <==> CanonicalText(k, s)
  {
    if k.Date? { DateTextExact(s); }
    BinaryRoundTrip(k, ParseTyped(k, s).value);
    match k
    case Int32 => IntTextExact(s, INT32_MAX);
    case Int64 => IntTextExact(s, INT64_MAX);
    case Date =>
    case Dec64(scale) => DecTextExact(s, scale);
  }
}
