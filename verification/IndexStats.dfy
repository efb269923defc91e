/**
 * One-pass index statistics over the live keys in index order: the number of distinct prefixes at
 * every key-part depth, and an equi-depth histogram.
 */
module IndexStats {
  import opened Basics
  import opened PackedKeys

  // ----- Key parts ------------------------------------------------------------------------------

  /** The end of an integer key part that begins at an offset: marker, type, length, payload. */
  function PartEnd(k: Key, at: nat): (r: Option<nat>)
    ensures r.Some? ==> at < r.value <= |k|
  {
    if at + 4 > |k| || k[at] != 0 || k[at + 1] != 0x10 then None
    else
      var end := at + 4 + 256 * (k[at + 2] as int) + k[at + 3] as int;
      if end > |k| then None else Some(end)
  }

  /** The end of the first d parts. */
  function Ends(k: Key, d: nat): (r: Option<nat>)
    ensures r.Some? ==> r.value <= |k|
  {
    if d == 0 then Some(0)
    else
      match Ends(k, d - 1)
      case None => None
      case Some(at) => PartEnd(k, at)
  }

  function Prefix(k: Key, d: nat): Bytes
    requires Ends(k, d).Some?
  {
    k[..Ends(k, d).value]
  }

  /** Keys that share the bytes of d parts share the boundary too. */
  lemma {:induction false} BoundaryByBytes(a: Key, b: Key, d: nat)
    requires Ends(a, d).Some? && Prefix(a, d) <= b
    ensures Ends(b, d) == Ends(a, d)
  {
    if d > 0 {
      var at, end := Ends(a, d - 1).value, Ends(a, d).value;
      assert a[..end][..at] == a[..at] && b[..end][..at] == b[..at];
      assert Prefix(a, d - 1) <= b;
      BoundaryByBytes(a, b, d - 1);
      assert forall i :: at <= i < end ==> a[..end][i] == b[i];
    }
  }

  lemma {:induction false} ShallowerEnds(k: Key, c: nat, d: nat)
    requires c <= d && Ends(k, d).Some?
    ensures Ends(k, c).Some?
  {
    if c < d { ShallowerEnds(k, c, d - 1); }
  }

  /** Between two keys that start with p every key starts with p. */
  lemma {:induction false} PrefixIsConvex(p: Bytes, a: Key, b: Key, c: Key)
    requires p <= a && p <= c && !Before(b, a) && !Before(c, b)
    ensures p <= b
  {
    if p != [] {
      PrefixIsConvex(p[1..], a[1..], b[1..], c[1..]);
      assert p == [p[0]] + p[1..] && b == [b[0]] + b[1..];
    }
  }

  // ----- Distinct prefixes ----------------------------------------------------------------------

  /** The distinct prefixes of the first n keys. */
  function Prefixes(ks: seq<Key>, n: nat, d: nat): set<Bytes>
    requires n <= |ks| && forall i :: 0 <= i < n ==> Ends(ks[i], d).Some?
  {
    if n == 0 then {} else Prefixes(ks, n - 1, d) + {Prefix(ks[n - 1], d)}
  }

  lemma {:induction false} InPrefixes(ks: seq<Key>, n: nat, d: nat, p: Bytes)
    requires n <= |ks| && forall i :: 0 <= i < n ==> Ends(ks[i], d).Some?
    ensures p in Prefixes(ks, n, d) <==> exists i :: 0 <= i < n && Prefix(ks[i], d) == p
  {
    if n > 0 { InPrefixes(ks, n - 1, d, p); }
  }

  /** In key order a prefix that differs from the previous one has not been seen at all. */
  lemma NewOrPrevious(ks: seq<Key>, n: nat, d: nat)
    requires Sorted(ks) && 0 < n < |ks| && forall i :: 0 <= i <= n ==> Ends(ks[i], d).Some?
    ensures Prefix(ks[n], d) in Prefixes(ks, n, d) <==> Prefix(ks[n], d) == Prefix(ks[n - 1], d)
  {
    hide Before, Ends;
    var p := Prefix(ks[n], d);
    InPrefixes(ks, n, d, p);
    if p in Prefixes(ks, n, d) {
      var i :| 0 <= i < n && Prefix(ks[i], d) == p;
      BeforeIsTotal(ks[n - 1], ks[n]);
      if i < n - 1 {
        BeforeIsTotal(ks[i], ks[n - 1]);
        PrefixIsConvex(p, ks[i], ks[n - 1], ks[n]);
        BoundaryByBytes(ks[n], ks[n - 1], d);
      }
    }
  }

  /** Split one key into parts; none if it is malformed. */
  method SplitKey(k: Key, parts: nat) returns (ends: Option<seq<nat>>)
    ensures ends.Some? <==> Ends(k, parts).Some?
    ensures ends.Some? ==> |ends.value| == parts && forall d :: 0 <= d < parts ==> Ends(k, d + 1) == Some(ends.value[d])
  {
    hide PartEnd;
    var out: seq<nat>, offset: nat := [], 0;
    for part := 0 to parts
      invariant |out| == part && Ends(k, part) == Some(offset)
      invariant forall d :: 0 <= d < part ==> Ends(k, d + 1) == Some(out[d])
    {
      var end := PartEnd(k, offset);
      if end.None? {
        Malformed(k, part + 1, parts);
        return None;
      }
      out, offset := out + [end.value], end.value;
    }
    return Some(out);
  }

  lemma Malformed(k: Key, c: nat, d: nat)
    requires c <= d && Ends(k, c).None?
    ensures Ends(k, d).None?
  {
    if Ends(k, d).Some? { ShallowerEnds(k, c, d); }
  }

  /** The counts so far, one per depth. */
  ghost predicate Counts(ks: seq<Key>, n: nat, parts: nat, ndv: seq<nat>) {
    && n <= |ks| && |ndv| == parts && (forall i :: 0 <= i < n ==> Ends(ks[i], parts).Some?)
    && forall d :: 0 <= d < parts ==> Counted(ks, n, d + 1, ndv[d])
  }

  ghost predicate Counted(ks: seq<Key>, n: nat, d: nat, count: nat) {
    n <= |ks| && (forall i :: 0 <= i < n ==> Ends(ks[i], d).Some?) && count == |Prefixes(ks, n, d)|
  }

  lemma OneMore(ks: seq<Key>, n: nat, d: nat, count: nat)
    requires Sorted(ks) && n < |ks| && Counted(ks, n, d, count) && Ends(ks[n], d).Some?
    ensures n == 0 ==> Counted(ks, 1, d, 1)
    ensures n > 0 ==> Counted(ks, n + 1, d, if Prefix(ks[n], d) != Prefix(ks[n - 1], d) then count + 1 else count)
  {
    hide Sorted, Before, Ends, Prefix;
    if n == 0 {
      assert Prefixes(ks, 1, d) == {Prefix(ks[0], d)};
    } else {
      NewOrPrevious(ks, n, d);
    }
  }

  /**
   * One pass with one previous key counts the distinct prefixes at every depth, over any index in
   * key order; it fails exactly when some key is malformed.
   */
  method ComputeIndexNdvInt(ks: seq<Key>, parts: nat) returns (ok: bool, ndv: seq<nat>)
    requires Sorted(ks)
    ensures ok <==> parts != 0 && forall i :: 0 <= i < |ks| ==> Ends(ks[i], parts).Some?
    ensures ok ==> Counts(ks, |ks|, parts, ndv)
  {
    hide Sorted, Before, Ends, Prefix, Counted;
    ndv := seq(parts, _ => 0);
    if parts == 0 { return false, ndv; }
    NothingCounted(ks, parts);
    var prevEnds: seq<nat> := seq(parts, _ => 0);
    var n := 0;
    while n < |ks|
      invariant 0 <= n <= |ks| && Counts(ks, n, parts, ndv) && |prevEnds| == parts
      invariant n > 0 ==> forall d :: 0 <= d < parts ==> Ends(ks[n - 1], d + 1) == Some(prevEnds[d])
    {
      var split := SplitKey(ks[n], parts);
      if split.None? { return false, seq(parts, _ => 0); }
      var ends := split.value;
      var next := CountKey(ks, n, parts, ndv, ends, prevEnds);
      ndv, prevEnds := next, ends;
      n := n + 1;
    }
    return true, ndv;
  }

  lemma NothingCounted(ks: seq<Key>, parts: nat)
    ensures Counts(ks, 0, parts, seq(parts, _ => 0))
  {
  }

  /** One more key: a new prefix wherever the bytes up to the boundary differ from the previous key's. */
  method CountKey(ks: seq<Key>, n: nat, parts: nat, ndv: seq<nat>, ends: seq<nat>, prevEnds: seq<nat>)
    returns (r: seq<nat>)
    requires Sorted(ks) && n < |ks| && Counts(ks, n, parts, ndv) && Ends(ks[n], parts).Some?
    requires |ends| == |prevEnds| == parts
    requires forall d :: 0 <= d < parts ==> Ends(ks[n], d + 1) == Some(ends[d])
    requires n > 0 ==> forall d :: 0 <= d < parts ==> Ends(ks[n - 1], d + 1) == Some(prevEnds[d])
    ensures Counts(ks, n + 1, parts, r)
  {
    hide Sorted, Before, Ends, Counted;
    r := ndv;
    for d := 0 to parts
      invariant |r| == parts && (forall c :: 0 <= c < d ==> Counted(ks, n + 1, c + 1, r[c]))
      invariant forall c :: d <= c < parts ==> r[c] == ndv[c]
    {
      assert Ends(ks[n], d + 1) == Some(ends[d]);
      OneMore(ks, n, d + 1, ndv[d]);
      if n == 0 {
        r := r[d := 1];
      } else {
        assert Ends(ks[n - 1], d + 1) == Some(prevEnds[d]);
        PrefixesDiffer(ks[n], ks[n - 1], d + 1);
        if ends[d] != prevEnds[d] || ks[n][..ends[d]] != ks[n - 1][..prevEnds[d]] { r := r[d := r[d] + 1]; }
      }
    }
  }

  lemma PrefixesDiffer(a: Key, b: Key, d: nat)
    requires Ends(a, d).Some? && Ends(b, d).Some?
    ensures Prefix(a, d) != Prefix(b, d)
            <==> Ends(a, d).value != Ends(b, d).value || a[..Ends(a, d).value] != b[..Ends(b, d).value]
  {
  }

  // ----- Histogram --------------------------------------------------------------------------------

  /** A live key with the number of rows under it. */
  datatype Weighted = Weighted(key: Key, rows: nat)

  /** The end of a supported leading part, 0 if there is none. */
  function LeadingEnd(k: Key): nat {
    if |k| < 4 || k[0] != 0 || (k[1] != 0x10 && k[1] != 0x30) then 0
    else
      var end := 4 + 256 * (k[2] as int) + k[3] as int;
      if end <= |k| then end else 0
  }

  function Leading(k: Key): Key {
    k[..LeadingEnd(k)]
  }

  function Total(ws: seq<Weighted>): nat {
    if ws == [] then 0 else Total(ws[..|ws| - 1]) + ws[|ws| - 1].rows
  }

  lemma TotalStep(ws: seq<Weighted>, i: nat)
    requires i < |ws|
    ensures Total(ws[..i + 1]) == Total(ws[..i]) + ws[i].rows
  {
    assert ws[..i + 1][..i] == ws[..i];
  }

  /** Cumulative counts: strictly increasing from above zero, each a running total. */
  predicate Cumulative(cum: seq<nat>) {
    (forall i, j :: 0 <= i < j < |cum| ==> cum[i] < cum[j]) && (cum != [] ==> cum[0] > 0)
  }

  /** The rows of one bucket. */
  function Depth(cum: seq<nat>, i: nat): int
    requires i < |cum|
  {
    if i == 0 then cum[0] as int else cum[i] as int - cum[i - 1] as int
  }

  predicate Depths(cum: seq<nat>, most: int) {
    forall i :: 0 <= i < |cum| ==> Depth(cum, i) <= most
  }

  function Last(cum: seq<nat>): nat {
    if cum == [] then 0 else cum[|cum| - 1]
  }

  method CountRows(ws: seq<Weighted>) returns (ok: bool, total: nat)
    ensures ok <==> forall i :: 0 <= i < |ws| ==> LeadingEnd(ws[i].key) != 0
    ensures ok ==> total == Total(ws)
  {
    total := 0;
    for i := 0 to |ws|
      invariant total == Total(ws[..i]) && forall j :: 0 <= j < i ==> LeadingEnd(ws[j].key) != 0
    {
      if LeadingEnd(ws[i].key) == 0 { return false, 0; }
      TotalStep(ws, i);
      total := total + ws[i].rows;
    }
    assert ws[..|ws|] == ws;
    return true, total;
  }

  /** Advance to the first multiple of the stride past a count. */
  method Advance(next: nat, stride: nat, seen: nat) returns (r: nat, ghost steps: nat)
    requires stride > 0 && next <= seen
    ensures seen < r <= seen + stride && r == next + steps * stride && steps >= 1
  {
    r, steps := next, 0;
    while r <= seen
      invariant r == next + steps * stride && (steps > 0 ==> r <= seen + stride) && (steps == 0 ==> r <= seen)
      decreases seen + stride - r
    {
      r, steps := r + stride, steps + 1;
    }
  }

  /** Each boundary is the leading part of a key, with the rows up to and including that key. */
  predicate Marks(ws: seq<Weighted>, bounds: seq<Key>, cum: seq<nat>) {
    |bounds| == |cum| && forall b :: 0 <= b < |bounds| ==> Marked(ws, bounds[b], cum[b])
  }

  predicate Marked(ws: seq<Weighted>, bound: Key, rows: nat) {
    exists j :: 0 <= j < |ws| && bound == Leading(ws[j].key) && Total(ws[..j + 1]) == rows
  }

  /** Boundaries so far: increasing, no deeper than allowed, one per stride at most. */
  predicate Spaced(cum: seq<nat>, seen: nat, next: nat, stride: nat, most: int) {
    Cumulative(cum) && Last(cum) <= seen < next <= Last(cum) + stride && Depths(cum, most)
        && (|cum| + 1) * stride <= next
  }

  lemma AddBoundary(cum: seq<nat>, seen: nat, next: nat, stride: nat, heaviest: nat, rows: nat, next': nat, steps: nat)
    requires stride > 0 && Spaced(cum, seen, next, stride, stride - 1 + heaviest) && 0 < rows <= heaviest
    requires seen + rows >= next
    requires seen + rows < next' <= seen + rows + stride && next' == next + steps * stride && steps >= 1
    ensures Spaced(cum + [seen + rows], seen + rows, next', stride, stride - 1 + heaviest)
  {
    var c := cum + [seen + rows];
    AtLeastOne(steps, stride);
    assert (|c| + 1) * stride == (|cum| + 1) * stride + stride;
    forall i | 0 <= i < |c| ensures Depth(c, i) <= stride - 1 + heaviest {
      if i < |cum| { assert Depth(c, i) == Depth(cum, i); }
    }
  }

  /** A boundary at every stride-th row. */
  method Boundaries(ws: seq<Weighted>, stride: nat, ghost heaviest: nat) returns (bounds: seq<Key>, cum: seq<nat>)
    requires stride > 0 && forall i :: 0 <= i < |ws| ==> LeadingEnd(ws[i].key) != 0 && 0 < ws[i].rows <= heaviest
    ensures Marks(ws, bounds, cum) && Cumulative(cum) && Last(cum) <= Total(ws) < Last(cum) + stride
    ensures Depths(cum, stride - 1 + heaviest) && |cum| * stride <= Total(ws)
  {
    hide Spaced, Marked, Total, LeadingEnd;
    bounds, cum := [], [];
    var seen: nat, next: nat := 0, stride;
    NoBoundary(ws, stride, heaviest);
    for i := 0 to |ws|
      invariant seen == Total(ws[..i]) && Marks(ws, bounds, cum)
      invariant Spaced(cum, seen, next, stride, stride - 1 + heaviest)
    {
      TotalStep(ws, i);
      var end := LeadingEnd(ws[i].key);
      LeadingFits(ws[i].key);
      ghost var before, was, nextWas := seen, cum, next;
      seen := seen + ws[i].rows;
      if seen >= next {
        SpacedNext(was, before, next, stride, stride - 1 + heaviest);
        bounds := bounds + [ws[i].key[..end]];
        cum := cum + [seen];
        ghost var steps;
        next, steps := Advance(next, stride, seen);
        AddBoundary(was, before, nextWas, stride, heaviest, ws[i].rows, next, steps);
        MarkedHere(ws, i);
      } else {
        NoNewBoundary(cum, before, seen, next, stride, stride - 1 + heaviest);
      }
    }
    assert ws[..|ws|] == ws;
    Closed(cum, seen, next, stride, stride - 1 + heaviest);
  }

  lemma NoBoundary(ws: seq<Weighted>, stride: nat, heaviest: nat)
    requires stride > 0
    ensures Total(ws[..0]) == 0 && Spaced([], 0, stride, stride, stride - 1 + heaviest)
  {
  }

  lemma SpacedNext(cum: seq<nat>, seen: nat, next: nat, stride: nat, most: int)
    requires Spaced(cum, seen, next, stride, most)
    ensures seen < next
  {
  }

  lemma MarkedHere(ws: seq<Weighted>, i: nat)
    requires i < |ws|
    ensures LeadingEnd(ws[i].key) <= |ws[i].key| && Marked(ws, ws[i].key[..LeadingEnd(ws[i].key)], Total(ws[..i + 1]))
  {
  }

  lemma NoNewBoundary(cum: seq<nat>, seen: nat, seen': nat, next: nat, stride: nat, most: int)
    requires Spaced(cum, seen, next, stride, most) && seen <= seen' < next
    ensures Spaced(cum, seen', next, stride, most)
  {
  }

  lemma Closed(cum: seq<nat>, seen: nat, next: nat, stride: nat, most: int)
    requires Spaced(cum, seen, next, stride, most)
    ensures Cumulative(cum) && Last(cum) <= seen < Last(cum) + stride && Depths(cum, most) && |cum| * stride <= seen
  {
    assert (|cum| + 1) * stride == |cum| * stride + stride;
  }

  lemma LeadingFits(k: Key)
    ensures LeadingEnd(k) <= |k|
  {
  }

  lemma AtLeastOne(steps: nat, stride: nat)
    requires steps >= 1
    ensures steps * stride >= stride
  {
  }

  /** With the chosen stride there are fewer than twice as many boundaries as buckets. */
  lemma StrideBound(total: nat, buckets: nat, n: nat)
    requires buckets > 0 && total > 0 && n * Max(1, total / buckets) <= total
    ensures n < 2 * buckets
  {
    var q, r := total / buckets, total % buckets;
    assert total == q * buckets + r;
    assert 2 * buckets * q == q * buckets + q * buckets;
    if q > 0 {
      Scales(1, q, buckets);
      if n >= 2 * buckets { Scales(2 * buckets, n, q); }
    }
  }

  lemma Scales(a: nat, b: nat, q: nat)
    requires a <= b
    ensures a * q <= b * q
  {
  }

  /**
   * The histogram: each boundary is the leading part of a key with the rows up to that key, the
   * totals strictly increase to the number of rows, there are at most twice the buckets asked for,
   * and none is deeper than the stride less one plus the heaviest key.
   */
  method ComputeIndexHistogram(ws: seq<Weighted>, buckets: nat, ghost heaviest: nat)
    returns (ok: bool, bounds: seq<Key>, cum: seq<nat>)
    requires forall i :: 0 <= i < |ws| ==> 0 < ws[i].rows <= heaviest
    ensures ok <==> buckets > 0 && Total(ws) > 0 && forall i :: 0 <= i < |ws| ==> LeadingEnd(ws[i].key) != 0
    ensures ok ==> Marks(ws, bounds, cum) && 0 < |cum| <= 2 * buckets && Cumulative(cum) && Last(cum) == Total(ws)
    ensures ok ==> Depths(cum, Max(1, Total(ws) / buckets) - 1 + heaviest)
  {
    hide Total, LeadingEnd, Depths, Cumulative, Marks, Marked;
    if buckets == 0 { return false, [], []; }
    var fine, total := CountRows(ws);
    if !fine || total == 0 { return false, [], []; }
    var stride: nat := Max(1, total / buckets);
    bounds, cum := Boundaries(ws, stride, heaviest);
    SameLength(ws, bounds, cum);
    StrideBound(total, buckets, |cum|);
    NoRows(ws);
    if bounds == [] || cum[|cum| - 1] != total {
      var last := ws[|ws| - 1].key;
      LeadingFits(last);
      CloseHistogram(cum, total, stride, heaviest);
      MarkedHere(ws, |ws| - 1);
      assert ws[..|ws|] == ws;
      MarksNext(ws, bounds, cum, last[..LeadingEnd(last)], total);
      bounds := bounds + [last[..LeadingEnd(last)]];
      cum := cum + [total];
    }
    return true, bounds, cum;
  }

  lemma SameLength(ws: seq<Weighted>, bounds: seq<Key>, cum: seq<nat>)
    requires Marks(ws, bounds, cum)
    ensures |bounds| == |cum|
  {
  }

  lemma MarksNext(ws: seq<Weighted>, bounds: seq<Key>, cum: seq<nat>, bound: Key, rows: nat)
    requires Marks(ws, bounds, cum) && Marked(ws, bound, rows)
    ensures Marks(ws, bounds + [bound], cum + [rows])
  {
  }

  lemma NoRows(ws: seq<Weighted>)
    ensures ws == [] ==> Total(ws) == 0
  {
  }

  /** The last boundary closes the histogram at the number of rows. */
  lemma CloseHistogram(cum: seq<nat>, total: nat, stride: nat, heaviest: nat)
    requires Cumulative(cum) && Depths(cum, stride - 1 + heaviest) && Last(cum) < total < Last(cum) + stride
    ensures Cumulative(cum + [total]) && Depths(cum + [total], stride - 1 + heaviest)
  {
    var c := cum + [total];
    forall i | 0 <= i < |c| ensures Depth(c, i) <= stride - 1 + heaviest {
      if i < |cum| { assert Depth(c, i) == Depth(cum, i); }
    }
  }
}
