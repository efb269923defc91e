/**
 * Range reads and their replay at commit. The replay compares positionally with the evidence and
 * stops at the first divergence; it accepts exactly when the full scan would return the evidence
 * and nothing it visits is locked by somebody else.
 */
module RangeReplay {

  /** One stop of the index walk: a row, live or not, and whether another committer holds its lock. */
  datatype Visit = Visit(key: string, primaryKey: string, live: bool, foreign: bool)

  type Pair = (string, string)

  // ----- The reference ------------------------------------------------------------------------

  /** The live rows, in walk order. */
  function Live(vs: seq<Visit>): seq<Pair> {
    if vs == [] then []
    else
      var v := vs[|vs| - 1];
      Live(vs[..|vs| - 1]) + if v.live then [(v.key, v.primaryKey)] else []
  }

  /** What a range read returns: the live rows, the first `limit` of them if there is a limit. */
  function Answer(vs: seq<Visit>, limit: nat): seq<Pair> {
    if limit == 0 || |Live(vs)| <= limit then Live(vs) else Live(vs)[..limit]
  }

  /** The part of the walk a range read makes: to the row that fills the limit, or all of it. */
  function Walked(vs: seq<Visit>, limit: nat, from: nat, got: nat): (n: nat)
    requires from <= |vs|
    ensures from <= n <= |vs|
    decreases |vs| - from
  {
    if from == |vs| then from
    else
      var got' := if vs[from].live then got + 1 else got;
      if limit > 0 && got' >= limit then from + 1 else Walked(vs, limit, from + 1, got')
  }

  /** Nothing the range read visits is locked by another committer. */
  predicate Clear(vs: seq<Visit>, limit: nat) {
    forall i :: 0 <= i < Walked(vs, limit, 0, 0) ==> !vs[i].foreign
  }

  function Keys(ps: seq<Pair>): (ks: seq<string>)
    ensures |ks| == |ps| && forall i :: 0 <= i < |ps| ==> ks[i] == ps[i].0
  {
    seq(|ps|, i requires 0 <= i < |ps| => ps[i].0)
  }

  function PrimaryKeys(ps: seq<Pair>): (ks: seq<string>)
    ensures |ks| == |ps| && forall i :: 0 <= i < |ps| ==> ks[i] == ps[i].1
  {
    seq(|ps|, i requires 0 <= i < |ps| => ps[i].1)
  }

  lemma LiveStep(vs: seq<Visit>, i: nat)
    requires i < |vs|
    ensures Live(vs[..i + 1]) == Live(vs[..i]) + if vs[i].live then [(vs[i].key, vs[i].primaryKey)] else []
  {
    assert vs[..i + 1][..i] == vs[..i];
  }

  lemma {:induction false} LivePrefix(vs: seq<Visit>, i: nat)
    requires i <= |vs|
    ensures Live(vs[..i]) <= Live(vs)
    decreases |vs| - i
  {
    if i == |vs| {
      assert vs[..i] == vs;
    } else {
      LiveStep(vs, i);
      LivePrefix(vs, i + 1);
    }
  }

  /** Where the walk stands: i stops made, nothing answered beyond the limit. */
  predicate Midway(vs: seq<Visit>, limit: nat, i: nat) {
    i <= |vs| && (limit > 0 ==> |Live(vs[..i])| < limit)
        && Walked(vs, limit, 0, 0) == Walked(vs, limit, i, |Live(vs[..i])|)
  }

  /** The stop that fills the limit ends the walk with the whole answer. */
  lemma Filled(vs: seq<Visit>, limit: nat, i: nat)
    requires Midway(vs, limit, i) && i < |vs| && limit > 0 && |Live(vs[..i + 1])| >= limit
    ensures Walked(vs, limit, 0, 0) == i + 1 && Answer(vs, limit) == Live(vs[..i + 1])
  {
    LiveStep(vs, i);
    LivePrefix(vs, i + 1);
  }

  lemma NotFilled(vs: seq<Visit>, limit: nat, i: nat)
    requires Midway(vs, limit, i) && i < |vs| && (limit > 0 ==> |Live(vs[..i + 1])| < limit)
    ensures Midway(vs, limit, i + 1)
  {
    LiveStep(vs, i);
  }

  lemma Exhausted(vs: seq<Visit>, limit: nat)
    requires Midway(vs, limit, |vs|)
    ensures Walked(vs, limit, 0, 0) == |vs| && Answer(vs, limit) == Live(vs)
  {
    assert vs[..|vs|] == vs;
  }

  /** The walk visits at least the stop it is at, and its answer starts with what it has. */
  lemma StillWalking(vs: seq<Visit>, limit: nat, i: nat)
    requires Midway(vs, limit, i) && i < |vs|
    ensures i < Walked(vs, limit, 0, 0)
    ensures Live(vs[..i]) <= Answer(vs, limit)
    ensures vs[i].live ==> Live(vs[..i + 1]) <= Answer(vs, limit)
  {
    LiveStep(vs, i);
    LivePrefix(vs, i);
    LivePrefix(vs, i + 1);
  }

  // ----- Primary ranges -------------------------------------------------------------------------

  method RangeScan(vs: seq<Visit>, limit: nat) returns (rows: seq<Pair>)
    ensures rows == Answer(vs, limit)
  {
    hide Walked;
    rows := [];
    var i := 0;
    WalkStarts(vs, limit);
    while i < |vs|
      invariant i <= |vs| && Midway(vs, limit, i) && rows == Live(vs[..i])
    {
      LiveStep(vs, i);
      if vs[i].live { rows := rows + [(vs[i].key, vs[i].primaryKey)]; }
      if limit > 0 && |rows| >= limit {
        Filled(vs, limit, i);
        return;
      }
      NotFilled(vs, limit, i);
      i := i + 1;
    }
    Exhausted(vs, limit);
    assert vs[..i] == vs;
  }

  lemma WalkStarts(vs: seq<Visit>, limit: nat)
    ensures Midway(vs, limit, 0)
  {
    assert vs[..0] == [];
  }

  /** So far: pos live rows with the evidence's keys, and no foreign lock. */
  predicate KeysAgree(seen: seq<Visit>, pos: nat, keys: seq<string>) {
    pos == |Live(seen)| && pos <= |keys| && Keys(Live(seen)) == keys[..pos] && forall j :: 0 <= j < |seen| ==>
      !seen[j].foreign
  }

  lemma KeysOnward(vs: seq<Visit>, n: nat, pos: nat, keys: seq<string>)
    requires n < |vs| && KeysAgree(vs[..n], pos, keys) && !vs[n].foreign
    requires vs[n].live ==> pos < |keys| && keys[pos] == vs[n].key
    ensures KeysAgree(vs[..n + 1], if vs[n].live then pos + 1 else pos, keys)
  {
    LiveStep(vs, n);
    assert forall j :: 0 <= j < n ==> vs[..n][j] == vs[j];
  }

  /** A live row that is not the evidence's next one refutes the evidence. */
  lemma Diverges(vs: seq<Visit>, limit: nat, n: nat, pos: nat)
    requires Midway(vs, limit, n) && n < |vs| && vs[n].live && pos == |Live(vs[..n])|
    ensures pos < |Answer(vs, limit)| && Answer(vs, limit)[pos] == (vs[n].key, vs[n].primaryKey)
  {
    StillWalking(vs, limit, n);
    LiveStep(vs, n);
  }

  method ReplayPrimary(vs: seq<Visit>, limit: nat, keys: seq<string>) returns (ok: bool)
    ensures ok <==> keys == Keys(Answer(vs, limit)) && Clear(vs, limit)
  {
    hide Walked, Live, Answer, Midway;
    var pos, i := 0, 0;
    WalkStarts(vs, limit);
    NothingLive(vs, keys);
    while i < |vs|
      invariant i <= |vs| && Midway(vs, limit, i) && KeysAgree(vs[..i], pos, keys)
    {
      StillWalking(vs, limit, i);
      if vs[i].foreign { return false; }
      if vs[i].live {
        Diverges(vs, limit, i, pos);
        if pos >= |keys| || keys[pos] != vs[i].key { return false; }
      }
      KeysOnward(vs, i, pos, keys);
      if vs[i].live { pos := pos + 1; }
      if limit > 0 && pos >= limit {
        Filled(vs, limit, i);
        return pos == |keys|;
      }
      NotFilled(vs, limit, i);
      i := i + 1;
    }
    Exhausted(vs, limit);
    assert vs[..i] == vs;
    return pos == |keys|;
  }

  lemma NothingLive(vs: seq<Visit>, keys: seq<string>)
    ensures KeysAgree(vs[..0], 0, keys)
  {
  }

  // ----- Secondary ranges ------------------------------------------------------------------------

  /** A base row under a secondary key: absent from the primary index, or present. */
  datatype Base = Base(primaryKey: string, present: bool, live: bool, foreign: bool)

  /** A secondary key of the walk with the primary keys it lists. */
  datatype Entry = Entry(key: string, present: bool, foreign: bool, bases: seq<Base>)

  /** A present base row is a visit; an absent one is passed over. */
  function BaseVisits(key: string, bs: seq<Base>): seq<Visit> {
    if bs == [] then []
    else
      var b := bs[|bs| - 1];
      BaseVisits(key, bs[..|bs| - 1]) + if b.present then [Visit(key, b.primaryKey, b.live, b.foreign)] else []
  }

  /** A present secondary key is itself a visit, followed by its base rows. */
  function EntryVisits(e: Entry): seq<Visit> {
    if !e.present then [] else [Visit(e.key, "", false, e.foreign)] + BaseVisits(e.key, e.bases)
  }

  function Visits(es: seq<Entry>): seq<Visit> {
    if es == [] then [] else Visits(es[..|es| - 1]) + EntryVisits(es[|es| - 1])
  }

  lemma {:induction false} VisitsSplit(es: seq<Entry>, i: nat)
    requires i < |es|
    ensures Visits(es[..i]) + EntryVisits(es[i]) <= Visits(es)
    ensures Visits(es[..i + 1]) == Visits(es[..i]) + EntryVisits(es[i])
    decreases |es| - i
  {
    assert es[..i + 1][..i] == es[..i];
    if i + 1 == |es| {
      assert es[..i + 1] == es;
    } else {
      VisitsSplit(es, i + 1);
    }
  }

  lemma {:induction false} BasesSplit(key: string, bs: seq<Base>, j: nat)
    requires j < |bs|
    ensures BaseVisits(key, bs[..j + 1])
            == BaseVisits(key, bs[..j]) + if bs[j].present
                then [Visit(key, bs[j].primaryKey, bs[j].live, bs[j].foreign)] else []
    ensures BaseVisits(key, bs[..j + 1]) <= BaseVisits(key, bs)
    decreases |bs| - j
  {
    assert bs[..j + 1][..j] == bs[..j];
    if j + 1 == |bs| {
      assert bs[..j + 1] == bs;
    } else {
      BasesSplit(key, bs, j + 1);
    }
  }

  /** The visits made when entry i has been walked up to base row j. */
  function At(es: seq<Entry>, i: nat, j: nat): seq<Visit>
    requires i < |es| && j <= |es[i].bases|
  {
    Visits(es[..i]) + [Visit(es[i].key, "", false, es[i].foreign)] + BaseVisits(es[i].key, es[i].bases[..j])
  }

  lemma AtStep(es: seq<Entry>, i: nat, j: nat)
    requires i < |es| && j < |es[i].bases|
    ensures At(es, i, j + 1)
            == At(es, i, j) + if es[i].bases[j].present
                then [Visit(es[i].key, es[i].bases[j].primaryKey, es[i].bases[j].live, es[i].bases[j].foreign)] else []
  {
    hide BaseVisits, Visits;
    BasesSplit(es[i].key, es[i].bases, j);
  }

  lemma AtEnd(es: seq<Entry>, i: nat)
    requires i < |es| && es[i].present
    ensures At(es, i, |es[i].bases|) == Visits(es[..i + 1])
  {
    hide BaseVisits, Visits;
    VisitsSplit(es, i);
    assert es[i].bases[..|es[i].bases|] == es[i].bases;
  }

  lemma {:induction false} AtPrefix(es: seq<Entry>, i: nat, j: nat)
    requires i < |es| && es[i].present && j <= |es[i].bases|
    ensures At(es, i, j) <= Visits(es)
    decreases |es[i].bases| - j
  {
    hide BaseVisits, Visits, At;
    if j < |es[i].bases| {
      AtStep(es, i, j);
      AtPrefix(es, i, j + 1);
    } else {
      AtEnd(es, i);
      VisitsSplit(es, i);
    }
  }

  method SecondaryRangeScan(es: seq<Entry>, limit: nat) returns (rows: seq<Pair>)
    ensures rows == Answer(Visits(es), limit)
  {
    hide Walked, Live, Visits, BaseVisits, At, Midway, Answer;
    rows := [];
    var i := 0;
    ghost var vs := Visits(es);
    ghost var n := 0;
    WalkStarts(vs, limit);
    NoVisits(es);
    while i < |es|
      invariant i <= |es| && n <= |vs| && vs[..n] == Visits(es[..i]) && Midway(vs, limit, n) && rows == Live(vs[..n])
    {
      VisitsSplit(es, i);
      if es[i].present {
        AtPrefix(es, i, 0);
        BasesEmpty(es, i);
        n := Pass(vs, limit, n, At(es, i, 0));
        var j := 0;
        while j < |es[i].bases|
          invariant j <= |es[i].bases| && n <= |vs| && vs[..n] == At(es, i, j) && Midway(vs, limit, n)
          invariant rows == Live(vs[..n])
        {
          var b := es[i].bases[j];
          AtStep(es, i, j);
          AtPrefix(es, i, j + 1);
          if b.present {
            assert vs[..n + 1] == At(es, i, j + 1);
            LiveStep(vs, n);
            if b.live { rows := rows + [(es[i].key, b.primaryKey)]; }
            if limit > 0 && |rows| >= limit {
              Filled(vs, limit, n);
              return;
            }
            NotFilled(vs, limit, n);
            n := n + 1;
          }
          j := j + 1;
        }
        AtEnd(es, i);
      }
      i := i + 1;
    }
    assert es[..i] == es;
    Exhausted(vs, limit);
  }

  lemma NoVisits(es: seq<Entry>)
    ensures Visits(es[..0]) == [] && Live([]) == []
  {
  }

  lemma BasesEmpty(es: seq<Entry>, i: nat)
    requires i < |es|
    ensures At(es, i, 0) == Visits(es[..i]) + [Visit(es[i].key, "", false, es[i].foreign)]
  {
  }

  /** Passing a secondary key: a stop that adds no row. */
  lemma Pass(vs: seq<Visit>, limit: nat, n: nat, next: seq<Visit>) returns (m: nat)
    requires n < |vs| && Midway(vs, limit, n) && next <= vs && |next| == n + 1 && !next[n].live
    ensures m == n + 1 && vs[..m] == next && Midway(vs, limit, m) && Live(vs[..m]) == Live(vs[..n])
  {
    m := n + 1;
    LiveStep(vs, n);
    NotFilled(vs, limit, n);
  }

  /** The evidence is what the full scan returns, and nothing it visits is locked by another. */
  predicate Stands(vs: seq<Visit>, limit: nat, keys: seq<string>, pks: seq<string>) {
    keys == Keys(Answer(vs, limit)) && pks == PrimaryKeys(Answer(vs, limit)) && Clear(vs, limit)
  }

  lemma ForeignRefutes(vs: seq<Visit>, limit: nat, n: nat, keys: seq<string>, pks: seq<string>)
    requires Midway(vs, limit, n) && n < |vs| && vs[n].foreign
    ensures !Stands(vs, limit, keys, pks)
  {
    hide Answer, Midway, Walked;
    StillWalking(vs, limit, n);
  }

  lemma DivergenceRefutes(vs: seq<Visit>, limit: nat, n: nat, pos: nat, keys: seq<string>, pks: seq<string>)
    requires Midway(vs, limit, n) && n < |vs| && vs[n].live && Agrees(vs[..n], pos, keys, pks)
    requires pos >= |keys| || pos >= |pks| || keys[pos] != vs[n].key || pks[pos] != vs[n].primaryKey
    ensures !Stands(vs, limit, keys, pks)
  {
    hide Answer, Midway, Walked, Live;
    Diverges(vs, limit, n, pos);
  }

  lemma FillingSettles(vs: seq<Visit>, limit: nat, n: nat, pos: nat, keys: seq<string>, pks: seq<string>)
    requires Midway(vs, limit, n) && n < |vs| && limit > 0 && pos >= limit && Agrees(vs[..n + 1], pos, keys, pks)
    ensures Stands(vs, limit, keys, pks) <==> pos == |keys| && pos == |pks|
  {
    hide Answer, Midway, Walked, Live;
    Filled(vs, limit, n);
    assert forall j :: 0 <= j < n + 1 ==> vs[..n + 1][j] == vs[j];
  }

  lemma ExhaustionSettles(vs: seq<Visit>, limit: nat, pos: nat, keys: seq<string>, pks: seq<string>)
    requires Midway(vs, limit, |vs|) && Agrees(vs, pos, keys, pks)
    ensures Stands(vs, limit, keys, pks) <==> pos == |keys| && pos == |pks|
  {
    hide Answer, Midway, Walked, Live;
    Exhausted(vs, limit);
  }

  method ReplaySecondary(es: seq<Entry>, limit: nat, keys: seq<string>, pks: seq<string>) returns (ok: bool)
    ensures ok <==> Stands(Visits(es), limit, keys, pks)
  {
    hide Live, Visits, BaseVisits, At, Midway, Agrees, Stands;
    var pos, i := 0, 0;
    ghost var vs := Visits(es);
    ghost var n := 0;
    WalkStarts(vs, limit);
    NoVisits(es);
    NothingAgreed(vs, keys, pks);
    while i < |es|
      invariant i <= |es| && n <= |vs| && vs[..n] == Visits(es[..i]) && Midway(vs, limit, n)
      invariant Agrees(vs[..n], pos, keys, pks)
    {
      VisitsSplit(es, i);
      if es[i].present {
        AtPrefix(es, i, 0);
        BasesEmpty(es, i);
        if es[i].foreign {
          ForeignRefutes(vs, limit, n, keys, pks);
          return false;
        }
        ghost var m := Pass(vs, limit, n, At(es, i, 0));
        Onward(vs, n, pos, keys, pks);
        n := m;
        var j := 0;
        while j < |es[i].bases|
          invariant j <= |es[i].bases| && n <= |vs| && vs[..n] == At(es, i, j) && Midway(vs, limit, n)
          invariant Agrees(vs[..n], pos, keys, pks)
        {
          var b := es[i].bases[j];
          AtStep(es, i, j);
          AtPrefix(es, i, j + 1);
          if b.present {
            assert vs[..n + 1] == At(es, i, j + 1);
            assert vs[n] == Visit(es[i].key, b.primaryKey, b.live, b.foreign);
            if b.foreign {
              ForeignRefutes(vs, limit, n, keys, pks);
              return false;
            }
            if b.live && (pos >= |keys| || pos >= |pks| || keys[pos] != es[i].key || pks[pos] != b.primaryKey) {
              DivergenceRefutes(vs, limit, n, pos, keys, pks);
              return false;
            }
            Onward(vs, n, pos, keys, pks);
            if b.live { pos := pos + 1; }
            if limit > 0 && pos >= limit {
              FillingSettles(vs, limit, n, pos, keys, pks);
              return pos == |keys| && pos == |pks|;
            }
            AgreedLength(vs[..n + 1], pos, keys, pks);
            NotFilled(vs, limit, n);
            n := n + 1;
          }
          j := j + 1;
        }
        AtEnd(es, i);
      }
      i := i + 1;
    }
    assert es[..i] == es;
    ExhaustionSettles(vs, limit, pos, keys, pks);
    return pos == |keys| && pos == |pks|;
  }

  lemma NothingAgreed(vs: seq<Visit>, keys: seq<string>, pks: seq<string>)
    ensures Agrees(vs[..0], 0, keys, pks)
  {
  }

  lemma AgreedLength(seen: seq<Visit>, pos: nat, keys: seq<string>, pks: seq<string>)
    requires Agrees(seen, pos, keys, pks)
    ensures pos == |Live(seen)|
  {
  }

  /** So far: pos live rows, all as the evidence says, and no foreign lock. */
  predicate Agrees(seen: seq<Visit>, pos: nat, keys: seq<string>, pks: seq<string>) {
    && pos == |Live(seen)| && pos <= |keys| && pos <= |pks|
    && Keys(Live(seen)) == keys[..pos] && PrimaryKeys(Live(seen)) == pks[..pos]
    && forall j :: 0 <= j < |seen| ==> !seen[j].foreign
  }

  lemma Onward(vs: seq<Visit>, n: nat, pos: nat, keys: seq<string>, pks: seq<string>)
    requires n < |vs| && Agrees(vs[..n], pos, keys, pks) && !vs[n].foreign
    requires vs[n].live ==> pos < |keys| && pos < |pks| && keys[pos] == vs[n].key && pks[pos] == vs[n].primaryKey
    ensures Agrees(vs[..n + 1], if vs[n].live then pos + 1 else pos, keys, pks)
  {
    LiveStep(vs, n);
    assert forall j :: 0 <= j < n ==> vs[..n][j] == vs[j];
  }
}
