/**
 * Stable reads: what a reader that saw an unmoved version word returns is exactly one
 * published version of its key, however installs, aborts and purges interleave with the copy.
 */
module SiloReads {
  import opened Basics
  import opened Versions
  import opened SiloModel
  import opened SiloLocks
  import opened SiloHistory

  /**
   * How a slot may change in one step: its base version never goes back, and while it stands
   * still the contents stand still too unless an install is in progress.
   */
  predicate SlotMoves(s: State, s': State, x: SlotId)
    requires x in s.slots
  {
    && x in s'.slots && s'.slots[x].key == s.slots[x].key
    && (|| Less(Base(s.slots[x].word), Base(s'.slots[x].word))
        || (&& Base(s'.slots[x].word) == Base(s.slots[x].word)
            && (BeingInstalled(s', x)
                || (s'.slots[x].bytes == s.slots[x].bytes && !BeingInstalled(s, x)))))
  }

  predicate AllSlotsMove(s: State, s': State) {
    forall x :: x in s.slots ==> SlotMoves(s, s', x)
  }

  lemma SameSlotsMove(s: State, s': State)
    requires s'.slots == s.slots
    requires forall x :: x in s.slots && BeingInstalled(s, x) ==> BeingInstalled(s', x)
    ensures AllSlotsMove(s, s')
  {
  }

  /** What a committer step leaves alone, without looking into the step. */
  lemma TxnStepFrame(s: State, t: TxnId, a: CommitAct, s': State)
    requires TxnStep(s, t, a, s')
    ensures Frame(s, s', t)
    ensures a != Publish ==> s'.hist == s.hist
    ensures !a.Resolve? && a != LockItem && !a.Tear? && a != Install && a != Publish && !a.Unlock? ==> SameRows(s, s')
    ensures t !in s.txns <==> a.Begin?
  {
    hide DoBegin, DoResolve, DoSort, DoLockItem, DoCheckItem, DoPoint, DoLookUp, DoValidate, DoGiveUp, DoDecide,
      DoTear, DoInstall, DoInstalled, DoPublish, DoRegister, DoUnlock, DoUnlocked, Frame, SameRows;
    if a.Resolve? || a == LockItem || a.Tear? || a == Install || a.Unlock? { }
    else if a != Publish { TxnStepSameRows(s, t, a, s'); }
  }

  lemma TxnStepSameRows(s: State, t: TxnId, a: CommitAct, s': State)
    requires TxnStep(s, t, a, s')
    requires !a.Resolve? && a != LockItem && !a.Tear? && a != Install && a != Publish && !a.Unlock?
    ensures SameRows(s, s') && s'.hist == s.hist
  {
    hide DoBegin, DoResolve, DoSort, DoLockItem, DoCheckItem, DoPoint, DoLookUp, DoValidate, DoGiveUp, DoDecide,
      DoTear, DoInstall, DoInstalled, DoPublish, DoRegister, DoUnlock, DoUnlocked, Frame;
  }

  /** A new version word in one slot; the others stand still. */
  lemma NewWordMoves(s: State, s': State, t: TxnId, i: SlotId)
    requires Frame(s, s', t) && i in s.slots && i in s'.slots
    requires s'.slots == s.slots[i := s'.slots[i]] && s'.slots[i].key == s.slots[i].key
    requires Less(Base(s.slots[i].word), Base(s'.slots[i].word))
    ensures AllSlotsMove(s, s')
  {
    hide Less, Base, Committed;
  }

  lemma NothingIsNewer(w: Tid)
    requires w != EMPTY
    ensures Less(EMPTY, w)
  {
  }

  lemma UnlockedIsBase(w: Tid)
    requires !Locked(w)
    ensures Base(w) == w
  {
  }

  /** What a commit publishes is newer than what the slot showed. */
  lemma PublishedIsNewer(s: State, t: TxnId)
    requires LockInv(s) && HistInv(s) && CanPublish(s, t)
    ensures var sl := s.slots[s.txns[t].order[s.txns[t].next]];
            Less(Base(sl.word), Base(Successor(sl.word, s.txns[t].epoch)))
  {
    hide LockInv, HistInv, Less, Locked, Base, Successor, Vacant, Effect, WritesKey, Committed;
    var i := s.txns[t].order[s.txns[t].next];
    var w := Successor(s.slots[i].word, s.txns[t].epoch);
    PublishTarget(s, t);
    PublishedTid(s, t);
    SlotOkOf(s, i);
    UnlockedIsBase(w);
    NothingIsNewer(w);
  }

  lemma PublishMoves(s: State, t: TxnId)
    requires LockInv(s) && HistInv(s) && CanPublish(s, t)
    ensures AllSlotsMove(s, DoPublish(s, t))
  {
    hide LockInv, HistInv, AllSlotsMove, Less, Base, Frame, Successor;
    PublishedIsNewer(s, t);
    NewWordMoves(s, DoPublish(s, t), t, s.txns[t].order[s.txns[t].next]);
  }

  lemma LockBitMoves(s: State, s': State, t: TxnId, i: SlotId)
    requires Frame(s, s', t) && t in s.txns && !Committed(s.txns[t]) && i in s.slots && i in s'.slots
    requires s'.slots == s.slots[i := s'.slots[i]] && s'.slots[i].key == s.slots[i].key
    requires Base(s'.slots[i].word) == Base(s.slots[i].word) && s'.slots[i].bytes == s.slots[i].bytes
    requires s.slots[i].owner in {Nobody, ByTxn(t)}
    ensures AllSlotsMove(s, s')
  {
  }

  lemma InstallMoves(s: State, s': State, t: TxnId, i: SlotId)
    requires Frame(s, s', t) && t in s.txns && Committed(s.txns[t]) && i in s.slots && i in s'.slots
    requires s'.slots == s.slots[i := s'.slots[i]] && s'.slots[i] == s.slots[i].(bytes := s'.slots[i].bytes)
    requires s.slots[i].owner == ByTxn(t)
    ensures AllSlotsMove(s, s')
  {
  }

  lemma ResolveMoves(s: State, s': State, t: TxnId)
    requires Frame(s, s', t) && t in s.txns && !Committed(s.txns[t])
    requires forall x :: x in s.slots ==> x in s'.slots && s'.slots[x] == s.slots[x]
    ensures AllSlotsMove(s, s')
  {
  }

  lemma LockItemMoves(s: State, t: TxnId)
    requires LockInv(s) && CanLockItem(s, t)
    ensures AllSlotsMove(s, DoLockItem(s, t))
  {
    hide LockInv, AllSlotsMove;
    var i := s.txns[t].order[s.txns[t].next];
    OwnerOkOf(s, i);
    LockBitMoves(s, DoLockItem(s, t), t, i);
  }

  lemma UnlockMoves(s: State, t: TxnId, x: SlotId)
    requires CanUnlock(s, t, x)
    ensures AllSlotsMove(s, DoUnlock(s, t, x))
  {
    hide AllSlotsMove;
    LockBitMoves(s, DoUnlock(s, t, x), t, x);
  }

  lemma RowInstallMoves(s: State, t: TxnId, bytes: Bytes)
    requires LockInv(s) && HistInv(s) && CanInstall(s, t)
    ensures AllSlotsMove(s, DoTear(s, t, bytes)) && AllSlotsMove(s, DoInstall(s, t))
  {
    hide LockInv, HistInv, AllSlotsMove;
    InstallTarget(s, t);
    InstallMoves(s, DoTear(s, t, bytes), t, s.txns[t].items[s.txns[t].next]);
    InstallMoves(s, DoInstall(s, t), t, s.txns[t].items[s.txns[t].next]);
  }

  lemma SlotResolveMoves(s: State, t: TxnId, blank: SlotId)
    requires CanResolve(s, t, blank)
    ensures AllSlotsMove(s, DoResolve(s, t, blank))
  {
    hide AllSlotsMove;
    ResolveMoves(s, DoResolve(s, t, blank), t);
  }

  lemma TxnStepMoves(s: State, t: TxnId, a: CommitAct, s': State)
    requires LockInv(s) && HistInv(s) && TxnStep(s, t, a, s')
    ensures AllSlotsMove(s, s')
  {
    hide LockInv, HistInv, AllSlotsMove, DoResolve, DoLockItem, DoTear, DoInstall, DoPublish, DoUnlock;
    if a == Publish { PublishMoves(s, t); }
    else if a == LockItem { LockItemMoves(s, t); }
    else if a.Unlock? { UnlockMoves(s, t, a.x); }
    else if a.Tear? { RowInstallMoves(s, t, a.bytes); }
    else if a == Install { RowInstallMoves(s, t, []); }
    else if a.Resolve? { SlotResolveMoves(s, t, a.blank); }
    else { OtherTxnStepMoves(s, t, a, s'); }
  }

  lemma OtherTxnStepMoves(s: State, t: TxnId, a: CommitAct, s': State)
    requires TxnStep(s, t, a, s')
    requires !a.Resolve? && a != LockItem && !a.Tear? && a != Install && a != Publish && !a.Unlock?
    ensures AllSlotsMove(s, s')
  {
    hide TxnStep, AllSlotsMove;
    TxnStepFrame(s, t, a, s');
    SameSlotsMove(s, s');
  }

  lemma ReaperStepMoves(s: State, a: ReapAct, s': State)
    requires LockInv(s) && HistInv(s) && ReaperStep(s, a, s')
    ensures AllSlotsMove(s, s')
  {
    hide LockInv, HistInv;
    TableOf(s);
    if a == Lock { OwnerOkOf(s, s.reaper.c.slot); }
  }

  lemma ReaderKeepsRows(s: State, r: ReaderId, a: ReadAct, s': State)
    requires ReaderStep(s, r, a, s')
    ensures s'.slots == s.slots && s'.txns == s.txns
  {
  }

  lemma StepMoves(s: State, a: Action, s': State)
    requires LockInv(s) && HistInv(s) && Step(s, a, s')
    ensures AllSlotsMove(s, s')
  {
    hide LockInv, HistInv, AllSlotsMove, TxnStep, ReaperStep, ReaderStep, Committed;
    match a
    case Tick => SameSlotsMove(s, s');
    case ReaderAct(r, ra) =>
      ReaderKeepsRows(s, r, ra, s');
      SameSlotsMove(s, s');
    case TxnAct(t, ca) => TxnStepMoves(s, t, ca, s');
    case ReaperAct(pa) => ReaperStepMoves(s, pa, s');
  }

  // ----- Evidence -----------------------------------------------------------------------

  predicate IsVersion(h: seq<Version>, tid: Tid, bytes: Bytes) {
    exists i :: 0 <= i < |h| && h[i].tid == tid && h[i].bytes == bytes
  }

  /** A present read names a published version of its key and its contents. */
  predicate Genuine(s: State, e: Read) {
    if e.found then e.bytes != [] && IsVersion(Hist(s, e.key), e.tid, e.bytes) else e.bytes == []
  }

  predicate ReaderOk(s: State, rd: Reader) {
    && rd.slot in s.slots && s.slots[rd.slot].key == rd.key
    && (rd.sample.Some? ==>
          var w := Base(s.slots[rd.slot].word);
          && !Locked(rd.sample.value)
          && (rd.sample.value == w || Less(rd.sample.value, w))
          && (rd.sample.value == w && rd.size.Some? && !BeingInstalled(s, rd.slot) ==>
                var bytes := s.slots[rd.slot].bytes;
                rd.size.value == |bytes| && |rd.got| <= |bytes| && rd.got == bytes[..|rd.got|]))
  }

  predicate ReadInv(s: State) {
    && (forall r :: r in s.readers ==> ReaderOk(s, s.readers[r]))
    && (forall e :: e in s.evidence ==> Genuine(s, e))
    && (forall t, i :: t in s.txns && 0 <= i < |s.txns[t].readSet| ==> Genuine(s, s.txns[t].readSet[i]))
  }

  ghost predicate HistGrows(s: State, s': State) {
    forall k :: Hist(s, k) <= Hist(s', k)
  }

  lemma StepGrowsHist(s: State, a: Action, s': State)
    requires Step(s, a, s')
    ensures HistGrows(s, s')
  {
    hide TxnStep, ReaperStep, ReaderStep, Frame, SameRows;
    match a
    case TxnAct(t, ca) =>
      TxnStepFrame(s, t, ca, s');
      if ca == Publish { PublishGrowsHist(s, t, s'); }
    case ReaperAct(pa) => ReaperKeepsHist(s, pa, s');
    case ReaderAct(r, ra) => ReaderKeepsHist(s, r, ra, s');
    case Tick =>
  }

  lemma ReaperKeepsHist(s: State, a: ReapAct, s': State)
    requires ReaperStep(s, a, s')
    ensures s'.hist == s.hist
  {
  }

  lemma ReaderKeepsHist(s: State, r: ReaderId, a: ReadAct, s': State)
    requires ReaderStep(s, r, a, s')
    ensures s'.hist == s.hist
  {
  }

  lemma PublishGrowsHist(s: State, t: TxnId, s': State)
    requires TxnStep(s, t, Publish, s')
    ensures HistGrows(s, s')
  {
  }

  lemma GenuineFrame(s: State, s': State, e: Read)
    requires Genuine(s, e) && HistGrows(s, s')
    ensures Genuine(s', e)
  {
    if e.found {
      var h, h' := Hist(s, e.key), Hist(s', e.key);
      var i :| 0 <= i < |h| && h[i].tid == e.tid && h[i].bytes == e.bytes;
      assert h'[i] == h[i];
    }
  }

  lemma ReaderFrame(s: State, s': State, rd: Reader)
    requires ReaderOk(s, rd) && AllSlotsMove(s, s')
    ensures ReaderOk(s', rd)
  {
    assert SlotMoves(s, s', rd.slot);
  }

  lemma ReadInvInit(s: State)
    requires Init(s)
    ensures ReadInv(s)
  {
  }

  /** Everything but reader steps and new requests: the readers and requests are the same. */
  lemma OtherStepKeepsReadInv(s: State, a: Action, s': State)
    requires LockInv(s) && HistInv(s) && ReadInv(s) && Step(s, a, s') && !a.ReaderAct?
    ensures ReadInv(s')
  {
    hide LockInv, HistInv, ReaderOk, Genuine, AllSlotsMove, HistGrows, TxnStep, ReaperStep;
    StepMoves(s, a, s');
    StepGrowsHist(s, a, s');
    SameReaders(s, a, s');
    forall r | r in s'.readers ensures ReaderOk(s', s'.readers[r]) { ReaderFrame(s, s', s.readers[r]); }
    forall e | e in s'.evidence ensures Genuine(s', e) { GenuineFrame(s, s', e); }
    forall t, i | t in s'.txns && 0 <= i < |s'.txns[t].readSet| ensures Genuine(s', s'.txns[t].readSet[i]) {
      var e := s'.txns[t].readSet[i];
      if t in s.txns {
        SameReadSet(s, a, s', t);
        GenuineFrame(s, s', e);
      } else {
        NewReadSet(s, a, s', t, i);
      }
    }
  }

  lemma SameReaders(s: State, a: Action, s': State)
    requires Step(s, a, s') && !a.ReaderAct?
    ensures s'.readers == s.readers && s'.evidence == s.evidence
  {
    hide TxnStep, ReaperStep;
    if a.TxnAct? {
      TxnStepFrame(s, a.t, a.ca, s');
    } else if a.ReaperAct? {
      ReaperKeepsReaders(s, a.pa, s');
    }
  }

  lemma ReaperKeepsReaders(s: State, a: ReapAct, s': State)
    requires ReaperStep(s, a, s')
    ensures s'.readers == s.readers && s'.evidence == s.evidence && s'.txns == s.txns && s'.initial == s.initial
    ensures s'.epoch == s.epoch
  {
  }

  lemma SameReadSet(s: State, a: Action, s': State, t: TxnId)
    requires Step(s, a, s') && t in s.txns && t in s'.txns
    ensures s'.txns[t].readSet == s.txns[t].readSet
  {
    hide TxnStep, ReaperStep;
    if a.TxnAct? {
      TxnStepFrame(s, a.t, a.ca, s');
    } else if a.ReaperAct? {
      ReaperKeepsReaders(s, a.pa, s');
    }
  }

  lemma NewTxn(s: State, a: Action, s': State, t: TxnId)
    requires Step(s, a, s') && t !in s.txns && t in s'.txns
    ensures a.TxnAct? && a.t == t && a.ca.Begin?
  {
    hide TxnStep, ReaperStep;
    if a.TxnAct? {
      TxnStepFrame(s, a.t, a.ca, s');
    } else if a.ReaperAct? {
      ReaperKeepsReaders(s, a.pa, s');
    }
  }

  lemma NewReadSet(s: State, a: Action, s': State, t: TxnId, i: nat)
    requires ReadInv(s) && Step(s, a, s') && t !in s.txns && t in s'.txns && i < |s'.txns[t].readSet|
    ensures Genuine(s', s'.txns[t].readSet[i])
  {
    hide Genuine;
    var e := s'.txns[t].readSet[i];
    NewTxn(s, a, s', t);
    assert if e.found then e in s.evidence else e.bytes == [];
    AbsentIsGenuine(s, e);
    StepGrowsHist(s, a, s');
    GenuineFrame(s, s', e);
  }

  lemma AbsentIsGenuine(s: State, e: Read)
    ensures !e.found && e.bytes == [] ==> Genuine(s, e)
  {
  }

  /** A reader that finds its word unmoved has copied the contents that word belongs to. */
  lemma ReadEndIsGenuine(s: State, r: ReaderId)
    requires LockInv(s) && HistInv(s) && ReadInv(s) && CanReadEnd(s, r)
    requires s.slots[s.readers[r].slot].word == s.readers[r].sample.value
    ensures var rd := s.readers[r]; Genuine(s, Read(rd.key, |rd.got| > 0, rd.sample.value, rd.got))
  {
    hide LockInv, HistInv;
    var rd := s.readers[r];
    assert ReaderOk(s, rd);
    OwnerOkOf(s, rd.slot);
    SlotOkOf(s, rd.slot);
    assert !BeingInstalled(s, rd.slot);
    assert rd.got == s.slots[rd.slot].bytes;
    if |rd.got| > 0 {
      var h := Hist(s, rd.key);
      assert h != [];
      assert h[|h| - 1].tid == rd.sample.value && h[|h| - 1].bytes == rd.got;
    }
  }

  /** A step that changes one reader and nothing else about the database. */
  lemma ReaderKeeps(s: State, r: ReaderId, s': State)
    requires ReadInv(s) && s'.slots == s.slots && s'.hist == s.hist && s'.txns == s.txns && s'.evidence == s.evidence
    requires r in s'.readers && s'.readers == s.readers[r := s'.readers[r]] && ReaderOk(s', s'.readers[r])
    ensures ReadInv(s')
  {
    hide Genuine, ReaderOk;
    SameRowsFrame(s, s');
  }

  lemma ReadEndKeeps(s: State, r: ReaderId)
    requires LockInv(s) && HistInv(s) && ReadInv(s) && CanReadEnd(s, r)
    ensures ReadInv(DoReadEnd(s, r))
  {
    hide LockInv, HistInv, Genuine;
    var s' := DoReadEnd(s, r);
    SameRowsFrame(s, s');
    if s.slots[s.readers[r].slot].word == s.readers[r].sample.value {
      var rd := s.readers[r];
      ReadEndIsGenuine(s, r);
      GenuineSame(s, s', Read(rd.key, |rd.got| > 0, rd.sample.value, rd.got));
    }
  }

  lemma ReadBeginKeeps(s: State, r: ReaderId, k: Key)
    requires LockInv(s) && ReadInv(s) && CanReadBegin(s, r, k)
    ensures ReadInv(DoReadBegin(s, r, k))
  {
    hide LockInv, Genuine;
    TableOf(s);
    ReaderKeeps(s, r, DoReadBegin(s, r, k));
  }

  lemma ReaderStepKeepsReadInv(s: State, r: ReaderId, a: ReadAct, s': State)
    requires LockInv(s) && HistInv(s) && ReadInv(s) && ReaderStep(s, r, a, s')
    ensures ReadInv(s')
  {
    hide LockInv, HistInv, Genuine;
    match a
    case ReadBegin(k) => ReadBeginKeeps(s, r, k);
    case ReadEnd => ReadEndKeeps(s, r);
    case _ => ReaderKeeps(s, r, s');
  }

  lemma GenuineSame(s: State, s': State, e: Read)
    requires s'.hist == s.hist
    ensures Genuine(s', e) == Genuine(s, e)
  {
  }

  lemma SameRowsFrame(s: State, s': State)
    requires s'.slots == s.slots && s'.hist == s.hist && s'.txns == s.txns && ReadInv(s)
    ensures forall e :: e in s.evidence ==> Genuine(s', e)
    ensures forall t, i :: t in s.txns && 0 <= i < |s.txns[t].readSet| ==> Genuine(s', s.txns[t].readSet[i])
    ensures forall r :: r in s.readers ==> ReaderOk(s', s.readers[r])
  {
  }

  lemma StepKeepsReadInv(s: State, a: Action, s': State)
    requires LockInv(s) && HistInv(s) && ReadInv(s) && Step(s, a, s')
    ensures ReadInv(s')
  {
    hide LockInv, HistInv, ReadInv;
    match a
    case ReaderAct(r, ra) => ReaderStepKeepsReadInv(s, r, ra, s');
    case _ => OtherStepKeepsReadInv(s, a, s');
  }
}
