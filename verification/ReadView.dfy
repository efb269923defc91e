/**
 * Columnar read views over rows that writers install in place, cell by cell. Writers publish the
 * replaced row before their first cell; a view fences on the epoch clock, then resolves each slot
 * from the undo entries or from a strip read bracketed by the capture count.
 */
module ReadView {
  import opened Basics
  import opened EpochSpec

  type Slot = nat
  type ViewId = nat
  type ReadId = nat
  /** The cells of a slot, its visibility flag among them. */
  type Row = seq<nat>

  /** One commit's install into a slot. */
  datatype Install = Install(epoch: nat, row: Row)

  /** A before-image, with the auxiliary position of the install that published it. */
  datatype Entry = Entry(epoch: nat, before: Row, index: nat)

  datatype Pc = Checked(seen: bool) | Appended | Ready | Mutating(k: nat)
  datatype Job = Job(t: Thread, row: Row, pc: Pc)

  datatype View = Armed | CutAt(cut: nat) | Fenced(cut: nat)

  /** A strip read in progress: the sampled count, and the cells read once no entry qualified. */
  datatype Op = Op(view: ViewId, x: Slot, count: nat, copied: bool, got: Row)

  datatype Result = Result(view: ViewId, x: Slot, row: Row)

  datatype State = State(
    width: nat,
    clock: Clock,
    held: map<Slot, Thread>,             // row locks
    jobs: map<Slot, Job>,                // installs in progress
    rows: map<Slot, Row>,                // the strips
    base: map<Slot, Row>,                // auxiliary: the rows the run started from
    chain: map<Slot, seq<Install>>,      // auxiliary: every install begun, in order
    undo: map<Slot, seq<Entry>>,
    count: nat,
    poisoned: bool,
    views: map<ViewId, View>,
    ops: map<ReadId, Op>,
    results: set<Result>)

  // ----- The reference: a slot's value at a cut ------------------------------------------------

  /** The row before install i. */
  function Before(base: Row, chain: seq<Install>, i: nat): Row
    requires i <= |chain|
  {
    if i == 0 then base else chain[i - 1].row
  }

  /** The row after the installs of all commits at or below the cut, and of none later. */
  function ValueAt(base: Row, chain: seq<Install>, cut: nat): Row {
    if chain == [] then base
    else if chain[|chain| - 1].epoch <= cut then chain[|chain| - 1].row
    else ValueAt(base, chain[..|chain| - 1], cut)
  }

  predicate Ordered(chain: seq<Install>) {
    forall i, j :: 0 <= i < j < |chain| ==> chain[i].epoch <= chain[j].epoch
  }

  function Undo(s: State, x: Slot): seq<Entry> {
    if x in s.undo then s.undo[x] else []
  }

  /** The oldest entry published by a commit after the cut. */
  function Oldest(es: seq<Entry>, cut: nat): Option<Entry> {
    if es == [] then None
    else if es[0].epoch > cut then Some(es[0])
    else Oldest(es[1..], cut)
  }

  // ----- Steps --------------------------------------------------------------------------------

  datatype Action =
    | DoTick | DoJoin(t: Thread) | DoLeave(t: Thread)
    | DoHold(t: Thread, x: Slot) | DoRelease(x: Slot)
    | DoCheck(x: Slot, row: Row) | DoSkip(x: Slot) | DoOverBudget(x: Slot) | DoAppend(x: Slot) | DoCount(x: Slot)
    | DoStart(x: Slot) | DoCell(x: Slot) | DoFinish(x: Slot) | DoPoison
    | DoArm(v: ViewId) | DoCut(v: ViewId) | DoFence(v: ViewId) | DoEnd(v: ViewId)
    | DoSample(o: ReadId, v: ViewId, x: Slot) | DoCopy(o: ReadId) | DoReadCell(o: ReadId) | DoRecheck(o: ReadId)

  predicate StepTick(s: State, s': State) {
    Tick(s.clock, s'.clock) && s' == s.(clock := s'.clock)
  }

  predicate StepJoin(s: State, t: Thread, s': State) {
    Join(s.clock, t, s'.clock) && s' == s.(clock := s'.clock)
  }

  /** A thread leaves its epoch only after releasing its rows. */
  predicate StepLeave(s: State, t: Thread, s': State) {
    Leave(s.clock, t, s'.clock) && t !in s.held.Values && s' == s.(clock := s'.clock)
  }

  /** Rows are locked before the commit epoch is joined. */
  predicate StepHold(s: State, t: Thread, x: Slot, s': State) {
    x in s.rows && x !in s.held && t !in s.clock.online && s' == s.(held := s.held[x := t])
  }

  predicate StepRelease(s: State, x: Slot, s': State) {
    x in s.held && x !in s.jobs && s' == s.(held := s.held - {x})
  }

  /** The install samples whether any view is active. */
  predicate StepCheck(s: State, x: Slot, row: Row, s': State) {
    && x in s.held && s.held[x] in s.clock.online && x !in s.jobs && |row| == s.width
    && s' == s.(jobs := s.jobs[x := Job(s.held[x], row, Checked(s.views != map[]))])
  }

  predicate At(s: State, x: Slot) {
    x in s.jobs && x in s.rows && x in s.chain && s.jobs[x].t in s.clock.online
  }

  function WithPc(s: State, x: Slot, pc: Pc): State
    requires x in s.jobs
  {
    s.(jobs := s.jobs[x := s.jobs[x].(pc := pc)])
  }

  /** No view was active at the check, or none is active any more under the registry lock. */
  predicate StepSkip(s: State, x: Slot, s': State) {
    At(s, x) && s.jobs[x].pc.Checked? && (!s.jobs[x].pc.seen || s.views == map[]) && s' == WithPc(s, x, Ready)
  }

  /** The byte budget is exceeded: poison, and install without an entry. */
  predicate StepOverBudget(s: State, x: Slot, s': State) {
    At(s, x) && s.jobs[x].pc == Checked(true) && s.views != map[] && s' == WithPc(s, x, Ready).(poisoned := true)
  }

  predicate StepAppend(s: State, x: Slot, s': State) {
    && At(s, x) && s.jobs[x].pc == Checked(true) && s.views != map[]
    && s' == WithPc(s, x, Appended)
               .(undo := s.undo[x := Undo(s, x) + [Entry(s.clock.online[s.jobs[x].t], s.rows[x], |s.chain[x]|)]])
  }

  predicate StepCount(s: State, x: Slot, s': State) {
    At(s, x) && s.jobs[x].pc == Appended && s' == WithPc(s, x, Ready).(count := s.count + 1)
  }

  predicate StepStart(s: State, x: Slot, s': State) {
    && At(s, x) && s.jobs[x].pc == Ready
    && s' == WithPc(s, x, Mutating(0))
               .(chain := s.chain[x := s.chain[x] + [Install(s.clock.online[s.jobs[x].t], s.jobs[x].row)]])
  }

  predicate StepCell(s: State, x: Slot, s': State) {
    && At(s, x) && s.jobs[x].pc.Mutating? && s.jobs[x].pc.k < |s.rows[x]| && s.jobs[x].pc.k < |s.jobs[x].row|
    && var k := s.jobs[x].pc.k;
       s' == WithPc(s, x, Mutating(k + 1)).(rows := s.rows[x := s.rows[x][k := s.jobs[x].row[k]]])
  }

  predicate StepFinish(s: State, x: Slot, s': State) {
    At(s, x) && s.jobs[x].pc == Mutating(s.width) && s' == s.(jobs := s.jobs - {x})
  }

  /** An install outside any commit epoch poisons the generation. */
  predicate StepPoison(s: State, s': State) {
    s' == s.(poisoned := true)
  }

  /** A poisoned generation takes no new members. */
  predicate StepArm(s: State, v: ViewId, s': State) {
    v !in s.views && !(s.views != map[] && s.poisoned) && (forall r :: r in s.results ==> r.view != v)
    && s' == s.(views := s.views[v := Armed])
  }

  /** The cut is loaded after arming. */
  predicate StepCut(s: State, v: ViewId, s': State) {
    v in s.views && s.views[v] == Armed && s' == s.(views := s.views[v := CutAt(s.clock.now)])
  }

  predicate StepFence(s: State, v: ViewId, s': State) {
    v in s.views && s.views[v].CutAt? && s.clock.now >= s.views[v].cut + 2
        && s' == s.(views := s.views[v := Fenced(s.views[v].cut)])
  }

  /** The release of the last view clears the entries, the count and the poison. */
  predicate StepEnd(s: State, v: ViewId, s': State) {
    && v in s.views && (forall o :: o in s.ops ==> s.ops[o].view != v)
    && (forall x :: x in s.jobs ==> s.jobs[x].pc != Appended)
    && s' == if s.views.Keys == {v} then s.(views := map[], undo := map[], count := 0, poisoned := false)
             else s.(views := s.views - {v})
  }

  predicate StepSample(s: State, o: ReadId, v: ViewId, x: Slot, s': State) {
    && o !in s.ops && v in s.views && s.views[v].Fenced? && x in s.rows
    && s' == s.(ops := s.ops[o := Op(v, x, s.count, false, [])])
  }

  predicate OpAt(s: State, o: ReadId) {
    o in s.ops && s.ops[o].view in s.views && s.views[s.ops[o].view].Fenced? && s.ops[o].x in s.rows
  }

  /** Copy the entries: the oldest one past the cut settles the slot, else the strip is read. */
  predicate StepCopy(s: State, o: ReadId, s': State) {
    && OpAt(s, o) && !s.ops[o].copied
    && var op := s.ops[o];
       var e := Oldest(Undo(s, op.x), s.views[op.view].cut);
       s' == if e.Some? then s.(ops := s.ops - {o}, results := s.results + {Result(op.view, op.x, e.value.before)})
             else s.(ops := s.ops[o := op.(copied := true, got := [])])
  }

  predicate StepReadCell(s: State, o: ReadId, s': State) {
    && OpAt(s, o) && s.ops[o].copied && |s.ops[o].got| < |s.rows[s.ops[o].x]|
    && var op := s.ops[o];
       s' == s.(ops := s.ops[o := op.(got := op.got + [s.rows[op.x][|op.got|]])])
  }

  /** An unchanged count accepts the strip read; a changed one drops it. */
  predicate StepRecheck(s: State, o: ReadId, s': State) {
    && OpAt(s, o) && s.ops[o].copied && |s.ops[o].got| == s.width
    && var op := s.ops[o];
       s' == s.(ops := s.ops - {o},
                results := if s.count == op.count then s.results + {Result(op.view, op.x, op.got)} else s.results)
  }

  predicate Step(s: State, a: Action, s': State) {
    match a
    case DoTick => StepTick(s, s')
    case DoJoin(t) => StepJoin(s, t, s')
    case DoLeave(t) => StepLeave(s, t, s')
    case DoHold(t, x) => StepHold(s, t, x, s')
    case DoRelease(x) => StepRelease(s, x, s')
    case DoCheck(x, row) => StepCheck(s, x, row, s')
    case DoSkip(x) => StepSkip(s, x, s')
    case DoOverBudget(x) => StepOverBudget(s, x, s')
    case DoAppend(x) => StepAppend(s, x, s')
    case DoCount(x) => StepCount(s, x, s')
    case DoStart(x) => StepStart(s, x, s')
    case DoCell(x) => StepCell(s, x, s')
    case DoFinish(x) => StepFinish(s, x, s')
    case DoPoison => StepPoison(s, s')
    case DoArm(v) => StepArm(s, v, s')
    case DoCut(v) => StepCut(s, v, s')
    case DoFence(v) => StepFence(s, v, s')
    case DoEnd(v) => StepEnd(s, v, s')
    case DoSample(o, v, x) => StepSample(s, o, v, x, s')
    case DoCopy(o) => StepCopy(s, o, s')
    case DoReadCell(o) => StepReadCell(s, o, s')
    case DoRecheck(o) => StepRecheck(s, o, s')
  }

  predicate Init(s: State) {
    && s.clock.online == map[] && s.held == map[] && s.jobs == map[] && s.base == s.rows
    && (forall x :: x in s.rows ==> |s.rows[x]| == s.width)
    && s.chain.Keys == s.rows.Keys && (forall x :: x in s.chain ==> s.chain[x] == [])
    && s.undo == map[] && s.count == 0 && !s.poisoned && s.views == map[] && s.ops == map[] && s.results == {}
  }

  predicate IsRun(run: seq<State>, acts: seq<Action>) {
    |run| == |acts| + 1 && Init(run[0]) && forall i :: 0 <= i < |acts| ==> Step(run[i], acts[i], run[i + 1])
  }

  // ----- Invariant ------------------------------------------------------------------------------

  /** Every active view's cut is at or above an epoch. */
  predicate CutsCover(s: State, epoch: nat) {
    forall v :: v in s.views && !s.views[v].Armed? ==> epoch <= s.views[v].cut
  }

  predicate HasEntry(s: State, x: Slot, i: nat) {
    exists j :: 0 <= j < |Undo(s, x)| && Undo(s, x)[j].index == i
  }

  predicate LocksOk(s: State) {
    && Bounded(s.clock)
    && s.chain.Keys == s.rows.Keys == s.base.Keys && s.jobs.Keys <= s.held.Keys <= s.rows.Keys
       && s.undo.Keys <= s.rows.Keys
    && (forall x :: x in s.rows ==> |s.rows[x]| == s.width && |s.base[x]| == s.width)
    && (forall x :: x in s.jobs ==>
        s.jobs[x].t == s.held[x] && s.jobs[x].t in s.clock.online && |s.jobs[x].row| == s.width)
  }

  /** Installs into a slot are in epoch order, none past the clock nor past the lock holder. */
  predicate ChainOk(s: State, x: Slot)
    requires x in s.chain
  {
    && Ordered(s.chain[x])
    && (forall i :: 0 <= i < |s.chain[x]| ==> |s.chain[x][i].row| == s.width)
    && (s.chain[x] != [] ==> s.chain[x][|s.chain[x]| - 1].epoch <= s.clock.now)
    && (s.chain[x] != [] && x in s.held && s.held[x] in s.clock.online ==>
          s.chain[x][|s.chain[x]| - 1].epoch <= s.clock.online[s.held[x]])
  }

  /** Between installs the strip is the last row; during one it is part new, part old. */
  predicate StripOk(s: State, x: Slot)
    requires x in s.chain && x in s.rows && x in s.base && LocksOk(s)
  {
    var c := s.chain[x];
    if x in s.jobs && s.jobs[x].pc.Mutating? then
      && c != [] && s.jobs[x].pc.k <= s.width && c[|c| - 1] == Install(s.clock.online[s.jobs[x].t], s.jobs[x].row)
      && |Before(s.base[x], c, |c| - 1)| == s.width
      && s.rows[x] == s.jobs[x].row[..s.jobs[x].pc.k] + Before(s.base[x], c, |c| - 1)[s.jobs[x].pc.k..]
    else s.rows[x] == Before(s.base[x], c, |c|)
  }

  /** Entries are in install order, each with the epoch and the before-image of its install. */
  predicate UndoOk(s: State, x: Slot)
    requires x in s.chain && x in s.base && LocksOk(s)
  {
    var c, es := s.chain[x], Undo(s, x);
    && (forall i, j :: 0 <= i < j < |es| ==> es[i].index < es[j].index)
    && (forall j :: 0 <= j < |es| ==>
          && es[j].index <= |c| && es[j].before == Before(s.base[x], c, es[j].index)
          && (es[j].index < |c| ==> es[j].epoch == c[es[j].index].epoch)
          && (es[j].index == |c| ==>
                x in s.jobs && (s.jobs[x].pc == Appended || s.jobs[x].pc == Ready)
                    && es[j].epoch == s.clock.online[s.jobs[x].t]))
    && (x in s.jobs && s.jobs[x].pc == Appended ==> HasEntry(s, x, |c|))
  }

  /** Every install past some active cut left an entry, unless the generation is poisoned. */
  predicate CompleteOk(s: State, x: Slot)
    requires x in s.chain && LocksOk(s)
  {
    && (forall i :: 0 <= i < |s.chain[x]| ==> HasEntry(s, x, i) || CutsCover(s, s.chain[x][i].epoch))
    && (x in s.jobs && s.jobs[x].pc.Checked? && !s.jobs[x].pc.seen ==> CutsCover(s, s.clock.online[s.jobs[x].t]))
    && (x in s.jobs && s.jobs[x].pc == Ready ==>
          HasEntry(s, x, |s.chain[x]|) || CutsCover(s, s.clock.online[s.jobs[x].t]))
  }

  predicate ViewsOk(s: State) {
    forall v :: v in s.views ==>
      match s.views[v]
      case Armed => true
      case CutAt(cut) => cut <= s.clock.now
      case Fenced(cut) => cut + 2 <= s.clock.now
  }

  /** While the count stands, nothing past the cut has begun, and the cells read are the cut's. */
  predicate OpOk(s: State, op: Op)
    requires LocksOk(s)
  {
    && op.view in s.views && s.views[op.view].Fenced? && op.x in s.rows && op.count <= s.count
    && (op.copied && !s.poisoned && op.count == s.count ==>
          var cut := s.views[op.view].cut;
          && (forall i :: 0 <= i < |s.chain[op.x]| ==> s.chain[op.x][i].epoch <= cut)
          && (forall j :: 0 <= j < |Undo(s, op.x)| && Undo(s, op.x)[j].epoch > cut ==>
                op.x in s.jobs && s.jobs[op.x].pc == Appended)
          && |op.got| <= s.width && op.got <= Before(s.base[op.x], s.chain[op.x], |s.chain[op.x]|))
  }

  /** A result of an active, unpoisoned view is the slot's value at its cut. */
  predicate ResultOk(s: State, r: Result)
    requires LocksOk(s)
  {
    r.view in s.views && !s.poisoned ==>
      s.views[r.view].Fenced? && r.x in s.rows && r.row == ValueAt(s.base[r.x], s.chain[r.x], s.views[r.view].cut)
  }

  predicate SlotOk(s: State, x: Slot)
    requires LocksOk(s) && x in s.rows
  {
    ChainOk(s, x) && StripOk(s, x) && UndoOk(s, x) && (s.poisoned || CompleteOk(s, x))
  }

  predicate Inv(s: State) {
    && LocksOk(s) && (forall x :: x in s.rows ==> SlotOk(s, x)) && ViewsOk(s)
    && (forall o :: o in s.ops ==> OpOk(s, s.ops[o])) && (forall r :: r in s.results ==> ResultOk(s, r))
  }

  // ----- Frames ---------------------------------------------------------------------------------

  /** Everything said about slot x is unchanged, and the cuts it must respect are no more. */
  predicate SameSlot(s: State, s': State, x: Slot) {
    && x in s.rows && x in s'.rows && x in s.base && x in s'.base && x in s.chain && x in s'.chain
    && s'.width == s.width && s'.rows[x] == s.rows[x] && s'.base[x] == s.base[x] && s'.chain[x] == s.chain[x]
    && Undo(s', x) == Undo(s, x)
    && (x in s'.jobs <==> x in s.jobs) && (x in s.jobs ==> s'.jobs[x] == s.jobs[x])
    && (x in s.jobs && s.jobs[x].t in s.clock.online ==>
          s.jobs[x].t in s'.clock.online && s'.clock.online[s.jobs[x].t] == s.clock.online[s.jobs[x].t])
    && s.clock.now <= s'.clock.now
  }

  predicate FewerCuts(s: State, s': State) {
    && (s.poisoned ==> s'.poisoned)
    && forall v :: v in s'.views && !s'.views[v].Armed? ==>
      v in s.views && !s.views[v].Armed? && s.views[v].cut == s'.views[v].cut
  }

  lemma SlotFrame(s: State, s': State, x: Slot)
    requires LocksOk(s) && LocksOk(s') && x in s.rows && SlotOk(s, x) && SameSlot(s, s', x) && FewerCuts(s, s')
    requires x in s'.held && s'.held[x] in s'.clock.online && s.chain[x] != [] ==>
               s.chain[x][|s.chain[x]| - 1].epoch <= s'.clock.online[s'.held[x]]
    ensures SlotOk(s', x)
  {
    hide HasEntry, CutsCover, CompleteOk, Ordered, Before, FewerCuts;
    if !s.poisoned { CompleteFrame(s, s', x); }
    if x in s.jobs && s.jobs[x].pc == Appended { SameEntry(s, s', x, |s.chain[x]|); }
    Poisoning(s, s');
  }

  lemma SameEntry(s: State, s': State, x: Slot, i: nat)
    requires Undo(s', x) == Undo(s, x) && HasEntry(s, x, i)
    ensures HasEntry(s', x, i)
  {
  }

  lemma Poisoning(s: State, s': State)
    requires FewerCuts(s, s')
    ensures s.poisoned ==> s'.poisoned
  {
  }

  lemma CompleteFrame(s: State, s': State, x: Slot)
    requires LocksOk(s) && LocksOk(s') && x in s.rows && SameSlot(s, s', x) && FewerCuts(s, s') && CompleteOk(s, x)
    ensures CompleteOk(s', x)
  {
    forall i | HasEntry(s, x, i) ensures HasEntry(s', x, i) { }
    forall e | CutsCover(s, e) ensures CutsCover(s', e) { }
  }

  /** What a read in progress depends on: installs, entries, and who is between append and count. */
  predicate SameForOp(s: State, s': State, x: Slot) {
    && x in s.rows && x in s'.rows && x in s.base && x in s'.base && x in s.chain && x in s'.chain
    && s'.width == s.width && s'.base[x] == s.base[x] && s'.chain[x] == s.chain[x] && Undo(s', x) == Undo(s, x)
    && (x in s.jobs && s.jobs[x].pc == Appended ==> x in s'.jobs && s'.jobs[x].pc == Appended)
  }

  lemma OpFrame(s: State, s': State, op: Op)
    requires LocksOk(s) && LocksOk(s') && OpOk(s, op) && SameForOp(s, s', op.x)
    requires op.view in s'.views && s'.views[op.view] == s.views[op.view] && s.count <= s'.count
    requires (s.poisoned ==> s'.poisoned)
    ensures OpOk(s', op)
  {
  }

  lemma ResultFrame(s: State, s': State, r: Result)
    requires LocksOk(s) && LocksOk(s') && ResultOk(s, r)
    requires r.view in s'.views ==>
               r.view in s.views && (s.views[r.view].Fenced? ==> s'.views[r.view] == s.views[r.view])
    requires s.poisoned ==> s'.poisoned
    requires s'.base == s.base && s'.chain == s.chain && s'.rows.Keys == s.rows.Keys
    ensures ResultOk(s', r)
  {
  }

  // ----- Steps keep the invariant -------------------------------------------------------------------

  lemma ChainOf(s: State, x: Slot)
    requires LocksOk(s) && x in s.rows && SlotOk(s, x)
    ensures ChainOk(s, x)
  {
  }

  /** Readers do not notice a step that leaves installs, entries, views and results alone. */
  lemma Readers(s: State, s': State)
    requires Inv(s) && LocksOk(s')
    requires forall x :: x in s.rows ==> SameForOp(s, s', x)
    requires s'.base == s.base && s'.chain == s.chain && s'.rows.Keys == s.rows.Keys && s'.views == s.views
    requires s.count <= s'.count && (s.poisoned ==> s'.poisoned) && s'.ops == s.ops && s'.results == s.results
    ensures (forall o :: o in s'.ops ==> OpOk(s', s'.ops[o])) && (forall r :: r in s'.results ==> ResultOk(s', r))
  {
    hide ResultOk, SameForOp, SlotOk, ViewsOk;
    forall o | o in s'.ops ensures OpOk(s', s'.ops[o]) { OpFrame(s, s', s.ops[o]); }
    forall r | r in s'.results ensures ResultOk(s', r) { ResultFrame(s, s', r); }
  }

  /** Slots keep what is said of them when locks, clock and views move on around them. */
  lemma Slots(s: State, s': State)
    requires Inv(s) && LocksOk(s') && FewerCuts(s, s') && s'.rows.Keys == s.rows.Keys
    requires forall x :: x in s.rows ==> SameSlot(s, s', x)
    requires forall x :: x in s.rows ==> HolderLate(s, s', x)
    ensures forall x :: x in s'.rows ==> SlotOk(s', x)
  {
    hide SlotOk, OpOk, ResultOk, SameSlot, FewerCuts;
    forall x | x in s'.rows ensures SlotOk(s', x) {
      assert SlotOk(s, x);
      SlotFrame(s, s', x);
    }
  }

  lemma Chains(s: State)
    requires Inv(s)
    ensures forall x :: x in s.rows ==> ChainOk(s, x)
  {
    hide SlotOk, ChainOk;
    forall x | x in s.rows ensures ChainOk(s, x) { ChainOf(s, x); }
  }

  /** What a step of the clock or of a lock leaves alone. */
  predicate Around(s: State, s': State) {
    && s'.width == s.width && s'.jobs == s.jobs && s'.rows == s.rows && s'.base == s.base && s'.chain == s.chain
    && s'.undo == s.undo && s'.count == s.count && s'.poisoned == s.poisoned && s'.views == s.views
    && s'.ops == s.ops && s'.results == s.results && s.clock.now <= s'.clock.now
    && (forall x :: x in s.jobs ==> JobStays(s, s', x)) && (forall x :: x in s.rows ==> HolderLate(s, s', x))
  }

  /** The thread installing at x is still online where it was. */
  predicate JobStays(s: State, s': State, x: Slot) {
    x in s.jobs && s.jobs[x].t in s.clock.online ==>
      s.jobs[x].t in s'.clock.online && s'.clock.online[s.jobs[x].t] == s.clock.online[s.jobs[x].t]
  }

  /** Whoever holds x has joined no earlier than its last install. */
  predicate HolderLate(s: State, s': State, x: Slot) {
    x in s.chain && s.chain[x] != [] && x in s'.held && s'.held[x] in s'.clock.online ==>
      s.chain[x][|s.chain[x]| - 1].epoch <= s'.clock.online[s'.held[x]]
  }

  lemma AroundSame(s: State, s': State, x: Slot)
    requires Around(s, s') && x in s.rows && x in s.base && x in s.chain
    ensures SameSlot(s, s', x) && SameForOp(s, s', x)
  {
    hide HolderLate;
  }

  lemma AroundParts(s: State, s': State)
    requires LocksOk(s) && Around(s, s')
    ensures FewerCuts(s, s') && s'.rows == s.rows && s'.base == s.base && s'.chain == s.chain && s'.views == s.views
    ensures s'.count == s.count && s'.poisoned == s.poisoned && s'.ops == s.ops && s'.results == s.results
    ensures forall x :: x in s.rows ==> HolderLate(s, s', x)
  {
    hide JobStays, HolderLate;
  }

  lemma AroundKeeps(s: State, s': State)
    requires Inv(s) && LocksOk(s') && Around(s, s') && ViewsOk(s')
    ensures Inv(s')
  {
    hide SlotOk, OpOk, ResultOk, ViewsOk, SameSlot, SameForOp, Around, FewerCuts, HolderLate;
    AroundParts(s, s');
    forall x | x in s.rows ensures SameSlot(s, s', x) && SameForOp(s, s', x) { AroundSame(s, s', x); }
    Slots(s, s');
    Readers(s, s');
  }

  lemma TickFrame(s: State, s': State)
    requires LocksOk(s) && (forall x :: x in s.rows ==> ChainOk(s, x)) && StepTick(s, s')
    ensures LocksOk(s') && Around(s, s')
  {
  }

  lemma JoinFrame(s: State, t: Thread, s': State)
    requires LocksOk(s) && (forall x :: x in s.rows ==> ChainOk(s, x)) && StepJoin(s, t, s')
    ensures LocksOk(s') && Around(s, s')
  {
    hide ChainOk, HolderLate, Ordered;
    forall x | x in s.rows ensures HolderLate(s, s', x) { JoinsLate(s, t, s', x); }
  }

  lemma JoinsLate(s: State, t: Thread, s': State, x: Slot)
    requires LocksOk(s) && x in s.rows && ChainOk(s, x) && StepJoin(s, t, s')
    ensures HolderLate(s, s', x)
  {
    hide Ordered;
  }

  lemma LeaveFrame(s: State, t: Thread, s': State)
    requires LocksOk(s) && (forall x :: x in s.rows ==> ChainOk(s, x)) && StepLeave(s, t, s')
    ensures LocksOk(s') && Around(s, s')
  {
  }

  lemma HoldFrame(s: State, t: Thread, x: Slot, s': State)
    requires LocksOk(s) && (forall x :: x in s.rows ==> ChainOk(s, x)) && StepHold(s, t, x, s')
    ensures LocksOk(s') && Around(s, s')
  {
    hide Bounded, Ordered;
  }

  lemma ReleaseFrame(s: State, x: Slot, s': State)
    requires LocksOk(s) && (forall x :: x in s.rows ==> ChainOk(s, x)) && StepRelease(s, x, s')
    ensures LocksOk(s') && Around(s, s')
  {
    hide Bounded, Ordered;
  }

  lemma OutsideKeeps(s: State, a: Action, s': State)
    requires Inv(s) && Step(s, a, s')
    requires a.DoTick? || a.DoJoin? || a.DoLeave? || a.DoHold? || a.DoRelease?
    ensures Inv(s')
  {
    hide SlotOk, OpOk, ResultOk, ViewsOk, LocksOk, ChainOk, Around, StepTick, StepJoin, StepLeave, StepHold,
      StepRelease;
    Chains(s);
    match a {
      case DoTick => TickFrame(s, s');
      case DoJoin(t) => JoinFrame(s, t, s');
      case DoLeave(t) => LeaveFrame(s, t, s');
      case DoHold(t, x) => HoldFrame(s, t, x, s');
      case DoRelease(x) => ReleaseFrame(s, x, s');
    }
    AroundViews(s, s');
    AroundKeeps(s, s');
  }

  lemma AroundViews(s: State, s': State)
    requires ViewsOk(s) && Around(s, s')
    ensures ViewsOk(s')
  {
  }

  /** What a step of the install at x leaves alone. */
  predicate JobFrame(s: State, x: Slot, s': State) {
    && x in s.rows && s'.width == s.width && s'.clock == s.clock && s'.held == s.held && s'.base == s.base
    && s'.rows.Keys == s.rows.Keys && s'.chain.Keys == s.chain.Keys && s'.views == s.views
    && s'.ops == s.ops && s'.results == s.results && s.count <= s'.count && (s.poisoned ==> s'.poisoned)
    && forall y :: y in s.rows && y != x ==> SameSlot(s, s', y)
  }

  lemma OtherSlots(s: State, x: Slot, s': State)
    requires Inv(s) && LocksOk(s') && JobFrame(s, x, s')
    ensures forall y :: y in s.rows && y != x ==> SlotOk(s', y)
  {
    hide SlotOk, OpOk, ResultOk, SameSlot;
    forall y | y in s.rows && y != x ensures SlotOk(s', y) {
      assert SlotOk(s, y);
      ChainOf(s, y);
      SameChain(s, s', y);
      SlotFrame(s, s', y);
    }
  }

  lemma SameChain(s: State, s': State, x: Slot)
    requires SameSlot(s, s', x)
    ensures x in s.chain && x in s'.chain && s'.chain[x] == s.chain[x] && SameForOp(s, s', x)
  {
  }

  /** An install step that starts nothing: given its own slot, the invariant is kept. */
  lemma JobKeeps(s: State, x: Slot, s': State)
    requires Inv(s) && LocksOk(s') && JobFrame(s, x, s') && SlotOk(s', x) && ViewsOk(s')
    requires s'.chain == s.chain && forall o :: o in s.ops && s.ops[o].x == x ==> OpOk(s', s.ops[o])
    ensures Inv(s')
  {
    hide SlotOk, OpOk, ResultOk, SameSlot;
    OtherSlots(s, x, s');
    forall o | o in s'.ops ensures OpOk(s', s'.ops[o]) { JobOp(s, x, s', o); }
    forall r | r in s'.results ensures ResultOk(s', r) { ResultFrame(s, s', r); }
  }

  lemma JobOp(s: State, x: Slot, s': State, o: ReadId)
    requires Inv(s) && LocksOk(s') && JobFrame(s, x, s') && o in s.ops
    requires s.ops[o].x == x ==> OpOk(s', s.ops[o])
    ensures OpOk(s', s.ops[o])
  {
    hide SlotOk, ResultOk, SameSlot;
    var op := s.ops[o];
    assert OpOk(s, op);
    if op.x != x {
      SameChain(s, s', op.x);
      OpFrame(s, s', op);
    }
  }

  lemma AnyCover(s: State, e: nat)
    requires s.views == map[]
    ensures CutsCover(s, e)
  {
  }

  /** Cover and entry tests depend on the views and the entries alone. */
  lemma SameTests(s: State, s': State, x: Slot)
    requires s'.views == s.views && Undo(s', x) == Undo(s, x)
    ensures forall e :: CutsCover(s, e) <==> CutsCover(s', e)
    ensures forall i :: HasEntry(s, x, i) <==> HasEntry(s', x, i)
  {
  }

  /** Appending keeps the entries there are and adds one for the install to come. */
  lemma AppendTests(s: State, s': State, x: Slot)
    requires LocksOk(s) && StepAppend(s, x, s')
    ensures forall e :: CutsCover(s, e) <==> CutsCover(s', e)
    ensures forall i :: HasEntry(s, x, i) ==> HasEntry(s', x, i)
    ensures HasEntry(s', x, |s.chain[x]|)
  {
    var es, es' := Undo(s, x), Undo(s', x);
    assert es'[|es|].index == |s.chain[x]|;
    forall i | HasEntry(s, x, i) ensures HasEntry(s', x, i) {
      var j :| 0 <= j < |es| && es[j].index == i;
      assert es'[j].index == i;
    }
  }

  lemma CheckFrame(s: State, x: Slot, row: Row, s': State)
    requires LocksOk(s) && StepCheck(s, x, row, s')
    ensures LocksOk(s') && JobFrame(s, x, s') && s'.chain == s.chain && ViewsSame(s, s')
  {
    hide Bounded;
  }

  lemma CheckSlot(s: State, x: Slot, row: Row, s': State)
    requires LocksOk(s) && LocksOk(s') && StepCheck(s, x, row, s') && x in s.rows && SlotOk(s, x)
    ensures SlotOk(s', x)
  {
    hide CutsCover, HasEntry, LocksOk, ChainOk, StripOk, UndoOk;
    JobAt(s', x);
    KeysAt(s, x);
    PendingSlot(s, x, s');
    if s.views == map[] { AnyCover(s', s'.clock.online[s'.jobs[x].t]); }
    SameTests(s, s', x);
    assert !s.poisoned ==> CompleteOk(s', x);
  }

  lemma JobAt(s: State, x: Slot)
    requires LocksOk(s) && x in s.jobs
    ensures s.jobs[x].t in s.clock.online && s.jobs[x].t == s.held[x]
  {
    hide Bounded;
  }

  lemma KeysAt(s: State, x: Slot)
    requires LocksOk(s) && x in s.rows
    ensures x in s.chain && x in s.base
  {
    hide Bounded;
  }

  /** An install that has not got as far as an entry leaves chain, strip and entries as they are. */
  lemma PendingSlot(s: State, x: Slot, s': State)
    requires LocksOk(s) && LocksOk(s') && x in s.rows && SlotOk(s, x)
    requires s' == s.(jobs := s'.jobs, poisoned := s'.poisoned) && x in s'.jobs
    requires x in s.jobs ==> s.jobs[x].pc.Checked?
    requires s'.jobs[x].pc.Checked? || s'.jobs[x].pc == Ready
    ensures ChainOk(s', x) && StripOk(s', x) && UndoOk(s', x)
  {
    hide LocksOk, Ordered, Before, CompleteOk, UndoOk;
    KeysAt(s, x);
    PendingUndo(s, x, s');
  }

  lemma PendingUndo(s: State, x: Slot, s': State)
    requires LocksOk(s) && LocksOk(s') && x in s.chain && x in s.base && UndoOk(s, x)
    requires s' == s.(jobs := s'.jobs, poisoned := s'.poisoned) && x in s'.jobs
    requires x in s.jobs ==> s.jobs[x].pc.Checked?
    requires s'.jobs[x].pc.Checked? || s'.jobs[x].pc == Ready
    ensures UndoOk(s', x)
  {
    hide LocksOk, Before, HasEntry;
    assert Undo(s', x) == Undo(s, x);
  }

  lemma CheckOp(s: State, x: Slot, row: Row, s': State, op: Op)
    requires LocksOk(s) && LocksOk(s') && StepCheck(s, x, row, s') && x in s.rows && SlotOk(s, x) && OpOk(s, op)
    requires op.x == x
    ensures OpOk(s', op)
  {
    hide CutsCover, HasEntry, Ordered, Bounded;
  }

  lemma CheckKeeps(s: State, x: Slot, row: Row, s': State)
    requires Inv(s) && StepCheck(s, x, row, s')
    ensures Inv(s')
  {
    hide SlotOk, OpOk, ResultOk, ViewsOk, LocksOk, JobFrame, StepCheck;
    CheckFrame(s, x, row, s');
    JobHere(s, x, s');
    CheckSlot(s, x, row, s');
    forall o | o in s.ops && s.ops[o].x == x ensures OpOk(s', s.ops[o]) { CheckOp(s, x, row, s', s.ops[o]); }
    SameViews(s, s');
    JobKeeps(s, x, s');
  }

  lemma SkipFrame(s: State, x: Slot, s': State)
    requires LocksOk(s) && StepSkip(s, x, s')
    ensures LocksOk(s') && JobFrame(s, x, s') && s'.chain == s.chain && ViewsSame(s, s')
  {
    hide Bounded;
  }

  lemma SkipSlot(s: State, x: Slot, s': State)
    requires LocksOk(s) && LocksOk(s') && StepSkip(s, x, s') && x in s.rows && SlotOk(s, x)
    ensures SlotOk(s', x)
  {
    hide CutsCover, HasEntry, LocksOk, ChainOk, StripOk, UndoOk;
    JobAt(s', x);
    PendingSlot(s, x, s');
    if s.views == map[] { AnyCover(s', s'.clock.online[s'.jobs[x].t]); }
    SameTests(s, s', x);
  }

  lemma SkipOp(s: State, x: Slot, s': State, op: Op)
    requires LocksOk(s) && LocksOk(s') && StepSkip(s, x, s') && x in s.rows && SlotOk(s, x) && OpOk(s, op) && op.x == x
    ensures OpOk(s', op)
  {
    hide CutsCover, HasEntry, Ordered, Bounded;
  }

  lemma SkipKeeps(s: State, x: Slot, s': State)
    requires Inv(s) && StepSkip(s, x, s')
    ensures Inv(s')
  {
    hide SlotOk, OpOk, ResultOk, ViewsOk, LocksOk, JobFrame, StepSkip;
    SkipFrame(s, x, s');
    JobHere(s, x, s');
    SkipSlot(s, x, s');
    forall o | o in s.ops && s.ops[o].x == x ensures OpOk(s', s.ops[o]) { SkipOp(s, x, s', s.ops[o]); }
    SameViews(s, s');
    JobKeeps(s, x, s');
  }

  lemma OverBudgetFrame(s: State, x: Slot, s': State)
    requires LocksOk(s) && StepOverBudget(s, x, s')
    ensures LocksOk(s') && JobFrame(s, x, s') && s'.chain == s.chain && ViewsSame(s, s')
  {
    hide Bounded;
  }

  lemma OverBudgetSlot(s: State, x: Slot, s': State)
    requires LocksOk(s) && LocksOk(s') && StepOverBudget(s, x, s') && x in s.rows && SlotOk(s, x)
    ensures SlotOk(s', x)
  {
    hide CutsCover, HasEntry, LocksOk, ChainOk, StripOk, UndoOk;
    PendingSlot(s, x, s');
  }

  lemma OverBudgetOp(s: State, x: Slot, s': State, op: Op)
    requires LocksOk(s) && LocksOk(s') && StepOverBudget(s, x, s') && x in s.rows && SlotOk(s, x) && OpOk(s, op)
    requires op.x == x
    ensures OpOk(s', op)
  {
    hide CutsCover, HasEntry, Ordered, Bounded;
  }

  lemma OverBudgetKeeps(s: State, x: Slot, s': State)
    requires Inv(s) && StepOverBudget(s, x, s')
    ensures Inv(s')
  {
    hide SlotOk, OpOk, ResultOk, ViewsOk, LocksOk, JobFrame, StepOverBudget;
    OverBudgetFrame(s, x, s');
    JobHere(s, x, s');
    OverBudgetSlot(s, x, s');
    forall o | o in s.ops && s.ops[o].x == x ensures OpOk(s', s.ops[o]) { OverBudgetOp(s, x, s', s.ops[o]); }
    SameViews(s, s');
    JobKeeps(s, x, s');
  }

  lemma AppendFrame(s: State, x: Slot, s': State)
    requires LocksOk(s) && StepAppend(s, x, s')
    ensures LocksOk(s') && JobFrame(s, x, s') && s'.chain == s.chain && ViewsSame(s, s')
  {
    hide LocksOk, SameSlot;
    AppendLocks(s, x, s');
    forall y | y in s.rows && y != x ensures SameSlot(s, s', y) { AppendApart(s, x, s', y); }
  }

  lemma AppendLocks(s: State, x: Slot, s': State)
    requires LocksOk(s) && StepAppend(s, x, s')
    ensures LocksOk(s')
  {
    hide Bounded;
  }

  lemma AppendApart(s: State, x: Slot, s': State, y: Slot)
    requires LocksOk(s) && StepAppend(s, x, s') && y in s.rows && y != x
    ensures SameSlot(s, s', y)
  {
    hide Bounded;
  }

  lemma AppendSlot(s: State, x: Slot, s': State)
    requires LocksOk(s) && LocksOk(s') && StepAppend(s, x, s') && x in s.rows && SlotOk(s, x)
    ensures SlotOk(s', x)
  {
    hide CutsCover, HasEntry, Ordered, Bounded, UndoOk, CompleteOk;
    AppendUndo(s, x, s');
    if !s.poisoned { AppendComplete(s, x, s'); }
  }

  lemma AppendUndo(s: State, x: Slot, s': State)
    requires LocksOk(s) && LocksOk(s') && StepAppend(s, x, s') && x in s.rows && StripOk(s, x) && UndoOk(s, x)
    ensures UndoOk(s', x)
  {
    hide CutsCover, HasEntry, Bounded;
    AppendTests(s, s', x);
  }

  lemma AppendComplete(s: State, x: Slot, s': State)
    requires LocksOk(s) && LocksOk(s') && StepAppend(s, x, s') && x in s.rows && CompleteOk(s, x)
    ensures CompleteOk(s', x)
  {
    hide CutsCover, HasEntry, Bounded;
    AppendTests(s, s', x);
  }

  lemma AppendOp(s: State, x: Slot, s': State, op: Op)
    requires LocksOk(s) && LocksOk(s') && StepAppend(s, x, s') && x in s.rows && SlotOk(s, x) && OpOk(s, op)
    requires op.x == x
    ensures OpOk(s', op)
  {
    hide CutsCover, HasEntry, Ordered, Bounded;
  }

  lemma AppendKeeps(s: State, x: Slot, s': State)
    requires Inv(s) && StepAppend(s, x, s')
    ensures Inv(s')
  {
    hide SlotOk, OpOk, ResultOk, ViewsOk, LocksOk, JobFrame, StepAppend;
    AppendFrame(s, x, s');
    JobHere(s, x, s');
    AppendSlot(s, x, s');
    forall o | o in s.ops && s.ops[o].x == x ensures OpOk(s', s.ops[o]) { AppendOp(s, x, s', s.ops[o]); }
    SameViews(s, s');
    JobKeeps(s, x, s');
  }

  lemma CountFrame(s: State, x: Slot, s': State)
    requires LocksOk(s) && StepCount(s, x, s')
    ensures LocksOk(s') && JobFrame(s, x, s') && s'.chain == s.chain && ViewsSame(s, s')
  {
    hide Bounded;
  }

  lemma CountSlot(s: State, x: Slot, s': State)
    requires LocksOk(s) && LocksOk(s') && StepCount(s, x, s') && x in s.rows && SlotOk(s, x)
    ensures SlotOk(s', x)
  {
    hide CutsCover, HasEntry, Ordered, Bounded, UndoOk, CompleteOk;
    CountUndo(s, x, s');
    if !s.poisoned { CountComplete(s, x, s'); }
  }

  lemma CountUndo(s: State, x: Slot, s': State)
    requires LocksOk(s) && LocksOk(s') && StepCount(s, x, s') && x in s.rows && UndoOk(s, x)
    ensures UndoOk(s', x)
  {
    hide CutsCover, HasEntry, Bounded;
    SameTests(s, s', x);
  }

  lemma CountComplete(s: State, x: Slot, s': State)
    requires LocksOk(s) && LocksOk(s') && StepCount(s, x, s') && x in s.rows && CompleteOk(s, x) && UndoOk(s, x)
    ensures CompleteOk(s', x)
  {
    hide CutsCover, HasEntry, Bounded;
    SameTests(s, s', x);
  }

  lemma CountOp(s: State, x: Slot, s': State, op: Op)
    requires LocksOk(s) && LocksOk(s') && StepCount(s, x, s') && x in s.rows && SlotOk(s, x) && OpOk(s, op) && op.x == x
    ensures OpOk(s', op)
  {
    hide CutsCover, HasEntry, Ordered, Bounded;
  }

  lemma CountKeeps(s: State, x: Slot, s': State)
    requires Inv(s) && StepCount(s, x, s')
    ensures Inv(s')
  {
    hide SlotOk, OpOk, ResultOk, ViewsOk, LocksOk, JobFrame, StepCount;
    CountFrame(s, x, s');
    JobHere(s, x, s');
    CountSlot(s, x, s');
    forall o | o in s.ops && s.ops[o].x == x ensures OpOk(s', s.ops[o]) { CountOp(s, x, s', s.ops[o]); }
    SameViews(s, s');
    JobKeeps(s, x, s');
  }

  lemma CellFrame(s: State, x: Slot, s': State)
    requires LocksOk(s) && StepCell(s, x, s')
    ensures LocksOk(s') && JobFrame(s, x, s') && s'.chain == s.chain && ViewsSame(s, s')
  {
    hide Bounded;
  }

  lemma CellStrip(s: State, x: Slot, s': State)
    requires LocksOk(s) && LocksOk(s') && StepCell(s, x, s') && x in s.rows && StripOk(s, x)
    ensures StripOk(s', x)
  {
    hide Bounded;
    var k, c, row := s.jobs[x].pc.k, s.chain[x], s.jobs[x].row;
    var was := Before(s.base[x], c, |c| - 1);
    assert (row[..k] + was[k..])[k := row[k]] == row[..k + 1] + was[k + 1..];
  }

  lemma CellSlot(s: State, x: Slot, s': State)
    requires LocksOk(s) && LocksOk(s') && StepCell(s, x, s') && x in s.rows && SlotOk(s, x)
    ensures SlotOk(s', x)
  {
    hide CutsCover, HasEntry, Ordered, StripOk, Bounded, CompleteOk, UndoOk;
    CellStrip(s, x, s');
    CellUndo(s, x, s');
    if !s.poisoned { CellComplete(s, x, s'); }
  }

  lemma HasBase(s: State, x: Slot)
    requires LocksOk(s) && x in s.rows
    ensures x in s.base && x in s.chain
    ensures x in s.jobs ==> s.jobs[x].t in s.clock.online
  {
  }

  lemma CellUndo(s: State, x: Slot, s': State)
    requires LocksOk(s) && LocksOk(s') && StepCell(s, x, s') && x in s.rows && UndoOk(s, x)
    ensures UndoOk(s', x)
  {
    hide HasEntry, LocksOk;
    HasBase(s, x);
    var c, es := s.chain[x], Undo(s, x);
    assert Undo(s', x) == es && s'.chain[x] == c && s'.base[x] == s.base[x] && s'.jobs[x].pc.Mutating?;
    forall j | 0 <= j < |es|
      ensures es[j].index < |c| && es[j].before == Before(s.base[x], c, es[j].index)
      ensures es[j].epoch == c[es[j].index].epoch
    {
    }
  }

  lemma CellComplete(s: State, x: Slot, s': State)
    requires LocksOk(s) && LocksOk(s') && StepCell(s, x, s') && x in s.rows && CompleteOk(s, x)
    ensures CompleteOk(s', x)
  {
    hide CutsCover, HasEntry;
    SameTests(s, s', x);
  }

  lemma CellOp(s: State, x: Slot, s': State, op: Op)
    requires LocksOk(s) && LocksOk(s') && StepCell(s, x, s') && x in s.rows && SlotOk(s, x) && OpOk(s, op) && op.x == x
    ensures OpOk(s', op)
  {
    hide CutsCover, HasEntry, Ordered, Bounded;
  }

  lemma CellKeeps(s: State, x: Slot, s': State)
    requires Inv(s) && StepCell(s, x, s')
    ensures Inv(s')
  {
    hide SlotOk, OpOk, ResultOk, ViewsOk, LocksOk, JobFrame, StepCell;
    CellFrame(s, x, s');
    JobHere(s, x, s');
    CellSlot(s, x, s');
    forall o | o in s.ops && s.ops[o].x == x ensures OpOk(s', s.ops[o]) { CellOp(s, x, s', s.ops[o]); }
    SameViews(s, s');
    JobKeeps(s, x, s');
  }

  lemma FinishFrame(s: State, x: Slot, s': State)
    requires LocksOk(s) && StepFinish(s, x, s')
    ensures LocksOk(s') && JobFrame(s, x, s') && s'.chain == s.chain && ViewsSame(s, s')
  {
    hide Bounded;
  }

  lemma FinishSlot(s: State, x: Slot, s': State)
    requires LocksOk(s) && LocksOk(s') && StepFinish(s, x, s') && x in s.rows && SlotOk(s, x)
    ensures SlotOk(s', x)
  {
    hide CutsCover, HasEntry, Ordered, Bounded;
    SameTests(s, s', x);
  }

  lemma FinishOp(s: State, x: Slot, s': State, op: Op)
    requires LocksOk(s) && LocksOk(s') && StepFinish(s, x, s') && x in s.rows && SlotOk(s, x) && OpOk(s, op)
    requires op.x == x
    ensures OpOk(s', op)
  {
    hide CutsCover, HasEntry, Ordered, Bounded;
  }

  lemma FinishKeeps(s: State, x: Slot, s': State)
    requires Inv(s) && StepFinish(s, x, s')
    ensures Inv(s')
  {
    hide SlotOk, OpOk, ResultOk, ViewsOk, LocksOk, JobFrame, StepFinish;
    FinishFrame(s, x, s');
    JobHere(s, x, s');
    FinishSlot(s, x, s');
    forall o | o in s.ops && s.ops[o].x == x ensures OpOk(s', s.ops[o]) { FinishOp(s, x, s', s.ops[o]); }
    SameViews(s, s');
    JobKeeps(s, x, s');
  }

  predicate ViewsSame(s: State, s': State) {
    s'.views == s.views && s'.clock == s.clock
  }

  lemma SameViews(s: State, s': State)
    requires ViewsOk(s) && ViewsSame(s, s')
    ensures ViewsOk(s')
  {
  }

  lemma JobHere(s: State, x: Slot, s': State)
    requires Inv(s) && JobFrame(s, x, s')
    ensures x in s.rows && x in s'.rows && SlotOk(s, x)
  {
    hide SlotOk, OpOk, ResultOk;
  }

  // ----- Starting an install ------------------------------------------------------------------------

  lemma StartFrame(s: State, x: Slot, s': State)
    requires LocksOk(s) && StepStart(s, x, s')
    ensures LocksOk(s') && JobFrame(s, x, s') && ViewsSame(s, s')
  {
    hide LocksOk, SameSlot;
    StartLocks(s, x, s');
    forall y | y in s.rows && y != x ensures SameSlot(s, s', y) { StartApart(s, x, s', y); }
  }

  lemma StartLocks(s: State, x: Slot, s': State)
    requires LocksOk(s) && StepStart(s, x, s')
    ensures LocksOk(s') && s'.chain.Keys == s.chain.Keys
  {
    hide Bounded;
  }

  lemma StartApart(s: State, x: Slot, s': State, y: Slot)
    requires LocksOk(s) && StepStart(s, x, s') && y in s.rows && y != x
    ensures SameSlot(s, s', y)
  {
    hide Bounded;
  }

  lemma StartSlot(s: State, x: Slot, s': State)
    requires LocksOk(s) && LocksOk(s') && StepStart(s, x, s') && x in s.rows && SlotOk(s, x)
    ensures SlotOk(s', x)
  {
    hide CompleteOk, UndoOk, ChainOk, StripOk, LocksOk;
    KeysAt(s, x);
    StartChain(s, x, s');
    StartStrip(s, x, s');
    StartUndo(s, x, s');
    if !s.poisoned { StartComplete(s, x, s'); }
  }

  lemma StartChain(s: State, x: Slot, s': State)
    requires LocksOk(s) && StepStart(s, x, s') && ChainOk(s, x)
    ensures ChainOk(s', x)
  {
  }

  lemma StartStrip(s: State, x: Slot, s': State)
    requires LocksOk(s) && LocksOk(s') && StepStart(s, x, s') && x in s.base && StripOk(s, x)
    ensures StripOk(s', x)
  {
    hide Bounded;
    var c, c' := s.chain[x], s'.chain[x];
    assert s.jobs[x].row[..0] == [] && s.rows[x][0..] == s.rows[x];
  }

  lemma StartUndo(s: State, x: Slot, s': State)
    requires LocksOk(s) && LocksOk(s') && StepStart(s, x, s') && x in s.rows && UndoOk(s, x)
    ensures UndoOk(s', x)
  {
    hide HasEntry, LocksOk;
    HasBase(s, x);
    var c, es := s.chain[x], Undo(s, x);
    var c' := c + [Install(s.clock.online[s.jobs[x].t], s.jobs[x].row)];
    assert Undo(s', x) == es && s'.chain[x] == c' && s'.base[x] == s.base[x] && s'.jobs[x].pc.Mutating?;
    forall j | 0 <= j < |es|
      ensures es[j].index < |c'| && es[j].before == Before(s.base[x], c', es[j].index)
      ensures es[j].epoch == c'[es[j].index].epoch
    {
      assert Before(s.base[x], c', es[j].index) == Before(s.base[x], c, es[j].index);
    }
  }

  lemma StartComplete(s: State, x: Slot, s': State)
    requires LocksOk(s) && LocksOk(s') && StepStart(s, x, s') && x in s.rows && CompleteOk(s, x)
    ensures CompleteOk(s', x)
  {
    hide CutsCover, HasEntry;
    SameTests(s, s', x);
  }

  /** A thread online past a fence joined after the cut. */
  lemma OnlinePastFence(s: State, v: ViewId, t: Thread)
    requires Bounded(s.clock) && ViewsOk(s) && v in s.views && s.views[v].Fenced? && t in s.clock.online
    ensures s.clock.online[t] > s.views[v].cut && !CutsCover(s, s.clock.online[t])
  {
  }

  /** By the time an install past the cut starts, its count has moved. */
  lemma CountMoved(s: State, x: Slot, op: Op)
    requires LocksOk(s) && x in s.rows && x in s.jobs && s.jobs[x].pc == Ready && SlotOk(s, x) && ViewsOk(s)
    requires OpOk(s, op) && op.x == x
    ensures !op.copied || s.poisoned || op.count != s.count
  {
    hide CutsCover;
    OnlinePastFence(s, op.view, s.jobs[x].t);
    if !s.poisoned {
      var j :| 0 <= j < |Undo(s, x)| && Undo(s, x)[j].index == |s.chain[x]|;
      assert Undo(s, x)[j].epoch > s.views[op.view].cut;
    }
  }

  lemma StartOp(s: State, x: Slot, s': State, op: Op)
    requires LocksOk(s) && LocksOk(s') && StepStart(s, x, s') && x in s.rows && SlotOk(s, x) && ViewsOk(s)
    requires OpOk(s, op) && op.x == x
    ensures OpOk(s', op)
  {
    hide SlotOk;
    CountMoved(s, x, op);
  }

  lemma StartResult(s: State, x: Slot, s': State, r: Result)
    requires LocksOk(s) && LocksOk(s') && ViewsOk(s) && StepStart(s, x, s') && ResultOk(s, r)
    ensures ResultOk(s', r)
  {
    if r.view in s.views && !s.poisoned && r.x == x {
      OnlinePastFence(s, r.view, s.jobs[x].t);
      assert s'.chain[x][..|s'.chain[x]| - 1] == s.chain[x];
    }
  }

  lemma StartKeeps(s: State, x: Slot, s': State)
    requires Inv(s) && StepStart(s, x, s')
    ensures Inv(s')
  {
    hide SlotOk, OpOk, ResultOk, ViewsOk, LocksOk, JobFrame, StepStart;
    StartFrame(s, x, s');
    JobHere(s, x, s');
    StartSlot(s, x, s');
    OtherSlots(s, x, s');
    JobParts(s, x, s');
    SameViews(s, s');
    forall o | o in s'.ops ensures OpOk(s', s'.ops[o]) {
      if s.ops[o].x == x { StartOp(s, x, s', s.ops[o]); }
      JobOp(s, x, s', o);
    }
    forall r | r in s'.results ensures ResultOk(s', r) { StartResult(s, x, s', r); }
  }

  lemma JobParts(s: State, x: Slot, s': State)
    requires JobFrame(s, x, s')
    ensures s'.ops == s.ops && s'.results == s.results && s'.rows.Keys == s.rows.Keys
  {
  }

  // ----- Views --------------------------------------------------------------------------------------

  /** What a step of a view, other than the last release, leaves alone. */
  predicate ViewFrame(s: State, s': State) {
    s' == s.(views := s'.views, poisoned := s'.poisoned)
  }

  lemma ViewSame(s: State, s': State)
    requires LocksOk(s) && ViewFrame(s, s')
    ensures LocksOk(s') && (forall x :: x in s.rows ==> SameSlot(s, s', x) && SameForOp(s, s', x))
  {
  }

  lemma HoldersLate(s: State, s': State)
    requires LocksOk(s) && (forall x :: x in s.rows ==> ChainOk(s, x)) && s'.held == s.held && s'.clock == s.clock
    ensures forall x :: x in s.rows ==> HolderLate(s, s', x)
  {
    forall x | x in s.rows ensures HolderLate(s, s', x) { assert ChainOk(s, x); }
  }

  /** A view comes, passes its fence, leaves, or is poisoned: no new cut, no view changed under a read. */
  lemma ViewKeeps(s: State, s': State)
    requires Inv(s) && ViewFrame(s, s') && FewerCuts(s, s') && ViewsOk(s')
    requires forall o :: o in s.ops ==> s.ops[o].view in s'.views && s'.views[s.ops[o].view] == s.views[s.ops[o].view]
    requires forall r :: r in s.results && r.view in s'.views ==>
               r.view in s.views && (s.views[r.view].Fenced? ==> s'.views[r.view] == s.views[r.view])
    ensures Inv(s')
  {
    hide SlotOk, OpOk, ResultOk, ViewsOk, LocksOk, SameSlot, SameForOp, HolderLate, ChainOk, FewerCuts;
    ViewSame(s, s');
    Chains(s);
    HoldersLate(s, s');
    Slots(s, s');
    FewerPoison(s, s');
    forall o | o in s'.ops ensures OpOk(s', s'.ops[o]) { OpView(s, s.ops[o]); OpFrame(s, s', s.ops[o]); }
    forall r | r in s'.results ensures ResultOk(s', r) { ResultFrame(s, s', r); }
  }

  lemma OpView(s: State, op: Op)
    requires LocksOk(s) && OpOk(s, op)
    ensures op.view in s.views && s.views[op.view].Fenced? && op.x in s.rows
  {
  }

  lemma FewerPoison(s: State, s': State)
    requires FewerCuts(s, s')
    ensures s.poisoned ==> s'.poisoned
  {
  }

  lemma ArmKeeps(s: State, v: ViewId, s': State)
    requires Inv(s) && StepArm(s, v, s')
    ensures Inv(s')
  {
    hide SlotOk, ResultOk, LocksOk;
    OpViews(s);
    ViewKeeps(s, s');
  }

  lemma OpViews(s: State)
    requires Inv(s)
    ensures forall o :: o in s.ops ==>
        s.ops[o].view in s.views && s.views[s.ops[o].view].Fenced? && s.ops[o].x in s.rows
  {
    hide SlotOk, ResultOk, ViewsOk;
    forall o | o in s.ops ensures s.ops[o].view in s.views && s.views[s.ops[o].view].Fenced? && s.ops[o].x in s.rows {
      assert OpOk(s, s.ops[o]);
    }
  }

  lemma FenceKeeps(s: State, v: ViewId, s': State)
    requires Inv(s) && StepFence(s, v, s')
    ensures Inv(s')
  {
    hide SlotOk, ResultOk, OpOk, LocksOk;
    OpViews(s);
    ViewKeeps(s, s');
  }

  lemma PoisonKeeps(s: State, s': State)
    requires Inv(s) && StepPoison(s, s')
    ensures Inv(s')
  {
    hide SlotOk, ResultOk, OpOk, LocksOk;
    OpViews(s);
    ViewKeeps(s, s');
  }

  /** A new cut covers every install there is or is under way. */
  lemma CutSlot(s: State, v: ViewId, s': State, x: Slot)
    requires LocksOk(s) && LocksOk(s') && StepCut(s, v, s') && x in s.rows && SlotOk(s, x)
    ensures SlotOk(s', x)
  {
    hide StripOk, UndoOk, Ordered;
    CutKeepsSlot(s, v, s', x);
    if !s.poisoned { CutComplete(s, v, s', x); }
  }

  lemma SameEntries(s: State, s': State, x: Slot)
    requires Undo(s', x) == Undo(s, x)
    ensures forall i :: HasEntry(s, x, i) ==> HasEntry(s', x, i)
  {
    forall i: nat | HasEntry(s, x, i) ensures HasEntry(s', x, i) {
      var j :| 0 <= j < |Undo(s, x)| && Undo(s, x)[j].index == i;
      assert Undo(s', x)[j].index == i;
    }
  }

  lemma CutKeepsSlot(s: State, v: ViewId, s': State, x: Slot)
    requires LocksOk(s) && LocksOk(s') && StepCut(s, v, s') && x in s.rows && StripOk(s, x) && UndoOk(s, x)
    ensures StripOk(s', x) && UndoOk(s', x)
  {
    SameEntries(s, s', x);
  }

  lemma CutComplete(s: State, v: ViewId, s': State, x: Slot)
    requires LocksOk(s) && LocksOk(s') && StepCut(s, v, s') && x in s.rows && ChainOk(s, x) && CompleteOk(s, x)
    ensures CompleteOk(s', x)
  {
    SameEntries(s, s', x);
    forall e: nat | CutsCover(s, e) && e <= s.clock.now ensures CutsCover(s', e) { }
    forall i | 0 <= i < |s.chain[x]| ensures s.chain[x][i].epoch <= s.clock.now { }
  }

  lemma CutKeeps(s: State, v: ViewId, s': State)
    requires Inv(s) && StepCut(s, v, s')
    ensures Inv(s')
  {
    hide SlotOk, ResultOk, OpOk, LocksOk, SameSlot, SameForOp;
    OpViews(s);
    ViewSame(s, s');
    forall x | x in s'.rows ensures SlotOk(s', x) { CutSlot(s, v, s', x); }
    forall o | o in s'.ops ensures OpOk(s', s'.ops[o]) { OpFrame(s, s', s.ops[o]); }
    forall r | r in s'.results ensures ResultOk(s', r) { ResultFrame(s, s', r); }
  }

  /** The last release leaves no view, so nothing to be complete for. */
  lemma ClearSlot(s: State, s': State, x: Slot)
    requires LocksOk(s) && x in s.rows && SlotOk(s, x) && (x in s.jobs ==> s.jobs[x].pc != Appended)
    requires s' == s.(views := map[], undo := map[], count := 0, poisoned := false)
    ensures LocksOk(s') && SlotOk(s', x)
  {
    hide Ordered;
  }

  lemma EndKeeps(s: State, v: ViewId, s': State)
    requires Inv(s) && StepEnd(s, v, s')
    ensures Inv(s')
  {
    hide Inv;
    if s.views.Keys == {v} { LastEndKeeps(s, v, s'); } else { OtherEndKeeps(s, v, s'); }
  }

  lemma OtherEndKeeps(s: State, v: ViewId, s': State)
    requires Inv(s) && StepEnd(s, v, s') && s.views.Keys != {v}
    ensures Inv(s')
  {
    hide SlotOk, ResultOk, OpOk, LocksOk;
    OpViews(s);
    ViewKeeps(s, s');
  }

  lemma LastEndKeeps(s: State, v: ViewId, s': State)
    requires Inv(s) && StepEnd(s, v, s') && s.views.Keys == {v}
    ensures Inv(s')
  {
    hide SlotOk, ResultOk, OpOk, LocksOk;
    OpViews(s);
    forall x | x in s.rows ensures LocksOk(s') && SlotOk(s', x) { ClearSlot(s, s', x); }
    ClearLocks(s, s');
    assert s'.ops == map[];
    forall r | r in s'.results ensures ResultOk(s', r) { GoneResult(s', r); }
  }

  lemma ClearLocks(s: State, s': State)
    requires LocksOk(s) && s' == s.(views := map[], undo := map[], count := 0, poisoned := false)
    ensures LocksOk(s')
  {
  }

  lemma GoneResult(s: State, r: Result)
    requires LocksOk(s) && s.views == map[]
    ensures ResultOk(s, r)
  {
  }

  // ----- Reads ------------------------------------------------------------------------------------------

  lemma {:induction false} OldestSpec(es: seq<Entry>, cut: nat)
    ensures Oldest(es, cut).None? ==> forall i :: 0 <= i < |es| ==> es[i].epoch <= cut
    ensures Oldest(es, cut).Some? ==>
              exists j :: 0 <= j < |es| && es[j] == Oldest(es, cut).value && es[j].epoch > cut
                          && forall i :: 0 <= i < j ==> es[i].epoch <= cut
  {
    if es != [] && es[0].epoch <= cut {
      OldestSpec(es[1..], cut);
      if Oldest(es[1..], cut).Some? {
        var j :| 0 <= j < |es[1..]| && es[1..][j] == Oldest(es[1..], cut).value && es[1..][j].epoch > cut
                 && forall i :: 0 <= i < j ==> es[1..][i].epoch <= cut;
        assert es[j + 1] == Oldest(es, cut).value;
        assert forall i :: 0 < i < j + 1 ==> es[i] == es[1..][i - 1];
      } else {
        assert forall i :: 0 < i < |es| ==> es[i] == es[1..][i - 1];
      }
    }
  }

  /** Where the installs past the cut begin, the value at the cut stands before them. */
  lemma {:induction false} ValueAtSplit(base: Row, chain: seq<Install>, cut: nat, m: nat)
    requires m <= |chain| && (forall i :: 0 <= i < m ==> chain[i].epoch <= cut)
    requires forall i :: m <= i < |chain| ==> chain[i].epoch > cut
    ensures ValueAt(base, chain, cut) == Before(base, chain, m)
  {
    if m < |chain| {
      ValueAtSplit(base, chain[..|chain| - 1], cut, m);
    }
  }

  /** An install past a fenced cut has its entry. */
  lemma PastCutHasEntry(s: State, v: ViewId, x: Slot, i: nat)
    requires LocksOk(s) && !s.poisoned && v in s.views && s.views[v].Fenced? && x in s.rows && SlotOk(s, x)
    requires i < |s.chain[x]| && s.chain[x][i].epoch > s.views[v].cut
    ensures exists j :: 0 <= j < |Undo(s, x)| && Undo(s, x)[j].index == i && Undo(s, x)[j].epoch == s.chain[x][i].epoch
  {
    assert !CutsCover(s, s.chain[x][i].epoch);
    var j :| 0 <= j < |Undo(s, x)| && Undo(s, x)[j].index == i;
    assert Undo(s, x)[j].epoch == s.chain[x][i].epoch;
  }

  lemma ChainAndBase(s: State, x: Slot)
    requires LocksOk(s) && x in s.rows && SlotOk(s, x)
    ensures x in s.base && x in s.chain && Ordered(s.chain[x])
  {
  }

  lemma EntryIsInstall(s: State, x: Slot, j: nat)
    requires LocksOk(s) && x in s.rows && SlotOk(s, x) && j < |Undo(s, x)| && x in s.chain && x in s.base
    ensures var e, c := Undo(s, x)[j], s.chain[x];
            e.index <= |c| && e.before == Before(s.base[x], c, e.index)
                && (e.index < |c| ==> e.epoch == c[e.index].epoch)
  {
    hide StripOk, CompleteOk, ChainOk;
  }

  lemma EntriesInOrder(s: State, x: Slot, j: nat, k: nat)
    requires LocksOk(s) && x in s.rows && SlotOk(s, x) && j < |Undo(s, x)| && k < |Undo(s, x)|
    requires Undo(s, x)[k].index < Undo(s, x)[j].index
    ensures k < j
  {
    hide StripOk, CompleteOk, ChainOk;
  }

  /** The oldest qualifying before-image is the slot's value at the cut. */
  lemma OldestIsValue(s: State, v: ViewId, x: Slot)
    requires LocksOk(s) && !s.poisoned && v in s.views && s.views[v].Fenced? && x in s.rows && SlotOk(s, x)
    requires Oldest(Undo(s, x), s.views[v].cut).Some?
    ensures Oldest(Undo(s, x), s.views[v].cut).value.before == ValueAt(s.base[x], s.chain[x], s.views[v].cut)
  {
    hide SlotOk, LocksOk, Oldest, ValueAt;
    ChainAndBase(s, x);
    var es, cut, c := Undo(s, x), s.views[v].cut, s.chain[x];
    OldestSpec(es, cut);
    var j :| 0 <= j < |es| && es[j] == Oldest(es, cut).value && es[j].epoch > cut && forall i :: 0 <= i < j ==>
      es[i].epoch <= cut;
    var m := es[j].index;
    EntryIsInstall(s, x, j);
    forall i | 0 <= i < m ensures c[i].epoch <= cut {
      if c[i].epoch > cut {
        PastCutHasEntry(s, v, x, i);
        var k :| 0 <= k < |es| && es[k].index == i && es[k].epoch == c[i].epoch;
        EntriesInOrder(s, x, j, k);
      }
    }
    ValueAtSplit(s.base[x], c, cut, m);
  }

  lemma NoneMeansOld(s: State, v: ViewId, x: Slot)
    requires LocksOk(s) && !s.poisoned && v in s.views && s.views[v].Fenced? && x in s.rows && SlotOk(s, x)
    requires Oldest(Undo(s, x), s.views[v].cut).None?
    ensures forall i :: 0 <= i < |s.chain[x]| ==> s.chain[x][i].epoch <= s.views[v].cut
    ensures forall j :: 0 <= j < |Undo(s, x)| ==> Undo(s, x)[j].epoch <= s.views[v].cut
  {
    hide SlotOk;
    OldestSpec(Undo(s, x), s.views[v].cut);
    forall i | 0 <= i < |s.chain[x]| ensures s.chain[x][i].epoch <= s.views[v].cut {
      if s.chain[x][i].epoch > s.views[v].cut { PastCutHasEntry(s, v, x, i); }
    }
  }

  /** With nothing past the cut begun, nobody is installing and the strip is the cut's row. */
  lemma StripIsCut(s: State, v: ViewId, x: Slot)
    requires LocksOk(s) && ViewsOk(s) && v in s.views && s.views[v].Fenced? && x in s.rows && SlotOk(s, x)
    requires forall i :: 0 <= i < |s.chain[x]| ==> s.chain[x][i].epoch <= s.views[v].cut
    ensures s.rows[x] == Before(s.base[x], s.chain[x], |s.chain[x]|) == ValueAt(s.base[x], s.chain[x], s.views[v].cut)
  {
    hide CompleteOk, UndoOk, Ordered;
    if x in s.jobs { OnlinePastFence(s, v, s.jobs[x].t); }
    ValueAtSplit(s.base[x], s.chain[x], s.views[v].cut, |s.chain[x]|);
  }

  /** A step of a read touches only reads and results. */
  lemma ReadFrame(s: State, s': State)
    requires Inv(s) && s' == s.(ops := s'.ops, results := s'.results)
    ensures LocksOk(s') && ViewsOk(s') && (forall x :: x in s'.rows ==> SlotOk(s', x))
    ensures forall op :: OpOk(s, op) ==> OpOk(s', op)
    ensures forall r :: ResultOk(s, r) ==> ResultOk(s', r)
  {
    hide SlotOk, SameSlot, HolderLate, ChainOk;
    ReadSame(s, s');
    Chains(s);
    HoldersLate(s, s');
    Slots(s, s');
    forall op | OpOk(s, op) ensures OpOk(s', op) { OpFrame(s, s', op); }
    forall r | ResultOk(s, r) ensures ResultOk(s', r) { ResultFrame(s, s', r); }
  }

  lemma ReadSame(s: State, s': State)
    requires LocksOk(s) && s' == s.(ops := s'.ops, results := s'.results)
    ensures LocksOk(s') && (forall x :: x in s.rows ==> SameSlot(s, s', x)) && FewerCuts(s, s')
  {
  }

  lemma SampleKeeps(s: State, o: ReadId, v: ViewId, x: Slot, s': State)
    requires Inv(s) && StepSample(s, o, v, x, s')
    ensures Inv(s')
  {
    hide SlotOk, ResultOk, ViewsOk;
    ReadFrame(s, s');
  }

  lemma CopyOp(s: State, v: ViewId, op: Op)
    requires LocksOk(s) && v == op.view && OpOk(s, op) && SlotOk(s, op.x)
    requires Oldest(Undo(s, op.x), s.views[v].cut).None?
    ensures OpOk(s, op.(copied := true, got := []))
  {
    hide SlotOk;
    if !s.poisoned { NoneMeansOld(s, v, op.x); }
  }

  lemma CopyKeeps(s: State, o: ReadId, s': State)
    requires Inv(s) && StepCopy(s, o, s')
    ensures Inv(s')
  {
    hide Inv, Oldest, Undo;
    CopyWhere(s, o, s');
    var op := s.ops[o];
    if Oldest(Undo(s, op.x), s.views[op.view].cut).Some? { CopyEndsRead(s, o, s'); } else { CopyGoesOn(s, o, s'); }
  }

  lemma CopyWhere(s: State, o: ReadId, s': State)
    requires Inv(s) && StepCopy(s, o, s')
    ensures o in s.ops && s.ops[o].view in s.views && s.views[s.ops[o].view].Fenced?
  {
    hide SlotOk, ResultOk, ViewsOk, OpOk, LocksOk;
    OpViews(s);
  }

  lemma CopyEndsRead(s: State, o: ReadId, s': State)
    requires Inv(s) && StepCopy(s, o, s') && o in s.ops && s.ops[o].view in s.views && s.views[s.ops[o].view].Fenced?
    requires Oldest(Undo(s, s.ops[o].x), s.views[s.ops[o].view].cut).Some?
    ensures Inv(s')
  {
    hide SlotOk, ResultOk, ViewsOk, OpOk, LocksOk, Oldest, Undo;
    ReadFrame(s, s');
    OpViews(s);
    CopyResult(s, s.ops[o]);
  }

  lemma CopyGoesOn(s: State, o: ReadId, s': State)
    requires Inv(s) && StepCopy(s, o, s') && o in s.ops && s.ops[o].view in s.views && s.views[s.ops[o].view].Fenced?
    requires Oldest(Undo(s, s.ops[o].x), s.views[s.ops[o].view].cut).None?
    ensures Inv(s')
  {
    hide SlotOk, ResultOk, ViewsOk, OpOk, LocksOk, Oldest, Undo;
    ReadFrame(s, s');
    OpViews(s);
    CopyOp(s, s.ops[o].view, s.ops[o]);
  }

  lemma CopyResult(s: State, op: Op)
    requires LocksOk(s) && op.view in s.views && s.views[op.view].Fenced? && op.x in s.rows && SlotOk(s, op.x)
    requires Oldest(Undo(s, op.x), s.views[op.view].cut).Some?
    ensures ResultOk(s, Result(op.view, op.x, Oldest(Undo(s, op.x), s.views[op.view].cut).value.before))
  {
    hide SlotOk;
    if !s.poisoned { OldestIsValue(s, op.view, op.x); }
  }

  lemma ReadCellOp(s: State, op: Op)
    requires LocksOk(s) && ViewsOk(s) && OpOk(s, op) && SlotOk(s, op.x) && op.copied && |op.got| < |s.rows[op.x]|
    ensures OpOk(s, op.(got := op.got + [s.rows[op.x][|op.got|]]))
  {
    hide SlotOk, ViewsOk;
    if !s.poisoned && op.count == s.count { StripIsCut(s, op.view, op.x); }
  }

  lemma ReadCellKeeps(s: State, o: ReadId, s': State)
    requires Inv(s) && StepReadCell(s, o, s')
    ensures Inv(s')
  {
    hide SlotOk, ResultOk, ViewsOk, OpOk, LocksOk;
    ReadFrame(s, s');
    OpViews(s);
    ReadCellOp(s, s.ops[o]);
  }

  lemma RecheckResult(s: State, op: Op)
    requires LocksOk(s) && ViewsOk(s) && OpOk(s, op) && SlotOk(s, op.x) && op.copied && |op.got| == s.width
    requires op.count == s.count
    ensures ResultOk(s, Result(op.view, op.x, op.got))
  {
    hide SlotOk, ViewsOk;
    if !s.poisoned { StripIsCut(s, op.view, op.x); }
  }

  lemma RecheckKeeps(s: State, o: ReadId, s': State)
    requires Inv(s) && StepRecheck(s, o, s')
    ensures Inv(s')
  {
    hide SlotOk, ResultOk, ViewsOk, OpOk, LocksOk;
    ReadFrame(s, s');
    OpViews(s);
    if s.count == s.ops[o].count { RecheckResult(s, s.ops[o]); }
  }

  // ----- Runs ---------------------------------------------------------------------------------------------

  lemma StepKeepsInv(s: State, a: Action, s': State)
    requires Inv(s) && Step(s, a, s')
    ensures Inv(s')
  {
    hide Inv, StepTick, StepJoin, StepLeave, StepHold, StepRelease, StepCheck, StepSkip, StepOverBudget,
      StepAppend, StepCount,
         StepStart, StepCell, StepFinish, StepPoison, StepArm, StepCut, StepFence, StepEnd, StepSample, StepCopy,
         StepReadCell,
         StepRecheck;
    match a
    case DoCheck(x, row) => CheckKeeps(s, x, row, s');
    case DoSkip(x) => SkipKeeps(s, x, s');
    case DoOverBudget(x) => OverBudgetKeeps(s, x, s');
    case DoAppend(x) => AppendKeeps(s, x, s');
    case DoCount(x) => CountKeeps(s, x, s');
    case DoStart(x) => StartKeeps(s, x, s');
    case DoCell(x) => CellKeeps(s, x, s');
    case DoFinish(x) => FinishKeeps(s, x, s');
    case DoPoison => PoisonKeeps(s, s');
    case DoArm(v) => ArmKeeps(s, v, s');
    case DoCut(v) => CutKeeps(s, v, s');
    case DoFence(v) => FenceKeeps(s, v, s');
    case DoEnd(v) => EndKeeps(s, v, s');
    case DoSample(o, v, x) => SampleKeeps(s, o, v, x, s');
    case DoCopy(o) => CopyKeeps(s, o, s');
    case DoReadCell(o) => ReadCellKeeps(s, o, s');
    case DoRecheck(o) => RecheckKeeps(s, o, s');
    case _ => OutsideKeeps(s, a, s');
  }

  lemma {:induction false} RunKeepsInv(run: seq<State>, acts: seq<Action>, n: nat)
    requires IsRun(run, acts) && n <= |acts|
    ensures Inv(run[n])
  {
    hide Step;
    if n > 0 {
      hide Inv;
      RunKeepsInv(run, acts, n - 1);
      StepKeepsInv(run[n - 1], acts[n - 1], run[n]);
    }
  }

  /**
   * In every run, with any number of overlapping views and generations, every slot an active and
   * unpoisoned view has resolved shows its value after all commits at or below the view's cut and
   * none later.
   */
  lemma ViewReadsTheCut(run: seq<State>, acts: seq<Action>, n: nat, r: Result)
    requires IsRun(run, acts) && n <= |acts| && r in run[n].results && r.view in run[n].views && !run[n].poisoned
    ensures var s := run[n];
            && s.views[r.view].Fenced? && r.x in s.base && r.x in s.chain
            && r.row == ValueAt(s.base[r.x], s.chain[r.x], s.views[r.view].cut)
  {
    RunKeepsInv(run, acts, n);
    assert ResultOk(run[n], r);
  }
}
