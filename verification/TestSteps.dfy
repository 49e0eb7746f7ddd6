/** One test from the snapshot and back, what its report says, and the start of the machine up to
    the snapshot. */
module TestSteps {
  import opened Integers
  import opened Machine
  import opened Ownership
  import opened Snapshot
  import opened FlatMemory
  import opened Runs
  import opened LowPages
  import opened RunSteps
  import BudgetOps

  // ---- the start of a test ----

  /** The state a test with limit `newMl` starts from, and who owns what in it. */
  function Begun(s: State, newMl: nat): State {
    BudgetOps.SetMl(Cloned(s), newMl)
  }

  ghost function BegunOwn(s: State, newMl: nat): Own {
    BudgetOps.SetMlOwn(Cloned(s), CloneOwn(s), newMl)
  }

  lemma SameView(s: State, t: State)
    requires forall p :: 0 <= p < PAGES ==> Ent(t, p) == Ent(s, p)
    requires t.high == s.high
    ensures View(t) == View(s) && Mapped(t) == Mapped(s)
  {
  }

  /** clone_paging and set_ml leave the memory view alone. */
  lemma TestStart(s: State, newMl: nat)
    requires Frozen(s) && s.ml != ML_EXCEEDED && newMl < U32
    ensures Inv(Begun(s, newMl), BegunOwn(s, newMl)) && BegunOwn(s, newMl).moved == {}
    ensures KeptMemory(Cloned(s), CloneOwn(s), Begun(s, newMl), BegunOwn(s, newMl))
    ensures forall p :: 0 <= p < PAGES ==> Ent(Begun(s, newMl), p) == Ent(s, p)
    ensures View(Begun(s, newMl)) == View(s) && Begun(s, newMl).mlOrig == newMl
  {
    hide Inv, KeptMemory, View, Mapped, Ent;
    CloneInv(s);
    BudgetOps.SetMlInv(Cloned(s), CloneOwn(s), newMl);
    SameView(s, Begun(s, newMl));
  }

  /** By how much the budget words of the snapshot claim too much for its pages. */
  function SnapshotDrift(s: State): int {
    s.ml + |Mapped(s)| - s.mlOrig
  }

  /** The plain memory a test with limit `ml` starts with: all of `v`, every page the snapshot's. */
  function StartMem(v: Flat, drift: int, ml: nat): Plain {
    Plain(v, v.Keys, BudgetOps.StartRoom(|v|, drift, ml))
  }

  /** The pages of the snapshot are within the limit, as set_ml counts them. */
  predicate FitsLimit(v: Flat, drift: int, ml: nat) {
    BudgetOps.Fits(|v|, drift, ml)
  }

  lemma FrozenSnap(s: State)
    requires Frozen(s)
    ensures SnapPages(s) == View(s).Keys
  {
  }

  lemma SameSnap(s: State, t: State)
    requires forall p :: 0 <= p < PAGES ==> Ent(t, p) == Ent(s, p)
    ensures SnapPages(t) == SnapPages(s)
  {
  }

  /** A test starts over budget exactly when the snapshot does not fit its limit. */
  lemma TestStartPlain(s: State, newMl: nat)
    requires Frozen(s) && s.ml != ML_EXCEEDED && newMl < U32
    ensures Begun(s, newMl).ml == ML_EXCEEDED <==> !FitsLimit(View(s), SnapshotDrift(s), newMl)
    ensures Begun(s, newMl).ml != ML_EXCEEDED ==>
      PlainOf(Begun(s, newMl), BegunOwn(s, newMl)) == StartMem(View(s), SnapshotDrift(s), newMl)
  {
    hide Inv, KeptMemory, View, Mapped, Ent, Frozen, SnapPages;
    CloneInv(s);
    SameView(s, Cloned(s));
    ViewSize(s);
    BudgetOps.SetMlKeepsUse(Cloned(s), CloneOwn(s), newMl);
    TestStart(s, newMl);
    FrozenSnap(s);
    SameSnap(s, Begun(s, newMl));
  }

  // ---- the report of a test ----

  /** What plain memory makes of the test. */
  ghost function Expected(v: Flat, drift: int, test: Test): Outcome
    requires OpsOk(test.ops)
  {
    PlainRun(StartMem(v, drift, test.ml), test.ops)
  }

  ghost predicate Answers(v: Flat, drift: int, test: Test, r: Report)
    requires OpsOk(test.ops)
  {
    r.status == Expected(v, drift, test).status && r.count == Expected(v, drift, test).count
  }

  /** The report is exactly that of plain memory, limit included, but for a kernel fault, which takes
      a mapping over a page of the snapshot. */
  ghost predicate Foretold(v: Flat, drift: int, test: Test, r: Report)
    requires OpsOk(test.ops)
  {
    if r.status == KernelFault then FaultDue(StartMem(v, drift, test.ml), test.ops, r.count)
    else Answers(v, drift, test, r) && (r.over <==> r.status == MemoryLimit)
  }

  /** What a report says about a test that was given memory `v`, whatever ran before it. `drift` is
      the snapshot's. */
  ghost predicate Reports(v: Flat, drift: int, test: Test, r: Report)
    requires OpsOk(test.ops)
  {
    && (if r.status == Exited then r.count == |test.ops| else 0 < r.count <= |test.ops|)
    && (r.status != KernelFault && !r.over ==>
          Answers(v, drift, test, r) && r.view == Expected(v, drift, test).mem.view)
    && (if FitsLimit(v, drift, test.ml) then Sound(StartMem(v, drift, test.ml), test.ops) ==>
          Foretold(v, drift, test, r)
        else r.status != KernelFault ==> r.over)
  }

  /** Two reports on the same test, whatever ran before each of them. */
  lemma ReportsAgree(v: Flat, drift: int, test: Test, r: Report, r': Report)
    requires OpsOk(test.ops) && Reports(v, drift, test, r) && Reports(v, drift, test, r')
    requires FitsLimit(v, drift, test.ml) && Sound(StartMem(v, drift, test.ml), test.ops)
    requires r.status != KernelFault && r'.status != KernelFault
    ensures r.status == r'.status && r.count == r'.count && r.over == r'.over && (!r.over ==> r.view == r'.view)
  {
    hide Expected, Sound, FitsLimit;
  }

  /** The report of a run from there is a report on the snapshot's memory. */
  lemma TestReport(s: State, t: State, ot: Own, test: Test, st: Status, n: nat)
    requires Frozen(s) && s.ml != ML_EXCEEDED && test.ml < U32 && OpsOk(test.ops)
    requires if st == KernelFault then 0 < n <= |test.ops|
             else RunDone(Begun(s, test.ml), BegunOwn(s, test.ml), t, ot, test.ops, st, n)
    requires RunExact(Begun(s, test.ml), BegunOwn(s, test.ml), t, test.ops, st, n)
    ensures Reports(View(s), SnapshotDrift(s), test, Report(st, View(t), t.ml == ML_EXCEEDED, n))
  {
    hide Inv, KeptMemory, View, Mapped, Ent, PlainRun, Sound, FaultDue, LowSoFar, Frozen, Begun, BegunOwn, SnapPages;
    TestStartPlain(s, test.ml);
  }

  // ---- back to the snapshot ----

  lemma KeptMemoryTrans(s: State, o: Own, t: State, o': Own, u: State, o'': Own)
    requires KeptMemory(s, o, t, o') && KeptMemory(t, o', u, o'')
    ensures KeptMemory(s, o, u, o'')
  {
  }

  /** The table of the first 4 MiB is as the snapshot has it. */
  ghost predicate WholeLow(s: State, u: State) {
    Low(u, Dir(s)[0].frame) == Low(s, Dir(s)[0].frame)
  }

  /** When the table of the first 4 MiB comes back: exactly when the `n` operations carried out leave
      its words as they were. */
  ghost predicate TestLow(s: State, u: State, ops: seq<Op>, n: nat) {
    n <= |ops| && (AllQuiet(ops) ==> (WholeLow(s, u) <==> LowAfter(LowView(s), ops[..n]) == LowView(s)))
  }

  /** After a test: the snapshot, for the next one. */
  lemma TestEnd(s: State, newMl: nat, t: State, ot: Own)
    requires Frozen(s) && s.ml != ML_EXCEEDED && newMl < U32
    requires KeptMemory(Begun(s, newMl), BegunOwn(s, newMl), t, ot)
    ensures Restored(s, Popped(s, t))
    ensures WholeLow(s, Popped(s, t)) <==> LowPagesKept(Begun(s, newMl), t)
    ensures WholeLow(s, Popped(s, t)) ==>
      Frozen(Popped(s, t)) && View(Popped(s, t)) == View(s) && Mapped(Popped(s, t)) == Mapped(s)
  {
    hide Frozen, View, KeptMemory, Inv, Ent;
    var c := Begun(s, newMl);
    TestStart(s, newMl);
    KeptMemoryTrans(Cloned(s), CloneOwn(s), c, BegunOwn(s, newMl), t, ot);
    PopRestores(s, t, ot);
    RestoredExactly(s, t, ot);
    if WholeLow(s, Popped(s, t)) {
      RestoredFrozen(s, Popped(s, t));
    }
  }

  lemma SameLow(s: State, c: State)
    requires Frozen(s) && forall p :: 0 <= p < PAGES ==> Ent(c, p) == Ent(s, p)
    ensures LowView(c) == LowView(s) && LowFrozen(c)
  {
  }

  /** The exact condition for the pages from 1 to 4 MiB, for a whole test. */
  lemma TestLowExactly(s: State, newMl: nat, t: State, ot: Own, ops: seq<Op>, n: nat)
    requires Frozen(s) && s.ml != ML_EXCEEDED && newMl < U32 && n <= |ops|
    requires KeptMemory(Begun(s, newMl), BegunOwn(s, newMl), t, ot) && LowSoFar(Begun(s, newMl), t, ops, n)
    ensures TestLow(s, Popped(s, t), ops, n)
  {
    hide Frozen, View, KeptMemory, Inv, Ent, LowCarried, LowView, LowFrozen, LowPagesKept, WholeLow, Begun, BegunOwn;
    var c := Begun(s, newMl);
    TestStart(s, newMl);
    TestEnd(s, newMl, t, ot);
    SameLow(s, c);
    if AllQuiet(ops) {
      KeptExactly(c, t);
    }
  }

  lemma FrozenCow(s: State)
    requires Frozen(s)
    ensures LowFrozen(s) && forall p :: FIRST_USER <= p < 1024 && Ent(s, p).cow ==> Ent(s, p) != NONE
  {
  }

  lemma LowMove(s: State, op: Op)
    requires !Quiet(op)
    ensures !LowSafe(s, op)
  {
  }

  /** On a frozen state, for one operation: the condition is on the words of the snapshot. */
  lemma FirstOpExactly(s: State, newMl: nat, t: State, ot: Own, op: Op, st: Status)
    requires Frozen(s) && s.ml != ML_EXCEEDED && newMl < U32 && OpOk(op)
    requires StepDone(Begun(s, newMl), BegunOwn(s, newMl), t, ot, op, st)
    requires op.Move? ==> CanMoveFlat(View(s), op.to, op.from, op.n)
    ensures WholeLow(s, Popped(s, t)) <==> LowSafe(s, op)
  {
    hide Frozen, View, KeptMemory, Inv, Ent, LowCarried, LowView, LowFrozen, LowPagesKept, WholeLow, Begun, BegunOwn,
      LowSafe;
    var c := Begun(s, newMl);
    TestStart(s, newMl);
    TestEnd(s, newMl, t, ot);
    SameLow(s, c);
    if Quiet(op) {
      KeptExactly(c, t);
      FrozenCow(s);
      SafeExactly(s, op);
    } else {
      LowMove(s, op);
    }
  }

  /** The test can be over after `n` operations: it is when plain memory says so, if it does. */
  ghost predicate MayEnd(v: Flat, drift: int, test: Test, n: nat)
    requires OpsOk(test.ops)
  {
    && n <= |test.ops|
    && (FitsLimit(v, drift, test.ml) && Sound(StartMem(v, drift, test.ml), test.ops) ==>
          n == Expected(v, drift, test).count)
  }

  /** At the end of the test, on a snapshot with memory `v`, the table comes back. */
  ghost predicate Harmless(v: Flat, drift: int, test: Test)
    requires OpsOk(test.ops)
  {
    && AllQuiet(test.ops)
    && forall n: nat :: MayEnd(v, drift, test, n) ==> LowAfter(FlatLow(v), test.ops[..n]) == FlatLow(v)
  }

  lemma HarmlessWhole(s: State, u: State, test: Test, r: Report)
    requires Frozen(s) && OpsOk(test.ops) && Harmless(View(s), SnapshotDrift(s), test)
    requires Reports(View(s), SnapshotDrift(s), test, r) && r.status != KernelFault && TestLow(s, u, test.ops, r.count)
    ensures WholeLow(s, u)
  {
    hide Frozen, View, WholeLow, FlatLow, Expected, Sound, SnapshotDrift;
    FrozenLow(s);
    assert MayEnd(View(s), SnapshotDrift(s), test, r.count);
  }

  lemma {:induction false} AboveAfter(v: map<nat, LowWord>, ops: seq<Op>)
    requires AllAbove(ops) && forall p :: p in v ==> p < 1024
    ensures LowAfter(v, ops) == v
  {
    if ops != [] {
      var n := |ops| - 1;
      AboveAfter(v, ops[..n]);
      assert AboveFirstTable(ops[n]);
      assert forall p :: p in v ==> LowWordAfter(v[p], p, ops[n]) == v[p];
      assert LowStep(v, ops[n]) == v;
    }
  }

  /** Operations at 4 MiB and above are harmless. */
  lemma {:induction false} AboveHarmless(v: Flat, drift: int, test: Test)
    requires OpsOk(test.ops) && AllAbove(test.ops)
    ensures Harmless(v, drift, test)
  {
    forall n: nat | MayEnd(v, drift, test, n) ensures LowAfter(FlatLow(v), test.ops[..n]) == FlatLow(v) {
      AboveAfter(FlatLow(v), test.ops[..n]);
    }
  }

  lemma RunKept(s: State, newMl: nat, t: State, ot: Own, ops: seq<Op>, st: Status, n: nat)
    requires OpsOk(ops) && RunDone(Begun(s, newMl), BegunOwn(s, newMl), t, ot, ops, st, n)
    ensures KeptMemory(Begun(s, newMl), BegunOwn(s, newMl), t, ot)
    ensures n <= |ops| && LowSoFar(Begun(s, newMl), t, ops, n)
  {
    hide KeptMemory, LowSoFar, Begun, BegunOwn, PlainOf;
  }

  /** The snapshot of `s` is whole at `u`, table of the first 4 MiB included. */
  ghost predicate Whole(s: State, u: State) {
    && Restored(s, u) && Frozen(u) && View(u) == View(s) && Mapped(u) == Mapped(s)
    && Dir(u)[0] == Dir(s)[0] && Low(u, Dir(s)[0].frame) == Low(s, Dir(s)[0].frame)
  }

  lemma RestoredSelf(s: State)
    requires Frozen(s)
    ensures Whole(s, s)
  {
  }

  lemma WholeExact(s: State, t: State)
    requires Whole(s, t)
    ensures View(t) == View(s) && SnapshotDrift(t) == SnapshotDrift(s)
  {
  }

  /** Every table of the directory is a frame handed out. */
  ghost predicate DirBelow(s: State) {
    s.cr3 < s.aLow && forall e :: 0 <= e < 1024 && Dir(s)[e] != NONE ==> Dir(s)[e].frame < s.aLow
  }

  lemma SameClone(s: State, u: State)
    requires Frozen(s) && Whole(s, u)
    ensures u == s.(low := u.low, high := u.high) && Dir(u) == Dir(s) && DirBelow(s)
    ensures forall f: nat :: f < s.aLow ==> Low(u, f) == Low(s, f)
    ensures forall f: nat :: f < s.aHigh ==> High(u, f) == High(s, f)
  {
    hide View, Mapped, Ent;
  }

  lemma SameEnts(c: State, d: State, mark: nat)
    requires Dir(d) == Dir(c) && forall e :: 0 <= e < 1024 && Dir(c)[e] != NONE ==> Dir(c)[e].frame < mark
    requires forall f: nat :: f < mark ==> Low(d, f) == Low(c, f)
    ensures forall p :: 0 <= p < PAGES ==> Ent(d, p) == Ent(c, p)
  {
  }

  /** Every test with the same limit starts from the same state, frames that are not handed out yet
      excepted. */
  lemma SameStart(s: State, u: State, newMl: nat)
    requires Frozen(s) && Whole(s, u) && newMl < U32
    ensures var c, d := Begun(s, newMl), Begun(u, newMl);
      && d == c.(low := d.low, high := d.high) && Dir(d) == Dir(c)
      && (forall f: nat :: f < c.aLow ==> Low(d, f) == Low(c, f))
      && (forall f: nat :: f < c.aHigh ==> High(d, f) == High(c, f))
      && (forall p :: 0 <= p < PAGES ==> Ent(d, p) == Ent(c, p))
  {
    hide Inv, View, Mapped, Frozen, Ent, Restored;
    SameClone(s, u);
    var c, d := Begun(s, newMl), Begun(u, newMl);
    forall f: nat | f < c.aLow ensures Low(d, f) == Low(c, f) {
      assert f < s.aLow ==> Low(u, f) == Low(s, f);
    }
    forall f: nat | f < c.aHigh ensures High(d, f) == High(c, f) {
      assert High(u, f) == High(s, f);
    }
    SameEnts(c, d, s.aLow);
  }

  lemma WholeRestored(s: State, u: State)
    requires Whole(s, u)
    ensures Restored(s, u) && Frozen(u) && View(u) == View(s)
  {
  }

  /** Both free lists of the snapshot are intact, whatever frames they run through. */
  lemma ChainsKept(s: State, u: State)
    requires Frozen(s) && Restored(s, u)
    ensures forall o :: Chains(s, o) ==> Chains(u, o)
  {
    forall o | Chains(s, o) ensures Chains(u, o) {
      RestoredChains(s, u, o);
    }
  }

  lemma WholeTrans(s: State, t: State, u: State)
    requires Frozen(s) && Whole(s, t)
    requires Restored(t, u) && Frozen(u) && View(u) == View(t) && Mapped(u) == Mapped(t)
    requires WholeLow(t, u)
    ensures Whole(s, u)
  {
    hide View, Mapped;
    RestoredTrans(s, t, u);
    assert Dir(u) == Dir(t);
  }

  // ---- up to the snapshot ----

  /** Plain memory when the machine has started. */
  function Booted(): Plain {
    Plain(map[], {}, ML_EXCEEDED - 1)
  }

  /** After set_ml, from limit `was` to `ml`. */
  function Relimited(m: Plain, was: nat, ml: nat): Plain {
    m.(room := BudgetOps.StartRoom(|m.view|, m.room - was, ml))
  }

  /** The program, loaded on plain memory, with the limit of its first run. */
  ghost function Loaded(load: seq<Op>, pre: Test): Plain
    requires OpsOk(load)
  {
    Relimited(PlainRun(Booted(), load).mem, ML_EXCEEDED - 1, pre.ml)
  }

  ghost predicate LoadFits(load: seq<Op>, pre: Test)
    requires OpsOk(load)
  {
    var r := PlainRun(Booted(), load);
    r.status == Exited && FitsLimit(r.mem.view, r.mem.room - (ML_EXCEEDED - 1), pre.ml)
  }

  /** The first run on plain memory, after the loading. */
  ghost function FirstRun(load: seq<Op>, pre: Test): Outcome
    requires OpsOk(load) && OpsOk(pre.ops)
  {
    PlainRun(Loaded(load, pre), pre.ops)
  }

  /** The memory the program has at its first read of test data, and by how much its budget words then
      claim too much. */
  ghost function FirstView(load: seq<Op>, pre: Test): Flat
    requires OpsOk(load) && OpsOk(pre.ops)
  {
    FirstRun(load, pre).mem.view
  }

  ghost function FirstDrift(load: seq<Op>, pre: Test): int
    requires OpsOk(load) && OpsOk(pre.ops)
  {
    FirstRun(load, pre).mem.room - pre.ml
  }

  ghost predicate SoundLaunch(load: seq<Op>, pre: Test)
    requires OpsOk(load) && OpsOk(pre.ops)
  {
    Sound(Booted(), load) && (LoadFits(load, pre) ==> Sound(Loaded(load, pre), pre.ops))
  }

  /** Loading and first run end on plain memory as they should, within the limits. */
  ghost predicate Succeeds(load: seq<Op>, pre: Test)
    requires OpsOk(load) && OpsOk(pre.ops)
  {
    LoadFits(load, pre) && FirstRun(load, pre).status == Exited
  }

  lemma BootPlain(s: State, o: Own)
    requires Mapped(s) == {} && s.mlOrig == ML_EXCEEDED - 1 && o.drift == 0
    ensures PlainOf(s, o) == Booted() && SnapPages(s) == {}
  {
    ViewKeys(s);
    forall p: nat ensures p !in SnapPages(s) {
      if IsUser(p) {
        assert p !in Mapped(s);
      }
    }
  }

  /** The end of a run from a state without pages of the snapshot. */
  lemma OwnRun(s: State, o: Own, t: State, ot: Own, ops: seq<Op>, st: Status, n: nat)
    requires OpsOk(ops) && SnapPages(s) == {} && s.ml != ML_EXCEEDED
    requires st != KernelFault ==> RunDone(s, o, t, ot, ops, st, n)
    requires RunExact(s, o, t, ops, st, n)
    ensures var r := PlainRun(PlainOf(s, o), ops);
      && (st == Exited && t.ml != ML_EXCEEDED ==> r == Outcome(Exited, PlainOf(t, ot), n) && SnapPages(t) == {})
      && (Sound(PlainOf(s, o), ops) ==> (st == Exited && t.ml != ML_EXCEEDED <==> r.status == Exited))
  {
    hide Inv, KeptMemory, View, Ent, PlainRun, Sound, FaultDue, SnapPages, LowSoFar;
    NoFaultDue(PlainOf(s, o), ops, n);
    SnapEmpty(PlainOf(s, o), ops);
  }

  lemma Widths(s: State, o: Own)
    requires Inv(s, o)
    ensures s.ml < U32 && s.mlOrig < U32
  {
  }

  lemma LimitPlain(b: State, ob: Own, newMl: nat)
    requires Inv(b, ob) && b.ml != ML_EXCEEDED && newMl < U32
    ensures var c, oc := BudgetOps.SetMl(b, newMl), BudgetOps.SetMlOwn(b, ob, newMl);
      && (c.ml == ML_EXCEEDED <==> !FitsLimit(PlainOf(b, ob).view, PlainOf(b, ob).room - b.mlOrig, newMl))
      && (c.ml != ML_EXCEEDED ==> PlainOf(c, oc) == Relimited(PlainOf(b, ob), b.mlOrig, newMl))
  {
    hide Inv, View, Mapped, Ent, KeptMemory, SnapPages;
    BudgetOps.SetMlInv(b, ob, newMl);
    BudgetOps.SetMlKeepsUse(b, ob, newMl);
    var c := BudgetOps.SetMl(b, newMl);
    SameView(b, c);
    SameSnap(b, c);
    ViewSize(b);
  }

  lemma RunFacts(s: State, o: Own, t: State, ot: Own, ops: seq<Op>, st: Status, n: nat)
    requires OpsOk(ops) && RunDone(s, o, t, ot, ops, st, n)
    ensures Inv(t, ot) && ot.moved == {} && ot.snap == o.snap && t.mlOrig == s.mlOrig
    ensures s.ml == ML_EXCEEDED ==> t.ml == ML_EXCEEDED
  {
    hide Inv, View, LowSoFar;
  }

  /** The drift of the snapshot, as plain memory has it. */
  lemma DriftIs(s: State, o: Own, t: State)
    requires Inv(s, o) && s.ml != ML_EXCEEDED && t == s.(low := t.low) && View(t) == View(s) && Mapped(t) == Mapped(s)
    ensures SnapshotDrift(t) == PlainOf(s, o).room - s.mlOrig && View(t) == PlainOf(s, o).view
  {
  }
}
