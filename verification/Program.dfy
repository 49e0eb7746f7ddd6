/** A test on the kernel: the memory calls of kernel/sys_vmem.c at a given place, the stores of the
    program, main_loop as a sequence of them, and the loop of kernel/main.c over the tests. */
module Program {
  import opened Integers
  import opened Machine
  import opened Ownership
  import opened DataOps
  import opened Ranges
  import opened RangeLoops
  import opened Moves
  import opened FlatMemory
  import opened RemapViews
  import opened Runs
  import opened Snapshot
  import opened StoreSteps
  import opened LowPages
  import opened RunSteps
  import opened TestSteps
  import opened Paging

  class Program {
    const k: Kernel

    constructor (kernel: Kernel)
      ensures k == kernel
    {
      k := kernel;
    }

    /** memset(addr, 0, sz). The processor does not protect pages from the kernel, so the range must
        be the run's own. */
    method ZeroPages(from: nat, to: nat)
      requires k.Valid() && k.own.moved == {} && InUser(from, to) && Private(k.S(), from, to)
      modifies k`high
      ensures Going(old(k.S()), k.own, k.S(), k.own)
      ensures ZeroRel(old(k.S()), k.S(), from, to)
      ensures old(NoEmptyTable(k.S())) ==> NoEmptyTable(k.S())
    {
      ghost var s, o := k.S(), k.own;
      for p := from to to
        invariant Going(s, o, k.S(), o)
        invariant ZeroRel(s, k.S(), from, p)
      {
        ghost var t := k.S();
        ZeroStep(s, o, t, from, p, to);
        k.StorePage(p, ZeroPage());
        GoingTrans(s, o, t, o, k.S(), o);
      }
      hide NoEmptyTable;
      DataOnly(s, k.S());
    }

    /** sys_mmap2 at a given place: map_range, set_rights when not writable, memset. */
    method MmapAt(from: nat, to: nat, w: bool) returns (ok: bool)
      requires k.Valid() && k.own.moved == {} && InUser(from, to)
      modifies k`low, k`high, k`llLow, k`llHigh, k`allocAddrLow, k`allocAddrHigh, k`ml, k`own
      ensures !ok ==> exists p :: from <= p < to && FaultsAt(old(k.S()), from, p)
      ensures ok ==> Going(old(k.S()), old(k.own), k.S(), k.own)
      ensures ok ==> MmapRel(old(k.S()), k.S(), from, to, w)
      ensures ok ==> Charged(old(k.S()), k.S(), Need(old(k.S()), from, to))
      ensures ok && k.ml != ML_EXCEEDED ==> k.own.drift == old(k.own.drift) - Shared(old(k.S()), from, to)
      ensures ok ==> forall p :: from <= p < to ==> !FaultsAt(old(k.S()), from, p)
      ensures ok && old(NoEmptyTable(k.S())) ==> NoEmptyTable(k.S())
    {
      hide Inv, Kept, NoEmptyTable;
      ghost var s, o := k.S(), k.own;
      ok := k.MapRange(from, to, w);
      if !ok {
        return;
      }
      ghost var a, oa := k.S(), k.own;
      if !w {
        k.SetRights(from, to, false);
        GoingTrans(s, o, a, oa, k.S(), k.own);
      }
      ghost var b, ob := k.S(), k.own;
      MappedPrivate(s, a, b, from, to, w);
      ZeroPages(from, to);
      GoingTrans(s, o, b, ob, k.S(), k.own);
      if w {
        MmapWritable(s, a, k.S(), from, to);
      } else {
        MmapReadOnly(s, a, b, k.S(), from, to);
      }
    }

    /** The program stores `x` in word `j` of page `p`. On a page fault with error code 7 main_loop
        copies the page and lets the instruction run again; `ok` is false on SIGSEGV. */
    method UserStore(p: nat, j: nat, x: nat) returns (ok: bool)
      requires k.Valid() && k.own.moved == {} && j < 1024
      modifies k`low, k`high, k`llLow, k`llHigh, k`allocAddrLow, k`allocAddrHigh, k`ml, k`own
      ensures Stored(old(k.S()), old(k.own), k.S(), k.own, p, j, x, ok)
      ensures old(NoEmptyTable(k.S())) ==> NoEmptyTable(k.S())
    {
      hide Inv, Kept, Retried, HardwareWritable, NoEmptyTable;
      ghost var s, o := k.S(), k.own;
      RetryStart(s, o, p);
      if !IsUser(p) {
        RetryEnd(s, o, s, o, p, j, x);
        return false;
      }
      while true
        invariant Retried(s, o, k.S(), k.own, p)
        invariant NoEmptyTable(s) ==> NoEmptyTable(k.S())
        decreases if Ent(k.S(), p).cow then 1 else 0
      {
        ghost var t, o' := k.S(), k.own;
        if HardwareWritable(k.S(), p) {
          StoreEnd(s, o, t, o', p, j, x);
          k.StorePage(p, High(k.S(), Ent(k.S(), p).frame)[j := x]);
          DataOnly(t, k.S());
          return true;
        }
        RetryGoing(s, o, t, o', p);
        HardwareMeaning(t, o', p);
        var cowed := k.CowRange(p, p + 1);
        RetryStep(s, o, t, o', k.S(), k.own, p, cowed);
        if cowed != 1 {
          RetryEnd(s, o, k.S(), k.own, p, j, x);
          return false;
        }
      }
    }

    /** The growing half of mremap below its place: move_pages and unmap_range, for a lower place. */
    method MoveDownTo(to: nat, from: nat, n: nat)
      requires k.Valid() && k.own.moved == {} && Movable(k.S(), to, from, n) && to < from
      modifies k`low, k`high, k`llLow, k`llHigh, k`allocAddrLow, k`allocAddrHigh, k`ml, k`own
      ensures Going(old(k.S()), old(k.own), k.S(), k.own)
      ensures MovedDown(old(k.S()), old(k.own), k.S(), k.own, to, from, n)
    {
      hide Inv, Kept, View, MoveDone, MovedDown, NoEmptyTable;
      ghost var s, o := k.S(), k.own;
      k.MovePages(to, from, n);
      ghost var m, om := k.S(), k.own;
      MovedWillUnmap(s, o, m, om, to, from, n);
      var top := to + n;
      if top < from {
        top := from;
      }
      k.UnmapRange(top, from + n);
      MovedDownDone(s, o, m, om, k.S(), k.own, to, from, n);
      KeptTrans(s, o, m, om, k.S(), k.own);
    }

    /** One turn of main_loop: a call or a store of the program. Anything but Exited ends the run. */
    method RunOp(op: Op) returns (st: Status)
      requires k.Valid() && k.own.moved == {} && OpOk(op)
      modifies k`low, k`high, k`llLow, k`llHigh, k`allocAddrLow, k`allocAddrHigh, k`ml, k`own
      ensures st == KernelFault ==> StepFault(old(k.S()), op)
      ensures st != KernelFault ==> StepDone(old(k.S()), old(k.own), k.S(), k.own, op, st)
      ensures st != KernelFault ==> StepExact(old(k.S()), old(k.own), k.S(), op, st)
      ensures st != KernelFault && !op.Move? && old(NoEmptyTable(k.S())) ==> NoEmptyTable(k.S())
    {
      hide NoEmptyTable, Inv, Kept, StepDone, StepExact, StepFault, UnmapDone, ProtectDone, CopyDone;
      ghost var s, o := k.S(), k.own;
      match op {
        case Mmap(from, to, w) =>
          var ok := MmapAt(from, to, w);
          if !ok {
            MmapFault(s, op);
            return KernelFault;
          }
          MmapStep(s, o, k.S(), k.own, op);
        case Munmap(from, to) =>
          k.UnmapRange(from, to);
          MunmapStep(s, o, k.S(), k.own, op);
        case Mprotect(from, to, w) =>
          k.SetRights(from, to, w);
          MprotectStep(s, o, k.S(), k.own, op);
        case Move(to, from, n) =>
          if CanMoveFlat(View(k.S()), to, from, n) {
            FlatMovable(s, to, from, n);
            MoveDownTo(to, from, n);
            MoveStep(s, o, k.S(), k.own, op);
          } else {
            MoveNothing(s, o, op);
          }
        case Copy(from, to) =>
          var cowed := k.CowRange(from, to);
          CopyDoneStep(s, o, k.S(), k.own, op, cowed);
        case Store(p, j, x) =>
          var ok := UserStore(p, j, x);
          st := if ok then Exited else Sigsegv;
          StoreDone(s, o, k.S(), k.own, op, st);
          return;
      }
      st := CallStatus(k.S());
    }

    /** main_loop over what the program of a test does: how it ends, and after how many operations. */
    method Run(ops: seq<Op>) returns (st: Status, n: nat)
      requires k.Valid() && k.own.moved == {} && OpsOk(ops)
      modifies k`low, k`high, k`llLow, k`llHigh, k`allocAddrLow, k`allocAddrHigh, k`ml, k`own
      ensures if st == KernelFault then 0 < n <= |ops|
              else RunDone(old(k.S()), old(k.own), k.S(), k.own, ops, st, n)
      ensures RunExact(old(k.S()), old(k.own), k.S(), ops, st, n)
      ensures st != KernelFault && NoMoves(ops) && old(NoEmptyTable(k.S())) ==> NoEmptyTable(k.S())
    {
      hide NoEmptyTable, Inv, Kept, View, StepDone, StepExact, StepFault, RunDone, RunExact, PlainOf;
      ghost var s, o := k.S(), k.own;
      RunStart(s, o, ops);
      n := 0;
      while n < |ops|
        invariant n <= |ops| && RunSoFar(s, o, k.S(), k.own, ops, n)
        invariant NoMoves(ops) && NoEmptyTable(s) ==> NoEmptyTable(k.S())
      {
        ghost var t, o' := k.S(), k.own;
        st := RunOp(ops[n]);
        if st == KernelFault {
          RunFaults(s, o, t, o', k.S(), ops, n);
          return st, n + 1;
        } else if st != Exited {
          RunStops(s, o, t, o', k.S(), k.own, ops, n, st);
          return st, n + 1;
        }
        RunTurn(s, o, t, o', k.S(), k.own, ops, n);
        n := n + 1;
      }
      st := Exited;
      RunEnd(s, o, k.S(), k.own, ops);
    }

    method BeginTest(newMl: nat)
      requires Frozen(k.S()) && k.cr3 == k.origCr3 && k.ml != ML_EXCEEDED && newMl < U32
      modifies k
      ensures k.S() == Begun(old(k.S()), newMl) && k.own == BegunOwn(old(k.S()), newMl)
      ensures k.Valid() && k.own.moved == {}
      ensures k.origCr3 == old(k.origCr3)
      ensures k.Saved() == old(k.S()).(low := k.low, high := k.high)
    {
      hide Inv, KeptMemory;
      ghost var s := k.S();
      TestStart(s, newMl);
      k.ClonePaging();
      k.SetMl(newMl);
      k.own := BegunOwn(s, newMl);
    }

    /** One turn of the loop over the tests: clone_paging, set_ml, main_loop, pop_paging. Whatever
        the program does, the registers, the allocator words and every frame of the snapshot are
        as before. */
    method RunTest(test: Test) returns (r: Report)
      requires Frozen(k.S()) && k.cr3 == k.origCr3 && k.ml != ML_EXCEEDED
      requires OpsOk(test.ops) && test.ml < U32
      modifies k
      ensures k.origCr3 == old(k.origCr3)
      ensures Reports(old(View(k.S())), old(SnapshotDrift(k.S())), test, r)
      ensures r.status != KernelFault ==> Restored(old(k.S()), k.S())
      ensures r.status != KernelFault ==> forall o :: Chains(old(k.S()), o) ==> Chains(k.S(), o)
      ensures r.status != KernelFault ==> TestLow(old(k.S()), k.S(), test.ops, r.count)
      ensures r.status != KernelFault && WholeLow(old(k.S()), k.S()) ==>
        Frozen(k.S()) && View(k.S()) == old(View(k.S())) && Mapped(k.S()) == old(Mapped(k.S()))
    {
      hide Inv, View, Mapped, Frozen, Restored, KeptMemory, RunDone, RunExact, Reports, Begun, BegunOwn, Chains,
        WholeLow, TestLow, SnapshotDrift;
      ghost var s := k.S();
      BeginTest(test.ml);
      var st, n := Run(test.ops);
      ghost var t, ot := k.S(), k.own;
      r := Report(st, View(k.S()), k.ml == ML_EXCEEDED, n);
      TestReport(s, t, ot, test, st, n);
      if st != KernelFault {
        RunKept(s, test.ml, t, ot, test.ops, st, n);
        TestEnd(s, test.ml, t, ot);
        TestLowExactly(s, test.ml, t, ot, test.ops, n);
        k.PopPaging();
        ChainsKept(s, k.S());
      }
    }

    /** The loop of main over the tests. Every test gets the memory of the snapshot, whatever the
        tests before it did; a kernel fault ends the loop for good. */
    method RunTests(tests: seq<Test>) returns (reports: seq<Report>)
      requires Frozen(k.S()) && k.cr3 == k.origCr3 && k.ml != ML_EXCEEDED
      requires forall i :: 0 <= i < |tests| ==> OpsOk(tests[i].ops) && tests[i].ml < U32
      requires forall i :: 0 <= i < |tests| ==> Harmless(View(k.S()), SnapshotDrift(k.S()), tests[i])
      modifies k
      ensures |reports| <= |tests|
      ensures |reports| < |tests| ==> reports != [] && reports[|reports| - 1].status == KernelFault
      ensures forall i :: 0 <= i < |reports| ==>
        Reports(old(View(k.S())), old(SnapshotDrift(k.S())), tests[i], reports[i])
      ensures (forall i :: 0 <= i < |reports| ==> reports[i].status != KernelFault) ==>
        Restored(old(k.S()), k.S()) && Frozen(k.S()) && View(k.S()) == old(View(k.S()))
      ensures (forall i :: 0 <= i < |reports| ==> reports[i].status != KernelFault) ==>
        forall o :: Chains(old(k.S()), o) ==> Chains(k.S(), o)
    {
      hide Frozen, View, Reports, Chains, TestLow, WholeLow, LowView, SnapshotDrift, Harmless;
      ghost var s := k.S();
      reports := [];
      RestoredSelf(s);
      for i := 0 to |tests|
        invariant |reports| == i && k.cr3 == k.origCr3 && k.ml != ML_EXCEEDED
        invariant forall j :: 0 <= j < i ==> Reports(View(s), SnapshotDrift(s), tests[j], reports[j])
        invariant Whole(s, k.S())
      {
        ghost var t := k.S();
        var r := RunTest(tests[i]);
        WholeExact(s, t);
        reports := reports + [r];
        if r.status == KernelFault {
          return;
        }
        HarmlessWhole(t, k.S(), tests[i], r);
        WholeTrans(s, t, k.S());
      }
      WholeRestored(s, k.S());
      ChainsKept(s, k.S());
    }

    /** set_ml, on an address space whose budget holds. */
    method SetLimit(newMl: nat)
      requires k.Valid() && k.own.moved == {} && k.ml != ML_EXCEEDED && newMl < U32
      modifies k`ml, k`mlOrig, k`own
      ensures k.Valid() && k.S() == BudgetOps.SetMl(old(k.S()), newMl)
      ensures k.own == BudgetOps.SetMlOwn(old(k.S()), old(k.own), newMl) && k.own.moved == {}
      ensures View(k.S()) == old(View(k.S()))
      ensures SnapPages(k.S()) == old(SnapPages(k.S()))
      ensures k.ml == ML_EXCEEDED <==>
        !FitsLimit(old(PlainOf(k.S(), k.own)).view, old(PlainOf(k.S(), k.own)).room - old(k.mlOrig), newMl)
      ensures k.ml != ML_EXCEEDED ==>
        PlainOf(k.S(), k.own) == Relimited(old(PlainOf(k.S(), k.own)), old(k.mlOrig), newMl)
      ensures old(NoEmptyTable(k.S())) ==> NoEmptyTable(k.S())
    {
      hide NoEmptyTable, View, Mapped, Inv, KeptMemory, Ent, PlainOf, SnapPages, Relimited, FitsLimit;
      ghost var b, ob := k.S(), k.own;
      Widths(b, ob);
      BudgetOps.SetMlInv(b, ob, newMl);
      LimitPlain(b, ob, newMl);
      k.SetMl(newMl);
      k.own := BudgetOps.SetMlOwn(b, ob, newMl);
      SameView(b, k.S());
      SameSnap(b, k.S());
      if NoEmptyTable(b) {
        UsedSame(b, k.S());
      }
    }

    /** main up to the tests: start the machine, load the program (`load`), run it up to its first
        read of test data (`pre`) and freeze it. `started` is false when the program does not get
        that far. */
    method Launch(load: seq<Op>, pre: Test) returns (started: bool)
      requires 0 < k.allocAddrLow && 0 < k.allocAddrHigh && k.llLow == 0 && k.llHigh == 0
      requires k.ml == k.mlOrig == ML_EXCEEDED - 1
      requires OpsOk(load) && OpsOk(pre.ops) && pre.ml < U32
      modifies k
      ensures started ==> Frozen(k.S()) && k.cr3 == k.origCr3 && k.ml != ML_EXCEEDED && Chains(k.S(), k.own)
      ensures started ==> LoadFits(load, pre) && FirstRun(load, pre).status == Exited
      ensures started ==> View(k.S()) == FirstRun(load, pre).mem.view
      ensures started ==> SnapshotDrift(k.S()) == FirstRun(load, pre).mem.room - pre.ml
      ensures SoundLaunch(load, pre) && Succeeds(load, pre) ==> started
      ensures started && NoMoves(load) && NoMoves(pre.ops) ==> NoEmptyTable(k.S())
    {
      hide NoEmptyTable, RunDone, Frozen, Chains, View, Mapped, Inv, KeptMemory, PlainRun, RunExact, Sound, Ent,
        NoMoves, PlainOf, SnapPages, FitsLimit;
      started := false;
      k.InitPaging();
      ghost var a, oa := k.S(), k.own;
      BootPlain(a, oa);
      var st, n := Run(load);
      ghost var b, ob := k.S(), k.own;
      OwnRun(a, oa, b, ob, load, st, n);
      if st != Exited || k.ml == ML_EXCEEDED {
        return;
      }
      RunFacts(a, oa, b, ob, load, st, n);
      SetLimit(pre.ml);
      ghost var c, oc := k.S(), k.own;
      st, n := Run(pre.ops);
      ghost var d, od := k.S(), k.own;
      if c.ml != ML_EXCEEDED {
        OwnRun(c, oc, d, od, pre.ops, st, n);
      }
      if st != KernelFault {
        RunFacts(c, oc, d, od, pre.ops, st, n);
      }
      if st != Exited || k.ml == ML_EXCEEDED {
        return;
      }
      k.CowPrepare();
      DriftIs(d, od, k.S());
      started := true;
    }

    /** main: every test that is run gets the memory the program had when it first asked for
        test data, and what it does there is what plain memory does. */
    method RunAll(load: seq<Op>, pre: Test, tests: seq<Test>)
      returns (started: bool, reports: seq<Report>)
      requires 0 < k.allocAddrLow && 0 < k.allocAddrHigh && k.llLow == 0 && k.llHigh == 0
      requires k.ml == k.mlOrig == ML_EXCEEDED - 1
      requires OpsOk(load) && OpsOk(pre.ops) && pre.ml < U32
      requires forall i :: 0 <= i < |tests| ==> OpsOk(tests[i].ops) && tests[i].ml < U32
      requires forall i :: 0 <= i < |tests| ==> Harmless(FirstView(load, pre), FirstDrift(load, pre), tests[i])
      modifies k
      ensures started ==> Succeeds(load, pre) && |reports| <= |tests|
      ensures started ==> forall i :: 0 <= i < |reports| ==>
        Reports(FirstView(load, pre), FirstDrift(load, pre), tests[i], reports[i])
      ensures started && |reports| < |tests| ==> reports != [] && reports[|reports| - 1].status == KernelFault
      ensures SoundLaunch(load, pre) && Succeeds(load, pre) ==> started
    {
      hide Frozen, View, Reports, FirstRun, NoMoves, SnapshotDrift, Restored, SoundLaunch, LoadFits, Harmless;
      reports := [];
      started := Launch(load, pre);
      if started {
        reports := RunTests(tests);
      }
    }
  }
}
