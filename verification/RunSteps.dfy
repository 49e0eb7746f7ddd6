/** One operation of a test, on the kernel and on plain memory, and whole runs of them. */
module RunSteps {
  import opened Machine
  import opened Ownership
  import opened Ranges
  import opened RangeLoops
  import opened Snapshot
  import opened Moves
  import opened FlatMemory
  import opened RemapViews
  import opened Runs
  import opened StoreSteps
  import opened LowPages

  // ---- states as plain memory ----

  /** The pages that are still the snapshot's. */
  function SnapPages(s: State): set<nat> {
    set p | FIRST_USER <= p < USER_END && Ent(s, p).shared
  }

  /** The plain memory a state stands for, with the limit as the budget words have it. */
  ghost function PlainOf(s: State, o: Own): Plain {
    Plain(View(s), SnapPages(s), s.mlOrig + o.drift)
  }

  /** What it does to the words from 1 to 4 MiB. */
  ghost predicate LowDone(s: State, t: State, op: Op) {
    if Quiet(op) then LowStepped(s, t, op)
    else CanMoveFlat(View(s), op.to, op.from, op.n) ==> !LowPagesKept(s, t)
  }

  /** The operation as plain memory carries it out. */
  ghost predicate PlainDone(m: Plain, m': Plain, op: Op, st: Status)
    requires OpOk(op)
  {
    && !Exceeds(m, op)
    && if Refused(m.view, op) then st == Sigsegv && m' == m else st == Exited && m' == PlainStep(m, op)
  }

  /** What one operation does, `st` being the status main_loop goes on with. */
  ghost predicate StepDone(s: State, o: Own, t: State, o': Own, op: Op, st: Status)
    requires OpOk(op)
  {
    && Going(s, o, t, o')
    && LowDone(s, t, op)
    && st != KernelFault
    && (st == MemoryLimit ==> t.ml == ML_EXCEEDED)
    && (t.ml != ML_EXCEEDED ==> PlainDone(PlainOf(s, o), PlainOf(t, o'), op, st))
  }

  /** The limit is below the word ML_EXCEEDED before and after the operation. */
  predicate SoundStep(m: Plain, op: Op)
    requires OpOk(op)
  {
    m.room < ML_EXCEEDED && (Refused(m.view, op) || Exceeds(m, op) || PlainStep(m, op).room < ML_EXCEEDED)
  }

  /** The limit is exceeded exactly when plain memory holds more pages than it allows. */
  ghost predicate StepExact(s: State, o: Own, t: State, op: Op, st: Status)
    requires OpOk(op)
  {
    s.ml != ML_EXCEEDED && SoundStep(PlainOf(s, o), op) ==>
      && (t.ml == ML_EXCEEDED <==> Exceeds(PlainOf(s, o), op))
      && (st == MemoryLimit <==> Exceeds(PlainOf(s, o), op))
  }

  /** The kernel faults only on a mapping over a page that is still the snapshot's. */
  ghost predicate StepFault(s: State, op: Op) {
    op.Mmap? && SnapPages(s) * Range(op.from, op.to) != {}
  }

  /** What main_loop makes of a system call. */
  function CallStatus(s: State): Status {
    if s.ml == ML_EXCEEDED then MemoryLimit else Exited
  }

  lemma OneMorePage(s: State, from: nat, p: nat)
    requires FIRST_USER <= from <= p < USER_END
    ensures |Mapped(s) * Range(from, p + 1)| == |Mapped(s) * Range(from, p)| + (if Ent(s, p) != NONE then 1 else 0)
  {
    var m, r := Mapped(s), Range(from, p);
    assert p in m <==> Ent(s, p) != NONE;
    hide Ent, Mapped;
    assert Range(from, p + 1) == r + {p} && p !in r;
    hide Range;
    assert m * (r + {p}) == if p in m then m * r + {p} else m * r;
  }

  /** Present counts the mapped pages of the range. */
  lemma {:induction false} PresentCount(s: State, from: nat, to: nat)
    requires FIRST_USER <= from <= to <= USER_END
    ensures Present(s, from, to) == |Mapped(s) * Range(from, to)|
  {
    hide Ent;
    if from < to {
      PresentCount(s, from, to - 1);
      OneMorePage(s, from, to - 1);
    } else {
      assert Mapped(s) * Range(from, to) == {};
    }
  }

  lemma SubsetSize(a: set<nat>, b: set<nat>)
    requires a <= b
    ensures |a| <= |b|
  {
    assert b == a + (b - a);
  }

  lemma OneMoreShared(s: State, from: nat, p: nat)
    requires FIRST_USER <= from <= p < USER_END
    ensures |SnapPages(s) * Range(from, p + 1)| == |SnapPages(s) * Range(from, p)| + (if Ent(s, p).shared then 1 else 0)
  {
    var m, r := SnapPages(s), Range(from, p);
    assert p in m <==> Ent(s, p).shared;
    hide Ent, SnapPages;
    assert Range(from, p + 1) == r + {p} && p !in r;
    hide Range;
    assert m * (r + {p}) == if p in m then m * r + {p} else m * r;
  }

  /** The sums over a range, as sets. */
  lemma {:induction false} SharedCount(s: State, from: nat, to: nat)
    requires FIRST_USER <= from <= to <= USER_END
    ensures Shared(s, from, to) == |SnapPages(s) * Range(from, to)|
  {
    hide Ent;
    if from < to {
      SharedCount(s, from, to - 1);
      OneMoreShared(s, from, to - 1);
    } else {
      assert SnapPages(s) * Range(from, to) == {};
    }
  }

  lemma {:induction false} NeedCount(s: State, from: nat, to: nat)
    requires FIRST_USER <= from <= to <= USER_END
    ensures Need(s, from, to) + Present(s, from, to) == to - from + Shared(s, from, to)
  {
    if from < to {
      NeedCount(s, from, to - 1);
    }
  }

  /** What a mapping takes: its free pages, and the snapshot's once more. */
  lemma NeedIs(s: State, from: nat, to: nat)
    requires FIRST_USER <= from <= to <= USER_END
    ensures Need(s, from, to) == |Range(from, to) - View(s).Keys| + |SnapPages(s) * Range(from, to)|
  {
    hide Need, Present, Shared, SnapPages, Range;
    NeedCount(s, from, to);
    SharedCount(s, from, to);
    PresentCount(s, from, to);
    RangeSize(from, to);
    ViewKeys(s);
    var r, m := Range(from, to), Mapped(s);
    assert r == (r - m) + m * r && (r - m) * (m * r) == {};
    assert |r| == |r - m| + |m * r|;
  }

  lemma ViewSize(s: State)
    ensures |View(s)| == |Mapped(s)|
  {
    ViewKeys(s);
    assert |View(s).Keys| == |View(s)|;
  }

  /** What is left of the limit. */
  lemma RoomLeft(s: State, o: Own)
    requires Inv(s, o) && s.ml != ML_EXCEEDED
    ensures s.ml + |View(s)| == PlainOf(s, o).room
  {
    ViewSize(s);
  }

  // ---- the operations ----

  lemma MmapBudget(s: State, o: Own, t: State, op: Op)
    requires Inv(s, o) && s.ml != ML_EXCEEDED && op.Mmap? && OpOk(op) && Charged(s, t, Need(s, op.from, op.to))
    ensures t.ml == ML_EXCEEDED <==> Exceeds(PlainOf(s, o), op)
  {
    hide Inv, View, Need, FlatZero, SnapPages;
    NeedIs(s, op.from, op.to);
    FlatZeroSize(View(s), op.from, op.to, op.w);
    RoomLeft(s, o);
  }

  lemma MmapSnap(s: State, t: State, from: nat, to: nat, w: bool)
    requires MmapRel(s, t, from, to, w)
    ensures SnapPages(t) == SnapPages(s) - Range(from, to)
  {
    forall p: nat ensures p in SnapPages(t) <==> p in SnapPages(s) - Range(from, to) {
      if IsUser(p) {
        assert from <= p < to || Same(s, t, p);
      }
    }
  }

  lemma MmapStep(s: State, o: Own, t: State, o': Own, op: Op)
    requires Inv(s, o) && op.Mmap? && OpOk(op) && Going(s, o, t, o') && MmapRel(s, t, op.from, op.to, op.w)
    requires Charged(s, t, Need(s, op.from, op.to))
    requires t.ml != ML_EXCEEDED ==> o'.drift == o.drift - Shared(s, op.from, op.to)
    ensures StepDone(s, o, t, o', op, CallStatus(t)) && StepExact(s, o, t, op, CallStatus(t))
  {
    hide Inv, KeptMemory, View, Need, Shared, FlatZero, LowStepped, Charged, Exceeds, MmapRel;
    MmapLow(s, t, op);
    SharedCount(s, op.from, op.to);
    if s.ml != ML_EXCEEDED {
      MmapBudget(s, o, t, op);
    }
    if t.ml != ML_EXCEEDED {
      MmapView(s, t, op.from, op.to, op.w);
      MmapSnap(s, t, op.from, op.to, op.w);
    }
  }

  lemma MmapFault(s: State, op: Op)
    requires op.Mmap? && OpOk(op) && exists p :: op.from <= p < op.to && FaultsAt(s, op.from, p)
    ensures StepFault(s, op)
  {
    var p :| op.from <= p < op.to && FaultsAt(s, op.from, p);
    assert p in SnapPages(s) * Range(op.from, op.to);
  }

  lemma UnmapBudget(s: State, o: Own, from: nat, to: nat)
    requires Inv(s, o) && s.ml != ML_EXCEEDED && InUser(from, to)
    ensures s.ml + Present(s, from, to) <= PlainOf(s, o).room
  {
    hide Inv, View, Present, Mapped;
    PresentCount(s, from, to);
    SubsetSize(Mapped(s) * Range(from, to), Mapped(s));
    ViewSize(s);
    RoomLeft(s, o);
  }

  lemma UnmapSnap(s: State, t: State, from: nat, to: nat)
    requires UnmapRel(s, t, from, to)
    ensures SnapPages(t) == SnapPages(s) - Range(from, to)
  {
    forall p: nat ensures p in SnapPages(t) <==> p in SnapPages(s) - Range(from, to) {
      if IsUser(p) {
        assert from <= p < to || Same(s, t, p);
      }
    }
  }

  lemma MunmapStep(s: State, o: Own, t: State, o': Own, op: Op)
    requires Inv(s, o) && op.Munmap? && OpOk(op) && Going(s, o, t, o') && UnmapDone(s, o, t, o', op.from, op.to)
    ensures StepDone(s, o, t, o', op, CallStatus(t)) && StepExact(s, o, t, op, CallStatus(t))
  {
    hide Inv, KeptMemory, View, Present, LowStepped, FlatUnmap, UnmapRel, SnapPages;
    MunmapLow(s, t, op);
    UnmapSnap(s, t, op.from, op.to);
    if t.ml != ML_EXCEEDED {
      UnmapView(s, t, op.from, op.to);
    }
    if s.ml != ML_EXCEEDED {
      UnmapBudget(s, o, op.from, op.to);
    }
  }

  lemma FlatMovable(s: State, to: nat, from: nat, n: nat)
    requires FIRST_USER <= to < from && from + n <= USER_END && CanMoveFlat(View(s), to, from, n)
    ensures Movable(s, to, from, n)
  {
    forall p | from <= p < from + n ensures Ent(s, p) != NONE {
      assert p in View(s);
    }
    forall p | to <= p < to + n ensures Ent(s, p) == NONE || from <= p < from + n {
      assert p !in View(s) || from <= p < from + n;
    }
  }

  lemma MoveSnap(s: State, o: Own, t: State, o': Own, to: nat, from: nat, n: nat)
    requires FIRST_USER <= to < from && from + n <= USER_END && MovedDown(s, o, t, o', to, from, n)
    ensures SnapPages(t) == MovedSnap(SnapPages(s), to, from, n)
  {
    hide View;
    forall p: nat ensures p in SnapPages(t) <==> p in MovedSnap(SnapPages(s), to, from, n) {
    }
  }

  lemma MoveStep(s: State, o: Own, t: State, o': Own, op: Op)
    requires Inv(s, o) && op.Move? && OpOk(op) && Going(s, o, t, o') && CanMoveFlat(View(s), op.to, op.from, op.n)
    requires MovedDown(s, o, t, o', op.to, op.from, op.n)
    ensures StepDone(s, o, t, o', op, CallStatus(t)) && StepExact(s, o, t, op, CallStatus(t))
  {
    hide Inv, KeptMemory, View, LowStepped, FlatMove, LowPagesKept, CanMoveFlat;
    if Quiet(op) {
      MoveLow(s, o, t, o', op);
    } else {
      MoveShows(s, o, t, o', op);
    }
    MoveSnap(s, o, t, o', op.to, op.from, op.n);
    if s.ml != ML_EXCEEDED {
      RoomLeft(s, o);
    }
  }

  /** A move that mremap refuses. */
  lemma MoveNothing(s: State, o: Own, op: Op)
    requires Inv(s, o) && op.Move? && OpOk(op) && !CanMoveFlat(View(s), op.to, op.from, op.n)
    ensures StepDone(s, o, s, o, op, CallStatus(s)) && StepExact(s, o, s, op, CallStatus(s))
  {
    hide View, CanMoveFlat;
    if Quiet(op) {
      MoveLow(s, o, s, o, op);
    }
  }

  lemma ProtectSnap(s: State, t: State, from: nat, to: nat, w: bool)
    requires ProtectRel(s, t, from, to, w)
    ensures SnapPages(t) == SnapPages(s)
  {
    forall p: nat ensures p in SnapPages(t) <==> p in SnapPages(s) {
      if IsUser(p) {
        assert if from <= p < to then ProtectedPage(s, t, p, w) else Same(s, t, p);
      }
    }
  }

  lemma MprotectStep(s: State, o: Own, t: State, o': Own, op: Op)
    requires Inv(s, o) && o.moved == {} && op.Mprotect? && OpOk(op) && Going(s, o, t, o')
    requires ProtectDone(s, o, t, o', op.from, op.to, op.w)
    ensures StepDone(s, o, t, o', op, CallStatus(t)) && StepExact(s, o, t, op, CallStatus(t))
  {
    hide Inv, KeptMemory, View, LowStepped, FlatProtect, ProtectRel;
    MprotectLow(s, o, t, o', op);
    if t.ml != ML_EXCEEDED {
      ProtectView(s, t, op.from, op.to, op.w);
      ProtectSnap(s, t, op.from, op.to, op.w);
    }
  }

  /** A mapped page leaves room for the credit of its copy. */
  lemma NotStrained(s: State, o: Own, p: nat)
    requires Inv(s, o) && s.ml != ML_EXCEEDED && PlainOf(s, o).room < ML_EXCEEDED
    ensures !Strained(s, p)
  {
    if IsUser(p) && Ent(s, p) != NONE {
      SubsetSize({p}, Mapped(s));
    }
  }

  lemma StoreWord(s: State, o: Own, t: State, o': Own, op: Op, ok: bool)
    requires Inv(s, o) && o.moved == {} && op.Store? && OpOk(op) && Stored(s, o, t, o', op.p, op.j, op.x, ok)
    requires IsUser(op.p) && t.ml != ML_EXCEEDED
    ensures Ent(t, op.p).shared <==> Ent(s, op.p).shared && !ok
  {
    assert EntryOk(o, op.p, Ent(s, op.p));
    hide FlatStore, KeptMemory;
  }

  lemma StoreSnap(s: State, o: Own, t: State, o': Own, op: Op, ok: bool)
    requires Inv(s, o) && o.moved == {} && op.Store? && OpOk(op) && Stored(s, o, t, o', op.p, op.j, op.x, ok)
    ensures t.ml != ML_EXCEEDED ==> SnapPages(t) == if ok then SnapPages(s) - {op.p} else SnapPages(s)
  {
    hide Inv, KeptMemory, FlatStore;
    if t.ml != ML_EXCEEDED {
      if IsUser(op.p) {
        StoreWord(s, o, t, o', op, ok);
      }
      forall p: nat ensures p in SnapPages(t) <==> p in SnapPages(s) && !(ok && p == op.p) {
      }
    }
  }

  lemma StoreDone(s: State, o: Own, t: State, o': Own, op: Op, st: Status)
    requires Inv(s, o) && o.moved == {} && op.Store? && OpOk(op)
    requires Stored(s, o, t, o', op.p, op.j, op.x, st == Exited) && (st == Exited || st == Sigsegv)
    ensures StepDone(s, o, t, o', op, st) && StepExact(s, o, t, op, st)
  {
    hide Inv, KeptMemory, View, LowStepped, FlatStore, SnapPages, Allowed, CopiedWord, WordsKeptBut;
    StoreLow(s, o, t, o', op, st == Exited);
    if s.ml != ML_EXCEEDED && PlainOf(s, o).room < ML_EXCEEDED {
      NotStrained(s, o, op.p);
    }
    StoreSnap(s, o, t, o', op, st == Exited);
  }

  lemma CopySnap(s: State, o: Own, t: State, from: nat, to: nat)
    requires Inv(s, o) && o.moved == {} && InUser(from, to) && CopyRel(s, t, from, to)
    ensures SnapPages(t) == set p | p in SnapPages(s) && !(from <= p < to && Allowed(View(s), p))
  {
    forall p: nat ensures p in SnapPages(t) <==> p in SnapPages(s) && !(from <= p < to && Allowed(View(s), p)) {
      if IsUser(p) {
        assert EntryOk(o, p, Ent(s, p));
        assert if from <= p < to then CopiedPage(s, t, p) else Same(s, t, p);
      }
    }
  }

  lemma LazyMapped(s: State, o: Own, p: nat)
    requires Inv(s, o) && o.moved == {} && IsUser(p) && Ent(s, p).cow
    ensures Ent(s, p) != NONE
  {
  }

  lemma {:induction false} SomeLazy(s: State, from: nat, to: nat) returns (p: nat)
    requires to <= PAGES && 0 < Lazy(s, from, to)
    ensures from <= p < to && Ent(s, p).cow
  {
    if Ent(s, to - 1).cow {
      p := to - 1;
    } else {
      p := SomeLazy(s, from, to - 1);
    }
  }

  lemma CopyDoneStep(s: State, o: Own, t: State, o': Own, op: Op, cowed: nat)
    requires Inv(s, o) && o.moved == {} && op.Copy? && OpOk(op) && Going(s, o, t, o')
    requires CopyDone(s, o, t, o', op.from, op.to, cowed)
    ensures StepDone(s, o, t, o', op, CallStatus(t)) && StepExact(s, o, t, op, CallStatus(t))
  {
    hide KeptMemory, View, LowStepped, SnapPages, CopyRel, Tables, LowList, Entries, Pages, HighList;
    CopyLow(s, o, t, op);
    CopySnap(s, o, t, op.from, op.to);
    if t.ml != ML_EXCEEDED {
      CopyView(s, t, op.from, op.to);
    }
    if cowed > 0 {
      var p := SomeLazy(s, op.from, op.to);
      LazyMapped(s, o, p);
      if s.ml != ML_EXCEEDED && PlainOf(s, o).room < ML_EXCEEDED {
        NotStrained(s, o, p);
      }
    }
  }

  // ---- whole runs ----

  ghost predicate OpsOk(ops: seq<Op>) {
    forall i :: 0 <= i < |ops| ==> OpOk(ops[i])
  }

  ghost predicate NoMoves(ops: seq<Op>) {
    forall i :: 0 <= i < |ops| ==> !ops[i].Move?
  }

  ghost predicate AllAbove(ops: seq<Op>) {
    forall i :: 0 <= i < |ops| ==> AboveFirstTable(ops[i])
  }

  ghost predicate AllQuiet(ops: seq<Op>) {
    forall i :: 0 <= i < |ops| ==> Quiet(ops[i])
  }

  /** What the first `n` operations do to the words from 1 to 4 MiB. */
  ghost predicate LowSoFar(s: State, t: State, ops: seq<Op>, n: nat)
    requires n <= |ops|
  {
    AllQuiet(ops) ==> LowCarried(s, t) && LowView(t) == LowAfter(LowView(s), ops[..n])
  }

  /** The first `n` operations of the run from state `s` were carried out, and gave state `t`. */
  ghost predicate RunSoFar(s: State, o: Own, t: State, o': Own, ops: seq<Op>, n: nat)
    requires OpsOk(ops)
  {
    && Going(s, o, t, o') && o'.moved == {} && n <= |ops| && LowSoFar(s, t, ops, n)
    && (t.ml != ML_EXCEEDED ==> Reaches(PlainOf(s, o), ops, n, PlainOf(t, o')))
    && (s.ml != ML_EXCEEDED && Sound(PlainOf(s, o), ops) ==> t.ml != ML_EXCEEDED)
  }

  /** A whole run has ended with status `st` after `n` operations: it did what plain memory does. */
  ghost predicate RunDone(s: State, o: Own, t: State, o': Own, ops: seq<Op>, st: Status, n: nat)
    requires OpsOk(ops)
  {
    && Going(s, o, t, o') && o'.moved == {}
    && n <= |ops| && LowSoFar(s, t, ops, n)
    && (if st == Exited then n == |ops| else 0 < n)
    && (st == MemoryLimit ==> t.ml == ML_EXCEEDED)
    && (t.ml != ML_EXCEEDED ==> PlainRun(PlainOf(s, o), ops) == Outcome(st, PlainOf(t, o'), n))
  }

  /** The limit stops the run exactly where it stops plain memory, and the kernel faults only where a
      mapping over the snapshot's pages is due. */
  ghost predicate RunExact(s: State, o: Own, t: State, ops: seq<Op>, st: Status, n: nat)
    requires OpsOk(ops)
  {
    s.ml != ML_EXCEEDED && Sound(PlainOf(s, o), ops) ==>
      if st == KernelFault then FaultDue(PlainOf(s, o), ops, n)
      else
        var r := PlainRun(PlainOf(s, o), ops);
        st == r.status && n == r.count && (t.ml == ML_EXCEEDED <==> st == MemoryLimit)
  }

  lemma RunStart(s: State, o: Own, ops: seq<Op>)
    requires Inv(s, o) && o.moved == {} && OpsOk(ops)
    ensures RunSoFar(s, o, s, o, ops, 0)
  {
    assert ops[..0] == [];
  }

  /** One more operation, for the words from 1 to 4 MiB. */
  lemma LowTurn(s: State, t: State, u: State, ops: seq<Op>, n: nat)
    requires n < |ops| && LowSoFar(s, t, ops, n) && LowDone(t, u, ops[n])
    ensures LowSoFar(s, u, ops, n + 1)
  {
    if AllQuiet(ops) {
      CarriedTrans(s, t, u);
      AfterNext(LowView(s), ops, n);
    }
  }

  lemma GoingSticky(s: State, o: Own, t: State, o': Own)
    requires Going(s, o, t, o') && t.ml != ML_EXCEEDED
    ensures s.ml != ML_EXCEEDED && t.mlOrig == s.mlOrig
  {
  }

  /** Where the run stands, the next operation is the first of what is left of a sound run. */
  lemma SoundNext(m: Plain, ops: seq<Op>, n: nat, m': Plain)
    requires OpsOk(ops) && n < |ops| && Reaches(m, ops, n, m') && Sound(m, ops)
    ensures SoundStep(m', ops[n])
  {
    RunSplit(m, ops, n, m');
    assert ops[n..][0] == ops[n];
    if !Refused(m'.view, ops[n]) && !Exceeds(m', ops[n]) {
      assert Sound(PlainStep(m', ops[n]), ops[n..][1..]);
    }
  }

  /** One operation that lets the run go on. */
  lemma RunTurn(s: State, o: Own, t: State, o': Own, u: State, o'': Own, ops: seq<Op>, n: nat)
    requires OpsOk(ops) && RunSoFar(s, o, t, o', ops, n) && n < |ops|
    requires StepDone(t, o', u, o'', ops[n], Exited) && StepExact(t, o', u, ops[n], Exited)
    ensures RunSoFar(s, o, u, o'', ops, n + 1)
  {
    hide Inv, Kept, PlainOf, LowSoFar, LowDone, Reaches, Sound, Exceeds, Refused, SoundStep;
    GoingTrans(s, o, t, o', u, o'');
    LowTurn(s, t, u, ops, n);
    if u.ml != ML_EXCEEDED {
      GoingSticky(t, o', u, o'');
      ReachesNext(PlainOf(s, o), ops, n, PlainOf(t, o'));
    }
    if s.ml != ML_EXCEEDED && Sound(PlainOf(s, o), ops) {
      SoundNext(PlainOf(s, o), ops, n, PlainOf(t, o'));
    }
  }

  lemma RunEnd(s: State, o: Own, t: State, o': Own, ops: seq<Op>)
    requires OpsOk(ops) && RunSoFar(s, o, t, o', ops, |ops|)
    ensures RunDone(s, o, t, o', ops, Exited, |ops|) && RunExact(s, o, t, ops, Exited, |ops|)
  {
    hide LowSoFar, Inv, KeptMemory, PlainOf, Sound;
    assert ops[..|ops|] == ops;
  }

  /** One operation that ends the run. */
  lemma RunStops(s: State, o: Own, t: State, o': Own, u: State, o'': Own, ops: seq<Op>, n: nat, st: Status)
    requires OpsOk(ops) && RunSoFar(s, o, t, o', ops, n) && n < |ops|
    requires st != Exited && StepDone(t, o', u, o'', ops[n], st) && StepExact(t, o', u, ops[n], st)
    ensures RunDone(s, o, u, o'', ops, st, n + 1) && RunExact(s, o, u, ops, st, n + 1)
  {
    hide Inv, Kept, PlainOf, LowSoFar, LowDone, Sound, SoundStep;
    GoingTrans(s, o, t, o', u, o'');
    LowTurn(s, t, u, ops, n);
    if u.ml != ML_EXCEEDED {
      GoingSticky(t, o', u, o'');
    }
    if t.ml != ML_EXCEEDED {
      RunSplit(PlainOf(s, o), ops, n, PlainOf(t, o'));
    }
    if s.ml != ML_EXCEEDED && Sound(PlainOf(s, o), ops) {
      SoundNext(PlainOf(s, o), ops, n, PlainOf(t, o'));
    }
  }

  lemma RunFaults(s: State, o: Own, t: State, o': Own, u: State, ops: seq<Op>, n: nat)
    requires OpsOk(ops) && RunSoFar(s, o, t, o', ops, n) && n < |ops| && StepFault(t, ops[n])
    ensures RunExact(s, o, u, ops, KernelFault, n + 1)
  {
    hide Inv, Kept, LowSoFar;
  }
}
