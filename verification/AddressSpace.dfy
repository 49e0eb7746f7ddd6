/** kernel/sys_vmem.c and the break of kernel/vmem.c: the memory calls of a program, with the checks
    on their arguments. Arguments are byte addresses and sizes, 32 bits wide. */
module AddressSpace {
  import opened Integers
  import opened Machine
  import opened Ownership
  import opened Ranges
  import opened RangeLoops
  import opened Moves
  import opened FlatMemory
  import opened RemapViews
  import opened HeapViews
  import opened Scans
  import opened FlatSearch
  import opened Search
  import opened StoreSteps
  import opened Paging
  import opened Program
  import opened Snapshot
  import opened Runs
  import opened RunSteps
  import opened TestSteps

  /** What a call returns: a value, or minus one of these. `Stopped` is a kernel page fault;
      `Stranded` marks the two ways sys_mremap goes on from a move that this model does not follow
      further: to a higher address, and to address 0 when no range is free. `KernelPages` marks an
      mmap2 with MAP_FIXED below 1 MiB, which the kernel carries out over its own pages. */
  datatype Ret = Value(value: nat) | EINVAL | EFAULT | ENOMEM | EPERM | Stopped | Stranded | KernelPages

  /** The answer of mmap2: `n` zeroed pages at byte address `at`. */
  ghost predicate MmapAnswer(s: State, t: State, at: nat, n: nat, w: bool) {
    && at % 4096 == 0 && InUser(at / 4096, at / 4096 + n)
    && (t.ml != ML_EXCEEDED ==> View(t) == FlatZero(View(s), at / 4096, at / 4096 + n, w))
  }

  /** No run of `n` free pages below 0x80000000, but for the page do_find_mmap may pass over when the
      size is small; for large sizes, no table being empty. */
  ghost predicate NoRoom(s: State, n: nat) {
    && (0 < n < LARGE ==> RunsBelow(s, n, 0x80000, FIRST_USER))
    && (LARGE <= n && NoEmptyTable(s) ==> RunsBelow(s, n - 1, 0x80000, FIRST_USER))
  }

  /** map_range over these pages makes the kernel fault. */
  ghost predicate MapFaults(s: State, from: nat, n: nat) {
    from + n <= PAGES && exists q :: from <= q < from + n && FaultsAt(s, from, q)
  }

  /** The call was one operation of a run. */
  ghost predicate OpDone(s: State, o: Own, t: State, o': Own, op: Op)
    requires OpOk(op)
  {
    StepDone(s, o, t, o', op, CallStatus(t)) && StepExact(s, o, t, op, CallStatus(t))
  }

  ghost predicate WasFree(s: State, at: nat, n: nat) {
    at / 4096 + n <= PAGES && Absent(s, at / 4096, at / 4096 + n)
  }

  /** The old mapping lies in the program's part of the address space and is all there. */
  ghost predicate MremapSource(s: State, a: nat, n: nat) {
    FIRST_USER <= a && a + n <= USER_END && forall q :: a <= q < a + n ==> Ent(s, q) != NONE
  }

  /** A mapping of `n` pages at `a` can grow to `m` pages where it is. */
  ghost predicate RoomBehind(s: State, a: nat, n: nat, m: nat) {
    a + m <= USER_END && Absent(s, a + n, a + m)
  }

  /** Only words of the range differ. */
  ghost predicate OnlyIn(s: State, t: State, from: nat, to: nat) {
    forall q :: 0 <= q < PAGES && !(from <= q < to) ==> Ent(t, q) == Ent(s, q)
  }

  /** The place mmap2 chooses, or its error. */
  ghost function FlatPlace(v: Flat, addr: nat, n: nat, fixed: bool): (r: Ret)
    ensures r.Value? ==> InUser(r.value / 4096, r.value / 4096 + n)
  {
    var from := if fixed then addr / 4096 else FlatMmap(v, addr / 4096, n);
    if addr % 4096 != 0 then EINVAL
    else if n * 4096 >= 0xc0000000 || (!fixed && from == 0) then ENOMEM
    else if from < 16 || from + n > USER_END then EPERM
    else if from < FIRST_USER then KernelPages
    else Value(from * 4096)
  }

  lemma StillThere(s: State, a: nat, n: nat)
    requires MremapSource(s, a, n)
    ensures forall q :: a <= q < a + n ==> q in View(s)
  {
    forall q: nat | a <= q < a + n ensures q in View(s) {
      assert Ent(s, q) != NONE;
    }
  }

  /** Where the old pages are after the move, if any. */
  function MremapMoved(v: Flat, a2: nat, a: nat, n: nat): Flat
    requires forall q :: a <= q < a + n ==> q in v
  {
    if a2 == a then v else FlatMove(v, a2, a, n)
  }

  /** The answer of mremap: the `n` pages at `a` are now the first of `m` pages at `a2`. */
  ghost predicate MremapAnswer(s: State, o: Own, t: State, o': Own, a: nat, n: nat, m: nat, a2: nat) {
    && a2 <= a && a + n <= PAGES && 0 < n && (m <= n ==> a2 == a)
    && (forall q :: a <= q < a + n ==> q in View(s))
    && (t.ml != ML_EXCEEDED ==>
          && View(t) == (if m <= n then FlatUnmap(View(s), a + m, a + n)
                         else FlatZero(MremapMoved(View(s), a2, a, n), a2 + n, a2 + m, View(s)[a].writable))
          && o'.drift == o.drift + (if a2 == a then 0 else a + n - Uncovered(a2, a, n)))
  }

  lemma NothingToUnmap(s: State, o: Own, a: nat, n: nat)
    requires MremapSource(s, a, n) && 0 < n
    ensures MremapAnswer(s, o, s, o, a, n, n, a)
  {
    StillThere(s, a, n);
    assert FlatUnmap(View(s), a + n, a + n) == View(s);
  }

  lemma StickyMl(s: State, o: Own, t: State, o': Own)
    requires Going(s, o, t, o')
    ensures s.ml == ML_EXCEEDED ==> t.ml == ML_EXCEEDED
  {
  }

  /** mremap goes on to a higher address, or to none. */
  ghost predicate Strands(v: Flat, a: nat, n: nat, m: nat) {
    FlatRemap(v, a, n, m) < FIRST_USER || a < FlatRemap(v, a, n, m)
  }

  /** The pages at `a` are at `a2` as well, with the same frames, and their own words are marked. */
  ghost predicate MovedUp(s: State, t: State, a2: nat, a: nat, n: nat)
    requires a + n <= PAGES
  {
    && a + n <= a2 && a2 + n <= USER_END
    && (forall q :: a <= q < a + n ==>
          Ent(s, q) != NONE && Ent(t, q) == Ent(s, q).(shared := true) && Ent(t, q - a + a2) == Ent(s, q))
    && (forall q :: 0 <= q < PAGES && !(a <= q < a + n) && !(a2 <= q < a2 + n) ==> Ent(t, q) == Ent(s, q))
  }

  /** Where a mapping of `n` pages at `a` goes to have `m`: into the gap around it when it begins a
      table, and without empty tables, in every case, where plain memory says. It strands exactly when
      that is above or none; above, its pages are at both places. */
  ghost predicate PlaceSays(s: State, t: State, a: nat, n: nat, m: nat, r: Ret)
    requires a + n <= PAGES
  {
    && (0 < n && Slides(View(s), a, n, m) ==> r.Value? && r.value == (GapEnd(View(s), a, n, m) - m) * 4096)
    && (NoEmptyTable(s) ==>
          && (r == Stopped || (r == Stranded <==> Strands(View(s), a, n, m)))
          && (r.Value? ==> r.value == FlatRemap(View(s), a, n, m) * 4096)
          && (r == Stranded && 0 < n && 0 < FlatRemap(View(s), a, n, m) ==>
                MovedUp(s, t, FlatRemap(View(s), a, n, m), a, n)))
  }

  lemma MovedUpDone(s: State, o: Own, m: State, om: Own, a2: nat, a: nat, n: nat)
    requires Movable(s, a2, a, n) && a + n <= a2 && MoveDone(s, o, m, om, a2, a, 0, n)
    ensures MovedUp(s, m, a2, a, n)
  {
    forall q | a <= q < a + n ensures Ent(m, q) == Ent(s, q).(shared := true) && Ent(m, q - a + a2) == Ent(s, q) {
      UpwardLeaves(s, o, m, om, a2, a, n, q);
    }
    forall q | 0 <= q < PAGES && !(a <= q < a + n) && !(a2 <= q < a2 + n) ensures Ent(m, q) == Ent(s, q) {
      assert Ent(m, q) == MovedEnt(s, a2, a, 0, n, q);
    }
  }

  /** A place that is neither the old one nor in the gap is behind the mapping or in front of it. */
  lemma FreePlace(s: State, r: nat, a: nat, n: nat, m: nat)
    requires MremapSource(s, a, n) && 0 < n < m && FIRST_USER <= r && r + m <= USER_END && Absent(s, r, r + m)
    ensures r + m <= a || a + n <= r
  {
    assert Ent(s, a) != NONE && Ent(s, a + n - 1) != NONE && Ent(s, r) == NONE;
  }

  /** After mremap the old pages that stay are at the new place, with contents and rights. */
  lemma MremapKept(s: State, o: Own, t: State, o': Own, a: nat, n: nat, m: nat, a2: nat, i: nat)
    requires MremapAnswer(s, o, t, o', a, n, m, a2) && t.ml != ML_EXCEEDED && i < n && i < m
    ensures a + i in View(s) && a2 + i in View(t) && View(t)[a2 + i] == View(s)[a + i]
  {
    hide View;
    assert a2 + i in Range(a2, a2 + n);
  }

  /** The added pages read as zeros, and have the right of the first old page. */
  lemma MremapAdded(s: State, o: Own, t: State, o': Own, a: nat, n: nat, m: nat, a2: nat, i: nat)
    requires MremapAnswer(s, o, t, o', a, n, m, a2) && t.ml != ML_EXCEEDED && n <= i < m
    ensures a in View(s) && a2 + i in View(t) && View(t)[a2 + i].writable == View(s)[a].writable
    ensures var page := View(t)[a2 + i].contents; forall j :: 0 <= j < 1024 ==> page[j] == 0
  {
    hide View, MremapMoved;
    assert a2 + i in Range(a2 + n, a2 + m);
  }

  /** Nothing is left behind, neither of a mapping that shrinks nor of one that moves. */
  lemma MremapGone(s: State, o: Own, t: State, o': Own, a: nat, n: nat, m: nat, a2: nat, i: nat)
    requires MremapAnswer(s, o, t, o', a, n, m, a2) && t.ml != ML_EXCEEDED && i < n && !(a2 <= a + i < a2 + m)
    ensures a + i !in View(t)
  {
    hide View;
    assert a + i in Range(a, a + n);
  }

  /** The right of the page the added pages take theirs from. */
  function FirstRight(v: Flat, p: nat): bool {
    p in v && v[p].writable
  }

  /** The answer of mremap for an old size of 0: `m` zeroed pages at `a2`, which need not have been
      free. */
  ghost predicate EmptyAnswer(s: State, t: State, a: nat, m: nat, a2: nat) {
    && a2 <= a
    && (m == 0 ==> a2 == a && t == s)
    && (t.ml != ML_EXCEEDED && 0 < m ==> View(t) == FlatClear(View(s), a2, a2 + m, FirstRight(View(s), a2)))
  }

  /** find_mremap for an old size of 0: inside the program's part, and free unless the start page is
      mapped. */
  lemma EmptyPlace(s: State, a: nat, m: nat, a2: nat)
    requires FIRST_USER <= a <= USER_END && 0 < m && a + m < PAGES && FIRST_USER <= a2 <= a
    requires SeenMapped(s, a) ==> a2 == (a - m) % PAGES
    requires SoundPlace(s, a2, m, a, 0) <==> SeenMapped(s, a) ==> FreeBelow(s, a, m)
    ensures InUser(a2, a2 + m) && (a2 != a ==> Movable(s, a2, a, 0))
    ensures !SeenMapped(s, a) ==> Absent(s, a2, a2 + m)
  {
  }

  lemma NothingMoved(s: State, o: Own, t: State, ot: Own, a2: nat, a: nat, m: nat)
    requires a2 <= a <= PAGES && a2 + m <= PAGES && if a2 == a then t == s else MovedDown(s, o, t, ot, a2, a, 0)
    ensures Absent(s, a2, a2 + m) ==> Absent(t, a2, a2 + m)
    ensures t.ml != ML_EXCEEDED ==> View(t) == View(s)
  {
    if a2 != a && t.ml != ML_EXCEEDED {
      assert FlatMove(View(s), a2, a, 0) == View(s);
    }
  }

  lemma FreeNoFault(s: State, from: nat, n: nat)
    requires InUser(from, from + n) && Absent(s, from, from + n)
    ensures !MapFaults(s, from, n)
  {
  }

  lemma NoFaultFree(s: State, from: nat, to: nat)
    requires InUser(from, to)
    ensures (exists q :: from <= q < to && FaultsAt(s, from, q)) ==> !Absent(s, from, to)
  {
  }

  lemma RightOf(s: State, o: Own, p: nat, end: nat)
    requires Inv(s, o) && IsUser(p) && FirstFailing(s, p, p + 1, 1, end)
    ensures end == p + 1 <==> FirstRight(View(s), p)
  {
    assert end == p ==> Fails(s, p, 1);
    assert end == p + 1 ==> !Fails(s, p, 1);
  }

  lemma RoomToGrow(s: State, o: Own, t: State, ot: Own, a2: nat, a: nat, n: nat, m: nat)
    requires MremapSource(s, a, n) && FIRST_USER <= a2 <= a && 0 < n < m && a2 + m <= USER_END
    requires FreeOrOld(s, a2, m, a, n)
    requires if a2 == a then t == s else MovedDown(s, o, t, ot, a2, a, n)
    ensures Absent(t, a2 + n, a2 + m)
    ensures Ent(t, a2) == Ent(s, a) && InUser(a2 + n, a2 + m)
  {
    assert Ent(t, a2) == Ent(s, a2 - a2 + a);
  }

  lemma MremapDone(s: State, o: Own, t: State, ot: Own, u: State, ou: Own, a2: nat, a: nat, n: nat, m: nat)
    requires MremapSource(s, a, n) && FIRST_USER <= a2 <= a && 0 < n < m && a2 + m <= USER_END
    requires if a2 == a then t == s && ot == o else MovedDown(s, o, t, ot, a2, a, n)
    requires Ent(t, a2) == Ent(s, a) && (t.ml == ML_EXCEEDED ==> u.ml == ML_EXCEEDED)
    requires u.ml != ML_EXCEEDED ==>
      View(u) == FlatZero(View(t), a2 + n, a2 + m, Ent(t, a2).rw || Ent(t, a2).cow) && ou.drift == ot.drift
    ensures MremapAnswer(s, o, u, ou, a, n, m, a2)
  {
    StillThere(s, a, n);
  }

  lemma FirstTableThere(s: State, o: Own)
    requires Inv(s, o)
    ensures Dir(s)[0] != NONE && Ent(s, USER_END) != NONE
  {
  }

  lemma RightsMeanMapped(s: State, o: Own, from: nat, to: nat)
    requires Inv(s, o) && InUser(from, to)
    ensures forall p :: from <= p < to && (Ent(s, p).rw || Ent(s, p).cow) ==> Ent(s, p) != NONE
  {
  }

  /** What check_writable finds. */
  lemma WritableMeans(s: State, o: Own, from: nat, to: nat, ans: nat)
    requires Inv(s, o) && InUser(from, to) && FirstFailing(s, from, to, 1, ans)
    ensures ans == to <==> AllWritable(View(s), from, to)
    ensures ans == to ==> forall q :: from <= q < to ==> Ent(s, q).rw || Ent(s, q).cow
  {
    RightsMeanMapped(s, o, from, to);
    WritableScan(s, from, to, ans);
    if ans == to {
      forall q | from <= q < to ensures Ent(s, q).rw || Ent(s, q).cow {
        assert !Fails(s, q, 1);
      }
    }
  }

  /** The kernel may store to these pages: the copies were one operation of a run, which the program
      does not see, and every page is really writable and the run's own. */
  ghost predicate BufferReady(s: State, o: Own, t: State, o': Own, from: nat, to: nat) {
    && InUser(from, to) && OpDone(s, o, t, o', Copy(from, to))
    && Private(t, from, to) && (forall q :: from <= q < to ==> Ent(t, q).rw)
    && (t.ml != ML_EXCEEDED ==> View(t) == View(s))
  }

  lemma BufferCopied(s: State, o: Own, t: State, o': Own, from: nat, to: nat, cowed: nat)
    requires Inv(s, o) && o.moved == {} && InUser(from, to) && Going(s, o, t, o')
    requires CopyDone(s, o, t, o', from, to, cowed)
    requires forall q :: from <= q < to ==> Ent(s, q).rw || Ent(s, q).cow
    ensures BufferReady(s, o, t, o', from, to)
  {
    hide Inv, Kept, View, StepDone, StepExact;
    CopyDoneStep(s, o, t, o', Copy(from, to), cowed);
    ReadyForStores(s, o, t, o', from, to, cowed);
    if t.ml != ML_EXCEEDED {
      CopyView(s, t, from, to);
    }
  }

  lemma {:induction false} NoneOfThemShared(s: State, from: nat, to: nat)
    requires from <= to <= PAGES && Absent(s, from, to)
    ensures Shared(s, from, to) == 0
  {
    if from < to {
      NoneOfThemShared(s, from, to - 1);
    }
  }

  /** Pages [o, n) are new: writable, private and, the budget holding, all zeros. */
  ghost predicate NewPages(s: State, t: State, o: nat, n: nat)
    requires n <= PAGES
  {
    && OnlyIn(s, t, o, n)
    && forall q :: o <= q < n ==>
      && Ent(t, q) != NONE && !Ent(t, q).shared && (Ent(t, q).rw || Ent(t, q).cow)
      && (t.ml != ML_EXCEEDED ==> forall i :: 0 <= i < 1024 ==> High(t, Ent(t, q).frame)[i] == 0)
  }

  /** Pages [n, o) are gone, and no other word has changed. */
  ghost predicate GonePages(s: State, t: State, n: nat, o: nat)
    requires o <= PAGES
  {
    OnlyIn(s, t, n, o) && Absent(t, n, o)
  }

  lemma OnlyTwice(s: State, t: State, u: State, from: nat, to: nat)
    requires to <= PAGES && OnlyIn(s, t, from, to) && NewPages(t, u, from, to)
    ensures NewPages(s, u, from, to)
  {
  }

  lemma MmapOutside(s: State, t: State, from: nat, to: nat, w: bool)
    requires MmapRel(s, t, from, to, w)
    ensures OnlyIn(s, t, from, to)
  {
    forall q | 0 <= q < PAGES && !(from <= q < to) ensures Ent(t, q) == Ent(s, q) {
      assert Same(s, t, q);
    }
  }

  lemma NewOnes(s: State, t: State, o: nat, n: nat)
    requires MmapRel(s, t, o, n, true) && n <= PAGES
    ensures NewPages(s, t, o, n)
  {
    MmapOutside(s, t, o, n, true);
  }

  lemma UnmapOutside(s: State, t: State, from: nat, to: nat)
    requires UnmapRel(s, t, from, to)
    ensures OnlyIn(s, t, from, to)
  {
    forall q | 0 <= q < PAGES && !(from <= q < to) ensures Ent(t, q) == Ent(s, q) {
      assert Same(s, t, q);
    }
  }

  lemma GoneOnes(s: State, t: State, n: nat, o: nat)
    requires UnmapRel(s, t, n, o) && o <= PAGES
    ensures GonePages(s, t, n, o)
  {
    UnmapOutside(s, t, n, o);
  }

  /** A page of the range is in use, or the range leaves the program's part: no growth. */
  lemma Occupied(s: State, o: Own, from: nat, to: nat, high: nat)
    requires Inv(s, o) && FIRST_USER <= from < to < PAGES && FirstFailing(s, from, to, -1, high) && high != to
    ensures !GrowthFree(View(s), from, to) && !(to <= USER_END && Absent(s, from, to))
  {
    assert Fails(s, high, -1);
    if to <= USER_END {
      assert high in View(s);
    }
  }

  lemma GrowthIsFree(s: State, from: nat, to: nat)
    requires FIRST_USER <= from <= to <= USER_END && Absent(s, from, to)
    ensures GrowthFree(View(s), from, to)
  {
  }

  lemma BrkKept(s: State, o: Own, t: State, ot: Own, orig: nat)
    requires Going(s, o, t, ot) && 1024 <= orig
    requires forall q :: 0 <= q < PAGES && (q < orig || USER_END <= q) ==> Ent(t, q) == Ent(s, q)
    ensures KeptMemory(s, o, t, ot) && LowPagesKept(s, t)
  {
  }

  lemma ProtectOutside(s: State, t: State, from: nat, to: nat, w: bool)
    requires ProtectRel(s, t, from, to, w)
    ensures OnlyIn(s, t, from, to)
  {
    forall q | 0 <= q < PAGES && !(from <= q < to) ensures Ent(t, q) == Ent(s, q) {
      assert Same(s, t, q);
    }
  }

  class AddressSpace {
    const p: Program
    const k: Kernel
    var curBrk: nat
    var origBrk: nat

    constructor (program: Program, brk: nat)
      ensures p == program && k == program.k && curBrk == origBrk == brk
    {
      p, k := program, program.k;
      curBrk, origBrk := brk, brk;
    }

    ghost predicate Ready()
      reads this, k
    {
      k == p.k && k.Valid() && k.own.moved == {}
    }

    /** The break lies in the program's part of the address space, at or above the heap's start. */
    ghost predicate BreakOk()
      reads this
    {
      origBrk % 4096 == 0 && FIRST_USER <= origBrk / 4096 <= RoundPages(curBrk) <= USER_END
    }

    /** The break is sound: the heap's pages are mapped and writable. */
    ghost predicate HeapOk()
      reads this, k
    {
      BreakOk() && HeapMapped(View(k.S()), origBrk / 4096, RoundPages(curBrk))
    }

    /** What brk(x) is to do. */
    ghost function Brks(x: nat): BrkResult
      reads this, k
    {
      BrkStep(View(k.S()), origBrk / 4096, curBrk, x)
    }

    method Grow(o: nat, n: nat)
      requires Ready() && FIRST_USER <= o <= n && n < PAGES && o <= USER_END && FirstFailing(k.S(), o, n, -1, n)
      modifies k`low, k`high, k`llLow, k`llHigh, k`allocAddrLow, k`allocAddrHigh, k`ml, k`own
      ensures n <= USER_END && old(Absent(k.S(), o, n))
      ensures Going(old(k.S()), old(k.own), k.S(), k.own) && MmapRel(old(k.S()), k.S(), o, n, true)
      ensures k.ml != ML_EXCEEDED ==> View(k.S()) == FlatZero(old(View(k.S())), o, n, true)
      ensures k.ml != ML_EXCEEDED ==> k.own.drift == old(k.own.drift)
    {
      ghost var s, own0 := k.S(), k.own;
      AbsentInUser(s, o, n);
      AbsentMaps(s, o, n);
      hide Inv, Kept, View;
      var ok := p.MmapAt(o, n, true);
      NoneOfThemShared(s, o, n);
      if k.ml != ML_EXCEEDED {
        MmapView(s, k.S(), o, n, true);
      }
    }

    method Shrink(n: nat, o: nat)
      requires Ready() && InUser(n, o)
      modifies k`low, k`high, k`llLow, k`llHigh, k`allocAddrLow, k`allocAddrHigh, k`ml, k`own
      ensures Going(old(k.S()), old(k.own), k.S(), k.own) && UnmapRel(old(k.S()), k.S(), n, o)
      ensures k.ml != ML_EXCEEDED ==> View(k.S()) == FlatUnmap(old(View(k.S())), n, o)
      ensures k.own.drift == old(k.own.drift) && (old(NoEmptyTable(k.S())) ==> NoEmptyTable(k.S()))
      ensures OpDone(old(k.S()), old(k.own), k.S(), k.own, Munmap(n, o))
    {
      hide Inv, Kept, View, NoEmptyTable, StepDone, StepExact, UnmapRel;
      ghost var s, own0 := k.S(), k.own;
      k.UnmapRange(n, o);
      MunmapStep(s, own0, k.S(), k.own, Munmap(n, o));
      if k.ml != ML_EXCEEDED {
        UnmapView(s, k.S(), n, o);
      }
    }

    /** brk(x), from any break. Growth happens only into free pages, which read as zeros; shrinking
        unmaps exactly the difference; a sound heap stays sound. When the page-rounded break does
        not change, C leaves the result open and nothing is written. */
    method Brk(x: nat) returns (r: nat)
      requires Ready() && BreakOk() && x < U32
      modifies k`low, k`high, k`llLow, k`llHigh, k`allocAddrLow, k`allocAddrHigh, k`ml, k`own, this`curBrk
      ensures Going(old(k.S()), old(k.own), k.S(), k.own) && BreakOk()
      ensures curBrk == old(Brks(x)).cur && (old(Brks(x)).defined ==> r == old(Brks(x)).answer)
      ensures k.ml != ML_EXCEEDED ==> View(k.S()) == old(Brks(x)).view && k.own.drift == old(k.own.drift)
      ensures k.ml != ML_EXCEEDED && old(HeapOk()) ==> HeapOk()
      ensures curBrk == old(curBrk) && RoundPages(x) != RoundPages(curBrk) ==> k.S() == old(k.S())
      ensures RoundPages(x) == RoundPages(old(curBrk)) ==> k.S() == old(k.S())
      ensures var o, n := RoundPages(old(curBrk)), RoundPages(x);
        && (n * 4096 < origBrk ==> r == curBrk == old(curBrk) && k.S() == old(k.S()))
        && (origBrk <= n * 4096 && n < o ==> r == curBrk == x && GonePages(old(k.S()), k.S(), n, o))
        && (origBrk <= n * 4096 && o < n && n <= USER_END && old(Absent(k.S(), RoundPages(curBrk), RoundPages(x))) ==>
              r == curBrk == x && NewPages(old(k.S()), k.S(), o, n))
        && (origBrk <= n * 4096 && o < n ==>
              (n <= USER_END && old(Absent(k.S(), RoundPages(curBrk), RoundPages(x)))) ||
              (r == curBrk == old(curBrk) && k.S() == old(k.S())))
      ensures forall q :: 0 <= q < PAGES && (q < origBrk / 4096 || USER_END <= q) ==>
        Ent(k.S(), q) == old(Ent(k.S(), q))
    {
      hide Inv, Kept, View, MmapRel, UnmapRel, NewPages, GonePages;
      var o := RoundPages(curBrk);
      var n := RoundPages(x);
      ghost var s, own0, v := k.S(), k.own, View(k.S());
      GoingSelf(s, own0);
      if n * 4096 < origBrk {
        return curBrk;
      }
      if n > o {
        var high := CheckAccess(k, o, n, -1);
        if high != n {
          Occupied(s, own0, o, n, high);
          return curBrk;
        }
        Grow(o, n);
        GrowthIsFree(s, o, n);
        MmapOutside(s, k.S(), o, n, true);
        NewOnes(s, k.S(), o, n);
        if HeapMapped(v, origBrk / 4096, o) {
          GrownHeap(v, origBrk / 4096, o, n);
        }
        curBrk := x;
        return x;
      } else if n < o {
        Shrink(n, o);
        UnmapOutside(s, k.S(), n, o);
        GoneOnes(s, k.S(), n, o);
        if HeapMapped(v, origBrk / 4096, o) {
          ShrunkHeap(v, origBrk / 4096, o, n);
        }
        curBrk := x;
        return x;
      }
      r := *;
    }

    /** The heap shrinks and grows back: both calls are granted, and the pages given back read as
        zeros. */
    method BrkBack(x: nat) returns (r: nat, back: nat)
      requires Ready() && BreakOk() && x < U32 && curBrk < U32
      requires origBrk <= RoundPages(x) * 4096 && RoundPages(x) < RoundPages(curBrk)
      modifies k`low, k`high, k`llLow, k`llHigh, k`allocAddrLow, k`allocAddrHigh, k`ml, k`own, this`curBrk
      ensures r == x && back == curBrk == old(curBrk)
      ensures NewPages(old(k.S()), k.S(), RoundPages(x), RoundPages(old(curBrk)))
    {
      hide Inv, Kept, View, RoundPages, BrkStep, HeapMapped;
      ghost var s := k.S();
      var was := curBrk;
      r := Brk(x);
      ghost var t := k.S();
      back := Brk(was);
      OnlyTwice(s, t, k.S(), RoundPages(x), RoundPages(was));
    }

    /** A turn of the loop over the tests whose program calls brk(x): clone_paging, set_ml, the call,
        pop_paging. The memory is the snapshot's again, but the break is the one the test left; the
        heap of the next test is then unsound exactly when that break is above the snapshot's. */
    method BrkTest(newMl: nat, x: nat) returns (r: nat)
      requires k == p.k && Frozen(k.S()) && k.cr3 == k.origCr3 && k.ml != ML_EXCEEDED && newMl < U32
      requires BreakOk() && 4096 * 1024 <= origBrk && x < U32
      modifies k, this`curBrk
      ensures Restored(old(k.S()), k.S()) && Frozen(k.S()) && View(k.S()) == old(View(k.S()))
      ensures k.cr3 == k.origCr3 && k.ml == old(k.ml) && BreakOk()
      ensures curBrk == old(Brks(x)).cur && (old(Brks(x)).defined ==> r == old(Brks(x)).answer)
      ensures var end := RoundPages(old(curBrk));
        old(HeapOk()) && !(end in View(k.S()) && View(k.S())[end].writable) ==>
          (HeapOk() <==> RoundPages(curBrk) <= end)
    {
      hide NewPages, GonePages, Inv, KeptMemory, View, Frozen, Restored, Begun, BegunOwn, RoundPages;
      ghost var s, v, end, sound := k.S(), View(k.S()), RoundPages(curBrk), HeapOk();
      ghost var orig := origBrk / 4096;
      TestStart(s, newMl);
      p.BeginTest(newMl);
      ghost var c, oc := k.S(), k.own;
      r := Brk(x);
      BrkKept(c, oc, k.S(), k.own, orig);
      TestEnd(s, newMl, k.S(), k.own);
      k.PopPaging();
      if sound && !(end in v && v[end].writable) {
        StaleBreak(v, orig, end, RoundPages(curBrk));
      }
    }

    /** Two tests in a row, the first with brk(x), the second with brk(y). The second asks for a heap
        that the snapshot's own break would get. It is refused when the first left the break lower,
        and granted when it left it where it was or higher (but not on the page of y). */
    method BrkTwice(newMl: nat, x: nat, y: nat) returns (r: nat)
      requires k == p.k && Frozen(k.S()) && k.cr3 == k.origCr3 && k.ml != ML_EXCEEDED && newMl < U32
      requires HeapOk() && 4096 * 1024 <= origBrk && x < U32 && y < U32
      requires RoundPages(curBrk) < RoundPages(y) && GrowthFree(View(k.S()), RoundPages(curBrk), RoundPages(y))
      modifies k, this`curBrk
      ensures old(Brks(y)).answer == y
      ensures RoundPages(old(Brks(x)).cur) < RoundPages(old(curBrk)) ==> r == old(Brks(x)).cur != y
      ensures var c := RoundPages(old(Brks(x)).cur); RoundPages(old(curBrk)) <= c && c != RoundPages(y) ==> r == y
    {
      hide NewPages, GonePages, HeapMapped, GrowthFree, View, Frozen, Restored, RoundPages;
      ghost var v, b, orig := View(k.S()), curBrk, origBrk / 4096;
      r := BrkTest(newMl, x);
      ghost var c := curBrk;
      r := BrkTest(newMl, y);
      StaleGrowth(v, orig, b, c, y);
      if RoundPages(b) <= RoundPages(c) && RoundPages(c) != RoundPages(y) {
        StaleAbove(v, orig, b, c, y);
      }
    }

    /** munmap. `addr` need not start a page: the low bits are dropped after the sum. */
    method SysMunmap(addr: nat, sz: nat) returns (r: Ret)
      requires Ready() && addr < U32 && sz < U32
      modifies k`low, k`high, k`llLow, k`llHigh, k`allocAddrLow, k`allocAddrHigh, k`ml, k`own
      ensures Going(old(k.S()), old(k.own), k.S(), k.own)
      ensures r == Value(0) || (r == EPERM && k.S() == old(k.S())) || (r == EINVAL && k.S() == old(k.S()))
      ensures r != Value(0) ==> k.own == old(k.own)
      ensures r == EPERM <==> addr < 0x100000 || addr + sz > 0xc0000000
      ensures r == EINVAL <==>
        0x100000 <= addr && addr + sz <= 0xc0000000 && addr + RoundPages(sz) * 4096 > 0xc0000000
      ensures r == Value(0) && k.ml != ML_EXCEEDED ==>
        View(k.S()) == FlatUnmap(old(View(k.S())), addr / 4096, addr / 4096 + RoundPages(sz))
      ensures old(NoEmptyTable(k.S())) ==> NoEmptyTable(k.S())
      ensures r == Value(0) ==> OnlyIn(old(k.S()), k.S(), addr / 4096, addr / 4096 + RoundPages(sz))
      ensures r == Value(0) ==>
        OpDone(old(k.S()), old(k.own), k.S(), k.own, Munmap(addr / 4096, addr / 4096 + RoundPages(sz)))
    {
      hide Inv, Kept, View, NoEmptyTable, OnlyIn, UnmapRel, OpDone;
      ghost var s := k.S();
      GoingSelf(k.S(), k.own);
      if addr < 0x100000 || addr + sz > 0xc0000000 {
        return EPERM;
      }
      var n := RoundPages(sz);
      if addr < 0x100000 || addr + n * 4096 > 0xc0000000 {
        return EINVAL;
      }
      Shrink(addr / 4096, (addr + n * 4096) / 4096);
      UnmapOutside(s, k.S(), addr / 4096, addr / 4096 + n);
      r := Value(0);
    }

    method SysMprotect(addr: nat, sz: nat, w: bool) returns (r: Ret)
      requires Ready() && addr < U32 && sz < U32
      modifies k`low, k`high, k`llLow, k`llHigh, k`allocAddrLow, k`allocAddrHigh, k`ml, k`own
      ensures Going(old(k.S()), old(k.own), k.S(), k.own)
      ensures r == Value(0) || (r == EINVAL && k.S() == old(k.S()) && k.own == old(k.own))
      ensures r == EINVAL <==>
        addr % 4096 != 0 || addr < 0x100000 || addr + RoundPages(sz) * 4096 > 0xc0000000
      ensures r == Value(0) && k.ml != ML_EXCEEDED ==>
        View(k.S()) == FlatProtect(old(View(k.S())), addr / 4096, addr / 4096 + RoundPages(sz), w)
      ensures old(NoEmptyTable(k.S())) ==> NoEmptyTable(k.S())
      ensures r == Value(0) ==> OnlyIn(old(k.S()), k.S(), addr / 4096, addr / 4096 + RoundPages(sz))
      ensures r == Value(0) ==>
        OpDone(old(k.S()), old(k.own), k.S(), k.own, Mprotect(addr / 4096, addr / 4096 + RoundPages(sz), w))
    {
      hide Inv, Kept, View, NoEmptyTable, OnlyIn, ProtectRel, StepDone, StepExact;
      ghost var s, o := k.S(), k.own;
      GoingSelf(s, o);
      if addr % 4096 != 0 {
        return EINVAL;
      }
      var n := RoundPages(sz);
      if addr < 0x100000 || addr + n * 4096 > 0xc0000000 {
        return EINVAL;
      }
      k.SetRights(addr / 4096, addr / 4096 + n, w);
      MprotectStep(s, o, k.S(), k.own, Mprotect(addr / 4096, addr / 4096 + n, w));
      ProtectOutside(s, k.S(), addr / 4096, addr / 4096 + n, w);
      if k.ml != ML_EXCEEDED {
        ProtectView(s, k.S(), addr / 4096, addr / 4096 + n, w);
      }
      r := Value(0);
    }

    /** The checks of mmap2 and its choice of a place: the byte address `n` pages will go to. */
    method MmapPlace(addr: nat, n: nat, fixed: bool) returns (r: Ret)
      requires Ready() && addr < U32
      ensures r.Value? || r == EINVAL || r == ENOMEM || r == EPERM || r == KernelPages
      ensures r == KernelPages <==>
        fixed && addr % 4096 == 0 && 0x10000 <= addr < 0x100000 && n * 4096 < 0xc0000000 && addr / 4096 + n <= USER_END
      ensures r == EINVAL <==> addr % 4096 != 0
      ensures r.Value? ==> r.value % 4096 == 0 && InUser(r.value / 4096, r.value / 4096 + n)
      ensures r.Value? ==> if fixed then r.value == addr else WasFree(k.S(), r.value, n)
      ensures var asked := addr % 4096 == 0 && InUser(addr / 4096, addr / 4096 + n) && n < USER_END;
        !fixed && asked && WasFree(k.S(), addr, n) ==> r == Value(addr)
      ensures r == ENOMEM && n < USER_END ==> !fixed && NoRoom(k.S(), n)
      ensures r == EPERM <==>
        fixed && addr % 4096 == 0 && n * 4096 < 0xc0000000 && (addr < 0x10000 || addr / 4096 + n > USER_END)
      ensures addr % 4096 == 0 && n * 4096 >= 0xc0000000 ==> r == ENOMEM
      ensures r == ENOMEM && fixed ==> n * 4096 >= 0xc0000000
      ensures r.Value? && !fixed && r != Value(addr) && 0 < n ==> Topmost(k.S(), r.value / 4096, n, 0x80000)
      ensures NoEmptyTable(k.S()) ==> r == FlatPlace(View(k.S()), addr, n, fixed)
    {
      hide Inv, NoEmptyTable, Topmost, FlatMmap, View, RunsBelow, Absent, Ent;
      FirstTableThere(k.S(), k.own);
      if addr % 4096 != 0 {
        return EINVAL;
      }
      if n * 4096 >= 0xc0000000 {
        return ENOMEM;
      }
      var from := addr / 4096;
      if !fixed {
        from := FindMmap(k, from, n);
        if from == 0 {
          return ENOMEM;
        }
      }
      if from < 16 || from + n > USER_END {
        return EPERM;
      }
      if from < FIRST_USER {
        return KernelPages;
      }
      r := Value(from * 4096);
    }

    /** The mapping itself, once a place is chosen. */
    method MapNow(from: nat, n: nat, w: bool) returns (r: Ret)
      requires Ready() && InUser(from, from + n)
      modifies k`low, k`high, k`llLow, k`llHigh, k`allocAddrLow, k`allocAddrHigh, k`ml, k`own
      ensures r == Value(from * 4096) || r == Stopped
      ensures r == Stopped <==> MapFaults(old(k.S()), from, n)
      ensures r != Stopped ==> OpDone(old(k.S()), old(k.own), k.S(), k.own, Mmap(from, from + n, w))
      ensures r != Stopped ==> Going(old(k.S()), old(k.own), k.S(), k.own)
      ensures r != Stopped && k.ml != ML_EXCEEDED ==>
        View(k.S()) == FlatZero(old(View(k.S())), from, from + n, w)
      ensures r != Stopped ==> OnlyIn(old(k.S()), k.S(), from, from + n)
      ensures r != Stopped && old(NoEmptyTable(k.S())) ==> NoEmptyTable(k.S())
    {
      hide Inv, Kept, View, NoEmptyTable, OnlyIn, MmapRel, StepDone, StepExact, FaultsAt;
      ghost var s, o := k.S(), k.own;
      var ok := p.MmapAt(from, from + n, w);
      if !ok {
        return Stopped;
      }
      MmapStep(s, o, k.S(), k.own, Mmap(from, from + n, w));
      MmapOutside(s, k.S(), from, from + n, w);
      if k.ml != ML_EXCEEDED {
        MmapView(s, k.S(), from, from + n, w);
      }
      r := Value(from * 4096);
    }

    /** Anonymous mmap2. Without MAP_FIXED the range is one where nothing was mapped, and the kernel
        cannot fault; the result is the mapping, zeroed, with the rights asked for. */
    method SysMmap2(addr: nat, sz: nat, w: bool, fixed: bool) returns (r: Ret)
      requires Ready() && addr < U32 && sz < U32
      modifies k`low, k`high, k`llLow, k`llHigh, k`allocAddrLow, k`allocAddrHigh, k`ml, k`own
      ensures r != Stopped ==> Going(old(k.S()), old(k.own), k.S(), k.own)
      ensures r == Stopped ==> fixed && MapFaults(old(k.S()), addr / 4096, RoundPages(sz))
      ensures r == Stopped ==>
        addr % 4096 == 0 && InUser(addr / 4096, addr / 4096 + RoundPages(sz)) && RoundPages(sz) * 4096 < 0xc0000000
      ensures fixed && r.Value? ==> !MapFaults(old(k.S()), addr / 4096, RoundPages(sz))
      ensures !r.Value? && r != Stopped ==> k.S() == old(k.S()) && k.own == old(k.own)
      ensures r.Value? ==> InUser(r.value / 4096, r.value / 4096 + RoundPages(sz))
      ensures r.Value? ==>
        OpDone(old(k.S()), old(k.own), k.S(), k.own, Mmap(r.value / 4096, r.value / 4096 + RoundPages(sz), w))
      ensures r.Value? ==> MmapAnswer(old(k.S()), k.S(), r.value, RoundPages(sz), w)
      ensures r.Value? ==> if fixed then r.value == addr else WasFree(old(k.S()), r.value, RoundPages(sz))
      ensures r.Value? || r == EINVAL || r == ENOMEM || (fixed && (r == EPERM || r == Stopped || r == KernelPages))
      ensures r == KernelPages <==>
        fixed && addr % 4096 == 0 && 0x10000 <= addr < 0x100000 && RoundPages(sz) * 4096 < 0xc0000000 &&
          addr / 4096 + RoundPages(sz) <= USER_END
      ensures r == EINVAL <==> addr % 4096 != 0
      ensures r == EPERM <==>
        fixed && addr % 4096 == 0 && RoundPages(sz) * 4096 < 0xc0000000 &&
          (addr < 0x10000 || addr / 4096 + RoundPages(sz) > USER_END)
      ensures addr % 4096 == 0 && RoundPages(sz) * 4096 >= 0xc0000000 ==> r == ENOMEM
      ensures r == ENOMEM && fixed ==> RoundPages(sz) * 4096 >= 0xc0000000
      ensures r.Value? && !fixed && r != Value(addr) && 0 < RoundPages(sz) ==>
        Topmost(old(k.S()), r.value / 4096, RoundPages(sz), 0x80000)
      ensures r == ENOMEM && RoundPages(sz) < USER_END ==> !fixed && old(NoRoom(k.S(), RoundPages(sz)))
      ensures r != Stopped && old(NoEmptyTable(k.S())) ==>
        r == FlatPlace(old(View(k.S())), addr, RoundPages(sz), fixed) && NoEmptyTable(k.S())
      ensures r.Value? ==> OnlyIn(old(k.S()), k.S(), r.value / 4096, r.value / 4096 + RoundPages(sz))
    {
      hide Inv, Kept, View, RoundPages, FlatZero, FlatPlace, NoEmptyTable, NoRoom, OnlyIn, OpDone, MapFaults, Topmost;
      ghost var s := k.S();
      GoingSelf(s, k.own);
      r := MmapPlace(addr, RoundPages(sz), fixed);
      if r.Value? {
        if !fixed {
          FreeNoFault(s, r.value / 4096, RoundPages(sz));
        }
        r := MapNow(r.value / 4096, RoundPages(sz), w);
      }
    }

    /** The end of mremap: the new pages, mapped with the rights of the first old one and zeroed. */
    method GrowAt(from: nat, to: nat, first: nat)
      requires Ready() && InUser(from, to) && Absent(k.S(), from, to) && IsUser(first) && first < from
      modifies k`low, k`high, k`llLow, k`llHigh, k`allocAddrLow, k`allocAddrHigh, k`ml, k`own
      ensures Going(old(k.S()), old(k.own), k.S(), k.own)
      ensures var w := old(Ent(k.S(), first).rw || Ent(k.S(), first).cow);
        k.ml != ML_EXCEEDED ==> View(k.S()) == FlatZero(old(View(k.S())), from, to, w)
      ensures k.ml != ML_EXCEEDED ==> k.own.drift == old(k.own.drift)
    {
      ghost var s, o := k.S(), k.own;
      AbsentMaps(s, from, to);
      NoneOfThemShared(s, from, to);
      hide Inv, Kept, View;
      var end := CheckAccess(k, first, first + 1, 1);
      var w := end == first + 1;
      assert w <==> !Fails(s, first, 1);
      var ok := k.MapRange(from, to, w);
      ghost var a, oa := k.S(), k.own;
      MappedPrivate(s, a, a, from, to, w);
      p.ZeroPages(from, to);
      GoingTrans(s, o, a, oa, k.S(), k.own);
      GrowView(s, a, k.S(), from, to, w);
      if k.ml != ML_EXCEEDED {
        MmapView(s, k.S(), from, to, w);
      }
    }

    /** The choice of a place for the grown mapping; all in pages. */
    method MremapPlace(a: nat, n: nat, m: nat) returns (r: nat)
      requires Ready() && MremapSource(k.S(), a, n) && 0 < n < m && a + m < PAGES
      ensures r == 0 || r == a || Movable(k.S(), r, a, n)
      ensures r != 0 ==> FIRST_USER <= r && r + m <= USER_END && FreeOrOld(k.S(), r, m, a, n)
      ensures a < r ==> a + n <= r
      ensures RoomBehind(k.S(), a, n, m) ==> r == a != 0
      ensures Slides(View(k.S()), a, n, m) ==> FIRST_USER <= r == GapEnd(View(k.S()), a, n, m) - m < a
      ensures NoEmptyTable(k.S()) ==> r == FlatRemap(View(k.S()), a, n, m)
    {
      FirstTableThere(k.S(), k.own);
      StillThere(k.S(), a, n);
      hide Inv, NoEmptyTable, GapEnd, GapStart, FlatMmap, View;
      r := FindMremap(k, a, n, m);
      if !Stays(View(k.S()), a, n, m) {
        SlidesExactly(View(k.S()), a, n, m);
        if !Slides(View(k.S()), a, n, m) && r != 0 {
          FreePlace(k.S(), r, a, n, m);
        }
      }
    }

    method EmptyMremapPlace(a: nat, m: nat) returns (a2: nat)
      requires Ready() && FIRST_USER <= a <= USER_END && 0 < m && a + m < PAGES
      ensures RoomBehind(k.S(), a, 0, m) ==> a2 == a
      ensures FIRST_USER <= a2 <= a ==> InUser(a2, a2 + m) && (a2 != a ==> Movable(k.S(), a2, a, 0))
      ensures FIRST_USER <= a2 <= a && !SeenMapped(k.S(), a) ==> Absent(k.S(), a2, a2 + m)
      ensures NoEmptyTable(k.S()) ==> a2 == FlatRemap(View(k.S()), a, 0, m)
    {
      hide Inv, NoEmptyTable, View, FlatRemap, Slides, Stays, GapEnd;
      FirstTableThere(k.S(), k.own);
      a2 := FindMremap(k, a, 0, m);
      if FIRST_USER <= a2 <= a {
        EmptyPlace(k.S(), a, m, a2);
      }
    }

    /** map_range with the right of the first page, and memset. */
    method ClearAt(from: nat, m: nat) returns (ok: bool)
      requires Ready() && InUser(from, from + m) && 0 < m
      modifies k`low, k`high, k`llLow, k`llHigh, k`allocAddrLow, k`allocAddrHigh, k`ml, k`own
      ensures !ok ==> !old(Absent(k.S(), from, from + m))
      ensures ok ==> Going(old(k.S()), old(k.own), k.S(), k.own)
      ensures ok && k.ml != ML_EXCEEDED ==>
        View(k.S()) == FlatClear(old(View(k.S())), from, from + m, old(FirstRight(View(k.S()), from)))
    {
      hide Inv, Kept, View, FlatClear, FirstRight, Absent;
      ghost var s, o := k.S(), k.own;
      var end := CheckAccess(k, from, from + 1, 1);
      var w := end == from + 1;
      RightOf(s, o, from, end);
      NoFaultFree(s, from, from + m);
      ok := k.MapRange(from, from + m, w);
      if !ok {
        return;
      }
      ghost var a, oa := k.S(), k.own;
      MappedPrivate(s, a, a, from, from + m, w);
      p.ZeroPages(from, from + m);
      GoingTrans(s, o, a, oa, k.S(), k.own);
      if k.ml != ML_EXCEEDED {
        ClearView(s, a, k.S(), from, from + m, w);
      }
    }

    /** The rest of mremap for an old size of 0. */
    method GrowNothing(a: nat, m: nat) returns (r: Ret)
      requires Ready() && FIRST_USER <= a <= USER_END && 0 < m && a + m < PAGES
      modifies k`low, k`high, k`llLow, k`llHigh, k`allocAddrLow, k`allocAddrHigh, k`ml, k`own
      ensures r == Stranded || (r.Value? && r.value % 4096 == 0) || r == Stopped
      ensures r == Stranded ==> !old(RoomBehind(k.S(), a, 0, m))
      ensures r == Stopped ==> old(SeenMapped(k.S(), a))
      ensures r.Value? ==> Going(old(k.S()), old(k.own), k.S(), k.own)
      ensures r.Value? ==> EmptyAnswer(old(k.S()), k.S(), a, m, r.value / 4096)
      ensures PlaceSays(old(k.S()), k.S(), a, 0, m, r)
    {
      hide Inv, Kept, View, FlatClear, MovedDown, RoomBehind, SeenMapped, Movable, Absent, FlatRemap, NoEmptyTable;
      ghost var s, o := k.S(), k.own;
      GoingSelf(s, o);
      var a2 := EmptyMremapPlace(a, m);
      if a2 < FIRST_USER || a2 > a {
        return Stranded;
      }
      if a2 != a {
        p.MoveDownTo(a2, a, 0);
      }
      ghost var t, ot := k.S(), k.own;
      NothingMoved(s, o, t, ot, a2, a, m);
      var ok := ClearAt(a2, m);
      if !ok {
        return Stopped;
      }
      GoingTrans(s, o, t, ot, k.S(), k.own);
      StickyMl(t, ot, k.S(), k.own);
      r := Value(a2 * 4096);
    }

    method GrowMapping(a: nat, n: nat, m: nat) returns (r: Ret)
      requires Ready() && MremapSource(k.S(), a, n) && 0 < n < m && a + m < PAGES
      modifies k`low, k`high, k`llLow, k`llHigh, k`allocAddrLow, k`allocAddrHigh, k`ml, k`own
      ensures r == Stranded || (r.Value? && r.value % 4096 == 0)
      ensures r == Stranded ==> !old(RoomBehind(k.S(), a, n, m))
      ensures r.Value? ==> Going(old(k.S()), old(k.own), k.S(), k.own)
      ensures r.Value? ==> MremapAnswer(old(k.S()), old(k.own), k.S(), k.own, a, n, m, r.value / 4096)
      ensures PlaceSays(old(k.S()), k.S(), a, n, m, r)
    {
      hide Inv, Kept, View, MovedDown, FreeOrOld, MremapAnswer, MremapSource, Movable, FlatZero, FlatRemap, Slides,
        GapEnd, NoEmptyTable, MoveDone, MovedUp;
      ghost var s, o := k.S(), k.own;
      GoingSelf(s, o);
      var a2 := MremapPlace(a, n, m);
      if a2 == 0 {
        return Stranded;
      }
      if a2 > a {
        k.MovePages(a2, a, n);
        MovedUpDone(s, o, k.S(), k.own, a2, a, n);
        return Stranded;
      }
      if a2 != a {
        p.MoveDownTo(a2, a, n);
      }
      ghost var t, ot := k.S(), k.own;
      RoomToGrow(s, o, t, ot, a2, a, n, m);
      GrowAt(a2 + n, a2 + m, a2);
      GoingTrans(s, o, t, ot, k.S(), k.own);
      StickyMl(t, ot, k.S(), k.own);
      MremapDone(s, o, t, ot, k.S(), k.own, a2, a, n, m);
      r := Value(a2 * 4096);
    }

    /** mremap. A mapping grows in place, or moves to a lower address and grows there: its pages
        keep contents and rights, the added pages read as zeros with the rights of the first page,
        nothing is left at the old place and no other page changes. Without empty tables the place
        is that of plain memory, and the call strands exactly when that is above the old one or
        none; the old pages are then at both places. An old size of 0 is a mapping of
        new pages, at a place that find_mremap may not have seen to be free; then the kernel may
        fault. */
    method SysMremap(addr: nat, sz: nat, newsz: nat) returns (r: Ret)
      requires Ready() && addr < U32 && sz < U32 && newsz < U32
      requires addr / 4096 + RoundPages(newsz) < PAGES
      modifies k`low, k`high, k`llLow, k`llHigh, k`allocAddrLow, k`allocAddrHigh, k`ml, k`own
      ensures r == EINVAL <==> addr % 4096 != 0
      ensures r == EINVAL || r == EFAULT ==> k.S() == old(k.S())
      ensures r != Stranded && r != Stopped ==> Going(old(k.S()), old(k.own), k.S(), k.own)
      ensures r.Value? && 0 < RoundPages(sz) ==>
        MremapAnswer(old(k.S()), old(k.own), k.S(), k.own,
                     addr / 4096, RoundPages(sz), RoundPages(newsz), r.value / 4096)
      ensures r.Value? && RoundPages(sz) == 0 ==>
        EmptyAnswer(old(k.S()), k.S(), addr / 4096, RoundPages(newsz), r.value / 4096)
      ensures r.Value? || r == EINVAL || r == EFAULT || r == Stranded || (r == Stopped && RoundPages(sz) == 0)
      ensures addr % 4096 == 0 ==> (r == EFAULT <==> !old(MremapSource(k.S(), addr / 4096, RoundPages(sz))))
      ensures r == Stranded ==> RoundPages(sz) < RoundPages(newsz)
      ensures r == Stranded ==> !old(RoomBehind(k.S(), addr / 4096, RoundPages(sz), RoundPages(newsz)))
      ensures r == Stopped ==> old(SeenMapped(k.S(), addr / 4096))
      ensures r == Stranded || r == Stopped || r.Value? ==>
        addr % 4096 == 0 && old(MremapSource(k.S(), addr / 4096, RoundPages(sz)))
      ensures r != EINVAL && r != EFAULT && RoundPages(sz) < RoundPages(newsz) ==>
        PlaceSays(old(k.S()), k.S(), addr / 4096, RoundPages(sz), RoundPages(newsz), r)
    {
      hide Inv, Kept, View, RoundPages, FlatClear, PlaceSays;
      ghost var s, o := k.S(), k.own;
      GoingSelf(s, o);
      if addr % 4096 != 0 {
        return EINVAL;
      }
      var a, n, m := addr / 4096, RoundPages(sz), RoundPages(newsz);
      if a < FIRST_USER || a + n > USER_END {
        return EFAULT;
      }
      var end := CheckAccess(k, a, a + n, 0);
      if end < a + n {
        assert Fails(s, end, 0);
        return EFAULT;
      }
      forall q | a <= q < a + n ensures Ent(s, q) != NONE {
        assert !Fails(s, q, 0);
      }
      if n == m {
        if 0 < n {
          NothingToUnmap(s, o, a, n);
        }
        return Value(addr);
      }
      if n > m {
        Shrink(a + m, a + n);
        StillThere(s, a, n);
        return Value(addr);
      }
      if n == 0 {
        r := GrowNothing(a, m);
      } else {
        r := GrowMapping(a, n, m);
      }
    }

    /** check_writable and do_cow for a buffer of `sz` bytes at `addr`: on success every page of the
        buffer is really writable and the run's own, so that the kernel, which the processor does
        not stop, may store to it; the program sees no difference. */
    method ReadyBuffer(addr: nat, sz: nat) returns (ok: bool)
      requires Ready() && addr < U32 && sz < U32
      modifies k`low, k`high, k`llLow, k`llHigh, k`allocAddrLow, k`allocAddrHigh, k`ml, k`own
      ensures Going(old(k.S()), old(k.own), k.S(), k.own)
      ensures var fits := 0x100000 <= addr && addr + sz <= 0xc0000000;
        ok <==> fits && AllWritable(old(View(k.S())), addr / 4096, (addr + sz + 4095) / 4096)
      ensures !ok ==> k.S() == old(k.S())
      ensures ok ==> BufferReady(old(k.S()), old(k.own), k.S(), k.own, addr / 4096, (addr + sz + 4095) / 4096)
    {
      hide Inv, Kept, View, Fails, FirstFailing, CopyDone, AllWritable, BufferReady;
      ghost var s, o := k.S(), k.own;
      GoingSelf(s, o);
      if addr < 0x100000 || addr + sz > 0xc0000000 {
        return false;
      }
      var from := addr / 4096;
      var to := (addr + sz + 4095) / 4096;
      var ans := CheckAccess(k, from, to, 1);
      WritableMeans(s, o, from, to, ans);
      if ans != to {
        return false;
      }
      var cowed := k.CowRange(from, to);
      BufferCopied(s, o, k.S(), k.own, from, to, cowed);
      ok := true;
    }
  }
}
