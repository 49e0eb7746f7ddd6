/** States the kernel does reach in which its code does not do what it is meant to do. */
module Witnesses {
  import opened Machine
  import opened Ownership
  import opened DataOps
  import opened PageOps
  import opened Ranges
  import opened MapSteps
  import opened RangeLoops
  import opened Snapshot
  import opened Scans
  import opened FlatMemory
  import opened FlatSearch
  import opened Runs
  import opened RunSteps
  import opened TestSteps
  import opened HeapViews
  import opened Paging
  import opened AddressSpace

  /** The kernel has just started: the allocators of kernel/alloc.c as they are initialised. */
  ghost predicate Starting(k: Kernel)
    reads k
  {
    0 < k.allocAddrLow && 0 < k.allocAddrHigh && k.llLow == 0 && k.llHigh == 0 && k.ml == k.mlOrig == ML_EXCEEDED - 1
  }

  /** The first page to be mapped takes the first data frame. */
  lemma FirstFrame(s: State, p: nat)
    requires IsUser(p) && Dir(s)[p / 1024] != NONE && Ent(s, p) == NONE && TableOf(s, p) != s.cr3
    requires s.lHigh == 0 && 0 < s.ml < ML_EXCEEDED
    ensures Ent(MapWord(s, p, true), p) == Entry(s.aHigh, false, false, true, USER_BITS)
    ensures MapWord(s, p, true).ml == s.ml - 1 && MapWord(s, p, true).cr3 == s.cr3
  {
    var a, f := PreAlloc(s).0, PreAlloc(s).1;
    var e := Entry(f, false, false, true, USER_BITS);
    var t := SetEnt(a, p, e);
    assert Dir(t) == Dir(s) && Ent(t, p) == e;
    assert MapWord(s, p, true) == t;
  }

  lemma NothingMapped(s: State, t: State, p: nat)
    requires Mapped(s) == {} && forall q :: 0 <= q < PAGES ==> Same(s, t, q)
    ensures forall q :: FIRST_USER <= q < USER_END ==> Ent(t, q) == NONE
  {
    forall q | FIRST_USER <= q < USER_END ensures Ent(t, q) == NONE {
      assert q !in Mapped(s) && Same(s, t, q);
    }
  }

  lemma PrivateTable(s: State, o: Own, p: nat)
    requires Inv(s, o) && IsUser(p) && Dir(s)[p / 1024] != NONE && !Dir(s)[p / 1024].shared && Ent(s, p) == NONE
    ensures TableOf(s, p) != s.cr3 && !FaultsAt(s, p, p)
  {
    TableFrames(s, o, p / 1024);
  }

  lemma OnlyPage(s: State, t: State, p: nat)
    requires MapRel(s, t, p, p + 1, true) && forall q :: FIRST_USER <= q < USER_END ==> Ent(s, q) == NONE
    ensures forall q :: FIRST_USER <= q < USER_END && q != p ==> Ent(t, q) == NONE
  {
    forall q | FIRST_USER <= q < USER_END && q != p ensures Ent(t, q) == NONE {
      assert Same(s, t, q);
    }
  }

  /** A program of one page `p`, mapped as map_range does it, frozen and cloned. */
  method OnePage(k: Kernel, p: nat)
    requires Starting(k) && 1024 <= p < USER_END
    modifies k
    ensures k.Valid() && k.own.moved == {}
    ensures Ent(k.S(), p).shared && Ent(k.S(), p).frame == old(k.allocAddrHigh)
    ensures forall q :: FIRST_USER <= q < USER_END && q != p ==> Ent(k.S(), q) == NONE
  {
    hide Inv, Kept, NoEmptyTable, Frozen, Chains, Ent, MapWord, View, Mapped;
    k.InitPaging();
    ghost var a := k.S();
    k.GetCowAt(p / 1024);
    ghost var s, o := k.S(), k.own;
    NothingMapped(a, s, p);
    PrivateTable(s, o, p);
    var mapped := k.MapPage(p, true);
    MapStep(s, o, p, true);
    k.own := MapOwn(s, o, p);
    FirstFrame(s, p);
    ghost var b := k.S();
    OnlyPage(s, b, p);
    k.CowPrepare();
    CloneInv(k.S());
    k.ClonePaging();
  }

  /** A test that maps the page of that program again: the kernel takes a page fault, because nothing
      is mapped at the virtual page with the number of the snapshot's frame. */
  method FaultReached(k: Kernel, p: nat) returns (ok: bool)
    requires Starting(k) && 1024 <= p < USER_END && FIRST_USER <= k.allocAddrHigh < USER_END && p != k.allocAddrHigh
    modifies k
    ensures !ok
  {
    hide Inv, Kept, NoEmptyTable;
    OnePage(k, p);
    assert FaultsAt(k.S(), p, p);
    ok := k.MapRange(p, p + 1, true);
  }

  /** No word of the table is zero: looking for an absent page, the loop passes all of it. */
  predicate Full(t: Table) {
    forall i :: 0 <= i < 1024 ==> WordOk(t[i], 0)
  }

  lemma WrapsBelow(s: State, first: nat)
    requires Full(Low(s, first + 258)) && Low(s, first + 257)[1023] != NONE
    ensures DownFrom(s, first + 258, 1023, 0) < -1
  {
    hide DownFrom;
    DownFromExactly(s, first + 258, 1023, 0);
  }

  lemma LastLinear(s: State, first: nat)
    requires Kernel.LinearTables(s, first, 256)
    ensures Low(s, first + 257)[1023] != NONE
  {
    assert Kernel.LinearTable(Low(s, first + 2 + 255), 255 * 1024);
    assert Low(s, first + 257)[1023] == Kernel.KernelWord(255 * 1024 + 1023);
  }

  lemma FirstTableFrame(a: State, o: Own, s: State)
    requires s == PrivateDir(a, 1) && Dir(a)[1] == NONE && a.lLow == 0 && a.aLow == a.cr3 + 258
    ensures Dir(s)[1].frame == a.cr3 + 258 && s.cr3 == a.cr3 && Low(s, a.cr3 + 257) == Low(a, a.cr3 + 257)
    ensures Dir(s)[0] == Dir(a)[0]
  {
  }

  lemma NoFault(s: State, from: nat, to: nat)
    requires to <= PAGES && forall q :: from <= q < to ==> Ent(s, q) == NONE
    ensures forall q :: from <= q < to ==> !FaultsAt(s, from, q)
  {
  }

  lemma FullTable(s: State, o: Own, t: State, o': Own, first: nat)
    requires Going(s, o, t, o') && MapDone(s, o, t, o', 1024, 2048, true) && Dir(t)[1] == Dir(s)[1]
    requires Dir(s)[1].frame == first + 258 && s.cr3 == first && Dir(s)[0].frame == first + 1 && first + 257 < o.lowMark
    requires Low(s, first + 257)[1023] != NONE
    ensures Inv(t, o') && Dir(t)[1] != NONE && Low(t, first + 257)[1023] != NONE
    ensures Full(Low(t, first + 258))
  {
    var table := Low(t, first + 258);
    forall i | 0 <= i < 1024 ensures table[i] != NONE && Dir(t)[1] != NONE {
      assert MappedPage(s, t, 1024 + i, true);
      assert (1024 + i) / 1024 == 1 && (1024 + i) % 1024 == i;
    }
    assert table[0] != NONE;
  }

  /** A program that fills the 4 MiB from 4 MiB on, its table being the first one taken: the compiled
      loop, looking downwards for a free page there, leaves the table at index 0 and goes on through
      the kernel's own tables, where the loop that is meant stops. */
  method WrapReached(k: Kernel)
    requires Starting(k)
    modifies k
    ensures k.Valid() && Dir(k.S())[1] != NONE
    ensures Full(Low(k.S(), Dir(k.S())[1].frame))
    ensures DownFrom(k.S(), Dir(k.S())[1].frame, 1023, 0) < -1
  {
    hide Inv, NoEmptyTable, Ent, MapDone, Going, DownFrom, Full;
    k.InitPaging();
    ghost var a, oa := k.S(), k.own;
    LastLinear(a, k.cr3);
    k.GetCowAt(1);
    ghost var s, o := k.S(), k.own;
    FirstTableFrame(a, oa, s);
    NothingMapped(a, s, 1024);
    GoingSelf(s, o);
    MapNothing(s, o, 1024, true);
    assert Covers(1, 1024, 2048) && LowEnd(1, 1024) == 1024;
    var n, ok := k.MapPgdir(1, 1024, 2048, true, s, o);
    NoFault(s, 1024, 2048);
    FullTable(s, o, k.S(), k.own, a.cr3);
    WrapsBelow(k.S(), a.cr3);
  }

  // ---- a mapping that grows upwards ----

  /** The search from 0x80000000 down ends at once: nothing is mapped there. */
  lemma TopFree(v: Flat, p: nat)
    requires FIRST_USER <= p && p + 2 < 0x7fc00 && v.Keys == {p, p + 1}
    ensures FlatFind(v, 2, 0x80000, 0x80000) == 0x7fffd
  {
    assert !TableIn(v, 511);
    assert FlatTop(v, 0x7ffff) == 0x7ffff && FlatTop(v, 0x7fffe) == 0x7fffe;
    assert LastOut(v, 0x7ffff) == 0x7fffe;
    LastInFound(v, 0x7fffe);
    assert p + 1 in v && p + 1 <= LastIn(v, 0x7fffe);
  }

  /** The first of two pages has no room behind it, and the scan down stops at the page itself. */
  lemma UpwardPlace(v: Flat, p: nat)
    requires FIRST_USER <= p && p + 2 < 0x7fc00 && p % 1024 != 0 && v.Keys == {p, p + 1}
    ensures FlatRemap(v, p, 1, 2) == 0x7fffd && Strands(v, p, 1, 2)
  {
    assert GapEnd(v, p, 1, 2) == p + 1;
    SlidesExactly(v, p, 1, 2);
    TopFree(v, p);
  }

  lemma TwoSizes(v: Flat, snap: set<nat>, p: nat)
    requires v == map[] && snap == {}
    ensures FlatZero(v, p, p + 2, true).Keys == {p, p + 1}
    ensures |FlatZero(v, p, p + 2, true)| == 2 && |snap * Range(p, p + 2)| == 0
  {
    assert snap * Range(p, p + 2) == {};
    assert FlatZero(v, p, p + 2, true).Keys == {p, p + 1};
    assert |FlatZero(v, p, p + 2, true).Keys| == |FlatZero(v, p, p + 2, true)|;
  }

  /** The mapping on plain memory, of which there was none. */
  lemma TwoPlain(m: Plain, p: nat)
    requires FIRST_USER <= p && p + 2 <= USER_END && m.view == map[] && m.snap == {} && 2 <= m.room < ML_EXCEEDED
    ensures var op := Mmap(p, p + 2, true);
      && !Exceeds(m, op) && SoundStep(m, op) && PlainStep(m, op).view.Keys == {p, p + 1}
  {
    hide FlatZero, Range;
    TwoSizes(m.view, m.snap, p);
  }

  lemma TwoMapped(a: State, oa: Own, b: State, ob: Own, p: nat, st: Status)
    requires FIRST_USER <= p && p + 2 <= USER_END && PlainOf(a, oa) == Booted() && a.ml != ML_EXCEEDED
    requires var op := Mmap(p, p + 2, true);
      if st == KernelFault then StepFault(a, op) else StepDone(a, oa, b, ob, op, st) && StepExact(a, oa, b, op, st)
    ensures st == Exited && b.ml != ML_EXCEEDED && Inv(b, ob) && ob.moved <= oa.moved
    ensures View(b).Keys == {p, p + 1}
  {
    hide Inv, KeptMemory, View, SnapPages, Exceeds, SoundStep, PlainStep;
    TwoPlain(PlainOf(a, oa), p);
  }

  lemma SourceThere(s: State, p: nat)
    requires FIRST_USER <= p < USER_END && p in View(s)
    ensures MremapSource(s, p, 1)
  {
  }

  lemma BothPlaces(s: State, t: State, p: nat, r: Ret)
    requires FIRST_USER <= p && p + 2 < 0x7fc00 && r != Stopped && NoEmptyTable(s) && PlaceSays(s, t, p, 1, 2, r)
    requires FlatRemap(View(s), p, 1, 2) == 0x7fffd && Strands(View(s), p, 1, 2)
    ensures r == Stranded
    ensures Ent(t, p) != NONE && Ent(t, p).shared && Ent(t, 0x7fffd).frame == Ent(t, p).frame
  {
    assert Ent(t, p - p + 0x7fffd) == Ent(s, p);
  }

  lemma OneAndTwo()
    ensures RoundPages(4096) == 1 && RoundPages(8192) == 2
  {
  }

  /** A program that maps two pages side by side and asks mremap for a second page behind the first:
      the page goes to a higher address and stays mapped where it was. */
  method UpwardReached(sp: AddressSpace, p: nat) returns (r: Ret)
    requires sp.k == sp.p.k && Starting(sp.k) && FIRST_USER <= p && p + 2 < 0x7fc00 && p % 1024 != 0
    modifies sp.k
    ensures r == Stranded
    ensures Ent(sp.k.S(), p) != NONE && Ent(sp.k.S(), p).shared
    ensures Ent(sp.k.S(), 0x7fffd).frame == Ent(sp.k.S(), p).frame
  {
    hide Inv, Kept, NoEmptyTable, View, FlatRemap, Strands, StepDone, StepExact, StepFault, Ent, PlaceSays,
      MremapAnswer, EmptyAnswer, MremapSource, RoomBehind, RoundPages, PlainOf;
    sp.k.InitPaging();
    ghost var a, oa := sp.k.S(), sp.k.own;
    BootPlain(a, oa);
    var st := sp.p.RunOp(Mmap(p, p + 2, true));
    TwoMapped(a, oa, sp.k.S(), sp.k.own, p, st);
    ghost var s := sp.k.S();
    UpwardPlace(View(s), p);
    OneAndTwo();
    SourceThere(s, p);
    r := sp.SysMremap(p * 4096, 4096, 8192);
    BothPlaces(s, sp.k.S(), p, r);
  }
}
