/** kernel/alloc.c and kernel/paging.c: the allocators and the copy-on-write page tables, as the
    C code updates them in place. `S()` is the state the specification talks about. */
module Paging {
  import opened Integers
  import opened Machine
  import opened Ownership
  import opened PageOps
  import opened DataOps
  import opened Ranges
  import opened MapSteps
  import opened RangeLoops
  import opened Moves
  import opened Snapshot
  import BudgetOps

  class Kernel {
    var low: map<nat, Table>
    var high: map<nat, Page>
    var cr3: nat
    var origCr3: nat
    var allocAddrLow: nat
    var allocAddrHigh: nat
    var llLow: nat
    var llHigh: nat
    var ml: nat
    var mlOrig: nat
    var bak1: nat
    var bak2: nat
    var bak3: nat
    var bak4: nat
    var bak5: nat
    var bak6: nat
    ghost var own: Own

    function S(): State
      reads this
    {
      State(low, high, cr3, allocAddrLow, allocAddrHigh, llLow, llHigh, ml, mlOrig)
    }

    ghost predicate Valid()
      reads this
    {
      Inv(S(), own)
    }

    // ---- kernel/alloc.c ----

    method PopPageLow() returns (ans: nat)
      modifies this`allocAddrLow
      ensures ans == old(allocAddrLow) && allocAddrLow == ans + 1
    {
      ans := allocAddrLow;
      allocAddrLow := allocAddrLow + 1;
    }

    method PopPageHigh() returns (ans: nat)
      modifies this`allocAddrHigh
      ensures ans == old(allocAddrHigh) && allocAddrHigh == ans + 1
    {
      ans := allocAddrHigh;
      allocAddrHigh := allocAddrHigh + 1;
    }

    method LowmemAllocPage() returns (ans: nat)
      modifies this`low, this`llLow, this`allocAddrLow
      ensures S() == LowAlloc(old(S())).0 && ans == LowAlloc(old(S())).1
    {
      if llLow != 0 {
        ans := llLow;
        llLow := Low(S(), ans)[0].frame;
        var p := Low(S(), ans);
        ghost var low0 := low;
        for i := 0 to 1024
          invariant low == if i == 0 then low0 else low0[ans := p]
          invariant llLow == Low(old(S()), ans)[0].frame && allocAddrLow == old(allocAddrLow)
          invariant forall j :: 0 <= j < i ==> p[j] == NONE
        {
          p := p[i := NONE];
          low := low[ans := p];
        }
        assert p == EmptyTable();
      } else {
        ans := PopPageLow();
      }
    }

    method LowmemFreePage(page: nat)
      modifies this`low, this`llLow
      ensures S() == LowFree(old(S()), page)
    {
      low := low[page := Low(S(), page)[0 := Link(llLow)]];
      llLow := page;
    }

    method HighmemPreAlloc() returns (f: nat)
      modifies this`ml, this`allocAddrHigh
      ensures S() == PreAlloc(old(S())).0 && f == PreAlloc(old(S())).1
    {
      if ml == 0 {
        ml := ML_EXCEEDED;
      }
      if ml == ML_EXCEEDED {
        return allocAddrHigh;
      }
      ml := ml - 1;
      if llHigh != 0 {
        f := llHigh;
      } else {
        f := PopPageHigh();
      }
    }

    /** `p` is a virtual page: the link is read through the mapping just made. */
    method HighmemPostAlloc(p: nat)
      requires p < PAGES
      modifies this`llHigh
      ensures S() == PostAlloc(old(S()), p)
    {
      if ml != ML_EXCEEDED && llHigh != 0 {
        llHigh := High(S(), Ent(S(), p).frame)[0];
      }
    }

    /** The link is written through virtual page `p`, which still maps `phys`. */
    method HighmemFree(p: nat, phys: nat)
      requires p < PAGES && Ent(S(), p).frame == phys
      modifies this`ml, this`high, this`llHigh
      ensures S() == HighFree(old(S()), phys)
    {
      if ml != ML_EXCEEDED {
        ml := ml + 1;
        high := high[Ent(S(), p).frame := High(S(), Ent(S(), p).frame)[0 := llHigh]];
        llHigh := phys;
      }
    }

    method HighmemIncrementMl()
      modifies this`ml
      ensures S() == CreditMl(old(S()))
    {
      if ml != ML_EXCEEDED {
        ml := ml + 1;
      }
    }

    method SetMl(newMl: nat)
      requires ml < U32 && mlOrig < U32 && newMl < U32
      modifies this`ml, this`mlOrig
      ensures S() == BudgetOps.SetMl(old(S()), newMl)
    {
      if (mlOrig - ml) % U32 > newMl {
        ml := ML_EXCEEDED;
      } else {
        ml := (ml + newMl - mlOrig) % U32;
      }
      mlOrig := newMl;
    }

    // ---- words of tables, pages through their mapping ----

    /** `pgdir[i] = e` for the table of page `p`. */
    method SetWord(p: nat, e: Entry)
      requires p < PAGES
      modifies this`low
      ensures S() == SetEnt(old(S()), p, e)
    {
      var pgtbl := TableOf(S(), p);
      low := low[pgtbl := Low(S(), pgtbl)[p % 1024 := e]];
    }

    method StorePage(p: nat, page: Page)
      requires p < PAGES
      modifies this`high
      ensures S() == SetPage(old(S()), p, page)
    {
      high := high[Ent(S(), p).frame := page];
    }

    // ---- kernel/paging.c ----

    method GetCow(pgdir: Entry) returns (r: Entry)
      modifies this`low, this`llLow, this`allocAddrLow
      ensures S() == PageOps.GetCow(old(S()), pgdir).0 && r == PageOps.GetCow(old(S()), pgdir).1
    {
      var page := EmptyTable();
      if pgdir != NONE {
        if !pgdir.shared {
          return pgdir;
        }
        page := Low(S(), pgdir.frame);
      }
      var f := LowmemAllocPage();
      low := low[f := page];
      r := Entry(f, false, false, true, USER_BITS);
    }

    /** `LINEAR(cr3)[d] = e` */
    method SetDirWord(d: nat, e: Entry)
      requires d < 1024
      modifies this`low
      ensures S() == SetDir(old(S()), d, e)
    {
      low := low[cr3 := Dir(S())[d := e]];
    }

    /** `LINEAR(cr3)[d] = get_cow(LINEAR(cr3)[d])`: the table of entry `d` becomes private, and
        no page's word changes. */
    method GetCowAt(d: nat)
      requires Valid() && d < 1024
      modifies this`low, this`llLow, this`allocAddrLow, this`own
      ensures Valid() && S() == PrivateDir(old(S()), d) && own == PrivateDirOwn(old(S()), old(own), d)
      ensures Kept(old(S()), old(own), S(), own)
      ensures Dir(S()) == old(Dir(S()))[d := Dir(S())[d]] && Dir(S())[d] != NONE && !Dir(S())[d].shared
      ensures forall p :: 0 <= p < PAGES ==> Same(old(S()), S(), p)
      ensures ml == old(ml) && own.drift == old(own.drift) && own.moved == old(own.moved)
      ensures old(Dir(S())[d] != NONE && !Dir(S())[d].shared) ==> Dir(S())[d] == old(Dir(S())[d])
    {
      PrivateDirInv(S(), own, d);
      ghost var o := PrivateDirOwn(S(), own, d);
      var e := GetCow(Dir(S())[d]);
      SetDirWord(d, e);
      own := o;
    }

    /** One turn of the loop of map_pgdir, on virtual page `p`. `ok` is false when the kernel takes
        a page fault, which ends the run. */
    method MapPage(p: nat, rw: bool) returns (ok: bool)
      requires IsUser(p) && Dir(S())[p / 1024] != NONE && TableOf(S(), p) != cr3
      modifies this`low, this`high, this`llHigh, this`allocAddrHigh, this`ml
      ensures ok <==> !FaultsAt(old(S()), p, p)
      ensures ok ==> S() == MapWord(old(S()), p, rw)
    {
      var e := Ent(S(), p);
      var isNew := e == NONE;
      if isNew {
        var f := HighmemPreAlloc();
        SetWord(p, Entry(f, false, false, rw, USER_BITS));
        assert Ent(S(), p).rw == rw;
      } else if e.shared {
        var pg := e.frame;
        if pg < USER_END && Ent(S(), pg) == NONE {
          return false;
        }
        var page := if pg < USER_END then High(S(), Ent(S(), pg).frame) else ZeroPage();
        var f := HighmemPreAlloc();
        SetWord(p, Unshared(e).(frame := f));
        HighmemPostAlloc(p);
        if pg < USER_END {
          StorePage(pg, page);
        }
      }
      if rw && !Ent(S(), p).rw {
        SetWord(p, Ent(S(), p).(rw := true));
      }
      if isNew {
        HighmemPostAlloc(p);
      }
      ok := true;
    }

    /** One turn of the loop of map_pgdir. `s` and `o` are the state map_range started from. */
    method MapNext(p: nat, from: nat, rw: bool, ghost s: State, ghost o: Own) returns (ok: bool)
      requires InUser(from, p) && p < USER_END && Dir(S())[p / 1024] != NONE && !Dir(S())[p / 1024].shared
      requires Going(s, o, S(), own) && o.moved == {} && MapDone(s, o, S(), own, from, p, rw)
      modifies this`low, this`high, this`llHigh, this`allocAddrHigh, this`ml, this`own
      ensures ok <==> !FaultsAt(s, from, p)
      ensures ok ==> Dir(S()) == old(Dir(S()))
      ensures ok ==> Going(s, o, S(), own)
      ensures ok ==> MapDone(s, o, S(), own, from, p + 1, rw)
    {
      ghost var t, o' := S(), own;
      MapDoneFault(s, o, t, o', from, p, rw);
      TableFrames(t, o', p / 1024);
      ok := MapPage(p, rw);
      if ok {
        MapTurn(s, o, t, o', from, p, rw);
        own := MapOwn(t, o', p);
        assert S() == MapWord(t, p, rw);
      }
    }

    /** map_pgdir for the table of entry `d`: `n` pages, unless the kernel faults. */
    method MapPgdir(d: nat, from: nat, to: nat, rw: bool, ghost s: State, ghost o: Own)
      returns (n: nat, ok: bool)
      requires Covers(d, from, to) && Dir(S())[d] != NONE && !Dir(S())[d].shared
      requires Going(s, o, S(), own) && o.moved == {} && LowEnd(d, from) <= PAGES
      requires MapDone(s, o, S(), own, from, LowEnd(d, from), rw)
      modifies this`low, this`high, this`llHigh, this`allocAddrHigh, this`ml, this`own
      ensures n == HighEnd(d, to) - LowEnd(d, from) && HighEnd(d, to) <= PAGES
      ensures !ok ==> exists p :: from <= p < to && FaultsAt(s, from, p)
      ensures ok ==> Going(s, o, S(), own) && Dir(S()) == old(Dir(S()))
      ensures ok ==> MapDone(s, o, S(), own, from, HighEnd(d, to), rw)
    {
      hide Going, MapDone;
      CoversBounds(d, from, to);
      var lo, hi := LowEnd(d, from), HighEnd(d, to);
      n := hi - lo;
      for p := lo to hi
        invariant Dir(S()) == old(Dir(S()))
        invariant Going(s, o, S(), own)
        invariant MapDone(s, o, S(), own, from, p, rw)
      {
        InTable(d, from, to, p);
        ok := MapNext(p, from, rw, s, o);
        if !ok {
          return;
        }
      }
      ok := true;
    }

    /** `lowmem_free_page` of the table of entry `d`, and `LINEAR(cr3)[d] = e`, where `e` means the
        same as that table. */
    method DropTableAt(d: nat, e: Entry)
      requires Valid() && 1 <= d < 768 && Dir(S())[d] != NONE && !Dir(S())[d].shared
      requires e == NONE || SnapshotDir(S(), own, d, e)
      requires SameTable(S(), d, e)
      modifies this`low, this`llLow, this`own
      ensures S() == DropTable(old(S()), d, e) && own == DropTableOwn(old(S()), old(own), d)
      ensures Valid() && Kept(old(S()), old(own), S(), own) && Dir(S()) == old(Dir(S()))[d := e]
      ensures forall p :: 0 <= p < PAGES ==> Same(old(S()), S(), p)
    {
      ghost var s, o := S(), own;
      DropTableInv(s, o, d, e);
      LowmemFreePage(Dir(S())[d].frame);
      assert Dir(S()) == Dir(s);
      SetDirWord(d, e);
      own := DropTableOwn(s, o, d);
    }

    /** The end of that body when no page of the range lies in the table. */
    method RevertTable(d: nat, from: nat, oldPgdir: Entry, rw: bool,
                       ghost s: State, ghost o: Own, ghost b: State, ghost ob: Own)
      requires InUser(from, from) && d < 768
      requires Going(s, o, b, ob) && MapDone(s, o, b, ob, from, from, rw)
      requires Going(s, o, S(), own) && MapDone(s, o, S(), own, from, from, rw)
      requires Dir(S())[d] != NONE && !Dir(S())[d].shared && Dir(S())[d] != Dir(b)[d]
      requires oldPgdir == Dir(b)[d] && (oldPgdir == NONE || oldPgdir.shared)
      modifies this`low, this`llLow, this`own
      ensures Going(s, o, S(), own) && Dir(S()) == old(Dir(S()))[d := oldPgdir]
      ensures MapDone(s, o, S(), own, from, from, rw)
    {
      ghost var t, ot := S(), own;
      RevertEmpty(s, o, b, ob, t, ot, d, from, rw);
      DropTableAt(d, oldPgdir);
      MapDoneSame(s, o, t, ot, S(), own, from, from, rw);
      GoingTrans(s, o, t, ot, S(), own);
    }

    /** The body of map_range for directory entry `d`. */
    method MapTable(d: nat, from: nat, to: nat, rw: bool, ghost s: State, ghost o: Own) returns (ok: bool)
      requires Covers(d, from, to)
      requires Going(s, o, S(), own) && o.moved == {} && LowEnd(d, from) <= PAGES
      requires MapDone(s, o, S(), own, from, LowEnd(d, from), rw)
      modifies this`low, this`high, this`llLow, this`llHigh, this`allocAddrLow, this`allocAddrHigh, this`ml, this`own
      ensures !ok ==> exists p :: from <= p < to && FaultsAt(s, from, p)
      ensures ok ==> Going(s, o, S(), own) && HighEnd(d, to) <= PAGES
      ensures ok ==> MapDone(s, o, S(), own, from, HighEnd(d, to), rw)
      ensures ok && old(NoEmptyTable(S())) ==> NoEmptyTable(S())
    {
      hide Inv, Kept, MapDone, PrivateDir, PrivateDirOwn, NoEmptyTable, HasPage;
      ghost var b, ob := S(), own;
      var oldPgdir := Dir(S())[d];
      CoversBounds(d, from, to);
      GetCowAt(d);
      MapDoneSame(s, o, b, ob, S(), own, from, LowEnd(d, from), rw);
      GoingTrans(s, o, b, ob, S(), own);
      var n;
      n, ok := MapPgdir(d, from, to, rw, s, o);
      if ok && n == 0 && oldPgdir != Dir(S())[d] {
        RevertTable(d, from, oldPgdir, rw, s, o, b, ob);
      }
      if ok {
        MapDoneUsed(s, o, b, ob, S(), own, d, from, to, rw);
      }
    }

    /** map_range over the pages from `from` up to `to`. */
    method MapRange(from: nat, to: nat, rw: bool) returns (ok: bool)
      requires Valid() && own.moved == {} && InUser(from, to)
      modifies this`low, this`high, this`llLow, this`llHigh, this`allocAddrLow, this`allocAddrHigh, this`ml, this`own
      ensures !ok ==> exists p :: from <= p < to && FaultsAt(old(S()), from, p)
      ensures ok ==> Going(old(S()), old(own), S(), own)
      ensures ok ==> MapDone(old(S()), old(own), S(), own, from, to, rw)
      ensures ok && old(NoEmptyTable(S())) ==> NoEmptyTable(S())
    {
      hide Inv, Kept, MapDone, NoEmptyTable;
      ghost var s, o := S(), own;
      MapNothing(s, o, from, rw);
      for d := from / 1024 to (to - 1) / 1024 + 1
        invariant Reached(d, from, to) <= PAGES
        invariant NoEmptyTable(s) ==> NoEmptyTable(S())
        invariant Going(s, o, S(), own)
        invariant MapDone(s, o, S(), own, from, Reached(d, from, to), rw)
      {
        ok := MapTable(d, from, to, rw, s, o);
        if !ok {
          return;
        }
      }
      ok := true;
    }

    // ---- unmap_range ----

    /** One turn of the loop of unmap_pgdir, on virtual page `p`. */
    method UnmapPage(p: nat)
      requires IsUser(p)
      modifies this`low, this`high, this`llHigh, this`ml
      ensures S() == UnmapWord(old(S()), p)
    {
      var e := Ent(S(), p);
      if e != NONE {
        if !e.shared {
          ghost var t := S();
          HighmemFree(p, e.frame);
          assert S() == HighFree(t, e.frame);
        } else {
          HighmemIncrementMl();
        }
        SetWord(p, NONE);
      }
    }

    method UnmapNext(p: nat, from: nat, ghost s: State, ghost o: Own)
      requires from <= p < USER_END && CanUnmap(o, from, p + 1)
      requires Dir(S())[p / 1024] != NONE && !Dir(S())[p / 1024].shared
      requires Going(s, o, S(), own) && UnmapDone(s, o, S(), own, from, p)
      modifies this`low, this`high, this`llHigh, this`ml, this`own
      ensures Dir(S()) == old(Dir(S()))
      ensures Going(s, o, S(), own)
      ensures UnmapDone(s, o, S(), own, from, p + 1)
    {
      ghost var t, o' := S(), own;
      UnmapTurn(s, o, t, o', from, p);
      UnmapPage(p);
      own := UnmapOwn(t, o', p);
      assert S() == UnmapWord(t, p);
    }

    /** The two loops at the end of unmap_pgdir: is every word outside the range zero? */
    method OutsideEmpty(d: nat, lo: nat, hi: nat) returns (empty: bool)
      requires d < 1024 && lo <= hi <= 1024
      ensures empty <==> forall i :: 0 <= i < 1024 && !(lo <= i < hi) ==> Low(S(), Dir(S())[d].frame)[i] == NONE
    {
      var pgtbl := Low(S(), Dir(S())[d].frame);
      for i := 0 to lo
        invariant forall j :: 0 <= j < i ==> pgtbl[j] == NONE
      {
        if pgtbl[i] != NONE {
          return false;
        }
      }
      for i := hi to 1024
        invariant forall j :: 0 <= j < lo || hi <= j < i ==> pgtbl[j] == NONE
      {
        if pgtbl[i] != NONE {
          return false;
        }
      }
      empty := true;
    }

    /** unmap_pgdir for the table of entry `d`: is the table empty now? */
    method UnmapPgdir(d: nat, from: nat, to: nat, ghost s: State, ghost o: Own) returns (empty: bool)
      requires Covers(d, from, to) && CanUnmap(o, from, to)
      requires Dir(S())[d] != NONE && !Dir(S())[d].shared
      requires Going(s, o, S(), own) && LowEnd(d, from) <= PAGES
      requires UnmapDone(s, o, S(), own, from, LowEnd(d, from))
      modifies this`low, this`high, this`llHigh, this`ml, this`own
      ensures HighEnd(d, to) <= PAGES && Dir(S()) == old(Dir(S()))
      ensures Going(s, o, S(), own)
      ensures UnmapDone(s, o, S(), own, from, HighEnd(d, to))
      ensures empty <==> forall i :: 0 <= i < 1024 ==> Low(S(), Dir(S())[d].frame)[i] == NONE
    {
      hide Going, UnmapDone;
      CoversBounds(d, from, to);
      var lo, hi := LowEnd(d, from), HighEnd(d, to);
      for p := lo to hi
        invariant Dir(S()) == old(Dir(S()))
        invariant Going(s, o, S(), own)
        invariant UnmapDone(s, o, S(), own, from, p)
      {
        InTable(d, from, to, p);
        UnmapNext(p, from, s, o);
      }
      empty := OutsideEmpty(d, lo - d * 1024, hi - d * 1024);
      ClearedTable(s, o, S(), own, d, from, to);
    }

    /** The body of unmap_range for directory entry `d`. */
    method UnmapTable(d: nat, from: nat, to: nat, ghost s: State, ghost o: Own)
      requires Covers(d, from, to) && CanUnmap(o, from, to)
      requires Going(s, o, S(), own) && LowEnd(d, from) <= PAGES
      requires UnmapDone(s, o, S(), own, from, LowEnd(d, from))
      modifies this`low, this`high, this`llLow, this`llHigh, this`allocAddrLow, this`allocAddrHigh, this`ml, this`own
      ensures Going(s, o, S(), own) && HighEnd(d, to) <= PAGES
      ensures UnmapDone(s, o, S(), own, from, HighEnd(d, to))
      ensures Dir(S()) == old(Dir(S()))[d := Dir(S())[d]] && TableUsed(S(), d)
    {
      hide Inv, Kept, UnmapDone, PrivateDir, PrivateDirOwn, HasPage;
      ghost var b, ob := S(), own;
      CoversBounds(d, from, to);
      if Dir(S())[d] != NONE {
        GetCowAt(d);
        UnmapDoneSame(s, o, b, ob, S(), own, from, LowEnd(d, from));
        GoingTrans(s, o, b, ob, S(), own);
        var empty := UnmapPgdir(d, from, to, s, o);
        if empty {
          ghost var t, ot := S(), own;
          EmptyTableDrop(t, ot, d);
          DropTableAt(d, NONE);
          UnmapDoneSame(s, o, t, ot, S(), own, from, HighEnd(d, to));
          GoingTrans(s, o, t, ot, S(), own);
        } else {
          FoundPage(S(), d);
        }
      } else {
        AbsentTable(b, d, from, to);
        UnmapSkip(s, o, b, ob, from, LowEnd(d, from), HighEnd(d, to));
      }
    }

    /** unmap_range over the pages from `from` up to `to`. */
    method UnmapRange(from: nat, to: nat)
      requires Valid() && CanUnmap(own, from, to)
      modifies this`low, this`high, this`llLow, this`llHigh, this`allocAddrLow, this`allocAddrHigh, this`ml, this`own
      ensures Going(old(S()), old(own), S(), own)
      ensures UnmapDone(old(S()), old(own), S(), own, from, to)
      ensures forall d :: from / 1024 <= d <= (to - 1) / 1024 ==> TableUsed(S(), d)
      ensures old(NoEmptyTable(S())) ==> NoEmptyTable(S())
    {
      hide Inv, Kept, UnmapDone, NoEmptyTable, TableUsed;
      ghost var s, o := S(), own;
      UnmapNothing(s, o, from);
      for d := from / 1024 to (to - 1) / 1024 + 1
        invariant forall e :: from / 1024 <= e < d ==> TableUsed(S(), e)
        invariant NoEmptyTable(s) ==> NoEmptyTable(S())
        invariant Reached(d, from, to) <= PAGES
        invariant Going(s, o, S(), own)
        invariant UnmapDone(s, o, S(), own, from, Reached(d, from, to))
      {
        ghost var b, ob := S(), own;
        UnmapTable(d, from, to, s, o);
        UnmapDoneUsed(s, o, b, ob, S(), own, d, from, to);
      }
    }

    // ---- set_rights ----

    method ProtectNext(p: nat, from: nat, w: bool, ghost s: State, ghost o: Own)
      requires InUser(from, p) && p < USER_END && Dir(S())[p / 1024] != NONE && !Dir(S())[p / 1024].shared
      requires Going(s, o, S(), own) && o.moved == {} && ProtectDone(s, o, S(), own, from, p, w)
      modifies this`low
      ensures Dir(S()) == old(Dir(S()))
      ensures Going(s, o, S(), own)
      ensures ProtectDone(s, o, S(), own, from, p + 1, w)
    {
      ProtectTurn(s, o, S(), own, from, p, w);
      ghost var t := S();
      var e := Ent(S(), p);
      if e != NONE {
        if w {
          SetWord(p, if e.shared then e.(cow := true) else e.(rw := true));
        } else {
          SetWord(p, e.(rw := false, cow := false));
        }
      }
      assert S() == ProtectWord(t, p, w);
    }

    /** set_rights_pgdir for the table of entry `d`. */
    method SetRightsPgdir(d: nat, from: nat, to: nat, w: bool, ghost s: State, ghost o: Own)
      requires Covers(d, from, to) && Dir(S())[d] != NONE && !Dir(S())[d].shared
      requires Going(s, o, S(), own) && o.moved == {}
      requires ProtectDone(s, o, S(), own, from, LowEnd(d, from), w)
      modifies this`low
      ensures Going(s, o, S(), own) && Dir(S()) == old(Dir(S()))
      ensures ProtectDone(s, o, S(), own, from, HighEnd(d, to), w)
    {
      hide Going, ProtectDone;
      CoversBounds(d, from, to);
      for p := LowEnd(d, from) to HighEnd(d, to)
        invariant Dir(S()) == old(Dir(S()))
        invariant Going(s, o, S(), own)
        invariant ProtectDone(s, o, S(), own, from, p, w)
      {
        InTable(d, from, to, p);
        ProtectNext(p, from, w, s, o);
      }
    }

    method SetRightsTable(d: nat, from: nat, to: nat, w: bool, ghost s: State, ghost o: Own)
      requires Covers(d, from, to) && Going(s, o, S(), own) && o.moved == {}
      requires ProtectDone(s, o, S(), own, from, LowEnd(d, from), w)
      modifies this`low, this`high, this`llLow, this`llHigh, this`allocAddrLow, this`allocAddrHigh, this`ml, this`own
      ensures Going(s, o, S(), own)
      ensures ProtectDone(s, o, S(), own, from, HighEnd(d, to), w)
      ensures SameTables(old(S()), S())
    {
      hide Inv, Kept, ProtectDone, PrivateDir, PrivateDirOwn;
      ghost var b, ob := S(), own;
      CoversBounds(d, from, to);
      if Dir(S())[d] != NONE {
        GetCowAt(d);
        ProtectDoneSame(s, o, b, ob, S(), own, from, LowEnd(d, from), w);
        GoingTrans(s, o, b, ob, S(), own);
        SetRightsPgdir(d, from, to, w, s, o);
      } else {
        AbsentTable(b, d, from, to);
        ProtectSkip(s, o, b, ob, from, LowEnd(d, from), HighEnd(d, to), w);
      }
    }

    /** set_rights over the pages from `from` up to `to`. */
    method SetRights(from: nat, to: nat, w: bool)
      requires Valid() && own.moved == {} && InUser(from, to)
      modifies this`low, this`high, this`llLow, this`llHigh, this`allocAddrLow, this`allocAddrHigh, this`ml, this`own
      ensures Going(old(S()), old(own), S(), own)
      ensures ProtectDone(old(S()), old(own), S(), own, from, to, w)
      ensures old(NoEmptyTable(S())) ==> NoEmptyTable(S())
    {
      hide Inv, Kept, NoEmptyTable, SameTables;
      ghost var s, o := S(), own;
      UnmapNothing(s, o, from);
      SameTablesSelf(s);
      for d := from / 1024 to (to - 1) / 1024 + 1
        invariant Going(s, o, S(), own)
        invariant ProtectDone(s, o, S(), own, from, Reached(d, from, to), w)
        invariant SameTables(s, S())
      {
        ghost var b := S();
        SetRightsTable(d, from, to, w, s, o);
        SameTablesTrans(s, b, S());
      }
      ProtectUsed(s, o, S(), own, from, to, w);
    }

    // ---- cow_range ----

    /** The body of the loop of cow_pgdir for a page with bit 512: `page` is the copy the kernel
        keeps while the mapping changes under the same virtual address. */
    method CopyPage(p: nat)
      requires IsUser(p)
      modifies this`low, this`high, this`llHigh, this`allocAddrHigh, this`ml
      ensures S() == CopyWord(old(S()), p)
    {
      var page := High(S(), Ent(S(), p).frame);
      HighmemIncrementMl();
      var newPage := HighmemPreAlloc();
      SetWord(p, Entry(newPage, false, false, true, USER_BITS));
      HighmemPostAlloc(p);
      StorePage(p, page);
    }

    method CopyNext(p: nat, from: nat, cowed: nat, ghost s: State, ghost o: Own) returns (cowed': nat)
      requires InUser(from, p) && p < USER_END && Dir(S())[p / 1024] != NONE && !Dir(S())[p / 1024].shared
      requires Going(s, o, S(), own) && o.moved == {} && CopyDone(s, o, S(), own, from, p, cowed)
      modifies this`low, this`high, this`llHigh, this`allocAddrHigh, this`ml, this`own
      ensures Dir(S()) == old(Dir(S()))
      ensures Going(s, o, S(), own)
      ensures CopyDone(s, o, S(), own, from, p + 1, cowed')
    {
      hide Going, CopyDone;
      CopyTurn(s, o, S(), own, from, p, cowed);
      cowed' := cowed;
      if Ent(S(), p).cow {
        ghost var t := S();
        CopyPage(p);
        own := CopyOwn(t, own, p);
        assert S() == CopyWord(t, p);
        cowed' := cowed + 1;
      }
    }

    /** cow_pgdir for the table of entry `d`, counting on from `cowed`. */
    method CowPgdir(d: nat, from: nat, to: nat, cowed: nat, ghost s: State, ghost o: Own) returns (cowed': nat)
      requires Covers(d, from, to) && Dir(S())[d] != NONE && !Dir(S())[d].shared
      requires Going(s, o, S(), own) && o.moved == {} && LowEnd(d, from) <= PAGES
      requires CopyDone(s, o, S(), own, from, LowEnd(d, from), cowed)
      modifies this`low, this`high, this`llHigh, this`allocAddrHigh, this`ml, this`own
      ensures Going(s, o, S(), own) && HighEnd(d, to) <= PAGES && Dir(S()) == old(Dir(S()))
      ensures CopyDone(s, o, S(), own, from, HighEnd(d, to), cowed')
    {
      hide Going, CopyDone;
      CoversBounds(d, from, to);
      cowed' := cowed;
      for p := LowEnd(d, from) to HighEnd(d, to)
        invariant Dir(S()) == old(Dir(S()))
        invariant Going(s, o, S(), own)
        invariant CopyDone(s, o, S(), own, from, p, cowed')
      {
        InTable(d, from, to, p);
        cowed' := CopyNext(p, from, cowed', s, o);
      }
    }

    method CowTable(d: nat, from: nat, to: nat, cowed: nat, ghost s: State, ghost o: Own) returns (cowed': nat)
      requires Covers(d, from, to) && Going(s, o, S(), own) && o.moved == {} && LowEnd(d, from) <= PAGES
      requires CopyDone(s, o, S(), own, from, LowEnd(d, from), cowed)
      modifies this`low, this`high, this`llLow, this`llHigh, this`allocAddrLow, this`allocAddrHigh, this`ml, this`own
      ensures Going(s, o, S(), own) && HighEnd(d, to) <= PAGES
      ensures CopyDone(s, o, S(), own, from, HighEnd(d, to), cowed')
      ensures SameTables(old(S()), S())
    {
      hide Inv, Kept, CopyDone, PrivateDir, PrivateDirOwn;
      ghost var b, ob := S(), own;
      CoversBounds(d, from, to);
      cowed' := cowed;
      if Dir(S())[d] != NONE {
        GetCowAt(d);
        CopyDoneSame(s, o, b, ob, S(), own, from, LowEnd(d, from), cowed);
        GoingTrans(s, o, b, ob, S(), own);
        cowed' := CowPgdir(d, from, to, cowed, s, o);
      } else {
        AbsentTable(b, d, from, to);
        CopySkip(s, o, b, ob, from, LowEnd(d, from), HighEnd(d, to), cowed);
      }
    }

    /** cow_range over the pages from `from` up to `to`; `cowed` pages were copied. */
    method CowRange(from: nat, to: nat) returns (cowed: nat)
      requires Valid() && own.moved == {} && InUser(from, to)
      modifies this`low, this`high, this`llLow, this`llHigh, this`allocAddrLow, this`allocAddrHigh, this`ml, this`own
      ensures Going(old(S()), old(own), S(), own)
      ensures CopyDone(old(S()), old(own), S(), own, from, to, cowed)
      ensures old(NoEmptyTable(S())) ==> NoEmptyTable(S())
    {
      hide Inv, Kept, NoEmptyTable, SameTables;
      ghost var s, o := S(), own;
      UnmapNothing(s, o, from);
      SameTablesSelf(s);
      cowed := 0;
      for d := from / 1024 to (to - 1) / 1024 + 1
        invariant Reached(d, from, to) <= PAGES
        invariant Going(s, o, S(), own)
        invariant CopyDone(s, o, S(), own, from, Reached(d, from, to), cowed)
        invariant SameTables(s, S())
      {
        ghost var b := S();
        cowed := CowTable(d, from, to, cowed, s, o);
        SameTablesTrans(s, b, S());
      }
      CopyUsed(s, o, S(), own, from, to, cowed);
    }

    // ---- move_pages ----

    /** `pt[i] = ...` for the table of entry `d`, made private first; the move so far is as it was. */
    method GetCowMoving(d: nat, to: nat, from: nat, ghost a: nat, ghost b: nat, ghost s: State, ghost o: Own)
      requires d < 1024 && from + b <= PAGES && a <= b
      requires Moving(s, o, S(), own) && MoveDone(s, o, S(), own, to, from, a, b)
      modifies this`low, this`llLow, this`allocAddrLow, this`own
      ensures Moving(s, o, S(), own) && MoveDone(s, o, S(), own, to, from, a, b)
      ensures Dir(S()) == old(Dir(S()))[d := Dir(S())[d]] && Dir(S())[d] != NONE && !Dir(S())[d].shared
    {
      hide Inv, KeptMemory, MoveDone, PrivateDir, PrivateDirOwn;
      ghost var t, o' := S(), own;
      GetCowAt(d);
      MoveDoneSame(s, o, t, o', S(), own, to, from, a, b);
      KeptTrans(s, o, t, o', S(), own);
    }

    /** The body of the loop of move_pages for one page. */
    method MovePage(p1: nat, p2: nat)
      requires p1 < PAGES && p2 < PAGES
      modifies this`low
      ensures S() == MoveWord(old(S()), p1, p2)
    {
      SetWord(p1, Ent(S(), p2));
      SetWord(p2, Ent(S(), p2).(shared := true));
    }

    /** The tables the loop of move_pages points into are present and private. */
    ghost predicate Pointed(i1a: int, i2a: int)
      reads this
    {
      && 0 <= i1a < 1024 && Dir(S())[i1a] != NONE && !Dir(S())[i1a].shared
      && 0 <= i2a < 1024 && Dir(S())[i2a] != NONE && !Dir(S())[i2a].shared
    }

    /** One of the two table pointers of move_pages steps to the next word, into the neighbouring
        table if need be. */
    method Advance(ia: int, ib: int, step: int, other: int,
                   to: nat, from: nat, ghost a: nat, ghost b: nat, ghost s: State, ghost o: Own)
      returns (ia': int, ib': int)
      requires 0 <= ib < 1024 && (step == 1 || step == -1) && 0 <= ia * 1024 + ib + step < PAGES
      requires Pointed(ia, other) && from + b <= PAGES && a <= b
      requires Moving(s, o, S(), own) && MoveDone(s, o, S(), own, to, from, a, b)
      modifies this`low, this`llLow, this`allocAddrLow, this`own
      ensures Moving(s, o, S(), own) && MoveDone(s, o, S(), own, to, from, a, b)
      ensures Pointed(ia', other) && 0 <= ib' < 1024 && ia' * 1024 + ib' == ia * 1024 + ib + step
    {
      hide Moving, MoveDone;
      ia', ib' := ia, ib + step;
      if ib' == -1 {
        ib' := 1023;
        ia' := ia' - 1;
        GetCowMoving(ia', to, from, a, b, s, o);
      }
      if ib' == 1024 {
        ib' := 0;
        ia' := ia' + 1;
        GetCowMoving(ia', to, from, a, b, s, o);
      }
    }

    method MoveNext(to: nat, from: nat, n: nat, ghost a: nat, ghost b: nat, ghost j: nat,
                    i1a: nat, i1b: nat, i2a: nat, i2b: nat, ghost s: State, ghost o: Own)
      requires Movable(s, to, from, n) && a <= b <= n && j < n && o.moved == {}
      requires if to < from then a == 0 && j == b else b == n && j == a - 1
      requires Moving(s, o, S(), own) && MoveDone(s, o, S(), own, to, from, a, b)
      requires i1b < 1024 && i2b < 1024 && Pointed(i1a, i2a)
      requires i1a * 1024 + i1b == to + j && i2a * 1024 + i2b == from + j
      modifies this`low, this`own
      ensures Moving(s, o, S(), own) && Dir(S()) == old(Dir(S()))
      ensures to < from ==> MoveDone(s, o, S(), own, to, from, 0, j + 1)
      ensures from < to ==> MoveDone(s, o, S(), own, to, from, j, n)
    {
      hide Inv, KeptMemory, MoveDone, MoveOwn;
      ghost var t, o' := S(), own;
      assert (to + j) / 1024 == i1a && (from + j) / 1024 == i2a;
      MoveTurn(s, o, t, o', to, from, n, a, b, j);
      MovePage(i1a * 1024 + i1b, i2a * 1024 + i2b);
      own := MoveOwn(t, o', to + j, from + j);
      assert S() == MoveWord(t, to + j, from + j);
    }

    /** move_pages: `n` page-table words from page `from` on move to page `to` on, in an order that
        an overlap does not disturb. */
    method MovePages(to: nat, from: nat, n: nat)
      requires Valid() && own.moved == {} && (to == from || Movable(S(), to, from, n))
      modifies this`low, this`llLow, this`allocAddrLow, this`own
      ensures to == from ==> S() == old(S()) && own == old(own)
      ensures to != from ==> Moving(old(S()), old(own), S(), own)
      ensures to != from ==> from + n <= PAGES && MoveDone(old(S()), old(own), S(), own, to, from, 0, n)
    {
      hide Inv, KeptMemory, MoveDone, MoveWord, MoveOwn;
      if to == from {
        return;
      }
      ghost var s, o := S(), own;
      var i1b: int, i2b: int, step: int;
      if to < from {
        i1b, i2b, step := to, from, 1;
      } else {
        i1b, i2b, step := to + n - 1, from + n - 1, -1;
      }
      var i1a := i1b / 1024;
      i1b := i1b % 1024;
      var i2a := i2b / 1024;
      i2b := i2b % 1024;
      ghost var a, b := if to < from then 0 else n, if to < from then 0 else n;
      MoveStart(s, o, to, from, a);
      GetCowMoving(i1a, to, from, a, b, s, o);
      GetCowMoving(i2a, to, from, a, b, s, o);
      for i := 0 to n
        invariant a == (if to < from then 0 else n - i) && b == if to < from then i else n
        invariant i1a * 1024 + i1b == if to < from then to + i else to + n - 1 - i
        invariant i2a * 1024 + i2b == if to < from then from + i else from + n - 1 - i
        invariant 0 <= i1b < 1024 && 0 <= i2b < 1024 && Pointed(i1a, i2a)
        invariant Moving(s, o, S(), own)
        invariant MoveDone(s, o, S(), own, to, from, a, b)
      {
        ghost var j := if to < from then i else n - 1 - i;
        MoveNext(to, from, n, a, b, j, i1a, i1b, i2a, i2b, s, o);
        a, b := if to < from then 0 else j, if to < from then j + 1 else n;
        i1a, i1b := Advance(i1a, i1b, step, i2a, to, from, a, b, s, o);
        i2a, i2b := Advance(i2a, i2b, step, i1a, to, from, a, b, s, o);
      }
    }

    // ---- the snapshot ----

    /** The state pop_paging will go back to: `origCr3` and bak1 to bak6. */
    function Saved(): State
      reads this
    {
      State(low, high, origCr3, bak1, bak2, bak3, bak4, bak5, bak6)
    }

    method CowPrepareTbl(tbl: nat, offset: nat)
      requires offset <= 1024
      modifies this`low
      ensures low == old(low)[tbl := Low(S(), tbl)]
      ensures PreparedFrom(Low(old(S()), tbl), Low(S(), tbl), offset)
    {
      var t := Low(S(), tbl);
      low := low[tbl := t];
      for i := offset to 1024
        invariant low == old(low)[tbl := t]
        invariant forall j :: 0 <= j < 1024 ==>
          t[j] == if offset <= j < i then Prepared(Low(old(S()), tbl)[j]) else Low(old(S()), tbl)[j]
      {
        if t[i] != NONE {
          t := t[i := t[i].(cow := t[i].cow || t[i].rw, shared := true)];
          t := t[i := t[i].(rw := false)];
          low := low[tbl := t];
        }
      }
    }

    static lemma InvParts(s: State, o: Own)
      requires Inv(s, o) && s.ml != ML_EXCEEDED
      ensures Tables(s, o) && LowList(s, o)
    {
    }

    method CowPrepareDir(d: nat, ghost s: State, ghost o: Own)
      requires Tables(s, o) && o.snap == map[] && 1 <= d < 768 && PrepareDone(s, o, S(), d)
      modifies this`low
      ensures PrepareDone(s, o, S(), d + 1)
    {
      ghost var t := S();
      if Dir(S())[d] != NONE {
        PrepareFrame(s, o, t, d);
        CowPrepareTbl(Dir(S())[d].frame, 0);
        assert Dir(S()) == Dir(t);
        SetDirWord(d, Dir(S())[d].(shared := true));
      }
      PrepareTurn(s, o, t, S(), d);
    }

    /** cow_prepare, on the address space of the run before the tests. */
    method CowPrepare()
      requires Valid() && ml != ML_EXCEEDED && own.snap == map[] && own.moved == {} && cr3 == origCr3
      modifies this`low
      ensures S() == old(S()).(low := low)
      ensures Frozen(S()) && View(S()) == old(View(S())) && Mapped(S()) == old(Mapped(S()))
      ensures forall p :: 0 <= p < PAGES ==>
        Ent(S(), p) == if IsUser(p) then Prepared(old(Ent(S(), p))) else old(Ent(S(), p))
      ensures Chains(S(), own)
      ensures old(NoEmptyTable(S())) ==> NoEmptyTable(S())
    {
      hide Inv, Ent, Chains, NoEmptyTable;
      ghost var s, o := S(), own;
      InvParts(s, o);
      CowPrepareTbl(Dir(S())[0].frame, 256);
      PrepareStart(s, o, S());
      for d := 1 to 768
        invariant PrepareDone(s, o, S(), d)
      {
        CowPrepareDir(d, s, o);
      }
      PrepareFrozen(s, o, S());
      PrepareView(s, o, S());
      PrepareWords(s, o, S());
      PrepareChains(s, o, S());
      if NoEmptyTable(s) {
        UsedSame(s, S());
      }
    }

    method AllocMark()
      modifies this`bak1, this`bak2, this`bak3, this`bak4, this`bak5, this`bak6, this`llLow, this`llHigh
      ensures bak1 == allocAddrLow && bak2 == allocAddrHigh && bak3 == old(llLow) && bak4 == old(llHigh)
      ensures bak5 == ml && bak6 == mlOrig
      ensures llLow == 0 && llHigh == 0
    {
      bak1 := allocAddrLow;
      bak2 := allocAddrHigh;
      bak3 := llLow;
      bak4 := llHigh;
      bak5 := ml;
      bak6 := mlOrig;
      llLow, llHigh := 0, 0;
    }

    method AllocReset()
      modifies this`allocAddrLow, this`allocAddrHigh, this`llLow, this`llHigh, this`ml, this`mlOrig
      ensures S() == State(low, high, cr3, bak1, bak2, bak3, bak4, bak5, bak6)
    {
      allocAddrLow := bak1;
      allocAddrHigh := bak2;
      llLow := bak3;
      llHigh := bak4;
      ml := bak5;
      mlOrig := bak6;
    }

    /** The copying loop of clone_paging. */
    method CopyDirectory(newPgdir: nat)
      requires newPgdir != cr3
      modifies this`low
      ensures low == old(low)[newPgdir := Dir(old(S()))]
    {
      var t := Low(S(), newPgdir);
      low := low[newPgdir := t];
      for i := 0 to 1024
        invariant low == old(low)[newPgdir := t]
        invariant forall j :: 0 <= j < i ==> t[j] == Dir(old(S()))[j]
      {
        t := t[i := Dir(S())[i]];
        low := low[newPgdir := t];
      }
      assert t == Dir(old(S()));
    }

    method SwitchDirectory()
      requires cr3 < allocAddrLow
      modifies this`bak1, this`bak2, this`bak3, this`bak4, this`bak5, this`bak6,
               this`low, this`llLow, this`llHigh, this`allocAddrLow, this`cr3
      ensures S() == Cloned(old(S()))
      ensures Saved() == old(S()).(low := low, high := high, cr3 := origCr3)
    {
      AllocMark();
      var newPgdir := PopPageLow();
      CopyDirectory(newPgdir);
      cr3 := newPgdir;
    }

    /** clone_paging: the address space is the frozen one, and everything written from now on goes
        to frames handed out after this. */
    method ClonePaging()
      requires Frozen(S()) && cr3 == origCr3
      modifies this`bak1, this`bak2, this`bak3, this`bak4, this`bak5, this`bak6,
               this`low, this`llLow, this`llHigh, this`allocAddrLow, this`cr3, this`own
      ensures S() == Cloned(old(S())) && own == CloneOwn(old(S())) && Valid()
      ensures Saved() == old(S()).(low := low, high := high)
    {
      hide Inv, CloneOwn, Ent;
      ghost var s := S();
      CloneInv(s);
      SwitchDirectory();
      own := CloneOwn(s);
    }

    /** pop_paging. */
    method PopPaging()
      modifies this`cr3, this`allocAddrLow, this`allocAddrHigh, this`llLow, this`llHigh, this`ml, this`mlOrig
      ensures S() == old(Saved())
    {
      cr3 := origCr3;
      AllocReset();
    }

    // ---- init_paging ----

    /** pgtbl[j] for the kernel's own identity mappings: frame `f`, bits 0x103. */
    static function KernelWord(f: nat): Entry {
      Entry(f, false, false, true, 257)
    }

    /** The table of the first 4 MiB: the kernel's megabyte, and nothing for the program. */
    static ghost predicate FirstTable(t: Table) {
      && t[0] == NONE && (forall i :: 1 <= i < 256 ==> t[i] == KernelWord(i))
      && (forall i :: 256 <= i < 1024 ==> t[i] == NONE)
    }

    /** The table that maps frames `cntr` to `cntr + 1023` one to one. */
    static ghost predicate LinearTable(t: Table, cntr: nat) {
      forall j :: 0 <= j < 1024 ==> t[j] == KernelWord(cntr + j)
    }

    /** The first `n` tables of the top gigabyte. */
    static ghost predicate LinearTables(s: State, first: nat, n: nat) {
      forall k :: 0 <= k < n ==> LinearTable(Low(s, first + 2 + k), k * 1024)
    }

    /** The words of a directory whose tables for the top gigabyte are filled up to entry `i`. */
    static ghost predicate FirstDirectory(t: Table, first: nat, i: nat) {
      && t[0] == Entry(first + 1, false, false, true, USER_BITS)
      && (forall d :: 1 <= d < 768 || i <= d < 1024 ==> t[d] == NONE)
      && (forall d :: 768 <= d < i && d < 1024 ==> t[d] == Entry(first + 2 + d - 768, false, false, true, 1))
    }

    /** The loop over pgtbl[1..255], then zeros. */
    method InitFirstTable(pgtbl: nat)
      modifies this`low
      ensures low == old(low)[pgtbl := Low(S(), pgtbl)] && FirstTable(Low(S(), pgtbl))
    {
      var t := EmptyTable();
      for i := 1 to 256
        invariant t[0] == NONE && forall j :: 1 <= j < i ==> t[j] == KernelWord(j)
        invariant forall j :: i <= j < 1024 ==> t[j] == NONE
      {
        t := t[i := KernelWord(i)];
      }
      low := low[pgtbl := t];
    }

    /** The loop over the identity tables of the top gigabyte. */
    method InitLinearTable(pgtbl: nat, cntr: nat)
      modifies this`low
      ensures low == old(low)[pgtbl := Low(S(), pgtbl)]
      ensures LinearTable(Low(S(), pgtbl), cntr)
    {
      var t := EmptyTable();
      for j := 0 to 1024
        invariant forall j' :: 0 <= j' < j ==> t[j'] == KernelWord(cntr + j')
      {
        t := t[j := KernelWord(cntr + j)];
      }
      low := low[pgtbl := t];
    }

    static lemma LinearNext(s: State, t: State, first: nat, n: nat)
      requires LinearTables(s, first, n) && LinearTable(Low(t, first + 2 + n), n * 1024)
      requires forall f: nat :: f != first && f != first + 2 + n ==> Low(t, f) == Low(s, f)
      ensures LinearTables(t, first, n + 1)
    {
    }

    static lemma DirectoryNext(t: Table, u: Table, first: nat, i: nat)
      requires 768 <= i < 1024 && FirstDirectory(t, first, i)
      requires u == t[i := Entry(first + 2 + i - 768, false, false, true, 1)]
      ensures FirstDirectory(u, first, i + 1)
    {
    }

    /** The loop over directory entries 768 to 1023. */
    method InitLinear(first: nat)
      requires allocAddrLow == first + 2
      requires FirstDirectory(Low(S(), first), first, 768) && FirstTable(Low(S(), first + 1))
      modifies this`low, this`allocAddrLow
      ensures allocAddrLow == first + 258
      ensures FirstDirectory(Low(S(), first), first, 1024) && FirstTable(Low(S(), first + 1))
      ensures LinearTables(S(), first, 256)
    {
      hide LinearTable, FirstDirectory, FirstTable;
      var cntr := 0;
      ghost var s := S();
      for i := 768 to 1024
        invariant cntr == (i - 768) * 1024 && allocAddrLow == first + 2 + i - 768
        invariant FirstDirectory(Low(S(), first), first, i) && Low(S(), first + 1) == Low(s, first + 1)
        invariant LinearTables(S(), first, i - 768)
      {
        ghost var t := S();
        var pgtbl := PopPageLow();
        InitLinearTable(pgtbl, cntr);
        cntr := cntr + 1024;
        low := low[first := Low(S(), first)[i := Entry(pgtbl, false, false, true, 1)]];
        LinearNext(t, S(), first, i - 768);
        DirectoryNext(Low(t, first), Low(S(), first), first, i);
      }
    }

    static lemma LinearSame(s: State, t: State, first: nat)
      requires t.low == s.low && LinearTables(s, first, 256)
      ensures LinearTables(t, first, 256)
    {
    }

    static lemma BootedValid(s: State, o: Own, first: nat)
      requires s.cr3 == first && s.aLow == first + 258 && 0 < first && 0 < s.aHigh && s.lLow == 0 && s.lHigh == 0
      requires FirstDirectory(Dir(s), first, 1024) && FirstTable(Low(s, first + 1))
      requires LinearTables(s, first, 256)
      requires s.ml == s.mlOrig < ML_EXCEEDED
      requires o == Own(s.aLow, s.aHigh, map[], map[], [], [], map[], 0, {})
      ensures Inv(s, o) && Mapped(s) == {} && NoEmptyTable(s)
      ensures Dir(s)[0].frame == first + 1 && forall d :: 1 <= d < 768 ==> Dir(s)[d] == NONE
      ensures forall p :: USER_END <= p < PAGES ==> Ent(s, p) == KernelWord(p - USER_END)
      ensures forall p :: 1 <= p < FIRST_USER ==> Ent(s, p) == KernelWord(p)
    {
      forall p | USER_END <= p < PAGES ensures Ent(s, p) == KernelWord(p - USER_END) {
        var k := p / 1024 - 768;
        assert LinearTable(Low(s, first + 2 + k), k * 1024);
      }
      assert Ent(s, USER_END) == KernelWord(0) && Ent(s, 1) == KernelWord(1);
      forall p | FIRST_USER <= p < USER_END ensures Ent(s, p) == NONE {
        assert p / 1024 == 0 || 1 <= p / 1024 < 768;
      }
      forall d | 1 <= d < 768 ensures DirEntryOk(s, o, d) {
      }
    }

    /** init_paging. The directory, the first table and the 256 identity tables take the first low
        frames; they map the first gigabyte of memory to the top of the address space, one to one,
        and the first megabyte to itself; nothing is mapped for the program, and no budget is used. */
    method InitPaging()
      requires 0 < allocAddrLow && 0 < allocAddrHigh && llLow == 0 && llHigh == 0
      requires ml == mlOrig < ML_EXCEEDED
      modifies this`low, this`cr3, this`origCr3, this`allocAddrLow, this`own
      ensures Valid() && cr3 == origCr3
      ensures own.snap == map[] && own.moved == {} && own.drift == 0 && Mapped(S()) == {}
      ensures forall p :: USER_END <= p < PAGES ==> Ent(S(), p) == KernelWord(p - USER_END)
      ensures forall p :: 1 <= p < FIRST_USER ==> Ent(S(), p) == KernelWord(p)
      ensures cr3 == old(allocAddrLow) && allocAddrLow == cr3 + 258 && LinearTables(S(), cr3, 256)
      ensures own.lowMark == allocAddrLow && Dir(S())[0].frame == cr3 + 1 && NoEmptyTable(S())
      ensures forall d :: 1 <= d < 768 ==> Dir(S())[d] == NONE
    {
      hide LinearTables, LinearTable, Inv, NoEmptyTable, Ent, FirstTable;
      var first := PopPageLow();
      var pgdir := EmptyTable();
      var pgtbl := PopPageLow();
      InitFirstTable(pgtbl);
      pgdir := pgdir[0 := Entry(pgtbl, false, false, true, USER_BITS)];
      low := low[first := pgdir];
      InitLinear(first);
      ghost var t := S();
      origCr3 := first;
      cr3 := origCr3;
      own := Own(allocAddrLow, allocAddrHigh, map[], map[], [], [], map[], 0, {});
      LinearSame(t, S(), first);
      BootedValid(S(), own, first);
    }
  }
}
