/** The free-range searches of kernel/vmem.c: what they find is free, they end, and they find what
    there is. Addresses are page numbers. */
module Search {
  import opened Integers
  import opened Machine
  import opened RangeLoops
  import opened Scans
  import opened FlatSearch
  import opened Paging

  // ---- scans of tables and of plain memory ----

  lemma TableMeans(s: State, d: nat)
    requires NoEmptyTable(s) && Dir(s)[0] != NONE && d < 768
    ensures Dir(s)[d] != NONE <==> TableIn(View(s), d)
  {
    if 1 <= d && Dir(s)[d] != NONE {
      assert TableUsed(s, d);
      var p :| d * 1024 <= p < d * 1024 + 1024 && Ent(s, p) != NONE;
      assert p in View(s);
    }
    if 1 <= d && TableIn(View(s), d) {
      var p :| d * 1024 <= p < d * 1024 + 1024 && p in View(s);
      assert p / 1024 == d && Ent(s, p) != NONE;
    }
  }

  lemma {:induction false} FirstInIs(s: State, from: nat, to: nat, ans: nat)
    requires FIRST_USER <= from <= to <= USER_END && FirstFailing(s, from, to, -1, ans)
    ensures ans == FirstIn(View(s), from, to)
    decreases if from < to then to - from else 0
  {
    if from < to {
      assert Fails(s, from, -1) <==> from in View(s);
      if from !in View(s) {
        FirstInIs(s, from + 1, to, ans);
      }
    }
  }

  lemma {:induction false} LastInIs(s: State, top: nat, ans: int)
    requires FIRST_USER <= top <= USER_END && LastFailing(s, FIRST_USER, top, -1, ans)
    ensures ans == LastIn(View(s), top)
  {
    if FIRST_USER < top {
      assert Fails(s, top - 1, -1) <==> top - 1 in View(s);
      if top - 1 !in View(s) {
        LastInIs(s, top - 1, ans);
      }
    }
  }

  lemma {:induction false} LastOutIs(s: State, top: nat, ans: int)
    requires FIRST_USER <= top <= USER_END && LastFailing(s, FIRST_USER, top, 0, ans)
    ensures ans == LastOut(View(s), top)
  {
    if FIRST_USER < top {
      assert Fails(s, top - 1, 0) <==> top - 1 !in View(s);
      if top - 1 in View(s) {
        LastOutIs(s, top - 1, ans);
      }
    }
  }

  lemma {:induction false} LastBareIs(s: State, top: nat, ans: int)
    requires FIRST_USER <= top <= USER_END && LastFailing(s, FIRST_USER, top, -2, ans)
    requires NoEmptyTable(s) && Dir(s)[0] != NONE
    ensures ans == LastBare(View(s), top)
  {
    if FIRST_USER < top {
      TableMeans(s, (top - 1) / 1024);
      assert Fails(s, top - 1, -2) <==> !TableIn(View(s), (top - 1) / 1024);
      if TableIn(View(s), (top - 1) / 1024) {
        LastBareIs(s, top - 1, ans);
      }
    }
  }

  lemma TopIs(s: State, from: nat, perms: int)
    requires from < USER_END && perms != -2 && NoEmptyTable(s) && Dir(s)[0] != NONE
    ensures Top(s, from, perms) == FlatTop(View(s), from)
  {
    TableMeans(s, from / 1024);
  }

  lemma FreeUpTo(s: State, from: nat, to: nat, ans: nat)
    requires to <= PAGES && FirstFailing(s, from, to, -1, ans)
    ensures Absent(s, from, ans) && from <= ans <= to && (ans < to ==> Ent(s, ans) != NONE)
  {
    assert ans < to ==> Fails(s, ans, -1);
    forall p | from <= p < ans ensures Ent(s, p) == NONE {
      assert !Fails(s, p, -1);
    }
  }

  lemma RangeFree(s: State, from: nat, to: nat, ans: nat)
    requires FIRST_USER <= from <= to <= USER_END && FirstFailing(s, from, to, -1, ans)
    ensures ans == to <==> AllFree(View(s), from, to)
  {
    FreeUpTo(s, from, to, ans);
    if ans < to {
      assert ans in View(s);
    }
  }

  lemma FreeDownTo(s: State, to: nat, top: nat, ans: int)
    requires 0 < to && top <= PAGES && LastFailing(s, to, top, -1, ans)
    ensures 0 <= ans && to - 1 <= ans < top && Absent(s, ans + 1, top)
  {
    forall p | ans + 1 <= p < top ensures Ent(s, p) == NONE {
      assert !Fails(s, p, -1);
    }
  }

  /** `n` free pages from `q` on, below `upper`. */
  ghost predicate FreeRun(s: State, q: nat, n: nat, upper: nat) {
    FIRST_USER <= q && q + n <= upper <= PAGES && Absent(s, q, q + n)
  }

  /** Every run of more than `sz` free pages below `upper` ends at `end` or lower. */
  ghost predicate RunsBelow(s: State, sz: nat, upper: nat, end: nat) {
    forall q: nat, n: nat :: FreeRun(s, q, n, upper) && n > sz ==> q + n <= end
  }

  lemma NotInRun(s: State, q: nat, n: nat, upper: nat, p: nat)
    requires FreeRun(s, q, n, upper) && p < PAGES && Ent(s, p) != NONE
    ensures !(q <= p < q + n)
  {
  }

  lemma RunPages(s: State, q: nat, n: nat, upper: nat)
    requires FreeRun(s, q, n, upper) && n > 1
    ensures Ent(s, q + n - 1) == NONE && Ent(s, q + n - 2) == NONE
    ensures forall p :: q <= p < q + n ==> Ent(s, p) == NONE
  {
  }

  /** One turn of the search: runs that are long enough are below the range looked at and found too
      short. The topmost page may be passed over. */
  lemma RunsTurn(s: State, sz: nat, upper: nat, end: nat, back: nat, front: nat)
    requires 0 < sz && upper <= PAGES && RunsBelow(s, sz, upper, end) && FIRST_USER < end <= upper
    requires FIRST_USER <= front <= back <= end && back - front < sz
    requires forall p :: back <= p < end - 1 ==> Ent(s, p) != NONE
    requires FIRST_USER < front ==> Ent(s, front - 1) != NONE
    ensures RunsBelow(s, sz, upper, front)
  {
    forall q: nat, n: nat | FreeRun(s, q, n, upper) && n > sz ensures q + n <= front {
      RunPages(s, q, n, upper);
      if FIRST_USER < front {
        NotInRun(s, q, n, upper, front - 1);
      }
    }
  }

  /** A long run of free pages covers a table, and that is absent when no table is empty. */
  lemma RunTable(s: State, q: nat, n: nat, upper: nat) returns (d: nat)
    requires FreeRun(s, q, n, upper) && LARGE <= n && NoEmptyTable(s) && upper <= USER_END
    ensures 1 <= d < 768 && q <= d * 1024 && d * 1024 + 1024 <= q + n && Dir(s)[d] == NONE
  {
    d := (q + 1023) / 1024;
    RunPages(s, q, n, upper);
    assert TableUsed(s, d) && !HasPage(s, d);
  }

  /** What BackEnd finds for a large size: the last page under an absent table below `end`, and the
      end of the free pages from there on. */
  ghost predicate LastHole(s: State, upper: nat, end: nat, a: int, back: nat)
    requires upper <= PAGES
  {
    && FIRST_USER - 1 <= a < end - 1 <= upper
    && (FIRST_USER <= a ==> Dir(s)[a / 1024] == NONE)
    && (forall p :: FIRST_USER <= p && a < p < end - 1 ==> Dir(s)[p / 1024] != NONE)
    && FirstFailing(s, a + 1, upper, -1, back)
  }

  /** The pages from the hole to its end are free, so the page below `front` is not among them. */
  lemma HoleFree(s: State, upper: nat, end: nat, a: int, back: nat, front: nat)
    requires upper <= USER_END && LastHole(s, upper, end, a, back) && FIRST_USER <= front <= back
    requires FIRST_USER < front ==> Ent(s, front - 1) != NONE
    ensures FIRST_USER <= a && FIRST_USER < front ==> front <= a
    ensures FIRST_USER <= a ==> a < back
  {
    FreeUpTo(s, a + 1, upper, back);
    if FIRST_USER <= a {
      assert Ent(s, a) == NONE;
    }
  }

  /** The same turn for a large size, no table being empty. */
  lemma RunsTurnLarge(s: State, sz: nat, upper: nat, end: nat, a: int, back: nat, front: nat)
    requires LARGE <= sz && upper <= USER_END && NoEmptyTable(s) && RunsBelow(s, sz - 1, upper, end)
    requires FIRST_USER < end <= upper && LastHole(s, upper, end, a, back)
    requires FIRST_USER <= front <= back && Absent(s, front, back) && back - front < sz
    requires FIRST_USER < front ==> Ent(s, front - 1) != NONE
    ensures RunsBelow(s, sz - 1, upper, front)
  {
    forall q: nat, n: nat | FreeRun(s, q, n, upper) && n > sz - 1 ensures q + n <= front {
      var d := RunTable(s, q, n, upper);
      assert d * 1024 / 1024 == d && d * 1024 <= a;
      if back < upper {
        assert Fails(s, back, -1);
        NotInRun(s, q, n, upper, back);
      }
      if FIRST_USER < front {
        NotInRun(s, q, n, upper, front - 1);
      }
      HoleFree(s, upper, end, a, back, front);
    }
  }

  lemma LargeBack(s: State, sz: nat, upper: nat, end: nat, ans: int, back: nat)
    requires Dir(s)[0] != NONE && LARGE <= sz && FIRST_USER < end <= upper <= USER_END
    requires LastFailing(s, FIRST_USER, end - 1, -2, ans) && FirstFailing(s, ans + 1, upper, -1, back)
    ensures NoEmptyTable(s) ==> back == FlatBack(View(s), sz, upper, end)
  {
    hide NoEmptyTable, View, Ent;
    if NoEmptyTable(s) {
      LastBareIs(s, end - 1, ans);
      FirstInIs(s, ans + 1, upper, back);
    }
  }

  lemma SmallBack(s: State, sz: nat, upper: nat, end: nat, ans: int)
    requires Dir(s)[0] != NONE && sz < LARGE && FIRST_USER < end <= upper <= USER_END
    requires LastFailing(s, FIRST_USER, Top(s, end - 1, 0), 0, ans)
    ensures NoEmptyTable(s) ==> ans + 1 == FlatBack(View(s), sz, upper, end)
  {
    hide NoEmptyTable, View, Ent;
    if NoEmptyTable(s) {
      TopIs(s, end - 1, 0);
      LastOutIs(s, Top(s, end - 1, 0), ans);
    }
  }

  /** The first half of the loop of do_find_mmap: a candidate for the end of a free range. */
  method BackEnd(k: Kernel, sz: nat, upper: nat, backEnd: nat) returns (r: nat, ghost hole: int)
    requires Dir(k.S())[0] != NONE && FIRST_USER < backEnd <= upper <= USER_END
    ensures FIRST_USER <= r <= upper
    ensures FIRST_USER < r ==> Ent(k.S(), r - 1) == NONE
    ensures r < backEnd || FIRST_USER == r || (r == backEnd && sz < LARGE) || (sz >= LARGE &&
      exists q :: FIRST_USER <= q < backEnd && q <= r && Absent(k.S(), q, r))
    ensures sz >= LARGE ==> LastHole(k.S(), upper, backEnd, hole, r)
    ensures sz < LARGE ==> r <= backEnd && forall p :: r <= p < backEnd - 1 ==> Ent(k.S(), p) != NONE
    ensures NoEmptyTable(k.S()) ==> r == FlatBack(View(k.S()), sz, upper, backEnd)
  {
    hide NoEmptyTable, FlatBack, View;
    if sz >= LARGE {
      var ans := CheckAccessBackwards(k, FIRST_USER, backEnd - 1, -2);
      var emptyPgdir := ans + 1;
      hole := ans;
      forall p | FIRST_USER <= p && ans < p < backEnd - 1 ensures Dir(k.S())[p / 1024] != NONE {
        assert !Fails(k.S(), p, -2);
      }
      r := CheckAccess(k, emptyPgdir, upper, -1);
      FreeUpTo(k.S(), emptyPgdir, upper, r);
      LargeBack(k.S(), sz, upper, backEnd, ans, r);
      if FIRST_USER <= ans {
        assert Fails(k.S(), ans, -2);
        assert Absent(k.S(), ans, r);
      }
    } else {
      hole := 0;
      var ans := CheckAccessBackwards(k, FIRST_USER, backEnd - 1, 0);
      r := ans + 1;
      SmallBack(k.S(), sz, upper, backEnd, ans);
      forall p | r <= p < backEnd - 1 ensures Ent(k.S(), p) != NONE {
        assert !Fails(k.S(), p, 0);
      }
    }
  }

  lemma FrontIs(s: State, end: nat, ans: int)
    requires Dir(s)[0] != NONE && FIRST_USER <= end <= USER_END && NoEmptyTable(s)
    requires LastFailing(s, FIRST_USER, Top(s, end - 1, -1), -1, ans)
    ensures ans + 1 == FlatFront(View(s), end)
  {
    hide NoEmptyTable, View, Ent;
    TopIs(s, end - 1, -1);
    LastInIs(s, Top(s, end - 1, -1), ans);
  }

  /** The second half: the range below `backEnd` is free down to the result. */
  method FrontEnd(k: Kernel, backEnd: nat) returns (r: nat)
    requires Dir(k.S())[0] != NONE && FIRST_USER <= backEnd <= USER_END
    requires FIRST_USER < backEnd ==> Ent(k.S(), backEnd - 1) == NONE
    ensures FIRST_USER <= r <= backEnd && Absent(k.S(), r, backEnd)
    ensures FIRST_USER < r ==> Ent(k.S(), r - 1) != NONE
    ensures NoEmptyTable(k.S()) ==> r == FlatFront(View(k.S()), backEnd)
  {
    hide NoEmptyTable, View, FlatFront;
    var ans := CheckAccessBackwards(k, FIRST_USER, backEnd - 1, -1);
    FreeDownTo(k.S(), FIRST_USER, Top(k.S(), backEnd - 1, -1), ans);
    r := ans + 1;
    if NoEmptyTable(k.S()) {
      FrontIs(k.S(), backEnd, ans);
    }
  }

  /** The search is from the top down: no run of free pages above the place would do, but for the page
      that may be passed over when the size is small; and the place is at the end of a free run, which
      a mapped page bounds, or `upper`, or that page. */
  ghost predicate Topmost(s: State, r: nat, sz: nat, upper: nat)
    requires upper < PAGES
  {
    && r + sz <= upper
    && (0 < sz < LARGE ==> RunsBelow(s, sz, upper, r + sz + 1))
    && (LARGE <= sz && NoEmptyTable(s) ==> RunsBelow(s, sz - 1, upper, r + sz))
    && (r + sz + 1 < upper || (LARGE <= sz && r + sz < upper) ==> Ent(s, r + sz) != NONE)
  }

  lemma TopmostSmall(s: State, sz: nat, upper: nat, end: nat, back: nat)
    requires sz < LARGE && sz <= back <= end <= upper < PAGES && FIRST_USER < back && Ent(s, back - 1) == NONE
    requires (0 < sz ==> RunsBelow(s, sz, upper, end)) && (end == upper || Ent(s, end - 1) != NONE)
    requires forall p :: back <= p < end - 1 ==> Ent(s, p) != NONE
    ensures Topmost(s, back - sz, sz, upper)
  {
    forall q: nat, n: nat | 0 < sz && FreeRun(s, q, n, upper) && n > sz ensures q + n <= back + 1 {
      RunPages(s, q, n, upper);
    }
  }

  lemma TopmostLarge(s: State, sz: nat, upper: nat, end: nat, a: int, back: nat)
    requires LARGE <= sz <= back <= upper <= USER_END && FIRST_USER < end <= upper && LastHole(s, upper, end, a, back)
    requires NoEmptyTable(s) ==> RunsBelow(s, sz - 1, upper, end)
    ensures Topmost(s, back - sz, sz, upper)
  {
    assert back < upper ==> Fails(s, back, -1);
    if NoEmptyTable(s) {
      forall q: nat, n: nat | FreeRun(s, q, n, upper) && n > sz - 1 ensures q + n <= back {
        var d := RunTable(s, q, n, upper);
        assert d * 1024 / 1024 == d && d * 1024 <= a;
        if back < upper {
          NotInRun(s, q, n, upper, back);
        }
      }
    }
  }

  /** do_find_mmap: 0, or the start of `sz` free pages below `upper`, as high as possible. For sizes below LARGE it is 0
      only when no run of free pages there is longer than `sz`, and from LARGE on, no table being
      empty, only when none is as long; the place is then a function of the plain memory. */
  method DoFindMmap(k: Kernel, sz: nat, upper: nat) returns (r: nat)
    requires Dir(k.S())[0] != NONE && upper <= USER_END
    ensures r == 0 || (FIRST_USER <= r && r + sz <= upper && Absent(k.S(), r, r + sz))
    ensures r == 0 && 0 < sz < LARGE ==> RunsBelow(k.S(), sz, upper, FIRST_USER)
    ensures r == 0 && LARGE <= sz && NoEmptyTable(k.S()) ==> RunsBelow(k.S(), sz - 1, upper, FIRST_USER)
    ensures r != 0 && 0 < sz ==> Topmost(k.S(), r, sz, upper)
    ensures NoEmptyTable(k.S()) ==> r == FlatFind(View(k.S()), sz, upper, upper)
  {
    hide NoEmptyTable, FlatBack, FlatFront, Topmost;
    var backEnd: nat := upper;
    while backEnd > FIRST_USER
      invariant backEnd <= upper && (FIRST_USER < backEnd < upper ==> Ent(k.S(), backEnd - 1) != NONE)
      invariant 0 < sz < LARGE ==> RunsBelow(k.S(), sz, upper, backEnd)
      invariant NoEmptyTable(k.S()) ==>
        FlatFind(View(k.S()), sz, upper, upper) == FlatFind(View(k.S()), sz, upper, backEnd)
      invariant LARGE <= sz && NoEmptyTable(k.S()) ==> RunsBelow(k.S(), sz - 1, upper, backEnd)
      decreases backEnd
    {
      ghost var before := backEnd;
      ghost var hole;
      backEnd, hole := BackEnd(k, sz, upper, backEnd);
      var frontEnd := FrontEnd(k, backEnd);
      assert frontEnd < before by {
        if backEnd >= before && FIRST_USER < frontEnd {
          assert Ent(k.S(), frontEnd - 1) != NONE && Ent(k.S(), backEnd - 1) == NONE;
        }
      }
      if backEnd - frontEnd >= sz {
        if LARGE <= sz {
          TopmostLarge(k.S(), sz, upper, before, hole, backEnd);
        } else if 0 < sz {
          TopmostSmall(k.S(), sz, upper, before, backEnd);
        }
        return backEnd - sz;
      }
      if 0 < sz < LARGE {
        RunsTurn(k.S(), sz, upper, before, backEnd, frontEnd);
      }
      if LARGE <= sz && NoEmptyTable(k.S()) {
        RunsTurnLarge(k.S(), sz, upper, before, hole, backEnd, frontEnd);
      }
      backEnd := frontEnd;
    }
    r := 0;
  }

  /** find_mmap: the place asked for when it is free, else any. */
  method FindMmap(k: Kernel, addr: nat, sz: nat) returns (r: nat)
    requires Dir(k.S())[0] != NONE
    ensures r == 0 || (FIRST_USER <= r && r + sz <= USER_END && Absent(k.S(), r, r + sz))
    ensures FIRST_USER <= addr && addr + sz <= USER_END && Absent(k.S(), addr, addr + sz) ==> r == addr
    ensures r == 0 && 0 < sz < LARGE ==> RunsBelow(k.S(), sz, 0x80000, FIRST_USER)
    ensures r == 0 && LARGE <= sz && NoEmptyTable(k.S()) ==> RunsBelow(k.S(), sz - 1, 0x80000, FIRST_USER)
    ensures r != 0 && r != addr && 0 < sz ==> Topmost(k.S(), r, sz, 0x80000)
    ensures NoEmptyTable(k.S()) ==> r == FlatMmap(View(k.S()), addr, sz)
  {
    hide Topmost, NoEmptyTable, FlatFind;
    if addr < FIRST_USER || addr + sz > USER_END {
      r := DoFindMmap(k, sz, 0x80000);
      return;
    }
    var high := CheckAccess(k, addr, addr + sz, -1);
    FreeUpTo(k.S(), addr, addr + sz, high);
    assert high == addr + sz <==> AllFree(View(k.S()), addr, addr + sz) by {
      RangeFree(k.S(), addr, addr + sz, high);
    }
    if high < addr + sz {
      r := DoFindMmap(k, sz, 0x80000);
    } else {
      r := addr;
    }
  }

  lemma SmallModulo(n: int)
    requires 0 <= n < PAGES
    ensures n % PAGES == n
  {
  }

  /** The range from `r` is made of free pages and pages of the old mapping [addr, addr + sz). */
  ghost predicate FreeOrOld(s: State, r: nat, n: nat, addr: nat, sz: nat)
    requires r + n <= PAGES
  {
    forall p :: r <= p < r + n ==> Ent(s, p) == NONE || addr <= p < addr + sz
  }

  /** No place, or one for `n` pages made of free pages and pages of the old mapping. */
  ghost predicate SoundPlace(s: State, r: nat, n: nat, addr: nat, sz: nat) {
    r == 0 || (FIRST_USER <= r && r + n <= USER_END && FreeOrOld(s, r, n, addr, sz))
  }

  /** The start page is one that check_access_backwards looks at, and it is mapped. */
  ghost predicate SeenMapped(s: State, addr: nat)
    requires addr < PAGES
  {
    addr % 1024 != 0 && Ent(s, addr) != NONE
  }

  lemma AddrSound(s: State, addr: nat, sz: nat, newsz: nat, high: nat)
    requires FIRST_USER <= addr && sz <= newsz && addr + newsz < PAGES
    requires FirstFailing(s, addr + sz, addr + newsz, -1, high)
    ensures addr + newsz <= USER_END ==> (high == addr + newsz <==> Absent(s, addr + sz, addr + newsz))
    ensures addr + newsz <= USER_END && high == addr + newsz ==> SoundPlace(s, addr, newsz, addr, sz)
    ensures sz == 0 < newsz && SeenMapped(s, addr) ==> high == addr
  {
    FreeUpTo(s, addr + sz, addr + newsz, high);
  }

  lemma FreeSound(s: State, r: nat, addr: nat, sz: nat, newsz: nat)
    requires r == 0 || (FIRST_USER <= r && r + newsz <= USER_END && Absent(s, r, r + newsz))
    ensures SoundPlace(s, r, newsz, addr, sz)
  {
  }

  /** `n` pages below `addr` are free, or there are exactly `addr` of them and 0 is the answer. */
  ghost predicate FreeBelow(s: State, addr: nat, n: nat)
    requires addr <= PAGES
  {
    n == addr || (n <= addr && FIRST_USER <= addr - n && Absent(s, addr - n, addr))
  }

  lemma HighBound(s: State, from: nat, to: nat, high: nat)
    requires to < PAGES && Ent(s, USER_END) != NONE && from <= USER_END && FirstFailing(s, from, to, -1, high)
    ensures high <= USER_END
  {
    assert Fails(s, USER_END, -1);
  }

  /** With an old size of 0: the scan down ends on `addr` exactly when that is mapped and looked at;
      otherwise the pages from its end to `high` are free. */
  lemma EmptyMremap(s: State, addr: nat, n: nat, high: nat, ans: int)
    requires FIRST_USER <= addr <= USER_END && addr + n < PAGES && 0 < n && Ent(s, USER_END) != NONE
    requires FirstFailing(s, addr, addr + n, -1, high) && LastFailing(s, FIRST_USER, Top(s, addr, -1), -1, ans)
    ensures SeenMapped(s, addr) <==> ans == addr
    ensures ans == addr ==> high == addr
    ensures ans != addr ==> 0 <= ans + 1 <= high && Absent(s, ans + 1, high)
  {
    FreeUpTo(s, addr, addr + n, high);
    FreeDownTo(s, FIRST_USER, Top(s, addr, -1), ans);
    assert Fails(s, addr, -1) <==> Ent(s, addr) != NONE;
  }

  /** The place in the gap is sound, but for an old size of 0 with the start page mapped. */
  lemma GapSound(s: State, addr: nat, sz: nat, newsz: nat, high: nat, ans: int)
    requires FIRST_USER <= addr && sz <= newsz && 0 < newsz && addr + newsz < PAGES && addr + sz <= USER_END
    requires Ent(s, USER_END) != NONE && FirstFailing(s, addr + sz, addr + newsz, -1, high)
    requires LastFailing(s, FIRST_USER, Top(s, addr, -1), -1, ans)
    ensures var low := ans + 1;
      var r := (high - newsz) % PAGES;
      && (sz == 0 && SeenMapped(s, addr) ==>
            && (high == addr ==> (high - low) % PAGES >= newsz)
            && (SoundPlace(s, (addr - newsz) % PAGES, newsz, addr, 0) <==> FreeBelow(s, addr, newsz)))
      && ((0 < sz || !SeenMapped(s, addr)) && (high - low) % PAGES >= newsz ==>
            r == high - newsz && SoundPlace(s, r, newsz, addr, sz))
  {
    HighBound(s, addr + sz, addr + newsz, high);
    FreeUpTo(s, addr + sz, addr + newsz, high);
    FreeDownTo(s, FIRST_USER, Top(s, addr, -1), ans);
    if sz == 0 {
      EmptyMremap(s, addr, newsz, high, ans);
    }
    if 0 < sz || !SeenMapped(s, addr) {
      SmallModulo(high - (ans + 1));
    }
  }

  lemma GapEndIs(s: State, addr: nat, sz: nat, newsz: nat, high: nat)
    requires FIRST_USER <= addr && sz <= newsz && addr + sz <= USER_END && addr + newsz < PAGES
    requires Ent(s, USER_END) != NONE
    requires FirstFailing(s, addr + sz, addr + newsz, -1, high)
    ensures high == GapEnd(View(s), addr, sz, newsz) <= USER_END
  {
    assert USER_END < addr + newsz ==> Fails(s, USER_END, -1);
    assert high < USER_END ==> high < addr + newsz || high == addr + newsz;
    FirstInIs(s, addr + sz, Min(addr + newsz, USER_END), high);
  }

  lemma GapIs(s: State, addr: nat, ans: int)
    requires FIRST_USER <= addr <= USER_END && Dir(s)[0] != NONE
    requires LastFailing(s, FIRST_USER, Top(s, addr, -1), -1, ans)
    ensures NoEmptyTable(s) || addr in View(s) ==> ans + 1 == GapStart(View(s), addr)
  {
    if NoEmptyTable(s) || addr in View(s) {
      if addr in View(s) {
        assert Ent(s, addr) != NONE && addr / 1024 * 1024 <= addr < addr / 1024 * 1024 + 1024;
      } else if addr < USER_END {
        TopIs(s, addr, -1);
      }
      LastInIs(s, Top(s, addr, -1), ans);
    }
  }

  /** find_mremap: where a mapping of `sz` pages at `addr` can grow to `newsz` pages. An old size of
      0 is not looked after: with `addr` itself mapped the unsigned difference wraps, and the pages
      below `addr` are answered unseen. The answer is then sound exactly when they happen to be free. */
  method FindMremap(k: Kernel, addr: nat, sz: nat, newsz: nat) returns (r: nat)
    requires Dir(k.S())[0] != NONE && Ent(k.S(), USER_END) != NONE
    requires FIRST_USER <= addr && addr + sz <= USER_END && addr + newsz < PAGES
    ensures newsz < sz ==> r == addr
    ensures 0 < sz <= newsz ==> SoundPlace(k.S(), r, newsz, addr, sz)
    ensures sz <= newsz && addr + newsz <= USER_END && Absent(k.S(), addr + sz, addr + newsz) ==> r == addr
    ensures sz == 0 < newsz && SeenMapped(k.S(), addr) ==> r == (addr - newsz) % PAGES
    ensures NoEmptyTable(k.S()) ==> r == FlatRemap(View(k.S()), addr, sz, newsz)
    ensures 0 < sz && addr in View(k.S()) && Slides(View(k.S()), addr, sz, newsz) ==>
      r == GapEnd(View(k.S()), addr, sz, newsz) - newsz
    ensures var v := View(k.S());
      !Stays(v, addr, sz, newsz) && addr in v && !Slides(v, addr, sz, newsz) ==>
        r == 0 || (FIRST_USER <= r && r + newsz <= USER_END && Absent(k.S(), r, r + newsz))
    ensures var v := View(k.S());
      !Stays(v, addr, sz, newsz) && addr in v && !Slides(v, addr, sz, newsz) && 0 < newsz && r != 0 ==>
        Topmost(k.S(), r, newsz, 0x80000)
    ensures Stays(View(k.S()), addr, sz, newsz) ==> r == addr
    ensures sz == 0 < newsz ==>
      (SoundPlace(k.S(), r, newsz, addr, 0) <==> SeenMapped(k.S(), addr) ==> FreeBelow(k.S(), addr, newsz))
  {
    hide Fails, FirstFailing, LastFailing, NoEmptyTable, Ent, View, FlatMmap, GapEnd, GapStart, SoundPlace,
      FreeBelow, SeenMapped, Absent, RunsBelow, Topmost, FlatFind, Stays, Slides, FlatRemap;
    RemapIs(View(k.S()), addr, sz, newsz);
    if newsz < sz {
      return addr;
    }
    ghost var s := k.S();
    var high := CheckAccess(k, addr + sz, addr + newsz, -1);
    GapEndIs(s, addr, sz, newsz, high);
    AddrSound(s, addr, sz, newsz, high);
    if addr + newsz <= USER_END && high == addr + newsz {
      return addr;
    }
    var ans := CheckAccessBackwards(k, FIRST_USER, addr, -1);
    GapIs(s, addr, ans);
    var low := ans + 1;
    if 0 < newsz {
      GapSound(s, addr, sz, newsz, high, ans);
    }
    if (high - low) % PAGES >= newsz {
      r := (high - newsz) % PAGES;
    } else {
      r := FindMmap(k, 0, newsz);
      FreeSound(s, r, addr, sz, newsz);
    }
  }
}
