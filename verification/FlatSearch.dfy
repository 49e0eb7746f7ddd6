/** The free-range searches of kernel/vmem.c on plain memory: with no empty table about, the place a
    search finds depends on the pages mapped and on nothing else. */
module FlatSearch {
  import opened Integers
  import opened Machine
  import opened FlatMemory

  /** Sizes from here on look for an absent table first: 0x7fff000 bytes. */
  const LARGE := 0x7fff

  /** There is a table for directory entry `d`. */
  ghost predicate TableIn(v: Flat, d: nat) {
    d == 0 || exists p :: d * 1024 <= p < d * 1024 + 1024 && p in v
  }

  /** The least mapped page of [from, to), or `to`. */
  ghost function FirstIn(v: Flat, from: nat, to: nat): nat
    decreases to - from
  {
    if from >= to then to else if from in v then from else FirstIn(v, from + 1, to)
  }

  /** The greatest page of [FIRST_USER, top) that is mapped, is not, or has no table; or the page below. */
  ghost function LastIn(v: Flat, top: nat): nat {
    if top <= FIRST_USER then FIRST_USER - 1 else if top - 1 in v then top - 1 else LastIn(v, top - 1)
  }

  ghost function LastOut(v: Flat, top: nat): nat {
    if top <= FIRST_USER then FIRST_USER - 1 else if top - 1 !in v then top - 1 else LastOut(v, top - 1)
  }

  ghost function LastBare(v: Flat, top: nat): nat {
    if top <= FIRST_USER then FIRST_USER - 1
    else if !TableIn(v, (top - 1) / 1024) then top - 1 else LastBare(v, top - 1)
  }

  ghost function FlatTop(v: Flat, from: nat): nat {
    if from % 1024 != 0 && TableIn(v, from / 1024) then from + 1 else from
  }

  ghost function FlatBack(v: Flat, sz: nat, upper: nat, end: nat): nat
    requires 0 < end
  {
    if sz >= LARGE then FirstIn(v, LastBare(v, end - 1) + 1, upper) else LastOut(v, FlatTop(v, end - 1)) + 1
  }

  ghost function FlatFront(v: Flat, back: nat): nat
    requires 0 < back
  {
    LastIn(v, FlatTop(v, back - 1)) + 1
  }

  /** do_find_mmap. */
  ghost function FlatFind(v: Flat, sz: nat, upper: nat, end: nat): nat
    decreases end
  {
    if end <= FIRST_USER then 0
    else
      var back := FlatBack(v, sz, upper, end);
      if back == 0 then 0
      else
        var front := FlatFront(v, back);
        if back - front >= sz then back - sz
        else if front < end then FlatFind(v, sz, upper, front) else 0
  }

  /** No page of the range is mapped. */
  predicate AllFree(v: Flat, from: nat, to: nat) {
    forall p :: from <= p < to ==> p !in v
  }

  /** find_mmap. */
  ghost function FlatMmap(v: Flat, addr: nat, sz: nat): nat {
    if FIRST_USER <= addr && addr + sz <= USER_END && AllFree(v, addr, addr + sz) then addr
    else FlatFind(v, sz, 0x80000, 0x80000)
  }

  // ---- find_mremap ----

  /** Where the free pages behind a mapping end that is to grow to `newsz` pages. */
  ghost function GapEnd(v: Flat, addr: nat, sz: nat, newsz: nat): nat {
    FirstIn(v, addr + sz, Min(addr + newsz, USER_END))
  }

  /** Where the free pages in front of it start; the start page itself is looked at, as it is for
      every scan down, unless it begins a table. */
  ghost function GapStart(v: Flat, addr: nat): nat {
    LastIn(v, FlatTop(v, addr)) + 1
  }

  /** There is room behind the mapping. */
  ghost predicate Stays(v: Flat, addr: nat, sz: nat, newsz: nat) {
    newsz < sz || GapEnd(v, addr, sz, newsz) == addr + newsz
  }

  /** There is not, but there is with the pages in front; the difference wraps at 2^32. */
  ghost predicate Slides(v: Flat, addr: nat, sz: nat, newsz: nat) {
    !Stays(v, addr, sz, newsz) && (GapEnd(v, addr, sz, newsz) - GapStart(v, addr)) % PAGES >= newsz
  }

  /** find_mremap. */
  ghost function FlatRemap(v: Flat, addr: nat, sz: nat, newsz: nat): nat {
    if Stays(v, addr, sz, newsz) then addr
    else if Slides(v, addr, sz, newsz) then (GapEnd(v, addr, sz, newsz) - newsz) % PAGES
    else FlatMmap(v, 0, newsz)
  }

  /** The cases of find_mremap on plain memory. */
  lemma RemapIs(v: Flat, addr: nat, sz: nat, newsz: nat)
    ensures var high, low := GapEnd(v, addr, sz, newsz), GapStart(v, addr);
      && (Stays(v, addr, sz, newsz) <==> newsz < sz || high == addr + newsz)
      && (Slides(v, addr, sz, newsz) <==> !Stays(v, addr, sz, newsz) && (high - low) % PAGES >= newsz)
      && FlatRemap(v, addr, sz, newsz) ==
           if Stays(v, addr, sz, newsz) then addr
           else if Slides(v, addr, sz, newsz) then (high - newsz) % PAGES
           else FlatMmap(v, 0, newsz)
  {
  }

  lemma {:induction false} FirstInFound(v: Flat, from: nat, to: nat)
    requires from <= to
    ensures from <= FirstIn(v, from, to) <= to && AllFree(v, from, FirstIn(v, from, to))
    ensures FirstIn(v, from, to) < to ==> FirstIn(v, from, to) in v
    decreases if from < to then to - from else 0
  {
    if from < to && from !in v {
      FirstInFound(v, from + 1, to);
    }
  }

  lemma {:induction false} LastInFound(v: Flat, top: nat)
    requires FIRST_USER <= top
    ensures FIRST_USER - 1 <= LastIn(v, top) < top && AllFree(v, LastIn(v, top) + 1, top)
    ensures FIRST_USER <= LastIn(v, top) ==> LastIn(v, top) in v
  {
    if FIRST_USER < top && top - 1 !in v {
      LastInFound(v, top - 1);
    }
  }

  lemma NoWrap(n: int)
    requires 0 <= n < PAGES
    ensures n % PAGES == n
  {
  }

  /** The gap around a mapping: free but for the mapping, and bounded by mapped pages. */
  lemma GapFacts(v: Flat, addr: nat, sz: nat, newsz: nat)
    requires FIRST_USER <= addr && 0 < sz <= newsz && addr + sz <= USER_END && addr + newsz < PAGES && addr in v
    ensures var high, low := GapEnd(v, addr, sz, newsz), GapStart(v, addr);
      && addr + sz <= high <= addr + newsz && high <= USER_END
      && FIRST_USER <= low && 0 <= high - low && (high - low) % PAGES == high - low
      && (if addr % 1024 == 0 then low <= addr && AllFree(v, low, addr) && (FIRST_USER < low ==> low - 1 in v)
          else low == addr + 1)
  {
    FirstInFound(v, addr + sz, Min(addr + newsz, USER_END));
    LastInFound(v, FlatTop(v, addr));
    assert addr / 1024 * 1024 <= addr < addr / 1024 * 1024 + 1024;
    hide FirstIn, TableIn;
    NoWrap(GapEnd(v, addr, sz, newsz) - GapStart(v, addr));
  }

  /** A mapping that has no room behind it slides down exactly when it begins a table, and the free
      pages in front of it make up for what is missing. Any other mapping is looked at by the scan
      down itself, which so finds no page in front, however many are free. */
  lemma SlidesExactly(v: Flat, addr: nat, sz: nat, newsz: nat)
    requires FIRST_USER <= addr && 0 < sz <= newsz && addr + sz <= USER_END && addr + newsz < PAGES && addr in v
    requires !Stays(v, addr, sz, newsz)
    ensures var high := GapEnd(v, addr, sz, newsz);
      Slides(v, addr, sz, newsz) <==>
        addr % 1024 == 0 && FIRST_USER + newsz <= high && AllFree(v, high - newsz, addr)
    ensures Slides(v, addr, sz, newsz) ==>
      FIRST_USER <= FlatRemap(v, addr, sz, newsz) == GapEnd(v, addr, sz, newsz) - newsz < addr
  {
    hide GapEnd, GapStart, FlatMmap;
    GapFacts(v, addr, sz, newsz);
    var high := GapEnd(v, addr, sz, newsz);
    if Slides(v, addr, sz, newsz) {
      NoWrap(high - newsz);
    }
  }
}
