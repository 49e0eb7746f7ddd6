/** The steps on data pages: highmem_pre_alloc, highmem_post_alloc, highmem_free and the
    page-table word that goes with them. */
module DataOps {
  import opened Integers
  import opened Machine
  import opened Ownership
  import opened PageOps

  /** highmem_pre_alloc: charges the budget and names a frame, but leaves a frame of the free
      list on the list. */
  function PreAlloc(s: State): (State, nat) {
    var s := if s.ml == 0 then s.(ml := ML_EXCEEDED) else s;
    if s.ml == ML_EXCEEDED then (s, s.aHigh)
    else if s.lHigh != 0 then (s.(ml := s.ml - 1), s.lHigh)
    else (s.(ml := s.ml - 1, aHigh := s.aHigh + 1), s.aHigh)
  }

  /** highmem_post_alloc: pops the free list through the page, now that it is mapped. */
  function PostAlloc(s: State, p: nat): State
    requires p < PAGES
  {
    if s.ml != ML_EXCEEDED && s.lHigh != 0 then
      s.(lHigh := High(s, Ent(s, p).frame)[0])
    else s
  }

  /** highmem_increment_ml. The sum fits 32 bits: the largest word is ML_EXCEEDED itself. */
  function CreditMl(s: State): State {
    if s.ml != ML_EXCEEDED then s.(ml := s.ml + 1) else s
  }

  /** Page `p` gets a new frame, with the flags of `e`. */
  function TakePage(s: State, p: nat, e: Entry): State
    requires p < PAGES
  {
    var (a, f) := PreAlloc(s);
    PostAlloc(SetEnt(a, p, e.(frame := f)), p)
  }

  ghost function TakePageOwn(s: State, o: Own, p: nat): Own
    requires p < PAGES
  {
    if s.ml == 0 || s.ml == ML_EXCEEDED then o
    else o.(high := o.high[PreAlloc(s).1 := At(p)],
            freeHigh := if o.freeHigh == [] then [] else o.freeHigh[..|o.freeHigh| - 1],
            drift := if Ent(s, p) == NONE then o.drift else o.drift - 1)
  }

  /** highmem_free: the frame goes on the free list, through the page's own mapping. */
  function HighFree(s: State, f: nat): State {
    if s.ml != ML_EXCEEDED then
      CreditMl(s).(high := s.high[f := High(s, f)[0 := s.lHigh]], lHigh := f)
    else s
  }

  /** highmem_free, then the word is cleared. */
  function FreePage(s: State, p: nat): State
    requires p < PAGES
  {
    SetEnt(HighFree(s, Ent(s, p).frame), p, NONE)
  }

  ghost function FreePageOwn(s: State, o: Own, p: nat): Own
    requires p < PAGES
  {
    if s.ml == ML_EXCEEDED then o
    else o.(high := o.high[Ent(s, p).frame := Free(|o.freeHigh|)], freeHigh := o.freeHigh + [Ent(s, p).frame])
  }

  /** The word of a shared page is cleared; its frame stays the snapshot's. */
  function ForgetPage(s: State, p: nat): State
    requires p < PAGES
  {
    SetEnt(CreditMl(s), p, NONE)
  }

  /** Every word but that of `p` is as it was. */
  ghost predicate EntSameBut(s: State, t: State, p: nat) {
    forall q :: 0 <= q < PAGES && q != p ==> Ent(t, q) == Ent(s, q)
  }

  lemma MappedBut(s: State, t: State, p: nat)
    requires IsUser(p) && EntSameBut(s, t, p)
    ensures p in Mapped(s) <==> Ent(s, p) != NONE
    ensures p in Mapped(t) <==> Ent(t, p) != NONE
    ensures Mapped(t) - {p} == Mapped(s) - {p}
  {
    hide Ent;
  }

  lemma MappedStep(s: State, t: State, p: nat)
    requires IsUser(p) && EntSameBut(s, t, p)
    ensures |Mapped(t)| == |Mapped(s)| - (if Ent(s, p) != NONE then 1 else 0) + (if Ent(t, p) != NONE then 1 else 0)
  {
    hide Mapped, Ent;
    MappedBut(s, t, p);
    var rest := Mapped(s) - {p};
    assert Mapped(s) == if p in Mapped(s) then rest + {p} else rest;
    assert Mapped(t) == if p in Mapped(t) then rest + {p} else rest;
  }

  lemma EntriesStep(s: State, o: Own, t: State, o': Own, p: nat)
    requires Entries(s, o) && IsUser(p) && EntSameBut(s, t, p)
    requires o'.highMark == o.highMark && o'.moved == o.moved && p !in o.moved && EntryOk(o, p, Ent(t, p))
    ensures Entries(t, o')
  {
    forall q | FIRST_USER <= q < USER_END ensures EntryOk(o', q, Ent(t, q)) {
      assert EntryOk(o, q, Ent(s, q));
    }
  }

  /** The frame PreAlloc names is nobody's. */
  lemma PreAllocFrame(s: State, o: Own)
    requires 0 < o.highMark <= s.aHigh && (s.ml != ML_EXCEEDED ==> HighList(s, o) && Pages(s, o))
    ensures var (a, f) := PreAlloc(s);
      && o.highMark <= f <= s.aHigh
      && (s.ml != ML_EXCEEDED && f in o.high ==> o.high[f].Free?)
  {
    if s.ml != ML_EXCEEDED && o.freeHigh != [] {
      assert o.high[o.freeHigh[|o.freeHigh| - 1]] == Free(|o.freeHigh| - 1);
    }
  }

  lemma TakePageList(s: State, o: Own, t: State, o': Own, f: nat, p: nat)
    requires HighList(s, o) && (forall g: nat :: g in o.high <==> o.highMark <= g < s.aHigh)
    requires 0 < o.highMark <= s.aHigh
    requires f == if s.lHigh != 0 then s.lHigh else s.aHigh
    requires t.lHigh == if s.lHigh != 0 then High(s, f)[0] else 0
    requires t.high == s.high
    requires o'.high == o.high[f := At(p)]
    requires o'.freeHigh == if o.freeHigh == [] then [] else o.freeHigh[..|o.freeHigh| - 1]
    ensures HighList(t, o')
  {
    var n := |o.freeHigh| - 1;
    if n >= 0 {
      var x := Below(o.freeHigh, n);
      assert o.high[o.freeHigh[n]] == Free(n);
      forall k {:trigger Below(o'.freeHigh, k)} | 0 <= k < n
        ensures High(t, o'.freeHigh[k])[0] == Below(o'.freeHigh, k)
      {
        assert Below(o'.freeHigh, k) == Below(o.freeHigh, k);
      }
    }
  }

  lemma TakePagePages(s: State, o: Own, t: State, o': Own, f: nat, p: nat)
    requires Pages(s, o) && IsUser(p) && EntSameBut(s, t, p) && o.highMark <= f <= s.aHigh
    requires Ent(s, p) == NONE || Ent(s, p).shared
    requires f in o.high ==> o.high[f].Free?
    requires Ent(t, p) != NONE && !Ent(t, p).shared && Ent(t, p).frame == f
    requires o'.high == o.high[f := At(p)] && o'.highMark == o.highMark
    requires t.aHigh == if f < s.aHigh then s.aHigh else f + 1
    ensures Pages(t, o')
  {
  }

  /** The table memory of two states is the same. */
  ghost predicate SameLow(s: State, t: State) {
    t.low == s.low && t.cr3 == s.cr3 && t.aLow == s.aLow && t.lLow == s.lLow
  }

  lemma SameLowTables(s: State, o: Own, t: State)
    requires SameLow(s, t)
    ensures Dir(t) == Dir(s)
    ensures forall q :: 0 <= q < PAGES ==> Ent(t, q) == Ent(s, q)
    ensures Tables(s, o) ==> Tables(t, o)
    ensures LowList(s, o) ==> LowList(t, o)
  {
    if Tables(s, o) {
      SameDirTables(s, o, t);
    }
  }

  lemma SameOwnTables(s: State, o: Own, o': Own)
    requires Tables(s, o) && LowList(s, o)
    requires o'.low == o.low && o'.lowMark == o.lowMark && o'.snap == o.snap && o'.freeLow == o.freeLow
    ensures Tables(s, o') && LowList(s, o')
  {
    forall d | 1 <= d < 768 ensures DirEntryOk(s, o', d) {
      assert DirEntryOk(s, o, d);
    }
  }

  lemma KeptSameLow(s: State, o: Own, t: State)
    requires SameLow(s, t) && t.mlOrig == s.mlOrig && s.aHigh <= t.aHigh
    requires forall f: nat :: f < o.highMark ==> High(t, f) == High(s, f)
    requires s.ml == ML_EXCEEDED ==> t.ml == ML_EXCEEDED
    ensures Kept(s, o, t, o)
  {
  }

  lemma KeptTrans(s: State, o: Own, t: State, o': Own, u: State, o'': Own)
    requires Kept(s, o, t, o') && Kept(t, o', u, o'')
    ensures Kept(s, o, u, o'')
  {
  }

  /** Neither half of the pop touches the tables. */
  lemma PreAllocKept(s: State, o: Own)
    requires Tables(s, o) && LowList(s, o)
    ensures var a := PreAlloc(s).0;
      && Dir(a) == Dir(s) && (forall q :: 0 <= q < PAGES ==> Ent(a, q) == Ent(s, q))
      && Tables(a, o) && LowList(a, o) && Kept(s, o, a, o)
  {
    hide Tables, LowList;
    SameLowTables(s, o, PreAlloc(s).0);
    KeptSameLow(s, o, PreAlloc(s).0);
  }

  lemma PostAllocKept(s: State, o: Own, p: nat)
    requires Tables(s, o) && LowList(s, o) && p < PAGES
    ensures var t := PostAlloc(s, p);
      && Dir(t) == Dir(s) && (forall q :: 0 <= q < PAGES ==> Ent(t, q) == Ent(s, q))
      && Tables(t, o) && LowList(t, o) && Kept(s, o, t, o)
  {
    hide Tables, LowList;
    SameLowTables(s, o, PostAlloc(s, p));
    KeptSameLow(s, o, PostAlloc(s, p));
  }

  lemma TakePageTables(s: State, o: Own, p: nat, e: Entry)
    requires Tables(s, o) && LowList(s, o)
    requires IsUser(p) && Dir(s)[p / 1024] != NONE && !Dir(s)[p / 1024].shared
    ensures var t := TakePage(s, p, e);
      Ent(t, p) == e.(frame := PreAlloc(s).1) && EntSameBut(s, t, p) && Dir(t) == Dir(s)
    ensures Tables(TakePage(s, p, e), o) && LowList(TakePage(s, p, e), o)
    ensures Kept(s, o, TakePage(s, p, e), o)
  {
    hide Tables, LowList, Kept, PreAlloc, PostAlloc, Ent;
    var (a, f) := PreAlloc(s);
    PreAllocKept(s, o);
    SetEntTables(a, o, p, e.(frame := f));
    var b := SetEnt(a, p, e.(frame := f));
    var t := PostAlloc(b, p);
    PostAllocKept(b, o, p);
    KeptTrans(s, o, a, o, b, o);
    KeptTrans(s, o, b, o, t, o);
  }

  lemma TakePageWords(s: State, o: Own, p: nat, e: Entry)
    requires Tables(s, o) && LowList(s, o) && s.ml < U32
    requires IsUser(p) && Dir(s)[p / 1024] != NONE && !Dir(s)[p / 1024].shared
    ensures var t := TakePage(s, p, e); var f := PreAlloc(s).1;
      && t.high == s.high && t.mlOrig == s.mlOrig
      && t.ml == (if s.ml == 0 || s.ml == ML_EXCEEDED then ML_EXCEEDED else s.ml - 1)
      && t.aHigh == (if t.ml != ML_EXCEEDED && s.lHigh == 0 then s.aHigh + 1 else s.aHigh)
      && (t.ml != ML_EXCEEDED ==> t.lHigh == if s.lHigh != 0 then High(s, f)[0] else 0)
  {
    var (a, f) := PreAlloc(s);
    SameLowTables(s, o, a);
    SetEntWords(a, o, p, e.(frame := f));
  }

  ghost predicate CanTake(s: State, o: Own, p: nat, e: Entry) {
    && Inv(s, o) && IsUser(p) && p !in o.moved
    && Dir(s)[p / 1024] != NONE && !Dir(s)[p / 1024].shared
    && (Ent(s, p) == NONE || Ent(s, p).shared)
    && e.rest % 2 == 1 && !e.shared && !e.cow
  }

  lemma TakePageOwned(s: State, o: Own, p: nat, e: Entry)
    requires CanTake(s, o, p, e) && 0 < s.ml < ML_EXCEEDED
    ensures Owned(TakePage(s, p, e), TakePageOwn(s, o, p))
  {
    var t := TakePage(s, p, e);
    var o' := TakePageOwn(s, o, p);
    var f := PreAlloc(s).1;
    PreAllocFrame(s, o);
    TakePageTables(s, o, p, e);
    TakePageWords(s, o, p, e);
    TakePageList(s, o, t, o', f, p);
    TakePagePages(s, o, t, o', f, p);
    MappedStep(s, t, p);
  }

  /** A page that is absent or the snapshot's gets a frame of its own: the invariant goes over. */
  lemma TakePageInv(s: State, o: Own, p: nat, e: Entry)
    requires CanTake(s, o, p, e)
    ensures Inv(TakePage(s, p, e), TakePageOwn(s, o, p))
    ensures Kept(s, o, TakePage(s, p, e), TakePageOwn(s, o, p))
  {
    var t := TakePage(s, p, e);
    var o' := TakePageOwn(s, o, p);
    PreAllocFrame(s, o);
    TakePageTables(s, o, p, e);
    TakePageWords(s, o, p, e);
    SameOwnTables(t, o, o');
    EntriesStep(s, o, t, o', p);
    if 0 < s.ml < ML_EXCEEDED {
      TakePageOwned(s, o, p, e);
    }
  }

  // ---- giving a page back ----

  lemma FreePageList(s: State, o: Own, t: State, o': Own, f: nat)
    requires HighList(s, o) && f in o.high && o.high[f].At?
    requires t.lHigh == f && High(t, f)[0] == s.lHigh
    requires forall g: nat :: g != f ==> High(t, g) == High(s, g)
    requires o'.high == o.high[f := Free(|o.freeHigh|)] && o'.freeHigh == o.freeHigh + [f]
    ensures HighList(t, o')
  {
    forall k {:trigger Below(o'.freeHigh, k)} | 0 <= k < |o'.freeHigh|
      ensures High(t, o'.freeHigh[k])[0] == Below(o'.freeHigh, k)
    {
      assert k < |o.freeHigh| ==> Below(o'.freeHigh, k) == Below(o.freeHigh, k);
    }
  }

  lemma FreePagePages(s: State, o: Own, t: State, o': Own, p: nat)
    requires Pages(s, o) && IsUser(p) && EntSameBut(s, t, p)
    requires Ent(s, p) != NONE && !Ent(s, p).shared && Ent(t, p) == NONE
    requires o'.high == o.high[Ent(s, p).frame := Free(|o.freeHigh|)] && o'.highMark == o.highMark
    requires t.aHigh == s.aHigh
    ensures Pages(t, o')
  {
  }

  ghost predicate CanDrop(s: State, o: Own, p: nat) {
    && Inv(s, o) && IsUser(p)
    && Dir(s)[p / 1024] != NONE && !Dir(s)[p / 1024].shared
    && Ent(s, p) != NONE
  }

  /** What every step that only rewrites the word of one page, and data frames of the run, does
      to the tables. */
  lemma DropTables(s: State, a: State, o: Own, p: nat, e: Entry)
    requires Tables(s, o) && LowList(s, o) && SameLow(s, a)
    requires a.mlOrig == s.mlOrig && s.aHigh <= a.aHigh && (s.ml == ML_EXCEEDED ==> a.ml == ML_EXCEEDED)
    requires forall f: nat :: f < o.highMark ==> High(a, f) == High(s, f)
    requires IsUser(p) && Dir(s)[p / 1024] != NONE && !Dir(s)[p / 1024].shared
    ensures var t := SetEnt(a, p, e);
      && t == a.(low := t.low)
      && Ent(t, p) == e && EntSameBut(s, t, p) && Dir(t) == Dir(s)
    ensures Tables(SetEnt(a, p, e), o) && LowList(SetEnt(a, p, e), o)
    ensures Kept(s, o, SetEnt(a, p, e), o)
  {
    SameLowTables(s, o, a);
    KeptSameLow(s, o, a);
    SetEntTables(a, o, p, e);
    KeptTrans(s, o, a, o, SetEnt(a, p, e), o);
  }

  lemma FreePageWords(s: State, o: Own, p: nat)
    requires Tables(s, o) && LowList(s, o)
    requires IsUser(p) && Dir(s)[p / 1024] != NONE && !Dir(s)[p / 1024].shared
    requires o.highMark <= Ent(s, p).frame
    ensures var t := FreePage(s, p);
      && t == HighFree(s, Ent(s, p).frame).(low := t.low)
      && Ent(t, p) == NONE && EntSameBut(s, t, p) && Dir(t) == Dir(s)
    ensures Tables(FreePage(s, p), o) && LowList(FreePage(s, p), o)
    ensures Kept(s, o, FreePage(s, p), o)
  {
    DropTables(s, HighFree(s, Ent(s, p).frame), o, p, NONE);
  }

  lemma FreePageOwned(s: State, o: Own, p: nat, t: State)
    requires Owned(s, o) && IsUser(p) && EntSameBut(s, t, p) && s.ml < ML_EXCEEDED - 1
    requires Ent(s, p) != NONE && !Ent(s, p).shared && Ent(t, p) == NONE
    requires t == HighFree(s, Ent(s, p).frame).(low := t.low)
    ensures Owned(t, FreePageOwn(s, o, p))
  {
    var o' := FreePageOwn(s, o, p);
    FreePageList(s, o, t, o', Ent(s, p).frame);
    FreePagePages(s, o, t, o', p);
    MappedStep(s, t, p);
  }

  lemma FreePageRest(s: State, o: Own, p: nat, t: State)
    requires CanDrop(s, o, p) && p !in o.moved && !Ent(s, p).shared
    requires t == HighFree(s, Ent(s, p).frame).(low := t.low)
    requires Ent(t, p) == NONE && EntSameBut(s, t, p)
    requires Tables(t, o) && LowList(t, o)
    ensures Inv(t, FreePageOwn(s, o, p))
  {
    var o' := FreePageOwn(s, o, p);
    SameOwnTables(t, o, o');
    EntriesStep(s, o, t, o', p);
    if s.ml < ML_EXCEEDED - 1 {
      FreePageOwned(s, o, p, t);
    }
  }

  lemma FreePageInv(s: State, o: Own, p: nat)
    requires CanDrop(s, o, p) && p !in o.moved && !Ent(s, p).shared
    ensures Inv(FreePage(s, p), FreePageOwn(s, o, p))
    ensures Kept(s, o, FreePage(s, p), FreePageOwn(s, o, p))
    ensures Ent(FreePage(s, p), p) == NONE && EntSameBut(s, FreePage(s, p), p)
    ensures Dir(FreePage(s, p)) == Dir(s)
    ensures forall g: nat :: g != Ent(s, p).frame ==> High(FreePage(s, p), g) == High(s, g)
    ensures FreePage(s, p).ml == CreditMl(s).ml
  {
    assert EntryOk(o, p, Ent(s, p));
    FreePageWords(s, o, p);
    FreePageRest(s, o, p, FreePage(s, p));
  }

  lemma ForgetEntries(s: State, o: Own, t: State, o': Own, p: nat)
    requires Entries(s, o) && IsUser(p) && EntSameBut(s, t, p) && Ent(t, p) == NONE
    requires o'.highMark == o.highMark && o'.moved == o.moved - {p}
    ensures Entries(t, o')
  {
    forall q | FIRST_USER <= q < USER_END ensures EntryOk(o', q, Ent(t, q)) {
      assert EntryOk(o, q, Ent(s, q));
    }
  }

  lemma SharedStep(s: State, o: Own, t: State, o': Own, p: nat)
    requires Pages(s, o) && HighList(s, o) && IsUser(p) && EntSameBut(s, t, p)
    requires Ent(s, p).shared && (Ent(t, p) == NONE || Ent(t, p).shared)
    requires t.high == s.high && t.aHigh == s.aHigh && t.lHigh == s.lHigh
    requires o'.high == o.high && o'.freeHigh == o.freeHigh && o'.highMark == o.highMark
    ensures Pages(t, o') && HighList(t, o')
  {
  }

  lemma ForgetPageInv(s: State, o: Own, p: nat)
    requires CanDrop(s, o, p) && Ent(s, p).shared
    ensures var o' := o.(moved := o.moved - {p});
      Inv(ForgetPage(s, p), o') && Kept(s, o, ForgetPage(s, p), o')
    ensures Ent(ForgetPage(s, p), p) == NONE && EntSameBut(s, ForgetPage(s, p), p)
    ensures ForgetPage(s, p).high == s.high && Dir(ForgetPage(s, p)) == Dir(s)
    ensures ForgetPage(s, p).ml == CreditMl(s).ml
  {
    var t := ForgetPage(s, p);
    var o' := o.(moved := o.moved - {p});
    DropTables(s, CreditMl(s), o, p, NONE);
    SameOwnTables(t, o, o');
    ForgetEntries(s, o, t, o', p);
    if s.ml < ML_EXCEEDED - 1 {
      SharedStep(s, o, t, o', p);
      MappedStep(s, t, p);
    }
  }

  // ---- rights and contents ----

  lemma FlagsOwned(s: State, o: Own, t: State, p: nat)
    requires Pages(s, o) && HighList(s, o) && IsUser(p) && EntSameBut(s, t, p)
    requires Ent(s, p) != NONE && Ent(t, p) != NONE
    requires Ent(t, p).frame == Ent(s, p).frame && Ent(t, p).shared == Ent(s, p).shared
    requires t == s.(low := t.low)
    ensures Pages(t, o) && HighList(t, o)
  {
  }

  /** The flags of a mapped page change; its frame does not. */
  lemma FlagsInv(s: State, o: Own, p: nat, e: Entry)
    requires CanDrop(s, o, p) && p !in o.moved
    requires e.frame == Ent(s, p).frame && e.shared == Ent(s, p).shared && e != NONE && EntryOk(o, p, e)
    ensures Inv(SetEnt(s, p, e), o) && Kept(s, o, SetEnt(s, p, e), o)
    ensures Ent(SetEnt(s, p, e), p) == e && EntSameBut(s, SetEnt(s, p, e), p)
    ensures SetEnt(s, p, e) == s.(low := SetEnt(s, p, e).low) && Dir(SetEnt(s, p, e)) == Dir(s)
  {
    var t := SetEnt(s, p, e);
    DropTables(s, s, o, p, e);
    EntriesStep(s, o, t, o, p);
    if s.ml != ML_EXCEEDED {
      MappedStep(s, t, p);
      FlagsOwned(s, o, t, p);
    }
  }

  /** Stores to page `p` through its mapping. */
  function SetPage(s: State, p: nat, page: Page): State
    requires p < PAGES
  {
    s.(high := s.high[Ent(s, p).frame := page])
  }

  lemma SameEntsEntries(s: State, o: Own, t: State)
    requires forall q :: 0 <= q < PAGES ==> Ent(t, q) == Ent(s, q)
    ensures Entries(s, o) ==> Entries(t, o)
    ensures Pages(s, o) && t.aHigh == s.aHigh ==> Pages(t, o)
    ensures Mapped(t) == Mapped(s)
  {
    if Entries(s, o) {
      forall q | FIRST_USER <= q < USER_END ensures EntryOk(o, q, Ent(t, q)) {
        assert EntryOk(o, q, Ent(s, q));
      }
    }
  }

  lemma SetPageOwned(s: State, o: Own, t: State, p: nat)
    requires Pages(s, o) && HighList(s, o) && IsUser(p) && Ent(s, p) != NONE && !Ent(s, p).shared
    requires t == s.(high := t.high)
    requires forall g: nat :: g != Ent(s, p).frame ==> High(t, g) == High(s, g)
    ensures HighList(t, o)
  {
  }

  lemma SetPageInv(s: State, o: Own, p: nat, page: Page)
    requires Inv(s, o) && IsUser(p) && Ent(s, p) != NONE && !Ent(s, p).shared && p !in o.moved
    ensures Inv(SetPage(s, p, page), o) && Kept(s, o, SetPage(s, p, page), o)
    ensures forall q :: 0 <= q < PAGES ==> Ent(SetPage(s, p, page), q) == Ent(s, q)
    ensures Dir(SetPage(s, p, page)) == Dir(s)
  {
    var t := SetPage(s, p, page);
    assert EntryOk(o, p, Ent(s, p));
    SameLowTables(s, o, t);
    KeptSameLow(s, o, t);
    SameEntsEntries(s, o, t);
    if s.ml != ML_EXCEEDED {
      SetPageOwned(s, o, t, p);
    }
  }

  /** A step that changes the budget words alone. */
  lemma RebudgetParts(s: State, o: Own, t: State, o': Own)
    requires Inv(s, o) && t == s.(ml := t.ml, mlOrig := t.mlOrig) && o' == o.(drift := o'.drift)
    ensures Dir(t) == Dir(s)
    ensures forall q :: 0 <= q < PAGES ==> Ent(t, q) == Ent(s, q)
    ensures Tables(t, o') && LowList(t, o') && Entries(t, o') && Mapped(t) == Mapped(s)
    ensures s.ml != ML_EXCEEDED ==> Pages(t, o') && HighList(t, o')
  {
    hide Budget, KeptMemory;
    SameLowTables(s, o, t);
    SameOwnTables(t, o, o');
    SameEntsEntries(s, o, t);
    forall q | FIRST_USER <= q < USER_END ensures EntryOk(o', q, Ent(t, q)) {
      assert EntryOk(o, q, Ent(s, q));
    }
  }

  lemma RebudgetInv(s: State, o: Own, t: State, o': Own)
    requires Inv(s, o) && t == s.(ml := t.ml, mlOrig := t.mlOrig) && o' == o.(drift := o'.drift)
    requires t.ml < U32 && t.mlOrig < U32
    requires t.ml != ML_EXCEEDED ==> s.ml != ML_EXCEEDED && o'.drift == t.ml + |Mapped(s)| - t.mlOrig
    ensures Inv(t, o') && Dir(t) == Dir(s) && Mapped(t) == Mapped(s)
    ensures forall q :: 0 <= q < PAGES ==> Ent(t, q) == Ent(s, q)
    ensures KeptMemory(s, o, t, o')
  {
    RebudgetParts(s, o, t, o');
    assert SameLow(s, t);
    hide Tables, LowList, Entries, Pages, HighList, Ent;
  }
}
