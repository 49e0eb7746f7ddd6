/** The frozen address space: what cow_prepare establishes, what clone_paging starts each test
    from, and what pop_paging finds again. */
module Snapshot {
  import opened Integers
  import opened Machine
  import opened Ownership
  import opened PageOps
  import opened DataOps

  /** cow_prepare_tbl on one word: bit 2 moves to bit 512, bit 1024 is set. */
  function Prepared(e: Entry): Entry {
    if e == NONE then NONE else e.(shared := true, cow := e.cow || e.rw, rw := false)
  }

  /** The state between tests. Nothing in it can be written through a page table: every page of the
      program is the snapshot's, and so is every table but that of the first 4 MiB. */
  ghost predicate Frozen(s: State) {
    && s.ml < U32 && s.mlOrig < U32
    && 0 < s.cr3 < s.aLow && 0 < s.aHigh
    && Dir(s)[0] != NONE && !Dir(s)[0].shared && Dir(s)[0].rest % 2 == 1 && Dir(s)[0].rw
    && 0 < Dir(s)[0].frame < s.aLow && Dir(s)[0].frame != s.cr3
    && (forall d :: 768 <= d < 1024 ==>
          && Dir(s)[d] != NONE && !Dir(s)[d].shared
          && Dir(s)[d].frame < s.aLow && Dir(s)[d].frame != s.cr3 && Dir(s)[d].frame != Dir(s)[0].frame)
    && (forall d :: 1 <= d < 768 && Dir(s)[d] != NONE ==>
          && Dir(s)[d].shared && Dir(s)[d].rest % 2 == 1 && Dir(s)[d].rw
          && Dir(s)[d].frame < s.aLow && Dir(s)[d].frame != s.cr3 && Dir(s)[d].frame != Dir(s)[0].frame)
    && Ent(s, 1) != NONE && Ent(s, USER_END) != NONE
    && (forall p :: FIRST_USER <= p < USER_END && Ent(s, p) != NONE ==>
          Ent(s, p).rest % 2 == 1 && Ent(s, p).shared && !Ent(s, p).rw && Ent(s, p).frame < s.aHigh)
  }

  /** clone_paging: empty free lists, and a copy of the directory in the first fresh low frame. */
  function Cloned(s: State): State {
    s.(low := s.low[s.aLow := Dir(s)], cr3 := s.aLow, aLow := s.aLow + 1, lLow := 0, lHigh := 0)
  }

  ghost function CloneOwn(s: State): Own {
    Own(s.aLow + 1, s.aHigh, map[], map[], [], [], map d | 1 <= d < 768 && Dir(s)[d] != NONE :: Dir(s)[d],
        s.ml + |Mapped(s)| - s.mlOrig, {})
  }

  lemma CloneTables(s: State, t: State, o: Own)
    requires Frozen(s) && t == Cloned(s) && o == CloneOwn(s) && Dir(t) == Dir(s)
    ensures Tables(t, o) && LowList(t, o)
  {
    forall d | 1 <= d < 768 ensures DirEntryOk(t, o, d) {
    }
  }

  lemma CloneInv(s: State)
    requires Frozen(s)
    ensures Inv(Cloned(s), CloneOwn(s))
    ensures forall p :: 0 <= p < PAGES ==> Ent(Cloned(s), p) == Ent(s, p)
    ensures Dir(Cloned(s)) == Dir(s)
  {
    var t := Cloned(s);
    var o := CloneOwn(s);
    assert Dir(t) == Dir(s);
    assert LowSameBut(s, t, s.aLow);
    forall q | 0 <= q < PAGES ensures Ent(t, q) == Ent(s, q) {
      assert q / 1024 == 0 || 1 <= q / 1024 < 768 || 768 <= q / 1024 < 1024;
    }
    CloneTables(s, t, o);
    SameEntsEntries(s, o, t);
    forall p | FIRST_USER <= p < USER_END ensures EntryOk(o, p, Ent(t, p)) {
      assert Ent(t, p) == Ent(s, p);
    }
  }

  // ---- cow_prepare ----

  /** `u` is table `t` after cow_prepare_tbl from word `offset` on. */
  ghost predicate PreparedFrom(t: Table, u: Table, offset: nat) {
    forall i :: 0 <= i < 1024 ==> u[i] == if offset <= i then Prepared(t[i]) else t[i]
  }

  /** The frame of a table cow_prepare has already gone through. */
  ghost predicate TableDone(s: State, o: Own, f: nat, d: nat) {
    f == Dir(s)[0].frame || (f in o.low && o.low[f].At? && o.low[f].place < d)
  }

  /** cow_prepare has worked through directory entries 0 to `d - 1`. */
  ghost predicate PrepareDone(s: State, o: Own, t: State, d: nat) {
    && t == s.(low := t.low)
    && (forall d' :: 0 <= d' < 1024 ==>
          Dir(t)[d'] == if 1 <= d' < d && Dir(s)[d'] != NONE then Dir(s)[d'].(shared := true) else Dir(s)[d'])
    && PreparedFrom(Low(s, Dir(s)[0].frame), Low(t, Dir(s)[0].frame), 256)
    && (forall d' :: 1 <= d' < d && d' < 768 && Dir(s)[d'] != NONE ==>
          PreparedFrom(Low(s, Dir(s)[d'].frame), Low(t, Dir(s)[d'].frame), 0))
    && (forall f: nat :: f != s.cr3 && !TableDone(s, o, f, d) ==> Low(t, f) == Low(s, f))
  }

  lemma PrepareStart(s: State, o: Own, t: State)
    requires Tables(s, o) && t == s.(low := s.low[Dir(s)[0].frame := Low(t, Dir(s)[0].frame)])
    requires PreparedFrom(Low(s, Dir(s)[0].frame), Low(t, Dir(s)[0].frame), 256)
    ensures PrepareDone(s, o, t, 1)
  {
  }

  lemma PrepareFrame(s: State, o: Own, t: State, d: nat)
    requires Tables(s, o) && o.snap == map[] && 1 <= d < 768 && PrepareDone(s, o, t, d) && Dir(t)[d] != NONE
    ensures Dir(t)[d].frame != t.cr3
  {
    assert DirEntryOk(s, o, d);
  }

  lemma PrepareTurn(s: State, o: Own, t: State, u: State, d: nat)
    requires Tables(s, o) && o.snap == map[] && 1 <= d < 768 && PrepareDone(s, o, t, d)
    requires if Dir(t)[d] == NONE then u == t
             else u == SetDir(t.(low := t.low[Dir(t)[d].frame := Low(u, Dir(t)[d].frame)]), d,
               Dir(t)[d].(shared := true))
    requires Dir(t)[d] != NONE ==> PreparedFrom(Low(t, Dir(t)[d].frame), Low(u, Dir(t)[d].frame), 0)
    ensures PrepareDone(s, o, u, d + 1)
  {
    assert DirEntryOk(s, o, d);
    if Dir(s)[d] != NONE {
      var f := Dir(s)[d].frame;
      TableFrames(s, o, d);
      assert f != s.cr3 && Low(t, f) == Low(s, f);
      assert Dir(u) == Dir(t)[d := Dir(s)[d].(shared := true)];
      forall d' | 1 <= d' < d + 1 && d' < 768 && Dir(s)[d'] != NONE
        ensures PreparedFrom(Low(s, Dir(s)[d'].frame), Low(u, Dir(s)[d'].frame), 0)
      {
        if d' < d {
          assert Dir(s)[d'].frame != f;
        }
      }
    }
  }

  /** The snapshot, page by page: prepared words over unchanged frames. */
  lemma PrepareWords(s: State, o: Own, t: State)
    requires Tables(s, o) && o.snap == map[] && PrepareDone(s, o, t, 768)
    ensures forall p :: 0 <= p < PAGES ==> Ent(t, p) == if IsUser(p) then Prepared(Ent(s, p)) else Ent(s, p)
  {
    forall p | 0 <= p < PAGES ensures Ent(t, p) == if IsUser(p) then Prepared(Ent(s, p)) else Ent(s, p) {
      var d := p / 1024;
      if d == 0 {
      } else if d < 768 {
        assert DirEntryOk(s, o, d);
      } else {
        assert Dir(t)[d] == Dir(s)[d];
        assert !TableDone(s, o, Dir(s)[d].frame, 768);
      }
    }
  }

  lemma PrepareFrozen(s: State, o: Own, t: State)
    requires Inv(s, o) && s.ml != ML_EXCEEDED && o.snap == map[] && o.moved == {} && PrepareDone(s, o, t, 768)
    ensures Frozen(t)
  {
    hide LowList, HighList, Budget;
    PrepareWords(s, o, t);
    forall p | FIRST_USER <= p < USER_END && Ent(t, p) != NONE
      ensures Ent(t, p).rest % 2 == 1 && Ent(t, p).shared && !Ent(t, p).rw && Ent(t, p).frame < s.aHigh
    {
      assert EntryOk(o, p, Ent(s, p));
    }
    forall d | 1 <= d < 768 && Dir(t)[d] != NONE
      ensures Dir(t)[d].shared && Dir(t)[d].frame < t.aLow && Dir(t)[d].frame != t.cr3
      ensures Dir(t)[d].frame != Dir(t)[0].frame && Dir(t)[d].rest % 2 == 1 && Dir(t)[d].rw
    {
      assert DirEntryOk(s, o, d);
    }
  }

  /** Preparing the snapshot is invisible to the program. */
  lemma PrepareView(s: State, o: Own, t: State)
    requires Tables(s, o) && o.snap == map[] && PrepareDone(s, o, t, 768)
    ensures View(t) == View(s) && Mapped(t) == Mapped(s)
  {
    PrepareWords(s, o, t);
  }

  lemma PrepareLists(s: State, o: Own, t: State)
    requires Tables(s, o) && LowList(s, o) && PrepareDone(s, o, t, 768)
    ensures LowList(t, o)
    ensures HighList(s, o) ==> HighList(t, o)
  {
    forall k {:trigger Below(o.freeLow, k)} | 0 <= k < |o.freeLow|
      ensures Low(t, o.freeLow[k]) == Low(s, o.freeLow[k])
    {
      assert o.low[o.freeLow[k]] == Free(k) && !TableDone(s, o, o.freeLow[k], 768);
    }
  }

  // ---- pop_paging ----

  /** The directory and the six allocator words of `s` again, over the memory of `t`. */
  function Popped(s: State, t: State): State {
    State(t.low, t.high, s.cr3, s.aLow, s.aHigh, s.lLow, s.lHigh, s.ml, s.mlOrig)
  }

  /** Registers, allocator words and every frame of the snapshot are those of `s`; of the table of
      the first 4 MiB, the kernel's words are. */
  ghost predicate Restored(s: State, u: State) {
    && u == Popped(s, u)
    && (forall f: nat :: f < s.aLow && f != Dir(s)[0].frame ==> Low(u, f) == Low(s, f))
    && (forall i :: 0 <= i < 256 ==> Low(u, Dir(s)[0].frame)[i] == Low(s, Dir(s)[0].frame)[i])
    && (forall f: nat :: f < s.aHigh ==> High(u, f) == High(s, f))
  }

  /** The program's words for the pages from 1 to 4 MiB are the same. */
  ghost predicate LowPagesKept(s: State, t: State) {
    forall p :: FIRST_USER <= p < 1024 ==> Ent(t, p) == Ent(s, p)
  }

  /** Whatever a test did, pop_paging finds the snapshot again. */
  lemma PopRestores(s: State, t: State, o': Own)
    requires Frozen(s) && KeptMemory(Cloned(s), CloneOwn(s), t, o')
    ensures Restored(s, Popped(s, t))
  {
    CloneInv(s);
    var c := Cloned(s);
    var u := Popped(s, t);
    assert forall f: nat :: f < s.aLow ==> Low(c, f) == Low(s, f);
    forall f: nat | f < s.aHigh ensures High(u, f) == High(s, f) {
      assert High(t, f) == High(c, f);
    }
  }

  /** The snapshot is whole again, table of the first 4 MiB included, exactly when the test left
      the words of the pages from 1 to 4 MiB alone. */
  lemma RestoredExactly(s: State, t: State, o': Own)
    requires Frozen(s) && KeptMemory(Cloned(s), CloneOwn(s), t, o')
    ensures Low(t, Dir(s)[0].frame) == Low(s, Dir(s)[0].frame) <==> LowPagesKept(s, t)
  {
    PopRestores(s, t, o');
    CloneInv(s);
    var f := Dir(s)[0].frame;
    assert Dir(t)[0] == Dir(s)[0];
    if LowPagesKept(s, t) {
      forall i | 0 <= i < 1024 ensures Low(t, f)[i] == Low(s, f)[i] {
        if i < 256 {
          assert Low(Popped(s, t), f)[i] == Low(s, f)[i];
        } else {
          assert Ent(t, i) == Ent(s, i);
        }
      }
    }
  }

  /** A whole snapshot is frozen again and shows every page as it was. */
  lemma RestoredFrozen(s: State, u: State)
    requires Frozen(s) && Restored(s, u) && Low(u, Dir(s)[0].frame) == Low(s, Dir(s)[0].frame)
    ensures forall p :: 0 <= p < PAGES ==> Ent(u, p) == Ent(s, p)
    ensures Frozen(u) && View(u) == View(s) && Mapped(u) == Mapped(s)
  {
    assert Dir(u) == Dir(s);
    forall p | 0 <= p < PAGES ensures Ent(u, p) == Ent(s, p) {
      assert p / 1024 == 0 || 1 <= p / 1024 < 768 || 768 <= p / 1024 < 1024;
    }
  }

  /** The free lists of the snapshot: both in-page chains run through exactly the free frames that
      `o` names, and every frame `o` names is one pop_paging keeps. */
  ghost predicate Chains(s: State, o: Own) {
    && LowList(s, o) && HighList(s, o)
    && (forall f: nat :: f in o.low ==> f < s.aLow && f != Dir(s)[0].frame)
    && (forall f: nat :: f in o.high ==> f < s.aHigh)
  }

  /** The free lists of the run before the tests are those of the snapshot. */
  lemma PrepareChains(s: State, o: Own, t: State)
    requires Inv(s, o) && s.ml != ML_EXCEEDED && PrepareDone(s, o, t, 768)
    ensures Chains(t, o)
  {
    PrepareLists(s, o, t);
  }

  /** pop_paging finds both free lists as the chains they were, whatever the test did. */
  lemma RestoredChains(s: State, u: State, o: Own)
    requires Frozen(s) && Restored(s, u) && Chains(s, o)
    ensures Chains(u, o)
  {
    assert Dir(u) == Dir(s);
    forall k {:trigger Below(o.freeLow, k)} | 0 <= k < |o.freeLow|
      ensures Low(u, o.freeLow[k]) == Low(s, o.freeLow[k])
    {
      assert o.freeLow[k] in o.low;
    }
    forall k {:trigger Below(o.freeHigh, k)} | 0 <= k < |o.freeHigh|
      ensures High(u, o.freeHigh[k]) == High(s, o.freeHigh[k])
    {
      assert o.freeHigh[k] in o.high;
    }
  }

  lemma RestoredTrans(s: State, t: State, u: State)
    requires Restored(s, t) && Restored(t, u) && Dir(t)[0] == Dir(s)[0]
    ensures Restored(s, u)
  {
  }
}
