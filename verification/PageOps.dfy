/** The small steps of kernel/alloc.c and kernel/paging.c as functions on the machine state, and
    what each does to the invariant. The methods of class Kernel are proved against them. */
module PageOps {
  import opened Machine
  import opened Ownership

  // ---- low memory: tables ----

  function LowAlloc(s: State): (State, nat) {
    if s.lLow != 0 then
      (s.(lLow := Low(s, s.lLow)[0].frame, low := s.low[s.lLow := EmptyTable()]), s.lLow)
    else
      (s.(aLow := s.aLow + 1), s.aLow)
  }

  function LowFree(s: State, f: nat): State {
    s.(low := s.low[f := Low(s, f)[0 := Link(s.lLow)]], lLow := f)
  }

  /** get_cow: the directory word itself when it is a private table, else a private copy. */
  function GetCow(s: State, e: Entry): (State, Entry) {
    if e != NONE && !e.shared then
      (s, e)
    else
      var page := if e == NONE then EmptyTable() else Low(s, e.frame);
      var (t, f) := LowAlloc(s);
      (t.(low := t.low[f := page]), Entry(f, false, false, true, USER_BITS))
  }

  /** `LINEAR(cr3)[d] = get_cow(LINEAR(cr3)[d])` */
  function PrivateDir(s: State, d: nat): State
    requires d < 1024
  {
    var (t, e) := GetCow(s, Dir(s)[d]);
    SetDir(t, d, e)
  }

  ghost function LowAllocOwn(s: State, o: Own, d: nat): Own {
    o.(low := o.low[LowAlloc(s).1 := At(d)],
       freeLow := if o.freeLow == [] then [] else o.freeLow[..|o.freeLow| - 1])
  }

  ghost function PrivateDirOwn(s: State, o: Own, d: nat): Own
    requires d < 1024
  {
    if Dir(s)[d] != NONE && !Dir(s)[d].shared then o else LowAllocOwn(s, o, d)
  }

  /** The tables that a write to a private table must not be: each is another frame. */
  lemma TableFrames(s: State, o: Own, d: nat)
    requires Tables(s, o) && d < 768 && Dir(s)[d] != NONE && !Dir(s)[d].shared
    ensures Dir(s)[d].frame != s.cr3
    ensures forall d' :: 0 <= d' < 1024 && d' != d && Dir(s)[d'] != NONE ==> Dir(s)[d'].frame != Dir(s)[d].frame
    ensures 1 <= d ==> Dir(s)[d].frame in o.low && o.low[Dir(s)[d].frame] == At(d)
  {
    if d != 0 {
      assert DirEntryOk(s, o, d);
    }
    forall d' | 0 <= d' < 1024 && d' != d && Dir(s)[d'] != NONE
      ensures Dir(s)[d'].frame != Dir(s)[d].frame
    {
      if 1 <= d' < 768 {
        assert DirEntryOk(s, o, d');
      }
    }
  }

  lemma SetEntWords(s: State, o: Own, p: nat, e: Entry)
    requires Tables(s, o) && IsUser(p) && Dir(s)[p / 1024] != NONE && !Dir(s)[p / 1024].shared
    ensures Dir(SetEnt(s, p, e)) == Dir(s)
    ensures forall q :: 0 <= q < PAGES ==> Ent(SetEnt(s, p, e), q) == if q == p then e else Ent(s, q)
  {
    TableFrames(s, o, p / 1024);
    var t := SetEnt(s, p, e);
    assert Dir(t) == Dir(s);
    forall q | 0 <= q < PAGES ensures Ent(t, q) == if q == p then e else Ent(s, q) {
      if q / 1024 != p / 1024 && Dir(s)[q / 1024] != NONE {
        assert Dir(s)[q / 1024].frame != TableOf(s, p);
      }
    }
  }

  /** A directory that did not change keeps the table invariant. */
  lemma SameDirTables(s: State, o: Own, t: State)
    requires Tables(s, o) && Dir(t) == Dir(s) && t.cr3 == s.cr3 && t.aLow == s.aLow
    ensures Tables(t, o)
  {
    forall d | 1 <= d < 768 ensures DirEntryOk(t, o, d) {
      assert DirEntryOk(s, o, d);
    }
  }

  /** Every low frame but `f` is as it was. */
  ghost predicate LowSameBut(s: State, t: State, f: nat) {
    forall g: nat :: g != f ==> Low(t, g) == Low(s, g)
  }

  lemma LowListFrame(s: State, o: Own, t: State, f: nat)
    requires LowList(s, o) && t.lLow == s.lLow && t.aLow == s.aLow
    requires LowSameBut(s, t, f) && (f in o.low ==> o.low[f].At?)
    ensures LowList(t, o)
  {
  }

  lemma KeptFrame(s: State, o: Own, t: State)
    requires Pinned(s, o)
    requires t == s.(low := t.low) && Dir(t) == Dir(s)
    requires exists f: nat :: LowSameBut(s, t, f) && (f >= o.lowMark || f == Dir(s)[0].frame)
    requires forall i :: 0 <= i < 256 ==> Low(t, Dir(s)[0].frame)[i] == Low(s, Dir(s)[0].frame)[i]
    ensures Kept(s, o, t, o)
  {
  }

  lemma SetEntTables(s: State, o: Own, p: nat, e: Entry)
    requires Tables(s, o) && LowList(s, o)
    requires IsUser(p) && Dir(s)[p / 1024] != NONE && !Dir(s)[p / 1024].shared
    ensures Dir(SetEnt(s, p, e)) == Dir(s)
    ensures forall q :: 0 <= q < PAGES ==> Ent(SetEnt(s, p, e), q) == if q == p then e else Ent(s, q)
    ensures Tables(SetEnt(s, p, e), o) && LowList(SetEnt(s, p, e), o)
    ensures Kept(s, o, SetEnt(s, p, e), o)
  {
    SetEntWords(s, o, p, e);
    var t := SetEnt(s, p, e);
    SameDirTables(s, o, t);
    TableFrames(s, o, p / 1024);
    var f := TableOf(s, p);
    assert LowSameBut(s, t, f);
    LowListFrame(s, o, t, f);
    KeptFrame(s, o, t);
  }

  // ---- the private copy of a table ----

  lemma PopList(s: State, o: Own, t: State, o': Own, d: nat)
    requires LowList(s, o) && o.freeLow != []
    requires LowSameBut(s, t, o.freeLow[|o.freeLow| - 1])
    requires t.lLow == Low(s, o.freeLow[|o.freeLow| - 1])[0].frame
    requires o'.freeLow == o.freeLow[..|o.freeLow| - 1] && o'.low == o.low[o.freeLow[|o.freeLow| - 1] := At(d)]
    ensures LowList(t, o')
  {
    var n := |o.freeLow| - 1;
    var x := Below(o.freeLow, n);
    forall k {:trigger Below(o'.freeLow, k)} | 0 <= k < n
      ensures Low(t, o'.freeLow[k])[0] == Link(Below(o'.freeLow, k))
    {
      assert Below(o'.freeLow, k) == Below(o.freeLow, k);
      assert o.freeLow[k] != o.freeLow[n];
    }
  }

  lemma LowAllocList(s: State, o: Own, d: nat)
    requires LowList(s, o) && 0 < o.lowMark <= s.aLow
    requires forall f: nat :: f in o.low <==> o.lowMark <= f < s.aLow
    ensures var f := LowAlloc(s).1;
      && (f in o.low ==> o.low[f].Free?) && o.lowMark <= f <= s.aLow
      && LowAlloc(s).0.aLow == if f < s.aLow then s.aLow else f + 1
    ensures LowSameBut(s, LowAlloc(s).0, LowAlloc(s).1)
    ensures if s.lLow == 0 then LowAlloc(s).1 == s.aLow
            else LowAlloc(s).1 == s.lLow && forall i :: 0 <= i < 1024 ==> Low(LowAlloc(s).0, s.lLow)[i] == NONE
    ensures LowList(LowAlloc(s).0, LowAllocOwn(s, o, d))
  {
    var n := |o.freeLow|;
    if n == 0 {
    } else {
      var f := o.freeLow[n - 1];
      assert o.low[f] == Free(n - 1);
      PopList(s, o, LowAlloc(s).0, LowAllocOwn(s, o, d), d);
    }
  }

  /** A fresh frame `f` filled with `page` becomes the table of directory entry `d`. */
  lemma NewTable(s: State, o: Own, t: State, o': Own, d: nat, f: nat, page: Table)
    requires Tables(s, o) && 1 <= d < 768 && (Dir(s)[d] == NONE || Dir(s)[d].shared)
    requires (f in o.low ==> o.low[f].Free?) && o.lowMark <= f <= s.aLow && t.cr3 == s.cr3
    requires o'.low == o.low[f := At(d)] && o'.lowMark == o.lowMark && o'.snap == o.snap
    requires t.aLow == if f < s.aLow then s.aLow else f + 1
    requires forall g: nat :: g != f && g != s.cr3 ==> Low(t, g) == Low(s, g)
    requires Dir(t) == Dir(s)[d := Entry(f, false, false, true, USER_BITS)]
    requires Low(t, f) == page && page == if Dir(s)[d] == NONE then EmptyTable() else Low(s, Dir(s)[d].frame)
    ensures Tables(t, o')
    ensures forall p :: 0 <= p < PAGES ==> Ent(t, p) == Ent(s, p)
  {
    forall d' | 1 <= d' < 768 ensures DirEntryOk(t, o', d') {
      assert DirEntryOk(s, o, d');
    }
    forall q | 0 <= q < PAGES ensures Ent(t, q) == Ent(s, q) {
      if q / 1024 != d && Dir(s)[q / 1024] != NONE {
        assert 1 <= q / 1024 < 768 ==> DirEntryOk(s, o, q / 1024);
        assert Dir(s)[q / 1024].frame != f && Dir(s)[q / 1024].frame != s.cr3;
      }
    }
  }

  lemma PrivateDirShape(s: State, o: Own, d: nat)
    requires Tables(s, o) && LowList(s, o) && d < 1024
    ensures var t := PrivateDir(s, d);
      && t == s.(low := t.low, aLow := t.aLow, lLow := t.lLow)
      && Dir(t) == Dir(s)[d := Dir(t)[d]]
      && Dir(t)[d] != NONE && !Dir(t)[d].shared
  {
    var t := PrivateDir(s, d);
    if Dir(s)[d] == NONE || Dir(s)[d].shared {
      LowAllocList(s, o, d);
    }
  }

  /** get_cow on entry `d`, step by step: the frame, its contents, the directory word. */
  lemma NewDirShape(s: State, o: Own, d: nat)
    requires Tables(s, o) && LowList(s, o) && 1 <= d < 768 && (Dir(s)[d] == NONE || Dir(s)[d].shared)
    ensures
      var (a, f) := LowAlloc(s);
      var page := if Dir(s)[d] == NONE then EmptyTable() else Low(s, Dir(s)[d].frame);
      var b := a.(low := a.low[f := page]);
      && f != s.cr3 && Dir(b) == Dir(s)
      && PrivateDir(s, d) == SetDir(b, d, Entry(f, false, false, true, USER_BITS))
  {
    LowAllocList(s, o, d);
  }

  lemma PrivateDirList(s: State, o: Own, d: nat)
    requires Tables(s, o) && LowList(s, o) && 1 <= d < 768 && (Dir(s)[d] == NONE || Dir(s)[d].shared)
    ensures LowList(PrivateDir(s, d), PrivateDirOwn(s, o, d))
  {
    var o' := PrivateDirOwn(s, o, d);
    LowAllocList(s, o, d);
    var (a, f) := LowAlloc(s);
    var page := if Dir(s)[d] == NONE then EmptyTable() else Low(s, Dir(s)[d].frame);
    var b := a.(low := a.low[f := page]);
    NewDirShape(s, o, d);
    hide LowList, LowAlloc, Ent;
    assert LowSameBut(a, b, f);
    LowListFrame(a, o', b, f);
    assert LowSameBut(b, PrivateDir(s, d), s.cr3);
    LowListFrame(b, o', PrivateDir(s, d), s.cr3);
  }

  lemma PrivateDirNew(s: State, o: Own, d: nat)
    requires Tables(s, o) && LowList(s, o) && 1 <= d < 768 && (Dir(s)[d] == NONE || Dir(s)[d].shared)
    ensures Tables(PrivateDir(s, d), PrivateDirOwn(s, o, d))
    ensures LowList(PrivateDir(s, d), PrivateDirOwn(s, o, d))
    ensures forall p :: 0 <= p < PAGES ==> Ent(PrivateDir(s, d), p) == Ent(s, p)
    ensures s.aLow <= PrivateDir(s, d).aLow
    ensures forall f: nat :: f < o.lowMark && f != s.cr3 ==> Low(PrivateDir(s, d), f) == Low(s, f)
  {
    PrivateDirList(s, o, d);
    LowAllocList(s, o, d);
    var (a, f) := LowAlloc(s);
    var page := if Dir(s)[d] == NONE then EmptyTable() else Low(s, Dir(s)[d].frame);
    NewDirShape(s, o, d);
    hide LowList, LowAlloc;
    NewTable(s, o, PrivateDir(s, d), PrivateDirOwn(s, o, d), d, f, page);
  }

  lemma PrivateDirTables(s: State, o: Own, d: nat)
    requires Tables(s, o) && LowList(s, o) && d < 1024
    ensures var t := PrivateDir(s, d);
      && t == s.(low := t.low, aLow := t.aLow, lLow := t.lLow)
      && Dir(t) == Dir(s)[d := Dir(t)[d]]
      && Dir(t)[d] != NONE && !Dir(t)[d].shared
    ensures Tables(PrivateDir(s, d), PrivateDirOwn(s, o, d))
    ensures LowList(PrivateDir(s, d), PrivateDirOwn(s, o, d))
    ensures forall p :: 0 <= p < PAGES ==> Ent(PrivateDir(s, d), p) == Ent(s, p)
    ensures Kept(s, o, PrivateDir(s, d), PrivateDirOwn(s, o, d))
  {
    var t := PrivateDir(s, d);
    PrivateDirShape(s, o, d);
    if Dir(s)[d] != NONE && !Dir(s)[d].shared {
      assert Dir(t) == Dir(s);
      assert LowSameBut(s, t, s.cr3);
      SameDirTables(s, o, t);
      LowListFrame(s, o, t, s.cr3);
    } else {
      PrivateDirNew(s, o, d);
    }
  }

  // ---- giving a table back ----

  /** lowmem_free_page of the table of entry `d`, and `e` in its place. */
  function DropTable(s: State, d: nat, e: Entry): State
    requires d < 1024
  {
    SetDir(LowFree(s, Dir(s)[d].frame), d, e)
  }

  ghost function DropTableOwn(s: State, o: Own, d: nat): Own
    requires d < 1024
  {
    o.(low := o.low[Dir(s)[d].frame := Free(|o.freeLow|)], freeLow := o.freeLow + [Dir(s)[d].frame])
  }

  lemma PushList(s: State, o: Own, t: State, o': Own, f: nat)
    requires LowList(s, o) && f in o.low && o.low[f].At?
    requires LowSameBut(s, t, f) && t.lLow == f && Low(t, f)[0] == Link(s.lLow)
    requires o'.freeLow == o.freeLow + [f] && o'.low == o.low[f := Free(|o.freeLow|)]
    ensures LowList(t, o')
  {
    forall k {:trigger Below(o'.freeLow, k)} | 0 <= k < |o'.freeLow|
      ensures Low(t, o'.freeLow[k])[0] == Link(Below(o'.freeLow, k))
    {
      assert k < |o.freeLow| ==> Below(o'.freeLow, k) == Below(o.freeLow, k);
    }
  }

  /** `e` means the same as the private table of entry `d`. */
  ghost predicate SameTable(s: State, d: nat, e: Entry)
    requires d < 1024
  {
    forall i :: 0 <= i < 1024 ==>
      Low(s, Dir(s)[d].frame)[i] == if e == NONE then NONE else Low(s, e.frame)[i]
  }

  lemma DropTableWords(s: State, o: Own, t: State, o': Own, d: nat, e: Entry)
    requires Tables(s, o) && 1 <= d < 768 && Dir(s)[d] != NONE && !Dir(s)[d].shared
    requires e == NONE || SnapshotDir(s, o, d, e)
    requires SameTable(s, d, e)
    requires forall g: nat :: g != Dir(s)[d].frame && g != s.cr3 ==> Low(t, g) == Low(s, g)
    requires Dir(t) == Dir(s)[d := e] && t.cr3 == s.cr3 && t.aLow == s.aLow
    requires o'.low == o.low[Dir(s)[d].frame := Free(|o.freeLow|)] && o'.lowMark == o.lowMark && o'.snap == o.snap
    ensures Tables(t, o')
    ensures forall p :: 0 <= p < PAGES ==> Ent(t, p) == Ent(s, p)
  {
    TableFrames(s, o, d);
    forall d' | 1 <= d' < 768 ensures DirEntryOk(t, o', d') {
      assert DirEntryOk(s, o, d');
    }
    forall q | 0 <= q < PAGES ensures Ent(t, q) == Ent(s, q) {
      if q / 1024 != d && Dir(s)[q / 1024] != NONE {
        assert 1 <= q / 1024 < 768 ==> DirEntryOk(s, o, q / 1024);
        assert Dir(s)[q / 1024].frame != s.cr3;
      }
    }
  }

  lemma DropTableTables(s: State, o: Own, d: nat, e: Entry)
    requires Tables(s, o) && LowList(s, o) && 1 <= d < 768 && Dir(s)[d] != NONE && !Dir(s)[d].shared
    requires e == NONE || SnapshotDir(s, o, d, e)
    requires SameTable(s, d, e)
    ensures var t := DropTable(s, d, e); t == s.(low := t.low, lLow := t.lLow) && Dir(t) == Dir(s)[d := e]
    ensures Tables(DropTable(s, d, e), DropTableOwn(s, o, d))
    ensures LowList(DropTable(s, d, e), DropTableOwn(s, o, d))
    ensures forall p :: 0 <= p < PAGES ==> Ent(DropTable(s, d, e), p) == Ent(s, p)
    ensures Kept(s, o, DropTable(s, d, e), DropTableOwn(s, o, d))
  {
    TableFrames(s, o, d);
    var o' := DropTableOwn(s, o, d);
    var f := Dir(s)[d].frame;
    var a := LowFree(s, f);
    var t := DropTable(s, d, e);
    assert Dir(a) == Dir(s);
    assert LowSameBut(s, a, f);
    PushList(s, o, a, o', f);
    assert LowSameBut(a, t, s.cr3);
    LowListFrame(a, o', t, s.cr3);
    DropTableWords(s, o, t, o', d, e);
  }
}
