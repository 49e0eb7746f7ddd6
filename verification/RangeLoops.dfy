/** The loop invariants of the range operations: how far a range has been worked through. */
module RangeLoops {
  import opened Machine
  import opened Ownership
  import opened PageOps
  import opened DataOps
  import opened Ranges
  import opened MapSteps

  ghost predicate InUser(from: nat, to: nat) {
    FIRST_USER <= from <= to <= USER_END
  }

  /** The kernel is still itself: invariant, and nothing below the marks has changed. */
  ghost predicate Going(s: State, o: Own, t: State, o': Own) {
    Inv(t, o') && Kept(s, o, t, o') && o'.moved <= o.moved
  }

  lemma GoingSelf(s: State, o: Own)
    requires Inv(s, o)
    ensures Going(s, o, s, o)
  {
  }

  /** map_range has worked through the pages from `from` to `cur`. */
  ghost predicate MapDone(s: State, o: Own, t: State, o': Own, from: nat, cur: nat, rw: bool)
    requires cur <= PAGES
  {
    && MapRel(s, t, from, cur, rw)
    && Charged(s, t, Need(s, from, cur))
    && (t.ml != ML_EXCEEDED ==> o'.drift == o.drift - Shared(s, from, cur))
    && (forall p :: from <= p < cur ==> !FaultsAt(s, from, p))
  }

  lemma MapDoneFault(s: State, o: Own, t: State, o': Own, from: nat, cur: nat, rw: bool)
    requires InUser(from, cur) && cur < USER_END && MapDone(s, o, t, o', from, cur, rw)
    ensures FaultsAt(t, cur, cur) <==> FaultsAt(s, from, cur)
    ensures Ent(t, cur) == Ent(s, cur)
  {
    assert Same(s, t, cur);
    var pg := Ent(s, cur).frame;
    if pg < PAGES {
      assert if from <= pg < cur then MappedPage(s, t, pg, rw) else Same(s, t, pg);
    }
  }

  lemma MapDoneStep(s: State, o: Own, t: State, o': Own, u: State, o'': Own, from: nat, cur: nat, rw: bool)
    requires InUser(from, cur) && cur < USER_END && MapDone(s, o, t, o', from, cur, rw)
    requires !FaultsAt(t, cur, cur)
    requires MapRel(t, u, cur, cur + 1, rw) && Charged(t, u, Need(t, cur, cur + 1))
    requires u.ml != ML_EXCEEDED ==> o''.drift == o'.drift - Shared(t, cur, cur + 1)
    ensures MapDone(s, o, u, o'', from, cur + 1, rw)
  {
    MapDoneFault(s, o, t, o', from, cur, rw);
    MapTrans(s, t, u, from, cur, cur + 1, rw);
    assert Need(s, from, cur + 1) == Need(s, from, cur) + Need(t, cur, cur + 1);
    assert Shared(s, from, cur + 1) == Shared(s, from, cur) + Shared(t, cur, cur + 1);
  }

  /** One turn of map_pgdir, for the loop invariant. */
  lemma MapTurn(s: State, o: Own, t: State, o': Own, from: nat, p: nat, rw: bool)
    requires Going(s, o, t, o') && o.moved == {} && InUser(from, p) && p < USER_END && MapDone(s, o, t, o', from, p, rw)
    requires Dir(t)[p / 1024] != NONE && !Dir(t)[p / 1024].shared
    requires !FaultsAt(t, p, p)
    ensures Going(s, o, MapWord(t, p, rw), MapOwn(t, o', p))
    ensures MapDone(s, o, MapWord(t, p, rw), MapOwn(t, o', p), from, p + 1, rw)
    ensures Dir(MapWord(t, p, rw)) == Dir(t)
  {
    MapStep(t, o', p, rw);
    MapDoneStep(s, o, t, o', MapWord(t, p, rw), MapOwn(t, o', p), from, p, rw);
    KeptTrans(s, o, t, o', MapWord(t, p, rw), MapOwn(t, o', p));
  }

  /** A change of tables that no page shows leaves the work done. */
  lemma MapDoneSame(s: State, o: Own, t: State, o': Own, u: State, o'': Own, from: nat, cur: nat, rw: bool)
    requires InUser(from, cur) && MapDone(s, o, t, o', from, cur, rw)
    requires (forall p :: 0 <= p < PAGES ==> Same(t, u, p)) && u.ml == t.ml && o''.drift == o'.drift
    ensures MapDone(s, o, u, o'', from, cur, rw)
  {
    MapTrans(s, t, u, from, cur, cur, rw);
  }

  lemma GoingTrans(s: State, o: Own, t: State, o': Own, u: State, o'': Own)
    requires Going(s, o, t, o') && Going(t, o', u, o'')
    ensures Going(s, o, u, o'')
  {
  }

  /** The part of a range that lies in the table of directory entry `d`. */
  function LowEnd(d: nat, from: nat): nat {
    if from < d * 1024 then d * 1024 else from
  }

  function HighEnd(d: nat, to: nat): nat {
    if to > d * 1024 + 1024 then d * 1024 + 1024 else to
  }

  /** Entry `d` covers some page of the range, or the place of an empty range. */
  ghost predicate Covers(d: nat, from: nat, to: nat) {
    InUser(from, to) && from / 1024 <= d <= (to - 1) / 1024
  }

  lemma CoversBounds(d: nat, from: nat, to: nat)
    requires Covers(d, from, to)
    ensures d < 768 && d * 1024 < to && from < d * 1024 + 1024
    ensures FIRST_USER <= from <= LowEnd(d, from) <= HighEnd(d, to) <= to <= USER_END
    ensures d < (to - 1) / 1024 ==> HighEnd(d, to) == LowEnd(d + 1, from)
    ensures d == (to - 1) / 1024 ==> HighEnd(d, to) == to
    ensures d == from / 1024 ==> LowEnd(d, from) == from
  {
  }

  lemma InTable(d: nat, from: nat, to: nat, p: nat)
    requires Covers(d, from, to) && LowEnd(d, from) <= p < HighEnd(d, to)
    ensures p / 1024 == d && from <= p < to && IsUser(p)
  {
  }

  // ---- no table without a page ----

  /** Some page of the table of directory entry `d` is mapped. */
  ghost predicate HasPage(s: State, d: nat)
    requires d < 1024
  {
    exists p :: d * 1024 <= p < d * 1024 + 1024 && Ent(s, p) != NONE
  }

  ghost predicate TableUsed(s: State, d: nat)
    requires d < 1024
  {
    Dir(s)[d] != NONE ==> HasPage(s, d)
  }

  /** Every table of the program maps some page. */
  ghost predicate NoEmptyTable(s: State) {
    forall d :: 1 <= d < 768 ==> TableUsed(s, d)
  }

  lemma FoundPage(s: State, d: nat)
    requires d < 1024 && Dir(s)[d] != NONE && !forall i :: 0 <= i < 1024 ==> Low(s, Dir(s)[d].frame)[i] == NONE
    ensures HasPage(s, d)
  {
    var i :| 0 <= i < 1024 && Low(s, Dir(s)[d].frame)[i] != NONE;
    var p := d * 1024 + i;
    assert p / 1024 == d && p % 1024 == i && Ent(s, p) != NONE;
  }

  /** A change of the table of entry `d` that leaves every page of the others mapped. */
  lemma UsedKept(s: State, t: State, d: nat)
    requires d < 1024 && NoEmptyTable(s) && (d >= 1 && TableUsed(s, d) ==> TableUsed(t, d))
    requires forall e :: 0 <= e < 1024 && e != d ==> Dir(t)[e] == Dir(s)[e]
    requires forall p :: 0 <= p < PAGES && p / 1024 != d && Ent(s, p) != NONE ==> Ent(t, p) != NONE
    ensures NoEmptyTable(t)
  {
    forall e | 1 <= e < 768 && e != d && Dir(t)[e] != NONE ensures HasPage(t, e) {
      assert TableUsed(s, e);
      var p :| e * 1024 <= p < e * 1024 + 1024 && Ent(s, p) != NONE;
      assert p / 1024 == e;
    }
  }

  /** The same pages mapped under the same directory entries. */
  lemma UsedSame(s: State, t: State)
    requires NoEmptyTable(s)
    requires forall e :: 0 <= e < 1024 ==> (Dir(t)[e] == NONE <==> Dir(s)[e] == NONE)
    requires forall p :: 0 <= p < PAGES ==> (Ent(t, p) == NONE <==> Ent(s, p) == NONE)
    ensures NoEmptyTable(t)
  {
    forall e | 1 <= e < 768 && Dir(t)[e] != NONE ensures HasPage(t, e) {
      assert TableUsed(s, e);
      var p :| e * 1024 <= p < e * 1024 + 1024 && Ent(s, p) != NONE;
      assert Ent(t, p) != NONE;
    }
  }

  lemma DataOnly(s: State, t: State)
    requires t == s.(high := t.high)
    ensures NoEmptyTable(s) ==> NoEmptyTable(t)
  {
    if NoEmptyTable(s) {
      UsedSame(s, t);
    }
  }

  /** Each directory entry is absent in both states or in neither. */
  ghost predicate SameTables(s: State, t: State) {
    forall e :: 0 <= e < 1024 ==> (Dir(t)[e] == NONE <==> Dir(s)[e] == NONE)
  }

  lemma SameTablesSelf(s: State)
    ensures SameTables(s, s)
  {
  }

  lemma SameTablesTrans(s: State, t: State, u: State)
    requires SameTables(s, t) && SameTables(t, u)
    ensures SameTables(s, u)
  {
  }

  lemma MapUsed(s: State, b: State, t: State, d: nat, from: nat, mid: nat, to: nat, rw: bool)
    requires d < 1024 && from <= mid <= to <= PAGES && MapRel(s, b, from, mid, rw) && MapRel(s, t, from, to, rw)
    requires forall e :: 0 <= e < 1024 && e != d ==> Dir(t)[e] == Dir(b)[e]
    requires Dir(t)[d] == Dir(b)[d] || HasPage(t, d)
    ensures NoEmptyTable(b) ==> NoEmptyTable(t)
  {
    forall p | 0 <= p < PAGES && Ent(b, p) != NONE ensures Ent(t, p) != NONE {
      assert if from <= p < mid then MappedPage(s, b, p, rw) else Same(s, b, p);
      assert if from <= p < to then MappedPage(s, t, p, rw) else Same(s, t, p);
    }
    if TableUsed(b, d) && Dir(t)[d] == Dir(b)[d] != NONE {
      var p :| d * 1024 <= p < d * 1024 + 1024 && Ent(b, p) != NONE;
      assert Ent(t, p) != NONE;
    }
    if NoEmptyTable(b) {
      UsedKept(b, t, d);
    }
  }

  lemma MapDoneUsed(s: State, o: Own, b: State, ob: Own, t: State, ot: Own, d: nat, from: nat, to: nat, rw: bool)
    requires Covers(d, from, to) && LowEnd(d, from) <= PAGES && HighEnd(d, to) <= PAGES
    requires MapDone(s, o, b, ob, from, LowEnd(d, from), rw) && MapDone(s, o, t, ot, from, HighEnd(d, to), rw)
    requires forall e :: 0 <= e < 1024 && e != d ==> Dir(t)[e] == Dir(b)[e]
    requires LowEnd(d, from) == HighEnd(d, to) ==> Dir(t)[d] == Dir(b)[d]
    ensures NoEmptyTable(b) ==> NoEmptyTable(t)
  {
    CoversBounds(d, from, to);
    if LowEnd(d, from) < HighEnd(d, to) {
      InTable(d, from, to, LowEnd(d, from));
      assert MappedPage(s, t, LowEnd(d, from), rw);
      assert HasPage(t, d);
    }
    MapUsed(s, b, t, d, from, LowEnd(d, from), HighEnd(d, to), rw);
  }

  lemma UnmapUsed(s: State, b: State, t: State, d: nat, from: nat, to: nat)
    requires Covers(d, from, to) && LowEnd(d, from) <= PAGES && HighEnd(d, to) <= PAGES
    requires UnmapRel(s, b, from, LowEnd(d, from)) && UnmapRel(s, t, from, HighEnd(d, to))
    requires forall e :: 0 <= e < 1024 && e != d ==> Dir(t)[e] == Dir(b)[e]
    requires TableUsed(t, d)
    ensures NoEmptyTable(b) ==> NoEmptyTable(t)
    ensures forall e :: 0 <= e < 1024 && TableUsed(b, e) ==> TableUsed(t, e)
  {
    CoversBounds(d, from, to);
    forall p | 0 <= p < PAGES && p / 1024 != d ensures Ent(t, p) == Ent(b, p) {
      assert from <= p < HighEnd(d, to) || Same(s, t, p);
      assert from <= p < LowEnd(d, from) || Same(s, b, p);
    }
    forall e | 0 <= e < 1024 && TableUsed(b, e) ensures TableUsed(t, e) {
      if e != d && Dir(t)[e] != NONE {
        var p :| e * 1024 <= p < e * 1024 + 1024 && Ent(b, p) != NONE;
        assert p / 1024 == e && Ent(t, p) != NONE;
      }
    }
  }

  /** A sum of the budget that sticks at ML_EXCEEDED, as highmem_increment_ml computes it. */
  function Credited(ml: nat, n: nat): nat {
    if ml + n < ML_EXCEEDED then ml + n else ML_EXCEEDED
  }

  ghost predicate UnmapDone(s: State, o: Own, t: State, o': Own, from: nat, cur: nat)
    requires cur <= PAGES
  {
    && UnmapRel(s, t, from, cur)
    && t.ml == Credited(s.ml, Present(s, from, cur))
    && o'.drift == o.drift
    && (forall p :: p in o'.moved <==> p in o.moved && !(from <= p < cur))
  }

  lemma UnmapDoneUsed(s: State, o: Own, b: State, ob: Own, t: State, ot: Own, d: nat, from: nat, to: nat)
    requires Covers(d, from, to) && LowEnd(d, from) <= PAGES && HighEnd(d, to) <= PAGES
    requires UnmapDone(s, o, b, ob, from, LowEnd(d, from)) && UnmapDone(s, o, t, ot, from, HighEnd(d, to))
    requires Dir(t) == Dir(b)[d := Dir(t)[d]] && TableUsed(t, d)
    ensures NoEmptyTable(b) ==> NoEmptyTable(t)
    ensures forall e :: 0 <= e < 1024 && TableUsed(b, e) ==> TableUsed(t, e)
  {
    UnmapUsed(s, b, t, d, from, to);
  }

  ghost predicate ProtectDone(s: State, o: Own, t: State, o': Own, from: nat, cur: nat, w: bool) {
    ProtectRel(s, t, from, cur, w) && t.ml == s.ml && o'.drift == o.drift && o'.moved == o.moved
  }

  lemma ProtectUsed(s: State, o: Own, t: State, ot: Own, from: nat, to: nat, w: bool)
    requires ProtectDone(s, o, t, ot, from, to, w) && SameTables(s, t)
    ensures NoEmptyTable(s) ==> NoEmptyTable(t)
  {
    forall p | 0 <= p < PAGES ensures Ent(t, p) == NONE <==> Ent(s, p) == NONE {
      assert if from <= p < to then ProtectedPage(s, t, p, w) else Same(s, t, p);
    }
    if NoEmptyTable(s) {
      UsedSame(s, t);
    }
  }

  ghost predicate CopyDone(s: State, o: Own, t: State, o': Own, from: nat, cur: nat, cowed: nat)
    requires cur <= PAGES
  {
    && CopyRel(s, t, from, cur)
    && cowed == Lazy(s, from, cur)
    && (t.ml != ML_EXCEEDED ==> o'.drift == o.drift) && o'.moved == o.moved
    && t.ml == (if s.ml == ML_EXCEEDED - 1 && cowed > 0 then ML_EXCEEDED else s.ml)
  }

  lemma CopyUsed(s: State, o: Own, t: State, ot: Own, from: nat, to: nat, cowed: nat)
    requires to <= PAGES && CopyDone(s, o, t, ot, from, to, cowed) && SameTables(s, t)
    ensures NoEmptyTable(s) ==> NoEmptyTable(t)
  {
    forall p | 0 <= p < PAGES ensures Ent(t, p) == NONE <==> Ent(s, p) == NONE {
      assert if from <= p < to then CopiedPage(s, t, p) else Same(s, t, p);
    }
    if NoEmptyTable(s) {
      UsedSame(s, t);
    }
  }

  /** How far the loop over directory entries has come when it reaches entry `d`. */
  function Reached(d: nat, from: nat, to: nat): nat {
    if d * 1024 <= from then from else if to <= d * 1024 then to else d * 1024
  }

  /** The table get_cow made for an empty part of a range is put back as it was. */
  lemma RevertOk(b: State, ob: Own, t: State, ot: Own, d: nat)
    requires Tables(b, ob) && Tables(t, ot) && d < 768 && ot.lowMark == ob.lowMark && ot.snap == ob.snap
    requires t.cr3 == b.cr3
    requires Dir(t)[0] == Dir(b)[0] && Dir(t)[d] != NONE && !Dir(t)[d].shared && Dir(t)[d] != Dir(b)[d]
    requires Dir(b)[d] == NONE || Dir(b)[d].shared
    requires forall p :: 0 <= p < PAGES ==> Ent(t, p) == Ent(b, p)
    requires forall f: nat :: f < ob.lowMark && f != b.cr3 && f != Dir(b)[0].frame ==> Low(t, f) == Low(b, f)
    ensures 1 <= d && SameTable(t, d, Dir(b)[d])
    ensures var e := Dir(b)[d];
      e == NONE || SnapshotDir(t, ot, d, e)
  {
    assert DirEntryOk(b, ob, d);
    forall i | 0 <= i < 1024
      ensures Low(t, Dir(t)[d].frame)[i] == if Dir(b)[d] == NONE then NONE else Low(t, Dir(b)[d].frame)[i]
    {
      var p := d * 1024 + i;
      assert p / 1024 == d && p % 1024 == i && Ent(t, p) == Ent(b, p);
    }
  }

  lemma MapNothing(s: State, o: Own, from: nat, rw: bool)
    requires Inv(s, o) && o.moved == {} && from <= PAGES
    ensures Going(s, o, s, o) && MapDone(s, o, s, o, from, from, rw)
  {
  }

  /** After an empty range, map_range may put back the table it started from. */
  lemma RevertEmpty(s: State, o: Own, b: State, ob: Own, t: State, ot: Own, d: nat, from: nat, rw: bool)
    requires InUser(from, from) && d < 768
    requires Going(s, o, b, ob) && MapDone(s, o, b, ob, from, from, rw)
    requires Going(s, o, t, ot) && MapDone(s, o, t, ot, from, from, rw)
    requires Dir(t)[d] != NONE && !Dir(t)[d].shared && Dir(t)[d] != Dir(b)[d]
    requires Dir(b)[d] == NONE || Dir(b)[d].shared
    ensures 1 <= d && SameTable(t, d, Dir(b)[d])
    ensures var e := Dir(b)[d];
      e == NONE || SnapshotDir(t, ot, d, e)
  {
    forall p | 0 <= p < PAGES ensures Ent(t, p) == Ent(b, p) {
      assert Same(s, t, p) && Same(s, b, p);
    }
    RevertOk(b, ob, t, ot, d);
  }

  // ---- unmap_range ----

  /** A range to unmap: no page move is pending, or the range is part of its source. */
  ghost predicate CanUnmap(o: Own, from: nat, to: nat) {
    InUser(from, to) && (o.moved == {} || forall p :: from <= p < to ==> p in o.moved)
  }

  lemma UnmapNot(s: State, t: State, from: nat, p: nat)
    requires UnmapRel(s, t, from, p) && from <= p < PAGES
    ensures Same(s, t, p)
  {
  }

  lemma UnmapTurn(s: State, o: Own, t: State, o': Own, from: nat, p: nat)
    requires Going(s, o, t, o') && CanUnmap(o, from, p + 1) && p < USER_END && UnmapDone(s, o, t, o', from, p)
    requires from <= p && Dir(t)[p / 1024] != NONE && !Dir(t)[p / 1024].shared
    ensures Going(s, o, UnmapWord(t, p), UnmapOwn(t, o', p))
    ensures UnmapDone(s, o, UnmapWord(t, p), UnmapOwn(t, o', p), from, p + 1)
    ensures Dir(UnmapWord(t, p)) == Dir(t)
  {
    hide UnmapRel, Inv;
    UnmapNot(s, t, from, p);
    UnmapStep(t, o', p);
    UnmapTrans(s, t, UnmapWord(t, p), from, p, p + 1);
    KeptTrans(s, o, t, o', UnmapWord(t, p), UnmapOwn(t, o', p));
  }

  lemma UnmapDoneSame(s: State, o: Own, t: State, o': Own, u: State, o'': Own, from: nat, cur: nat)
    requires InUser(from, cur) && UnmapDone(s, o, t, o', from, cur)
    requires (forall p :: 0 <= p < PAGES ==> Same(t, u, p)) && u.ml == t.ml
    requires o''.drift == o'.drift && o''.moved == o'.moved
    ensures UnmapDone(s, o, u, o'', from, cur)
  {
    UnmapTrans(s, t, u, from, cur, cur);
  }

  /** No page of [from, to) is mapped. */
  ghost predicate Absent(s: State, from: nat, to: nat)
    requires to <= PAGES
  {
    forall p :: from <= p < to ==> Ent(s, p) == NONE
  }

  lemma {:induction false} AbsentCounts(s: State, from: nat, mid: nat, to: nat)
    requires from <= mid <= to <= PAGES && Absent(s, mid, to)
    ensures Present(s, from, to) == Present(s, from, mid) && Lazy(s, from, to) == Lazy(s, from, mid)
  {
    if mid < to {
      assert Ent(s, to - 1) == NONE;
      hide Ent;
      AbsentCounts(s, from, mid, to - 1);
    }
  }

  lemma AbsentTable(s: State, d: nat, from: nat, to: nat)
    requires Covers(d, from, to) && Dir(s)[d] == NONE
    ensures HighEnd(d, to) <= PAGES && Absent(s, LowEnd(d, from), HighEnd(d, to))
  {
    CoversBounds(d, from, to);
    forall p | LowEnd(d, from) <= p < HighEnd(d, to) ensures Ent(s, p) == NONE {
      InTable(d, from, to, p);
    }
  }

  lemma UnmapSkip(s: State, o: Own, t: State, o': Own, from: nat, mid: nat, to: nat)
    requires CanUnmap(o, from, to) && from <= mid <= to && UnmapDone(s, o, t, o', from, mid)
    requires Inv(t, o') && Absent(t, mid, to)
    ensures UnmapDone(s, o, t, o', from, to)
  {
    forall p | mid <= p < to ensures Ent(s, p) == NONE && p !in o'.moved {
      assert Same(s, t, p);
    }
    AbsentCounts(s, from, mid, to);
    UnmapTrans(s, t, t, from, mid, to);
  }

  lemma UnmapNothing(s: State, o: Own, from: nat)
    requires Inv(s, o) && from <= PAGES
    ensures Going(s, o, s, o) && UnmapDone(s, o, s, o, from, from)
  {
  }

  /** unmap_pgdir found no word but zeros: the table may go, and it is not the kernel's. */
  lemma EmptyTableDrop(s: State, o: Own, d: nat)
    requires Inv(s, o) && d < 768 && Dir(s)[d] != NONE && !Dir(s)[d].shared
    requires forall i :: 0 <= i < 1024 ==> Low(s, Dir(s)[d].frame)[i] == NONE
    ensures 1 <= d && SameTable(s, d, NONE)
  {
  }

  /** The words of the range in the table of entry `d` are clear. */
  lemma ClearedTable(s: State, o: Own, t: State, o': Own, d: nat, from: nat, to: nat)
    requires Covers(d, from, to) && Dir(t)[d] != NONE
    requires HighEnd(d, to) <= PAGES && UnmapDone(s, o, t, o', from, HighEnd(d, to))
    ensures forall i :: LowEnd(d, from) - d * 1024 <= i < HighEnd(d, to) - d * 1024 && 0 <= i < 1024 ==>
      Low(t, Dir(t)[d].frame)[i] == NONE
  {
    CoversBounds(d, from, to);
    forall i | LowEnd(d, from) - d * 1024 <= i < HighEnd(d, to) - d * 1024 && 0 <= i < 1024
      ensures Low(t, Dir(t)[d].frame)[i] == NONE
    {
      var p := d * 1024 + i;
      assert p / 1024 == d && p % 1024 == i && Ent(t, p) == NONE;
    }
  }

  // ---- set_rights ----

  lemma ProtectTurn(s: State, o: Own, t: State, o': Own, from: nat, p: nat, w: bool)
    requires Going(s, o, t, o') && o.moved == {} && InUser(from, p) && p < USER_END
    requires ProtectDone(s, o, t, o', from, p, w)
    requires Dir(t)[p / 1024] != NONE && !Dir(t)[p / 1024].shared
    ensures Going(s, o, ProtectWord(t, p, w), o')
    ensures ProtectDone(s, o, ProtectWord(t, p, w), o', from, p + 1, w)
    ensures Dir(ProtectWord(t, p, w)) == Dir(t)
  {
    ProtectStep(t, o', p, w);
    ProtectTrans(s, t, ProtectWord(t, p, w), from, p, p + 1, w);
    KeptTrans(s, o, t, o', ProtectWord(t, p, w), o');
  }

  lemma ProtectDoneSame(s: State, o: Own, t: State, o': Own, u: State, o'': Own, from: nat, cur: nat, w: bool)
    requires InUser(from, cur) && ProtectDone(s, o, t, o', from, cur, w)
    requires (forall p :: 0 <= p < PAGES ==> Same(t, u, p)) && u.ml == t.ml
    requires o''.drift == o'.drift && o''.moved == o'.moved
    ensures ProtectDone(s, o, u, o'', from, cur, w)
  {
    ProtectTrans(s, t, u, from, cur, cur, w);
  }

  lemma ProtectSkip(s: State, o: Own, t: State, o': Own, from: nat, mid: nat, to: nat, w: bool)
    requires InUser(from, to) && from <= mid <= to && ProtectDone(s, o, t, o', from, mid, w)
    requires Absent(t, mid, to)
    ensures ProtectDone(s, o, t, o', from, to, w)
  {
    ProtectTrans(s, t, t, from, mid, to, w);
  }

  // ---- cow_range ----

  lemma CopyNot(s: State, t: State, from: nat, p: nat)
    requires CopyRel(s, t, from, p) && IsUser(p)
    ensures Same(s, t, p) && (!Ent(t, p).cow ==> CopyRel(t, t, p, p + 1))
  {
  }

  lemma CopyTurn(s: State, o: Own, t: State, o': Own, from: nat, p: nat, cowed: nat)
    requires Going(s, o, t, o') && o.moved == {} && InUser(from, p) && p < USER_END
    requires CopyDone(s, o, t, o', from, p, cowed)
    requires Dir(t)[p / 1024] != NONE && !Dir(t)[p / 1024].shared
    ensures Ent(t, p).cow ==>
      && Going(s, o, CopyWord(t, p), CopyOwn(t, o', p))
      && CopyDone(s, o, CopyWord(t, p), CopyOwn(t, o', p), from, p + 1, cowed + 1)
      && Dir(CopyWord(t, p)) == Dir(t)
    ensures !Ent(t, p).cow ==> CopyDone(s, o, t, o', from, p + 1, cowed)
  {
    hide CopyRel, Inv;
    CopyNot(s, t, from, p);
    if Ent(t, p).cow {
      CopyStep(t, o', p);
      CopyTrans(s, t, CopyWord(t, p), from, p, p + 1);
      KeptTrans(s, o, t, o', CopyWord(t, p), CopyOwn(t, o', p));
    } else {
      CopyTrans(s, t, t, from, p, p + 1);
    }
  }

  lemma CopyDoneSame(s: State, o: Own, t: State, o': Own, u: State, o'': Own, from: nat, cur: nat, cowed: nat)
    requires InUser(from, cur) && CopyDone(s, o, t, o', from, cur, cowed)
    requires (forall p :: 0 <= p < PAGES ==> Same(t, u, p)) && u.ml == t.ml
    requires o''.drift == o'.drift && o''.moved == o'.moved
    ensures CopyDone(s, o, u, o'', from, cur, cowed)
  {
    CopyTrans(s, t, u, from, cur, cur);
  }

  lemma CopySkip(s: State, o: Own, t: State, o': Own, from: nat, mid: nat, to: nat, cowed: nat)
    requires InUser(from, to) && from <= mid <= to && CopyDone(s, o, t, o', from, mid, cowed)
    requires Absent(t, mid, to)
    ensures CopyDone(s, o, t, o', from, to, cowed)
  {
    forall p | mid <= p < to ensures Ent(s, p) == NONE {
      assert Same(s, t, p);
    }
    AbsentCounts(s, from, mid, to);
    CopyTrans(s, t, t, from, mid, to);
  }
}
