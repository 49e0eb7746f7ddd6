/** One turn of the inner loops of map_pgdir, unmap_pgdir, set_rights_pgdir and cow_pgdir, as a
    function on the state, with the invariant and the effect on every page. */
module MapSteps {
  import opened Machine
  import opened Ownership
  import opened PageOps
  import opened DataOps
  import opened Ranges

  /** A private page shares its frame with no other mapped page. */
  lemma OwnFrame(s: State, o: Own, p: nat, q: nat)
    requires Entries(s, o) && Pages(s, o) && o.moved == {}
    requires IsUser(p) && IsUser(q) && p != q
    requires Ent(s, p) != NONE && !Ent(s, p).shared && Ent(s, q) != NONE
    ensures Ent(s, p).frame != Ent(s, q).frame
  {
    assert EntryOk(o, p, Ent(s, p)) && EntryOk(o, q, Ent(s, q));
  }

  ghost predicate SameBut(s: State, t: State, p: nat) {
    forall q :: 0 <= q < PAGES && q != p ==> Same(s, t, q)
  }

  /** Data frames hold the same words. */
  ghost predicate SameHigh(s: State, t: State) {
    forall f: nat :: High(t, f) == High(s, f)
  }

  lemma SameHighInv(s: State, o: Own, t: State)
    requires Inv(s, o) && t == s.(high := t.high) && SameHigh(s, t)
    ensures Inv(t, o) && Kept(s, o, t, o) && Dir(t) == Dir(s)
    ensures forall q :: 0 <= q < PAGES ==> Ent(t, q) == Ent(s, q)
  {
    SameLowTables(s, o, t);
    KeptSameLow(s, o, t);
    SameEntsEntries(s, o, t);
  }

  /** The store into a private page touches no other page. */
  lemma SetPageStep(s: State, o: Own, p: nat, page: Page)
    requires Inv(s, o) && o.moved == {} && IsUser(p) && Ent(s, p) != NONE && !Ent(s, p).shared
    ensures var t := SetPage(s, p, page);
      && Inv(t, o) && Kept(s, o, t, o) && Dir(t) == Dir(s)
      && Ent(t, p) == Ent(s, p) && High(t, Ent(t, p).frame) == page
    ensures SameBut(s, SetPage(s, p, page), p)
  {
    SetPageInv(s, o, p, page);
    var t := SetPage(s, p, page);
    forall q | 0 <= q < PAGES && q != p ensures Same(s, t, q) {
      if t.ml != ML_EXCEEDED && IsUser(q) && Ent(s, q) != NONE {
        OwnFrame(s, o, p, q);
      }
    }
  }

  lemma SameEntsOwned(s: State, o: Own, t: State, o': Own)
    requires t.high == s.high && t.aHigh == s.aHigh && t.lHigh == s.lHigh && t.ml == s.ml && t.mlOrig == s.mlOrig
    requires o' == o.(low := o'.low, freeLow := o'.freeLow) && Mapped(t) == Mapped(s)
    requires forall p :: 0 <= p < PAGES ==> Ent(t, p) == Ent(s, p)
    ensures Owned(s, o) ==> Owned(t, o')
  {
  }

  /** Changes to the tables that no word of a page shows keep the invariant. */
  lemma SameEntsInv(s: State, o: Own, t: State, o': Own)
    requires Inv(s, o) && Tables(t, o') && LowList(t, o')
    requires t == s.(low := t.low, aLow := t.aLow, lLow := t.lLow)
    requires o' == o.(low := o'.low, freeLow := o'.freeLow)
    requires forall p :: 0 <= p < PAGES ==> Ent(t, p) == Ent(s, p)
    ensures Inv(t, o')
    ensures forall p :: 0 <= p < PAGES ==> Same(s, t, p)
  {
    hide Tables, LowList;
    SameEntsEntries(s, o, t);
    forall q | FIRST_USER <= q < USER_END ensures EntryOk(o', q, Ent(t, q)) {
      assert EntryOk(o, q, Ent(s, q));
    }
    SameEntsOwned(s, o, t, o');
    hide Entries, Pages, HighList, Budget, Ent;
  }

  /** get_cow on a directory entry in full. */
  lemma PrivateDirInv(s: State, o: Own, d: nat)
    requires Inv(s, o) && d < 1024
    ensures Inv(PrivateDir(s, d), PrivateDirOwn(s, o, d))
    ensures Kept(s, o, PrivateDir(s, d), PrivateDirOwn(s, o, d))
    ensures var t := PrivateDir(s, d);
      && Dir(t) == Dir(s)[d := Dir(t)[d]] && Dir(t)[d] != NONE && !Dir(t)[d].shared
      && t == s.(low := t.low, aLow := t.aLow, lLow := t.lLow)
    ensures forall p :: 0 <= p < PAGES ==> Same(s, PrivateDir(s, d), p)
  {
    PrivateDirTables(s, o, d);
    SameEntsInv(s, o, PrivateDir(s, d), PrivateDirOwn(s, o, d));
  }

  /** Giving a table back in full. */
  lemma DropTableInv(s: State, o: Own, d: nat, e: Entry)
    requires Inv(s, o) && 1 <= d < 768 && Dir(s)[d] != NONE && !Dir(s)[d].shared
    requires e == NONE || SnapshotDir(s, o, d, e)
    requires SameTable(s, d, e)
    ensures Inv(DropTable(s, d, e), DropTableOwn(s, o, d))
    ensures Kept(s, o, DropTable(s, d, e), DropTableOwn(s, o, d))
    ensures Dir(LowFree(s, Dir(s)[d].frame)) == Dir(s)
    ensures forall p :: 0 <= p < PAGES ==> Same(s, DropTable(s, d, e), p)
  {
    TableFrames(s, o, d);
    DropTableTables(s, o, d, e);
    SameEntsInv(s, o, DropTable(s, d, e), DropTableOwn(s, o, d));
  }

  /** TakePage in full. */
  lemma TakeStep(s: State, o: Own, p: nat, e: Entry)
    requires CanTake(s, o, p, e)
    ensures var t := TakePage(s, p, e); var o' := TakePageOwn(s, o, p);
      && Inv(t, o') && Kept(s, o, t, o') && Dir(t) == Dir(s) && t.high == s.high
      && EntSameBut(s, t, p) && Ent(t, p) == e.(frame := PreAlloc(s).1)
      && o'.moved == o.moved && Charged(s, t, 1)
      && (t.ml != ML_EXCEEDED ==> o'.drift == if Ent(s, p) == NONE then o.drift else o.drift - 1)
  {
    TakePageInv(s, o, p, e);
    TakePageTables(s, o, p, e);
    TakePageWords(s, o, p, e);
  }

  // ---- map_pgdir ----

  lemma MapNew(s: State, o: Own, p: nat, rw: bool)
    requires CanTake(s, o, p, Entry(0, false, false, rw, USER_BITS)) && Ent(s, p) == NONE
    ensures var t := TakePage(s, p, Entry(0, false, false, rw, USER_BITS)); var o' := TakePageOwn(s, o, p);
      && Inv(t, o') && Kept(s, o, t, o') && o'.moved == o.moved && Dir(t) == Dir(s)
      && MapRel(s, t, p, p + 1, rw)
      && Charged(s, t, 1)
      && (t.ml != ML_EXCEEDED ==> o'.drift == o.drift)
  {
    TakeStep(s, o, p, Entry(0, false, false, rw, USER_BITS));
  }

  /** The word map_pgdir writes for a page of the snapshot: bits 0x9ff as before, and bit 2 if
      bit 512 was set. */
  function Unshared(e: Entry): Entry {
    e.(shared := false, cow := false, rw := e.rw || e.cow)
  }

  /** What map_pgdir leaves in the new page and in the page it read, `pg`. */
  function WriteBack(s: State, t: State, pg: nat): State {
    if pg < USER_END then SetPage(t, pg, High(s, Ent(s, pg).frame)) else t
  }

  lemma TakeShared(s: State, o: Own, p: nat)
    requires Inv(s, o) && o.moved == {} && IsUser(p) && Ent(s, p).shared
    requires Dir(s)[p / 1024] != NONE && !Dir(s)[p / 1024].shared
    ensures var t := TakePage(s, p, Unshared(Ent(s, p))); var o' := TakePageOwn(s, o, p);
      && Inv(t, o') && Kept(s, o, t, o') && o'.moved == o.moved && Dir(t) == Dir(s)
      && Charged(s, t, 1)
      && (t.ml != ML_EXCEEDED ==> o'.drift == o.drift - 1)
      && t.high == s.high && EntSameBut(s, t, p)
      && Ent(t, p) == Unshared(Ent(s, p)).(frame := PreAlloc(s).1)
  {
    assert EntryOk(o, p, Ent(s, p));
    TakeStep(s, o, p, Unshared(Ent(s, p)));
  }

  lemma WriteBackStep(s: State, t: State, o: Own, p: nat)
    requires Inv(t, o) && o.moved == {} && IsUser(p) && Ent(s, p).shared
    requires Ent(t, p) != NONE && !Ent(t, p).shared && EntSameBut(s, t, p) && t.high == s.high
    requires Ent(s, p).frame < USER_END ==> Ent(s, Ent(s, p).frame) != NONE
    ensures var u := WriteBack(s, t, Ent(s, p).frame);
      && Inv(u, o) && Kept(t, o, u, o) && Dir(u) == Dir(t) && u.ml == t.ml
      && Ent(u, p) == Ent(t, p)
    ensures SameBut(s, WriteBack(s, t, Ent(s, p).frame), p)
  {
    hide Inv, Kept;
    var pg := Ent(s, p).frame;
    var u := WriteBack(s, t, pg);
    if pg == p {
      SetPageStep(t, o, p, High(s, Ent(s, pg).frame));
      forall q | 0 <= q < PAGES && q != p ensures Same(s, u, q) {
        assert Same(t, u, q);
      }
    } else {
      SameHighInv(t, o, u);
    }
  }

  /** A page that was private, or has just become private, gets bit 2 when `rw` asks for it. */
  lemma AllowWrite(s: State, o: Own, t: State, p: nat, rw: bool)
    requires Inv(t, o) && IsUser(p) && o.moved == {}
    requires Dir(t)[p / 1024] != NONE && !Dir(t)[p / 1024].shared
    requires Ent(t, p) != NONE && !Ent(t, p).shared
    requires MapRel(s, t, p, p + 1, false)
    ensures var u := if rw && !Ent(t, p).rw then SetEnt(t, p, Ent(t, p).(rw := true)) else t;
      && Inv(u, o) && Kept(t, o, u, o) && Dir(u) == Dir(t) && u.ml == t.ml
      && MapRel(s, u, p, p + 1, rw)
  {
    assert EntryOk(o, p, Ent(t, p));
    var u := if rw && !Ent(t, p).rw then SetEnt(t, p, Ent(t, p).(rw := true)) else t;
    if rw && !Ent(t, p).rw {
      FlagsInv(t, o, p, Ent(t, p).(rw := true));
    }
    assert MappedPage(s, t, p, false);
    forall q | 0 <= q < PAGES
      ensures if q == p then MappedPage(s, u, q, rw) else Same(s, u, q)
    {
      assert q != p ==> Same(s, t, q);
    }
  }

  /** One turn of the loop of map_pgdir, when it does not fault. */
  function MapWord(s: State, p: nat, rw: bool): State
    requires p < PAGES
  {
    var e := Ent(s, p);
    if e == NONE then
      TakePage(s, p, Entry(0, false, false, rw, USER_BITS))
    else
      var t := if e.shared then WriteBack(s, TakePage(s, p, Unshared(e)), e.frame) else s;
      if rw && !Ent(t, p).rw then SetEnt(t, p, Ent(t, p).(rw := true)) else t
  }

  ghost function MapOwn(s: State, o: Own, p: nat): Own
    requires p < PAGES
  {
    if Ent(s, p) == NONE || Ent(s, p).shared then TakePageOwn(s, o, p) else o
  }

  /** Page `p` of the snapshot is replaced by a private page, before `rw` is looked at. */
  function TakeCopy(s: State, p: nat): State
    requires p < PAGES
  {
    WriteBack(s, TakePage(s, p, Unshared(Ent(s, p))), Ent(s, p).frame)
  }

  lemma SharedMapped(s: State, t: State, p: nat)
    requires IsUser(p) && Ent(s, p).shared && SameBut(s, t, p)
    requires exists f: nat :: Ent(t, p) == Unshared(Ent(s, p)).(frame := f) && Ent(t, p) != NONE
    ensures MapRel(s, t, p, p + 1, false)
  {
  }

  lemma TakeCopyStep(s: State, o: Own, p: nat)
    requires Inv(s, o) && o.moved == {} && IsUser(p) && Ent(s, p).shared
    requires Ent(s, p).frame < USER_END ==> Ent(s, Ent(s, p).frame) != NONE
    requires Dir(s)[p / 1024] != NONE && !Dir(s)[p / 1024].shared
    ensures var t := TakeCopy(s, p); var o' := TakePageOwn(s, o, p);
      && Inv(t, o') && Kept(s, o, t, o') && MapRel(s, t, p, p + 1, false)
      && Dir(t) == Dir(s) && o'.moved == {} && Charged(s, t, 1)
      && (t.ml != ML_EXCEEDED ==> o'.drift == o.drift - 1)
      && Ent(t, p) != NONE && !Ent(t, p).shared
  {
    var a := TakePage(s, p, Unshared(Ent(s, p)));
    var o' := TakePageOwn(s, o, p);
    TakeShared(s, o, p);
    WriteBackStep(s, a, o', p);
    KeptTrans(s, o, a, o', TakeCopy(s, p), o');
    SharedMapped(s, TakeCopy(s, p), p);
  }

  lemma MapSharedStep(s: State, o: Own, p: nat, rw: bool)
    requires Inv(s, o) && o.moved == {} && IsUser(p) && Ent(s, p).shared
    requires Ent(s, p).frame < USER_END ==> Ent(s, Ent(s, p).frame) != NONE
    requires Dir(s)[p / 1024] != NONE && !Dir(s)[p / 1024].shared
    ensures var t := MapWord(s, p, rw); var o' := TakePageOwn(s, o, p);
      && Inv(t, o') && Kept(s, o, t, o') && MapRel(s, t, p, p + 1, rw)
      && Dir(t) == Dir(s) && o'.moved == {} && Charged(s, t, 1)
      && (t.ml != ML_EXCEEDED ==> o'.drift == o.drift - 1)
  {
    var o' := TakePageOwn(s, o, p);
    TakeCopyStep(s, o, p);
    AllowWrite(s, o', TakeCopy(s, p), p, rw);
    KeptTrans(s, o, TakeCopy(s, p), o', MapWord(s, p, rw), o');
  }

  lemma MapStep(s: State, o: Own, p: nat, rw: bool)
    requires Inv(s, o) && o.moved == {} && IsUser(p) && !FaultsAt(s, p, p)
    requires Dir(s)[p / 1024] != NONE && !Dir(s)[p / 1024].shared
    ensures Inv(MapWord(s, p, rw), MapOwn(s, o, p))
    ensures Kept(s, o, MapWord(s, p, rw), MapOwn(s, o, p))
    ensures MapRel(s, MapWord(s, p, rw), p, p + 1, rw)
    ensures Dir(MapWord(s, p, rw)) == Dir(s) && MapOwn(s, o, p).moved == {}
    ensures Charged(s, MapWord(s, p, rw), Need(s, p, p + 1))
    ensures MapWord(s, p, rw).ml != ML_EXCEEDED ==> MapOwn(s, o, p).drift == o.drift - Shared(s, p, p + 1)
  {
    if Ent(s, p) == NONE {
      MapNew(s, o, p, rw);
    } else if !Ent(s, p).shared {
      AllowWrite(s, o, s, p, rw);
      KeptTrans(s, o, s, o, MapWord(s, p, rw), o);
    } else {
      MapSharedStep(s, o, p, rw);
    }
  }

  // ---- unmap_pgdir ----

  function UnmapWord(s: State, p: nat): State
    requires p < PAGES
  {
    if Ent(s, p) == NONE then s else if Ent(s, p).shared then ForgetPage(s, p) else FreePage(s, p)
  }

  ghost function UnmapOwn(s: State, o: Own, p: nat): Own
    requires p < PAGES
  {
    if Ent(s, p) == NONE then o
    else if Ent(s, p).shared then o.(moved := o.moved - {p})
    else FreePageOwn(s, o, p)
  }

  lemma FreeSame(s: State, o: Own, p: nat)
    requires Inv(s, o) && IsUser(p) && o.moved == {} && Ent(s, p) != NONE && !Ent(s, p).shared
    requires var t := FreePage(s, p);
      && EntSameBut(s, t, p) && t.ml == CreditMl(s).ml
      && forall g: nat :: g != Ent(s, p).frame ==> High(t, g) == High(s, g)
    ensures SameBut(s, FreePage(s, p), p)
  {
    var t := FreePage(s, p);
    forall q | 0 <= q < PAGES && q != p ensures Same(s, t, q) {
      if t.ml != ML_EXCEEDED && IsUser(q) && Ent(s, q) != NONE {
        OwnFrame(s, o, p, q);
      }
    }
  }

  lemma UnmapStep(s: State, o: Own, p: nat)
    requires Inv(s, o) && IsUser(p) && (o.moved == {} || p in o.moved)
    requires Dir(s)[p / 1024] != NONE && !Dir(s)[p / 1024].shared
    ensures var t := UnmapWord(s, p); var o' := UnmapOwn(s, o, p);
      && Inv(t, o') && Kept(s, o, t, o') && Dir(t) == Dir(s)
      && o'.moved == o.moved - {p} && o'.drift == o.drift
      && t.ml == (if Ent(s, p) == NONE then s.ml else CreditMl(s).ml)
    ensures UnmapRel(s, UnmapWord(s, p), p, p + 1)
  {
    if Ent(s, p) == NONE {
    } else if Ent(s, p).shared {
      ForgetPageInv(s, o, p);
    } else {
      FreePageInv(s, o, p);
      FreeSame(s, o, p);
    }
  }

  // ---- set_rights_pgdir ----

  function WithRights(e: Entry, w: bool): Entry {
    if !w then e.(rw := false, cow := false)
    else if e.shared then e.(cow := true)
    else e.(rw := true)
  }

  function ProtectWord(s: State, p: nat, w: bool): State
    requires p < PAGES
  {
    if Ent(s, p) == NONE then s else SetEnt(s, p, WithRights(Ent(s, p), w))
  }

  lemma RightsOk(o: Own, p: nat, e: Entry, w: bool)
    requires EntryOk(o, p, e) && e != NONE && p !in o.moved
    ensures var e' := WithRights(e, w);
      && e'.frame == e.frame && e'.shared == e.shared && e'.rest == e.rest && e' != NONE && EntryOk(o, p, e')
      && (e'.rw || e'.cow) == w
  {
  }

  lemma ProtectWords(s: State, t: State, p: nat, w: bool)
    requires IsUser(p) && EntSameBut(s, t, p) && t.high == s.high
    requires Ent(s, p) != NONE && Ent(t, p) != NONE && (Ent(t, p).rw || Ent(t, p).cow) == w
    requires Ent(t, p).frame == Ent(s, p).frame && Ent(t, p).shared == Ent(s, p).shared
    requires Ent(t, p).rest == Ent(s, p).rest
    ensures ProtectRel(s, t, p, p + 1, w)
  {
  }

  lemma ProtectStep(s: State, o: Own, p: nat, w: bool)
    requires Inv(s, o) && IsUser(p) && o.moved == {}
    requires Dir(s)[p / 1024] != NONE && !Dir(s)[p / 1024].shared
    ensures var t := ProtectWord(s, p, w);
      Inv(t, o) && Kept(s, o, t, o) && Dir(t) == Dir(s) && t.ml == s.ml
    ensures ProtectRel(s, ProtectWord(s, p, w), p, p + 1, w)
  {
    if Ent(s, p) != NONE {
      assert EntryOk(o, p, Ent(s, p));
      RightsOk(o, p, Ent(s, p), w);
      FlagsInv(s, o, p, WithRights(Ent(s, p), w));
      ProtectWords(s, ProtectWord(s, p, w), p, w);
    }
  }

  // ---- cow_pgdir ----

  /** CopyWord before the contents are stored. */
  function CopyFrame(s: State, p: nat): State
    requires p < PAGES
  {
    TakePage(CreditMl(s), p, Entry(0, false, false, true, USER_BITS))
  }

  /** The copy of page `p`: credited, then charged, so that it never costs anything. */
  function CopyWord(s: State, p: nat): State
    requires p < PAGES
  {
    SetPage(CopyFrame(s, p), p, High(s, Ent(s, p).frame))
  }

  ghost function CopyOwn(s: State, o: Own, p: nat): Own
    requires p < PAGES
  {
    TakePageOwn(CreditMl(s), o.(drift := o.drift + 1), p)
  }

  lemma CreditInv(s: State, o: Own)
    requires Inv(s, o)
    ensures Inv(CreditMl(s), o.(drift := o.drift + 1))
    ensures Kept(s, o, CreditMl(s), o.(drift := o.drift + 1))
    ensures Dir(CreditMl(s)) == Dir(s)
    ensures forall q :: 0 <= q < PAGES ==> Ent(CreditMl(s), q) == Ent(s, q)
  {
    hide Tables, LowList, Entries, Pages, HighList, Ent;
    RebudgetInv(s, o, CreditMl(s), o.(drift := o.drift + 1));
  }

  lemma LazyCounts(s: State, o: Own, p: nat)
    requires Inv(s, o) && IsUser(p) && Ent(s, p).cow
    ensures Ent(s, p) != NONE && Ent(s, p).shared && s.ml <= ML_EXCEEDED
  {
    assert EntryOk(o, p, Ent(s, p));
  }

  lemma CopyTake(s: State, o: Own, p: nat)
    requires Inv(s, o) && IsUser(p) && o.moved == {} && Ent(s, p).cow
    requires Dir(s)[p / 1024] != NONE && !Dir(s)[p / 1024].shared
    ensures Inv(CopyFrame(s, p), CopyOwn(s, o, p))
    ensures Kept(s, o, CopyFrame(s, p), CopyOwn(s, o, p))
    ensures Dir(CopyFrame(s, p)) == Dir(s)
    ensures CopyFrame(s, p).high == s.high
    ensures EntSameBut(s, CopyFrame(s, p), p)
    ensures var e := Ent(CopyFrame(s, p), p); e.rw && !e.cow && !e.shared
    ensures CopyOwn(s, o, p).moved == {}
    ensures CopyFrame(s, p).ml != ML_EXCEEDED ==> CopyOwn(s, o, p).drift == o.drift
    ensures CopyFrame(s, p).ml == if s.ml < ML_EXCEEDED - 1 then s.ml else ML_EXCEEDED
  {
    hide Inv, Kept, Ent, TakePage;
    LazyCounts(s, o, p);
    var a := CreditMl(s);
    var e := Entry(0, false, false, true, USER_BITS);
    CreditInv(s, o);
    TakeStep(a, o.(drift := o.drift + 1), p, e);
    KeptTrans(s, o, a, o.(drift := o.drift + 1), TakePage(a, p, e), CopyOwn(s, o, p));
  }

  lemma CopyStep(s: State, o: Own, p: nat)
    requires Inv(s, o) && IsUser(p) && o.moved == {} && Ent(s, p).cow
    requires Dir(s)[p / 1024] != NONE && !Dir(s)[p / 1024].shared
    ensures var t := CopyWord(s, p); var o' := CopyOwn(s, o, p);
      && Inv(t, o') && Kept(s, o, t, o') && Dir(t) == Dir(s)
      && o'.moved == {} && (t.ml != ML_EXCEEDED ==> o'.drift == o.drift)
      && t.ml == if s.ml < ML_EXCEEDED - 1 then s.ml else ML_EXCEEDED
    ensures CopyRel(s, CopyWord(s, p), p, p + 1)
  {
    CopyTake(s, o, p);
    var a := CopyFrame(s, p);
    var t := CopyWord(s, p);
    var o' := CopyOwn(s, o, p);
    SetPageStep(a, o', p, High(s, Ent(s, p).frame));
    KeptTrans(s, o, a, o', t, o');
    forall q | 0 <= q < PAGES ensures if q == p then CopiedPage(s, t, q) else Same(s, t, q) {
      assert q != p ==> Same(a, t, q);
    }
  }
}
