/** Stores to memory: the kernel's own memset, and the store of a program with the retry of
    kernel/runtime.c after a page fault. */
module StoreSteps {
  import opened Machine
  import opened Ownership
  import opened DataOps
  import opened Ranges
  import opened MapSteps
  import opened RangeLoops
  import opened FlatMemory
  import opened Runs

  lemma ZeroStep(s: State, o: Own, t: State, from: nat, p: nat, to: nat)
    requires Inv(t, o) && o.moved == {} && FIRST_USER <= from <= p < to <= USER_END
    requires ZeroRel(s, t, from, p) && Private(s, from, to)
    ensures var u := SetPage(t, p, ZeroPage()); Inv(u, o) && Kept(t, o, u, o)
    ensures ZeroRel(s, SetPage(t, p, ZeroPage()), from, p + 1)
  {
    assert Same(s, t, p);
    SetPageStep(t, o, p, ZeroPage());
    var u := SetPage(t, p, ZeroPage());
    forall q | 0 <= q < PAGES
      ensures if p <= q < p + 1 then
          Ent(u, q) == Ent(t, q) && (u.ml != ML_EXCEEDED ==> High(u, Ent(u, q).frame) == ZeroPage())
        else Same(t, u, q)
    {
    }
    ZeroTrans(s, t, u, from, p, p + 1);
  }

  /** After map_range (and set_rights) the range is the run's own. */
  lemma MappedPrivate(s: State, a: State, b: State, from: nat, to: nat, w: bool)
    requires FIRST_USER <= from <= to <= USER_END && MapRel(s, a, from, to, w)
    requires b == a || ProtectRel(a, b, from, to, false)
    ensures Private(b, from, to)
  {
    forall p | from <= p < to ensures Ent(b, p) != NONE && !Ent(b, p).shared {
      assert MappedPage(s, a, p, w);
      assert b == a || ProtectedPage(a, b, p, false);
    }
  }

  /** The processor lets the program write to page `p`: both words on the way say present and
      writable. */
  predicate HardwareWritable(s: State, p: nat)
    requires p < PAGES
  {
    && Dir(s)[p / 1024].rest % 2 == 1 && Dir(s)[p / 1024].rw
    && Ent(s, p).rest % 2 == 1 && Ent(s, p).rw
  }

  /** In every reachable state the processor's decision is bit 2 of the page's own word, and such a
      page is private. */
  lemma HardwareMeaning(s: State, o: Own, p: nat)
    requires Inv(s, o) && o.moved == {} && IsUser(p)
    ensures HardwareWritable(s, p) <==> Ent(s, p).rw
    ensures HardwareWritable(s, p) ==> Ent(s, p) != NONE && !Ent(s, p).shared
  {
    assert EntryOk(o, p, Ent(s, p));
    if 1 <= p / 1024 {
      assert DirEntryOk(s, o, p / 1024);
    }
  }

  /** Only page `p` may have another word. */
  ghost predicate WordsKeptBut(s: State, t: State, p: nat) {
    forall q :: 0 <= q < PAGES && q != p ==> Ent(t, q) == Ent(s, q)
  }

  /** The only way a store can exceed the budget: crediting the copied page makes ML_EXCEEDED. */
  predicate Strained(s: State, p: nat) {
    s.ml == ML_EXCEEDED || (s.ml == ML_EXCEEDED - 1 && IsUser(p) && Ent(s, p) != NONE)
  }

  /** The word of page `p` was one to copy on the next write, and that has happened. */
  predicate CopiedWord(s: State, t: State, p: nat)
    requires p < PAGES
  {
    Ent(s, p).cow && Ent(t, p) != NONE && !Ent(t, p).shared && Ent(t, p).rw
  }

  /** A fault on page `p` was answered by copying it. */
  ghost predicate Retried(s: State, o: Own, t: State, o': Own, p: nat) {
    && Going(s, o, t, o') && WordsKeptBut(s, t, p)
    && (t.ml != ML_EXCEEDED ==> View(t) == View(s) && o'.drift == o.drift)
    && (t.ml == ML_EXCEEDED ==> Strained(s, p))
    && (t.ml != ML_EXCEEDED ==> t.ml == s.ml)
    && (IsUser(p) ==> (Ent(t, p) == NONE <==> Ent(s, p) == NONE) && (Ent(t, p) == Ent(s, p) || CopiedWord(s, t, p)))
  }

  lemma RetryStep(s: State, o: Own, t: State, o': Own, u: State, o'': Own, p: nat, cowed: nat)
    requires Retried(s, o, t, o', p) && o.moved == {} && InUser(p, p + 1)
    requires Going(t, o', u, o'') && CopyDone(t, o', u, o'', p, p + 1, cowed)
    ensures cowed == 1 ==> Ent(t, p).cow && Retried(s, o, u, o'', p) && !Ent(u, p).cow && Ent(u, p).rw
    ensures cowed != 1 ==> !Ent(t, p).cow && Retried(s, o, u, o'', p) && Ent(u, p) == Ent(t, p)
  {
    GoingTrans(s, o, t, o', u, o'');
    assert Lazy(t, p, p) == 0 && Lazy(t, p, p + 1) == if Ent(t, p).cow then 1 else 0;
    assert CopiedPage(t, u, p);
    forall q | 0 <= q < PAGES && q != p ensures Ent(u, q) == Ent(t, q) {
      assert Same(t, u, q);
    }
    if u.ml != ML_EXCEEDED {
      CopyView(t, u, p, p + 1);
    }
  }

  lemma StoreStep(s: State, o: Own, p: nat, j: nat, x: nat)
    requires Inv(s, o) && o.moved == {} && IsUser(p) && j < 1024 && Ent(s, p) != NONE && !Ent(s, p).shared
    ensures var t := SetPage(s, p, High(s, Ent(s, p).frame)[j := x]);
      && Inv(t, o) && Kept(s, o, t, o) && t.ml == s.ml
      && WordsKeptBut(s, t, p)
    ensures s.ml != ML_EXCEEDED ==>
      p in View(s) && View(SetPage(s, p, High(s, Ent(s, p).frame)[j := x])) == FlatStore(View(s), p, j, x)
  {
    var page := High(s, Ent(s, p).frame)[j := x];
    SetPageStep(s, o, p, page);
    var t := SetPage(s, p, page);
    forall q | 0 <= q < PAGES && q != p ensures Ent(t, q) == Ent(s, q) {
      assert Same(s, t, q);
    }
    if s.ml != ML_EXCEEDED {
      StoreView(s, t, p, j, x);
    }
  }

  lemma RetryStart(s: State, o: Own, p: nat)
    requires Inv(s, o) && o.moved == {}
    ensures Retried(s, o, s, o, p)
  {
  }

  lemma RetryGoing(s: State, o: Own, t: State, o': Own, p: nat)
    requires Retried(s, o, t, o', p)
    ensures Inv(t, o') && o'.moved <= o.moved
  {
  }

  /** What UserStore promises, between the state before and the state after. */
  ghost predicate Stored(s: State, o: Own, t: State, o': Own, p: nat, j: nat, x: nat, ok: bool)
    requires j < 1024
  {
    && Going(s, o, t, o') && WordsKeptBut(s, t, p)
    && (IsUser(p) ==> if Ent(s, p).cow then CopiedWord(s, t, p) else Ent(t, p) == Ent(s, p))
    && (t.ml != ML_EXCEEDED ==>
          && (ok <==> Allowed(View(s), p))
          && View(t) == (if ok then FlatStore(View(s), p, j, x) else View(s))
          && o'.drift == o.drift && t.ml == s.ml)
    && (t.ml == ML_EXCEEDED ==> Strained(s, p))
  }

  lemma RetryEnd(s: State, o: Own, t: State, o': Own, p: nat, j: nat, x: nat)
    requires Retried(s, o, t, o', p) && o.moved == {} && j < 1024
    requires IsUser(p) ==> !Ent(t, p).rw && !Ent(t, p).cow
    ensures Stored(s, o, t, o', p, j, x, false)
  {
  }

  lemma StoreEnd(s: State, o: Own, t: State, o': Own, p: nat, j: nat, x: nat)
    requires Retried(s, o, t, o', p) && o.moved == {} && j < 1024 && IsUser(p) && HardwareWritable(t, p)
    ensures Stored(s, o, SetPage(t, p, High(t, Ent(t, p).frame)[j := x]), o', p, j, x, true)
  {
    HardwareMeaning(t, o', p);
    StoreStep(t, o', p, j, x);
    GoingTrans(s, o, t, o', SetPage(t, p, High(t, Ent(t, p).frame)[j := x]), o');
  }
}
