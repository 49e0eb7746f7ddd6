/** The plain memory a program should see, and the proof that the copy-on-write operations act on
    the view of it as plain operations do. */
module FlatMemory {
  import opened Integers
  import opened Machine
  import opened Ownership
  import opened Ranges

  type Flat = map<nat, PageView>

  function Range(from: nat, to: nat): set<nat> {
    set p: nat | p < to && InRange(p, from, to)
  }

  /** A fresh zeroed mapping. */
  function FlatZero(v: Flat, from: nat, to: nat, w: bool): Flat {
    map p | p in v.Keys + Range(from, to) :: if from <= p < to then PageView(ZeroPage(), w) else v[p]
  }

  /** Zeros over whatever is there; a right that a page had stays. */
  function FlatClear(v: Flat, from: nat, to: nat, w: bool): Flat {
    map p | p in v.Keys + Range(from, to) ::
      if from <= p < to then PageView(ZeroPage(), w || (p in v && v[p].writable)) else v[p]
  }

  /** Cleared pages read as zeros, and may be written if asked for or before. */
  lemma ClearedReads(v: Flat, from: nat, to: nat, w: bool, p: nat)
    requires from <= p < to
    ensures var u := FlatClear(v, from, to, w);
      && p in u && (forall i :: 0 <= i < 1024 ==> u[p].contents[i] == 0)
      && (u[p].writable <==> w || (p in v && v[p].writable))
  {
  }

  function FlatUnmap(v: Flat, from: nat, to: nat): Flat {
    map p | p in v && !(from <= p < to) :: v[p]
  }

  function FlatProtect(v: Flat, from: nat, to: nat, w: bool): Flat {
    map p | p in v :: if from <= p < to then v[p].(writable := w) else v[p]
  }

  function FlatStore(v: Flat, p: nat, k: nat, x: nat): Flat
    requires p in v && k < 1024
  {
    v[p := v[p].(contents := v[p].contents[k := x])]
  }

  /** Page `p` after the `n` pages from `from` on have moved to `to`. */
  function FlatMoved(v: Flat, to: nat, from: nat, n: nat, p: nat): PageView
    requires forall q :: from <= q < from + n ==> q in v
    requires p in v || to <= p < to + n
  {
    if to <= p < to + n then v[p - to + from] else v[p]
  }

  /** The `n` pages from `from` on are now at `to`, and nowhere else. */
  function FlatMove(v: Flat, to: nat, from: nat, n: nat): Flat
    requires forall q :: from <= q < from + n ==> q in v
  {
    map p | p in v.Keys - Range(from, from + n) + Range(to, to + n) :: FlatMoved(v, to, from, n, p)
  }

  /** The part of the source that no target covers, as sys_mremap unmaps it. */
  function Uncovered(to: nat, from: nat, n: nat): nat {
    if to + n < from then from else to + n
  }

  lemma FlatEqual(u: Flat, v: Flat)
    requires forall p :: p in u <==> p in v
    requires forall p :: p in u && p in v ==> u[p] == v[p]
    ensures u == v
  {
  }

  lemma SameInView(s: State, t: State, p: nat)
    requires IsUser(p) && Same(s, t, p) && t.ml != ML_EXCEEDED
    ensures p in View(t) <==> p in View(s)
    ensures p in View(s) ==> View(t)[p] == View(s)[p]
  {
  }

  lemma UnmapView(s: State, t: State, from: nat, to: nat)
    requires UnmapRel(s, t, from, to) && t.ml != ML_EXCEEDED
    ensures View(t) == FlatUnmap(View(s), from, to)
  {
    forall p: nat | IsUser(p)
      ensures p in View(t) <==> p in FlatUnmap(View(s), from, to)
      ensures p in View(t) ==> View(t)[p] == FlatUnmap(View(s), from, to)[p]
    {
      if !(from <= p < to) {
        SameInView(s, t, p);
      }
    }
  }

  lemma ProtectView(s: State, t: State, from: nat, to: nat, w: bool)
    requires ProtectRel(s, t, from, to, w) && t.ml != ML_EXCEEDED
    ensures View(t) == FlatProtect(View(s), from, to, w)
  {
    forall p: nat | IsUser(p)
      ensures p in View(t) <==> p in View(s)
      ensures p in View(t) ==> View(t)[p] == FlatProtect(View(s), from, to, w)[p]
    {
      if from <= p < to {
        assert ProtectedPage(s, t, p, w);
      } else {
        SameInView(s, t, p);
      }
    }
  }

  /** Copying pages is invisible to the program. */
  lemma CopyView(s: State, t: State, from: nat, to: nat)
    requires CopyRel(s, t, from, to) && t.ml != ML_EXCEEDED
    ensures View(t) == View(s)
  {
    forall p: nat | IsUser(p)
      ensures p in View(t) <==> p in View(s)
      ensures p in View(t) ==> View(t)[p] == View(s)[p]
    {
      if from <= p < to && Ent(s, p).cow {
        assert CopiedPage(s, t, p);
      } else {
        assert from <= p < to ==> CopiedPage(s, t, p);
        SameInView(s, t, p);
      }
    }
  }

  // ---- an anonymous mapping: map_range, set_rights when read-only, memset ----

  /** memset over pages: same words, zeroed contents. */
  ghost predicate ZeroRel(s: State, t: State, from: nat, to: nat) {
    && t == s.(high := t.high)
    && (forall p :: 0 <= p < PAGES ==>
          if from <= p < to then
            Ent(t, p) == Ent(s, p) && (t.ml != ML_EXCEEDED ==> High(t, Ent(t, p).frame) == ZeroPage())
          else Same(s, t, p))
  }

  /** The range is private to the run, so that the kernel may store to it. */
  ghost predicate Private(s: State, from: nat, to: nat)
    requires to <= PAGES
  {
    forall p :: from <= p < to ==> Ent(s, p) != NONE && !Ent(s, p).shared
  }

  ghost predicate MmapRel(s: State, t: State, from: nat, to: nat, w: bool) {
    forall p :: 0 <= p < PAGES ==>
      if from <= p < to then
        && Ent(t, p) != NONE && !Ent(t, p).shared && (Ent(t, p).rw || Ent(t, p).cow) == w
        && (t.ml != ML_EXCEEDED ==> High(t, Ent(t, p).frame) == ZeroPage())
      else Same(s, t, p)
  }

  lemma ZeroTrans(s: State, t: State, u: State, from: nat, mid: nat, to: nat)
    requires ZeroRel(s, t, from, mid) && ZeroRel(t, u, mid, to) && FIRST_USER <= from <= mid <= to <= USER_END
    requires Private(s, from, to)
    ensures ZeroRel(s, u, from, to)
  {
    forall p | 0 <= p < PAGES
      ensures if from <= p < to then
          Ent(u, p) == Ent(s, p) && (u.ml != ML_EXCEEDED ==> High(u, Ent(u, p).frame) == ZeroPage())
        else Same(s, u, p)
    {
      assert mid <= p < to || Same(t, u, p);
      assert from <= p < mid || Same(s, t, p);
    }
  }

  lemma MmapWritable(s: State, a: State, t: State, from: nat, to: nat)
    requires MapRel(s, a, from, to, true) && ZeroRel(a, t, from, to)
    ensures MmapRel(s, t, from, to, true)
  {
    forall p | 0 <= p < PAGES
      ensures if from <= p < to then
          && Ent(t, p) != NONE && !Ent(t, p).shared && (Ent(t, p).rw || Ent(t, p).cow)
          && (t.ml != ML_EXCEEDED ==> High(t, Ent(t, p).frame) == ZeroPage())
        else Same(s, t, p)
    {
      assert if from <= p < to then MappedPage(s, a, p, true) else Same(s, a, p) && Same(a, t, p);
    }
  }

  lemma MmapReadOnly(s: State, a: State, b: State, t: State, from: nat, to: nat)
    requires MapRel(s, a, from, to, false) && ProtectRel(a, b, from, to, false) && ZeroRel(b, t, from, to)
    requires a.ml == b.ml
    ensures MmapRel(s, t, from, to, false)
  {
    forall p | 0 <= p < PAGES
      ensures if from <= p < to then
          && Ent(t, p) != NONE && !Ent(t, p).shared && !(Ent(t, p).rw || Ent(t, p).cow)
          && (t.ml != ML_EXCEEDED ==> High(t, Ent(t, p).frame) == ZeroPage())
        else Same(s, t, p)
    {
      if from <= p < to {
        assert MappedPage(s, a, p, false) && ProtectedPage(a, b, p, false);
      } else {
        assert Same(s, a, p) && Same(a, b, p) && Same(b, t, p);
      }
    }
  }

  lemma MmapPageView(s: State, t: State, from: nat, to: nat, w: bool, p: nat)
    requires MmapRel(s, t, from, to, w) && t.ml != ML_EXCEEDED && FIRST_USER <= from <= p < to <= USER_END
    ensures p in View(t) && View(t)[p] == PageView(ZeroPage(), w)
  {
  }

  lemma MmapView(s: State, t: State, from: nat, to: nat, w: bool)
    requires MmapRel(s, t, from, to, w) && t.ml != ML_EXCEEDED && FIRST_USER <= from <= to <= USER_END
    ensures View(t) == FlatZero(View(s), from, to, w)
  {
    hide Ent, High;
    forall p: nat | IsUser(p)
      ensures p in View(t) <==> p in FlatZero(View(s), from, to, w)
      ensures p in View(t) ==> View(t)[p] == FlatZero(View(s), from, to, w)[p]
    {
      assert p in Range(from, to) <==> from <= p < to;
      if from <= p < to {
        MmapPageView(s, t, from, to, w, p);
      } else {
        assert Same(s, t, p);
        SameInView(s, t, p);
      }
    }
  }

  lemma ClearPageView(s: State, a: State, t: State, from: nat, to: nat, w: bool, p: nat)
    requires MapRel(s, a, from, to, w) && ZeroRel(a, t, from, to) && t.ml != ML_EXCEEDED
    requires FIRST_USER <= from <= p < to <= USER_END
    ensures p in View(t) && View(t)[p] == PageView(ZeroPage(), w || (p in View(s) && View(s)[p].writable))
  {
    assert MappedPage(s, a, p, w) && Ent(t, p) == Ent(a, p);
  }

  lemma ViewInUser(s: State)
    ensures forall p :: p in View(s) ==> IsUser(p)
  {
  }

  lemma ClearInUser(s: State, from: nat, to: nat, w: bool)
    requires FIRST_USER <= from <= to <= USER_END
    ensures forall p :: p in FlatClear(View(s), from, to, w) ==> IsUser(p)
  {
  }

  /** map_range and memset without set_rights, over free and mapped pages alike. */
  lemma ClearView(s: State, a: State, t: State, from: nat, to: nat, w: bool)
    requires MapRel(s, a, from, to, w) && ZeroRel(a, t, from, to) && t.ml != ML_EXCEEDED
    requires FIRST_USER <= from <= to <= USER_END
    ensures View(t) == FlatClear(View(s), from, to, w)
  {
    forall p: nat | IsUser(p)
      ensures p in View(t) <==> p in FlatClear(View(s), from, to, w)
      ensures p in View(t) ==> View(t)[p] == FlatClear(View(s), from, to, w)[p]
    {
      assert p in Range(from, to) <==> from <= p < to;
      if from <= p < to {
        ClearPageView(s, a, t, from, to, w, p);
      } else {
        assert Same(s, a, p) && Same(a, t, p);
      }
    }
    hide *;
    ViewInUser(t);
    ClearInUser(s, from, to, w);
    FlatEqual(View(t), FlatClear(View(s), from, to, w));
  }

  /** A store to one word of a page the processor lets the program write. */
  ghost predicate StoreRel(s: State, t: State, p: nat, page: Page)
    requires p < PAGES
  {
    && Ent(t, p) == Ent(s, p) && Ent(t, p) != NONE && High(t, Ent(t, p).frame) == page
    && forall q :: 0 <= q < PAGES && q != p ==> Same(s, t, q)
  }

  lemma StoreView(s: State, t: State, p: nat, k: nat, x: nat)
    requires IsUser(p) && k < 1024 && t.ml != ML_EXCEEDED && Ent(s, p) != NONE
    requires StoreRel(s, t, p, High(s, Ent(s, p).frame)[k := x])
    ensures p in View(s) && View(t) == FlatStore(View(s), p, k, x)
  {
    hide Ent;
    forall q: nat | IsUser(q)
      ensures q in View(t) <==> q in View(s)
      ensures q != p && q in View(t) ==> View(t)[q] == View(s)[q]
    {
      if q != p {
        SameInView(s, t, q);
      }
    }
    assert View(t)[p] == FlatStore(View(s), p, k, x)[p];
  }

  lemma ViewKeys(s: State)
    ensures View(s).Keys == Mapped(s)
  {
  }
}
