/** What the range operations of kernel/paging.c do to each page, as relations between the state
    before and the state after, and the counts their budget depends on. */
module Ranges {
  import opened Machine
  import opened Ownership

  /** map_range: the page ends private and mapped, and writable if asked for or writable before;
      a page that was private keeps its frame and contents. */
  ghost predicate MappedPage(s: State, t: State, p: nat, rw: bool)
    requires p < PAGES
  {
    && Ent(t, p) != NONE && !Ent(t, p).shared && !Ent(t, p).cow
    && Ent(t, p).rw == (rw || Ent(s, p).rw || Ent(s, p).cow)
    && (Ent(s, p) != NONE && !Ent(s, p).shared ==>
          && Ent(t, p).frame == Ent(s, p).frame
          && (t.ml != ML_EXCEEDED ==> High(t, Ent(t, p).frame) == High(s, Ent(s, p).frame)))
  }

  /** set_rights: the page is writable or not, as asked for, and otherwise the same. */
  ghost predicate ProtectedPage(s: State, t: State, p: nat, w: bool)
    requires p < PAGES
  {
    && (Ent(t, p) == NONE <==> Ent(s, p) == NONE)
    && (Ent(s, p) != NONE ==>
          && Ent(t, p).frame == Ent(s, p).frame && Ent(t, p).shared == Ent(s, p).shared
          && Ent(t, p).rest == Ent(s, p).rest
          && (Ent(t, p).rw || Ent(t, p).cow) == w
          && (t.ml != ML_EXCEEDED ==> High(t, Ent(t, p).frame) == High(s, Ent(s, p).frame)))
  }

  /** cow_range: a page the program may write ends in a frame of its own, really writable, with
      the contents it had. */
  ghost predicate CopiedPage(s: State, t: State, p: nat)
    requires p < PAGES
  {
    if Ent(s, p).cow then
      && Ent(t, p) != NONE && Ent(t, p).rw && !Ent(t, p).cow && !Ent(t, p).shared
      && (t.ml != ML_EXCEEDED ==> High(t, Ent(t, p).frame) == High(s, Ent(s, p).frame))
    else
      Same(s, t, p)
  }

  ghost predicate MapRel(s: State, t: State, from: nat, to: nat, rw: bool) {
    forall p :: 0 <= p < PAGES ==> if from <= p < to then MappedPage(s, t, p, rw) else Same(s, t, p)
  }

  ghost predicate UnmapRel(s: State, t: State, from: nat, to: nat) {
    forall p :: 0 <= p < PAGES ==> if from <= p < to then Ent(t, p) == NONE else Same(s, t, p)
  }

  ghost predicate ProtectRel(s: State, t: State, from: nat, to: nat, w: bool) {
    forall p :: 0 <= p < PAGES ==> if from <= p < to then ProtectedPage(s, t, p, w) else Same(s, t, p)
  }

  ghost predicate CopyRel(s: State, t: State, from: nat, to: nat) {
    forall p :: 0 <= p < PAGES ==> if from <= p < to then CopiedPage(s, t, p) else Same(s, t, p)
  }

  /** Pages of the range that take a frame when they are mapped. */
  function Need(s: State, from: nat, to: nat): nat
    requires to <= PAGES
  {
    if to <= from then 0
    else Need(s, from, to - 1) + (if Ent(s, to - 1) == NONE || Ent(s, to - 1).shared then 1 else 0)
  }

  /** Pages of the range that are the snapshot's. */
  function Shared(s: State, from: nat, to: nat): nat
    requires to <= PAGES
  {
    if to <= from then 0
    else Shared(s, from, to - 1) + (if Ent(s, to - 1).shared then 1 else 0)
  }

  /** Pages of the range that are mapped. */
  function Present(s: State, from: nat, to: nat): nat
    requires to <= PAGES
  {
    if to <= from then 0
    else Present(s, from, to - 1) + (if Ent(s, to - 1) != NONE then 1 else 0)
  }

  /** Pages of the range to be copied on the next write. */
  function Lazy(s: State, from: nat, to: nat): nat
    requires to <= PAGES
  {
    if to <= from then 0
    else Lazy(s, from, to - 1) + (if Ent(s, to - 1).cow then 1 else 0)
  }

  /** map_range on a page of the snapshot reads the virtual page whose number is that of the
      snapshot frame, and takes a kernel page fault if nothing is mapped there. */
  ghost predicate FaultsAt(s: State, from: nat, p: nat)
    requires p < PAGES
  {
    && Ent(s, p).shared
    && Ent(s, p).frame < USER_END && Ent(s, Ent(s, p).frame) == NONE
    && !(from <= Ent(s, p).frame < p)
  }

  /** The budget after `n` pages were taken: exceeded exactly when it did not suffice. */
  ghost predicate Charged(s: State, t: State, n: nat) {
    && (t.ml == ML_EXCEEDED <==> s.ml == ML_EXCEEDED || s.ml < n)
    && (t.ml != ML_EXCEEDED ==> t.ml == s.ml - n)
  }

  lemma MapTrans(s: State, t: State, u: State, from: nat, mid: nat, to: nat, rw: bool)
    requires MapRel(s, t, from, mid, rw) && MapRel(t, u, mid, to, rw) && FIRST_USER <= from <= mid <= to <= USER_END
    requires t.ml == ML_EXCEEDED ==> u.ml == ML_EXCEEDED
    ensures MapRel(s, u, from, to, rw)
  {
    forall p | 0 <= p < PAGES
      ensures if from <= p < to then MappedPage(s, u, p, rw) else Same(s, u, p)
    {
      assert if from <= p < mid then MappedPage(s, t, p, rw) else Same(s, t, p);
      assert if mid <= p < to then MappedPage(t, u, p, rw) else Same(t, u, p);
    }
  }

  lemma UnmapTrans(s: State, t: State, u: State, from: nat, mid: nat, to: nat)
    requires UnmapRel(s, t, from, mid) && UnmapRel(t, u, mid, to) && FIRST_USER <= from <= mid <= to <= USER_END
    requires t.ml == ML_EXCEEDED ==> u.ml == ML_EXCEEDED
    ensures UnmapRel(s, u, from, to)
  {
  }

  lemma ProtectTrans(s: State, t: State, u: State, from: nat, mid: nat, to: nat, w: bool)
    requires ProtectRel(s, t, from, mid, w) && ProtectRel(t, u, mid, to, w)
    requires FIRST_USER <= from <= mid <= to <= USER_END
    requires t.ml == ML_EXCEEDED ==> u.ml == ML_EXCEEDED
    ensures ProtectRel(s, u, from, to, w)
  {
    forall p | 0 <= p < PAGES
      ensures if from <= p < to then ProtectedPage(s, u, p, w) else Same(s, u, p)
    {
      assert if from <= p < mid then ProtectedPage(s, t, p, w) else Same(s, t, p);
      assert if mid <= p < to then ProtectedPage(t, u, p, w) else Same(t, u, p);
    }
  }

  lemma CopyTrans(s: State, t: State, u: State, from: nat, mid: nat, to: nat)
    requires CopyRel(s, t, from, mid) && CopyRel(t, u, mid, to) && FIRST_USER <= from <= mid <= to <= USER_END
    requires t.ml == ML_EXCEEDED ==> u.ml == ML_EXCEEDED
    ensures CopyRel(s, u, from, to)
  {
    forall p | 0 <= p < PAGES
      ensures if from <= p < to then CopiedPage(s, u, p) else Same(s, u, p)
    {
      assert if from <= p < mid then CopiedPage(s, t, p) else Same(s, t, p);
      assert if mid <= p < to then CopiedPage(t, u, p) else Same(t, u, p);
    }
  }
}
