/** Who owns which frame. The invariant of every reachable state of the paging code and the two
    free lists, in ghost terms: a map from each privately referenced frame to the one place that
    references it, and the contents of the free lists. */
module Ownership {
  import opened Integers
  import opened Machine

  /** What a frame handed out since the marks were set is for: the one directory entry or page
      that references it, or its place in the free list (0 is the bottom of the list). */
  datatype Use = At(place: nat) | Free(rank: nat)

  /** Frames below `lowMark` and `highMark` are not the current run's to write (after
      clone_paging they are the snapshot's). `low` and `high` give every frame from the marks up
      its one use; `freeLow` and `freeHigh` are the free lists, last the next frame to hand out.
      `snap` holds the directory words of the snapshot's tables. `drift` is how far `ml` is above the
      budget that is really left. `moved` are the source pages of an unfinished page move. */
  datatype Own = Own(lowMark: nat, highMark: nat, low: map<nat, Use>, high: map<nat, Use>,
                     freeLow: seq<nat>, freeHigh: seq<nat>, snap: map<nat, Entry>,
                     drift: int, moved: set<nat>)

  /** The element below index `k` of a free list, or null. */
  function Below(l: seq<nat>, k: nat): nat
    requires k <= |l|
  {
    if k == 0 then 0 else l[k - 1]
  }

  /** A directory word for a table of the snapshot. */
  ghost predicate SnapshotDir(s: State, o: Own, d: nat, e: Entry) {
    && d in o.snap && o.snap[d] == e
    && e.shared && e.rest % 2 == 1 && e.rw
    && e.frame < o.lowMark && e.frame != s.cr3 && e.frame != Dir(s)[0].frame
  }

  /** Entry `d` of the directory, for the program's part of the address space above 4 MiB:
      absent, a table of the snapshot, or a private table. */
  ghost predicate DirEntryOk(s: State, o: Own, d: nat)
    requires d < 1024
  {
    Dir(s)[d] != NONE ==>
      && (Dir(s)[d].shared ==> SnapshotDir(s, o, d, Dir(s)[d]))
      && (!Dir(s)[d].shared ==>
            && Dir(s)[d].rest % 2 == 1 && Dir(s)[d].rw
            && Dir(s)[d].frame in o.low && o.low[Dir(s)[d].frame] == At(d))
  }

  /** Entries 0 and 768..1023 are the kernel's: never replaced, in frames below the mark. */
  ghost predicate Pinned(s: State, o: Own) {
    && 0 < s.cr3 < o.lowMark <= s.aLow
    && Dir(s)[0] != NONE && !Dir(s)[0].shared
    && 0 < Dir(s)[0].frame < o.lowMark && Dir(s)[0].frame != s.cr3
    && Dir(s)[0].rest % 2 == 1 && Dir(s)[0].rw
    && (forall d :: 768 <= d < 1024 ==>
          && Dir(s)[d] != NONE && !Dir(s)[d].shared
          && Dir(s)[d].frame < o.lowMark && Dir(s)[d].frame != s.cr3
          && Dir(s)[d].frame != Dir(s)[0].frame)
  }

  /** Every low frame handed out has one use, and every private table is one of those frames. */
  ghost predicate Tables(s: State, o: Own) {
    && Pinned(s, o)
    && (forall d :: 1 <= d < 768 ==> DirEntryOk(s, o, d))
    && (forall f: nat :: f in o.low <==> o.lowMark <= f < s.aLow)
    && (forall f :: f in o.low && o.low[f].At? ==>
          var d := o.low[f].place;
          && 1 <= d < 768 && Dir(s)[d] != NONE && !Dir(s)[d].shared && Dir(s)[d].frame == f)
  }

  /** The low free list is a null-ended chain through the first words of the free frames. */
  ghost predicate LowList(s: State, o: Own) {
    && s.lLow == Below(o.freeLow, |o.freeLow|)
    && (forall f :: f in o.low && o.low[f].Free? ==>
          o.low[f].rank < |o.freeLow| && o.freeLow[o.low[f].rank] == f)
    && (forall k :: 0 <= k < |o.freeLow| ==>
          o.freeLow[k] in o.low && o.low[o.freeLow[k]] == Free(k))
    && (forall k {:trigger Below(o.freeLow, k)} :: 0 <= k < |o.freeLow| ==>
          Low(s, o.freeLow[k])[0] == Link(Below(o.freeLow, k)))
  }

  /** A word of the program's part of a table: never writable by the processor in a snapshot
      frame, and lazily writable only there. */
  ghost predicate EntryOk(o: Own, p: nat, e: Entry) {
    e != NONE && p !in o.moved ==>
      && e.rest % 2 == 1
      && (e.shared ==> e.frame < o.highMark && !e.rw)
      && (!e.shared ==> o.highMark <= e.frame && !e.cow)
  }

  /** Page 1 and the first page above the program are the kernel's, so that the table of the first
      4 MiB is never empty and every scan upwards ends. */
  ghost predicate Entries(s: State, o: Own) {
    && Ent(s, 1) != NONE && Ent(s, USER_END) != NONE
    && (forall p :: FIRST_USER <= p < USER_END ==> EntryOk(o, p, Ent(s, p)))
    && (forall p :: p in o.moved ==> IsUser(p) && Ent(s, p).shared)
  }

  /** Every data frame handed out has one use, and every private page is one of those frames. */
  ghost predicate Pages(s: State, o: Own) {
    && (forall p :: FIRST_USER <= p < USER_END && Ent(s, p) != NONE && !Ent(s, p).shared ==>
          Ent(s, p).frame in o.high && o.high[Ent(s, p).frame] == At(p))
    && (forall f: nat :: f in o.high <==> o.highMark <= f < s.aHigh)
    && (forall f :: f in o.high && o.high[f].At? ==>
          var p := o.high[f].place;
          && IsUser(p) && Ent(s, p) != NONE && !Ent(s, p).shared && Ent(s, p).frame == f)
  }

  ghost predicate HighList(s: State, o: Own) {
    && s.lHigh == Below(o.freeHigh, |o.freeHigh|)
    && (forall f :: f in o.high && o.high[f].Free? ==>
          o.high[f].rank < |o.freeHigh| && o.freeHigh[o.high[f].rank] == f)
    && (forall k :: 0 <= k < |o.freeHigh| ==>
          o.freeHigh[k] in o.high && o.high[o.freeHigh[k]] == Free(k))
    && (forall k {:trigger Below(o.freeHigh, k)} :: 0 <= k < |o.freeHigh| ==>
          High(s, o.freeHigh[k])[0] == Below(o.freeHigh, k))
  }

  /** The budget: `ml` and the mapped pages add up to the limit, up to the drift. */
  ghost predicate Budget(s: State, o: Own) {
    s.ml + |Mapped(s)| == s.mlOrig + o.drift
  }

  /** The page directory part of the invariant, which holds whatever the budget does. */
  ghost predicate Safe(s: State, o: Own) {
    && 0 < o.highMark <= s.aHigh
    && s.ml < U32 && s.mlOrig < U32
    && Tables(s, o)
    && LowList(s, o)
    && Entries(s, o)
  }

  /** While the budget is not exceeded, the data frames are accounted for as well. */
  ghost predicate Owned(s: State, o: Own) {
    && Pages(s, o)
    && HighList(s, o)
    && Budget(s, o)
  }

  ghost predicate Inv(s: State, o: Own) {
    Safe(s, o) && (s.ml != ML_EXCEEDED ==> Owned(s, o))
  }

  /** What no operation of a run changes: the memory below the marks, except the directory in use
      and the table of the first 4 MiB; of that table, the kernel's part. */
  ghost predicate KeptMemory(s: State, o: Own, s': State, o': Own) {
    && s'.cr3 == s.cr3
    && o'.lowMark == o.lowMark && o'.highMark == o.highMark && o'.snap == o.snap
    && s.aLow <= s'.aLow && s.aHigh <= s'.aHigh
    && Dir(s')[0] == Dir(s)[0]
    && (forall d :: 768 <= d < 1024 ==> Dir(s')[d] == Dir(s)[d])
    && (forall f: nat :: f < o.lowMark && f != s.cr3 && f != Dir(s)[0].frame ==> Low(s', f) == Low(s, f))
    && (forall i :: 0 <= i < 256 ==> Low(s', Dir(s)[0].frame)[i] == Low(s, Dir(s)[0].frame)[i])
    && (forall f: nat :: f < o.highMark ==> High(s', f) == High(s, f))
  }

  /** The same for the operations that leave the limit alone; an exceeded budget stays exceeded. */
  ghost predicate Kept(s: State, o: Own, s': State, o': Own) {
    && KeptMemory(s, o, s', o')
    && s'.mlOrig == s.mlOrig && (s.ml == ML_EXCEEDED ==> s'.ml == ML_EXCEEDED)
  }

  /** Page `p` is as it was: same word, and (unless the budget is exceeded) same contents. */
  ghost predicate Same(s: State, s': State, p: nat)
    requires p < PAGES
  {
    && Ent(s', p) == Ent(s, p)
    && (s'.ml != ML_EXCEEDED && IsUser(p) && Ent(s, p) != NONE ==>
          High(s', Ent(s, p).frame) == High(s, Ent(s, p).frame))
  }
}
