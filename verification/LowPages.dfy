/** The one gap of the snapshot. cow_prepare marks directory entries 1 to 767 but not entry 0, so
    the table of the first 4 MiB is written in place by the tests. Which operations leave its words
    as they were, exactly, and tests that do not. */
module LowPages {
  import opened Machine
  import opened Ownership
  import opened Ranges
  import opened MapSteps
  import opened RangeLoops
  import opened FlatMemory
  import opened RemapViews
  import opened Runs
  import opened StoreSteps
  import opened Snapshot

  /** What matters of a word there: absent, the snapshot's with its right to be written after a
      copy, or a frame the test took. */
  datatype LowWord = Vacant | Snap(cow: bool) | Taken

  function LowWordOf(e: Entry): LowWord {
    if e == NONE then Vacant else if e.shared then Snap(e.cow) else Taken
  }

  function LowView(s: State): map<nat, LowWord> {
    map p | FIRST_USER <= p < 1024 :: LowWordOf(Ent(s, p))
  }

  /** The words of a snapshot whose memory is `v`. */
  function FlatLow(v: Flat): map<nat, LowWord> {
    map p | FIRST_USER <= p < 1024 :: if p in v then Snap(v[p].writable) else Vacant
  }

  lemma FrozenLow(s: State)
    requires Frozen(s)
    ensures LowView(s) == FlatLow(View(s))
  {
  }

  /** What an operation makes of the word of page `p`; moves to these pages are not followed. */
  function LowWordAfter(w: LowWord, p: nat, op: Op): LowWord {
    match op
    case Mmap(from, to, _) => if from <= p < to then Taken else w
    case Munmap(from, to) => if from <= p < to then Vacant else w
    case Mprotect(from, to, rw) => if from <= p < to && w.Snap? then Snap(rw) else w
    case Store(q, _, _) => if p == q && w == Snap(true) then Taken else w
    case Copy(from, to) => if from <= p < to && w == Snap(true) then Taken else w
    case Move(_, _, _) => w
  }

  function LowStep(v: map<nat, LowWord>, op: Op): map<nat, LowWord> {
    map p | p in v :: LowWordAfter(v[p], p, op)
  }

  /** The words after a sequence of operations. */
  function LowAfter(v: map<nat, LowWord>, ops: seq<Op>): map<nat, LowWord> {
    if ops == [] then v else LowStep(LowAfter(v, ops[..|ops| - 1]), ops[|ops| - 1])
  }

  /** No page is moved to below 4 MiB. */
  predicate Quiet(op: Op) {
    op.Move? ==> op.n == 0 || 1024 <= op.to
  }

  /** A word that is the snapshot's is the one it was, but for the right. */
  ghost predicate LowCarried(s: State, t: State) {
    forall p :: FIRST_USER <= p < 1024 && Ent(t, p).shared ==>
      Ent(s, p).shared && Ent(t, p) == Ent(s, p).(cow := Ent(t, p).cow)
  }

  ghost predicate LowStepped(s: State, t: State, op: Op) {
    LowCarried(s, t) && LowView(t) == LowStep(LowView(s), op)
  }

  /** Between the tests every low page is the snapshot's. */
  ghost predicate LowFrozen(s: State) {
    forall p :: FIRST_USER <= p < 1024 && Ent(s, p) != NONE ==> Ent(s, p).shared
  }

  /** In terms of the words alone: the words are the same exactly when their views are. */
  lemma KeptExactly(s: State, t: State)
    requires LowFrozen(s) && LowCarried(s, t)
    ensures LowPagesKept(s, t) <==> LowView(t) == LowView(s)
  {
    forall p | FIRST_USER <= p < 1024
      ensures Ent(t, p) == Ent(s, p) <==> LowWordOf(Ent(t, p)) == LowWordOf(Ent(s, p))
    {
    }
    if LowPagesKept(s, t) {
      assert forall p :: p in LowView(s) ==> LowView(t)[p] == LowView(s)[p];
    } else {
      var p :| FIRST_USER <= p < 1024 && Ent(t, p) != Ent(s, p);
      assert LowView(t)[p] != LowView(s)[p];
    }
  }

  lemma CarriedTrans(s: State, t: State, u: State)
    requires LowCarried(s, t) && LowCarried(t, u)
    ensures LowCarried(s, u)
  {
  }

  lemma AfterNext(v: map<nat, LowWord>, ops: seq<Op>, n: nat)
    requires n < |ops|
    ensures LowAfter(v, ops[..n + 1]) == LowStep(LowAfter(v, ops[..n]), ops[n])
  {
    assert ops[..n + 1][..n] == ops[..n];
  }

  // ---- one operation ----

  /** The words and their views, page by page. */
  lemma SteppedAt(s: State, t: State, op: Op)
    requires forall p :: FIRST_USER <= p < 1024 ==> LowWordOf(Ent(t, p)) == LowWordAfter(LowWordOf(Ent(s, p)), p, op)
    requires LowCarried(s, t)
    ensures LowStepped(s, t, op)
  {
    hide LowWordAfter, LowWordOf, Ent, LowCarried;
    assert forall p :: p in LowView(t) <==> p in LowStep(LowView(s), op);
    assert forall p :: p in LowView(t) ==> LowView(t)[p] == LowStep(LowView(s), op)[p];
  }

  lemma MmapLow(s: State, t: State, op: Op)
    requires op.Mmap? && OpOk(op) && MmapRel(s, t, op.from, op.to, op.w)
    ensures LowStepped(s, t, op)
  {
    forall p | FIRST_USER <= p < 1024
      ensures LowWordOf(Ent(t, p)) == LowWordAfter(LowWordOf(Ent(s, p)), p, op)
      ensures Ent(t, p).shared ==> Ent(t, p) == Ent(s, p)
    {
      assert !(op.from <= p < op.to) ==> Same(s, t, p);
    }
    SteppedAt(s, t, op);
  }

  lemma MunmapLow(s: State, t: State, op: Op)
    requires op.Munmap? && OpOk(op) && UnmapRel(s, t, op.from, op.to)
    ensures LowStepped(s, t, op)
  {
    forall p | FIRST_USER <= p < 1024
      ensures LowWordOf(Ent(t, p)) == LowWordAfter(LowWordOf(Ent(s, p)), p, op)
      ensures Ent(t, p).shared ==> Ent(t, p) == Ent(s, p)
    {
      assert !(op.from <= p < op.to) ==> Same(s, t, p);
    }
    SteppedAt(s, t, op);
  }

  lemma MprotectLow(s: State, o: Own, t: State, o': Own, op: Op)
    requires Inv(s, o) && Inv(t, o') && o.moved == {} && o'.moved == {}
    requires op.Mprotect? && OpOk(op) && ProtectRel(s, t, op.from, op.to, op.w)
    ensures LowStepped(s, t, op)
  {
    forall p | FIRST_USER <= p < 1024
      ensures LowWordOf(Ent(t, p)) == LowWordAfter(LowWordOf(Ent(s, p)), p, op)
      ensures Ent(t, p).shared ==> Ent(s, p).shared && Ent(t, p) == Ent(s, p).(cow := Ent(t, p).cow)
    {
      assert EntryOk(o, p, Ent(s, p)) && EntryOk(o', p, Ent(t, p));
      assert if op.from <= p < op.to then ProtectedPage(s, t, p, op.w) else Same(s, t, p);
    }
    SteppedAt(s, t, op);
  }

  lemma StoreLow(s: State, o: Own, t: State, o': Own, op: Op, ok: bool)
    requires Inv(s, o) && o.moved == {} && op.Store? && OpOk(op) && Stored(s, o, t, o', op.p, op.j, op.x, ok)
    ensures LowStepped(s, t, op)
  {
    forall p | FIRST_USER <= p < 1024
      ensures LowWordOf(Ent(t, p)) == LowWordAfter(LowWordOf(Ent(s, p)), p, op)
      ensures Ent(t, p).shared ==> Ent(t, p) == Ent(s, p)
    {
      assert EntryOk(o, p, Ent(s, p));
    }
    SteppedAt(s, t, op);
  }

  lemma CopyLow(s: State, o: Own, t: State, op: Op)
    requires Inv(s, o) && o.moved == {} && op.Copy? && OpOk(op) && CopyRel(s, t, op.from, op.to)
    ensures LowStepped(s, t, op)
  {
    forall p | FIRST_USER <= p < 1024
      ensures LowWordOf(Ent(t, p)) == LowWordAfter(LowWordOf(Ent(s, p)), p, op)
      ensures Ent(t, p).shared ==> Ent(t, p) == Ent(s, p)
    {
      assert EntryOk(o, p, Ent(s, p));
      assert if op.from <= p < op.to then CopiedPage(s, t, p) else Same(s, t, p);
    }
    SteppedAt(s, t, op);
  }

  lemma MoveLow(s: State, o: Own, t: State, o': Own, op: Op)
    requires op.Move? && OpOk(op) && Quiet(op)
    requires t == s || MovedDown(s, o, t, o', op.to, op.from, op.n)
    ensures LowStepped(s, t, op)
  {
    forall p | FIRST_USER <= p < 1024 ensures Ent(t, p) == Ent(s, p) {
    }
    SteppedAt(s, t, op);
  }

  /** A nonempty move to below 4 MiB always shows: its first target was free. */
  lemma MoveShows(s: State, o: Own, t: State, o': Own, op: Op)
    requires op.Move? && OpOk(op) && !Quiet(op) && CanMoveFlat(View(s), op.to, op.from, op.n)
    requires MovedDown(s, o, t, o', op.to, op.from, op.n)
    ensures !LowPagesKept(s, t)
  {
    assert Ent(t, op.to) == Ent(s, op.from);
    assert op.from in View(s) && op.to !in View(s);
  }

  // ---- the range operations ----

  /** map_range of pages that are free or the snapshot's leaves the words from 1 to 4 MiB alone
      exactly when the range starts at 4 MiB or above. */
  lemma MapLowExactly(s: State, t: State, from: nat, to: nat, rw: bool)
    requires InUser(from, to) && from < to && MapRel(s, t, from, to, rw)
    requires forall p :: from <= p < to && p < 1024 ==> Ent(s, p) == NONE || Ent(s, p).shared
    ensures LowPagesKept(s, t) <==> 1024 <= from
  {
    assert MappedPage(s, t, from, rw);
    if 1024 <= from {
      forall p | FIRST_USER <= p < 1024 ensures Ent(t, p) == Ent(s, p) {
        assert Same(s, t, p);
      }
    }
  }

  /** unmap_range leaves them alone exactly when none of the range below 4 MiB was mapped. */
  lemma UnmapLowExactly(s: State, t: State, from: nat, to: nat)
    requires InUser(from, to) && UnmapRel(s, t, from, to)
    ensures LowPagesKept(s, t) <==> forall p :: from <= p < to && p < 1024 ==> Ent(s, p) == NONE
  {
    forall p | FIRST_USER <= p < 1024 && !(from <= p < to) ensures Ent(t, p) == Ent(s, p) {
      assert Same(s, t, p);
    }
  }

  // ---- the first operation of a test ----

  /** The words of the snapshot that decide whether an operation leaves the low pages alone. */
  ghost predicate LowSafe(s: State, op: Op) {
    match op
    case Mmap(from, to, _) => from == to || 1024 <= from
    case Munmap(from, to) => forall p :: FIRST_USER <= p < 1024 && from <= p < to ==> Ent(s, p) == NONE
    case Mprotect(from, to, w) =>
      forall p :: FIRST_USER <= p < 1024 && from <= p < to ==> Ent(s, p) == NONE || Ent(s, p).cow == w
    case Store(p, _, _) => !(FIRST_USER <= p < 1024 && Ent(s, p).cow)
    case Copy(from, to) => forall p :: FIRST_USER <= p < 1024 && from <= p < to ==> !Ent(s, p).cow
    case Move(to, _, n) => n == 0 || 1024 <= to
  }

  /** The condition, page by page. */
  lemma SafePages(s: State, op: Op)
    requires LowFrozen(s) && OpOk(op) && Quiet(op) && forall p :: FIRST_USER <= p < 1024 && Ent(s, p).cow ==>
      Ent(s, p) != NONE
    ensures LowSafe(s, op) <==>
      forall p :: FIRST_USER <= p < 1024 ==> LowWordAfter(LowWordOf(Ent(s, p)), p, op) == LowWordOf(Ent(s, p))
  {
    if op.Mmap? && !LowSafe(s, op) {
      assert LowWordAfter(LowWordOf(Ent(s, op.from)), op.from, op) != LowWordOf(Ent(s, op.from));
    }
    if op.Store? && !LowSafe(s, op) {
      assert LowWordAfter(LowWordOf(Ent(s, op.p)), op.p, op) != LowWordOf(Ent(s, op.p));
    }
    if op.Copy? && !LowSafe(s, op) {
      var p :| FIRST_USER <= p < 1024 && op.from <= p < op.to && Ent(s, p).cow;
      assert LowWordAfter(LowWordOf(Ent(s, p)), p, op) != LowWordOf(Ent(s, p));
    }
    if op.Munmap? && !LowSafe(s, op) {
      var p :| FIRST_USER <= p < 1024 && op.from <= p < op.to && Ent(s, p) != NONE;
      assert LowWordAfter(LowWordOf(Ent(s, p)), p, op) != LowWordOf(Ent(s, p));
    }
    if op.Mprotect? && !LowSafe(s, op) {
      var p :| FIRST_USER <= p < 1024 && op.from <= p < op.to && Ent(s, p) != NONE && Ent(s, p).cow != op.w;
      assert LowWordAfter(LowWordOf(Ent(s, p)), p, op) != LowWordOf(Ent(s, p));
    }
  }

  lemma SafeExactly(s: State, op: Op)
    requires LowFrozen(s) && OpOk(op) && Quiet(op) && forall p :: FIRST_USER <= p < 1024 && Ent(s, p).cow ==>
      Ent(s, p) != NONE
    ensures LowSafe(s, op) <==> LowStep(LowView(s), op) == LowView(s)
  {
    SafePages(s, op);
    hide LowSafe, LowWordAfter, LowWordOf, Ent;
    var v, w := LowView(s), LowStep(LowView(s), op);
    assert w.Keys == v.Keys;
    if w == v {
      forall p | FIRST_USER <= p < 1024 ensures LowWordAfter(LowWordOf(Ent(s, p)), p, op) == LowWordOf(Ent(s, p)) {
        assert v[p] == w[p];
      }
    }
    if LowSafe(s, op) {
      assert forall p :: p in v ==> w[p] == v[p];
      assert w == v;
    }
  }

  // ---- tests that show the gap ----

  /** The test that maps page `p` and ends, from the frozen state `s` back to pop_paging. */
  function AfterMapping(s: State, p: nat): State
    requires p < PAGES
  {
    Popped(s, MapWord(Cloned(s), p, true))
  }

  /** A test that maps one free page below 4 MiB leaves it behind: the next test finds the page
      mapped, writable, and backed by a frame that the allocator will hand out again. */
  lemma LowPageLeaks(s: State, p: nat)
    requires Frozen(s) && s.ml != ML_EXCEEDED && FIRST_USER <= p < 1024 && Ent(s, p) == NONE
    ensures var u := AfterMapping(s, p);
      && Restored(s, u)
      && Ent(u, p) != NONE && !Ent(u, p).shared && Ent(u, p).rw && s.aHigh <= Ent(u, p).frame
      && !Frozen(u)
  {
    CloneInv(s);
    var c := Cloned(s);
    var o := CloneOwn(s);
    assert Dir(c)[0] == Dir(s)[0];
    MapStep(c, o, p, true);
    var t := MapWord(c, p, true);
    var o' := MapOwn(c, o, p);
    PopRestores(s, t, o');
    assert MappedPage(c, t, p, true);
    assert EntryOk(o', p, Ent(t, p));
    assert Ent(AfterMapping(s, p), p) == Ent(t, p);
  }

  /** So does a test that stores to a page of the snapshot below 4 MiB that it may write: its copy
      stays mapped for the next test. */
  lemma LowStoreLeaks(s: State, p: nat)
    requires Frozen(s) && s.ml < ML_EXCEEDED - 1 && FIRST_USER <= p < 1024 && Ent(s, p).cow
    ensures var u := Popped(s, CopyWord(Cloned(s), p));
      && Restored(s, u)
      && Ent(u, p) != NONE && !Ent(u, p).shared && Ent(u, p).rw && s.aHigh <= Ent(u, p).frame
      && !Frozen(u)
  {
    CloneInv(s);
    var c := Cloned(s);
    var o := CloneOwn(s);
    assert Dir(c)[0] == Dir(s)[0];
    CopyStep(c, o, p);
    var t := CopyWord(c, p);
    var o' := CopyOwn(c, o, p);
    PopRestores(s, t, o');
    assert CopiedPage(c, t, p);
    assert EntryOk(o', p, Ent(t, p));
    assert Ent(Popped(s, t), p) == Ent(t, p);
  }
}
