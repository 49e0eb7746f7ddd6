/** sys_mremap on plain memory: a mapping that moves down, and then grows. */
module RemapViews {
  import opened Machine
  import opened Ownership
  import opened Ranges
  import opened RangeLoops
  import opened Moves
  import opened FlatMemory

  lemma MovedPage(s: State, o: Own, m: State, om: Own, t: State, ot: Own, to: nat, from: nat, n: nat, p: nat)
    requires Movable(s, to, from, n) && to < from && MoveDone(s, o, m, om, to, from, 0, n)
    requires UnmapDone(m, om, t, ot, Uncovered(to, from, n), from + n) && t.ml != ML_EXCEEDED
    requires IsUser(p)
    ensures to <= p < to + n ==>
      Ent(t, p) == Ent(s, p - to + from) && High(t, Ent(t, p).frame) == High(s, Ent(s, p - to + from).frame)
    ensures !(to <= p < to + n) && from <= p < from + n ==> Ent(t, p) == NONE
    ensures !(to <= p < to + n) && !(from <= p < from + n) ==> Same(s, t, p)
  {
    assert Ent(m, p) == MovedEnt(s, to, from, 0, n, p);
    if Uncovered(to, from, n) <= p < from + n {
      assert Ent(t, p) == NONE;
    } else {
      assert Same(m, t, p);
    }
  }

  lemma MoveViewAt(s: State, t: State, to: nat, from: nat, n: nat, p: nat)
    requires Movable(s, to, from, n) && to < from && t.ml != ML_EXCEEDED && IsUser(p)
    requires forall q :: from <= q < from + n ==> q in View(s)
    requires to <= p < to + n ==>
      Ent(t, p) == Ent(s, p - to + from) && High(t, Ent(t, p).frame) == High(s, Ent(s, p - to + from).frame)
    requires !(to <= p < to + n) && from <= p < from + n ==> Ent(t, p) == NONE
    requires !(to <= p < to + n) && !(from <= p < from + n) ==> Same(s, t, p)
    ensures p in View(t) <==> p in FlatMove(View(s), to, from, n)
    ensures p in View(t) ==> View(t)[p] == FlatMove(View(s), to, from, n)[p]
  {
    hide Ent, High;
    assert p in Range(to, to + n) <==> to <= p < to + n;
    assert p in Range(from, from + n) <==> from <= p < from + n;
    if to <= p < to + n {
      assert p - to + from in View(s);
    }
  }

  lemma UserKeys(s: State, to: nat, from: nat, n: nat)
    requires Movable(s, to, from, n) && forall q :: from <= q < from + n ==> q in View(s)
    ensures forall p :: p in FlatMove(View(s), to, from, n) ==> IsUser(p)
  {
  }

  /** A downward move and the unmapping of what it leaves behind is a move of plain memory: the old
      contents and rights at the new place, nothing left at the old one, all else untouched. */
  lemma MoveView(s: State, o: Own, m: State, om: Own, t: State, ot: Own, to: nat, from: nat, n: nat)
    requires Movable(s, to, from, n) && to < from && MoveDone(s, o, m, om, to, from, 0, n)
    requires UnmapDone(m, om, t, ot, Uncovered(to, from, n), from + n) && t.ml != ML_EXCEEDED
    ensures forall p :: from <= p < from + n ==> p in View(s)
    ensures View(t) == FlatMove(View(s), to, from, n)
  {
    forall p: nat | from <= p < from + n ensures p in View(s) {
      assert Ent(s, p) != NONE;
    }
    UserKeys(s, to, from, n);
    var f := FlatMove(View(s), to, from, n);
    forall p: nat ensures (p in View(t) <==> p in f) && (p in View(t) && p in f ==> View(t)[p] == f[p]) {
      if IsUser(p) {
        MovedPage(s, o, m, om, t, ot, to, from, n, p);
        hide MoveDone, UnmapDone, FlatMoved, FlatMove;
        MoveViewAt(s, t, to, from, n, p);
      }
    }
    hide *;
    FlatEqual(View(t), f);
  }

  /** After a downward move the marked words are exactly those unmapped next. */
  lemma MovedWillUnmap(s: State, o: Own, m: State, om: Own, to: nat, from: nat, n: nat)
    requires Movable(s, to, from, n) && to < from && MoveDone(s, o, m, om, to, from, 0, n)
    ensures CanUnmap(om, Uncovered(to, from, n), from + n)
  {
  }

  /** After that no move is pending, and the budget is too high by one for every page unmapped. */
  lemma MoveFinished(s: State, o: Own, m: State, om: Own, t: State, ot: Own, to: nat, from: nat, n: nat)
    requires Movable(s, to, from, n) && to < from && MoveDone(s, o, m, om, to, from, 0, n)
    requires UnmapDone(m, om, t, ot, Uncovered(to, from, n), from + n)
    ensures ot.moved == {} && ot.drift == o.drift + (from + n - Uncovered(to, from, n))
  {
    assert forall p :: p !in ot.moved;
  }

  /** After an upward move the whole source is still mapped, marked, and sys_mremap unmaps none of
      it, because it starts to unmap above its end. */
  lemma UpwardLeaves(s: State, o: Own, m: State, om: Own, to: nat, from: nat, n: nat, p: nat)
    requires Movable(s, to, from, n) && from + n <= to && MoveDone(s, o, m, om, to, from, 0, n)
    requires from <= p < from + n
    ensures p in om.moved && Ent(m, p) == Ent(s, p).(shared := true) && Ent(m, p - from + to) == Ent(s, p)
    ensures from + n <= Uncovered(to, from, n)
  {
    assert Ent(m, p) == MovedEnt(s, to, from, 0, n, p);
    assert Ent(m, p - from + to) == MovedEnt(s, to, from, 0, n, p - from + to);
  }

  /** Growth into free pages: map_range and memset, without set_rights. */
  lemma GrowView(s: State, a: State, t: State, from: nat, to: nat, w: bool)
    requires FIRST_USER <= from <= to <= USER_END && Absent(s, from, to)
    requires MapRel(s, a, from, to, w) && ZeroRel(a, t, from, to)
    ensures MmapRel(s, t, from, to, w)
  {
    forall p | 0 <= p < PAGES
      ensures if from <= p < to then
          && Ent(t, p) != NONE && !Ent(t, p).shared && (Ent(t, p).rw || Ent(t, p).cow) == w
          && (t.ml != ML_EXCEEDED ==> High(t, Ent(t, p).frame) == ZeroPage())
        else Same(s, t, p)
    {
      assert if from <= p < to then MappedPage(s, a, p, w) else Same(s, a, p) && Same(a, t, p);
    }
  }

  /** A mapping has moved down: on plain memory its pages are at the new place only. The budget
      words claim as many pages too much as were unmapped behind it. */
  ghost predicate MovedDown(s: State, o: Own, t: State, o': Own, to: nat, from: nat, n: nat)
    requires from + n <= PAGES
  {
    && o'.drift == o.drift + (from + n - Uncovered(to, from, n))
    && Uncovered(to, from, n) <= from + n && t.ml == Credited(s.ml, from + n - Uncovered(to, from, n))
    && (forall q :: from <= q < from + n ==> q in View(s))
    && (t.ml != ML_EXCEEDED ==> View(t) == FlatMove(View(s), to, from, n))
    && (forall q :: 0 <= q < PAGES && !(to <= q < to + n) ==>
          Ent(t, q) == if from <= q < from + n then NONE else Ent(s, q))
    && (forall q :: 0 <= q < PAGES && to <= q < to + n ==> Ent(t, q) == Ent(s, q - to + from))
  }

  lemma {:induction false} AllPresent(s: State, from: nat, to: nat)
    requires from <= to <= PAGES && forall p :: from <= p < to ==> Ent(s, p) != NONE
    ensures Present(s, from, to) == to - from
  {
    if from < to {
      AllPresent(s, from, to - 1);
    }
  }

  /** All that is unmapped behind a move was mapped. */
  lemma MoveCredit(s: State, o: Own, m: State, om: Own, to: nat, from: nat, n: nat)
    requires Movable(s, to, from, n) && to < from && MoveDone(s, o, m, om, to, from, 0, n)
    ensures Uncovered(to, from, n) <= from + n
    ensures Present(m, Uncovered(to, from, n), from + n) == from + n - Uncovered(to, from, n)
  {
    forall p | Uncovered(to, from, n) <= p < from + n ensures Ent(m, p) != NONE {
      assert Ent(m, p) == MovedEnt(s, to, from, 0, n, p);
    }
    AllPresent(m, Uncovered(to, from, n), from + n);
  }

  lemma MovedDownWords(s: State, o: Own, m: State, om: Own, t: State, ot: Own, to: nat, from: nat, n: nat)
    requires Movable(s, to, from, n) && to < from && MoveDone(s, o, m, om, to, from, 0, n)
    requires UnmapDone(m, om, t, ot, Uncovered(to, from, n), from + n)
    ensures forall q :: 0 <= q < PAGES && !(to <= q < to + n) ==>
      Ent(t, q) == if from <= q < from + n then NONE else Ent(s, q)
    ensures forall q :: 0 <= q < PAGES && to <= q < to + n ==> Ent(t, q) == Ent(s, q - to + from)
  {
    forall q | 0 <= q < PAGES
      ensures Ent(t, q) == if to <= q < to + n then Ent(s, q - to + from)
                           else if from <= q < from + n then NONE else Ent(s, q)
    {
      assert Ent(m, q) == MovedEnt(s, to, from, 0, n, q);
      assert Uncovered(to, from, n) <= q < from + n || Same(m, t, q);
    }
  }

  lemma MovedDownDone(s: State, o: Own, m: State, om: Own, t: State, ot: Own, to: nat, from: nat, n: nat)
    requires Movable(s, to, from, n) && to < from && MoveDone(s, o, m, om, to, from, 0, n)
    requires UnmapDone(m, om, t, ot, Uncovered(to, from, n), from + n)
    ensures MovedDown(s, o, t, ot, to, from, n) && ot.moved == {}
  {
    MoveFinished(s, o, m, om, t, ot, to, from, n);
    MoveCredit(s, o, m, om, to, from, n);
    MovedDownWords(s, o, m, om, t, ot, to, from, n);
    forall q: nat | from <= q < from + n ensures q in View(s) {
      assert Ent(s, q) != NONE;
    }
    if t.ml != ML_EXCEEDED {
      MoveView(s, o, m, om, t, ot, to, from, n);
    }
  }
}
