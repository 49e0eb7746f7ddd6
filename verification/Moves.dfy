/** move_pages: page-table words move, their frames do not. The source words stay behind, marked
    with bit 1024 so that unmap_range will not free the frames; the ghost field `moved` names them. */
module Moves {
  import opened Integers
  import opened Machine
  import opened Ownership
  import opened PageOps
  import opened DataOps

  /** `pt1[i1b] = pt2[i2b]; pt2[i2b] |= 1024u;` */
  function MoveWord(s: State, p1: nat, p2: nat): State
    requires p1 < PAGES && p2 < PAGES
  {
    var t := SetEnt(s, p1, Ent(s, p2));
    SetEnt(t, p2, Ent(t, p2).(shared := true))
  }

  ghost function MoveOwn(s: State, o: Own, p1: nat, p2: nat): Own
    requires p1 < PAGES && p2 < PAGES
  {
    o.(high := if Ent(s, p2).shared then o.high else o.high[Ent(s, p2).frame := At(p1)],
       moved := o.moved - {p1} + {p2},
       drift := if Ent(s, p1) == NONE then o.drift + 1 else o.drift)
  }

  /** One page can move: the source is mapped and not yet moved, the target is free or was moved. */
  ghost predicate CanMove(s: State, o: Own, p1: nat, p2: nat) {
    && Inv(s, o) && IsUser(p1) && IsUser(p2) && p1 != p2
    && Dir(s)[p1 / 1024] != NONE && !Dir(s)[p1 / 1024].shared
    && Dir(s)[p2 / 1024] != NONE && !Dir(s)[p2 / 1024].shared
    && Ent(s, p2) != NONE && p2 !in o.moved
    && (Ent(s, p1) == NONE || p1 in o.moved)
  }

  /** The words after one page has moved. */
  ghost predicate MovedWords(s: State, t: State, p1: nat, p2: nat)
    requires p1 < PAGES && p2 < PAGES
  {
    && Ent(t, p1) == Ent(s, p2)
    && Ent(t, p2) == Ent(s, p2).(shared := true)
    && (forall q :: 0 <= q < PAGES && q != p1 && q != p2 ==> Ent(t, q) == Ent(s, q))
  }

  lemma MoveTables(s: State, o: Own, p1: nat, p2: nat)
    requires CanMove(s, o, p1, p2)
    ensures var t := MoveWord(s, p1, p2);
      && t == s.(low := t.low) && Dir(t) == Dir(s)
      && Tables(t, o) && LowList(t, o)
      && MovedWords(s, t, p1, p2)
    ensures Kept(s, o, MoveWord(s, p1, p2), o)
  {
    hide Pages, HighList, Entries, Budget;
    var a := SetEnt(s, p1, Ent(s, p2));
    SetEntTables(s, o, p1, Ent(s, p2));
    SetEntTables(a, o, p2, Ent(s, p2).(shared := true));
    KeptTrans(s, o, a, o, MoveWord(s, p1, p2), o);
  }

  lemma MoveOwned(s: State, o: Own, t: State, p1: nat, p2: nat)
    requires IsUser(p1) && IsUser(p2) && p1 != p2 && t == s.(low := t.low)
    requires Entries(s, o) && Pages(s, o) && HighList(s, o)
    requires Ent(s, p2) != NONE && p2 !in o.moved && (Ent(s, p1) == NONE || p1 in o.moved)
    requires MovedWords(s, t, p1, p2)
    ensures Pages(t, MoveOwn(s, o, p1, p2))
  {
    hide HighList;
  }

  lemma MoveList(s: State, o: Own, t: State, p1: nat, p2: nat)
    requires IsUser(p1) && IsUser(p2) && t == s.(low := t.low)
    requires EntryOk(o, p2, Ent(s, p2)) && Pages(s, o) && HighList(s, o)
    requires Ent(s, p2) != NONE && p2 !in o.moved
    ensures HighList(t, MoveOwn(s, o, p1, p2))
  {
  }

  lemma MoveEntries(s: State, o: Own, t: State, p1: nat, p2: nat)
    requires IsUser(p1) && IsUser(p2) && p1 != p2 && Entries(s, o)
    requires Ent(s, p2) != NONE && p2 !in o.moved
    requires MovedWords(s, t, p1, p2)
    ensures Entries(t, MoveOwn(s, o, p1, p2))
  {
    var o' := MoveOwn(s, o, p1, p2);
    assert EntryOk(o, p2, Ent(s, p2));
    forall q | FIRST_USER <= q < USER_END ensures EntryOk(o', q, Ent(t, q)) {
      assert EntryOk(o, q, Ent(s, q));
    }
  }

  lemma MoveMapped(s: State, t: State, p1: nat, p2: nat)
    requires IsUser(p1) && IsUser(p2) && p1 != p2 && Ent(s, p2) != NONE
    requires MovedWords(s, t, p1, p2)
    ensures |Mapped(t)| == |Mapped(s)| + if Ent(s, p1) == NONE then 1 else 0
  {
    assert p1 in Mapped(s) <==> Ent(s, p1) != NONE;
    assert Mapped(t) == Mapped(s) + {p1};
    if Ent(s, p1) != NONE {
      assert Mapped(t) == Mapped(s);
    }
  }

  lemma SameOwnKept(s: State, o: Own, t: State, o': Own)
    requires Kept(s, o, t, o) && o'.lowMark == o.lowMark && o'.highMark == o.highMark && o'.snap == o.snap
    ensures Kept(s, o, t, o')
  {
  }

  /** The invariant survives the move of one word. */
  lemma MoveInv(s: State, o: Own, p1: nat, p2: nat)
    requires CanMove(s, o, p1, p2)
    ensures Inv(MoveWord(s, p1, p2), MoveOwn(s, o, p1, p2))
    ensures Kept(s, o, MoveWord(s, p1, p2), MoveOwn(s, o, p1, p2))
    ensures Dir(MoveWord(s, p1, p2)) == Dir(s)
    ensures MovedWords(s, MoveWord(s, p1, p2), p1, p2)
    ensures MoveWord(s, p1, p2).high == s.high && MoveWord(s, p1, p2).ml == s.ml
  {
    hide Tables, LowList, KeptMemory, Pages, HighList, EntryOk;
    var t := MoveWord(s, p1, p2);
    MoveTables(s, o, p1, p2);
    SameOwnTables(t, o, MoveOwn(s, o, p1, p2));
    SameOwnKept(s, o, t, MoveOwn(s, o, p1, p2));
    MoveEntries(s, o, t, p1, p2);
    MoveMapped(s, t, p1, p2);
    if s.ml != ML_EXCEEDED {
      MoveOwned(s, o, t, p1, p2);
      MoveList(s, o, t, p1, p2);
    }
  }

  // ---- the whole move ----

  /** The word of page `p` after pages `from + j` for `a <= j < b` have moved to `to + j`. */
  function MovedEnt(s: State, to: nat, from: nat, a: nat, b: nat, p: nat): Entry
    requires from + b <= PAGES && p < PAGES
  {
    if to + a <= p < to + b then Ent(s, p - to + from)
    else if from + a <= p < from + b then Ent(s, p).(shared := true)
    else Ent(s, p)
  }

  function Distance(to: nat, from: nat): nat {
    if to < from then from - to else to - from
  }

  /** The targets hold the old source words, the sources that are not targets are marked, nothing
      else changed; every target that was free counts as mapped without having been charged. */
  ghost predicate MoveDone(s: State, o: Own, t: State, o': Own, to: nat, from: nat, a: nat, b: nat)
    requires from + b <= PAGES && a <= b
  {
    && t.high == s.high && t.ml == s.ml
    && (forall p :: 0 <= p < PAGES ==> Ent(t, p) == MovedEnt(s, to, from, a, b, p))
    && (forall p :: p in o'.moved <==> from + a <= p < from + b && !(to + a <= p < to + b))
    && o'.drift == o.drift + Min(b - a, Distance(to, from))
  }

  /** A range that can be moved: it is mapped, and the target is free but for the range itself. */
  ghost predicate Movable(s: State, to: nat, from: nat, n: nat) {
    && FIRST_USER <= from && from + n <= USER_END && FIRST_USER <= to && to + n <= USER_END && to != from
    && (forall p :: from <= p < from + n ==> Ent(s, p) != NONE)
    && (forall p :: to <= p < to + n ==> Ent(s, p) == NONE || from <= p < from + n)
  }

  /** The invariant, without a word about pending moves. */
  ghost predicate Moving(s: State, o: Own, t: State, o': Own) {
    Inv(t, o') && Kept(s, o, t, o')
  }

  /** What MoveOwn does to the two ghost fields the relation speaks of. */
  ghost predicate MovedOwn(s: State, o: Own, o': Own, p1: nat, p2: nat)
    requires p1 < PAGES
  {
    && o'.moved == o.moved - {p1} + {p2}
    && o'.drift == if Ent(s, p1) == NONE then o.drift + 1 else o.drift
  }

  lemma DownWords(s: State, o: Own, t: State, o': Own, u: State, o'': Own, to: nat, from: nat, n: nat, i: nat)
    requires Movable(s, to, from, n) && to < from && i < n && o.moved == {}
    requires MoveDone(s, o, t, o', to, from, 0, i)
    requires u.high == t.high && u.ml == t.ml && MovedWords(t, u, to + i, from + i)
    requires MovedOwn(t, o', o'', to + i, from + i)
    ensures MoveDone(s, o, u, o'', to, from, 0, i + 1)
  {
    assert Ent(t, from + i) == Ent(s, from + i);
    assert Ent(t, to + i) == NONE <==> to + i < from;
    forall p | 0 <= p < PAGES ensures Ent(u, p) == MovedEnt(s, to, from, 0, i + 1, p) {
      assert Ent(t, p) == MovedEnt(s, to, from, 0, i, p);
    }
  }

  lemma UpWords(s: State, o: Own, t: State, o': Own, u: State, o'': Own, to: nat, from: nat, n: nat, a: nat)
    requires Movable(s, to, from, n) && from < to && 0 < a <= n && o.moved == {}
    requires MoveDone(s, o, t, o', to, from, a, n)
    requires u.high == t.high && u.ml == t.ml && MovedWords(t, u, to + a - 1, from + a - 1)
    requires MovedOwn(t, o', o'', to + a - 1, from + a - 1)
    ensures MoveDone(s, o, u, o'', to, from, a - 1, n)
  {
    assert Ent(t, from + a - 1) == Ent(s, from + a - 1);
    assert Ent(t, to + a - 1) == NONE <==> to + a - 1 >= from + n;
    forall p | 0 <= p < PAGES ensures Ent(u, p) == MovedEnt(s, to, from, a - 1, n, p) {
      assert Ent(t, p) == MovedEnt(s, to, from, a, n, p);
    }
  }

  /** Page `j` of the range can move next: the pages below it have moved (downwards) or the pages
      above it have (upwards). */
  lemma NextMoves(s: State, o: Own, t: State, o': Own, to: nat, from: nat, n: nat, a: nat, b: nat, j: nat)
    requires Movable(s, to, from, n) && a <= b <= n && j < n && o.moved == {}
    requires if to < from then a == 0 && j == b else b == n && j == a - 1
    requires MoveDone(s, o, t, o', to, from, a, b)
    ensures IsUser(to + j) && IsUser(from + j) && to + j != from + j
    ensures Ent(t, from + j) != NONE && from + j !in o'.moved
    ensures Ent(t, to + j) == NONE || to + j in o'.moved
  {
    assert Ent(t, from + j) == MovedEnt(s, to, from, a, b, from + j);
    assert Ent(t, to + j) == MovedEnt(s, to, from, a, b, to + j);
  }

  /** One page of a move in either direction. */
  lemma MoveTurn(s: State, o: Own, t: State, o': Own, to: nat, from: nat, n: nat, a: nat, b: nat, j: nat)
    requires Movable(s, to, from, n) && a <= b <= n && j < n && o.moved == {}
    requires if to < from then a == 0 && j == b else b == n && j == a - 1
    requires Moving(s, o, t, o') && MoveDone(s, o, t, o', to, from, a, b)
    requires Dir(t)[(to + j) / 1024] != NONE && !Dir(t)[(to + j) / 1024].shared
    requires Dir(t)[(from + j) / 1024] != NONE && !Dir(t)[(from + j) / 1024].shared
    ensures Moving(s, o, MoveWord(t, to + j, from + j), MoveOwn(t, o', to + j, from + j))
    ensures Dir(MoveWord(t, to + j, from + j)) == Dir(t)
    ensures to < from ==>
      MoveDone(s, o, MoveWord(t, to + j, from + j), MoveOwn(t, o', to + j, from + j), to, from, 0, j + 1)
    ensures from < to ==>
      MoveDone(s, o, MoveWord(t, to + j, from + j), MoveOwn(t, o', to + j, from + j), to, from, j, n)
  {
    hide KeptMemory, Tables, LowList, Pages, HighList, Entries, Budget;
    NextMoves(s, o, t, o', to, from, n, a, b, j);
    MoveInv(t, o', to + j, from + j);
    hide MoveDone, Movable, MovedWords;
    var u := MoveWord(t, to + j, from + j);
    var o'' := MoveOwn(t, o', to + j, from + j);
    KeptTrans(s, o, t, o', u, o'');
    if to < from {
      DownWords(s, o, t, o', u, o'', to, from, n, j);
    } else {
      UpWords(s, o, t, o', u, o'', to, from, n, a);
    }
  }

  lemma MoveDoneSame(s: State, o: Own, t: State, o': Own, u: State, o'': Own, to: nat, from: nat, a: nat, b: nat)
    requires from + b <= PAGES && a <= b && MoveDone(s, o, t, o', to, from, a, b)
    requires (forall p :: 0 <= p < PAGES ==> Same(t, u, p)) && u.ml == t.ml && u.high == t.high
    requires o''.drift == o'.drift && o''.moved == o'.moved
    ensures MoveDone(s, o, u, o'', to, from, a, b)
  {
    forall p | 0 <= p < PAGES ensures Ent(u, p) == MovedEnt(s, to, from, a, b, p) {
      assert Same(t, u, p);
    }
  }

  lemma MoveStart(s: State, o: Own, to: nat, from: nat, a: nat)
    requires Inv(s, o) && o.moved == {} && from + a <= PAGES
    ensures Moving(s, o, s, o) && MoveDone(s, o, s, o, to, from, a, a)
  {
  }
}
