/** The scanning half of kernel/paging.c: two-level loops with early exits, proved against flat
    scans. Addresses are page numbers. */
module Scans {
  import opened Machine
  import opened RangeLoops
  import opened Paging

  /** The page fails the requirement `perms` of check_access: -2 asks for tables, -1 for absent
      pages, 1 for writable ones (really or after a copy), anything else for present ones. */
  predicate Fails(s: State, p: nat, perms: int)
    requires p < PAGES
  {
    if perms == -2 then Dir(s)[p / 1024] == NONE
    else if perms == -1 then Ent(s, p) != NONE
    else if perms == 1 then !Ent(s, p).rw && !Ent(s, p).cow
    else Ent(s, p) == NONE
  }

  /** `ans` is the least failing page of [from, to), or `to`. */
  ghost predicate FirstFailing(s: State, from: nat, to: nat, perms: int, ans: nat)
    requires to <= PAGES
  {
    && from <= ans <= to
    && (ans < to ==> Fails(s, ans, perms))
    && (forall p :: from <= p < ans ==> !Fails(s, p, perms))
  }

  /** `ans` is the greatest failing page of [to, from), or the page below `to`. */
  ghost predicate LastFailing(s: State, to: nat, from: nat, perms: int, ans: int)
    requires from <= PAGES
  {
    && to - 1 <= ans < from
    && (to <= ans ==> Fails(s, ans, perms))
    && (forall p :: 0 <= p && ans < p < from ==> !Fails(s, p, perms))
  }

  /** The switch of check_access_pgdir on one word. */
  predicate WordOk(e: Entry, perms: int) {
    if perms == -1 then e == NONE
    else if perms == 1 then e.rw || e.cow
    else e != NONE
  }

  lemma WordMeaning(s: State, d: nat, i: nat, perms: int)
    requires d < 1024 && i < 1024 && Dir(s)[d] != NONE && perms != -2
    ensures d * 1024 + i < PAGES
    ensures WordOk(Low(s, Dir(s)[d].frame)[i], perms) <==> !Fails(s, d * 1024 + i, perms)
  {
    assert (d * 1024 + i) / 1024 == d && (d * 1024 + i) % 1024 == i;
  }

  /** A table that is absent: all its pages pass -1 and fail everything else. */
  lemma AbsentDir(s: State, d: nat, p: nat, perms: int)
    requires d < 1024 && Dir(s)[d] == NONE && d * 1024 <= p < d * 1024 + 1024
    ensures p < PAGES && (Fails(s, p, perms) <==> perms != -1)
  {
    assert p / 1024 == d;
  }

  lemma PresentDir(s: State, d: nat, p: nat)
    requires d < 1024 && Dir(s)[d] != NONE && d * 1024 <= p < d * 1024 + 1024
    ensures p < PAGES && !Fails(s, p, -2)
  {
    assert p / 1024 == d;
  }

  method CheckAccessPgdir(k: Kernel, d: nat, from: nat, to: nat, perms: int) returns (ans: nat)
    requires d < 1024 && Dir(k.S())[d] != NONE && perms != -2
    requires from <= d * 1024 + 1024 && d * 1024 <= to
    ensures HighEnd(d, to) <= PAGES
    ensures LowEnd(d, from) <= HighEnd(d, to) ==>
      FirstFailing(k.S(), LowEnd(d, from), HighEnd(d, to), perms, ans)
  {
    var base := d * 1024;
    var lo := LowEnd(d, from) - base;
    var hi := HighEnd(d, to) - base;
    var pgdir := Low(k.S(), Dir(k.S())[d].frame);
    var i := lo;
    while i < hi
      invariant lo <= i <= hi || hi < lo == i
      invariant forall p :: base + lo <= p < base + i ==> !Fails(k.S(), p, perms)
    {
      WordMeaning(k.S(), d, i, perms);
      if !WordOk(pgdir[i], perms) {
        return base + i;
      }
      i := i + 1;
    }
    ans := base + hi;
  }

  method CheckAccess(k: Kernel, from: nat, to: nat, perms: int) returns (ans: nat)
    requires 0 < to < PAGES && from <= to
    ensures FirstFailing(k.S(), from, to, perms, ans)
  {
    var i := from / 1024;
    while i <= (to - 1) / 1024
      invariant from / 1024 <= i <= (to - 1) / 1024 + 1
      invariant forall p :: from <= p < i * 1024 && p < to ==> !Fails(k.S(), p, perms)
    {
      if Dir(k.S())[i] == NONE {
        if perms != -1 {
          var ans := i * 1024;
          ans := if ans < from then from else ans;
          if ans < to {
            AbsentDir(k.S(), i, ans, perms);
          }
          return ans;
        }
        forall p | i * 1024 <= p < i * 1024 + 1024 ensures p < PAGES && !Fails(k.S(), p, perms) {
          AbsentDir(k.S(), i, p, perms);
        }
      } else if perms != -2 {
        var ans := CheckAccessPgdir(k, i, from, to, perms);
        if ans != (i + 1) * 1024 {
          return ans;
        }
      } else {
        forall p | i * 1024 <= p < i * 1024 + 1024 ensures p < PAGES && !Fails(k.S(), p, perms) {
          PresentDir(k.S(), i, p);
        }
      }
      i := i + 1;
    }
    ans := to;
  }

  /** One past the first page check_access_backwards looks at: `from` itself is looked at only when
      its table is present and `from` does not start a table. */
  function Top(s: State, from: nat, perms: int): nat
    requires from < PAGES
  {
    if from % 1024 != 0 && Dir(s)[from / 1024] != NONE && perms != -2 then from + 1 else from
  }

  /** check_access_pgdir_backwards, stopping at index 0. */
  method CheckAccessPgdirBackwards(k: Kernel, d: nat, from: nat, to: nat, perms: int) returns (ans: int)
    requires d < 1024 && Dir(k.S())[d] != NONE && perms != -2
    requires to <= d * 1024 + 1024 && d * 1024 <= from
    ensures var hi := if from > d * 1024 + 1023 then d * 1024 + 1024 else from + 1;
      LowEnd(d, to) <= hi ==> LastFailing(k.S(), LowEnd(d, to), hi, perms, ans)
  {
    var base := d * 1024;
    var hi := if from > base + 1023 then 1023 else from - base;
    var lo := LowEnd(d, to) - base;
    var pgdir := Low(k.S(), Dir(k.S())[d].frame);
    var i: int := hi;
    while i >= lo
      invariant lo - 1 <= i <= hi || i == hi < lo - 1
      invariant forall p :: 0 <= p && base + i < p < base + hi + 1 ==> !Fails(k.S(), p, perms)
    {
      WordMeaning(k.S(), d, i, perms);
      if !WordOk(pgdir[i], perms) {
        return base + i;
      }
      i := i - 1;
    }
    ans := base + lo - 1;
  }

  lemma TopTable(s: State, from: nat, perms: int)
    requires 0 < from < PAGES
    ensures Top(s, from, perms) <= (from - 1) / 1024 * 1024 + 1024
    ensures perms != -2 && Dir(s)[(from - 1) / 1024] != NONE ==>
      Top(s, from, perms) == if from > (from - 1) / 1024 * 1024 + 1023 then (from - 1) / 1024 * 1024 + 1024
        else from + 1
    ensures perms == -2 || Dir(s)[(from - 1) / 1024] == NONE ==> Top(s, from, perms) == from
  {
  }

  /** check_access_backwards, stopping at directory entry 0. */
  method CheckAccessBackwards(k: Kernel, to: nat, from: nat, perms: int) returns (ans: int)
    requires 0 < to && 0 < from < PAGES && to <= Top(k.S(), from, perms)
    ensures LastFailing(k.S(), to, Top(k.S(), from, perms), perms, ans)
  {
    var i: int := (from - 1) / 1024;
    ghost var top := Top(k.S(), from, perms);
    TopTable(k.S(), from, perms);
    while i >= to / 1024
      invariant to / 1024 - 1 <= i || i == (from - 1) / 1024
      invariant -1 <= i <= (from - 1) / 1024
      invariant forall p :: to <= p && i * 1024 + 1024 <= p < top ==> !Fails(k.S(), p, perms)
    {
      if Dir(k.S())[i] == NONE {
        if perms != -1 {
          ans := i * 1024 + 1023;
          ans := if ans >= from then from - 1 else ans;
          if to <= ans {
            AbsentDir(k.S(), i, ans, perms);
          }
          return;
        }
        forall p: nat | i * 1024 <= p < i * 1024 + 1024 ensures p < PAGES && !Fails(k.S(), p, perms) {
          AbsentDir(k.S(), i, p, perms);
        }
      } else if perms != -2 {
        ans := CheckAccessPgdirBackwards(k, i, from, to, perms);
        if ans != i * 1024 - 1 {
          return;
        }
      } else {
        forall p: nat | i * 1024 <= p < i * 1024 + 1024 ensures p < PAGES && !Fails(k.S(), p, perms) {
          PresentDir(k.S(), i, p);
        }
      }
      i := i - 1;
    }
    ans := to - 1;
  }

  // ---- what the unsigned loop of check_access_pgdir_backwards really does ----

  /** Word `n` of the low memory, counted from physical address 0. */
  function PhysicalWord(s: State, n: nat): Entry {
    Low(s, n / 1024)[n % 1024]
  }

  /** The loop as compiled, for `to` 0: `i >= 0` always holds, so the index goes on below the table
      at frame `t` until a word fails, down to address 0. */
  function DownFrom(s: State, t: nat, i: int, perms: int): int
    requires -1024 * t <= i < 1024
    decreases t * 1024 + i
  {
    if !WordOk(PhysicalWord(s, t * 1024 + i), perms) || t * 1024 + i == 0 then i
    else DownFrom(s, t, i - 1, perms)
  }

  lemma {:induction false} DownFromBelow(s: State, t: nat, i: int, perms: int)
    requires -1024 * t <= i < 1024
    ensures DownFrom(s, t, i, perms) <= i
    decreases t * 1024 + i
  {
    if WordOk(PhysicalWord(s, t * 1024 + i), perms) && t * 1024 + i != 0 {
      DownFromBelow(s, t, i - 1, perms);
    }
  }

  /** When every word of the table from `from` down passes, the compiled loop agrees with the one
      that stops at index 0, and answers the page below the table, exactly when the word in memory
      just before the table fails the test. */
  lemma {:induction false} DownFromExactly(s: State, t: nat, from: int, perms: int)
    requires 0 < t && -1 <= from < 1024
    requires forall i :: 0 <= i <= from ==> WordOk(Low(s, t)[i], perms)
    ensures DownFrom(s, t, from, perms) <= -1
    ensures t * 1024 > 1 ==>
      (DownFrom(s, t, from, perms) == -1 <==> !WordOk(PhysicalWord(s, t * 1024 - 1), perms))
  {
    if from >= 0 {
      assert PhysicalWord(s, t * 1024 + from) == Low(s, t)[from];
      DownFromExactly(s, t, from - 1, perms);
    } else if WordOk(PhysicalWord(s, t * 1024 - 1), perms) {
      DownFromBelow(s, t, -2, perms);
    }
  }

  /** The greatest index up to `hi` whose word fails, or -1: the loop as meant. */
  function MeantDown(t: Table, hi: int, perms: int): int
    requires -1 <= hi < 1024
    decreases hi
  {
    if hi < 0 || !WordOk(t[hi], perms) then hi else MeantDown(t, hi - 1, perms)
  }

  /** The compiled scan of a table from index `hi` down stops where the one that is meant does. */
  ghost predicate ScanAgrees(s: State, d: nat, hi: nat, perms: int)
    requires d < 1024 && hi < 1024
  {
    DownFrom(s, Dir(s)[d].frame, hi, perms) == MeantDown(Low(s, Dir(s)[d].frame), hi, perms)
  }

  ghost predicate GuardedTable(s: State, t: nat) {
    0 < t ==>
      && (Low(s, t)[0] == NONE && Low(s, t)[1] == NONE ==> PhysicalWord(s, t * 1024 - 1) != NONE)
      && (Low(s, t)[0] != NONE && Low(s, t)[1] != NONE ==> PhysicalWord(s, t * 1024 - 1) == NONE)
  }

  /** The word in memory before each table of the program stops a scan that passes the table: it is not
      zero where the first two pages of the table are free, and zero where both are mapped. */
  ghost predicate Guarded(s: State) {
    forall d :: 1 <= d < 768 && Dir(s)[d] != NONE ==> GuardedTable(s, Dir(s)[d].frame)
  }

  lemma {:induction false} MeantMeans(t: Table, hi: int, perms: int)
    requires -1 <= hi < 1024
    ensures MeantDown(t, hi, perms) == -1 <==> forall i :: 0 <= i <= hi ==> WordOk(t[i], perms)
    ensures -1 <= MeantDown(t, hi, perms) <= hi
    decreases hi
  {
    if 0 <= hi && WordOk(t[hi], perms) {
      MeantMeans(t, hi - 1, perms);
    }
  }

  /** Where a word of the table fails, the two scans stop at the same one. */
  lemma {:induction false} DownFromInside(s: State, t: nat, hi: int, perms: int)
    requires 0 < t && 0 <= hi < 1024 && 0 <= MeantDown(Low(s, t), hi, perms)
    ensures DownFrom(s, t, hi, perms) == MeantDown(Low(s, t), hi, perms)
    decreases hi
  {
    assert PhysicalWord(s, t * 1024 + hi) == Low(s, t)[hi];
    if WordOk(Low(s, t)[hi], perms) {
      DownFromInside(s, t, hi - 1, perms);
    }
  }

  /** For one scan: a word of the table fails, or the word before the table does. */
  lemma ScanAgreesExactly(s: State, d: nat, hi: nat, perms: int)
    requires d < 1024 && hi < 1024 && 0 < Dir(s)[d].frame
    ensures var t := Dir(s)[d].frame;
      ScanAgrees(s, d, hi, perms) <==>
        (exists i :: 0 <= i <= hi && !WordOk(Low(s, t)[i], perms)) || !WordOk(PhysicalWord(s, t * 1024 - 1), perms)
  {
    var t := Dir(s)[d].frame;
    MeantMeans(Low(s, t), hi, perms);
    if MeantDown(Low(s, t), hi, perms) == -1 {
      DownFromExactly(s, t, hi, perms);
    } else {
      DownFromInside(s, t, hi, perms);
    }
  }

  /** Every scan down for a mapped or a free page, from wherever it starts, agrees with the one meant if
      and only if the word before each table is right. */
  lemma GuardedExactly(s: State)
    requires forall d :: 1 <= d < 768 && Dir(s)[d] != NONE ==> 0 < Dir(s)[d].frame
    ensures Guarded(s) <==>
      forall d, hi, perms :: 1 <= d < 768 && Dir(s)[d] != NONE && 1 <= hi < 1024 && -1 <= perms <= 0 ==>
        ScanAgrees(s, d, hi, perms)
  {
    hide ScanAgrees, PhysicalWord;
    forall d, hi: nat, perms | 1 <= d < 768 && Dir(s)[d] != NONE && 1 <= hi < 1024 && -1 <= perms <= 0 && Guarded(s)
      ensures ScanAgrees(s, d, hi, perms)
    {
      ScanAgreesExactly(s, d, hi, perms);
      assert GuardedTable(s, Dir(s)[d].frame);
      var t := Low(s, Dir(s)[d].frame);
      assert WordOk(t[0], perms) && WordOk(t[1], perms) ==> !WordOk(PhysicalWord(s, Dir(s)[d].frame * 1024 - 1), perms);
    }
    forall d | 1 <= d < 768 && Dir(s)[d] != NONE && ScanAgrees(s, d, 1, -1) && ScanAgrees(s, d, 1, 0)
      ensures GuardedTable(s, Dir(s)[d].frame)
    {
      ScanAgreesExactly(s, d, 1, -1);
      ScanAgreesExactly(s, d, 1, 0);
    }
  }

  /** The loop of check_access_backwards over directory entries as compiled, for perms -2 and a lower
      limit below 4 MiB: `i >= 0` always holds, so it goes on with the words before the directory
      until one is zero, down to address 0. */
  function TableDown(s: State, i: int): int
    requires -1024 * s.cr3 <= i < 1024
    decreases s.cr3 * 1024 + i
  {
    if PhysicalWord(s, s.cr3 * 1024 + i) == NONE || s.cr3 * 1024 + i == 0 then i else TableDown(s, i - 1)
  }

  /** Its answer: `i << 22 | 0x3ff000`, in pages and modulo 2^32, but below `from`. */
  function TableAnswer(s: State, from: nat): int
    requires 0 < from < PAGES
  {
    var page := TableDown(s, (from - 1) / 1024) % 1024 * 1024 + 1023;
    if page >= from then from - 1 else page
  }

  lemma DirWord(s: State, i: nat)
    requires i < 1024
    ensures PhysicalWord(s, s.cr3 * 1024 + i) == Dir(s)[i]
  {
  }

  lemma {:induction false} TableDownStops(s: State, i: nat) returns (d: nat)
    requires i < 1024 && 0 < s.cr3 && exists d :: 0 <= d <= i && Dir(s)[d] == NONE
    ensures d <= i && Dir(s)[d] == NONE && TableDown(s, i) == d && forall e :: d < e <= i ==> Dir(s)[e] != NONE
  {
    hide PhysicalWord, Dir;
    DirWord(s, i);
    d := i;
    if Dir(s)[i] != NONE {
      d := TableDownStops(s, i - 1);
    }
  }

  lemma {:induction false} TableDownBelow(s: State, i: int)
    requires -1024 * s.cr3 <= i < 1024
    ensures TableDown(s, i) <= i
    decreases s.cr3 * 1024 + i
  {
    if PhysicalWord(s, s.cr3 * 1024 + i) != NONE && s.cr3 * 1024 + i != 0 {
      TableDownBelow(s, i - 1);
    }
  }

  lemma {:induction false} TableDownPasses(s: State, i: nat)
    requires i < 1024 && 0 < s.cr3 && forall d :: 0 <= d <= i ==> Dir(s)[d] != NONE
    ensures TableDown(s, i) < 0
  {
    DirWord(s, i);
    if i > 0 {
      TableDownPasses(s, i - 1);
    } else {
      TableDownBelow(s, -1);
    }
  }

  /** It is the answer meant if and only if some table at or below the start page is absent. */
  lemma TableDownExactly(s: State, from: nat, ans: int)
    requires FIRST_USER < from < PAGES && 0 < s.cr3 && LastFailing(s, FIRST_USER, from, -2, ans)
    ensures ans == TableAnswer(s, from) <==> exists d :: 0 <= d <= (from - 1) / 1024 && Dir(s)[d] == NONE
  {
    var top := (from - 1) / 1024;
    assert FIRST_USER <= ans ==> Fails(s, ans, -2) && 0 <= ans / 1024 <= top;
    if exists d :: 0 <= d <= top && Dir(s)[d] == NONE {
      var d := TableDownStops(s, top);
      var page := if d * 1024 + 1023 >= from then from - 1 else d * 1024 + 1023;
      assert page / 1024 == d && Fails(s, page, -2);
    } else {
      TableDownPasses(s, top);
    }
  }
}
