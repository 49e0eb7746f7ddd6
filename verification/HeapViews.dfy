/** The heap of a program on plain memory, and the range checks of kernel/vmem.c. */
module HeapViews {
  import opened Integers
  import opened Machine
  import opened Ownership
  import opened Ranges
  import opened RangeLoops
  import opened FlatMemory
  import opened Scans
  import opened Search

  /** `(x + 4095u) & ~4095u`, in pages: the sum wraps at 2^32. */
  function RoundPages(x: nat): nat {
    (x + 4095) % U32 / 4096
  }

  /** As many pages as the bytes need, and no more; for the last 4095 sizes the sum wraps to none. */
  lemma RoundMeans(x: nat)
    requires x < U32
    ensures x <= U32 - 4096 ==> x <= RoundPages(x) * 4096 < x + 4096
    ensures U32 - 4096 < x ==> RoundPages(x) == 0
  {
  }

  /** The pages from `orig` up to `end` are mapped and writable. */
  predicate HeapMapped(v: Flat, orig: nat, end: nat) {
    forall p :: orig <= p < end ==> p in v && v[p].writable
  }

  /** The break may move from page `o` up to page `n`. */
  predicate GrowthFree(v: Flat, o: nat, n: nat) {
    n <= USER_END && forall p :: o <= p < n ==> p !in v
  }

  /** What brk does: the value it returns (C returns none when `defined` is false), the new break and
      the memory. */
  datatype BrkResult = BrkResult(defined: bool, answer: nat, cur: nat, view: Flat)

  /** brk(x), the heap starting at page `orig` and the break being `cur`. */
  function BrkStep(v: Flat, orig: nat, cur: nat, x: nat): BrkResult {
    var o, n := RoundPages(cur), RoundPages(x);
    if n < orig || (o < n && !GrowthFree(v, o, n)) then BrkResult(true, cur, cur, v)
    else if o < n then BrkResult(true, x, x, FlatZero(v, o, n, true))
    else if n < o then BrkResult(true, x, x, FlatUnmap(v, n, o))
    else BrkResult(false, 0, cur, v)
  }

  /** What a program hears from a sequence of brk calls. */
  function BrkAnswers(v: Flat, orig: nat, cur: nat, xs: seq<nat>): seq<(bool, nat)>
    decreases |xs|
  {
    if xs == [] then []
    else
      var r := BrkStep(v, orig, cur, xs[0]);
      [(r.defined, r.answer)] + BrkAnswers(r.view, orig, r.cur, xs[1..])
  }

  /** The break is not part of what restore_runtime brings back: a test starts with the break `c`
      that the last test left in place of the snapshot's, `b`. Its brk calls are answered as they
      should be, whatever they are, exactly when the two are the same. */
  lemma StaleAnswers(v: Flat, orig: nat, b: nat, c: nat)
    requires 0 < orig
    ensures (forall xs: seq<nat> :: BrkAnswers(v, orig, b, xs) == BrkAnswers(v, orig, c, xs)) <==> b == c
  {
    if b != c {
      var xs: seq<nat> := [0];
      assert BrkAnswers(v, orig, b, xs)[0] == (true, b);
      assert BrkAnswers(v, orig, c, xs)[0] == (true, c);
      assert BrkAnswers(v, orig, b, xs) != BrkAnswers(v, orig, c, xs);
    }
  }

  /** A growth that the snapshot's break allows has the same result from the break the last test
      left, answer and memory, exactly when both breaks lie on the same page. */
  lemma StaleGrowth(v: Flat, orig: nat, b: nat, c: nat, x: nat)
    requires HeapMapped(v, orig, RoundPages(b)) && orig <= RoundPages(b) && orig <= RoundPages(c)
    requires RoundPages(b) < RoundPages(x) && GrowthFree(v, RoundPages(b), RoundPages(x))
    ensures BrkStep(v, orig, b, x) == BrkResult(true, x, x, FlatZero(v, RoundPages(b), RoundPages(x), true))
    ensures BrkStep(v, orig, c, x) == BrkStep(v, orig, b, x) <==> RoundPages(c) == RoundPages(b)
    ensures RoundPages(c) < RoundPages(b) ==> BrkStep(v, orig, c, x) == BrkResult(true, c, c, v)
    ensures RoundPages(b) < RoundPages(c) ==> RoundPages(b) !in BrkStep(v, orig, c, x).view
  {
    hide RoundPages;
    var e := RoundPages(b);
    assert e in FlatZero(v, e, RoundPages(x), true);
    if RoundPages(c) < e {
      assert RoundPages(c) in v;
    }
  }

  lemma StaleAbove(v: Flat, orig: nat, b: nat, c: nat, x: nat)
    requires orig <= RoundPages(b) <= RoundPages(c) && RoundPages(c) != RoundPages(x) && RoundPages(b) < RoundPages(x)
    requires GrowthFree(v, RoundPages(b), RoundPages(x))
    ensures BrkStep(v, orig, c, x).defined && BrkStep(v, orig, c, x).answer == x
  {
  }

  /** The heap of the next test is mapped exactly when the break is not above the snapshot's, page
      for page, the page above the snapshot's heap not being one the program can write. */
  lemma StaleBreak(v: Flat, orig: nat, end: nat, stale: nat)
    requires orig <= end && HeapMapped(v, orig, end) && !(end in v && v[end].writable)
    ensures HeapMapped(v, orig, stale) <==> stale <= end
  {
  }

  lemma GrownHeap(v: Flat, orig: nat, o: nat, n: nat)
    requires HeapMapped(v, orig, o) && orig <= o <= n
    ensures HeapMapped(FlatZero(v, o, n, true), orig, n)
  {
    forall p: nat | orig <= p < n
      ensures p in FlatZero(v, o, n, true) && FlatZero(v, o, n, true)[p].writable
    {
      assert p in Range(o, n) <==> o <= p < n;
    }
  }

  lemma ShrunkHeap(v: Flat, orig: nat, o: nat, n: nat)
    requires HeapMapped(v, orig, o) && orig <= n <= o
    ensures HeapMapped(FlatUnmap(v, n, o), orig, n)
  {
  }

  /** No page of the range is mapped: map_range cannot fault there, and charges for each page. */
  lemma AbsentMaps(s: State, from: nat, to: nat)
    requires InUser(from, to) && Absent(s, from, to)
    ensures forall p :: from <= p < to ==> !FaultsAt(s, from, p)
    ensures forall p :: from <= p < to ==> p !in View(s)
  {
  }

  /** The kernel's first page ends every range without mapped pages. */
  lemma AbsentInUser(s: State, from: nat, to: nat)
    requires Ent(s, USER_END) != NONE && from <= USER_END && to < PAGES && FirstFailing(s, from, to, -1, to)
    ensures to <= USER_END && Absent(s, from, to)
  {
    assert Fails(s, USER_END, -1);
    FreeUpTo(s, from, to, to);
  }

  /** Every page of the range is one the program may write, at once or after a copy. */
  predicate AllWritable(v: Flat, from: nat, to: nat) {
    forall p :: from <= p < to ==> p in v && v[p].writable
  }

  lemma WritableScan(s: State, from: nat, to: nat, ans: nat)
    requires InUser(from, to) && FirstFailing(s, from, to, 1, ans) && s.ml < U32
    requires forall p :: from <= p < to && (Ent(s, p).rw || Ent(s, p).cow) ==> Ent(s, p) != NONE
    ensures ans == to <==> AllWritable(View(s), from, to)
  {
    if ans == to {
      forall p | from <= p < to ensures p in View(s) && View(s)[p].writable {
        assert !Fails(s, p, 1);
      }
    } else {
      assert Fails(s, ans, 1) && !(ans in View(s) && View(s)[ans].writable);
    }
  }

  /** After check_writable and do_cow the kernel may store to the range: every page is really
      writable and the run's own. */
  lemma ReadyForStores(s: State, o: Own, t: State, o': Own, from: nat, to: nat, cowed: nat)
    requires InUser(from, to) && Going(s, o, t, o') && o.moved == {} && CopyDone(s, o, t, o', from, to, cowed)
    requires forall p :: from <= p < to ==> Ent(s, p).rw || Ent(s, p).cow
    ensures forall p :: from <= p < to ==> Ent(t, p) != NONE && Ent(t, p).rw && !Ent(t, p).shared
    ensures Private(t, from, to)
  {
    forall p | from <= p < to ensures Ent(t, p) != NONE && Ent(t, p).rw && !Ent(t, p).shared {
      assert CopiedPage(s, t, p);
      assert EntryOk(o', p, Ent(t, p));
    }
  }
}
