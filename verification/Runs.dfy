/** Runs of a program on the plain memory of module FlatMemory: what each test should do. */
module Runs {
  import opened Machine
  import opened FlatMemory

  /** What a program does to its memory, at the places the kernel chose: an anonymous mapping,
      munmap, mprotect, the downward move of an mremap, a store to word `j` of page `p`, and the
      copies the kernel makes of a buffer before it stores to it (do_cow). */
  datatype Op =
    | Mmap(from: nat, to: nat, w: bool)
    | Munmap(from: nat, to: nat)
    | Mprotect(from: nat, to: nat, w: bool)
    | Move(to: nat, from: nat, n: nat)
    | Store(p: nat, j: nat, x: nat)
    | Copy(from: nat, to: nat)

  /** How main_loop ends: the run is over, SIGSEGV, over the memory limit, or the kernel itself
      took a page fault and stopped the machine. */
  datatype Status = Exited | Sigsegv | MemoryLimit | KernelFault

  /** One entry of bundle->tests: its memory limit in pages and what its program does. */
  datatype Test = Test(ml: nat, ops: seq<Op>)

  /** How a test ended, the memory its program left, whether the budget word was then ML_EXCEEDED,
      and how many of its operations were carried out, the one that ended it included. */
  datatype Report = Report(status: Status, view: Flat, over: bool, count: nat)

  predicate OpOk(op: Op) {
    match op
    case Mmap(from, to, _) => FIRST_USER <= from <= to <= USER_END
    case Munmap(from, to) => FIRST_USER <= from <= to <= USER_END
    case Mprotect(from, to, _) => FIRST_USER <= from <= to <= USER_END
    case Move(to, from, n) => FIRST_USER <= to < from && from + n <= USER_END
    case Store(_, j, _) => j < 1024
    case Copy(from, to) => FIRST_USER <= from <= to <= USER_END
  }

  /** The operation stays away from the pages from 1 to 4 MiB. */
  predicate AboveFirstTable(op: Op) {
    match op
    case Mmap(from, _, _) => 1024 <= from
    case Munmap(from, _) => 1024 <= from
    case Mprotect(from, _, _) => 1024 <= from
    case Move(to, _, _) => 1024 <= to
    case Store(p, _, _) => 1024 <= p
    case Copy(from, _) => 1024 <= from
  }

  /** A move that is not refused: all of the source is there, and the target is free but for it. */
  predicate CanMoveFlat(v: Flat, to: nat, from: nat, n: nat) {
    && (forall q: nat :: from <= q < from + n ==> q in v)
    && (forall q: nat :: to <= q < to + n ==> q !in v || from <= q < from + n)
  }

  predicate Allowed(v: Flat, p: nat) {
    p in v && v[p].writable
  }

  function FlatStep(v: Flat, op: Op): Flat
    requires OpOk(op) && (op.Store? ==> Allowed(v, op.p))
  {
    match op
    case Mmap(from, to, w) => FlatZero(v, from, to, w)
    case Munmap(from, to) => FlatUnmap(v, from, to)
    case Mprotect(from, to, w) => FlatProtect(v, from, to, w)
    case Move(to, from, n) => if CanMoveFlat(v, to, from, n) then FlatMove(v, to, from, n) else v
    case Store(p, j, x) => FlatStore(v, p, j, x)
    case Copy(_, _) => v
  }

  // ---- plain memory with a limit ----

  /** Plain memory, which of its pages are still the snapshot's, and how many pages the limit allows. */
  datatype Plain = Plain(view: Flat, snap: set<nat>, room: int)

  predicate MovedHere(snap: set<nat>, to: nat, from: nat, n: nat, p: nat) {
    if to <= p < to + n then p - to + from in snap else p in snap && !(from <= p < from + n)
  }

  function MovedSnap(snap: set<nat>, to: nat, from: nat, n: nat): set<nat> {
    set p | FIRST_USER <= p < USER_END && MovedHere(snap, to, from, n, p)
  }

  /** Every operation but a mapping, a store or a copy leaves a snapshot page to the snapshot. */
  function SnapStep(m: Plain, op: Op): set<nat> {
    match op
    case Mmap(from, to, _) => m.snap - Range(from, to)
    case Munmap(from, to) => m.snap - Range(from, to)
    case Mprotect(_, _, _) => m.snap
    case Move(to, from, n) => if CanMoveFlat(m.view, to, from, n) then MovedSnap(m.snap, to, from, n) else m.snap
    case Store(p, _, _) => m.snap - {p}
    case Copy(from, to) => set p | p in m.snap && !(from <= p < to && Allowed(m.view, p))
  }

  /** How many pages an overlapping move leaves behind. */
  function Left(to: nat, from: nat, n: nat): int {
    from + n - Uncovered(to, from, n)
  }

  /** A mapping charges a page of the snapshot a second time; a move credits the pages it leaves. */
  function RoomStep(m: Plain, op: Op): int {
    match op
    case Mmap(from, to, _) => m.room - |m.snap * Range(from, to)|
    case Move(to, from, n) => if CanMoveFlat(m.view, to, from, n) then m.room + Left(to, from, n) else m.room
    case _ => m.room
  }

  predicate Refused(v: Flat, op: Op) {
    op.Store? && !Allowed(v, op.p)
  }

  function PlainStep(m: Plain, op: Op): Plain
    requires OpOk(op) && !Refused(m.view, op)
  {
    Plain(FlatStep(m.view, op), SnapStep(m, op), RoomStep(m, op))
  }

  /** The operation maps more than the limit allows. */
  predicate Exceeds(m: Plain, op: Op)
    requires OpOk(op)
  {
    op.Mmap? && |PlainStep(m, op).view| > PlainStep(m, op).room
  }

  /** How a run ends: status, memory, and the operations carried out, the last one included. */
  datatype Outcome = Outcome(status: Status, mem: Plain, count: nat)

  function Later(r: Outcome, n: nat): Outcome {
    r.(count := r.count + n)
  }

  /** The run on plain memory. */
  function PlainRun(m: Plain, ops: seq<Op>): Outcome
    requires forall i :: 0 <= i < |ops| ==> OpOk(ops[i])
    decreases |ops|
  {
    if ops == [] then Outcome(Exited, m, 0)
    else if Refused(m.view, ops[0]) then Outcome(Sigsegv, m, 1)
    else if Exceeds(m, ops[0]) then Outcome(MemoryLimit, m, 1)
    else Later(PlainRun(PlainStep(m, ops[0]), ops[1..]), 1)
  }

  /** The limit stays below the word ML_EXCEEDED, whatever moves credit. */
  predicate Sound(m: Plain, ops: seq<Op>)
    requires forall i :: 0 <= i < |ops| ==> OpOk(ops[i])
    decreases |ops|
  {
    && m.room < ML_EXCEEDED
    && (ops == [] || Refused(m.view, ops[0]) || Exceeds(m, ops[0]) || Sound(PlainStep(m, ops[0]), ops[1..]))
  }

  /** How many pages the moves are about. */
  function MoveTotal(ops: seq<Op>): nat {
    if ops == [] then 0 else (if ops[0].Move? then ops[0].n else 0) + MoveTotal(ops[1..])
  }

  /** A run is sound when the limit and all the pages it moves stay below ML_EXCEEDED; without moves,
      when the limit does. */
  lemma {:induction false} SoundEnough(m: Plain, ops: seq<Op>)
    requires (forall i :: 0 <= i < |ops| ==> OpOk(ops[i])) && m.room + MoveTotal(ops) < ML_EXCEEDED
    ensures Sound(m, ops)
    decreases |ops|
  {
    if ops != [] && !Refused(m.view, ops[0]) && !Exceeds(m, ops[0]) {
      assert RoomStep(m, ops[0]) <= m.room + if ops[0].Move? then ops[0].n else 0;
      SoundEnough(PlainStep(m, ops[0]), ops[1..]);
    }
  }

  /** Operation `n` (counted from 1) maps over a page that is still the snapshot's, after all before
      it were carried out. */
  predicate FaultDue(m: Plain, ops: seq<Op>, n: nat)
    requires forall i :: 0 <= i < |ops| ==> OpOk(ops[i])
  {
    && 0 < n <= |ops| && PlainRun(m, ops[..n - 1]).status == Exited
    && ops[n - 1].Mmap? && PlainRun(m, ops[..n - 1]).mem.snap * Range(ops[n - 1].from, ops[n - 1].to) != {}
  }

  /** The first `n` operations are carried out, and give `m'`. */
  predicate Reaches(m: Plain, ops: seq<Op>, n: nat, m': Plain)
    requires n <= |ops| && forall i :: 0 <= i < |ops| ==> OpOk(ops[i])
  {
    PlainRun(m, ops[..n]) == Outcome(Exited, m', n)
  }

  /** A run is its first `n` operations and then the rest. */
  lemma {:induction false} RunSplit(m: Plain, ops: seq<Op>, n: nat, m': Plain)
    requires n <= |ops| && (forall i :: 0 <= i < |ops| ==> OpOk(ops[i])) && Reaches(m, ops, n, m')
    ensures PlainRun(m, ops) == Later(PlainRun(m', ops[n..]), n)
    ensures Sound(m, ops) ==> Sound(m', ops[n..])
    decreases n
  {
    if n == 0 {
      assert ops[..0] == [] && ops[0..] == ops;
    } else {
      assert ops[..n][0] == ops[0] && ops[..n][1..] == ops[1..][..n - 1] && ops[n..] == ops[1..][n - 1..];
      RunSplit(PlainStep(m, ops[0]), ops[1..], n - 1, m');
    }
  }

  /** One operation further. */
  lemma ReachesNext(m: Plain, ops: seq<Op>, n: nat, m': Plain)
    requires n < |ops| && (forall i :: 0 <= i < |ops| ==> OpOk(ops[i])) && Reaches(m, ops, n, m')
    requires !Refused(m'.view, ops[n]) && !Exceeds(m', ops[n])
    ensures Reaches(m, ops, n + 1, PlainStep(m', ops[n]))
  {
    var front := ops[..n + 1];
    assert front[..n] == ops[..n] && front[n..] == [ops[n]];
    RunSplit(m, front, n, m');
    assert PlainRun(PlainStep(m', ops[n]), []) == Outcome(Exited, PlainStep(m', ops[n]), 0);
  }

  /** Where no page is the snapshot's, none becomes it. */
  lemma {:induction false} SnapEmpty(m: Plain, ops: seq<Op>)
    requires (forall i :: 0 <= i < |ops| ==> OpOk(ops[i])) && m.snap == {}
    ensures PlainRun(m, ops).mem.snap == {}
    decreases |ops|
  {
    if ops != [] && !Refused(m.view, ops[0]) && !Exceeds(m, ops[0]) {
      assert SnapStep(m, ops[0]) == {};
      SnapEmpty(PlainStep(m, ops[0]), ops[1..]);
    }
  }

  lemma NoFaultDue(m: Plain, ops: seq<Op>, n: nat)
    requires (forall i :: 0 <= i < |ops| ==> OpOk(ops[i])) && m.snap == {}
    ensures !FaultDue(m, ops, n)
  {
    if 0 < n <= |ops| {
      SnapEmpty(m, ops[..n - 1]);
    }
  }

  lemma {:induction false} RangeSize(from: nat, to: nat)
    requires from <= to
    ensures |Range(from, to)| == to - from
  {
    if from < to {
      RangeSize(from, to - 1);
      assert Range(from, to) == Range(from, to - 1) + {to - 1};
    }
  }

  /** A mapping adds the pages of its range that were not there. */
  lemma FlatZeroSize(v: Flat, from: nat, to: nat, w: bool)
    ensures |FlatZero(v, from, to, w)| == |v| + |Range(from, to) - v.Keys|
  {
    var u := FlatZero(v, from, to, w);
    assert u.Keys == v.Keys + (Range(from, to) - v.Keys);
    assert |u.Keys| == |u| && |v.Keys| == |v|;
  }

  // ---- what a program notices ----

  /** A mapped page reads as zeros, and may be stored to exactly if it was mapped for writing. */
  lemma MappedReads(v: Flat, from: nat, to: nat, w: bool, p: nat)
    requires FIRST_USER <= from <= p < to <= USER_END
    ensures var u := FlatStep(v, Mmap(from, to, w));
      p in u && (forall i :: 0 <= i < 1024 ==> u[p].contents[i] == 0) && (Allowed(u, p) <==> w)
  {
  }

  /** After mprotect a page that is there may be stored to exactly if it was asked for, and holds what it
      held. */
  lemma ProtectedReads(v: Flat, from: nat, to: nat, w: bool, p: nat)
    requires FIRST_USER <= from <= p < to <= USER_END
    ensures var u := FlatStep(v, Mprotect(from, to, w));
      (p in u <==> p in v) && (p in v ==> u[p].contents == v[p].contents && (Allowed(u, p) <==> w))
  {
  }

  /** After munmap the page is gone, and a store to it ends the run; mapped again it reads as zeros. */
  lemma UnmappedReads(v: Flat, from: nat, to: nat, w: bool, p: nat)
    requires FIRST_USER <= from <= p < to <= USER_END
    ensures var u := FlatStep(v, Munmap(from, to));
      p !in u && (forall j, x :: Refused(u, Store(p, j, x)))
      && forall i :: 0 <= i < 1024 ==> FlatStep(u, Mmap(from, to, w))[p].contents[i] == 0
  {
  }

  /** A store is read back; every other word of every page is as it was. */
  lemma StoredReads(v: Flat, p: nat, j: nat, x: nat)
    requires Allowed(v, p) && j < 1024
    ensures var u := FlatStep(v, Store(p, j, x));
      && u.Keys == v.Keys && u[p].contents[j] == x && (forall q :: q in v ==> u[q].writable == v[q].writable)
      && forall q, i :: q in v && 0 <= i < 1024 && !(q == p && i == j) ==> u[q].contents[i] == v[q].contents[i]
  {
  }

  /** Moved pages are at the new place with contents and rights, and at the old one no longer. */
  lemma MovedReads(v: Flat, to: nat, from: nat, n: nat, i: nat)
    requires FIRST_USER <= to < from && from + n <= USER_END && CanMoveFlat(v, to, from, n) && i < n
    ensures var u := FlatStep(v, Move(to, from, n));
      && to + i in u && u[to + i] == v[from + i]
      && (to + n <= from + i ==> from + i !in u)
  {
    assert to + i in Range(to, to + n) && from + i in Range(from, from + n);
    assert to + n <= from + i ==> from + i !in Range(to, to + n);
  }

  /** A mapping is refused exactly when the pages there were and the new ones, those of the snapshot in
      the range counted twice, are more than the limit allows. */
  lemma ExceedsExactly(m: Plain, from: nat, to: nat, w: bool)
    requires FIRST_USER <= from <= to <= USER_END
    ensures Exceeds(m, Mmap(from, to, w)) <==>
      |m.view.Keys + Range(from, to)| + |m.snap * Range(from, to)| > m.room
  {
    var u := FlatZero(m.view, from, to, w);
    assert u.Keys == m.view.Keys + Range(from, to);
    assert |u| == |u.Keys|;
  }

  /** No operation but a move or a store changes a page outside its range. */
  lemma OutsideReads(v: Flat, op: Op, from: nat, to: nat, p: nat)
    requires OpOk(op) && p in v && !(from <= p < to)
    requires match op
      case Mmap(a, b, _) => a == from && b == to
      case Munmap(a, b) => a == from && b == to
      case Mprotect(a, b, _) => a == from && b == to
      case Copy(_, _) => true
      case _ => false
    ensures var u := FlatStep(v, op); p in u && u[p] == v[p]
  {
  }
}
