/** Memory calls in a row, and a loop of tests that make them: every test is given the answers plain
    memory gives, up to the call that exceeds its limit. */
module MemCalls {
  import opened Integers
  import opened Machine
  import opened Ownership
  import opened RangeLoops
  import opened FlatMemory
  import opened Runs
  import opened HeapViews
  import opened Snapshot
  import opened RunSteps
  import opened TestSteps
  import opened AddressSpace

  /** A call of a program for memory: anonymous mmap2, munmap, mprotect. */
  datatype MemCall =
    | CallMmap(addr: nat, sz: nat, w: bool, fixed: bool)
    | CallMunmap(addr: nat, sz: nat)
    | CallMprotect(addr: nat, sz: nat, w: bool)

  predicate CallOk(c: MemCall) {
    c.addr < U32 && c.sz < U32
  }

  predicate CallsOk(cs: seq<MemCall>) {
    forall i :: 0 <= i < |cs| ==> CallOk(cs[i])
  }

  // ---- the calls on plain memory ----

  /** The operation a call comes to when its answer is `r`. */
  function CallOp(c: MemCall, r: Ret): (op: Op)
    requires r.Value?
    ensures !op.Store? && !op.Move?
  {
    var n := RoundPages(c.sz);
    match c
    case CallMmap(_, _, w, _) => Mmap(r.value / 4096, r.value / 4096 + n, w)
    case CallMunmap(addr, _) => Munmap(addr / 4096, addr / 4096 + n)
    case CallMprotect(addr, _, w) => Mprotect(addr / 4096, addr / 4096 + n, w)
  }

  /** The answer of a call. */
  ghost function FlatAnswer(v: Flat, c: MemCall): (r: Ret)
    ensures r.Value? ==> OpOk(CallOp(c, r))
  {
    var n := RoundPages(c.sz);
    match c
    case CallMmap(addr, _, _, fixed) => FlatPlace(v, addr, n, fixed)
    case CallMunmap(addr, sz) =>
      if addr < 0x100000 || addr + sz > 0xc0000000 then EPERM
      else if addr + n * 4096 > 0xc0000000 then EINVAL
      else Value(0)
    case CallMprotect(addr, _, _) =>
      if addr % 4096 != 0 || addr < 0x100000 || addr + n * 4096 > 0xc0000000 then EINVAL else Value(0)
  }

  /** The call maps more than the limit allows. */
  ghost predicate CallExceeds(m: Plain, c: MemCall) {
    FlatAnswer(m.view, c).Value? && Exceeds(m, CallOp(c, FlatAnswer(m.view, c)))
  }

  /** Plain memory after the call. */
  ghost function CallStep(m: Plain, c: MemCall): Plain {
    if FlatAnswer(m.view, c).Value? then PlainStep(m, CallOp(c, FlatAnswer(m.view, c))) else m
  }

  /** How a sequence of calls ends: all served, over the memory limit, or with a kernel that stopped
      or wrote over its own pages. */
  datatype End = Served | OverLimit | Halted

  datatype CallReport = CallReport(answers: seq<Ret>, end: End)

  /** The calls in a row, with the report and the memory they leave. */
  ghost function PlainCalls(m: Plain, cs: seq<MemCall>): (CallReport, Plain)
    decreases |cs|
  {
    if cs == [] then (CallReport([], Served), m)
    else if FlatAnswer(m.view, cs[0]) == KernelPages then (CallReport([], Halted), m)
    else if CallExceeds(m, cs[0]) then (CallReport([], OverLimit), m)
    else
      var rest := PlainCalls(CallStep(m, cs[0]), cs[1..]);
      (CallReport([FlatAnswer(m.view, cs[0])] + rest.0.answers, rest.0.end), rest.1)
  }

  /** The first calls are all served: with `answers`, leaving `m'`. */
  ghost predicate ServedSo(m: Plain, cs: seq<MemCall>, answers: seq<Ret>, m': Plain) {
    |answers| <= |cs| && PlainCalls(m, cs[..|answers|]) == (CallReport(answers, Served), m')
  }

  lemma ServedNone(m: Plain, cs: seq<MemCall>, m': Plain)
    requires ServedSo(m, cs, [], m')
    ensures m' == m
  {
    assert cs[..0] == [];
  }

  lemma ServedFirst(m: Plain, cs: seq<MemCall>, answers: seq<Ret>, m': Plain)
    requires ServedSo(m, cs, answers, m') && answers != []
    ensures |answers| <= |cs| && answers[0] == FlatAnswer(m.view, cs[0]) != KernelPages && !CallExceeds(m, cs[0])
    ensures ServedSo(CallStep(m, cs[0]), cs[1..], answers[1..], m')
  {
    hide FlatAnswer, CallStep, CallExceeds;
    var front := cs[..|answers|];
    assert front[0] == cs[0] && front[1..] == cs[1..][..|answers| - 1];
    assert PlainCalls(CallStep(m, cs[0]), front[1..]).0.answers == answers[1..];
  }

  /** A sequence of calls is its first ones and then the rest. */
  lemma {:induction false} CallsSplit(m: Plain, cs: seq<MemCall>, answers: seq<Ret>, m': Plain)
    requires ServedSo(m, cs, answers, m')
    ensures var rest := PlainCalls(m', cs[|answers|..]);
      PlainCalls(m, cs) == (CallReport(answers + rest.0.answers, rest.0.end), rest.1)
    decreases |answers|
  {
    hide FlatAnswer, CallStep, CallExceeds, ServedSo;
    if answers == [] {
      ServedNone(m, cs, m');
      assert cs[0..] == cs;
      assert answers + PlainCalls(m', cs).0.answers == PlainCalls(m', cs).0.answers;
    } else {
      ServedFirst(m, cs, answers, m');
      CallsSplit(CallStep(m, cs[0]), cs[1..], answers[1..], m');
      assert cs[1..][|answers| - 1..] == cs[|answers|..];
      var rest := PlainCalls(m', cs[|answers|..]);
      assert [answers[0]] + (answers[1..] + rest.0.answers) == answers + rest.0.answers;
    }
  }

  /** One more call that is served. */
  lemma CallsTurn(m: Plain, cs: seq<MemCall>, answers: seq<Ret>, m': Plain)
    requires ServedSo(m, cs, answers, m') && |answers| < |cs|
    requires FlatAnswer(m'.view, cs[|answers|]) != KernelPages && !CallExceeds(m', cs[|answers|])
    ensures ServedSo(m, cs, answers + [FlatAnswer(m'.view, cs[|answers|])], CallStep(m', cs[|answers|]))
  {
    hide FlatAnswer, CallStep, CallExceeds;
    var n := |answers|;
    var front := cs[..n + 1];
    assert front[..n] == cs[..n] && |front[n..]| == 1 && front[n..][0] == cs[n];
    CallsSplit(m, front, answers, m');
    assert front[n..][1..] == [];
    var a := FlatAnswer(m'.view, cs[n]);
    assert PlainCalls(CallStep(m', cs[n]), []) == (CallReport([], Served), CallStep(m', cs[n]));
    assert [a] + [] == [a];
    assert PlainCalls(m', front[n..]) == (CallReport([a], Served), CallStep(m', cs[n]));
    assert |answers + [a]| == n + 1;
  }

  lemma MoreStep(m: Plain, room: int, c: MemCall)
    requires m.room <= room && !CallExceeds(m, c)
    ensures var u := m.(room := room);
      && !CallExceeds(u, c) && CallStep(m, c).room <= CallStep(u, c).room
      && CallStep(u, c) == CallStep(m, c).(room := CallStep(u, c).room)
  {
    hide FlatAnswer;
  }

  /** A larger limit serves the same calls with the same answers, and maybe more. */
  lemma {:induction false} MoreRoom(m: Plain, room: int, cs: seq<MemCall>)
    requires m.room <= room
    ensures PlainCalls(m, cs).0.answers <= PlainCalls(m.(room := room), cs).0.answers
    ensures PlainCalls(m, cs).0.end != OverLimit ==> PlainCalls(m.(room := room), cs).0 == PlainCalls(m, cs).0
    decreases |cs|
  {
    if cs != [] && FlatAnswer(m.view, cs[0]) != KernelPages && !CallExceeds(m, cs[0]) {
      var u, t := m.(room := room), CallStep(m, cs[0]);
      MoreStep(m, room, cs[0]);
      hide FlatAnswer, CallStep, CallExceeds;
      MoreRoom(t, CallStep(u, cs[0]).room, cs[1..]);
    }
  }

  // ---- what a report says ----

  /** The kernel is due to stop at the call: a mapping at a fixed place over a page that is still the
      snapshot's, or over the kernel's own. */
  ghost predicate HaltDue(m: Plain, c: MemCall) {
    var r := FlatAnswer(m.view, c);
    && c.CallMmap? && c.fixed
    && (r == KernelPages ||
        (r.Value? && m.snap * Range(r.value / 4096, r.value / 4096 + RoundPages(c.sz)) != {}))
  }

  ghost predicate EndsSo(m: Plain, cs: seq<MemCall>, r: CallReport, m': Plain)
    requires |r.answers| <= |cs|
  {
    var n := |r.answers|;
    match r.end
    case Served => n == |cs|
    case OverLimit => n < |cs| && (m.room < ML_EXCEEDED ==> CallExceeds(m', cs[n]))
    case Halted => n < |cs| && HaltDue(m', cs[n])
  }

  /** The answers are those of plain memory; the report ends where the calls do, where the limit is
      exceeded, or where the kernel is due to stop. */
  ghost predicate Answered(m: Plain, cs: seq<MemCall>, r: CallReport) {
    exists m' :: ServedSo(m, cs, r.answers, m') && EndsSo(m, cs, r, m')
  }

  /** Unless the kernel stops, the whole report is that of plain memory with the limit. */
  lemma AnsweredExactly(m: Plain, cs: seq<MemCall>, r: CallReport)
    requires Answered(m, cs, r) && m.room < ML_EXCEEDED && r.end != Halted
    ensures r == PlainCalls(m, cs).0
  {
    hide FlatAnswer, CallStep;
    var m' :| ServedSo(m, cs, r.answers, m') && EndsSo(m, cs, r, m');
    CallsSplit(m, cs, r.answers, m');
    var n := |r.answers|;
    assert r.answers + [] == r.answers;
    if n < |cs| {
      assert cs[n..][0] == cs[n];
    }
  }

  /** Two tests with the same calls: the one with the smaller limit gets a beginning of the answers. */
  lemma SameAnswers(m: Plain, room: int, cs: seq<MemCall>, r: CallReport, r': CallReport)
    requires m.room <= room < ML_EXCEEDED && Answered(m, cs, r) && Answered(m.(room := room), cs, r')
    requires r.end != Halted && r'.end != Halted
    ensures r.answers <= r'.answers && (r.end == Served ==> r' == r)
  {
    hide Answered, PlainCalls;
    AnsweredExactly(m, cs, r);
    AnsweredExactly(m.(room := room), cs, r');
    MoreRoom(m, room, cs);
  }

  // ---- the first 4 MiB ----

  /** The pages a call works on, if it succeeds, are at 4 MiB or above. */
  ghost predicate CallAbove(v: Flat, c: MemCall) {
    var r := FlatAnswer(v, c);
    r.Value? ==> 1024 <= (if c.CallMmap? then r.value / 4096 else c.addr / 4096)
  }

  ghost function FlatAfter(v: Flat, c: MemCall): Flat {
    if FlatAnswer(v, c).Value? then FlatStep(v, CallOp(c, FlatAnswer(v, c))) else v
  }

  ghost predicate CallsAbove(v: Flat, cs: seq<MemCall>)
    decreases |cs|
  {
    cs == [] || (CallAbove(v, cs[0]) && CallsAbove(FlatAfter(v, cs[0]), cs[1..]))
  }

  /** What a call leaves alone. */
  ghost predicate CallLeaves(s: State, t: State, c: MemCall, r: Ret) {
    if !r.Value? then t == s
    else var from := if c.CallMmap? then r.value / 4096 else c.addr / 4096;
      OnlyIn(s, t, from, from + RoundPages(c.sz))
  }

  lemma LowCall(s: State, t: State, u: State, c: MemCall, r: Ret, v: Flat)
    requires LowPagesKept(s, t) && CallAbove(v, c) && CallLeaves(t, u, c, r) && r == FlatAnswer(v, c)
    ensures LowPagesKept(s, u)
  {
    hide FlatAnswer, RoundPages;
    forall p | FIRST_USER <= p < 1024 ensures Ent(u, p) == Ent(t, p) {
    }
  }

  // ---- the calls on the kernel ----

  /** A call that did not stop the kernel. */
  ghost predicate CallDone(s: State, o: Own, t: State, o': Own, c: MemCall, r: Ret) {
    && Going(s, o, t, o') && r == FlatAnswer(View(s), c) && CallLeaves(s, t, c, r)
    && (if r.Value? then OpDone(s, o, t, o', CallOp(c, r)) else t == s && o' == o)
  }

  lemma StoppedDue(s: State, o: Own, c: MemCall)
    requires c.CallMmap? && c.fixed && c.addr % 4096 == 0 && RoundPages(c.sz) * 4096 < 0xc0000000
    requires InUser(c.addr / 4096, c.addr / 4096 + RoundPages(c.sz)) && MapFaults(s, c.addr / 4096, RoundPages(c.sz))
    ensures HaltDue(PlainOf(s, o), c)
  {
    hide RoundPages, View, SnapPages, Ent;
    MmapFault(s, Mmap(c.addr / 4096, c.addr / 4096 + RoundPages(c.sz), c.w));
  }

  /** The dispatch of main_loop, for the memory calls. */
  method DoCall(sp: AddressSpace, c: MemCall) returns (r: Ret)
    requires sp.Ready() && NoEmptyTable(sp.k.S()) && CallOk(c)
    modifies sp.k`low, sp.k`high, sp.k`llLow, sp.k`llHigh, sp.k`allocAddrLow, sp.k`allocAddrHigh, sp.k`ml, sp.k`own
    ensures r == Stopped || r == KernelPages ==> HaltDue(old(PlainOf(sp.k.S(), sp.k.own)), c)
    ensures r != Stopped ==> CallDone(old(sp.k.S()), old(sp.k.own), sp.k.S(), sp.k.own, c, r) && NoEmptyTable(sp.k.S())
  {
    hide Inv, Kept, View, NoEmptyTable, OnlyIn, RoundPages, FlatPlace, OpDone, MapFaults, MmapAnswer, SnapPages,
      Search.Topmost, NoRoom, WasFree;
    ghost var s, o := sp.k.S(), sp.k.own;
    match c
    case CallMmap(addr, sz, w, fixed) =>
      r := sp.SysMmap2(addr, sz, w, fixed);
      if r == Stopped {
        StoppedDue(s, o, c);
      }
    case CallMunmap(addr, sz) =>
      r := sp.SysMunmap(addr, sz);
    case CallMprotect(addr, sz, w) =>
      r := sp.SysMprotect(addr, sz, w);
  }

  /** No call makes more room. */
  lemma RoomFalls(m: Plain, c: MemCall)
    ensures CallStep(m, c).room <= m.room
  {
  }

  /** One call, on plain memory: it goes on exactly when the limit allows it. */
  lemma CallMeans(t: State, ot: Own, u: State, ou: Own, c: MemCall, r: Ret)
    requires t.ml != ML_EXCEEDED && CallDone(t, ot, u, ou, c, r) && r == FlatAnswer(View(t), c)
    ensures u.ml != ML_EXCEEDED ==> !CallExceeds(PlainOf(t, ot), c) && PlainOf(u, ou) == CallStep(PlainOf(t, ot), c)
    ensures u.ml != ML_EXCEEDED ==> View(u) == FlatAfter(View(t), c)
    ensures u.ml == ML_EXCEEDED && PlainOf(t, ot).room < ML_EXCEEDED ==> CallExceeds(PlainOf(t, ot), c)
  {
    hide Inv, KeptMemory, View, SnapPages, FlatAnswer, CallLeaves;
    RoomFalls(PlainOf(t, ot), c);
  }

  /** The limit was exceeded before the first call. */
  ghost predicate OverAtOnce(cs: seq<MemCall>, r: CallReport) {
    r.answers == [] && (r.end == Served ==> cs == [])
  }

  /** `n` calls were answered, and the run of calls from `s` stands at `t`. */
  ghost predicate CallsSoFar(s: State, o: Own, t: State, ot: Own, cs: seq<MemCall>, answers: seq<Ret>) {
    && Going(s, o, t, ot) && ot.moved == {} && |answers| <= |cs|
    && PlainOf(t, ot).room <= PlainOf(s, o).room
    && (if s.ml == ML_EXCEEDED then t == s && ot == o && answers == []
        else t.ml != ML_EXCEEDED && ServedSo(PlainOf(s, o), cs, answers, PlainOf(t, ot)))
    && (CallsAbove(View(s), cs) ==> LowPagesKept(s, t) && CallsAbove(View(t), cs[|answers|..]))
  }

  lemma CallsStart(s: State, o: Own, cs: seq<MemCall>)
    requires Inv(s, o) && o.moved == {}
    ensures CallsSoFar(s, o, s, o, cs, [])
  {
    assert cs[..0] == [] && cs[0..] == cs;
  }

  lemma CallSticky(t: State, ot: Own, u: State, ou: Own)
    requires Going(t, ot, u, ou)
    ensures t.ml == ML_EXCEEDED ==> u.ml == ML_EXCEEDED
  {
  }

  lemma NoneMoved(t: State, ot: Own, u: State, ou: Own, c: MemCall, r: Ret)
    requires CallDone(t, ot, u, ou, c, r) && ot.moved == {} && u.ml != ML_EXCEEDED
    ensures ou.moved == {}
  {
    hide Inv, Kept, View, SnapPages, FlatAnswer, CallLeaves, CallOp;
  }

  lemma AboveNext(s: State, t: State, ot: Own, u: State, ou: Own, cs: seq<MemCall>, n: nat, r: Ret)
    requires n < |cs| && CallDone(t, ot, u, ou, cs[n], r) && View(u) == FlatAfter(View(t), cs[n])
    requires LowPagesKept(s, t) && CallsAbove(View(t), cs[n..])
    ensures LowPagesKept(s, u) && CallsAbove(View(u), cs[n + 1..])
  {
    hide Going, OpDone, View, FlatAnswer, FlatAfter, CallLeaves, LowPagesKept, CallAbove;
    assert cs[n..][0] == cs[n] && cs[n..][1..] == cs[n + 1..];
    LowCall(s, t, u, cs[n], r, View(t));
  }

  lemma CallsNext(s: State, o: Own, t: State, ot: Own, u: State, ou: Own, cs: seq<MemCall>, answers: seq<Ret>, r: Ret)
    requires CallsSoFar(s, o, t, ot, cs, answers) && |answers| < |cs| && CallDone(t, ot, u, ou, cs[|answers|], r)
    requires r != KernelPages && u.ml != ML_EXCEEDED
    ensures CallsSoFar(s, o, u, ou, cs, answers + [r])
  {
    hide Going, OpDone, View, SnapPages, FlatAnswer, FlatAfter, CallLeaves, CallExceeds, CallStep, LowPagesKept,
      ServedSo, CallsAbove;
    var c := cs[|answers|];
    GoingTrans(s, o, t, ot, u, ou);
    CallSticky(t, ot, u, ou);
    NoneMoved(t, ot, u, ou, c, r);
    CallMeans(t, ot, u, ou, c, r);
    RoomFalls(PlainOf(t, ot), c);
    CallsTurn(PlainOf(s, o), cs, answers, PlainOf(t, ot));
    if CallsAbove(View(s), cs) {
      AboveNext(s, t, ot, u, ou, cs, |answers|, r);
    }
  }

  lemma ServedLength(m: Plain, cs: seq<MemCall>, answers: seq<Ret>, m': Plain)
    requires ServedSo(m, cs, answers, m')
    ensures |answers| <= |cs|
  {
  }

  /** The call after which the limit is exceeded. */
  lemma CallsOver(s: State, o: Own, t: State, ot: Own, u: State, ou: Own, cs: seq<MemCall>, answers: seq<Ret>, r: Ret)
    requires CallsSoFar(s, o, t, ot, cs, answers) && |answers| < |cs| && CallDone(t, ot, u, ou, cs[|answers|], r)
    requires u.ml == ML_EXCEEDED
    ensures Going(s, o, u, ou) && (CallsAbove(View(s), cs) ==> LowPagesKept(s, u))
    ensures s.ml != ML_EXCEEDED ==> Answered(PlainOf(s, o), cs, CallReport(answers, OverLimit))
  {
    hide Inv, Kept, View, SnapPages, FlatAnswer, FlatAfter, CallLeaves, CallExceeds, CallStep, LowPagesKept,
      ServedSo, CallAbove;
    var c := cs[|answers|];
    GoingTrans(s, o, t, ot, u, ou);
    if s.ml != ML_EXCEEDED {
      CallMeans(t, ot, u, ou, c, r);
      assert EndsSo(PlainOf(s, o), cs, CallReport(answers, OverLimit), PlainOf(t, ot));
      ServedLength(PlainOf(s, o), cs, answers, PlainOf(t, ot));
    }
    if CallsAbove(View(s), cs) {
      assert cs[|answers|..][0] == c;
      LowCall(s, t, u, c, r, View(t));
    }
  }

  lemma CallsEnd(s: State, o: Own, t: State, ot: Own, cs: seq<MemCall>, r: CallReport)
    requires CallsSoFar(s, o, t, ot, cs, r.answers)
    requires match r.end
      case Served => |r.answers| == |cs|
      case Halted => |r.answers| < |cs| && HaltDue(PlainOf(t, ot), cs[|r.answers|])
      case OverLimit => false
    ensures if s.ml == ML_EXCEEDED then OverAtOnce(cs, r) else Answered(PlainOf(s, o), cs, r)
  {
    hide Inv, Kept, View, SnapPages, FlatAnswer, LowPagesKept, ServedSo, HaltDue;
    if s.ml != ML_EXCEEDED {
      ServedLength(PlainOf(s, o), cs, r.answers, PlainOf(t, ot));
      assert EndsSo(PlainOf(s, o), cs, r, PlainOf(t, ot));
    }
  }

  lemma OverFirst(s: State, o: Own, t: State, ot: Own, cs: seq<MemCall>, answers: seq<Ret>)
    requires CallsSoFar(s, o, t, ot, cs, answers)
    ensures s.ml == ML_EXCEEDED ==> OverAtOnce(cs, CallReport(answers, OverLimit))
  {
    hide Inv, KeptMemory;
  }

  lemma CallValid(s: State, o: Own, t: State, ot: Own, cs: seq<MemCall>, answers: seq<Ret>)
    requires CallsSoFar(s, o, t, ot, cs, answers)
    ensures Inv(t, ot) && ot.moved == {}
  {
    hide Inv, KeptMemory;
  }

  lemma CallKept(s: State, o: Own, t: State, ot: Own, cs: seq<MemCall>, answers: seq<Ret>)
    requires CallsSoFar(s, o, t, ot, cs, answers)
    ensures Going(s, o, t, ot) && (CallsAbove(View(s), cs) ==> LowPagesKept(s, t))
  {
    hide Inv, KeptMemory, LowPagesKept, PlainOf;
  }

  /** The calls in a row, as main_loop serves them: an exceeded limit is seen after the call. */
  method RunCalls(sp: AddressSpace, cs: seq<MemCall>) returns (r: CallReport)
    requires sp.Ready() && NoEmptyTable(sp.k.S()) && CallsOk(cs)
    modifies sp.k`low, sp.k`high, sp.k`llLow, sp.k`llHigh, sp.k`allocAddrLow, sp.k`allocAddrHigh, sp.k`ml, sp.k`own
    ensures if old(sp.k.ml) == ML_EXCEEDED then OverAtOnce(cs, r) else Answered(old(PlainOf(sp.k.S(), sp.k.own)), cs, r)
    ensures r.end != Halted ==> Going(old(sp.k.S()), old(sp.k.own), sp.k.S(), sp.k.own)
    ensures r.end != Halted && CallsAbove(old(View(sp.k.S())), cs) ==> LowPagesKept(old(sp.k.S()), sp.k.S())
  {
    hide Inv, Kept, NoEmptyTable, PlainOf, CallDone, CallsSoFar, LowPagesKept, HaltDue, CallsAbove;
    ghost var s, o := sp.k.S(), sp.k.own;
    var answers := [];
    CallsStart(s, o, cs);
    for i := 0 to |cs|
      invariant |answers| == i && sp.Ready() && NoEmptyTable(sp.k.S())
      invariant CallsSoFar(s, o, sp.k.S(), sp.k.own, cs, answers)
    {
      ghost var t, ot := sp.k.S(), sp.k.own;
      var a := DoCall(sp, cs[i]);
      if a == Stopped || a == KernelPages {
        r := CallReport(answers, Halted);
        CallsEnd(s, o, t, ot, cs, r);
        return;
      }
      if sp.k.ml == ML_EXCEEDED {
        CallsOver(s, o, t, ot, sp.k.S(), sp.k.own, cs, answers, a);
        OverFirst(s, o, t, ot, cs, answers);
        return CallReport(answers, OverLimit);
      }
      CallsNext(s, o, t, ot, sp.k.S(), sp.k.own, cs, answers, a);
      CallValid(s, o, sp.k.S(), sp.k.own, cs, answers + [a]);
      answers := answers + [a];
    }
    r := CallReport(answers, Served);
    CallsEnd(s, o, sp.k.S(), sp.k.own, cs, r);
    CallKept(s, o, sp.k.S(), sp.k.own, cs, answers);
  }

  // ---- tests of memory calls ----

  /** What a test with limit `ml` hears, the snapshot having memory `v`. */
  ghost predicate TestAnswered(v: Flat, drift: int, ml: nat, cs: seq<MemCall>, r: CallReport) {
    if FitsLimit(v, drift, ml) then Answered(StartMem(v, drift, ml), cs, r) else OverAtOnce(cs, r)
  }

  lemma UsedBack(s: State, u: State)
    requires Frozen(s) && Whole(s, u) && NoEmptyTable(s)
    ensures NoEmptyTable(u)
  {
    RestoredFrozen(s, u);
    assert Dir(u) == Dir(s);
    UsedSame(s, u);
  }

  lemma BegunUsed(s: State, newMl: nat)
    requires Frozen(s) && NoEmptyTable(s) && s.ml != ML_EXCEEDED && newMl < U32
    ensures NoEmptyTable(Begun(s, newMl))
  {
    TestStart(s, newMl);
    CloneInv(s);
    UsedSame(s, Begun(s, newMl));
  }

  lemma CallsKept(s: State, o: Own, t: State, ot: Own)
    requires Going(s, o, t, ot)
    ensures KeptMemory(s, o, t, ot)
  {
  }

  /** What the calls hear from the state a test starts in, in terms of the snapshot. */
  lemma CallsHeard(s: State, newMl: nat, cs: seq<MemCall>, r: CallReport)
    requires Frozen(s) && s.ml != ML_EXCEEDED && newMl < U32
    requires if Begun(s, newMl).ml == ML_EXCEEDED then OverAtOnce(cs, r)
             else Answered(PlainOf(Begun(s, newMl), BegunOwn(s, newMl)), cs, r)
    ensures TestAnswered(View(s), SnapshotDrift(s), newMl, cs, r)
  {
    hide View, Frozen, Begun, BegunOwn, Answered, PlainOf, StartMem, FitsLimit, SnapshotDrift, OverAtOnce;
    TestStartPlain(s, newMl);
  }

  /** What pop_paging brings back after the calls of a test is the whole snapshot. */
  lemma CallsBack(s: State, newMl: nat, t: State, ot: Own)
    requires Frozen(s) && s.ml != ML_EXCEEDED && newMl < U32
    requires Going(Begun(s, newMl), BegunOwn(s, newMl), t, ot) && LowPagesKept(Begun(s, newMl), t)
    ensures Whole(s, Popped(s, t))
  {
    hide Going, KeptMemory, View, Frozen, Restored, Begun, BegunOwn, LowPagesKept, WholeLow;
    CallsKept(Begun(s, newMl), BegunOwn(s, newMl), t, ot);
    TestEnd(s, newMl, t, ot);
    RestoredSelf(s);
    WholeTrans(s, s, Popped(s, t));
  }

  /** One test of memory calls: clone_paging, set_ml, the calls, pop_paging. */
  method CallsTest(sp: AddressSpace, newMl: nat, cs: seq<MemCall>) returns (r: CallReport)
    requires sp.k == sp.p.k && Frozen(sp.k.S()) && NoEmptyTable(sp.k.S()) && sp.k.cr3 == sp.k.origCr3
    requires sp.k.ml != ML_EXCEEDED && newMl < U32 && CallsOk(cs) && CallsAbove(View(sp.k.S()), cs)
    modifies sp.k
    ensures TestAnswered(old(View(sp.k.S())), old(SnapshotDrift(sp.k.S())), newMl, cs, r)
    ensures sp.k.origCr3 == old(sp.k.origCr3)
    ensures r.end != Halted ==> Whole(old(sp.k.S()), sp.k.S())
  {
    hide Inv, Going, KeptMemory, View, Frozen, Whole, Begun, BegunOwn, Answered, LowPagesKept, CallsAbove, NoEmptyTable,
      PlainOf, TestAnswered, SnapshotDrift, OverAtOnce;
    ghost var s := sp.k.S();
    TestStart(s, newMl);
    BegunUsed(s, newMl);
    sp.p.BeginTest(newMl);
    r := RunCalls(sp, cs);
    CallsHeard(s, newMl, cs, r);
    if r.end != Halted {
      CallsBack(s, newMl, sp.k.S(), sp.k.own);
      assert sp.k.Saved() == Popped(s, sp.k.S());
      sp.k.PopPaging();
    }
  }

  lemma WholeFacts(s: State, t: State)
    requires Frozen(s) && NoEmptyTable(s) && s.ml != ML_EXCEEDED && Whole(s, t)
    ensures Frozen(t) && NoEmptyTable(t) && t.ml != ML_EXCEEDED && View(t) == View(s)
    ensures SnapshotDrift(t) == SnapshotDrift(s)
  {
    UsedBack(s, t);
    WholeExact(s, t);
  }

  lemma WholeWhole(s: State, t: State, u: State)
    requires Frozen(s) && Whole(s, t) && Whole(t, u)
    ensures Whole(s, u) && u.cr3 == s.cr3
  {
    WholeTrans(s, t, u);
  }

  /** The same calls in every test, with limits of their own: each test is given exactly the answers
      of plain memory, up to the call that exceeds its limit. */
  method CallsTests(sp: AddressSpace, limits: seq<nat>, cs: seq<MemCall>) returns (rs: seq<CallReport>)
    requires sp.k == sp.p.k && Frozen(sp.k.S()) && NoEmptyTable(sp.k.S()) && sp.k.cr3 == sp.k.origCr3
    requires sp.k.ml != ML_EXCEEDED && CallsOk(cs) && CallsAbove(View(sp.k.S()), cs)
    requires forall i :: 0 <= i < |limits| ==> limits[i] < U32
    modifies sp.k
    ensures |rs| <= |limits| && (|rs| < |limits| ==> rs != [] && rs[|rs| - 1].end == Halted)
    ensures forall i :: 0 <= i < |rs| ==>
      TestAnswered(old(View(sp.k.S())), old(SnapshotDrift(sp.k.S())), limits[i], cs, rs[i])
    ensures (forall i :: 0 <= i < |rs| ==> rs[i].end != Halted) ==> Whole(old(sp.k.S()), sp.k.S())
  {
    hide View, Frozen, TestAnswered, CallsAbove, NoEmptyTable, Whole, SnapshotDrift;
    ghost var s := sp.k.S();
    rs := [];
    RestoredSelf(s);
    for i := 0 to |limits|
      invariant |rs| == i && sp.k.cr3 == sp.k.origCr3 == s.cr3 && Whole(s, sp.k.S())
      invariant forall j :: 0 <= j < i ==> TestAnswered(View(s), SnapshotDrift(s), limits[j], cs, rs[j])
    {
      ghost var t := sp.k.S();
      WholeFacts(s, t);
      var r := CallsTest(sp, limits[i], cs);
      rs := rs + [r];
      if r.end == Halted {
        assert rs[i].end == Halted;
        return;
      }
      WholeWhole(s, t, sp.k.S());
    }
  }

  /** The same calls in two tests: the test with the smaller limit gets a beginning of the answers. */
  lemma TestsAgree(v: Flat, drift: int, ml: nat, ml': nat, cs: seq<MemCall>, r: CallReport, r': CallReport)
    requires ml <= ml' && FitsLimit(v, drift, ml) && FitsLimit(v, drift, ml')
    requires TestAnswered(v, drift, ml, cs, r) && TestAnswered(v, drift, ml', cs, r')
    requires StartMem(v, drift, ml').room < ML_EXCEEDED && r.end != Halted && r'.end != Halted
    ensures r.answers <= r'.answers && (r.end == Served ==> r' == r)
  {
    hide Answered;
    var m, m' := StartMem(v, drift, ml), StartMem(v, drift, ml');
    assert m' == m.(room := m'.room);
    SameAnswers(m, m'.room, cs, r, r');
  }
}
