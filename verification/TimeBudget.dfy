/** Time accounting of main_loop in kernel/runtime.c: unsigned 64-bit counters, and their copies for
    the next test. */
module TimeBudget {
  import opened Integers

  function Sum(ds: seq<nat>): nat {
    if ds == [] then 0 else Sum(ds[..|ds| - 1]) + ds[|ds| - 1]
  }

  lemma SumNext(ds: seq<nat>, k: nat)
    requires k < |ds|
    ensures Sum(ds[..k + 1]) == Sum(ds[..k]) + ds[k]
  {
    var u := ds[..k + 1];
    assert u[..|u| - 1] == ds[..k];
  }

  /** The limit of a test in ticks, as the multiplication gives it. */
  function Limit(tl: nat, perUs: nat): nat {
    tl * perUs % U64
  }

  /** As long as the product fits 64 bits, the limit is the microseconds in ticks. */
  lemma LimitMeans(tl: nat, perUs: nat)
    requires tl * perUs < U64
    ensures Limit(tl, perUs) == tl * perUs
  {
  }

  /** With `used` ticks gone before, `sum` more stay within the limit. A run that had used more than
      the limit before gets nothing. */
  predicate Within(used: nat, limit: nat, sum: nat) {
    if used <= limit then used + sum <= limit else sum == 0
  }

  /** The time of the first `j` rounds. */
  function Spent(ds: seq<nat>, j: nat): nat {
    if j <= |ds| then Sum(ds[..j]) else Sum(ds)
  }

  /** Round `k` is the first to go over the limit; k is the number of rounds when none does. */
  ghost predicate FirstOver(used: nat, limit: nat, deltas: seq<nat>, k: nat) {
    && k <= |deltas|
    && (forall j :: 0 <= j <= k ==> Within(used, limit, Spent(deltas, j)))
    && (k < |deltas| ==> !Within(used, limit, Spent(deltas, k + 1)))
  }

  lemma NotLater(used: nat, limit: nat, deltas: seq<nat>, k: nat, l: nat)
    requires FirstOver(used, limit, deltas, k) && FirstOver(used, limit, deltas, l)
    ensures l <= k
  {
  }

  /** There is only one such round. */
  lemma FirstOverUnique(used: nat, limit: nat, deltas: seq<nat>, k: nat, l: nat)
    requires FirstOver(used, limit, deltas, k) && FirstOver(used, limit, deltas, l)
    ensures k == l
  {
    NotLater(used, limit, deltas, k, l);
    NotLater(used, limit, deltas, l, k);
  }

  /** TL in round `k`: up to it the ticks were within the limit, and with it they are not. */
  lemma OverMeans(used: nat, limit: nat, deltas: seq<nat>, k: nat)
    requires FirstOver(used, limit, deltas, k) && used <= limit
    ensures used + Sum(deltas[..k]) <= limit
    ensures k < |deltas| ==> limit < used + Sum(deltas[..k + 1]) == used + Sum(deltas[..k]) + deltas[k]
  {
    assert Within(used, limit, Spent(deltas, k));
    if k < |deltas| {
      SumNext(deltas, k);
    }
  }

  lemma Wraps(tl: nat, orig: nat, limit: nat)
    requires tl <= orig < U64 && limit < U64
    ensures (orig - tl) % U64 == orig - tl
    ensures orig - tl <= limit ==> (tl + (limit - orig) % U64) % U64 == limit - (orig - tl)
  {
    if limit >= orig {
      assert (limit - orig) % U64 == limit - orig;
    } else {
      assert (limit - orig) % U64 == limit - orig + U64;
    }
  }

  lemma {:induction false} SumGrows(ds: seq<nat>, k: nat)
    requires k <= |ds|
    ensures Sum(ds[..k]) <= Sum(ds)
    decreases |ds| - k
  {
    if k < |ds| {
      SumGrows(ds, k + 1);
      SumNext(ds, k);
    } else {
      assert ds[..k] == ds;
    }
  }

  class Clock {
    var tl: nat
    var tlOrig: nat
    var tlBak: nat
    var tlOrigBak: nat
    /** Ticks per microsecond. */
    const perUs: nat

    constructor (p: nat)
      ensures perUs == p && tl == tlOrig == tlBak == tlOrigBak == 0
    {
      tl, tlOrig, tlBak, tlOrigBak, perUs := 0, 0, 0, 0, p;
    }

    predicate Valid()
      reads this
    {
      tl <= tlOrig < U64 && tlBak <= tlOrigBak < U64
    }

    /** Ticks used so far. */
    function Used(): nat
      reads this
      requires Valid()
    {
      tlOrig - tl
    }

    /** The head of main_loop: a new limit, the use so far kept. Both subtractions and the addition
        wrap around in the source. */
    method Rebase(arg: nat)
      requires Valid()
      modifies this`tl, this`tlOrig
      ensures Valid() && tlOrig == Limit(arg, perUs)
      ensures old(Used()) <= tlOrig ==> Used() == old(Used())
      ensures old(Used()) > tlOrig ==> tl == 0
    {
      var limit := arg * perUs % U64;
      Wraps(tl, tlOrig, limit);
      if (tlOrig - tl) % U64 > limit {
        tl := 0;
      } else {
        tl := (tl + (limit - tlOrig) % U64) % U64;
      }
      tlOrig := limit;
    }

    /** main_loop: `deltas` are the times of its rounds in the program. It returns TL in round `k`,
        or never when `k` is their number. */
    method MainLoop(arg: nat, deltas: seq<nat>) returns (k: nat)
      requires Valid()
      modifies this`tl, this`tlOrig
      ensures Valid() && FirstOver(old(Used()), Limit(arg, perUs), deltas, k)
      ensures tlOrig == Limit(arg, perUs)
      ensures old(Used()) <= tlOrig ==> Used() == old(Used()) + Sum(deltas[..k])
    {
      ghost var used := Used();
      Rebase(arg);
      k := 0;
      while k < |deltas|
        invariant k <= |deltas| && Valid() && tlOrig == Limit(arg, perUs)
        invariant if used <= tlOrig then Used() == used + Sum(deltas[..k]) else tl == 0 == Sum(deltas[..k])
        invariant forall j :: 0 <= j <= k ==> Within(used, tlOrig, Sum(deltas[..j]))
      {
        SumNext(deltas, k);
        if tl < deltas[k] {
          return;
        }
        tl := tl - deltas[k];
        k := k + 1;
      }
    }

    /** save_runtime and restore_runtime, as far as the time goes. */
    method Save()
      requires Valid()
      modifies this`tlBak, this`tlOrigBak
      ensures Valid() && tlBak == tl && tlOrigBak == tlOrig
    {
      tlBak, tlOrigBak := tl, tlOrig;
    }

    method Restore()
      requires Valid()
      modifies this`tl, this`tlOrig
      ensures Valid() && tl == tlBak && tlOrig == tlOrigBak
    {
      tl, tlOrig := tlBak, tlOrigBak;
    }

    /** The loop of main over the tests, from the start of the first run: each test goes over its
        limit when the first run and its own rounds together do, whatever the other tests took. */
    method RunTests(first: nat, before: seq<nat>, limits: seq<nat>, deltas: seq<seq<nat>>)
      returns (started: bool, ks: seq<nat>)
      requires tl == tlOrig == tlBak == tlOrigBak == 0 && |limits| == |deltas|
      modifies this
      ensures started <==> Sum(before) <= Limit(first, perUs)
      ensures started ==> |ks| == |deltas| && forall i :: 0 <= i < |deltas| ==>
        FirstOver(Sum(before), Limit(limits[i], perUs), deltas[i], ks[i])
    {
      ks := [];
      var k := MainLoop(first, before);
      assert before[..|before|] == before;
      if k < |before| {
        SumGrows(before, k + 1);
        return false, [];
      }
      Save();
      started := true;
      for i := 0 to |deltas|
        invariant Valid() && tlOrigBak - tlBak == Sum(before) && |ks| == i
        invariant forall j :: 0 <= j < i ==> FirstOver(Sum(before), Limit(limits[j], perUs), deltas[j], ks[j])
      {
        Restore();
        k := MainLoop(limits[i], deltas[i]);
        ks := ks + [k];
      }
    }
  }
}
