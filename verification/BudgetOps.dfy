/** set_ml: a limit that changes while pages are in use. */
module BudgetOps {
  import opened Integers
  import opened Machine
  import opened Ownership
  import opened DataOps

  /** The pages in use as set_ml computes them, modulo 2^32. */
  function Used(s: State): nat {
    (s.mlOrig - s.ml) % U32
  }

  function SetMl(s: State, newMl: nat): State {
    if Used(s) > newMl then
      s.(ml := ML_EXCEEDED, mlOrig := newMl)
    else
      s.(ml := (s.ml + newMl - s.mlOrig) % U32, mlOrig := newMl)
  }

  ghost function SetMlOwn(s: State, o: Own, newMl: nat): Own {
    o.(drift := SetMl(s, newMl).ml + |Mapped(s)| - newMl)
  }

  /** Both wrapping differences are exact: what is used plus what is left is the new limit. */
  lemma Rebased(s: State, newMl: nat)
    requires s.ml < U32 && s.mlOrig < U32 && newMl < U32 && Used(s) <= newMl
    ensures SetMl(s, newMl).ml == newMl - Used(s)
  {
    assert (s.ml + newMl - s.mlOrig) % U32 == (newMl - Used(s)) % U32 by {
      if s.ml <= s.mlOrig {
        assert Used(s) == s.mlOrig - s.ml;
      } else {
        assert Used(s) == s.mlOrig - s.ml + U32;
        assert newMl - Used(s) == s.ml + newMl - s.mlOrig - U32;
      }
    }
  }

  lemma SetMlInv(s: State, o: Own, newMl: nat)
    requires Inv(s, o) && s.ml != ML_EXCEEDED && newMl < U32
    ensures Inv(SetMl(s, newMl), SetMlOwn(s, o, newMl))
    ensures KeptMemory(s, o, SetMl(s, newMl), SetMlOwn(s, o, newMl))
    ensures Dir(SetMl(s, newMl)) == Dir(s)
    ensures forall p :: 0 <= p < PAGES ==> Ent(SetMl(s, newMl), p) == Ent(s, p)
    ensures Mapped(SetMl(s, newMl)) == Mapped(s)
  {
    hide Tables, LowList, Entries, Pages, HighList, Ent;
    RebudgetInv(s, o, SetMl(s, newMl), SetMlOwn(s, o, newMl));
  }

  // ---- the count of set_ml, in pages ----

  /** The pages in use, `drift` of them having been credited too much. */
  function InUse(pages: nat, drift: int): nat {
    (pages - drift) % U32
  }

  predicate Fits(pages: nat, drift: int, limit: nat) {
    InUse(pages, drift) <= limit && !(limit == ML_EXCEEDED && InUse(pages, drift) == 0)
  }

  /** The pages a run may hold: the limit and the drift, which a negative count turns around. */
  function StartRoom(pages: nat, drift: int, limit: nat): int {
    limit + pages - InUse(pages, drift)
  }

  /** The use carries over whenever it fits the new limit; the limit is exceeded at once exactly when
      it does not fit, or when the limit is the word ML_EXCEEDED and nothing is in use. */
  lemma SetMlKeepsUse(s: State, o: Own, newMl: nat)
    requires Inv(s, o) && s.ml != ML_EXCEEDED && newMl < U32
    ensures var t := SetMl(s, newMl);
      && (t.ml == ML_EXCEEDED <==> !Fits(|Mapped(s)|, o.drift, newMl))
      && (t.ml != ML_EXCEEDED ==>
            && t.ml == newMl - InUse(|Mapped(s)|, o.drift)
            && newMl + SetMlOwn(s, o, newMl).drift == StartRoom(|Mapped(s)|, o.drift, newMl))
  {
    hide Mapped;
    assert Used(s) == InUse(|Mapped(s)|, o.drift);
    if Used(s) <= newMl {
      Rebased(s, newMl);
    }
  }

  /** With a drift no larger than the pages, the run may hold the limit and the drift. */
  lemma UsualRoom(pages: nat, drift: int, limit: nat)
    requires 0 <= pages - drift < U32
    ensures StartRoom(pages, drift, limit) == limit + drift
    ensures Fits(pages, drift, limit) <==> pages - drift <= limit && !(limit == ML_EXCEEDED && pages == drift)
  {
  }
}
