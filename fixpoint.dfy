/**
 * The invariants of the path_summary worklist loop, stated on values, and
 * the lemmas that show one relaxation step preserves them. The WFA class
 * runs the loop; this module carries its proof.
 *
 * A state's weight S[s] is the accumulator of the fixed point. When state q
 * is popped, every predecessor transition (p, g, q, w) is relaxed: S[p]
 * becomes S[p] ⊕ Ext(w, S[q]), and p is put back on the worklist if its
 * weight changed.
 */
module Fixpoint {
  import opened Keys
  import opened Semiring
  import opened WfaSpec

  /** The key pairs (p, g) that have a transition into q. */
  function Preds<W>(m: KpMap<W>, q: Key): (r: set<KeyPair>)
    ensures forall kp :: kp in r <==> kp in m && q in m[kp]
  {
    set kp | kp in m && q in m[kp]
  }

  /** Relax transition (kp.0, kp.1, q): combine its contribution into the source's weight. */
  function Relax<W>(d: Semiring<W>, qm: Query, m: KpMap<W>, S: map<Key, W>, kp: KeyPair, q: Key, wq: W): map<Key, W>
    requires kp in m && q in m[kp] && kp.0 in S
  {
    S[kp.0 := d.combine(S[kp.0], Ext(d, qm, m[kp][q], wq))]
  }

  /** Final states' weights contain the final weight wt. */
  ghost predicate FinalsContain<W>(d: Semiring<W>, finals: set<Key>, wt: W, S: map<Key, W>) {
    forall f :: f in finals && f in S ==> Contains(d, S[f], wt)
  }

  /** Every transition whose target is off the worklist is accounted for. */
  ghost predicate CoveredOffList<W>(d: Semiring<W>, qm: Query, m: KpMap<W>, S: map<Key, W>, wl: set<Key>) {
    forall kp, t :: kp in m && t in m[kp] && t !in wl ==> Covered(d, qm, m, S, kp, t)
  }

  /**
   * The same, while the predecessor transitions of q listed in todo are still
   * to be relaxed.
   */
  ghost predicate CoveredExcept<W>(d: Semiring<W>, qm: Query, m: KpMap<W>, S: map<Key, W>, wl: set<Key>,
                                   q: Key, todo: set<KeyPair>) {
    forall kp, t :: kp in m && t in m[kp] && t !in wl && !(t == q && kp in todo) ==> Covered(d, qm, m, S, kp, t)
  }

  /** What holds between two pops of the worklist. */
  ghost predicate OuterInv<W>(d: Semiring<W>, qm: Query, m: KpMap<W>, states: set<Key>, finals: set<Key>, wt: W,
                              S: map<Key, W>, wl: set<Key>) {
    && Closed(m, states)
    && S.Keys == states
    && wl <= states
    && FinalsContain(d, finals, wt, S)
    && CoveredOffList(d, qm, m, S, wl)
    && Below(d, Seed(d, states, finals, wt), S)
  }

  /** What holds while the predecessors of the popped state q are relaxed; wq is q's weight when popped. */
  ghost predicate InnerInv<W>(d: Semiring<W>, qm: Query, m: KpMap<W>, states: set<Key>, finals: set<Key>, wt: W,
                              S: map<Key, W>, wl: set<Key>, q: Key, wq: W, todo: set<KeyPair>) {
    && Closed(m, states)
    && S.Keys == states
    && wl <= states
    && q in states
    && todo <= Preds(m, q)
    && FinalsContain(d, finals, wt, S)
    && CoveredExcept(d, qm, m, S, wl, q, todo)
    && (q !in wl ==> S[q] == wq)
    && Below(d, Seed(d, states, finals, wt), S)
  }

  /** S lies below every solution over the given states: with IsSolution, S is the least solution. */
  ghost predicate BelowAll<W(!new)>(d: Semiring<W>, qm: Query, m: KpMap<W>, states: set<Key>, finals: set<Key>, wt: W,
                              S: map<Key, W>) {
    forall X: map<Key, W> :: X.Keys == states && IsSolution(d, qm, m, finals, wt, X) ==> Below(d, S, X)
  }

  /** Weight wq of state q lies below q's weight in every solution. */
  ghost predicate WeightBelowAll<W(!new)>(d: Semiring<W>, qm: Query, m: KpMap<W>, states: set<Key>, finals: set<Key>,
                                    wt: W, q: Key, wq: W) {
    forall X: map<Key, W> :: X.Keys == states && IsSolution(d, qm, m, finals, wt, X) ==> q in X && Contains(d, X[q], wq)
  }

  /** The seed weights with every state on the worklist satisfy the outer invariant. */
  lemma {:induction false} SeedEstablishes<W(!new)>(d: Semiring<W>, qm: Query, m: KpMap<W>, states: set<Key>,
                                                    finals: set<Key>, wt: W)
    requires IsSemiring(d) && Closed(m, states)
    ensures OuterInv(d, qm, m, states, finals, wt, Seed(d, states, finals, wt), states)
    ensures BelowAll(d, qm, m, states, finals, wt, Seed(d, states, finals, wt))
  {
    var S := Seed(d, states, finals, wt);
    forall X: map<Key, W> | X.Keys == states && IsSolution(d, qm, m, finals, wt, X)
      ensures Below(d, S, X)
    {
      SeedBelowSolutions(d, qm, m, states, finals, wt, X);
    }
    forall s | s in S
      ensures Contains(d, S[s], S[s])
    {
      ContainsRefl(d, S[s]);
    }
    forall f | f in finals && f in S
      ensures Contains(d, S[f], wt)
    {
      ContainsRefl(d, wt);
    }
  }

  /** Popping q from the worklist starts the relaxation of all its predecessors. */
  lemma {:induction false} PopEstablishes<W(!new)>(d: Semiring<W>, qm: Query, m: KpMap<W>, states: set<Key>,
                                                   finals: set<Key>, wt: W, S: map<Key, W>,
                                                   wl: set<Key>, q: Key)
    requires OuterInv(d, qm, m, states, finals, wt, S, wl) && q in wl
    requires BelowAll(d, qm, m, states, finals, wt, S)
    ensures InnerInv(d, qm, m, states, finals, wt, S, wl - {q}, q, S[q], Preds(m, q))
    ensures WeightBelowAll(d, qm, m, states, finals, wt, q, S[q])
  {
    assert q in S;
    forall X: map<Key, W> | X.Keys == states && IsSolution(d, qm, m, finals, wt, X)
      ensures q in X && Contains(d, X[q], S[q])
    {
      assert Below(d, S, X);
    }
  }

  /** With nothing left to relax, the outer invariant is back. */
  lemma {:induction false} InnerDone<W(!new)>(d: Semiring<W>, qm: Query, m: KpMap<W>, states: set<Key>,
                                              finals: set<Key>, wt: W, S: map<Key, W>,
                                              wl: set<Key>, q: Key, wq: W)
    requires InnerInv(d, qm, m, states, finals, wt, S, wl, q, wq, {})
    ensures OuterInv(d, qm, m, states, finals, wt, S, wl)
  {
  }

  /** One relaxation keeps the inner invariant, with kp moved out of todo. */
  lemma {:induction false} RelaxStep<W(!new)>(d: Semiring<W>, qm: Query, m: KpMap<W>, states: set<Key>,
                                              finals: set<Key>, wt: W, S: map<Key, W>,
                                              wl: set<Key>, q: Key, wq: W, todo: set<KeyPair>, kp: KeyPair)
    requires IsSemiring(d)
    requires InnerInv(d, qm, m, states, finals, wt, S, wl, q, wq, todo) && kp in todo
    requires BelowAll(d, qm, m, states, finals, wt, S) && WeightBelowAll(d, qm, m, states, finals, wt, q, wq)
    ensures kp in m && q in m[kp] && kp.0 in S
    ensures var S' := Relax(d, qm, m, S, kp, q, wq);
            var changed := S'[kp.0] != S[kp.0];
            && InnerInv(d, qm, m, states, finals, wt, if changed then S' else S,
                        if changed then wl + {kp.0} else wl, q, wq, todo - {kp})
            && BelowAll(d, qm, m, states, finals, wt, if changed then S' else S)
  {
    var S' := Relax(d, qm, m, S, kp, q, wq);
    if S'[kp.0] == S[kp.0] {
      RelaxUnchanged(d, qm, m, S, wl, q, wq, todo, kp);
    } else {
      var p := kp.0;
      var e := Ext(d, qm, m[kp][q], wq);
      CombineGrows(d, S[p], e);
      forall X: map<Key, W> | X.Keys == states && IsSolution(d, qm, m, finals, wt, X)
        ensures Below(d, S', X)
      {
        assert Below(d, S, X);
        RelaxBelowSolution(d, qm, m, finals, wt, X, S, q, wq, kp);
      }
      RelaxAboveSeed(d, Seed(d, states, finals, wt), S, p, e);
      RelaxFinals(d, finals, wt, S, p, e);
      RelaxCovered(d, qm, m, S, wl, q, wq, todo, kp);
    }
  }

  /** A relaxation that changes nothing only moves kp out of todo. */
  lemma {:induction false} RelaxUnchanged<W(!new)>(d: Semiring<W>, qm: Query, m: KpMap<W>, S: map<Key, W>,
                                                   wl: set<Key>, q: Key, wq: W, todo: set<KeyPair>, kp: KeyPair)
    requires kp in todo && kp in m && q in m[kp] && kp.0 in S && q in S
    requires CoveredExcept(d, qm, m, S, wl, q, todo) && (q !in wl ==> S[q] == wq)
    requires d.combine(S[kp.0], Ext(d, qm, m[kp][q], wq)) == S[kp.0]
    ensures CoveredExcept(d, qm, m, S, wl, q, todo - {kp})
  {
    forall kp2, t | kp2 in m && t in m[kp2] && t !in wl && !(t == q && kp2 in todo - {kp})
      ensures Covered(d, qm, m, S, kp2, t)
    {
      if t == q && kp2 in todo {
        assert kp2 == kp && S[q] == wq;
      }
    }
  }

  /** The relaxed weight stays below any solution X. */
  lemma {:induction false} RelaxBelowSolution<W(!new)>(d: Semiring<W>, qm: Query, m: KpMap<W>, finals: set<Key>,
                                                       wt: W, X: map<Key, W>, S: map<Key, W>, q: Key, wq: W,
                                                       kp: KeyPair)
    requires IsSemiring(d) && IsSolution(d, qm, m, finals, wt, X)
    requires kp in m && q in m[kp] && kp.0 in S && Below(d, S, X) && q in X && Contains(d, X[q], wq)
    ensures Below(d, Relax(d, qm, m, S, kp, q, wq), X)
  {
    var p := kp.0;
    var w := m[kp][q];
    var e := Ext(d, qm, w, wq);
    assert Covered(d, qm, m, X, kp, q);
    ExtendMonotone(d, X[q], wq, w);
    ContainsTrans(d, X[p], Ext(d, qm, w, X[q]), e);
    ContainsCombine(d, X[p], S[p], e);
  }

  /** The relaxed weight stays above the seed. */
  lemma {:induction false} RelaxAboveSeed<W(!new)>(d: Semiring<W>, seed: map<Key, W>, S: map<Key, W>, p: Key, e: W)
    requires IsSemiring(d) && p in S && Below(d, seed, S)
    ensures Below(d, seed, S[p := d.combine(S[p], e)])
  {
    ContainsAfterGrowth(d, S[p], e, seed[p]);
  }

  /** Final states keep containing the final weight. */
  lemma {:induction false} RelaxFinals<W(!new)>(d: Semiring<W>, finals: set<Key>, wt: W, S: map<Key, W>, p: Key, e: W)
    requires IsSemiring(d) && p in S && FinalsContain(d, finals, wt, S)
    ensures FinalsContain(d, finals, wt, S[p := d.combine(S[p], e)])
  {
    if p in finals {
      ContainsAfterGrowth(d, S[p], e, wt);
    }
  }

  /** A relaxation that changes p's weight keeps every transition covered once p is back on the worklist. */
  lemma {:induction false} RelaxCovered<W(!new)>(d: Semiring<W>, qm: Query, m: KpMap<W>, S: map<Key, W>,
                                                 wl: set<Key>, q: Key, wq: W, todo: set<KeyPair>, kp: KeyPair)
    requires IsSemiring(d)
    requires kp in todo && kp in m && q in m[kp] && kp.0 in S && q in S
    requires CoveredExcept(d, qm, m, S, wl, q, todo) && (q !in wl ==> S[q] == wq)
    ensures CoveredExcept(d, qm, m, Relax(d, qm, m, S, kp, q, wq), wl + {kp.0}, q, todo - {kp})
  {
    var p := kp.0;
    var e := Ext(d, qm, m[kp][q], wq);
    var S' := Relax(d, qm, m, S, kp, q, wq);
    CombineGrows(d, S[p], e);
    forall kp2, t | kp2 in m && t in m[kp2] && t !in wl + {p} && !(t == q && kp2 in todo - {kp})
      ensures Covered(d, qm, m, S', kp2, t)
    {
      if kp2 == kp && t == q {
        assert S[q] == wq;
      } else {
        assert Covered(d, qm, m, S, kp2, t);
        if kp2.0 == p {
          ContainsAfterGrowth(d, S[p], e, Ext(d, qm, m[kp2][t], S[t]));
        }
      }
    }
  }

  /** A converged worklist leaves a solution. */
  lemma {:induction false} ConvergedSolves<W(!new)>(d: Semiring<W>, qm: Query, m: KpMap<W>, states: set<Key>,
                                                    finals: set<Key>, wt: W, S: map<Key, W>)
    requires OuterInv(d, qm, m, states, finals, wt, S, {})
    ensures IsSolution(d, qm, m, finals, wt, S)
  {
  }
}
