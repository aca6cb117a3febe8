/**
 * The value-level view of a weighted finite automaton's transition store
 * and of the equations its path summary solves.
 *
 * The transition store is the `kpmap` of the WFA: it maps a (from, stack)
 * key pair to the transitions with that source and symbol, here a map from
 * the target state to the transition's weight. A (from, stack, to) triple
 * therefore has at most one transition.
 */
module WfaSpec {
  import opened Keys
  import opened Semiring
  import opened Wrappers

  type KeyPair = (Key, Key)

  /** (from, stack) -> (to -> weight) */
  type KpMap<W> = map<KeyPair, map<Key, W>>

  /** to -> the sources of the epsilon transitions that end in `to` */
  type EpsMap = map<Key, set<Key>>

  /** A weighted transition (from, stack, to, weight). */
  datatype Trans<W> = Trans(from: Key, stack: Key, to: Key, weight: W)

  /**
   * How path_summary extends weights: INORDER extends a transition's weight
   * by its target's weight (prestar), REVERSE the other way round (poststar).
   */
  datatype Query = INORDER | REVERSE

  /** The weight of transition (p, g, q), if there is one. */
  function Get<W>(m: KpMap<W>, p: Key, g: Key, q: Key): Option<W> {
    if (p, g) in m && q in m[(p, g)] then Some(m[(p, g)][q]) else None
  }

  /**
   * Insert (p, g, q, w): a transition already present for (p, g, q) gets the
   * combine of its old weight and w; otherwise (p, g, q) gets weight w.
   */
  function Insert<W>(combine: (W, W) -> W, m: KpMap<W>, p: Key, g: Key, q: Key, w: W): (r: KpMap<W>)
    ensures Get(r, p, g, q) == Some(if Get(m, p, g, q).Some? then combine(Get(m, p, g, q).value, w) else w)
    ensures forall a, b, c :: (a, b, c) != (p, g, q) ==> Get(r, a, b, c) == Get(m, a, b, c)
  {
    var inner := if (p, g) in m then m[(p, g)] else map[];
    var nw := if q in inner then combine(inner[q], w) else w;
    m[(p, g) := inner[q := nw]]
  }

  /** Remove transition (p, g, q) if it exists. */
  function Erase<W>(m: KpMap<W>, p: Key, g: Key, q: Key): (r: KpMap<W>)
    ensures Get(r, p, g, q) == None
    ensures forall a, b, c :: (a, b, c) != (p, g, q) ==> Get(r, a, b, c) == Get(m, a, b, c)
    ensures Get(m, p, g, q) == None ==> r == m
  {
    if (p, g) in m && q in m[(p, g)] then m[(p, g) := m[(p, g)] - {q}] else m
  }

  /** Remove every transition leaving q; transitions into q stay. */
  function EraseOutgoing<W>(m: KpMap<W>, q: Key): (r: KpMap<W>)
    ensures forall a, b, c :: Get(r, a, b, c) == if a == q then None else Get(m, a, b, c)
  {
    map kp | kp in m && kp.0 != q :: m[kp]
  }

  /** The transitions of the form (p, y, ?). */
  function Match<W(!new,==)>(m: KpMap<W>, p: Key, y: Key): (r: set<Trans<W>>)
    ensures forall t :: t in r <==> t.from == p && t.stack == y && Get(m, p, y, t.to) == Some(t.weight)
  {
    if (p, y) in m then set q | q in m[(p, y)] :: Trans(p, y, q, m[(p, y)][q]) else {}
  }

  /** The epsilon index lists exactly the epsilon transitions, grouped by target. */
  ghost predicate EpsConsistent<W>(m: KpMap<W>, e: EpsMap) {
    && (forall to, from :: to in e && from in e[to] ==> Get(m, from, EPSILON, to).Some?)
    && (forall from, to :: Get(m, from, EPSILON, to).Some? ==> to in e && from in e[to])
  }

  /** Record the epsilon transition from -> to in the epsilon index. */
  function EpsAdd(e: EpsMap, from: Key, to: Key): (r: EpsMap)
    ensures forall x, y :: (x in r && y in r[x]) <==> ((x in e && y in e[x]) || (x, y) == (to, from))
  {
    e[to := (if to in e then e[to] else {}) + {from}]
  }

  /** Drop the epsilon transition from -> to from the epsilon index. */
  function EpsRemove(e: EpsMap, from: Key, to: Key): (r: EpsMap)
    ensures forall x, y :: (x in r && y in r[x]) <==> (x in e && y in e[x] && (x, y) != (to, from))
  {
    if to in e then e[to := e[to] - {from}] else e
  }

  /** Drop every epsilon transition leaving q from the epsilon index. */
  function EpsRemoveSource(e: EpsMap, q: Key): (r: EpsMap)
    ensures forall x, y :: (x in r && y in r[x]) <==> (x in e && y in e[x] && y != q)
  {
    map to | to in e :: e[to] - {q}
  }

  /** Every transition of the store, as a set. */
  function AllTrans<W(!new,==)>(m: KpMap<W>): (r: set<Trans<W>>)
    ensures forall t :: t in r <==> Get(m, t.from, t.stack, t.to) == Some(t.weight)
  {
    set kp, q | kp in m && q in m[kp] :: Trans(kp.0, kp.1, q, m[kp][q])
  }

  /** Inserting a triple that is not yet present adds exactly that transition. */
  lemma InsertNew<W(!new)>(combine: (W, W) -> W, m: KpMap<W>, p: Key, g: Key, q: Key, w: W)
    requires Get(m, p, g, q) == None
    ensures AllTrans(Insert(combine, m, p, g, q, w)) == AllTrans(m) + {Trans(p, g, q, w)}
  {
    var r := Insert(combine, m, p, g, q, w);
    forall t | t in AllTrans(r)
      ensures t in AllTrans(m) + {Trans(p, g, q, w)}
    {
      if (t.from, t.stack, t.to) != (p, g, q) {
        assert Get(r, t.from, t.stack, t.to) == Get(m, t.from, t.stack, t.to);
      }
    }
    forall t | t in AllTrans(m)
      ensures t in AllTrans(r)
    {
      assert (t.from, t.stack, t.to) != (p, g, q);
      assert Get(r, t.from, t.stack, t.to) == Get(m, t.from, t.stack, t.to);
    }
  }

  /** Insert keeps the epsilon index exact when an epsilon transition is recorded in it. */
  lemma InsertEpsConsistent<W>(combine: (W, W) -> W, m: KpMap<W>, e: EpsMap, p: Key, g: Key, q: Key, w: W)
    requires EpsConsistent(m, e)
    ensures EpsConsistent(Insert(combine, m, p, g, q, w), if g == EPSILON then EpsAdd(e, p, q) else e)
  {
    var r := Insert(combine, m, p, g, q, w);
    var e' := if g == EPSILON then EpsAdd(e, p, q) else e;
    forall to, from | to in e' && from in e'[to]
      ensures Get(r, from, EPSILON, to).Some?
    {
      if (from, EPSILON, to) != (p, g, q) {
        assert Get(r, from, EPSILON, to) == Get(m, from, EPSILON, to);
      }
    }
    forall from, to | Get(r, from, EPSILON, to).Some?
      ensures to in e' && from in e'[to]
    {
      if (from, EPSILON, to) != (p, g, q) {
        assert Get(r, from, EPSILON, to) == Get(m, from, EPSILON, to);
      }
    }
  }

  /** Erase keeps the epsilon index exact when an epsilon transition is dropped from it. */
  lemma EraseEpsConsistent<W>(m: KpMap<W>, e: EpsMap, p: Key, g: Key, q: Key)
    requires EpsConsistent(m, e)
    ensures EpsConsistent(Erase(m, p, g, q), if g == EPSILON then EpsRemove(e, p, q) else e)
  {
    var r := Erase(m, p, g, q);
    var e' := if g == EPSILON then EpsRemove(e, p, q) else e;
    forall to, from | to in e' && from in e'[to]
      ensures Get(r, from, EPSILON, to).Some?
    {
      if (from, EPSILON, to) != (p, g, q) {
        assert Get(r, from, EPSILON, to) == Get(m, from, EPSILON, to);
      }
    }
    forall from, to | Get(r, from, EPSILON, to).Some?
      ensures to in e' && from in e'[to]
    {
      assert (from, EPSILON, to) != (p, g, q);
      assert Get(r, from, EPSILON, to) == Get(m, from, EPSILON, to);
    }
  }

  /** Erasing a transition that is absent changes neither the store nor the epsilon index. */
  lemma EraseAbsent<W>(m: KpMap<W>, e: EpsMap, p: Key, g: Key, q: Key)
    requires EpsConsistent(m, e) && Get(m, p, g, q) == None
    ensures Erase(m, p, g, q) == m
    ensures g == EPSILON ==> EpsRemove(e, p, q) == e
  {
    if g == EPSILON && q in e {
      assert p !in e[q];
      assert e[q] - {p} == e[q];
    }
  }

  /** Dropping a state's outgoing transitions keeps the epsilon index exact. */
  lemma EraseOutgoingEpsConsistent<W>(m: KpMap<W>, e: EpsMap, q: Key)
    requires EpsConsistent(m, e)
    ensures EpsConsistent(EraseOutgoing(m, q), EpsRemoveSource(e, q))
  {
    var r := EraseOutgoing(m, q);
    var e' := EpsRemoveSource(e, q);
    forall to, from | to in e' && from in e'[to]
      ensures Get(r, from, EPSILON, to).Some?
    {
      assert Get(r, from, EPSILON, to) == Get(m, from, EPSILON, to);
    }
    forall from, to | Get(r, from, EPSILON, to).Some?
      ensures to in e' && from in e'[to]
    {
      assert Get(r, from, EPSILON, to) == Get(m, from, EPSILON, to);
    }
  }

  // ---------------------------------------------------------------------
  // Pruning to the (initial state, final states) chop.

  /** The (from, to) edges of the transition graph; the stack symbol is ignored. */
  function Edges<W>(m: KpMap<W>): (r: set<(Key, Key)>)
    ensures forall kp, t :: kp in m && t in m[kp] ==> (kp.0, t) in r
    ensures forall e :: e in r ==> exists kp :: kp in m && kp.0 == e.0 && e.1 in m[kp]
  {
    set kp, t | kp in m && t in m[kp] :: (kp.0, t)
  }

  /** Keep the transitions that leave a state in R and enter a state in C. */
  function Chop<W>(m: KpMap<W>, R: set<Key>, C: set<Key>): (r: KpMap<W>)
    ensures forall a, b, c :: Get(r, a, b, c) == if a in R && c in C then Get(m, a, b, c) else None
  {
    map kp | kp in m && kp.0 in R :: map t | t in m[kp] && t in C :: m[kp][t]
  }

  /** The epsilon index restricted the same way. */
  function EpsChop(e: EpsMap, R: set<Key>, C: set<Key>): (r: EpsMap)
    ensures forall x, y :: (x in r && y in r[x]) <==> (x in e && y in e[x] && y in R && x in C)
  {
    map to | to in e && to in C :: set from | from in e[to] && from in R
  }

  lemma ChopEpsConsistent<W>(m: KpMap<W>, e: EpsMap, R: set<Key>, C: set<Key>)
    requires EpsConsistent(m, e)
    ensures EpsConsistent(Chop(m, R, C), EpsChop(e, R, C))
  {
  }

  // ---------------------------------------------------------------------
  // Intersection.

  /** The key that pairs two states: injective, as the key factory interns pairs. */
  ghost predicate Injective(pk: (Key, Key) -> Key) {
    forall a, b, c, e :: pk(a, b) == pk(c, e) ==> a == c && b == e
  }

  /** The product of two transitions on the same stack symbol, weighted by mk. */
  function PairTrans<W>(mk: (W, W) -> W, pk: (Key, Key) -> Key, t1: Trans<W>, t2: Trans<W>): Trans<W> {
    Trans(pk(t1.from, t2.from), t1.stack, pk(t1.to, t2.to), mk(t1.weight, t2.weight))
  }

  /** The pairs of transitions the intersection combines: same stack symbol. */
  function MatchingPairs<W(!new,==)>(m1: KpMap<W>, m2: KpMap<W>): (r: set<(Trans<W>, Trans<W>)>)
    ensures forall t1, t2 :: (t1, t2) in r <==> t1 in AllTrans(m1) && t2 in AllTrans(m2) && t1.stack == t2.stack
  {
    set t1, t2 | t1 in AllTrans(m1) && t2 in AllTrans(m2) && t1.stack == t2.stack :: (t1, t2)
  }

  /** The product transitions of a set of matching pairs. */
  function Product<W(!new,==)>(mk: (W, W) -> W, pk: (Key, Key) -> Key, P: set<(Trans<W>, Trans<W>)>): (r: set<Trans<W>>)
    ensures forall pr :: pr in P ==> PairTrans(mk, pk, pr.0, pr.1) in r
    ensures forall t :: t in r ==> exists pr :: pr in P && t == PairTrans(mk, pk, pr.0, pr.1)
  {
    set pr | pr in P :: PairTrans(mk, pk, pr.0, pr.1)
  }

  /**
   * With an injective pairing key, two matching pairs whose products share
   * (from, stack, to) are the same pair: the product never has to combine
   * two weights into one transition.
   */
  lemma PairTransDistinct<W(!new)>(mk: (W, W) -> W, pk: (Key, Key) -> Key, m1: KpMap<W>, m2: KpMap<W>,
                                      pr: (Trans<W>, Trans<W>), pr': (Trans<W>, Trans<W>))
    requires Injective(pk)
    requires pr in MatchingPairs(m1, m2) && pr' in MatchingPairs(m1, m2)
    requires PairTrans(mk, pk, pr.0, pr.1).from == PairTrans(mk, pk, pr'.0, pr'.1).from
    requires PairTrans(mk, pk, pr.0, pr.1).stack == PairTrans(mk, pk, pr'.0, pr'.1).stack
    requires PairTrans(mk, pk, pr.0, pr.1).to == PairTrans(mk, pk, pr'.0, pr'.1).to
    ensures pr == pr'
  {
    assert pr.0 in AllTrans(m1) && pr'.0 in AllTrans(m1);
    assert pr.1 in AllTrans(m2) && pr'.1 in AllTrans(m2);
    assert pr.0.from == pr'.0.from && pr.1.from == pr'.1.from;
    assert pr.0.to == pr'.0.to && pr.1.to == pr'.1.to;
  }

  /** The product of one more pair adds that pair's product transition. */
  lemma ProductAdd<W(!new)>(mk: (W, W) -> W, pk: (Key, Key) -> Key, P: set<(Trans<W>, Trans<W>)>,
                            pr: (Trans<W>, Trans<W>))
    ensures Product(mk, pk, P + {pr}) == Product(mk, pk, P) + {PairTrans(mk, pk, pr.0, pr.1)}
  {
  }

  /**
   * While the product of the pairs done so far is being built, the product
   * triple of a pair not yet done is absent from the store.
   */
  lemma ProductFresh<W(!new)>(mk: (W, W) -> W, pk: (Key, Key) -> Key, m1: KpMap<W>, m2: KpMap<W>,
                              todo: set<(Trans<W>, Trans<W>)>, pr: (Trans<W>, Trans<W>), m: KpMap<W>)
    requires Injective(pk)
    requires todo <= MatchingPairs(m1, m2) && pr in todo
    requires AllTrans(m) == Product(mk, pk, MatchingPairs(m1, m2) - todo)
    ensures var t := PairTrans(mk, pk, pr.0, pr.1); Get(m, t.from, t.stack, t.to) == None
  {
    var t := PairTrans(mk, pk, pr.0, pr.1);
    forall pr' | pr' in MatchingPairs(m1, m2) - todo
      ensures (PairTrans(mk, pk, pr'.0, pr'.1).from, PairTrans(mk, pk, pr'.0, pr'.1).stack,
               PairTrans(mk, pk, pr'.0, pr'.1).to) != (t.from, t.stack, t.to)
    {
      if (PairTrans(mk, pk, pr'.0, pr'.1).from, PairTrans(mk, pk, pr'.0, pr'.1).stack,
          PairTrans(mk, pk, pr'.0, pr'.1).to) == (t.from, t.stack, t.to) {
        PairTransDistinct(mk, pk, m1, m2, pr, pr');
      }
    }
  }

  /** Before any pair is done, the empty store is the product built so far. */
  lemma EmptyProduct<W(!new)>(mk: (W, W) -> W, pk: (Key, Key) -> Key, m: KpMap<W>, P: set<(Trans<W>, Trans<W>)>)
    requires m == map[]
    ensures AllTrans(m) == Product(mk, pk, P - P)
  {
    assert P - P == {};
  }

  /** Once every pair is done, the product built is the whole product. */
  lemma FullProduct<W(!new)>(mk: (W, W) -> W, pk: (Key, Key) -> Key, P: set<(Trans<W>, Trans<W>)>)
    ensures Product(mk, pk, P - {}) == Product(mk, pk, P)
  {
    assert P - {} == P;
  }

  /** One step of the intersection loop: adding the product of pair pr extends the product built so far. */
  lemma ProductStep<W(!new)>(mk: (W, W) -> W, pk: (Key, Key) -> Key, combine: (W, W) -> W, m1: KpMap<W>,
                             m2: KpMap<W>, todo: set<(Trans<W>, Trans<W>)>, pr: (Trans<W>, Trans<W>), m: KpMap<W>)
    requires Injective(pk)
    requires todo <= MatchingPairs(m1, m2) && pr in todo
    requires AllTrans(m) == Product(mk, pk, MatchingPairs(m1, m2) - todo)
    ensures var t := PairTrans(mk, pk, pr.0, pr.1);
            AllTrans(Insert(combine, m, t.from, t.stack, t.to, t.weight))
            == Product(mk, pk, MatchingPairs(m1, m2) - (todo - {pr}))
  {
    var t := PairTrans(mk, pk, pr.0, pr.1);
    var all := MatchingPairs(m1, m2);
    ProductFresh(mk, pk, m1, m2, todo, pr, m);
    InsertNew(combine, m, t.from, t.stack, t.to, t.weight);
    ProductAdd(mk, pk, all - todo, pr);
    assert all - (todo - {pr}) == (all - todo) + {pr};
  }

  // ---------------------------------------------------------------------
  // The equations of path_summary.

  /** The candidate weight a transition of weight w contributes from a target of weight x. */
  function Ext<W>(d: Semiring<W>, qm: Query, w: W, x: W): W {
    if qm == INORDER then d.extend(w, x) else d.extend(x, w)
  }

  /** Every transition's endpoints are states of the automaton. */
  ghost predicate Closed<W>(m: KpMap<W>, states: set<Key>) {
    forall kp, t :: kp in m && t in m[kp] ==> kp.0 in states && t in states
  }

  /** Inserting (p, g, q) keeps the endpoints among the states once p and q are states. */
  lemma InsertClosed<W>(combine: (W, W) -> W, m: KpMap<W>, states: set<Key>, p: Key, g: Key, q: Key, w: W)
    requires Closed(m, states)
    ensures Closed(Insert(combine, m, p, g, q, w), states + {p, q})
  {
    var r := Insert(combine, m, p, g, q, w);
    forall kp, t | kp in r && t in r[kp]
      ensures kp.0 in states + {p, q} && t in states + {p, q}
    {
      assert Get(r, kp.0, kp.1, t).Some?;
      if (kp.0, kp.1, t) != (p, g, q) {
        assert Get(m, kp.0, kp.1, t).Some?;
      }
    }
  }

  /** Transition (kp.0, kp.1, t) is accounted for in the per-state weights X. */
  ghost predicate Covered<W>(d: Semiring<W>, qm: Query, m: KpMap<W>, X: map<Key, W>, kp: KeyPair, t: Key)
    requires kp in m && t in m[kp]
  {
    kp.0 in X && t in X && Contains(d, X[kp.0], Ext(d, qm, m[kp][t], X[t]))
  }

  /**
   * X solves the path-summary inequations: every final state's weight
   * contains the final weight wt, and every state's weight contains the
   * extension of each outgoing transition's weight by its target's weight.
   */
  ghost predicate IsSolution<W>(d: Semiring<W>, qm: Query, m: KpMap<W>, finals: set<Key>, wt: W, X: map<Key, W>) {
    && (forall f :: f in finals && f in X ==> Contains(d, X[f], wt))
    && (forall kp, t :: kp in m && t in m[kp] ==> Covered(d, qm, m, X, kp, t))
  }

  /** X is pointwise below Y (over the same states). */
  ghost predicate Below<W>(d: Semiring<W>, X: map<Key, W>, Y: map<Key, W>) {
    X.Keys == Y.Keys && forall s :: s in X ==> Contains(d, Y[s], X[s])
  }

  /**
   * The least solution is unique: two solutions each below the other are
   * the same weight assignment. So the result of a converged path summary
   * does not depend on the worklist's pop order.
   */
  lemma LeastSolutionUnique<W(!new)>(d: Semiring<W>, X: map<Key, W>, Y: map<Key, W>)
    requires IsSemiring(d)
    requires Below(d, X, Y) && Below(d, Y, X)
    ensures X == Y
  {
    forall s | s in X
      ensures X[s] == Y[s]
    {
      ContainsAntisym(d, X[s], Y[s]);
    }
  }

  /** Add state key with weight zero unless it is already there. */
  function WithState<W>(S: map<Key, W>, key: Key, zero: W): (r: map<Key, W>)
    ensures r.Keys == S.Keys + {key}
    ensures forall s :: s in S ==> r[s] == S[s]
    ensures key !in S ==> r[key] == zero
  {
    if key in S then S else S[key := zero]
  }

  /** The weights path_summary starts from: wt at final states, zero elsewhere. */
  function Seed<W>(d: Semiring<W>, states: set<Key>, finals: set<Key>, wt: W): (r: map<Key, W>)
    ensures r.Keys == states
    ensures forall s :: s in states && s in finals ==> r[s] == wt
    ensures forall s :: s in states && s !in finals ==> r[s] == d.zero
  {
    map s | s in states :: if s in finals then wt else d.zero
  }

  /** A weight map that agrees with the seed on every state is the seed. */
  lemma SeedEq<W>(d: Semiring<W>, states: set<Key>, finals: set<Key>, wt: W, S: map<Key, W>)
    requires S.Keys == states
    requires forall s :: s in S ==> S[s] == if s in finals then wt else d.zero
    ensures S == Seed(d, states, finals, wt)
  {
    var T := Seed(d, states, finals, wt);
    assert S.Keys == T.Keys;
    forall s | s in S
      ensures S[s] == T[s]
    {
    }
  }

  /** Every solution lies above the seed weights. */
  lemma SeedBelowSolutions<W(!new)>(d: Semiring<W>, qm: Query, m: KpMap<W>, states: set<Key>, finals: set<Key>,
                                   wt: W, X: map<Key, W>)
    requires IsSemiring(d)
    requires X.Keys == states && IsSolution(d, qm, m, finals, wt, X)
    ensures Below(d, Seed(d, states, finals, wt), X)
  {
    var S := Seed(d, states, finals, wt);
    forall s | s in S
      ensures Contains(d, X[s], S[s])
    {
      if s !in finals {
        ContainsZero(d, X[s]);
      }
    }
  }
}
