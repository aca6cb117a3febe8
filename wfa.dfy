/**
 * The weighted finite automaton of WALi: a transition store indexed by
 * (from, stack), an index of epsilon transitions by target, per-state
 * weights, one initial state, a set of final states, the state set, the
 * query mode that fixes the extend order, and a generation counter. The
 * methods update those fields in place.
 */
module Wfa {
  import opened Keys
  import opened Semiring
  import opened Wrappers
  import opened WfaSpec
  import opened Fixpoint
  import Graph

  class WFA<W(!new,==)> {
    /** The weight domain of the automaton's transitions. */
    const dom: Semiring<W>

    var kpmap: KpMap<W>
    /** Each state's weight (the State objects of the library). */
    var stateMap: map<Key, W>
    var epsMap: EpsMap
    var initState: Key
    var F: set<Key>
    var Q: set<Key>
    var query: Query
    var generation: nat

    /** The state set is the domain of the weights, and the epsilon index is exact. */
    ghost predicate Valid()
      reads this
    {
      (forall k :: k in Q <==> k in stateMap) && EpsConsistent(kpmap, epsMap)
    }

    /** An empty automaton with query mode q; the initial state is EPSILON until set. */
    constructor (d: Semiring<W>, q: Query)
      ensures Valid()
      ensures dom == d && query == q && generation == 0 && initState == EPSILON
      ensures kpmap == map[] && stateMap == map[] && epsMap == map[] && F == {} && Q == {}
    {
      dom := d;
      kpmap := map[];
      stateMap := map[];
      epsMap := map[];
      initState := EPSILON;
      F := {};
      Q := {};
      query := q;
      generation := 0;
    }

    /** Remove every transition, state and final state. */
    method Clear()
      requires Valid()
      modifies this`kpmap, this`stateMap, this`epsMap, this`F, this`Q
      ensures Valid()
      ensures kpmap == map[] && stateMap == map[] && epsMap == map[] && F == {} && Q == {}
    {
      kpmap := map[];
      stateMap := map[];
      epsMap := map[];
      F := {};
      Q := {};
    }

    /** Make key the initial state; the previous initial state is returned. */
    method SetInitialState(key: Key) returns (prev: Key)
      modifies this`initState
      ensures initState == key && prev == old(initState)
      ensures IsInitialState(key)
    {
      prev := initState;
      initState := key;
    }

    function InitialState(): (r: Key)
      reads this
      ensures r == initState
    {
      initState
    }

    /** key is the initial state. */
    predicate IsInitialState(key: Key): (b: bool)
      reads this
      ensures b <==> key == initState
    {
      key == InitialState()
    }

    /** Add key to the final states; no other state's final status changes. */
    method AddFinalState(key: Key)
      modifies this`F
      ensures IsFinalState(key)
      ensures forall k :: k != key ==> (IsFinalState(k) <==> old(IsFinalState(k)))
    {
      F := F + {key};
    }

    predicate IsFinalState(key: Key): (b: bool)
      reads this
      ensures b <==> key in F
    {
      key in F
    }

    /** Install query mode q; the old mode is returned. */
    method SetQuery(q: Query) returns (prev: Query)
      modifies this`query
      ensures GetQuery() == q && prev == old(GetQuery())
    {
      prev := query;
      query := q;
    }

    function GetQuery(): (r: Query)
      reads this
      ensures r == query
    {
      query
    }

    /** The number of reachability queries run on this automaton. */
    function GetGeneration(): (r: nat)
      reads this
      ensures r == generation
    {
      generation
    }

    method SetGeneration(g: nat)
      modifies this`generation
      ensures GetGeneration() == g
    {
      generation := g;
    }

    function NumStates(): (n: nat)
      reads this
      ensures n == |Q|
    {
      |Q|
    }

    /** Create state key with weight zero, unless it already exists. */
    method AddState(key: Key, zero: W)
      requires Valid()
      modifies this`stateMap, this`Q
      ensures Valid()
      ensures Q == old(Q) + {key} && stateMap == WithState(old(stateMap), key, zero)
      ensures NumStates() == old(NumStates()) + (if key in old(Q) then 0 else 1)
    {
      if key !in Q {
        stateMap := stateMap[key := zero];
        Q := Q + {key};
      }
    }

    /**
     * Insert transition t; an existing (p, g, q) transition absorbs the new
     * weight by combine. The returned transition is the one now stored.
     */
    method Insert(t: Trans<W>) returns (stored: Trans<W>)
      requires Valid()
      modifies this`kpmap, this`epsMap
      ensures Valid()
      ensures kpmap == WfaSpec.Insert(dom.combine, old(kpmap), t.from, t.stack, t.to, t.weight)
      ensures epsMap == if t.stack == EPSILON then EpsAdd(old(epsMap), t.from, t.to) else old(epsMap)
      ensures stored.from == t.from && stored.stack == t.stack && stored.to == t.to
      ensures Get(kpmap, t.from, t.stack, t.to) == Some(stored.weight)
    {
      InsertEpsConsistent(dom.combine, kpmap, epsMap, t.from, t.stack, t.to, t.weight);
      kpmap := WfaSpec.Insert(dom.combine, kpmap, t.from, t.stack, t.to, t.weight);
      if t.stack == EPSILON {
        epsMap := EpsAdd(epsMap, t.from, t.to);
      }
      stored := Trans(t.from, t.stack, t.to, kpmap[(t.from, t.stack)][t.to]);
    }

    /** Add transition (p, g, q) of weight w, creating p and q with weight zero if needed. */
    method AddTrans(p: Key, g: Key, q: Key, w: W)
      requires Valid()
      modifies this`kpmap, this`epsMap, this`stateMap, this`Q
      ensures Valid()
      ensures kpmap == WfaSpec.Insert(dom.combine, old(kpmap), p, g, q, w)
      ensures Q == old(Q) + {p, q} && stateMap == WithState(WithState(old(stateMap), p, dom.zero), q, dom.zero)
      ensures Closed(old(kpmap), old(Q)) ==> Closed(kpmap, Q)
    {
      if Closed(kpmap, Q) {
        InsertClosed(dom.combine, kpmap, Q, p, g, q, w);
      }
      AddState(p, dom.zero);
      AddState(q, dom.zero);
      var _ := Insert(Trans(p, g, q, w));
    }

    /** Remove transition (from, stack, to) if it exists; otherwise nothing changes. */
    method Erase(from: Key, stack: Key, to: Key)
      requires Valid()
      modifies this`kpmap, this`epsMap
      ensures Valid()
      ensures kpmap == WfaSpec.Erase(old(kpmap), from, stack, to)
      ensures Find(from, stack, to) == None
      ensures old(Find(from, stack, to)) == None ==> kpmap == old(kpmap) && epsMap == old(epsMap)
    {
      EraseEpsConsistent(kpmap, epsMap, from, stack, to);
      if Get(kpmap, from, stack, to) == None {
        EraseAbsent(kpmap, epsMap, from, stack, to);
      }
      kpmap := WfaSpec.Erase(kpmap, from, stack, to);
      if stack == EPSILON {
        epsMap := EpsRemove(epsMap, from, to);
      }
    }

    /**
     * Remove state q and its outgoing transitions. Transitions into q from
     * other states stay. Returns false, changing nothing, when q is not a state.
     */
    method EraseState(q: Key) returns (ok: bool)
      requires Valid()
      modifies this`kpmap, this`epsMap, this`stateMap, this`Q, this`F
      ensures Valid()
      ensures ok == (q in old(Q))
      ensures !ok ==> kpmap == old(kpmap) && epsMap == old(epsMap) && stateMap == old(stateMap)
                      && Q == old(Q) && F == old(F)
      ensures ok ==> Q == old(Q) - {q} && F == old(F) - {q} && stateMap == old(stateMap) - {q}
      ensures ok ==> forall a, b, c :: Get(kpmap, a, b, c) == if a == q then None else Get(old(kpmap), a, b, c)
    {
      if q !in Q {
        return false;
      }
      EraseOutgoingEpsConsistent(kpmap, epsMap, q);
      kpmap := EraseOutgoing(kpmap, q);
      epsMap := EpsRemoveSource(epsMap, q);
      stateMap := stateMap - {q};
      Q := Q - {q};
      F := F - {q};
      ok := true;
    }

    /** The transition (p, g, q), if it exists. */
    function Find(p: Key, g: Key, q: Key): (r: Option<Trans<W>>)
      reads this
      ensures r.Some? <==> Get(kpmap, p, g, q).Some?
      ensures r.Some? ==> r.value == Trans(p, g, q, Get(kpmap, p, g, q).value)
    {
      if (p, g) in kpmap && q in kpmap[(p, g)] then Some(Trans(p, g, q, kpmap[(p, g)][q])) else None
    }

    /** The transitions of the form (p, y, ?). */
    function Match(p: Key, y: Key): (r: set<Trans<W>>)
      reads this
      ensures forall t :: t in r <==> t.from == p && t.stack == y && Find(p, y, t.to) == Some(t)
    {
      WfaSpec.Match(kpmap, p, y)
    }

    /** The weight path_summary puts on final states: wtFinal, or one when none is given. */
    function FinalWeight(wtFinal: Option<W>): (w: W)
      ensures wtFinal.Some? ==> w == wtFinal.value
      ensures wtFinal.None? ==> w == dom.one
    {
      if wtFinal.Some? then wtFinal.value else dom.one
    }

    /**
     * Give every state weight zero and every final state weight wtFinal (or
     * one), and put every state on the worklist.
     */
    method SetupFixpoint(wtFinal: Option<W>) returns (wl: set<Key>)
      requires Valid()
      modifies this`stateMap
      ensures Valid()
      ensures stateMap == Seed(dom, Q, F, FinalWeight(wtFinal)) && wl == Q
    {
      var wt := FinalWeight(wtFinal);
      var states, finals := Q, F;
      var todo := states;
      var S: map<Key, W> := map[];
      wl := {};
      while todo != {}
        invariant todo <= states
        invariant forall s :: (s in S <==> s in states && s !in todo) && (s in wl <==> s in S)
        invariant forall s :: s in S ==> S[s] == if s in finals then wt else dom.zero
        decreases todo
      {
        HasMember(todo);
        var s :| s in todo;
        S := S[s := if s in finals then wt else dom.zero];
        wl := wl + {s};
        todo := todo - {s};
      }
      assert S.Keys == states by {
        forall k | k in states
          ensures k in S
        {
          assert k !in todo;
        }
        forall k | k in S
          ensures k in states
        {
        }
      }
      assert wl == states by {
        forall k | k in wl
          ensures k in states
        {
          assert k in S;
        }
        forall k | k in states
          ensures k in wl
        {
          assert k in S;
        }
      }
      SeedEq(dom, states, finals, wt, S);
      stateMap := S;
    }

    /**
     * The worklist fixed point: pop a state q; for each transition
     * (p, g, q, w) into q, combine Ext(w, weight(q)) into p's weight and put
     * p back on the worklist when its weight changed. fuel bounds the number
     * of pops. Whatever the pop order, the weights stay below every solution
     * of the path-summary inequations; when the worklist empties
     * (converged), they are a solution, hence the least one.
     */
    method PathSummary(wtFinal: Option<W>, fuel: nat) returns (converged: bool)
      requires Valid() && IsSemiring(dom) && Closed(kpmap, Q)
      modifies this`stateMap
      ensures Valid()
      ensures Below(dom, Seed(dom, Q, F, FinalWeight(wtFinal)), stateMap)
      ensures BelowAll(dom, query, kpmap, Q, F, FinalWeight(wtFinal), stateMap)
      ensures converged ==> IsSolution(dom, query, kpmap, F, FinalWeight(wtFinal), stateMap)
    {
      var wt := FinalWeight(wtFinal);
      var wl := SetupFixpoint(wtFinal);
      var m, states, finals, qm := kpmap, Q, F, query;
      SeedEstablishes(dom, qm, m, states, finals, wt);
      var n := fuel;
      while wl != {} && n > 0
        invariant OuterInv(dom, qm, m, states, finals, wt, stateMap, wl)
        invariant BelowAll(dom, qm, m, states, finals, wt, stateMap)
        decreases n
      {
        HasMember(wl);
        var q :| q in wl;
        PopEstablishes(dom, qm, m, states, finals, wt, stateMap, wl, q);
        wl := wl - {q};
        var wq := stateMap[q];
        var todo := Preds(m, q);
        while todo != {}
          invariant InnerInv(dom, qm, m, states, finals, wt, stateMap, wl, q, wq, todo)
          invariant BelowAll(dom, qm, m, states, finals, wt, stateMap)
          invariant WeightBelowAll(dom, qm, m, states, finals, wt, q, wq)
          decreases todo
        {
          Pick(todo);
          var kp :| kp in todo;
          RelaxStep(dom, qm, m, states, finals, wt, stateMap, wl, q, wq, todo, kp);
          var p := kp.0;
          var nw := dom.combine(stateMap[p], Ext(dom, qm, m[kp][q], wq));
          if nw != stateMap[p] {
            stateMap := stateMap[p := nw];
            wl := wl + {p};
          }
          todo := todo - {kp};
        }
        InnerDone(dom, qm, m, states, finals, wt, stateMap, wl, q, wq);
        n := n - 1;
      }
      converged := wl == {};
      if converged {
        ConvergedSolves(dom, qm, m, states, finals, wt, stateMap);
      }
    }

    /**
     * Keep only the transitions in the (initial state, final states) chop:
     * those leaving a state reachable from the initial state and entering a
     * state from which a final state is reachable. States are kept.
     */
    method Prune() returns (ghost R: set<Key>, ghost C: set<Key>)
      requires Valid()
      modifies this`kpmap, this`epsMap
      ensures Valid()
      ensures Graph.IsReach(Edges(old(kpmap)), {initState}, R)
      ensures Graph.IsReach(Graph.Flip(Edges(old(kpmap))), F, C)
      ensures kpmap == Chop(old(kpmap), R, C)
    {
      var E := Edges(kpmap);
      var fwd := Graph.Reach(E, {initState});
      var bwd := Graph.Reach(Graph.Flip(E), F);
      ChopEpsConsistent(kpmap, epsMap, fwd, bwd);
      kpmap := Chop(kpmap, fwd, bwd);
      epsMap := EpsChop(epsMap, fwd, bwd);
      R, C := fwd, bwd;
    }

    /**
     * Add the product of the transitions of m1 and m2 on the same stack
     * symbol to an automaton without transitions or states. With an
     * injective pairing key no two products share (from, stack, to), so no
     * weights are combined.
     */
    method AddProduct(mk: (W, W) -> W, pk: (Key, Key) -> Key, m1: KpMap<W>, m2: KpMap<W>)
      requires Valid() && Injective(pk)
      requires kpmap == map[] && stateMap == map[]
      modifies this`kpmap, this`epsMap, this`stateMap, this`Q
      ensures Valid() && Closed(kpmap, Q)
      ensures AllTrans(kpmap) == Product(mk, pk, MatchingPairs(m1, m2))
      ensures forall s :: s in stateMap ==> stateMap[s] == dom.zero
    {
      var all := MatchingPairs(m1, m2);
      var todo := all;
      EmptyProduct(mk, pk, kpmap, all);
      while todo != {}
        invariant todo <= all && ProductSoFar(mk, pk, m1, m2, todo)
        decreases todo
      {
        Pick(todo);
        var pr :| pr in todo;
        AddPair(mk, pk, m1, m2, todo, pr);
        todo := todo - {pr};
      }
      FullProduct(mk, pk, all);
    }

    /** The products of the pairs outside todo are exactly the transitions, and every state has weight zero. */
    ghost predicate ProductSoFar(mk: (W, W) -> W, pk: (Key, Key) -> Key, m1: KpMap<W>, m2: KpMap<W>,
                                 todo: set<(Trans<W>, Trans<W>)>)
      reads this
    {
      && Valid() && Closed(kpmap, Q)
      && AllTrans(kpmap) == Product(mk, pk, MatchingPairs(m1, m2) - todo)
      && forall s :: s in stateMap ==> stateMap[s] == dom.zero
    }

    /** One step of AddProduct: add the product transition of pair pr. */
    method AddPair(mk: (W, W) -> W, pk: (Key, Key) -> Key, m1: KpMap<W>, m2: KpMap<W>,
                   todo: set<(Trans<W>, Trans<W>)>, pr: (Trans<W>, Trans<W>))
      requires Injective(pk) && todo <= MatchingPairs(m1, m2) && pr in todo
      requires ProductSoFar(mk, pk, m1, m2, todo)
      modifies this`kpmap, this`epsMap, this`stateMap, this`Q
      ensures ProductSoFar(mk, pk, m1, m2, todo - {pr})
    {
      var t := PairTrans(mk, pk, pr.0, pr.1);
      ProductStep(mk, pk, dom.combine, m1, m2, todo, pr, kpmap);
      AddTrans(t.from, t.stack, t.to, t.weight);
    }

    /**
     * Intersect this automaton with fa into dest, which is cleared first.
     * The initial state of dest pairs the two initial states, its final
     * states pair the final states, and each pair of transitions on the
     * same stack symbol gives one transition whose weight mk makes from the
     * two weights. pk is the key of a pair of states.
     */
    method Intersect(mk: (W, W) -> W, fa: WFA<W>, dest: WFA<W>, pk: (Key, Key) -> Key)
      requires dest != this && dest != fa
      requires Valid() && fa.Valid() && dest.Valid()
      requires Injective(pk)
      modifies dest`kpmap, dest`epsMap, dest`stateMap, dest`Q, dest`F, dest`initState
      ensures dest.Valid()
      ensures dest.initState == pk(initState, fa.initState)
      ensures dest.F == set f1, f2 | f1 in F && f2 in fa.F :: pk(f1, f2)
      ensures AllTrans(dest.kpmap) == Product(mk, pk, MatchingPairs(kpmap, fa.kpmap))
      ensures Closed(dest.kpmap, dest.Q)
      ensures forall s :: s in dest.stateMap ==> dest.stateMap[s] == dest.dom.zero
    {
      dest.Clear();
      var _ := dest.SetInitialState(pk(initState, fa.initState));
      dest.F := set f1, f2 | f1 in F && f2 in fa.F :: pk(f1, f2);
      dest.AddProduct(mk, pk, kpmap, fa.kpmap);
    }
  }
}
