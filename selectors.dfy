/**
 * Selectors on nested-word-automaton transitions: functions that pick a
 * transition, or one of its keys, out of a call, internal or return
 * transition. Call and internal transitions are (source, symbol, target);
 * a return transition is (source, call predecessor, symbol, target).
 */
module Selectors {
  import opened Keys

  datatype NwaTrans =
    | Call(from: Key, sym: Key, to: Key)
    | Internal(from: Key, sym: Key, to: Key)
    | Return(from: Key, pred: Key, sym: Key, to: Key)

  /** CallTransitionSelector: a call transition selects itself. */
  function CallTransition(t: NwaTrans): (r: NwaTrans)
    requires t.Call?
    ensures r == t
  {
    t
  }

  /** InternalTransitionSelector: an internal transition selects itself. */
  function InternalTransition(t: NwaTrans): (r: NwaTrans)
    requires t.Internal?
    ensures r == t
  {
    t
  }

  /** ReturnTransitionSelector: a return transition selects itself. */
  function ReturnTransition(t: NwaTrans): (r: NwaTrans)
    requires t.Return?
    ensures r == t
  {
    t
  }

  /** SourceSelector: the state the transition leaves, its first component. */
  function Source(t: NwaTrans): (r: Key)
    ensures t.Call? ==> t == Call(r, t.sym, t.to)
    ensures t.Internal? ==> t == Internal(r, t.sym, t.to)
    ensures t.Return? ==> t == Return(r, t.pred, t.sym, t.to)
  {
    t.from
  }

  /** SymbolSelector: the symbol read, second of a call or internal, third of a return. */
  function Symbol(t: NwaTrans): (r: Key)
    ensures t.Return? ==> t == Return(t.from, t.pred, r, t.to)
    ensures t.Call? ==> t == Call(t.from, r, t.to)
    ensures t.Internal? ==> t == Internal(t.from, r, t.to)
  {
    t.sym
  }

  /** TargetSelector: the state the transition enters, its last component. */
  function Target(t: NwaTrans): (r: Key)
    ensures t.Call? ==> t == Call(t.from, t.sym, r)
    ensures t.Internal? ==> t == Internal(t.from, t.sym, r)
    ensures t.Return? ==> t == Return(t.from, t.pred, t.sym, r)
  {
    t.to
  }

  /** CallPredecessorSelector: the call predecessor of a return, its second component. */
  function CallPredecessor(t: NwaTrans): (r: Key)
    requires t.Return?
    ensures t == Return(t.from, r, t.sym, t.to)
  {
    t.pred
  }

  /** The ground selectors, for PairSelector to combine. */
  datatype Ground = SourceSel | SymbolSel | TargetSel | CallPredecessorSel

  /** A ground selector applies to every transition, except CallPredecessor, which needs a return. */
  predicate AppliesTo(g: Ground, t: NwaTrans) {
    g != CallPredecessorSel || t.Return?
  }

  function Apply(g: Ground, t: NwaTrans): Key
    requires AppliesTo(g, t)
  {
    match g
    case SourceSel => Source(t)
    case SymbolSel => Symbol(t)
    case TargetSel => Target(t)
    case CallPredecessorSel => CallPredecessor(t)
  }

  /** PairSelector<A, B>: the pair of what A and B select. */
  function PairSelect(a: Ground, b: Ground, t: NwaTrans): (r: (Key, Key))
    requires AppliesTo(a, t) && AppliesTo(b, t)
    ensures r.0 == Apply(a, t) && r.1 == Apply(b, t)
  {
    (Apply(a, t), Apply(b, t))
  }

  datatype Kind = CallKind | InternalKind | ReturnKind

  function KindOf(t: NwaTrans): Kind {
    match t
    case Call(_, _, _) => CallKind
    case Internal(_, _, _) => InternalKind
    case Return(_, _, _, _) => ReturnKind
  }

  /** The transition of kind k with the given components; pred is used by returns only. */
  function Build(k: Kind, from: Key, pred: Key, sym: Key, to: Key): NwaTrans {
    match k
    case CallKind => Call(from, sym, to)
    case InternalKind => Internal(from, sym, to)
    case ReturnKind => Return(from, pred, sym, to)
  }

  /**
   * The ground selectors lose nothing: a transition is rebuilt from its kind
   * and what they select, so two transitions of one kind that agree on every
   * selector are equal.
   */
  lemma SelectorsDetermine(t: NwaTrans, pred: Key)
    ensures t == Build(KindOf(t), Source(t), if t.Return? then CallPredecessor(t) else pred, Symbol(t), Target(t))
  {
  }

  /** The selectors' answers on the transitions (1, 2, 3), (10, 20, 30) and (100, 500, 200, 300). */
  lemma SelectorExamples()
    ensures var c, i, r := Call(1, 2, 3), Internal(10, 20, 30), Return(100, 500, 200, 300);
      && CallTransition(c) == c && InternalTransition(i) == i && ReturnTransition(r) == r
      && Source(c) == 1 && Source(i) == 10 && Source(r) == 100
      && Symbol(c) == 2 && Symbol(i) == 20 && Symbol(r) == 200
      && Target(c) == 3 && Target(i) == 30 && Target(r) == 300
      && CallPredecessor(r) == 500
      && PairSelect(SourceSel, TargetSel, c) == (1, 3)
      && PairSelect(SourceSel, TargetSel, i) == (10, 30)
      && PairSelect(SourceSel, TargetSel, r) == (100, 300)
      && PairSelect(SourceSel, CallPredecessorSel, r) == (100, 500)
  {
  }
}
