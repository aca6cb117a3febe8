/**
 * Witnesses record how a weight was derived. A WitnessCombine node stands
 * for the combine of its children: the combine of the children's weights
 * must equal the node's own weight. Combining a WitnessCombine with another
 * witness always builds a fresh node, and uses the containment test
 * a + b == a to decide which child lists the new node copies.
 */
module Witnesses {
  import opened Semiring

  /**
   * A witness, as held in a child list: either a WitnessCombine node or any
   * other kind of witness, of which only the weight matters here.
   */
  datatype Witness<W> = Plain(weight: W) | Node(node: WitnessCombine<W>)

  /** The weight a witness stands for (its user_se). */
  function WeightOf<W>(x: Witness<W>): W {
    match x
    case Plain(w) => w
    case Node(n) => n.userSe
  }

  /** The weights of a child list, in order. */
  function Weights<W>(ks: seq<Witness<W>>): (r: seq<W>)
    ensures |r| == |ks|
    ensures forall i :: 0 <= i < |ks| ==> r[i] == WeightOf(ks[i])
  {
    if |ks| == 0 then [] else Weights(ks[..|ks| - 1]) + [WeightOf(ks[|ks| - 1])]
  }

  /** The combine of a list of weights, left to right, starting from zero. */
  function Sum<W>(d: Semiring<W>, ws: seq<W>): W {
    if |ws| == 0 then d.zero else d.combine(Sum(d, ws[..|ws| - 1]), ws[|ws| - 1])
  }

  /** Summing a concatenation combines the two sums. */
  lemma {:induction false} SumAppend<W(!new)>(d: Semiring<W>, a: seq<W>, b: seq<W>)
    requires IsSemiring(d)
    ensures Sum(d, a + b) == d.combine(Sum(d, a), Sum(d, b))
    decreases |b|
  {
    if |b| == 0 {
      assert a + b == a;
    } else {
      var b' := b[..|b| - 1];
      assert (a + b)[..|a + b| - 1] == a + b';
      SumAppend(d, a, b');
      calc {
        Sum(d, a + b);
        d.combine(Sum(d, a + b'), b[|b| - 1]);
        d.combine(d.combine(Sum(d, a), Sum(d, b')), b[|b| - 1]);
        d.combine(Sum(d, a), d.combine(Sum(d, b'), b[|b| - 1]));
        d.combine(Sum(d, a), Sum(d, b));
      }
    }
  }

  /** The weights of a concatenation are the concatenated weights. */
  lemma WeightsAppend<W>(a: seq<Witness<W>>, b: seq<Witness<W>>)
    ensures Weights(a + b) == Weights(a) + Weights(b)
  {
    assert Weights(a + b) == Weights(a) + Weights(b);
  }

  /** The children of a node combine to the node's weight. */
  ghost predicate KidsSumTo<W>(d: Semiring<W>, kids: seq<Witness<W>>, w: W) {
    Sum(d, Weights(kids)) == w
  }

  /**
   * The child list WitnessCombine::combine evidently intends for the new
   * node (the library's plain-witness branch differs, see NewKidsAsWritten),
   * for a receiver of weight se with children kids, and an argument that
   * (whose own children are thatKids when it is a WitnessCombine):
   * - that is a WitnessCombine: the receiver's children when the receiver
   *   contains that; else that's children when that contains the receiver;
   *   else both lists, the receiver's first;
   * - that is another witness: the receiver's children when the receiver
   *   already contains that, otherwise the receiver's children followed by
   *   that.
   */
  function NewKids<W(==)>(d: Semiring<W>, se: W, kids: seq<Witness<W>>, that: Witness<W>,
                          thatKids: seq<Witness<W>>): seq<Witness<W>> {
    var combined := d.combine(se, WeightOf(that));
    if that.Node? then
      if combined == se then kids
      else if combined == WeightOf(that) then thatKids
      else kids + thatKids
    else
      if combined == se then kids
      else kids + [that]
  }

  /**
   * The child list of the library as written for the argument that is not
   * a WitnessCombine: when the receiver contains that, the new node gets
   * that alone; otherwise the receiver's children followed by that.
   */
  function NewKidsAsWritten<W(==)>(d: Semiring<W>, se: W, kids: seq<Witness<W>>, that: Witness<W>,
                                   thatKids: seq<Witness<W>>): (r: seq<Witness<W>>)
    ensures that.Plain? && d.combine(se, WeightOf(that)) == se ==> r == [that]
    ensures !(that.Plain? && d.combine(se, WeightOf(that)) == se) ==> r == NewKids(d, se, kids, that, thatKids)
  {
    var combined := d.combine(se, WeightOf(that));
    if that.Node? then NewKids(d, se, kids, that, thatKids)
    else if se != combined then kids + [that]
    else [that]
  }

  /**
   * The children of the combined node combine to the combined weight,
   * provided the operands' children combine to their weights.
   */
  lemma CombineKeepsInvariant<W(!new)>(d: Semiring<W>, se: W, kids: seq<Witness<W>>, that: Witness<W>,
                                       thatKids: seq<Witness<W>>)
    requires IsSemiring(d)
    requires KidsSumTo(d, kids, se)
    requires that.Node? ==> KidsSumTo(d, thatKids, WeightOf(that))
    ensures KidsSumTo(d, NewKids(d, se, kids, that, thatKids), d.combine(se, WeightOf(that)))
  {
    var combined := d.combine(se, WeightOf(that));
    if that.Node? {
      if combined != se && combined != WeightOf(that) {
        WeightsAppend(kids, thatKids);
        SumAppend(d, Weights(kids), Weights(thatKids));
      }
    } else if combined != se {
      WeightsAppend(kids, [that]);
      SumAppend(d, Weights(kids), Weights([that]));
      assert Sum(d, Weights([that])) == d.combine(d.zero, WeightOf(that));
    }
  }

  /**
   * The child list as written breaks the invariant whenever the receiver
   * strictly contains the plain witness: a node of weight a with the single
   * child a, combined with a plain witness of weight b below a, gives a node
   * of weight a whose only child has weight b.
   */
  lemma AsWrittenBreaksInvariant<W(!new)>(d: Semiring<W>, a: W, b: W)
    requires IsSemiring(d)
    requires Contains(d, a, b) && b != a
    ensures KidsSumTo(d, [Plain(a)], a)
    ensures d.combine(a, b) == a
    ensures NewKidsAsWritten(d, a, [Plain(a)], Plain(b), []) == [Plain(b)]
    ensures !KidsSumTo(d, NewKidsAsWritten(d, a, [Plain(a)], Plain(b), []), a)
  {
    assert Weights([Plain(a)]) == [a];
    assert Weights([Plain(b)]) == [b];
    assert Sum(d, [a]) == d.combine(Sum(d, []), a);
    assert Sum(d, [b]) == d.combine(Sum(d, []), b);
  }

  /** A combine node: a weight and the list of witnesses it is the combine of. */
  class WitnessCombine<W(==)> {
    const userSe: W
    var kids: seq<Witness<W>>

    /** A node of the given weight with no children yet. */
    constructor (weight: W)
      ensures userSe == weight && kids == []
    {
      userSe := weight;
      kids := [];
    }

    function Children(): seq<Witness<W>>
      reads this
    {
      kids
    }

    /** Append w to the children. */
    method AddChild(w: Witness<W>)
      modifies this`kids
      ensures kids == old(kids) + [w]
    {
      kids := kids + [w];
    }

    /**
     * Append wc's children, in order, to this node's; wc is unchanged. A node
     * cannot absorb itself: copying a list onto its own end never stops.
     */
    method Absorb(wc: WitnessCombine<W>)
      requires wc != this
      modifies this`kids
      ensures kids == old(kids) + wc.kids
    {
      kids := kids + wc.kids;
    }

    /**
     * A fresh node whose weight is this node's weight combined with that's,
     * and whose children NewKids chooses: the corrected child list, which
     * keeps the children-combine-to-weight invariant (CombineAsWritten is
     * the library's). Neither operand changes.
     */
    method Combine(d: Semiring<W>, that: Witness<W>) returns (r: WitnessCombine<W>)
      ensures fresh(r)
      ensures r.userSe == d.combine(userSe, WeightOf(that))
      ensures r.kids == NewKids(d, userSe, kids, that, if that.Node? then that.node.kids else [])
    {
      var combined := d.combine(userSe, WeightOf(that));
      r := new WitnessCombine(combined);
      if that.Node? {
        var oldwc := that.node;
        if combined == userSe {
          r.Absorb(this);
        } else if combined == oldwc.userSe {
          r.Absorb(oldwc);
        } else {
          r.Absorb(this);
          r.Absorb(oldwc);
        }
      } else {
        r.Absorb(this);
        if combined != userSe {
          r.AddChild(that);
        }
      }
    }

    /**
     * WitnessCombine::combine as the library writes it: the same as Combine
     * except that a plain witness is always added as a child, and the
     * receiver's children are copied only when the receiver does not
     * already contain it.
     */
    method CombineAsWritten(d: Semiring<W>, that: Witness<W>) returns (r: WitnessCombine<W>)
      ensures fresh(r)
      ensures r.userSe == d.combine(userSe, WeightOf(that))
      ensures r.kids == NewKidsAsWritten(d, userSe, kids, that, if that.Node? then that.node.kids else [])
    {
      var combined := d.combine(userSe, WeightOf(that));
      r := new WitnessCombine(combined);
      if that.Node? {
        var oldwc := that.node;
        if combined == userSe {
          r.Absorb(this);
        } else if combined == oldwc.userSe {
          r.Absorb(oldwc);
        } else {
          r.Absorb(this);
          r.Absorb(oldwc);
        }
      } else {
        if userSe != combined {
          r.Absorb(this);
        }
        r.AddChild(that);
      }
    }
  }
}
