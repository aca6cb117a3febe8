/**
 * The weight-domain contract every WALi weight (SemElem) satisfies:
 * `combine` (semiring addition), `extend` (semiring multiplication),
 * the distinguished `zero` and `one`, and `equal`, which the model
 * takes to be equality of values.
 */
module Semiring {

  /** A weight domain: the four operations a SemElem supplies. */
  datatype Semiring<!W> = Semiring(combine: (W, W) -> W, extend: (W, W) -> W, zero: W, one: W)

  /**
   * The algebraic laws the fixed-point engine relies on. They are not
   * checked by the library; they are preconditions on the weight domain.
   * Combine is associative, commutative and idempotent with unit zero;
   * extend is associative with unit one, distributes over combine on both
   * sides and is annihilated by zero.
   */
  ghost predicate IsSemiring<W(!new)>(d: Semiring<W>) {
    && (forall a, b :: d.combine(a, b) == d.combine(b, a))
    && (forall a, b, c :: d.combine(d.combine(a, b), c) == d.combine(a, d.combine(b, c)))
    && (forall a :: d.combine(a, a) == a)
    && (forall a :: d.combine(a, d.zero) == a)
    && (forall a, b, c :: d.extend(d.extend(a, b), c) == d.extend(a, d.extend(b, c)))
    && (forall a :: d.extend(a, d.one) == a && d.extend(d.one, a) == a)
    && (forall a :: d.extend(a, d.zero) == d.zero && d.extend(d.zero, a) == d.zero)
    && (forall a, b, c :: d.extend(a, d.combine(b, c)) == d.combine(d.extend(a, b), d.extend(a, c)))
    && (forall a, b, c :: d.extend(d.combine(a, b), c) == d.combine(d.extend(a, c), d.extend(b, c)))
  }

  /**
   * The containment test the library uses: `a` contains `b` when
   * `a.combine(b).equal(a)`, i.e. b is below a in the domain's order.
   */
  ghost predicate Contains<W>(d: Semiring<W>, a: W, b: W) {
    d.combine(a, b) == a
  }

  lemma ContainsRefl<W(!new)>(d: Semiring<W>, a: W)
    requires IsSemiring(d)
    ensures Contains(d, a, a)
  {
  }

  lemma ContainsZero<W(!new)>(d: Semiring<W>, a: W)
    requires IsSemiring(d)
    ensures Contains(d, a, d.zero)
  {
  }

  /** Containment is transitive. */
  lemma ContainsTrans<W(!new)>(d: Semiring<W>, a: W, b: W, c: W)
    requires IsSemiring(d)
    requires Contains(d, a, b) && Contains(d, b, c)
    ensures Contains(d, a, c)
  {
    calc {
      d.combine(a, c);
      d.combine(d.combine(a, b), c);
      d.combine(a, d.combine(b, c));
      d.combine(a, b);
      a;
    }
  }

  /** Containment is antisymmetric: the order is a partial order. */
  lemma ContainsAntisym<W(!new)>(d: Semiring<W>, a: W, b: W)
    requires IsSemiring(d)
    requires Contains(d, a, b) && Contains(d, b, a)
    ensures a == b
  {
    calc {
      a;
      d.combine(a, b);
      d.combine(b, a);
      b;
    }
  }

  /** If a contains both b and c, it contains their combine. */
  lemma ContainsCombine<W(!new)>(d: Semiring<W>, a: W, b: W, c: W)
    requires IsSemiring(d)
    requires Contains(d, a, b) && Contains(d, a, c)
    ensures Contains(d, a, d.combine(b, c))
  {
    calc {
      d.combine(a, d.combine(b, c));
      d.combine(d.combine(a, b), c);
      d.combine(a, c);
      a;
    }
  }

  /** Combining something in only makes a weight grow: a ⊕ b contains a and b. */
  lemma CombineGrows<W(!new)>(d: Semiring<W>, a: W, b: W)
    requires IsSemiring(d)
    ensures Contains(d, d.combine(a, b), a) && Contains(d, d.combine(a, b), b)
  {
    calc {
      d.combine(d.combine(a, b), a);
      d.combine(a, d.combine(a, b));
      d.combine(d.combine(a, a), b);
      d.combine(a, b);
    }
    calc {
      d.combine(d.combine(a, b), b);
      d.combine(a, d.combine(b, b));
      d.combine(a, b);
    }
  }

  /**
   * Weight growth keeps a containment: if a contains e, then a ⊕ x
   * still contains e.
   */
  lemma ContainsAfterGrowth<W(!new)>(d: Semiring<W>, a: W, x: W, e: W)
    requires IsSemiring(d)
    requires Contains(d, a, e)
    ensures Contains(d, d.combine(a, x), e)
  {
    CombineGrows(d, a, x);
    ContainsTrans(d, d.combine(a, x), a, e);
  }

  /** Extend is monotone in both arguments. */
  lemma ExtendMonotone<W(!new)>(d: Semiring<W>, a: W, b: W, w: W)
    requires IsSemiring(d)
    requires Contains(d, a, b)
    ensures Contains(d, d.extend(w, a), d.extend(w, b))
    ensures Contains(d, d.extend(a, w), d.extend(b, w))
  {
    calc {
      d.combine(d.extend(w, a), d.extend(w, b));
      d.extend(w, d.combine(a, b));
      d.extend(w, a);
    }
    calc {
      d.combine(d.extend(a, w), d.extend(b, w));
      d.extend(d.combine(a, b), w);
      d.extend(a, w);
    }
  }
}
