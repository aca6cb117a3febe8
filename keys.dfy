/**
 * Keys: the interned identifiers WALi uses for states, stack symbols and
 * alphabet symbols. Interning (the key factory) is outside the model, so
 * a key is simply an integer.
 */
module Keys {

  type Key = int

  /**
   * The reserved key meaning "no symbol consumed". Only its identity matters
   * to the model; the numeric value is fixed by the key factory.
   */
  const EPSILON: Key := 0

  /** A non-empty set of keys has a member, so a worklist of keys can always be popped. */
  lemma HasMember(s: set<Key>)
    requires s != {}
    ensures exists x :: x in s
  {
    if forall x :: x !in s {
      assert false;
    }
  }

  /**
   * A non-empty set has a member. Sets of keys use HasMember, whose
   * element type the verifier does not box.
   */
  lemma Pick<T>(s: set<T>)
    requires s != {}
    ensures exists x :: x in s
  {
    if forall x :: x !in s {
      assert false;
    }
  }
}
