/**
 * Reachability over the transition graph of a WFA, as used by prune: the
 * states reachable from a start set along a set of edges, computed by a
 * worklist and characterised as the least edge-closed superset of the
 * start set.
 */
module Graph {
  import opened Keys

  type Edge = (Key, Key)

  /** Every edge leaving R ends in R. */
  ghost predicate ClosedUnder(E: set<Edge>, R: set<Key>) {
    forall e :: e in E && e.0 in R ==> e.1 in R
  }

  /** R lies inside every E-closed superset of start. */
  ghost predicate InEveryClosed(E: set<Edge>, start: set<Key>, R: set<Key>) {
    forall T: set<Key> :: start <= T && ClosedUnder(E, T) ==> R <= T
  }

  /** R is the set of keys reachable from start along E: the least E-closed superset of start. */
  ghost predicate IsReach(E: set<Edge>, start: set<Key>, R: set<Key>) {
    start <= R && ClosedUnder(E, R) && InEveryClosed(E, start, R)
  }

  /** The edges reversed, for searching backwards. */
  function Flip(E: set<Edge>): (r: set<Edge>)
    ensures forall a, b :: (a, b) in r <==> (b, a) in E
  {
    set e | e in E :: (e.1, e.0)
  }

  /** The keys some edge ends in. */
  function Targets(E: set<Edge>): (r: set<Key>)
    ensures forall e :: e in E ==> e.1 in r
    ensures forall k :: k in r ==> exists e :: e in E && e.1 == k
  {
    set e | e in E :: e.1
  }

  /** The keys one edge away from a. */
  function Succ(E: set<Edge>, a: Key): (r: set<Key>)
    ensures forall b :: b in r <==> (a, b) in E
  {
    set e | e in E && e.0 == a :: e.1
  }

  /** Reachability is determined by the edges and the start set. */
  lemma ReachUnique(E: set<Edge>, start: set<Key>, R1: set<Key>, R2: set<Key>)
    requires IsReach(E, start, R1) && IsReach(E, start, R2)
    ensures R1 == R2
  {
    assert R1 <= R2;
    assert R2 <= R1;
  }

  /** Adding the successors of a member keeps R inside every closed superset of start. */
  lemma ReachGrow(E: set<Edge>, start: set<Key>, R: set<Key>, a: Key, found: set<Key>)
    requires InEveryClosed(E, start, R) && a in R && found <= Succ(E, a)
    ensures InEveryClosed(E, start, R + found)
  {
    forall T: set<Key> | start <= T && ClosedUnder(E, T)
      ensures R + found <= T
    {
      assert R <= T;
      forall b | b in found
        ensures b in T
      {
        assert (a, b) in E;
      }
    }
  }

  /** Worklist search from start along E. */
  method Reach(E: set<Edge>, start: set<Key>) returns (R: set<Key>)
    ensures IsReach(E, start, R)
  {
    ghost var U := start + Targets(E);
    R := start;
    var work := start;
    while work != {}
      invariant work <= R <= U
      invariant start <= R
      invariant forall e :: e in E && e.0 in R && e.0 !in work ==> e.1 in R
      invariant InEveryClosed(E, start, R)
      decreases U - R, work
    {
      HasMember(work);
      var a :| a in work;
      var found := Succ(E, a) - R;
      assert found <= U - R;
      ReachGrow(E, start, R, a, found);
      R := R + found;
      work := work - {a} + found;
    }
  }
}
