/**
 * The binary-relation weight domain. A weight is a finite relation over the
 * variables [0, NUMVARS), held as a set of pairs where the library holds a
 * BDD: combine is union, extend is relational composition, zero is the empty
 * relation and one is the identity. The library-wide settings (NUMVARS, set
 * once by initialize, and the identity relation, computed once on first use)
 * live in a Context object.
 */
module BinRel {
  import opened Wrappers
  import opened Semiring

  type Pair = (int, int)
  type Rel = set<Pair>

  /** Every pair of r relates variables of [0, n). */
  ghost predicate InRange(r: Rel, n: int) {
    forall p :: p in r ==> 0 <= p.0 < n && 0 <= p.1 < n
  }

  /** The empty relation. */
  function Empty(): (r: Rel)
    ensures forall p :: p !in r
  {
    {}
  }

  /** The identity relation on [0, n). */
  function IdRel(n: int): (r: Rel)
    ensures forall p :: p in r <==> 0 <= p.0 < n && p.1 == p.0
    ensures InRange(r, n)
  {
    set i | 0 <= i < n :: (i, i)
  }

  /** Relational composition: x reaches z through some y. */
  function Compose(a: Rel, b: Rel): (r: Rel)
    ensures forall x, z :: (x, z) in r <==> exists y :: (x, y) in a && (y, z) in b
  {
    var r := set p, q | p in a && q in b && p.1 == q.0 :: (p.0, q.1);
    assert forall x, y, z :: (x, y) in a && (y, z) in b ==> (x, z) in r by {
      forall x, y, z | (x, y) in a && (y, z) in b
        ensures (x, z) in r
      {
        var p, q := (x, y), (y, z);
        assert p in a && q in b && p.1 == q.0;
      }
    }
    r
  }

  function Union(a: Rel, b: Rel): (r: Rel)
    ensures forall p :: p in r <==> p in a || p in b
  {
    a + b
  }

  function Intersect(a: Rel, b: Rel): (r: Rel)
    ensures forall p :: p in r <==> p in a && p in b
  {
    a * b
  }

  /** The weight domain on [0, n): union, composition, empty and identity. */
  function Domain(n: int): (d: Semiring<Rel>)
    ensures forall a, b :: d.combine(a, b) == Union(a, b) && d.extend(a, b) == Compose(a, b)
    ensures d.zero == Empty() && d.one == IdRel(n)
  {
    Semiring(Union, Compose, Empty(), IdRel(n))
  }

  /** equal compares the relations themselves. */
  predicate Equal(a: Rel, b: Rel): (r: bool)
    ensures r <==> forall p :: p in a <==> p in b
  {
    a == b
  }

  lemma ComposeAssoc(a: Rel, b: Rel, c: Rel)
    ensures Compose(Compose(a, b), c) == Compose(a, Compose(b, c))
  {
    ComposeAssocLeft(a, b, c);
    ComposeAssocRight(a, b, c);
  }

  /** A pair in a ; b goes through some middle point. */
  lemma ComposeMid(a: Rel, b: Rel, x: int, z: int) returns (y: int)
    requires (x, z) in Compose(a, b)
    ensures (x, y) in a && (y, z) in b
  {
    y :| (x, y) in a && (y, z) in b;
  }

  /** A path through (a ; b) then c is a path through a then (b ; c). */
  lemma ComposeAssocLeft(a: Rel, b: Rel, c: Rel)
    ensures Compose(Compose(a, b), c) <= Compose(a, Compose(b, c))
  {
    var ab, bc := Compose(a, b), Compose(b, c);
    forall p | p in Compose(ab, c)
      ensures p in Compose(a, bc)
    {
      var y := ComposeMid(ab, c, p.0, p.1);
      var x := ComposeMid(a, b, p.0, y);
      assert (x, p.1) in bc;
    }
  }

  /** A path through a then (b ; c) is a path through (a ; b) then c. */
  lemma ComposeAssocRight(a: Rel, b: Rel, c: Rel)
    ensures Compose(a, Compose(b, c)) <= Compose(Compose(a, b), c)
  {
    var ab, bc := Compose(a, b), Compose(b, c);
    forall p | p in Compose(a, bc)
      ensures p in Compose(ab, c)
    {
      var x := ComposeMid(a, bc, p.0, p.1);
      var y := ComposeMid(b, c, x, p.1);
      assert (p.0, y) in ab;
    }
  }

  lemma ComposeUnionLeft(a: Rel, b: Rel, c: Rel)
    ensures Compose(a, Union(b, c)) == Union(Compose(a, b), Compose(a, c))
  {
    var l, r := Compose(a, Union(b, c)), Union(Compose(a, b), Compose(a, c));
    forall p | p in l
      ensures p in r
    {
      var y :| (p.0, y) in a && (y, p.1) in Union(b, c);
      if (y, p.1) in b {
        assert (p.0, p.1) in Compose(a, b);
      } else {
        assert (p.0, p.1) in Compose(a, c);
      }
    }
  }

  lemma ComposeUnionRight(a: Rel, b: Rel, c: Rel)
    ensures Compose(Union(a, b), c) == Union(Compose(a, c), Compose(b, c))
  {
    var l, r := Compose(Union(a, b), c), Union(Compose(a, c), Compose(b, c));
    forall p | p in l
      ensures p in r
    {
      var y :| (p.0, y) in Union(a, b) && (y, p.1) in c;
      if (p.0, y) in a {
        assert (p.0, p.1) in Compose(a, c);
      } else {
        assert (p.0, p.1) in Compose(b, c);
      }
    }
  }

  /** The identity is a two-sided unit for composition on relations over [0, n). */
  lemma IdUnit(n: int, a: Rel)
    requires InRange(a, n)
    ensures Compose(IdRel(n), a) == a && Compose(a, IdRel(n)) == a
  {
    forall p | p in a
      ensures p in Compose(IdRel(n), a) && p in Compose(a, IdRel(n))
    {
      assert (p.0, p.0) in IdRel(n);
      assert (p.1, p.1) in IdRel(n);
    }
  }

  lemma EmptyAnnihilates(a: Rel)
    ensures Compose(a, Empty()) == Empty() && Compose(Empty(), a) == Empty()
  {
  }

  /** Composition and union keep relations inside [0, n). */
  lemma ComposeInRange(n: int, a: Rel, b: Rel)
    requires InRange(a, n) && InRange(b, n)
    ensures InRange(Compose(a, b), n) && InRange(Union(a, b), n) && InRange(Intersect(a, b), n)
  {
    forall p | p in Compose(a, b)
      ensures 0 <= p.0 < n && 0 <= p.1 < n
    {
      var y :| (p.0, y) in a && (y, p.1) in b;
    }
  }

  /** Union is commutative, associative and idempotent, with unit the empty relation. */
  lemma DomainCombineLaws(n: int, a: Rel, b: Rel, c: Rel)
    ensures var d := Domain(n);
      && d.combine(a, b) == d.combine(b, a)
      && d.combine(d.combine(a, b), c) == d.combine(a, d.combine(b, c))
      && d.combine(a, a) == a
      && d.combine(a, d.zero) == a
  {
  }

  /**
   * On relations over [0, n), composition is associative with unit the
   * identity and is annihilated by the empty relation.
   */
  lemma DomainExtendLaws(n: int, a: Rel, b: Rel, c: Rel)
    requires InRange(a, n)
    ensures var d := Domain(n);
      && d.extend(d.extend(a, b), c) == d.extend(a, d.extend(b, c))
      && d.extend(a, d.one) == a && d.extend(d.one, a) == a
      && d.extend(a, d.zero) == d.zero && d.extend(d.zero, a) == d.zero
  {
    ComposeAssoc(a, b, c);
    IdUnit(n, a);
    EmptyAnnihilates(a);
  }

  /** Composition distributes over union on both sides. */
  lemma DomainDistributes(n: int, a: Rel, b: Rel, c: Rel)
    ensures var d := Domain(n);
      && d.extend(a, d.combine(b, c)) == d.combine(d.extend(a, b), d.extend(a, c))
      && d.extend(d.combine(a, b), c) == d.combine(d.extend(a, c), d.extend(b, c))
  {
    ComposeUnionLeft(a, b, c);
    ComposeUnionRight(a, b, c);
  }

  /**
   * The library-wide state: NUMVARS (-1 until initialize succeeds) and the
   * identity relation, which is computed from NUMVARS on first use and then
   * kept. idVars is the NUMVARS that the identity was computed from.
   */
  class Context {
    var numVars: int
    var idCache: Option<Rel>
    ghost var idVars: int

    ghost predicate Valid()
      reads this
    {
      && numVars >= -1
      && (idCache.Some? ==> idCache.value == IdRel(idVars) && (idVars == -1 || idVars == numVars))
    }

    /** The state before any call: uninitialised, no identity cached. */
    constructor ()
      ensures Valid() && numVars == -1 && idCache == None
    {
      numVars := -1;
      idCache := None;
      idVars := -1;
    }

    /**
     * Set NUMVARS to n, once. A negative n, or any call after the first
     * successful one, returns false and changes nothing.
     */
    method Initialize(n: int) returns (ok: bool)
      requires Valid()
      modifies this`numVars
      ensures Valid()
      ensures ok <==> n >= 0 && old(numVars) == -1
      ensures numVars == if ok then n else old(numVars)
      ensures IsInitialized() <==> old(IsInitialized()) || ok
    {
      if n < 0 {
        return false;
      }
      if numVars == -1 {
        numVars := n;
        return true;
      }
      return false;
    }

    predicate IsInitialized(): (r: bool)
      reads this
      ensures r <==> numVars != -1
    {
      numVars != -1
    }

    /**
     * check_var succeeds: the domain is initialised and v is in range; the
     * range test alone decides it, since an uninitialised domain has no
     * variable in range.
     */
    predicate CheckVar(v: int): (r: bool)
      reads this
      ensures r <==> 0 <= v < numVars
    {
      IsInitialized() && 0 <= v < numVars
    }

    /** The single pair (from, to), or None when either variable is out of range. */
    function Make(from: int, to: int): (r: Option<Rel>)
      reads this
      ensures r.Some? <==> CheckVar(from) && CheckVar(to)
      ensures r.Some? ==> (forall p :: p in r.value <==> p == (from, to)) && InRange(r.value, numVars)
    {
      if !CheckVar(from) || !CheckVar(to) then None else Some({(from, to)})
    }

    /**
     * The union of the pairs of input, starting from the empty relation, or
     * None when some pair is out of range.
     */
    method MakeList(input: seq<Pair>) returns (r: Option<Rel>)
      ensures r.Some? <==> forall i :: 0 <= i < |input| ==> CheckVar(input[i].0) && CheckVar(input[i].1)
      ensures r.Some? ==> (forall p :: p in r.value <==> p in input) && InRange(r.value, numVars)
    {
      var result := Empty();
      var i := 0;
      while i < |input|
        invariant 0 <= i <= |input|
        invariant forall j :: 0 <= j < i ==> CheckVar(input[j].0) && CheckVar(input[j].1)
        invariant forall p :: p in result <==> p in input[..i]
        invariant InRange(result, numVars)
      {
        var m := Make(input[i].0, input[i].1);
        if m.None? {
          return None;
        }
        result := Union(result, m.value);
        assert input[..i + 1] == input[..i] + [input[i]];
        i := i + 1;
      }
      assert input[..i] == input;
      return Some(result);
    }

    /** The identity relation on the current [0, NUMVARS), built pair by pair. */
    method PrivId() returns (id: Rel)
      ensures id == IdRel(numVars)
    {
      id := Empty();
      var i := 0;
      while i < numVars
        invariant numVars >= 0 ==> 0 <= i <= numVars
        invariant numVars < 0 ==> i == 0
        invariant forall p :: p in id <==> 0 <= p.0 < i && p.1 == p.0
      {
        id := Union(id, {(i, i)});
        i := i + 1;
      }
    }

    /**
     * The identity relation, computed by PrivId on the first call and
     * returned unchanged ever after, even if NUMVARS is set later.
     */
    method Id() returns (r: Rel)
      requires Valid()
      modifies this`idCache, this`idVars
      ensures Valid()
      ensures idCache == Some(r) && r == IdRel(idVars)
      ensures old(idCache).Some? ==> r == old(idCache).value && idVars == old(idVars)
      ensures old(idCache).None? ==> r == IdRel(numVars)
    {
      if idCache.Some? {
        return idCache.value;
      }
      r := PrivId();
      idCache := Some(r);
      idVars := numVars;
    }

    /**
     * All pairs (i, v) for i in the identity's range, or None when v is out
     * of range.
     */
    method AddVar(v: int) returns (r: Option<Rel>)
      requires Valid()
      modifies this`idCache, this`idVars
      ensures Valid()
      ensures r.Some? <==> CheckVar(v)
      ensures r.None? ==> idCache == old(idCache) && idVars == old(idVars)
      ensures r.Some? ==> forall p :: p in r.value <==> p.1 == v && 0 <= p.0 < idVars
    {
      if !CheckVar(v) {
        return None;
      }
      var id := Id();
      r := Some(set p | p in id :: (p.0, v));
      forall q: Pair | q.1 == v && 0 <= q.0 < idVars
        ensures q in r.value
      {
        assert (q.0, q.0) in id;
      }
    }

    /**
     * All pairs (i, j) for i in the identity's range and j in [0, NUMVARS)
     * other than v, or None when v is out of range.
     */
    method SubVar(v: int) returns (r: Option<Rel>)
      requires Valid()
      modifies this`idCache, this`idVars
      ensures Valid()
      ensures r.Some? <==> CheckVar(v)
      ensures r.None? ==> idCache == old(idCache) && idVars == old(idVars)
      ensures r.Some? ==> forall p :: p in r.value <==> p.1 != v && 0 <= p.1 < numVars && 0 <= p.0 < idVars
    {
      if !CheckVar(v) {
        return None;
      }
      var id := Id();
      r := Some(set p, j | p in id && 0 <= j < numVars && j != v :: (p.0, j));
      forall q: Pair | q.1 != v && 0 <= q.1 < numVars && 0 <= q.0 < idVars
        ensures q in r.value
      {
        assert (q.0, q.0) in id;
      }
    }
  }

  /** Initialising once and building the identity afterwards gives the identity on [0, n). */
  method InitThenId(ctx: Context, n: int) returns (ok: bool, id: Rel)
    requires ctx.Valid() && ctx.numVars == -1 && ctx.idCache == None && n >= 0
    modifies ctx
    ensures ok && id == IdRel(n)
  {
    ok := ctx.Initialize(n);
    id := ctx.Id();
  }
}
