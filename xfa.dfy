/**
 * Conversion of a parsed XFA (an automaton whose transitions carry counter
 * actions) into a WFA over binary relations. Each action becomes a weight
 * built by a RelationMaker, kept abstract here. A `read` action has no single
 * weight: it becomes a four-edge gadget that shifts input bits into the
 * variable. Where the library throws, aborts or fails an assertion, the
 * model returns a Failure.
 */
module Xfa {
  import opened Wrappers
  import opened Keys
  import opened Semiring
  import opened WfaSpec
  import opened Decimal
  import BinRel
  import Wfa

  /** An action of the parsed automaton, e.g. ctr2 with command incr on variable 3. */
  datatype Action = Action(actionType: string, operandId: int, command: Option<Command>)

  /** A counter command: its name, its textual arguments and its branches. */
  datatype Command = Command(name: string, arguments: seq<string>, consequent: Option<Action>,
                             alternative: Option<Action>)

  /** A parsed transition: endpoints by name, its actions and its symbol names. */
  datatype AstTransition = AstTransition(source: string, dest: string, actions: seq<Action>,
                                         symbols: seq<string>)

  datatype XfaAst = XfaAst(states: seq<string>, transitions: seq<AstTransition>, startState: string)

  /** The key factory's getState and getSymbol, which intern names as keys. */
  datatype Interner = Interner(state: string -> Key, symbol: string -> Key)

  /**
   * How a conversion can fail: abort() (fire and alert actions), a failed
   * assertion or an input the code dereferences without checking, and
   * bad_lexical_cast from a non-numeric argument.
   */
  datatype Failure = Aborted | Invalid | BadCast

  /** The weight constructors a conversion uses, e.g. BDD relations over program variables. */
  datatype RelationMaker<R> = RelationMaker(
    initialize: (string, int) -> R,
    times2: string -> R,
    increment: string -> R,
    assumeEquality: (string, string) -> R,
    zero: R,
    one: R)

  /** The name of variable id: the prefix, "var", then id in decimal. */
  function VarName(id: int, prefix: string): (s: string)
    ensures |s| > |prefix| + 3
    ensures s[..|prefix|] == prefix && s[|prefix|..|prefix| + 3] == "var"
    ensures ParseSigned(s[|prefix| + 3..]) == Some(id)
  {
    var s := prefix + "var" + IntToString(id);
    ParseIntToString(id);
    assert s[|prefix| + 3..] == IntToString(id);
    s
  }

  /** Different ids give different names under the same prefix. */
  lemma VarNameInjective(i: int, j: int, prefix: string)
    requires VarName(i, prefix) == VarName(j, prefix)
    ensures i == j
  {
  }

  // ---------------------------------------------------------------------
  // Variables

  /** One map per set, each sending every member of its set to fddSize. */
  function VarOrder(sets: seq<set<string>>, fddSize: int): (r: seq<map<string, int>>)
    ensures |r| == |sets|
    ensures forall i :: 0 <= i < |sets| ==> forall s :: s in r[i] <==> s in sets[i]
    ensures forall i, s :: 0 <= i < |sets| && s in r[i] ==> r[i][s] == fddSize
  {
    seq(|sets|, i requires 0 <= i < |sets| => map s | s in sets[i] :: fddSize)
  }

  /** disjoint_sets_to_var_order, over the sets in the order they are visited. */
  method DisjointSetsToVarOrder(sets: seq<set<string>>, fddSize: int) returns (answer: seq<map<string, int>>)
    ensures answer == VarOrder(sets, fddSize)
  {
    answer := [];
    var i := 0;
    while i < |sets|
      invariant 0 <= i <= |sets|
      invariant answer == VarOrder(sets[..i], fddSize)
    {
      var m: map<string, int> := map[];
      var todo := sets[i];
      while todo != {}
        invariant todo <= sets[i]
        invariant forall s :: s in m <==> s in sets[i] && s !in todo
        invariant forall s :: s in m ==> m[s] == fddSize
        decreases todo
      {
        Pick(todo);
        var s :| s in todo;
        m := m[s := fddSize];
        todo := todo - {s};
      }
      assert m == map s | s in sets[i] :: fddSize;
      answer := answer + [m];
      i := i + 1;
    }
    assert sets[..i] == sets;
  }

  /** The union of the classes of P that hold a, or {a} when none does. */
  function ClassOf(P: set<set<string>>, a: string): (c: set<string>)
    ensures a in c
    ensures forall d :: d in P && a in d ==> d <= c
  {
    (set d, x | d in P && a in d && x in d :: x) + {a}
  }

  /** merge_sets: the classes of a and b become one; missing elements join as singletons. */
  function Merge(P: set<set<string>>, a: string, b: string): (r: set<set<string>>)
    ensures ClassOf(P, a) + ClassOf(P, b) in r
  {
    (set d | d in P && a !in d && b !in d) + {ClassOf(P, a) + ClassOf(P, b)}
  }

  /** Non-empty, pairwise disjoint classes. */
  ghost predicate IsPartition(P: set<set<string>>) {
    && (forall c :: c in P ==> c != {})
    && (forall c, d :: c in P && d in P && c != d ==> c !! d)
  }

  /** The elements of the classes. */
  ghost function Elems(P: set<set<string>>): set<string> {
    set c, x | c in P && x in c :: x
  }

  /** The class of a is disjoint from every class of P that does not hold a. */
  lemma ClassOfApart(P: set<set<string>>, a: string, d: set<string>)
    requires IsPartition(P) && d in P && a !in d
    ensures ClassOf(P, a) !! d
  {
    forall e | e in P && a in e
      ensures e !! d
    {
      assert e != d;
    }
  }

  /**
   * Merging keeps a partition, puts a and b in one class, and adds exactly
   * a and b to the elements.
   */
  lemma MergeKeepsPartition(P: set<set<string>>, a: string, b: string)
    requires IsPartition(P)
    ensures IsPartition(Merge(P, a, b))
    ensures exists c :: c in Merge(P, a, b) && a in c && b in c
    ensures Elems(Merge(P, a, b)) == Elems(P) + {a, b}
  {
    var m := ClassOf(P, a) + ClassOf(P, b);
    var r := Merge(P, a, b);
    forall c, d | c in r && d in r && c != d
      ensures c !! d
    {
      if c == m {
        ClassOfApart(P, a, d);
        ClassOfApart(P, b, d);
      } else if d == m {
        ClassOfApart(P, a, c);
        ClassOfApart(P, b, c);
      }
    }
    assert a in m && b in m;
    forall x | x in Elems(r)
      ensures x in Elems(P) + {a, b}
    {
      var c :| c in r && x in c;
    }
    forall x | x in Elems(P) + {a, b}
      ensures x in Elems(r)
    {
      if x in m {
        assert m in r;
      } else {
        var c :| c in P && x in c;
        assert c in r;
      }
    }
  }

  /** get_vars passes over fire, alert and reject actions. */
  predicate Skipped(act: Action) {
    act.actionType == "fire" || act.actionType == "alert" || act.actionType == "reject"
  }

  /** The variable pair a testnectr2 command merges. */
  function MergeOf(act: Action, prefix: string): (r: Result<Option<(string, string)>, Failure>)
    ensures Skipped(act) ==> r == Ok(None)
    ensures !Skipped(act) && (act.actionType != "ctr2" || act.command.None?) ==> r == Err(Invalid)
    ensures (!Skipped(act) && act.actionType == "ctr2" && act.command.Some?
             && act.command.value.name != "testnectr2") ==> r == Ok(None)
    ensures r.Ok? && r.value.Some? ==> act.command.Some? && act.command.value.name == "testnectr2"
    ensures act.actionType == "ctr2" && IsCommand(act, "testnectr2") ==>
              var cmd := act.command.value;
              && (!TestWellFormed(cmd) ==> r == Err(Invalid))
              && (TestWellFormed(cmd) && LexicalCastInt(cmd.arguments[0]).None? ==> r == Err(BadCast))
              && (TestWellFormed(cmd) && LexicalCastInt(cmd.arguments[0]).Some? ==>
                    r == Ok(Some((VarName(act.operandId, prefix),
                                  VarName(LexicalCastInt(cmd.arguments[0]).value, prefix)))))
  {
    if Skipped(act) then Ok(None)
    else if act.actionType != "ctr2" || act.command.None? then Err(Invalid)
    else
      var cmd := act.command.value;
      if cmd.name != "testnectr2" then Ok(None)
      else if !TestWellFormed(cmd) then Err(Invalid)
      else match LexicalCastInt(cmd.arguments[0])
        case None => Err(BadCast)
        case Some(rhs) => Ok(Some((VarName(act.operandId, prefix), VarName(rhs, prefix))))
  }

  /** A testnectr2 command has one argument, and only a consequent, which rejects. */
  predicate TestWellFormed(cmd: Command) {
    && |cmd.arguments| == 1
    && cmd.consequent.Some?
    && cmd.alternative.None?
    && cmd.consequent.value.actionType == "reject"
  }

  /** All actions of the transitions, in order. */
  function AllActions(ts: seq<AstTransition>): seq<Action>
    decreases |ts|
  {
    if |ts| == 0 then [] else ts[0].actions + AllActions(ts[1..])
  }

  /** The classes after processing acts from P, or the first failure. */
  function MergeAll(P: set<set<string>>, acts: seq<Action>, prefix: string): Result<set<set<string>>, Failure>
    decreases |acts|
  {
    if |acts| == 0 then Ok(P)
    else
      var m := MergeOf(acts[0], prefix);
      if m.Err? then Err(m.error)
      else if m.value.None? then MergeAll(P, acts[1..], prefix)
      else MergeAll(Merge(P, m.value.value.0, m.value.value.1), acts[1..], prefix)
  }

  /** Merging keeps a partition all the way through. */
  lemma {:induction false} MergeAllKeepsPartition(P: set<set<string>>, acts: seq<Action>, prefix: string)
    requires IsPartition(P)
    ensures MergeAll(P, acts, prefix).Ok? ==> IsPartition(MergeAll(P, acts, prefix).value)
    decreases |acts|
  {
    if |acts| > 0 {
      var m := MergeOf(acts[0], prefix);
      if m.Ok? && m.value.None? {
        MergeAllKeepsPartition(P, acts[1..], prefix);
      } else if m.Ok? {
        MergeKeepsPartition(P, m.value.value.0, m.value.value.1);
        MergeAllKeepsPartition(Merge(P, m.value.value.0, m.value.value.1), acts[1..], prefix);
      }
    }
  }

  /** Some class of P holds both x and y. */
  ghost predicate Together(P: set<set<string>>, x: string, y: string) {
    exists c :: c in P && x in c && y in c
  }

  /** merge_sets puts a and b together and keeps every pair already together. */
  lemma MergeJoins(P: set<set<string>>, a: string, b: string, x: string, y: string)
    ensures Together(Merge(P, a, b), a, b)
    ensures Together(P, x, y) ==> Together(Merge(P, a, b), x, y)
  {
    var m := ClassOf(P, a) + ClassOf(P, b);
    assert m in Merge(P, a, b) && a in m && b in m;
    if Together(P, x, y) {
      var c :| c in P && x in c && y in c;
      if a in c || b in c {
        assert c <= m;
      } else {
        assert c in Merge(P, a, b);
      }
    }
  }

  /** Later merges never separate names that are already together. */
  lemma {:induction false} MergeAllKeepsTogether(P: set<set<string>>, acts: seq<Action>, prefix: string,
                                                 x: string, y: string)
    requires Together(P, x, y)
    ensures MergeAll(P, acts, prefix).Ok? ==> Together(MergeAll(P, acts, prefix).value, x, y)
    decreases |acts|
  {
    if |acts| > 0 {
      var m := MergeOf(acts[0], prefix);
      if m.Ok? && m.value.None? {
        MergeAllKeepsTogether(P, acts[1..], prefix, x, y);
      } else if m.Ok? {
        MergeJoins(P, m.value.value.0, m.value.value.1, x, y);
        MergeAllKeepsTogether(Merge(P, m.value.value.0, m.value.value.1), acts[1..], prefix, x, y);
      }
    }
  }

  /**
   * Every testnectr2 merge takes effect: when all of acts are processed, the
   * two variable names of each merge lie in one class of the result.
   */
  lemma {:induction false} MergeAllJoins(P: set<set<string>>, acts: seq<Action>, prefix: string,
                                         i: nat, a: string, b: string)
    requires i < |acts| && MergeOf(acts[i], prefix) == Ok(Some((a, b)))
    ensures MergeAll(P, acts, prefix).Ok? ==> Together(MergeAll(P, acts, prefix).value, a, b)
    decreases |acts|
  {
    var m := MergeOf(acts[0], prefix);
    if i == 0 {
      MergeJoins(P, a, b, a, b);
      MergeAllKeepsTogether(Merge(P, a, b), acts[1..], prefix, a, b);
    } else if m.Ok? {
      assert acts[1..][i - 1] == acts[i];
      var P' := if m.value.None? then P else Merge(P, m.value.value.0, m.value.value.1);
      MergeAllJoins(P', acts[1..], prefix, i - 1, a, b);
    }
  }

  /** A listing of the classes maps both names of a class in one of its maps. */
  lemma VarOrderJoins(order: seq<set<string>>, P: set<set<string>>, fddSize: int, a: string, b: string)
    requires Enumerates(order, P) && Together(P, a, b)
    ensures exists j :: 0 <= j < |order| && a in VarOrder(order, fddSize)[j] && b in VarOrder(order, fddSize)[j]
  {
    var c :| c in P && a in c && b in c;
    assert c in order;
    var j :| 0 <= j < |order| && order[j] == c;
    assert a in VarOrder(order, fddSize)[j];
  }

  /**
   * The variable order of get_vars, with any last map appended, maps the two
   * names of every testnectr2 merge of acts in one of its maps.
   */
  lemma GetVarsJoins(acts: seq<Action>, prefix: string, order: seq<set<string>>, fddSize: int,
                     last: map<string, int>)
    requires MergeAll({}, acts, prefix).Ok? && Enumerates(order, MergeAll({}, acts, prefix).value)
    ensures forall k, a, b :: 0 <= k < |acts| && MergeOf(acts[k], prefix) == Ok(Some((a, b))) ==>
              exists j :: 0 <= j < |order| && a in (VarOrder(order, fddSize) + [last])[j]
                                         && b in (VarOrder(order, fddSize) + [last])[j]
  {
    forall k, a, b | 0 <= k < |acts| && MergeOf(acts[k], prefix) == Ok(Some((a, b)))
      ensures exists j :: 0 <= j < |order| && a in (VarOrder(order, fddSize) + [last])[j]
                                         && b in (VarOrder(order, fddSize) + [last])[j]
    {
      MergeAllJoins({}, acts, prefix, k, a, b);
      VarOrderJoins(order, MergeAll({}, acts, prefix).value, fddSize, a, b);
      var j :| 0 <= j < |order| && a in VarOrder(order, fddSize)[j] && b in VarOrder(order, fddSize)[j];
      assert (VarOrder(order, fddSize) + [last])[j] == VarOrder(order, fddSize)[j];
    }
  }

  /** order lists every class of P exactly once. */
  ghost predicate Enumerates(order: seq<set<string>>, P: set<set<string>>) {
    && |order| == |P|
    && (forall c :: c in P <==> c in order)
    && (forall i, j :: 0 <= i < j < |order| ==> order[i] != order[j])
  }

  /** The last map of get_vars: the current-state variable, sized twice the number of states. */
  function CurrentStateVar(ast: XfaAst, prefix: string): map<string, int> {
    map[prefix + "current_state" := 2 * |ast.states|]
  }

  /**
   * get_vars: the variable classes that testnectr2 merges, one map per class
   * in the order the classes are visited, then the current-state variable.
   */
  method GetVars(ast: XfaAst, fddSize: int, prefix: string)
    returns (r: Result<seq<map<string, int>>, Failure>, ghost order: seq<set<string>>)
    ensures MergeAll({}, AllActions(ast.transitions), prefix).Err? ==>
              r == Err(MergeAll({}, AllActions(ast.transitions), prefix).error)
    ensures MergeAll({}, AllActions(ast.transitions), prefix).Ok? ==>
              && r.Ok?
              && Enumerates(order, MergeAll({}, AllActions(ast.transitions), prefix).value)
              && r.value == VarOrder(order, fddSize) + [CurrentStateVar(ast, prefix)]
    ensures r.Ok? ==>
              forall k, a, b :: 0 <= k < |AllActions(ast.transitions)|
                                && MergeOf(AllActions(ast.transitions)[k], prefix) == Ok(Some((a, b))) ==>
                exists j :: 0 <= j < |order| && a in r.value[j] && b in r.value[j]
  {
    ghost var spec := MergeAll({}, AllActions(ast.transitions), prefix);
    var sets: set<set<string>> := {};
    var i := 0;
    while i < |ast.transitions|
      invariant 0 <= i <= |ast.transitions|
      invariant spec == MergeAll(sets, AllActions(ast.transitions[i..]), prefix)
    {
      var acts := ast.transitions[i].actions;
      assert ast.transitions[i..][1..] == ast.transitions[i + 1..];
      assert AllActions(ast.transitions[i..]) == acts[0..] + AllActions(ast.transitions[i + 1..]);
      var j := 0;
      while j < |acts|
        invariant 0 <= j <= |acts|
        invariant spec == MergeAll(sets, acts[j..] + AllActions(ast.transitions[i + 1..]), prefix)
      {
        ghost var rest := acts[j..] + AllActions(ast.transitions[i + 1..]);
        assert rest[0] == acts[j] && rest[1..] == acts[j + 1..] + AllActions(ast.transitions[i + 1..]);
        var m := MergeOf(acts[j], prefix);
        if m.Err? {
          return Err(m.error), [];
        }
        if m.value.Some? {
          sets := Merge(sets, m.value.value.0, m.value.value.1);
        }
        j := j + 1;
      }
      assert acts[j..] + AllActions(ast.transitions[i + 1..]) == AllActions(ast.transitions[i + 1..]);
      i := i + 1;
    }
    // The order the disjoint sets are visited in is their own; any order is admitted.
    var seen: seq<set<string>> := [];
    var todo := sets;
    while todo != {}
      invariant todo <= sets
      invariant forall c :: c in sets <==> c in todo || c in seen
      invariant forall c :: c in seen ==> c !in todo
      invariant |seen| + |todo| == |sets|
      invariant forall a, b :: 0 <= a < b < |seen| ==> seen[a] != seen[b]
      decreases todo
    {
      Pick(todo);
      var c :| c in todo;
      seen := seen + [c];
      todo := todo - {c};
    }
    var vars := DisjointSetsToVarOrder(seen, fddSize);
    vars := vars + [CurrentStateVar(ast, prefix)];
    GetVarsJoins(AllActions(ast.transitions), prefix, seen, fddSize, CurrentStateVar(ast, prefix));
    return Ok(vars), seen;
  }

  // ---------------------------------------------------------------------
  // Weights and transitions

  /**
   * The weight of an action: a single relation, the three relations of a
   * read (which the library passes on as a ReadTransitionException), or a
   * failure.
   */
  datatype Relation<R> = Single(rel: R) | Read(init: R, times2: R, plus1: R) | Failed(why: Failure)

  /** act neither aborts nor lacks a command, and its command is called name. */
  predicate IsCommand(act: Action, name: string) {
    act.actionType != "fire" && act.actionType != "alert" && act.command.Some? && act.command.value.name == name
  }

  /** get_relation. */
  function GetRelation<R>(maker: RelationMaker<R>, act: Action, prefix: string): (r: Relation<R>)
    ensures r == Failed(Aborted) <==> act.actionType == "fire" || act.actionType == "alert"
    ensures act.actionType != "fire" && act.actionType != "alert" && act.command.None? ==> r == Failed(Invalid)
    ensures r.Read? <==> IsCommand(act, "read")
    ensures r.Read? ==> var v := VarName(act.operandId, prefix);
                        r == Read(maker.initialize(v, 0), maker.times2(v), maker.increment(v))
    ensures r.Single? ==> act.command.Some? && act.command.value.name in {"reset", "incr", "testnectr2"}
    ensures IsCommand(act, "reset") ==>
              var args := act.command.value.arguments;
              && (|args| != 1 ==> r == Failed(Invalid))
              && (|args| == 1 && LexicalCastInt(args[0]).None? ==> r == Failed(BadCast))
              && (|args| == 1 && LexicalCastInt(args[0]).Some? ==>
                    r == Single(maker.initialize(VarName(act.operandId, prefix), LexicalCastInt(args[0]).value)))
    ensures IsCommand(act, "incr") ==> r == Single(maker.increment(VarName(act.operandId, prefix)))
    ensures IsCommand(act, "testnectr2") ==>
              var cmd := act.command.value;
              && (!TestWellFormed(cmd) ==> r == Failed(Invalid))
              && (TestWellFormed(cmd) && LexicalCastInt(cmd.arguments[0]).None? ==> r == Failed(BadCast))
              && (TestWellFormed(cmd) && LexicalCastInt(cmd.arguments[0]).Some? ==>
                    r == Single(maker.assumeEquality(VarName(act.operandId, prefix),
                                                     VarName(LexicalCastInt(cmd.arguments[0]).value, prefix))))
    ensures (act.actionType != "fire" && act.actionType != "alert" && act.command.Some?
             && act.command.value.name !in {"read", "reset", "incr", "testnectr2"}) ==> r == Failed(Invalid)
  {
    if act.actionType == "fire" || act.actionType == "alert" then Failed(Aborted)
    else if act.command.None? then Failed(Invalid)
    else
      var cmd := act.command.value;
      var v := VarName(act.operandId, prefix);
      if cmd.name == "read" then Read(maker.initialize(v, 0), maker.times2(v), maker.increment(v))
      else if cmd.name == "reset" then
        if |cmd.arguments| != 1 then Failed(Invalid)
        else match LexicalCastInt(cmd.arguments[0])
          case None => Failed(BadCast)
          case Some(val) => Single(maker.initialize(v, val))
      else if cmd.name == "incr" then Single(maker.increment(v))
      else if cmd.name == "testnectr2" then
        if !TestWellFormed(cmd) then Failed(Invalid)
        else match LexicalCastInt(cmd.arguments[0])
          case None => Failed(BadCast)
          case Some(rhs) => Single(maker.assumeEquality(v, VarName(rhs, prefix)))
      else Failed(Invalid)
  }

  /** The key of a symbol name: the name "epsilon" stands for EPSILON. */
  function SymbolKey(names: Interner, name: string): Key {
    if name == "epsilon" then EPSILON else names.symbol(name)
  }

  /** One source->dest transition of weight rel per symbol, in order. */
  function SingleEdges<R>(names: Interner, source: Key, dest: Key, rel: R, syms: seq<string>): (r: seq<Trans<R>>)
    ensures |r| == |syms|
    ensures forall i :: 0 <= i < |syms| ==> r[i] == Trans(source, SymbolKey(names, syms[i]), dest, rel)
  {
    if |syms| == 0 then []
    else SingleEdges(names, source, dest, rel, syms[..|syms| - 1])
         + [Trans(source, SymbolKey(names, syms[|syms| - 1]), dest, rel)]
  }

  /**
   * The read gadget for one symbol: source -__startbits-> mid with the
   * initialising weight, mid -bit0-> dest with one, mid -bit1-> dest with
   * plus one, and dest -epsilon-> mid with times two.
   */
  function ReadBlock<R>(names: Interner, t: AstTransition, one: R, rel: Relation<R>, sym: string): (r: seq<Trans<R>>)
    requires rel.Read?
    ensures |r| == 4
    ensures var mid := names.state(t.source + "__" + sym);
            var source, dest := names.state(t.source), names.state(t.dest);
            && r[0] == Trans(source, names.symbol("__startbits"), mid, rel.init)
            && r[1] == Trans(mid, names.symbol(sym + "__bit_is_0"), dest, one)
            && r[2] == Trans(mid, names.symbol(sym + "__bit_is_1"), dest, rel.plus1)
            && r[3] == Trans(dest, EPSILON, mid, rel.times2)
  {
    var mid := names.state(t.source + "__" + sym);
    var source, dest := names.state(t.source), names.state(t.dest);
    [Trans(source, names.symbol("__startbits"), mid, rel.init),
     Trans(mid, names.symbol(sym + "__bit_is_0"), dest, one),
     Trans(mid, names.symbol(sym + "__bit_is_1"), dest, rel.plus1),
     Trans(dest, EPSILON, mid, rel.times2)]
  }

  /** The read gadgets of all symbols, in order. */
  function ReadEdges<R>(names: Interner, t: AstTransition, one: R, rel: Relation<R>, syms: seq<string>): (r: seq<Trans<R>>)
    requires rel.Read?
    ensures |r| == 4 * |syms|
    ensures forall i :: 0 <= i < |syms| ==> r[4 * i..4 * i + 4] == ReadBlock(names, t, one, rel, syms[i])
  {
    if |syms| == 0 then []
    else
      var front := ReadEdges(names, t, one, rel, syms[..|syms| - 1]);
      var r := front + ReadBlock(names, t, one, rel, syms[|syms| - 1]);
      assert forall i :: 0 <= i < |syms| - 1 ==> r[4 * i..4 * i + 4] == front[4 * i..4 * i + 4];
      r
  }

  /** The weight of a transition's action list: one for none, the action's for one. */
  function TransRelation<R>(maker: RelationMaker<R>, t: AstTransition, prefix: string): Relation<R> {
    if |t.actions| == 0 then Single(maker.one)
    else if |t.actions| == 1 then GetRelation(maker, t.actions[0], prefix)
    else Failed(Invalid)
  }

  /** get_transitions: the weighted transitions one parsed transition becomes. */
  function Transitions<R>(maker: RelationMaker<R>, t: AstTransition, prefix: string, names: Interner)
    : (r: Result<seq<Trans<R>>, Failure>)
    ensures TransRelation(maker, t, prefix).Single? ==>
              r == Ok(SingleEdges(names, names.state(t.source), names.state(t.dest),
                                  TransRelation(maker, t, prefix).rel, t.symbols))
    ensures TransRelation(maker, t, prefix).Read? ==>
              (r.Ok? <==> "epsilon" !in t.symbols)
    ensures TransRelation(maker, t, prefix).Read? && "epsilon" in t.symbols ==> r == Err(Invalid)
    ensures TransRelation(maker, t, prefix).Read? && "epsilon" !in t.symbols ==>
              r == Ok(ReadEdges(names, t, maker.one, TransRelation(maker, t, prefix), t.symbols))
    ensures TransRelation(maker, t, prefix).Failed? ==> r == Err(TransRelation(maker, t, prefix).why)
  {
    var rel := TransRelation(maker, t, prefix);
    match rel
    case Single(w) => Ok(SingleEdges(names, names.state(t.source), names.state(t.dest), w, t.symbols))
    case Read(_, _, _) =>
      if "epsilon" in t.symbols then Err(Invalid) else Ok(ReadEdges(names, t, maker.one, rel, t.symbols))
    case Failed(f) => Err(f)
  }

  /**
   * A read action without epsilon symbols gives, for the i-th symbol sym,
   * the four transitions source -__startbits-> mid (initialise to 0),
   * mid -sym__bit_is_0-> dest (one), mid -sym__bit_is_1-> dest (increment)
   * and dest -epsilon-> mid (times two), where mid is the state
   * source__sym.
   */
  lemma ReadGivesGadgets<R>(maker: RelationMaker<R>, t: AstTransition, prefix: string, names: Interner)
    requires |t.actions| == 1 && GetRelation(maker, t.actions[0], prefix).Read?
    requires "epsilon" !in t.symbols
    ensures Transitions(maker, t, prefix, names).Ok?
    ensures var ts := Transitions(maker, t, prefix, names).value;
            var v := VarName(t.actions[0].operandId, prefix);
            var source, dest := names.state(t.source), names.state(t.dest);
            && |ts| == 4 * |t.symbols|
            && forall i :: 0 <= i < |t.symbols| ==>
                 var mid := names.state(t.source + "__" + t.symbols[i]);
                 && ts[4 * i] == Trans(source, names.symbol("__startbits"), mid, maker.initialize(v, 0))
                 && ts[4 * i + 1] == Trans(mid, names.symbol(t.symbols[i] + "__bit_is_0"), dest, maker.one)
                 && ts[4 * i + 2] == Trans(mid, names.symbol(t.symbols[i] + "__bit_is_1"), dest, maker.increment(v))
                 && ts[4 * i + 3] == Trans(dest, EPSILON, mid, maker.times2(v))
  {
    var rel := TransRelation(maker, t, prefix);
    var v := VarName(t.actions[0].operandId, prefix);
    assert rel == Read(maker.initialize(v, 0), maker.times2(v), maker.increment(v));
    var ts := ReadEdges(names, t, maker.one, rel, t.symbols);
    assert Transitions(maker, t, prefix, names) == Ok(ts);
    forall i | 0 <= i < |t.symbols|
      ensures var b := ReadBlock(names, t, maker.one, rel, t.symbols[i]);
              ts[4 * i] == b[0] && ts[4 * i + 1] == b[1] && ts[4 * i + 2] == b[2] && ts[4 * i + 3] == b[3]
    {
      var b := ReadBlock(names, t, maker.one, rel, t.symbols[i]);
      assert ts[4 * i..4 * i + 4] == b;
      assert ts[4 * i] == b[0] && ts[4 * i + 1] == b[1] && ts[4 * i + 2] == b[2] && ts[4 * i + 3] == b[3];
    }
  }

  /** get_transitions: the list the parsed transition becomes, or the failure. */
  method GetTransitions<R>(maker: RelationMaker<R>, t: AstTransition, prefix: string, names: Interner)
    returns (r: Result<seq<Trans<R>>, Failure>)
    ensures r == Transitions(maker, t, prefix, names)
  {
    var source, dest := names.state(t.source), names.state(t.dest);
    var rel := TransRelation(maker, t, prefix);
    if rel.Failed? {
      return Err(rel.why);
    }
    if rel.Single? {
      var ret := EmitSingle(names, source, dest, rel.rel, t.symbols);
      return Ok(ret);
    }
    r := EmitRead(names, t, maker.one, rel);
  }

  /** One transition per symbol, all source -> dest with the same weight. */
  method EmitSingle<R>(names: Interner, source: Key, dest: Key, rel: R, syms: seq<string>)
    returns (ret: seq<Trans<R>>)
    ensures ret == SingleEdges(names, source, dest, rel, syms)
  {
    ret := [];
    var i := 0;
    while i < |syms|
      invariant 0 <= i <= |syms|
      invariant ret == SingleEdges(names, source, dest, rel, syms[..i])
    {
      assert syms[..i + 1][..i] == syms[..i];
      if syms[i] == "epsilon" {
        ret := ret + [Trans(source, EPSILON, dest, rel)];
      } else {
        ret := ret + [Trans(source, names.symbol(syms[i]), dest, rel)];
      }
      i := i + 1;
    }
    assert syms[..i] == syms;
  }

  /** The read gadget per symbol; an epsilon symbol fails the library's assertion. */
  method EmitRead<R>(names: Interner, t: AstTransition, one: R, rel: Relation<R>)
    returns (r: Result<seq<Trans<R>>, Failure>)
    requires rel.Read?
    ensures r == if "epsilon" in t.symbols then Err(Invalid) else Ok(ReadEdges(names, t, one, rel, t.symbols))
  {
    var syms := t.symbols;
    var source, dest := names.state(t.source), names.state(t.dest);
    var ret: seq<Trans<R>> := [];
    var i := 0;
    while i < |syms|
      invariant 0 <= i <= |syms|
      invariant "epsilon" !in syms[..i]
      invariant ret == ReadEdges(names, t, one, rel, syms[..i])
    {
      if syms[i] == "epsilon" {
        return Err(Invalid);
      }
      var mid := names.state(t.source + "__" + syms[i]);
      var startbits := names.symbol("__startbits");
      var bit0 := names.symbol(syms[i] + "__bit_is_0");
      var bit1 := names.symbol(syms[i] + "__bit_is_1");
      assert syms[..i + 1][..i] == syms[..i];
      ret := ret + [Trans(source, startbits, mid, rel.init), Trans(mid, bit0, dest, one),
                    Trans(mid, bit1, dest, rel.plus1), Trans(dest, EPSILON, mid, rel.times2)];
      i := i + 1;
    }
    assert syms[..i] == syms;
    return Ok(ret);
  }

  // ---------------------------------------------------------------------
  // Building the automaton

  /** The transitions of all parsed transitions, in order, or the first failure. */
  function AllTransitions<R>(maker: RelationMaker<R>, ts: seq<AstTransition>, prefix: string, names: Interner)
    : Result<seq<Trans<R>>, Failure>
    decreases |ts|
  {
    if |ts| == 0 then Ok([])
    else
      var a := Transitions(maker, ts[0], prefix, names);
      if a.Err? then Err(a.error)
      else
        var b := AllTransitions(maker, ts[1..], prefix, names);
        if b.Err? then Err(b.error) else Ok(a.value + b.value)
  }

  /** done followed by a later result, or that result's failure. */
  function Prepend<R>(done: seq<Trans<R>>, r: Result<seq<Trans<R>>, Failure>): Result<seq<Trans<R>>, Failure> {
    if r.Err? then r else Ok(done + r.value)
  }

  /** The automaton's store after adding ts to m one by one. */
  function InsertAll<W>(combine: (W, W) -> W, m: KpMap<W>, ts: seq<Trans<W>>): KpMap<W>
    decreases |ts|
  {
    if |ts| == 0 then m
    else
      var t := ts[|ts| - 1];
      Insert(combine, InsertAll(combine, m, ts[..|ts| - 1]), t.from, t.stack, t.to, t.weight)
  }

  /** Adding one more transition is one more Insert. */
  lemma InsertAllSnoc<W>(combine: (W, W) -> W, m: KpMap<W>, a: seq<Trans<W>>, t: Trans<W>)
    ensures InsertAll(combine, m, a + [t]) == Insert(combine, InsertAll(combine, m, a), t.from, t.stack, t.to, t.weight)
  {
    assert (a + [t])[..|a + [t]| - 1] == a;
  }

  /** The fold over the transitions from j on: the transitions of the j-th, then the rest. */
  lemma AllTransitionsStep<R>(maker: RelationMaker<R>, ts: seq<AstTransition>, j: nat, prefix: string,
                              names: Interner, done: seq<Trans<R>>)
    requires j < |ts|
    ensures Transitions(maker, ts[j], prefix, names).Err? ==>
              Prepend(done, AllTransitions(maker, ts[j..], prefix, names)) == Err(Transitions(maker, ts[j], prefix, names).error)
    ensures Transitions(maker, ts[j], prefix, names).Ok? ==>
              Prepend(done, AllTransitions(maker, ts[j..], prefix, names))
              == Prepend(done + Transitions(maker, ts[j], prefix, names).value, AllTransitions(maker, ts[j + 1..], prefix, names))
  {
    assert ts[j..][0] == ts[j];
    assert ts[j..][1..] == ts[j + 1..];
    PrependThen(done, Transitions(maker, ts[j], prefix, names), AllTransitions(maker, ts[j + 1..], prefix, names),
                AllTransitions(maker, ts[j..], prefix, names));
  }

  /** done followed by a then b is done and a followed by b, unless a fails. */
  lemma PrependThen<R>(done: seq<Trans<R>>, a: Result<seq<Trans<R>>, Failure>, b: Result<seq<Trans<R>>, Failure>,
                       ab: Result<seq<Trans<R>>, Failure>)
    requires ab == if a.Err? then Err(a.error) else if b.Err? then Err(b.error) else Ok(a.value + b.value)
    ensures a.Err? ==> Prepend(done, ab) == Err(a.error)
    ensures a.Ok? ==> Prepend(done, ab) == Prepend(done + a.value, b)
  {
    if a.Ok? && b.Ok? {
      assert done + (a.value + b.value) == (done + a.value) + b.value;
    }
  }

  /** A triple is stored after adding ts exactly when it was stored before or some t in ts has it. */
  lemma {:induction false} InsertAllHas<W>(combine: (W, W) -> W, m: KpMap<W>, ts: seq<Trans<W>>, p: Key, g: Key, q: Key)
    ensures Get(InsertAll(combine, m, ts), p, g, q).Some? <==>
            Get(m, p, g, q).Some? || exists i :: 0 <= i < |ts| && ts[i].from == p && ts[i].stack == g && ts[i].to == q
    decreases |ts|
  {
    if |ts| > 0 {
      var front := ts[..|ts| - 1];
      InsertAllHas(combine, m, front, p, g, q);
      if exists i :: 0 <= i < |front| && front[i].from == p && front[i].stack == g && front[i].to == q {
        var i :| 0 <= i < |front| && front[i].from == p && front[i].stack == g && front[i].to == q;
        assert ts[i] == front[i];
      }
      if exists i :: 0 <= i < |ts| && ts[i].from == p && ts[i].stack == g && ts[i].to == q {
        var i :| 0 <= i < |ts| && ts[i].from == p && ts[i].stack == g && ts[i].to == q;
        if i < |front| {
          assert front[i] == ts[i];
        }
      }
    }
  }

  /** The states the transitions of ts start or end in. */
  function Endpoints<W>(ts: seq<Trans<W>>): set<Key>
    decreases |ts|
  {
    if |ts| == 0 then {}
    else Endpoints(ts[..|ts| - 1]) + {ts[|ts| - 1].from, ts[|ts| - 1].to}
  }

  /** k is an endpoint of ts exactly when some transition of ts starts or ends in k. */
  lemma {:induction false} EndpointsHas<W>(ts: seq<Trans<W>>, k: Key)
    ensures k in Endpoints(ts) <==> exists i :: 0 <= i < |ts| && (ts[i].from == k || ts[i].to == k)
    decreases |ts|
  {
    if |ts| > 0 {
      var front := ts[..|ts| - 1];
      EndpointsHas(front, k);
      if exists i :: 0 <= i < |front| && (front[i].from == k || front[i].to == k) {
        var i :| 0 <= i < |front| && (front[i].from == k || front[i].to == k);
        assert ts[i] == front[i];
      }
      if exists i :: 0 <= i < |ts| && (ts[i].from == k || ts[i].to == k) {
        var i :| 0 <= i < |ts| && (ts[i].from == k || ts[i].to == k);
        if i < |front| {
          assert front[i] == ts[i];
        }
      }
    }
  }

  /** The keys of the parsed states. */
  function StateKeys(names: Interner, states: seq<string>): set<Key>
    decreases |states|
  {
    if |states| == 0 then {}
    else StateKeys(names, states[..|states| - 1]) + {names.state(states[|states| - 1])}
  }

  /** k is a parsed state's key exactly when some parsed state interns to k. */
  lemma {:induction false} StateKeysHas(names: Interner, states: seq<string>, k: Key)
    ensures k in StateKeys(names, states) <==> exists i :: 0 <= i < |states| && names.state(states[i]) == k
    decreases |states|
  {
    if |states| > 0 {
      var front := states[..|states| - 1];
      StateKeysHas(names, front, k);
      if exists i :: 0 <= i < |front| && names.state(front[i]) == k {
        var i :| 0 <= i < |front| && names.state(front[i]) == k;
        assert states[i] == front[i];
      }
      if exists i :: 0 <= i < |states| && names.state(states[i]) == k {
        var i :| 0 <= i < |states| && names.state(states[i]) == k;
        if i < |front| {
          assert front[i] == states[i];
        }
      }
    }
  }

  /**
   * The states Q are the parsed states SK and the endpoints of done; a
   * parsed state weighs sz, any other state zero.
   */
  ghost predicate StatesOk<R>(Q: set<Key>, sm: map<Key, R>, zero: R, SK: set<Key>, done: seq<Trans<R>>, sz: R) {
    && (forall k :: k in Q <==> k in SK || k in Endpoints(done))
    && (forall k :: k in sm ==> sm[k] == if k in SK then sz else zero)
  }

  /** Adding the states of one more transition keeps StatesOk. */
  lemma StatesOkStep<R>(Q: set<Key>, sm: map<Key, R>, zero: R, SK: set<Key>, done: seq<Trans<R>>, sz: R,
                        t: Trans<R>)
    requires StatesOk(Q, sm, zero, SK, done, sz)
    requires forall k :: k in Q <==> k in sm
    ensures StatesOk(Q + {t.from, t.to}, WithState(WithState(sm, t.from, zero), t.to, zero), zero, SK, done + [t], sz)
  {
    assert (done + [t])[..|done + [t]| - 1] == done;
    assert Endpoints(done + [t]) == Endpoints(done) + {t.from, t.to};
  }

  /** x holds the transitions cur on top of the parsed states SK of weight sz. */
  ghost predicate Tracks<R(!new)>(x: Wfa.WFA<R>, cur: seq<Trans<R>>, SK: set<Key>, sz: R)
    reads x
  {
    x.Valid() && x.kpmap == InsertAll(x.dom.combine, map[], cur) && StatesOk(x.Q, x.stateMap, x.dom.zero, SK, cur, sz)
  }

  /** addTrans for one more transition t. */
  method AddOne<R(!new,==)>(x: Wfa.WFA<R>, t: Trans<R>, ghost cur: seq<Trans<R>>, ghost SK: set<Key>, ghost sz: R)
    requires Tracks(x, cur, SK, sz)
    modifies x`kpmap, x`epsMap, x`stateMap, x`Q
    ensures Tracks(x, cur + [t], SK, sz)
  {
    InsertAllSnoc(x.dom.combine, map[], cur, t);
    StatesOkStep(x.Q, x.stateMap, x.dom.zero, SK, cur, sz, t);
    x.AddTrans(t.from, t.stack, t.to, t.weight);
  }

  /** addTrans for each of ts, in order. */
  method AddTransitions<R(!new,==)>(x: Wfa.WFA<R>, ts: seq<Trans<R>>, ghost done: seq<Trans<R>>,
                                    ghost SK: set<Key>, ghost sz: R)
    requires Tracks(x, done, SK, sz)
    modifies x`kpmap, x`epsMap, x`stateMap, x`Q
    ensures Tracks(x, done + ts, SK, sz)
  {
    var k := 0;
    ghost var cur := done;
    assert done + ts[..0] == done;
    while k < |ts|
      invariant 0 <= k <= |ts| && cur == done + ts[..k]
      invariant Tracks(x, cur, SK, sz)
    {
      var t := ts[k];
      AddOne(x, t, cur, SK, sz);
      assert ts[..k + 1] == ts[..k] + [t];
      cur := cur + [t];
      k := k + 1;
    }
    assert ts[..k] == ts;
  }

  /** The automaton from_parser_ast builds from the transitions ts. */
  ghost predicate Built<R(!new)>(x: Wfa.WFA<R>, d: Semiring<R>, maker: RelationMaker<R>, ast: XfaAst,
                                   names: Interner, ts: seq<Trans<R>>)
    reads x
  {
    && x.dom == d && x.query == INORDER && x.F == {}
    && x.initState == names.state(ast.startState)
    && Tracks(x, ts, StateKeys(names, ast.states), maker.zero)
  }

  /** addState with weight sz for each parsed state, into an automaton without states. */
  method AddParsedStates<R(!new,==)>(x: Wfa.WFA<R>, names: Interner, states: seq<string>, sz: R)
    requires x.Valid() && x.kpmap == map[] && x.Q == {} && x.stateMap == map[]
    modifies x`stateMap, x`Q
    ensures Tracks(x, [], StateKeys(names, states), sz)
  {
    var i := 0;
    while i < |states|
      invariant 0 <= i <= |states|
      invariant x.Valid() && x.Q == StateKeys(names, states[..i])
      invariant forall k :: k in x.stateMap ==> x.stateMap[k] == sz
    {
      assert states[..i + 1][..i] == states[..i];
      x.AddState(names.state(states[i]), sz);
      i := i + 1;
    }
    assert states[..i] == states;
  }

  /** The transitions of one parsed transition, added in order, or its failure. */
  method AddAstTransition<R(!new,==)>(x: Wfa.WFA<R>, maker: RelationMaker<R>, t: AstTransition,
                                      prefix: string, names: Interner, ghost done: seq<Trans<R>>,
                                      ghost SK: set<Key>, ghost sz: R)
    returns (err: Option<Failure>)
    requires Tracks(x, done, SK, sz)
    modifies x`kpmap, x`epsMap, x`stateMap, x`Q
    ensures Transitions(maker, t, prefix, names).Err? ==> err == Some(Transitions(maker, t, prefix, names).error)
    ensures Transitions(maker, t, prefix, names).Ok? ==>
              err.None? && Tracks(x, done + Transitions(maker, t, prefix, names).value, SK, sz)
  {
    var ts := GetTransitions(maker, t, prefix, names);
    if ts.Err? {
      return Some(ts.error);
    }
    AddTransitions(x, ts.value, done, SK, sz);
    return None;
  }

  /**
   * The transitions of every parsed transition, added in order; the first
   * failure stops the loop and is returned.
   */
  method AddAstTransitions<R(!new,==)>(x: Wfa.WFA<R>, maker: RelationMaker<R>, trs: seq<AstTransition>,
                                       prefix: string, names: Interner, ghost SK: set<Key>, ghost sz: R)
    returns (err: Option<Failure>)
    requires Tracks(x, [], SK, sz)
    modifies x`kpmap, x`epsMap, x`stateMap, x`Q
    ensures AllTransitions(maker, trs, prefix, names).Err? ==> err == Some(AllTransitions(maker, trs, prefix, names).error)
    ensures AllTransitions(maker, trs, prefix, names).Ok? ==>
              err.None? && Tracks(x, AllTransitions(maker, trs, prefix, names).value, SK, sz)
  {
    ghost var spec := AllTransitions(maker, trs, prefix, names);
    ghost var done: seq<Trans<R>> := [];
    var j := 0;
    assert trs[0..] == trs;
    assert spec.Ok? ==> [] + spec.value == spec.value;
    while j < |trs|
      invariant 0 <= j <= |trs|
      invariant spec == Prepend(done, AllTransitions(maker, trs[j..], prefix, names))
      invariant Tracks(x, done, SK, sz)
    {
      AllTransitionsStep(maker, trs, j, prefix, names, done);
      ghost var next := Transitions(maker, trs[j], prefix, names);
      err := AddAstTransition(x, maker, trs[j], prefix, names, done, SK, sz);
      if err.Some? {
        return;
      }
      done := done + next.value;
      j := j + 1;
    }
    assert trs[j..] == [];
    assert done + [] == done;
    return None;
  }

  /**
   * from_parser_ast: every parsed state with weight zero, then the
   * transitions of every parsed transition in order, then the start state
   * as initial state.
   */
  method FromParserAst<R(!new,==)>(d: Semiring<R>, maker: RelationMaker<R>, ast: XfaAst, prefix: string,
                                   names: Interner)
    returns (r: Result<Wfa.WFA<R>, Failure>)
    ensures AllTransitions(maker, ast.transitions, prefix, names).Err? ==>
              r == Err(AllTransitions(maker, ast.transitions, prefix, names).error)
    ensures AllTransitions(maker, ast.transitions, prefix, names).Ok? ==>
              && r.Ok? && fresh(r.value)
              && Built(r.value, d, maker, ast, names, AllTransitions(maker, ast.transitions, prefix, names).value)
  {
    var x := new Wfa.WFA(d, INORDER);
    ghost var SK := StateKeys(names, ast.states);
    AddParsedStates(x, names, ast.states, maker.zero);
    var err := AddAstTransitions(x, maker, ast.transitions, prefix, names, SK, maker.zero);
    if err.Some? {
      return Err(err.value);
    }
    var _ := x.SetInitialState(names.state(ast.startState));
    return Ok(x);
  }

  /** BddRelationMaker::assume_equality: the identity restricted to lhs == rhs. */
  function BddAssumeEquality(eq: BinRel.Rel, ident: BinRel.Rel): (r: BinRel.Rel)
    ensures forall p :: p in r <==> p in ident && p in eq
  {
    BinRel.Intersect(eq, ident)
  }
}
