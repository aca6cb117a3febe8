# WALi core in Dafny

This project models six pieces of WALi, the weighted automaton library for
pushdown-system reachability, and proves properties of them. All six are
generic over a weight domain: a `Semiring` value that supplies `combine`,
`extend`, `zero` and `one`. Weight equality is Dafny's `==`.

- **WFA** (`wfa.dfy`, `wfa_spec.dfy`, `fixpoint.dfy`, `graph.dfy`). A
  weighted finite automaton, modelled as a class with these fields:
  - the transition store `kpmap`, indexed by (from, stack);
  - the epsilon index `epsMap`, indexed by target;
  - the state weights, the initial state, the final states `F` and the
    states `Q`;
  - the query mode and the generation counter.

  Its methods update those fields in place. Each one is specified by a
  function on the old field values (`WfaSpec`). `path_summary` is a
  worklist fixed point. It is proved to stay below every solution of the
  path-summary inequations, and on convergence to be their least solution.
- **WitnessCombine** (`witness.dfy`). The provenance node that records which
  witnesses a combined weight came from. The invariant is that the combine of
  the children's weights is the node's weight.
- **BinRel** (`binrel.dfy`). The binary-relation weight domain, with
  relations as finite sets of pairs:
  - union is `combine`, composition is `extend`, the identity is `one` and
    the empty relation is `zero`;
  - the one-shot `initialize` of NUMVARS and its range check;
  - the identity cache;
  - `AddVar`/`SubVar`.

  The semiring laws are proved for relations inside [0, NUMVARS). Outside
  that range the identity is not a unit, so the laws do not hold for
  arbitrary relations.
- **Rule** (`rule.dfy`). A pushdown rule: the live-rule counter, the
  accessors, the weight setter, and the XML `marshall` and text `print`
  forms.
- **XFA conversion** (`xfa.dfy`, `decimal.dfy`). The translation of a parsed
  XFA into a WFA over an abstract `RelationMaker`. It covers:
  - variable naming;
  - the variable order that `testnectr2` merges give;
  - the weight of each action;
  - the four-edge gadget a `read` action expands to;
  - the automaton `from_parser_ast` builds.

  Abort, a failed assertion and `bad_lexical_cast` become a `Failure`
  result.
- **NWA selectors** (`selectors.dfy`). The projections on call, internal and
  return transitions.

Modules `Wrappers` (the Option and Result types), `Keys` (keys are integers,
EPSILON is a reserved key) and `Semiring` (the weight-domain laws) support
the others.

## Model

| member | source | states |
|---|---|---|
| Wfa.WFA.constructor | Source/wali/wfa/WFA.hpp:103 | a new automaton has the given query mode, generation 0, no transitions, states or final states, and EPSILON as initial state |
| Wfa.WFA.Clear | Source/wali/wfa/WFA.hpp:109-112 | every transition, state weight, epsilon entry, final state and state is gone and the automaton stays consistent |
| Wfa.WFA.SetInitialState | Source/wali/wfa/WFA.hpp:114-155 | `key` becomes the initial state, the previous one is returned, and `IsInitialState(key)` holds |
| Wfa.WFA.InitialState | Source/wali/wfa/WFA.hpp:141-148 | returns the stored initial state, the one SetInitialState last installed |
| Wfa.WFA.IsInitialState | Source/wali/wfa/WFA.hpp:150-155 | true exactly when key is the initial state |
| Wfa.WFA.AddFinalState | Source/wali/wfa/WFA.hpp:157-170 | afterwards `key` is final and every other state's final status is unchanged |
| Wfa.WFA.IsFinalState | Source/wali/wfa/WFA.hpp:166-170 | true exactly when key is among the final states |
| Wfa.WFA.SetQuery | Source/wali/wfa/WFA.hpp:172-186 | the new mode is installed, `GetQuery` returns it, and the old mode is returned |
| Wfa.WFA.GetQuery | Source/wali/wfa/WFA.hpp:182-186 | returns the installed query mode |
| Wfa.WFA.SetGeneration | Source/wali/wfa/WFA.hpp:188-201 | `GetGeneration` returns the value set |
| Wfa.WFA.GetGeneration | Source/wali/wfa/WFA.hpp:191-195 | returns the stored generation |
| Wfa.WFA.AddState | Source/wali/wfa/WFA.hpp:414-417 | the state set grows by `key`; a new state gets weight `zero`, existing weights are kept; `NumStates` grows by one exactly when the key was new |
| Wfa.WFA.NumStates | Source/wali/wfa/WFA.hpp:445-448 | the number of states, the size of Q |
| Wfa.WFA.Insert | Source/wali/wfa/WFA.hpp:389-404 | a transition already present for (p, g, q) ends with the combine of the old and new weights; the returned transition is the stored one; the epsilon index stays exact |
| Wfa.WFA.AddTrans | Source/wali/wfa/WFA.hpp:211-227 | the store becomes `Insert` of the old store; both endpoints become states (with weight zero when new); the endpoints stay inside the state set |
| Wfa.WFA.Erase | Source/wali/wfa/WFA.hpp:229-237 | the transition is absent afterwards (`Find` returns None) and all others are kept; an absent transition changes nothing |
| Wfa.WFA.EraseState | Source/wali/wfa/WFA.hpp:239-249 | returns whether q was a state; if so q's outgoing transitions go, incoming ones from other states stay, and q leaves the states; otherwise nothing changes |
| Wfa.WFA.Find | Source/wali/wfa/WFA.hpp:251-273 | finds a transition exactly when (p, g, q) is stored, and returns it with its stored weight |
| Wfa.WFA.Match | Source/wali/wfa/WFA.hpp:406-412 | returns exactly the stored transitions of the form (p, y, ?) |
| Wfa.WFA.SetupFixpoint | Source/wali/wfa/WFA.hpp:452-463 | every state gets weight zero, and every final state wtFinal (one when none is given); the worklist is every state |
| Wfa.WFA.FinalWeight | Source/wali/wfa/WFA.hpp:458-463 | wtFinal when given, otherwise the domain's one |
| Wfa.WFA.PathSummary | Source/wali/wfa/WFA.hpp:326-343 | the weights stay above the seed and below every solution of the path-summary inequations; on convergence they solve them, so they are the least solution |
| Wfa.WFA.Prune | Source/wali/wfa/WFA.hpp:345-349 | keeps exactly the transitions that leave a state reachable from the initial state and enter a state from which a final state is reachable |
| Wfa.WFA.Intersect | Source/wali/wfa/WFA.hpp:315-324 | dest is cleared; its initial state pairs the two initial states; its final states pair the final states; its transitions are exactly the products of the same-symbol pairs; every endpoint is a state |
| WfaSpec.Insert | Source/wali/wfa/WFA.hpp:389-404 | (p, g, q) gets the combine of its old weight and w, or w when absent; every other triple is unchanged |
| WfaSpec.Erase | Source/wali/wfa/WFA.hpp:229-237 | (p, g, q) is absent; every other triple is unchanged |
| WfaSpec.EraseOutgoing | Source/wali/wfa/WFA.hpp:239-249 | transitions from q vanish; every other transition, including those into q, is unchanged |
| WfaSpec.Match | Source/wali/wfa/WFA.hpp:406-412 | membership holds exactly for stored transitions with source p and symbol y |
| WfaSpec.InsertNew | Source/wali/wfa/WFA.hpp:389-404 | inserting an absent triple adds exactly that one transition to the set of all transitions |
| WfaSpec.InsertEpsConsistent | Source/wali/wfa/WFA.hpp:524-526 | inserting keeps the epsilon index listing exactly the epsilon transitions by target |
| WfaSpec.EraseAbsent | Source/wali/wfa/WFA.hpp:229-237 | erasing an absent triple changes neither the store nor the epsilon index |
| WfaSpec.EraseOutgoingEpsConsistent | Source/wali/wfa/WFA.hpp:239-249 | removing a state's outgoing transitions keeps the epsilon index exact |
| WfaSpec.Chop | Source/wali/wfa/WFA.hpp:345-349 | a triple stays exactly when its source is in R and its target in C |
| WfaSpec.PairTransDistinct | Source/wali/wfa/WFA.hpp:315-324 | with an injective pair key, two matching pairs giving the same (from, stack, to) are the same pair, so the intersection never merges products |
| WfaSpec.ProductStep | Source/wali/wfa/WFA.hpp:315-324 | inserting one more pair's product extends the product built so far by exactly that transition |
| WfaSpec.LeastSolutionUnique | Source/wali/wfa/WFA.hpp:326-343 | two solutions each below the other are equal, so the least solution is unique |
| WfaSpec.SeedBelowSolutions | Source/wali/wfa/WFA.hpp:452-463 | every solution lies above the seed weights |
| Fixpoint.SeedEstablishes | Source/wali/wfa/WFA.hpp:504-509 | the seed weights, with every state on the worklist, satisfy the loop invariant |
| Fixpoint.RelaxStep | Source/wali/wfa/WFA.hpp:504-509 | one relaxation of a predecessor transition keeps the inner loop invariant |
| Fixpoint.RelaxBelowSolution | Source/wali/wfa/WFA.hpp:504-509 | a relaxed weight stays below the weight of that state in any solution |
| Fixpoint.ConvergedSolves | Source/wali/wfa/WFA.hpp:504-509 | when the worklist is empty, the weights solve the path-summary inequations |
| Graph.Reach | Source/wali/wfa/WFA.hpp:345-349 | the worklist search returns the least edge-closed superset of the start set |
| Graph.ReachUnique | Source/wali/wfa/WFA.hpp:345-349 | the reachable set is determined by the edges and the start set |
| Witnesses.WitnessCombine.constructor | wali/WitnessCombine.hpp:21 | a new node carries the given weight and no children |
| Witnesses.WitnessCombine.AddChild | wali/WitnessCombine.cpp:110-114 | appends exactly one child at the end |
| Witnesses.WitnessCombine.Absorb | wali/WitnessCombine.cpp:127-130 | appends wc's children, in order, after this node's |
| Witnesses.WitnessCombine.Combine | wali/WitnessCombine.cpp:39-85 | the corrected combine: a fresh node of weight `combine(userSe, weight(that))` whose children `NewKids` chooses, which keeps the invariant by `CombineKeepsInvariant`; `CombineAsWritten` is the library's code |
| Witnesses.WitnessCombine.CombineAsWritten | wali/WitnessCombine.cpp:39-85 | the library's combine: a fresh node of weight `combine(userSe, weight(that))`; a plain witness is always added as a child, after the receiver's children only when the receiver does not contain it (`NewKidsAsWritten`) |
| Witnesses.CombineKeepsInvariant | wali/WitnessCombine.hpp:48-53 | the children chosen by `NewKids` combine to the new node's weight whenever both operands' children combine to theirs |
| Witnesses.AsWrittenBreaksInvariant | wali/WitnessCombine.cpp:74-85 | with the library's child list for a plain witness the receiver contains, a node whose child combines to its weight yields a node whose children do not |
| Witnesses.NewKidsAsWritten | wali/WitnessCombine.cpp:74-85 | as written, a plain witness the receiver contains becomes the only child; every other case agrees with `NewKids` |
| Witnesses.SumAppend | wali/WitnessCombine.hpp:48-53 | the combine of a concatenated list is the combine of the two sums |
| BinRel.IdRel | AddOns/Domains/Source/wali/domains/binrel/BinRel.cpp:194-201 | holds exactly the pairs (i, i) with 0 <= i < n |
| BinRel.Compose | AddOns/Domains/Source/wali/domains/binrel/BinRel.cpp:129-133 | (x, z) is in the composition exactly when some y has (x, y) in a and (y, z) in b |
| BinRel.Union | AddOns/Domains/Source/wali/domains/binrel/BinRel.cpp:135-138 | membership in either relation |
| BinRel.Intersect | AddOns/Domains/Source/wali/domains/binrel/BinRel.cpp:140-143 | membership in both relations |
| BinRel.Empty | AddOns/Domains/Source/wali/domains/binrel/BinRel.cpp:80-84 | the relation with no pairs |
| BinRel.Equal | AddOns/Domains/Source/wali/domains/binrel/BinRel.cpp:172-176 | true exactly when the two relations hold the same pairs |
| BinRel.Domain | AddOns/Domains/Source/wali/domains/binrel/BinRel.cpp:160-176 | combine is union, extend is composition, zero is empty, one is the identity on NUMVARS |
| BinRel.ComposeAssoc | AddOns/Domains/Source/wali/domains/binrel/BinRel.cpp:166-170 | extend is associative |
| BinRel.ComposeUnionLeft | AddOns/Domains/Source/wali/domains/binrel/BinRel.cpp:160-170 | extend distributes over combine on the right operand |
| BinRel.ComposeUnionRight | AddOns/Domains/Source/wali/domains/binrel/BinRel.cpp:160-170 | extend distributes over combine on the left operand |
| BinRel.IdUnit | AddOns/Domains/Source/wali/domains/binrel/BinRel.cpp:86-90 | the identity is a two-sided unit for relations over [0, NUMVARS) |
| BinRel.EmptyAnnihilates | AddOns/Domains/Source/wali/domains/binrel/BinRel.cpp:80-84 | composing with the empty relation on either side is empty |
| BinRel.ComposeInRange | AddOns/Domains/Source/wali/domains/binrel/BinRel.cpp:129-133 | composition keeps relations inside [0, NUMVARS) |
| BinRel.DomainCombineLaws | AddOns/Domains/Source/wali/domains/binrel/BinRel.cpp:160-164 | combine is associative, commutative and idempotent with zero as unit |
| BinRel.DomainExtendLaws | AddOns/Domains/Source/wali/domains/binrel/BinRel.cpp:166-170 | extend is associative, one is its unit and zero annihilates, for relations in range |
| BinRel.DomainDistributes | AddOns/Domains/Source/wali/domains/binrel/BinRel.cpp:160-170 | extend distributes over combine on both sides |
| BinRel.Context.constructor | AddOns/Domains/Source/wali/domains/binrel/BinRel.cpp:188 | before any call, NUMVARS is -1 and no identity is cached |
| BinRel.Context.Initialize | AddOns/Domains/Source/wali/domains/binrel/BinRel.cpp:29-60 | succeeds exactly for n >= 0 on an uninitialised domain and then sets NUMVARS to n; otherwise NUMVARS is unchanged; afterwards the domain is initialised exactly when it was before or the call succeeded |
| BinRel.Context.IsInitialized | AddOns/Domains/Source/wali/domains/binrel/BinRel.cpp:57-60 | true exactly when NUMVARS is no longer -1 |
| BinRel.Context.CheckVar | AddOns/Domains/Source/wali/domains/binrel/BinRel.cpp:19-27 | passes exactly when 0 <= v < NUMVARS, which also implies the domain is initialised; every other v is the thrown error |
| BinRel.Context.Make | AddOns/Domains/Source/wali/domains/binrel/BinRel.cpp:62-68 | defined exactly when both variables pass check_var, and then the singleton {(from, to)} inside [0, NUMVARS) |
| BinRel.Context.MakeList | AddOns/Domains/Source/wali/domains/binrel/BinRel.cpp:70-78 | defined exactly when every pair passes check_var, and then holds exactly the input's pairs |
| BinRel.Context.PrivId | AddOns/Domains/Source/wali/domains/binrel/BinRel.cpp:194-201 | the loop builds exactly the identity on [0, NUMVARS) |
| BinRel.Context.Id | AddOns/Domains/Source/wali/domains/binrel/BinRel.cpp:86-90 | the first call caches the identity on the current NUMVARS; later calls return the cached relation unchanged |
| BinRel.Context.AddVar | AddOns/Domains/Source/wali/domains/binrel/BinRel.cpp:92-97 | defined exactly when v passes check_var; then holds exactly the pairs (i, v) for i in the identity's range |
| BinRel.Context.SubVar | AddOns/Domains/Source/wali/domains/binrel/BinRel.cpp:99-104 | defined exactly when v passes check_var; then holds exactly the pairs (i, j) with j in range and j != v |
| BinRel.InitThenId | AddOns/Domains/Source/wali/domains/binrel/BinRel.cpp:29-55 | initialising once, then asking for the identity, gives the identity on [0, n) |
| Rules.RuleCounter.constructor | wali/wpds/Rule.cpp:16 | the live-rule count starts at zero |
| Rules.Rule.constructor | wali/wpds/Rule.cpp:18-23 | the live-rule count grows by one, and the accessors return the given from state, from stack, to state, to stack 1 and to stack 2 |
| Rules.Rule.Destroy | wali/wpds/Rule.cpp:25-29 | the live-rule count drops by one |
| Rules.Rule.SetWeight | wali/wpds/Rule.cpp:66-75 | the weight getter returns the new weight |
| Rules.Rule.View | wali/wpds/Rule.cpp:31-69 | the snapshot's fields are the accessors' values |
| Rules.MarshallElements | wali/wpds/Rule.cpp:105-126 | the elements are fromstate, fromstack and tostate, then tostack1 and tostack2 when present, then weight, with the printed keys and weight as texts |
| Rules.Marshall | wali/wpds/Rule.cpp:105-126 | the text starts with `<rule>` and a newline and ends with `</rule>` |
| Rules.MarshallText | wali/wpds/Rule.cpp:105-126 | the whole text: `<rule>` and a newline, one tab-indented line each for fromstate, fromstack and tostate, the tostack1 and tostack2 lines that are present, the weight line, then `</rule>` |
| Rules.MarshallBody | wali/wpds/Rule.cpp:108-123 | the elements of `MarshallElements` render as exactly the lines between `<rule>` and `</rule>` |
| Rules.StackLinesRender | wali/wpds/Rule.cpp:113-117 | the optional tostack1 and tostack2 elements render as their lines |
| Rules.RenderBodyAppend | wali/wpds/Rule.cpp:108-123 | the text of two element lists written one after the other is the text of their concatenation |
| Rules.MarshallRule | wali/wpds/Rule.cpp:119-122 | fails exactly when the sanity assertion does (no first pushed symbol but a second one); otherwise it is the XML text |
| Rules.MarshallStack1 | wali/wpds/Rule.cpp:113-114 | `<tostack1>` is written exactly when to_stack1 is not EPSILON |
| Rules.MarshallStack2 | wali/wpds/Rule.cpp:113-117 | `<tostack2>` is written exactly when neither to-stack is EPSILON |
| Rules.MarshallRoundTrip | wali/wpds/Rule.cpp:105-126 | reading the marshalled elements back, with inverses of the printers, gives the rule |
| Rules.PrintAsWritten | wali/wpds/Rule.cpp:77-103 | as written: the weight text after a tab, preceded only by the separators `<, > -> <, >` (with one more space when two symbols are pushed), so no key text |
| Rules.PrintRuleAsWritten | wali/wpds/Rule.cpp:96-99 | print as written fails exactly when its sanity assertion does; otherwise it is `PrintAsWritten` |
| Rules.Print | wali/wpds/Rule.cpp:77-103 | the corrected print: `<` followed by the from-state text at the front, the weight text after a tab at the end |
| Rules.PrintRule | wali/wpds/Rule.cpp:96-99 | the corrected print fails exactly when the sanity assertion does; otherwise it is `Print` |
| Rules.PrintIgnoresKeys | wali/wpds/Rule.cpp:77-103 | as written, two rules with the same epsilon pattern and weight text print the same whatever their keys |
| Rules.PrintShowsFromState | wali/wpds/Rule.cpp:77-103 | the corrected print tells apart rules whose from-state texts differ |
| Decimal.LexicalCastInt | AddOns/Xfa/Source/wali/xfa/convert_xfa.cpp:162-171 | succeeds exactly on signed decimal text within the 32-bit range, with the value read |
| Decimal.ParseIntToString | AddOns/Xfa/Source/wali/xfa/convert_xfa.cpp:162-171 | reading the decimal text of an integer gives the integer back |
| Decimal.CastIntToString | AddOns/Xfa/Source/wali/xfa/convert_xfa.cpp:162-171 | every 32-bit value survives writing and lexical_cast |
| Xfa.VarName | AddOns/Xfa/Source/wali/xfa/convert_xfa.cpp:162-171 | the name is the prefix, then "var", then text that reads back as id |
| Xfa.VarNameInjective | AddOns/Xfa/Source/wali/xfa/convert_xfa.cpp:162-171 | different ids give different names under one prefix |
| Xfa.DisjointSetsToVarOrder | AddOns/Xfa/Source/wali/xfa/convert_xfa.cpp:175-189 | one map per set, in order, sending exactly that set's members to fddSize |
| Xfa.Merge | AddOns/Xfa/Source/wali/xfa/convert_xfa.cpp:218-229 | the merged class holds the classes of both names |
| Xfa.MergeKeepsPartition | AddOns/Xfa/Source/wali/xfa/convert_xfa.cpp:218-229 | merging keeps a partition, puts both names in one class, and adds exactly those names to the elements |
| Xfa.MergeOf | AddOns/Xfa/Source/wali/xfa/convert_xfa.cpp:205-229 | fire, alert and reject actions merge nothing; any other action that is not ctr2 or has no command is Invalid; a ctr2 command other than testnectr2 merges nothing; a testnectr2 that is not well-formed is Invalid, one whose argument does not cast is BadCast, and otherwise it merges the operand's variable name with the variable name of the cast argument |
| Xfa.MergeJoins | AddOns/Xfa/Source/wali/xfa/convert_xfa.cpp:228 | after a merge both names share a class, and names that shared a class still do |
| Xfa.MergeAllKeepsTogether | AddOns/Xfa/Source/wali/xfa/convert_xfa.cpp:201-231 | later actions never separate two names that share a class |
| Xfa.MergeAllJoins | AddOns/Xfa/Source/wali/xfa/convert_xfa.cpp:201-231 | when every action succeeds, the two names of each testnectr2 merge end up in one class |
| Xfa.VarOrderJoins | AddOns/Xfa/Source/wali/xfa/convert_xfa.cpp:175-189 | two names in one class of the partition are sent together by one map of the variable order |
| Xfa.GetVarsJoins | AddOns/Xfa/Source/wali/xfa/convert_xfa.cpp:201-248 | the variable order built from the merged classes, with any last map appended, keeps the two names of every testnectr2 merge in one map |
| Xfa.MergeAllKeepsPartition | AddOns/Xfa/Source/wali/xfa/convert_xfa.cpp:201-231 | processing every action keeps the classes a partition |
| Xfa.GetVars | AddOns/Xfa/Source/wali/xfa/convert_xfa.cpp:192-248 | propagates the first failure; otherwise one map per merged class, each class exactly once, then the current-state variable sized 2 * number of states; the two names of every testnectr2 merge of the automaton's actions share one map |
| Xfa.GetRelation | AddOns/Xfa/Source/wali/xfa/convert_xfa.cpp:250-310 | aborts exactly on fire and alert; no command is Invalid; read gives initialise-to-0, times two and increment of the operand's variable; reset with one argument that casts gives initialise to that value, otherwise BadCast or Invalid; incr gives increment; a well-formed testnectr2 whose argument casts gives assume_equality of the operand's and the argument's variables, otherwise BadCast or Invalid; any other command is Invalid |
| Xfa.SingleEdges | AddOns/Xfa/Source/wali/xfa/convert_xfa.cpp:328-349 | one source-to-dest transition per symbol, in order, with "epsilon" read as EPSILON |
| Xfa.ReadBlock | AddOns/Xfa/Source/wali/xfa/convert_xfa.cpp:351-381 | four transitions: source to mid on __startbits with init, mid to dest on bit0 with one and on bit1 with plus one, dest to mid on epsilon with times two |
| Xfa.ReadEdges | AddOns/Xfa/Source/wali/xfa/convert_xfa.cpp:351-381 | the gadgets of all symbols, four transitions per symbol, in order |
| Xfa.Transitions | AddOns/Xfa/Source/wali/xfa/convert_xfa.cpp:313-385 | a single relation gives one transition per symbol; a read gives exactly `ReadEdges`, four per symbol, or fails with Invalid on an epsilon symbol; a failure is passed on |
| Xfa.ReadGivesGadgets | AddOns/Xfa/Source/wali/xfa/convert_xfa.cpp:351-381 | for the i-th symbol sym of a read without epsilon symbols, the transitions 4i to 4i+3 are source to source__sym on `__startbits` with initialise-to-0, source__sym to dest on `sym__bit_is_0` with one and on `sym__bit_is_1` with increment, and dest to source__sym on EPSILON with times two |
| Xfa.GetTransitions | AddOns/Xfa/Source/wali/xfa/convert_xfa.cpp:313-385 | the loops build exactly `Transitions` |
| Xfa.InsertAllHas | AddOns/Xfa/Source/wali/xfa/convert_xfa.cpp:404-409 | after adding a list of transitions, a triple is stored exactly when it was before or some listed transition has it |
| Xfa.EndpointsHas | AddOns/Xfa/Source/wali/xfa/convert_xfa.cpp:404-409 | the states added with the transitions are exactly their sources and targets |
| Xfa.StateKeysHas | AddOns/Xfa/Source/wali/xfa/convert_xfa.cpp:399-402 | the parsed states' keys are exactly the interned names of the parsed states |
| Xfa.AddParsedStates | AddOns/Xfa/Source/wali/xfa/convert_xfa.cpp:399-402 | afterwards the states are exactly the parsed states, each with weight zero |
| Xfa.AddTransitions | AddOns/Xfa/Source/wali/xfa/convert_xfa.cpp:406-408 | the store becomes the fold of `Insert` over the list, and the endpoints join the states with the domain's zero |
| Xfa.AddAstTransition | AddOns/Xfa/Source/wali/xfa/convert_xfa.cpp:404-409 | one parsed transition: its failure is returned, or all its transitions are added in order |
| Xfa.AddAstTransitions | AddOns/Xfa/Source/wali/xfa/convert_xfa.cpp:404-409 | the first failing transition's failure is returned; otherwise every produced transition is added in order |
| Xfa.FromParserAst | AddOns/Xfa/Source/wali/xfa/convert_xfa.cpp:388-414 | fails exactly when some parsed transition does, with the first failure; otherwise builds a fresh automaton with query INORDER, no final states, the start state as initial state, the fold of `Insert` over all produced transitions, and the parsed states (weight zero) plus the endpoints as states |
| Xfa.BddAssumeEquality | AddOns/Xfa/Source/wali/xfa/convert_xfa.cpp:100-114 | the identity restricted to the pairs where the two variables are equal |
| Selectors.CallTransition | Source/wali/nwa/query/details/test_selectors.cpp:25 | a call transition selects itself |
| Selectors.InternalTransition | Source/wali/nwa/query/details/test_selectors.cpp:26 | an internal transition selects itself |
| Selectors.ReturnTransition | Source/wali/nwa/query/details/test_selectors.cpp:27 | a return transition selects itself |
| Selectors.Source | Source/wali/nwa/query/details/test_selectors.cpp:30-32 | the source is the first component of every kind of transition |
| Selectors.Symbol | Source/wali/nwa/query/details/test_selectors.cpp:34-36 | the symbol is the second component of a call or internal, the third of a return |
| Selectors.Target | Source/wali/nwa/query/details/test_selectors.cpp:38-40 | the target is the last component of every kind of transition |
| Selectors.CallPredecessor | Source/wali/nwa/query/details/test_selectors.cpp:42 | the call predecessor is the second component of a return |
| Selectors.PairSelect | Source/wali/nwa/query/details/test_selectors.cpp:45-49 | the pair of what the two selectors select |
| Selectors.SelectorsDetermine | Source/wali/nwa/query/details/test_selectors.cpp:30-42 | a transition is rebuilt from its kind and its source, call predecessor, symbol and target, so the ground selectors lose nothing |
| Selectors.SelectorExamples | Source/wali/nwa/query/details/test_selectors.cpp:20-49 | the selector values on (1, 2, 3), (10, 20, 30) and (100, 500, 200, 300) |

## Left out

- WFA.cpp is not part of this model. The WFA operations follow the
  contracts in WFA.hpp's comments.
- Wfa.WFA.PathSummary: a `fuel` bound on the number of worklist pops
  stands in for the library's unbounded loop. Convergence is stated as a
  result, not proved for every domain, because termination depends on the
  domain having no infinite ascending chains.
- Wfa.WFA.PathSummary: the worklist pop order is free (any member may be
  popped). The library's Worklist policies are not modelled, and the proof
  holds for every order.
- Wfa.WFA.Prune: removes transitions only, because the header promises
  nothing about states.
- Wfa.WFA.EraseState: also removes q from the final states. WFA.cpp is
  not part of this model, so which choice the library makes cannot be
  checked.
- Wfa.WFA.Clear: also drops the states and final states. The header says
  only "remove all transitions".
- Wfa.WFA.Intersect: treats the epsilon symbol like any other symbol. It
  pairs the initial and final states through an injective key-pair
  function, in place of the key factory.
- The WFA's `print`, `print_dot`, `marshall`, `for_each`, `TarjanBasicRegex`
  and `getSomeWeight` are outside the modelled core.
- Witnesses.WitnessCombine.Combine: a plain witness is modelled by its
  weight only. An argument that is not a Witness at all is excluded by the
  type, in place of the library's `assert(0)`.
- Witnesses.WitnessCombine.Combine: uses the corrected child list of the
  first Findings row, as the rest of the model does.
  `Witnesses.WitnessCombine.CombineAsWritten` is the library's child list.
- Rules.MarshallElements, Rules.Marshall, Rules.PrintAsWritten and
  Rules.Print require a well-formed rule: no second pushed symbol without
  a first. This stands for the sanity assertion at Rule.cpp:98 and :121.
  `Rules.MarshallRule`, `Rules.PrintRuleAsWritten` and `Rules.PrintRule`
  take any rule and fail exactly where that assertion does. A build
  without assertions, which would go on printing, is not modelled.
- Witnesses.WitnessCombine.Children: stated without a contract, as the
  plain accessor of `kids`.
- The `std::cerr` trace in `add_child` and in the Rule constructor and
  destructor is not modelled. Nor are `pretty_print`, the ref counting of
  `ref_ptr` and `Countable`, and object deletion.
- BinRel: the BuDDy encoding (`fdd_extdomain`, the `base`, `downOne` and
  `restore` pairings, `bdd_relprod`, `bdd_replace`) is replaced by sets of
  pairs. A failing `fdd_extdomain` (`throw base`) is therefore not modelled.
- BinRel.Context.SubVar: uses exactly the targets in [0, NUMVARS) other
  than v. In BuDDy the complement of v also admits bit patterns beyond
  NUMVARS when the domain size is not a power of two.
- BinRel.Context.Id: the static in `Id` and the static in `cached_id` are
  one cache. An identity first built before `initialize` stays empty,
  which the model keeps.
- BinRel's `print` and the `ProgramBddContext` arithmetic of
  BddRelationMaker (`Assign`, `Plus`, `Const`, `fdd_equals`) are left out.
  `RelationMaker` is an abstract record of weight constructors.
- Xfa.BddAssumeEquality: the counter-kill code after the `return` is dead
  and not modelled. The equality relation is a parameter, because
  `fdd_equals` is left out.
- ast.hpp, Xfa.hpp and DisjointSets.hpp are not part of this model. Their
  roles are taken as follows:
  - the AST is a datatype;
  - an Xfa is a WFA built with the default query mode;
  - DisjointSets is a partition of names that merges by class union.
- Xfa.GetVars: visits the classes in any order, since DisjointSets' order is
  not visible.
- Xfa.GetVars: the `registered` set, which only feeds diagnostics, is not
  modelled.
- Xfa.GetVars: 2 * |states| is an unbounded integer, so an `int` overflow
  of the library is not modelled.
- Key interning (`getState`, `getSymbol`, KeyFactory) is an `Interner`
  parameter of functions from names to keys.
- ReadTransitionException is modelled as the `Read` case of `Relation`,
  not as an exception.
- `from_parser_ast`'s `fdd_size` argument is unused by the code and is not
  a parameter.
- AddOns/RandomNwa/Source/main.cpp (option parsing, random sampling,
  floating-point densities) is not modelled.
- Tests/nwa/Source/fixtures.hpp (test scaffolding for NWA acceptance) is not
  modelled.
- wali/wpds/ewpds/ERule.hpp (declarations without bodies) is not modelled.
- Source/wali/nwa/ClientInfo.hpp (an abstract clone placeholder) is not
  modelled.

## Findings

| source | as written | input that shows it | evidently intended | confidence | as-written member | corrected member |
|---|---|---|---|---|---|---|
| wali/WitnessCombine.cpp:74-85 | when `that` is a plain witness whose weight the receiver already contains, the new node gets `that` as its only child | a node of weight a with the single child a, combined with a plain witness of weight b != a where a + b == a: the new node has weight a but one child of weight b | keep the receiver's children, which already combine to the new weight | not executed | Witnesses.AsWrittenBreaksInvariant | Witnesses.CombineKeepsInvariant |
| wali/wpds/Rule.cpp:77-103 | `print` calls `key2str` on every key but never writes the result to the stream | two rules that differ only in their from-state print identically | write each key's text between the separators | not executed | Rules.PrintIgnoresKeys | Rules.PrintShowsFromState |
