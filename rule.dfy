/**
 * A pushdown rule <from_state, from_stack> -> <to_state, to_stack1 to_stack2>
 * with a weight. Missing pushed symbols are written as EPSILON: a pop rule
 * pushes nothing, a step rule pushes to_stack1, a push rule pushes both.
 * Rules are counted while they are alive, can be reweighted, and can be
 * written out as XML (marshall) or as text (print).
 */
module Rules {
  import opened Keys
  import opened Wrappers

  /** A pushdown configuration: a state and a stack symbol. */
  datatype Config = Config(state: Key, stack: Key)

  /** The number of live rules (the library's numRules). */
  class RuleCounter {
    var numRules: int

    constructor ()
      ensures numRules == 0
    {
      numRules := 0;
    }
  }

  /** A snapshot of a rule's fields, which marshall and print read. */
  datatype RuleData<W> = RuleData(from: Config, to: Config, stk2: Key, weight: W) {
    /** A rule pushes a second symbol only if it pushes a first one. */
    predicate WellFormed() {
      to.stack == EPSILON ==> stk2 == EPSILON
    }
  }

  class Rule<W> {
    const f: Config
    const t: Config
    const stk2: Key
    var se: W

    /** A new rule; the live-rule count goes up by one. */
    constructor (counter: RuleCounter, f: Config, t: Config, stk2: Key, se: W)
      modifies counter
      ensures counter.numRules == old(counter.numRules) + 1
      ensures this.f == f && this.t == t && this.stk2 == stk2 && this.se == se
      ensures FromState() == f.state && FromStack() == f.stack
      ensures ToState() == t.state && ToStack1() == t.stack && ToStack2() == stk2
    {
      this.f := f;
      this.t := t;
      this.stk2 := stk2;
      this.se := se;
      counter.numRules := counter.numRules + 1;
    }

    /** The rule's end of life; the live-rule count goes down by one. */
    method Destroy(counter: RuleCounter)
      modifies counter
      ensures counter.numRules == old(counter.numRules) - 1
    {
      counter.numRules := counter.numRules - 1;
    }

    function From(): Config { f }
    function FromState(): Key { From().state }
    function FromStack(): Key { From().stack }
    function To(): Config { t }
    function ToState(): Key { To().state }
    function ToStack1(): Key { To().stack }
    function ToStack2(): Key { stk2 }

    function Weight(): W
      reads this
    {
      se
    }

    /** Replace the weight; nothing else about the rule changes. */
    method SetWeight(w: W)
      modifies this`se
      ensures Weight() == w
    {
      se := w;
    }

    function View(): (r: RuleData<W>)
      reads this
      ensures r.from.state == FromState() && r.from.stack == FromStack()
      ensures r.to.state == ToState() && r.to.stack == ToStack1() && r.stk2 == ToStack2()
      ensures r.weight == Weight()
    {
      RuleData(f, t, stk2, se)
    }
  }

  /** One XML element <tag>text</tag>. */
  datatype Element = Element(tag: string, text: string)

  function Tags(es: seq<Element>): (r: seq<string>)
    ensures |r| == |es| && forall i :: 0 <= i < |es| ==> r[i] == es[i].tag
  {
    if |es| == 0 then [] else [es[0].tag] + Tags(es[1..])
  }

  /**
   * The elements marshall writes, in order. The pushed symbols appear only
   * when they are not EPSILON; keyStr and wStr are the key and weight
   * printers.
   */
  function MarshallElements<W>(r: RuleData<W>, keyStr: Key -> string, wStr: W -> string): (es: seq<Element>)
    requires r.WellFormed()
    ensures Tags(es) == ["fromstate", "fromstack", "tostate"]
                    + (if r.to.stack != EPSILON then ["tostack1"] else [])
                    + (if r.to.stack != EPSILON && r.stk2 != EPSILON then ["tostack2"] else [])
                    + ["weight"]
    ensures es[0].text == keyStr(r.from.state) && es[1].text == keyStr(r.from.stack)
    ensures es[2].text == keyStr(r.to.state) && es[|es| - 1].text == wStr(r.weight)
  {
    var stacks := StackElements(r, keyStr);
    [Element("fromstate", keyStr(r.from.state)),
     Element("fromstack", keyStr(r.from.stack)),
     Element("tostate", keyStr(r.to.state))]
    + stacks
    + [Element("weight", wStr(r.weight))]
  }

  /** The XML text of a list of elements, inside <rule> ... </rule>. */
  function Render(es: seq<Element>): string {
    "<rule>\n" + RenderBody(es) + "</rule>"
  }

  /** One line of the XML: a tab, <tag>text</tag>, a newline. */
  function Line(tag: string, text: string): string {
    "\t<" + tag + ">" + text + "</" + tag + ">\n"
  }

  function RenderBody(es: seq<Element>): string {
    if |es| == 0 then "" else Line(es[0].tag, es[0].text) + RenderBody(es[1..])
  }

  /** Rendering a concatenation is concatenating the renderings. */
  lemma {:induction false} RenderBodyAppend(a: seq<Element>, b: seq<Element>)
    ensures RenderBody(a + b) == RenderBody(a) + RenderBody(b)
    decreases |a|
  {
    if |a| > 0 {
      assert (a + b)[1..] == a[1..] + b;
      RenderBodyAppend(a[1..], b);
    } else {
      assert a + b == b;
    }
  }

  /** marshall: the rule as XML. */
  function Marshall<W>(r: RuleData<W>, keyStr: Key -> string, wStr: W -> string): (m: string)
    requires r.WellFormed()
    ensures |m| >= 14 && m[..7] == "<rule>\n" && m[|m| - 7..] == "</rule>"
  {
    Render(MarshallElements(r, keyStr, wStr))
  }

  /** The text of one element followed by the text of the rest. */
  lemma RenderCons(e: Element, es: seq<Element>)
    ensures RenderBody([e] + es) == Line(e.tag, e.text) + RenderBody(es)
  {
    assert ([e] + es)[1..] == es;
  }

  /**
   * The exact text marshall writes: <rule>, one line each for the from-state,
   * from-stack and to-state, a line for each pushed symbol present, the
   * weight line, and </rule>.
   */
  lemma MarshallText<W>(r: RuleData<W>, keyStr: Key -> string, wStr: W -> string)
    requires r.WellFormed()
    ensures Marshall(r, keyStr, wStr)
            == "<rule>\n"
               + (Line("fromstate", keyStr(r.from.state))
                  + (Line("fromstack", keyStr(r.from.stack))
                  + (Line("tostate", keyStr(r.to.state))
                  + (StackLines(r, keyStr)
                  + Line("weight", wStr(r.weight))))))
               + "</rule>"
  {
    MarshallBody(r, keyStr, wStr);
  }

  /** The lines between <rule> and </rule>. */
  lemma MarshallBody<W>(r: RuleData<W>, keyStr: Key -> string, wStr: W -> string)
    requires r.WellFormed()
    ensures RenderBody(MarshallElements(r, keyStr, wStr))
            == Line("fromstate", keyStr(r.from.state))
               + (Line("fromstack", keyStr(r.from.stack))
               + (Line("tostate", keyStr(r.to.state))
               + (StackLines(r, keyStr)
               + Line("weight", wStr(r.weight)))))
  {
    var e0 := Element("fromstate", keyStr(r.from.state));
    var e1 := Element("fromstack", keyStr(r.from.stack));
    var e2 := Element("tostate", keyStr(r.to.state));
    var ew := Element("weight", wStr(r.weight));
    var stacks := StackElements(r, keyStr);
    var tail := stacks + [ew];
    assert MarshallElements(r, keyStr, wStr) == [e0] + ([e1] + ([e2] + tail));
    RenderCons(e0, [e1] + ([e2] + tail));
    RenderCons(e1, [e2] + tail);
    RenderCons(e2, tail);
    RenderBodyAppend(stacks, [ew]);
    RenderCons(ew, []);
    assert RenderBody([ew]) == Line(ew.tag, ew.text);
    StackLinesRender(r, keyStr);
  }

  /** The elements of the pushed symbols that are present. */
  function StackElements<W>(r: RuleData<W>, keyStr: Key -> string): seq<Element> {
    if r.to.stack == EPSILON then []
    else [Element("tostack1", keyStr(r.to.stack))]
         + (if r.stk2 != EPSILON then [Element("tostack2", keyStr(r.stk2))] else [])
  }

  /** The lines of the pushed symbols that are present. */
  function StackLines<W>(r: RuleData<W>, keyStr: Key -> string): string {
    if r.to.stack == EPSILON then ""
    else Line("tostack1", keyStr(r.to.stack))
         + (if r.stk2 != EPSILON then Line("tostack2", keyStr(r.stk2)) else "")
  }

  /** The pushed-symbol elements render as exactly the pushed-symbol lines. */
  lemma StackLinesRender<W>(r: RuleData<W>, keyStr: Key -> string)
    ensures RenderBody(StackElements(r, keyStr)) == StackLines(r, keyStr)
  {
    if r.to.stack != EPSILON {
      var t1 := Element("tostack1", keyStr(r.to.stack));
      if r.stk2 != EPSILON {
        var t2 := Element("tostack2", keyStr(r.stk2));
        RenderCons(t1, [t2]);
        RenderCons(t2, []);
        assert Line(t2.tag, t2.text) + "" == Line(t2.tag, t2.text);
      } else {
        RenderCons(t1, []);
        assert Line(t1.tag, t1.text) + "" == Line(t1.tag, t1.text);
      }
    }
  }

  /**
   * marshall of any rule: None where its sanity assertion fails (no first
   * pushed symbol but a second one), else the XML text.
   */
  function MarshallRule<W>(r: RuleData<W>, keyStr: Key -> string, wStr: W -> string): (m: Option<string>)
    ensures m.None? <==> r.to.stack == EPSILON && r.stk2 != EPSILON
    ensures m.Some? ==> r.WellFormed() && m.value == Marshall(r, keyStr, wStr)
  {
    if r.WellFormed() then Some(Marshall(r, keyStr, wStr)) else None
  }

  /** <tostack1> is written exactly when the rule pushes a first symbol. */
  lemma MarshallStack1<W>(r: RuleData<W>, keyStr: Key -> string, wStr: W -> string)
    requires r.WellFormed()
    ensures "tostack1" in Tags(MarshallElements(r, keyStr, wStr)) <==> r.to.stack != EPSILON
  {
    var ts := Tags(MarshallElements(r, keyStr, wStr));
    if r.to.stack == EPSILON {
      assert ts == ["fromstate", "fromstack", "tostate", "weight"];
    }
  }

  /** <tostack2> is written exactly when the rule pushes two symbols. */
  lemma MarshallStack2<W>(r: RuleData<W>, keyStr: Key -> string, wStr: W -> string)
    requires r.WellFormed()
    ensures "tostack2" in Tags(MarshallElements(r, keyStr, wStr)) <==> r.to.stack != EPSILON && r.stk2 != EPSILON
  {
    var ts := Tags(MarshallElements(r, keyStr, wStr));
    if r.to.stack == EPSILON {
      assert ts == ["fromstate", "fromstack", "tostate", "weight"];
    } else if r.stk2 == EPSILON {
      assert ts == ["fromstate", "fromstack", "tostate", "tostack1", "weight"];
    }
  }

  /**
   * Reading a marshalled element list back, given inverses of the key and
   * weight printers: the absent stack elements stand for EPSILON.
   */
  function Unmarshall<W>(es: seq<Element>, keyOf: string -> Key, wOf: string -> W): Option<RuleData<W>> {
    if |es| < 4 || es[0].tag != "fromstate" || es[1].tag != "fromstack" || es[2].tag != "tostate"
       || es[|es| - 1].tag != "weight" then None
    else
      var from := Config(keyOf(es[0].text), keyOf(es[1].text));
      var w := wOf(es[|es| - 1].text);
      var mid := es[3..|es| - 1];
      if |mid| == 0 then Some(RuleData(from, Config(keyOf(es[2].text), EPSILON), EPSILON, w))
      else if |mid| == 1 && mid[0].tag == "tostack1" then
        Some(RuleData(from, Config(keyOf(es[2].text), keyOf(mid[0].text)), EPSILON, w))
      else if |mid| == 2 && mid[0].tag == "tostack1" && mid[1].tag == "tostack2" then
        Some(RuleData(from, Config(keyOf(es[2].text), keyOf(mid[0].text)), keyOf(mid[1].text), w))
      else None
  }

  /** marshall loses nothing: every well-formed rule is read back as itself. */
  lemma MarshallRoundTrip<W>(r: RuleData<W>, keyStr: Key -> string, keyOf: string -> Key,
                             wStr: W -> string, wOf: string -> W)
    requires r.WellFormed()
    requires forall k :: keyOf(keyStr(k)) == k
    requires forall w :: wOf(wStr(w)) == w
    ensures Unmarshall(MarshallElements(r, keyStr, wStr), keyOf, wOf) == Some(r)
  {
    var es := MarshallElements(r, keyStr, wStr);
    assert Tags(es)[0] == es[0].tag && Tags(es)[|es| - 1] == es[|es| - 1].tag;
    if r.to.stack != EPSILON {
      assert es[3].tag == Tags(es)[3];
      if r.stk2 != EPSILON {
        assert es[4].tag == Tags(es)[4];
      }
    }
  }

  /**
   * print as written: the separators and the weight, with every key2str
   * result dropped, so no key appears.
   */
  function PrintAsWritten<W>(r: RuleData<W>, wStr: W -> string): (p: string)
    requires r.WellFormed()
    ensures |p| > |wStr(r.weight)| && p[|p| - |wStr(r.weight)| - 1..] == "\t" + wStr(r.weight)
    ensures p[..|p| - |wStr(r.weight)| - 1]
            == if r.to.stack != EPSILON && r.stk2 != EPSILON then "<, > -> <,  >" else "<, > -> <, >"
  {
    "<" + ", " + "> -> <" + ", "
    + (if r.to.stack != EPSILON && r.stk2 != EPSILON then " " else "")
    + ">" + "\t" + wStr(r.weight)
  }

  /**
   * print as evidently intended: <from_state, from_stack> -> <to_state,
   * pushed symbols> followed by a tab and the weight.
   */
  function Print<W>(r: RuleData<W>, keyStr: Key -> string, wStr: W -> string): (p: string)
    requires r.WellFormed()
    ensures |p| > |keyStr(r.from.state)| && p[..1 + |keyStr(r.from.state)|] == "<" + keyStr(r.from.state)
    ensures |p| > |wStr(r.weight)| && p[|p| - |wStr(r.weight)| - 1..] == "\t" + wStr(r.weight)
  {
    "<" + keyStr(r.from.state) + PrintTail(r, keyStr, wStr)
  }

  /** print as written, of any rule: None where its sanity assertion fails. */
  function PrintRuleAsWritten<W>(r: RuleData<W>, wStr: W -> string): (p: Option<string>)
    ensures p.None? <==> r.to.stack == EPSILON && r.stk2 != EPSILON
    ensures p.Some? ==> r.WellFormed() && p.value == PrintAsWritten(r, wStr)
  {
    if r.WellFormed() then Some(PrintAsWritten(r, wStr)) else None
  }

  /** The intended print, of any rule: None where its sanity assertion fails. */
  function PrintRule<W>(r: RuleData<W>, keyStr: Key -> string, wStr: W -> string): (p: Option<string>)
    ensures p.None? <==> r.to.stack == EPSILON && r.stk2 != EPSILON
    ensures p.Some? ==> r.WellFormed() && p.value == Print(r, keyStr, wStr)
  {
    if r.WellFormed() then Some(Print(r, keyStr, wStr)) else None
  }

  /** What print writes after the from-state. */
  function PrintTail<W>(r: RuleData<W>, keyStr: Key -> string, wStr: W -> string): string
    requires r.WellFormed()
  {
    ", " + keyStr(r.from.stack) + "> -> <" + keyStr(r.to.state) + ", "
    + (if r.to.stack == EPSILON then ""
       else keyStr(r.to.stack) + (if r.stk2 != EPSILON then " " + keyStr(r.stk2) else ""))
    + ">" + "\t" + wStr(r.weight)
  }

  /**
   * print as written cannot tell rules apart by their keys: two rules with
   * the same EPSILON pattern and the same weight text print identically.
   */
  lemma PrintIgnoresKeys<W>(r1: RuleData<W>, r2: RuleData<W>, wStr: W -> string)
    requires r1.WellFormed() && r2.WellFormed()
    requires (r1.to.stack == EPSILON) == (r2.to.stack == EPSILON)
    requires (r1.stk2 == EPSILON) == (r2.stk2 == EPSILON)
    requires wStr(r1.weight) == wStr(r2.weight)
    ensures PrintAsWritten(r1, wStr) == PrintAsWritten(r2, wStr)
  {
  }

  /**
   * The intended print shows the from-state: rules that differ only there,
   * with different key texts, print differently.
   */
  lemma PrintShowsFromState<W>(r1: RuleData<W>, r2: RuleData<W>, keyStr: Key -> string, wStr: W -> string)
    requires r1.WellFormed() && r2.WellFormed()
    requires r2 == r1.(from := r2.from) && r2.from.stack == r1.from.stack
    requires keyStr(r1.from.state) != keyStr(r2.from.state)
    ensures Print(r1, keyStr, wStr) != Print(r2, keyStr, wStr)
  {
    var k1, k2 := keyStr(r1.from.state), keyStr(r2.from.state);
    var rest := PrintTail(r1, keyStr, wStr);
    assert PrintTail(r2, keyStr, wStr) == rest;
    if |k1| == |k2| {
      assert ("<" + k1 + rest)[1..1 + |k1|] == k1;
      assert ("<" + k2 + rest)[1..1 + |k2|] == k2;
    } else {
      assert |"<" + k1 + rest| != |"<" + k2 + rest|;
    }
  }
}
