/** Wikitext as a tree of texts, links and nested templates, and the scanner's answer on its printed form. */
module WikiTrees {
  import opened Texts
  import opened Templates
  import opened Rendering

  datatype Node =
    | Text(text: string)
    | Link(target: Nodes)
    | Template(name: Nodes, params: Params)

  datatype Nodes = NoNodes | Cons(head: Node, tail: Nodes)

  datatype Params = NoParams | Param(value: Nodes, more: Params)

  // ----- printing -----

  function PrintNode(n: Node): string {
    match n
    case Text(text) => text
    case Link(target) => "[[" + Print(target) + "]]"
    case Template(name, params) => "{{" + (Print(name) + PrintParams(params)) + "}}"
  }

  function Print(ns: Nodes): string {
    match ns
    case NoNodes => ""
    case Cons(head, tail) => PrintNode(head) + Print(tail)
  }

  function PrintParams(ps: Params): string {
    match ps
    case NoParams => ""
    case Param(value, more) => "|" + Print(value) + PrintParams(more)
  }

  function Body(name: Nodes, params: Params): string {
    Print(name) + PrintParams(params)
  }

  // ----- what it means -----

  /** A parameter that is a presentation hint: text alone, with an equals sign in it. */
  predicate Hint(ns: Nodes) { Plain(ns) && HasEquals(ns) }

  predicate Plain(ns: Nodes) { ns.Cons? ==> ns.head.Text? && Plain(ns.tail) }

  predicate HasEquals(ns: Nodes) { ns.Cons? && ((ns.head.Text? && '=' in ns.head.text) || HasEquals(ns.tail)) }

  /** The text of a tree: templates say what they say of the texts of their parameters. */
  function MeaningOf(ch: Chars, n: Node): string {
    match n
    case Text(text) => text
    case Link(target) => "[[" + Meaning(ch, target) + "]]"
    case Template(name, params) => Form(ch.lower(TrimSpace(Print(name), ch.space)), Values(ch, params))
  }

  function Meaning(ch: Chars, ns: Nodes): string {
    match ns
    case NoNodes => ""
    case Cons(head, tail) => MeaningOf(ch, head) + Meaning(ch, tail)
  }

  function Values(ch: Chars, ps: Params): seq<string> {
    match ps
    case NoParams => []
    case Param(value, more) =>
      if Hint(value) then Values(ch, more) else [TrimSpace(Meaning(ch, value), ch.space)] + Values(ch, more)
  }

  // ----- well-formedness: no markup hides in the texts -----

  predicate Marks(c: char) { c in {'{', '}', '[', ']'} }

  /** A text and what is printed after it make a doubled mark between them. */
  predicate Joins(s: string, after: string) {
    s != "" && after != "" && Marks(after[0]) && s[|s| - 1] == after[0]
  }

  /** Text with no doubled brace or bracket in it, or made by it and what comes after. */
  predicate Inert(s: string, after: string) {
    && (forall i :: 0 <= i < |s| ==> !StartsWith(s, i, '{') && !StartsWith(s, i, '}') && !StartsWith(s, i, '[') && !StartsWith(s, i, ']'))
    && !Joins(s, after)
  }

  predicate GoodNode(n: Node, inParam: bool, after: string) {
    match n
    case Text(text) => Inert(text, after) && (inParam ==> '|' !in text)
    case Link(target) => Good(target, false, "]]")
    case Template(name, params) => Good(name, true, PrintParams(params) + "}}") && GoodParams(params)
  }

  /** Well-formed, with `after` printed after it. */
  predicate Good(ns: Nodes, inParam: bool, after: string) {
    ns.Cons? ==> GoodNode(ns.head, inParam, Print(ns.tail) + after) && Good(ns.tail, inParam, after)
  }

  predicate GoodParams(ps: Params) {
    ps.Param? ==> Good(ps.value, true, PrintParams(ps.more) + "}}") && GoodParams(ps.more)
  }

  /** Only what comes next matters: more can be printed after it, */
  lemma {:induction false} GoodFurther(ns: Nodes, inParam: bool, after: string, more: string)
    requires Good(ns, inParam, after) && after != ""
    ensures Good(ns, inParam, after + more)
  {
    if ns.Cons? {
      Reassociate(Print(ns.tail), after, more);
      GoodFurther(ns.tail, inParam, after, more);
    }
  }

  /** ... or nothing. */
  lemma {:induction false} GoodAlone(ns: Nodes, inParam: bool, after: string)
    requires Good(ns, inParam, after)
    ensures Good(ns, inParam, "")
  {
    if ns.Cons? {
      assert Print(ns.tail) + "" == Print(ns.tail);
      GoodAlone(ns.tail, inParam, after);
    }
  }

  /** What is good in a parameter is good outside one. */
  lemma {:induction false} GoodAnyway(ns: Nodes, after: string)
    requires Good(ns, true, after)
    ensures Good(ns, false, after)
  {
    if ns.Cons? { GoodAnyway(ns.tail, after); }
  }

  /** The pieces of a template are good where they are printed. */
  lemma NameIsGood(name: Nodes, params: Params, rest: string)
    requires Good(name, true, PrintParams(params) + "}}")
    ensures Good(name, true, PrintParams(params) + ("}}" + rest)) && Good(name, false, PrintParams(params) + ("}}" + rest))
  {
    Reassociate(PrintParams(params), "}}", rest);
    GoodFurther(name, true, PrintParams(params) + "}}", rest);
    GoodAnyway(name, PrintParams(params) + ("}}" + rest));
  }

  // ----- the scan passes over what it is inside of -----

  lemma Reassociate(a: string, b: string, c: string)
    ensures a + (b + c) == (a + b) + c
  {
  }

  lemma Bracketed(o: string, a: string, b: string, c: string, rest: string)
    ensures (o + (a + b) + c) + rest == o + (a + (b + (c + rest)))
  {
  }

  lemma EmptyFirst(a: string)
    ensures "" + a == a
  {
  }

  lemma Gathered(body: string, o: string, a: string, b: string, c: string)
    ensures (((body + o) + a) + b) + c == body + (o + (a + b) + c)
  {
  }

  /** Text with no doubled braces in it, or made by it and what comes after. */
  predicate Calm(s: string, after: string) {
    && (forall i :: 0 <= i < |s| ==> !StartsWith(s, i, '{') && !StartsWith(s, i, '}'))
    && (s != "" && after != "" && s[|s| - 1] == after[0] ==> after[0] != '{' && after[0] != '}')
  }

  lemma CalmTail(s: string, after: string)
    requires Calm(s, after) && s != ""
    ensures Calm(s[1..], after)
    ensures !StartsWith(s + after, 0, '{') && !StartsWith(s + after, 0, '}')
  {
    assert !StartsWith(s, 0, '{') && !StartsWith(s, 0, '}');
    forall i | 0 <= i < |s| - 1 ensures !StartsWith(s[1..], i, '{') && !StartsWith(s[1..], i, '}') {
      assert !StartsWith(s, i + 1, '{') && !StartsWith(s, i + 1, '}');
    }
  }

  /** A link's target is good where it is printed. */
  lemma TargetIsGood(target: Nodes, rest: string)
    requires Good(target, false, "]]")
    ensures Good(target, false, "]]" + rest)
    ensures Calm("[[", Print(target) + ("]]" + rest)) && Calm("]]", rest)
  {
    GoodFurther(target, false, "]]", rest);
  }

  lemma Linked(target: string, rest: string)
    ensures ("[[" + target + "]]") + rest == "[[" + (target + ("]]" + rest))
  {
  }

  lemma LinkGathered(part: string, target: string)
    ensures part + "[[" + target + "]]" == part + ("[[" + target + "]]")
  {
  }

  /** Reading calm text inside a template adds it to the body. */
  lemma {:induction false} ScanText(ch: Chars, text: string, rest: string, depth: nat, body: string)
    requires Calm(text, rest) && depth > 0
    ensures Scan(ch, text + rest, depth, body) == Scan(ch, rest, depth, body + text)
    decreases |text|
  {
    if text == "" {
      assert text + rest == rest && body + text == body;
    } else {
      var s := text + rest;
      CalmTail(text, rest);
      assert s[1..] == text[1..] + rest && s[..1] == text[..1];
      ScanText(ch, text[1..], rest, depth, body + text[..1]);
      assert body + text[..1] + text[1..] == body + text;
    }
  }

  /** ... and outside every template it is copied. */
  lemma {:induction false} CopyText(ch: Chars, text: string, rest: string)
    requires Calm(text, rest)
    ensures Scan(ch, text + rest, 0, "") == text + Scan(ch, rest, 0, "")
    decreases |text|
  {
    if text == "" {
      assert text + rest == rest;
    } else {
      var s := text + rest;
      CalmTail(text, rest);
      assert s[1..] == text[1..] + rest && s[..1] == text[..1];
      CopyText(ch, text[1..], rest);
      assert text[..1] + (text[1..] + Scan(ch, rest, 0, "")) == text + Scan(ch, rest, 0, "");
    }
  }

  lemma ScanOpen(ch: Chars, rest: string, depth: nat, body: string)
    ensures Scan(ch, "{{" + rest, depth, if depth == 0 then "" else body)
            == Scan(ch, rest, depth + 1, if depth == 0 then "" else body + "{{")
  {
    var s := "{{" + rest;
    assert StartsWith(s, 0, '{') && s[2..] == rest && s[..2] == "{{";
  }

  lemma ScanClose(ch: Chars, rest: string, depth: nat, body: string)
    requires depth > 0
    ensures Scan(ch, "}}" + rest, depth, body)
            == if depth == 1 then Render(ch, body) + Scan(ch, rest, 0, "") else Scan(ch, rest, depth - 1, body + "}}")
  {
    var s := "}}" + rest;
    assert StartsWith(s, 0, '}') && !StartsWith(s, 0, '{') && s[2..] == rest && s[..2] == "}}";
    hide Render;
  }

  lemma {:induction false} ScanNode(ch: Chars, n: Node, rest: string, depth: nat, body: string)
    requires GoodNode(n, false, rest) && depth > 0
    ensures Scan(ch, PrintNode(n) + rest, depth, body) == Scan(ch, rest, depth, body + PrintNode(n))
    decreases n
  {
    match n
    case Text(text) => ScanText(ch, text, rest, depth, body);
    case Link(target) =>
      hide Scan;
      var after := "]]" + rest;
      TargetIsGood(target, rest);
      Linked(Print(target), rest);
      ScanText(ch, "[[", Print(target) + after, depth, body);
      ScanNodes(ch, target, after, depth, body + "[[");
      ScanText(ch, "]]", rest, depth, body + "[[" + Print(target));
      LinkGathered(body, Print(target));
    case Template(name, params) =>
      hide Scan;
      var after := "}}" + rest;
      Bracketed("{{", Print(name), PrintParams(params), "}}", rest);
      ScanOpen(ch, Print(name) + (PrintParams(params) + after), depth, body);
      NameIsGood(name, params, rest);
      ScanNodes(ch, name, PrintParams(params) + after, depth + 1, body + "{{");
      ScanParams(ch, params, after, depth + 1, body + "{{" + Print(name));
      ScanClose(ch, rest, depth + 1, body + "{{" + Print(name) + PrintParams(params));
      Gathered(body, "{{", Print(name), PrintParams(params), "}}");
  }

  lemma {:induction false} ScanNodes(ch: Chars, ns: Nodes, rest: string, depth: nat, body: string)
    requires Good(ns, false, rest) && depth > 0
    ensures Scan(ch, Print(ns) + rest, depth, body) == Scan(ch, rest, depth, body + Print(ns))
    decreases ns
  {
    hide Scan;
    match ns
    case NoNodes =>
      assert Print(ns) + rest == rest && body + Print(ns) == body;
    case Cons(head, tail) =>
      assert Print(ns) + rest == PrintNode(head) + (Print(tail) + rest);
      ScanNode(ch, head, Print(tail) + rest, depth, body);
      ScanNodes(ch, tail, rest, depth, body + PrintNode(head));
      assert body + PrintNode(head) + Print(tail) == body + Print(ns);
  }

  lemma {:induction false} ScanParams(ch: Chars, ps: Params, rest: string, depth: nat, body: string)
    requires GoodParams(ps) && depth > 0 && "}}" <= rest
    ensures Scan(ch, PrintParams(ps) + rest, depth, body) == Scan(ch, rest, depth, body + PrintParams(ps))
    decreases ps
  {
    hide Scan;
    match ps
    case NoParams =>
      assert PrintParams(ps) + rest == rest && body + PrintParams(ps) == body;
    case Param(value, more) =>
      assert PrintParams(ps) + rest == "|" + (Print(value) + (PrintParams(more) + rest));
      ScanText(ch, "|", Print(value) + (PrintParams(more) + rest), depth, body);
      assert rest == "}}" + rest[2..];
      NameIsGood(value, more, rest[2..]);
      ScanNodes(ch, value, PrintParams(more) + rest, depth, body + "|");
      ScanParams(ch, more, rest, depth, body + "|" + Print(value));
      assert body + "|" + Print(value) + PrintParams(more) == body + PrintParams(ps);
  }

  // ----- at the top, every template becomes the rendering of its body -----

  /** The tree with every outermost template rendered from its printed body. */
  function Flat(ch: Chars, ns: Nodes): string {
    match ns
    case NoNodes => ""
    case Cons(head, tail) => FlatNode(ch, head) + Flat(ch, tail)
  }

  function FlatNode(ch: Chars, n: Node): string {
    match n
    case Text(text) => text
    case Link(target) => "[[" + Flat(ch, target) + "]]"
    case Template(name, params) => Render(ch, Body(name, params))
  }

  lemma {:induction false} ScanOuterNode(ch: Chars, n: Node, rest: string)
    requires GoodNode(n, false, rest)
    ensures Scan(ch, PrintNode(n) + rest, 0, "") == FlatNode(ch, n) + Scan(ch, rest, 0, "")
    decreases n
  {
    hide Render, Scan;
    match n
    case Text(text) =>
      assert Calm(text, rest);
      CopyText(ch, text, rest);
    case Link(target) =>
      var after := "]]" + rest;
      TargetIsGood(target, rest);
      Linked(Print(target), rest);
      CopyText(ch, "[[", Print(target) + after);
      ScanOuter(ch, target, after);
      CopyText(ch, "]]", rest);
      LinkShown(Flat(ch, target), Scan(ch, rest, 0, ""));
    case Template(name, params) => ScanTemplate(ch, name, params, rest);
  }

  lemma LinkShown(target: string, rest: string)
    ensures "[[" + (target + ("]]" + rest)) == ("[[" + target + "]]") + rest
  {
  }

  lemma {:induction false} ScanOuter(ch: Chars, ns: Nodes, rest: string)
    requires Good(ns, false, rest)
    ensures Scan(ch, Print(ns) + rest, 0, "") == Flat(ch, ns) + Scan(ch, rest, 0, "")
    decreases ns
  {
    hide Scan, FlatNode;
    match ns
    case NoNodes =>
      EmptyFirst(rest);
      EmptyFirst(Scan(ch, rest, 0, ""));
    case Cons(head, tail) =>
      Reassociate(PrintNode(head), Print(tail), rest);
      ScanOuterNode(ch, head, Print(tail) + rest);
      ScanOuter(ch, tail, rest);
      Reassociate(FlatNode(ch, head), Flat(ch, tail), Scan(ch, rest, 0, ""));
  }

  /** Outside every template and link the scan copies what is not a template, and renders what is. */
  lemma ScanTop(ch: Chars, ns: Nodes)
    requires Good(ns, false, "")
    ensures Strip(ch, Print(ns)) == Flat(ch, ns)
  {
    ScanOuter(ch, ns, "");
    assert Print(ns) + "" == Print(ns) && Flat(ch, ns) + "" == Flat(ch, ns);
    hide Render;
  }

  lemma ScanTemplate(ch: Chars, name: Nodes, params: Params, rest: string)
    requires Good(name, true, PrintParams(params) + "}}") && GoodParams(params)
    ensures Scan(ch, "{{" + (Print(name) + PrintParams(params)) + "}}" + rest, 0, "")
            == Render(ch, Body(name, params)) + Scan(ch, rest, 0, "")
  {
    hide Scan, Render;
    var after := "}}" + rest;
    Bracketed("{{", Print(name), PrintParams(params), "}}", rest);
    ScanOpen(ch, Print(name) + (PrintParams(params) + after), 0, "");
    NameIsGood(name, params, rest);
    ScanNodes(ch, name, PrintParams(params) + after, 1, "");
    EmptyFirst(Print(name));
    ScanParams(ch, params, after, 1, Print(name));
    ScanClose(ch, rest, 1, Body(name, params));
  }
}
