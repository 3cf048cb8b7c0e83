/** The scanner is right on every well-formed tree: stripping its printed form gives the meaning of the tree. */
module WikiMeaning {
  import opened Texts
  import opened Templates
  import opened Rendering
  import opened WikiTrees

  // ----- splitting a printed body gives its printed parts -----

  lemma {:induction false} SplitText(text: string, rest: string, depth: nat, part: string)
    requires Inert(text, rest) && (depth == 0 ==> '|' !in text)
    ensures SplitRest(text + rest, depth, part) == SplitRest(rest, depth, part + text)
    decreases |text|
  {
    if text == "" {
      assert text + rest == rest && part + text == part;
    } else {
      var s := text + rest;
      InertTail(text, rest);
      InertHead(text, rest);
      SplitStep(s, depth, part);
      assert text[0] in text;
      assert s[1..] == text[1..] + rest && s[..1] == text[..1];
      hide SplitRest, Inert;
      forall c | c in text[1..] ensures c in text {}
      SplitText(text[1..], rest, depth, part + text[..1]);
      assert part + text[..1] + text[1..] == part + text;
    }
  }

  lemma InertTail(text: string, rest: string)
    requires Inert(text, rest) && text != ""
    ensures Inert(text[1..], rest)
  {
    forall i | 0 <= i < |text| - 1
      ensures !StartsWith(text[1..], i, '{') && !StartsWith(text[1..], i, '}')
              && !StartsWith(text[1..], i, '[') && !StartsWith(text[1..], i, ']')
    {
      assert !StartsWith(text, i + 1, '{') && !StartsWith(text, i + 1, '}');
      assert !StartsWith(text, i + 1, '[') && !StartsWith(text, i + 1, ']');
    }
  }

  lemma InertHead(text: string, rest: string)
    requires Inert(text, rest) && text != ""
    ensures !Opens(text + rest) && !Closes(text + rest)
  {
    assert !StartsWith(text, 0, '{') && !StartsWith(text, 0, '}') && !StartsWith(text, 0, '[') && !StartsWith(text, 0, ']');
  }

  lemma SplitOpen(o: string, rest: string, depth: nat, part: string)
    requires o == "{{" || o == "[["
    ensures SplitRest(o + rest, depth, part) == SplitRest(rest, depth + 1, part + o)
  {
    var s := o + rest;
    assert Opens(s) && s[2..] == rest && s[..2] == o;
    SplitStep(s, depth, part);
  }

  lemma SplitClose(c: string, rest: string, depth: nat, part: string)
    requires (c == "}}" || c == "]]") && depth > 0
    ensures SplitRest(c + rest, depth, part) == SplitRest(rest, depth - 1, part + c)
  {
    var s := c + rest;
    assert !Opens(s) && Closes(s) && s[2..] == rest && s[..2] == c;
    SplitStep(s, depth, part);
  }

  lemma SplitBar(rest: string, depth: nat, part: string)
    ensures SplitRest("|" + rest, depth, part)
            == if depth == 0 then [part] + SplitRest(rest, 0, "") else SplitRest(rest, depth, part + "|")
  {
    var s := "|" + rest;
    assert !Opens(s) && !Closes(s) && s[1..] == rest && s[..1] == "|";
    SplitStep(s, depth, part);
  }

  lemma {:induction false} SplitNode(n: Node, rest: string, depth: nat, part: string)
    requires GoodNode(n, depth == 0, rest)
    ensures SplitRest(PrintNode(n) + rest, depth, part) == SplitRest(rest, depth, part + PrintNode(n))
    decreases n
  {
    hide SplitRest, Inert;
    match n
    case Text(text) => SplitText(text, rest, depth, part);
    case Link(target) =>
      var after := "]]" + rest;
      Linked(Print(target), rest);
      TargetIsGood(target, rest);
      SplitOpen("[[", Print(target) + after, depth, part);
      SplitNodes(target, after, depth + 1, part + "[[");
      SplitClose("]]", rest, depth + 1, part + "[[" + Print(target));
      LinkGathered(part, Print(target));
    case Template(name, params) =>
      var after := "}}" + rest;
      Bracketed("{{", Print(name), PrintParams(params), "}}", rest);
      SplitOpen("{{", Print(name) + (PrintParams(params) + after), depth, part);
      NameIsGood(name, params, rest);
      SplitNodes(name, PrintParams(params) + after, depth + 1, part + "{{");
      SplitInner(params, after, depth + 1, part + "{{" + Print(name));
      SplitClose("}}", rest, depth + 1, part + "{{" + Print(name) + PrintParams(params));
      Gathered(part, "{{", Print(name), PrintParams(params), "}}");
  }

  lemma {:induction false} SplitNodes(ns: Nodes, rest: string, depth: nat, part: string)
    requires Good(ns, depth == 0, rest)
    ensures SplitRest(Print(ns) + rest, depth, part) == SplitRest(rest, depth, part + Print(ns))
    decreases ns
  {
    hide SplitRest;
    match ns
    case NoNodes =>
      assert Print(ns) + rest == rest && part + Print(ns) == part;
    case Cons(head, tail) =>
      Reassociate(PrintNode(head), Print(tail), rest);
      SplitNode(head, Print(tail) + rest, depth, part);
      SplitNodes(tail, rest, depth, part + PrintNode(head));
      Reassociate(part, PrintNode(head), Print(tail));
  }

  /** Inside braces a bar cuts nothing. */
  lemma {:induction false} SplitInner(ps: Params, rest: string, depth: nat, part: string)
    requires GoodParams(ps) && depth > 0 && "}}" <= rest
    ensures SplitRest(PrintParams(ps) + rest, depth, part) == SplitRest(rest, depth, part + PrintParams(ps))
    decreases ps
  {
    hide SplitRest;
    match ps
    case NoParams =>
      assert PrintParams(ps) + rest == rest && part + PrintParams(ps) == part;
    case Param(value, more) =>
      Barred(Print(value), PrintParams(more), rest);
      SplitBar(Print(value) + (PrintParams(more) + rest), depth, part);
      assert rest == "}}" + rest[2..];
      NameIsGood(value, more, rest[2..]);
      SplitNodes(value, PrintParams(more) + rest, depth, part + "|");
      SplitInner(more, rest, depth, part + "|" + Print(value));
      BarGathered(part, Print(value), PrintParams(more));
  }

  lemma Barred(a: string, b: string, rest: string)
    ensures ("|" + a + b) + rest == "|" + (a + (b + rest))
  {
  }

  lemma BarGathered(part: string, a: string, b: string)
    ensures part + "|" + a + b == part + ("|" + a + b)
  {
  }

  /** At the end of the body the braces that close it are not printed. */
  lemma GoodShort(value: Nodes, more: Params)
    requires Good(value, true, PrintParams(more) + "}}")
    ensures Good(value, true, PrintParams(more))
  {
    if more.Param? {
      GoodSame(value, true, PrintParams(more) + "}}", PrintParams(more));
    } else {
      GoodAlone(value, true, PrintParams(more) + "}}");
    }
  }

  lemma {:induction false} GoodSame(ns: Nodes, inParam: bool, a: string, b: string)
    requires Good(ns, inParam, a) && a != "" && b != "" && a[0] == b[0]
    ensures Good(ns, inParam, b)
  {
    if ns.Cons? { GoodSame(ns.tail, inParam, a, b); }
  }

  function Printed(ps: Params): seq<string> {
    match ps
    case NoParams => []
    case Param(value, more) => [Print(value)] + Printed(more)
  }

  lemma {:induction false} SplitOuter(ps: Params, part: string)
    requires GoodParams(ps)
    ensures SplitRest(PrintParams(ps), 0, part) == [part] + Printed(ps)
    decreases ps
  {
    match ps
    case NoParams =>
    case Param(value, more) =>
      hide SplitRest;
      assert PrintParams(ps) == "|" + (Print(value) + PrintParams(more));
      SplitBar(Print(value) + PrintParams(more), 0, part);
      GoodShort(value, more);
      SplitNodes(value, PrintParams(more), 0, "");
      EmptyFirst(Print(value));
      SplitOuter(more, Print(value));
  }

  /** A printed body splits into its printed name and parameters, however templates and links are nested in them. */
  lemma SplitBody(name: Nodes, params: Params)
    requires Good(name, true, PrintParams(params) + "}}") && GoodParams(params)
    ensures Split(Body(name, params)) == [Print(name)] + Printed(params)
  {
    hide SplitRest;
    GoodShort(name, params);
    SplitNodes(name, PrintParams(params), 0, "");
    EmptyFirst(Print(name));
    SplitOuter(params, Print(name));
  }

  // ----- a presentation hint is known by its printed form -----

  lemma PairIn(a: string, b: string, c: char)
    ensures ContainsPair(a, c) || ContainsPair(b, c) ==> ContainsPair(a + b, c)
    ensures ContainsPair(a + b, c) && !(a != "" && b != "" && a[|a| - 1] == b[0] == c) ==> ContainsPair(a, c) || ContainsPair(b, c)
  {
    var s := a + b;
    if i :| 0 <= i < |a| && StartsWith(a, i, c) { assert StartsWith(s, i, c); }
    if i :| 0 <= i < |b| && StartsWith(b, i, c) { assert StartsWith(s, |a| + i, c); }
    if i :| 0 <= i < |s| && StartsWith(s, i, c) {
      if i + 1 < |a| { assert StartsWith(a, i, c); }
      if i >= |a| { assert StartsWith(b, i - |a|, c); }
    }
  }

  lemma {:induction false} PlainHoldsNoPairs(ns: Nodes, after: string)
    requires Good(ns, true, after) && Plain(ns)
    ensures !ContainsPair(Print(ns), '[') && !ContainsPair(Print(ns), '{')
    ensures '=' in Print(ns) <==> HasEquals(ns)
  {
    if ns.Cons? {
      PlainHoldsNoPairs(ns.tail, after);
      PairIn(ns.head.text, Print(ns.tail), '[');
      PairIn(ns.head.text, Print(ns.tail), '{');
    }
  }

  lemma {:induction false} MarkupHoldsPairs(ns: Nodes)
    requires !Plain(ns)
    ensures ContainsPair(Print(ns), '[') || ContainsPair(Print(ns), '{')
  {
    var first, rest := PrintNode(ns.head), Print(ns.tail);
    PairIn(first, rest, '[');
    PairIn(first, rest, '{');
    if ns.head.Link? {
      assert StartsWith(first, 0, '[');
    } else if ns.head.Template? {
      assert StartsWith(first, 0, '{');
    } else {
      MarkupHoldsPairs(ns.tail);
    }
  }

  lemma HintIsKeyValue(ns: Nodes, after: string)
    requires Good(ns, true, after)
    ensures KeyValue(Print(ns)) <==> Hint(ns)
  {
    if Plain(ns) { PlainHoldsNoPairs(ns, after); } else { MarkupHoldsPairs(ns); }
  }

  // ----- trimming before and after -----

  lemma {:induction false} ScanTail(ch: Chars, rest: string, c: char, depth: nat, body: string)
    requires c != '{' && c != '}'
    ensures var s := Scan(ch, rest, depth, body);
            Scan(ch, rest + [c], depth, body) == s + [c] || Scan(ch, rest + [c], depth, body) == s
    decreases |rest|
  {
    hide Render;
    var s := rest + [c];
    if rest == "" {
      assert s == [c] && s[1..] == "" && s[..1] == [c];
    } else {
      assert forall x | x == '{' || x == '}' :: StartsWith(s, 0, x) <==> StartsWith(rest, 0, x);
      if StartsWith(rest, 0, '{') || StartsWith(rest, 0, '}') {
        assert s[2..] == rest[2..] + [c] && s[..2] == rest[..2];
        var deeper := StartsWith(rest, 0, '{');
        if deeper {
          ScanTail(ch, rest[2..], c, depth + 1, if depth == 0 then "" else body + rest[..2]);
        } else {
          ScanTail(ch, rest[2..], c, if depth > 0 then depth - 1 else 0, if depth <= 1 then "" else body + rest[..2]);
        }
      } else {
        assert s[1..] == rest[1..] + [c] && s[..1] == rest[..1];
        ScanTail(ch, rest[1..], c, depth, if depth == 0 then "" else body + rest[..1]);
      }
    }
  }

  /** Braces are not space. */
  predicate Sensible(ch: Chars) { !ch.space('{') && !ch.space('}') }

  lemma {:induction false} TrimLeftFirst(ch: Chars, s: string)
    requires Sensible(ch)
    ensures TrimSpace(Strip(ch, TrimLeft(s, ch.space)), ch.space) == TrimSpace(Strip(ch, s), ch.space)
  {
    if s != "" && ch.space(s[0]) {
      TrimLeftFirst(ch, s[1..]);
      TrimHead(s[0], Strip(ch, s[1..]), ch.space);
      assert s[..1] == [s[0]];
    }
  }

  lemma {:induction false} TrimRightFirst(ch: Chars, s: string)
    requires Sensible(ch)
    ensures TrimSpace(Strip(ch, TrimRight(s, ch.space)), ch.space) == TrimSpace(Strip(ch, s), ch.space)
  {
    if s != "" && ch.space(s[|s| - 1]) {
      var front, c := s[..|s| - 1], s[|s| - 1];
      assert s == front + [c];
      hide Scan;
      TrimRightFirst(ch, front);
      ScanTail(ch, front, c, 0, "");
      TrimTail(Strip(ch, front), c, ch.space);
    }
  }

  /** Trimming a parameter before its templates are stripped makes no difference to it trimmed after. */
  lemma TrimmedOnce(ch: Chars, s: string)
    requires Sensible(ch)
    ensures TrimSpace(Strip(ch, TrimSpace(s, ch.space)), ch.space) == TrimSpace(Strip(ch, s), ch.space)
  {
    TrimRightFirst(ch, TrimLeft(s, ch.space));
    TrimLeftFirst(ch, s);
  }

  // ----- the theorem -----

  predicate Short(parts: seq<string>, bound: nat) { forall p <- parts :: |p| <= bound }

  lemma {:induction false} ParamsAreValues(ch: Chars, ps: Params, bound: nat)
    requires Sensible(ch) && GoodParams(ps) && Short(Printed(ps), bound)
    ensures ParamsOf(ch, Printed(ps), bound) == Values(ch, ps)
    decreases ps, 0
  {
    if ps.Param? {
      var parts := Printed(ps);
      assert parts[0] == Print(ps.value) && parts[1..] == Printed(ps.more);
      hide Strip, TrimSpace;
      HintIsKeyValue(ps.value, PrintParams(ps.more) + "}}");
      ParamsAreValues(ch, ps.more, bound);
      GoodAlone(ps.value, true, PrintParams(ps.more) + "}}");
      GoodAnyway(ps.value, "");
      StripMeans(ch, ps.value);
      TrimmedOnce(ch, Print(ps.value));
    }
  }

  lemma RenderIs(ch: Chars, body: string, name: string, rest: seq<string>)
    requires Split(body) == [name] + rest
    ensures Short(rest, |body|)
    ensures Render(ch, body) == Form(ch.lower(TrimSpace(name, ch.space)), ParamsOf(ch, rest, |body|))
  {
    hide Form, ParamsOf, TrimSpace, SplitRest;
    PartsAreShort(body, 0, "");
    var parts := Split(body);
    assert parts[0] == name && parts[1..] == rest;
    forall p | p in rest ensures |p| <= |body| { assert p in parts; }
  }

  lemma {:induction false} RenderMeans(ch: Chars, name: Nodes, params: Params)
    requires Sensible(ch) && Good(name, true, PrintParams(params) + "}}") && GoodParams(params)
    ensures Render(ch, Body(name, params)) == Form(ch.lower(TrimSpace(Print(name), ch.space)), Values(ch, params))
    decreases params, 1
  {
    hide *;
    SplitBody(name, params);
    RenderIs(ch, Body(name, params), Print(name), Printed(params));
    ParamsAreValues(ch, params, |Body(name, params)|);
  }

  /** Stripping the printed form of a well-formed tree gives its meaning, to any depth of nesting. */
  lemma {:induction false} StripMeans(ch: Chars, ns: Nodes)
    requires Sensible(ch) && Good(ns, false, "")
    ensures Strip(ch, Print(ns)) == Meaning(ch, ns)
    decreases ns, 1
  {
    hide Scan, Render;
    ScanTop(ch, ns);
    FlatMeans(ch, ns);
  }

  lemma {:induction false} FlatMeans(ch: Chars, ns: Nodes)
    requires Sensible(ch) && Good(ns, false, "")
    ensures Flat(ch, ns) == Meaning(ch, ns)
    decreases ns, 0
  {
    hide Render, Form;
    if ns.Cons? {
      FlatMeans(ch, ns.tail);
      match ns.head
      case Text(_) =>
      case Link(target) =>
        GoodAlone(target, false, "]]");
        FlatMeans(ch, target);
      case Template(name, params) => RenderMeans(ch, name, params);
    }
  }
}
