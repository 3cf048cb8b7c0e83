/** Rendering wikitext templates as plain text, nested ones first. */
module Rendering {
  import opened Texts
  import opened Templates

  predicate IsLower(c: char) { 'a' <= c <= 'z' }

  /** Where a language code stands after its first n characters: how many letters in its last run, or -1 when it is none. */
  function Letters(p: string, n: nat): (r: int)
    requires n <= |p|
    ensures r >= -1
  {
    if n == 0 then 0
    else
      var before := Letters(p, n - 1);
      if before < 0 then -1
      else if IsLower(p[n - 1]) then before + 1
      else if p[n - 1] == '-' && before >= 2 then 0
      else -1
  }

  /** Two or three lower-case letters, possibly after hyphenated runs of at least two. */
  function IsLangCode(p: string): bool {
    2 <= |p| <= 11 && 2 <= Letters(p, |p|) <= 3
  }

  method CheckLangCode(p: string) returns (yes: bool)
    ensures yes == IsLangCode(p)
  {
    if |p| < 2 || |p| > 11 {
      return false;
    }
    var letters := 0;
    for i := 0 to |p|
      invariant letters >= 0 && letters == Letters(p, i)
    {
      if IsLower(p[i]) {
        letters := letters + 1;
      } else if p[i] == '-' {
        if letters < 2 {
          LettersLost(p, i + 1, |p|);
          return false;
        }
        letters := 0;
      } else {
        LettersLost(p, i + 1, |p|);
        return false;
      }
    }
    return letters >= 2 && letters <= 3;
  }

  lemma {:induction false} LettersLost(p: string, m: nat, n: nat)
    requires m <= n <= |p| && Letters(p, m) == -1
    ensures Letters(p, n) == -1
    decreases n - m
  {
    if m < n { LettersLost(p, m + 1, n); }
  }

  function DropLang(ps: seq<string>): seq<string> {
    if |ps| > 1 && IsLangCode(ps[0]) then ps[1..] else ps
  }

  /** "c/Việt Nam" is a typed place: the type prefix is markup. */
  function Untyped(p: string): string {
    if |p| > 2 && p[1] == '/' && IsLower(p[0]) then p[2..] else p
  }

  function UntypedAll(ps: seq<string>): seq<string> {
    seq(|ps|, i requires 0 <= i < |ps| => Untyped(ps[i]))
  }

  const LABELS := {"label", "lb", "nhãn", "context", "term", "gloss", "qualifier", "q"}
  const LINKS := {"l", "vi-l", "w", "m", "link"}
  const NON_GLOSS := {"n-g", "non-gloss", "non-gloss definition"}
  const ENTRIES := {"see-entry", "like-entry"}

  /** What a kept template says, given its positional parameters as plain text; any other template says nothing. */
  function Form(name: string, ps: seq<string>): string {
    if name in LABELS then
      var shown := DropLang(ps);
      if shown == [] then "" else "(" + Join(shown, ", ") + ")"
    else if name in LINKS then
      var shown := DropLang(ps);
      if shown == [] then "" else shown[|shown| - 1]
    else if name in NON_GLOSS then Join(ps, " ")
    else if name in ENTRIES then if ps == [] then "" else "Xem " + ps[0]
    else if name == "place" then Join(UntypedAll(DropLang(ps)), ", ")
    else ""
  }

  /** A key=value parameter is a presentation hint, unless it holds a link or a template. */
  predicate KeyValue(p: string) {
    '=' in p && !ContainsPair(p, '[') && !ContainsPair(p, '{')
  }

  /** The scan of `rest` at a depth of open braces, `body` being what has been read since the outermost opened. */
  function Scan(ch: Chars, rest: string, depth: nat, body: string): string
    decreases |rest| + |body|, 1, |rest|
  {
    if rest == "" then ""
    else if StartsWith(rest, 0, '{') then
      if depth == 0 then Scan(ch, rest[2..], 1, "") else Scan(ch, rest[2..], depth + 1, body + rest[..2])
    else if StartsWith(rest, 0, '}') then
      if depth == 0 then Scan(ch, rest[2..], 0, "")
      else if depth == 1 then Render(ch, body) + Scan(ch, rest[2..], 0, "")
      else Scan(ch, rest[2..], depth - 1, body + rest[..2])
    else if depth == 0 then rest[..1] + Scan(ch, rest[1..], 0, "")
    else Scan(ch, rest[1..], depth, body + rest[..1])
  }

  /** Every outermost template replaced by its plain text; what opens and never closes is dropped. */
  function Strip(ch: Chars, s: string): string
    decreases |s|, 2
  {
    Scan(ch, s, 0, "")
  }

  function ParamsOf(ch: Chars, parts: seq<string>, bound: nat): seq<string>
    requires forall p <- parts :: |p| <= bound
    decreases bound, 3, |parts|
  {
    if parts == [] then []
    else
      var more := ParamsOf(ch, parts[1..], bound);
      if KeyValue(parts[0]) then more
      else [TrimSpace(Strip(ch, TrimSpace(parts[0], ch.space)), ch.space)] + more
  }

  /** One template body as plain text. */
  function Render(ch: Chars, body: string): string
    decreases |body|, 4
  {
    var parts := Split(body);
    PartsAreShort(body, 0, "");
    Form(ch.lower(TrimSpace(parts[0], ch.space)), ParamsOf(ch, parts[1..], |body|))
  }

  /** No part of a body is longer than the body: nesting ends. */
  lemma {:induction false} PartsAreShort(rest: string, depth: nat, part: string)
    ensures forall p <- SplitRest(rest, depth, part) :: |p| <= |part| + |rest|
    decreases |rest|
  {
    if rest != "" {
      SplitStep(rest, depth, part);
      hide SplitRest;
      if Cuts(rest, depth) {
        PartsAreShort(rest[1..], 0, "");
      } else {
        PartsAreShort(rest[Read(rest)..], Deeper(rest, depth), part + rest[..Read(rest)]);
      }
    }
  }

  // ----- the same, in place -----

  /** What has been read since the outermost template opened. */
  function Inside(s: string, start: nat, i: nat, depth: nat): string
    requires i <= |s| && (depth > 0 ==> start <= i)
  {
    if depth > 0 then s[start..i] else ""
  }

  lemma ScanOpens(ch: Chars, s: string, start: nat, i: nat, depth: nat)
    requires i < |s| && (depth > 0 ==> start <= i) && StartsWith(s, i, '{')
    ensures Scan(ch, s[i..], depth, Inside(s, start, i, depth))
            == Scan(ch, s[i + 2..], depth + 1, Inside(s, if depth == 0 then i + 2 else start, i + 2, depth + 1))
  {
    var rest := s[i..];
    assert StartsWith(rest, 0, '{') && rest[2..] == s[i + 2..];
    if depth > 0 { assert s[start..i] + rest[..2] == s[start..i + 2]; } else { assert s[i + 2..i + 2] == ""; }
  }

  lemma ScanCloses(ch: Chars, s: string, start: nat, i: nat, depth: nat, out: string)
    requires i < |s| && (depth > 0 ==> start <= i) && StartsWith(s, i, '}')
    ensures var left := if depth > 0 then depth - 1 else 0;
            out + Scan(ch, s[i..], depth, Inside(s, start, i, depth))
            == (if depth == 1 then out + Render(ch, s[start..i]) else out)
               + Scan(ch, s[i + 2..], left, Inside(s, start, i + 2, left))
  {
    var rest := s[i..];
    assert StartsWith(rest, 0, '}') && !StartsWith(rest, 0, '{') && rest[2..] == s[i + 2..];
    hide Render;
    if depth > 1 { assert s[start..i] + rest[..2] == s[start..i + 2]; }
    if depth == 1 { Append(out, Render(ch, s[start..i]), Scan(ch, s[i + 2..], 0, "")); }
  }

  lemma ScanReads(ch: Chars, s: string, start: nat, i: nat, depth: nat, out: string)
    requires i < |s| && (depth > 0 ==> start <= i) && !StartsWith(s, i, '{') && !StartsWith(s, i, '}')
    ensures out + Scan(ch, s[i..], depth, Inside(s, start, i, depth))
            == (if depth == 0 then out + [s[i]] else out) + Scan(ch, s[i + 1..], depth, Inside(s, start, i + 1, depth))
  {
    var rest := s[i..];
    assert !StartsWith(rest, 0, '{') && !StartsWith(rest, 0, '}') && rest[1..] == s[i + 1..] && rest[..1] == [s[i]];
    if depth > 0 { assert s[start..i] + rest[..1] == s[start..i + 1]; } else { Append(out, [s[i]], Scan(ch, s[i + 1..], 0, "")); }
  }

  lemma Append(a: string, b: string, c: string)
    ensures a + (b + c) == (a + b) + c
  {
  }

  lemma ParamAt(ch: Chars, parts: seq<string>, k: nat, params: seq<string>, bound: nat)
    requires k < |parts| && forall p <- parts :: |p| <= bound
    ensures params + ParamsOf(ch, parts[k..], bound)
            == (if KeyValue(parts[k]) then params
                else params + [TrimSpace(Strip(ch, TrimSpace(parts[k], ch.space)), ch.space)])
               + ParamsOf(ch, parts[k + 1..], bound)
  {
    assert parts[k..][0] == parts[k] && parts[k..][1..] == parts[k + 1..];
    hide Strip, KeyValue;
  }

  method StripTemplates(ch: Chars, s: string) returns (out: string)
    ensures out == Strip(ch, s)
    decreases |s|, 1
  {
    hide Render;
    out := "";
    var depth, start, i := 0, 0, 0;
    while i < |s|
      invariant 0 <= i <= |s| && depth >= 0 && (depth > 0 ==> 2 <= start <= i)
      invariant out + Scan(ch, s[i..], depth, Inside(s, start, i, depth)) == Strip(ch, s)
    {
      if StartsWith(s, i, '{') {
        ScanOpens(ch, s, start, i, depth);
        if depth == 0 {
          start := i + 2;
        }
        depth := depth + 1;
        i := i + 1;
      } else if StartsWith(s, i, '}') {
        ScanCloses(ch, s, start, i, depth, out);
        if depth > 0 {
          depth := depth - 1;
          if depth == 0 {
            var text := RenderTemplate(ch, s[start..i]);
            out := out + text;
          }
        }
        i := i + 1;
      } else {
        ScanReads(ch, s, start, i, depth, out);
        if depth == 0 {
          out := out + [s[i]];
        }
      }
      i := i + 1;
    }
    assert s[i..] == "";
  }

  method RenderTemplate(ch: Chars, body: string) returns (text: string)
    ensures text == Render(ch, body)
    decreases |body|, 3
  {
    var parts := SplitTemplate(body);
    PartsAreShort(body, 0, "");
    var params := RenderParams(ch, parts, |body|);
    return Form(ch.lower(TrimSpace(parts[0], ch.space)), params);
  }

  /** The positional parameters as plain text, in order. */
  method RenderParams(ch: Chars, parts: seq<string>, bound: nat) returns (params: seq<string>)
    requires |parts| >= 1 && forall p <- parts :: |p| <= bound
    ensures (forall p <- parts[1..] :: |p| <= bound) && params == ParamsOf(ch, parts[1..], bound)
    decreases bound, 2, 0
  {
    hide Strip, KeyValue, Render, TrimSpace;
    params := [];
    for k := 1 to |parts|
      invariant params + ParamsOf(ch, parts[k..], bound) == ParamsOf(ch, parts[1..], bound)
    {
      var p := parts[k];
      ParamAt(ch, parts, k, params, bound);
      if KeyValue(p) {
        continue;
      }
      var stripped := StripTemplates(ch, TrimSpace(p, ch.space));
      params := params + [TrimSpace(stripped, ch.space)];
    }
    assert parts[|parts|..] == [];
  }
}
