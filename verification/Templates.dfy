/** Turning wikitext templates into plain text: the scanner, the splitter and what each kept template renders as. */
module Templates {
  import opened Texts

  /** What counts as space, and how names are folded to lower case. */
  datatype Chars = Chars(space: char -> bool, lower: string -> string)

  predicate StartsWith(s: string, i: nat, c: char) {
    i + 1 < |s| && s[i] == c && s[i + 1] == c
  }

  predicate ContainsPair(s: string, c: char) {
    exists i :: 0 <= i < |s| && StartsWith(s, i, c)
  }

  // ----- splitting a template body -----

  predicate Opens(s: string) { StartsWith(s, 0, '{') || StartsWith(s, 0, '[') }

  predicate Closes(s: string) { StartsWith(s, 0, '}') || StartsWith(s, 0, ']') }

  /** The parts of a body whose remainder is `rest`, `part` being what of the current part has been read. */
  function SplitRest(rest: string, depth: nat, part: string): (r: seq<string>)
    ensures |r| >= 1
    decreases |rest|
  {
    if rest == "" then [part]
    else if Opens(rest) then SplitRest(rest[2..], depth + 1, part + rest[..2])
    else if Closes(rest) then SplitRest(rest[2..], if depth > 0 then depth - 1 else 0, part + rest[..2])
    else if rest[0] == '|' && depth == 0 then [part] + SplitRest(rest[1..], 0, "")
    else SplitRest(rest[1..], depth, part + rest[..1])
  }

  function Split(body: string): (r: seq<string>)
    ensures |r| >= 1
  {
    SplitRest(body, 0, "")
  }

  /** One step of splitting: how many characters it reads. */
  function Read(rest: string): nat
    requires rest != ""
    ensures 1 <= Read(rest) <= |rest|
  {
    if Opens(rest) || Closes(rest) then 2 else 1
  }

  predicate Cuts(rest: string, depth: nat)
    requires rest != ""
  {
    !Opens(rest) && !Closes(rest) && rest[0] == '|' && depth == 0
  }

  function Deeper(rest: string, depth: nat): nat {
    if Opens(rest) then depth + 1 else if Closes(rest) && depth > 0 then depth - 1 else depth
  }

  lemma SplitStep(rest: string, depth: nat, part: string)
    requires rest != ""
    ensures SplitRest(rest, depth, part)
            == if Cuts(rest, depth) then [part] + SplitRest(rest[1..], 0, "")
               else SplitRest(rest[Read(rest)..], Deeper(rest, depth), part + rest[..Read(rest)])
  {
  }

  method SplitTemplate(body: string) returns (parts: seq<string>)
    ensures parts == Split(body)
  {
    parts := [];
    var depth, start, i := 0, 0, 0;
    while i < |body|
      invariant 0 <= start <= i <= |body| && depth >= 0
      invariant parts + SplitRest(body[i..], depth, body[start..i]) == Split(body)
    {
      SplitAt(body, start, i, depth, parts);
      if StartsWith(body, i, '{') || StartsWith(body, i, '[') {
        depth := depth + 1;
        i := i + 1;
      } else if StartsWith(body, i, '}') || StartsWith(body, i, ']') {
        if depth > 0 {
          depth := depth - 1;
        }
        i := i + 1;
      } else if body[i] == '|' && depth == 0 {
        parts := parts + [body[start..i]];
        start := i + 1;
      }
      i := i + 1;
    }
    assert body[i..] == "" && body[start..i] == body[start..];
    parts := parts + [body[start..]];
  }

  lemma Suffixes(body: string, i: nat)
    requires i < |body|
    ensures forall c :: StartsWith(body[i..], 0, c) <==> StartsWith(body, i, c)
  {
  }

  /** The same step, by position in the body. */
  lemma SplitAt(body: string, start: nat, i: nat, depth: nat, parts: seq<string>)
    requires start <= i < |body|
    ensures var two := StartsWith(body, i, '{') || StartsWith(body, i, '[') || StartsWith(body, i, '}') || StartsWith(body, i, ']');
            var n := if two then 2 else 1;
            i + n <= |body|
            && parts + SplitRest(body[i..], depth, body[start..i])
               == if !two && body[i] == '|' && depth == 0 then (parts + [body[start..i]]) + SplitRest(body[i + 1..], 0, body[i + 1..i + 1])
                  else parts + SplitRest(body[i + n..], Deeper(body[i..], depth), body[start..i + n])
    ensures Opens(body[i..]) <==> StartsWith(body, i, '{') || StartsWith(body, i, '[')
    ensures Closes(body[i..]) <==> StartsWith(body, i, '}') || StartsWith(body, i, ']')
  {
    var rest := body[i..];
    Suffixes(body, i);
    SplitStep(rest, depth, body[start..i]);
    var n := Read(rest);
    assert rest[n..] == body[i + n..] && rest[1..] == body[i + 1..] && body[i + 1..i + 1] == "";
    assert body[start..i] + rest[..n] == body[start..i + n];
    hide SplitRest;
    if Cuts(rest, depth) {
      Regroup(parts, body[start..i], SplitRest(rest[1..], 0, ""));
    }
  }

  lemma Regroup(parts: seq<string>, part: string, more: seq<string>)
    ensures parts + ([part] + more) == (parts + [part]) + more
  {
  }

  lemma Glue(part: string, rest: string, n: nat)
    requires n <= |rest|
    ensures part + rest[..n] + rest[n..] == part + rest
  {
  }

  lemma JoinCut(part: string, more: seq<string>, rest: string)
    requires |more| >= 1 && Join(more, "|") == rest
    ensures Join([part] + more, "|") == part + ("|" + rest)
  {
    assert ([part] + more)[1..] == more;
    assert part + "|" + rest == part + ("|" + rest);
  }

  lemma {:induction false} JoinRest(rest: string, depth: nat, part: string)
    ensures Join(SplitRest(rest, depth, part), "|") == part + rest
    decreases |rest|
  {
    if rest != "" {
      SplitStep(rest, depth, part);
      hide SplitRest, Join;
      var n := Read(rest);
      if Cuts(rest, depth) {
        JoinRest(rest[1..], 0, "");
        JoinCut(part, SplitRest(rest[1..], 0, ""), rest[1..]);
        assert "|" + rest[1..] == rest;
      } else {
        JoinRest(rest[n..], Deeper(rest, depth), part + rest[..n]);
        Glue(part, rest, n);
      }
    } else {
      assert part + rest == part;
    }
  }

  /** Splitting loses nothing: the parts joined on bars are the body, whatever the body is. */
  lemma SplitJoins(body: string)
    ensures Join(Split(body), "|") == body
  {
    JoinRest(body, 0, "");
  }
}
