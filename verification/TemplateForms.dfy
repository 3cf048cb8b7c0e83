/** What each kind of template reads as, told from its printed parameters, and what happens to markup that does not balance. */
module TemplateForms {
  import opened Texts
  import opened Templates
  import opened Rendering
  import opened WikiTrees
  import opened WikiMeaning
  import Corpus

  // ----- language codes -----

  predicate AllLower(p: string) { forall c <- p :: 'a' <= c <= 'z' }

  /** Runs of lower-case letters between hyphens: at least two in each, and two or three in the last. */
  predicate CodeRuns(runs: seq<string>) {
    && runs != [] && (forall run <- runs :: AllLower(run) && |run| >= 2)
    && |runs[|runs| - 1]| <= 3
  }

  predicate LanguageCode(p: string) { |p| <= 11 && CodeRuns(Corpus.CutAt(p, '-', "")) }

  /** Runs that may yet make a code: all lower case, and long enough except for the last. */
  predicate CodeSoFar(runs: seq<string>) {
    && runs != [] && (forall run <- runs :: AllLower(run))
    && forall i :: 0 <= i < |runs| - 1 ==> |runs[i]| >= 2
  }

  lemma {:induction false} CutMore(s: string, c: char, piece: string)
    ensures var runs := Corpus.CutAt(s, '-', piece); var last := runs[|runs| - 1];
            Corpus.CutAt(s + [c], '-', piece) == if c == '-' then runs + [""] else runs[|runs| - 1 := last + [c]]
    decreases |s|
  {
    if s == "" {
      assert s + [c] == [c] && [c][1..] == "";
    } else {
      assert (s + [c])[0] == s[0] && (s + [c])[1..] == s[1..] + [c];
      if s[0] == '-' { CutMore(s[1..], c, ""); } else { CutMore(s[1..], c, piece + [s[0]]); }
    }
  }

  lemma RunEnds(runs: seq<string>)
    requires runs != []
    ensures CodeSoFar(runs + [""]) <==> CodeSoFar(runs) && |runs[|runs| - 1]| >= 2
  {
    var n, more := |runs| - 1, runs + [""];
    assert more[n] == runs[n];
    if CodeSoFar(more) {
      forall run | run in runs ensures AllLower(run) { assert run in more; }
      forall i | 0 <= i < n ensures |runs[i]| >= 2 { assert more[i] == runs[i]; }
    }
  }

  lemma LowerMore(run: string, c: char)
    ensures AllLower(run + [c]) <==> AllLower(run) && IsLower(c)
  {
    var grown := run + [c];
    if AllLower(grown) {
      assert grown[|run|] in grown;
      forall x | x in run ensures 'a' <= x <= 'z' { assert x in grown; }
    }
  }

  lemma RunGrows(runs: seq<string>, c: char)
    requires runs != []
    ensures var last := runs[|runs| - 1];
            CodeSoFar(runs[|runs| - 1 := last + [c]]) <==> CodeSoFar(runs) && IsLower(c)
  {
    var n := |runs| - 1;
    var grown := runs[n] + [c];
    var longer := runs[n := grown];
    LowerMore(runs[n], c);
    assert runs[n] in runs && longer[n] in longer;
    if CodeSoFar(longer) {
      forall run | run in runs ensures AllLower(run) {
        var i :| 0 <= i < |runs| && runs[i] == run;
        assert longer[i] in longer;
      }
      forall i | 0 <= i < n ensures |runs[i]| >= 2 { assert longer[i] == runs[i]; }
    }
    if CodeSoFar(runs) && IsLower(c) {
      forall run | run in longer ensures AllLower(run) {
        var i :| 0 <= i < |longer| && longer[i] == run;
        assert runs[i] in runs;
      }
    }
  }

  /** The letter count the scan keeps is that of the last run, and it is lost exactly when no code can follow. */
  lemma {:induction false} LettersAreRuns(p: string, n: nat)
    requires n <= |p|
    ensures var runs := Corpus.CutAt(p[..n], '-', "");
            Letters(p, n) == if CodeSoFar(runs) then |runs[|runs| - 1]| else -1
  {
    if n > 0 {
      LettersAreRuns(p, n - 1);
      assert p[..n] == p[..n - 1] + [p[n - 1]];
      CutMore(p[..n - 1], p[n - 1], "");
      hide CodeSoFar, Corpus.CutAt;
      RunEnds(Corpus.CutAt(p[..n - 1], '-', ""));
      RunGrows(Corpus.CutAt(p[..n - 1], '-', ""), p[n - 1]);
    } else {
      assert p[..0] == "" && Corpus.CutAt("", '-', "") == [""];
    }
  }

  lemma LangCodeIs(p: string)
    ensures IsLangCode(p) <==> LanguageCode(p)
  {
    LettersAreRuns(p, |p|);
    assert p[..|p|] == p;
    var runs := Corpus.CutAt(p, '-', "");
    if CodeSoFar(runs) && |runs[|runs| - 1]| >= 2 {
      forall run | run in runs ensures |run| >= 2 {
        var i :| 0 <= i < |runs| && runs[i] == run;
      }
    }
    RunsFit(p, "");
    if LanguageCode(p) {
      assert runs[|runs| - 1] in runs;
      forall i | 0 <= i < |runs| - 1 ensures |runs[i]| >= 2 { assert runs[i] in runs; }
    }
  }

  /** No run is longer than what it was cut from. */
  lemma {:induction false} RunsFit(s: string, piece: string)
    ensures forall run <- Corpus.CutAt(s, '-', piece) :: |run| <= |piece| + |s|
    decreases |s|
  {
    if s != "" {
      if s[0] == '-' { RunsFit(s[1..], ""); } else { RunsFit(s[1..], piece + [s[0]]); }
    }
  }

  // ----- the kinds of template -----

  /** A well-formed template whose name, trimmed and folded, is `known`. */
  predicate Called(ch: Chars, name: Nodes, params: Params, known: string) {
    && Sensible(ch) && Good(name, true, PrintParams(params) + "}}") && GoodParams(params)
    && ch.lower(TrimSpace(Print(name), ch.space)) == known
  }

  /** Parameters without the language code that leads them, when something follows it. */
  function Speaking(ps: seq<string>): seq<string> {
    if |ps| > 1 && LanguageCode(ps[0]) then ps[1..] else ps
  }

  /** A context label is bracketed, its parts joined with commas; with none it is nothing. */
  lemma LabelReads(ch: Chars, name: Nodes, params: Params, known: string)
    requires Called(ch, name, params, known)
    requires known in {"label", "lb", "nhãn", "context", "term", "gloss", "qualifier", "q"}
    ensures var values := Values(ch, params);
            Render(ch, Body(name, params)) == if values == [] then "" else "(" + Join(Speaking(values), ", ") + ")"
  {
    hide Render, Values, IsLangCode, LanguageCode, Join, Good, GoodParams, Print, TrimSpace;
    RenderMeans(ch, name, params);
    if Values(ch, params) != [] { LangCodeIs(Values(ch, params)[0]); }
  }

  /** A link reads as the last of its parameters, whatever comes before it. */
  lemma LinkReads(ch: Chars, name: Nodes, params: Params, known: string)
    requires Called(ch, name, params, known) && known in {"l", "vi-l", "w", "m", "link"}
    ensures var values := Values(ch, params);
            Render(ch, Body(name, params)) == if values == [] then "" else values[|values| - 1]
  {
    hide Render, Values, IsLangCode, Join, Good, GoodParams, Print, TrimSpace;
    RenderMeans(ch, name, params);
  }

  /** A definition that is not a gloss reads as its parameters, one after another. */
  lemma NonGlossReads(ch: Chars, name: Nodes, params: Params, known: string)
    requires Called(ch, name, params, known) && known in {"n-g", "non-gloss", "non-gloss definition"}
    ensures Render(ch, Body(name, params)) == Join(Values(ch, params), " ")
  {
    hide Render, Values, Join, Good, GoodParams, Print, TrimSpace;
    RenderMeans(ch, name, params);
  }

  /** A cross-reference points at the first of its parameters. */
  lemma CrossReferenceReads(ch: Chars, name: Nodes, params: Params, known: string)
    requires Called(ch, name, params, known) && known in {"see-entry", "like-entry"}
    ensures var values := Values(ch, params);
            Render(ch, Body(name, params)) == if values == [] then "" else "Xem " + values[0]
  {
    hide Render, Values, Join, Good, GoodParams, Print, TrimSpace;
    RenderMeans(ch, name, params);
  }

  /** What is shown of a place: not the letter and slash that give its type, when a name follows them. */
  predicate ShownPlace(place: string, shown: string) {
    if exists c :: 'a' <= c <= 'z' && [c] + "/" < place then shown == place[2..] else shown == place
  }

  /** Places are joined with commas, each without its type. */
  lemma PlaceReads(ch: Chars, name: Nodes, params: Params) returns (shown: seq<string>)
    requires Called(ch, name, params, "place")
    ensures var places := Speaking(Values(ch, params));
            && |shown| == |places| && (forall i :: 0 <= i < |shown| ==> ShownPlace(places[i], shown[i]))
            && Render(ch, Body(name, params)) == Join(shown, ", ")
  {
    hide Render, Values, Form, Join, Good, GoodParams, Print, TrimSpace;
    RenderMeans(ch, name, params);
    shown := PlacesShown(Values(ch, params));
  }

  lemma PlacesShown(values: seq<string>) returns (shown: seq<string>)
    ensures var places := Speaking(values);
            && |shown| == |places| && (forall i :: 0 <= i < |shown| ==> ShownPlace(places[i], shown[i]))
            && Form("place", values) == Join(shown, ", ")
  {
    hide IsLangCode, LanguageCode, Join, ShownPlace, Untyped;
    if values != [] { LangCodeIs(values[0]); }
    var places := Speaking(values);
    shown := UntypedAll(places);
    forall i | 0 <= i < |places| ensures ShownPlace(places[i], shown[i]) { TypeIsDropped(places[i]); }
  }

  lemma TypeIsDropped(p: string)
    ensures ShownPlace(p, Untyped(p))
  {
    if |p| > 2 && p[1] == '/' && IsLower(p[0]) {
      assert [p[0]] + "/" < p;
    }
  }

  /** Any other template is presentation, and says nothing. */
  lemma OthersSayNothing(ch: Chars, name: Nodes, params: Params, known: string)
    requires Called(ch, name, params, known)
    requires known !in {"label", "lb", "nhãn", "context", "term", "gloss", "qualifier", "q", "l", "vi-l", "w", "m", "link",
                        "n-g", "non-gloss", "non-gloss definition", "see-entry", "like-entry", "place"}
    ensures Render(ch, Body(name, params)) == ""
  {
    hide Render, Values, Good, GoodParams, Print, TrimSpace;
    RenderMeans(ch, name, params);
  }

  // ----- markup that does not balance -----

  predicate NeverCloses(s: string) { forall i :: 0 <= i < |s| ==> !StartsWith(s, i, '}') }

  lemma {:induction false} OpenToTheEnd(ch: Chars, rest: string, depth: nat, body: string)
    requires depth > 0 && NeverCloses(rest)
    ensures Scan(ch, rest, depth, body) == ""
    decreases |rest|
  {
    if rest != "" {
      assert !StartsWith(rest, 0, '}');
      var n := if StartsWith(rest, 0, '{') then 2 else 1;
      forall i | 0 <= i < |rest| - n ensures !StartsWith(rest[n..], i, '}') { assert !StartsWith(rest, n + i, '}'); }
      OpenToTheEnd(ch, rest[n..], if n == 2 then depth + 1 else depth, body + rest[..n]);
    }
  }

  /** What opens and never closes is dropped, and what stands before it is kept. */
  lemma UnclosedIsDropped(ch: Chars, text: string, rest: string)
    requires Calm(text, "{{" + rest) && NeverCloses(rest)
    ensures Strip(ch, text + ("{{" + rest)) == text
  {
    hide Scan;
    CopyText(ch, text, "{{" + rest);
    ScanOpen(ch, rest, 0, "");
    OpenToTheEnd(ch, rest, 1, "");
    assert text + "" == text;
  }

  /** A closer with nothing open is dropped, and what stands round it is kept. */
  lemma StrayCloserIsDropped(ch: Chars, text: string, rest: string)
    requires Calm(text, "}}" + rest)
    ensures Strip(ch, text + ("}}" + rest)) == text + Strip(ch, rest)
  {
    CopyText(ch, text, "}}" + rest);
    var s := "}}" + rest;
    assert StartsWith(s, 0, '}') && !StartsWith(s, 0, '{') && s[2..] == rest;
    hide Render;
  }
}
