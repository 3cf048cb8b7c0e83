/** The `#@key value` lines of a committed word list: where its words came from, written and read back. */
module Provenance {
  import opened Basics
  import opened Texts
  import opened Corpus
  import opened CorpusRoundTrip
  import Building
  import Loading
  import Spelling
  import A = AliasTable

  const SOURCE_URL := "source_url"
  const SOURCE_SHA256 := "source_sha256"
  const SOURCE_PAGES := "source_pages"
  const SOURCE_FETCHED_AT := "source_fetched_at"

  /** The keys a word list must carry, in the order they are written. */
  const KEYS := [SOURCE_URL, SOURCE_SHA256, SOURCE_PAGES, SOURCE_FETCHED_AT]

  /** A dump, as the word list made from it names it. */
  datatype Source = Source(url: string, sha256: string, pages: string, fetchedAt: string)

  datatype Fact = Fact(key: string, value: string)

  function Facts(src: Source): seq<Fact> {
    [Fact(SOURCE_URL, src.url), Fact(SOURCE_SHA256, src.sha256),
     Fact(SOURCE_PAGES, src.pages), Fact(SOURCE_FETCHED_AT, src.fetchedAt)]
  }

  // ----- writing -----

  function HeaderLine(f: Fact): string { "#@" + f.key + " " + f.value }

  function HeaderLines(facts: seq<Fact>): seq<string> {
    seq(|facts|, i requires 0 <= i < |facts| => HeaderLine(facts[i]))
  }

  /** The comment lines a word list opens with: what it is, where it came from, and a blank line. */
  function Comments(preamble: seq<string>, facts: seq<Fact>): seq<string> {
    preamble + HeaderLines(facts) + [""]
  }

  /** What a list is introduced with names no source. */
  predicate Introduces(preamble: seq<string>) {
    forall i :: 0 <= i < |preamble| ==> Comment(preamble[i]) && !("#@" <= preamble[i])
  }

  /** The key is one word, and the value stays on its line. */
  predicate Carried(rd: Reader, f: Fact) {
    f.key != "" && '\n' !in f.value && forall c <- f.key :: c != ' ' && !rd.space(c)
  }

  // ----- reading -----

  function ReadFact(rd: Reader, header: map<string, string>, raw: string): map<string, string> {
    var line := TrimSpace(raw, rd.space);
    if !("#@" <= line) then header
    else
      var rest := line[2..];
      var sp := FirstOf(rest, ' ', 0);
      header[rest[..sp] := if sp == |rest| then "" else TrimSpace(rest[sp + 1..], rd.space)]
  }

  function ReadHeader(rd: Reader, lines: seq<string>, n: nat): map<string, string>
    requires n <= |lines|
  {
    if n == 0 then map[] else ReadFact(rd, ReadHeader(rd, lines, n - 1), lines[n - 1])
  }

  function HeaderOf(rd: Reader, raw: string): map<string, string> {
    ReadHeader(rd, Lines(raw, ""), |Lines(raw, "")|)
  }

  /** Every key is there and says something. */
  predicate Complete(header: map<string, string>) {
    forall k <- KEYS :: k in header && header[k] != ""
  }

  method ReadProvenance(rd: Reader, raw: string) returns (header: map<string, string>)
    ensures header == HeaderOf(rd, raw)
  {
    header := map[];
    var lines := Lines(raw, "");
    for i := 0 to |lines|
      invariant header == ReadHeader(rd, lines, i)
    {
      hide TrimSpace, Lines;
      var line := TrimSpace(lines[i], rd.space);
      if |line| < 2 || line[..2] != "#@" {
        continue;
      }
      var rest := line[2..];
      var sp := FirstOf(rest, ' ', 0);
      var value := "";
      if sp < |rest| {
        value := TrimSpace(rest[sp + 1..], rd.space);
      }
      header := header[rest[..sp] := value];
    }
  }

  /**
   * A server built from a committed word list: refused when the list does not say where it came from, and then exactly when
   * it holds too few words, or too few with a meaning.
   */
  method RunFromCorpus(rd: Reader, raw: string, sp: Spelling.Speller, minWords: int)
    returns (header: map<string, string>, served: Option<Loading.Opened>)
    requires Building.Accepts(rd)
    ensures header == HeaderOf(rd, raw)
    ensures var lines := Lines(raw, ""); var c := ReadLines(rd, lines, |lines|);
            && (served.Some? <==> Complete(header) && Building.Enough(c, minWords, true) && c.words != map[])
            && (served.Some? ==>
                  && served.value.store.words == Building.Infos(c.words) && served.value.meanings == c.meanings
                  && A.Gives(A.Claims(c.words.Keys, Building.VariantsOf(sp)), c.words.Keys, served.value.store.aliases))
  {
    hide HeaderOf, Lines, ReadLines, Building.Enough;
    header := ReadProvenance(rd, raw);
    for i := 0 to |KEYS|
      invariant forall j :: 0 <= j < i ==> KEYS[j] in header && header[KEYS[j]] != ""
    {
      if KEYS[i] !in header || header[KEYS[i]] == "" {
        return header, None;
      }
    }
    served := Building.BuildFromText(rd, raw, sp, minWords, true);
  }

  // ----- a value written is the value read back -----

  lemma {:induction false} TrimRightTwice(s: string, space: char -> bool)
    ensures TrimSpace(TrimRight(s, space), space) == TrimSpace(s, space)
  {
    if s != "" && space(s[|s| - 1]) {
      var front := s[..|s| - 1];
      TrimRightTwice(front, space);
      assert s == front + [s[|s| - 1]];
      TrimTail(front, s[|s| - 1], space);
    }
  }

  /** Trimming the end of a text stops at the latest where a part with no space at its end does. */
  lemma {:induction false} TrimRightJoin(head: string, value: string, space: char -> bool)
    requires head != "" && !space(head[|head| - 1]) && space(' ')
    ensures TrimRight(head + " " + value, space)
            == if TrimRight(value, space) == "" then head else head + " " + TrimRight(value, space)
    decreases |value|
  {
    var s := head + " " + value;
    if value == "" {
      assert s[|s| - 1] == ' ' && s[..|s| - 1] == head;
    } else if space(value[|value| - 1]) {
      var front := value[..|value| - 1];
      assert s[|s| - 1] == value[|value| - 1] && s[..|s| - 1] == head + " " + front;
      TrimRightJoin(head, front, space);
    } else {
      assert s[|s| - 1] == value[|value| - 1];
    }
  }

  /** A header line trimmed is the key and what is left of the value. */
  lemma HeaderTrims(rd: Reader, f: Fact)
    requires Sensible(rd) && rd.space(' ') && Carried(rd, f)
    ensures var value := TrimRight(f.value, rd.space);
            TrimSpace(HeaderLine(f) + "\n", rd.space) == "#@" + f.key + (if value == "" then "" else " " + value)
  {
    var line, head := HeaderLine(f), "#@" + f.key;
    TrimTail(line, '\n', rd.space);
    assert line[0] == '#' && TrimLeft(line, rd.space) == line;
    assert head[|head| - 1] == f.key[|f.key| - 1] && f.key[|f.key| - 1] in f.key;
    TrimRightJoin(head, f.value, rd.space);
    assert line == head + " " + f.value;
    var value := TrimRight(f.value, rd.space);
    assert head + " " + value == head + (" " + value) && head + "" == head;
  }

  lemma FirstIs(key: string, rest: string)
    requires ' ' !in key && (rest == "" || rest[0] == ' ')
    ensures FirstOf(key + rest, ' ', 0) == |key|
  {
    var sp, s := FirstOf(key + rest, ' ', 0), key + rest;
    assert forall i :: 0 <= i < |key| ==> s[i] == key[i] && key[i] in key;
    assert rest != "" ==> s[|key|] == ' ';
  }

  /** A trimmed line of a key and a value, or of a key alone, sets that key to that value. */
  lemma FactIs(rd: Reader, header: map<string, string>, raw: string, key: string, value: string)
    requires ' ' !in key && TrimSpace(raw, rd.space) == "#@" + key + (if value == "" then "" else " " + value)
    ensures ReadFact(rd, header, raw) == header[key := TrimSpace(value, rd.space)]
  {
    hide TrimSpace, FirstOf;
    var tail := if value == "" then "" else " " + value;
    var line := TrimSpace(raw, rd.space);
    assert line == "#@" + (key + tail);
    assert line[2..] == key + tail;
    FirstIs(key, tail);
    assert (key + tail)[..|key|] == key;
    if value == "" {
      BlankTrims(rd);
    } else {
      assert (key + tail)[|key| + 1..] == value;
    }
  }

  /** One line sets its key to the value written, but for space round it. */
  lemma HeaderLineReads(rd: Reader, header: map<string, string>, f: Fact)
    requires Sensible(rd) && rd.space(' ') && Carried(rd, f)
    ensures ReadFact(rd, header, HeaderLine(f) + "\n") == header[f.key := TrimSpace(f.value, rd.space)]
  {
    hide TrimSpace, TrimRight, HeaderLine, ReadFact;
    HeaderTrims(rd, f);
    TrimRightTwice(f.value, rd.space);
    FactIs(rd, header, HeaderLine(f) + "\n", f.key, TrimRight(f.value, rd.space));
  }

  lemma BlankTrims(rd: Reader)
    ensures TrimSpace("", rd.space) == ""
  {
  }

  /** A comment that names no source, and a word's line, leave what has been read as it was. */
  lemma CommentNamesNothing(rd: Reader, header: map<string, string>, line: string)
    requires Sensible(rd) && Comment(line) && !("#@" <= line)
    ensures ReadFact(rd, header, line + "\n") == header
  {
    TrimTail(line, '\n', rd.space);
    if line != "" {
      assert TrimLeft(line, rd.space) == line;
      TrimIsPrefix(line, rd.space);
    }
  }

  lemma {:induction false} TrimIsPrefix(s: string, space: char -> bool)
    ensures TrimRight(s, space) <= s
  {
    if s != "" && space(s[|s| - 1]) { TrimIsPrefix(s[..|s| - 1], space); }
  }

  lemma WordNamesNothing(rd: Reader, c: Contents, header: map<string, string>, word: string)
    requires Sensible(rd) && word in c.words && Kept(rd, c.words[word], Senses(c, word)) && c.words[word].word == word
    requires Writable(rd, word, Senses(c, word))
    ensures ReadFact(rd, header, WordLine(c, word)) == header
  {
    hide *;
    var senses := Senses(c, word);
    AllFit(rd, c.words[word], senses);
    WordLineIs(rd, c, word);
    LineTrims(rd, word, senses);
    FirstOfLine(word, CellsText(senses, |senses|));
    NotAFact(rd, header, WordLine(c, word));
  }

  lemma NotAFact(rd: Reader, header: map<string, string>, raw: string)
    requires TrimSpace(raw, rd.space) != "" && TrimSpace(raw, rd.space)[0] != '#'
    ensures ReadFact(rd, header, raw) == header
  {
  }

  /** What the first n facts say, the last of a key counting. */
  function Said(rd: Reader, facts: seq<Fact>, n: nat): map<string, string>
    requires n <= |facts|
  {
    if n == 0 then map[]
    else Said(rd, facts, n - 1)[facts[n - 1].key := TrimSpace(facts[n - 1].value, rd.space)]
  }

  /** A list that can be written, under an introduction and the facts of its source. */
  predicate Listed(rd: Reader, c: Contents, keys: seq<string>, preamble: seq<string>, facts: seq<Fact>) {
    && Sensible(rd) && rd.space(' ') && Introduces(preamble)
    && (forall i :: 0 <= i < |facts| ==> Carried(rd, facts[i]))
    && Exportable(rd, c, keys, Comments(preamble, facts))
    && Written(rd, c, keys, Comments(preamble, facts)).Some?
  }

  function Text(rd: Reader, c: Contents, keys: seq<string>, preamble: seq<string>, facts: seq<Fact>): string
    requires Listed(rd, c, keys, preamble, facts)
  {
    Written(rd, c, keys, Comments(preamble, facts)).value
  }

  lemma CommentIs(preamble: seq<string>, facts: seq<Fact>, i: nat)
    requires i < |Comments(preamble, facts)|
    ensures |Comments(preamble, facts)| == |preamble| + |facts| + 1
    ensures Comments(preamble, facts)[i]
            == if i < |preamble| then preamble[i]
               else if i < |preamble| + |facts| then HeaderLine(facts[i - |preamble|]) else ""
  {
  }

  lemma OneMore(rd: Reader, lines: seq<string>, n: nat)
    requires 0 < n <= |lines|
    ensures ReadHeader(rd, lines, n) == ReadFact(rd, ReadHeader(rd, lines, n - 1), lines[n - 1])
  {
  }

  /** How many of the first n lines of the list are facts. */
  function FactsIn(preamble: seq<string>, facts: seq<Fact>, n: nat): (k: nat)
    ensures k <= |facts|
  {
    if n <= |preamble| then 0 else if n <= |preamble| + |facts| then n - |preamble| else |facts|
  }

  lemma LineNames(rd: Reader, c: Contents, keys: seq<string>, preamble: seq<string>, facts: seq<Fact>, n: nat)
    requires Listed(rd, c, keys, preamble, facts)
    requires n < |FileLines(c, keys, Comments(preamble, facts))|
    ensures ReadFact(rd, Said(rd, facts, FactsIn(preamble, facts, n)), FileLines(c, keys, Comments(preamble, facts))[n])
            == Said(rd, facts, FactsIn(preamble, facts, n + 1))
  {
    hide ReadFact, TrimSpace, FileLines, Comments, HeaderLine, WordLine, Exportable, Written, Kept, Writable, Senses;
    var comments, said := Comments(preamble, facts), Said(rd, facts, FactsIn(preamble, facts, n));
    FileCounts(c, keys, comments);
    FileLineAt(c, keys, comments, n);
    if n < |comments| {
      CommentIs(preamble, facts, n);
      if |preamble| <= n < |preamble| + |facts| {
        HeaderLineReads(rd, said, facts[n - |preamble|]);
      } else {
        CommentNamesNothing(rd, said, comments[n]);
      }
    } else {
      CommentCount(preamble, facts);
      KeyIsKept(rd, c, keys, comments, n - |comments|);
      WordNamesNothing(rd, c, said, keys[n - |comments|]);
    }
  }

  lemma CommentCount(preamble: seq<string>, facts: seq<Fact>)
    ensures |Comments(preamble, facts)| == |preamble| + |facts| + 1
  {
  }

  lemma {:induction false} HeaderReads(rd: Reader, c: Contents, keys: seq<string>, preamble: seq<string>, facts: seq<Fact>, n: nat)
    requires Listed(rd, c, keys, preamble, facts)
    requires n <= |FileLines(c, keys, Comments(preamble, facts))|
    ensures ReadHeader(rd, FileLines(c, keys, Comments(preamble, facts)), n) == Said(rd, facts, FactsIn(preamble, facts, n))
  {
    hide ReadFact, FileLines, Comments, Listed;
    if n > 0 {
      HeaderReads(rd, c, keys, preamble, facts, n - 1);
      LineNames(rd, c, keys, preamble, facts, n - 1);
      OneMore(rd, FileLines(c, keys, Comments(preamble, facts)), n);
    }
  }

  /** Whatever facts a list is written under, reading it finds exactly those, and the dictionary as it was. */
  lemma HeaderRoundTrips(rd: Reader, c: Contents, keys: seq<string>, preamble: seq<string>, facts: seq<Fact>)
    requires Listed(rd, c, keys, preamble, facts)
    ensures HeaderOf(rd, Text(rd, c, keys, preamble, facts)) == Said(rd, facts, |facts|)
    ensures var lines := Lines(Text(rd, c, keys, preamble, facts), ""); ReadLines(rd, lines, |lines|) == c
  {
    hide Said, ReadHeader, Lines, ReadLines, FileLines, Comments, Exportable, Written;
    var comments := Comments(preamble, facts);
    LinesComeBack(rd, c, keys, comments);
    CorpusRoundTrips(rd, c, keys, comments);
    FileCounts(c, keys, comments);
    CommentCount(preamble, facts);
    HeaderReads(rd, c, keys, preamble, facts, |FileLines(c, keys, comments)|);
  }

  /**
   * A word list exported from a dump names that dump when it is read back: each value as it was written but for space round
   * it, nothing else, and the list is taken for an exported one exactly when none of them is blank.
   */
  lemma ProvenanceRoundTrips(rd: Reader, c: Contents, keys: seq<string>, preamble: seq<string>, src: Source)
    requires Listed(rd, c, keys, preamble, Facts(src))
    ensures var header := HeaderOf(rd, Text(rd, c, keys, preamble, Facts(src)));
            && header == map["source_url" := TrimSpace(src.url, rd.space), "source_sha256" := TrimSpace(src.sha256, rd.space),
                             "source_pages" := TrimSpace(src.pages, rd.space),
                             "source_fetched_at" := TrimSpace(src.fetchedAt, rd.space)]
            && (Complete(header) <==> forall f <- Facts(src) :: TrimSpace(f.value, rd.space) != "")
    ensures var lines := Lines(Text(rd, c, keys, preamble, Facts(src)), ""); ReadLines(rd, lines, |lines|) == c
  {
    hide HeaderOf, Text, Listed, TrimSpace, Lines, ReadLines;
    HeaderRoundTrips(rd, c, keys, preamble, Facts(src));
    SaidOfFour(rd, Facts(src));
    var facts := Facts(src);
    assert forall f <- facts :: f == facts[0] || f == facts[1] || f == facts[2] || f == facts[3];
    assert facts[0] in facts && facts[1] in facts && facts[2] in facts && facts[3] in facts;
    assert forall k <- KEYS :: k == KEYS[0] || k == KEYS[1] || k == KEYS[2] || k == KEYS[3];
    assert KEYS[0] in KEYS && KEYS[1] in KEYS && KEYS[2] in KEYS && KEYS[3] in KEYS;
  }

  lemma SaidOfFour(rd: Reader, facts: seq<Fact>)
    requires |facts| == 4
    ensures Said(rd, facts, 4)
            == map[][facts[0].key := TrimSpace(facts[0].value, rd.space)][facts[1].key := TrimSpace(facts[1].value, rd.space)]
                    [facts[2].key := TrimSpace(facts[2].value, rd.space)][facts[3].key := TrimSpace(facts[3].value, rd.space)]
  {
    assert Said(rd, facts, 1) == map[][facts[0].key := TrimSpace(facts[0].value, rd.space)];
    assert Said(rd, facts, 2) == Said(rd, facts, 1)[facts[1].key := TrimSpace(facts[1].value, rd.space)];
    assert Said(rd, facts, 3) == Said(rd, facts, 2)[facts[2].key := TrimSpace(facts[2].value, rd.space)];
  }
}
