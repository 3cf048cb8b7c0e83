/** What is written to the corpus is what is read back from it. */
module CorpusRoundTrip {
  import opened Basics
  import opened Dictionary
  import opened Texts
  import opened Corpus

  // ----- trimming leaves trimmed text alone -----

  predicate Edged(s: string, space: char -> bool) {
    s != "" && !space(s[0]) && !space(s[|s| - 1])
  }

  lemma EdgedIsTrimmed(s: string, space: char -> bool)
    requires Edged(s, space)
    ensures TrimSpace(s, space) == s
  {
  }

  lemma {:induction false} TrimRightEnds(s: string, space: char -> bool)
    ensures TrimRight(s, space) == "" || !space(TrimRight(s, space)[|TrimRight(s, space)| - 1])
    ensures s != "" && !space(s[0]) ==> TrimRight(s, space) != "" && TrimRight(s, space)[0] == s[0]
  {
    if s != "" && space(s[|s| - 1]) { TrimRightEnds(s[..|s| - 1], space); }
  }

  lemma {:induction false} TrimLeftStarts(s: string, space: char -> bool)
    ensures TrimLeft(s, space) == "" || !space(TrimLeft(s, space)[0])
  {
    if s != "" && space(s[0]) { TrimLeftStarts(s[1..], space); }
  }

  /** Trimmed text has no space at either end. */
  lemma TrimmedIsEdged(s: string, space: char -> bool)
    requires s == TrimSpace(s, space) && s != ""
    ensures Edged(s, space)
  {
    TrimLeftStarts(s, space);
    TrimRightEnds(TrimLeft(s, space), space);
  }

  // ----- lines and cells come apart where they were joined -----

  lemma {:induction false} LinesOfLine(text: string, rest: string, line: string)
    requires '\n' !in text
    ensures Lines(text + "\n" + rest, line) == [line + text + "\n"] + Lines(rest, "")
    decreases |text|
  {
    var s := text + "\n" + rest;
    if text == "" {
      assert s[0] == '\n' && s[1..] == rest && line + text == line;
    } else {
      assert s[0] == text[0] && s[1..] == text[1..] + "\n" + rest;
      assert text[0] in text;
      forall c | c in text[1..] ensures c in text {}
      LinesOfLine(text[1..], rest, line + [text[0]]);
      assert line + [text[0]] + text[1..] == line + text;
    }
  }

  lemma {:induction false} CutPiece(text: string, rest: string, c: char, piece: string)
    requires c !in text
    ensures CutAt(text + [c] + rest, c, piece) == [piece + text] + CutAt(rest, c, "")
    ensures CutAt(text, c, piece) == [piece + text]
    decreases |text|
  {
    var s := text + [c] + rest;
    if text == "" {
      assert s[0] == c && s[1..] == rest && piece + text == piece;
    } else {
      assert s[0] == text[0] && s[1..] == text[1..] + [c] + rest;
      assert text[0] in text;
      forall x | x in text[1..] ensures x in text {}
      CutPiece(text[1..], rest, c, piece + [text[0]]);
      assert piece + [text[0]] + text[1..] == piece + text;
    }
  }

  function Cells(senses: seq<Sense>): seq<string> {
    seq(|senses|, i requires 0 <= i < |senses| => Cell(senses[i]))
  }

  /** The cells from the k-th on, each after a tab. */
  function TailText(senses: seq<Sense>, k: nat): string
    requires k <= |senses|
    decreases |senses| - k
  {
    if k == |senses| then "" else "\t" + Cell(senses[k]) + TailText(senses, k + 1)
  }

  lemma {:induction false} CellsAreTail(senses: seq<Sense>, k: nat)
    requires k <= |senses|
    ensures CellsText(senses, |senses|) == CellsText(senses, k) + TailText(senses, k)
    decreases |senses| - k
  {
    if k < |senses| {
      CellsAreTail(senses, k + 1);
      assert CellsText(senses, k) + "\t" + Cell(senses[k]) + TailText(senses, k + 1)
             == CellsText(senses, k) + ("\t" + Cell(senses[k]) + TailText(senses, k + 1));
    } else {
      assert CellsText(senses, k) + "" == CellsText(senses, k);
    }
  }

  lemma {:induction false} CutTail(senses: seq<Sense>, k: nat, text: string)
    requires k <= |senses| && '\t' !in text
    requires forall i :: 0 <= i < |senses| ==> '\t' !in Cell(senses[i])
    ensures CutAt(text + TailText(senses, k), '\t', "") == [text] + Cells(senses)[k..]
    decreases |senses| - k
  {
    if k == |senses| {
      assert text + TailText(senses, k) == text;
      CutPiece(text, "", '\t', "");
      assert "" + text == text;
    } else {
      var next := Cell(senses[k]);
      assert text + TailText(senses, k) == text + ['\t'] + (next + TailText(senses, k + 1));
      CutPiece(text, next + TailText(senses, k + 1), '\t', "");
      CutTail(senses, k + 1, next);
      assert "" + text == text;
      assert Cells(senses)[k..] == [next] + Cells(senses)[k + 1..];
    }
  }

  // ----- a line reads back as the word and meanings it was written for -----

  /** Space is what separates: tabs and newlines are, and the marks of the format are not. */
  predicate Sensible(rd: Reader) {
    rd.space('\n') && rd.space('\t') && !rd.space('|') && !rd.space('#')
  }

  /** What an accepted word and its meanings are. */
  predicate Kept(rd: Reader, e: Entry, senses: seq<Sense>) {
    && rd.accept(e.word) == Some(e) && e.word != "" && e.word[0] != '#'
    && |senses| <= 5
    && forall i :: 0 <= i < |senses| ==> senses[i].gloss != "" && |senses[i].gloss| <= 200
  }

  lemma CellReads(rd: Reader, s: Sense)
    requires Sensible(rd) && Field(rd, s.gloss) && Field(rd, s.pos) && '|' !in s.pos && s.gloss != ""
    ensures Edged(Cell(s), rd.space) && ParseCell(rd, Cell(s)) == s && '\t' !in Cell(s) && '\n' !in Cell(s)
  {
    var cell := Cell(s);
    TrimmedIsEdged(s.gloss, rd.space);
    if s.pos != "" { TrimmedIsEdged(s.pos, rd.space); }
    assert cell[|cell| - 1] == s.gloss[|s.gloss| - 1];
    assert cell[0] == if s.pos == "" then '|' else s.pos[0];
    assert cell[|s.pos|] == '|' && forall k :: 0 <= k < |s.pos| ==> cell[k] == s.pos[k] && s.pos[k] in s.pos;
    assert FirstOf(cell, '|', 0) == |s.pos|;
    assert cell[..|s.pos|] == s.pos && cell[|s.pos| + 1..] == s.gloss;
  }

  /** What one meaning needs in order to be written and read back. */
  predicate Fits(rd: Reader, s: Sense) {
    && Field(rd, s.gloss) && Field(rd, s.pos) && '|' !in s.pos
    && s.gloss != "" && |s.gloss| <= MAX_GLOSS
  }

  lemma SenseReads(rd: Reader, cells: seq<string>, n: nat, s: Sense)
    requires Sensible(rd) && 0 < n <= |cells| && cells[n - 1] == Cell(s) && Fits(rd, s)
    requires |ParseSenses(rd, cells, n - 1)| < MAX_SENSES
    ensures ParseSenses(rd, cells, n) == ParseSenses(rd, cells, n - 1) + [s]
  {
    CellReads(rd, s);
    EdgedIsTrimmed(Cell(s), rd.space);
    CapFits(s.gloss);
    hide TrimSpace, ParseCell, CapGloss;
    assert s.(gloss := s.gloss) == s;
  }

  lemma CellAt(senses: seq<Sense>, i: nat)
    requires i < |senses|
    ensures |Cells(senses)| == |senses| && Cells(senses)[i] == Cell(senses[i])
  {
  }

  lemma OneMore<T>(s: seq<T>, n: nat)
    requires n < |s|
    ensures s[..n] + [s[n]] == s[..n + 1]
  {
  }

  lemma {:induction false} SensesRead(rd: Reader, senses: seq<Sense>, n: nat)
    requires Sensible(rd) && n <= |senses| <= MAX_SENSES
    requires forall i :: 0 <= i < |senses| ==> Fits(rd, senses[i])
    ensures |Cells(senses)| == |senses| && ParseSenses(rd, Cells(senses), n) == senses[..n]
  {
    if n > 0 {
      hide Cells, ParseSenses, Fits, Sensible, Cell;
      SensesRead(rd, senses, n - 1);
      CellAt(senses, n - 1);
      SenseReads(rd, Cells(senses), n, senses[n - 1]);
      OneMore(senses, n - 1);
    }
  }

  lemma EdgedEnds(a: string, b: string, space: char -> bool)
    requires Edged(a, space) && (b == "" || !space(b[|b| - 1]))
    ensures Edged(a + b, space)
  {
  }

  lemma LineIsEdged(rd: Reader, word: string, senses: seq<Sense>)
    requires Sensible(rd) && Field(rd, word) && word != "" && forall i :: 0 <= i < |senses| ==> Fits(rd, senses[i])
    ensures Edged(word + CellsText(senses, |senses|), rd.space)
  {
    TrimmedIsEdged(word, rd.space);
    hide TrimSpace;
    if senses != [] {
      CellReads(rd, senses[|senses| - 1]);
      hide Cell;
    }
    EdgedEnds(word, CellsText(senses, |senses|), rd.space);
  }

  lemma {:induction false} NoBreaks(rd: Reader, senses: seq<Sense>, n: nat)
    requires Sensible(rd) && n <= |senses| && forall i :: 0 <= i < |senses| ==> Fits(rd, senses[i])
    ensures '\n' !in CellsText(senses, n)
  {
    if n > 0 {
      NoBreaks(rd, senses, n - 1);
      CellReads(rd, senses[n - 1]);
    }
  }

  lemma LineTrims(rd: Reader, word: string, senses: seq<Sense>)
    requires Sensible(rd) && Field(rd, word) && word != "" && forall i :: 0 <= i < |senses| ==> Fits(rd, senses[i])
    ensures TrimSpace(word + CellsText(senses, |senses|) + "\n", rd.space) == word + CellsText(senses, |senses|)
  {
    var line := word + CellsText(senses, |senses|);
    LineIsEdged(rd, word, senses);
    EdgedIsTrimmed(line, rd.space);
    TrimTail(line, '\n', rd.space);
  }

  lemma LineCuts(rd: Reader, word: string, senses: seq<Sense>)
    requires Sensible(rd) && '\t' !in word && forall i :: 0 <= i < |senses| ==> Fits(rd, senses[i])
    ensures CutAt(word + CellsText(senses, |senses|), '\t', "") == [word] + Cells(senses)
  {
    CellsAreTail(senses, 0);
    assert CellsText(senses, 0) + TailText(senses, 0) == TailText(senses, 0);
    forall i | 0 <= i < |senses| ensures '\t' !in Cell(senses[i]) { CellReads(rd, senses[i]); }
    CutTail(senses, 0, word);
    assert Cells(senses)[0..] == Cells(senses);
  }

  lemma AllFit(rd: Reader, e: Entry, senses: seq<Sense>)
    requires Kept(rd, e, senses) && Writable(rd, e.word, senses)
    ensures forall i :: 0 <= i < |senses| ==> Fits(rd, senses[i])
  {
  }

  lemma FirstOfLine(word: string, rest: string)
    requires word != ""
    ensures word + rest != "" && (word + rest)[0] == word[0]
  {
  }

  lemma HeadAndTail(word: string, cells: seq<string>)
    ensures ([word] + cells)[0] == word && ([word] + cells)[1..] == cells
  {
  }

  lemma ReadLineIs(rd: Reader, sofar: Contents, raw: string, line: string, cells: seq<string>, e: Entry, senses: seq<Sense>)
    requires TrimSpace(raw, rd.space) == line && line != "" && line[0] != '#'
    requires CutAt(line, '\t', "") == cells && cells != [] && rd.accept(cells[0]) == Some(e)
    requires ParseSenses(rd, cells[1..], |cells| - 1) == senses
    ensures ReadLine(rd, sofar, raw)
            == Contents(sofar.words[e.word := e], if senses == [] then sofar.meanings else sofar.meanings[e.word := senses])
  {
    hide TrimSpace, CutAt, ParseSenses;
  }

  lemma WordLineIs(rd: Reader, c: Contents, word: string)
    requires word in c.words && Kept(rd, c.words[word], Senses(c, word)) && c.words[word].word == word
    requires Writable(rd, word, Senses(c, word))
    ensures WordLine(c, word) == word + CellsText(Senses(c, word), |Senses(c, word)|) + "\n"
    ensures word != "" && word[0] != '#' && rd.accept(word) == Some(c.words[word])
    ensures Field(rd, word) && '\t' !in word && |Senses(c, word)| <= MAX_SENSES
  {
  }

  /** A word's line read by itself adds exactly that word and its meanings. */
  lemma WordLineReads(rd: Reader, c: Contents, sofar: Contents, word: string)
    requires Sensible(rd) && word in c.words && Kept(rd, c.words[word], Senses(c, word)) && c.words[word].word == word
    requires Writable(rd, word, Senses(c, word))
    ensures ReadLine(rd, sofar, WordLine(c, word))
            == Contents(sofar.words[word := c.words[word]],
                        if Senses(c, word) == [] then sofar.meanings else sofar.meanings[word := Senses(c, word)])
  {
    hide *;
    var senses := Senses(c, word);
    AllFit(rd, c.words[word], senses);
    WordLineIs(rd, c, word);
    LineTrims(rd, word, senses);
    LineCuts(rd, word, senses);
    SensesRead(rd, senses, |senses|);
    FirstOfLine(word, CellsText(senses, |senses|));
    HeadAndTail(word, Cells(senses));
    AllOf(senses);
    ReadLineIs(rd, sofar, WordLine(c, word), word + CellsText(senses, |senses|), [word] + Cells(senses), c.words[word], senses);
  }

  lemma AllOf<T>(s: seq<T>)
    ensures s[..|s|] == s
  {
  }

  // ----- the whole file -----

  /** Lines a reader passes over. */
  predicate Comment(line: string) { '\n' !in line && (line == "" || line[0] == '#') }

  lemma {:induction false} CommentsAreSkipped(rd: Reader, sofar: Contents, line: string)
    requires Sensible(rd) && Comment(line)
    ensures ReadLine(rd, sofar, line + "\n") == sofar
  {
    TrimTail(line, '\n', rd.space);
    if line != "" {
      assert TrimLeft(line, rd.space) == line;
      TrimRightEnds(line, rd.space);
    }
  }

  function CommentLines(comments: seq<string>): seq<string> {
    seq(|comments|, i requires 0 <= i < |comments| => comments[i] + "\n")
  }

  function WordLines(c: Contents, keys: seq<string>): seq<string> {
    seq(|keys|, i requires 0 <= i < |keys| => WordLine(c, keys[i]))
  }

  /** The text from the k-th line on. */
  function Rest(lines: seq<string>, k: nat): string
    requires k <= |lines|
    decreases |lines| - k
  {
    if k == |lines| then "" else lines[k] + Rest(lines, k + 1)
  }

  predicate OneLine(s: string) { s != "" && s[|s| - 1] == '\n' && '\n' !in s[..|s| - 1] }

  lemma {:induction false} LinesOfRest(lines: seq<string>, k: nat)
    requires k <= |lines| && forall i :: 0 <= i < |lines| ==> OneLine(lines[i])
    ensures Lines(Rest(lines, k), "") == lines[k..]
    decreases |lines| - k
  {
    if k < |lines| {
      var text := lines[k][..|lines[k]| - 1];
      assert OneLine(lines[k]) && lines[k] == text + "\n";
      LinesOfLine(text, Rest(lines, k + 1), "");
      LinesOfRest(lines, k + 1);
      assert "" + text + "\n" == lines[k];
      assert lines[k..] == [lines[k]] + lines[k + 1..];
    }
  }

  /** The text of the first n lines. */
  function Whole(lines: seq<string>, n: nat): string
    requires n <= |lines|
  {
    if n == 0 then "" else Whole(lines, n - 1) + lines[n - 1]
  }

  lemma {:induction false} WholeRest(lines: seq<string>, k: nat)
    requires k <= |lines|
    ensures Whole(lines, |lines|) == Whole(lines, k) + Rest(lines, k)
    decreases |lines| - k
  {
    if k < |lines| {
      WholeRest(lines, k + 1);
      assert (Whole(lines, k) + lines[k]) + Rest(lines, k + 1) == Whole(lines, k) + (lines[k] + Rest(lines, k + 1));
    } else {
      assert Whole(lines, k) + "" == Whole(lines, k);
    }
  }

  lemma {:induction false} WholeAppend(a: seq<string>, b: seq<string>, n: nat)
    requires n <= |b|
    ensures Whole(a + b, |a| + n) == Whole(a, |a|) + Whole(b, n)
  {
    if n > 0 {
      WholeAppend(a, b, n - 1);
      assert (a + b)[|a| + n - 1] == b[n - 1];
      assert (Whole(a, |a|) + Whole(b, n - 1)) + b[n - 1] == Whole(a, |a|) + (Whole(b, n - 1) + b[n - 1]);
    } else {
      WholePrefix(a, b, |a|);
      assert Whole(a, |a|) + "" == Whole(a, |a|);
    }
  }

  lemma {:induction false} WholePrefix(a: seq<string>, b: seq<string>, n: nat)
    requires n <= |a|
    ensures Whole(a + b, n) == Whole(a, n)
  {
    if n > 0 { WholePrefix(a, b, n - 1); }
  }

  lemma {:induction false} HeaderIsWhole(comments: seq<string>, n: nat)
    requires n <= |comments|
    ensures HeaderText(comments, n) == Whole(CommentLines(comments), n)
  {
    if n > 0 {
      HeaderIsWhole(comments, n - 1);
      assert HeaderText(comments, n - 1) + comments[n - 1] + "\n" == HeaderText(comments, n - 1) + (comments[n - 1] + "\n");
    }
  }

  lemma {:induction false} BodyIsWhole(c: Contents, keys: seq<string>, n: nat)
    requires n <= |keys|
    ensures BodyText(c, keys, n) == Whole(WordLines(c, keys), n)
  {
    hide WordLine;
    if n > 0 { BodyIsWhole(c, keys, n - 1); }
  }

  /** Every line of the file, in order. */
  function FileLines(c: Contents, keys: seq<string>, comments: seq<string>): seq<string> {
    CommentLines(comments) + WordLines(c, keys)
  }

  /** Everything written can be read back: accepted words with a few short meanings each, and comments of one line. */
  predicate Exportable(rd: Reader, c: Contents, keys: seq<string>, comments: seq<string>) {
    && Sensible(rd)
    && (forall k :: 0 <= k < |comments| ==> Comment(comments[k]))
    && (forall w <- keys :: w in c.words) && (forall w <- c.words :: w in keys)
    && (forall w <- c.words :: c.words[w].word == w && Kept(rd, c.words[w], Senses(c, w)))
    && (forall w <- c.meanings :: w in c.words && c.meanings[w] != [])
  }

  lemma WordLineIsOne(rd: Reader, c: Contents, word: string)
    requires Sensible(rd) && word in c.words && Kept(rd, c.words[word], Senses(c, word)) && c.words[word].word == word
    requires Writable(rd, word, Senses(c, word))
    ensures OneLine(WordLine(c, word))
  {
    var senses := Senses(c, word);
    AllFit(rd, c.words[word], senses);
    NoBreaks(rd, senses, |senses|);
    var text := word + CellsText(senses, |senses|);
    assert WordLine(c, word)[..|text|] == text;
  }

  lemma FileLineAt(c: Contents, keys: seq<string>, comments: seq<string>, i: nat)
    requires i < |comments| + |keys|
    ensures |FileLines(c, keys, comments)| == |comments| + |keys|
    ensures FileLines(c, keys, comments)[i]
            == if i < |comments| then comments[i] + "\n" else WordLine(c, keys[i - |comments|])
  {
  }

  lemma CommentIsOne(line: string)
    requires Comment(line)
    ensures OneLine(line + "\n")
  {
    assert (line + "\n")[..|line|] == line;
  }

  lemma KeyIsKept(rd: Reader, c: Contents, keys: seq<string>, comments: seq<string>, k: nat)
    requires Exportable(rd, c, keys, comments) && Written(rd, c, keys, comments).Some? && k < |keys|
    ensures keys[k] in c.words && c.words[keys[k]].word == keys[k] && Kept(rd, c.words[keys[k]], Senses(c, keys[k]))
    ensures Writable(rd, keys[k], Senses(c, keys[k]))
  {
    assert keys[k] in keys;
  }

  lemma EachLineIsOne(rd: Reader, c: Contents, keys: seq<string>, comments: seq<string>, i: nat)
    requires Exportable(rd, c, keys, comments) && Written(rd, c, keys, comments).Some?
    requires i < |FileLines(c, keys, comments)|
    ensures OneLine(FileLines(c, keys, comments)[i])
  {
    FileLineAt(c, keys, comments, i);
    hide FileLines, WordLine, OneLine, Written, Kept, Senses, Writable, Comment;
    if i < |comments| {
      CommentIsOne(comments[i]);
    } else {
      KeyIsKept(rd, c, keys, comments, i - |comments|);
      WordLineIsOne(rd, c, keys[i - |comments|]);
    }
  }

  /** The file is its lines, one after another. */
  lemma TextIsRest(rd: Reader, c: Contents, keys: seq<string>, comments: seq<string>)
    requires Written(rd, c, keys, comments).Some?
    ensures Written(rd, c, keys, comments).value == Rest(FileLines(c, keys, comments), 0)
  {
    hide HeaderText, BodyText, WordLines, CommentLines, Rest, Writable;
    var lines := FileLines(c, keys, comments);
    HeaderIsWhole(comments, |comments|);
    BodyIsWhole(c, keys, |keys|);
    LineCounts(c, keys, comments);
    WholeAppend(CommentLines(comments), WordLines(c, keys), |keys|);
    WholeRest(lines, 0);
    assert Whole(lines, 0) + Rest(lines, 0) == Rest(lines, 0);
  }

  lemma LineCounts(c: Contents, keys: seq<string>, comments: seq<string>)
    ensures |CommentLines(comments)| == |comments| && |WordLines(c, keys)| == |keys|
  {
  }

  lemma LinesComeBack(rd: Reader, c: Contents, keys: seq<string>, comments: seq<string>)
    requires Exportable(rd, c, keys, comments) && Written(rd, c, keys, comments).Some?
    ensures Lines(Written(rd, c, keys, comments).value, "") == FileLines(c, keys, comments)
  {
    hide *;
    var lines := FileLines(c, keys, comments);
    forall i | 0 <= i < |lines| ensures OneLine(lines[i]) { EachLineIsOne(rd, c, keys, comments, i); }
    TextIsRest(rd, c, keys, comments);
    LinesOfRest(lines, 0);
    assert lines[0..] == lines;
  }

  /** The part of the dictionary that the first n keys name. */
  function Named(c: Contents, keys: seq<string>, n: nat): Contents
    requires n <= |keys|
  {
    Contents(map w | w in c.words && w in keys[..n] :: c.words[w], map w | w in c.meanings && w in keys[..n] :: c.meanings[w])
  }

  lemma NamedMore(c: Contents, keys: seq<string>, n: nat)
    requires n < |keys| && keys[n] in c.words && forall w <- c.meanings :: c.meanings[w] != []
    ensures var w := keys[n]; var before := Named(c, keys, n);
            Named(c, keys, n + 1)
            == Contents(before.words[w := c.words[w]],
                        if Senses(c, w) == [] then before.meanings else before.meanings[w := Senses(c, w)])
  {
    assert keys[..n + 1] == keys[..n] + [keys[n]];
  }

  lemma ReadOneMore(rd: Reader, lines: seq<string>, n: nat)
    requires 0 < n <= |lines|
    ensures ReadLines(rd, lines, n) == ReadLine(rd, ReadLines(rd, lines, n - 1), lines[n - 1])
  {
  }

  lemma CommentAt(rd: Reader, c: Contents, keys: seq<string>, comments: seq<string>, i: nat)
    requires Exportable(rd, c, keys, comments) && i < |comments|
    ensures Comment(comments[i])
  {
  }

  lemma ExportableMeans(rd: Reader, c: Contents, keys: seq<string>, comments: seq<string>)
    requires Exportable(rd, c, keys, comments)
    ensures Sensible(rd) && forall w <- c.meanings :: c.meanings[w] != []
  {
  }

  lemma NothingRead(rd: Reader, lines: seq<string>, c: Contents, keys: seq<string>)
    ensures ReadLines(rd, lines, 0) == Named(c, keys, 0)
  {
    assert Named(c, keys, 0) == Contents(map[], map[]);
  }

  lemma {:induction false} ReadFile(rd: Reader, c: Contents, keys: seq<string>, comments: seq<string>, n: nat)
    requires Exportable(rd, c, keys, comments) && Written(rd, c, keys, comments).Some?
    requires n <= |comments| + |keys| && |FileLines(c, keys, comments)| == |comments| + |keys|
    ensures ReadLines(rd, FileLines(c, keys, comments), n) == Named(c, keys, if n < |comments| then 0 else n - |comments|)
  {
    hide *;
    var lines := FileLines(c, keys, comments);
    if n == 0 {
      NothingRead(rd, lines, c, keys);
    } else {
      ReadFile(rd, c, keys, comments, n - 1);
      FileLineAt(c, keys, comments, n - 1);
      ReadOneMore(rd, lines, n);
      ExportableMeans(rd, c, keys, comments);
      if n <= |comments| {
        CommentAt(rd, c, keys, comments, n - 1);
        CommentsAreSkipped(rd, ReadLines(rd, lines, n - 1), comments[n - 1]);
      } else {
        var k := n - 1 - |comments|;
        KeyIsKept(rd, c, keys, comments, k);
        WordLineReads(rd, c, Named(c, keys, k), keys[k]);
        NamedMore(c, keys, k);
      }
    }
  }

  lemma AllNamed(rd: Reader, c: Contents, keys: seq<string>, comments: seq<string>)
    requires Exportable(rd, c, keys, comments)
    ensures Named(c, keys, |keys|) == c
  {
    hide Kept, Senses, Comment, Sensible;
    AllOf(keys);
    assert Named(c, keys, |keys|).words == c.words;
    assert Named(c, keys, |keys|).meanings == c.meanings;
  }

  lemma FileCounts(c: Contents, keys: seq<string>, comments: seq<string>)
    ensures |FileLines(c, keys, comments)| == |comments| + |keys|
  {
  }

  /** Whenever the dictionary can be written, reading the file gives back exactly that dictionary. */
  lemma CorpusRoundTrips(rd: Reader, c: Contents, keys: seq<string>, comments: seq<string>)
    requires Exportable(rd, c, keys, comments) && Written(rd, c, keys, comments).Some?
    ensures var lines := Lines(Written(rd, c, keys, comments).value, "");
            ReadLines(rd, lines, |lines|) == c
  {
    hide *;
    LinesComeBack(rd, c, keys, comments);
    FileCounts(c, keys, comments);
    ReadFile(rd, c, keys, comments, |comments| + |keys|);
    AllNamed(rd, c, keys, comments);
  }
}
