/** The committed word list: printing the dictionary as text and reading it back. */
module Corpus {
  import opened Basics
  import opened Dictionary
  import opened Texts

  const MAX_SENSES: nat := 5
  const MAX_GLOSS: nat := 200

  datatype Entry = Entry(word: string, first: string, last: string, syllables: nat)

  datatype Contents = Contents(words: map<string, Entry>, meanings: map<string, seq<Sense>>)

  /** How words are accepted and what counts as space. */
  datatype Reader = Reader(accept: string -> Option<Entry>, space: char -> bool)

  // ----- pieces of text -----

  /** s cut at every c; `piece` is what of the current piece has been read. */
  function CutAt(s: string, c: char, piece: string): (r: seq<string>)
    ensures |r| >= 1
    decreases |s|
  {
    if s == "" then [piece]
    else if s[0] == c then [piece] + CutAt(s[1..], c, "")
    else CutAt(s[1..], c, piece + [s[0]])
  }

  /** The lines of a text, each with the newline that ends it; a last line need have none. */
  function Lines(s: string, line: string): seq<string>
    decreases |s|
  {
    if s == "" then if line == "" then [] else [line]
    else if s[0] == '\n' then [line + "\n"] + Lines(s[1..], "")
    else Lines(s[1..], line + [s[0]])
  }

  /** Where c first is from i on, or the length of s. */
  function FirstOf(s: string, c: char, i: nat): (r: nat)
    requires i <= |s|
    ensures i <= r <= |s| && (r < |s| ==> s[r] == c) && forall k :: i <= k < r ==> s[k] != c
    decreases |s| - i
  {
    if i == |s| || s[i] == c then i else FirstOf(s, c, i + 1)
  }

  // ----- capping a definition -----

  function LastSpace(s: string, n: nat): (r: int)
    requires n <= |s|
    ensures -1 <= r < n && (r >= 0 ==> s[r] == ' ')
  {
    if n == 0 then -1 else if s[n - 1] == ' ' then n - 1 else LastSpace(s, n - 1)
  }

  predicate Dangling(c: char) { c in {' ', ',', ';', ':'} }

  function CapGloss(s: string): string {
    if |s| <= MAX_GLOSS then s
    else
      var head := s[..MAX_GLOSS - 1];
      var sp := LastSpace(head, |head|);
      TrimRight(if sp > 0 then head[..sp] else head, Dangling) + "…"
  }

  /** A capped definition fits, and one that fits is left alone. */
  lemma CapFits(s: string)
    ensures |CapGloss(s)| <= 200
    ensures |s| <= 200 <==> CapGloss(s) == s
  {
  }

  /**
   * A definition too long to keep is cut at the last space that leaves room for the mark, or where it has to be when there is
   * no space to cut at; what is left hanging at the cut goes, and the mark stands for the rest.
   */
  lemma CapCutsAtASpace(s: string) returns (cut: nat, kept: nat)
    requires |s| > 200
    ensures kept <= cut < 200 && CapGloss(s) == s[..kept] + "…"
    ensures AllSpace(s[kept..cut], Dangling) && (kept > 0 ==> !Dangling(s[kept - 1]))
    ensures (cut > 0 && s[cut] == ' ') || cut == 199
    ensures forall i :: cut < i < 199 ==> s[i] != ' '
    ensures cut == 199 ==> forall i :: 0 < i < cut ==> s[i] != ' '
  {
    var head := s[..MAX_GLOSS - 1];
    var sp := LastSpace(head, |head|);
    LastSpaceIs(head, |head|);
    cut := if sp > 0 then sp else |head|;
    assert head[..cut] == s[..cut] && (if sp > 0 then head[..sp] else head) == s[..cut];
    kept := TrimRightIs(s[..cut], Dangling);
    assert s[..cut][..kept] == s[..kept] && s[..cut][kept..] == s[kept..cut];
  }

  lemma {:induction false} LastSpaceIs(s: string, n: nat)
    requires n <= |s|
    ensures forall i :: LastSpace(s, n) < i < n ==> s[i] != ' '
  {
    if n > 0 && s[n - 1] != ' ' { LastSpaceIs(s, n - 1); }
  }

  // ----- writing -----

  /** Whether a value can be carried by a line. */
  predicate Field(rd: Reader, s: string) {
    '\t' !in s && '\r' !in s && '\n' !in s && s == TrimSpace(s, rd.space)
  }

  function Cell(s: Sense): string { s.pos + "|" + s.gloss }

  function Senses(c: Contents, word: string): seq<Sense> {
    if word in c.meanings then c.meanings[word] else []
  }

  /** The cells of the first n meanings, each after a tab. */
  function CellsText(senses: seq<Sense>, n: nat): string
    requires n <= |senses|
  {
    if n == 0 then "" else CellsText(senses, n - 1) + "\t" + Cell(senses[n - 1])
  }

  predicate Writable(rd: Reader, word: string, senses: seq<Sense>) {
    && Field(rd, word)
    && forall i :: 0 <= i < |senses| ==>
         Field(rd, senses[i].gloss) && Field(rd, senses[i].pos) && '|' !in senses[i].pos
  }

  function WordLine(c: Contents, word: string): string {
    word + CellsText(Senses(c, word), |Senses(c, word)|) + "\n"
  }

  function HeaderText(comments: seq<string>, n: nat): string
    requires n <= |comments|
  {
    if n == 0 then "" else HeaderText(comments, n - 1) + comments[n - 1] + "\n"
  }

  function BodyText(c: Contents, keys: seq<string>, n: nat): string
    requires n <= |keys|
  {
    if n == 0 then "" else BodyText(c, keys, n - 1) + WordLine(c, keys[n - 1])
  }

  /** The file for the words in `keys`, under some comment lines; None when a value cannot be written. */
  function Written(rd: Reader, c: Contents, keys: seq<string>, comments: seq<string>): Option<string> {
    if forall k :: 0 <= k < |keys| ==> Writable(rd, keys[k], Senses(c, keys[k])) then
      Some(HeaderText(comments, |comments|) + BodyText(c, keys, |keys|))
    else None
  }

  method WriteWord(rd: Reader, c: Contents, word: string) returns (line: Option<string>)
    ensures line == if Writable(rd, word, Senses(c, word)) then Some(WordLine(c, word)) else None
  {
    if !Field(rd, word) {
      return None;
    }
    var senses, out := Senses(c, word), word;
    for i := 0 to |senses|
      invariant out == word + CellsText(senses, i)
      invariant forall k :: 0 <= k < i ==>
        Field(rd, senses[k].gloss) && Field(rd, senses[k].pos) && '|' !in senses[k].pos
    {
      var s := senses[i];
      if !Field(rd, s.gloss) || !Field(rd, s.pos) || '|' in s.pos {
        return None;
      }
      assert word + CellsText(senses, i) + "\t" + Cell(s) == word + (CellsText(senses, i) + "\t" + Cell(s));
      out := out + "\t" + Cell(s);
    }
    return Some(out + "\n");
  }

  method WriteCorpus(rd: Reader, c: Contents, keys: seq<string>, comments: seq<string>) returns (text: Option<string>)
    ensures text == Written(rd, c, keys, comments)
  {
    var header := "";
    for i := 0 to |comments|
      invariant header == HeaderText(comments, i)
    {
      header := header + comments[i] + "\n";
    }
    var body := "";
    for k := 0 to |keys|
      invariant body == BodyText(c, keys, k)
      invariant forall j :: 0 <= j < k ==> Writable(rd, keys[j], Senses(c, keys[j]))
    {
      var line := WriteWord(rd, c, keys[k]);
      if line.None? {
        return None;
      }
      body := body + line.value;
    }
    return Some(header + body);
  }

  // ----- reading -----

  /** A trimmed, non-empty meaning cell: a label and a definition, or a definition alone. */
  function ParseCell(rd: Reader, cell: string): Sense {
    var bar := FirstOf(cell, '|', 0);
    if bar == |cell| then Sense("", cell)
    else Sense(TrimSpace(cell[..bar], rd.space), TrimSpace(cell[bar + 1..], rd.space))
  }

  /** The meanings in the first n cells, no more than are kept. */
  function ParseSenses(rd: Reader, cells: seq<string>, n: nat): seq<Sense>
    requires n <= |cells|
  {
    if n == 0 then []
    else
      var senses, cell := ParseSenses(rd, cells, n - 1), TrimSpace(cells[n - 1], rd.space);
      if cell == "" then senses
      else
        var s := ParseCell(rd, cell);
        if s.gloss == "" || |senses| >= MAX_SENSES then senses else senses + [s.(gloss := CapGloss(s.gloss))]
  }

  lemma SensesMore(rd: Reader, cells: seq<string>, n: nat)
    requires n < |cells|
    ensures var senses, cell := ParseSenses(rd, cells, n), TrimSpace(cells[n], rd.space);
            ParseSenses(rd, cells, n + 1)
            == if cell == "" || ParseCell(rd, cell).gloss == "" || |senses| >= MAX_SENSES then senses
               else senses + [ParseCell(rd, cell).(gloss := CapGloss(ParseCell(rd, cell).gloss))]
  {
  }

  /** A cell without a bar is a definition and nothing else. */
  lemma BareCellIsAGloss(rd: Reader, cell: string)
    requires '|' !in cell
    ensures ParseCell(rd, cell) == Sense("", cell)
  {
    assert forall k :: 0 <= k < |cell| ==> cell[k] in cell;
  }

  /** Meanings are kept in the order they come, and once there are as many as are kept the rest are passed over. */
  lemma {:induction false} SensesOnlyGrow(rd: Reader, cells: seq<string>, m: nat, n: nat)
    requires m <= n <= |cells|
    ensures ParseSenses(rd, cells, m) <= ParseSenses(rd, cells, n)
    ensures |ParseSenses(rd, cells, m)| == 5 ==> ParseSenses(rd, cells, n) == ParseSenses(rd, cells, m)
    decreases n
  {
    hide ParseSenses, ParseCell, CapGloss, TrimSpace;
    if m < n {
      SensesOnlyGrow(rd, cells, m, n - 1);
      SensesMore(rd, cells, n - 1);
    }
  }

  method ReadSenses(rd: Reader, cells: seq<string>) returns (senses: seq<Sense>)
    ensures senses == ParseSenses(rd, cells, |cells|)
  {
    hide CapGloss, ParseCell, TrimSpace;
    senses := [];
    for i := 0 to |cells|
      invariant senses == ParseSenses(rd, cells, i)
    {
      hide ParseSenses;
      SensesMore(rd, cells, i);
      var cell := TrimSpace(cells[i], rd.space);
      if cell == "" {
        continue;
      }
      var s := ParseCell(rd, cell);
      if s.gloss == "" {
        continue;
      }
      s := s.(gloss := CapGloss(s.gloss));
      if |senses| < MAX_SENSES {
        senses := senses + [s];
      }
    }
  }

  /** One line read: a word with its meanings, or nothing. */
  function ReadLine(rd: Reader, c: Contents, raw: string): Contents {
    var line := TrimSpace(raw, rd.space);
    if line == "" || line[0] == '#' then c
    else
      var cells := CutAt(line, '\t', "");
      match rd.accept(cells[0])
      case None => c
      case Some(e) =>
        var senses := ParseSenses(rd, cells[1..], |cells| - 1);
        Contents(c.words[e.word := e], if senses == [] then c.meanings else c.meanings[e.word := senses])
  }

  /** A line whose word is not accepted adds nothing, and takes nothing away. */
  lemma RefusedLineIsPassedOver(rd: Reader, c: Contents, raw: string)
    ensures var line := TrimSpace(raw, rd.space);
            rd.accept(CutAt(line, '\t', "")[0]).None? ==> ReadLine(rd, c, raw) == c
  {
    hide TrimSpace, CutAt, ParseSenses;
  }

  function ReadLines(rd: Reader, lines: seq<string>, n: nat): Contents
    requires n <= |lines|
  {
    if n == 0 then Contents(map[], map[]) else ReadLine(rd, ReadLines(rd, lines, n - 1), lines[n - 1])
  }

  method ReadWordList(rd: Reader, raw: string) returns (c: Contents)
    ensures c == ReadLines(rd, Lines(raw, ""), |Lines(raw, "")|)
  {
    var lines := Lines(raw, "");
    var words: map<string, Entry>, meanings: map<string, seq<Sense>> := map[], map[];
    for i := 0 to |lines|
      invariant Contents(words, meanings) == ReadLines(rd, lines, i)
    {
      var line := TrimSpace(lines[i], rd.space);
      if line == "" || line[0] == '#' {
        continue;
      }
      var cells := CutAt(line, '\t', "");
      var entry := rd.accept(cells[0]);
      if entry.None? {
        continue;
      }
      words := words[entry.value.word := entry.value];
      var senses := ReadSenses(rd, cells[1..]);
      if |senses| > 0 {
        meanings := meanings[entry.value.word := senses];
      }
    }
    return Contents(words, meanings);
  }
}
