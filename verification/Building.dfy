/** From the accepted words to the dictionary the server plays with: aliases, the tables that are written, and loading. */
module Building {
  import opened Basics
  import opened Dictionary
  import opened Loading
  import A = AliasTable
  import Corpus
  import CorpusRoundTrip
  import Spelling
  import Texts

  /** What is written: the rows of every table, and how many words and meanings the metadata declares. */
  datatype Tables = Tables(rows: seq<Row>, syllables: seq<Degree>, aliases: seq<Alias>, meanings: seq<Meaning>,
                           wordCount: int, meaningCount: int)

  /** Every entry is filed under its own word, and a word with meanings has at least one. */
  ghost predicate Filed(c: Corpus.Contents) {
    && (forall w <- c.words :: c.words[w].word == w)
    && (forall w <- c.meanings :: c.meanings[w] != [])
  }

  /** No definition is empty or over the cap. */
  predicate Fit(senses: seq<Sense>) {
    forall s <- senses :: s.gloss != "" && |s.gloss| <= Corpus.MAX_GLOSS
  }

  /** Every meaning is a word's, and fit to keep. */
  ghost predicate Sound(c: Corpus.Contents) {
    forall w <- c.meanings :: w in c.words && Fit(c.meanings[w])
  }

  /** The words as the server keeps them. */
  function Infos(words: map<string, Corpus.Entry>): map<string, WordInfo> {
    map w | w in words :: WordInfo(words[w].first, words[w].last)
  }

  predicate RowOf(words: map<string, Corpus.Entry>, row: Row) {
    row.word in words
    && var e := words[row.word]; row.first == e.first && row.last == e.last && row.syllables == e.syllables
  }

  predicate AliasOf(aliases: map<string, string>, row: Alias) {
    row.variant in aliases && aliases[row.variant] == row.canonical
  }

  predicate MeaningOf(meanings: map<string, seq<Sense>>, row: Meaning) {
    row.word in meanings && row.sense in meanings[row.word]
  }

  /** The tables hold exactly this dictionary. */
  ghost predicate Holds(c: Corpus.Contents, aliases: map<string, string>, t: Tables) {
    && Keyed(t.rows) && WordTable(t.rows, |t.rows|) == Infos(c.words) && t.wordCount == |t.rows|
    && (forall row <- t.rows :: RowOf(c.words, row))
    && DegreeTable(t.syllables, |t.syllables|) == Tally(t.rows, |t.rows|)
    && Loading.AliasTable(t.aliases, |t.aliases|) == aliases && (forall row <- t.aliases :: AliasOf(aliases, row))
    && MeaningTable(t.meanings, |t.meanings|) == c.meanings && t.meaningCount == |t.meanings|
    && (forall row <- t.meanings :: MeaningOf(c.meanings, row))
  }

  // ----- writing -----

  /** A list whose last row is new says what the front of it says, and that. */
  lemma RowsMore(rows: seq<Row>, row: Row)
    ensures WordTable(rows + [row], |rows| + 1) == WordTable(rows, |rows|)[row.word := WordInfo(row.first, row.last)]
  {
    WordTablePrefix(rows, [row], |rows|);
  }

  lemma {:induction false} WordTablePrefix(rows: seq<Row>, more: seq<Row>, n: nat)
    requires n <= |rows|
    ensures WordTable(rows + more, n) == WordTable(rows, n)
  {
    if n > 0 { WordTablePrefix(rows, more, n - 1); }
  }

  lemma {:induction false} DegreeTablePrefix(rows: seq<Degree>, more: seq<Degree>, n: nat)
    requires n <= |rows|
    ensures DegreeTable(rows + more, n) == DegreeTable(rows, n)
  {
    if n > 0 { DegreeTablePrefix(rows, more, n - 1); }
  }

  lemma {:induction false} AliasTablePrefix(rows: seq<Alias>, more: seq<Alias>, n: nat)
    requires n <= |rows|
    ensures Loading.AliasTable(rows + more, n) == Loading.AliasTable(rows, n)
  {
    if n > 0 { AliasTablePrefix(rows, more, n - 1); }
  }

  lemma {:induction false} MeaningTablePrefix(rows: seq<Meaning>, more: seq<Meaning>, n: nat)
    requires n <= |rows|
    ensures MeaningTable(rows + more, n) == MeaningTable(rows, n)
  {
    if n > 0 { MeaningTablePrefix(rows, more, n - 1); }
  }

  lemma MeaningTableNone(rows: seq<Meaning>)
    ensures MeaningTable(rows, 0) == map[]
  {
  }

  lemma MeaningsMore(rows: seq<Meaning>, word: string, s: Sense)
    ensures var before := MeaningTable(rows, |rows|);
            MeaningTable(rows + [Meaning(word, s)], |rows| + 1) == before[word := SensesOf(before, word) + [s]]
  {
    MeaningTablePrefix(rows, [Meaning(word, s)], |rows|);
  }

  /** The words table, in whatever order the words come. */
  method WriteWords(words: map<string, Corpus.Entry>) returns (rows: seq<Row>)
    requires forall w <- words :: words[w].word == w
    ensures Keyed(rows) && WordTable(rows, |rows|) == Infos(words) && forall row <- rows :: RowOf(words, row)
  {
    rows := [];
    var left := words.Keys;
    while left != {}
      invariant left <= words.Keys && Keyed(rows)
      invariant forall row <- rows :: RowOf(words, row)
      invariant forall k :: 0 <= k < |rows| ==> rows[k].word !in left
      invariant WordTable(rows, |rows|) == map w | w in words && w !in left :: WordInfo(words[w].first, words[w].last)
      decreases |left|
    {
      var w :| w in left;
      var row := Row(words[w].word, words[w].first, words[w].last, words[w].syllables);
      RowsMore(rows, row);
      rows := rows + [row];
      left := left - {w};
    }
  }

  method WriteDegrees(counts: map<string, int>) returns (rows: seq<Degree>)
    ensures DegreeTable(rows, |rows|) == counts
  {
    rows := [];
    var left := counts.Keys;
    while left != {}
      invariant left <= counts.Keys
      invariant DegreeTable(rows, |rows|) == map s | s in counts && s !in left :: counts[s]
      decreases |left|
    {
      var s :| s in left;
      DegreeTablePrefix(rows, [Degree(s, counts[s])], |rows|);
      rows := rows + [Degree(s, counts[s])];
      left := left - {s};
    }
  }

  method WriteAliases(aliases: map<string, string>) returns (rows: seq<Alias>)
    ensures Loading.AliasTable(rows, |rows|) == aliases && forall row <- rows :: AliasOf(aliases, row)
  {
    rows := [];
    var left := aliases.Keys;
    while left != {}
      invariant left <= aliases.Keys && forall row <- rows :: AliasOf(aliases, row)
      invariant Loading.AliasTable(rows, |rows|) == map v | v in aliases && v !in left :: aliases[v]
      decreases |left|
    {
      var v :| v in left;
      AliasTablePrefix(rows, [Alias(v, aliases[v])], |rows|);
      rows := rows + [Alias(v, aliases[v])];
      left := left - {v};
    }
  }

  /** The rows of one word's meanings, or none if a definition is empty or over the cap. */
  method WriteSenses(before: seq<Meaning>, word: string, senses: seq<Sense>) returns (rows: Option<seq<Meaning>>)
    requires word !in MeaningTable(before, |before|)
    ensures rows.Some? <==> Fit(senses)
    ensures rows.Some? && senses != [] ==>
      MeaningTable(rows.value, |rows.value|) == MeaningTable(before, |before|)[word := senses]
    ensures rows.Some? ==> forall row <- rows.value :: row in before || (row.word == word && row.sense in senses)
  {
    hide MeaningTable;
    var out := before;
    for i := 0 to |senses|
      invariant forall row <- out :: row in before || (row.word == word && row.sense in senses)
      invariant forall k :: 0 <= k < i ==> senses[k].gloss != "" && |senses[k].gloss| <= Corpus.MAX_GLOSS
      invariant MeaningTable(out, |out|)
                == if i == 0 then MeaningTable(before, |before|) else MeaningTable(before, |before|)[word := senses[..i]]
    {
      if senses[i].gloss == "" || |senses[i].gloss| > Corpus.MAX_GLOSS {
        return None;
      }
      MeaningsMore(out, word, senses[i]);
      out := out + [Meaning(word, senses[i])];
      assert senses[..i + 1] == senses[..i] + [senses[i]];
    }
    assert senses[..|senses|] == senses;
    return Some(out);
  }

  method WriteMeanings(c: Corpus.Contents) returns (rows: Option<seq<Meaning>>)
    requires Filed(c)
    ensures rows.Some? <==> Sound(c)
    ensures rows.Some? ==> MeaningTable(rows.value, |rows.value|) == c.meanings && forall row <- rows.value :: MeaningOf(c.meanings, row)
  {
    hide MeaningTable, Fit;
    var out: seq<Meaning> := [];
    MeaningTableNone(out);
    var left := c.meanings.Keys;
    while left != {}
      invariant left <= c.meanings.Keys && forall row <- out :: MeaningOf(c.meanings, row)
      invariant MeaningTable(out, |out|) == map w | w in c.meanings && w !in left :: c.meanings[w]
      invariant forall w :: w in c.meanings && w !in left ==> w in c.words && Fit(c.meanings[w])
      decreases |left|
    {
      var w :| w in left;
      if w !in c.words {
        return None;
      }
      var more := WriteSenses(out, w, c.meanings[w]);
      if more.None? {
        return None;
      }
      out := more.value;
      left := left - {w};
    }
    return Some(out);
  }

  /** Writes the whole dictionary, in whatever order its parts come; a meaning that is not sound is an error. */
  method WriteTo(c: Corpus.Contents, aliases: map<string, string>) returns (t: Option<Tables>)
    requires Filed(c)
    ensures t.Some? <==> Sound(c)
    ensures t.Some? ==> Holds(c, aliases, t.value)
  {
    hide Sound, Infos, MeaningTable, WordTable, DegreeTable, Loading.AliasTable, Tally, Keyed, RowOf, AliasOf, MeaningOf;
    var rows := WriteWords(c.words);
    var counts := CountDegrees(rows);
    var syllables := WriteDegrees(counts);
    var variants := WriteAliases(aliases);
    var meanings := WriteMeanings(c);
    if meanings.None? {
      return None;
    }
    return Some(Tables(rows, syllables, variants, meanings.value, |rows|, |meanings.value|));
  }

  // ----- what is written is what is served -----

  /**
   * Any tables that hold a dictionary with aliases for its words open, and what is served is that dictionary: its words,
   * its aliases and its meanings, indexed by first syllable.
   */
  lemma WrittenIsServed(c: Corpus.Contents, aliases: map<string, string>, t: Tables)
    requires Holds(c, aliases, t) && c.words != map[] && (forall v <- aliases :: aliases[v] in c.words)
    requires forall w <- c.meanings :: w in c.words
    ensures var store := Assembled(t.syllables, t.rows, t.aliases);
            && Consistent(store, t.wordCount)
            && Meant(store.words, MeaningTable(t.meanings, |t.meanings|), |t.meanings|, t.meaningCount)
            && store.words == Infos(c.words) && store.aliases == aliases && Indexed(store)
  {
    assert Infos(c.words).Keys == c.words.Keys;
    WrittenOpens(t.syllables, t.rows, t.aliases);
    LoadedIsIndexed(t.syllables, t.rows, t.aliases);
  }

  /** The alternative spellings of a word, taken apart at its spaces. */
  function VariantsOf(sp: Spelling.Speller): string -> seq<string> {
    (w: string) => Spelling.Variants(sp, Corpus.CutAt(w, ' ', ""))
  }

  lemma {:induction false} CutJoined(syllables: seq<string>)
    requires syllables != [] && forall s <- syllables :: ' ' !in s
    ensures Corpus.CutAt(Texts.Join(syllables, " "), ' ', "") == syllables
    decreases |syllables|
  {
    var first, rest := syllables[0], syllables[1..];
    assert "" + first == first && [first] + rest == syllables;
    if rest == [] {
      CorpusRoundTrip.CutPiece(first, "", ' ', "");
    } else {
      CutJoined(rest);
      CorpusRoundTrip.CutPiece(first, Texts.Join(rest, " "), ' ', "");
    }
  }

  /** A word's alternative spellings are those of the syllables it is made of. */
  lemma VariantsOfAWord(sp: Spelling.Speller, syllables: seq<string>)
    requires syllables != [] && forall s <- syllables :: ' ' !in s
    ensures VariantsOf(sp)(Texts.Join(syllables, " ")) == Spelling.Variants(sp, syllables)
  {
    hide Spelling.Variants;
    CutJoined(syllables);
  }

  method InSomeOrder(words: set<string>) returns (order: seq<string>)
    ensures Distinct(order) && words == A.Seen(order, |order|)
  {
    order := [];
    var left := words;
    while left != {}
      invariant left <= words && Distinct(order) && forall w :: w in order <==> w in words && w !in left
      decreases |left|
    {
      var w :| w in left;
      order := order + [w];
      left := left - {w};
    }
    assert order[..|order|] == order;
  }

  // ----- what has been written is checked again before it is kept -----

  const MIN_COVERAGE := 0.6

  /** The checks a written dictionary is put through: enough words, and each of them, its aliases and its meanings whole. */
  predicate Verifies(t: Tables, minWords: int, requireCoverage: bool) {
    var words, meanings := WordTable(t.rows, |t.rows|), MeaningTable(t.meanings, |t.meanings|);
    && |t.rows| >= minWords
    && (forall row <- t.rows :: row.syllables >= 2 && row.first != "" && row.last != ""
                                && row.first in DegreeTable(t.syllables, |t.syllables|))
    && (forall row <- t.aliases :: row.canonical in words && row.variant !in words)
    && (forall row <- t.meanings ::
          row.word in words && row.sense.gloss != "" && |row.sense.gloss| <= Corpus.MAX_GLOSS)
    && (forall w <- meanings :: |meanings[w]| <= Corpus.MAX_SENSES)
    && (requireCoverage ==> |meanings| as real >= MIN_COVERAGE * |words| as real)
  }

  /** What the words and meanings themselves must be for it: enough of them, and three words in five explained. */
  ghost predicate Enough(c: Corpus.Contents, minWords: int, requireCoverage: bool) {
    && |c.words| >= minWords
    && (requireCoverage ==> 5 * |c.meanings| >= 3 * |c.words|)
  }

  ghost predicate Whole(c: Corpus.Contents) {
    && (forall w <- c.words :: c.words[w].syllables >= 2 && c.words[w].first != "" && c.words[w].last != "")
    && (forall w <- c.meanings :: |c.meanings[w]| <= 5)
  }

  lemma RowsAreWords(c: Corpus.Contents, t: Tables)
    requires Keyed(t.rows) && WordTable(t.rows, |t.rows|) == Infos(c.words)
    ensures |t.rows| == |c.words| == |Infos(c.words)| && Infos(c.words).Keys == c.words.Keys
    ensures forall w <- c.words :: exists i :: 0 <= i < |t.rows| && t.rows[i].word == w
  {
    WordTableSize(t.rows, |t.rows|);
    WordTableIs(t.rows, |t.rows|);
    var infos := Infos(c.words);
    assert infos.Keys == c.words.Keys && |infos| == |infos.Keys| && |c.words| == |c.words.Keys|;
  }

  /** What the builder writes fails none of its own checks: what they decide, the words and meanings it was given decide. */
  lemma VerifiesIff(c: Corpus.Contents, aliases: map<string, string>, t: Tables, minWords: int, requireCoverage: bool)
    requires Holds(c, aliases, t) && Sound(c)
    requires forall v <- aliases :: v !in c.words && aliases[v] in c.words
    ensures Verifies(t, minWords, requireCoverage) <==> Enough(c, minWords, requireCoverage) && Whole(c)
  {
    hide WordTable, MeaningTable, DegreeTable, Loading.AliasTable, Tally, Infos, Keyed;
    RowsAreWords(c, t);
    forall row | row in t.rows ensures row.first in DegreeTable(t.syllables, |t.syllables|) {
      var i :| 0 <= i < |t.rows| && t.rows[i] == row;
      TallyCounts(t.rows, |t.rows|, row.first);
    }
    forall row | row in t.meanings
      ensures row.word in c.words && row.sense.gloss != "" && |row.sense.gloss| <= Corpus.MAX_GLOSS
    {
      assert MeaningOf(c.meanings, row);
    }
    forall row | row in t.aliases ensures row.canonical in c.words && row.variant !in c.words {
      assert AliasOf(aliases, row);
    }
    if Verifies(t, minWords, requireCoverage) {
      forall w | w in c.words ensures c.words[w].syllables >= 2 && c.words[w].first != "" && c.words[w].last != "" {
        var i :| 0 <= i < |t.rows| && t.rows[i].word == w;
        assert t.rows[i] in t.rows && RowOf(c.words, t.rows[i]);
      }
    }
    if Whole(c) {
      forall row | row in t.rows ensures row.syllables >= 2 && row.first != "" && row.last != "" {
        assert RowOf(c.words, row);
      }
    }
  }

  /** The tail of every build: the floor, the aliases, the writing and the checks. */
  method Finish(c: Corpus.Contents, sp: Spelling.Speller, minWords: int, requireCoverage: bool)
    returns (t: Option<Tables>, aliases: map<string, string>)
    requires Filed(c)
    ensures t.Some? <==> Sound(c) && Enough(c, minWords, requireCoverage) && Whole(c)
    ensures t.Some? ==> Holds(c, aliases, t.value)
                        && A.Gives(A.Claims(c.words.Keys, VariantsOf(sp)), c.words.Keys, aliases)
  {
    hide Sound, Holds, Verifies, Whole;
    aliases := map[];
    if |c.words| < minWords {
      return None, aliases;
    }
    var order := InSomeOrder(c.words.Keys);
    forall w ensures Distinct(VariantsOf(sp)(w)) { Spelling.VariantsAreSpellings(sp, Corpus.CutAt(w, ' ', "")); }
    var collisions;
    aliases, collisions := A.BuildAliases(order, VariantsOf(sp));
    A.AliasesPointAtWords(c.words.Keys, VariantsOf(sp), aliases);
    t := WriteTo(c, aliases);
    if t.Some? {
      VerifiesIff(c, aliases, t.value, minWords, requireCoverage);
      if !Verifies(t.value, minWords, requireCoverage) {
        t := None;
      }
    }
  }

  /**
   * The whole way from accepted words to a running server: aliases are built, the tables are written, checked and opened.
   * It comes through exactly when there is a word, there are enough of them and enough with a meaning, and every word and
   * meaning is whole; then the server has every word and every meaning as they were accepted, and each alternative spelling
   * exactly when it is no word and one word alone claims it.
   */
  method BuildAndOpen(c: Corpus.Contents, sp: Spelling.Speller, minWords: int, requireCoverage: bool)
    returns (served: Option<Opened>)
    requires Filed(c)
    ensures served.Some? <==> Sound(c) && Enough(c, minWords, requireCoverage) && Whole(c) && c.words != map[]
    ensures served.Some? ==>
      && served.value.store.words == Infos(c.words) && served.value.meanings == c.meanings
      && A.Gives(A.Claims(c.words.Keys, VariantsOf(sp)), c.words.Keys, served.value.store.aliases)
      && Indexed(served.value.store)
  {
    var tables, aliases := Finish(c, sp, minWords, requireCoverage);
    if tables.None? {
      return None;
    }
    var t := tables.value;
    A.AliasesPointAtWords(c.words.Keys, VariantsOf(sp), aliases);
    if c.words == map[] {
      assert Infos(c.words) == map[];
    } else {
      WrittenIsServed(c, aliases, t);
    }
    served := Open(t.wordCount, t.meaningCount, t.syllables, t.rows, t.aliases, t.meanings);
  }

  /**
   * What a player's text stands for in a dictionary that has been built: a word, when it is that word, or when it is no word
   * and that word alone is also spelled so; and otherwise nothing.
   */
  lemma TextStandsFor(c: Corpus.Contents, sp: Spelling.Speller, store: Store, text: string, word: string)
    requires store.words == Infos(c.words)
    requires A.Gives(A.Claims(c.words.Keys, VariantsOf(sp)), c.words.Keys, store.aliases)
    ensures store.Resolve(text) == Some(word) <==>
            || (text == word && word in c.words)
            || (text !in c.words && word in c.words && text in VariantsOf(sp)(word)
                && forall w <- c.words :: text in VariantsOf(sp)(w) ==> w == word)
  {
    hide Spelling.Variants, VariantsOf;
    var claims, variants := A.Claims(c.words.Keys, VariantsOf(sp)), VariantsOf(sp);
    A.AliasesPointAtWords(c.words.Keys, variants, store.aliases);
    assert store.words.Keys == c.words.Keys;
    var claimants := A.Claimants(claims, text);
    forall w ensures w in claimants <==> w in c.words && text in variants(w) {
      assert w in claimants <==> (w, text) in claims;
    }
    if text !in c.words && word in c.words && text in variants(word)
       && forall w <- c.words :: text in variants(w) ==> w == word {
      assert claimants == {word};
    }
    if text in store.aliases { assert claimants == {store.aliases[text]}; }
  }

  // ----- words that have been read are words that can be built from -----

  /** No word is accepted without two syllables and the names of its first and last. */
  ghost predicate Accepts(rd: Corpus.Reader) {
    forall raw :: var e := rd.accept(raw); e.Some? ==> e.value.syllables >= 2 && e.value.first != "" && e.value.last != ""
  }

  lemma {:induction false} SensesAreSound(rd: Corpus.Reader, cells: seq<string>, n: nat)
    requires n <= |cells|
    ensures |Corpus.ParseSenses(rd, cells, n)| <= Corpus.MAX_SENSES
    ensures Fit(Corpus.ParseSenses(rd, cells, n))
  {
    hide Corpus.ParseCell, Corpus.CapGloss, Texts.TrimSpace;
    if n > 0 {
      SensesAreSound(rd, cells, n - 1);
      Corpus.SensesMore(rd, cells, n - 1);
      hide Corpus.ParseSenses;
      var cell := Texts.TrimSpace(cells[n - 1], rd.space);
      CappedIsWhole(Corpus.ParseCell(rd, cell).gloss);
    }
  }

  lemma CappedIsWhole(gloss: string)
    ensures |Corpus.CapGloss(gloss)| <= Corpus.MAX_GLOSS && (gloss != "" ==> Corpus.CapGloss(gloss) != "")
  {
    Corpus.CapFits(gloss);
  }

  /** One more word, whole, with its meanings, if it has any. */
  lemma AddedIsSound(c: Corpus.Contents, e: Corpus.Entry, senses: seq<Sense>)
    requires Filed(c) && Sound(c) && Whole(c)
    requires e.syllables >= 2 && e.first != "" && e.last != "" && |senses| <= Corpus.MAX_SENSES
    requires Fit(senses)
    ensures var more := Corpus.Contents(c.words[e.word := e],
                                        if senses == [] then c.meanings else c.meanings[e.word := senses]);
            Filed(more) && Sound(more) && Whole(more)
  {
  }

  lemma LineIsSound(rd: Corpus.Reader, c: Corpus.Contents, raw: string)
    requires Accepts(rd) && Filed(c) && Sound(c) && Whole(c)
    ensures var more := Corpus.ReadLine(rd, c, raw); Filed(more) && Sound(more) && Whole(more)
  {
    hide Filed, Sound, Whole, Corpus.ParseSenses, Corpus.CutAt, Texts.TrimSpace;
    var line := Texts.TrimSpace(raw, rd.space);
    if line != "" && line[0] != '#' {
      var cells := Corpus.CutAt(line, '\t', "");
      var senses := Corpus.ParseSenses(rd, cells[1..], |cells| - 1);
      SensesAreSound(rd, cells[1..], |cells| - 1);
      if rd.accept(cells[0]).Some? { AddedIsSound(c, rd.accept(cells[0]).value, senses); }
    }
  }

  lemma {:induction false} ReadIsSound(rd: Corpus.Reader, lines: seq<string>, n: nat)
    requires Accepts(rd) && n <= |lines|
    ensures var c := Corpus.ReadLines(rd, lines, n); Filed(c) && Sound(c) && Whole(c)
  {
    hide Accepts, Corpus.ReadLine;
    if n > 0 {
      ReadIsSound(rd, lines, n - 1);
      hide Filed, Sound, Whole;
      LineIsSound(rd, Corpus.ReadLines(rd, lines, n - 1), lines[n - 1]);
    }
  }

  /**
   * From a word list to a running server, whatever the text of the list: nothing the reader lets through is refused
   * later, so all that can stop the build is too few words, or too few with a meaning.
   */
  method BuildFromText(rd: Corpus.Reader, raw: string, sp: Spelling.Speller, minWords: int, requireCoverage: bool)
    returns (served: Option<Opened>)
    requires Accepts(rd)
    ensures var lines := Corpus.Lines(raw, ""); var c := Corpus.ReadLines(rd, lines, |lines|);
            && (served.Some? <==> Enough(c, minWords, requireCoverage) && c.words != map[])
            && (served.Some? ==> served.value.store.words == Infos(c.words) && served.value.meanings == c.meanings
                                 && A.Gives(A.Claims(c.words.Keys, VariantsOf(sp)), c.words.Keys, served.value.store.aliases))
  {
    hide Enough, Sound, Whole, Filed, Corpus.ReadLines, Corpus.Lines;
    ghost var lines := Corpus.Lines(raw, "");
    ReadIsSound(rd, lines, |lines|);
    var c := Corpus.ReadWordList(rd, raw);
    served := BuildAndOpen(c, sp, minWords, requireCoverage);
  }
}
