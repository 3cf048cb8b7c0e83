/** Filling the word store from its tables, checking it, and drawing the opening word of a game. */
module Loading {
  import opened Basics
  import opened Dictionary
  import opened Sorting

  /** A row of the words table; the word is its key. How many syllables it has is not read back. */
  datatype Row = Row(word: string, first: string, last: string, syllables: nat)

  datatype Degree = Degree(syllable: string, count: int)

  datatype Alias = Alias(variant: string, canonical: string)

  /** A row of the meanings table, whose rows are read word by word, each word's in the order of its page. */
  datatype Meaning = Meaning(word: string, sense: Sense)

  /** A dictionary that is being served: its words, and what they mean. */
  datatype Opened = Opened(store: Store, meanings: map<string, seq<Sense>>)

  // ----- what the tables mean -----

  function WordTable(rows: seq<Row>, n: nat): map<string, WordInfo>
    requires n <= |rows|
  {
    if n == 0 then map[]
    else WordTable(rows, n - 1)[rows[n - 1].word := WordInfo(rows[n - 1].first, rows[n - 1].last)]
  }

  /** The words among the first n rows that begin on s, in order. */
  function Starting(rows: seq<Row>, n: nat, s: string): seq<string>
    requires n <= |rows|
  {
    if n == 0 then []
    else Starting(rows, n - 1, s) + (if rows[n - 1].first == s then [rows[n - 1].word] else [])
  }

  function DegreeTable(rows: seq<Degree>, n: nat): map<string, int>
    requires n <= |rows|
  {
    if n == 0 then map[] else DegreeTable(rows, n - 1)[rows[n - 1].syllable := rows[n - 1].count]
  }

  function AliasTable(rows: seq<Alias>, n: nat): map<string, string>
    requires n <= |rows|
  {
    if n == 0 then map[] else AliasTable(rows, n - 1)[rows[n - 1].variant := rows[n - 1].canonical]
  }

  function SensesOf(meanings: map<string, seq<Sense>>, word: string): seq<Sense> {
    if word in meanings then meanings[word] else []
  }

  function MeaningTable(rows: seq<Meaning>, n: nat): map<string, seq<Sense>>
    requires n <= |rows|
  {
    if n == 0 then map[]
    else
      var before, row := MeaningTable(rows, n - 1), rows[n - 1];
      before[row.word := SensesOf(before, row.word) + [row.sense]]
  }

  /** How many of the first n rows are of this word. */
  function RowsOf(rows: seq<Meaning>, n: nat, word: string): nat
    requires n <= |rows|
  {
    if n == 0 then 0 else RowsOf(rows, n - 1, word) + (if rows[n - 1].word == word then 1 else 0)
  }

  /** Every word has the meanings of its rows, and no others, in the order of the rows. */
  lemma {:induction false} MeaningsInOrder(rows: seq<Meaning>, n: nat, word: string)
    requires n <= |rows|
    ensures |SensesOf(MeaningTable(rows, n), word)| == RowsOf(rows, n, word)
    ensures forall i :: 0 <= i < n && rows[i].word == word ==>
      RowsOf(rows, i, word) < RowsOf(rows, n, word)
      && SensesOf(MeaningTable(rows, n), word)[RowsOf(rows, i, word)] == rows[i].sense
  {
    if n > 0 { MeaningsInOrder(rows, n - 1, word); }
  }

  /** A syllable nobody counted counts as a dead end. */
  function DegreeOf(outDegree: map<string, int>, s: string): int {
    if s in outDegree then outDegree[s] else 0
  }

  /** The words a game may open on, with how many words can answer each. */
  function Openers(rows: seq<Row>, outDegree: map<string, int>, n: nat): seq<Opener>
    requires n <= |rows|
  {
    if n == 0 then []
    else
      var degree := DegreeOf(outDegree, rows[n - 1].last);
      Openers(rows, outDegree, n - 1) + (if degree > 0 then [Opener(rows[n - 1].word, degree)] else [])
  }

  /** The index with one more word under the syllable it begins on. */
  function Filed(byFirst: map<string, seq<string>>, row: Row): map<string, seq<string>> {
    byFirst[row.first := (if row.first in byFirst then byFirst[row.first] else []) + [row.word]]
  }

  function Index(rows: seq<Row>, n: nat): map<string, seq<string>>
    requires n <= |rows|
  {
    if n == 0 then map[] else Filed(Index(rows, n - 1), rows[n - 1])
  }

  function Descending(o: Opener): int { -o.degree }

  /** The checks a store must pass before it is served. */
  ghost predicate Consistent(store: Store, declaredWords: int) {
    && |store.words| == declaredWords && store.words != map[]
    && (forall s <- store.outDegree :: |store.WordsStartingWith(s)| == store.outDegree[s])
    && (forall v <- store.aliases :: store.aliases[v] in store.words)
  }

  /** A store that passes has as many words as were declared, degrees that count, and understands nothing that is no word. */
  lemma ConsistentMeans(store: Store, declaredWords: int)
    requires Consistent(store, declaredWords)
    ensures |store.words| == declaredWords >= 1
    ensures forall s <- store.outDegree :: store.OutDegree(s) == Some(|store.WordsStartingWith(s)|)
    ensures forall text :: store.Resolve(text).Some? ==> store.Resolve(text).value in store.words
  {
  }

  /** The checks its meanings must pass: as many as were declared, and none for what is not a word. */
  ghost predicate Meant(words: map<string, WordInfo>, meanings: map<string, seq<Sense>>, count: int, declaredMeanings: int) {
    count == declaredMeanings && forall w <- meanings :: w in words
  }

  // ----- loading -----

  class Loader {
    var words: map<string, WordInfo>
    var aliases: map<string, string>
    var byFirst: map<string, seq<string>>
    var outDegree: map<string, int>
    var openers: seq<Opener>
    var meanings: map<string, seq<Sense>>
    var meaningCount: int

    constructor ()
      ensures View() == Store(map[], map[], map[], map[], []) && meanings == map[] && meaningCount == 0
    {
      words, aliases, byFirst, outDegree, openers := map[], map[], map[], map[], [];
      meanings, meaningCount := map[], 0;
    }

    function View(): Store
      reads this
    {
      Store(words, aliases, byFirst, outDegree, openers)
    }

    method LoadSyllables(rows: seq<Degree>)
      requires outDegree == map[]
      modifies this`outDegree
      ensures outDegree == DegreeTable(rows, |rows|)
    {
      for i := 0 to |rows|
        invariant outDegree == DegreeTable(rows, i)
      {
        outDegree := outDegree[rows[i].syllable := rows[i].count];
      }
    }

    method LoadWords(rows: seq<Row>)
      requires words == map[] && byFirst == map[] && openers == []
      modifies this`words, this`byFirst, this`openers
      ensures words == WordTable(rows, |rows|) && byFirst == Index(rows, |rows|)
      ensures openers == Openers(rows, outDegree, |rows|)
    {
      for i := 0 to |rows|
        invariant words == WordTable(rows, i)
        invariant byFirst == Index(rows, i)
        invariant openers == Openers(rows, outDegree, i)
      {
        var row := rows[i];
        words := words[row.word := WordInfo(row.first, row.last)];
        byFirst := Filed(byFirst, row);
        var degree := DegreeOf(outDegree, row.last);
        if degree > 0 {
          openers := openers + [Opener(row.word, degree)];
        }
      }
    }

    method LoadAliases(rows: seq<Alias>)
      requires aliases == map[]
      modifies this`aliases
      ensures aliases == AliasTable(rows, |rows|)
    {
      for i := 0 to |rows|
        invariant aliases == AliasTable(rows, i)
      {
        aliases := aliases[rows[i].variant := rows[i].canonical];
      }
    }

    method LoadMeanings(rows: seq<Meaning>)
      requires meanings == map[] && meaningCount == 0
      modifies this`meanings, this`meaningCount
      ensures meanings == MeaningTable(rows, |rows|) && meaningCount == |rows|
    {
      for i := 0 to |rows|
        invariant meanings == MeaningTable(rows, i) && meaningCount == i
      {
        meanings := meanings[rows[i].word := SensesOf(meanings, rows[i].word) + [rows[i].sense]];
        meaningCount := meaningCount + 1;
      }
    }

    method Validate(declaredWords: int, declaredMeanings: int) returns (ok: bool)
      ensures ok <==> Consistent(View(), declaredWords) && Meant(words, meanings, meaningCount, declaredMeanings)
    {
      if |words| != declaredWords || |words| == 0 || meaningCount != declaredMeanings {
        return false;
      }
      var meant := meanings.Keys;
      while meant != {}
        invariant meant <= meanings.Keys
        invariant forall w <- meanings :: w in meant || w in words
        decreases |meant|
      {
        var w :| w in meant;
        if w !in words {
          return false;
        }
        meant := meant - {w};
      }
      var syllables := outDegree.Keys;
      while syllables != {}
        invariant syllables <= outDegree.Keys
        invariant forall s <- outDegree :: s in syllables || |View().WordsStartingWith(s)| == outDegree[s]
        decreases |syllables|
      {
        var s :| s in syllables;
        if |View().WordsStartingWith(s)| != outDegree[s] {
          return false;
        }
        syllables := syllables - {s};
      }
      var variants := aliases.Keys;
      while variants != {}
        invariant variants <= aliases.Keys
        invariant forall v <- aliases :: v in variants || aliases[v] in words
        decreases |variants|
      {
        var v :| v in variants;
        if aliases[v] !in words {
          return false;
        }
        variants := variants - {v};
      }
      return true;
    }

    /** Puts the openers with the most answers first; openers with as many keep the order they were read in. */
    method SortOpeners()
      modifies this`openers
      ensures SortedBy(openers, Descending) && multiset(openers) == multiset(old(openers))
      ensures forall k :: WithKey(openers, Descending, k) == WithKey(old(openers), Descending, k)
      ensures openers == StableSort(old(openers), Descending)
    {
      StableSortCorrect(openers, Descending);
      openers := StableSort(openers, Descending);
    }
  }

  /** What the tables hold, with the words that may open a game sorted by how many answers they leave. */
  function Assembled(syllables: seq<Degree>, rows: seq<Row>, aliases: seq<Alias>): Store {
    var outDegree := DegreeTable(syllables, |syllables|);
    Store(WordTable(rows, |rows|), AliasTable(aliases, |aliases|), Index(rows, |rows|), outDegree,
          StableSort(Openers(rows, outDegree, |rows|), Descending))
  }

  /** Opens a dictionary: loads every table, and serves it exactly when it is consistent. */
  method Open(declaredWords: int, declaredMeanings: int, syllables: seq<Degree>, rows: seq<Row>, aliases: seq<Alias>,
              senses: seq<Meaning>)
    returns (r: Option<Opened>)
    ensures var store, meanings := Assembled(syllables, rows, aliases), MeaningTable(senses, |senses|);
            r == if Consistent(store, declaredWords) && Meant(store.words, meanings, |senses|, declaredMeanings)
                 then Some(Opened(store, meanings)) else None
  {
    hide WordTable, AliasTable, DegreeTable, MeaningTable, Index, Openers, Meant, StableSort, SortedBy, WithKey;
    var loader := new Loader();
    loader.LoadSyllables(syllables);
    loader.LoadWords(rows);
    loader.LoadAliases(aliases);
    loader.LoadMeanings(senses);
    var ok := loader.Validate(declaredWords, declaredMeanings);
    if !ok {
      return None;
    }
    loader.SortOpeners();
    return Some(Opened(loader.View(), loader.meanings));
  }

  // ----- the loaded index agrees with the loaded words -----

  /** The words table has one row for each word. */
  ghost predicate Keyed(rows: seq<Row>) {
    forall i, j :: 0 <= i < j < |rows| ==> rows[i].word != rows[j].word
  }

  lemma OneRowMore(rows: seq<Row>, n: nat)
    requires n <= |rows|
    ensures n == 0 ==> WordTable(rows, n) == map[]
    ensures n > 0 ==>
      WordTable(rows, n) == WordTable(rows, n - 1)[rows[n - 1].word := WordInfo(rows[n - 1].first, rows[n - 1].last)]
  {
  }

  lemma {:induction false} WordTableIs(rows: seq<Row>, n: nat)
    requires Keyed(rows) && n <= |rows|
    ensures WordTable(rows, n).Keys == set i | 0 <= i < n :: rows[i].word
    ensures forall i :: 0 <= i < n ==>
      rows[i].word in WordTable(rows, n) && WordTable(rows, n)[rows[i].word] == WordInfo(rows[i].first, rows[i].last)
  {
    hide WordTable;
    OneRowMore(rows, n);
    if n > 0 {
      WordTableIs(rows, n - 1);
      assert (set i | 0 <= i < n :: rows[i].word) == (set i | 0 <= i < n - 1 :: rows[i].word) + {rows[n - 1].word};
    }
  }

  lemma {:induction false} StartingIs(rows: seq<Row>, n: nat, s: string)
    requires Keyed(rows) && n <= |rows|
    ensures forall w :: w in Starting(rows, n, s) <==> exists i :: 0 <= i < n && rows[i].word == w && rows[i].first == s
    ensures Distinct(Starting(rows, n, s))
  {
    if n > 0 {
      StartingIs(rows, n - 1, s);
      var before, last := Starting(rows, n - 1, s), rows[n - 1];
      assert last.word !in before;
      forall w ensures w in Starting(rows, n, s) <==> exists i :: 0 <= i < n && rows[i].word == w && rows[i].first == s {
        if w in before {
          var i :| 0 <= i < n - 1 && rows[i].word == w && rows[i].first == s;
        } else if w == last.word && last.first == s {
          assert 0 <= n - 1 < n && rows[n - 1].word == w;
        }
      }
    }
  }

  /** A word is listed under s exactly when the words table says it begins on s. */
  lemma ListedIffBegins(rows: seq<Row>, s: string, w: string)
    requires Keyed(rows)
    ensures var words := WordTable(rows, |rows|);
            w in Starting(rows, |rows|, s) <==> w in words && words[w].first == s
  {
    var n, words := |rows|, WordTable(rows, |rows|);
    WordTableIs(rows, n);
    StartingIs(rows, n, s);
    if w in words {
      var i :| 0 <= i < n && rows[i].word == w;
      assert words[w].first == rows[i].first;
    }
  }

  lemma {:induction false} IndexIs(rows: seq<Row>, n: nat, s: string)
    requires n <= |rows|
    ensures (if s in Index(rows, n) then Index(rows, n)[s] else []) == Starting(rows, n, s)
  {
    hide Index, Starting;
    OneMore(rows, n, s);
    if n > 0 { IndexIs(rows, n - 1, s); }
  }

  lemma OneMore(rows: seq<Row>, n: nat, s: string)
    requires n <= |rows|
    ensures n == 0 ==> Index(rows, n) == map[] && Starting(rows, n, s) == []
    ensures n > 0 ==>
      && Index(rows, n) == Filed(Index(rows, n - 1), rows[n - 1])
      && Starting(rows, n, s) == Starting(rows, n - 1, s) + (if rows[n - 1].first == s then [rows[n - 1].word] else [])
  {
  }

  /** Under every syllable a loaded store lists exactly the words that begin there, each once. */
  lemma LoadedIsIndexed(syllables: seq<Degree>, rows: seq<Row>, aliases: seq<Alias>)
    requires Keyed(rows)
    ensures Indexed(Assembled(syllables, rows, aliases))
  {
    var store := Assembled(syllables, rows, aliases);
    forall s ensures store.WordsStartingWith(s) == Starting(rows, |rows|, s) { IndexIs(rows, |rows|, s); }
    forall s, w ensures w in store.WordsStartingWith(s) <==> store.FirstSyllable(w) == Some(s) {
      ListedIffBegins(rows, s, w);
    }
    forall s ensures Distinct(store.WordsStartingWith(s)) { StartingIs(rows, |rows|, s); }
  }

  // ----- a dictionary the builder wrote is one the server opens -----

  /** The out-degree of every syllable a word begins or ends on, counted word by word. */
  function Tally(rows: seq<Row>, n: nat): map<string, int>
    requires n <= |rows|
  {
    if n == 0 then map[]
    else
      var before, row := Tally(rows, n - 1), rows[n - 1];
      var counted := before[row.first := DegreeOf(before, row.first) + 1];
      if row.last in counted then counted else counted[row.last := 0]
  }

  method CountDegrees(rows: seq<Row>) returns (outDegree: map<string, int>)
    ensures outDegree == Tally(rows, |rows|)
  {
    outDegree := map[];
    for i := 0 to |rows|
      invariant outDegree == Tally(rows, i)
    {
      outDegree := outDegree[rows[i].first := DegreeOf(outDegree, rows[i].first) + 1];
      if rows[i].last !in outDegree {
        outDegree := outDegree[rows[i].last := 0];
      }
    }
  }

  lemma {:induction false} TallyCounts(rows: seq<Row>, n: nat, s: string)
    requires n <= |rows|
    ensures DegreeOf(Tally(rows, n), s) == |Starting(rows, n, s)|
    ensures s in Tally(rows, n) <==> exists i :: 0 <= i < n && (rows[i].first == s || rows[i].last == s)
  {
    if n > 0 {
      TallyCounts(rows, n - 1, s);
      if s in Tally(rows, n - 1) {
        var i :| 0 <= i < n - 1 && (rows[i].first == s || rows[i].last == s);
      }
      assert rows[n - 1].first == s || rows[n - 1].last == s ==> 0 <= n - 1 < n;
    }
  }

  lemma {:induction false} WordTableSize(rows: seq<Row>, n: nat)
    requires Keyed(rows) && n <= |rows|
    ensures |WordTable(rows, n)| == n
  {
    if n > 0 {
      WordTableSize(rows, n - 1);
      WordTableIs(rows, n - 1);
      var before := WordTable(rows, n - 1);
      assert rows[n - 1].word !in before;
      assert WordTable(rows, n).Keys == before.Keys + {rows[n - 1].word};
    }
  }

  /** Whatever order the counted syllables are stored in, the dictionary opens and knows every syllable a word ends on. */
  lemma WrittenOpens(syllables: seq<Degree>, rows: seq<Row>, aliases: seq<Alias>)
    requires Keyed(rows) && rows != []
    requires DegreeTable(syllables, |syllables|) == Tally(rows, |rows|)
    requires forall v <- AliasTable(aliases, |aliases|) ::
      AliasTable(aliases, |aliases|)[v] in WordTable(rows, |rows|)
    ensures Consistent(Assembled(syllables, rows, aliases), |rows|)
    ensures forall i :: 0 <= i < |rows| ==> rows[i].last in Assembled(syllables, rows, aliases).outDegree
  {
    var store := Assembled(syllables, rows, aliases);
    WordTableSize(rows, |rows|);
    forall s ensures DegreeOf(store.outDegree, s) == |store.WordsStartingWith(s)| {
      TallyCounts(rows, |rows|, s);
      IndexIs(rows, |rows|, s);
    }
    forall i | 0 <= i < |rows| ensures rows[i].last in store.outDegree {
      TallyCounts(rows, |rows|, rows[i].last);
    }
  }
}
