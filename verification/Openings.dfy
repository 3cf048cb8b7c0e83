/** Drawing the word a game opens on: which words may be drawn, and that each of them opens a playable game. */
module Openings {
  import opened Basics
  import opened Dictionary
  import opened Loading
  import opened Sorting
  import Endings
  import GameRules

  /** Among openers in descending order the eligible ones are a prefix. */
  lemma {:induction false} EligibleArePrefix(openers: seq<Opener>, minOutDegree: int, n: nat)
    requires SortedBy(openers, Descending) && n <= |openers|
    ensures forall i :: 0 <= i < n ==> (i < Eligible(openers, minOutDegree, n) <==> openers[i].degree >= minOutDegree)
  {
    if n > 0 {
      EligibleArePrefix(openers, minOutDegree, n - 1);
      if openers[n - 1].degree >= minOutDegree {
        forall i | 0 <= i < n ensures openers[i].degree >= minOutDegree {
          assert Descending(openers[i]) <= Descending(openers[n - 1]);
        }
        assert n >= 2 ==> n - 2 < Eligible(openers, minOutDegree, n - 1);
      }
    }
  }

  /** Draws one of the eligible openers, by a binary search for where they end. */
  method PickOpeningWord(store: Store, minOutDegree: int, draw: nat) returns (w: Option<string>)
    requires SortedBy(store.openers, Descending)
    ensures w == store.OpeningWord(minOutDegree, draw)
  {
    var openers := store.openers;
    var lo, hi := 0, |openers|;
    EligibleArePrefix(openers, minOutDegree, |openers|);
    while lo < hi
      invariant 0 <= lo <= Eligible(openers, minOutDegree, |openers|) <= hi <= |openers|
    {
      var mid := (lo + hi) / 2;
      if openers[mid].degree < minOutDegree {
        hi := mid;
      } else {
        lo := mid + 1;
      }
    }
    if lo == 0 {
      return None;
    }
    return Some(openers[draw % lo].word);
  }

  lemma {:induction false} OpenersAre(rows: seq<Row>, outDegree: map<string, int>, n: nat, o: Opener)
    requires n <= |rows|
    ensures o in Openers(rows, outDegree, n) <==>
      exists i :: 0 <= i < n && o == Opener(rows[i].word, DegreeOf(outDegree, rows[i].last)) && o.degree > 0
  {
    if n > 0 {
      OpenersAre(rows, outDegree, n - 1, o);
      var last := Opener(rows[n - 1].word, DegreeOf(outDegree, rows[n - 1].last));
      if o in Openers(rows, outDegree, n - 1) {
        var i :| 0 <= i < n - 1 && o == Opener(rows[i].word, DegreeOf(outDegree, rows[i].last)) && o.degree > 0;
      } else if o == last && o.degree > 0 {
        assert 0 <= n - 1 < n && o == Opener(rows[n - 1].word, DegreeOf(outDegree, rows[n - 1].last));
      }
    }
  }

  /** The store's openers are its answerable words in descending order. */
  lemma SortedOpeners(syllables: seq<Degree>, rows: seq<Row>, aliases: seq<Alias>, o: Opener)
    requires Keyed(rows)
    ensures var store := Assembled(syllables, rows, aliases);
            && SortedBy(store.openers, Descending)
            && (o in store.openers <==> o.degree > 0 && o.word in store.words
                                        && o.degree == DegreeOf(store.outDegree, store.words[o.word].last))
  {
    var store := Assembled(syllables, rows, aliases);
    var found := Openers(rows, store.outDegree, |rows|);
    StableSortCorrect(found, Descending);
    SameElements(store.openers, found);
    OpenersAre(rows, store.outDegree, |rows|, o);
    WordTableIs(rows, |rows|);
    if o.word in store.words {
      var i :| 0 <= i < |rows| && rows[i].word == o.word;
      assert store.words[o.word].last == rows[i].last;
    }
  }

  /** Some word leaves at least so many answers, as the store counts them. */
  ghost predicate SomeWordLeaves(store: Store, minOutDegree: int) {
    exists w <- store.words :: DegreeOf(store.outDegree, store.words[w].last) >= minOutDegree
  }

  /** What a store that has been loaded and checked is, as far as opening a game goes. */
  ghost predicate Served(store: Store) {
    && Indexed(store) && SortedBy(store.openers, Descending)
    && (forall o :: o in store.openers <==> o.degree > 0 && o.word in store.words
                                            && o.degree == DegreeOf(store.outDegree, store.words[o.word].last))
    && (forall s <- store.outDegree :: |store.WordsStartingWith(s)| == store.outDegree[s])
  }

  lemma LoadedIsServed(syllables: seq<Degree>, rows: seq<Row>, aliases: seq<Alias>, declaredWords: int)
    requires Keyed(rows) && Consistent(Assembled(syllables, rows, aliases), declaredWords)
    ensures Served(Assembled(syllables, rows, aliases))
  {
    var store := Assembled(syllables, rows, aliases);
    LoadedIsIndexed(syllables, rows, aliases);
    hide Assembled, SortedBy, Indexed;
    SortedOpeners(syllables, rows, aliases, Opener("", 0));
    forall o ensures o in store.openers <==> o.degree > 0 && o.word in store.words
                                             && o.degree == DegreeOf(store.outDegree, store.words[o.word].last)
    {
      SortedOpeners(syllables, rows, aliases, o);
    }
  }

  /** A draw finds a word exactly when some word leaves enough answers, and then one that does. */
  lemma DrawnLeaves(store: Store, minOutDegree: int, draw: nat)
    requires Served(store) && minOutDegree >= 1
    ensures store.OpeningWord(minOutDegree, draw).Some? <==> SomeWordLeaves(store, minOutDegree)
    ensures var drawn := store.OpeningWord(minOutDegree, draw);
            drawn.Some? ==> drawn.value in store.words
                            && |store.WordsStartingWith(store.words[drawn.value].last)| >= minOutDegree
  {
    var n := |store.openers|;
    EligibleArePrefix(store.openers, minOutDegree, n);
    var e := Eligible(store.openers, minOutDegree, n);
    if e > 0 {
      var o := store.openers[draw % e];
      assert o in store.openers && o.degree >= minOutDegree;
    }
    if w :| w in store.words && DegreeOf(store.outDegree, store.words[w].last) >= minOutDegree {
      var o := Opener(w, DegreeOf(store.outDegree, store.words[w].last));
      assert o in store.openers;
      var i :| 0 <= i < n && store.openers[i] == o;
    }
  }

  /** Every word that leaves enough answers can be drawn. */
  lemma EveryWordMayBeDrawn(store: Store, minOutDegree: int, w: string) returns (draw: nat)
    requires Served(store) && minOutDegree >= 1
    requires w in store.words && DegreeOf(store.outDegree, store.words[w].last) >= minOutDegree
    ensures store.OpeningWord(minOutDegree, draw) == Some(w)
  {
    hide Indexed, Eligible;
    var n, o := |store.openers|, Opener(w, DegreeOf(store.outDegree, store.words[w].last));
    EligibleArePrefix(store.openers, minOutDegree, n);
    assert o in store.openers;
    draw :| 0 <= draw < n && store.openers[draw] == o;
    WithinItself(draw, Eligible(store.openers, minOutDegree, n));
  }

  lemma WithinItself(x: nat, n: nat)
    requires x < n
    ensures x % n == x
  {
  }

  /** Every draw with two answers or more opens a game, whoever plays it. */
  lemma EveryDrawPlays(rules: GameRules.Rules, minOutDegree: int, draw: nat, players: seq<GameRules.PlayerID>,
                       now: GameRules.Time)
    requires Served(rules.dict) && minOutDegree >= 2 && rules.turnLimit > 0 && |players| >= 2 && Distinct(players)
    ensures var drawn := rules.dict.OpeningWord(minOutDegree, draw);
            && (drawn.Some? <==> SomeWordLeaves(rules.dict, minOutDegree))
            && (drawn.Some? ==> GameRules.New(rules, players, drawn.value, now).Started?)
  {
    DrawnLeaves(rules.dict, minOutDegree, draw);
    var drawn := rules.dict.OpeningWord(minOutDegree, draw);
    hide SomeWordLeaves;
    if drawn.Some? { Endings.OpeningPlays(rules, players, drawn.value, now); }
  }

  /** There is a word to draw exactly when some word leaves enough answers. */
  lemma DrawnIffAnswerable(syllables: seq<Degree>, rows: seq<Row>, aliases: seq<Alias>, minOutDegree: int)
    requires Keyed(rows) && minOutDegree >= 1
    ensures var store := Assembled(syllables, rows, aliases);
            Eligible(store.openers, minOutDegree, |store.openers|) > 0 <==>
            exists w <- store.words :: DegreeOf(store.outDegree, store.words[w].last) >= minOutDegree
  {
    var store := Assembled(syllables, rows, aliases);
    var any := Opener("", 1);
    SortedOpeners(syllables, rows, aliases, any);
    EligibleArePrefix(store.openers, minOutDegree, |store.openers|);
    if Eligible(store.openers, minOutDegree, |store.openers|) > 0 {
      SortedOpeners(syllables, rows, aliases, store.openers[0]);
    }
    if w :| w in store.words && DegreeOf(store.outDegree, store.words[w].last) >= minOutDegree {
      var o := Opener(w, DegreeOf(store.outDegree, store.words[w].last));
      SortedOpeners(syllables, rows, aliases, o);
      var i :| 0 <= i < |store.openers| && store.openers[i] == o;
    }
  }

  /** Every word that may be drawn with two answers or more opens a game that can be played. */
  lemma DrawnOpeningPlays(syllables: seq<Degree>, rows: seq<Row>, aliases: seq<Alias>, declaredWords: int,
                          minOutDegree: int, i: nat, rules: GameRules.Rules, players: seq<GameRules.PlayerID>,
                          now: GameRules.Time)
    requires Keyed(rows) && minOutDegree >= 2
    requires rules.dict == Assembled(syllables, rows, aliases) && Consistent(rules.dict, declaredWords)
    requires i < Eligible(rules.dict.openers, minOutDegree, |rules.dict.openers|)
    requires rules.turnLimit > 0 && |players| >= 2 && Distinct(players)
    ensures GameRules.New(rules, players, rules.dict.openers[i].word, now).Started?
  {
    var store := rules.dict;
    var o := store.openers[i];
    SortedOpeners(syllables, rows, aliases, o);
    EligibleArePrefix(store.openers, minOutDegree, |store.openers|);
    LoadedIsIndexed(syllables, rows, aliases);
    assert store.words[o.word].last in store.outDegree;
    Endings.OpeningPlays(rules, players, o.word, now);
  }

  /**
   * Which draws can open a game: a word drawn at a minimum of one does unless it is its own only answer, and at two or
   * more that cannot be.
   */
  lemma DrawnPlaysIff(syllables: seq<Degree>, rows: seq<Row>, aliases: seq<Alias>, declaredWords: int, minOutDegree: int,
                      i: nat, rules: GameRules.Rules, players: seq<GameRules.PlayerID>, now: GameRules.Time)
    requires Keyed(rows) && minOutDegree >= 1
    requires rules.dict == Assembled(syllables, rows, aliases) && Consistent(rules.dict, declaredWords)
    requires i < Eligible(rules.dict.openers, minOutDegree, |rules.dict.openers|)
    requires rules.turnLimit > 0 && |players| >= 2 && Distinct(players)
    ensures var o := rules.dict.openers[i];
            o.word in rules.dict.words && o.degree >= minOutDegree
            && (GameRules.New(rules, players, o.word, now).Started? <==>
                  o.degree >= 2 || rules.dict.words[o.word].first != rules.dict.words[o.word].last)
  {
    var store := rules.dict;
    var o := store.openers[i];
    SortedOpeners(syllables, rows, aliases, o);
    EligibleArePrefix(store.openers, minOutDegree, |store.openers|);
    LoadedIsIndexed(syllables, rows, aliases);
    assert store.words[o.word].last in store.outDegree;
    Endings.WordPlaysIff(rules, players, o.word, now);
  }

  /** The draw that fails: the one word of this dictionary is drawn at a minimum of one, and no game opens on it. */
  lemma LoneLoopCannotOpen(normalize: string -> Option<GameRules.Normalized>, players: seq<GameRules.PlayerID>,
                           now: GameRules.Time)
    ensures var store := Assembled([Degree("a", 1)], [Row("a a", "a", "a", 2)], []);
            && Consistent(store, 1) && store.openers == [Opener("a a", 1)] && Eligible(store.openers, 1, 1) == 1
            && GameRules.New(GameRules.Rules(store, normalize, 1), players, "a a", now).Refused?
  {
    LoneStore();
    var store := Assembled([Degree("a", 1)], [Row("a a", "a", "a", 2)], []);
    hide Assembled;
    assert store.words.Keys == {"a a"} && |store.words| == |store.words.Keys|;
    assert Eligible(store.openers, 1, 0) == 0;
  }

  lemma LoneStore()
    ensures Assembled([Degree("a", 1)], [Row("a a", "a", "a", 2)], [])
            == Store(map["a a" := WordInfo("a", "a")], map[], map["a" := ["a a"]], map["a" := 1], [Opener("a a", 1)])
  {
    var syllables, rows: seq<Row>, aliases: seq<Alias> := [Degree("a", 1)], [Row("a a", "a", "a", 2)], [];
    var store := Assembled(syllables, rows, aliases);
    assert DegreeTable(syllables, 0) == map[] && store.outDegree == map["a" := 1];
    assert WordTable(rows, 0) == map[] && store.words == map["a a" := WordInfo("a", "a")];
    assert [] + ["a a"] == ["a a"];
    assert Index(rows, 0) == map[] && store.byFirst == map["a" := ["a a"]];
    assert Openers(rows, store.outDegree, 0) == [] && Openers(rows, store.outDegree, 1) == [Opener("a a", 1)];
    StableSortCorrect(Openers(rows, store.outDegree, 1), Descending);
    assert store.openers == [Opener("a a", 1)];
  }
}
