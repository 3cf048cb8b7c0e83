/** The in-memory word store and its lookups. */
module Dictionary {
  import opened Basics

  datatype WordInfo = WordInfo(first: string, last: string)

  datatype Opener = Opener(word: string, degree: int)

  /** How many of the first n openers leave at least minOutDegree answers. */
  function Eligible(openers: seq<Opener>, minOutDegree: int, n: nat): (r: nat)
    requires n <= |openers|
    ensures r <= n
  {
    if n == 0 then 0
    else Eligible(openers, minOutDegree, n - 1) + (if openers[n - 1].degree >= minOutDegree then 1 else 0)
  }

  /** One meaning of a word: its part of speech, if known, and the definition. */
  datatype Sense = Sense(pos: string, gloss: string)

  datatype Store = Store(
    words: map<string, WordInfo>,
    aliases: map<string, string>,
    byFirst: map<string, seq<string>>,
    outDegree: map<string, int>,
    openers: seq<Opener>)
  {
    /** A canonical word is itself; an alias is the word it stands for. */
    function Resolve(word: string): Option<string> {
      if word in words then Some(word)
      else if word in aliases then Some(aliases[word])
      else None
    }

    function FirstSyllable(word: string): Option<string> {
      if word in words then Some(words[word].first) else None
    }

    function LastSyllable(word: string): Option<string> {
      if word in words then Some(words[word].last) else None
    }

    function WordsStartingWith(syllable: string): seq<string> {
      if syllable in byFirst then byFirst[syllable] else []
    }

    /** A word to open a game on that leaves at least so many answers; `draw` is the draw among them. */
    function OpeningWord(minOutDegree: int, draw: nat): Option<string> {
      var n := Eligible(openers, minOutDegree, |openers|);
      if n == 0 then None else Some(openers[draw % n].word)
    }

    /** None is the unknown syllable, which is not the same as a known dead end. */
    function OutDegree(syllable: string): Option<int> {
      if syllable in outDegree then Some(outDegree[syllable]) else None
    }
  }

  /** The index by first syllable lists exactly the words that begin there, each once. */
  ghost predicate Indexed(store: Store) {
    && (forall s, w :: w in store.WordsStartingWith(s) <==> store.FirstSyllable(w) == Some(s))
    && (forall s :: Distinct(store.WordsStartingWith(s)))
  }
}
