/** The positions a computer player searches and their plain minimax value, with no window, budget or shared state. */
module Minimax {
  import opened Basics
  import opened Dictionary
  import opened Sorting

  const SEARCH_DEPTH: nat := 4
  const NODE_CAP: nat := 20000
  const BRANCH_CAP: nat := 12
  const LOSE_SCORE: real := -1000.0

  /** What a strategy may look at: the legal moves, the words already played and the dictionary. */
  datatype Board = Board(legal: seq<string>, played: set<string>, dict: Store)

  datatype Candidate = Candidate(word: string, last: string, handsOver: nat)

  /** The words the player at `current` could still play on this line. */
  function Free(b: Board, used: set<string>, current: string): seq<string> {
    Unspent(b.dict.WordsStartingWith(current), b.played + used)
  }

  /** How many answers playing w would leave at the syllable it hands over. */
  function Replies(b: Board, used: set<string>, last: string, w: string): nat {
    |Unspent(b.dict.WordsStartingWith(last), b.played + used + {w})|
  }

  /** The candidates among ws, each with the syllable it hands over; words with no last syllable drop out. */
  function Annotate(b: Board, used: set<string>, ws: seq<string>): seq<Candidate> {
    if ws == [] then []
    else
      var rest := Annotate(b, used, ws[..|ws| - 1]);
      var w := ws[|ws| - 1];
      match b.dict.LastSyllable(w)
      case None => rest
      case Some(last) => rest + [Candidate(w, last, Replies(b, used, last, w))]
  }

  function Tightness(c: Candidate): int { c.handsOver }

  function Cap(n: nat): nat { if n < BRANCH_CAP then n else BRANCH_CAP }

  /** No more children than the branch cap are searched. */
  function Capped(cs: seq<Candidate>): seq<Candidate> { cs[..Cap(|cs|)] }

  /** The children a node searches: tightest first, ties in dictionary order, capped. */
  function Children(b: Board, used: set<string>, current: string): seq<Candidate> {
    Capped(StableSort(Annotate(b, used, Free(b, used, current)), Tightness))
  }

  lemma {:induction false} AnnotateSound(b: Board, used: set<string>, ws: seq<string>)
    ensures forall c <- Annotate(b, used, ws) :: c.word in ws && b.dict.LastSyllable(c.word) == Some(c.last)
  {
    if ws != [] {
      AnnotateSound(b, used, ws[..|ws| - 1]);
    }
  }

  /** A searched child is a word nobody has played, on the board or on this line. */
  lemma ChildrenAreFree(b: Board, used: set<string>, current: string)
    ensures forall c <- Children(b, used, current) :: c.word !in used && c.word !in b.played
  {
    var free := Free(b, used, current);
    var cs := Annotate(b, used, free);
    AnnotateSound(b, used, free);
    UnspentExact(b.dict.WordsStartingWith(current), b.played + used);
    SameElements(StableSort(cs, Tightness), cs);
  }

  /** What is searched is the tightest there is, tightest first, and nothing is left out while there is room. */
  lemma ChildrenAreTightest(b: Board, used: set<string>, current: string)
    ensures var all, cs := Annotate(b, used, Free(b, used, current)), Children(b, used, current);
            && |cs| == (if |all| < 12 then |all| else 12) && (forall c <- cs :: c in all)
            && (forall i, j :: 0 <= i < j < |cs| ==> cs[i].handsOver <= cs[j].handsOver)
            && (forall d <- all :: d in cs || forall c <- cs :: c.handsOver <= d.handsOver)
  {
    var all := Annotate(b, used, Free(b, used, current));
    hide Annotate, Free;
    var sorted := StableSort(all, Tightness);
    StableSortCorrect(all, Tightness);
    SameElements(sorted, all);
    assert forall i, j :: 0 <= i < j < |sorted| ==> Tightness(sorted[i]) <= Tightness(sorted[j]);
  }

  function Max(x: real, y: real): real { if x < y then y else x }

  /** The value of a position to the player to move, searching every explored child in full. */
  function Value(b: Board, eval: nat -> real, used: set<string>, current: string, depth: nat): real
    decreases depth, 1, 0
  {
    var free := Free(b, used, current);
    if free == [] then LOSE_SCORE - depth as real
    else if depth == 0 then eval(|free|)
    else
      var cs := Children(b, used, current);
      BestOf(b, eval, used, cs, |cs|, depth)
  }

  /** The best of the first i children, and no worse than the floor. */
  function BestOf(b: Board, eval: nat -> real, used: set<string>, cs: seq<Candidate>, i: nat, depth: nat): real
    requires depth > 0 && i <= |cs|
    decreases depth, 0, i
  {
    if i == 0 then LOSE_SCORE
    else
      var c := cs[i - 1];
      Max(BestOf(b, eval, used, cs, i - 1, depth), -Value(b, eval, used + {c.word}, c.last, depth - 1))
  }

  // ----- the same, as a game between two sides -----

  function Min(x: real, y: real): real { if x < y then x else y }

  /**
   * What a position is worth to the computer player: the most it can make of its own moves, the least the opponent leaves
   * it. Where the lookahead ends, options count for whoever has them to choose from.
   */
  function Worth(b: Board, eval: nat -> real, used: set<string>, current: string, depth: nat, ours: bool): real
    decreases depth, 1, 0
  {
    var options := |Free(b, used, current)|;
    if options == 0 then if ours then LOSE_SCORE - depth as real else depth as real - LOSE_SCORE
    else if depth == 0 then if ours then eval(options) else -eval(options)
    else
      var cs := Children(b, used, current);
      if ours then MostOf(b, eval, used, cs, |cs|, depth) else LeastOf(b, eval, used, cs, |cs|, depth)
  }

  /** The most the computer player gets by choosing among its first i children, and no less than a loss. */
  function MostOf(b: Board, eval: nat -> real, used: set<string>, cs: seq<Candidate>, i: nat, depth: nat): real
    requires depth > 0 && i <= |cs|
    decreases depth, 0, i
  {
    if i == 0 then LOSE_SCORE
    else
      var c := cs[i - 1];
      Max(MostOf(b, eval, used, cs, i - 1, depth), Worth(b, eval, used + {c.word}, c.last, depth - 1, false))
  }

  /** The least the opponent leaves it by choosing among theirs, and no more than a win. */
  function LeastOf(b: Board, eval: nat -> real, used: set<string>, cs: seq<Candidate>, i: nat, depth: nat): real
    requires depth > 0 && i <= |cs|
    decreases depth, 0, i
  {
    if i == 0 then -LOSE_SCORE
    else
      var c := cs[i - 1];
      Min(LeastOf(b, eval, used, cs, i - 1, depth), Worth(b, eval, used + {c.word}, c.last, depth - 1, true))
  }

  /** The value of a position to the player to move is its worth, seen from their side. */
  lemma {:induction false} ValueIsMinimax(b: Board, eval: nat -> real, used: set<string>, current: string, depth: nat, ours: bool)
    ensures Value(b, eval, used, current, depth)
            == if ours then Worth(b, eval, used, current, depth, true) else -Worth(b, eval, used, current, depth, false)
    decreases depth, 1, 0
  {
    hide Free, Children;
    if depth > 0 {
      var cs := Children(b, used, current);
      BestIsMinimax(b, eval, used, cs, |cs|, depth, ours);
    }
  }

  lemma {:induction false} BestIsMinimax(b: Board, eval: nat -> real, used: set<string>, cs: seq<Candidate>, i: nat, depth: nat,
                                         ours: bool)
    requires depth > 0 && i <= |cs|
    ensures BestOf(b, eval, used, cs, i, depth)
            == if ours then MostOf(b, eval, used, cs, i, depth) else -LeastOf(b, eval, used, cs, i, depth)
    decreases depth, 0, i
  {
    hide Value, Worth;
    if i > 0 {
      var c := cs[i - 1];
      BestIsMinimax(b, eval, used, cs, i - 1, depth, ours);
      ValueIsMinimax(b, eval, used + {c.word}, c.last, depth - 1, !ours);
    }
  }

  /** How many positions the plain search visits. */
  function Nodes(b: Board, used: set<string>, current: string, depth: nat): nat
    decreases depth, 1, 0
  {
    if Free(b, used, current) == [] || depth == 0 then 1
    else
      var cs := Children(b, used, current);
      1 + NodesOf(b, used, cs, |cs|, depth)
  }

  function NodesOf(b: Board, used: set<string>, cs: seq<Candidate>, i: nat, depth: nat): nat
    requires depth > 0 && i <= |cs|
    decreases depth, 0, i
  {
    if i == 0 then 0
    else
      var c := cs[i - 1];
      NodesOf(b, used, cs, i - 1, depth) + Nodes(b, used + {c.word}, c.last, depth - 1)
  }

  lemma {:induction false} BestOfGrows(b: Board, eval: nat -> real, used: set<string>, cs: seq<Candidate>, i: nat, j: nat, depth: nat)
    requires depth > 0 && i <= j <= |cs|
    ensures BestOf(b, eval, used, cs, i, depth) <= BestOf(b, eval, used, cs, j, depth)
    decreases j
  {
    if i < j {
      BestOfGrows(b, eval, used, cs, i, j - 1, depth);
    }
  }

  lemma {:induction false} NodesOfGrow(b: Board, used: set<string>, cs: seq<Candidate>, i: nat, j: nat, depth: nat)
    requires depth > 0 && i <= j <= |cs|
    ensures NodesOf(b, used, cs, i, depth) <= NodesOf(b, used, cs, j, depth)
    decreases j
  {
    if i < j {
      NodesOfGrow(b, used, cs, i, j - 1, depth);
    }
  }
}
