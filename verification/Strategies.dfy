/** The computer players: the root of the lookahead, and how each strategy chooses a word. */
module Strategies {
  import opened Basics
  import opened Lookahead
  import opened Minimax
  import opened Sorting

  datatype Choice = NoMove | Play(word: string)

  /** A legal move of the greedy strategies, with the answers it leaves the opponent. */
  function Scored(b: Board): seq<Candidate> {
    Annotate(b, {}, b.legal)
  }

  method ScoreMoves(b: Board) returns (scored: seq<Candidate>)
    ensures scored == Scored(b)
  {
    scored := [];
    for i := 0 to |b.legal|
      invariant scored == Annotate(b, {}, b.legal[..i])
    {
      assert b.legal[..i + 1][..i] == b.legal[..i];
      var word := b.legal[i];
      var last := b.dict.LastSyllable(word);
      if last.Some? {
        var n := RemainingOutDegree(b, last.value, word);
        scored := scored + [Candidate(word, last.value, n)];
      }
    }
    assert b.legal[..|b.legal|] == b.legal;
  }

  method RemainingOutDegree(b: Board, syllable: string, excluding: string) returns (n: nat)
    ensures n == Replies(b, {}, syllable, excluding)
  {
    n := 0;
    var all := b.dict.WordsStartingWith(syllable);
    for i := 0 to |all|
      invariant n == |Unspent(all[..i], b.played + {} + {excluding})|
    {
      assert all[..i + 1][..i] == all[..i];
      if all[i] != excluding && all[i] !in b.played {
        n := n + 1;
      }
    }
    assert all[..|all|] == all;
  }

  /** What a root move is worth to the mover: the plain value of the position it hands over, negated. */
  function RootValue(b: Board, eval: nat -> real, m: Candidate, depth: nat): real {
    -Value(b, eval, {} + {m.word}, m.last, depth)
  }

  function RootValues(b: Board, eval: nat -> real, ms: seq<Candidate>, depth: nat): seq<real> {
    seq(|ms|, i requires 0 <= i < |ms| => RootValue(b, eval, ms[i], depth))
  }

  function RootNodes(b: Board, ms: seq<Candidate>, i: nat, depth: nat): nat
    requires i <= |ms|
  {
    if i == 0 then 0
    else RootNodes(b, ms, i - 1, depth) + Nodes(b, {} + {ms[i - 1].word}, ms[i - 1].last, depth)
  }

  /** Of the first n values, k is the first to be the greatest. */
  ghost predicate FirstBest(values: seq<real>, n: int, k: int) {
    && 0 <= k < n <= |values|
    && (forall j :: 0 <= j < k ==> values[j] < values[k])
    && (forall j :: k < j < n ==> values[j] <= values[k])
  }

  /** Where the root loop stands after n moves: k is the best of them and alpha its value. */
  ghost predicate Leading(values: seq<real>, n: int, k: int, alpha: Score) {
    match n
    case 0 => alpha == NegInf
    case _ => FirstBest(values, n, k) && alpha == Fin(values[k])
  }

  lemma FoldRoot(values: seq<real>, n: nat, k: int, alpha: Score, reply: Score)
    requires n < |values| && Leading(values, n, k, alpha)
    requires FailSoft(reply, -values[n], NegInf, Neg(alpha))
    ensures if Less(alpha, Neg(reply)) then Leading(values, n + 1, n, Neg(reply)) else Leading(values, n + 1, k, alpha)
  {
  }

  /**
   * The root of the search over the ordered moves: unless the budget ran out, it picks the very move that plain
   * minimax over the same capped moves picks. The budget cannot run out when the plain tree is smaller than it, and no more
   * than twenty thousand positions are looked at, `seen` of them.
   */
  method SearchRoot(b: Board, eval: nat -> real, scored: seq<Candidate>, depth: nat) returns (word: string, budget: int, ghost seen: nat)
    requires scored != []
    requires forall m <- scored :: m.word != "" && b.dict.LastSyllable(m.word) == Some(m.last)
    ensures exists m <- scored :: word == m.word
    ensures 0 <= budget <= 20000 && seen == 20000 - budget
    ensures budget > 0 ==> exists k ::
              FirstBest(RootValues(b, eval, scored, depth), Cap(|scored|), k) && word == scored[k].word
    ensures RootNodes(b, scored, Cap(|scored|), depth) < NODE_CAP ==> budget > 0
  {
    hide Nodes, Value, Annotate, Replies;
    var st := new Search(b, eval);
    ghost var values := RootValues(b, eval, scored, depth);
    var best := "";
    var alpha := NegInf;
    ghost var k := 0;
    var i := 0;
    while i < |scored| && i < BRANCH_CAP && st.budget > 0
      invariant i <= Cap(|scored|) && st.used == {} && 0 <= st.budget <= NODE_CAP && st.seen == NODE_CAP - st.budget
      invariant st.board == b && st.eval == eval && fresh(st)
      invariant NODE_CAP - st.budget <= RootNodes(b, scored, i, depth)
      invariant best == "" || (0 <= k < i && best == scored[k].word)
      invariant st.budget > 0 ==> Leading(values, i, k, alpha) && (i > 0 ==> best != "")
    {
      var m := scored[i];
      assert values[i] == RootValue(b, eval, m, depth);
      assert RootNodes(b, scored, i + 1, depth) == RootNodes(b, scored, i, depth) + Nodes(b, {} + {m.word}, m.last, depth);
      var last := b.dict.LastSyllable(m.word);
      if last.Some? {
        var reply := st.Probe(m, depth, alpha, PosInf);
        var score := Neg(reply);
        if st.budget > 0 {
          FoldRoot(values, i, k, alpha, reply);
        }
        if Less(alpha, score) {
          alpha, best, k := score, m.word, i;
        }
      }
      i := i + 1;
    }
    budget, seen := st.budget, st.seen;
    RootNodesGrow(b, scored, i, Cap(|scored|), depth);
    word := if best == "" then scored[0].word else best;
  }

  lemma {:induction false} RootNodesGrow(b: Board, ms: seq<Candidate>, i: nat, j: nat, depth: nat)
    requires i <= j <= |ms|
    ensures RootNodes(b, ms, i, depth) <= RootNodes(b, ms, j, depth)
    decreases j
  {
    if i < j {
      RootNodesGrow(b, ms, i, j - 1, depth);
    }
  }

  function Kills(scored: seq<Candidate>): (r: seq<Candidate>)
    ensures forall m :: m in r <==> m in scored && m.handsOver == 0
  {
    if scored == [] then []
    else
      assert scored == scored[..|scored| - 1] + [scored[|scored| - 1]];
      var rest, m := Kills(scored[..|scored| - 1]), scored[|scored| - 1];
      if m.handsOver == 0 then rest + [m] else rest
  }

  function Spared(scored: seq<Candidate>): (r: seq<Candidate>)
    ensures forall m :: m in r <==> m in scored && m.handsOver > 0
  {
    if scored == [] then []
    else
      assert scored == scored[..|scored| - 1] + [scored[|scored| - 1]];
      var rest, m := Spared(scored[..|scored| - 1]), scored[|scored| - 1];
      if m.handsOver > 0 then rest + [m] else rest
  }

  /** What the search is given once an instant win has been passed over: the killing moves are off the table. */
  function Pool(scored: seq<Candidate>): seq<Candidate> {
    if Kills(scored) != [] && Spared(scored) != [] then Spared(scored) else scored
  }

  /** The moves on the table are those that leave a reply, when there are both kinds, and otherwise all of them. */
  lemma PoolIs(scored: seq<Candidate>, m: Candidate)
    ensures m in Pool(scored) <==>
            m in scored && (m.handsOver > 0 || forall n <- scored :: n.handsOver == 0)
  {
    if m in scored && m.handsOver == 0 { assert m in Kills(scored); }
    if Spared(scored) != [] { assert Spared(scored)[0] in Spared(scored); }
    if n :| n in scored && n.handsOver > 0 { assert n in Spared(scored); }
    if Kills(scored) != [] { assert Kills(scored)[0] in Kills(scored); }
  }

  /** The draw of one of n options, and of whether an instant win is taken; both are left open. */
  method Draw(n: nat) returns (k: nat, yes: bool)
    requires n > 0
    ensures k < n
  {
    k :| 0 <= k < n;
    yes := *;
  }

  /**
   * The hard strategy. `searched` says the move came from the lookahead and `budget` what was left of it then: with
   * budget left, the move is the first maximiser of plain minimax, tightest first, over the pool.
   */
  method ChooseHard(b: Board, eval: nat -> real) returns (choice: Choice, searched: bool, budget: int)
    requires "" !in b.legal
    ensures choice.NoMove? <==> b.legal == []
    ensures choice.Play? ==> choice.word in b.legal
    ensures choice.Play? && !searched && Scored(b) != [] ==>
              exists m <- Scored(b) :: m.handsOver == 0 && choice.word == m.word
    ensures 0 <= NODE_CAP - budget <= NODE_CAP
    ensures searched ==> var ms := StableSort(Pool(Scored(b)), Tightness); var capped := if |ms| < 12 then |ms| else 12;
              && ms != [] && choice.Play?
              && (RootNodes(b, ms, capped, 3) < 20000 ==> budget > 0)
              && (budget > 0 ==> exists k :: FirstBest(RootValues(b, eval, ms, 3), capped, k) && choice.word == ms[k].word)
  {
    searched, budget := false, NODE_CAP;
    if b.legal == [] {
      return NoMove, searched, budget;
    }
    var scored := ScoreMoves(b);
    AnnotateSound(b, {}, b.legal);
    if scored == [] {
      var k, _ := Draw(|b.legal|);
      return Play(b.legal[k]), searched, budget;
    }
    var kills := Kills(scored);
    if kills != [] {
      var k, take := Draw(|kills|);
      if take {
        assert kills[k] in kills;
        return Play(kills[k].word), searched, budget;
      }
    }
    var pool := Pool(scored);
    assert forall m <- pool :: m in scored;
    assert pool != [];
    var ms := StableSort(pool, Tightness);
    SameElements(ms, pool);
    var word;
    ghost var seen;
    word, budget, seen := SearchRoot(b, eval, ms, SEARCH_DEPTH - 1);
    choice, searched := Play(word), true;
  }

  /**
   * Why a declined win has to be taken off the table: a move that leaves no reply is worth strictly more to the
   * search than any that leaves one, so the search would play it after all.
   */
  lemma KillDominates(b: Board, eval: nat -> real, kill: Candidate, other: Candidate)
    requires kill.handsOver == Replies(b, {}, kill.last, kill.word) == 0
    requires other.handsOver == Replies(b, {}, other.last, other.word) > 0
    ensures RootValue(b, eval, other, SEARCH_DEPTH - 1) < RootValue(b, eval, kill, SEARCH_DEPTH - 1)
  {
    forall m: Candidate ensures |Free(b, {} + {m.word}, m.last)| == Replies(b, {}, m.last, m.word) {
      assert b.played + ({} + {m.word}) == b.played + {} + {m.word};
    }
    var used := {} + {other.word};
    var cs := Children(b, used, other.last);
    BestOfGrows(b, eval, used, cs, 0, |cs|, SEARCH_DEPTH - 1);
  }

  lemma Handed(b: Board, m: Candidate)
    ensures |Free(b, {} + {m.word}, m.last)| == Replies(b, {}, m.last, m.word)
  {
    assert b.played + ({} + {m.word}) == b.played + {} + {m.word};
  }

  /** Where the lookahead ends, the move that leaves the opponent fewer answers is worth strictly more. */
  lemma FewerAnswersIsWorthMore(b: Board, eval: nat -> real, m: Candidate, n: Candidate)
    requires forall x: nat, y: nat :: x < y ==> eval(x) < eval(y)
    requires 0 < Replies(b, {}, m.last, m.word) < Replies(b, {}, n.last, n.word)
    ensures RootValue(b, eval, n, 0) < RootValue(b, eval, m, 0)
  {
    hide Replies, Free;
    Handed(b, m);
    Handed(b, n);
  }

  lemma TightestFirst(scored: seq<Candidate>)
    requires scored != []
    ensures forall m <- StableSort(scored, Tightness) :: m in scored
    ensures Kills(scored) != [] <==> StableSort(scored, Tightness)[0].handsOver == 0
  {
    var sorted := StableSort(scored, Tightness);
    SameElements(sorted, scored);
    StableSortCorrect(scored, Tightness);
    if Kills(scored) != [] {
      var m := Kills(scored)[0];
      assert m in Kills(scored) && m in sorted;
      var j :| 0 <= j < |sorted| && sorted[j] == m;
      assert Tightness(sorted[0]) <= Tightness(sorted[j]);
    } else {
      assert sorted[0] !in Kills(scored);
    }
  }

  /** The greedy strategy: an instant win when there is one, otherwise one of the tightest quartile. */
  method ChooseMedium(b: Board) returns (choice: Choice)
    ensures choice.NoMove? <==> b.legal == []
    ensures choice.Play? ==> choice.word in b.legal
    ensures choice.Play? && Kills(Scored(b)) != [] ==>
              exists m <- Scored(b) :: m.handsOver == 0 && choice.word == m.word
    ensures choice.Play? && Scored(b) != [] && Kills(Scored(b)) == [] ==>
              exists k :: 0 <= k < |Scored(b)| && k < (if |Scored(b)| / 4 < 1 then 1 else |Scored(b)| / 4)
                          && choice.word == StableSort(Scored(b), Tightness)[k].word
  {
    if b.legal == [] {
      return NoMove;
    }
    var scored := ScoreMoves(b);
    AnnotateSound(b, {}, b.legal);
    if scored == [] {
      var k, _ := Draw(|b.legal|);
      return Play(b.legal[k]);
    }
    var sorted := StableSort(scored, Tightness);
    TightestFirst(scored);
    if sorted[0].handsOver == 0 {
      return Play(sorted[0].word);
    }
    var quarter := |sorted| / 4;
    var k, _ := Draw(if quarter < 1 then 1 else quarter);
    choice := Play(sorted[k].word);
  }
}
