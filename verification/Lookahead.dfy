/** The windowed, budgeted search that makes and unmakes its moves on one shared set of words. */
module Lookahead {
  import opened Basics
  import opened Minimax
  import opened Sorting

  // ----- scores, with the two infinities the root window starts from -----

  datatype Score = NegInf | Fin(r: real) | PosInf

  function Neg(x: Score): Score {
    match x
    case NegInf => PosInf
    case PosInf => NegInf
    case Fin(r) => Fin(-r)
  }

  predicate Less(x: Score, y: Score) {
    match x
    case NegInf => y != NegInf
    case PosInf => false
    case Fin(a) => y.PosInf? || (y.Fin? && a < y.r)
  }

  predicate AtMost(x: Score, y: Score) {
    !Less(y, x)
  }

  /** What a windowed search may answer: exact inside the window, a bound outside it. */
  ghost predicate FailSoft(score: Score, v: real, alpha: Score, beta: Score) {
    match score
    case Fin(r) =>
      && (AtMost(score, alpha) ==> v <= r)
      && (AtMost(beta, score) ==> r <= v)
      && (Less(alpha, score) && Less(score, beta) ==> r == v)
    case _ => false
  }

  function Raise(x: Score, y: Score): Score { if Less(x, y) then y else x }

  /**
   * Where the loop over children stands: `best` and the raised window floor against the value v of the children
   * seen so far. Before the first child the floor has not been raised yet; once it meets beta, best is a lower
   * bound and the loop may stop.
   */
  ghost predicate Partway(best: Score, floor: Score, v: real, alpha: Score, beta: Score) {
    match best
    case Fin(r) =>
      || (floor == alpha && r == v)
      || (if AtMost(beta, floor) then AtMost(beta, best) && r <= v
          else floor == Raise(alpha, best) && (if AtMost(best, alpha) then v <= r else r == v))
    case _ => false
  }

  /** One child folded into the loop, given what its own windowed search guarantees. */
  lemma FoldChild(alpha: Score, floor: Score, beta: Score, best: Score, v: real, child: Score, childV: real)
    requires Less(floor, beta) && Partway(best, floor, v, alpha, beta)
    requires FailSoft(Neg(child), childV, Neg(beta), Neg(floor))
    ensures Partway(Raise(best, child), Raise(floor, Raise(best, child)), Max(v, -childV), alpha, beta)
  {
  }

  /** Where the loop ends, by a cut or by running out of children, its best is a fail-soft answer. */
  lemma Conclude(alpha: Score, floor: Score, beta: Score, best: Score, v: real, whole: real)
    requires Less(alpha, beta) && v <= whole && (Less(floor, beta) ==> v == whole)
    requires Partway(best, floor, v, alpha, beta)
    ensures FailSoft(best, whole, alpha, beta)
  {
  }

  // ----- the search itself -----

  /**
   * One lookahead. Moves are made and unmade on `used`, and `budget` is shared by every node. `seen` counts the positions
   * whose words have been looked at, so that what the budget bounds can be said.
   */
  class Search {
    const board: Board
    const eval: nat -> real
    var used: set<string>
    var budget: int
    ghost var seen: nat

    constructor (board: Board, eval: nat -> real)
      ensures this.board == board && this.eval == eval
      ensures used == {} && budget == NODE_CAP && seen == 0
    {
      this.board, this.eval := board, eval;
      used, budget, seen := {}, NODE_CAP, 0;
    }

    predicate Spent(word: string)
      reads this
    {
      word in used || word in board.played
    }

    method Candidates(current: string) returns (ws: seq<string>)
      modifies this`seen
      ensures ws == Free(board, used, current) && seen == old(seen) + 1
    {
      seen := seen + 1;
      ws := [];
      var all := board.dict.WordsStartingWith(current);
      for i := 0 to |all|
        invariant ws == Unspent(all[..i], board.played + used)
      {
        assert all[..i + 1][..i] == all[..i];
        if !Spent(all[i]) {
          ws := ws + [all[i]];
        }
      }
      assert all[..|all|] == all;
    }

    method CountReplies(last: string, word: string) returns (n: nat)
      ensures n == Replies(board, used, last, word)
    {
      n := 0;
      var all := board.dict.WordsStartingWith(last);
      for i := 0 to |all|
        invariant n == |Unspent(all[..i], board.played + used + {word})|
      {
        assert all[..i + 1][..i] == all[..i];
        if all[i] != word && !Spent(all[i]) {
          n := n + 1;
        }
      }
      assert all[..|all|] == all;
    }

    method Order(ws: seq<string>) returns (cs: seq<Candidate>)
      ensures cs == StableSort(Annotate(board, used, ws), Tightness)
    {
      cs := [];
      for i := 0 to |ws|
        invariant cs == Annotate(board, used, ws[..i])
      {
        assert ws[..i + 1][..i] == ws[..i];
        var last := board.dict.LastSyllable(ws[i]);
        if last.Some? {
          var n := CountReplies(last.value, ws[i]);
          cs := cs + [Candidate(ws[i], last.value, n)];
        }
      }
      assert ws[..|ws|] == ws;
      cs := StableSort(cs, Tightness);
    }

    /**
     * Scores the position for the player to move at `current`.
     *
     * Whatever it cuts, a search that ends with budget left answers the plain value exactly inside the window and a
     * bound outside it; it puts `used` back as it found it, looks at one position for each it spends of the budget, and never
     * spends more than the plain search visits.
     */
    method Negamax(current: string, depth: nat, alpha: Score, beta: Score) returns (score: Score)
      requires Less(alpha, beta) && budget >= 0
      modifies this
      ensures used == old(used)
      ensures 0 <= budget <= old(budget) && seen - old(seen) == old(budget) - budget
      ensures old(budget) - budget <= Nodes(board, used, current, depth)
      ensures budget > 0 ==> FailSoft(score, Value(board, eval, used, current, depth), alpha, beta)
      decreases depth, 1
    {
      if budget <= 0 {
        return alpha;
      }
      budget := budget - 1;
      var candidates := Candidates(current);
      if candidates == [] {
        return Fin(LOSE_SCORE - depth as real);
      }
      if depth <= 0 {
        return Fin(eval(|candidates|));
      }
      var ordered := Order(candidates);
      ChildrenAreFree(board, used, current);
      assert Capped(ordered) == Children(board, used, current);
      score := Explore(ordered, depth, alpha, beta);
    }

    /** Makes the move c, searches the reply to it one ply down, and takes the move back. */
    method Probe(c: Candidate, depth: nat, floor: Score, beta: Score) returns (reply: Score)
      requires Less(floor, beta) && budget >= 0 && c.word !in used
      modifies this
      ensures used == old(used)
      ensures 0 <= budget <= old(budget) && seen - old(seen) == old(budget) - budget
      ensures old(budget) - budget <= Nodes(board, used + {c.word}, c.last, depth)
      ensures budget > 0 ==> FailSoft(reply, Value(board, eval, used + {c.word}, c.last, depth), Neg(beta), Neg(floor))
      decreases depth, 2
    {
      used := used + {c.word};
      reply := Negamax(c.last, depth, Neg(beta), Neg(floor));
      used := used - {c.word};
      assert used == old(used);
    }

    /** One turn of the loop in Explore: probes child i and folds the answer into the best so far. */
    method TryChild(ghost cs: seq<Candidate>, ghost i: nat, c: Candidate, depth: nat,
                    ghost alpha: Score, floor: Score, beta: Score, best: Score) returns (best': Score, floor': Score)
      requires depth > 0 && Less(floor, beta) && budget >= 0 && i < |cs| && c == cs[i] && c.word !in used
      requires budget > 0 ==> Partway(best, floor, BestOf(board, eval, used, cs, i, depth), alpha, beta)
      modifies this
      ensures used == old(used)
      ensures 0 <= budget <= old(budget) && seen - old(seen) == old(budget) - budget
      ensures old(budget) - budget <= NodesOf(board, used, cs, i + 1, depth) - NodesOf(board, used, cs, i, depth)
      ensures budget > 0 ==> Partway(best', floor', BestOf(board, eval, used, cs, i + 1, depth), alpha, beta)
      decreases depth - 1, 3
    {
      hide FailSoft, Partway, Less, Raise, Value, Nodes;
      var reply := Probe(c, depth - 1, floor, beta);
      var score := Neg(reply);
      if budget > 0 {
        FoldChild(alpha, floor, beta, best, BestOf(board, eval, used, cs, i, depth), score,
                  Value(board, eval, used + {c.word}, c.last, depth - 1));
      }
      best' := Raise(best, score);
      floor' := Raise(floor, best');
    }

    /** The loop of Negamax over its ordered candidates. */
    method Explore(ordered: seq<Candidate>, depth: nat, alpha: Score, beta: Score) returns (best: Score)
      requires depth > 0 && Less(alpha, beta) && budget >= 0
      requires forall c <- Capped(ordered) :: c.word !in used
      modifies this
      ensures used == old(used)
      ensures 0 <= budget <= old(budget) && seen - old(seen) == old(budget) - budget
      ensures old(budget) - budget <= NodesOf(board, used, Capped(ordered), |Capped(ordered)|, depth)
      ensures budget > 0 ==>
                FailSoft(best, BestOf(board, eval, used, Capped(ordered), |Capped(ordered)|, depth), alpha, beta)
      decreases depth, 0
    {
      ghost var cs, home := Capped(ordered), used;
      best := Fin(LOSE_SCORE);
      var floor := alpha;
      var i := 0;
      while i < |ordered| && i < BRANCH_CAP
        invariant i <= |cs| && used == home && 0 <= budget <= old(budget) && seen - old(seen) == old(budget) - budget
        invariant old(budget) - budget <= NodesOf(board, home, cs, i, depth)
        invariant Less(floor, beta)
        invariant budget > 0 ==> Partway(best, floor, BestOf(board, eval, home, cs, i, depth), alpha, beta)
      {
        best, floor := TryChild(cs, i, ordered[i], depth, alpha, floor, beta, best);
        i := i + 1;
        if !Less(floor, beta) {
          break;
        }
      }
      BestOfGrows(board, eval, home, cs, i, |cs|, depth);
      NodesOfGrow(board, home, cs, i, |cs|, depth);
      if budget > 0 {
        Conclude(alpha, floor, beta, best, BestOf(board, eval, home, cs, i, depth), BestOf(board, eval, home, cs, |cs|, depth));
      }
    }
  }
}
