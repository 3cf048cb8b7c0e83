/** How games are decided: dead ends, the final table, and moves and openings that cannot be refused. */
module Endings {
  import opened Basics
  import opened Dictionary
  import opened GameRules
  import opened GameProofs
  import Scoring

  // ----- the live players in turn order -----

  /** The live players among seats [lo, hi), in order. */
  function Survivors(players: seq<PlayerID>, alive: seq<bool>, lo: nat, hi: nat): seq<PlayerID>
    requires lo <= hi <= |players| == |alive|
    decreases hi - lo
  {
    if lo == hi then []
    else (if alive[lo] then [players[lo]] else []) + Survivors(players, alive, lo + 1, hi)
  }

  /** The live players in the order their turns come, the one to act first. */
  function TurnOrder(s: State): seq<PlayerID>
    requires Shaped(s)
  {
    Survivors(s.players, s.alive, s.turnIndex, |s.players|) + Survivors(s.players, s.alive, 0, s.turnIndex)
  }

  lemma {:induction false} SurvivorsSplit(players: seq<PlayerID>, alive: seq<bool>, lo: nat, mid: nat, hi: nat)
    requires lo <= mid <= hi <= |players| == |alive|
    ensures Survivors(players, alive, lo, hi) == Survivors(players, alive, lo, mid) + Survivors(players, alive, mid, hi)
    decreases mid - lo
  {
    if lo < mid { SurvivorsSplit(players, alive, lo + 1, mid, hi); }
  }

  lemma {:induction false} SurvivorsNone(players: seq<PlayerID>, alive: seq<bool>, lo: nat, hi: nat)
    requires lo <= hi <= |players| == |alive| && forall k :: lo <= k < hi ==> !alive[k]
    ensures Survivors(players, alive, lo, hi) == []
    decreases hi - lo
  {
    if lo < hi { SurvivorsNone(players, alive, lo + 1, hi); }
  }

  lemma SurvivorsStep(players: seq<PlayerID>, alive: seq<bool>, lo: nat, hi: nat)
    requires lo < hi <= |players| == |alive|
    ensures Survivors(players, alive, lo, hi)
            == (if alive[lo] then [players[lo]] else []) + Survivors(players, alive, lo + 1, hi)
  {
  }

  lemma {:induction false} SurvivorsSame(players: seq<PlayerID>, alive: seq<bool>, alive': seq<bool>, lo: nat, hi: nat)
    requires lo <= hi <= |players| == |alive| == |alive'| && forall k :: lo <= k < hi ==> alive[k] == alive'[k]
    ensures Survivors(players, alive, lo, hi) == Survivors(players, alive', lo, hi)
    decreases hi - lo
  {
    if lo < hi {
      SurvivorsSame(players, alive, alive', lo + 1, hi);
      SurvivorsStep(players, alive, lo, hi);
      SurvivorsStep(players, alive', lo, hi);
      hide Survivors;
    }
  }

  lemma {:induction false} SurvivorsCount(players: seq<PlayerID>, alive: seq<bool>, n: nat)
    requires n <= |players| == |alive|
    ensures |Survivors(players, alive, 0, n)| == CountAlive(alive[..n])
  {
    if n > 0 {
      SurvivorsCount(players, alive, n - 1);
      SurvivorsSplit(players, alive, 0, n - 1, n);
      assert Survivors(players, alive, n, n) == [];
      assert alive[..n][..n - 1] == alive[..n - 1];
    }
  }

  lemma TurnOrderCounts(s: State)
    requires LiveInv(s)
    ensures |TurnOrder(s)| == s.aliveN && TurnOrder(s)[0] == Turn(s)
  {
    SurvivorsSplit(s.players, s.alive, 0, s.turnIndex, |s.players|);
    SurvivorsCount(s.players, s.alive, |s.players|);
    assert s.alive[..|s.players|] == s.alive;
  }

  function Order(players: seq<PlayerID>, alive: seq<bool>, t: nat): seq<PlayerID>
    requires t < |players| == |alive|
  {
    Survivors(players, alive, t, |players|) + Survivors(players, alive, 0, t)
  }

  lemma OrderAhead(ps: seq<PlayerID>, before: seq<bool>, i: nat, j: nat)
    requires i < j < |ps| == |before| && before[i] && forall k :: i < k < j ==> !before[k]
    ensures Order(ps, before, i) == [ps[i]] + Order(ps, before[i := false], j)
  {
    var after, n := before[i := false], |ps|;
    SurvivorsSplit(ps, before, i + 1, j, n);
    SurvivorsNone(ps, before, i + 1, j);
    SurvivorsSame(ps, before, after, j, n);
    SurvivorsSame(ps, before, after, 0, i);
    SurvivorsSplit(ps, after, 0, i, j);
    SurvivorsNone(ps, after, i, j);
  }

  lemma OrderRound(ps: seq<PlayerID>, before: seq<bool>, i: nat, j: nat)
    requires j < i < |ps| == |before| && before[i]
    requires (forall k :: i < k < |ps| ==> !before[k]) && (forall k :: 0 <= k < j ==> !before[k])
    ensures Order(ps, before, i) == [ps[i]] + Order(ps, before[i := false], j)
  {
    var after, n := before[i := false], |ps|;
    SurvivorsNone(ps, before, i + 1, n);
    SurvivorsSplit(ps, before, 0, j, i);
    SurvivorsNone(ps, before, 0, j);
    SurvivorsSame(ps, before, after, j, i);
    SurvivorsSplit(ps, after, j, i, n);
    SurvivorsNone(ps, after, i, n);
    SurvivorsNone(ps, after, 0, j);
  }

  /** Taking the turn holder out removes the head of the turn order and nothing else. */
  lemma TurnOrderTail(s: State, reason: EndReason)
    requires LiveInv(s) && !s.over
    ensures LiveInv(Eliminate(s, Turn(s), reason))
    ensures TurnOrder(s) == [Turn(s)] + TurnOrder(Eliminate(s, Turn(s), reason))
  {
    EliminateKeepsLive(s, Turn(s), reason);
    var i, t := s.turnIndex, Eliminate(s, Turn(s), reason);
    assert IndexOf(s.players, Turn(s)) == i;
    var j := t.turnIndex;
    assert j != i && j == NextAlive(t.alive, i);
    assert forall k :: 0 <= k < |s.players| && k != i ==> s.alive[k] == t.alive[k];
    if i < j {
      OrderAhead(s.players, s.alive, i, j);
    } else {
      OrderRound(s.players, s.alive, i, j);
    }
  }

  // ----- a dead end -----

  /** j is the live seat cyclically just before t. */
  ghost predicate JustBefore(alive: seq<bool>, j: nat, t: nat)
    requires t < |alive|
  {
    && j < |alive| && j != t && alive[j]
    && if j < t then forall k :: j < k < t ==> !alive[k]
       else (forall k :: 0 <= k < t ==> !alive[k]) && forall k :: j < k < |alive| ==> !alive[k]
  }

  lemma {:induction false} LastSurvivor(players: seq<PlayerID>, alive: seq<bool>, lo: nat, hi: nat) returns (j: nat)
    requires lo <= hi <= |players| == |alive| && Survivors(players, alive, lo, hi) != []
    ensures lo <= j < hi && alive[j] && (forall k :: j < k < hi ==> !alive[k])
    ensures var q := Survivors(players, alive, lo, hi); q[|q| - 1] == players[j]
    decreases hi - lo
  {
    if Survivors(players, alive, lo + 1, hi) == [] {
      j := lo;
      forall k | lo < k < hi ensures !alive[k] {
        SurvivorsSplit(players, alive, lo + 1, k, hi);
      }
    } else {
      j := LastSurvivor(players, alive, lo + 1, hi);
    }
  }

  lemma LastInTurnOrder(s: State) returns (j: nat)
    requires LiveInv(s) && !s.over
    ensures JustBefore(s.alive, j, s.turnIndex)
    ensures var q := TurnOrder(s); q != [] && q[|q| - 1] == s.players[j]
  {
    TurnOrderCounts(s);
    var t, n := s.turnIndex, |s.players|;
    var late, early := Survivors(s.players, s.alive, t, n), Survivors(s.players, s.alive, 0, t);
    if early != [] {
      j := LastSurvivor(s.players, s.alive, 0, t);
    } else {
      j := LastSurvivor(s.players, s.alive, t, n);
      forall k | 0 <= k < t ensures !s.alive[k] {
        SurvivorsSplit(s.players, s.alive, 0, k, t);
      }
      if j == t {
        SurvivorsNone(s.players, s.alive, t + 1, n);
      }
    }
  }

  /** out is how a game with turn order q, whose earlier losers are before, ends when nobody can move. */
  ghost predicate EndsWith(q: seq<PlayerID>, before: seq<PlayerID>, out: seq<PlayerID>, winner: PlayerID) {
    q != [] && winner == q[|q| - 1] && out == before + q[..|q| - 1]
  }

  lemma EndsWithMore(x: PlayerID, rest: seq<PlayerID>, before: seq<PlayerID>, out: seq<PlayerID>, winner: PlayerID)
    requires EndsWith(rest, before + [x], out, winner)
    ensures EndsWith([x] + rest, before, out, winner)
  {
  }

  /** With nothing to play, settling takes everybody but the last in turn order out, in turn order. */
  lemma {:induction false} SettleDeadEnd(rules: Rules, s: State)
    requires TableInv(s) && (s.over || !HasLegalMove(rules, s))
    ensures var t := Settle(rules, s); t.over && EndsWith(TurnOrder(s), s.outOrder, t.outOrder, t.winner)
    decreases s.aliveN
  {
    TurnOrderCounts(s);
    if s.over {
      assert TurnOrder(s) == [Turn(s)];
    } else {
      var x, u := Turn(s), Eliminate(s, Turn(s), EndNoLegalMove);
      EliminateKeepsTable(s, x, EndNoLegalMove);
      TurnOrderTail(s, EndNoLegalMove);
      SettleDeadEnd(rules, u);
      var t := Settle(rules, u);
      EndsWithMore(x, TurnOrder(u), s.outOrder, t.outOrder, t.winner);
    }
  }

  /** Everybody settling takes out is out for want of a move; nobody's earlier reason changes. */
  lemma {:induction false} SettleReasons(rules: Rules, s: State, p: PlayerID)
    requires TableInv(s)
    ensures var t := Settle(rules, s);
            p in t.outOrder ==>
              p in t.outReason && t.outReason[p] == if p in s.outOrder then s.outReason[p] else EndNoLegalMove
    decreases s.aliveN
  {
    if !s.over && !HasLegalMove(rules, s) {
      var u := Eliminate(s, Turn(s), EndNoLegalMove);
      EliminateKeepsTable(s, Turn(s), EndNoLegalMove);
      SettleReasons(rules, u, p);
      assert Turn(s) !in s.outOrder;
    }
  }

  lemma WentOut(s: State, q: seq<PlayerID>, t: State, p: PlayerID)
    requires TableInv(s) && TableInv(t) && t.outOrder == s.outOrder + q && p in q
    ensures p in t.outOrder && p !in s.outOrder
  {
    var k :| 0 <= k < |q| && q[k] == p;
    assert t.outOrder[|s.outOrder| + k] == p;
    forall i | 0 <= i < |s.outOrder| ensures s.outOrder[i] != p {
      assert t.outOrder[i] == s.outOrder[i];
    }
  }

  /**
   * A turn lost in a dead end decides the game in that one call: the live players go out in turn order, starting
   * with the one who faced it, and the survivor is the live player cyclically just before that one.
   */
  lemma DeadEndDecides(rules: Rules, s: State, now: Time) returns (j: nat)
    requires TableInv(s) && !s.over && !HasLegalMove(rules, s)
    ensures var q, t := TurnOrder(s), Expire(rules, s, now);
            && t.over && EndsWith(q, s.outOrder, t.outOrder, t.winner)
            && (forall p <- q[..|q| - 1] :: p in t.outReason && t.outReason[p] == EndNoLegalMove)
    ensures JustBefore(s.alive, j, s.turnIndex) && Expire(rules, s, now).winner == s.players[j]
  {
    SettleDeadEnd(rules, s);
    EliminateKeepsTable(s, Turn(s), EndNoLegalMove);
    var q, t := TurnOrder(s), Settle(rules, s);
    assert Expire(rules, s, now) == t;
    forall p | p in q[..|q| - 1] ensures p in t.outReason && t.outReason[p] == EndNoLegalMove {
      WentOut(s, q[..|q| - 1], t, p);
      SettleReasons(rules, s, p);
    }
    j := LastInTurnOrder(s);
  }

  /** What is left of a dead end once the player facing it has given up is settled. */
  lemma ResignSettles(rules: Rules, s: State, now: Time) returns (u: State)
    requires TableInv(s) && !s.over && !HasLegalMove(rules, s)
    ensures TableInv(u) && Shaped(u) && !HasLegalMove(rules, u) && Resign(rules, s, Turn(s), now) == Settle(rules, u)
    ensures TurnOrder(s) == [Turn(s)] + TurnOrder(u) && u.outOrder == s.outOrder + [Turn(s)]
    ensures Turn(s) in u.outReason && u.outReason[Turn(s)] == EndResigned
  {
    u := Eliminate(s, Turn(s), EndResigned);
    EliminateKeepsTable(s, Turn(s), EndResigned);
    TurnOrderTail(s, EndResigned);
    SettleDeadEnd(rules, u);
  }

  /** Giving up one's turn in a dead end settles it the same way: nobody left behind can answer it either. */
  lemma ResignedDeadEndDecides(rules: Rules, s: State, now: Time) returns (j: nat)
    requires TableInv(s) && !s.over && !HasLegalMove(rules, s)
    ensures var q, t := TurnOrder(s), Resign(rules, s, Turn(s), now);
            && t.over && EndsWith(q, s.outOrder, t.outOrder, t.winner)
            && Turn(s) in t.outReason && t.outReason[Turn(s)] == EndResigned
            && (forall p <- q[1..|q| - 1] :: p in t.outReason && t.outReason[p] == EndNoLegalMove)
    ensures JustBefore(s.alive, j, s.turnIndex) && Resign(rules, s, Turn(s), now).winner == s.players[j]
  {
    hide Resign, Settle, TurnOrder, HasLegalMove, TableInv;
    j := LastOf(s);
    var u := ResignSettles(rules, s, now);
    SettleDeadEnd(rules, u);
    var x, q, t := Turn(s), TurnOrder(u), Settle(rules, u);
    EndsWithMore(x, q, s.outOrder, t.outOrder, t.winner);
    SettleReasons(rules, u, x);
    StaysListed(u.outOrder, q, t.outOrder, t.winner, x);
    forall p | p in TurnOrder(s)[1..|q|] ensures p in t.outReason && t.outReason[p] == EndNoLegalMove {
      assert TurnOrder(s)[1..|q|] == q[..|q| - 1];
      WentOut(u, q[..|q| - 1], t, p);
      SettleReasons(rules, u, p);
    }
  }

  lemma LastOf(s: State) returns (j: nat)
    requires TableInv(s) && !s.over
    ensures Shaped(s) && JustBefore(s.alive, j, s.turnIndex) && j < |s.players|
    ensures var q := TurnOrder(s); q != [] && q[|q| - 1] == s.players[j]
  {
    j := LastInTurnOrder(s);
  }

  lemma StaysListed(before: seq<PlayerID>, q: seq<PlayerID>, out: seq<PlayerID>, winner: PlayerID, x: PlayerID)
    requires EndsWith(q, before, out, winner) && before != [] && before[|before| - 1] == x
    ensures x in before && x in out
  {
    assert out[|before| - 1] == x;
  }

  /** A turn lost with a word still to play takes out exactly the player who lost it, as a timeout. */
  lemma LiveEndTakesOne(rules: Rules, s: State, now: Time)
    requires TableInv(s) && !s.over && HasLegalMove(rules, s)
    ensures var t := Expire(rules, s, now);
            && t.outOrder == s.outOrder + [Turn(s)] && Turn(s) in t.outReason && t.outReason[Turn(s)] == EndTimeout
            && TurnOrder(s) == [Turn(s)] + TurnOrder(t) && (t.over <==> s.aliveN == 2)
  {
    EliminateKeepsTable(s, Turn(s), EndTimeout);
    TurnOrderTail(s, EndTimeout);
  }

  // ----- the final table -----

  datatype Standing = Standing(player: PlayerID, score: int, rank: int, reason: EndReason)

  /** The last n players to go out, last out first, ranked below the first `above` rows. */
  function Rows(outOrder: seq<PlayerID>, scores: map<PlayerID, int>, outReason: map<PlayerID, EndReason>,
                above: nat, n: nat): seq<Standing>
    requires n <= |outOrder| && forall p <- outOrder :: p in scores && p in outReason
  {
    seq(n, i requires 0 <= i < n =>
      var p := outOrder[|outOrder| - 1 - i];
      Standing(p, scores[p], above + i + 1, outReason[p]))
  }

  lemma RowsMore(outOrder: seq<PlayerID>, scores: map<PlayerID, int>, outReason: map<PlayerID, EndReason>,
                 above: nat, n: nat)
    requires n < |outOrder| && forall p <- outOrder :: p in scores && p in outReason
    ensures var p := outOrder[|outOrder| - 1 - n];
            p in scores && p in outReason
            && Rows(outOrder, scores, outReason, above, n + 1)
               == Rows(outOrder, scores, outReason, above, n) + [Standing(p, scores[p], above + n + 1, outReason[p])]
  {
    assert outOrder[|outOrder| - 1 - n] in outOrder;
  }

  /** The final table, best first: the winner, then whoever went out, last out first. */
  function Standings(s: State): seq<Standing>
    requires TableInv(s) && s.scores.Keys == (set p | p in s.players)
  {
    var top := if s.winner != Nobody && s.winner in s.scores then [Standing(s.winner, s.scores[s.winner], 1, EndNone)] else [];
    top + Rows(s.outOrder, s.scores, s.outReason, |top|, |s.outOrder|)
  }

  lemma {:induction false} SurvivorsAre(players: seq<PlayerID>, alive: seq<bool>, lo: nat, hi: nat)
    requires lo <= hi <= |players| == |alive| && Distinct(players)
    ensures Distinct(Survivors(players, alive, lo, hi))
    ensures forall p :: p in Survivors(players, alive, lo, hi) <==> exists k :: lo <= k < hi && alive[k] && players[k] == p
    decreases hi - lo
  {
    if lo < hi {
      var rest := Survivors(players, alive, lo + 1, hi);
      SurvivorsAre(players, alive, lo + 1, hi);
      assert players[lo] !in rest;
    }
  }

  lemma InOrOut(s: State)
    requires TableInv(s)
    ensures var up := Survivors(s.players, s.alive, 0, |s.players|);
            && Distinct(up)
            && (set p | p in s.players) == (set p | p in up) + (set p | p in s.outOrder)
            && (set p | p in up) !! (set p | p in s.outOrder)
  {
    var up := Survivors(s.players, s.alive, 0, |s.players|);
    SurvivorsAre(s.players, s.alive, 0, |s.players|);
    forall p ensures p in s.players <==> p in up || p in s.outOrder {
      if p in s.players {
        var k := IndexOf(s.players, p);
        assert s.players[k] == p;
      }
    }
  }

  /** Everybody is either still in or listed among those who went out, and nobody is listed twice. */
  lemma OutOrderCounts(s: State)
    requires TableInv(s)
    ensures |s.outOrder| + s.aliveN == |s.players|
  {
    var n := |s.players|;
    var up := Survivors(s.players, s.alive, 0, n);
    InOrOut(s);
    SurvivorsCount(s.players, s.alive, n);
    assert s.alive[..n] == s.alive;
    DistinctSize(s.players);
    DistinctSize(up);
    DistinctSize(s.outOrder);
  }

  lemma OnlyOneLeft(s: State, p: PlayerID)
    requires TableInv(s) && s.over && p in s.players && p != s.winner
    ensures p in s.outOrder
  {
    var i := IndexOf(s.players, p);
    if s.alive[i] {
      CountBoth(s.alive, i, s.turnIndex);
    }
  }

  /**
   * The final table places every player exactly once, ranked 1 to n: the winner first, and below the winner the
   * later somebody went out the higher they stand.
   */
  lemma FinalTable(rules: Rules, s: State)
    requires Inv(rules, s) && s.over && Nobody !in s.players
    ensures var t := Standings(s); var n := |s.players|;
            && |t| == n == |s.outOrder| + 1
            && (forall i :: 0 <= i < n ==> t[i].rank == i + 1 && t[i].player in s.players
                                           && t[i].score == ScoreOf(s.history, t[i].player))
            && t[0].player == s.winner && t[0].reason == EndNone
            && (forall i :: 1 <= i < n ==> t[i].player == s.outOrder[n - 1 - i] && t[i].player in s.outReason
                                           && t[i].reason == s.outReason[t[i].player] != EndNone)
  {
    OutOrderCounts(s);
    assert s.winner in s.players;
  }

  /** A list read from its end, after an element it does not hold, still has every element once. */
  lemma ReadBackwards(first: PlayerID, out: seq<PlayerID>, column: seq<PlayerID>)
    requires Distinct(out) && first !in out && |column| == |out| + 1 && column[0] == first
    requires forall i :: 1 <= i < |column| ==> column[i] == out[|out| - i]
    ensures Distinct(column)
    ensures forall p :: p in column <==> p == first || p in out
  {
    forall p | p in out ensures p in column {
      var k :| 0 <= k < |out| && out[k] == p;
      assert column[|out| - k] == p;
    }
    forall i, j | 0 <= i < j < |column| ensures column[i] != column[j] {
      if i == 0 { assert column[j] in out; }
    }
  }

  lemma WinnerStays(s: State)
    requires TableInv(s) && s.over
    ensures s.winner in s.players && s.winner !in s.outOrder
  {
  }

  /** ... so the rows are a permutation of the players. */
  lemma TablePermutes(rules: Rules, s: State)
    requires Inv(rules, s) && s.over && Nobody !in s.players
    ensures var t := Standings(s); var column := seq(|t|, i requires 0 <= i < |t| => t[i].player);
            Distinct(column) && forall p :: p in column <==> p in s.players
  {
    hide Standings, ScoreOf, LiveInv, Words;
    FinalTable(rules, s);
    WinnerStays(s);
    var t := Standings(s);
    var column := seq(|t|, i requires 0 <= i < |t| => t[i].player);
    ReadBackwards(s.winner, s.outOrder, column);
    forall p ensures p in column <==> p in s.players {
      if p in s.players && p != s.winner { OnlyOneLeft(s, p); }
    }
  }

  /** The table loses its first row exactly when the winner's id is the empty one. */
  lemma TableNeedsAnId(rules: Rules, s: State)
    requires Inv(rules, s) && s.over
    ensures |Standings(s)| == |s.players| <==> s.winner != Nobody
  {
    OutOrderCounts(s);
    assert s.winner in s.players;
  }

  // ----- moves and openings that cannot be refused -----

  /** Dictionary words are in normal form and long enough to play. */
  ghost predicate Normal(rules: Rules) {
    forall w :: w in rules.dict.words ==>
      rules.normalize(w).Some? && rules.normalize(w).value.word == w
      && rules.normalize(w).value.syllables >= Scoring.MIN_SYLLABLES
  }

  /** In time and on turn, a dictionary word is accepted exactly when it is one of the legal moves. */
  lemma LegalMoveAccepted(rules: Rules, s: State, w: string, now: Time)
    requires Inv(rules, s) && Indexed(rules.dict) && Normal(rules)
    requires !s.over && now <= s.deadline && w in rules.dict.words
    ensures w in LegalMoves(rules, s) <==> Judge(rules, s, Turn(s), w, now).Accepted?
  {
    hide PointsFor, Inv, Indexed;
    InPlay(rules, s);
    ListedWhereItBegins(rules.dict, w, s.current);
    UnspentExact(rules.dict.WordsStartingWith(s.current), s.used);
  }

  lemma InPlay(rules: Rules, s: State)
    requires Inv(rules, s)
    ensures rules.turnLimit > 0 && Shaped(s)
  {
  }

  lemma ListedWhereItBegins(dict: Store, w: string, syllable: string)
    requires Indexed(dict)
    ensures w in dict.WordsStartingWith(syllable) <==> dict.FirstSyllable(w) == Some(syllable)
  {
  }

  /** A legal move is always a dictionary word, so a player who picks one in time is never refused. */
  lemma LegalMovesAreWords(rules: Rules, s: State, w: string)
    requires Indexed(rules.dict) && w in LegalMoves(rules, s)
    ensures w in rules.dict.words && rules.dict.FirstSyllable(w) == Some(s.current) && w !in s.used
  {
    UnspentExact(rules.dict.WordsStartingWith(s.current), s.used);
    assert rules.dict.FirstSyllable(w) == Some(s.current);
  }

  /** Having no move to choose is exactly having the position settled at once. */
  lemma NoMoveExactly(rules: Rules, s: State, now: Time)
    requires TableInv(s) && !s.over
    ensures LegalMoves(rules, s) == [] <==> NoMove(rules, s, now) != s
  {
    UnspentEmpty(rules.dict.WordsStartingWith(s.current), s.used);
    if !HasLegalMove(rules, s) {
      ExpireSheds(rules, s, now);
    }
  }

  /** A word that hands over a syllable two words begin with can open any game. */
  lemma OpeningPlays(rules: Rules, players: seq<PlayerID>, opening: string, now: Time)
    requires Indexed(rules.dict) && rules.turnLimit > 0 && |players| >= 2 && Distinct(players)
    requires opening in rules.dict.words
    requires |rules.dict.WordsStartingWith(rules.dict.words[opening].last)| >= 2
    ensures New(rules, players, opening, now).Started?
  {
    var ws := rules.dict.WordsStartingWith(rules.dict.words[opening].last);
    assert ws[0] != ws[1];
    var w := ws[if ws[0] == opening then 1 else 0];
    assert w in ws && w !in {opening};
    assert rules.dict.Resolve(opening) == Some(opening);
  }

  /**
   * An opening is playable exactly when some word other than itself answers it: two words begin on the syllable it hands
   * over, or one does and it is not the opening's own.
   */
  lemma OpeningPlaysIff(rules: Rules, players: seq<PlayerID>, opening: string, now: Time)
    requires Indexed(rules.dict) && rules.turnLimit > 0 && |players| >= 2 && Distinct(players)
    ensures New(rules, players, opening, now).Started? <==>
            rules.dict.Resolve(opening).Some? && rules.dict.Resolve(opening).value in rules.dict.words
            && var word := rules.dict.Resolve(opening).value;
               exists a <- rules.dict.WordsStartingWith(rules.dict.words[word].last) :: a != word
  {
  }

  /** A list without repetitions holds something other than w when it is longer than one, or is one word and not w. */
  lemma AnotherIff(ws: seq<string>, w: string)
    requires Distinct(ws)
    ensures (exists a <- ws :: a != w) <==> |ws| >= 2 || (|ws| == 1 && w !in ws)
  {
    if |ws| >= 2 {
      var other := ws[if ws[0] == w then 1 else 0];
      assert other in ws && other != w;
    } else if |ws| == 1 {
      assert ws == [ws[0]] && ws[0] in ws;
    }
  }

  /** ... which can be told from how many words answer it, and whether it answers itself. */
  lemma WordPlaysIff(rules: Rules, players: seq<PlayerID>, opening: string, now: Time)
    requires Indexed(rules.dict) && rules.turnLimit > 0 && |players| >= 2 && Distinct(players)
    requires opening in rules.dict.words
    ensures var info := rules.dict.words[opening]; var n := |rules.dict.WordsStartingWith(info.last)|;
            New(rules, players, opening, now).Started? <==> n >= 2 || (n == 1 && info.first != info.last)
  {
    var info := rules.dict.words[opening];
    OpeningPlaysIff(rules, players, opening, now);
    AnotherIff(rules.dict.WordsStartingWith(info.last), opening);
    assert opening in rules.dict.WordsStartingWith(info.last) <==> rules.dict.FirstSyllable(opening) == Some(info.last);
  }
}
