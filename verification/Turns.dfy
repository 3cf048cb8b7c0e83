/** What an answer does to the game: whose turn comes next, on what clock, and why a word is refused. */
module Turns {
  import opened Basics
  import opened Dictionary
  import opened GameRules
  import opened GameProofs
  import opened Endings
  import Scoring

  // ----- a game that begins -----

  lemma AnsweredByAnother(dict: Store, word: string)
    requires Indexed(dict)
    ensures word in dict.words ==>
      var last := dict.words[word].last;
      (exists a <- dict.WordsStartingWith(last) :: a != word) <==> exists w <- dict.words :: w != word && dict.words[w].first == last
  {
    if word in dict.words {
      var last := dict.words[word].last;
      if a :| a in dict.WordsStartingWith(last) && a != word {
        ListedWhereItBegins(dict, a, last);
        assert a in dict.words && dict.words[a].first == last;
      }
      if w :| w in dict.words && w != word && dict.words[w].first == last { ListedWhereItBegins(dict, w, last); }
    }
  }

  /**
   * A game begins exactly when there are two players or more, all different, each with some time to answer, and it is opened
   * on a word, or the alias of one, that some other word answers.
   */
  lemma BeginsIff(rules: Rules, players: seq<PlayerID>, opening: string, now: Time)
    requires Indexed(rules.dict)
    ensures New(rules, players, opening, now).Started? <==>
            && |players| >= 2 && Distinct(players) && rules.turnLimit > 0
            && rules.dict.Resolve(opening).Some? && rules.dict.Resolve(opening).value in rules.dict.words
            && var word := rules.dict.Resolve(opening).value;
               exists w <- rules.dict.words :: w != word && rules.dict.words[w].first == rules.dict.words[word].last
  {
    hide Indexed;
    if |players| >= 2 && Distinct(players) && rules.turnLimit > 0 {
      OpeningPlaysIff(rules, players, opening, now);
      if rules.dict.Resolve(opening).Some? { AnsweredByAnother(rules.dict, rules.dict.Resolve(opening).value); }
    }
  }

  // ----- a word that is taken -----

  /** The word a player's text stands for: the dictionary word it spells, or the one an alternative spelling belongs to. */
  function Meant(rules: Rules, raw: string): Option<string> {
    match rules.normalize(raw)
    case None => None
    case Some(n) => if n.syllables < Scoring.MIN_SYLLABLES then None else rules.dict.Resolve(n.word)
  }

  /**
   * A word that is taken hands the turn to the next live player round the table, who has a whole turn from now. What is
   * added to the game is that word, as the player typed it, at that time; and nobody comes in or goes out by it.
   */
  lemma TakenMovesOn(rules: Rules, s: State, p: PlayerID, raw: string, now: Time)
    requires Inv(rules, s) && Judge(rules, s, p, raw, now).Accepted?
    ensures var t := Submit(rules, s, p, raw, now);
            && t.deadline == now + rules.turnLimit
            && t.alive == s.alive && t.outOrder == s.outOrder && t.players == s.players && !t.over
            && JustBefore(s.alive, s.turnIndex, t.turnIndex) && s.alive[t.turnIndex]
            && |t.history| == |s.history| + 1 && t.history[..|s.history|] == s.history
            && var m := t.history[|s.history|];
               && m.player == p && Some(m.word) == Meant(rules, raw) && m.typed == raw && m.at == now
               && t.current == m.last && t.used == s.used + {m.word}
               && (forall q <- s.players :: q in s.scores && q in t.scores
                                            && t.scores[q] == s.scores[q] + (if q == p then m.points else 0))
  {
    hide Inv, Judge, Answers, Play;
    InPlay(rules, s);
    SubmitIs(rules, s, p, raw, now);
    AcceptedIs(rules, s, p, raw, now);
    PlayMovesOn(rules, s, Judge(rules, s, p, raw, now).move, now);
  }

  lemma AcceptedIs(rules: Rules, s: State, p: PlayerID, raw: string, now: Time)
    requires Inv(rules, s) && Judge(rules, s, p, raw, now).Accepted?
    ensures var m := Judge(rules, s, p, raw, now).move;
            m.player == p && Some(m.word) == Meant(rules, raw) && m.typed == raw && m.at == now
  {
    hide TableInv, ChainInv, PointsFor;
  }

  lemma PlayMovesOn(rules: Rules, s: State, m: Move, now: Time)
    requires Inv(rules, s) && Answers(rules, s, m)
    ensures m.player in s.scores
    ensures var t := Play(rules, s, m, now);
            && t.deadline == now + rules.turnLimit
            && t.alive == s.alive && t.outOrder == s.outOrder && t.players == s.players && !t.over
            && JustBefore(s.alive, s.turnIndex, t.turnIndex) && s.alive[t.turnIndex]
            && t.history == s.history + [m] && t.current == m.last && t.used == s.used + {m.word}
            && (forall q <- s.players :: q in s.scores && q in t.scores
                                         && t.scores[q] == s.scores[q] + (if q == m.player then m.points else 0))
  {
    HasScore(rules, s, m);
    CountTwo(s.alive, s.turnIndex);
    NextAliveFinds(s.alive, s.turnIndex);
    hide CountAlive, OutInv, ScoreOf;
  }

  /**
   * What a word earns for being rare goes by how many words of the dictionary begin where it does, played ones among them, and
   * is nothing where the dictionary has not counted them.
   */
  lemma RarityCountsWords(rules: Rules, s: State, p: PlayerID, raw: string, now: Time)
    requires Shaped(s) && rules.turnLimit > 0 && Judge(rules, s, p, raw, now).Accepted?
    requires forall syllable <- rules.dict.outDegree ::
      |rules.dict.WordsStartingWith(syllable)| == rules.dict.outDegree[syllable]
    ensures var m := Judge(rules, s, p, raw, now).move;
            var rarity := if m.first !in rules.dict.outDegree then 0
                          else Scoring.RarityPoints(Some(|rules.dict.WordsStartingWith(m.first)|));
            m.points == Scoring.Min(100, 10 + 2 * Scoring.Min(|s.history| + 1, 15) + 5 * (m.syllables - 2)
                                         + Scoring.SpeedPoints(s.deadline, rules.turnLimit, now) + rarity)
  {
    hide Judge, Scoring.SpeedPoints;
    AcceptedScores(rules, s, p, raw, now);
    Scoring.UnknownIsNotRare(None);
  }

  // ----- a word that is refused -----

  /** Whether a player may answer at all. */
  predicate ToAnswer(s: State, p: PlayerID, now: Time)
    requires Shaped(s)
  {
    !s.over && p == Turn(s) && now <= s.deadline
  }

  /**
   * What each refusal says is so, and is said only then: the game is over; it is not their turn; their time is up; the text
   * is too short to be a word, or no word of the dictionary, or does not begin on the syllable in play, or has been played.
   */
  lemma RefusedBecause(rules: Rules, s: State, p: PlayerID, raw: string, now: Time)
    requires Inv(rules, s)
    ensures var answer, word, text := Judge(rules, s, p, raw, now), Meant(rules, raw), rules.normalize(raw);
            var long := text.Some? && text.value.syllables >= Scoring.MIN_SYLLABLES;
            var known := word.Some? && word.value in rules.dict.words;
            && (answer == Rejected(GameIsOver) <==> s.over)
            && (answer == Rejected(NotYourTurn) <==> !s.over && p != Turn(s))
            && (answer == Rejected(TimedOut) <==> !s.over && p == Turn(s) && now > s.deadline)
            && (ToAnswer(s, p, now) ==>
                  && (answer == Rejected(TooFewSyllables) <==> !long)
                  && (answer == Rejected(NotInDictionary) <==> long && !known)
                  && (answer == Rejected(WrongLink) <==> known && rules.dict.words[word.value].first != s.current)
                  && (answer == Rejected(AlreadyUsed)
                      <==> known && rules.dict.words[word.value].first == s.current && word.value in s.used)
                  && (answer.Accepted?
                      <==> known && rules.dict.words[word.value].first == s.current && word.value !in s.used))
  {
    hide TableInv, ChainInv, PointsFor;
  }

  // ----- a player who goes out -----

  /**
   * Giving up one's turn while a word is left passes it to the next in order, who has a whole turn from now, or leaves one
   * player, who has won.
   */
  lemma ResignedTurnPasses(rules: Rules, s: State, now: Time)
    requires TableInv(s) && !s.over && HasLegalMove(rules, s)
    ensures var t := Resign(rules, s, Turn(s), now);
            && TurnOrder(s) == [Turn(s)] + TurnOrder(t) && t.outOrder == s.outOrder + [Turn(s)]
            && Turn(s) in t.outReason && t.outReason[Turn(s)] == EndResigned
            && (t.over <==> s.aliveN == 2)
            && (if t.over then TurnOrder(t) == [t.winner] else t.deadline == now + rules.turnLimit)
  {
    hide Survivors, HasLegalMove, OutInv, CountAlive;
    EliminateKeepsTable(s, Turn(s), EndResigned);
    IndexOfTurn(s);
    TurnOrderTail(s, EndResigned);
    var u := Eliminate(s, Turn(s), EndResigned);
    TurnOrderCounts(u);
    SameMoves(rules, s, u);
    assert u.alive[u.turnIndex] && !u.alive[s.turnIndex];
  }

  lemma SameMoves(rules: Rules, s: State, t: State)
    requires t.current == s.current && t.used == s.used
    ensures HasLegalMove(rules, t) <==> HasLegalMove(rules, s)
  {
  }

  /** Going out of turn leaves the turn, its clock and everybody else's place in the order as they were. */
  lemma ResignedOutOfTurn(rules: Rules, s: State, p: PlayerID, now: Time)
    requires TableInv(s) && !s.over && IsAlive(s, p) && p != Turn(s)
    ensures var t := Resign(rules, s, p, now);
            && Shaped(t) && Turn(t) == Turn(s) && t.deadline == s.deadline && t.current == s.current
            && t.outOrder == s.outOrder + [p] && p in t.outReason && t.outReason[p] == EndResigned
            && (forall q :: q in s.players && q != p ==> (IsAlive(t, q) <==> IsAlive(s, q)))
            && (t.over <==> s.aliveN == 2) && (t.over ==> t.winner == Turn(s))
  {
    EliminateKeepsTable(s, p, EndResigned);
    IndexOfTurn(s);
  }

  /** However a player gives up, they are out, first of all who go out by it, and recorded as having resigned. */
  lemma GivenUp(rules: Rules, s: State, p: PlayerID, now: Time)
    requires TableInv(s) && !s.over
    ensures var t := Resign(rules, s, p, now);
            if IsAlive(s, p) then
              && t != s && s.outOrder + [p] <= t.outOrder && p in t.outReason && t.outReason[p] == EndResigned
            else t == s
  {
    hide HasLegalMove, IsAlive, CountAlive, OutOf;
    if IsAlive(s, p) {
      EliminateKeepsTable(s, p, EndResigned);
      var u := Eliminate(s, p, EndResigned);
      EliminatedAs(s, p, EndResigned);
      SettleSheds(rules, u);
      SettleReasons(rules, u, p);
    }
  }

  lemma EliminatedAs(s: State, p: PlayerID, reason: EndReason)
    requires Shaped(s) && IsAlive(s, p)
    ensures var u := Eliminate(s, p, reason);
            u.outOrder == s.outOrder + [p] && p in u.outOrder && p in u.outReason && u.outReason[p] == reason
  {
  }

  /** Giving up one's turn loses it: it goes to somebody else, with a whole turn from now, unless the game is over. */
  lemma TurnGivenUp(rules: Rules, s: State, now: Time)
    requires TableInv(s) && !s.over
    ensures var t := Resign(rules, s, Turn(s), now);
            && |s.outOrder| < |t.outOrder| && t.outOrder[|s.outOrder|] == Turn(s)
            && Turn(s) in t.outReason && t.outReason[Turn(s)] == EndResigned
            && t.turnIndex != s.turnIndex && (t.over || t.deadline == now + rules.turnLimit)
  {
    hide HasLegalMove, CountAlive, OutOf;
    IndexOfTurn(s);
    GivenUp(rules, s, Turn(s), now);
    EliminateKeepsTable(s, Turn(s), EndResigned);
    EliminateSheds(s, Turn(s), EndResigned);
    var u := Eliminate(s, Turn(s), EndResigned);
    SettleSheds(rules, u);
    ShedsTrans(s, u, Settle(rules, u));
    assert u.alive[u.turnIndex] && !u.alive[s.turnIndex];
    assert s.alive[s.turnIndex];
  }

  lemma NoMovesIff(rules: Rules, s: State)
    ensures LegalMoves(rules, s) == [] <==> !HasLegalMove(rules, s)
  {
    UnspentExact(rules.dict.WordsStartingWith(s.current), s.used);
    if LegalMoves(rules, s) != [] {
      var w := LegalMoves(rules, s)[0];
      assert w in LegalMoves(rules, s);
    }
  }

  /** A dead end that is settled is lost by the player facing it. */
  lemma DeadEndIsLost(rules: Rules, s: State, now: Time)
    requires TableInv(s) && !s.over && !HasLegalMove(rules, s)
    ensures Expire(rules, s, now).over && Expire(rules, s, now).winner != Turn(s)
  {
    var j := DeadEndDecides(rules, s, now);
    assert j != s.turnIndex;
  }

  lemma RunningOnly(rules: Rules, s: State, p: PlayerID, raw: string, now: Time)
    requires Inv(rules, s) && Judge(rules, s, p, raw, now) == Rejected(TimedOut)
    ensures !s.over && p == Turn(s) && Submit(rules, s, p, raw, now) == Expire(rules, s, now)
  {
    hide Expire, Scoring.Points;
  }

  /** Whoever is out already stays out for the reason they had, and whoever else goes out with p had no move to make. */
  lemma OthersHadNoMove(rules: Rules, s: State, p: PlayerID, now: Time, q: PlayerID)
    requires TableInv(s) && q != p
    ensures var t := Resign(rules, s, p, now);
            q in t.outReason ==>
              if q in s.outReason then t.outReason[q] == s.outReason[q] else t.outReason[q] == EndNoLegalMove
  {
    hide HasLegalMove, CountAlive, OutInv, LiveInv, IsAlive, Settle;
    TableIsShaped(s);
    if !s.over && IsAlive(s, p) {
      EliminateKeepsTable(s, p, EndResigned);
      var u := Eliminate(s, p, EndResigned);
      var v := Settle(rules, u);
      assert q in u.outReason <==> q in s.outReason by { hide *; OthersStay(s, p, q); }
      SettleReasons(rules, u, q);
      OutHasReason(u, q);
      OutHasReason(v, q);
    }
  }

  lemma TableIsShaped(s: State)
    requires TableInv(s)
    ensures Shaped(s)
  {
  }

  lemma OutHasReason(s: State, q: PlayerID)
    requires TableInv(s)
    ensures q in s.outReason <==> q in s.outOrder
  {
    assert q in s.outReason.Keys <==> q in (set p | p in s.outOrder);
  }

  lemma OthersStay(s: State, p: PlayerID, q: PlayerID)
    requires Shaped(s) && q != p
    ensures var u := Eliminate(s, p, EndResigned);
            && (q in u.outReason <==> q in s.outReason) && (q in u.outReason ==> u.outReason[q] == s.outReason[q])
  {
  }

  /** Whoever has just lost their turn has nothing left to give up. */
  lemma AlreadyOut(rules: Rules, s: State, now: Time, later: Time)
    requires TableInv(s) && !s.over
    ensures var t := Expire(rules, s, now); Resign(rules, t, Turn(s), later) == t
  {
    ExpireSheds(rules, s, now);
    var t := Expire(rules, s, now);
    hide Expire, CountAlive, HasLegalMove;
    assert Turn(s) in t.outOrder;
  }

  // ----- how a game is said to have ended -----

  /** The reason given for the game is that of whoever went out last; there is none until somebody has. */
  ghost predicate EndIsLast(s: State) {
    if s.outOrder == [] then s.endReason == EndNone
    else
      var p := s.outOrder[|s.outOrder| - 1];
      p in s.outReason && s.endReason == s.outReason[p]
  }

  lemma EliminatedIsLast(s: State, p: PlayerID, reason: EndReason)
    requires Shaped(s) && EndIsLast(s)
    ensures EndIsLast(Eliminate(s, p, reason))
  {
  }

  lemma {:induction false} SettledIsLast(rules: Rules, s: State)
    requires TableInv(s) && EndIsLast(s)
    ensures EndIsLast(Settle(rules, s))
    decreases s.aliveN
  {
    hide HasLegalMove, EndIsLast, OutInv, CountAlive;
    if !s.over && !HasLegalMove(rules, s) {
      EliminateKeepsTable(s, Turn(s), EndNoLegalMove);
      EliminatedIsLast(s, Turn(s), EndNoLegalMove);
      SettledIsLast(rules, Eliminate(s, Turn(s), EndNoLegalMove));
    }
  }

  lemma RestartedIsLast(rules: Rules, s: State, now: Time)
    requires EndIsLast(s)
    ensures EndIsLast(Restart(rules, s, now))
  {
  }

  lemma ExpiredIsLast(rules: Rules, s: State, now: Time)
    requires TableInv(s) && !s.over && EndIsLast(s)
    ensures EndIsLast(Expire(rules, s, now))
  {
    hide HasLegalMove, EndIsLast, OutInv, CountAlive, Eliminate, Settle, Restart;
    var reason := if HasLegalMove(rules, s) then EndTimeout else EndNoLegalMove;
    EliminateKeepsTable(s, Turn(s), reason);
    EliminatedIsLast(s, Turn(s), reason);
    var u := Eliminate(s, Turn(s), reason);
    SettledIsLast(rules, u);
    RestartedIsLast(rules, Settle(rules, u), now);
  }

  lemma ResignedIsLast(rules: Rules, s: State, p: PlayerID, now: Time)
    requires TableInv(s) && EndIsLast(s)
    ensures EndIsLast(Resign(rules, s, p, now))
  {
    hide HasLegalMove, EndIsLast, OutInv, CountAlive, Eliminate, Settle, Restart, IsAlive;
    if !s.over && IsAlive(s, p) {
      EliminateKeepsTable(s, p, EndResigned);
      EliminatedIsLast(s, p, EndResigned);
      var u := Eliminate(s, p, EndResigned);
      SettledIsLast(rules, u);
      RestartedIsLast(rules, Settle(rules, u), now);
    }
  }

  lemma PlayedIsLast(rules: Rules, s: State, m: Move, now: Time)
    requires Shaped(s) && m.player in s.scores && EndIsLast(s)
    ensures EndIsLast(Play(rules, s, m, now))
  {
  }

  lemma AppliedIsLast(rules: Rules, s: State, op: Op)
    requires Inv(rules, s) && EndIsLast(s)
    ensures EndIsLast(Apply(rules, s, op))
  {
    hide HasLegalMove, EndIsLast, OutInv, ChainInv, Expire, Resign, Play, Judge, Answers;
    match op
    case SubmitOp(p, raw, now) =>
      SubmitIs(rules, s, p, raw, now);
      match Judge(rules, s, p, raw, now) {
        case Accepted(m) =>
          HasScore(rules, s, m);
          PlayedIsLast(rules, s, m, now);
        case Rejected(reason) =>
          if reason == TimedOut {
            RunningOnly(rules, s, p, raw, now);
            ExpiredIsLast(rules, s, now);
          }
      }
    case TimeoutOp(now) => if !s.over { ExpiredIsLast(rules, s, now); }
    case NoMoveOp(now) => if !s.over { ExpiredIsLast(rules, s, now); }
    case ResignOp(p, now) => ResignedIsLast(rules, s, p, now);
  }

  /** Over any run of a game, the reason given for its end is that of whoever went out last. */
  lemma {:induction false} EndIsLastOverRuns(rules: Rules, s: State, ops: seq<Op>)
    requires Inv(rules, s) && EndIsLast(s)
    ensures EndIsLast(Run(rules, s, ops))
    decreases |ops|
  {
    hide Inv, EndIsLast, Apply;
    if ops != [] {
      ApplyKeepsInv(rules, s, ops[0]);
      AppliedIsLast(rules, s, ops[0]);
      EndIsLastOverRuns(rules, Apply(rules, s, ops[0]), ops[1..]);
    }
  }

  lemma NewIsUndecided(rules: Rules, players: seq<PlayerID>, opening: string, now: Time)
    requires New(rules, players, opening, now).Started?
    ensures Inv(rules, New(rules, players, opening, now).state) && EndIsLast(New(rules, players, opening, now).state)
  {
    NewKeepsInv(rules, players, opening, now);
  }
}
