/** What holds of every game: its invariants over any run, how dead ends resolve, and that it ends. */
module GameProofs {
  import opened Basics
  import opened Dictionary
  import opened GameRules
  import Scoring

  // ----- a game begins in a playable position -----

  lemma NewKeepsInv(rules: Rules, players: seq<PlayerID>, opening: string, now: Time)
    requires New(rules, players, opening, now).Started?
    ensures var s := New(rules, players, opening, now).state;
            Inv(rules, s) && HasLegalMove(rules, s) && !s.over && s.players == players && s.turnIndex == 0
            && s.deadline == now + rules.turnLimit && rules.dict.Resolve(opening) == Some(s.opening)
  {
    var s := New(rules, players, opening, now).state;
    CountAll(s.alive);
    assert Words(s.opening, s.history) == [s.opening];
    assert (set w | w in Words(s.opening, s.history)) == {s.opening};
    assert OutInv(s) by { assert (set p: PlayerID | p in s.outOrder) == {}; }
  }

  // ----- an accepted move extends the chain -----

  lemma WordsMore(opening: string, history: seq<Move>, used: set<string>, m: Move)
    requires var words := Words(opening, history); Distinct(words) && used == (set w | w in words) && m.word !in used
    ensures var more := Words(opening, history + [m]);
            && more == Words(opening, history) + [m.word]
            && Distinct(more) && used + {m.word} == (set w | w in more)
  {
    var words := Words(opening, history);
    assert Words(opening, history + [m]) == words + [m.word];
    assert m.word !in words;
  }

  lemma ScoresMore(players: seq<PlayerID>, history: seq<Move>, scores: map<PlayerID, int>, m: Move)
    requires m.player in players && scores.Keys == (set p | p in players)
    requires forall p <- players :: scores[p] == ScoreOf(history, p)
    ensures var more := scores[m.player := scores[m.player] + m.points];
            more.Keys == scores.Keys && forall p <- players :: more[p] == ScoreOf(history + [m], p)
  {
    assert (history + [m])[..|history|] == history;
  }

  lemma ChainMore(dict: Store, players: seq<PlayerID>, opening: string, history: seq<Move>, used: set<string>,
                  current: string, scores: map<PlayerID, int>, m: Move)
    requires ChainOf(dict, players, opening, history, used, current, scores)
    requires m.player in players && m.word !in used && m.first == current
    requires dict.FirstSyllable(m.word) == Some(m.first) && dict.LastSyllable(m.word) == Some(m.last)
    ensures ChainOf(dict, players, opening, history + [m], used + {m.word}, m.last,
                    scores[m.player := scores[m.player] + m.points])
  {
    var words, moves := Words(opening, history), history + [m];
    var more := Words(opening, moves);
    WordsMore(opening, history, used, m);
    forall i | 0 <= i < |moves| ensures Linked(dict, more[i], moves[i]) && moves[i].player in players {
      assert more[i] == words[i];
    }
    ScoresMore(players, history, scores, m);
  }

  /** m answers the position: it is the turn holder's, links, and is a word nobody has played. */
  ghost predicate Answers(rules: Rules, s: State, m: Move)
    requires Shaped(s)
  {
    && !s.over && m.player == Turn(s) && m.first == s.current && m.word !in s.used
    && rules.dict.FirstSyllable(m.word) == Some(m.first) && rules.dict.LastSyllable(m.word) == Some(m.last)
  }

  lemma AcceptedAnswers(rules: Rules, s: State, p: PlayerID, raw: string, now: Time)
    requires Shaped(s) && rules.turnLimit > 0 && Judge(rules, s, p, raw, now).Accepted?
    ensures Answers(rules, s, Judge(rules, s, p, raw, now).move)
    ensures Judge(rules, s, p, raw, now).move.player == p && now <= s.deadline
  {
  }

  /**
   * An accepted word is worth what its parts say: each part listed is positive, base and chain are always there in full,
   * and the total is what the terms come to, at least a base and one link, capped.
   */
  lemma AcceptedScores(rules: Rules, s: State, p: PlayerID, raw: string, now: Time)
    requires Shaped(s) && rules.turnLimit > 0 && Judge(rules, s, p, raw, now).Accepted?
    ensures var m := Judge(rules, s, p, raw, now).move;
            var chain := 2 * Scoring.Min(|s.history| + 1, 15);
            var speed := Scoring.SpeedPoints(s.deadline, rules.turnLimit, now);
            var rarity := Scoring.RarityPoints(rules.dict.OutDegree(m.first));
            && m.syllables >= 2
            && 0 <= speed <= 10 && 0 <= rarity <= 15
            && (forall part <- m.parts :: part.value > 0)
            && [Scoring.PointPart(Scoring.Base, 10), Scoring.PointPart(Scoring.Chain, chain)] <= m.parts
            && m.points == Scoring.SumParts(m.parts)
               == Scoring.Min(100, 10 + chain + 5 * (m.syllables - 2) + speed + rarity)
            && 12 <= m.points <= 100
  {
    hide Scoring.Points, Scoring.SpeedPoints, Scoring.RarityPoints, Scoring.SumParts;
    var m := Judge(rules, s, p, raw, now).move;
    Scoring.SpeedFalls(s.deadline, rules.turnLimit, now, now);
    var speed := Scoring.SpeedPoints(s.deadline, rules.turnLimit, now);
    var rarity := Scoring.RarityPoints(rules.dict.OutDegree(m.first));
    Scoring.RarityInRange(rules.dict.OutDegree(m.first));
    Scoring.Breakdown(ChainLength(s), m.syllables, speed, rarity);
  }

  /** A move spends a word and moves the turn to another live player; who is in and who is out stays as it was. */
  lemma PlayKeepsTable(rules: Rules, s: State, m: Move, now: Time)
    requires TableInv(s) && !s.over && m.player in s.scores
    ensures TableInv(Play(rules, s, m, now)) && !Play(rules, s, m, now).over
    ensures Turn(Play(rules, s, m, now)) != Turn(s)
  {
    CountTwo(s.alive, s.turnIndex);
    NextAliveFinds(s.alive, s.turnIndex);
  }

  lemma PlayKeepsChain(rules: Rules, s: State, m: Move, now: Time)
    requires Shaped(s) && ChainInv(rules, s) && Answers(rules, s, m) && m.player in s.scores
    ensures ChainInv(rules, Play(rules, s, m, now)) && m.word in rules.dict.words
  {
    hide NextAlive, ScoreOf;
    ChainMore(rules.dict, s.players, s.opening, s.history, s.used, s.current, s.scores, m);
  }

  lemma PlayKeepsInv(rules: Rules, s: State, m: Move, now: Time)
    requires Inv(rules, s) && Answers(rules, s, m)
    ensures Inv(rules, Play(rules, s, m, now))
    ensures m.word in rules.dict.words && !Play(rules, s, m, now).over
    ensures Turn(Play(rules, s, m, now)) != Turn(s)
  {
    hide TableInv, ChainInv, Play, Answers;
    HasScore(rules, s, m);
    PlayKeepsTable(rules, s, m, now);
    PlayKeepsChain(rules, s, m, now);
  }

  lemma HasScore(rules: Rules, s: State, m: Move)
    requires Inv(rules, s) && Answers(rules, s, m)
    ensures Shaped(s) && !s.over && m.player in s.scores
  {
  }

  // ----- what every elimination leaves alone -----

  /** From s to t nothing but eliminations happened. */
  ghost predicate Sheds(s: State, t: State) {
    && Shaped(s) && Shaped(t)
    && t.players == s.players && t.opening == s.opening && t.used == s.used && t.current == s.current
    && t.history == s.history && t.scores == s.scores
    && s.outOrder <= t.outOrder
    && (|t.outOrder| == |s.outOrder| ==> t == s)
    && (forall i :: 0 <= i < |s.alive| && t.alive[i] ==> s.alive[i])
    && (s.over ==> t == s)
    && (t.turnIndex != s.turnIndex ==> !t.alive[s.turnIndex])
    && (t.turnIndex == s.turnIndex && !t.over ==> t.deadline == s.deadline)
  }

  lemma ShedsTrans(s: State, t: State, u: State)
    requires LiveInv(s) && LiveInv(t) && LiveInv(u) && Sheds(s, t) && Sheds(t, u)
    ensures Sheds(s, u)
  {
  }

  lemma EliminateSheds(s: State, p: PlayerID, reason: EndReason)
    requires LiveInv(s) && !s.over
    ensures Sheds(s, Eliminate(s, p, reason))
  {
    EliminateKeepsLive(s, p, reason);
  }

  lemma {:induction false} SettleSheds(rules: Rules, s: State)
    requires TableInv(s)
    ensures Sheds(s, Settle(rules, s))
    ensures Settle(rules, s).over || HasLegalMove(rules, s)
    ensures Settle(rules, s).deadline == s.deadline
    decreases s.aliveN
  {
    if !s.over && !HasLegalMove(rules, s) {
      var t := Eliminate(s, Turn(s), EndNoLegalMove);
      EliminateKeepsTable(s, Turn(s), EndNoLegalMove);
      EliminateSheds(s, Turn(s), EndNoLegalMove);
      SettleSheds(rules, t);
      ShedsTrans(s, t, Settle(rules, t));
    }
  }

  /** Losing the turn takes its holder out, moves the turn on and restarts the clock, or ends the game. */
  lemma ExpireSheds(rules: Rules, s: State, now: Time)
    requires TableInv(s) && !s.over
    ensures var t := Expire(rules, s, now);
            && Sheds(s, t) && |s.outOrder| < |t.outOrder| && t.outOrder[|s.outOrder|] == Turn(s)
            && t.turnIndex != s.turnIndex && (!t.over ==> t.deadline == now + rules.turnLimit)
  {
    var reason := if HasLegalMove(rules, s) then EndTimeout else EndNoLegalMove;
    EliminateKeepsTable(s, Turn(s), reason);
    EliminateSheds(s, Turn(s), reason);
    var t := Eliminate(s, Turn(s), reason);
    SettleSheds(rules, t);
    ShedsTrans(s, t, Settle(rules, t));
    var u := Settle(rules, t);
    assert u.alive[u.turnIndex] && !u.alive[s.turnIndex];
  }

  lemma EliminateOut(s: State, p: PlayerID, reason: EndReason)
    requires LiveInv(s) && IsAlive(s, p)
    ensures var t := Eliminate(s, p, reason);
            !IsAlive(t, p) && |t.outOrder| == |s.outOrder| + 1 && t.deadline == s.deadline && t.players == s.players
            && |t.alive| == |s.alive|
  {
  }

  lemma StaysOut(s: State, t: State, p: PlayerID)
    requires Sheds(s, t) && !IsAlive(s, p)
    ensures !IsAlive(t, p)
  {
  }

  lemma RestartSheds(rules: Rules, s: State, t: State, now: Time)
    requires Sheds(s, t) && t.turnIndex != s.turnIndex && |t.outOrder| > |s.outOrder|
    ensures Sheds(s, Restart(rules, t, now)) && Restart(rules, t, now) != s
    ensures forall p :: IsAlive(Restart(rules, t, now), p) == IsAlive(t, p)
  {
  }

  lemma ResignSheds(rules: Rules, s: State, p: PlayerID, now: Time)
    requires TableInv(s)
    ensures Sheds(s, Resign(rules, s, p, now))
    ensures !s.over ==> !IsAlive(Resign(rules, s, p, now), p) && (IsAlive(s, p) <==> Resign(rules, s, p, now) != s)
  {
    hide Eliminate, Settle, HasLegalMove, IsAlive, OutInv, Restart;
    if !s.over && IsAlive(s, p) {
      EliminateKeepsTable(s, p, EndResigned);
      EliminateSheds(s, p, EndResigned);
      EliminateOut(s, p, EndResigned);
      var t := Eliminate(s, p, EndResigned);
      if !t.over && Turn(t) != Turn(s) {
        SettleSheds(rules, t);
        ShedsTrans(s, t, Settle(rules, t));
        StaysOut(t, Settle(rules, t), p);
        SettledElsewhere(s, t, Settle(rules, t));
        RestartSheds(rules, s, Settle(rules, t), now);
      }
    }
  }

  /** Once the turn has moved off a player who is out, it does not come back to them. */
  lemma SettledElsewhere(s: State, t: State, u: State)
    requires LiveInv(s) && LiveInv(t) && LiveInv(u) && Sheds(s, t) && Sheds(t, u) && t.turnIndex != s.turnIndex
    ensures u.turnIndex != s.turnIndex
  {
  }

  // ----- any run of a game -----

  datatype Op =
    | SubmitOp(player: PlayerID, raw: string, now: Time)
    | TimeoutOp(now: Time)
    | NoMoveOp(now: Time)
    | ResignOp(player: PlayerID, now: Time)

  function Apply(rules: Rules, s: State, op: Op): State
    requires Inv(rules, s)
  {
    match op
    case SubmitOp(p, raw, now) => Submit(rules, s, p, raw, now)
    case TimeoutOp(now) => Timeout(rules, s, now)
    case NoMoveOp(now) => NoMove(rules, s, now)
    case ResignOp(p, now) => Resign(rules, s, p, now)
  }

  /** How much of a game is left: the words nobody has played and the players still in. */
  function Remaining(rules: Rules, s: State): nat
    requires LiveInv(s)
  {
    |rules.dict.words.Keys - s.used| + s.aliveN
  }

  /** Fewer live flags and more players out mean a smaller count. */
  lemma {:induction false} FewerAlive(before: seq<bool>, after: seq<bool>)
    requires |before| == |after| && forall i :: 0 <= i < |before| && after[i] ==> before[i]
    ensures CountAlive(after) <= CountAlive(before)
    ensures (exists i :: 0 <= i < |before| && before[i] && !after[i]) ==> CountAlive(after) < CountAlive(before)
  {
    if before != [] {
      var n := |before| - 1;
      FewerAlive(before[..n], after[..n]);
      if i :| 0 <= i < |before| && before[i] && !after[i] {
        if i < n { assert before[..n][i] && !after[..n][i]; }
      }
    }
  }

  /** A submission plays its word, or takes the late player out, or changes nothing. */
  lemma SubmitIs(rules: Rules, s: State, p: PlayerID, raw: string, now: Time)
    requires Inv(rules, s)
    ensures var t := Submit(rules, s, p, raw, now);
            match Judge(rules, s, p, raw, now)
            case Accepted(m) => t == Play(rules, s, m, now) && Inv(rules, t) && Answers(rules, s, m)
            case Rejected(reason) =>
              TableInv(t) && Sheds(s, t) && (reason != TimedOut ==> t == s)
  {
    match Judge(rules, s, p, raw, now)
    case Accepted(m) =>
      AcceptedAnswers(rules, s, p, raw, now);
      PlayKeepsInv(rules, s, m, now);
    case Rejected(reason) =>
      if reason == TimedOut { ExpireSheds(rules, s, now); }
  }

  lemma ShedsKeepsInv(rules: Rules, s: State, t: State)
    requires Inv(rules, s) && TableInv(t) && Sheds(s, t)
    ensures Inv(rules, t)
    ensures t != s ==> Remaining(rules, t) < Remaining(rules, s)
  {
    if t != s {
      var p := t.outOrder[|s.outOrder|];
      assert p in t.outOrder && p !in s.outOrder;
      var i := IndexOf(s.players, p);
      assert s.alive[i] && !t.alive[i];
      FewerAlive(s.alive, t.alive);
    }
  }

  lemma PlayShrinks(rules: Rules, s: State, m: Move, now: Time)
    requires Inv(rules, s) && Answers(rules, s, m)
    ensures LiveInv(Play(rules, s, m, now))
    ensures Remaining(rules, Play(rules, s, m, now)) < Remaining(rules, s)
  {
    PlayKeepsInv(rules, s, m, now);
    var used := s.used + {m.word};
    assert rules.dict.words.Keys - s.used == (rules.dict.words.Keys - used) + {m.word};
  }

  /** Every operation keeps the invariant, and leaves strictly less of the game unless it changes nothing. */
  lemma ApplyKeepsInv(rules: Rules, s: State, op: Op)
    requires Inv(rules, s)
    ensures Inv(rules, Apply(rules, s, op))
    ensures Apply(rules, s, op) != s ==> Remaining(rules, Apply(rules, s, op)) < Remaining(rules, s)
  {
    var t := Apply(rules, s, op);
    match op
    case SubmitOp(p, raw, now) =>
      SubmitIs(rules, s, p, raw, now);
      match Judge(rules, s, p, raw, now) {
        case Accepted(m) => PlayShrinks(rules, s, m, now);
        case Rejected(_) => ShedsKeepsInv(rules, s, t);
      }
    case TimeoutOp(now) =>
      if t != s { ExpireSheds(rules, s, now); ShedsKeepsInv(rules, s, t); }
    case NoMoveOp(now) =>
      if t != s { ExpireSheds(rules, s, now); ShedsKeepsInv(rules, s, t); }
    case ResignOp(p, now) =>
      ResignSheds(rules, s, p, now);
      ShedsKeepsInv(rules, s, t);
  }

  /** The state after a list of operations. */
  function Run(rules: Rules, s: State, ops: seq<Op>): (t: State)
    requires Inv(rules, s)
    ensures Inv(rules, t)
    decreases |ops|
  {
    if ops == [] then s
    else
      ApplyKeepsInv(rules, s, ops[0]);
      Run(rules, Apply(rules, s, ops[0]), ops[1..])
  }

  /** How many of the operations changed anything. */
  function Changes(rules: Rules, s: State, ops: seq<Op>): nat
    requires Inv(rules, s)
    decreases |ops|
  {
    if ops == [] then 0
    else
      ApplyKeepsInv(rules, s, ops[0]);
      var t := Apply(rules, s, ops[0]);
      (if t == s then 0 else 1) + Changes(rules, t, ops[1..])
  }

  /** No game goes on for ever: a run changes the state fewer times than there were words and players to spend. */
  lemma {:induction false} EveryGameEnds(rules: Rules, s: State, ops: seq<Op>)
    requires Inv(rules, s)
    ensures Changes(rules, s, ops) + Remaining(rules, Run(rules, s, ops)) <= Remaining(rules, s)
    ensures Changes(rules, s, ops) < Remaining(rules, s)
    decreases |ops|
  {
    if ops != [] {
      ApplyKeepsInv(rules, s, ops[0]);
      EveryGameEnds(rules, Apply(rules, s, ops[0]), ops[1..]);
    }
  }

  /** ... and one that is not over can always be moved on, by the clock if by nothing else. */
  lemma ClockAlwaysMoves(rules: Rules, s: State, now: Time)
    requires Inv(rules, s)
    ensures !s.over && now > s.deadline <==> Apply(rules, s, TimeoutOp(now)) != s
  {
    if !s.over && now > s.deadline {
      ExpireSheds(rules, s, now);
    }
  }
}
