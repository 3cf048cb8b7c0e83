/** One game played in place: the mutable engine, every operation of which is the rules' function of its state. */
module Engine {
  import opened Basics
  import R = GameRules
  import P = GameProofs
  import E = Endings
  import Scoring

  /** Every seat in [lo, hi) has gone out. */
  ghost predicate Out(alive: seq<bool>, lo: nat, hi: nat)
    requires hi <= |alive|
  {
    forall k :: lo <= k < hi ==> !alive[k]
  }

  class Engine {
    const rules: R.Rules
    const players: seq<R.PlayerID>
    const opening: string
    var alive: seq<bool>
    var aliveN: int
    var outOrder: seq<R.PlayerID>
    var outReason: map<R.PlayerID, R.EndReason>
    var used: set<string>
    var current: string
    var turnIndex: nat
    var deadline: R.Time
    var history: seq<R.Move>
    var scores: map<R.PlayerID, int>
    var over: bool
    var winner: R.PlayerID
    var endReason: R.EndReason

    /** The state of the game, as it is handed to whoever asks for a snapshot of it. */
    function View(): R.State
      reads this
    {
      R.State(players, alive, aliveN, outOrder, outReason, opening, used, current, turnIndex, deadline, history, scores,
              over, winner, endReason)
    }

    ghost predicate Valid()
      reads this
    {
      R.Inv(rules, View())
    }

    constructor (rules: R.Rules, players: seq<R.PlayerID>, canonical: string, last: string, now: R.Time)
      ensures this.rules == rules
      ensures View() == R.State(players, seq(|players|, _ => true), |players|, [], map[], canonical, {canonical}, last, 0,
                                now + rules.turnLimit, [], map p | p in players :: 0, false, R.Nobody, R.EndNone)
    {
      this.rules, this.players, opening := rules, players, canonical;
      alive, aliveN := seq(|players|, _ => true), |players|;
      outOrder, outReason := [], map[];
      used, current := {canonical}, last;
      turnIndex, deadline := 0, now + rules.turnLimit;
      history, scores := [], map p | p in players :: 0;
      over, winner, endReason := false, R.Nobody, R.EndNone;
    }

    function Turn(): R.PlayerID
      requires turnIndex < |players|
      reads this
    {
      players[turnIndex]
    }

    method IndexOf(p: R.PlayerID) returns (i: int)
      requires Distinct(players)
      ensures i == R.IndexOf(players, p)
    {
      i := 0;
      while i < |players|
        invariant 0 <= i <= |players| && forall k :: 0 <= k < i ==> players[k] != p
      {
        if players[i] == p {
          return;
        }
        i := i + 1;
      }
      i := -1;
    }

    method HasLegalMove() returns (any: bool)
      ensures any == R.HasLegalMove(rules, View())
    {
      var words := rules.dict.WordsStartingWith(current);
      for i := 0 to |words|
        invariant forall k :: 0 <= k < i ==> words[k] in used
      {
        if words[i] !in used {
          return true;
        }
      }
      return false;
    }

    method LegalMoves() returns (moves: seq<string>)
      ensures moves == R.LegalMoves(rules, View())
    {
      moves := [];
      var words := rules.dict.WordsStartingWith(current);
      for i := 0 to |words|
        invariant moves == Unspent(words[..i], used)
      {
        assert words[..i + 1][..i] == words[..i];
        if words[i] !in used {
          moves := moves + [words[i]];
        }
      }
      assert words[..|words|] == words;
    }

    /** Moves the turn to the next player still in the game. */
    method Advance()
      requires turnIndex < |players| == |alive|
      modifies this`turnIndex
      ensures turnIndex == R.NextAlive(alive, old(turnIndex))
    {
      var n := |players|;
      ghost var start := turnIndex;
      var round := 0;
      while round < n
        invariant 0 <= round <= n
        invariant turnIndex == if start + round < n then start + round else start + round - n
        invariant if turnIndex > start || round == 0 then Out(alive, start + 1, turnIndex + 1)
                  else Out(alive, start + 1, n) && Out(alive, 0, turnIndex + 1)
      {
        Wrap(turnIndex, n);
        turnIndex := (turnIndex + 1) % n;
        round := round + 1;
        if alive[turnIndex] {
          NextIs(alive, start, turnIndex);
          return;
        }
      }
      NextIs(alive, start, start);
    }

    /** Writes down that the player in seat i is out, and why. */
    method MarkOut(i: nat, reason: R.EndReason)
      requires i < |players| == |alive|
      modifies this`alive, this`aliveN, this`outOrder, this`outReason, this`endReason
      ensures var s, p := old(View()), players[i];
              View() == s.(alive := s.alive[i := false], aliveN := s.aliveN - 1, outOrder := s.outOrder + [p],
                           outReason := s.outReason[p := reason], endReason := reason)
    {
      alive := alive[i := false];
      aliveN := aliveN - 1;
      outOrder := outOrder + [players[i]];
      outReason := outReason[players[i] := reason];
      endReason := reason;
    }

    /** The player in seat i goes out, which ends the game when one is left. */
    method TakeOut(i: nat, reason: R.EndReason)
      requires R.Shaped(View()) && i < |players|
      modifies this
      ensures View() == R.TakeOut(old(View()), i, reason)
    {
      hide R.NextAlive, R.FirstAlive;
      MarkOut(i, reason);
      if turnIndex == i {
        Advance();
      }
      if aliveN <= 1 {
        over := true;
        winner := players[turnIndex];
      }
    }

    method Eliminate(p: R.PlayerID, reason: R.EndReason) returns (done: bool)
      requires R.Shaped(View()) && Distinct(players)
      modifies this
      ensures View() == R.Eliminate(old(View()), p, reason)
      ensures done == old(R.IsAlive(View(), p))
    {
      var i := IndexOf(p);
      if i < 0 || !alive[i] {
        return false;
      }
      TakeOut(i, reason);
      return true;
    }

    method Settle()
      requires R.TableInv(View())
      modifies this
      ensures View() == R.Settle(rules, old(View()))
    {
      ghost var start := View();
      var stuck := HasLegalMove();
      while !over && !stuck
        invariant R.TableInv(View()) && R.Settle(rules, View()) == R.Settle(rules, start)
        invariant stuck == R.HasLegalMove(rules, View())
        decreases aliveN
      {
        R.EliminateKeepsTable(View(), Turn(), R.EndNoLegalMove);
        var _ := Eliminate(Turn(), R.EndNoLegalMove);
        stuck := HasLegalMove();
      }
    }

    /** Settles a dead end the turn has just moved into, and restarts the clock if the game goes on. */
    method SettleAndRestart(now: R.Time)
      requires R.TableInv(View())
      modifies this
      ensures View() == R.Restart(rules, R.Settle(rules, old(View())), now)
    {
      Settle();
      if !over {
        deadline := now + rules.turnLimit;
      }
    }

    /** Ends the current turn against the player holding it. */
    method Expire(now: R.Time)
      requires R.TableInv(View()) && !over
      modifies this
      ensures View() == R.Expire(rules, old(View()), now)
    {
      var any := HasLegalMove();
      var reason := if any then R.EndTimeout else R.EndNoLegalMove;
      R.EliminateKeepsTable(View(), Turn(), reason);
      var _ := Eliminate(Turn(), reason);
      SettleAndRestart(now);
    }

    method Timeout(now: R.Time) returns (done: bool)
      requires Valid()
      modifies this
      ensures Valid() && View() == R.Timeout(rules, old(View()), now)
      ensures done <==> View() != old(View())
    {
      P.ApplyKeepsInv(rules, View(), P.TimeoutOp(now));
      P.ClockAlwaysMoves(rules, View(), now);
      if over || now <= deadline {
        return false;
      }
      Expire(now);
      return true;
    }

    method NoMove(now: R.Time) returns (done: bool)
      requires Valid()
      modifies this
      ensures Valid() && View() == R.NoMove(rules, old(View()), now)
      ensures done <==> View() != old(View())
    {
      P.ApplyKeepsInv(rules, View(), P.NoMoveOp(now));
      if over {
        return false;
      }
      var any := HasLegalMove();
      if any {
        return false;
      }
      P.ExpireSheds(rules, View(), now);
      Expire(now);
      return true;
    }

    method Resign(p: R.PlayerID, now: R.Time) returns (done: bool)
      requires Valid()
      modifies this
      ensures View() == R.Resign(rules, old(View()), p, now)
      ensures Valid()
      ensures done <==> !old(over) && old(R.IsAlive(View(), p))
    {
      ResignKeepsInv(rules, View(), p, now);
      if over {
        return false;
      }
      var before := Turn();
      R.EliminateKeepsTable(View(), p, R.EndResigned);
      done := Eliminate(p, R.EndResigned);
      if done && !over && Turn() != before {
        SettleAndRestart(now);
      }
    }

    method Submit(p: R.PlayerID, raw: string, now: R.Time) returns (answer: R.Answer)
      requires Valid()
      modifies this
      ensures View() == R.Submit(rules, old(View()), p, raw, now)
      ensures Valid()
      ensures answer == R.Judge(rules, old(View()), p, raw, now)
    {
      hide R.Examine, R.Expire, R.Play;
      SubmitKeepsInv(rules, View(), p, raw, now);
      if over {
        return R.Rejected(R.GameIsOver);
      }
      if p != Turn() {
        return R.Rejected(R.NotYourTurn);
      }
      if now > deadline {
        Expire(now);
        return R.Rejected(R.TimedOut);
      }
      answer := Examine(p, raw, now);
      NeitherLateNorOthers(rules, View(), p, raw, now);
      if answer.Accepted? {
        Play(answer.move, now);
      }
    }

    /** What the word is, for the player to act and in time: a move with its points, or why it is refused. */
    method Examine(p: R.PlayerID, raw: string, now: R.Time) returns (answer: R.Answer)
      requires R.Shaped(View()) && rules.turnLimit > 0 && !over && p == Turn() && now <= deadline
      ensures answer == R.Examine(rules, View(), p, raw, now)
    {
      var normalized := rules.normalize(raw);
      if normalized.None? || normalized.value.syllables < Scoring.MIN_SYLLABLES {
        return R.Rejected(R.TooFewSyllables);
      }
      var canonical := rules.dict.Resolve(normalized.value.word);
      if canonical.None? {
        return R.Rejected(R.NotInDictionary);
      }
      var first := rules.dict.FirstSyllable(canonical.value);
      if first.None? {
        return R.Rejected(R.NotInDictionary);
      }
      if first.value != current {
        return R.Rejected(R.WrongLink);
      }
      if canonical.value in used {
        return R.Rejected(R.AlreadyUsed);
      }
      var last := rules.dict.LastSyllable(canonical.value);
      if last.None? {
        return R.Rejected(R.NotInDictionary);
      }
      var points, parts := Scoring.PointsFor(
        |history| + 1, normalized.value.syllables, Scoring.SpeedPoints(deadline, rules.turnLimit, now),
        Scoring.RarityPoints(rules.dict.OutDegree(first.value)));
      return R.Accepted(
          R.Move(p, canonical.value, raw, first.value, last.value, normalized.value.syllables, points, parts, now));
    }

    /** Applies an accepted move: spends the word, scores it and hands the turn on. */
    method Play(move: R.Move, now: R.Time)
      requires R.Shaped(View()) && move.player in scores
      modifies this
      ensures View() == R.Play(rules, old(View()), move, now)
    {
      ghost var t := R.Play(rules, View(), move, now);
      used := used + {move.word};
      history := history + [move];
      scores := scores[move.player := scores[move.player] + move.points];
      current := move.last;
      Advance();
      deadline := now + rules.turnLimit;
    }

    method Standings() returns (table: seq<E.Standing>)
      requires R.TableInv(View()) && scores.Keys == set p | p in players
      ensures table == E.Standings(View())
    {
      table := [];
      if winner != R.Nobody && winner in scores {
        table := [E.Standing(winner, scores[winner], 1, R.EndNone)];
      }
      ghost var top, n := table, |outOrder|;
      var i := |outOrder| - 1;
      while i >= 0
        invariant -1 <= i < n
        invariant table == top + E.Rows(outOrder, scores, outReason, |top|, n - 1 - i)
      {
        var p := outOrder[i];
        E.RowsMore(outOrder, scores, outReason, |top|, n - 1 - i);
        table := table + [E.Standing(p, scores[p], |table| + 1, outReason[p])];
        i := i - 1;
      }
    }
  }

  /** Starts a game, or refuses one that could not be played; null is the refusal. */
  method NewEngine(rules: R.Rules, players: seq<R.PlayerID>, opening: string, now: R.Time) returns (e: Engine?)
    ensures e == null <==> R.New(rules, players, opening, now).Refused?
    ensures e != null ==> fresh(e) && e.rules == rules && e.Valid()
                          && e.View() == R.New(rules, players, opening, now).state
  {
    if |players| < 2 || rules.turnLimit <= 0 {
      return null;
    }
    var seen: set<R.PlayerID> := {};
    for i := 0 to |players|
      invariant Distinct(players[..i]) && seen == set p | p in players[..i]
    {
      assert players[..i + 1] == players[..i] + [players[i]];
      if players[i] in seen {
        var k :| 0 <= k < i && players[k] == players[i];
        return null;
      }
      seen := seen + {players[i]};
    }
    assert players[..|players|] == players;
    var canonical := rules.dict.Resolve(opening);
    if canonical.None? {
      return null;
    }
    var last := rules.dict.LastSyllable(canonical.value);
    if last.None? {
      return null;
    }
    e := new Engine(rules, players, canonical.value, last.value, now);
    var any := e.HasLegalMove();
    if !any {
      return null;
    }
    P.NewKeepsInv(rules, players, opening, now);
  }

  lemma Wrap(i: nat, n: nat)
    requires i < n
    ensures (i + 1) % n == if i + 1 < n then i + 1 else 0
  {
  }

  /** j is the next live seat after i when every seat on the way round to it has gone out. */
  lemma NextIs(alive: seq<bool>, i: nat, j: nat)
    requires i < |alive| && j < |alive| && (alive[j] || i == j)
    requires if i < j then Out(alive, i + 1, j) else Out(alive, i + 1, |alive|) && Out(alive, 0, j)
    ensures R.NextAlive(alive, i) == j
  {
  }

  /** Examining a word never finds it late, and the move it makes is the submitter's. */
  lemma NeitherLateNorOthers(rules: R.Rules, s: R.State, p: R.PlayerID, raw: string, now: R.Time)
    requires rules.turnLimit > 0
    ensures var answer := R.Examine(rules, s, p, raw, now);
            if answer.Accepted? then answer.move.player == p else answer.reason != R.TimedOut
  {
  }

  lemma SubmitKeepsInv(rules: R.Rules, s: R.State, p: R.PlayerID, raw: string, now: R.Time)
    requires R.Inv(rules, s)
    ensures R.Inv(rules, R.Submit(rules, s, p, raw, now))
  {
    P.SubmitIs(rules, s, p, raw, now);
    if R.Judge(rules, s, p, raw, now).Rejected? { P.ShedsKeepsInv(rules, s, R.Submit(rules, s, p, raw, now)); }
  }

  lemma ResignKeepsInv(rules: R.Rules, s: R.State, p: R.PlayerID, now: R.Time)
    requires R.Inv(rules, s)
    ensures R.Inv(rules, R.Resign(rules, s, p, now))
  {
    P.ResignSheds(rules, s, p, now);
    P.ShedsKeepsInv(rules, s, R.Resign(rules, s, p, now));
  }
}
