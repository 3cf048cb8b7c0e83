/** The bot's turn: the position it searches is frozen off the engine, and its answer applied when it is ready. */
module BotTurn {
  import opened Dictionary
  import opened GameRules
  import opened Endings
  import E = Engine
  import P = GameProofs
  import Minimax
  import Strategies

  /** The position as a strategy sees it. */
  function Frozen(rules: Rules, s: State): Minimax.Board {
    Minimax.Board(LegalMoves(rules, s), s.used, rules.dict)
  }

  /** Copies the position out of the engine, which goes on changing while the bot thinks. */
  method FreezeBoard(e: E.Engine) returns (b: Minimax.Board)
    ensures b == Frozen(e.rules, e.View())
  {
    var used: set<string>, left := {}, e.used;
    while left != {}
      invariant used + left == e.used
      decreases |left|
    {
      var word :| word in left;
      used, left := used + {word}, left - {word};
    }
    var legal := e.LegalMoves();
    return Minimax.Board(legal, used, e.rules.dict);
  }

  /**
   * The answers a strategy counts against a move are the moves the next player would really have: those at the syllable it
   * hands over, less what has been played and the move itself.
   */
  lemma RepliesAreMoves(rules: Rules, s: State, m: Move, now: Time)
    requires Inv(rules, s) && P.Answers(rules, s, m)
    ensures m.player in s.scores
    ensures Minimax.Replies(Frozen(rules, s), {}, m.last, m.word) == |LegalMoves(rules, Play(rules, s, m, now))|
  {
    P.HasScore(rules, s, m);
    assert s.used + {} + {m.word} == s.used + {m.word};
    hide Inv, NextAlive;
  }

  /** s and t are the same position to answer: the same syllable and the same words spent. */
  predicate SameQuestion(s: State, t: State) {
    s.current == t.current && s.used == t.used
  }

  /** A word that was legal on the frozen board is accepted while the position stands and the clock has not run out. */
  lemma BotNeverRefused(rules: Rules, s: State, t: State, word: string, now: Time)
    requires Inv(rules, t) && Indexed(rules.dict) && Normal(rules) && SameQuestion(s, t)
    requires word in Frozen(rules, s).legal && !t.over && now <= t.deadline
    ensures Judge(rules, t, Turn(t), word, now).Accepted?
  {
    LegalMovesAreWords(rules, t, word);
    LegalMoveAccepted(rules, t, word, now);
  }

  /** Having found nothing to play is exactly a position the engine settles at once. */
  lemma NoMoveSettles(rules: Rules, s: State, t: State, now: Time)
    requires Inv(rules, t) && SameQuestion(s, t) && !t.over
    ensures Frozen(rules, s).legal == [] <==> NoMove(rules, t, now) != t
  {
    NoMoveExactly(rules, t, now);
  }

  /**
   * Freeze, choose, apply: while the position stands the bot's answer is never refused, and it has no answer exactly
   * when the position is one to settle.
   */
  method AnswerInTime(e: E.Engine, hard: bool, eval: nat -> real, now: Time) returns (choice: Strategies.Choice)
    requires e.Valid() && Indexed(e.rules.dict) && Normal(e.rules) && "" !in e.rules.dict.words
    requires !e.over && now <= e.deadline
    ensures choice.Play? ==>
      choice.word in e.rules.dict.words && Judge(e.rules, e.View(), Turn(e.View()), choice.word, now).Accepted?
    ensures choice.NoMove? <==> NoMove(e.rules, e.View(), now) != e.View()
  {
    var b := FreezeBoard(e);
    ghost var s := e.View();
    NoMoveSettles(e.rules, s, s, now);
    if hard {
      if "" in b.legal { LegalMovesAreWords(e.rules, s, ""); }
      var searched, budget;
      choice, searched, budget := Strategies.ChooseHard(b, eval);
    } else {
      choice := Strategies.ChooseMedium(b);
    }
    if choice.Play? {
      LegalMovesAreWords(e.rules, s, choice.word);
      BotNeverRefused(e.rules, s, s, choice.word, now);
    }
  }

  /**
   * The bot's whole turn: the position is frozen, a move chosen on it and put to the engine. With a word to play, it is
   * played and the turn moves on; with none, the dead end is settled and the bot is out. Nothing is refused.
   */
  method TakeTurn(e: E.Engine, hard: bool, eval: nat -> real, now: Time) returns (choice: Strategies.Choice)
    requires e.Valid() && Indexed(e.rules.dict) && Normal(e.rules) && "" !in e.rules.dict.words
    requires !e.over && now <= e.deadline
    modifies e
    ensures e.Valid()
    ensures choice.NoMove? <==> LegalMoves(e.rules, old(e.View())) == []
    ensures choice.Play? ==>
      && !e.over && Turn(e.View()) != old(Turn(e.View()))
      && exists m :: e.history == old(e.history) + [m] && m.word == choice.word && m.player == old(Turn(e.View()))
    ensures choice.NoMove? ==> e.over && e.history == old(e.history) && old(Turn(e.View())) in e.outOrder
  {
    choice := AnswerInTime(e, hard, eval, now);
    ghost var s := e.View();
    ghost var p := Turn(s);
    NoMoveExactly(e.rules, s, now);
    if choice.Play? {
      PlayedIs(e.rules, s, choice.word, now);
      var _ := e.Submit(e.Turn(), choice.word, now);
    } else {
      SettledIs(e.rules, s, now);
      var _ := e.NoMove(now);
    }
  }

  lemma PlayedIs(rules: Rules, s: State, word: string, now: Time)
    requires Inv(rules, s) && Normal(rules) && Judge(rules, s, Turn(s), word, now).Accepted?
    ensures var t, m := Submit(rules, s, Turn(s), word, now), Judge(rules, s, Turn(s), word, now).move;
            t.history == s.history + [m] && m.player == Turn(s) && !t.over && Turn(t) != Turn(s)
            && (word in rules.dict.words ==> m.word == word)
  {
    var m := Judge(rules, s, Turn(s), word, now).move;
    P.AcceptedAnswers(rules, s, Turn(s), word, now);
    P.PlayKeepsInv(rules, s, m, now);
  }

  lemma SettledIs(rules: Rules, s: State, now: Time)
    requires Inv(rules, s) && !s.over && NoMove(rules, s, now) != s
    ensures var t := NoMove(rules, s, now); t.over && t.history == s.history && Turn(s) in t.outOrder
  {
    P.ExpireSheds(rules, s, now);
    var j := DeadEndDecides(rules, s, now);
    var t := NoMove(rules, s, now);
    assert t.outOrder[|s.outOrder|] == Turn(s);
  }
}
