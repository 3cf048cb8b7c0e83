/** The bot in its room: what it chose on a frozen board is taken when it arrives in time. */
module RoomBot {
  import opened Basics
  import opened Dictionary
  import opened RoomRules
  import opened RoomState
  import opened RoomHandlers
  import opened RoomRuns
  import RoomTheorems
  import B = BotTurn
  import Endings
  import G = GameRules

  /** While the sequence the bot was asked under stands, the question it was asked stands. */
  lemma QuestionStands(cfg: Config, r: Room, events: seq<Event>)
    requires RoomInv(cfg, r) && Running(r.series) && Running(Run(cfg, r, events).series)
    requires Run(cfg, r, events).series.turnSeq == r.series.turnSeq
    ensures B.SameQuestion(r.series.engine.value, Run(cfg, r, events).series.engine.value)
    ensures G.Inv(cfg.rules, Run(cfg, r, events).series.engine.value)
    ensures G.Shaped(r.series.engine.value)
            && G.Turn(Run(cfg, r, events).series.engine.value) == G.Turn(r.series.engine.value)
  {
    RoomTheorems.TurnSeqNamesPosition(cfg, r, events);
    EngineOk(cfg, Run(cfg, r, events));
    hide RoomInv, Run;
  }

  /** A word chosen on the board frozen at r is played when it arrives in time under an unchanged sequence. */
  lemma BotWordIsPlayed(cfg: Config, r: Room, events: seq<Event>, word: string, w: World)
    requires RoomInv(cfg, r) && Running(r.series) && Running(Run(cfg, r, events).series)
    requires G.Shaped(r.series.engine.value) && G.Turn(r.series.engine.value) == G.Bot
    requires Indexed(cfg.rules.dict) && Endings.Normal(cfg.rules)
    requires word in B.Frozen(cfg.rules, r.series.engine.value).legal
    requires var t := Run(cfg, r, events);
             t.series.turnSeq == r.series.turnSeq && w.now <= t.series.engine.value.deadline
    ensures G.Inv(cfg.rules, Run(cfg, r, events).series.engine.value)
    ensures var t := Run(cfg, r, events);
            var u := OnBotMove(cfg, t, Some(word), r.series.turnSeq, w);
            && u.series.turnSeq == t.series.turnSeq + 1
            && exists m :: RoomTheorems.Moves(u.series) == RoomTheorems.Moves(t.series) + [m] && m.word == word && m.player == G.Bot
  {
    var t := Run(cfg, r, events);
    QuestionStands(cfg, r, events);
    B.BotNeverRefused(cfg.rules, r.series.engine.value, t.series.engine.value, word, w.now);
    Endings.LegalMovesAreWords(cfg.rules, r.series.engine.value, word);
    B.PlayedIs(cfg.rules, t.series.engine.value, word, w.now);
    RoomTheorems.SubmittedMoves(cfg, t, G.Bot, word, w);
    hide RoomInv, Run, G.Inv, G.Examine, G.Submit;
  }

  /** Having found nothing to play, the bot has the position settled, and is not made to resign. */
  lemma BotWithNothingIsSettled(cfg: Config, r: Room, events: seq<Event>, w: World)
    requires RoomInv(cfg, r) && Running(r.series) && Running(Run(cfg, r, events).series)
    requires G.Shaped(r.series.engine.value) && G.Turn(r.series.engine.value) == G.Bot
    requires B.Frozen(cfg.rules, r.series.engine.value).legal == []
    requires Run(cfg, r, events).series.turnSeq == r.series.turnSeq
    ensures G.Inv(cfg.rules, Run(cfg, r, events).series.engine.value)
    ensures var t := Run(cfg, r, events); var before := t.series.engine.value;
            OnBotMove(cfg, t, None, r.series.turnSeq, w)
              == ApplyEliminations(t, before, G.NoMove(cfg.rules, before, w.now))
  {
    var t := Run(cfg, r, events);
    QuestionStands(cfg, r, events);
    B.NoMoveSettles(cfg.rules, r.series.engine.value, t.series.engine.value, w.now);
    hide RoomInv, Run, G.Inv, G.NoMove, ApplyEliminations;
  }
}
