/**
 * A room in place: its fields, its engine among them, are updated by one method for each input, and each is the room
 * rules' function of it.
 */
module RoomObject {
  import opened Basics
  import opened RoomRules
  import opened RoomState
  import opened RoomSteps
  import opened RoomRuns
  import E = Engine
  import G = GameRules
  import Nickname
  import Q = QuickMatch

  /** The hub's count of games that are running, shared by every room. */
  class LiveGames {
    var n: int

    constructor ()
      ensures n == 0
    {
      n := 0;
    }

    method GameStarted()
      modifies this
      ensures n == old(n) + 1
    {
      n := n + 1;
    }

    method GameFinished()
      modifies this
      ensures n == old(n) - 1
    {
      n := n - 1;
    }
  }

  /** What a room remembers of its game from before an input: how many were out, and who was to act. */
  datatype Mark = Mark(out: nat, turn: G.PlayerID)

  class RoomObject {
    const cfg: Config
    const live: LiveGames
    const queue: Q.Queue
    var withBot: bool
    var autoStart: bool
    var seats: Seats
    var owner: G.PlayerID
    var serials: nat
    var chat: seq<Line>
    var chatSeq: nat
    var engine: E.Engine?
    var turnSeq: nat
    var liveCounted: bool
    ghost var started: nat
    ghost var finished: nat
    ghost var roster: map<G.PlayerID, nat>
    ghost var results: seq<nat>
    var closed: bool

    constructor (cfg: Config, live: LiveGames, queue: Q.Queue)
      ensures this.cfg == cfg && this.live == live && this.queue == queue && engine == null
      ensures View() == Unseated()
    {
      this.cfg, this.live, this.queue := cfg, live, queue;
      withBot, autoStart, closed, engine := false, false, false, null;
      seats, owner, serials := [None, None, None, None], G.Nobody, 0;
      chat, chatSeq := [], 0;
      turnSeq, liveCounted := 0, false;
      started, finished, roster, results := 0, 0, map[], [];
    }

    /** What the room alone may touch: itself, and the engine of its game. */
    ghost function Repr(): set<object>
      reads this
    {
      if engine == null then {this} else {this, engine}
    }

    ghost function ViewTable(): Table
      reads this
    {
      Table(seats, owner, serials)
    }

    ghost function ViewSeries(): Series
      reads this, engine
    {
      Series(if engine == null then None else Some(engine.View()), turnSeq, liveCounted, started, finished, roster, results)
    }

    ghost function View(): Room
      reads this, engine
    {
      Room(withBot, autoStart, ViewTable(), Talk(chat, chatSeq), ViewSeries(), closed)
    }

    /** The room's engine plays by its rules and is in a state a game can be in. */
    ghost predicate Fits()
      reads this, engine
    {
      |seats| == MAX_PLAYERS && (engine != null ==> engine.rules == cfg.rules && engine.Valid())
    }

    /** The room is in a state it can reach. */
    ghost predicate Valid()
      reads this, engine
    {
      RoomInv(cfg, View()) && (engine != null ==> engine.rules == cfg.rules)
    }

    /** How many more games this room has counted started than finished. */
    ghost function Counting(): int
      reads this
    {
      started - finished
    }

    /** The hub's count has moved with this room's, and the room's engine is its own still, or one made for it. */
    twostate predicate InStep()
      reads this, live, engine
    {
      && live.n - Counting() == old(live.n - Counting())
      && (engine != null ==> engine.rules == cfg.rules)
      && fresh(Repr() - old(Repr()))
    }

    // ----- reading the seats -----

    method FindSeat(p: G.PlayerID) returns (i: nat)
      ensures i == SeatOf(seats, p)
    {
      i := 0;
      while i < |seats|
        invariant i <= |seats| && SeatFrom(seats, p, i) == SeatOf(seats, p)
      {
        if seats[i].Some? && seats[i].value.id == p {
          return;
        }
        i := i + 1;
      }
    }

    method IsSeated(sess: Session, p: G.PlayerID) returns (yes: bool)
      ensures yes == Occupies(seats, sess, p)
    {
      var i := FindSeat(p);
      yes := i < |seats| && seats[i].value.sess == Some(sess);
    }

    method FindFree() returns (i: nat)
      ensures i == FreeSeat(seats)
    {
      i := 0;
      while i < |seats|
        invariant i <= |seats| && FreeFrom(seats, i) == FreeSeat(seats)
      {
        if seats[i].None? {
          return;
        }
        i := i + 1;
      }
    }

    method CountSeated() returns (n: nat)
      ensures n == SeatedCount(seats)
      ensures n == 0 <==> !Occupied(seats)
    {
      n := 0;
      for i := 0 to |seats|
        invariant n == |Taken(seats, i)|
      {
        if seats[i].Some? {
          n := n + 1;
        }
      }
      TakenIsNonempty(seats, |seats|);
    }

    method EveryoneConnected() returns (yes: bool)
      ensures yes == AllConnected(seats)
    {
      for i := 0 to |seats|
        invariant forall k :: 0 <= k < i && seats[k].Some? ==> seats[k].value.sess.Some?
      {
        if seats[i].Some? && seats[i].value.sess.None? {
          return false;
        }
      }
      return true;
    }

    method EveryGuestReady() returns (yes: bool)
      ensures yes == GuestsReady(seats, owner)
    {
      for i := 0 to |seats|
        invariant forall k :: 0 <= k < i && seats[k].Some? && seats[k].value.id != owner ==> seats[k].value.ready
      {
        if seats[i].Some? && seats[i].value.id != owner && !seats[i].value.ready {
          return false;
        }
      }
      return true;
    }

    // ----- filling and freeing seats -----

    method HoldSeat(i: nat, now: Time)
      requires i < |seats| && seats[i].Some?
      modifies this`seats
      ensures seats == old(seats)[i := Some(Held(old(seats)[i].value, now + cfg.graceFor))]
    {
      seats := seats[i := Some(Held(seats[i].value, now + cfg.graceFor))];
    }

    /** Fills a seat; whoever takes one stops waiting for a match. */
    method PutInSeat(i: nat, nickname: string, sess: Session)
      requires i < |seats|
      modifies this`seats, this`serials, queue
      ensures ViewTable() == TakeSeat(old(ViewTable()), i, NewSeat(old(ViewTable()), i, nickname, sess, chatSeq))
      ensures queue.waiting == Q.Cancel(old(queue.waiting), sess)
    {
      seats := seats[i := Some(Seat(serials, G.Human(i), nickname, Some(sess), false, chatSeq, 0, None, None, [sess], None))];
      serials := serials + 1;
      queue.CancelQuickMatch(sess);
    }

    method PromoteHeir()
      modifies this`seats, this`owner
      ensures ViewTable() == Promote(old(ViewTable()))
    {
      for i := 0 to |seats|
        invariant seats == old(seats) && owner == old(owner) && Taken(seats, i) == []
      {
        if seats[i].Some? {
          TakenStarts(seats, i, |seats|);
          owner := seats[i].value.id;
          seats := seats[i := Some(seats[i].value.(ready := false))];
          return;
        }
      }
      owner := G.Nobody;
    }

    /** The words stay, the attribution goes. */
    method ScrubChat(id: G.PlayerID)
      modifies this`chat
      ensures chat == Scrub(old(chat), id)
    {
      for k := 0 to |chat|
        invariant chat == Scrub(old(chat)[..k], id) + old(chat)[k..]
      {
        ScrubMore(old(chat), id, k);
        if chat[k].author == id {
          chat := chat[k := chat[k].(author := G.Nobody, name := "")];
        }
      }
      assert old(chat)[..|chat|] == old(chat);
    }

    /** Frees a seat for good: its words lose their author, and the room goes on to whoever is left. */
    method VacateIn(i: nat)
      requires i < |seats| && seats[i].Some?
      modifies this`seats, this`owner, this`chat
      ensures View() == Vacate(old(View()), i)
    {
      var gone := seats[i].value;
      seats := seats[i := None];
      ScrubChat(gone.id);
      if owner == gone.id {
        PromoteHeir();
      }
    }

    // ----- games -----

    method StopCounting()
      modifies this`liveCounted, this`finished, live
      ensures ViewSeries() == StopCountingLive(old(ViewSeries()))
      ensures live.n == old(live.n) - (finished - old(finished))
    {
      if liveCounted {
        liveCounted := false;
        finished := finished + 1;
        live.GameFinished();
      }
    }

    /** Whoever is away is kept their own version of the result; whoever is here has it now. */
    method TellEveryone(final: G.State)
      modifies this`seats
      ensures seats == ToldAll(old(seats), final)
    {
      for i := 0 to |seats|
        invariant |seats| == |old(seats)|
        invariant forall k :: 0 <= k < i ==> seats[k] == ToldAll(old(seats), final)[k]
        invariant forall k :: i <= k < |seats| ==> seats[k] == old(seats)[k]
      {
        if seats[i].Some? && seats[i].value.id != G.Bot {
          var s := seats[i].value;
          seats := seats[i := Some(s.(missed := if s.sess.None? then Some(Result(final.winner == s.id, final)) else None))];
        }
      }
    }

    /** The game is over: it stops being counted, and its winner is credited if they are still seated. */
    method GameOver()
      requires engine != null
      modifies this`liveCounted, this`finished, this`seats, this`results, live
      ensures seats == Ended(old(seats), engine.View())
      ensures ViewSeries()
              == StopCountingLive(old(ViewSeries())).(results := old(results) + [SerialOf(roster, engine.winner)])
      ensures live.n - Counting() == old(live.n - Counting())
    {
      StopCounting();
      var i := FindSeat(engine.winner);
      if i < |seats| {
        seats := seats[i := Some(seats[i].value.(wins := seats[i].value.wins + 1))];
      }
      TellEveryone(engine.View());
      results := results + [SerialOf(roster, engine.winner)];
    }

    method MarkGame() returns (m: Mark)
      requires engine != null && G.Shaped(engine.View())
      ensures m == Mark(|engine.outOrder|, G.Turn(engine.View()))
    {
      return Mark(|engine.outOrder|, engine.Turn());
    }

    /** Since `was`, when the game was as marked, nothing but the game has changed. */
    ghost predicate OnlyTheGame(before: Mark, was: Room)
      reads this, engine
    {
      && engine != null && G.Shaped(engine.View())
      && was.series.engine.Some? && G.Shaped(was.series.engine.value)
      && before == Mark(|was.series.engine.value.outOrder|, G.Turn(was.series.engine.value))
      && View() == was.(series := was.series.(engine := Some(engine.View())))
    }

    /** Since it was marked the engine has been used, and the room has not. */
    twostate lemma GameAlone(before: Mark)
      requires engine != null && engine == old(engine) && unchanged(this)
      requires G.TableInv(engine.View()) && G.TableInv(old(engine.View()))
      requires before == old(Mark(|engine.outOrder|, G.Turn(engine.View())))
      ensures OnlyTheGame(before, old(View()))
      ensures old(View()).series.engine == Some(old(engine.View()))
    {
    }

    /**
     * What is made of whoever an input put out of the game, `was` being the room it found: nothing if nobody went out,
     * the end of the game, or a new turn sequence if the turn moved.
     */
    method Eliminated(before: Mark, ghost was: Room)
      requires OnlyTheGame(before, was)
      modifies this`seats, this`liveCounted, this`finished, this`results, this`turnSeq, live
      ensures View() == ApplyEliminations(was, was.series.engine.value, engine.View())
      ensures live.n - Counting() == old(live.n - Counting())
    {
      hide Ended, StopCountingLive, SerialOf, G.TableInv;
      if |engine.outOrder| == before.out {
        return;
      }
      if engine.over {
        GameOver();
        return;
      }
      if engine.Turn() != before.turn {
        turnSeq := turnSeq + 1;
      }
    }

    // ----- the inputs of a game -----

    /** A player stops playing, and the room is told what came of it. */
    method Forfeit(p: G.PlayerID, now: Time)
      requires engine != null && Fits()
      modifies Repr(), live
      ensures old(G.TableInv(engine.View()))
      ensures View() == ApplyEliminations(old(View()), old(engine.View()), G.Resign(cfg.rules, old(engine.View()), p, now))
      ensures InStep() && engine == old(engine)
    {
      hide G.Inv, G.TableInv, G.Resign, G.IsAlive, ApplyEliminations, OnlyTheGame, View, ViewSeries;
      ghost var was := View();
      TableOf(cfg.rules, engine.View());
      var before := MarkGame();
      var _ := engine.Resign(p, now);
      TableOf(cfg.rules, engine.View());
      GameAlone(before);
      Eliminated(before, was);
    }

    method HandleResign(sess: Session, player: G.PlayerID, w: World)
      requires Fits()
      modifies Repr(), live
      ensures View() == OnResign(cfg, old(View()), sess, player, w)
      ensures InStep()
    {
      hide G.Inv, G.TableInv, G.Resign, ApplyEliminations, Occupies;
      var seated := IsSeated(sess, player);
      if !seated || engine == null || engine.over {
        return;
      }
      TableOf(cfg.rules, engine.View());
      if engine.Turn() != player {
        return;
      }
      Forfeit(player, w.now);
    }

    /** Has a dead end settled, and tells the room what came of it. */
    method SettleNow(now: Time)
      requires engine != null && Fits()
      modifies Repr(), live
      ensures old(G.TableInv(engine.View()))
      ensures View() == ApplyEliminations(old(View()), old(engine.View()), G.NoMove(cfg.rules, old(engine.View()), now))
      ensures InStep()
    {
      hide G.Inv, G.TableInv, G.NoMove, ApplyEliminations, OnlyTheGame, View, ViewSeries;
      ghost var was := View();
      TableOf(cfg.rules, engine.View());
      var before := MarkGame();
      var _ := engine.NoMove(now);
      TableOf(cfg.rules, engine.View());
      GameAlone(before);
      Eliminated(before, was);
    }

    method HandleClaimDeadEnd(sess: Session, player: G.PlayerID, w: World)
      requires Fits()
      modifies Repr(), live
      ensures View() == OnClaimDeadEnd(cfg, old(View()), sess, player, w)
      ensures InStep()
    {
      hide G.Inv, G.TableInv, ApplyEliminations, Occupies, G.HasLegalMove, G.NoMove;
      var seated := IsSeated(sess, player);
      if !seated || engine == null || engine.over {
        return;
      }
      TableOf(cfg.rules, engine.View());
      if engine.Turn() != player {
        return;
      }
      var any := engine.HasLegalMove();
      if any {
        FalseClaim(cfg, View(), w.now);
        return;
      }
      SettleNow(w.now);
    }

    /** An accepted word moves the sequence on. */
    method TurnPlayed()
      modifies this`turnSeq
      ensures View() == old(View()).(series := old(View()).series.(turnSeq := old(View()).series.turnSeq + 1))
    {
      turnSeq := turnSeq + 1;
    }

    /** A word put to the engine: an accepted one moves the sequence on, a late one may have taken its player out. */
    method SubmitToEngine(player: G.PlayerID, word: string, w: World)
      requires engine != null && Fits()
      modifies Repr(), live
      ensures View() == Submitted(cfg, old(View()), player, word, w)
      ensures InStep()
    {
      hide G.Inv, G.TableInv, G.Submit, G.Judge, ApplyEliminations, OnlyTheGame, View, ViewSeries;
      ghost var was := View();
      TableOf(cfg.rules, engine.View());
      var before := MarkGame();
      var answer := engine.Submit(player, word, w.now);
      TableOf(cfg.rules, engine.View());
      GameAlone(before);
      if answer.Accepted? {
        TurnPlayed();
      } else {
        Eliminated(before, was);
      }
    }

    method HandleSubmit(sess: Session, player: G.PlayerID, word: string, stamp: nat, w: World)
      requires Fits()
      modifies Repr(), live
      ensures View() == OnSubmit(cfg, old(View()), sess, player, word, stamp, w)
      ensures InStep()
    {
      hide Submitted;
      var seated := IsSeated(sess, player);
      if !seated || engine == null || stamp != turnSeq {
        return;
      }
      SubmitToEngine(player, cfg.sanitizeWord(word), w);
    }

    /** The bot has nothing to play: the position is settled, or failing that the bot resigns. */
    method BotGivesIn(w: World)
      requires engine != null && Fits()
      modifies Repr(), live
      ensures var before := old(engine.View()); var settled := G.NoMove(cfg.rules, before, w.now);
              View() == ApplyEliminations(old(View()), before,
                          if settled != before then settled else G.Resign(cfg.rules, before, G.Bot, w.now))
      ensures InStep()
    {
      hide G.Inv, G.TableInv, G.NoMove, G.Resign, G.IsAlive, ApplyEliminations, OnlyTheGame, View, ViewSeries;
      ghost var was := View();
      TableOf(cfg.rules, engine.View());
      var before := MarkGame();
      var settled := engine.NoMove(w.now);
      if !settled {
        TableOf(cfg.rules, engine.View());
        var _ := engine.Resign(G.Bot, w.now);
      }
      TableOf(cfg.rules, engine.View());
      GameAlone(before);
      Eliminated(before, was);
    }

    /** The bot's word is played; one that is refused, as none is in time, costs it the game. */
    method BotPlays(word: string, w: World)
      requires engine != null && Fits()
      modifies Repr(), live
      ensures var before := old(engine.View());
              && G.TableInv(G.Submit(cfg.rules, before, G.Bot, word, w.now))
              && View() == if G.Judge(cfg.rules, before, G.Bot, word, w.now).Accepted?
                           then Submitted(cfg, old(View()), G.Bot, word, w)
                           else ApplyEliminations(old(View()), before,
                                  G.Resign(cfg.rules, G.Submit(cfg.rules, before, G.Bot, word, w.now), G.Bot, w.now))
      ensures InStep()
    {
      hide G.Inv, G.TableInv, G.Submit, G.Judge, G.Resign, G.IsAlive, ApplyEliminations, OnlyTheGame, View, ViewSeries;
      ghost var was := View();
      TableOf(cfg.rules, engine.View());
      var before := MarkGame();
      G.SubmitKeepsTable(cfg.rules, engine.View(), G.Bot, word, w.now);
      var answer := engine.Submit(G.Bot, word, w.now);
      if answer.Accepted? {
        GameAlone(before);
        TurnPlayed();
      } else {
        var _ := engine.Resign(G.Bot, w.now);
        TableOf(cfg.rules, engine.View());
        GameAlone(before);
        Eliminated(before, was);
      }
    }

    method HandleBotMove(choice: Option<string>, stamp: nat, w: World)
      requires Fits()
      modifies Repr(), live
      ensures View() == OnBotMove(cfg, old(View()), choice, stamp, w)
      ensures InStep()
    {
      hide G.NoMove, G.Resign, G.Submit, G.Judge, G.Inv, ApplyEliminations, Submitted, G.TableInv;
      if engine == null || engine.over || stamp != turnSeq {
        return;
      }
      TableOf(cfg.rules, engine.View());
      if engine.Turn() != G.Bot {
        return;
      }
      if choice.None? {
        BotGivesIn(w);
      } else {
        BotPlays(choice.value, w);
      }
    }

    method OnTurnClock(w: World)
      requires Fits()
      modifies Repr(), live
      ensures View() == OnTurnTimer(cfg, old(View()), w)
      ensures InStep()
    {
      hide G.Inv, G.TableInv, G.Timeout, ApplyEliminations, OnlyTheGame;
      if engine == null {
        return;
      }
      TimeRunsOut(w.now);
    }

    method TimeRunsOut(now: Time)
      requires engine != null && Fits()
      modifies Repr(), live
      ensures old(G.TableInv(engine.View()))
      ensures View() == ApplyEliminations(old(View()), old(engine.View()), G.Timeout(cfg.rules, old(engine.View()), now))
      ensures InStep()
    {
      hide G.Inv, G.TableInv, G.Timeout, ApplyEliminations, OnlyTheGame, View, ViewSeries;
      ghost var was := View();
      TableOf(cfg.rules, engine.View());
      var before := MarkGame();
      var _ := engine.Timeout(now);
      TableOf(cfg.rules, engine.View());
      GameAlone(before);
      Eliminated(before, was);
    }

    // ----- a game begins -----

    method SeatedIds() returns (ids: seq<G.PlayerID>)
      ensures ids == Ids(seats)
    {
      ids := [];
      for i := 0 to |seats|
        invariant |ids| == |Taken(seats, i)|
        invariant forall k :: 0 <= k < |ids| ==> ids[k] == seats[Taken(seats, i)[k]].value.id
      {
        if seats[i].Some? {
          ids := ids + [seats[i].value.id];
        }
      }
    }

    /** Every readiness is spent, and every result nobody came back for is dropped. */
    method ClearReadiness()
      modifies this`seats
      ensures seats == Unready(old(seats))
    {
      for i := 0 to |seats|
        invariant |seats| == |old(seats)|
        invariant forall k :: 0 <= k < i ==> seats[k] == Unready(old(seats))[k]
        invariant forall k :: i <= k < |seats| ==> seats[k] == old(seats)[k]
      {
        if seats[i].Some? {
          seats := seats[i := Some(seats[i].value.(ready := false, missed := None))];
        }
      }
    }

    /** Everybody at the table, in turn order, the drawn lead first. */
    method Deal(lead: nat) returns (ids: seq<G.PlayerID>)
      ensures ids == TurnOrder(seats, withBot, lead)
    {
      ids := SeatedIds();
      if !withBot && ids != [] {
        var first := lead % |ids|;
        ids := ids[first..] + ids[..first];
      }
    }

    /** A new game: everybody at the table is in it, and the hub counts it. */
    method StartGame(game: E.Engine)
      requires game.rules == cfg.rules
      modifies this`roster, this`engine, this`turnSeq, this`started, this`liveCounted, live
      ensures engine == game
      ensures var s := old(ViewSeries());
              ViewSeries() == s.(engine := Some(game.View()), turnSeq := s.turnSeq + 1, liveCounted := true,
                                 started := s.started + 1, roster := Roster(seats, |seats|))
      ensures live.n - Counting() == old(live.n - Counting())
    {
      hide Roster;
      roster := Roster(seats, |seats|);
      engine := game;
      turnSeq := turnSeq + 1;
      live.GameStarted();
      started, liveCounted := started + 1, true;
    }

    method GameOn(game: E.Engine)
      requires game.rules == cfg.rules
      modifies this`roster, this`engine, this`turnSeq, this`started, this`liveCounted, this`seats, live
      ensures engine == game && View() == WithGame(old(View()), game.View())
      ensures live.n - Counting() == old(live.n - Counting())
    {
      hide Roster, Unready;
      StartGame(game);
      ClearReadiness();
    }

    /** Deals everybody at the table into a new game; ok is false when none could be begun. */
    method BeginGame(w: World) returns (ok: bool)
      requires engine != null ==> engine.rules == cfg.rules
      modifies this, live
      ensures View() == Begin(cfg, old(View()), w)
      ensures InStep()
      ensures if ok then Running(ViewSeries()) else View() == old(View())
    {
      hide G.New, TurnOrder, G.Inv, WithGame, Opening;
      var opening := Opening(cfg, w);
      if opening.None? {
        return false;
      }
      var ids := Deal(w.lead);
      var game := E.NewEngine(cfg.rules, ids, opening.value, w.now);
      if game == null {
        return false;
      }
      NewIsRunning(cfg.rules, ids, opening.value, w.now);
      GameOn(game);
      return true;
    }

    // ----- seats and the lobby -----

    method HandleCreate(sess: Session, nickname: string, auto: bool, w: World)
      requires View() == Unseated() && engine == null
      modifies this, queue
      ensures View() == Created(cfg, sess, nickname, auto, w) && engine == null
      ensures queue.waiting == Q.Cancel(old(queue.waiting), sess)
    {
      PutInSeat(0, nickname, sess);
      owner := seats[0].value.id;
      autoStart := auto;
      if sess in w.dead {
        HoldSeat(0, w.now);
      }
    }

    method SeatOpposite(sess: Session, nickname: string)
      requires View() == Unseated() && engine == null
      modifies this`withBot, this`seats, this`serials, this`owner, queue
      ensures View() == Opposite(sess, nickname) 
      ensures queue.waiting == Q.Cancel(old(queue.waiting), sess)
    {
      withBot := true;
      PutInSeat(0, nickname, sess);
      seats := seats[1 := Some(Seat(serials, G.Bot, "Máy", None, false, chatSeq, 0, None, None, [], None))];
      serials := serials + 1;
      owner := seats[0].value.id;
      assert seats[0].value == Seat(0, G.Human(0), nickname, Some(sess), false, 0, 0, None, None, [sess], None);
      assert seats == [seats[0], Some(Seat(1, G.Bot, "Máy", None, false, 0, 0, None, None, [], None)), None, None];
    }

    /** Seats a bot opposite the player and begins at once; a room that cannot is over. */
    method HandleStartBot(sess: Session, nickname: string, w: World)
      requires View() == Unseated() && engine == null
      modifies this, live, queue
      ensures View() == CreatedWithBot(cfg, sess, nickname, w)
      ensures InStep()
      ensures queue.waiting == Q.Cancel(old(queue.waiting), sess)
    {
      hide Begin, Opposite;
      SeatOpposite(sess, nickname);
      if sess in w.dead {
        CloseRoom();
        return;
      }
      var ok := BeginGame(w);
      if !ok {
        CloseRoom();
      }
    }

    method TakenNames() returns (names: seq<string>)
      ensures names == TakenNicknames(seats)
    {
      names := [];
      for i := 0 to |seats|
        invariant |names| == |Taken(seats, i)|
        invariant forall k :: 0 <= k < |names| ==> names[k] == seats[Taken(seats, i)[k]].value.nickname
      {
        if seats[i].Some? {
          names := names + [seats[i].value.nickname];
        }
      }
    }

    method AlreadyHere(sess: Session) returns (yes: bool)
      ensures yes == AtTable(seats, sess)
    {
      for i := 0 to |seats|
        invariant forall k :: 0 <= k < i && seats[k].Some? ==> seats[k].value.sess != Some(sess)
      {
        if seats[i].Some? && seats[i].value.sess == Some(sess) {
          return true;
        }
      }
      return false;
    }

    /** Seats somebody under a name nobody here has. */
    method SeatJoiner(free: nat, sess: Session, nickname: string)
      requires |seats| == MAX_PLAYERS && free < |seats|
      modifies this`seats, this`serials, queue
      ensures queue.waiting == Q.Cancel(old(queue.waiting), sess)
      ensures |TakenNicknames(old(seats))| <= MAX_PLAYERS
      ensures |Nickname.Suffix(|TakenNicknames(old(seats))| + 2)| <= Nickname.MAX_RUNES
      ensures var name := Nickname.Distinguished(nickname, TakenNicknames(old(seats)), cfg.space);
              ViewTable() == TakeSeat(old(ViewTable()), free, NewSeat(old(ViewTable()), free, name, sess, chatSeq))
    {
      var taken := TakenNames();
      Nickname.FewFit(|taken|);
      var name := Nickname.Distinguish(nickname, taken, cfg.space);
      PutInSeat(free, name, sess);
    }

    /** Whether a joiner can be seated at all, and where. */
    method Admits(sess: Session) returns (free: nat)
      ensures free == if !Occupied(seats) || Running(ViewSeries()) || AtTable(seats, sess) then |seats| else FreeSeat(seats)
    {
      free := FindFree();
      var n := CountSeated();
      var here := AlreadyHere(sess);
      if n == 0 || (engine != null && !engine.over) || here {
        return |seats|;
      }
    }

    /** A quick match starts itself, once both its players are here and connected. */
    method StartMatched(w: World)
      requires engine != null ==> engine.rules == cfg.rules
      modifies this, live
      ensures var r := old(View());
              View() == if SeatedCount(r.table.seats) >= MIN_PLAYERS && AllConnected(r.table.seats) && !w.draining
                        then Begin(cfg, r, w) else r
      ensures InStep()
    {
      var seated := CountSeated();
      var connected := EveryoneConnected();
      if seated >= MIN_PLAYERS && connected && !w.draining {
        var _ := BeginGame(w);
      }
    }

    method JoinAt(free: nat, sess: Session, nickname: string, matched: bool, w: World)
      requires Fits() && free < |seats|
      modifies Repr(), live, queue
      ensures View() == JoinedAt(cfg, old(View()), free, sess, nickname, matched, w)
      ensures InStep() && serials > old(serials)
      ensures queue.waiting == Q.Cancel(old(queue.waiting), sess)
    {
      hide SeatedCount, AllConnected, Begin, TakenNicknames, Nickname.Distinguished, G.Inv, Q.Cancel;
      SeatJoiner(free, sess, nickname);
      if sess in w.dead {
        HoldSeat(free, w.now);
        return;
      }
      if matched {
        BeginLeavesSerials(cfg, View(), w);
        StartMatched(w);
      }
    }

    method HandleJoin(sess: Session, nickname: string, w: World)
      requires Fits()
      modifies Repr(), live, queue
      ensures View() == OnJoin(cfg, old(View()), sess, nickname, w)
      ensures InStep()
      ensures queue.waiting == Q.Without(old(queue.waiting), Bound(old(View()), View(), Join(sess, nickname)))
    {
      hide Occupied, AtTable, JoinedAt, G.Inv, Q.Cancel;
      var matched := autoStart;
      autoStart := false;
      var free := Admits(sess);
      if free == |seats| {
        return;
      }
      JoinAt(free, sess, nickname, matched, w);
    }

    method HandleReady(sess: Session, player: G.PlayerID, ready: bool)
      modifies this`seats
      ensures View() == OnReady(old(View()), sess, player, ready)
    {
      var seated := IsSeated(sess, player);
      if !seated || withBot || (engine != null && !engine.over) || player == owner {
        return;
      }
      var i := FindSeat(player);
      seats := seats[i := Some(seats[i].value.(ready := ready))];
    }

    method HandleStart(sess: Session, player: G.PlayerID, w: World)
      requires Fits()
      modifies Repr(), live
      ensures View() == OnStart(cfg, old(View()), sess, player, w)
      ensures InStep()
    {
      hide Begin, G.Inv;
      var seated := IsSeated(sess, player);
      if !seated || withBot || (engine != null && !engine.over) || player != owner || w.draining {
        return;
      }
      var n := CountSeated();
      var connected := EveryoneConnected();
      var ready := EveryGuestReady();
      if n < MIN_PLAYERS || !connected || !ready {
        return;
      }
      var _ := BeginGame(w);
    }

    method HandleKick(sess: Session, player: G.PlayerID, target: G.PlayerID)
      modifies this`seats, this`owner, this`chat
      ensures View() == OnKick(old(View()), sess, player, target)
    {
      var seated := IsSeated(sess, player);
      if !seated || withBot || (engine != null && !engine.over) || player != owner {
        return;
      }
      var i := FindSeat(target);
      if i == |seats| || target == player || seats[i].value.ready {
        return;
      }
      VacateIn(i);
    }

    method HandleLeave(sess: Session, player: G.PlayerID, w: World)
      requires Fits()
      modifies Repr(), live
      ensures View() == OnLeave(cfg, old(View()), sess, player, w)
      ensures InStep()
    {
      hide G.Resign, G.Inv, G.TableInv, Vacate, ApplyEliminations;
      var seated := IsSeated(sess, player);
      if !seated || withBot {
        return;
      }
      var i := FindSeat(player);
      if engine != null && !engine.over {
        LeavingKeepsSeats(cfg, View(), player, w.now);
        Forfeit(player, w.now);
      } else if seats[i].value.ready {
        return;
      }
      VacateIn(i);
    }

    // ----- presence and chat -----

    method HandleDisconnect(player: G.PlayerID, sess: Session, w: World)
      modifies this`seats
      ensures View() == OnDisconnect(cfg, old(View()), player, sess, w)
    {
      var i := FindSeat(player);
      if i == |seats| || seats[i].value.sess != Some(sess) {
        return;
      }
      HoldSeat(i, w.now);
    }

    /** Puts a new connection in a seat, and hands over the result it is owed, when it is back in the lobby to be shown it. */
    method Rebind(i: nat, sess: Session, w: World) returns (shown: Option<Result>)
      requires i < |seats| && seats[i].Some?
      modifies this`seats, queue
      ensures var back := Back(old(seats)[i].value, sess);
              seats == old(seats)[i := Some(if sess in w.dead then Held(back, w.now + cfg.graceFor)
                                            else if Running(ViewSeries()) then back else back.(missed := None))]
      ensures shown == if sess in w.dead || Running(ViewSeries()) then None else old(seats)[i].value.missed
      ensures queue.waiting == Q.Cancel(old(queue.waiting), sess)
    {
      hide Held, Q.Cancel;
      shown := None;
      var s := seats[i].value;
      queue.CancelQuickMatch(sess);
      seats := seats[i := Some(s.(sess := Some(sess), heldFor := None, graceUntil := None, sat := s.sat + [sess]))];
      if sess in w.dead {
        HoldSeat(i, w.now);
      } else if engine == null || engine.over {
        shown := seats[i].value.missed;
        seats := seats[i := Some(seats[i].value.(missed := None))];
      }
    }

    /** Rebinds a seat to a new connection; `shown` is the result it is owed, when it comes back to the lobby. */
    method HandleResume(player: G.PlayerID, sess: Session, prior: Session, w: World) returns (shown: Option<Result>)
      modifies this`seats, queue
      ensures View() == OnResume(cfg, old(View()), player, sess, prior, w)
      ensures shown == Replayed(old(View()), player, sess, prior, w)
      ensures queue.waiting == Q.Without(old(queue.waiting), Bound(old(View()), View(), Resume(player, sess, prior)))
    {
      hide Held, Back, Q.Cancel, G.Inv, SeatFrom;
      var i := FindSeat(player);
      if i == |seats|
         || (seats[i].value.sess != Some(prior) && (seats[i].value.sess.Some? || seats[i].value.heldFor != Some(prior))) {
        return None;
      }
      shown := Rebind(i, sess, w);
    }

    /** One line more, and the oldest dropped once there are too many. */
    method AppendLine(from: Seat, text: string)
      modifies this`chat, this`chatSeq
      ensures Talk(chat, chatSeq) == Say(old(Talk(chat, chatSeq)), from, text)
    {
      chatSeq := chatSeq + 1;
      chat := chat + [Line(chatSeq, from.id, from.nickname, text, from.serial)];
      if |chat| > CHAT_HISTORY_LIMIT {
        chat := chat[|chat| - CHAT_HISTORY_LIMIT..];
      }
    }

    method HandleChat(sess: Session, player: G.PlayerID, raw: string)
      modifies this`chat, this`chatSeq
      ensures View() == OnChat(cfg, old(View()), sess, player, raw)
    {
      hide SeatFrom, Say;
      var seated := IsSeated(sess, player);
      if !seated || withBot {
        return;
      }
      var text := cfg.sanitizeChat(raw);
      if text == "" {
        return;
      }
      var i := FindSeat(player);
      AppendLine(seats[i].value, text);
    }

    /** What one seat is replayed: the kept lines said since it was filled. */
    method ChatHistory(s: Seat) returns (messages: seq<Line>)
      ensures messages == History(chat, s.chatFrom, |chat|)
    {
      messages := [];
      for i := 0 to |chat|
        invariant messages == History(chat, s.chatFrom, i)
      {
        if chat[i].seqNo > s.chatFrom {
          messages := messages + [chat[i]];
        }
      }
    }

    /** When the one grace timer is to fire: at the earliest reconnect window still open. */
    method NextGraceExpiry() returns (next: Option<Time>)
      ensures next == EarliestGrace(seats, |seats|)
    {
      next := None;
      for i := 0 to |seats|
        invariant next == EarliestGrace(seats, i)
      {
        if seats[i].None? || seats[i].value.sess.Some? || seats[i].value.graceUntil.None? {
          continue;
        }
        if next.None? || seats[i].value.graceUntil.value < next.value {
          next := seats[i].value.graceUntil;
        }
      }
    }

    method FindExpired(now: Time) returns (gone: seq<nat>)
      ensures gone == Expired(seats, |seats|, now)
    {
      gone := [];
      for i := 0 to |seats|
        invariant gone == Expired(seats, i, now)
      {
        if seats[i].None? || seats[i].value.sess.Some? || seats[i].value.graceUntil.None?
           || seats[i].value.graceUntil.value > now {
          continue;
        }
        gone := gone + [i];
      }
    }

    /** Everybody in `gone` resigns from the game, in order. */
    method ResignTheGone(gone: seq<nat>, now: Time)
      requires engine != null && Fits() && forall k :: 0 <= k < |gone| ==> gone[k] < |seats| && seats[gone[k]].Some?
      modifies engine
      ensures engine.Valid() && old(G.TableInv(engine.View()))
      ensures engine.View() == ResignAll(cfg, old(engine.View()), seats, gone, now)
    {
      hide G.Resign, G.Inv, G.IsAlive, G.TableInv;
      TableOf(cfg.rules, engine.View());
      for k := 0 to |gone|
        invariant engine.Valid() && G.TableInv(engine.View())
        invariant ResignAll(cfg, engine.View(), seats, gone[k..], now)
                  == ResignAll(cfg, old(engine.View()), seats, gone, now)
      {
        assert gone[k..][1..] == gone[k + 1..];
        var _ := engine.Resign(seats[gone[k]].value.id, now);
        TableOf(cfg.rules, engine.View());
      }
      assert gone[|gone|..] == [];
    }

    /** Takes every seat in `gone` out of a running game, and tells the room once what came of it. */
    method EliminateAbsent(gone: seq<nat>, now: Time)
      requires Fits() && forall k :: 0 <= k < |gone| ==> gone[k] < |seats| && seats[gone[k]].Some?
      modifies Repr(), live
      ensures old(engine != null ==> G.TableInv(engine.View()))
      ensures View() == if Running(old(ViewSeries()))
                        then ApplyEliminations(old(View()), old(engine.View()),
                                               ResignAll(cfg, old(engine.View()), old(seats), gone, now))
                        else old(View())
      ensures InStep() && engine == old(engine)
    {
      hide G.Resign, G.Inv, G.IsAlive, ApplyEliminations, G.TableInv, OnlyTheGame;
      if engine == null {
        return;
      }
      TableOf(cfg.rules, engine.View());
      if engine.over {
        return;
      }
      ghost var was := View();
      var before := MarkGame();
      ResignTheGone(gone, now);
      TableOf(cfg.rules, engine.View());
      GameAlone(before);
      Eliminated(before, was);
    }

    method VacateSeats(gone: seq<nat>)
      modifies this`seats, this`owner, this`chat
      ensures View() == VacateAll(old(View()), gone)
    {
      for k := 0 to |gone|
        invariant VacateAll(View(), gone[k..]) == VacateAll(old(View()), gone)
      {
        assert gone[k..][1..] == gone[k + 1..];
        if gone[k] < |seats| && seats[gone[k]].Some? {
          VacateIn(gone[k]);
        }
      }
      assert gone[|gone|..] == [];
    }

    /** Frees every seat whose reconnect window has run out. The engine goes first, while the seats are still here. */
    method HandleGraceExpiry(w: World)
      requires Fits()
      modifies Repr(), live
      ensures View() == OnGraceTimer(cfg, old(View()), w)
      ensures InStep()
    {
      hide ApplyEliminations, ResignAll, VacateAll, Expired, Lapsed, G.Inv;
      var gone := FindExpired(w.now);
      assert forall k :: 0 <= k < |gone| ==> seats[gone[k]].Some? by {
        forall k | 0 <= k < |gone| ensures seats[gone[k]].Some? { LapsedIsTaken(seats[gone[k]], w.now); }
      }
      EliminateAbsent(gone, w.now);
      VacateSeats(gone);
    }

    method CloseRoom()
      modifies this`liveCounted, this`finished, this`closed, live
      ensures View() == OnClose(old(View()))
      ensures live.n - Counting() == old(live.n - Counting())
    {
      StopCounting();
      closed := true;
    }

    // ----- the loop -----

    /** One input, sent to the method that handles it. */
    method Dispatch(input: Input, w: World)
      requires Fits()
      modifies Repr(), live, queue
      ensures View() == Handle(cfg, old(View()), input, w)
      ensures InStep()
      ensures queue.waiting == Q.Without(old(queue.waiting), Bound(old(View()), View(), input))
    {
      hide OnJoin, OnSubmit, OnBotMove, OnReady, OnStart, OnKick, OnLeave, OnChat, OnResign, OnClaimDeadEnd, OnDisconnect,
           OnResume, OnTurnTimer, OnGraceTimer, OnClose, G.Inv, Opens, SeatOf, Q.Cancel, View, ViewSeries, ViewTable;
      match input
      case Join(sess, nickname) => HandleJoin(sess, nickname, w);
      case Submit(sess, player, word, stamp) => HandleSubmit(sess, player, word, stamp, w);
      case BotMove(choice, stamp) => HandleBotMove(choice, stamp, w);
      case Ready(sess, player, ready) => HandleReady(sess, player, ready);
      case Start(sess, player) => HandleStart(sess, player, w);
      case Kick(sess, player, target) => HandleKick(sess, player, target);
      case Leave(sess, player) => HandleLeave(sess, player, w);
      case Chat(sess, player, text) => HandleChat(sess, player, text);
      case Resign(sess, player) => HandleResign(sess, player, w);
      case ClaimDeadEnd(sess, player) => HandleClaimDeadEnd(sess, player, w);
      case Disconnect(player, sess) => HandleDisconnect(player, sess, w);
      case Resume(player, sess, prior) => var _ := HandleResume(player, sess, prior, w);
      case TurnTimer => OnTurnClock(w);
      case GraceTimer => HandleGraceExpiry(w);
      case Close => CloseRoom();
    }

    /** One turn of the loop: the room stays in a state it can reach, and the hub's count stays in step with it. */
    method RunOnce(input: Input, w: World)
      requires Valid()
      modifies Repr(), live, queue
      ensures Valid()
      ensures |old(seats)| == MAX_PLAYERS && old(Fits())
      ensures View() == Step(cfg, old(View()), input, w)
      ensures InStep()
      ensures queue.waiting == if old(closed) then old(queue.waiting)
                               else Q.Without(old(queue.waiting), Bound(old(View()), View(), input))
    {
      hide RoomInv, Handle, Goes, G.Inv, Q.Without, OnClose, Occupied, SeatedCount, Bound;
      StepMay(cfg, View(), input, w);
      if closed {
        return;
      }
      Dispatch(input, w);
      var n := CountSeated();
      if (withBot && engine != null && engine.over) || n == 0 {
        BoundThenClosed(old(View()), View(), input);
        CloseRoom();
      }
    }
  }

  /** A game has begun, or the room is as it was; whose seats they are, and how many were filled, is as it was. */
  lemma BeginLeavesSerials(cfg: Config, r: Room, w: World)
    ensures Begin(cfg, r, w).table.serials == r.table.serials
  {
    hide G.New, TurnOrder;
  }

  lemma BoundThenClosed(before: Room, after: Room, input: Input)
    ensures Bound(before, OnClose(after), input) == Bound(before, after, input)
  {
  }

  lemma NewIsRunning(rules: G.Rules, players: seq<G.PlayerID>, opening: string, now: Time)
    requires G.New(rules, players, opening, now).Started?
    ensures !G.New(rules, players, opening, now).state.over
  {
  }

  /** Whoever leaves a game goes from a seat that is still theirs. */
  lemma LeavingKeepsSeats(cfg: Config, r: Room, player: G.PlayerID, now: Time)
    requires r.series.engine.Some? && G.Inv(cfg.rules, r.series.engine.value)
    ensures var t := ApplyEliminations(r, r.series.engine.value, G.Resign(cfg.rules, r.series.engine.value, player, now));
            SameChairs(r.table.seats, t.table.seats)
  {
    EliminationsSeatNobody(r, r.series.engine.value, G.Resign(cfg.rules, r.series.engine.value, player, now));
  }

  /** A claim that there is no word, when there is one, changes nothing. */
  lemma FalseClaim(cfg: Config, r: Room, now: Time)
    requires r.series.engine.Some? && G.TableInv(r.series.engine.value) && G.HasLegalMove(cfg.rules, r.series.engine.value)
    ensures ApplyEliminations(r, r.series.engine.value, G.NoMove(cfg.rules, r.series.engine.value, now)) == r
  {
  }

  lemma {:induction false} TakenStarts(seats: Seats, i: nat, n: nat)
    requires i < n <= |seats| && Taken(seats, i) == [] && seats[i].Some?
    ensures Taken(seats, n) != [] && Taken(seats, n)[0] == i
  {
    if i < n - 1 { TakenStarts(seats, i, n - 1); }
  }

  lemma ScrubMore(chat: seq<Line>, id: G.PlayerID, k: nat)
    requires k < |chat|
    ensures Scrub(chat[..k + 1], id) + chat[k + 1..] == (Scrub(chat[..k], id) + chat[k..])[k := Scrubbed(chat[k], id)]
  {
  }
}
