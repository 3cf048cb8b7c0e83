/** The inputs that take players out of a game, a whole turn of the room's loop, and what holds over any run of it. */
module RoomRuns {
  import opened Basics
  import opened RoomRules
  import opened RoomState
  import opened RoomSteps
  import opened RoomSeating
  import opened RoomHandlers
  import G = GameRules
  import P = GameProofs

  // ----- taking players out of a game -----

  lemma ShedsNothing(s: G.State)
    requires G.Shaped(s)
    ensures P.Sheds(s, s)
  {
  }

  lemma NoMoveSheds(rules: G.Rules, s: G.State, now: Time)
    requires G.TableInv(s)
    ensures P.Sheds(s, G.NoMove(rules, s, now)) && G.TableInv(G.NoMove(rules, s, now))
  {
    ShedsNothing(s);
    if !s.over && !G.HasLegalMove(rules, s) { P.ExpireSheds(rules, s, now); }
  }

  lemma TimeoutSheds(rules: G.Rules, s: G.State, now: Time)
    requires G.TableInv(s)
    ensures P.Sheds(s, G.Timeout(rules, s, now)) && G.TableInv(G.Timeout(rules, s, now))
  {
    ShedsNothing(s);
    if !s.over && G.IsExpired(s, now) { P.ExpireSheds(rules, s, now); }
  }

  /** Two rounds of eliminations are eliminations. */
  lemma ShedsOn(s: G.State, t: G.State, u: G.State)
    requires G.TableInv(s) && G.TableInv(t) && G.TableInv(u) && P.Sheds(s, t) && P.Sheds(t, u)
    ensures P.Sheds(s, u)
  {
    P.ShedsTrans(s, t, u);
  }

  lemma ResignMay(cfg: Config, r: Room, sess: Session, player: G.PlayerID, w: World)
    requires RoomInv(cfg, r) && !r.closed
    ensures May(cfg, r, OnResign(cfg, r, sess, player, w))
  {
    hide RoomInv, Goes, Occupies, ApplyEliminations, G.Resign, P.Sheds, G.Inv;
    MayStay(cfg, r);
    EngineOk(cfg, r);
    if r.series.engine.Some? {
      var before := r.series.engine.value;
      TableOf(cfg.rules, before);
      P.ResignSheds(cfg.rules, before, player, w.now);
      EliminationsKeep(cfg, r, G.Resign(cfg.rules, before, player, w.now));
    }
  }

  lemma TableOf(rules: G.Rules, s: G.State)
    requires G.Inv(rules, s)
    ensures G.TableInv(s) && G.Shaped(s)
  {
  }

  lemma ShapedTable(s: G.State)
    requires G.TableInv(s)
    ensures G.Shaped(s)
  {
  }

  lemma ClaimDeadEndMay(cfg: Config, r: Room, sess: Session, player: G.PlayerID, w: World)
    requires RoomInv(cfg, r) && !r.closed
    ensures May(cfg, r, OnClaimDeadEnd(cfg, r, sess, player, w))
  {
    hide RoomInv, Goes, Occupies, ApplyEliminations, G.NoMove, P.Sheds, G.Inv;
    MayStay(cfg, r);
    EngineOk(cfg, r);
    if r.series.engine.Some? {
      var before := r.series.engine.value;
      TableOf(cfg.rules, before);
      NoMoveSheds(cfg.rules, before, w.now);
      EliminationsKeep(cfg, r, G.NoMove(cfg.rules, before, w.now));
    }
  }

  lemma TurnTimerMay(cfg: Config, r: Room, w: World)
    requires RoomInv(cfg, r) && !r.closed
    ensures May(cfg, r, OnTurnTimer(cfg, r, w))
  {
    hide RoomInv, Goes, ApplyEliminations, G.Timeout, P.Sheds, G.Inv;
    MayStay(cfg, r);
    EngineOk(cfg, r);
    if r.series.engine.Some? {
      var before := r.series.engine.value;
      TableOf(cfg.rules, before);
      TimeoutSheds(cfg.rules, before, w.now);
      EliminationsKeep(cfg, r, G.Timeout(cfg.rules, before, w.now));
    }
  }

  /** Whatever the bot is worth to the engine, what it does to the game is eliminations. */
  lemma BotGivesUp(rules: G.Rules, before: G.State, choice: Option<string>, now: Time) returns (after: G.State)
    requires G.Inv(rules, before)
    requires choice.Some? ==> G.Judge(rules, before, G.Bot, choice.value, now).Rejected?
    ensures after == match choice
                     case None =>
                       var settled := G.NoMove(rules, before, now);
                       if settled != before then settled else G.Resign(rules, before, G.Bot, now)
                     case Some(word) =>
                       (G.SubmitKeepsTable(rules, before, G.Bot, word, now);
                        G.Resign(rules, G.Submit(rules, before, G.Bot, word, now), G.Bot, now))
    ensures P.Sheds(before, after) && G.TableInv(after)
  {
    hide G.Resign, P.Sheds, G.Judge, G.Submit, G.NoMove, G.TableInv, G.HasLegalMove;
    match choice
    case None =>
      NoMoveSheds(rules, before, now);
      P.ResignSheds(rules, before, G.Bot, now);
      after := G.NoMove(rules, before, now);
      if after == before { after := G.Resign(rules, before, G.Bot, now); }
    case Some(word) =>
      RefusedSheds(rules, before, G.Bot, word, now);
      var refused := G.Submit(rules, before, G.Bot, word, now);
      P.ResignSheds(rules, refused, G.Bot, now);
      after := G.Resign(rules, refused, G.Bot, now);
      ShedsOn(before, refused, after);
  }

  lemma BotMoveMay(cfg: Config, r: Room, choice: Option<string>, turnSeq: nat, w: World)
    requires RoomInv(cfg, r) && !r.closed
    ensures May(cfg, r, OnBotMove(cfg, r, choice, turnSeq, w))
  {
    hide RoomInv, Goes, ApplyEliminations, G.NoMove, G.Resign, G.Submit, G.Judge, P.Sheds, G.Inv, Submitted;
    MayStay(cfg, r);
    EngineOk(cfg, r);
    if Running(r.series) {
      var before := r.series.engine.value;
      TableOf(cfg.rules, before);
      if choice.Some? && G.Judge(cfg.rules, before, G.Bot, choice.value, w.now).Accepted? {
        SubmittedKeeps(cfg, r, G.Bot, choice.value, w);
      } else {
        var after := BotGivesUp(cfg.rules, before, choice, w.now);
        EliminationsKeep(cfg, r, after);
      }
    }
  }

  // ----- leaving, and not coming back -----

  lemma GoneIsOutOfPlay(cfg: Config, r: Room, after: G.State, id: G.PlayerID)
    requires RoomInv(cfg, r) && Running(r.series) && !r.closed
    requires P.Sheds(r.series.engine.value, after) && G.TableInv(after) && (after.over || !G.IsAlive(after, id))
    ensures OutOfPlay(ApplyEliminations(r, r.series.engine.value, after).series, id)
  {
    var t := ApplyEliminations(r, r.series.engine.value, after);
    assert t.series.engine == Some(after);
    if !after.over {
      forall k | 0 <= k < |after.players| && after.alive[k] ensures after.players[k] != id {
        assert G.IndexOf(after.players, after.players[k]) == k;
      }
    }
  }

  /** Applying eliminations leaves every seat where it is. */
  lemma EliminationsSeatNobody(r: Room, before: G.State, after: G.State)
    requires G.Shaped(before) && G.Shaped(after)
    ensures SameChairs(r.table.seats, ApplyEliminations(r, before, after).table.seats)
    ensures ApplyEliminations(r, before, after).closed == r.closed
  {
    CreditKeepsChairs(r.table.seats, after.winner);
    SameChairsSelf(r.table.seats);
  }

  lemma LeaveMay(cfg: Config, r: Room, sess: Session, player: G.PlayerID, w: World)
    requires RoomInv(cfg, r) && !r.closed
    ensures May(cfg, r, OnLeave(cfg, r, sess, player, w))
  {
    hide RoomInv, Goes, ApplyEliminations, G.Resign, P.Sheds, G.Inv, Vacate, G.TableInv, G.IsAlive, SameSeat;
    MayStay(cfg, r);
    EngineOk(cfg, r);
    var i := SeatOf(r.table.seats, player);
    if Occupies(r.table.seats, sess, player) && !r.withBot {
      if Running(r.series) {
        var before := r.series.engine.value;
        TableOf(cfg.rules, before);
        var after := G.Resign(cfg.rules, before, player, w.now);
        P.ResignSheds(cfg.rules, before, player, w.now);
        EliminationsKeep(cfg, r, after);
        GoneIsOutOfPlay(cfg, r, after, player);
        ShapedTable(after);
        EliminationsSeatNobody(r, before, after);
        var t := ApplyEliminations(r, before, after);
        VacateKeeps(cfg, t, i);
        MayOn(cfg, r, t, Vacate(t, i));
      } else if !r.table.seats[i].value.ready {
        VacateKeeps(cfg, r, i);
      }
    }
  }

  /** Everybody in `gone` is out when all of them have resigned, unless the game is over. */
  lemma {:induction false} ResignAllSheds(cfg: Config, engine: G.State, seats: Seats, gone: seq<nat>, now: Time)
    requires G.TableInv(engine) && forall k :: 0 <= k < |gone| ==> gone[k] < |seats| && seats[gone[k]].Some?
    ensures P.Sheds(engine, ResignAll(cfg, engine, seats, gone, now))
    ensures var t := ResignAll(cfg, engine, seats, gone, now);
            t.over || forall k :: 0 <= k < |gone| ==> !G.IsAlive(t, seats[gone[k]].value.id)
    decreases |gone|
  {
    hide G.Resign, G.TableInv;
    if gone == [] {
      ShapedTable(engine);
      ShedsNothing(engine);
    } else {
      var id := seats[gone[0]].value.id;
      var next := G.Resign(cfg.rules, engine, id, now);
      P.ResignSheds(cfg.rules, engine, id, now);
      ResignAllSheds(cfg, next, seats, gone[1..], now);
      var t := ResignAll(cfg, next, seats, gone[1..], now);
      ShedsOn(engine, next, t);
      if !t.over {
        forall k | 0 <= k < |gone| ensures !G.IsAlive(t, seats[gone[k]].value.id) {
          if k == 0 {
            StaysOut(next, t, id);
          } else {
            assert gone[k] == gone[1..][k - 1];
          }
        }
      }
    }
  }

  lemma StaysOut(s: G.State, t: G.State, id: G.PlayerID)
    requires P.Sheds(s, t) && !G.IsAlive(s, id)
    ensures !G.IsAlive(t, id)
  {
  }

  lemma {:induction false} VacateAllMay(cfg: Config, r: Room, gone: seq<nat>)
    requires RoomInv(cfg, r)
    requires forall k :: 0 <= k < |gone| && gone[k] < |r.table.seats| && r.table.seats[gone[k]].Some? ==>
      OutOfPlay(r.series, r.table.seats[gone[k]].value.id)
    ensures May(cfg, r, VacateAll(r, gone))
    decreases |gone|
  {
    hide RoomInv, Goes, OutOfPlay, Vacate;
    MayStay(cfg, r);
    if gone != [] {
      var i := gone[0];
      if i < |r.table.seats| && r.table.seats[i].Some? {
        VacateKeeps(cfg, r, i);
        VacateLeaves(r, i);
        var t := Vacate(r, i);
        forall k | 0 <= k < |gone[1..]| && gone[1..][k] < |t.table.seats| && t.table.seats[gone[1..][k]].Some?
          ensures OutOfPlay(t.series, t.table.seats[gone[1..][k]].value.id)
        {
          assert gone[1..][k] == gone[k + 1];
        }
        VacateAllMay(cfg, t, gone[1..]);
        MayOn(cfg, r, t, VacateAll(t, gone[1..]));
      } else {
        forall k | 0 <= k < |gone[1..]| && gone[1..][k] < |r.table.seats| && r.table.seats[gone[1..][k]].Some?
          ensures OutOfPlay(r.series, r.table.seats[gone[1..][k]].value.id)
        {
          assert gone[1..][k] == gone[k + 1];
        }
        VacateAllMay(cfg, r, gone[1..]);
      }
    }
  }

  /** Freeing one seat moves nobody else and no game. */
  lemma VacateLeaves(r: Room, i: nat)
    requires i < |r.table.seats| && r.table.seats[i].Some?
    ensures Vacate(r, i).series == r.series && SameChairs(r.table.seats[i := None], Vacate(r, i).table.seats)
  {
    PromoteKeeps(r.table.(seats := r.table.seats[i := None]));
    SameChairsSelf(r.table.seats[i := None]);
  }

  lemma GraceTimerMay(cfg: Config, r: Room, w: World)
    requires RoomInv(cfg, r) && !r.closed
    ensures May(cfg, r, OnGraceTimer(cfg, r, w))
  {
    hide RoomInv, Goes, ApplyEliminations, P.Sheds, G.Inv, G.TableInv, G.IsAlive, OutOfPlay, VacateAll, ResignAll, Lapsed;
    EngineOk(cfg, r);
    var seats := r.table.seats;
    var gone := Expired(seats, |seats|, w.now);
    forall k | 0 <= k < |gone| ensures seats[gone[k]].Some? { LapsedIsTaken(seats[gone[k]], w.now); }
    if !Running(r.series) {
      forall k | 0 <= k < |gone| ensures OutOfPlay(r.series, seats[gone[k]].value.id) {
        IdleIsOutOfPlay(r.series, seats[gone[k]].value.id);
      }
      VacateAllMay(cfg, r, gone);
    } else {
      var before := r.series.engine.value;
      TableOf(cfg.rules, before);
      ResignAllSheds(cfg, before, seats, gone, w.now);
      var after := ResignAll(cfg, before, seats, gone, w.now);
      EliminationsKeep(cfg, r, after);
      ShapedTable(after);
      EliminationsSeatNobody(r, before, after);
      var t := ApplyEliminations(r, before, after);
      forall k | 0 <= k < |gone| ensures OutOfPlay(t.series, t.table.seats[gone[k]].value.id) {
        GoneIsOutOfPlay(cfg, r, after, seats[gone[k]].value.id);
      }
      VacateAllMay(cfg, t, gone);
      MayOn(cfg, r, t, VacateAll(t, gone));
    }
  }

  lemma LapsedIsTaken(seat: Option<Seat>, now: Time)
    requires Lapsed(seat, now)
    ensures seat.Some?
  {
  }

  lemma IdleIsOutOfPlay(s: Series, id: G.PlayerID)
    requires !Running(s)
    ensures OutOfPlay(s, id)
  {
  }

  // ----- a whole turn of the loop -----

  lemma HandleMay(cfg: Config, r: Room, input: Input, w: World)
    requires RoomInv(cfg, r) && !r.closed
    ensures |r.table.seats| == MAX_PLAYERS && (r.series.engine.Some? ==> G.Inv(cfg.rules, r.series.engine.value))
    ensures May(cfg, r, Handle(cfg, r, input, w))
  {
    hide RoomInv, Goes, G.Inv, OnJoin, OnSubmit, OnBotMove, OnReady, OnStart, OnKick, OnLeave, OnChat, OnResign, OnClaimDeadEnd;
    hide OnDisconnect, OnResume, OnTurnTimer, OnGraceTimer, OnClose, Opens;
    EngineOk(cfg, r);
    match input
    case Join(sess, nickname) => JoinKeeps(cfg, r, sess, nickname, w);
    case Submit(sess, player, word, turnSeq) => SubmitKeeps(cfg, r, sess, player, word, turnSeq, w);
    case BotMove(choice, turnSeq) => BotMoveMay(cfg, r, choice, turnSeq, w);
    case Ready(sess, player, ready) => ReadyKeeps(cfg, r, sess, player, ready);
    case Start(sess, player) => StartKeeps(cfg, r, sess, player, w);
    case Kick(sess, player, target) => KickKeeps(cfg, r, sess, player, target);
    case Leave(sess, player) => LeaveMay(cfg, r, sess, player, w);
    case Chat(sess, player, text) => ChatKeeps(cfg, r, sess, player, text);
    case Resign(sess, player) => ResignMay(cfg, r, sess, player, w);
    case ClaimDeadEnd(sess, player) => ClaimDeadEndMay(cfg, r, sess, player, w);
    case Disconnect(player, sess) => DisconnectKeeps(cfg, r, player, sess, w);
    case Resume(player, sess, prior) => ResumeKeeps(cfg, r, player, sess, prior, w);
    case TurnTimer => TurnTimerMay(cfg, r, w);
    case GraceTimer => GraceTimerMay(cfg, r, w);
    case Close => CloseKeeps(cfg, r);
  }

  lemma CloseTwice(cfg: Config, r: Room)
    requires RoomInv(cfg, r) && r.closed
    ensures OnClose(r) == r
  {
  }

  lemma CloseMay(cfg: Config, r: Room, t: Room)
    requires May(cfg, r, t)
    ensures May(cfg, r, OnClose(t))
  {
    hide RoomInv, Goes, OnClose;
    MayStay(cfg, t);
    if t.closed { CloseTwice(cfg, t); } else { CloseKeeps(cfg, t); }
    MayOn(cfg, r, t, OnClose(t));
  }

  /** Every turn of the room's loop keeps the invariant and moves the room forward. */
  lemma StepMay(cfg: Config, r: Room, input: Input, w: World)
    requires RoomInv(cfg, r)
    ensures |r.table.seats| == MAX_PLAYERS && (r.series.engine.Some? ==> G.Inv(cfg.rules, r.series.engine.value))
    ensures May(cfg, r, Step(cfg, r, input, w))
  {
    EngineOk(cfg, r);
    MayStay(cfg, r);
    hide RoomInv, Goes, G.Inv, Handle, OnClose, Occupied, May;
    if !r.closed {
      HandleMay(cfg, r, input, w);
      CloseMay(cfg, r, Handle(cfg, r, input, w));
    }
  }

  // ----- any run of a room -----

  datatype Event = Event(input: Input, world: World)

  /** The room after a list of events. */
  function Run(cfg: Config, r: Room, events: seq<Event>): (t: Room)
    requires RoomInv(cfg, r)
    ensures RoomInv(cfg, t)
    decreases |events|
  {
    if events == [] then r
    else
      StepMay(cfg, r, events[0].input, events[0].world);
      Run(cfg, Step(cfg, r, events[0].input, events[0].world), events[1..])
  }

  /** Whatever happens, a room only moves forward. */
  lemma {:induction false} RunMay(cfg: Config, r: Room, events: seq<Event>)
    requires RoomInv(cfg, r)
    ensures May(cfg, r, Run(cfg, r, events))
    decreases |events|
  {
    hide RoomInv, Goes, Step;
    if events == [] {
      MayStay(cfg, r);
    } else {
      StepMay(cfg, r, events[0].input, events[0].world);
      var next := Step(cfg, r, events[0].input, events[0].world);
      RunMay(cfg, next, events[1..]);
      MayOn(cfg, r, next, Run(cfg, next, events[1..]));
    }
  }
}
