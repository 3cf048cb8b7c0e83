/** What each input does to the game of a room, told by who is in it, whose turn it is and what its players are owed. */
module RoomGames {
  import opened Basics
  import opened RoomRules
  import opened RoomState
  import opened RoomSteps
  import opened RoomSeating
  import opened RoomHandlers
  import opened RoomRuns
  import opened RoomInputs
  import G = GameRules
  import P = GameProofs
  import T = Turns
  import Nickname
  import Openings
  import RoomTheorems

  // ----- a game is dealt -----

  /** Where in the turn order the player of seat i comes: round the table, from the seat that was drawn to lead. */
  function Place(seats: Seats, i: nat, lead: nat): nat
    requires i < |seats| && lead <= SeatedCount(seats)
  {
    if Rank(seats, i) >= lead then Rank(seats, i) - lead else Rank(seats, i) + SeatedCount(seats) - lead
  }

  lemma DealtInPlace(seats: Seats, withBot: bool, lead: nat, i: nat)
    requires i < |seats| && seats[i].Some? && SeatedCount(seats) > 0
    ensures var n := SeatedCount(seats); var order := TurnOrder(seats, withBot, lead);
            |order| == n && Place(seats, i, if withBot then 0 else lead % n) < n
            && order[Place(seats, i, if withBot then 0 else lead % n)] == seats[i].value.id
  {
    hide Taken;
    TakenAt(seats, i, |seats|);
    var ids, d := Ids(seats), lead % SeatedCount(seats);
    assert |ids| == SeatedCount(seats) && ids[Rank(seats, i)] == seats[i].value.id;
    hide Ids;
    assert |Rotate(ids, d)| == |ids|;
  }

  /**
   * A game that begins is dealt to everybody seated, in the order of their seats round the table; between people the seat
   * drawn opens it, and against the bot the player does. It begins on the clock, with nothing played; every readiness is
   * spent and nobody is owed an old result; and it has a turn sequence number of its own.
   */
  lemma DealIs(cfg: Config, r: Room, w: World)
    requires RoomInv(cfg, r) && !Running(r.series) && Running(Begin(cfg, r, w).series)
    ensures var t := Begin(cfg, r, w); var g := t.series.engine.value; var n := SeatedCount(r.table.seats);
            && n >= 2 && |g.players| == n && Distinct(g.players)
            && (forall i :: 0 <= i < |r.table.seats| && r.table.seats[i].Some? ==>
                  var k := Place(r.table.seats, i, if r.withBot then 0 else w.lead % n);
                  k < n && g.players[k] == r.table.seats[i].value.id)
            && g.turnIndex == 0 && g.deadline == w.now + cfg.rules.turnLimit && g.history == [] && g.aliveN == n
            && Some(g.opening) == cfg.rules.dict.Resolve(Opening(cfg, w).value)
    ensures var t := Begin(cfg, r, w);
            && t.talk == r.talk && t.table.owner == r.table.owner && t.table.serials == r.table.serials
            && t.series.turnSeq == r.series.turnSeq + 1 && t.series.started == r.series.started + 1
            && t.series.finished == r.series.finished && t.series.results == r.series.results && t.series.liveCounted
            && |t.table.seats| == |r.table.seats|
            && forall i :: 0 <= i < |r.table.seats| ==>
                 if r.table.seats[i].Some? then t.table.seats[i] == Some(r.table.seats[i].value.(ready := false, missed := None))
                 else t.table.seats[i].None?
  {
    hide RoomInv, TurnOrder, SeatedCount, Place, Roster;
    var seats, opening := r.table.seats, Opening(cfg, w).value;
    RoomTheorems.TableIs(cfg, r);
    RoomTheorems.DealtDistinct(seats, r.table.serials, r.withBot, w.lead);
    P.NewKeepsInv(cfg.rules, TurnOrder(seats, r.withBot, w.lead), opening, w.now);
    assert SeatedCount(seats) >= 2;
    forall i | 0 <= i < |seats| && seats[i].Some?
      ensures Place(seats, i, if r.withBot then 0 else w.lead % SeatedCount(seats)) < SeatedCount(seats)
      ensures TurnOrder(seats, r.withBot, w.lead)[Place(seats, i, if r.withBot then 0 else w.lead % SeatedCount(seats))]
              == seats[i].value.id
    {
      DealtInPlace(seats, r.withBot, w.lead, i);
    }
  }

  /**
   * A room made for a matched pair begins their game by itself: when the second of them arrives, and exactly when both are
   * there, the server is not going down, and there is a word to draw.
   */
  lemma MatchedBeginIff(cfg: Config, r: Room, sess: Session, nickname: string, w: World)
    requires RoomInv(cfg, r) && Open(r, sess) && !r.closed && Openings.Served(cfg.rules.dict)
    ensures |r.table.seats| == MAX_PLAYERS
    ensures Running(OnJoin(cfg, r, sess, nickname, w).series) <==>
            && r.autoStart && sess !in w.dead && !w.draining
            && (forall k :: 0 <= k < |r.table.seats| && r.table.seats[k].Some? ==> r.table.seats[k].value.sess.Some?)
            && Openings.SomeWordLeaves(cfg.rules.dict, 20)
  {
    hide RoomInv, Begin, Nickname.Distinguished, TakenNicknames, Openings.Served, Openings.SomeWordLeaves, SeatedCount,
         AtTable, Goes, G.Inv, Open, TwoSeated;
    EngineOk(cfg, r);
    OpenIs(r, sess);
    var d, i := r.(autoStart := false), FreeSeat(r.table.seats);
    var joined := d.(table := TakeSeat(d.table, i, Joiner(cfg, r, i, sess, nickname, w)));
    JoinerFits(cfg, r, i, sess, nickname, w);
    JoinedMay(cfg, r, d, i, Joiner(cfg, r, i, sess, nickname, w));
    var j :| 0 <= j < |r.table.seats| && r.table.seats[j].Some?;
    assert joined.table.seats[j].Some? && joined.table.seats[i].Some?;
    TwoSeatedIff(joined.table.seats);
    Two(joined.table.seats, if i < j then i else j, if i < j then j else i);
    RoomTheorems.BeginsIff(cfg, joined, w);
    JoinerConnects(cfg, r, i, sess, nickname, w);
  }

  lemma JoinerConnects(cfg: Config, r: Room, i: nat, sess: Session, nickname: string, w: World)
    requires |r.table.seats| == MAX_PLAYERS && i < |r.table.seats| && r.table.seats[i].None?
    ensures var s := Joiner(cfg, r, i, sess, nickname, w);
            && (s.sess.Some? <==> sess !in w.dead)
            && (s.sess.Some? ==> (AllConnected(r.table.seats[i := Some(s)]) <==> AllConnected(r.table.seats)))
  {
    hide TakenNicknames, Nickname.Distinguished;
    var s := Joiner(cfg, r, i, sess, nickname, w);
    var after := r.table.seats[i := Some(s)];
    if AllConnected(after) {
      forall k | 0 <= k < |r.table.seats| && r.table.seats[k].Some? ensures r.table.seats[k].value.sess.Some? {
        assert after[k] == r.table.seats[k];
      }
    }
  }

  // ----- players go out -----

  /** A seat when a game is over: the winner's has one win more, and a player who is away is owed the result. */
  predicate AfterGame(a: Seat, b: Seat, final: G.State) {
    b == a.(wins := a.wins + (if a.id == final.winner then 1 else 0),
            missed := if a.id == G.Bot then a.missed
                      else if a.sess.None? then Some(Result(final.winner == a.id, final)) else None)
  }

  /**
   * The game of a room has gone on to `after` by players going out: the sequence moves with the turn; or it is over, is
   * counted finished, and is credited and kept for those who are away. Nothing else in the room has changed.
   */
  ghost predicate GameGoes(r: Room, t: Room, after: G.State)
    requires r.series.engine.Some? && G.Shaped(r.series.engine.value) && G.Shaped(after)
  {
    var s := r.series;
    && t == r.(table := r.table.(seats := t.table.seats), series := t.series)
    && |t.table.seats| == |r.table.seats|
    && if after.over then
         && t.series == s.(engine := Some(after), liveCounted := false, finished := s.finished + 1,
                           results := s.results + [SerialOf(s.roster, after.winner)])
         && forall i :: 0 <= i < |r.table.seats| ==>
              if r.table.seats[i].Some? then
                t.table.seats[i].Some? && AfterGame(r.table.seats[i].value, t.table.seats[i].value, after)
              else t.table.seats[i].None?
       else
         && t.table.seats == r.table.seats
         && t.series == s.(engine := Some(after),
                           turnSeq := s.turnSeq + (if G.Turn(after) == G.Turn(s.engine.value) then 0 else 1))
  }

  lemma EndedIs(cfg: Config, r: Room, final: G.State)
    requires RoomInv(cfg, r)
    ensures |Ended(r.table.seats, final)| == |r.table.seats|
    ensures forall i :: 0 <= i < |r.table.seats| ==>
      if r.table.seats[i].Some? then
        Ended(r.table.seats, final)[i].Some? && AfterGame(r.table.seats[i].value, Ended(r.table.seats, final)[i].value, final)
      else Ended(r.table.seats, final)[i].None?
  {
    forall i | 0 <= i < |r.table.seats| && r.table.seats[i].Some?
      ensures SeatOf(r.table.seats, r.table.seats[i].value.id) == i
    {
      Found(cfg, r, i);
    }
    hide RoomInv;
  }

  /** What a room makes of players having gone out of its game. */
  lemma EliminationsAre(cfg: Config, r: Room, after: G.State)
    requires RoomInv(cfg, r) && Running(r.series) && !r.closed
    requires P.Sheds(r.series.engine.value, after) && G.TableInv(after)
    ensures var t := ApplyEliminations(r, r.series.engine.value, after);
            if after == r.series.engine.value then t == r else GameGoes(r, t, after)
  {
    hide RoomInv, Ended, G.TableInv, G.Inv, AfterGame;
    CountedWhileRunning(cfg, r);
    ShapedTable(after);
    OutNobodyOrOver(r.series.engine.value, after);
    if after.over { EndedIs(cfg, r, after); }
  }

  lemma OutNobodyOrOver(g: G.State, h: G.State)
    requires P.Sheds(g, h)
    ensures h == g <==> |h.outOrder| == |g.outOrder|
  {
  }

  lemma CountedWhileRunning(cfg: Config, r: Room)
    requires RoomInv(cfg, r) && Running(r.series) && !r.closed
    ensures r.series.liveCounted && G.TableInv(r.series.engine.value) && cfg.rules.turnLimit > 0
    ensures G.Inv(cfg.rules, r.series.engine.value) && G.Shaped(r.series.engine.value)
  {
  }

  /** The player to act when g stood has gone out since, first of all who did. */
  ghost predicate TurnLost(g: G.State, h: G.State) {
    G.Shaped(g) && g.outOrder + [G.Turn(g)] <= h.outOrder && h.history == g.history
  }

  /**
   * When a turn's time is up in a running game its player goes out, whoever they are: the game is over, or the turn and the
   * sequence move on and the clock starts again. Until then, and with no game running, the timer does nothing.
   */
  lemma TurnTimerTakesTheTurn(cfg: Config, r: Room, w: World)
    requires RoomInv(cfg, r) && !r.closed
    ensures r.series.engine.Some? ==> G.Inv(cfg.rules, r.series.engine.value)
    ensures var t := OnTurnTimer(cfg, r, w);
            if Running(r.series) && w.now > r.series.engine.value.deadline then
              && t.series.engine.Some?
              && var g, h := r.series.engine.value, t.series.engine.value;
                 && G.Shaped(g) && G.Shaped(h) && GameGoes(r, t, h) && TurnLost(g, h)
                 && (h.over || (t.series.turnSeq == r.series.turnSeq + 1 && h.deadline == w.now + cfg.rules.turnLimit))
            else t == r
  {
    hide RoomInv, ApplyEliminations, G.Inv, G.Expire, GameGoes, P.Sheds, G.TableInv;
    EngineOk(cfg, r);
    if r.series.engine.Some? { EngineAfterNothing(cfg, r); }
    if Running(r.series) && w.now > r.series.engine.value.deadline {
      CountedWhileRunning(cfg, r);
      var g := r.series.engine.value;
      TimeoutSheds(cfg.rules, g, w.now);
      P.ExpireSheds(cfg.rules, g, w.now);
      var h := G.Timeout(cfg.rules, g, w.now);
      OutNobodyOrOver(g, h);
      EliminationsAre(cfg, r, h);
      ShapedTable(h);
      LostMoves(r, ApplyEliminations(r, g, h), g, h);
    }
  }

  lemma EngineAfterNothing(cfg: Config, r: Room)
    requires r.series.engine.Some? && G.Inv(cfg.rules, r.series.engine.value)
    ensures var g := r.series.engine.value; G.TableInv(g) && G.Shaped(g) && ApplyEliminations(r, g, g) == r
  {
  }

  /** With the turn lost and the game on, the sequence has moved. */
  lemma LostMoves(r: Room, t: Room, g: G.State, h: G.State)
    requires G.TableInv(g) && G.TableInv(h) && P.Sheds(g, h) && r.series.engine == Some(g) && GameGoes(r, t, h)
    requires |g.outOrder| < |h.outOrder| && h.outOrder[|g.outOrder|] == G.Turn(g) && h.turnIndex != g.turnIndex
    ensures TurnLost(g, h) && t.series.engine == Some(h)
    ensures h.over || t.series.turnSeq == r.series.turnSeq + 1
  {
    assert g.outOrder + [G.Turn(g)] == h.outOrder[..|g.outOrder| + 1];
    assert G.Turn(h) != G.Turn(g);
  }

  /** The player to act may give the game up, at any time in their turn, and is out of it; nobody else may. */
  lemma ResignGivesUp(cfg: Config, r: Room, i: nat, sess: Session, w: World)
    requires RoomInv(cfg, r) && !r.closed && i < |r.table.seats| && r.table.seats[i].Some?
    ensures r.series.engine.Some? ==> G.Inv(cfg.rules, r.series.engine.value)
    ensures var s := r.table.seats[i].value; var t := OnResign(cfg, r, sess, s.id, w);
            && (Running(r.series) ==> G.Shaped(r.series.engine.value))
            && if s.sess == Some(sess) && Running(r.series) && G.Turn(r.series.engine.value) == s.id then
                 && t.series.engine.Some?
                 && var g, h := r.series.engine.value, t.series.engine.value;
                    && G.Shaped(h) && GameGoes(r, t, h) && TurnLost(g, h)
                    && s.id in h.outReason && h.outReason[s.id] == G.EndResigned
                    && (h.over || (t.series.turnSeq == r.series.turnSeq + 1 && h.deadline == w.now + cfg.rules.turnLimit))
               else t == r
  {
    EngineOk(cfg, r);
    Found(cfg, r, i);
    var s := r.table.seats[i].value;
    if Running(r.series) {
      CountedWhileRunning(cfg, r);
      var g := r.series.engine.value;
      if s.sess == Some(sess) && G.Turn(g) == s.id {
        hide RoomInv, ApplyEliminations, G.Inv, G.Resign, GameGoes, Occupies;
        P.ResignSheds(cfg.rules, g, s.id, w.now);
        T.TurnGivenUp(cfg.rules, g, w.now);
        var h := G.Resign(cfg.rules, g, s.id, w.now);
        EliminationsAre(cfg, r, h);
        ShapedTable(h);
        LostMoves(r, ApplyEliminations(r, g, h), g, h);
      }
    }
    hide RoomInv, ApplyEliminations, G.Inv, G.Resign, GameGoes;
  }

  /** The player to act may have a dead end settled, and then the game is over; claimed of a position that is none, nothing is. */
  lemma DeadEndIsSettled(cfg: Config, r: Room, i: nat, sess: Session, w: World)
    requires RoomInv(cfg, r) && !r.closed && i < |r.table.seats| && r.table.seats[i].Some?
    ensures r.series.engine.Some? ==> G.Inv(cfg.rules, r.series.engine.value)
    ensures var s := r.table.seats[i].value; var t := OnClaimDeadEnd(cfg, r, sess, s.id, w);
            && (Running(r.series) ==> G.Shaped(r.series.engine.value))
            && if s.sess == Some(sess) && Running(r.series) && G.Turn(r.series.engine.value) == s.id
                  && G.LegalMoves(cfg.rules, r.series.engine.value) == [] then
                 && t.series.engine.Some?
                 && var g, h := r.series.engine.value, t.series.engine.value;
                    && G.Shaped(h) && GameGoes(r, t, h) && TurnLost(g, h) && h.over && h.winner != s.id
               else t == r
  {
    EngineOk(cfg, r);
    Found(cfg, r, i);
    var s := r.table.seats[i].value;
    if Running(r.series) {
      CountedWhileRunning(cfg, r);
      var g := r.series.engine.value;
      T.NoMovesIff(cfg.rules, g);
      if s.sess == Some(sess) && G.Turn(g) == s.id && G.LegalMoves(cfg.rules, g) == [] {
        hide RoomInv, ApplyEliminations, G.Inv, G.Expire, GameGoes, Occupies;
        NoMoveSheds(cfg.rules, g, w.now);
        P.ExpireSheds(cfg.rules, g, w.now);
        T.DeadEndIsLost(cfg.rules, g, w.now);
        var h := G.NoMove(cfg.rules, g, w.now);
        EliminationsAre(cfg, r, h);
        ShapedTable(h);
        LostMoves(r, ApplyEliminations(r, g, h), g, h);
      }
    }
    hide RoomInv, ApplyEliminations, G.Inv, G.Expire, GameGoes;
  }

  /** Leaving a game gives it up, in or out of turn, and then frees the seat. */
  lemma LeavingGivesUp(cfg: Config, r: Room, i: nat, sess: Session, w: World) returns (m: Room)
    requires RoomInv(cfg, r) && !r.closed && Running(r.series) && i < |r.table.seats| && r.table.seats[i].Some?
    ensures G.Inv(cfg.rules, r.series.engine.value)
    ensures var s := r.table.seats[i].value; var t := OnLeave(cfg, r, sess, s.id, w);
            if s.sess == Some(sess) && !r.withBot then
              && Freed(m, t, i) && m.series.engine.Some?
              && var g, h := r.series.engine.value, m.series.engine.value;
                 && G.Shaped(g) && G.Shaped(h) && !G.IsAlive(h, s.id)
                 && if G.IsAlive(g, s.id) then
                      && GameGoes(r, m, h) && g.outOrder + [s.id] <= h.outOrder
                      && s.id in h.outReason && h.outReason[s.id] == G.EndResigned
                    else m == r
            else t == r
  {
    EngineOk(cfg, r);
    Found(cfg, r, i);
    CountedWhileRunning(cfg, r);
    IdsAreDistinct(cfg, r);
    var s, g := r.table.seats[i].value, r.series.engine.value;
    var h := G.Resign(cfg.rules, g, s.id, w.now);
    m := ApplyEliminations(r, g, h);
    hide RoomInv, ApplyEliminations, G.Inv, G.Resign, GameGoes, Occupies, G.IsAlive, Freed, Vacate, G.TableInv;
    P.ResignSheds(cfg.rules, g, s.id, w.now);
    T.GivenUp(cfg.rules, g, s.id, w.now);
    EliminationsAre(cfg, r, h);
    EliminationsSeatNobody(r, g, h);
    SameIds(r.table.seats, m.table.seats);
    VacateFrees(m, i);
    ShapedTable(h);
    EngineAfter(r, g, h);
  }

  lemma EngineAfter(r: Room, g: G.State, h: G.State)
    requires G.Shaped(g) && G.Shaped(h)
    ensures ApplyEliminations(r, g, h).series.engine == Some(h)
  {
  }

  lemma SameIds(a: Seats, b: Seats)
    requires SameChairs(a, b) && IdsDiffer(a)
    ensures IdsDiffer(b)
  {
  }

  /** When windows run out in a game, everybody whose window it was is out of it; until one does the timer does nothing. */
  lemma LapsedAreOut(cfg: Config, r: Room, w: World, i: nat)
    requires RoomInv(cfg, r) && i < |r.table.seats|
    ensures r.series.engine.Some? ==> G.Inv(cfg.rules, r.series.engine.value)
    ensures var t := OnGraceTimer(cfg, r, w);
            && ((forall k :: 0 <= k < |r.table.seats| ==> !Lapsed(r.table.seats[k], w.now)) ==> t == r)
            && (Running(r.series) && Lapsed(r.table.seats[i], w.now) ==> OutOfPlay(t.series, r.table.seats[i].value.id))
            && (!Running(r.series) ==> t.series == r.series)
  {
    hide RoomInv, Lapsed, G.Inv, Expired, OnGraceTimer, OutOfPlay;
    EngineOk(cfg, r);
    var gone := Expired(r.table.seats, |r.table.seats|, w.now);
    if gone != [] { assert Lapsed(r.table.seats[gone[0]], w.now); }
    if Running(r.series) { GraceInGame(cfg, r, w); } else { GraceBetweenGames(cfg, r, w); }
  }

  lemma GraceBetweenGames(cfg: Config, r: Room, w: World)
    requires !Running(r.series) && (r.series.engine.Some? ==> G.Inv(cfg.rules, r.series.engine.value))
    ensures var gone := Expired(r.table.seats, |r.table.seats|, w.now); var t := OnGraceTimer(cfg, r, w);
            t.series == r.series && (gone == [] ==> t == r)
  {
    hide Lapsed, G.Inv, Expired, VacateAll, ResignAll;
    VacateNobody(r);
    VacatedGame(r, Expired(r.table.seats, |r.table.seats|, w.now));
  }

  lemma GraceInGame(cfg: Config, r: Room, w: World)
    requires Running(r.series) && G.Inv(cfg.rules, r.series.engine.value)
    ensures var gone := Expired(r.table.seats, |r.table.seats|, w.now); var t := OnGraceTimer(cfg, r, w);
            && (gone == [] ==> t == r)
            && forall i <- gone :: i < |r.table.seats| && r.table.seats[i].Some? && OutOfPlay(t.series, r.table.seats[i].value.id)
  {
    hide Lapsed, G.Inv, Expired, VacateAll, ResignAll, ApplyEliminations, G.IsAlive, G.TableInv, OutOfPlay;
    var seats, g := r.table.seats, r.series.engine.value;
    var gone := Expired(seats, |seats|, w.now);
    LapsedGiveUp(cfg, r, gone, w.now);
    var t := OnGraceTimer(cfg, r, w);
    VacateNobody(r);
    var h := ResignAll(cfg, g, seats, gone, w.now);
    forall i | i in gone ensures OutOfPlay(t.series, seats[i].value.id) { NotInPlay(t.series, h, seats[i].value.id); }
  }

  lemma NotInPlay(s: Series, h: G.State, id: G.PlayerID)
    requires s.engine == Some(h) && G.TableInv(h) && (h.over || !G.IsAlive(h, id))
    ensures OutOfPlay(s, id)
  {
    forall k | 0 <= k < |h.players| && h.alive[k] && h.players[k] == id ensures G.IsAlive(h, id) {
      assert G.IndexOf(h.players, id) == k;
    }
  }

  lemma LapsedGiveUp(cfg: Config, r: Room, gone: seq<nat>, now: Time)
    requires r.series.engine.Some? && G.Inv(cfg.rules, r.series.engine.value)
    requires forall k :: 0 <= k < |gone| ==> gone[k] < |r.table.seats| && Lapsed(r.table.seats[gone[k]], now)
    ensures G.TableInv(r.series.engine.value) && forall k :: 0 <= k < |gone| ==> r.table.seats[gone[k]].Some?
    ensures var g := r.series.engine.value; var h := ResignAll(cfg, g, r.table.seats, gone, now);
            && G.Shaped(g) && G.Shaped(h) && G.TableInv(h)
            && var m := ApplyEliminations(r, g, h); var t := VacateAll(m, gone);
               && t.series.engine == Some(h) && (gone == [] ==> m == r)
               && (h.over || forall i <- gone :: !G.IsAlive(h, r.table.seats[i].value.id))
  {
    hide ApplyEliminations, Lapsed, VacateAll, ResignAll, G.Inv, G.IsAlive, P.Sheds, G.TableInv;
    var g := r.series.engine.value;
    TableOf(cfg.rules, g);
    forall k | 0 <= k < |gone| ensures r.table.seats[gone[k]].Some? { LapsedIsTaken(r.table.seats[gone[k]], now); }
    ResignAllSheds(cfg, g, r.table.seats, gone, now);
    var h := ResignAll(cfg, g, r.table.seats, gone, now);
    ShapedTable(h);
    EngineAfter(r, g, h);
    VacatedGame(ApplyEliminations(r, g, h), gone);
    if gone == [] { NobodyResigns(cfg, r, g, r.table.seats, now); }
  }

  /** Of the players who were in, only those resign whose windows ran out; anybody else who goes out had no move to make. */
  lemma {:induction false} OnlyTheyResign(cfg: Config, g: G.State, seats: Seats, gone: seq<nat>, now: Time, q: G.PlayerID)
    requires G.TableInv(g) && forall k :: 0 <= k < |gone| ==> gone[k] < |seats| && seats[gone[k]].Some?
    requires forall i <- gone :: seats[i].value.id != q
    ensures var h := ResignAll(cfg, g, seats, gone, now);
            q in h.outReason ==>
              if q in g.outReason then h.outReason[q] == g.outReason[q] else h.outReason[q] == G.EndNoLegalMove
    decreases |gone|
  {
    hide G.Resign, G.TableInv;
    if gone != [] {
      var id := seats[gone[0]].value.id;
      var next := G.Resign(cfg.rules, g, id, now);
      T.OthersHadNoMove(cfg.rules, g, id, now, q);
      P.ResignSheds(cfg.rules, g, id, now);
      StillOut(g, next, q);
      OnlyTheyResign(cfg, next, seats, gone[1..], now, q);
      var h := ResignAll(cfg, g, seats, gone, now);
      assert h == ResignAll(cfg, next, seats, gone[1..], now);
    }
  }

  lemma StillOut(g: G.State, h: G.State, q: G.PlayerID)
    requires G.TableInv(g) && G.TableInv(h) && P.Sheds(g, h)
    ensures q in g.outReason ==> q in h.outReason
  {
    if q in g.outReason { assert q in g.outOrder && q in h.outOrder; }
  }

  lemma NobodyResigns(cfg: Config, r: Room, g: G.State, seats: Seats, now: Time)
    requires G.TableInv(g) && r.series.engine == Some(g)
    ensures ResignAll(cfg, g, seats, [], now) == g && G.Shaped(g) && ApplyEliminations(r, g, g) == r
  {
  }

  lemma VacateNobody(r: Room)
    ensures VacateAll(r, []) == r
  {
  }

  lemma {:induction false} VacatedGame(r: Room, gone: seq<nat>)
    ensures VacateAll(r, gone).series == r.series
    decreases |gone|
  {
    hide Vacate;
    if gone != [] {
      if gone[0] < |r.table.seats| && r.table.seats[gone[0]].Some? {
        VacateLeaves(r, gone[0]);
        VacatedGame(Vacate(r, gone[0]), gone[1..]);
      } else {
        VacatedGame(r, gone[1..]);
      }
    }
  }

  // ----- words -----

  /**
   * A word from whoever sits in a seat, under the current sequence number, is put to the engine: taken, it is the next
   * position, under the next number; too late, it costs its player the turn; refused otherwise, or from anybody else, or
   * under another number, it changes nothing.
   */
  lemma WordIsJudged(cfg: Config, r: Room, i: nat, sess: Session, word: string, turnSeq: nat, w: World)
    requires RoomInv(cfg, r) && !r.closed && Running(r.series) && i < |r.table.seats| && r.table.seats[i].Some?
    ensures G.Inv(cfg.rules, r.series.engine.value)
    ensures var s, g := r.table.seats[i].value, r.series.engine.value;
            var t := OnSubmit(cfg, r, sess, s.id, word, turnSeq, w);
            var answer := G.Judge(cfg.rules, g, s.id, cfg.sanitizeWord(word), w.now);
            && t.series.engine.Some?
            && var h := t.series.engine.value;
               if s.sess == Some(sess) && turnSeq == r.series.turnSeq && answer.Accepted? then
                 && t == r.(series := r.series.(engine := Some(h), turnSeq := r.series.turnSeq + 1))
                 && h.history == g.history + [answer.move] && h.deadline == w.now + cfg.rules.turnLimit
               else if s.sess == Some(sess) && turnSeq == r.series.turnSeq && answer == G.Rejected(G.TimedOut) then
                 G.Shaped(h) && GameGoes(r, t, h) && TurnLost(g, h)
               else t == r
  {
    Found(cfg, r, i);
    CountedWhileRunning(cfg, r);
    EngineOk(cfg, r);
    var s, g, raw := r.table.seats[i].value, r.series.engine.value, cfg.sanitizeWord(word);
    hide RoomInv, Occupies, G.Inv, G.Expire, GameGoes, ApplyEliminations, G.Judge, G.Play;
    JudgedIs(cfg, r, s.id, raw, w);
  }

  lemma JudgedIs(cfg: Config, r: Room, player: G.PlayerID, raw: string, w: World)
    requires RoomInv(cfg, r) && !r.closed && Running(r.series)
    ensures G.Inv(cfg.rules, r.series.engine.value)
    ensures var g, t := r.series.engine.value, Submitted(cfg, r, player, raw, w);
            var answer := G.Judge(cfg.rules, g, player, raw, w.now);
            && t.series.engine.Some?
            && var h := t.series.engine.value;
               if answer.Accepted? then
                 && t == r.(series := r.series.(engine := Some(h), turnSeq := r.series.turnSeq + 1))
                 && h.history == g.history + [answer.move] && h.deadline == w.now + cfg.rules.turnLimit
               else if answer == G.Rejected(G.TimedOut) then G.Shaped(h) && GameGoes(r, t, h) && TurnLost(g, h)
               else t == r
  {
    hide RoomInv, G.Inv, GameGoes, ApplyEliminations, G.Judge, G.Play, G.Expire, P.Answers, P.Sheds, G.TableInv, Running;
    CountedWhileRunning(cfg, r);
    StillOn(r);
    var g := r.series.engine.value;
    var answer := G.Judge(cfg.rules, g, player, raw, w.now);
    P.SubmitIs(cfg.rules, g, player, raw, w.now);
    var h := G.Submit(cfg.rules, g, player, raw, w.now);
    if answer.Accepted? {
      T.PlayMovesOn(cfg.rules, g, answer.move, w.now);
    } else {
      EliminationsAre(cfg, r, h);
      if answer == G.Rejected(G.TimedOut) {
        T.RunningOnly(cfg.rules, g, player, raw, w.now);
        P.ExpireSheds(cfg.rules, g, w.now);
        OutNobodyOrOver(g, h);
        ShapedTable(h);
        LostMoves(r, ApplyEliminations(r, g, h), g, h);
      }
    }
  }

  lemma StillOn(r: Room)
    requires Running(r.series)
    ensures r.series.engine.Some? && !r.series.engine.value.over
  {
  }

  /**
   * What the bot sends under the current sequence number, in its turn, is its move or its going out: a word the engine takes
   * is played; with no word, or one that is refused, the bot is the first to go. Sent at any other time it changes nothing.
   */
  lemma BotAnswers(cfg: Config, r: Room, choice: Option<string>, turnSeq: nat, w: World)
    requires RoomInv(cfg, r) && !r.closed && Running(r.series)
    ensures G.Inv(cfg.rules, r.series.engine.value) && G.Shaped(r.series.engine.value)
    ensures var g, t := r.series.engine.value, OnBotMove(cfg, r, choice, turnSeq, w);
            && t.series.engine.Some?
            && var h := t.series.engine.value;
               if turnSeq != r.series.turnSeq || G.Turn(g) != G.Bot then t == r
               else if choice.Some? && G.Judge(cfg.rules, g, G.Bot, choice.value, w.now).Accepted? then
                 && t == r.(series := r.series.(engine := Some(h), turnSeq := r.series.turnSeq + 1))
                 && h.history == g.history + [G.Judge(cfg.rules, g, G.Bot, choice.value, w.now).move]
               else G.Shaped(h) && GameGoes(r, t, h) && TurnLost(g, h)
  {
    hide RoomInv, G.Inv, GameGoes, ApplyEliminations, G.Judge, G.Submit, G.NoMove, G.Resign, P.Sheds, G.TableInv, Submitted, TurnLost;
    CountedWhileRunning(cfg, r);
    var g := r.series.engine.value;
    if turnSeq == r.series.turnSeq && G.Turn(g) == G.Bot {
      match choice
      case None => BotGivesIn(cfg, r, w);
      case Some(word) =>
        if G.Judge(cfg.rules, g, G.Bot, word, w.now).Accepted? {
          JudgedIs(cfg, r, G.Bot, word, w);
        } else {
          BotRefused(cfg, r, word, w);
        }
    }
  }

  lemma BotGivesIn(cfg: Config, r: Room, w: World)
    requires RoomInv(cfg, r) && !r.closed && Running(r.series)
    ensures G.TableInv(r.series.engine.value)
    ensures var g := r.series.engine.value; var settled := G.NoMove(cfg.rules, g, w.now);
            var h := if settled != g then settled else G.Resign(cfg.rules, g, G.Turn(g), w.now);
            && G.Shaped(g) && G.Shaped(h) && var t := ApplyEliminations(r, g, h);
               GameGoes(r, t, h) && TurnLost(g, h) && t.series.engine == Some(h)
  {
    hide RoomInv, G.Inv, GameGoes, ApplyEliminations, G.Expire, G.Resign, P.Sheds, G.TableInv, TurnLost;
    CountedWhileRunning(cfg, r);
    var g := r.series.engine.value;
    var settled := G.NoMove(cfg.rules, g, w.now);
    NoMoveSheds(cfg.rules, g, w.now);
    if settled != g { P.ExpireSheds(cfg.rules, g, w.now); } else {
      P.ResignSheds(cfg.rules, g, G.Turn(g), w.now);
      T.TurnGivenUp(cfg.rules, g, w.now);
    }
    var h := if settled != g then settled else G.Resign(cfg.rules, g, G.Turn(g), w.now);
    TurnGoes(cfg, r, h);
  }

  /** The turn has been lost: what that makes of the game and the room. */
  lemma TurnGoes(cfg: Config, r: Room, h: G.State)
    requires RoomInv(cfg, r) && !r.closed && Running(r.series)
    requires P.Sheds(r.series.engine.value, h) && G.TableInv(h)
    requires var g := r.series.engine.value;
             && G.Shaped(g) && |g.outOrder| < |h.outOrder| && h.outOrder[|g.outOrder|] == G.Turn(g) && h.turnIndex != g.turnIndex
    ensures var g := r.series.engine.value;
            && G.Shaped(g) && G.Shaped(h) && var t := ApplyEliminations(r, g, h);
               GameGoes(r, t, h) && TurnLost(g, h) && t.series.engine == Some(h)
  {
    hide RoomInv, G.Inv, GameGoes, ApplyEliminations, P.Sheds, G.TableInv, TurnLost;
    CountedWhileRunning(cfg, r);
    var g := r.series.engine.value;
    OutNobodyOrOver(g, h);
    EliminationsAre(cfg, r, h);
    ShapedTable(h);
    LostMoves(r, ApplyEliminations(r, g, h), g, h);
  }

  lemma BotRefused(cfg: Config, r: Room, word: string, w: World)
    requires RoomInv(cfg, r) && !r.closed && Running(r.series)
    ensures G.Inv(cfg.rules, r.series.engine.value) && G.Shaped(r.series.engine.value)
    ensures var g := r.series.engine.value;
            G.Turn(g) == G.Bot && !G.Judge(cfg.rules, g, G.Bot, word, w.now).Accepted? ==>
              var after := G.Submit(cfg.rules, g, G.Bot, word, w.now);
              && G.TableInv(after)
              && var h := G.Resign(cfg.rules, after, G.Bot, w.now);
                 && G.Shaped(h) && var t := ApplyEliminations(r, g, h);
                    GameGoes(r, t, h) && TurnLost(g, h) && t.series.engine == Some(h)
  {
    hide RoomInv, G.Inv, GameGoes, ApplyEliminations, G.Expire, G.Resign, P.Sheds, G.TableInv, TurnLost, G.Examine, G.IsAlive;
    CountedWhileRunning(cfg, r);
    var g := r.series.engine.value;
    P.SubmitIs(cfg.rules, g, G.Bot, word, w.now);
    if G.Turn(g) == G.Bot && !G.Judge(cfg.rules, g, G.Bot, word, w.now).Accepted? {
      var after := G.Submit(cfg.rules, g, G.Bot, word, w.now);
      if after == g {
        P.ResignSheds(cfg.rules, g, G.Bot, w.now);
        T.TurnGivenUp(cfg.rules, g, w.now);
      } else {
        P.ExpireSheds(cfg.rules, g, w.now);
        T.AlreadyOut(cfg.rules, g, w.now, w.now);
      }
      TurnGoes(cfg, r, G.Resign(cfg.rules, after, G.Bot, w.now));
    }
  }

  // ----- the end of a room -----

  /** Closing ends the room: a running game is counted finished, though nobody has won it; everything else stays. */
  lemma CloseEnds(cfg: Config, r: Room)
    requires RoomInv(cfg, r) && !r.closed
    ensures var t := OnClose(r);
            t == r.(closed := true, series := t.series)
            && t.series == if Running(r.series) then r.series.(liveCounted := false, finished := r.series.finished + 1)
                           else r.series
  {
  }

  /** A room is closed by its closing, by the end of a game against the bot, or when its last player has gone; not otherwise. */
  lemma ClosedWhen(cfg: Config, r: Room, input: Input, w: World)
    requires RoomInv(cfg, r) && !r.closed
    ensures |r.table.seats| == MAX_PLAYERS && (r.series.engine.Some? ==> G.Inv(cfg.rules, r.series.engine.value))
    ensures var t := Step(cfg, r, input, w);
            t.closed <==> input.Close? || (r.withBot && Finished(t.series)) || !Occupied(t.table.seats)
  {
    EngineOk(cfg, r);
    HandleMay(cfg, r, input, w);
    var next := Handle(cfg, r, input, w);
    StaysOpen(cfg, r, input, w);
    hide RoomInv, Handle, Occupied, G.Inv, SeatsGo, SeriesGo, OwedGo, EndGo;
  }

  lemma StaysOpen(cfg: Config, r: Room, input: Input, w: World)
    requires |r.table.seats| == MAX_PLAYERS && (r.series.engine.Some? ==> G.Inv(cfg.rules, r.series.engine.value)) && !r.closed
    ensures Handle(cfg, r, input, w).closed <==> input.Close?
  {
    hide TurnOrder, Taken, Occupies, AllConnected, GuestsReady, SeatedCount, TakenNicknames, FreeSeat, Occupied, AtTable,
         Nickname.Distinguished, Opens, Scrub, Say, VacateSeat, Ended, StopCountingLive, Expired, ResignAll, G.Inv, G.Submit,
         G.Resign, G.NoMove, G.Timeout, G.Judge, G.New, SeatOf, Held, Back, VacateAll, G.TableInv, Lapsed;
    if input.GraceTimer? { GraceStaysOpen(cfg, r, w); }
  }

  lemma GraceStaysOpen(cfg: Config, r: Room, w: World)
    requires r.series.engine.Some? ==> G.Inv(cfg.rules, r.series.engine.value)
    ensures OnGraceTimer(cfg, r, w).closed == r.closed
  {
    hide ResignAll, Expired, VacateAll, Ended, StopCountingLive, G.Inv;
    forall q: Room, gone ensures VacateAll(q, gone).closed == q.closed { VacatedOpen(q, gone); }
  }

  lemma {:induction false} VacatedOpen(r: Room, gone: seq<nat>)
    ensures VacateAll(r, gone).closed == r.closed
    decreases |gone|
  {
    hide VacateSeat, Scrub;
    if gone != [] {
      if gone[0] < |r.table.seats| && r.table.seats[gone[0]].Some? {
        VacatedOpen(Vacate(r, gone[0]), gone[1..]);
      } else {
        VacatedOpen(r, gone[1..]);
      }
    }
  }
}
