/** What players can rely on, over any run of a room. */
module RoomTheorems {
  import opened Basics
  import opened RoomRules
  import opened RoomState
  import opened RoomSteps
  import opened RoomHandlers
  import opened RoomRuns
  import G = GameRules
  import P = GameProofs
  import Openings

  // ----- a turn sequence number names one position -----

  /**
   * The sequence number and the position say the same thing: two moments of play have one number exactly when they are one
   * position of one game. So a number is never used twice, and one is never spent on a position that has not changed.
   */
  lemma TurnSeqNamesPosition(cfg: Config, r: Room, events: seq<Event>)
    requires RoomInv(cfg, r)
    ensures var t := Run(cfg, r, events);
            Running(r.series) && Running(t.series) ==>
              (t.series.turnSeq == r.series.turnSeq
               <==> t.series.started == r.series.started && SamePosition(r.series.engine.value, t.series.engine.value))
  {
    RunMay(cfg, r, events);
    var t := Run(cfg, r, events);
    hide RoomInv, Run, SeatsGo, OwedGo, EndGo, SamePosition, MovedOn;
    if Running(r.series) && Running(t.series) {
      StillToAct(cfg, t);
      if SamePosition(r.series.engine.value, t.series.engine.value) {
        NotMovedOn(r.series.engine.value, t.series.engine.value);
      }
    }
  }

  lemma StillToAct(cfg: Config, r: Room)
    requires RoomInv(cfg, r) && Running(r.series)
    ensures var g := r.series.engine.value; g.turnIndex < |g.alive| && g.alive[g.turnIndex]
  {
  }

  lemma NotMovedOn(g: G.State, h: G.State)
    requires SamePosition(g, h) && h.turnIndex < |h.alive| && h.alive[h.turnIndex]
    ensures !MovedOn(g, h)
  {
  }

  /**
   * A word in flight is heard: whatever else has happened in the room, players going out or seats changing among it, as long
   * as the position is the one it was stamped for, it is put to the engine and not refused as late.
   */
  lemma InFlightWordIsHeard(cfg: Config, r: Room, events: seq<Event>, sess: Session, player: G.PlayerID, word: string, w: World)
    requires RoomInv(cfg, r) && Running(r.series) && Running(Run(cfg, r, events).series)
    requires var t := Run(cfg, r, events);
             t.series.started == r.series.started && SamePosition(r.series.engine.value, t.series.engine.value)
             && Occupies(t.table.seats, sess, player)
    ensures var t := Run(cfg, r, events);
            && G.Inv(cfg.rules, t.series.engine.value)
            && OnSubmit(cfg, t, sess, player, word, r.series.turnSeq, w)
               == Submitted(cfg, t, player, cfg.sanitizeWord(word), w)
  {
    hide RoomInv, Run, Submitted, SamePosition, Occupies, G.Inv;
    TurnSeqNamesPosition(cfg, r, events);
    EngineOk(cfg, Run(cfg, r, events));
  }

  /** The moves played so far in the current game. */
  function Moves(s: Series): seq<G.Move> { if s.engine.Some? then s.engine.value.history else [] }

  /** A step on a word is the word put to the engine, and then only if its stamp is the current sequence number. */
  lemma SubmitStep(cfg: Config, r: Room, sess: Session, player: G.PlayerID, word: string, turnSeq: nat, w: World)
    requires RoomInv(cfg, r) && Running(r.series)
    ensures |r.table.seats| == MAX_PLAYERS && G.Inv(cfg.rules, r.series.engine.value)
    ensures var u := Step(cfg, r, Submit(sess, player, word, turnSeq), w);
            Moves(u.series) == Moves(r.series)
            || (turnSeq == r.series.turnSeq
                && Moves(u.series) == Moves(Submitted(cfg, r, player, cfg.sanitizeWord(word), w).series))
  {
    hide RoomInv, Submitted, Occupies, Occupied, G.Inv;
    EngineOk(cfg, r);
  }

  /** The engine takes a word exactly when the history grows, and then by that word. */
  lemma SubmittedMoves(cfg: Config, r: Room, player: G.PlayerID, raw: string, w: World)
    requires RoomInv(cfg, r) && Running(r.series)
    ensures G.Inv(cfg.rules, r.series.engine.value)
    ensures var before := r.series.engine.value;
            var answer := G.Judge(cfg.rules, before, player, raw, w.now);
            Moves(Submitted(cfg, r, player, raw, w).series)
              == if answer.Accepted? then before.history + [answer.move] else before.history
  {
    var before := r.series.engine.value;
    P.SubmitIs(cfg.rules, before, player, raw, w.now);
  }

  /** m is the player to act's answer to the position g, in time. */
  ghost predicate AnswersInTime(g: G.State, m: G.Move, player: G.PlayerID, now: Time) {
    && G.Shaped(g) && m.player == player == G.Turn(g)
    && m.first == g.current && m.word !in g.used && now <= g.deadline
  }

  lemma TakenAnswers(cfg: Config, r: Room, sess: Session, player: G.PlayerID, word: string, turnSeq: nat, w: World)
    requires RoomInv(cfg, r) && Running(r.series)
    ensures |r.table.seats| == MAX_PLAYERS && G.Inv(cfg.rules, r.series.engine.value)
    ensures var moves := Moves(Step(cfg, r, Submit(sess, player, word, turnSeq), w).series);
            moves != Moves(r.series) ==>
              && turnSeq == r.series.turnSeq && moves != [] && moves[..|moves| - 1] == Moves(r.series)
              && AnswersInTime(r.series.engine.value, moves[|moves| - 1], player, w.now)
  {
    SubmitStep(cfg, r, sess, player, word, turnSeq, w);
    var before, raw := r.series.engine.value, cfg.sanitizeWord(word);
    SubmittedMoves(cfg, r, player, raw, w);
    hide RoomInv, Submitted, Step, G.Inv, G.Examine;
    if G.Judge(cfg.rules, before, player, raw, w.now).Accepted? {
      P.AcceptedAnswers(cfg.rules, before, player, raw, w.now);
    }
  }

  /**
   * A word sent under the sequence number of some earlier moment, if it is taken, answers the position of that moment:
   * it is by the player who was to act, links to the syllable then in play, was unspent, and came in time.
   */
  lemma AcceptedAnswersItsStamp(cfg: Config, r: Room, events: seq<Event>, sess: Session, player: G.PlayerID, word: string,
                                w: World)
    requires RoomInv(cfg, r) && Running(r.series) && Running(Run(cfg, r, events).series)
    ensures |Run(cfg, r, events).table.seats| == MAX_PLAYERS && G.Inv(cfg.rules, Run(cfg, r, events).series.engine.value)
    ensures var t := Run(cfg, r, events);
            var moves := Moves(Step(cfg, t, Submit(sess, player, word, r.series.turnSeq), w).series);
            moves != Moves(t.series) ==>
              && moves != [] && moves[..|moves| - 1] == Moves(t.series) == Moves(r.series)
              && AnswersInTime(r.series.engine.value, moves[|moves| - 1], player, w.now)
  {
    var t := Run(cfg, r, events);
    TurnSeqNamesPosition(cfg, r, events);
    TakenAnswers(cfg, t, sess, player, word, r.series.turnSeq, w);
    hide RoomInv, Run, Step, G.Inv;
  }

  // ----- chat is never inherited -----

  lemma {:induction false} HistoryIs(chat: seq<Line>, chatFrom: nat, n: nat)
    requires n <= |chat|
    ensures forall l :: l in History(chat, chatFrom, n) <==> l in chat[..n] && l.seqNo > chatFrom
  {
    if n > 0 {
      HistoryIs(chat, chatFrom, n - 1);
      assert chat[..n] == chat[..n - 1] + [chat[n - 1]];
    }
  }

  /**
   * A seat is replayed exactly the kept lines said since it was filled, and of those it is shown as its own only what
   * was said from that very seat.
   */
  lemma ReplayIsOnesOwnTime(cfg: Config, r: Room, i: nat, l: Line)
    requires RoomInv(cfg, r) && i < |r.table.seats| && r.table.seats[i].Some?
    ensures var s, chat := r.table.seats[i].value, r.talk.chat;
            && (l in History(chat, s.chatFrom, |chat|) <==> l in chat && l.seqNo > s.chatFrom)
            && (l in chat && FromMe(l, s.id) ==> l.speaker == s.serial && l.name == s.nickname
                                                  && l in History(chat, s.chatFrom, |chat|))
  {
    var s, chat := r.table.seats[i].value, r.talk.chat;
    HistoryIs(chat, s.chatFrom, |chat|);
    assert chat[..|chat|] == chat;
    if l in chat && FromMe(l, s.id) {
      assert Attributed(l, r.table.seats);
      SeatOfHuman(r.table.seats, r.table.serials, r.withBot, i);
      SeatOfHuman(r.table.seats, r.table.serials, r.withBot, l.author.seat);
    }
  }

  lemma SpeakerOrNobody(talk: Talk, before: Seats, serials: nat, withBot: bool, after: Seats, i: nat, l: Line)
    requires TalkOk(talk, after) && SeatsOk(before, serials, withBot) && SeatsGo(before, serials, after)
    requires i < |before| && before[i].Some? && l in talk.chat && l.speaker == before[i].value.serial
    requires !(after[i].Some? && after[i].value.serial == l.speaker)
    ensures l.author == G.Nobody && l.name == ""
  {
    assert Attributed(l, after);
    assert SeatOk(before[i].value, i, serials, withBot);
  }

  /** Once a seat has been freed, nothing said from it names anybody, whoever sits there now and whatever their name. */
  lemma DepartedAreForgotten(cfg: Config, r: Room, events: seq<Event>, i: nat, l: Line)
    requires RoomInv(cfg, r) && i < |r.table.seats| && r.table.seats[i].Some?
    ensures var t, serial := Run(cfg, r, events), r.table.seats[i].value.serial;
            && |t.table.seats| == |r.table.seats|
            && (l in t.talk.chat && l.speaker == serial && !(t.table.seats[i].Some? && t.table.seats[i].value.serial == serial)
                ==> l.author == G.Nobody && l.name == "")
  {
    hide TalkOk, SeatsOk, SeatsGo, SeriesOk, SeriesGo, AtTheirSeats, Tallied, NamesDistinct, Owned, Run, AllOwed, OwedGo, EndGo;
    var t, serial := Run(cfg, r, events), r.table.seats[i].value.serial;
    RunMay(cfg, r, events);
    SeatsGoLength(r.table.seats, r.table.serials, t.table.seats);
    if l in t.talk.chat && l.speaker == serial && !(t.table.seats[i].Some? && t.table.seats[i].value.serial == serial) {
      SpeakerOrNobody(t.talk, r.table.seats, r.table.serials, r.withBot, t.table.seats, i, l);
    }
  }

  lemma SeatsGoLength(a: Seats, serials: nat, b: Seats)
    requires SeatsGo(a, serials, b)
    ensures |a| == |b|
  {
  }

  // ----- seats are resumed along their own lineage -----

  /** A resume is taken exactly when it replaces the last connection that sat in that very seat. */
  lemma ResumesItsOwn(cfg: Config, r: Room, i: nat, prior: Session)
    requires RoomInv(cfg, r) && i < |r.table.seats| && r.table.seats[i].Some?
    ensures var s := r.table.seats[i].value;
            Opens(s, prior) <==> s.id != G.Bot && s.sat != [] && s.sat[|s.sat| - 1] == prior
  {
    SeatAt(cfg, r, i);
  }

  /** Whoever is in a seat later was there before, with the same name and the same past, or was seated since. */
  lemma SeatsDoNotChangeHands(cfg: Config, r: Room, events: seq<Event>, i: nat)
    requires RoomInv(cfg, r) && i < |r.table.seats|
    ensures var t := Run(cfg, r, events);
            && |t.table.seats| == |r.table.seats|
            && (t.table.seats[i].Some? ==>
                  var b := t.table.seats[i].value;
                  || b.serial >= r.table.serials
                  || (r.table.seats[i].Some?
                      && var a := r.table.seats[i].value;
                         a.serial == b.serial && a.id == b.id && a.nickname == b.nickname && a.sat <= b.sat))
  {
    hide RoomInv, Run, SeriesGo, OwedGo, EndGo;
    RunMay(cfg, r, events);
  }

  /** A notice from any connection but the last to have sat in the seat changes nothing: only that one can have dropped. */
  lemma StaleNoticesDoNothing(cfg: Config, r: Room, i: nat, sess: Session, w: World)
    requires RoomInv(cfg, r) && i < |r.table.seats| && r.table.seats[i].Some?
    ensures var s := r.table.seats[i].value; var t := OnDisconnect(cfg, r, s.id, sess, w);
            && (t != r <==> s.sess == Some(sess))
            && (t != r ==> s.id != G.Bot && s.sat != [] && s.sat[|s.sat| - 1] == sess)
  {
    SeatAt(cfg, r, i);
    SeatOfHuman(r.table.seats, r.table.serials, r.withBot, i);
    hide RoomInv;
  }

  // ----- a start that is allowed always begins a game -----

  lemma IdsDistinct(seats: Seats, serials: nat, withBot: bool)
    requires SeatsOk(seats, serials, withBot)
    ensures Distinct(Ids(seats)) && |Ids(seats)| == SeatedCount(seats)
  {
    var taken, ids := Taken(seats, |seats|), Ids(seats);
    TakenGrows(seats, |seats|);
    forall j, k | 0 <= j < k < |ids| ensures ids[j] != ids[k] {
      SeatOfHuman(seats, serials, withBot, taken[j]);
      SeatOfHuman(seats, serials, withBot, taken[k]);
    }
  }

  lemma RotateDistinct(ids: seq<G.PlayerID>, lead: nat)
    requires Distinct(ids) && lead <= |ids|
    ensures Distinct(Rotate(ids, lead)) && |Rotate(ids, lead)| == |ids|
  {
  }

  lemma DealtDistinct(seats: Seats, serials: nat, withBot: bool, lead: nat)
    requires SeatsOk(seats, serials, withBot)
    ensures Distinct(TurnOrder(seats, withBot, lead)) && |TurnOrder(seats, withBot, lead)| == SeatedCount(seats)
  {
    hide SeatsOk, Ids, SeatedCount;
    IdsDistinct(seats, serials, withBot);
    var ids := Ids(seats);
    if ids != [] { RotateDistinct(ids, lead % |ids|); }
  }

  /** With two players or more, a game begins exactly when the dictionary has a word to draw. */
  lemma BeginsIff(cfg: Config, r: Room, w: World)
    requires RoomInv(cfg, r) && !Running(r.series) && SeatedCount(r.table.seats) >= MIN_PLAYERS
    requires Openings.Served(cfg.rules.dict)
    ensures Running(Begin(cfg, r, w).series) <==> Openings.SomeWordLeaves(cfg.rules.dict, MIN_OPENING_OUT_DEGREE)
  {
    hide RoomInv, Openings.Served, Openings.SomeWordLeaves, TurnOrder, SeatedCount;
    TableIs(cfg, r);
    TurnLimit(cfg, r);
    DealtDistinct(r.table.seats, r.table.serials, r.withBot, w.lead);
    var ids := TurnOrder(r.table.seats, r.withBot, w.lead);
    Openings.EveryDrawPlays(cfg.rules, MIN_OPENING_OUT_DEGREE, w.draw, ids, w.now);
    if Opening(cfg, w).Some? { NewRuns(cfg.rules, ids, Opening(cfg, w).value, w.now); }
  }

  lemma TurnLimit(cfg: Config, r: Room)
    requires RoomInv(cfg, r)
    ensures cfg.rules.turnLimit > 0
  {
  }

  lemma NewRuns(rules: G.Rules, players: seq<G.PlayerID>, opening: string, now: Time)
    requires G.New(rules, players, opening, now).Started?
    ensures !G.New(rules, players, opening, now).state.over
  {
  }

  /**
   * A start is one that works: with the room between games, a game begins exactly when the owner asks, two or more are
   * seated, all of them connected and every guest ready, the server is not going down, and the dictionary has a word to draw.
   */
  lemma StartBeginsIff(cfg: Config, r: Room, sess: Session, player: G.PlayerID, w: World)
    requires RoomInv(cfg, r) && !Running(r.series) && Openings.Served(cfg.rules.dict)
    ensures var seats := r.table.seats;
            Running(OnStart(cfg, r, sess, player, w).series) <==>
              && Occupies(seats, sess, player) && !r.withBot && player == r.table.owner && !w.draining && TwoSeated(seats)
              && (forall i :: 0 <= i < |seats| && seats[i].Some? ==>
                    seats[i].value.sess.Some? && (seats[i].value.id == r.table.owner || seats[i].value.ready))
              && Openings.SomeWordLeaves(cfg.rules.dict, 20)
  {
    hide RoomInv, Openings.Served, Openings.SomeWordLeaves, Begin, Occupies, SeatedCount, TwoSeated;
    TwoSeatedIff(r.table.seats);
    if SeatedCount(r.table.seats) >= MIN_PLAYERS { BeginsIff(cfg, r, w); }
  }

  // ----- reconnect windows -----

  lemma {:induction false} EarliestIs(seats: Seats, n: nat, now: Time)
    requires n <= |seats|
    ensures (EarliestGrace(seats, n).Some? && EarliestGrace(seats, n).value <= now)
            <==> exists i :: 0 <= i < n && Lapsed(seats[i], now)
  {
    if n > 0 {
      EarliestIs(seats, n - 1, now);
      if i :| 0 <= i < n - 1 && Lapsed(seats[i], now) { assert 0 <= i < n && Lapsed(seats[i], now); }
      if Lapsed(seats[n - 1], now) { assert 0 <= n - 1 < n && Lapsed(seats[n - 1], now); }
    }
  }

  /** The one timer covers every window: it is due exactly when some seat's window has run out. */
  lemma TimerCoversWindows(seats: Seats, now: Time)
    ensures (EarliestGrace(seats, |seats|).Some? && EarliestGrace(seats, |seats|).value <= now)
            <==> Expired(seats, |seats|, now) != []
  {
    EarliestIs(seats, |seats|, now);
    var gone := Expired(seats, |seats|, now);
    if i :| 0 <= i < |seats| && Lapsed(seats[i], now) { assert i in gone; }
    if gone != [] { assert Lapsed(seats[gone[0]], now); }
  }

  lemma {:induction false} VacatedExactly(r: Room, gone: seq<nat>, j: nat)
    requires j < |r.table.seats|
    ensures |VacateAll(r, gone).table.seats| == |r.table.seats|
    ensures var after := VacateAll(r, gone).table.seats[j];
            after.Some? <==> r.table.seats[j].Some? && j !in gone
    ensures var after := VacateAll(r, gone).table.seats[j];
            after.Some? ==> after.value.serial == r.table.seats[j].value.serial
    decreases |gone|
  {
    hide Vacate;
    if gone != [] {
      var i := gone[0];
      assert gone == [i] + gone[1..];
      if i < |r.table.seats| && r.table.seats[i].Some? {
        VacateLeaves(r, i);
        VacatedExactly(Vacate(r, i), gone[1..], j);
      } else {
        VacatedExactly(r, gone[1..], j);
      }
    }
  }

  /** The grace timer frees exactly the seats whose window has run out, and nobody else's. */
  lemma GraceFreesTheLapsed(cfg: Config, r: Room, w: World, j: nat)
    requires RoomInv(cfg, r) && j < |r.table.seats|
    ensures r.series.engine.Some? ==> G.Inv(cfg.rules, r.series.engine.value)
    ensures |OnGraceTimer(cfg, r, w).table.seats| == |r.table.seats|
    ensures var after := OnGraceTimer(cfg, r, w).table.seats[j];
            after.Some? <==> r.table.seats[j].Some? && !Lapsed(r.table.seats[j], w.now)
    ensures var after := OnGraceTimer(cfg, r, w).table.seats[j];
            after.Some? ==> after.value.serial == r.table.seats[j].value.serial
  {
    EngineOk(cfg, r);
    hide RoomInv, ApplyEliminations, Lapsed, VacateAll, ResignAll, G.Inv;
    var seats := r.table.seats;
    var gone := Expired(seats, |seats|, w.now);
    if Running(r.series) {
      var before := r.series.engine.value;
      TableOf(cfg.rules, before);
      forall k | 0 <= k < |gone| ensures seats[gone[k]].Some? { LapsedIsTaken(seats[gone[k]], w.now); }
      var after := ResignAll(cfg, before, seats, gone, w.now);
      ShapedTable(after);
      EliminationsSeatNobody(r, before, after);
      VacatedExactly(ApplyEliminations(r, before, after), gone, j);
    } else {
      VacatedExactly(r, gone, j);
    }
  }

  /** A player who drops out is covered by the timer until they are back: no seat waits for ever. */
  lemma NobodyWaitsForEver(cfg: Config, r: Room, i: nat)
    requires RoomInv(cfg, r) && i < |r.table.seats| && r.table.seats[i].Some?
    ensures var s := r.table.seats[i].value;
            s.id != G.Bot && s.sess.None? ==>
              s.graceUntil.Some? && Lapsed(r.table.seats[i], s.graceUntil.value)
              && Expired(r.table.seats, |r.table.seats|, s.graceUntil.value) != []
  {
    SeatAt(cfg, r, i);
    var s := r.table.seats[i].value;
    if s.id != G.Bot && s.sess.None? {
      assert i in Expired(r.table.seats, |r.table.seats|, s.graceUntil.value);
    }
  }

  // ----- what every room is, however it has been used -----

  /**
   * Whatever happens in a room from the moment it is opened: between people, it has one owner, who is seated and never
   * ready, and no two of its players share a name. Whoever is still in a running game sits where they began it, and
   * nobody is ready. The log is gapless and at most twenty lines, and a line that names anybody names the player still
   * in the seat it was said from, since they sat down.
   */
  lemma RoomsStaySafe(cfg: Config, how: Seating, nickname: string, w: World, events: seq<Event>)
    requires cfg.rules.turnLimit > 0
    ensures RoomInv(cfg, SeatFirst(cfg, how, nickname, w))
    ensures var r := Run(cfg, SeatFirst(cfg, how, nickname, w), events);
            && (how.ToCreate? ==> Owned(r.table.seats, r.table.owner) && NamesDistinct(r.table.seats))
            && AtTheirSeats(r.series, r.table.seats)
            && TalkOk(r.talk, r.table.seats)
  {
    hide SeatFirst, Run, RoomInv, Goes, Owned, NamesDistinct, AtTheirSeats, TalkOk;
    SeatFirstOk(cfg, how, nickname, w);
    var first := SeatFirst(cfg, how, nickname, w);
    OpenedAs(cfg, how, nickname, w);
    RunMay(cfg, first, events);
    SafeStands(cfg, first, Run(cfg, first, events));
  }

  lemma SafeStands(cfg: Config, r: Room, t: Room)
    requires May(cfg, r, t)
    ensures !r.withBot ==> Owned(t.table.seats, t.table.owner) && NamesDistinct(t.table.seats)
    ensures AtTheirSeats(t.series, t.table.seats) && TalkOk(t.talk, t.table.seats)
  {
    hide SeriesOk, Tallied, AllOwed, Owned, NamesDistinct, AtTheirSeats, TalkOk, SeatsGo, SeriesGo, OwedGo;
  }

  lemma OpenedAs(cfg: Config, how: Seating, nickname: string, w: World)
    ensures SeatFirst(cfg, how, nickname, w).withBot <==> how.ToStartBot?
  {
  }

  /**
   * Wins are games won, over any run: each game begun is running or has one winner, the last of them the winner of the
   * game just finished, and a seat's tally is how many of those winners it was.
   */
  lemma WinsAreGamesWon(cfg: Config, how: Seating, nickname: string, w: World, events: seq<Event>, i: nat)
    requires cfg.rules.turnLimit > 0
    ensures RoomInv(cfg, SeatFirst(cfg, how, nickname, w))
    ensures var r := Run(cfg, SeatFirst(cfg, how, nickname, w), events); var s := r.series;
            && s.started == |s.results| + (if Running(s) then 1 else 0)
            && (Finished(s) ==> s.results != [] && s.results[|s.results| - 1] == SerialOf(s.roster, s.engine.value.winner))
            && (i < |r.table.seats| && r.table.seats[i].Some? ==>
                  r.table.seats[i].value.wins == Count(s.results, r.table.seats[i].value.serial))
  {
    hide SeatFirst, Run, RoomInv, Running, Finished, Count;
    SeatFirstOk(cfg, how, nickname, w);
    TallyStands(cfg, Run(cfg, SeatFirst(cfg, how, nickname, w), events));
  }

  lemma TallyStands(cfg: Config, r: Room)
    requires RoomInv(cfg, r)
    ensures var s := r.series;
            && s.started == |s.results| + (if Running(s) then 1 else 0)
            && (Finished(s) ==> s.results != [] && s.results[|s.results| - 1] == SerialOf(s.roster, s.engine.value.winner))
    ensures forall i :: 0 <= i < |r.table.seats| && r.table.seats[i].Some? ==>
      r.table.seats[i].value.wins == Count(r.series.results, r.table.seats[i].value.serial)
  {
    hide TableOk, AtTheirSeats, TalkOk, AllOwed, G.Inv, Count;
  }

  /** A game that ends adds one win to the seat its winner began in, who still sits there, and none to any other. */
  lemma EndCreditsTheWinner(cfg: Config, r: Room, after: G.State, i: nat)
    requires RoomInv(cfg, r) && Running(r.series) && !r.closed
    requires P.Sheds(r.series.engine.value, after) && G.TableInv(after) && after.over
    requires i < |r.table.seats| && r.table.seats[i].Some?
    ensures var t := ApplyEliminations(r, r.series.engine.value, after);
            |t.table.seats| == |r.table.seats| && t.table.seats[i].Some?
            && t.table.seats[i].value.wins == r.table.seats[i].value.wins + (if r.table.seats[i].value.id == after.winner then 1 else 0)
    ensures InSeat(r.table.seats, r.series.roster, after.winner)
  {
    P.ShedsKeepsInv(cfg.rules, r.series.engine.value, after);
    WinnerIsSeated(cfg.rules, r.series, r.table.seats, after);
    CreditKeepsChairs(r.table.seats, after.winner);
    SeatOfHuman(r.table.seats, r.table.serials, r.withBot, i);
  }

  // ----- a result nobody was there to see -----

  /**
   * A player who is away while a game is played, and comes back only once it is over, is shown how it went, whatever ended
   * it and however the room has been used since: until the next game begins, their resume is answered with that game, as
   * it went for them.
   */
  lemma MissedResultIsShown(cfg: Config, r: Room, events: seq<Event>, i: nat, sess: Session, prior: Session, w: World)
    requires RoomInv(cfg, r) && Running(r.series) && i < |r.table.seats| && r.table.seats[i].Some?
    requires r.table.seats[i].value.id != G.Bot && r.table.seats[i].value.sess.None?
    ensures var s, t := r.table.seats[i].value, Run(cfg, r, events);
            && |t.table.seats| == |r.table.seats|
            && (Finished(t.series) && t.series.started == r.series.started
                && t.table.seats[i].Some? && t.table.seats[i].value.serial == s.serial && t.table.seats[i].value.sat == s.sat
                && Opens(t.table.seats[i].value, prior) && sess !in w.dead ==>
                  var final := t.series.engine.value;
                  Replayed(t, s.id, sess, prior, w) == Some(Result(final.winner == s.id, final)))
  {
    hide RoomInv, Run, SeriesGo, OwedGo;
    RunMay(cfg, r, events);
    var s, t := r.table.seats[i].value, Run(cfg, r, events);
    SeatSerial(cfg, r, i);
    if t.table.seats[i].Some? && t.table.seats[i].value.serial == s.serial {
      TableIs(cfg, t);
      SeatOfHuman(t.table.seats, t.table.serials, t.withBot, i);
    }
  }

  lemma SeatSerial(cfg: Config, r: Room, i: nat)
    requires RoomInv(cfg, r) && i < |r.table.seats| && r.table.seats[i].Some?
    ensures r.table.seats[i].value.serial < r.table.serials
  {
    SeatAt(cfg, r, i);
  }

  lemma TableIs(cfg: Config, r: Room)
    requires RoomInv(cfg, r)
    ensures SeatsOk(r.table.seats, r.table.serials, r.withBot)
  {
  }

  /** ... once: the seat they are back in is owed nothing more until another game has been finished. */
  lemma ShownOnce(cfg: Config, r: Room, player: G.PlayerID, sess: Session, prior: Session, w: World)
    requires RoomInv(cfg, r) && Replayed(r, player, sess, prior, w).Some?
    ensures var t := OnResume(cfg, r, player, sess, prior, w); var i := SeatOf(r.table.seats, player);
            i < |t.table.seats| && t.table.seats[i].Some? && t.table.seats[i].value.missed.None?
            && t.table.seats[i].value.sess == Some(sess)
  {
    hide RoomInv;
  }
}
