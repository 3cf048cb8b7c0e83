/** Every input a room takes keeps its invariant and moves it forward. */
module RoomHandlers {
  import opened Basics
  import opened RoomRules
  import opened RoomState
  import opened RoomSteps
  import opened RoomSeating
  import G = GameRules
  import Nickname

  /** t is a state the room may go to from r. */
  ghost predicate May(cfg: Config, r: Room, t: Room) { RoomInv(cfg, t) && Goes(r, t) }

  lemma MayOn(cfg: Config, r: Room, t: Room, u: Room)
    requires May(cfg, r, t) && May(cfg, t, u)
    ensures May(cfg, r, u)
  {
    GoesOn(r, t, u);
  }

  lemma MayStay(cfg: Config, r: Room)
    requires RoomInv(cfg, r)
    ensures May(cfg, r, r)
  {
    GoesNowhere(r);
  }

  lemma SeatAt(cfg: Config, r: Room, i: nat)
    requires RoomInv(cfg, r) && i < |r.table.seats| && r.table.seats[i].Some?
    ensures SeatOk(r.table.seats[i].value, i, r.table.serials, r.withBot)
    ensures !r.withBot ==> r.table.seats[i].value.id == G.Human(i)
  {
  }

  lemma OwedAt(cfg: Config, r: Room, i: nat)
    requires RoomInv(cfg, r) && i < |r.table.seats| && r.table.seats[i].Some?
    ensures Owed(r.table.seats[i].value, r.series)
  {
  }

  // ----- how a room opens -----

  lemma CreatedOk(cfg: Config, sess: Session, nickname: string, autoStart: bool, w: World)
    requires cfg.rules.turnLimit > 0
    ensures RoomInv(cfg, Created(cfg, sess, nickname, autoStart, w)) && !Created(cfg, sess, nickname, autoStart, w).closed
  {
    var r := Created(cfg, sess, nickname, autoStart, w);
    assert r.table.seats[0].Some?;
  }

  lemma CreatedWithBotOk(cfg: Config, sess: Session, nickname: string, w: World)
    requires cfg.rules.turnLimit > 0
    ensures RoomInv(cfg, CreatedWithBot(cfg, sess, nickname, w))
  {
    var r := Opposite(sess, nickname);
    assert RoomInv(cfg, r);
    BeginKeeps(cfg, r, w);
    hide RoomInv, Goes, Begin;
    if sess in w.dead || !Running(Begin(cfg, r, w).series) { CloseKeeps(cfg, r); }
  }

  lemma SeatFirstOk(cfg: Config, how: Seating, nickname: string, w: World)
    requires cfg.rules.turnLimit > 0
    ensures RoomInv(cfg, SeatFirst(cfg, how, nickname, w))
  {
    match how
    case ToCreate(sess, autoStart) => CreatedOk(cfg, sess, nickname, autoStart, w);
    case ToStartBot(sess) => CreatedWithBotOk(cfg, sess, nickname, w);
  }

  /** Nobody has to be seated in a room for it to be one that keeps its rules; whatever it is sent first closes it. */
  lemma UnseatedOk(cfg: Config)
    requires cfg.rules.turnLimit > 0
    ensures RoomInv(cfg, Unseated())
  {
  }

  // ----- seats -----

  /** The seat a joiner is given: nobody else's name, and the conversation only from here on. */
  function Joiner(cfg: Config, r: Room, free: nat, sess: Session, nickname: string, w: World): Seat
    requires |r.table.seats| == MAX_PLAYERS
  {
    var taken := TakenNicknames(r.table.seats);
    Nickname.FewFit(|taken|);
    var s := NewSeat(r.table, free, Nickname.Distinguished(nickname, taken, cfg.space), sess, r.talk.chatSeq);
    if sess in w.dead then Held(s, w.now + cfg.graceFor) else s
  }

  lemma JoinerFits(cfg: Config, r: Room, free: nat, sess: Session, nickname: string, w: World)
    requires |r.table.seats| == MAX_PLAYERS
    ensures Fresh(Joiner(cfg, r, free, sess, nickname, w), free, r.table.serials, r.talk.chatSeq)
    ensures Joiner(cfg, r, free, sess, nickname, w).nickname !in TakenNicknames(r.table.seats)
  {
    var taken := TakenNicknames(r.table.seats);
    Nickname.FewFit(|taken|);
    Nickname.DistinguishedIsFree(nickname, taken, cfg.space);
  }

  lemma JoinIs(cfg: Config, r: Room, sess: Session, nickname: string, w: World)
    requires |r.table.seats| == MAX_PLAYERS
    ensures var t, d, free := OnJoin(cfg, r, sess, nickname, w), r.(autoStart := false), FreeSeat(r.table.seats);
            || t == d
            || (free < |r.table.seats| && Occupied(r.table.seats) && !Running(r.series)
                && var joined := d.(table := TakeSeat(d.table, free, Joiner(cfg, r, free, sess, nickname, w)));
                   t == joined || t == Begin(cfg, joined, w))
  {
    hide Begin, Nickname.Distinguished, Occupied, AtTable, AllConnected, SeatedCount, TakenNicknames, Running;
  }

  lemma JoinKeeps(cfg: Config, r: Room, sess: Session, nickname: string, w: World)
    requires RoomInv(cfg, r) && !r.closed
    ensures May(cfg, r, OnJoin(cfg, r, sess, nickname, w))
  {
    EngineOk(cfg, r);
    DisarmedMay(cfg, r);
    JoinIs(cfg, r, sess, nickname, w);
    hide RoomInv, Goes, May, Begin, OnJoin, Occupied, TakenNicknames, Joiner;
    var t, d, free := OnJoin(cfg, r, sess, nickname, w), r.(autoStart := false), FreeSeat(r.table.seats);
    if t != d {
      JoinerFits(cfg, r, free, sess, nickname, w);
      var s := Joiner(cfg, r, free, sess, nickname, w);
      JoinedMay(cfg, r, d, free, s);
      JoinedBegins(cfg, r, d.(table := TakeSeat(d.table, free, s)), w);
    }
  }

  lemma DisarmedMay(cfg: Config, r: Room)
    requires RoomInv(cfg, r)
    ensures May(cfg, r, r.(autoStart := false))
  {
    GoesNowhere(r);
  }

  lemma JoinedBegins(cfg: Config, r: Room, t: Room, w: World)
    requires May(cfg, r, t) && !Running(t.series) && !t.closed
    ensures May(cfg, r, Begin(cfg, t, w))
  {
    hide RoomInv, Goes, Begin;
    BeginKeeps(cfg, t, w);
    MayOn(cfg, r, t, Begin(cfg, t, w));
  }

  lemma JoinedMay(cfg: Config, r: Room, d: Room, i: nat, s: Seat)
    requires RoomInv(cfg, r) && !Running(r.series) && Occupied(r.table.seats) && d == r.(autoStart := false)
    requires i < |r.table.seats| && r.table.seats[i].None?
    requires Fresh(s, i, r.table.serials, r.talk.chatSeq) && s.nickname !in TakenNicknames(r.table.seats)
    ensures May(cfg, r, d.(table := TakeSeat(d.table, i, s)))
  {
    TakeSeatKeeps(cfg, r, i, s);
    hide TableOk, TalkOk, SeriesOk, AtTheirSeats, Tallied, SeatsGo, SeriesGo, TakeSeat;
  }

  lemma ReadyKeeps(cfg: Config, r: Room, sess: Session, player: G.PlayerID, ready: bool)
    requires RoomInv(cfg, r)
    ensures May(cfg, r, OnReady(r, sess, player, ready))
  {
    hide RoomInv, Goes;
    MayStay(cfg, r);
    if OnReady(r, sess, player, ready) != r {
      var i := SeatOf(r.table.seats, player);
      OwedAt(cfg, r, i);
      ReseatKeeps(cfg, r, i, r.table.seats[i].value.(ready := ready));
    }
  }

  lemma DisconnectKeeps(cfg: Config, r: Room, player: G.PlayerID, sess: Session, w: World)
    requires RoomInv(cfg, r)
    ensures May(cfg, r, OnDisconnect(cfg, r, player, sess, w))
  {
    hide RoomInv, Goes, SameSeat, PresenceOk, Held;
    MayStay(cfg, r);
    if Occupies(r.table.seats, sess, player) {
      var i := SeatOf(r.table.seats, player);
      SeatAt(cfg, r, i);
      HoldsStill(cfg, r, i);
      HeldFits(r.table.seats[i].value, i, r.table.serials, r.withBot, w.now + cfg.graceFor);
      ReseatKeeps(cfg, r, i, Held(r.table.seats[i].value, w.now + cfg.graceFor));
    }
  }

  lemma HeldFits(s: Seat, i: nat, serials: nat, withBot: bool, until: Time)
    requires SeatOk(s, i, serials, withBot) && s.sess.Some?
    ensures SameSeat(s, Held(s, until)) && Held(s, until).ready == s.ready
  {
  }

  /** While a game runs nobody is ready, and an owner never is. */
  lemma HoldsStill(cfg: Config, r: Room, i: nat)
    requires RoomInv(cfg, r) && i < |r.table.seats| && r.table.seats[i].Some?
    ensures r.table.seats[i].value.ready ==> !Running(r.series)
  {
  }

  lemma BackFits(s: Seat, i: nat, serials: nat, withBot: bool, sess: Session, prior: Session)
    requires SeatOk(s, i, serials, withBot) && Opens(s, prior)
    ensures SameSeat(s, Back(s, sess).(missed := None))
    ensures s.missed.None? ==> SameSeat(s, Back(s, sess))
    ensures forall until :: SameSeat(s, Held(Back(s, sess), until))
  {
  }

  lemma ResumeKeeps(cfg: Config, r: Room, player: G.PlayerID, sess: Session, prior: Session, w: World)
    requires RoomInv(cfg, r)
    ensures May(cfg, r, OnResume(cfg, r, player, sess, prior, w))
    ensures var i := SeatOf(r.table.seats, player);
            i < |r.table.seats| && Opens(r.table.seats[i].value, prior) ==>
              var after := OnResume(cfg, r, player, sess, prior, w).table.seats;
              i < |after| && after[i].Some? && after[i].value.sat == r.table.seats[i].value.sat + [sess]
  {
    hide RoomInv, Goes, PresenceOk, SameSeat, Opens;
    MayStay(cfg, r);
    var i := SeatOf(r.table.seats, player);
    if i < |r.table.seats| && Opens(r.table.seats[i].value, prior) {
      var s := r.table.seats[i].value;
      SeatAt(cfg, r, i);
      HoldsStill(cfg, r, i);
      BackFits(s, i, r.table.serials, r.withBot, sess, prior);
      OwedAt(cfg, r, i);
      ReseatKeeps(cfg, r, i, if sess in w.dead then Held(Back(s, sess), w.now + cfg.graceFor)
                             else if Running(r.series) then Back(s, sess) else Back(s, sess).(missed := None));
    }
  }

  lemma KickKeeps(cfg: Config, r: Room, sess: Session, player: G.PlayerID, target: G.PlayerID)
    requires RoomInv(cfg, r)
    ensures May(cfg, r, OnKick(r, sess, player, target))
  {
    hide RoomInv, Goes;
    MayStay(cfg, r);
    if OnKick(r, sess, player, target) != r {
      VacateKeeps(cfg, r, SeatOf(r.table.seats, target));
    }
  }

  lemma ChatKeeps(cfg: Config, r: Room, sess: Session, player: G.PlayerID, text: string)
    requires RoomInv(cfg, r)
    ensures May(cfg, r, OnChat(cfg, r, sess, player, text))
  {
    hide RoomInv, Goes;
    MayStay(cfg, r);
    if Occupies(r.table.seats, sess, player) && !r.withBot {
      var i := SeatOf(r.table.seats, player);
      SeatAt(cfg, r, i);
      SayKeeps(cfg, r, i, cfg.sanitizeChat(text));
    }
  }

  // ----- games -----

  lemma StartKeeps(cfg: Config, r: Room, sess: Session, player: G.PlayerID, w: World)
    requires RoomInv(cfg, r) && !r.closed
    ensures May(cfg, r, OnStart(cfg, r, sess, player, w))
  {
    hide RoomInv, Goes, Begin, Occupies, AllConnected, GuestsReady;
    MayStay(cfg, r);
    if !Running(r.series) { BeginKeeps(cfg, r, w); }
  }

  lemma EngineOk(cfg: Config, r: Room)
    requires RoomInv(cfg, r)
    ensures r.series.engine.Some? ==> G.Inv(cfg.rules, r.series.engine.value)
    ensures |r.table.seats| == MAX_PLAYERS
  {
  }

  lemma SubmitKeeps(cfg: Config, r: Room, sess: Session, player: G.PlayerID, word: string, turnSeq: nat, w: World)
    requires RoomInv(cfg, r) && !r.closed
    ensures May(cfg, r, OnSubmit(cfg, r, sess, player, word, turnSeq, w))
  {
    hide RoomInv, Goes, Occupies, Submitted, G.Inv;
    MayStay(cfg, r);
    EngineOk(cfg, r);
    if r.series.engine.Some? { SubmittedKeeps(cfg, r, player, cfg.sanitizeWord(word), w); }
  }
}
