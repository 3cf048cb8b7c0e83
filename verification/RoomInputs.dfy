/** What each input from the people in a room does, told by who sits where and what has been said. */
module RoomInputs {
  import opened Basics
  import opened RoomRules
  import opened RoomState
  import G = GameRules
  import Nickname

  // ----- what stays as it was -----

  /** Nothing but seat i is different. */
  ghost predicate OnlySeat(r: Room, t: Room, i: nat) {
    && t == r.(table := r.table.(seats := t.table.seats))
    && |t.table.seats| == |r.table.seats|
    && forall k :: 0 <= k < |r.table.seats| && k != i ==> t.table.seats[k] == r.table.seats[k]
  }

  /** The same player in the same place, with the same name, readiness, wins and view of the conversation. */
  predicate SamePlayer(a: Seat, b: Seat) {
    && b.serial == a.serial && b.id == a.id && b.nickname == a.nickname && b.ready == a.ready
    && b.chatFrom == a.chatFrom && b.wins == a.wins
  }

  /** Seat i is found by its player's id, and its connection is whoever sits in it. */
  lemma Found(cfg: Config, r: Room, i: nat)
    requires RoomInv(cfg, r) && i < |r.table.seats| && r.table.seats[i].Some?
    ensures var s := r.table.seats[i].value;
            SeatOf(r.table.seats, s.id) == i && forall sess: Session :: Occupies(r.table.seats, sess, s.id) <==> s.sess == Some(sess)
  {
    SeatOfHuman(r.table.seats, r.table.serials, r.withBot, i);
    hide TalkOk, SeriesOk, AtTheirSeats, Tallied, AllOwed, SeatsOk;
  }

  // ----- presence -----

  /** A seat opens to whoever was the last to sit in it, and to nobody else. */
  lemma OpensToTheLast(cfg: Config, r: Room, i: nat, prior: Session)
    requires RoomInv(cfg, r) && i < |r.table.seats| && r.table.seats[i].Some?
    ensures var s := r.table.seats[i].value; Opens(s, prior) <==> s.sat != [] && s.sat[|s.sat| - 1] == prior
  {
    hide TalkOk, SeriesOk, AtTheirSeats, Tallied, AllOwed, NamesDistinct, Owned;
    assert SeatOk(r.table.seats[i].value, i, r.table.serials, r.withBot);
  }

  /**
   * A resume by whoever was last in a seat puts the new connection in it and closes its window; one that has died meanwhile
   * has the seat held for it under a window of its own. The player is who they were, and nobody else is touched. A resume by
   * anybody else does nothing.
   */
  lemma ResumeSeats(cfg: Config, r: Room, i: nat, sess: Session, prior: Session, w: World)
    requires RoomInv(cfg, r) && i < |r.table.seats| && r.table.seats[i].Some?
    ensures var s := r.table.seats[i].value; var t := OnResume(cfg, r, s.id, sess, prior, w);
            if s.sat == [] || s.sat[|s.sat| - 1] != prior then t == r
            else
              && OnlySeat(r, t, i) && t.table.seats[i].Some?
              && var u := t.table.seats[i].value;
                 && SamePlayer(s, u) && u.sat == s.sat + [sess]
                 && if sess in w.dead then
                      && u.sess.None? && u.heldFor == Some(sess) && u.graceUntil == Some(w.now + cfg.graceFor)
                      && u.missed == s.missed
                    else
                      && Occupies(t.table.seats, sess, s.id) && u.heldFor.None? && u.graceUntil.None?
                      && u.missed == if Running(r.series) then s.missed else None
  {
    hide TalkOk, SeriesOk, AtTheirSeats, Tallied, AllOwed, NamesDistinct, Owned;
    Found(cfg, r, i);
    assert SeatOk(r.table.seats[i].value, i, r.table.serials, r.withBot);
    var t := OnResume(cfg, r, r.table.seats[i].value.id, sess, prior, w);
    if t.table.seats[i] != r.table.seats[i] { FoundStill(r.table.seats, i, t.table.seats); }
  }

  /** A change to a seat that keeps its player's id leaves every seat where it is found. */
  lemma FoundStill(a: Seats, i: nat, b: Seats)
    requires |a| == |b| && i < |a| && a[i].Some? && b[i].Some? && a[i].value.id == b[i].value.id
    requires forall k :: 0 <= k < |a| && k != i ==> a[k] == b[k]
    ensures SeatOf(b, a[i].value.id) == SeatOf(a, a[i].value.id)
  {
  }

  /** A connection that drops from its seat has the seat held for it, for the whole of a window from now. */
  lemma DisconnectHolds(cfg: Config, r: Room, i: nat, sess: Session, w: World)
    requires RoomInv(cfg, r) && i < |r.table.seats| && r.table.seats[i].Some?
    ensures var s := r.table.seats[i].value; var t := OnDisconnect(cfg, r, s.id, sess, w);
            if s.sess != Some(sess) then t == r
            else
              && OnlySeat(r, t, i) && t.table.seats[i].Some?
              && var u := t.table.seats[i].value;
                 && SamePlayer(s, u) && u.sat == s.sat && u.missed == s.missed
                 && u.sess.None? && u.heldFor == Some(sess) && u.graceUntil == Some(w.now + cfg.graceFor)
  {
    hide RoomInv;
    Found(cfg, r, i);
  }

  // ----- the lobby -----

  /** A guest between games is as ready as they say; nobody else's readiness, and nothing else, is changed by it. */
  lemma ReadySets(cfg: Config, r: Room, i: nat, sess: Session, ready: bool)
    requires RoomInv(cfg, r) && i < |r.table.seats| && r.table.seats[i].Some?
    ensures var s := r.table.seats[i].value; var t := OnReady(r, sess, s.id, ready);
            if s.sess == Some(sess) && !r.withBot && !Running(r.series) && s.id != r.table.owner then
              OnlySeat(r, t, i) && t.table.seats[i].Some? && t.table.seats[i].value == s.(ready := ready)
            else t == r
  {
    hide RoomInv;
    Found(cfg, r, i);
  }

  /** What was said by `id` is kept without its author, and everything else as it stands. */
  predicate Forgotten(before: seq<Line>, after: seq<Line>, id: G.PlayerID) {
    && |after| == |before|
    && forall k :: 0 <= k < |before| ==>
         after[k] == if before[k].author == id then Line(before[k].seqNo, G.Nobody, "", before[k].text, before[k].speaker)
                     else before[k]
  }

  /** Who the room goes to when seat i is freed: its owner if they stay, and otherwise the first player left. */
  ghost predicate Inherits(seats: Seats, owner: G.PlayerID, i: nat, heir: G.PlayerID)
    requires i < |seats| && seats[i].Some?
  {
    if owner != seats[i].value.id then heir == owner
    else if forall k :: 0 <= k < |seats| && k != i ==> seats[k].None? then heir == G.Nobody
    else exists j :: 0 <= j < |seats| && j != i && seats[j].Some? && heir == seats[j].value.id
                     && forall k :: 0 <= k < j && k != i ==> seats[k].None?
  }

  /** Seat i is freed: its player is gone, and what they said forgets them; an heir is no longer a guest to be ready. */
  ghost predicate Freed(r: Room, t: Room, i: nat) {
    && i < |r.table.seats| && r.table.seats[i].Some?
    && t == r.(table := t.table, talk := r.talk.(chat := t.talk.chat)) && t.table.serials == r.table.serials
    && |t.table.seats| == |r.table.seats| && t.table.seats[i].None?
    && Forgotten(r.talk.chat, t.talk.chat, r.table.seats[i].value.id)
    && Inherits(r.table.seats, r.table.owner, i, t.table.owner)
    && forall k :: 0 <= k < |r.table.seats| && k != i ==>
         if r.table.seats[k].Some? && r.table.owner == r.table.seats[i].value.id && r.table.seats[k].value.id == t.table.owner
         then t.table.seats[k] == Some(r.table.seats[k].value.(ready := false))
         else t.table.seats[k] == r.table.seats[k]
  }

  lemma {:induction false} FirstTaken(seats: Seats, n: nat)
    requires n <= |seats|
    ensures Taken(seats, n) != [] ==> forall k :: 0 <= k < Taken(seats, n)[0] ==> seats[k].None?
    ensures Taken(seats, n) == [] ==> forall k :: 0 <= k < n ==> seats[k].None?
  {
    if n > 0 { FirstTaken(seats, n - 1); }
  }

  predicate IdsDiffer(seats: Seats) {
    forall j, k :: 0 <= j < k < |seats| && seats[j].Some? && seats[k].Some? ==> seats[j].value.id != seats[k].value.id
  }

  lemma IdsAreDistinct(cfg: Config, r: Room)
    requires RoomInv(cfg, r)
    ensures IdsDiffer(r.table.seats)
  {
    var seats := r.table.seats;
    hide TalkOk, SeriesOk, AtTheirSeats, Tallied, AllOwed, NamesDistinct, Owned, PresenceOk;
    forall j, k | 0 <= j < k < |seats| && seats[j].Some? && seats[k].Some? ensures seats[j].value.id != seats[k].value.id {
      assert SeatOk(seats[j].value, j, r.table.serials, r.withBot) && SeatOk(seats[k].value, k, r.table.serials, r.withBot);
    }
  }

  /** What freeing a seat does to the table. */
  lemma VacatedTo(t: Table, i: nat)
    requires i < |t.seats| && t.seats[i].Some? && IdsDiffer(t.seats)
    ensures var u := VacateSeat(t, i);
            && |u.seats| == |t.seats| && u.serials == t.serials && u.seats[i].None? && Inherits(t.seats, t.owner, i, u.owner)
            && forall k :: 0 <= k < |t.seats| && k != i ==>
                 u.seats[k] == if t.seats[k].Some? && t.owner == t.seats[i].value.id && t.seats[k].value.id == u.owner
                               then Some(t.seats[k].value.(ready := false)) else t.seats[k]
  {
    var freed := t.seats[i := None];
    FirstTaken(freed, |freed|);
    hide Taken;
    if t.owner == t.seats[i].value.id {
      if Taken(freed, |freed|) == [] {
        forall k | 0 <= k < |t.seats| && k != i ensures t.seats[k].None? { assert freed[k].None?; }
      } else {
        var j := Taken(freed, |freed|)[0];
        assert freed[j] == t.seats[j];
        forall k | 0 <= k < j && k != i ensures t.seats[k].None? { assert freed[k].None?; }
      }
    }
  }

  lemma VacateFrees(r: Room, i: nat)
    requires i < |r.table.seats| && r.table.seats[i].Some? && IdsDiffer(r.table.seats)
    ensures Freed(r, Vacate(r, i), i)
  {
    hide Taken, Inherits;
    VacatedTo(r.table, i);
  }

  /** The owner of a lobby frees the seat of a guest who is not ready, and no other; any other kick does nothing. */
  lemma KickFrees(cfg: Config, r: Room, i: nat, j: nat, sess: Session)
    requires RoomInv(cfg, r) && i < |r.table.seats| && r.table.seats[i].Some? && j < |r.table.seats| && r.table.seats[j].Some?
    ensures var s, guest := r.table.seats[i].value, r.table.seats[j].value; var t := OnKick(r, sess, s.id, guest.id);
            if s.sess == Some(sess) && !r.withBot && !Running(r.series) && s.id == r.table.owner && j != i && !guest.ready then
              Freed(r, t, j) && t.table.owner == r.table.owner
            else t == r
  {
    Found(cfg, r, i);
    Found(cfg, r, j);
    IdsAreDistinct(cfg, r);
    VacateFrees(r, j);
    hide RoomInv, Vacate, Forgotten;
  }

  lemma KickNobody(r: Room, sess: Session, player: G.PlayerID, target: G.PlayerID)
    requires SeatOf(r.table.seats, target) == |r.table.seats|
    ensures OnKick(r, sess, player, target) == r
  {
  }

  /** Between games a player who is not ready may leave, and their seat is freed; one who is ready, or not there, stays put. */
  lemma LeaveFrees(cfg: Config, r: Room, i: nat, sess: Session, w: World)
    requires RoomInv(cfg, r) && !Running(r.series) && i < |r.table.seats| && r.table.seats[i].Some?
    ensures r.series.engine.Some? ==> G.Inv(cfg.rules, r.series.engine.value)
    ensures var s := r.table.seats[i].value; var t := OnLeave(cfg, r, sess, s.id, w);
            if s.sess == Some(sess) && !r.withBot && !s.ready then Freed(r, t, i) else t == r
  {
    Found(cfg, r, i);
    IdsAreDistinct(cfg, r);
    VacateFrees(r, i);
    hide Vacate, Freed, TableOk, TalkOk, AtTheirSeats, Tallied, AllOwed, G.Inv;
  }

  /** A start that begins no game changes nothing. */
  lemma StartOrNothing(cfg: Config, r: Room, sess: Session, player: G.PlayerID, w: World)
    requires !Running(r.series)
    ensures var t := OnStart(cfg, r, sess, player, w); Running(t.series) || t == r
  {
    hide Occupies, AllConnected, GuestsReady, SeatedCount, TurnOrder;
    forall players, opening ensures G.New(cfg.rules, players, opening, w.now).Started? ==>
      !G.New(cfg.rules, players, opening, w.now).state.over {}
  }

  // ----- chat -----

  /**
   * What a seated player says is added to the conversation, under their name and the next number, as the filter leaves it;
   * the oldest line goes when there are more than twenty. Nothing else in the room changes.
   */
  lemma ChatSays(cfg: Config, r: Room, i: nat, sess: Session, text: string)
    requires RoomInv(cfg, r) && i < |r.table.seats| && r.table.seats[i].Some?
    ensures var s, said := r.table.seats[i].value, cfg.sanitizeChat(text); var t := OnChat(cfg, r, sess, s.id, text);
            if s.sess == Some(sess) && !r.withBot && said != "" then
              && t == r.(talk := t.talk) && t.talk.chatSeq == r.talk.chatSeq + 1 && t.talk.chat != []
              && t.talk.chat[|t.talk.chat| - 1] == Line(r.talk.chatSeq + 1, s.id, s.nickname, said, s.serial)
              && t.talk.chat[..|t.talk.chat| - 1] == if |r.talk.chat| < 20 then r.talk.chat else r.talk.chat[1..]
            else t == r
  {
    hide TableOk, SeriesOk, AtTheirSeats, Tallied, AllOwed, Occupies, SeatOf;
    Found(cfg, r, i);
  }

  // ----- taking a seat -----

  /** A newcomer's seat: theirs, under a free name, seeing only what is said from here on; held at once if they have gone. */
  ghost predicate Newcomer(cfg: Config, r: Room, i: nat, sess: Session, nickname: string, w: World, s: Seat) {
    && s.id == G.Human(i) && s.serial == r.table.serials && s.sat == [sess] && s.wins == 0 && !s.ready && s.missed.None?
    && s.chatFrom == r.talk.chatSeq
    && (nickname !in TakenNicknames(r.table.seats) ==> s.nickname == nickname)
    && s.nickname !in TakenNicknames(r.table.seats)
    && if sess in w.dead then s.sess.None? && s.heldFor == Some(sess) && s.graceUntil == Some(w.now + cfg.graceFor)
       else s.sess == Some(sess) && s.heldFor.None? && s.graceUntil.None?
  }

  /** Room for one more: a free seat in an occupied room between games, for somebody who is not in it already. */
  predicate Open(r: Room, sess: Session) {
    && (exists i :: 0 <= i < |r.table.seats| && r.table.seats[i].None?)
    && (exists i :: 0 <= i < |r.table.seats| && r.table.seats[i].Some?)
    && !Running(r.series)
    && (forall i :: 0 <= i < |r.table.seats| && r.table.seats[i].Some? ==> r.table.seats[i].value.sess != Some(sess))
  }

  lemma OpenIs(r: Room, sess: Session)
    ensures Open(r, sess) <==>
            && FreeSeat(r.table.seats) < |r.table.seats| && Occupied(r.table.seats) && !Running(r.series)
            && !AtTable(r.table.seats, sess)
  {
  }

  /**
   * Whoever joins an open room gets its first free seat, and nobody else's seat changes, unless a matched pair are both
   * there now and their game begins; whoever may not is turned away. Either way the room starts no game by itself again.
   */
  lemma JoinSeats(cfg: Config, r: Room, sess: Session, nickname: string, w: World)
    requires RoomInv(cfg, r)
    ensures |r.table.seats| == MAX_PLAYERS
    ensures var t := OnJoin(cfg, r, sess, nickname, w); var i := FreeSeat(r.table.seats);
            if !Open(r, sess) then t == r.(autoStart := false)
            else
              && |t.table.seats| == |r.table.seats| && t.table.seats[i].Some?
              && (Running(t.series) ==>
                    r.autoStart && sess !in w.dead && !w.draining
                    && forall k :: 0 <= k < |r.table.seats| && r.table.seats[k].Some? ==> r.table.seats[k].value.sess.Some?)
              && (!Running(t.series) ==>
                    && t == r.(autoStart := false, table := r.table.(seats := t.table.seats, serials := r.table.serials + 1))
                    && Newcomer(cfg, r, i, sess, nickname, w, t.table.seats[i].value)
                    && forall k :: 0 <= k < |r.table.seats| && k != i ==> t.table.seats[k] == r.table.seats[k])
  {
    hide TalkOk, SeriesOk, AtTheirSeats, Tallied, AllOwed, NamesDistinct, Owned, Occupied, AtTable, JoinedAt, Newcomer, Running, Open;
    OpenIs(r, sess);
    if Open(r, sess) { JoinedSeat(cfg, r, FreeSeat(r.table.seats), sess, nickname, w); }
  }

  lemma JoinedSeat(cfg: Config, r: Room, i: nat, sess: Session, nickname: string, w: World)
    requires |r.table.seats| == MAX_PLAYERS && i < |r.table.seats| && r.table.seats[i].None? && !Running(r.series)
    ensures var t := JoinedAt(cfg, r.(autoStart := false), i, sess, nickname, r.autoStart, w);
            && |t.table.seats| == |r.table.seats| && t.table.seats[i].Some?
            && (Running(t.series) ==>
                  r.autoStart && sess !in w.dead && !w.draining
                  && forall k :: 0 <= k < |r.table.seats| && r.table.seats[k].Some? ==> r.table.seats[k].value.sess.Some?)
            && (!Running(t.series) ==>
                  && t == r.(autoStart := false, table := r.table.(seats := t.table.seats, serials := r.table.serials + 1))
                  && Newcomer(cfg, r, i, sess, nickname, w, t.table.seats[i].value)
                  && forall k :: 0 <= k < |r.table.seats| && k != i ==> t.table.seats[k] == r.table.seats[k])
  {
    hide Begin, TakenNicknames, SeatedCount, Nickname.FirstFree, AllConnected;
    var taken := TakenNicknames(r.table.seats);
    Nickname.FewFit(|taken|);
    Nickname.DistinguishedIsFree(nickname, taken, cfg.space);
    var joined := JoinedAt(cfg, r.(autoStart := false), i, sess, nickname, false, w);
    BeginsOrNot(cfg, joined, w);
    OthersConnected(r.table.seats, i, joined.table.seats);
  }

  lemma OthersConnected(a: Seats, i: nat, b: Seats)
    requires |a| == |b| && i < |a| && a[i].None? && forall k :: 0 <= k < |a| && k != i ==> b[k] == a[k]
    ensures AllConnected(b) ==> forall k :: 0 <= k < |a| && a[k].Some? ==> a[k].value.sess.Some?
  {
    forall k | 0 <= k < |a| && a[k].Some? && AllConnected(b) ensures a[k].value.sess.Some? { assert b[k] == a[k]; }
  }

  lemma BeginsOrNot(cfg: Config, r: Room, w: World)
    requires !Running(r.series)
    ensures var t := Begin(cfg, r, w);
            && |t.table.seats| == |r.table.seats| && (!Running(t.series) ==> t == r)
            && forall k :: 0 <= k < |r.table.seats| && r.table.seats[k].Some? ==> t.table.seats[k].Some?
  {
    hide TurnOrder;
    forall players, opening ensures G.New(cfg.rules, players, opening, w.now).Started? ==>
      !G.New(cfg.rules, players, opening, w.now).state.over {}
  }

  /** Whoever creates a room is alone in it and owns it, connected, or held a window if they have gone already. */
  lemma CreatorOwns(cfg: Config, sess: Session, nickname: string, autoStart: bool, w: World)
    ensures var r := Created(cfg, sess, nickname, autoStart, w);
            && |r.table.seats| == MAX_PLAYERS && r.table.seats[0].Some? && r.table.seats[1..] == [None, None, None]
            && r.table.owner == G.Human(0) && r.table.serials == 1 && r.autoStart == autoStart && !r.withBot && !r.closed
            && r.series.engine.None? && r.talk == Talk([], 0)
            && Newcomer(cfg, Unseated(), 0, sess, nickname, w, r.table.seats[0].value)
            && r.table.seats[0].value.nickname == nickname
  {
    assert TakenNicknames(Unseated().table.seats) == [] by {
      var seats := Unseated().table.seats;
      TakenIsNonempty(seats, |seats|);
    }
  }

  /**
   * A player against the bot sits in the first seat of a room of their own, the bot opposite and nobody else; the room is open
   * exactly while its game is on, and is not opened for a player who has gone.
   */
  lemma BotRoomSeats(cfg: Config, sess: Session, nickname: string, w: World)
    ensures var r := CreatedWithBot(cfg, sess, nickname, w);
            && r.withBot && |r.table.seats| == MAX_PLAYERS && r.table.owner == G.Human(0) && r.talk == Talk([], 0)
            && r.table.seats[0].Some? && r.table.seats[1].Some? && r.table.seats[2..] == [None, None]
            && var player, bot := r.table.seats[0].value, r.table.seats[1].value;
               && player.id == G.Human(0) && player.sess == Some(sess) && player.nickname == nickname && player.sat == [sess]
               && bot.id == G.Bot && bot.nickname == "Máy" && bot.sess.None? && bot.sat == [] && bot.serial != player.serial
               && player.wins == bot.wins == 0 && !player.ready && !bot.ready
    ensures var r := CreatedWithBot(cfg, sess, nickname, w);
            (r.closed <==> !Running(r.series)) && (sess in w.dead ==> r.closed)
  {
    hide TurnOrder, Roster;
    forall players, opening ensures G.New(cfg.rules, players, opening, w.now).Started? ==>
      !G.New(cfg.rules, players, opening, w.now).state.over {}
  }
}
