/** Filling, holding and freeing seats, and speaking from them, keep a room's invariant. */
module RoomSeating {
  import opened Basics
  import opened RoomRules
  import opened RoomState
  import opened RoomSteps
  import G = GameRules

  // ----- a seat is filled -----

  lemma {:induction false} TakenLists(seats: Seats, n: nat, i: nat)
    requires i < n <= |seats| && seats[i].Some?
    ensures i in Taken(seats, n)
  {
    if i < n - 1 { TakenLists(seats, n - 1, i); }
  }

  lemma NameIsTaken(seats: Seats, i: nat)
    requires i < |seats| && seats[i].Some?
    ensures seats[i].value.nickname in TakenNicknames(seats)
  {
    var taken := Taken(seats, |seats|);
    TakenLists(seats, |seats|, i);
    var k :| 0 <= k < |taken| && taken[k] == i;
    assert TakenNicknames(seats)[k] == seats[i].value.nickname;
  }

  lemma {:induction false} CountNone(results: seq<nat>, serials: nat)
    requires forall x <- results :: x < serials
    ensures Count(results, serials) == 0
  {
    if results != [] {
      var front, last := results[..|results| - 1], results[|results| - 1];
      assert results == front + [last] && last in results;
      forall x | x in front ensures x < serials { assert x in results; }
      CountNone(front, serials);
    }
  }

  /** s is what a newly filled seat i holds, connected or already waiting. */
  ghost predicate Fresh(s: Seat, i: nat, serial: nat, chatFrom: nat) {
    && s.serial == serial && s.id == G.Human(i) && s.chatFrom == chatFrom && s.wins == 0 && !s.ready && PresenceOk(s)
    && s.missed.None?
  }

  lemma TakeSeatSeats(withBot: bool, t: Table, i: nat, s: Seat)
    requires SeatsOk(t.seats, t.serials, withBot) && i < |t.seats| && t.seats[i].None?
    requires Fresh(s, i, t.serials, s.chatFrom)
    ensures SeatsOk(TakeSeat(t, i, s).seats, t.serials + 1, withBot)
    ensures SeatsGo(t.seats, t.serials, TakeSeat(t, i, s).seats)
  {
    var seats := TakeSeat(t, i, s).seats;
    forall j | 0 <= j < |seats| && seats[j].Some? ensures SeatOk(seats[j].value, j, t.serials + 1, withBot) {
      if j != i { assert SeatOk(t.seats[j].value, j, t.serials, withBot); }
    }
  }

  lemma TakeSeatNames(seats: Seats, i: nat, s: Seat)
    requires NamesDistinct(seats) && i < |seats| && seats[i].None? && s.nickname !in TakenNicknames(seats)
    ensures NamesDistinct(seats[i := Some(s)])
  {
    forall j | 0 <= j < |seats| && seats[j].Some? ensures seats[j].value.nickname != s.nickname {
      NameIsTaken(seats, j);
    }
  }

  lemma TakeSeatOwner(seats: Seats, i: nat, s: Seat, owner: G.PlayerID)
    requires Owned(seats, owner) && Occupied(seats) && i < |seats| && seats[i].None?
    ensures Owned(seats[i := Some(s)], owner)
  {
    assert Occupied(seats[i := Some(s)]) by { assert seats[i := Some(s)][i].Some?; }
  }

  lemma TakeSeatTable(withBot: bool, t: Table, i: nat, s: Seat)
    requires TableOk(withBot, t) && Occupied(t.seats) && i < |t.seats| && t.seats[i].None?
    requires Fresh(s, i, t.serials, s.chatFrom) && s.nickname !in TakenNicknames(t.seats)
    ensures TableOk(withBot, TakeSeat(t, i, s)) && SeatsGo(t.seats, t.serials, TakeSeat(t, i, s).seats)
  {
    hide SeatsOk, NamesDistinct, Owned, SeatsGo, TakenNicknames, Occupied, Fresh;
    TakeSeatSeats(withBot, t, i, s);
    if !withBot {
      TakeSeatNames(t.seats, i, s);
      TakeSeatOwner(t.seats, i, s, t.owner);
    }
  }

  lemma TakeSeatTalk(talk: Talk, seats: Seats, i: nat, s: Seat)
    requires TalkOk(talk, seats) && i < |seats| && seats[i].None? && s.chatFrom == talk.chatSeq
    ensures TalkOk(talk, seats[i := Some(s)])
  {
    forall l | l in talk.chat ensures Attributed(l, seats[i := Some(s)]) {
      assert Attributed(l, seats);
    }
  }

  lemma TakeSeatTally(results: seq<nat>, seats: Seats, serials: nat, i: nat, s: Seat)
    requires Tallied(results, seats, serials) && i < |seats| && s.serial == serials && s.wins == 0
    ensures Tallied(results, seats[i := Some(s)], serials + 1)
  {
    CountNone(results, serials);
  }

  /** A change to one seat, which is owed nothing now, leaves what the others are owed. */
  lemma OthersAreOwed(seats: Seats, serials: nat, series: Series, i: nat, s: Option<Seat>)
    requires AllOwed(seats, series) && i < |seats| && (s.Some? ==> Owed(s.value, series))
    requires seats[i].None? || s.None? || StillOwed(seats[i].value, s.value)
    ensures AllOwed(seats[i := s], series) && OwedGo(seats, serials, seats[i := s])
  {
    var after := seats[i := s];
    forall j | 0 <= j < |after| && after[j].Some? ensures Owed(after[j].value, series) {
      if j != i { assert Owed(seats[j].value, series); }
    }
  }

  lemma TakeSeatKeeps(cfg: Config, r: Room, i: nat, s: Seat)
    requires RoomInv(cfg, r) && !Running(r.series) && Occupied(r.table.seats)
    requires i < |r.table.seats| && r.table.seats[i].None?
    requires Fresh(s, i, r.table.serials, r.talk.chatSeq) && s.nickname !in TakenNicknames(r.table.seats)
    ensures RoomInv(cfg, r.(table := TakeSeat(r.table, i, s))) && Goes(r, r.(table := TakeSeat(r.table, i, s)))
  {
    hide TableOk, TalkOk, Tallied, SeatsGo, AllOwed, OwedGo;
    OthersAreOwed(r.table.seats, r.table.serials, r.series, i, Some(s));
    TakeSeatTable(r.withBot, r.table, i, s);
    TakeSeatTalk(r.talk, r.table.seats, i, s);
    TakeSeatTally(r.series.results, r.table.seats, r.table.serials, i, s);
  }

  // ----- a seat changes hands, or its readiness -----

  /** b is a with another presence or readiness: the same seat, whoever has sat in it before. */
  ghost predicate SameSeat(a: Seat, b: Seat) {
    && b == a.(sess := b.sess, heldFor := b.heldFor, graceUntil := b.graceUntil, sat := b.sat, ready := b.ready,
               missed := b.missed)
    && a.sat <= b.sat && (PresenceOk(a) ==> PresenceOk(b)) && (a.sess.None? && b.sess.Some? ==> a.sat < b.sat)
    && StillOwed(a, b) && (b.missed.Some? ==> b.sess.None?)
  }

  /** A result kept for a seat is dropped only when somebody is back in it. */
  ghost predicate StillOwed(a: Seat, b: Seat) {
    b.missed == a.missed || (b.missed.None? && a.sat < b.sat)
  }

  lemma ReseatTable(withBot: bool, t: Table, i: nat, s: Seat)
    requires TableOk(withBot, t) && i < |t.seats| && t.seats[i].Some? && SameSeat(t.seats[i].value, s)
    requires s.ready ==> t.seats[i].value.ready || t.owner != s.id
    ensures TableOk(withBot, t.(seats := t.seats[i := Some(s)]))
    ensures SeatsGo(t.seats, t.serials, t.seats[i := Some(s)])
  {
    var seats := t.seats[i := Some(s)];
    assert SeatOk(t.seats[i].value, i, t.serials, withBot);
    forall j | 0 <= j < |seats| && seats[j].Some? ensures SeatOk(seats[j].value, j, t.serials, withBot) {
      assert SeatOk(t.seats[j].value, j, t.serials, withBot);
    }
    assert Occupied(t.seats) && Occupied(seats) by { assert t.seats[i].Some? && seats[i].Some?; }
  }

  lemma ReseatTalk(talk: Talk, seats: Seats, i: nat, s: Seat)
    requires TalkOk(talk, seats) && i < |seats| && seats[i].Some? && SameSeat(seats[i].value, s)
    ensures TalkOk(talk, seats[i := Some(s)])
  {
    forall l | l in talk.chat ensures Attributed(l, seats[i := Some(s)]) {
      assert Attributed(l, seats);
    }
  }

  lemma {:induction false} ReseatFound(seats: Seats, i: nat, s: Seat, p: G.PlayerID, lo: nat)
    requires i < |seats| && seats[i].Some? && s.id == seats[i].value.id && lo <= |seats|
    ensures SeatFrom(seats[i := Some(s)], p, lo) == SeatFrom(seats, p, lo)
    decreases |seats| - lo
  {
    if lo < |seats| { ReseatFound(seats, i, s, p, lo + 1); }
  }

  lemma ReseatGame(series: Series, seats: Seats, i: nat, s: Seat)
    requires AtTheirSeats(series, seats) && i < |seats| && seats[i].Some? && SameSeat(seats[i].value, s)
    requires s.ready ==> !Running(series)
    ensures AtTheirSeats(series, seats[i := Some(s)])
  {
    if Running(series) {
      var e := series.engine.value;
      forall k | 0 <= k < |e.players| && e.alive[k] ensures InSeat(seats[i := Some(s)], series.roster, e.players[k]) {
        assert InSeat(seats, series.roster, e.players[k]);
        ReseatFound(seats, i, s, e.players[k], 0);
      }
    }
  }

  lemma SameIsOwed(r: Room, i: nat, s: Seat)
    requires AllOwed(r.table.seats, r.series) && i < |r.table.seats| && r.table.seats[i].Some?
    requires SameSeat(r.table.seats[i].value, s)
    ensures Owed(s, r.series)
  {
    assert Owed(r.table.seats[i].value, r.series);
  }

  lemma ReseatKeeps(cfg: Config, r: Room, i: nat, s: Seat)
    requires RoomInv(cfg, r) && i < |r.table.seats| && r.table.seats[i].Some? && SameSeat(r.table.seats[i].value, s)
    requires s.ready ==> !Running(r.series) && (r.table.seats[i].value.ready || r.table.owner != s.id)
    ensures RoomInv(cfg, Reseat(r, i, s)) && Goes(r, Reseat(r, i, s))
  {
    hide TableOk, TalkOk, SeatsGo, AtTheirSeats, AllOwed, OwedGo;
    SameIsOwed(r, i, s);
    OthersAreOwed(r.table.seats, r.table.serials, r.series, i, Some(s));
    ReseatTable(r.withBot, r.table, i, s);
    ReseatTalk(r.talk, r.table.seats, i, s);
    ReseatGame(r.series, r.table.seats, i, s);
  }

  // ----- a seat is freed -----

  lemma PromoteKeeps(t: Table)
    ensures SameChairs(t.seats, Promote(t).seats) && Promote(t).serials == t.serials
    ensures forall i :: 0 <= i < |t.seats| && t.seats[i].Some? ==>
      Promote(t).seats[i].value.wins == t.seats[i].value.wins
      && Promote(t).seats[i].value.missed == t.seats[i].value.missed
      && (Promote(t).seats[i].value.ready ==> t.seats[i].value.ready)
  {
  }

  lemma PromoteOwns(t: Table)
    requires SeatsOk(t.seats, t.serials, false)
    ensures Owned(Promote(t).seats, Promote(t).owner)
  {
    var taken := Taken(t.seats, |t.seats|);
    PromoteKeeps(t);
    if Occupied(t.seats) {
      var i :| 0 <= i < |t.seats| && t.seats[i].Some?;
      TakenLists(t.seats, |t.seats|, i);
      assert SeatOk(t.seats[taken[0]].value, taken[0], t.serials, false);
      assert Promote(t).seats[taken[0]].Some?;
    }
  }

  lemma FreedSeats(seats: Seats, serials: nat, withBot: bool, i: nat)
    requires SeatsOk(seats, serials, withBot) && i < |seats|
    ensures SeatsOk(seats[i := None], serials, withBot) && SeatsGo(seats, serials, seats[i := None])
    ensures NamesDistinct(seats) ==> NamesDistinct(seats[i := None])
  {
    var left := seats[i := None];
    forall j | 0 <= j < |left| && left[j].Some? ensures SeatOk(left[j].value, j, serials, withBot) {
      assert SeatOk(seats[j].value, j, serials, withBot);
    }
  }

  lemma FreedOwner(seats: Seats, serials: nat, i: nat, owner: G.PlayerID)
    requires SeatsOk(seats, serials, false) && Owned(seats, owner) && i < |seats| && seats[i].Some?
    requires owner != seats[i].value.id
    ensures Owned(seats[i := None], owner)
  {
    assert SeatOk(seats[i].value, i, serials, false);
    assert Occupied(seats) && seats[i := None][owner.seat].Some?;
  }

  lemma PromotedTable(withBot: bool, t: Table)
    requires SeatsOk(t.seats, t.serials, withBot) && (!withBot ==> NamesDistinct(t.seats))
    ensures TableOk(withBot, Promote(t)) && SameChairs(t.seats, Promote(t).seats)
    ensures SeatsGo(t.seats, t.serials, Promote(t).seats)
  {
    PromoteKeeps(t);
    SameChairsOk(t.seats, Promote(t).seats, t.serials, withBot);
    SameChairsGo(t.seats, t.serials, Promote(t).seats);
    if !withBot { PromoteOwns(t); }
  }

  lemma SameChairsSelf(seats: Seats)
    ensures SameChairs(seats, seats)
  {
  }

  /** Freeing a seat leaves the others as they were, and the room with an owner if anybody is left to own it. */
  lemma VacateTable(withBot: bool, t: Table, i: nat)
    requires TableOk(withBot, t) && i < |t.seats| && t.seats[i].Some?
    ensures TableOk(withBot, VacateSeat(t, i)) && SeatsGo(t.seats, t.serials, VacateSeat(t, i).seats)
    ensures SameChairs(t.seats[i := None], VacateSeat(t, i).seats)
  {
    hide SeatsOk, NamesDistinct, Owned, SeatsGo, SameChairs, Promote;
    var freed := t.(seats := t.seats[i := None]);
    FreedSeats(t.seats, t.serials, withBot, i);
    if t.owner == t.seats[i].value.id {
      PromotedTable(withBot, freed);
      PromoteKeeps(freed);
      SeatsGoOn(t.seats, t.serials, freed.seats, t.serials, Promote(freed).seats);
    } else {
      SameChairsSelf(freed.seats);
      if !withBot { FreedOwner(t.seats, t.serials, i, t.owner); }
    }
  }

  lemma VacateTalk(talk: Talk, seats: Seats, serials: nat, withBot: bool, i: nat, left: Seats)
    requires TalkOk(talk, seats) && SeatsOk(seats, serials, withBot) && i < |seats| && seats[i].Some?
    requires SameChairs(seats[i := None], left)
    ensures TalkOk(talk.(chat := Scrub(talk.chat, seats[i].value.id)), left)
  {
    var id := seats[i].value.id;
    var scrubbed := Scrub(talk.chat, id);
    forall l | l in scrubbed ensures Attributed(l, left) {
      var k :| 0 <= k < |scrubbed| && scrubbed[k] == l;
      var was := talk.chat[k];
      assert was in talk.chat && Attributed(was, seats);
      if was.author != id && was.author != G.Nobody {
        SeatOfHuman(seats, serials, withBot, was.author.seat);
        assert was.author.seat != i;
      }
    }
    forall j | 0 <= j < |left| && left[j].Some? ensures left[j].value.chatFrom <= talk.chatSeq {
      assert seats[j].Some?;
    }
  }

  /** Nobody still in a running game sits in seat i. */
  ghost predicate OutOfPlay(series: Series, id: G.PlayerID) {
    Running(series) ==>
      && |series.engine.value.alive| == |series.engine.value.players|
      && forall k :: 0 <= k < |series.engine.value.players| && series.engine.value.alive[k] ==>
           series.engine.value.players[k] != id
  }

  lemma {:induction false} VacateFound(seats: Seats, i: nat, p: G.PlayerID, lo: nat)
    requires i < |seats| && seats[i].Some? && seats[i].value.id != p && lo <= |seats|
    ensures SeatFrom(seats[i := None], p, lo) == SeatFrom(seats, p, lo)
    decreases |seats| - lo
  {
    if lo < |seats| { VacateFound(seats, i, p, lo + 1); }
  }

  lemma VacateGame(series: Series, seats: Seats, i: nat, left: Seats)
    requires AtTheirSeats(series, seats) && i < |seats| && seats[i].Some? && OutOfPlay(series, seats[i].value.id)
    requires SameChairs(seats[i := None], left)
    requires forall j :: 0 <= j < |left| && left[j].Some? && left[j].value.ready ==> seats[j].value.ready
    ensures AtTheirSeats(series, left)
  {
    if Running(series) {
      var e := series.engine.value;
      forall k | 0 <= k < |e.players| && e.alive[k] ensures InSeat(left, series.roster, e.players[k]) {
        assert InSeat(seats, series.roster, e.players[k]);
        VacateFound(seats, i, e.players[k], 0);
        SameChairsInSeat(seats[i := None], left, series.roster, e.players[k]);
      }
    }
  }

  lemma VacateTally(results: seq<nat>, seats: Seats, serials: nat, i: nat, left: Seats)
    requires Tallied(results, seats, serials) && i < |seats| && SameChairs(seats[i := None], left)
    requires forall j :: 0 <= j < |left| && left[j].Some? ==> left[j].value.wins == seats[j].value.wins
    ensures Tallied(results, left, serials)
  {
    forall j | 0 <= j < |left| && left[j].Some? ensures left[j].value.wins == Count(results, left[j].value.serial) {
      assert seats[i := None][j].Some?;
    }
  }

  lemma VacatedFlags(t: Table, i: nat)
    requires i < |t.seats| && t.seats[i].Some?
    ensures var left := VacateSeat(t, i).seats;
            |left| == |t.seats| && forall j :: 0 <= j < |left| && left[j].Some? ==>
              t.seats[j].Some? && left[j].value.wins == t.seats[j].value.wins
              && left[j].value.missed == t.seats[j].value.missed
              && (left[j].value.ready ==> t.seats[j].value.ready)
  {
    PromoteKeeps(t.(seats := t.seats[i := None]));
  }

  lemma VacateOwes(series: Series, seats: Seats, serials: nat, i: nat, left: Seats)
    requires AllOwed(seats, series) && i < |seats| && SameChairs(seats[i := None], left)
    requires forall j :: 0 <= j < |left| && left[j].Some? ==> left[j].value.missed == seats[j].value.missed
    ensures AllOwed(left, series) && OwedGo(seats, serials, left)
  {
    forall j | 0 <= j < |left| && left[j].Some? ensures Owed(left[j].value, series) {
      assert seats[i := None][j].Some? && Owed(seats[j].value, series);
    }
  }

  /** A seat whose player is out of the game can be freed, and takes its name off what was said from it. */
  lemma VacateKeeps(cfg: Config, r: Room, i: nat)
    requires RoomInv(cfg, r) && i < |r.table.seats| && r.table.seats[i].Some?
    requires OutOfPlay(r.series, r.table.seats[i].value.id)
    ensures RoomInv(cfg, Vacate(r, i)) && Goes(r, Vacate(r, i))
  {
    hide TalkOk, SeatsGo, AtTheirSeats, Tallied, SeatsOk, NamesDistinct, Owned, OutOfPlay, SameChairs, VacateSeat, Scrub,
         AllOwed, OwedGo;
    var left := VacateSeat(r.table, i).seats;
    VacateTable(r.withBot, r.table, i);
    VacatedFlags(r.table, i);
    VacateTalk(r.talk, r.table.seats, r.table.serials, r.withBot, i, left);
    VacateGame(r.series, r.table.seats, i, left);
    VacateTally(r.series.results, r.table.seats, r.table.serials, i, left);
    VacateOwes(r.series, r.table.seats, r.table.serials, i, left);
    SerialsStay(r.table, i);
  }

  lemma SerialsStay(t: Table, i: nat)
    requires i < |t.seats| && t.seats[i].Some?
    ensures VacateSeat(t, i).serials == t.serials
  {
  }

  // ----- somebody speaks -----

  lemma SayTalk(talk: Talk, seats: Seats, i: nat, text: string)
    requires TalkOk(talk, seats) && i < |seats| && seats[i].Some? && seats[i].value.id == G.Human(i)
    ensures TalkOk(Say(talk, seats[i].value, text), seats) && Say(talk, seats[i].value, text).chatSeq == talk.chatSeq + 1
  {
    var t := Say(talk, seats[i].value, text);
    forall l | l in t.chat ensures Attributed(l, seats) {
      if l in talk.chat { assert Attributed(l, seats); }
    }
  }

  lemma SayKeeps(cfg: Config, r: Room, i: nat, text: string)
    requires RoomInv(cfg, r) && i < |r.table.seats| && r.table.seats[i].Some? && r.table.seats[i].value.id == G.Human(i)
    ensures var t := r.(talk := Say(r.talk, r.table.seats[i].value, text)); RoomInv(cfg, t) && Goes(r, t)
  {
    hide TableOk, TalkOk, SeatsGo, AtTheirSeats, Tallied, SeriesOk, SeriesGo, AllOwed, OwedGo, EndGo, Say;
    SayTalk(r.talk, r.table.seats, i, text);
    SameChairsGo(r.table.seats, r.table.serials, r.table.seats);
    SeriesStays(cfg.rules, r.series, r.closed);
    OwedStays(r.table.seats, r.table.serials);
  }

  // ----- the room closes -----

  lemma CloseKeeps(cfg: Config, r: Room)
    requires RoomInv(cfg, r) && !r.closed
    ensures RoomInv(cfg, OnClose(r)) && Goes(r, OnClose(r))
  {
    hide TableOk, TalkOk, SeatsGo, Tallied, AllOwed, OwedGo, EndGo, SeriesGo, SeriesOk, AtTheirSeats;
    SameChairsGo(r.table.seats, r.table.serials, r.table.seats);
    OwedStays(r.table.seats, r.table.serials);
    SeriesStops(cfg.rules, r.series);
    StopsWhereItWas(r.series, r.table.seats);
  }

  lemma SeriesStays(rules: G.Rules, s: Series, closed: bool)
    requires SeriesOk(rules, s, closed)
    ensures SeriesGo(s, s)
  {
  }

  lemma SeriesStops(rules: G.Rules, s: Series)
    requires SeriesOk(rules, s, false)
    ensures SeriesOk(rules, StopCountingLive(s), true) && SeriesGo(s, StopCountingLive(s))
    ensures StopCountingLive(s).results == s.results && StopCountingLive(s).engine == s.engine
  {
  }

  lemma StopsWhereItWas(s: Series, seats: Seats)
    ensures AtTheirSeats(s, seats) ==> AtTheirSeats(StopCountingLive(s), seats)
    ensures AllOwed(seats, s) ==> AllOwed(seats, StopCountingLive(s))
  {
    if AllOwed(seats, s) {
      forall i | 0 <= i < |seats| && seats[i].Some? ensures Owed(seats[i].value, StopCountingLive(s)) {
        assert Owed(seats[i].value, s);
      }
    }
  }

  lemma OwedStays(seats: Seats, serials: nat)
    ensures OwedGo(seats, serials, seats)
  {
  }
}
