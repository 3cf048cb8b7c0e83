/** Every building block of a room's step keeps its invariant and moves it forward. */
module RoomSteps {
  import opened Basics
  import opened RoomRules
  import opened RoomState
  import G = GameRules
  import P = GameProofs

  // ----- what moving forward means -----

  /**
   * The same seat later: it keeps its name and its place in the conversation, and who sat in it before; and nobody is back
   * in it who has not sat down in it again.
   */
  ghost predicate Kept(a: Seat, b: Seat) {
    && b.id == a.id && b.nickname == a.nickname && b.chatFrom == a.chatFrom && a.sat <= b.sat && a.wins <= b.wins
    && (b.sat == a.sat && a.sess.None? ==> b.sess.None?)
  }

  /** A seat that is there later is either new or was there, in the same place, before. */
  ghost predicate SeatsGo(a: Seats, serials: nat, b: Seats) {
    && |a| == |b|
    && forall i :: 0 <= i < |b| && b[i].Some? && b[i].value.serial < serials ==>
         a[i].Some? && a[i].value.serial == b[i].value.serial && Kept(a[i].value, b[i].value)
  }

  /** The same question put to the same player under the same clock. */
  ghost predicate SamePosition(g: G.State, h: G.State) {
    && G.Shaped(g) && G.Shaped(h) && G.Turn(g) == G.Turn(h)
    && g.turnIndex == h.turnIndex
    && g.current == h.current && g.used == h.used && g.deadline == h.deadline && g.history == h.history
  }

  /** Until the next game, a result owed to a seat is kept for it, and is dropped only when somebody is back in it. */
  ghost predicate OwedGo(a: Seats, serials: nat, b: Seats) {
    && |a| == |b|
    && forall i :: 0 <= i < |b| && a[i].Some? && b[i].Some? && b[i].value.serial == a[i].value.serial < serials ==>
         b[i].value.missed == a[i].value.missed || (b[i].value.missed.None? && a[i].value.sat < b[i].value.sat)
  }

  /** A later moment of one game: no word is taken back, and nobody who is out comes back in. */
  ghost predicate Continues(g: G.State, h: G.State) {
    && h.players == g.players && g.history <= h.history && |h.alive| == |g.alive|
    && forall i :: 0 <= i < |g.alive| && h.alive[i] ==> g.alive[i]
  }

  /** Since g a word has been played, or whoever was to act has gone out. */
  ghost predicate MovedOn(g: G.State, h: G.State) {
    |g.history| < |h.history| || (g.turnIndex < |h.alive| && !h.alive[g.turnIndex])
  }

  /** A later moment of play under the same turn sequence is the same position of the same game. */
  ghost predicate SeriesGo(s: Series, t: Series) {
    && s.turnSeq <= t.turnSeq && s.started <= t.started && s.finished <= t.finished && s.results <= t.results
    && (Running(t) && t.turnSeq == s.turnSeq ==>
          Running(s) && t.started == s.started && SamePosition(s.engine.value, t.engine.value))
    && (Finished(s) && t.started == s.started ==> t.engine == s.engine)
    && (s.engine.Some? && t.started == s.started ==> t.engine.Some? && Continues(s.engine.value, t.engine.value))
    && (Running(s) && Running(t) && t.started == s.started && t.turnSeq > s.turnSeq ==>
          MovedOn(s.engine.value, t.engine.value))
  }

  /** Whoever was away while a game was played, and still is when it is over, is kept it as it went for them. */
  ghost predicate EndGo(a: Seats, serials: nat, b: Seats, final: G.State) {
    && |a| == |b|
    && forall i :: 0 <= i < |b| && a[i].Some? && b[i].Some? && b[i].value.serial == a[i].value.serial < serials
                   && a[i].value.id != G.Bot && a[i].value.sess.None? && b[i].value.sat == a[i].value.sat ==>
         b[i].value.missed == Some(Result(final.winner == a[i].value.id, final))
  }

  ghost predicate Goes(r: Room, t: Room) {
    && SeatsGo(r.table.seats, r.table.serials, t.table.seats) && r.table.serials <= t.table.serials
    && r.talk.chatSeq <= t.talk.chatSeq
    && SeriesGo(r.series, t.series)
    && (Finished(r.series) && t.series.started == r.series.started ==> OwedGo(r.table.seats, r.table.serials, t.table.seats))
    && (Running(r.series) && Finished(t.series) && t.series.started == r.series.started ==>
          EndGo(r.table.seats, r.table.serials, t.table.seats, t.series.engine.value))
    && r.withBot == t.withBot
  }

  lemma SeatsGoOn(a: Seats, m: nat, b: Seats, n: nat, c: Seats)
    requires SeatsGo(a, m, b) && m <= n && SeatsGo(b, n, c)
    ensures SeatsGo(a, m, c)
  {
    forall i | 0 <= i < |c| && c[i].Some? && c[i].value.serial < m
      ensures a[i].Some? && a[i].value.serial == c[i].value.serial && Kept(a[i].value, c[i].value)
    {
      assert b[i].Some? && b[i].value.serial < m;
    }
  }

  lemma OwedGoOn(a: Seats, m: nat, b: Seats, n: nat, c: Seats)
    requires SeatsGo(a, m, b) && m <= n && SeatsGo(b, n, c) && OwedGo(a, m, b) && OwedGo(b, n, c)
    ensures OwedGo(a, m, c)
  {
    forall i | 0 <= i < |c| && a[i].Some? && c[i].Some? && c[i].value.serial == a[i].value.serial < m
      ensures c[i].value.missed == a[i].value.missed || (c[i].value.missed.None? && a[i].value.sat < c[i].value.sat)
    {
      assert b[i].Some? && b[i].value.serial == a[i].value.serial;
      assert Kept(a[i].value, b[i].value) && Kept(b[i].value, c[i].value);
    }
  }

  lemma SeriesGoOn(s: Series, t: Series, u: Series)
    requires SeriesGo(s, t) && SeriesGo(t, u)
    ensures SeriesGo(s, u)
  {
    if s.engine.Some? && u.started == s.started { assert Continues(s.engine.value, t.engine.value); }
  }

  /** The game ended after the moment in between, and those who were away already were away then; */
  lemma EndGoLater(a: Seats, m: nat, b: Seats, n: nat, c: Seats, final: G.State)
    requires SeatsGo(a, m, b) && m <= n && SeatsGo(b, n, c) && EndGo(b, n, c, final)
    ensures EndGo(a, m, c, final)
  {
    forall i | 0 <= i < |c| && a[i].Some? && c[i].Some? && c[i].value.serial == a[i].value.serial < m
               && a[i].value.id != G.Bot && a[i].value.sess.None? && c[i].value.sat == a[i].value.sat
      ensures c[i].value.missed == Some(Result(final.winner == a[i].value.id, final))
    {
      assert b[i].Some? && Kept(a[i].value, b[i].value) && Kept(b[i].value, c[i].value);
    }
  }

  /** ... or before it, and what they were kept then they are kept still. */
  lemma EndGoBefore(a: Seats, m: nat, b: Seats, n: nat, c: Seats, final: G.State)
    requires SeatsGo(a, m, b) && m <= n && SeatsGo(b, n, c) && EndGo(a, m, b, final) && OwedGo(b, n, c)
    ensures EndGo(a, m, c, final)
  {
    forall i | 0 <= i < |c| && a[i].Some? && c[i].Some? && c[i].value.serial == a[i].value.serial < m
               && a[i].value.id != G.Bot && a[i].value.sess.None? && c[i].value.sat == a[i].value.sat
      ensures c[i].value.missed == Some(Result(final.winner == a[i].value.id, final))
    {
      assert b[i].Some? && Kept(a[i].value, b[i].value) && Kept(b[i].value, c[i].value);
    }
  }

  lemma GoesOn(r: Room, t: Room, u: Room)
    requires Goes(r, t) && Goes(t, u)
    ensures Goes(r, u)
  {
    var a, m, b, n, c := r.table.seats, r.table.serials, t.table.seats, t.table.serials, u.table.seats;
    SeatsGoOn(a, m, b, n, c);
    SeriesGoOn(r.series, t.series, u.series);
    if Finished(r.series) && u.series.started == r.series.started { OwedGoOn(a, m, b, n, c); }
    if Running(r.series) && Finished(u.series) && u.series.started == r.series.started {
      if Running(t.series) {
        EndGoLater(a, m, b, n, c, u.series.engine.value);
      } else {
        EndGoBefore(a, m, b, n, c, u.series.engine.value);
      }
    }
  }

  lemma SameChairsGo(a: Seats, serials: nat, b: Seats)
    requires SameChairs(a, b)
    requires forall i :: 0 <= i < |a| && a[i].Some? ==> a[i].value.wins <= b[i].value.wins
    ensures SeatsGo(a, serials, b)
  {
  }

  lemma GoesNowhere(r: Room)
    requires r.series.engine.Some? ==> G.Shaped(r.series.engine.value)
    ensures Goes(r, r)
  {
    SameChairsGo(r.table.seats, r.table.serials, r.table.seats);
  }

  // ----- a game begins -----

  lemma UnreadyKeeps(seats: Seats)
    ensures SameChairs(seats, Unready(seats))
    ensures forall i :: 0 <= i < |seats| && seats[i].Some? ==>
      !Unready(seats)[i].value.ready && Unready(seats)[i].value.wins == seats[i].value.wins
      && Unready(seats)[i].value.missed.None?
  {
  }

  lemma {:induction false} RosterIs(seats: Seats, serials: nat, withBot: bool, n: nat)
    requires SeatsOk(seats, serials, withBot) && n <= |seats|
    ensures forall i :: 0 <= i < n && seats[i].Some? ==>
      seats[i].value.id in Roster(seats, n) && Roster(seats, n)[seats[i].value.id] == seats[i].value.serial
  {
    if n > 0 {
      RosterIs(seats, serials, withBot, n - 1);
      forall i | 0 <= i < n - 1 && seats[i].Some? && seats[n - 1].Some? ensures seats[i].value.id != seats[n - 1].value.id {
        SeatOfHuman(seats, serials, withBot, i);
        SeatOfHuman(seats, serials, withBot, n - 1);
      }
    }
  }

  /** Everybody dealt into a game sits at the table. */
  lemma DealtInAreSeated(seats: Seats, withBot: bool, lead: nat, p: G.PlayerID)
    requires p in TurnOrder(seats, withBot, lead)
    ensures exists i :: 0 <= i < |seats| && seats[i].Some? && seats[i].value.id == p
  {
    var ids, taken := Ids(seats), Taken(seats, |seats|);
    assert p in ids;
    var k :| 0 <= k < |ids| && ids[k] == p;
    assert seats[taken[k]].value.id == p;
  }

  lemma DealtIn(seats: Seats, serials: nat, withBot: bool, lead: nat, p: G.PlayerID)
    requires SeatsOk(seats, serials, withBot) && p in TurnOrder(seats, withBot, lead)
    ensures InSeat(Unready(seats), Roster(seats, |seats|), p)
  {
    DealtInAreSeated(seats, withBot, lead, p);
    var i :| 0 <= i < |seats| && seats[i].Some? && seats[i].value.id == p;
    UnreadyKeeps(seats);
    SameChairsOk(seats, Unready(seats), serials, withBot);
    SeatOfHuman(Unready(seats), serials, withBot, i);
    RosterIs(seats, serials, withBot, |seats|);
  }

  lemma UnreadyTable(withBot: bool, t: Table)
    requires TableOk(withBot, t)
    ensures TableOk(withBot, t.(seats := Unready(t.seats)))
  {
    UnreadyKeeps(t.seats);
    SameChairsOk(t.seats, Unready(t.seats), t.serials, withBot);
    assert forall i :: 0 <= i < |t.seats| ==> t.seats[i].Some? == Unready(t.seats)[i].Some?;
  }

  lemma BeginSeats(cfg: Config, r: Room)
    requires RoomInv(cfg, r)
    ensures var seats := Unready(r.table.seats);
            && TableOk(r.withBot, r.table.(seats := seats)) && TalkOk(r.talk, seats)
            && Tallied(r.series.results, seats, r.table.serials) && (forall s :: AllOwed(seats, s))
            && SeatsGo(r.table.seats, r.table.serials, seats)
  {
    UnreadyKeeps(r.table.seats);
    UnreadyTable(r.withBot, r.table);
    SameChairsTalk(r.table.seats, Unready(r.table.seats), r.talk);
    SameChairsGo(r.table.seats, r.table.serials, Unready(r.table.seats));
  }

  lemma BeginSeries(cfg: Config, r: Room, w: World)
    requires RoomInv(cfg, r) && !Running(r.series) && !r.closed && Begin(cfg, r, w) != r
    ensures var t := Begin(cfg, r, w);
            && SeriesOk(cfg.rules, t.series, false) && SeriesGo(r.series, t.series)
            && AtTheirSeats(t.series, t.table.seats) && Running(t.series) && t.series.started > r.series.started
  {
    var t, seats := Begin(cfg, r, w), r.table.seats;
    var ids := TurnOrder(seats, r.withBot, w.lead);
    P.NewKeepsInv(cfg.rules, ids, Opening(cfg, w).value, w.now);
    UnreadyKeeps(seats);
    forall k | 0 <= k < |ids| ensures InSeat(Unready(seats), t.series.roster, ids[k]) {
      DealtIn(seats, r.table.serials, r.withBot, w.lead, ids[k]);
    }
  }

  /** Beginning a game, or failing to, keeps the invariant; every game begun gets a sequence number of its own. */
  lemma BeginKeeps(cfg: Config, r: Room, w: World)
    requires RoomInv(cfg, r) && !Running(r.series) && !r.closed
    ensures RoomInv(cfg, Begin(cfg, r, w)) && Goes(r, Begin(cfg, r, w))
    ensures Begin(cfg, r, w) == r || Running(Begin(cfg, r, w).series)
  {
    if Begin(cfg, r, w) == r {
      GoesNowhere(r);
    } else {
      BeginSeats(cfg, r);
      BeginSeries(cfg, r, w);
      hide TableOk, TalkOk, SeriesOk, AtTheirSeats, Tallied, SeatsGo, SeriesGo, AllOwed, OwedGo;
    }
  }

  // ----- players go out, and a game ends -----

  lemma CreditKeepsChairs(seats: Seats, p: G.PlayerID)
    ensures SameChairs(seats, Credit(seats, p))
    ensures forall i :: 0 <= i < |seats| && seats[i].Some? ==>
      Credit(seats, p)[i].value.wins == seats[i].value.wins + (if i == SeatOf(seats, p) then 1 else 0)
    ensures forall i :: 0 <= i < |seats| && seats[i].Some? ==> Credit(seats, p)[i].value.ready == seats[i].value.ready
  {
  }

  lemma EndedKeepsChairs(seats: Seats, final: G.State)
    ensures SameChairs(seats, Ended(seats, final))
    ensures forall i :: 0 <= i < |seats| && seats[i].Some? ==>
      var s, t := seats[i].value, Ended(seats, final)[i].value;
      && t.wins == s.wins + (if i == SeatOf(seats, final.winner) then 1 else 0)
      && t.ready == s.ready
      && (s.id != G.Bot ==> t.missed == if s.sess.None? then Some(Result(final.winner == s.id, final)) else None)
      && (s.id == G.Bot ==> t.missed == s.missed)
  {
    CreditKeepsChairs(seats, final.winner);
  }

  lemma CountMore(results: seq<nat>, x: nat, serial: nat)
    ensures Count(results + [x], serial) == Count(results, serial) + (if x == serial then 1 else 0)
  {
    assert (results + [x])[..|results|] == results;
  }

  /** The seat that won is the one whose tally rises. */
  lemma EndedTallies(results: seq<nat>, seats: Seats, serials: nat, withBot: bool, roster: map<G.PlayerID, nat>,
                     final: G.State)
    requires Tallied(results, seats, serials) && SeatsOk(seats, serials, withBot) && InSeat(seats, roster, final.winner)
    ensures Tallied(results + [SerialOf(roster, final.winner)], Ended(seats, final), serials)
  {
    var p := final.winner;
    var more, credited, j := results + [SerialOf(roster, p)], Ended(seats, final), SeatOf(seats, p);
    EndedKeepsChairs(seats, final);
    assert SeatOk(seats[j].value, j, serials, withBot);
    forall i | 0 <= i < |credited| && credited[i].Some?
      ensures credited[i].value.wins == Count(more, credited[i].value.serial)
    {
      CountMore(results, SerialOf(roster, p), seats[i].value.serial);
      assert i < j || i > j ==> seats[i].value.serial != seats[j].value.serial;
    }
  }

  lemma EndedTable(withBot: bool, t: Table, final: G.State)
    requires TableOk(withBot, t)
    ensures TableOk(withBot, t.(seats := Ended(t.seats, final)))
    ensures SeatsGo(t.seats, t.serials, Ended(t.seats, final))
  {
    hide Ended;
    EndedKeepsChairs(t.seats, final);
    SameChairsOk(t.seats, Ended(t.seats, final), t.serials, withBot);
    SameChairsGo(t.seats, t.serials, Ended(t.seats, final));
    assert forall i :: 0 <= i < |t.seats| ==> t.seats[i].Some? == Ended(t.seats, final)[i].Some?;
  }

  /** Only players who are away are kept the result, and it is that of this game. */
  lemma EndedOwes(seats: Seats, serials: nat, withBot: bool, before: Series, after: Series)
    requires SeatsOk(seats, serials, withBot) && AllOwed(seats, before) && Running(before) && Finished(after)
    ensures AllOwed(Ended(seats, after.engine.value), after)
  {
    hide Ended;
    var final := after.engine.value;
    EndedKeepsChairs(seats, final);
    forall i | 0 <= i < |seats| && seats[i].Some? ensures Owed(Ended(seats, final)[i].value, after) {
      assert Owed(seats[i].value, before);
    }
  }

  /** Whoever wins is seated where they began. */
  lemma WinnerIsSeated(rules: G.Rules, s: Series, seats: Seats, after: G.State)
    requires Running(s) && SeriesOk(rules, s, false) && AtTheirSeats(s, seats)
    requires P.Sheds(s.engine.value, after) && G.TableInv(after) && after.over
    ensures InSeat(seats, s.roster, after.winner)
  {
    assert s.engine.value.alive[after.turnIndex];
  }

  lemma GameEndSeries(rules: G.Rules, s: Series, seats: Seats, after: G.State)
    requires Running(s) && SeriesOk(rules, s, false) && G.Inv(rules, after) && after.over
    requires P.Sheds(s.engine.value, after)
    ensures var t := StopCountingLive(s.(engine := Some(after))).(results := s.results + [SerialOf(s.roster, after.winner)]);
            SeriesOk(rules, t, false) && SeriesGo(s, t) && AtTheirSeats(t, seats)
  {
    hide G.Inv;
    ShedsContinues(s.engine.value, after);
  }

  lemma ShedsContinues(s: G.State, t: G.State)
    requires P.Sheds(s, t)
    ensures Continues(s, t) && (t.turnIndex != s.turnIndex ==> MovedOn(s, t))
  {
  }

  lemma EndedIsKept(seats: Seats, serials: nat, final: G.State)
    ensures EndGo(seats, serials, Ended(seats, final), final)
  {
    hide Ended;
    EndedKeepsChairs(seats, final);
  }

  /** A game that ends is counted finished once and credited once, to the winner in the seat they began in. */
  lemma GameEndKeeps(cfg: Config, r: Room, after: G.State)
    requires RoomInv(cfg, r) && Running(r.series) && !r.closed
    requires P.Sheds(r.series.engine.value, after) && G.TableInv(after) && after.over
    ensures RoomInv(cfg, ApplyEliminations(r, r.series.engine.value, after))
    ensures Goes(r, ApplyEliminations(r, r.series.engine.value, after))
    ensures var a, b := r.table.seats, ApplyEliminations(r, r.series.engine.value, after).table.seats;
            |b| == |a| && forall i :: 0 <= i < |a| && a[i].Some? && a[i].value.id != G.Bot && a[i].value.sess.None? ==>
              b[i].Some? && b[i].value.missed == Some(Result(after.winner == a[i].value.id, after))
  {
    var before := r.series.engine.value;
    P.ShedsKeepsInv(cfg.rules, before, after);
    assert |after.outOrder| != |before.outOrder|;
    WinnerIsSeated(cfg.rules, r.series, r.table.seats, after);
    EndedTable(r.withBot, r.table, after);
    EndedKeepsChairs(r.table.seats, after);
    SameChairsTalk(r.table.seats, Ended(r.table.seats, after), r.talk);
    EndedTallies(r.series.results, r.table.seats, r.table.serials, r.withBot, r.series.roster, after);
    GameEndSeries(cfg.rules, r.series, Ended(r.table.seats, after), after);
    EndedOwes(r.table.seats, r.table.serials, r.withBot, r.series, ApplyEliminations(r, before, after).series);
    EndedIsKept(r.table.seats, r.table.serials, after);
    hide TableOk, TalkOk, SeriesOk, AtTheirSeats, Tallied, SeatsGo, SeriesGo, AllOwed, OwedGo, EndGo, Ended;
  }

  /** While a game runs nobody is owed a result. */
  lemma NobodyIsOwed(seats: Seats, s: Series, t: Series)
    requires AllOwed(seats, s) && Running(s)
    ensures AllOwed(seats, t)
  {
    forall i | 0 <= i < |seats| && seats[i].Some? ensures Owed(seats[i].value, t) {
      assert Owed(seats[i].value, s);
    }
  }

  /** A change to the games alone, of the right kind, is one the whole room can make. */
  lemma SeriesMoves(cfg: Config, r: Room, s: Series)
    requires RoomInv(cfg, r) && !r.closed && s.results == r.series.results
    requires SeriesOk(cfg.rules, s, false) && SeriesGo(r.series, s) && AtTheirSeats(s, r.table.seats) && Running(r.series)
    ensures RoomInv(cfg, r.(series := s)) && Goes(r, r.(series := s))
  {
    SameChairsGo(r.table.seats, r.table.serials, r.table.seats);
    NobodyIsOwed(r.table.seats, r.series, s);
    hide TableOk, TalkOk, SeriesOk, AtTheirSeats, Tallied, SeatsGo, SeriesGo, AllOwed, OwedGo;
  }

  lemma TurnMovesOn(rules: G.Rules, s: Series, seats: Seats, after: G.State, turnSeq: nat)
    requires Running(s) && SeriesOk(rules, s, false) && AtTheirSeats(s, seats)
    requires P.Sheds(s.engine.value, after) && G.Inv(rules, after) && !after.over
    requires turnSeq == s.turnSeq + (if G.Turn(after) != G.Turn(s.engine.value) then 1 else 0)
    ensures var t := s.(engine := Some(after), turnSeq := turnSeq);
            SeriesOk(rules, t, false) && SeriesGo(s, t) && AtTheirSeats(t, seats)
  {
  }

  /** Eliminations keep the invariant; the sequence moves exactly when the position to answer does. */
  lemma EliminationsKeep(cfg: Config, r: Room, after: G.State)
    requires RoomInv(cfg, r) && r.series.engine.Some? && !r.closed
    requires P.Sheds(r.series.engine.value, after) && G.TableInv(after)
    ensures RoomInv(cfg, ApplyEliminations(r, r.series.engine.value, after))
    ensures Goes(r, ApplyEliminations(r, r.series.engine.value, after))
    ensures Running(ApplyEliminations(r, r.series.engine.value, after).series) <==> !after.over
    ensures var t := ApplyEliminations(r, r.series.engine.value, after);
            !after.over ==> (t.series.turnSeq == r.series.turnSeq <==> SamePosition(r.series.engine.value, after))
  {
    var before := r.series.engine.value;
    if |after.outOrder| == |before.outOrder| {
      GoesNowhere(r);
    } else if after.over {
      GameEndKeeps(cfg, r, after);
    } else {
      P.ShedsKeepsInv(cfg.rules, before, after);
      var t := ApplyEliminations(r, before, after);
      TurnMovesOn(cfg.rules, r.series, r.table.seats, after, t.series.turnSeq);
      SeriesMoves(cfg, r, t.series);
    }
  }

  // ----- a word is accepted -----

  lemma AcceptedSeries(rules: G.Rules, s: Series, seats: Seats, player: G.PlayerID, word: string, now: Time)
    requires s.engine.Some? && SeriesOk(rules, s, false) && AtTheirSeats(s, seats)
    requires G.Judge(rules, s.engine.value, player, word, now).Accepted?
    ensures var t := s.(engine := Some(G.Submit(rules, s.engine.value, player, word, now)), turnSeq := s.turnSeq + 1);
            SeriesOk(rules, t, false) && SeriesGo(s, t) && AtTheirSeats(t, seats)
    ensures Running(s)
  {
    P.SubmitIs(rules, s.engine.value, player, word, now);
    P.AcceptedAnswers(rules, s.engine.value, player, word, now);
    P.PlayKeepsInv(rules, s.engine.value, G.Judge(rules, s.engine.value, player, word, now).move, now);
  }

  lemma AcceptedKeeps(cfg: Config, r: Room, player: G.PlayerID, word: string, w: World)
    requires RoomInv(cfg, r) && r.series.engine.Some? && !r.closed
    requires G.Judge(cfg.rules, r.series.engine.value, player, word, w.now).Accepted?
    ensures RoomInv(cfg, Submitted(cfg, r, player, word, w)) && Goes(r, Submitted(cfg, r, player, word, w))
  {
    hide G.Judge, G.Submit, G.Inv, SeriesGo, SeatsGo, TableOk, TalkOk, Tallied, AtTheirSeats;
    AcceptedSeries(cfg.rules, r.series, r.table.seats, player, word, w.now);
    var after := G.Submit(cfg.rules, r.series.engine.value, player, word, w.now);
    SeriesMoves(cfg, r, r.series.(engine := Some(after), turnSeq := r.series.turnSeq + 1));
  }

  /** A refused word changes nothing, or takes out the player who was late with it. */
  lemma RefusedSheds(rules: G.Rules, s: G.State, player: G.PlayerID, word: string, now: Time)
    requires G.Inv(rules, s) && G.Judge(rules, s, player, word, now).Rejected?
    ensures P.Sheds(s, G.Submit(rules, s, player, word, now)) && G.TableInv(G.Submit(rules, s, player, word, now))
  {
    P.SubmitIs(rules, s, player, word, now);
  }

  lemma SubmittedKeeps(cfg: Config, r: Room, player: G.PlayerID, word: string, w: World)
    requires RoomInv(cfg, r) && r.series.engine.Some? && !r.closed
    ensures RoomInv(cfg, Submitted(cfg, r, player, word, w)) && Goes(r, Submitted(cfg, r, player, word, w))
  {
    var before := r.series.engine.value;
    if G.Judge(cfg.rules, before, player, word, w.now).Accepted? {
      AcceptedKeeps(cfg, r, player, word, w);
    } else {
      RefusedSheds(cfg.rules, before, player, word, w.now);
      EliminationsKeep(cfg, r, G.Submit(cfg.rules, before, player, word, w.now));
      hide RoomInv, Goes, G.Judge, G.Submit;
    }
  }
}
