/** What holds of a room's state between inputs, part by part, and which changes keep each part. */
module RoomState {
  import opened Basics
  import opened RoomRules
  import G = GameRules

  // ----- the invariant, part by part -----

  /** A human seat is connected with no window open, or waits, under an open window, for the last who sat in it. */
  ghost predicate PresenceOk(s: Seat) {
    if s.id == G.Bot then s.sess.None? && s.heldFor.None? && s.graceUntil.None? && s.sat == []
    else
      && s.sat != []
      && if s.sess.Some? then s.sess.value == s.sat[|s.sat| - 1] && s.heldFor.None? && s.graceUntil.None?
         else s.heldFor == Some(s.sat[|s.sat| - 1]) && s.graceUntil.Some?
  }

  ghost predicate SeatOk(s: Seat, i: nat, serials: nat, withBot: bool) {
    && s.serial < serials
    && (s.id == G.Human(i) || (withBot && i == 1 && s.id == G.Bot))
    && PresenceOk(s)
  }

  ghost predicate SeatsOk(seats: Seats, serials: nat, withBot: bool) {
    && |seats| == MAX_PLAYERS
    && (forall i :: 0 <= i < |seats| && seats[i].Some? ==> SeatOk(seats[i].value, i, serials, withBot))
    && (forall i, j :: 0 <= i < j < |seats| && seats[i].Some? && seats[j].Some? ==>
          seats[i].value.serial != seats[j].value.serial)
  }

  ghost predicate NamesDistinct(seats: Seats) {
    forall i, j :: 0 <= i < j < |seats| && seats[i].Some? && seats[j].Some? ==>
      seats[i].value.nickname != seats[j].value.nickname
  }

  /** An occupied room has an owner, who is seated and never ready; an empty one has none. */
  ghost predicate Owned(seats: Seats, owner: G.PlayerID) {
    if Occupied(seats) then
      owner.Human? && owner.seat < |seats| && seats[owner.seat].Some? && !seats[owner.seat].value.ready
    else owner == G.Nobody
  }

  /** A line that names an author was said from the seat they still hold, since it was filled, under the name it has. */
  ghost predicate Attributed(l: Line, seats: Seats) {
    if l.author == G.Nobody then l.name == ""
    else
      && l.author.Human? && l.author.seat < |seats| && seats[l.author.seat].Some?
      && var s := seats[l.author.seat].value;
         s.id == l.author && s.nickname == l.name && s.serial == l.speaker && s.chatFrom < l.seqNo
  }

  /** The log is the last lines said, numbered without a gap up to the last. */
  ghost predicate Numbered(talk: Talk) {
    && |talk.chat| <= CHAT_HISTORY_LIMIT && |talk.chat| <= talk.chatSeq
    && forall k :: 0 <= k < |talk.chat| ==> talk.chat[k].seqNo == talk.chatSeq - |talk.chat| + 1 + k
  }

  ghost predicate TalkOk(talk: Talk, seats: Seats) {
    && Numbered(talk)
    && (forall l <- talk.chat :: Attributed(l, seats))
    && (forall i :: 0 <= i < |seats| && seats[i].Some? ==> seats[i].value.chatFrom <= talk.chatSeq)
  }

  ghost predicate SeriesOk(rules: G.Rules, s: Series, closed: bool) {
    && (s.engine.Some? ==> G.Inv(rules, s.engine.value))
    && (s.liveCounted <==> Running(s) && !closed)
    && s.started == s.finished + (if s.liveCounted then 1 else 0)
    && s.started == |s.results| + (if Running(s) then 1 else 0)
    && (s.engine.Some? && s.engine.value.over ==>
          s.results != [] && s.results[|s.results| - 1] == SerialOf(s.roster, s.engine.value.winner))
  }

  ghost predicate InSeat(seats: Seats, roster: map<G.PlayerID, nat>, p: G.PlayerID) {
    var i := SeatOf(seats, p);
    i < |seats| && p in roster && seats[i].value.serial == roster[p]
  }

  /** While a game runs everybody still in it sits where they sat when it began, and nobody is ready. */
  ghost predicate AtTheirSeats(s: Series, seats: Seats) {
    Running(s) ==>
      && |s.engine.value.alive| == |s.engine.value.players|
      && (forall k :: 0 <= k < |s.engine.value.players| && s.engine.value.alive[k] ==>
            InSeat(seats, s.roster, s.engine.value.players[k]))
      && (forall i :: 0 <= i < |seats| && seats[i].Some? ==> !seats[i].value.ready)
  }

  function Count(results: seq<nat>, serial: nat): nat {
    if results == [] then 0
    else Count(results[..|results| - 1], serial) + (if results[|results| - 1] == serial then 1 else 0)
  }

  /** Each seat's wins are the finished games that seat won. */
  ghost predicate Tallied(results: seq<nat>, seats: Seats, serials: nat) {
    && (forall x <- results :: x < serials)
    && forall i :: 0 <= i < |seats| && seats[i].Some? ==> seats[i].value.wins == Count(results, seats[i].value.serial)
  }

  /** A result is owed only to a player who is away, and is that of the game just finished, as it went for them. */
  ghost predicate Owed(s: Seat, series: Series) {
    s.missed.Some? ==>
      && s.sess.None? && s.id != G.Bot && Finished(series)
      && s.missed.value == Result(series.engine.value.winner == s.id, series.engine.value)
  }

  ghost predicate AllOwed(seats: Seats, series: Series) {
    forall i :: 0 <= i < |seats| && seats[i].Some? ==> Owed(seats[i].value, series)
  }

  ghost predicate TableOk(withBot: bool, t: Table) {
    && SeatsOk(t.seats, t.serials, withBot)
    && (!withBot ==> NamesDistinct(t.seats) && Owned(t.seats, t.owner))
  }

  ghost predicate RoomInv(cfg: Config, r: Room) {
    && TableOk(r.withBot, r.table)
    && TalkOk(r.talk, r.table.seats)
    && SeriesOk(cfg.rules, r.series, r.closed)
    && AtTheirSeats(r.series, r.table.seats)
    && Tallied(r.series.results, r.table.seats, r.table.serials)
    && AllOwed(r.table.seats, r.series)
    && cfg.rules.turnLimit > 0
  }

  // ----- seats that change only in readiness, wins or the result they are owed -----

  ghost predicate Alike(a: Seat, b: Seat) { b == a.(ready := b.ready, wins := b.wins, missed := b.missed) }

  ghost predicate SameChairs(a: Seats, b: Seats) {
    && |a| == |b|
    && forall i :: 0 <= i < |a| ==> a[i].Some? == b[i].Some? && (a[i].Some? ==> Alike(a[i].value, b[i].value))
  }

  lemma SameChairsOk(a: Seats, b: Seats, serials: nat, withBot: bool)
    requires SameChairs(a, b) && SeatsOk(a, serials, withBot)
    ensures SeatsOk(b, serials, withBot)
    ensures NamesDistinct(a) ==> NamesDistinct(b)
  {
  }

  lemma SameChairsTalk(a: Seats, b: Seats, talk: Talk)
    requires SameChairs(a, b) && TalkOk(talk, a)
    ensures TalkOk(talk, b)
  {
    forall l | l in talk.chat ensures Attributed(l, b) {
      assert Attributed(l, a);
    }
  }

  lemma {:induction false} SameChairsFrom(a: Seats, b: Seats, p: G.PlayerID, lo: nat)
    requires SameChairs(a, b) && lo <= |a|
    ensures SeatFrom(a, p, lo) == SeatFrom(b, p, lo)
    decreases |a| - lo
  {
    if lo < |a| && !(a[lo].Some? && a[lo].value.id == p) { SameChairsFrom(a, b, p, lo + 1); }
  }

  lemma SameChairsInSeat(a: Seats, b: Seats, roster: map<G.PlayerID, nat>, p: G.PlayerID)
    requires SameChairs(a, b)
    ensures InSeat(a, roster, p) ==> InSeat(b, roster, p)
  {
    SameChairsFrom(a, b, p, 0);
  }

  /** A seat is found by its id: seat i is the one Human(i) holds, when they hold it. */
  lemma SeatOfHuman(seats: Seats, serials: nat, withBot: bool, i: nat)
    requires SeatsOk(seats, serials, withBot) && i < |seats| && seats[i].Some?
    ensures SeatOf(seats, seats[i].value.id) == i
  {
    var j := SeatOf(seats, seats[i].value.id);
    assert SeatOk(seats[i].value, i, serials, withBot);
    if j < |seats| { assert SeatOk(seats[j].value, j, serials, withBot); }
  }

  lemma TakenIsNonempty(seats: Seats, n: nat)
    requires n <= |seats|
    ensures Taken(seats, n) == [] <==> forall k :: 0 <= k < n ==> seats[k].None?
  {
  }

  /** How many players sit before seat i. */
  function Rank(seats: Seats, i: nat): nat
    requires i <= |seats|
  {
    |Taken(seats, i)|
  }

  lemma {:induction false} TakenAt(seats: Seats, i: nat, n: nat)
    requires i < n <= |seats| && seats[i].Some?
    ensures Rank(seats, i) < |Taken(seats, n)| && Taken(seats, n)[Rank(seats, i)] == i
    decreases n
  {
    if i < n - 1 { TakenAt(seats, i, n - 1); }
  }

  /** At least two players sit at the table. */
  predicate TwoSeated(seats: Seats) {
    exists i, j :: 0 <= i < j < |seats| && seats[i].Some? && seats[j].Some?
  }

  lemma Two(seats: Seats, i: nat, j: nat)
    requires i < j < |seats| && seats[i].Some? && seats[j].Some?
    ensures TwoSeated(seats)
  {
  }

  lemma {:induction false} TakenGrows(seats: Seats, n: nat)
    requires n <= |seats|
    ensures forall j, k :: 0 <= j < k < |Taken(seats, n)| ==> Taken(seats, n)[j] < Taken(seats, n)[k]
  {
    if n > 0 { TakenGrows(seats, n - 1); }
  }

  lemma TwoSeatedIff(seats: Seats)
    ensures SeatedCount(seats) >= 2 <==> TwoSeated(seats)
  {
    var taken := Taken(seats, |seats|);
    TakenGrows(seats, |seats|);
    if |taken| >= 2 { Two(seats, taken[0], taken[1]); }
    if i, j :| 0 <= i < j < |seats| && seats[i].Some? && seats[j].Some? {
      TakenAt(seats, j, |seats|);
      TakenAt(seats, i, j);
    }
  }
}
