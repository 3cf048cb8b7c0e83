/** The hub: which rooms there are, how many games are live in them, and who waits for a quick match. */
module HubRules {
  import opened Basics
  import opened Dictionary
  import opened RoomRules
  import opened RoomState
  import opened RoomHandlers
  import opened RoomRuns
  import Nickname
  import RoomInputs
  import G = GameRules
  import Openings
  import Q = QuickMatch

  /** What a room is registered under. */
  type Code = nat

  /**
   * The server's rooms. `queued` is what each room that nobody is seated in yet was registered for: the input is sent to
   * the room once it is registered, and the room takes it when it gets to it.
   */
  datatype Hub = Hub(rooms: map<Code, Room>, queued: map<Code, Seating>, maxRooms: nat, draining: bool, liveGames: int,
                     waiting: seq<Session>)

  /** Something the hub does or a room in it does. `code` is the code drawn for a new room, or names a room. */
  datatype HubEvent =
    | CreateRoom(code: Code, sess: Session)
    | CreateBotRoom(code: Code, sess: Session)
    | FindMatch(code: Code, sess: Session, dead: set<Session>)
    | StopWaiting(sess: Session)
    | TakeQueued(code: Code, nickname: string, world: World)
    | RoomEvent(code: Code, input: Input, world: World)
    | StartDraining

  /** How many more games the room has counted started than finished. */
  function Counting(r: Room): int { r.series.started - r.series.finished }

  /** Registers an empty room for `how`, unless the server is going down, is full, or the code is in use. */
  function Register(h: Hub, code: Code, how: Seating): Hub {
    if h.draining || |h.rooms| >= h.maxRooms || code in h.rooms then h
    else h.(rooms := h.rooms[code := Unseated()], queued := h.queued[code := how])
  }

  /** The room under `code` has become r: its games are counted, and it is forgotten once closed. */
  function Settle(h: Hub, code: Code, before: int, r: Room): Hub {
    h.(rooms := if r.closed then h.rooms - {code} else h.rooms[code := r], queued := h.queued - {code},
       liveGames := h.liveGames + Counting(r) - before)
  }

  /** Whoever has just been seated stops waiting for a match. */
  function Dequeue(h: Hub, sess: Option<Session>): Hub { h.(waiting := Q.Without(h.waiting, sess)) }

  /** The rooms with a game running in them. */
  function Live(rooms: map<Code, Room>): set<Code> {
    set code | code in rooms && Running(rooms[code].series)
  }

  ghost predicate HubInv(cfg: Config, h: Hub) {
    && cfg.rules.turnLimit > 0
    && (forall code <- h.rooms :: RoomInv(cfg, h.rooms[code]) && !h.rooms[code].closed)
    && (forall code <- h.queued :: code in h.rooms && h.rooms[code] == Unseated())
    && |h.rooms| <= h.maxRooms
    && h.liveGames == |Live(h.rooms)|
    && Distinct(h.waiting)
  }

  function HubStep(cfg: Config, h: Hub, e: HubEvent): Hub
    requires HubInv(cfg, h)
  {
    match e
    case CreateRoom(code, sess) => Register(h, code, ToCreate(sess, false))
    case CreateBotRoom(code, sess) => Register(h, code, ToStartBot(sess))
    case FindMatch(code, sess, dead) =>
      if h.draining then h
      else
        var (left, outcome) := Q.Match(h.waiting, sess, dead);
        var paired := h.(waiting := left);
        if outcome.Paired? then Register(paired, code, ToCreate(outcome.waiter, true)) else paired
    case StopWaiting(sess) => Dequeue(h, Some(sess))
    case TakeQueued(code, nickname, w) =>
      if code !in h.queued then h
      else Dequeue(Settle(h, code, 0, SeatFirst(cfg, h.queued[code], nickname, w)), Some(h.queued[code].sess))
    case RoomEvent(code, input, w) =>
      if code !in h.rooms then h
      else
        EngineOk(cfg, h.rooms[code]);
        var before, after := h.rooms[code], Step(cfg, h.rooms[code], input, w.(draining := h.draining));
        Dequeue(Settle(h, code, Counting(before), after), Bound(before, after, input))
    case StartDraining => h.(draining := true)
  }

  /** A room counts one live game while one runs in it and it is open, and none otherwise. */
  lemma CountsItsGame(cfg: Config, r: Room)
    requires RoomInv(cfg, r)
    ensures Counting(r) == if Running(r.series) && !r.closed then 1 else 0
  {
  }

  lemma LiveWithout(rooms: map<Code, Room>, code: Code)
    ensures Live(rooms - {code}) == Live(rooms) - {code}
    ensures |Live(rooms - {code})| == |Live(rooms)| - (if code in Live(rooms) then 1 else 0)
  {
  }

  lemma LiveWith(rooms: map<Code, Room>, code: Code, r: Room)
    requires code !in rooms
    ensures |Live(rooms[code := r])| == |Live(rooms)| + (if Running(r.series) then 1 else 0)
  {
    hide Running;
    assert Live(rooms[code := r]) == Live(rooms) + (if Running(r.series) then {code} else {});
  }

  lemma Replaced<K, V>(m: map<K, V>, k: K, v: V)
    ensures (m - {k})[k := v] == m[k := v]
  {
  }

  lemma LiveAfter(rooms: map<Code, Room>, code: Code, r: Room)
    ensures |Live(if r.closed then rooms - {code} else rooms[code := r])|
            == |Live(rooms)| - (if code in rooms && Running(rooms[code].series) then 1 else 0)
               + (if !r.closed && Running(r.series) then 1 else 0)
  {
    LiveWithout(rooms, code);
    LiveWith(rooms - {code}, code, r);
    Replaced(rooms, code, r);
    InLive(rooms, code);
    hide Live, Running;
  }

  lemma InLive(rooms: map<Code, Room>, code: Code)
    ensures code in Live(rooms) <==> code in rooms && Running(rooms[code].series)
  {
  }

  lemma RoomsAfter(rooms: map<Code, Room>, code: Code, r: Room, maxRooms: nat)
    requires |rooms| <= maxRooms && (code in rooms || |rooms| < maxRooms)
    ensures |if r.closed then rooms - {code} else rooms[code := r]| <= maxRooms
  {
    if r.closed {
      KeysFewer(rooms, rooms - {code});
    } else {
      assert rooms[code := r].Keys == rooms.Keys + {code};
      assert |rooms[code := r].Keys| == |rooms[code := r]| && |rooms.Keys| == |rooms|;
    }
  }

  lemma SettleKeeps(cfg: Config, h: Hub, code: Code, before: int, r: Room)
    requires HubInv(cfg, h) && RoomInv(cfg, r) && code in h.rooms
    requires before == Counting(h.rooms[code])
    ensures HubInv(cfg, Settle(h, code, before, r))
  {
    hide RoomInv, Live, Running, Counting;
    CountsItsGame(cfg, r);
    CountsItsGame(cfg, h.rooms[code]);
    LiveAfter(h.rooms, code, r);
    RoomsAfter(h.rooms, code, r, h.maxRooms);
  }

  lemma RegisterKeeps(cfg: Config, h: Hub, code: Code, how: Seating)
    requires HubInv(cfg, h)
    ensures HubInv(cfg, Register(h, code, how))
  {
    hide RoomInv, Live, Unseated, Running;
    if !h.draining && |h.rooms| < h.maxRooms && code !in h.rooms {
      UnseatedOk(cfg);
      UnseatedIsIdle();
      LiveAfter(h.rooms, code, Unseated());
      RoomsAfter(h.rooms, code, Unseated(), h.maxRooms);
    }
  }

  lemma UnseatedIsIdle()
    ensures !Unseated().closed && !Running(Unseated().series) && Counting(Unseated()) == 0
  {
  }

  lemma DequeueKeeps(cfg: Config, h: Hub, sess: Option<Session>)
    requires HubInv(cfg, h)
    ensures HubInv(cfg, Dequeue(h, sess))
    ensures sess.Some? ==> sess.value !in Dequeue(h, sess).waiting
  {
    hide RoomInv, Live;
    if sess.Some? { Q.CancelRemoves(h.waiting, sess.value); }
  }

  lemma KeysFewer<K, V>(a: map<K, V>, b: map<K, V>)
    requires b.Keys <= a.Keys
    ensures |b| <= |a|
  {
    assert a.Keys == b.Keys + (a.Keys - b.Keys);
    assert |b.Keys| == |b| && |a.Keys| == |a|;
  }

  /** Whatever the hub and its rooms do, the number of live games is the number of rooms with a game running. */
  lemma LiveGamesConserved(cfg: Config, h: Hub, e: HubEvent)
    requires HubInv(cfg, h)
    ensures HubInv(cfg, HubStep(cfg, h, e))
  {
    hide RoomInv, Step, Settle, SeatFirst, Register, Dequeue, Live, Q.Match, Bound, Q.Cancel;
    match e
    case CreateRoom(code, sess) => RegisterKeeps(cfg, h, code, ToCreate(sess, false));
    case CreateBotRoom(code, sess) => RegisterKeeps(cfg, h, code, ToStartBot(sess));
    case FindMatch(code, sess, dead) =>
      Q.MatchIsFair(h.waiting, sess, dead);
      var (left, outcome) := Q.Match(h.waiting, sess, dead);
      if outcome.Paired? && !h.draining { RegisterKeeps(cfg, h.(waiting := left), code, ToCreate(outcome.waiter, true)); }
    case StopWaiting(sess) => DequeueKeeps(cfg, h, Some(sess));
    case TakeQueued(code, nickname, w) =>
      if code in h.queued {
        var r := SeatFirst(cfg, h.queued[code], nickname, w);
        SeatFirstOk(cfg, h.queued[code], nickname, w);
        SettleKeeps(cfg, h, code, 0, r);
        DequeueKeeps(cfg, Settle(h, code, 0, r), Some(h.queued[code].sess));
      }
    case RoomEvent(code, input, w) =>
      if code in h.rooms {
        var before := h.rooms[code];
        StepMay(cfg, before, input, w.(draining := h.draining));
        var after := Step(cfg, before, input, w.(draining := h.draining));
        SettleKeeps(cfg, h, code, Counting(before), after);
        DequeueKeeps(cfg, Settle(h, code, Counting(before), after), Bound(before, after, input));
      }
    case StartDraining =>
  }

  /** An input that overtakes the one a room was registered for, such as a join by its code, seats nobody and closes it. */
  lemma OvertakenRoomCloses(cfg: Config, h: Hub, code: Code, input: Input, w: World)
    requires HubInv(cfg, h) && code in h.queued
    ensures var t := HubStep(cfg, h, RoomEvent(code, input, w)); t.rooms == h.rooms - {code} && t.liveGames == h.liveGames
  {
    hide RoomInv, Step, Unseated, Live, Bound, Q.Cancel, Counting;
    UnseatedIsIdle();
    EmptyRoomCloses(cfg, input, w.(draining := h.draining));
  }

  lemma EmptyRoomCloses(cfg: Config, input: Input, w: World)
    ensures var r := Step(cfg, Unseated(), input, w); r.closed && r.table == Unseated().table && Counting(r) == 0
  {
    hide Begin, TakenNicknames, FreeSeat, TurnOrder, AtTable, AllConnected, SeatedCount, GuestsReady, SeatOf, Occupies,
         Occupied, Expired, Scrub, Say, VacateSeat, G.Inv;
    NobodyInEmpty(w.now);
    forall sess, p ensures !Occupies(Unseated().table.seats, sess, p) { NotInEmpty(sess, p); }
    forall p ensures SeatOf(Unseated().table.seats, p) == |Unseated().table.seats| { NotInEmpty(0, p); }
  }

  lemma NobodyInEmpty(now: Time)
    ensures !Occupied(Unseated().table.seats) && Expired(Unseated().table.seats, |Unseated().table.seats|, now) == []
  {
    var seats := Unseated().table.seats;
    var gone := Expired(seats, |seats|, now);
    if gone != [] { assert Lapsed(seats[gone[0]], now); }
  }

  lemma NotInEmpty(sess: Session, p: G.PlayerID)
    ensures SeatOf(Unseated().table.seats, p) == |Unseated().table.seats| && !Occupies(Unseated().table.seats, sess, p)
  {
  }

  /** Whoever takes a seat, or comes back to one, is not left waiting to be matched away from it. */
  lemma SeatedDoNotWait(cfg: Config, h: Hub, e: HubEvent)
    requires HubInv(cfg, h)
    ensures e.TakeQueued? && e.code in h.queued ==> h.queued[e.code].sess !in HubStep(cfg, h, e).waiting
    ensures e.RoomEvent? && e.code in h.rooms ==>
      |h.rooms[e.code].table.seats| == MAX_PLAYERS
      && (h.rooms[e.code].series.engine.Some? ==> G.Inv(cfg.rules, h.rooms[e.code].series.engine.value))
      && var before := h.rooms[e.code];
         var bound := Bound(before, Step(cfg, before, e.input, e.world.(draining := h.draining)), e.input);
         bound.Some? ==> bound.value !in HubStep(cfg, h, e).waiting
  {
    if e.RoomEvent? && e.code in h.rooms { EngineOk(cfg, h.rooms[e.code]); }
    hide RoomInv, Step, SeatFirst, Bound, Live, G.Inv;
    forall x: Session ensures x !in Q.Cancel(h.waiting, x) { Q.CancelRemoves(h.waiting, x); }
  }

  /** Cancelling takes that player out of the queue, and nobody else, and touches no room. */
  lemma StoppingTakesOneOut(cfg: Config, h: Hub, sess: Session)
    requires HubInv(cfg, h)
    ensures var t := HubStep(cfg, h, StopWaiting(sess));
            t == h.(waiting := t.waiting) && forall x :: x in t.waiting <==> x in h.waiting && x != sess
  {
    hide RoomInv, Live, Q.Cancel;
    Q.CancelRemoves(h.waiting, sess);
  }

  lemma JoinCounts(cfg: Config, r: Room, sess: Session, nickname: string, w: World)
    requires |r.table.seats| == MAX_PLAYERS
    ensures OnJoin(cfg, r, sess, nickname, w).table.serials == r.table.serials + (if RoomInputs.Open(r, sess) then 1 else 0)
  {
    hide Nickname.Distinguished, TakenNicknames, Occupied, AtTable, AllConnected, SeatedCount, TurnOrder, FreeSeat, RoomInputs.Open;
    RoomInputs.OpenIs(r, sess);
  }

  lemma StepKeepsTable(cfg: Config, r: Room, input: Input, w: World)
    requires |r.table.seats| == MAX_PLAYERS && (r.series.engine.Some? ==> G.Inv(cfg.rules, r.series.engine.value)) && !r.closed
    ensures Step(cfg, r, input, w).table == Handle(cfg, r, input, w).table
  {
    hide Handle, Occupied, G.Inv;
  }

  /** Whether an input gives x a seat in the room: by joining while it is open, or by coming back to where one last sat. */
  predicate Seats(r: Room, input: Input, x: Session) {
    match input
    case Join(sess, _) => RoomInputs.Open(r, sess) && x == sess
    case Resume(player, sess, prior) =>
      var i := SeatOf(r.table.seats, player);
      && i < |r.table.seats| && x == sess
      && var sat := r.table.seats[i].value.sat; sat != [] && sat[|sat| - 1] == prior
    case _ => false
  }

  lemma BoundIs(cfg: Config, r: Room, input: Input, w: World, x: Session)
    requires RoomInv(cfg, r) && !r.closed
    ensures |r.table.seats| == MAX_PLAYERS && (r.series.engine.Some? ==> G.Inv(cfg.rules, r.series.engine.value))
    ensures Bound(r, Step(cfg, r, input, w), input) == Some(x) <==> Seats(r, input, x)
  {
    hide RoomInv, G.Inv, Step, Occupied, Opens, RoomInputs.Open, OnJoin, OnResume;
    EngineOk(cfg, r);
    match input
    case Join(sess, nickname) =>
      StepKeepsTable(cfg, r, input, w);
      JoinCounts(cfg, r, sess, nickname, w);
    case Resume(player, sess, prior) =>
      var i := SeatOf(r.table.seats, player);
      if i < |r.table.seats| { RoomInputs.OpensToTheLast(cfg, r, i, prior); }
    case _ =>
  }

  /** Whoever is given a seat leaves the quick-match queue, and nothing else that is done in a room takes anybody out of it. */
  lemma OnlyTheSeatedStopWaiting(cfg: Config, h: Hub, code: Code, input: Input, w: World, x: Session)
    requires HubInv(cfg, h) && code in h.rooms
    ensures x in HubStep(cfg, h, RoomEvent(code, input, w)).waiting <==> x in h.waiting && !Seats(h.rooms[code], input, x)
  {
    hide RoomInv, HubInv, Live, Q.Cancel, Counting, Step, G.Inv, Seats, Bound;
    RoomOf(cfg, h, code);
    WaitingIsDistinct(cfg, h);
    var r, world := h.rooms[code], w.(draining := h.draining);
    BoundIs(cfg, r, input, world, x);
    var bound := Bound(r, Step(cfg, r, input, world), input);
    if bound.Some? { Q.CancelRemoves(h.waiting, bound.value); }
  }

  lemma WaitingIsDistinct(cfg: Config, h: Hub)
    requires HubInv(cfg, h)
    ensures Distinct(h.waiting)
  {
    hide RoomInv, Live;
  }

  /**
   * Asking for a match: refused while the server is going down; otherwise a stranger who is paired leaves the queue with
   * whoever asked, and there is a room for them, which starts their game itself, unless the server is full.
   */
  lemma PairedGetARoom(cfg: Config, h: Hub, code: Code, sess: Session, dead: set<Session>)
    requires HubInv(cfg, h)
    ensures var t := HubStep(cfg, h, FindMatch(code, sess, dead)); var (left, outcome) := Q.Match(h.waiting, sess, dead);
            && (h.draining ==> t == h)
            && (!h.draining ==> t.waiting == left)
            && (!h.draining && outcome.Paired? ==>
                  && sess !in t.waiting && outcome.waiter !in t.waiting && outcome.waiter !in dead
                  && if |h.rooms| < h.maxRooms && code !in h.rooms
                     then code in t.queued && t.queued[code] == ToCreate(outcome.waiter, true)
                          && code in t.rooms && t.rooms[code] == Unseated()
                     else t.rooms == h.rooms && t.queued == h.queued)
  {
    Q.MatchIsFair(h.waiting, sess, dead);
    hide RoomInv, Live, Q.Match, Unseated;
  }

  /** Whether an event names a room by its code. */
  predicate Names(e: HubEvent, code: Code) {
    match e
    case CreateRoom(c, _) => c == code
    case CreateBotRoom(c, _) => c == code
    case FindMatch(c, _, _) => c == code
    case TakeQueued(c, _, _) => c == code
    case RoomEvent(c, _, _) => c == code
    case StopWaiting(_) => false
    case StartDraining => false
  }

  /** What happens in one room, or opens one, is no business of any other. */
  lemma RoomsAreApart(cfg: Config, h: Hub, e: HubEvent, other: Code)
    requires HubInv(cfg, h) && !Names(e, other)
    ensures var t := HubStep(cfg, h, e);
            && t.maxRooms == h.maxRooms && (t.draining <==> h.draining || e.StartDraining?)
            && (other in t.rooms <==> other in h.rooms) && (other in h.rooms ==> t.rooms[other] == h.rooms[other])
            && (other in t.queued <==> other in h.queued) && (other in h.queued ==> t.queued[other] == h.queued[other])
  {
    hide RoomInv, Live, Step, SeatFirst, Bound, Unseated, Q.Match, Q.Cancel, Counting, HubInv, G.Inv;
    if e.RoomEvent? && e.code in h.rooms {
      RoomOf(cfg, h, e.code);
      EngineOk(cfg, h.rooms[e.code]);
    }
  }

  /** A room takes its input as rooms do, whoever else is on the server, and is forgotten exactly when that closes it. */
  lemma RoomTakesItsInput(cfg: Config, h: Hub, code: Code, input: Input, w: World)
    requires HubInv(cfg, h) && code in h.rooms
    ensures var r := h.rooms[code];
            |r.table.seats| == MAX_PLAYERS && (r.series.engine.Some? ==> G.Inv(cfg.rules, r.series.engine.value))
    ensures var t := HubStep(cfg, h, RoomEvent(code, input, w));
            var after := Step(cfg, h.rooms[code], input, w.(draining := h.draining));
            && code !in t.queued
            && if after.closed then code !in t.rooms else code in t.rooms && t.rooms[code] == after
  {
    hide RoomInv, Live, Step, Bound, Q.Cancel, Counting, G.Inv, HubInv, Unseated;
    RoomOf(cfg, h, code);
    EngineOk(cfg, h.rooms[code]);
  }

  lemma RoomOf(cfg: Config, h: Hub, code: Code)
    requires HubInv(cfg, h) && code in h.rooms
    ensures RoomInv(cfg, h.rooms[code]) && !h.rooms[code].closed
  {
    hide RoomInv, Live;
  }

  /** A room is opened exactly when the server is not going down, is not full, and the code is free; it waits for whoever asked. */
  lemma OpensIff(cfg: Config, h: Hub, code: Code, sess: Session)
    requires HubInv(cfg, h)
    ensures var t, u := HubStep(cfg, h, CreateRoom(code, sess)), HubStep(cfg, h, CreateBotRoom(code, sess));
            if !h.draining && |h.rooms| < h.maxRooms && code !in h.rooms then
              && code in t.rooms && t.rooms[code] == Unseated() && code in t.queued && t.queued[code] == ToCreate(sess, false)
              && code in u.rooms && u.rooms[code] == Unseated() && code in u.queued && u.queued[code] == ToStartBot(sess)
            else t == h && u == h
  {
    hide RoomInv, Live, Unseated;
  }

  // ----- any run of the hub -----

  function HubRun(cfg: Config, h: Hub, events: seq<HubEvent>): (t: Hub)
    requires HubInv(cfg, h)
    ensures HubInv(cfg, t)
    decreases |events|
  {
    if events == [] then h
    else
      LiveGamesConserved(cfg, h, events[0]);
      HubRun(cfg, HubStep(cfg, h, events[0]), events[1..])
  }

  // ----- a server that is going down -----

  /** The rooms registered for a game against the bot that have yet to seat their player. */
  function BotRoomsDue(h: Hub): set<Code> {
    set code | code in h.queued && h.queued[code].ToStartBot?
  }

  /** A game against the bot opens on this draw. */
  predicate BotGame(cfg: Config, draw: nat) {
    var opening := cfg.rules.dict.OpeningWord(MIN_OPENING_OUT_DEGREE, draw);
    opening.Some? && G.New(cfg.rules, [G.Human(0), G.Bot], opening.value, 0).Started?
  }

  ghost predicate CanBegin(cfg: Config) { exists draw: nat :: BotGame(cfg, draw) }

  /** The games that may yet begin: seating the player of a bot room asks nobody whether the server is going down. */
  ghost function Due(cfg: Config, h: Hub): set<Code> {
    if CanBegin(cfg) then BotRoomsDue(h) else {}
  }

  /** On a dictionary that has been loaded, a game can begin, and then on any draw, when some word leaves twenty answers. */
  lemma BotGameIff(cfg: Config)
    requires cfg.rules.turnLimit > 0 && Openings.Served(cfg.rules.dict)
    ensures CanBegin(cfg) <==> Openings.SomeWordLeaves(cfg.rules.dict, 20)
    ensures forall draw: nat :: BotGame(cfg, draw) <==> CanBegin(cfg)
  {
    var players := [G.Human(0), G.Bot];
    forall draw: nat ensures BotGame(cfg, draw) <==> Openings.SomeWordLeaves(cfg.rules.dict, MIN_OPENING_OUT_DEGREE) {
      hide Openings.SomeWordLeaves, Openings.Served, G.New;
      Openings.EveryDrawPlays(cfg.rules, MIN_OPENING_OUT_DEGREE, draw, players, 0);
    }
    assert BotGame(cfg, 0) <==> Openings.SomeWordLeaves(cfg.rules.dict, MIN_OPENING_OUT_DEGREE);
  }

  lemma OppositeTurnOrder(sess: Session, nickname: string, lead: nat)
    ensures TurnOrder(Opposite(sess, nickname).table.seats, true, lead) == [G.Human(0), G.Bot]
  {
    var seats := Opposite(sess, nickname).table.seats;
    assert Taken(seats, 0) == [] && Taken(seats, 1) == [0] && Taken(seats, 2) == [0, 1] && Taken(seats, 3) == [0, 1];
    assert Taken(seats, 4) == [0, 1];
  }

  /** A bot room's game begins exactly when its player is still there and the word drawn can open one. */
  lemma BotRoomBegins(cfg: Config, sess: Session, nickname: string, w: World)
    ensures Counting(CreatedWithBot(cfg, sess, nickname, w))
            == if sess !in w.dead && BotGame(cfg, w.draw) then 1 else 0
  {
    OppositeTurnOrder(sess, nickname, w.lead);
    hide TurnOrder, Ids, Eligible;
  }

  lemma LobbyBeginsNothing(cfg: Config, sess: Session, nickname: string, autoStart: bool, w: World)
    ensures Counting(Created(cfg, sess, nickname, autoStart, w)) == 0
  {
  }

  lemma SettleCounts(h: Hub, code: Code, before: int, r: Room, sess: Option<Session>)
    ensures var t := Dequeue(Settle(h, code, before, r), sess);
            && t.draining == h.draining && BotRoomsDue(t) == BotRoomsDue(h) - {code}
            && t.liveGames == h.liveGames + Counting(r) - before
  {
    hide Q.Cancel, Counting;
  }

  /** Seating whoever a room was registered for begins a game when it is against the bot and one can be begun. */
  lemma TakeQueuedDue(cfg: Config, h: Hub, code: Code, nickname: string, w: World)
    requires HubInv(cfg, h) && code in h.queued
    ensures var t, how := HubStep(cfg, h, TakeQueued(code, nickname, w)), h.queued[code];
            && t.draining == h.draining && BotRoomsDue(t) == BotRoomsDue(h) - {code}
            && t.liveGames == h.liveGames + (if how.ToStartBot? && how.sess !in w.dead && BotGame(cfg, w.draw) then 1 else 0)
  {
    hide HubInv, Created, CreatedWithBot, Counting, BotGame, Settle, Dequeue, BotRoomsDue;
    var how := h.queued[code];
    SettleCounts(h, code, 0, SeatFirst(cfg, how, nickname, w), Some(how.sess));
    match how
    case ToCreate(sess, autoStart) => LobbyBeginsNothing(cfg, sess, nickname, autoStart, w);
    case ToStartBot(sess) => BotRoomBegins(cfg, sess, nickname, w);
  }

  /** A room's own inputs begin nothing while draining, and register no room. */
  lemma RoomEventDue(cfg: Config, h: Hub, code: Code, input: Input, w: World)
    requires HubInv(cfg, h) && h.draining && code in h.rooms
    ensures var t := HubStep(cfg, h, RoomEvent(code, input, w));
            t.draining && BotRoomsDue(t) == BotRoomsDue(h) - {code} && t.liveGames <= h.liveGames
  {
    hide RoomInv, Step, Settle, Dequeue, BotRoomsDue, Bound, Live, G.Inv;
    var before, world := h.rooms[code], w.(draining := true);
    assert w.(draining := h.draining) == world;
    EngineOk(cfg, before);
    StepStarts(cfg, before, input, world);
    var after := Step(cfg, before, input, world);
    SettleCounts(h, code, Counting(before), after, Bound(before, after, input));
  }

  /** While draining, every game that begins is one that was due: live games and games due together never rise. */
  lemma DrainingStep(cfg: Config, h: Hub, e: HubEvent)
    requires HubInv(cfg, h) && h.draining
    ensures var t := HubStep(cfg, h, e); t.draining && t.liveGames + |Due(cfg, t)| <= h.liveGames + |Due(cfg, h)|
  {
    hide HubInv, CanBegin, BotGame, BotRoomsDue, Settle, SeatFirst;
    if e.TakeQueued? && e.code in h.queued {
      TakeQueuedDue(cfg, h, e.code, e.nickname, e.world);
      CanBeginOn(cfg, e.world.draw);
      WithoutDue(h, e.code);
      hide HubStep;
    } else if e.RoomEvent? && e.code in h.rooms {
      RoomEventDue(cfg, h, e.code, e.input, e.world);
      FewerDue(BotRoomsDue(h) - {e.code}, BotRoomsDue(h));
      hide HubStep;
    } else if e.StopWaiting? {
      SettleNothing(h, Some(e.sess));
    }
  }

  lemma CanBeginOn(cfg: Config, draw: nat)
    ensures BotGame(cfg, draw) ==> CanBegin(cfg)
  {
  }

  lemma SettleNothing(h: Hub, sess: Option<Session>)
    ensures BotRoomsDue(Dequeue(h, sess)) == BotRoomsDue(h)
  {
  }

  lemma WithoutDue(h: Hub, code: Code)
    requires code in h.queued
    ensures |BotRoomsDue(h) - {code}| == |BotRoomsDue(h)| - (if h.queued[code].ToStartBot? then 1 else 0)
  {
    if !h.queued[code].ToStartBot? { assert BotRoomsDue(h) - {code} == BotRoomsDue(h); }
  }

  lemma FewerDue(a: set<Code>, b: set<Code>)
    requires a <= b
    ensures |a| <= |b|
  {
    assert b == a + (b - a);
  }

  /** Over any run of a server that is going down, no more games come to be live than were live or due when it began. */
  lemma {:induction false} DrainingOnlyFinishes(cfg: Config, h: Hub, events: seq<HubEvent>)
    requires HubInv(cfg, h) && h.draining
    ensures var t := HubRun(cfg, h, events); t.liveGames + |Due(cfg, t)| <= h.liveGames + |Due(cfg, h)|
    decreases |events|
  {
    hide HubInv, Due, HubStep;
    if events != [] {
      LiveGamesConserved(cfg, h, events[0]);
      DrainingStep(cfg, h, events[0]);
      DrainingOnlyFinishes(cfg, HubStep(cfg, h, events[0]), events[1..]);
    }
  }

  /** ... and that many can: there is a run in which every game due begins. */
  lemma {:induction false} EveryGameDueCanBegin(cfg: Config, h: Hub) returns (events: seq<HubEvent>)
    requires HubInv(cfg, h) && h.draining
    ensures HubRun(cfg, h, events).liveGames == h.liveGames + |Due(cfg, h)|
    decreases |Due(cfg, h)|
  {
    hide HubStep, HubInv, Due;
    if Due(cfg, h) == {} {
      events := [];
    } else {
      var code :| code in Due(cfg, h);
      var e := DueBegins(cfg, h, code);
      LiveGamesConserved(cfg, h, e);
      var rest := EveryGameDueCanBegin(cfg, HubStep(cfg, h, e));
      events := [e] + rest;
      RunFirst(cfg, h, e, rest);
    }
  }

  /** Any game due can be the next to begin. */
  lemma DueBegins(cfg: Config, h: Hub, code: Code) returns (e: HubEvent)
    requires HubInv(cfg, h) && code in Due(cfg, h)
    ensures var t := HubStep(cfg, h, e);
            t.draining == h.draining && Due(cfg, t) == Due(cfg, h) - {code} && t.liveGames == h.liveGames + 1
  {
    hide HubInv, BotGame, HubStep;
    var draw: nat :| BotGame(cfg, draw);
    e := TakeQueued(code, "", World(0, {}, true, draw, 0));
    TakeQueuedDue(cfg, h, code, "", e.world);
  }

  lemma RunFirst(cfg: Config, h: Hub, e: HubEvent, rest: seq<HubEvent>)
    requires HubInv(cfg, h) && HubInv(cfg, HubStep(cfg, h, e))
    ensures HubRun(cfg, h, [e] + rest) == HubRun(cfg, HubStep(cfg, h, e), rest)
  {
    hide HubInv, HubStep;
    assert ([e] + rest)[1..] == rest;
  }

  /**
   * A server that is going down starts no new game, over every run, exactly when no bot room is still waiting to seat its
   * player or no game could open. One that is waiting was registered before the drain, and its seating is not refused.
   */
  lemma DrainingStartsNothingIff(cfg: Config, h: Hub)
    requires HubInv(cfg, h) && h.draining
    ensures (forall events :: HubRun(cfg, h, events).liveGames <= h.liveGames)
            <==> (forall code <- h.queued :: h.queued[code].ToCreate?) || !CanBegin(cfg)
  {
    hide HubInv, CanBegin, HubRun;
    assert (forall code <- h.queued :: h.queued[code].ToCreate?) <==> BotRoomsDue(h) == {} by {
      if code :| code in h.queued && !h.queued[code].ToCreate? { assert code in BotRoomsDue(h); }
    }
    if Due(cfg, h) == {} {
      forall events ensures HubRun(cfg, h, events).liveGames <= h.liveGames { DrainingOnlyFinishes(cfg, h, events); }
    } else {
      var events := EveryGameDueCanBegin(cfg, h);
      assert HubRun(cfg, h, events).liveGames > h.liveGames;
    }
  }

  /** The input: a bot room is registered, the server starts going down, and the room then seats its player. */
  lemma BotRoomOutlivesTheDrain(cfg: Config, draw: nat, sess: Session, nickname: string)
    requires cfg.rules.turnLimit > 0 && BotGame(cfg, draw)
    ensures var h := Hub(map[], map[], 1, false, 0, []);
            var take := TakeQueued(7, nickname, World(0, {}, true, draw, 0));
            && HubInv(cfg, h)
            && var t := HubRun(cfg, h, [CreateBotRoom(7, sess)] + [StartDraining]);
               t.draining && t.liveGames == 0 && HubRun(cfg, t, [take] + []).liveGames == 1
  {
    hide HubInv, BotGame, HubStep, HubRun;
    var h := Hub(map[], map[], 1, false, 0, []);
    var create, take := CreateBotRoom(7, sess), TakeQueued(7, nickname, World(0, {}, true, draw, 0));
    RegisterBotRoom(cfg, h, 7, sess);
    LiveGamesConserved(cfg, h, create);
    var h1 := HubStep(cfg, h, create);
    DrainBegins(cfg, h1);
    LiveGamesConserved(cfg, h1, StartDraining);
    var h2 := HubStep(cfg, h1, StartDraining);
    TakeQueuedDue(cfg, h2, 7, nickname, take.world);
    LiveGamesConserved(cfg, h2, take);
    RunFirst(cfg, h, create, [StartDraining]);
    assert [StartDraining] == [StartDraining] + [];
    RunFirst(cfg, h1, StartDraining, []);
    RunFirst(cfg, h2, take, []);
    RunNothing(cfg, h2);
    RunNothing(cfg, HubStep(cfg, h2, take));
  }

  lemma RegisterBotRoom(cfg: Config, h: Hub, code: Code, sess: Session)
    requires cfg.rules.turnLimit > 0 && h == Hub(map[], map[], 1, false, 0, [])
    ensures HubInv(cfg, h)
    ensures var t := HubStep(cfg, h, CreateBotRoom(code, sess));
            code in t.queued && t.queued[code] == ToStartBot(sess) && t.liveGames == 0
  {
    hide Unseated;
  }

  lemma DrainBegins(cfg: Config, h: Hub)
    requires HubInv(cfg, h)
    ensures HubStep(cfg, h, StartDraining) == h.(draining := true)
  {
    hide HubInv;
  }

  lemma RunNothing(cfg: Config, h: Hub)
    requires HubInv(cfg, h)
    ensures HubRun(cfg, h, []) == h
  {
    hide HubInv;
  }

  lemma {:induction false} VacateAllStarts(r: Room, gone: seq<nat>)
    ensures VacateAll(r, gone).series == r.series
    decreases |gone|
  {
    if gone != [] {
      if gone[0] < |r.table.seats| && r.table.seats[gone[0]].Some? {
        VacateAllStarts(Vacate(r, gone[0]), gone[1..]);
      } else {
        VacateAllStarts(r, gone[1..]);
      }
    }
  }

  lemma GraceStarts(cfg: Config, r: Room, w: World)
    requires RoomInv(cfg, r)
    ensures r.series.engine.Some? ==> G.Inv(cfg.rules, r.series.engine.value)
    ensures OnGraceTimer(cfg, r, w).series.started == r.series.started
  {
    EngineOk(cfg, r);
    hide RoomInv, G.Inv, ResignAll, Vacate, VacateAll, Lapsed;
    var seats := r.table.seats;
    var gone := Expired(seats, |seats|, w.now);
    VacateAllStarts(r, gone);
    if Running(r.series) {
      var before := r.series.engine.value;
      TableOf(cfg.rules, before);
      forall k | 0 <= k < |gone| ensures seats[gone[k]].Some? { LapsedIsTaken(seats[gone[k]], w.now); }
      var after := ResignAll(cfg, before, seats, gone, w.now);
      ShapedTable(after);
      VacateAllStarts(ApplyEliminations(r, before, after), gone);
    }
  }

  lemma BotMoveStarts(cfg: Config, r: Room, choice: Option<string>, turnSeq: nat, w: World)
    requires r.series.engine.Some? ==> G.Inv(cfg.rules, r.series.engine.value)
    ensures OnBotMove(cfg, r, choice, turnSeq, w).series.started == r.series.started
  {
    hide G.Submit, G.Judge, G.NoMove, G.Resign, Credit, G.Inv;
  }

  lemma SubmitStarts(cfg: Config, r: Room, sess: Session, player: G.PlayerID, word: string, turnSeq: nat, w: World)
    requires r.series.engine.Some? ==> G.Inv(cfg.rules, r.series.engine.value)
    ensures OnSubmit(cfg, r, sess, player, word, turnSeq, w).series.started == r.series.started
  {
    hide G.Submit, G.Judge, Credit, Occupies, G.Inv;
  }

  lemma LeaveStarts(cfg: Config, r: Room, sess: Session, player: G.PlayerID, w: World)
    requires r.series.engine.Some? ==> G.Inv(cfg.rules, r.series.engine.value)
    ensures OnLeave(cfg, r, sess, player, w).series.started == r.series.started
  {
    hide G.Resign, Occupies, G.Inv, VacateSeat, Scrub;
  }

  lemma TurnsStart(cfg: Config, r: Room, sess: Session, player: G.PlayerID, w: World)
    requires r.series.engine.Some? ==> G.Inv(cfg.rules, r.series.engine.value)
    ensures OnResign(cfg, r, sess, player, w).series.started == r.series.started
    ensures OnClaimDeadEnd(cfg, r, sess, player, w).series.started == r.series.started
  {
    hide G.Resign, G.NoMove, Occupies, G.Inv, Credit;
  }

  lemma ClockStarts(cfg: Config, r: Room, w: World)
    requires r.series.engine.Some? ==> G.Inv(cfg.rules, r.series.engine.value)
    ensures OnTurnTimer(cfg, r, w).series.started == r.series.started
  {
    hide G.Timeout, G.Inv, Credit;
  }

  lemma JoinStarts(cfg: Config, r: Room, sess: Session, nickname: string, w: World)
    requires w.draining && |r.table.seats| == MAX_PLAYERS
    ensures OnJoin(cfg, r, sess, nickname, w).series == r.series
  {
    hide Occupied, AtTable, AllConnected, SeatedCount, TakenNicknames, Running, FreeSeat;
  }

  /** While the server is going down no input to a seated room begins a game. */
  lemma NoGameBegins(cfg: Config, r: Room, input: Input, w: World)
    requires RoomInv(cfg, r) && w.draining && !r.closed
    ensures |r.table.seats| == MAX_PLAYERS && (r.series.engine.Some? ==> G.Inv(cfg.rules, r.series.engine.value))
    ensures Handle(cfg, r, input, w).series.started == r.series.started
  {
    EngineOk(cfg, r);
    hide RoomInv, G.Submit, G.Judge, G.NoMove, G.Resign, G.Timeout, G.Inv, Begin, VacateSeat, Scrub, Say, Occupies, Credit,
         OnJoin, OnSubmit, OnBotMove, OnLeave, OnGraceTimer, OnResign, OnClaimDeadEnd, OnTurnTimer, SeatOf;
    match input
    case Join(sess, nickname) => JoinStarts(cfg, r, sess, nickname, w);
    case Submit(sess, player, word, turnSeq) => SubmitStarts(cfg, r, sess, player, word, turnSeq, w);
    case BotMove(choice, turnSeq) => BotMoveStarts(cfg, r, choice, turnSeq, w);
    case Leave(sess, player) => LeaveStarts(cfg, r, sess, player, w);
    case GraceTimer => GraceStarts(cfg, r, w);
    case Resign(sess, player) => TurnsStart(cfg, r, sess, player, w);
    case ClaimDeadEnd(sess, player) => TurnsStart(cfg, r, sess, player, w);
    case TurnTimer => ClockStarts(cfg, r, w);
    case _ =>
  }

  lemma StepStarts(cfg: Config, r: Room, input: Input, w: World)
    requires RoomInv(cfg, r) && w.draining
    ensures |r.table.seats| == MAX_PLAYERS && (r.series.engine.Some? ==> G.Inv(cfg.rules, r.series.engine.value))
    ensures Step(cfg, r, input, w).series.started == r.series.started
    ensures Step(cfg, r, input, w).series.finished >= r.series.finished
  {
    StepMay(cfg, r, input, w);
    hide RoomInv, Handle, G.Inv;
    if !r.closed { NoGameBegins(cfg, r, input, w); }
  }
}
