/** The hub in place: the rooms it has registered, which share one count of live games and one queue for a match. */
module HubObject {
  import opened Basics
  import opened RoomRules
  import opened RoomState
  import opened RoomHandlers
  import opened HubRules
  import H = HubRules
  import G = GameRules
  import O = RoomObject
  import Q = QuickMatch

  class HubObject {
    const cfg: Config
    const maxRooms: nat
    const live: O.LiveGames
    const queue: Q.Queue
    var rooms: map<Code, O.RoomObject>
    var queued: map<Code, Seating>
    var draining: bool

    constructor (cfg: Config, maxRooms: nat)
      requires cfg.rules.turnLimit > 0
      ensures Valid() && fresh(live) && fresh(queue)
      ensures View() == Hub(map[], map[], maxRooms, false, 0, [])
    {
      this.cfg, this.maxRooms := cfg, maxRooms;
      live := new O.LiveGames();
      queue := new Q.Queue();
      rooms, queued, draining := map[], map[], false;
    }

    ghost function Engines(): set<object>
      reads this, rooms.Values
    {
      set code | code in rooms && rooms[code].engine != null :: rooms[code].engine
    }

    /** Everything the hub and its rooms may touch. */
    ghost function Repr(): set<object>
      reads this, rooms.Values
    {
      {this, live, queue} + rooms.Values + Engines()
    }

    ghost function Views(): map<Code, Room>
      reads this, rooms.Values, Engines()
    {
      map code | code in rooms :: rooms[code].View()
    }

    ghost function View(): Hub
      reads Repr(), this, rooms.Values
    {
      Hub(Views(), queued, maxRooms, draining, live.n, queue.waiting)
    }

    /** The room belongs to this hub, and its game is played by the hub's rules. */
    ghost predicate Ours(r: O.RoomObject)
      reads r, r.engine
    {
      r.cfg == cfg && r.live == live && r.queue == queue && (r.engine != null ==> r.engine.rules == cfg.rules)
    }

    /** No two rooms are one object, or play one game. */
    ghost predicate Apart()
      reads this, rooms.Values, Engines()
    {
      && (forall code <- rooms :: Ours(rooms[code]))
      && (forall c, d :: c in rooms && d in rooms && c != d ==> rooms[c].Repr() !! rooms[d].Repr())
    }

    ghost predicate Valid()
      reads Repr(), this, rooms.Values
    {
      Apart() && HubInv(cfg, View())
    }

    /** The rooms in which a game is being played. */
    ghost function Playing(): set<Code>
      reads this, rooms.Values, Engines()
    {
      set code | code in rooms && rooms[code].engine != null && !rooms[code].engine.over
    }

    lemma PlayingIsLive()
      requires Valid()
      ensures live.n == |Playing()|
    {
      hide RoomInv, Apart;
      assert Live(Views()) == Playing();
    }

    /** One room has been served, and none of the others touched. */
    twostate predicate Served(code: Code)
      reads this, rooms.Values, Engines()
    {
      && unchanged(this) && code in rooms && Ours(rooms[code])
      && fresh(rooms[code].Repr() - old(rooms[code].Repr()))
      && forall c :: c in rooms && c != code ==>
           unchanged(rooms[c]) && (rooms[c].engine != null ==> unchanged(rooms[c].engine))
    }

    twostate lemma OthersStand(code: Code)
      requires old(Apart()) && Served(code)
      ensures Apart() && Views() == old(Views())[code := rooms[code].View()]
      ensures fresh(Repr() - old(Repr()))
    {
      forall c, d | c in rooms && d in rooms && c != d ensures rooms[c].Repr() !! rooms[d].Repr() {
        assert old(rooms[c].Repr()) !! old(rooms[d].Repr());
      }
    }

    /** Of the rooms there were, none has been touched. */
    twostate predicate NoneTouched(was: map<Code, O.RoomObject>)
      reads was.Values, set c | c in was && was[c].engine != null :: was[c].engine
    {
      forall c <- was :: unchanged(was[c]) && (was[c].engine != null ==> unchanged(was[c].engine))
    }

    /** A new room shares nothing with those there were. */
    twostate lemma NewRoomStands(code: Code, new r: O.RoomObject)
      requires old(Apart()) && fresh(r) && r.engine == null && Ours(r)
      requires rooms == old(rooms)[code := r] && NoneTouched(old(rooms))
      ensures Apart()
      ensures fresh(Repr() - old(Repr()))
    {
      forall c, d | c in rooms && d in rooms && c != d ensures rooms[c].Repr() !! rooms[d].Repr() {
        if c != code && d != code { assert old(rooms[c].Repr()) !! old(rooms[d].Repr()); }
      }
    }

    twostate lemma NewRoomShows(code: Code, new r: O.RoomObject)
      requires rooms == old(rooms)[code := r] && NoneTouched(old(rooms)) && r.View() == Unseated()
      ensures Views() == old(Views())[code := Unseated()]
    {
      hide Unseated;
    }

    /** Registers an empty room under a code nobody holds; the input it is registered for is queued for it. */
    method NewRegisteredRoom(code: Code, how: Seating) returns (ok: bool)
      requires Valid()
      modifies this`rooms, this`queued
      ensures Valid() && View() == Register(old(View()), code, how)
      ensures fresh(Repr() - old(Repr()))
      ensures ok <==> code in queued && old(code !in rooms)
    {
      hide HubInv, Unseated, Apart, Views, View, Valid, Repr;
      Parts();
      RegisterKeeps(cfg, View(), code, how);
      SameCodes();
      QueuedAreRooms(cfg, View());
      if draining || |rooms| >= maxRooms || code in rooms {
        return false;
      }
      var r := new O.RoomObject(cfg, live, queue);
      rooms := rooms[code := r];
      queued := queued[code := how];
      NewRoomStands(code, r);
      NewRoomShows(code, r);
      Parts();
      return true;
    }

    lemma SameCodes()
      ensures Views().Keys == rooms.Keys && |Views()| == |rooms|
    {
      assert |Views()| == |Views().Keys| && |rooms| == |rooms.Keys|;
    }

    /** A room that has closed is forgotten, and its code can be used again. */
    method Evict(code: Code, ghost room: Room)
      requires code in rooms && Apart() && rooms[code].View() == room
      modifies this`rooms, this`queued
      ensures Apart() && queued == old(queued) - {code}
      ensures Views() == if room.closed then old(Views()) - {code} else old(Views())
      ensures Repr() <= old(Repr())
    {
      hide Apart, Views, Repr;
      queued := queued - {code};
      if rooms[code].closed {
        rooms := rooms - {code};
        FewerStand(code);
      } else {
        SameStand();
      }
    }

    twostate lemma FewerStand(code: Code)
      requires old(Apart()) && rooms == old(rooms) - {code} && NoneTouched(old(rooms))
      ensures Apart() && Views() == old(Views()) - {code} && Repr() <= old(Repr())
    {
      forall c, d | c in rooms && d in rooms && c != d ensures rooms[c].Repr() !! rooms[d].Repr() {
        assert old(rooms[c].Repr()) !! old(rooms[d].Repr());
      }
    }

    twostate lemma SameStand()
      requires old(Apart()) && rooms == old(rooms) && NoneTouched(old(rooms))
      ensures Apart() && Views() == old(Views()) && Repr() == old(Repr())
    {
    }

    method ServeInput(code: Code, r: O.RoomObject, input: Input, w: World, ghost next: Room)
      requires Valid() && code in rooms && rooms[code] == r
      requires StepsTo(cfg, r.View(), input, w, next)
      modifies r.Repr(), live, queue
      ensures Apart() && r.View() == next && Views() == old(Views())[code := next]
      ensures live.n == old(live.n) + H.Counting(next) - H.Counting(old(r.View()))
      ensures fresh(Repr() - old(Repr()))
      ensures queue.waiting == Q.Without(old(queue.waiting), Bound(old(r.View()), next, input))
    {
      hide HubInv, RoomInv, Apart, Views, Step, Bound, Q.Without;
      ValidRoom(code);
      OthersApart(code);
      r.RunOnce(input, w);
      forall c | c in rooms && c != code
        ensures unchanged(rooms[c]) && (rooms[c].engine != null ==> unchanged(rooms[c].engine))
      {
        assert rooms[c] in old(rooms[c].Repr()) && old(rooms[c].Repr()) !! old(r.Repr());
      }
      OthersStand(code);
    }

    /** A room takes one input, and is forgotten if that was the end of it. */
    method RunRoom(code: Code, input: Input, w: World)
      requires Valid()
      modifies Repr()
      ensures Valid() && View() == HubStep(cfg, old(View()), RoomEvent(code, input, w))
      ensures fresh(Repr() - old(Repr()))
    {
      hide HubInv, RoomInv, Apart, Views, Step, StepsTo, Bound, HubStep, Ours, O.RoomObject.View, Q.Without, H.Counting, Settle,
           Dequeue, View, Valid, Repr;
      SameCodes();
      Parts();
      ghost var h := View();
      LiveGamesConserved(cfg, h, RoomEvent(code, input, w));
      ghost var next := RoomEventIs(cfg, h, code, input, w);
      if code !in rooms {
        return;
      }
      ValidRoom(code);
      WithinRepr(code);
      var r := rooms[code];
      ServeInput(code, r, input, w.(draining := draining), next);
      Evict(code, next);
      PutThenTaken(h.rooms, code, next);
      Parts();
      SettledIs(h, code, H.Counting(h.rooms[code]), next, Bound(h.rooms[code], next, input));
    }

    lemma Parts()
      ensures View() == Hub(Views(), queued, maxRooms, draining, live.n, queue.waiting)
      ensures Valid() <==> Apart() && HubInv(cfg, View())
    {
    }

    method Seat(code: Code, r: O.RoomObject, nickname: string, w: World, ghost next: Room)
      requires Valid() && code in queued && code in rooms && rooms[code] == r
      requires next == SeatFirst(cfg, queued[code], nickname, w)
      modifies r.Repr(), live, queue
      ensures Apart() && r.View() == next && Views() == old(Views())[code := next]
      ensures live.n == old(live.n) + H.Counting(next)
      ensures fresh(Repr() - old(Repr()))
      ensures queue.waiting == Q.Cancel(old(queue.waiting), queued[code].sess)
    {
      hide HubInv, RoomInv, Apart, Views, Created, CreatedWithBot, Unseated, Q.Cancel, H.Counting;
      UnseatedIsIdle();
      QueuedRoom(code);
      CountIs(r);
      OthersApart(code);
      match queued[code] {
        case ToCreate(sess, autoStart) =>
          LobbyBeginsNothing(cfg, sess, nickname, autoStart, w);
          r.HandleCreate(sess, nickname, autoStart, w);
        case ToStartBot(sess) =>
          r.HandleStartBot(sess, nickname, w);
      }
      forall c | c in rooms && c != code
        ensures unchanged(rooms[c]) && (rooms[c].engine != null ==> unchanged(rooms[c].engine))
      {
        assert rooms[c] in old(rooms[c].Repr()) && old(rooms[c].Repr()) !! old(r.Repr());
      }
      CountIs(r);
      OthersStand(code);
    }

    lemma CountIs(r: O.RoomObject)
      ensures H.Counting(r.View()) == r.Counting()
    {
    }

    /** A room takes the input it was registered for: its creator, or the player of a game against the bot, is seated. */
    method TakeQueuedInput(code: Code, nickname: string, w: World)
      requires Valid()
      modifies Repr()
      ensures Valid() && View() == HubStep(cfg, old(View()), TakeQueued(code, nickname, w))
      ensures fresh(Repr() - old(Repr()))
    {
      hide HubInv, RoomInv, Apart, Views, HubStep, Ours, O.RoomObject.View, H.Counting, Settle, Dequeue, View, Valid,
           Repr, SeatFirst, Q.Cancel, Unseated;
      Parts();
      ghost var h := View();
      LiveGamesConserved(cfg, h, TakeQueued(code, nickname, w));
      TakeQueuedIs(cfg, h, code, nickname, w);
      if code !in queued {
        return;
      }
      QueuedRoom(code);
      WithinRepr(code);
      ghost var next, sess := SeatFirst(cfg, queued[code], nickname, w), queued[code].sess;
      var r := rooms[code];
      Seat(code, r, nickname, w, next);
      Evict(code, next);
      PutThenTaken(h.rooms, code, next);
      Parts();
      SettledIs(h, code, 0, next, Some(sess));
    }

    /** Pairs a player with the stranger who has waited longest, in a room that will start their game itself. */
    method QuickMatch(code: Code, sess: Session, dead: set<Session>) returns (outcome: Option<Q.Outcome>)
      requires Valid()
      modifies this`rooms, this`queued, queue
      ensures Valid() && View() == HubStep(cfg, old(View()), FindMatch(code, sess, dead))
      ensures fresh(Repr() - old(Repr()))
      ensures outcome.None? <==> draining
    {
      hide HubInv, Apart, Views, Unseated, Register, Q.Match;
      LiveGamesConserved(cfg, View(), FindMatch(code, sess, dead));
      MatchLeavesRooms(cfg, View(), sess, dead);
      if draining {
        return None;
      }
      var found := queue.QuickMatch(sess, dead);
      SameStand();
      if found.Paired? {
        var _ := NewRegisteredRoom(code, ToCreate(found.waiter, true));
      }
      return Some(found);
    }

    /** One thing the hub does or one of its rooms does. After any of them the count is the rooms with a game in them. */
    method Serve(e: HubEvent)
      requires Valid()
      modifies Repr()
      ensures Valid() && View() == HubStep(cfg, old(View()), e)
      ensures fresh(Repr() - old(Repr()))
      ensures live.n == |Playing()|
    {
      hide HubInv, RoomInv, Apart, Views, Unseated, Step, SeatFirst, Settle, Q.Match, Q.Cancel, Bound;
      LiveGamesConserved(cfg, View(), e);
      match e {
        case CreateRoom(code, sess) => var _ := NewRegisteredRoom(code, ToCreate(sess, false));
        case CreateBotRoom(code, sess) => var _ := NewRegisteredRoom(code, ToStartBot(sess));
        case FindMatch(code, sess, dead) => var _ := QuickMatch(code, sess, dead);
        case StopWaiting(sess) =>
          queue.CancelQuickMatch(sess);
          SameStand();
        case TakeQueued(code, nickname, w) => TakeQueuedInput(code, nickname, w);
        case RoomEvent(code, input, w) => RunRoom(code, input, w);
        case StartDraining =>
          draining := true;
          SameStand();
      }
      PlayingIsLive();
    }

    /** Any run of the server: it is a run of the hub, and the count it ends with is the rooms with a game in them. */
    method ServeAll(events: seq<HubEvent>)
      requires Valid()
      modifies Repr()
      ensures Valid() && View() == HubRun(cfg, old(View()), events)
      ensures live.n == |Playing()|
    {
      hide HubInv, RoomInv, HubStep, Apart, View;
      PlayingIsLive();
      for i := 0 to |events|
        invariant Valid() && fresh(Repr() - old(Repr()))
        invariant HubRun(cfg, View(), events[i..]) == HubRun(cfg, old(View()), events)
        invariant live.n == |Playing()|
      {
        assert events[i..][1..] == events[i + 1..];
        Serve(events[i]);
      }
      assert events[|events|..] == [];
    }

    lemma WithinRepr(code: Code)
      requires code in rooms
      ensures rooms[code].Repr() <= Repr() && {this, live, queue} <= Repr()
    {
    }

    lemma OthersApart(code: Code)
      requires Apart() && code in rooms
      ensures forall c :: c in rooms && c != code ==> rooms[c].Repr() !! rooms[code].Repr()
    {
    }

    lemma ValidRoom(code: Code)
      requires Valid() && code in rooms
      ensures rooms[code].Valid() && !rooms[code].closed && Ours(rooms[code])
      ensures code in Views() && Views()[code] == rooms[code].View()
    {
      hide RoomInv, Apart;
      assert code in Views() && View().rooms[code] == rooms[code].View();
      OursAt(code);
    }

    lemma OursAt(code: Code)
      requires Apart() && code in rooms
      ensures Ours(rooms[code])
    {
    }

    lemma QueuedRoom(code: Code)
      requires Valid() && code in queued
      ensures code in rooms && rooms[code].View() == Unseated() && rooms[code].engine == null && Ours(rooms[code])
    {
      hide RoomInv, Apart;
      assert View().rooms[code] == Unseated() && View().rooms[code] == rooms[code].View();
      OursAt(code);
    }
  }

  lemma MatchLeavesRooms(cfg: Config, h: Hub, sess: Session, dead: set<Session>)
    requires HubInv(cfg, h)
    ensures HubInv(cfg, h.(waiting := Q.Match(h.waiting, sess, dead).0))
  {
    hide RoomInv, Live, Q.Match;
    Q.MatchIsFair(h.waiting, sess, dead);
  }

  lemma PutThenTaken(rooms: map<Code, Room>, code: Code, r: Room)
    ensures rooms[code := r] - {code} == rooms - {code}
  {
  }

  /** The room goes from r to next in one turn of its loop. */
  ghost predicate StepsTo(cfg: Config, r: Room, input: Input, w: World, next: Room) {
    && |r.table.seats| == MAX_PLAYERS && (r.series.engine.Some? ==> G.Inv(cfg.rules, r.series.engine.value))
    && next == Step(cfg, r, input, w)
  }

  lemma RoomEventIs(cfg: Config, h: Hub, code: Code, input: Input, w: World) returns (next: Room)
    requires HubInv(cfg, h)
    ensures code !in h.rooms ==> HubStep(cfg, h, RoomEvent(code, input, w)) == h
    ensures code in h.rooms ==>
      StepsTo(cfg, h.rooms[code], input, w.(draining := h.draining), next)
      && HubStep(cfg, h, RoomEvent(code, input, w))
         == Dequeue(Settle(h, code, H.Counting(h.rooms[code]), next), Bound(h.rooms[code], next, input))
  {
    hide RoomInv, Step, Settle, Dequeue, Bound, Live, G.Inv;
    next := Unseated();
    if code in h.rooms {
      EngineOk(cfg, h.rooms[code]);
      next := Step(cfg, h.rooms[code], input, w.(draining := h.draining));
    }
  }

  lemma TakeQueuedIs(cfg: Config, h: Hub, code: Code, nickname: string, w: World)
    requires HubInv(cfg, h)
    ensures HubStep(cfg, h, TakeQueued(code, nickname, w))
            == if code !in h.queued then h
               else Dequeue(Settle(h, code, 0, SeatFirst(cfg, h.queued[code], nickname, w)), Some(h.queued[code].sess))
  {
    hide HubInv, Settle, Dequeue, SeatFirst;
  }

  lemma SettledIs(h: Hub, code: Code, before: int, room: Room, bound: Option<Session>)
    ensures Dequeue(Settle(h, code, before, room), bound)
            == Hub(if room.closed then h.rooms - {code} else h.rooms[code := room], h.queued - {code}, h.maxRooms, h.draining,
                   h.liveGames + H.Counting(room) - before, Q.Without(h.waiting, bound))
  {
  }

  lemma QueuedAreRooms(cfg: Config, h: Hub)
    requires HubInv(cfg, h)
    ensures forall code <- h.queued :: code in h.rooms
  {
  }
}
