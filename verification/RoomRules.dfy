/** A room as functions on its state: seats, lobby, games, presence and chat, one function for each input it takes. */
module RoomRules {
  import opened Basics
  import G = GameRules
  import Nickname

  const MAX_PLAYERS: nat := 4
  const MIN_PLAYERS: nat := 2
  const CHAT_HISTORY_LIMIT: nat := 20
  const MIN_OPENING_OUT_DEGREE: nat := 20

  type Time = G.Time

  /** A connection; whether it is still alive is asked when an input is handled. */
  type Session = nat

  /**
   * One side of a game. `serial` tells this seat from every other that was ever filled, and `sat` lists the
   * connections that have sat in it; the room never decides anything by either. `missed` is the result owed to a player
   * who was away when the last game ended.
   */
  datatype Seat = Seat(
    serial: nat,
    id: G.PlayerID,
    nickname: string,
    sess: Option<Session>,
    ready: bool,
    chatFrom: nat,
    wins: nat,
    graceUntil: Option<Time>,
    heldFor: Option<Session>,
    sat: seq<Session>,
    missed: Option<Result>)

  /** How a finished game is put to one player: whether it is theirs, and the game, from which the table is drawn. */
  datatype Result = Result(won: bool, final: G.State)

  type Seats = seq<Option<Seat>>

  /** One line of the conversation. `speaker` is the serial of the seat it was said from. */
  datatype Line = Line(seqNo: nat, author: G.PlayerID, name: string, text: string, speaker: nat)

  /** The seats, the owner, and how many seats have ever been filled. */
  datatype Table = Table(seats: Seats, owner: G.PlayerID, serials: nat)

  /** The recent conversation, oldest first, and how many lines were ever said. */
  datatype Talk = Talk(chat: seq<Line>, chatSeq: nat)

  /**
   * The games of a room. `roster` is who sat where when the game began, by serial, and `results` the serial of each
   * finished game's winner.
   */
  datatype Series = Series(
    engine: Option<G.State>,
    turnSeq: nat,
    liveCounted: bool,
    started: nat,
    finished: nat,
    roster: map<G.PlayerID, nat>,
    results: seq<nat>)

  datatype Room = Room(withBot: bool, autoStart: bool, table: Table, talk: Talk, series: Series, closed: bool)

  /** What a room is run under: the rules of its games, the reconnect window and the text filters. */
  datatype Config = Config(rules: G.Rules, graceFor: int, sanitizeWord: string -> string, sanitizeChat: string -> string,
                           space: char -> bool)

  /** What a handler finds outside the room: the time, who is dead, the hub, the draws of an opening and of the lead. */
  datatype World = World(now: Time, dead: set<Session>, draining: bool, draw: nat, lead: nat)

  datatype Input =
    | Join(sess: Session, nickname: string)
    | Submit(sess: Session, player: G.PlayerID, word: string, turnSeq: nat)
    | BotMove(choice: Option<string>, turnSeq: nat)
    | Ready(sess: Session, player: G.PlayerID, ready: bool)
    | Start(sess: Session, player: G.PlayerID)
    | Kick(sess: Session, player: G.PlayerID, target: G.PlayerID)
    | Leave(sess: Session, player: G.PlayerID)
    | Chat(sess: Session, player: G.PlayerID, text: string)
    | Resign(sess: Session, player: G.PlayerID)
    | ClaimDeadEnd(sess: Session, player: G.PlayerID)
    | Disconnect(player: G.PlayerID, sess: Session)
    | Resume(player: G.PlayerID, sess: Session, prior: Session)
    | TurnTimer
    | GraceTimer
    | Close

  // ----- seats -----

  /** The first seat from lo up that p holds, or |seats|. */
  function SeatFrom(seats: Seats, p: G.PlayerID, lo: nat): (i: nat)
    requires lo <= |seats|
    ensures lo <= i <= |seats|
    ensures i < |seats| ==> seats[i].Some? && seats[i].value.id == p
    ensures forall k :: lo <= k < i && seats[k].Some? ==> seats[k].value.id != p
    decreases |seats| - lo
  {
    if lo == |seats| then lo
    else if seats[lo].Some? && seats[lo].value.id == p then lo
    else SeatFrom(seats, p, lo + 1)
  }

  function SeatOf(seats: Seats, p: G.PlayerID): (i: nat)
    ensures i <= |seats|
    ensures i < |seats| ==> seats[i].Some? && seats[i].value.id == p
  {
    SeatFrom(seats, p, 0)
  }

  predicate Occupies(seats: Seats, sess: Session, p: G.PlayerID) {
    var i := SeatOf(seats, p);
    i < |seats| && seats[i].value.sess == Some(sess)
  }

  /** The first free seat, or |seats|. */
  function FreeSeat(seats: Seats): (i: nat)
    ensures i <= |seats| && (i < |seats| ==> seats[i].None?) && forall k :: 0 <= k < i ==> seats[k].Some?
  {
    FreeFrom(seats, 0)
  }

  function FreeFrom(seats: Seats, lo: nat): (i: nat)
    requires lo <= |seats|
    ensures lo <= i <= |seats| && (i < |seats| ==> seats[i].None?) && forall k :: lo <= k < i ==> seats[k].Some?
    decreases |seats| - lo
  {
    if lo == |seats| || seats[lo].None? then lo else FreeFrom(seats, lo + 1)
  }

  /** The indices of the first n seats that are occupied, in order. */
  function Taken(seats: Seats, n: nat): (r: seq<nat>)
    requires n <= |seats|
    ensures |r| <= n && forall k :: 0 <= k < |r| ==> r[k] < n && seats[r[k]].Some?
  {
    if n == 0 then []
    else Taken(seats, n - 1) + (if seats[n - 1].Some? then [n - 1] else [])
  }

  function SeatedCount(seats: Seats): nat { |Taken(seats, |seats|)| }

  predicate Occupied(seats: Seats) {
    exists i :: 0 <= i < |seats| && seats[i].Some?
  }

  predicate AllConnected(seats: Seats) {
    forall i :: 0 <= i < |seats| && seats[i].Some? ==> seats[i].value.sess.Some?
  }

  predicate GuestsReady(seats: Seats, owner: G.PlayerID) {
    forall i :: 0 <= i < |seats| && seats[i].Some? && seats[i].value.id != owner ==> seats[i].value.ready
  }

  predicate AtTable(seats: Seats, sess: Session) {
    exists i :: 0 <= i < |seats| && seats[i].Some? && seats[i].value.sess == Some(sess)
  }

  function Ids(seats: Seats): (r: seq<G.PlayerID>) {
    var taken := Taken(seats, |seats|);
    seq(|taken|, k requires 0 <= k < |taken| => seats[taken[k]].value.id)
  }

  function TakenNicknames(seats: Seats): (r: seq<string>)
    ensures |r| <= |seats|
  {
    var taken := Taken(seats, |seats|);
    seq(|taken|, k requires 0 <= k < |taken| => seats[taken[k]].value.nickname)
  }

  function NewSeat(t: Table, i: nat, nickname: string, sess: Session, chatFrom: nat): Seat {
    Seat(t.serials, G.Human(i), nickname, Some(sess), false, chatFrom, 0, None, None, [sess], None)
  }

  function TakeSeat(t: Table, i: nat, seat: Seat): Table
    requires i < |t.seats|
  {
    t.(seats := t.seats[i := Some(seat)], serials := t.serials + 1)
  }

  /** Opens a seat's reconnect window. */
  function Held(s: Seat, until: Time): Seat {
    s.(heldFor := s.sess, sess := None, graceUntil := Some(until))
  }

  /** Hands the room to the first player left. */
  function Promote(t: Table): Table {
    var taken := Taken(t.seats, |t.seats|);
    if taken == [] then t.(owner := G.Nobody)
    else
      var heir := t.seats[taken[0]].value;
      t.(owner := heir.id, seats := t.seats[taken[0] := Some(heir.(ready := false))])
  }

  /** Frees seat i for good, and hands the room on when it was the owner's. */
  function VacateSeat(t: Table, i: nat): Table
    requires i < |t.seats| && t.seats[i].Some?
  {
    var freed := t.(seats := t.seats[i := None]);
    if t.owner == t.seats[i].value.id then Promote(freed) else freed
  }

  // ----- the conversation -----

  function Scrubbed(l: Line, id: G.PlayerID): Line {
    if l.author == id then l.(author := G.Nobody, name := "") else l
  }

  /** The words stay, the attribution goes. */
  function Scrub(chat: seq<Line>, id: G.PlayerID): (r: seq<Line>) {
    seq(|chat|, k requires 0 <= k < |chat| => Scrubbed(chat[k], id))
  }

  function Say(talk: Talk, s: Seat, text: string): Talk {
    var chat := talk.chat + [Line(talk.chatSeq + 1, s.id, s.nickname, text, s.serial)];
    Talk(if |chat| > CHAT_HISTORY_LIMIT then chat[|chat| - CHAT_HISTORY_LIMIT..] else chat, talk.chatSeq + 1)
  }

  /** What a seat is shown of the conversation: the lines among the first n that came after it was filled. */
  function History(chat: seq<Line>, chatFrom: nat, n: nat): seq<Line>
    requires n <= |chat|
  {
    if n == 0 then []
    else History(chat, chatFrom, n - 1) + (if chat[n - 1].seqNo <= chatFrom then [] else [chat[n - 1]])
  }

  predicate FromMe(l: Line, id: G.PlayerID) { l.author != G.Nobody && l.author == id }

  // ----- games -----

  predicate Running(s: Series) { s.engine.Some? && !s.engine.value.over }

  predicate Finished(s: Series) { s.engine.Some? && s.engine.value.over }

  function Rotate(ids: seq<G.PlayerID>, lead: nat): seq<G.PlayerID>
    requires lead <= |ids|
  {
    ids[lead..] + ids[..lead]
  }

  /** Who plays, in turn order. In a bot room the human opens; elsewhere the lead is drawn. */
  function TurnOrder(seats: Seats, withBot: bool, lead: nat): seq<G.PlayerID> {
    var ids := Ids(seats);
    if withBot || ids == [] then ids else Rotate(ids, lead % |ids|)
  }

  /** Every readiness is spent, and nobody is owed the result of an earlier game. */
  function Unready(seats: Seats): Seats {
    seq(|seats|, i requires 0 <= i < |seats| =>
      if seats[i].Some? then Some(seats[i].value.(ready := false, missed := None)) else None)
  }

  /** Which seat, by serial, each player starts the game in. */
  function Roster(seats: Seats, n: nat): map<G.PlayerID, nat>
    requires n <= |seats|
  {
    if n == 0 then map[]
    else if seats[n - 1].Some? then Roster(seats, n - 1)[seats[n - 1].value.id := seats[n - 1].value.serial]
    else Roster(seats, n - 1)
  }

  /** The room with a new game on: a sequence number of its own, and every readiness spent. */
  function WithGame(r: Room, engine: G.State): Room {
    r.(table := r.table.(seats := Unready(r.table.seats)),
       series := r.series.(engine := Some(engine), turnSeq := r.series.turnSeq + 1, liveCounted := true,
                           started := r.series.started + 1, roster := Roster(r.table.seats, |r.table.seats|)))
  }

  /** The word drawn to open a game on, if the dictionary has one to draw. */
  function Opening(cfg: Config, w: World): Option<string> {
    cfg.rules.dict.OpeningWord(MIN_OPENING_OUT_DEGREE, w.draw)
  }

  /** Begins a game, or leaves the room as it is when none can be begun. */
  function Begin(cfg: Config, r: Room, w: World): Room {
    if Opening(cfg, w).None? then r
    else
      match G.New(cfg.rules, TurnOrder(r.table.seats, r.withBot, w.lead), Opening(cfg, w).value, w.now)
      case Refused => r
      case Started(engine) => WithGame(r, engine)
  }

  function StopCountingLive(s: Series): Series {
    if s.liveCounted then s.(liveCounted := false, finished := s.finished + 1) else s
  }

  /** Credits p with a win, if p is still seated. */
  function Credit(seats: Seats, p: G.PlayerID): Seats {
    var i := SeatOf(seats, p);
    if i < |seats| then seats[i := Some(seats[i].value.(wins := seats[i].value.wins + 1))] else seats
  }

  /** A seat once the game is over: with nobody connected to it, it is kept its own version of the result. */
  function Told(s: Seat, final: G.State): Seat {
    if s.id == G.Bot then s
    else s.(missed := if s.sess.None? then Some(Result(final.winner == s.id, final)) else None)
  }

  function ToldAll(seats: Seats, final: G.State): Seats {
    seq(|seats|, i requires 0 <= i < |seats| => if seats[i].Some? then Some(Told(seats[i].value, final)) else None)
  }

  /** The seats of a game that has just finished: its winner credited, and everybody who is away kept the result. */
  function Ended(seats: Seats, final: G.State): Seats { ToldAll(Credit(seats, final.winner), final) }

  function SerialOf(roster: map<G.PlayerID, nat>, p: G.PlayerID): nat {
    if p in roster then roster[p] else 0
  }

  /**
   * What the room makes of the game having gone from `before` to `after` by eliminations: nothing if there were none,
   * the end of the game, or a new turn sequence if the turn moved.
   */
  function ApplyEliminations(r: Room, before: G.State, after: G.State): Room
    requires G.Shaped(before) && G.Shaped(after)
  {
    var s := r.series.(engine := Some(after));
    if |after.outOrder| == |before.outOrder| then r.(series := s)
    else if after.over then
      r.(table := r.table.(seats := Ended(r.table.seats, after)),
         series := StopCountingLive(s).(results := s.results + [SerialOf(s.roster, after.winner)]))
    else
      r.(series := s.(turnSeq := s.turnSeq + (if G.Turn(after) != G.Turn(before) then 1 else 0)))
  }

  function Vacate(r: Room, i: nat): Room
    requires i < |r.table.seats| && r.table.seats[i].Some?
  {
    r.(table := VacateSeat(r.table, i), talk := r.talk.(chat := Scrub(r.talk.chat, r.table.seats[i].value.id)))
  }

  function Reseat(r: Room, i: nat, s: Seat): Room
    requires i < |r.table.seats|
  {
    r.(table := r.table.(seats := r.table.seats[i := Some(s)]))
  }

  // ----- what each input does -----

  /** A room nobody has been seated in yet. */
  function Unseated(): Room {
    Room(false, false, Table([None, None, None, None], G.Nobody, 0), Talk([], 0), Series(None, 0, false, 0, 0, map[], []),
         false)
  }

  /** A room its creator has just been seated in. */
  function Created(cfg: Config, sess: Session, nickname: string, autoStart: bool, w: World): Room {
    var s := Seat(0, G.Human(0), nickname, Some(sess), false, 0, 0, None, None, [sess], None);
    var seated := if sess in w.dead then Held(s, w.now + cfg.graceFor) else s;
    Room(false, autoStart, Table([Some(seated), None, None, None], G.Human(0), 1), Talk([], 0),
         Series(None, 0, false, 0, 0, map[], []), false)
  }

  /** A player seated opposite the bot. */
  function Opposite(sess: Session, nickname: string): Room {
    var s := Seat(0, G.Human(0), nickname, Some(sess), false, 0, 0, None, None, [sess], None);
    var bot := Seat(1, G.Bot, "Máy", None, false, 0, 0, None, None, [], None);
    Room(true, false, Table([Some(s), Some(bot), None, None], G.Human(0), 2), Talk([], 0),
         Series(None, 0, false, 0, 0, map[], []), false)
  }

  /** A bot room its player has just been seated in: its game is on, or it is over at once. */
  function CreatedWithBot(cfg: Config, sess: Session, nickname: string, w: World): Room {
    var r := Opposite(sess, nickname);
    var begun := if sess in w.dead then r else Begin(cfg, r, w);
    if Running(begun.series) then begun else OnClose(begun)
  }

  /** What a new room is opened for, before anybody is seated in it: a lobby, or a game against the bot. */
  datatype Seating = ToCreate(sess: Session, autoStart: bool) | ToStartBot(sess: Session)

  /** The room once whoever opened it has been seated. */
  function SeatFirst(cfg: Config, how: Seating, nickname: string, w: World): Room {
    match how
    case ToCreate(sess, autoStart) => Created(cfg, sess, nickname, autoStart, w)
    case ToStartBot(sess) => CreatedWithBot(cfg, sess, nickname, w)
  }

  /** A joiner is seated under a name nobody here has; a matched pair who are both still here begin at once. */
  function JoinedAt(cfg: Config, r: Room, free: nat, sess: Session, nickname: string, matched: bool, w: World): Room
    requires |r.table.seats| == MAX_PLAYERS && free < |r.table.seats|
  {
    var taken := TakenNicknames(r.table.seats);
    Nickname.FewFit(|taken|);
    var s := NewSeat(r.table, free, Nickname.Distinguished(nickname, taken, cfg.space), sess, r.talk.chatSeq);
    if sess in w.dead then r.(table := TakeSeat(r.table, free, Held(s, w.now + cfg.graceFor)))
    else
      var joined := r.(table := TakeSeat(r.table, free, s));
      if matched && SeatedCount(joined.table.seats) >= MIN_PLAYERS && AllConnected(joined.table.seats) && !w.draining
      then Begin(cfg, joined, w)
      else joined
  }

  function OnJoin(cfg: Config, r: Room, sess: Session, nickname: string, w: World): Room
    requires |r.table.seats| == MAX_PLAYERS
  {
    var seats, disarmed := r.table.seats, r.(autoStart := false);
    var free := FreeSeat(seats);
    if free == |seats| || !Occupied(seats) || Running(r.series) || AtTable(seats, sess) then disarmed
    else JoinedAt(cfg, disarmed, free, sess, nickname, r.autoStart, w)
  }

  function OnSubmit(cfg: Config, r: Room, sess: Session, player: G.PlayerID, word: string, turnSeq: nat, w: World): Room
    requires r.series.engine.Some? ==> G.Inv(cfg.rules, r.series.engine.value)
  {
    if !Occupies(r.table.seats, sess, player) || r.series.engine.None? || turnSeq != r.series.turnSeq then r
    else Submitted(cfg, r, player, cfg.sanitizeWord(word), w)
  }

  /** A word put to the engine: an accepted one moves the sequence on, a late one may have taken its player out. */
  function Submitted(cfg: Config, r: Room, player: G.PlayerID, word: string, w: World): Room
    requires r.series.engine.Some? && G.Inv(cfg.rules, r.series.engine.value)
  {
    var before := r.series.engine.value;
    var after := G.Submit(cfg.rules, before, player, word, w.now);
    if G.Judge(cfg.rules, before, player, word, w.now).Accepted? then
      r.(series := r.series.(engine := Some(after), turnSeq := r.series.turnSeq + 1))
    else ApplyEliminations(r, before, after)
  }

  function OnBotMove(cfg: Config, r: Room, choice: Option<string>, turnSeq: nat, w: World): Room
    requires r.series.engine.Some? ==> G.Inv(cfg.rules, r.series.engine.value)
  {
    if !Running(r.series) || turnSeq != r.series.turnSeq || G.Turn(r.series.engine.value) != G.Bot then r
    else
      var before := r.series.engine.value;
      match choice
      case None =>
        var settled := G.NoMove(cfg.rules, before, w.now);
        ApplyEliminations(r, before, if settled != before then settled else G.Resign(cfg.rules, before, G.Bot, w.now))
      case Some(word) =>
        if G.Judge(cfg.rules, before, G.Bot, word, w.now).Accepted? then Submitted(cfg, r, G.Bot, word, w)
        else
          G.SubmitKeepsTable(cfg.rules, before, G.Bot, word, w.now);
          var after := G.Submit(cfg.rules, before, G.Bot, word, w.now);
          ApplyEliminations(r, before, G.Resign(cfg.rules, after, G.Bot, w.now))
  }

  function OnReady(r: Room, sess: Session, player: G.PlayerID, ready: bool): Room {
    var i := SeatOf(r.table.seats, player);
    if !Occupies(r.table.seats, sess, player) || r.withBot || Running(r.series) || player == r.table.owner then r
    else Reseat(r, i, r.table.seats[i].value.(ready := ready))
  }

  function OnStart(cfg: Config, r: Room, sess: Session, player: G.PlayerID, w: World): Room {
    var seats := r.table.seats;
    if !Occupies(seats, sess, player) || r.withBot || Running(r.series) || player != r.table.owner || w.draining
       || SeatedCount(seats) < MIN_PLAYERS || !AllConnected(seats) || !GuestsReady(seats, r.table.owner) then r
    else Begin(cfg, r, w)
  }

  function OnKick(r: Room, sess: Session, player: G.PlayerID, target: G.PlayerID): Room {
    var seats := r.table.seats;
    var i := SeatOf(seats, target);
    if !Occupies(seats, sess, player) || r.withBot || Running(r.series) || player != r.table.owner
       || i == |seats| || target == player || seats[i].value.ready then r
    else Vacate(r, i)
  }

  function OnLeave(cfg: Config, r: Room, sess: Session, player: G.PlayerID, w: World): Room
    requires r.series.engine.Some? ==> G.Inv(cfg.rules, r.series.engine.value)
  {
    var seats := r.table.seats;
    var i := SeatOf(seats, player);
    if !Occupies(seats, sess, player) || r.withBot then r
    else if Running(r.series) then
      var before := r.series.engine.value;
      CreditKeeps(seats, G.Resign(cfg.rules, before, player, w.now).winner);
      Vacate(ApplyEliminations(r, before, G.Resign(cfg.rules, before, player, w.now)), i)
    else if seats[i].value.ready then r
    else Vacate(r, i)
  }

  lemma CreditKeeps(seats: Seats, p: G.PlayerID)
    ensures |Credit(seats, p)| == |seats| && forall i :: 0 <= i < |seats| ==> (Credit(seats, p)[i].Some? <==> seats[i].Some?)
  {
  }

  function OnChat(cfg: Config, r: Room, sess: Session, player: G.PlayerID, text: string): Room {
    var said := cfg.sanitizeChat(text);
    if !Occupies(r.table.seats, sess, player) || r.withBot || said == "" then r
    else r.(talk := Say(r.talk, r.table.seats[SeatOf(r.table.seats, player)].value, said))
  }

  function OnResign(cfg: Config, r: Room, sess: Session, player: G.PlayerID, w: World): Room
    requires r.series.engine.Some? ==> G.Inv(cfg.rules, r.series.engine.value)
  {
    if !Occupies(r.table.seats, sess, player) || !Running(r.series) || G.Turn(r.series.engine.value) != player then r
    else
      var before := r.series.engine.value;
      ApplyEliminations(r, before, G.Resign(cfg.rules, before, player, w.now))
  }

  function OnClaimDeadEnd(cfg: Config, r: Room, sess: Session, player: G.PlayerID, w: World): Room
    requires r.series.engine.Some? ==> G.Inv(cfg.rules, r.series.engine.value)
  {
    if !Occupies(r.table.seats, sess, player) || !Running(r.series) || G.Turn(r.series.engine.value) != player then r
    else
      var before := r.series.engine.value;
      ApplyEliminations(r, before, G.NoMove(cfg.rules, before, w.now))
  }

  function OnDisconnect(cfg: Config, r: Room, player: G.PlayerID, sess: Session, w: World): Room {
    if !Occupies(r.table.seats, sess, player) then r
    else
      var i := SeatOf(r.table.seats, player);
      Reseat(r, i, Held(r.table.seats[i].value, w.now + cfg.graceFor))
  }

  /** Whether a resume opens this seat: its connection is the one being replaced, or the one it is held for. */
  predicate Opens(s: Seat, prior: Session) {
    s.sess == Some(prior) || (s.sess.None? && s.heldFor == Some(prior))
  }

  /** The seat with a new connection in it, and its window closed. */
  function Back(s: Seat, sess: Session): Seat {
    s.(sess := Some(sess), heldFor := None, graceUntil := None, sat := s.sat + [sess])
  }

  function OnResume(cfg: Config, r: Room, player: G.PlayerID, sess: Session, prior: Session, w: World): Room {
    var i := SeatOf(r.table.seats, player);
    if i == |r.table.seats| || !Opens(r.table.seats[i].value, prior) then r
    else
      var back := Back(r.table.seats[i].value, sess);
      Reseat(r, i, if sess in w.dead then Held(back, w.now + cfg.graceFor)
                   else if Running(r.series) then back else back.(missed := None))
  }

  /** The result a resume is answered with: the one kept for the seat, once there is somebody back in its lobby to see it. */
  function Replayed(r: Room, player: G.PlayerID, sess: Session, prior: Session, w: World): Option<Result> {
    var i := SeatOf(r.table.seats, player);
    if i == |r.table.seats| || !Opens(r.table.seats[i].value, prior) || sess in w.dead || Running(r.series) then None
    else r.table.seats[i].value.missed
  }

  function OnTurnTimer(cfg: Config, r: Room, w: World): Room
    requires r.series.engine.Some? ==> G.Inv(cfg.rules, r.series.engine.value)
  {
    if r.series.engine.None? then r
    else
      var before := r.series.engine.value;
      ApplyEliminations(r, before, G.Timeout(cfg.rules, before, w.now))
  }

  predicate Lapsed(seat: Option<Seat>, now: Time) {
    seat.Some? && seat.value.sess.None? && seat.value.graceUntil.Some? && seat.value.graceUntil.value <= now
  }

  /** The earliest reconnect window open among the first n seats. */
  function EarliestGrace(seats: Seats, n: nat): Option<Time>
    requires n <= |seats|
  {
    if n == 0 then None
    else
      var earlier := EarliestGrace(seats, n - 1);
      if seats[n - 1].None? || seats[n - 1].value.sess.Some? || seats[n - 1].value.graceUntil.None? then earlier
      else if earlier.None? || seats[n - 1].value.graceUntil.value < earlier.value then seats[n - 1].value.graceUntil
      else earlier
  }

  /** The seats among the first n whose reconnect window has run out. */
  function Expired(seats: Seats, n: nat, now: Time): (r: seq<nat>)
    requires n <= |seats|
    ensures forall k :: 0 <= k < |r| ==> r[k] < n && Lapsed(seats[r[k]], now)
    ensures forall k :: 0 <= k < n && Lapsed(seats[k], now) ==> k in r
    ensures forall j, k :: 0 <= j < k < |r| ==> r[j] < r[k]
  {
    if n == 0 then []
    else Expired(seats, n - 1, now) + (if Lapsed(seats[n - 1], now) then [n - 1] else [])
  }

  /** Everybody whose seat is in `gone` resigns from the game, in order. */
  function ResignAll(cfg: Config, engine: G.State, seats: Seats, gone: seq<nat>, now: Time): (t: G.State)
    requires G.TableInv(engine) && forall k :: 0 <= k < |gone| ==> gone[k] < |seats| && seats[gone[k]].Some?
    ensures G.TableInv(t)
    decreases |gone|
  {
    if gone == [] then engine
    else ResignAll(cfg, G.Resign(cfg.rules, engine, seats[gone[0]].value.id, now), seats, gone[1..], now)
  }

  /** Every seat in `gone` is vacated, in order. */
  function VacateAll(r: Room, gone: seq<nat>): Room
    decreases |gone|
  {
    if gone == [] then r
    else if gone[0] < |r.table.seats| && r.table.seats[gone[0]].Some? then VacateAll(Vacate(r, gone[0]), gone[1..])
    else VacateAll(r, gone[1..])
  }

  function OnGraceTimer(cfg: Config, r: Room, w: World): Room
    requires r.series.engine.Some? ==> G.Inv(cfg.rules, r.series.engine.value)
  {
    var gone := Expired(r.table.seats, |r.table.seats|, w.now);
    var told := if !Running(r.series) then r
                else
                  var before := r.series.engine.value;
                  ApplyEliminations(r, before, ResignAll(cfg, before, r.table.seats, gone, w.now));
    VacateAll(told, gone)
  }

  /** The room is over: its connections are let go and its game, if one is running, is counted finished. */
  function OnClose(r: Room): Room {
    r.(series := StopCountingLive(r.series), closed := true)
  }

  function Handle(cfg: Config, r: Room, input: Input, w: World): Room
    requires |r.table.seats| == MAX_PLAYERS
    requires r.series.engine.Some? ==> G.Inv(cfg.rules, r.series.engine.value)
  {
    match input
    case Join(sess, nickname) => OnJoin(cfg, r, sess, nickname, w)
    case Submit(sess, player, word, turnSeq) => OnSubmit(cfg, r, sess, player, word, turnSeq, w)
    case BotMove(choice, turnSeq) => OnBotMove(cfg, r, choice, turnSeq, w)
    case Ready(sess, player, ready) => OnReady(r, sess, player, ready)
    case Start(sess, player) => OnStart(cfg, r, sess, player, w)
    case Kick(sess, player, target) => OnKick(r, sess, player, target)
    case Leave(sess, player) => OnLeave(cfg, r, sess, player, w)
    case Chat(sess, player, text) => OnChat(cfg, r, sess, player, text)
    case Resign(sess, player) => OnResign(cfg, r, sess, player, w)
    case ClaimDeadEnd(sess, player) => OnClaimDeadEnd(cfg, r, sess, player, w)
    case Disconnect(player, sess) => OnDisconnect(cfg, r, player, sess, w)
    case Resume(player, sess, prior) => OnResume(cfg, r, player, sess, prior, w)
    case TurnTimer => OnTurnTimer(cfg, r, w)
    case GraceTimer => OnGraceTimer(cfg, r, w)
    case Close => OnClose(r)
  }

  /** The connection an input has just bound to a seat of the room, filling it or coming back to it. */
  function Bound(before: Room, after: Room, input: Input): Option<Session> {
    match input
    case Join(sess, _) => if after.table.serials > before.table.serials then Some(sess) else None
    case Resume(player, sess, prior) =>
      var i := SeatOf(before.table.seats, player);
      if i < |before.table.seats| && Opens(before.table.seats[i].value, prior) then Some(sess) else None
    case _ => None
  }

  /** One turn of the room's loop: an input, and then closing when a bot's game is over or nobody is left. */
  function Step(cfg: Config, r: Room, input: Input, w: World): Room
    requires |r.table.seats| == MAX_PLAYERS
    requires r.series.engine.Some? ==> G.Inv(cfg.rules, r.series.engine.value)
  {
    if r.closed then r
    else
      var next := Handle(cfg, r, input, w);
      if (next.withBot && next.series.engine.Some? && next.series.engine.value.over) || !Occupied(next.table.seats)
      then OnClose(next)
      else next
  }
}
