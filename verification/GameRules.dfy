/** The rules of one game as functions on its state: turns, eliminations, moves, scores and the final table. */
module GameRules {
  import opened Basics
  import opened Dictionary
  import Scoring

  type Time = int

  /** A seat at the table; Nobody is the empty id, which no player has. */
  datatype PlayerID = Nobody | Human(seat: nat) | Bot

  datatype EndReason = EndNone | EndTimeout | EndNoLegalMove | EndResigned

  datatype RejectReason =
    | NotYourTurn | TooFewSyllables | NotInDictionary | WrongLink | AlreadyUsed | TimedOut | GameIsOver

  datatype Move = Move(player: PlayerID, word: string, typed: string, first: string, last: string,
                       syllables: nat, points: int, parts: seq<Scoring.PointPart>, at: Time)

  datatype Answer = Accepted(move: Move) | Rejected(reason: RejectReason)

  datatype Normalized = Normalized(word: string, syllables: nat)

  /** What a game is played under. `normalize` is the text normalization; None is input with nothing usable in it. */
  datatype Rules = Rules(dict: Store, normalize: string -> Option<Normalized>, turnLimit: int)

  /** The state of a game. `opening` is kept so that the chain can be spoken of; it never changes. */
  datatype State = State(
    players: seq<PlayerID>,
    alive: seq<bool>,
    aliveN: int,
    outOrder: seq<PlayerID>,
    outReason: map<PlayerID, EndReason>,
    opening: string,
    used: set<string>,
    current: string,
    turnIndex: nat,
    deadline: Time,
    history: seq<Move>,
    scores: map<PlayerID, int>,
    over: bool,
    winner: PlayerID,
    endReason: EndReason)

  // ----- turn order -----

  /** The first live seat in [lo, hi), or hi. */
  function FirstAlive(alive: seq<bool>, lo: nat, hi: nat): (r: nat)
    requires lo <= hi <= |alive|
    ensures lo <= r <= hi && (r < hi ==> alive[r]) && forall k :: lo <= k < r ==> !alive[k]
    decreases hi - lo
  {
    if lo == hi then hi
    else if alive[lo] then lo
    else FirstAlive(alive, lo + 1, hi)
  }

  /** The next live seat after i, going round; i itself when there is no other. */
  function NextAlive(alive: seq<bool>, i: nat): (r: nat)
    requires i < |alive|
    ensures r < |alive|
  {
    var j := FirstAlive(alive, i + 1, |alive|);
    if j < |alive| then j
    else
      var k := FirstAlive(alive, 0, i + 1);
      if k <= i then k else i
  }

  function CountAlive(alive: seq<bool>): nat {
    if alive == [] then 0
    else CountAlive(alive[..|alive| - 1]) + (if alive[|alive| - 1] then 1 else 0)
  }

  /** Where p sits, or -1. */
  function IndexOf(players: seq<PlayerID>, p: PlayerID): (r: int)
    ensures -1 <= r < |players|
    ensures r >= 0 ==> players[r] == p
    ensures r < 0 <==> p !in players
  {
    IndexFrom(players, p, 0)
  }

  function IndexFrom(players: seq<PlayerID>, p: PlayerID, lo: nat): (r: int)
    requires lo <= |players|
    ensures r == -1 || lo <= r < |players|
    ensures r >= 0 ==> players[r] == p
    ensures r < 0 ==> forall k :: lo <= k < |players| ==> players[k] != p
    decreases |players| - lo
  {
    if lo == |players| then -1
    else if players[lo] == p then lo
    else IndexFrom(players, p, lo + 1)
  }

  /** Indices make sense: what every operation below needs in order to be defined. */
  ghost predicate Shaped(s: State) {
    && |s.alive| == |s.players|
    && s.turnIndex < |s.players|
  }

  function Turn(s: State): PlayerID
    requires Shaped(s)
  {
    s.players[s.turnIndex]
  }

  function IsAlive(s: State, p: PlayerID): bool
    requires Shaped(s)
  {
    var i := IndexOf(s.players, p);
    i >= 0 && s.alive[i]
  }

  // ----- what may be played -----

  function LegalMoves(rules: Rules, s: State): seq<string> {
    Unspent(rules.dict.WordsStartingWith(s.current), s.used)
  }

  predicate HasLegalMove(rules: Rules, s: State) {
    exists w <- rules.dict.WordsStartingWith(s.current) :: w !in s.used
  }

  predicate IsExpired(s: State, now: Time) { now > s.deadline }

  function ChainLength(s: State): nat { |s.history| + 1 }

  // ----- the operations -----

  datatype NewGame = Started(state: State) | Refused

  function New(rules: Rules, players: seq<PlayerID>, opening: string, now: Time): NewGame {
    if |players| < 2 || rules.turnLimit <= 0 || (exists i, j :: 0 <= i < j < |players| && players[i] == players[j]) then
      Refused
    else
      match rules.dict.Resolve(opening)
      case None => Refused
      case Some(canonical) =>
        match rules.dict.LastSyllable(canonical)
        case None => Refused
        case Some(last) =>
          var s := State(
            players, seq(|players|, _ => true), |players|, [], map[], canonical, {canonical}, last, 0,
            now + rules.turnLimit, [], map p | p in players :: 0, false, Nobody, EndNone);
          if HasLegalMove(rules, s) then Started(s) else Refused
  }

  /** The player in seat i goes out; the game ends when one is left. */
  function TakeOut(s: State, i: nat, reason: EndReason): (t: State)
    requires Shaped(s) && i < |s.players|
    ensures Shaped(t)
  {
    var alive := s.alive[i := false];
    var turn := if s.turnIndex == i then NextAlive(alive, i) else s.turnIndex;
    var left := s.aliveN - 1;
    s.(alive := alive, aliveN := left, outOrder := s.outOrder + [s.players[i]],
       outReason := s.outReason[s.players[i] := reason], endReason := reason, turnIndex := turn,
       over := s.over || left <= 1, winner := if left <= 1 then s.players[turn] else s.winner)
  }

  function Eliminate(s: State, p: PlayerID, reason: EndReason): (t: State)
    requires Shaped(s)
    ensures Shaped(t)
  {
    var i := IndexOf(s.players, p);
    if i < 0 || !s.alive[i] then s else TakeOut(s, i, reason)
  }

  /** Clears out everybody a dead end leaves with nothing. */
  function Settle(rules: Rules, s: State): (t: State)
    requires TableInv(s)
    ensures TableInv(t)
    decreases s.aliveN
  {
    if s.over || HasLegalMove(rules, s) then s
    else
      EliminateKeepsTable(s, Turn(s), EndNoLegalMove);
      Settle(rules, Eliminate(s, Turn(s), EndNoLegalMove))
  }

  function Restart(rules: Rules, s: State, now: Time): State {
    if s.over then s else s.(deadline := now + rules.turnLimit)
  }

  function Expire(rules: Rules, s: State, now: Time): (t: State)
    requires TableInv(s) && !s.over
    ensures TableInv(t)
  {
    var reason := if HasLegalMove(rules, s) then EndTimeout else EndNoLegalMove;
    EliminateKeepsTable(s, Turn(s), reason);
    Restart(rules, Settle(rules, Eliminate(s, Turn(s), reason)), now)
  }

  function Timeout(rules: Rules, s: State, now: Time): (t: State)
    requires TableInv(s)
    ensures TableInv(t)
  {
    if s.over || !IsExpired(s, now) then s else Expire(rules, s, now)
  }

  function NoMove(rules: Rules, s: State, now: Time): (t: State)
    requires TableInv(s)
    ensures TableInv(t)
  {
    if s.over || HasLegalMove(rules, s) then s else Expire(rules, s, now)
  }

  /** A player stops playing. The clock restarts, and a dead end is settled, only when that moved the turn on. */
  function Resign(rules: Rules, s: State, p: PlayerID, now: Time): (t: State)
    requires TableInv(s)
    ensures TableInv(t)
  {
    if s.over || !IsAlive(s, p) then s
    else
      EliminateKeepsTable(s, p, EndResigned);
      var t := Eliminate(s, p, EndResigned);
      if t.over || Turn(t) == Turn(s) then t else Restart(rules, Settle(rules, t), now)
  }

  function PointsFor(rules: Rules, s: State, syllables: nat, link: string, now: Time): seq<Scoring.PointPart>
    requires rules.turnLimit > 0
  {
    Scoring.Points(ChainLength(s), syllables, Scoring.SpeedPoints(s.deadline, rules.turnLimit, now),
                   Scoring.RarityPoints(rules.dict.OutDegree(link)))
  }

  /** What the word itself is, for the player to act and in time. */
  function Examine(rules: Rules, s: State, p: PlayerID, raw: string, now: Time): Answer
    requires rules.turnLimit > 0
  {
    match rules.normalize(raw)
    case None => Rejected(TooFewSyllables)
    case Some(n) =>
      if n.syllables < Scoring.MIN_SYLLABLES then Rejected(TooFewSyllables)
      else
        match rules.dict.Resolve(n.word)
        case None => Rejected(NotInDictionary)
        case Some(word) =>
          match (rules.dict.FirstSyllable(word), rules.dict.LastSyllable(word))
          case (Some(first), Some(last)) =>
            if first != s.current then Rejected(WrongLink)
            else if word in s.used then Rejected(AlreadyUsed)
            else
              var parts := PointsFor(rules, s, n.syllables, first, now);
              Accepted(Move(p, word, raw, first, last, n.syllables, Scoring.SumParts(parts), parts, now))
          case _ => Rejected(NotInDictionary)
  }

  /** What a submission is, before anything is applied. */
  function Judge(rules: Rules, s: State, p: PlayerID, raw: string, now: Time): Answer
    requires Shaped(s) && rules.turnLimit > 0
  {
    if s.over then Rejected(GameIsOver)
    else if p != Turn(s) then Rejected(NotYourTurn)
    else if IsExpired(s, now) then Rejected(TimedOut)
    else Examine(rules, s, p, raw, now)
  }

  function Play(rules: Rules, s: State, m: Move, now: Time): (t: State)
    requires Shaped(s) && m.player in s.scores
    ensures Shaped(t)
  {
    s.(used := s.used + {m.word}, history := s.history + [m],
       scores := s.scores[m.player := s.scores[m.player] + m.points],
       current := m.last, turnIndex := NextAlive(s.alive, s.turnIndex), deadline := now + rules.turnLimit)
  }

  function Submit(rules: Rules, s: State, p: PlayerID, raw: string, now: Time): (t: State)
    requires Inv(rules, s)
    ensures Shaped(t)
  {
    match Judge(rules, s, p, raw, now)
    case Rejected(reason) => if reason == TimedOut then Expire(rules, s, now) else s
    case Accepted(m) => Play(rules, s, m, now)
  }

  // ----- the invariant of every reachable state -----

  /** The live flags, their count, the turn and the end of the game agree. */
  ghost predicate LiveInv(s: State) {
    && Shaped(s)
    && |s.players| >= 2 && Distinct(s.players)
    && s.aliveN == CountAlive(s.alive) && s.aliveN >= 1
    && s.alive[s.turnIndex]
    && (s.over <==> s.aliveN == 1)
    && s.winner == (if s.over then s.players[s.turnIndex] else Nobody)
  }

  /** The elimination order lists exactly the players who are out, each once and each with a reason. */
  ghost predicate OutOf(players: seq<PlayerID>, alive: seq<bool>, outOrder: seq<PlayerID>, outReason: map<PlayerID, EndReason>) {
    && |alive| == |players|
    && Distinct(outOrder)
    && (forall i :: 0 <= i < |players| ==> (players[i] in outOrder <==> !alive[i]))
    && (forall p <- outOrder :: p in players)
    && outReason.Keys == (set p | p in outOrder)
    && (forall p <- outReason :: outReason[p] != EndNone)
  }

  ghost predicate OutInv(s: State) {
    OutOf(s.players, s.alive, s.outOrder, s.outReason)
  }

  ghost predicate TableInv(s: State) {
    LiveInv(s) && OutInv(s)
  }

  /** The chain: the opening word and every word played since. */
  function Words(opening: string, history: seq<Move>): seq<string> {
    [opening] + seq(|history|, i requires 0 <= i < |history| => history[i].word)
  }

  function ScoreOf(history: seq<Move>, p: PlayerID): int {
    if history == [] then 0
    else
      var m := history[|history| - 1];
      ScoreOf(history[..|history| - 1], p) + (if m.player == p then m.points else 0)
  }

  /** A move begins on the syllable the word before it ended on, and records both of its own ends. */
  ghost predicate Linked(dict: Store, before: string, m: Move) {
    && dict.LastSyllable(before) == Some(m.first)
    && dict.FirstSyllable(m.word) == Some(m.first)
    && dict.LastSyllable(m.word) == Some(m.last)
  }

  /** The words link end to start, none is played twice, and every score is what the player's moves add up to. */
  ghost predicate ChainOf(dict: Store, players: seq<PlayerID>, opening: string, history: seq<Move>,
                          used: set<string>, current: string, scores: map<PlayerID, int>) {
    var words := Words(opening, history);
    && Distinct(words)
    && used == (set w | w in words)
    && used <= dict.words.Keys
    && (forall i :: 0 <= i < |history| ==> Linked(dict, words[i], history[i]) && history[i].player in players)
    && dict.LastSyllable(words[|history|]) == Some(current)
    && scores.Keys == (set p | p in players)
    && (forall p <- players :: scores[p] == ScoreOf(history, p))
  }

  ghost predicate ChainInv(rules: Rules, s: State) {
    ChainOf(rules.dict, s.players, s.opening, s.history, s.used, s.current, s.scores)
  }

  ghost predicate Inv(rules: Rules, s: State) {
    rules.turnLimit > 0 && TableInv(s) && ChainInv(rules, s)
  }

  /** A submission, accepted or not, leaves the live flags, the turn and the elimination order in agreement. */
  lemma SubmitKeepsTable(rules: Rules, s: State, p: PlayerID, raw: string, now: Time)
    requires Inv(rules, s)
    ensures TableInv(Submit(rules, s, p, raw, now))
  {
    if Judge(rules, s, p, raw, now).Accepted? {
      CountSome(s.alive);
      NextAliveFinds(s.alive, s.turnIndex);
    }
  }

  // ----- counting the live -----

  lemma {:induction false} CountOff(alive: seq<bool>, i: nat)
    requires i < |alive| && alive[i]
    ensures CountAlive(alive[i := false]) == CountAlive(alive) - 1
  {
    var last := |alive| - 1;
    if i < last {
      CountOff(alive[..last], i);
      assert alive[i := false][..last] == alive[..last][i := false];
    } else {
      assert alive[i := false][..last] == alive[..last];
    }
  }

  lemma {:induction false} CountSome(alive: seq<bool>)
    ensures CountAlive(alive) >= 1 ==> exists k :: 0 <= k < |alive| && alive[k]
    ensures (exists k :: 0 <= k < |alive| && alive[k]) ==> CountAlive(alive) >= 1
    ensures CountAlive(alive) <= |alive|
  {
    if alive != [] {
      var front := alive[..|alive| - 1];
      CountSome(front);
      if CountAlive(front) >= 1 {
        var k :| 0 <= k < |front| && front[k];
        assert alive[k];
      }
      if k :| 0 <= k < |alive| && alive[k] && !alive[|alive| - 1] {
        assert front[k];
      }
    }
  }

  lemma {:induction false} CountTwo(alive: seq<bool>, i: nat)
    requires i < |alive| && alive[i] && CountAlive(alive) >= 2
    ensures exists k :: 0 <= k < |alive| && k != i && alive[k]
  {
    CountOff(alive, i);
    CountSome(alive[i := false]);
    var k :| 0 <= k < |alive| && alive[i := false][k];
    assert alive[k] && k != i;
  }

  lemma CountBoth(alive: seq<bool>, i: nat, j: nat)
    requires i < |alive| && j < |alive| && i != j && alive[i] && alive[j]
    ensures CountAlive(alive) >= 2
  {
    CountOff(alive, i);
    CountOff(alive[i := false], j);
    CountSome(alive);
  }

  lemma {:induction false} CountAll(alive: seq<bool>)
    requires forall k :: 0 <= k < |alive| ==> alive[k]
    ensures CountAlive(alive) == |alive|
  {
    if alive != [] { CountAll(alive[..|alive| - 1]); }
  }

  /** NextAlive finds a live seat when there is one, and another one when there is another. */
  lemma NextAliveFinds(alive: seq<bool>, i: nat)
    requires i < |alive| && exists k :: 0 <= k < |alive| && alive[k]
    ensures alive[NextAlive(alive, i)]
    ensures (exists k :: 0 <= k < |alive| && k != i && alive[k]) ==> NextAlive(alive, i) != i
  {
  }

  // ----- every operation keeps the invariant -----

  lemma EliminateKeepsLive(s: State, p: PlayerID, reason: EndReason)
    requires LiveInv(s) && !s.over
    ensures LiveInv(Eliminate(s, p, reason))
    ensures IsAlive(s, p) ==> Eliminate(s, p, reason).aliveN == s.aliveN - 1
  {
    var i := IndexOf(s.players, p);
    if i >= 0 && s.alive[i] {
      var alive := s.alive[i := false];
      CountOff(s.alive, i);
      CountSome(alive);
      NextAliveFinds(alive, i);
    }
  }

  lemma OneMoreOut(players: seq<PlayerID>, alive: seq<bool>, outOrder: seq<PlayerID>, outReason: map<PlayerID, EndReason>,
                   i: nat, reason: EndReason)
    requires Distinct(players) && OutOf(players, alive, outOrder, outReason)
    requires i < |players| && alive[i] && reason != EndNone
    ensures OutOf(players, alive[i := false], outOrder + [players[i]], outReason[players[i] := reason])
  {
    var p, more := players[i], outOrder + [players[i]];
    assert p !in outOrder && p in more;
    assert outReason[p := reason].Keys == outReason.Keys + {p};
    assert (set q | q in more) == (set q | q in outOrder) + {p};
    forall k | 0 <= k < |players| ensures players[k] in more <==> !alive[i := false][k] {
      assert players[k] == p <==> k == i;
    }
  }

  lemma EliminateKeepsTable(s: State, p: PlayerID, reason: EndReason)
    requires TableInv(s) && !s.over && reason != EndNone
    ensures TableInv(Eliminate(s, p, reason))
    ensures IsAlive(s, p) ==> Eliminate(s, p, reason).aliveN == s.aliveN - 1
    ensures IsAlive(s, Turn(s))
  {
    IndexOfTurn(s);
    EliminateKeepsLive(s, p, reason);
    var i := IndexOf(s.players, p);
    if i >= 0 && s.alive[i] {
      OneMoreOut(s.players, s.alive, s.outOrder, s.outReason, i, reason);
    }
  }

  lemma IndexOfTurn(s: State)
    requires TableInv(s)
    ensures IndexOf(s.players, Turn(s)) == s.turnIndex
  {
  }
}
