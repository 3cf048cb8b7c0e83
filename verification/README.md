# Noitu, modelled and proved

Noitu is a word-chain game: players take turns naming Vietnamese words, each beginning on the syllable the last one
ended on, and whoever cannot answer in time is out. This project models the server's logic in Dafny and proves what it
promises its players. `dafny verify dfyconfig.toml` checks all of it.

What is here, by part:

- **The hard bot** (`Minimax`, `Lookahead`, `Strategies`, `Sorting`): plain minimax as a function, and the windowed,
  budgeted, move-unmaking search as a class. With budget left the two choose the same move.
- **The rules** (`GameRules`, `GameProofs`, `Endings`, `Turns`, `Scoring`): a game as functions on its state, its
  invariants over any run, how dead ends are decided, what each answer does, the final table, the points.
  `Engine` is the mutable engine, each method of which is proved to be the rules' function of its state.
- **The word store** (`Dictionary`, `Loading`, `Openings`): loading, validation, the draw of an opening word, and that a
  dictionary as the builder writes it is one the server opens. `BotTurn` freezes a position and applies the bot's answer.
- **The room** (`RoomRules`, `RoomState`, `RoomSteps`, `RoomSeating`, `RoomHandlers`, `RoomRuns`): one function for each
  input of a room, the invariant of every state it can reach, and that every step keeps it. `RoomInputs` and `RoomGames`
  say what each input does, told by what anyone in the room can see; `RoomTheorems` and `RoomBot` what players can rely on
  over any run. `RoomObject` is the room in place, its engine an object it holds, one method per handler.
- **The hub** (`HubRules`, `HubObject`, `QuickMatch`, `Nickname`): registering rooms, seating whoever each was registered
  for, running them, draining. `HubObject` holds the rooms in place; they share one count of live games, and after any
  run of the server the count is the number of rooms with a game in them.
- **The dictionary builder** (`Templates`, `Rendering`, `WikiTrees`, `WikiMeaning`, `TemplateForms`; `Corpus`, `CorpusRoundTrip`;
  `Provenance`; `Spelling`, `AliasTable`; `Building`; `Texts`): the nested-template scanner, the corpus file and back, the
  header that names its dump, alternative spellings and the alias table, and the whole way from a text or from accepted
  words, through the floor and the checks on what was written, to the dictionary the server opens.
- **The rate limiters** (`TokenBucket`, `KeyedLimiter`).

How it is put together:

- Anything outside the code is a parameter: the clock, the draws, which connections are dead, text normalization and
  `accept`, the value of a leaf in the search (a function of the mobility; `Strategies.FewerAnswersIsWorthMore` asks that it rise with it), what counts as space.
- Some state is kept only so that properties can be stated, and nothing is decided by it: a game's opening word; a seat's
  serial number and the connections that have sat in it; the serial a line of chat was said from; the roster a game began
  with, the games begun and finished, and the winners' serials; the positions a search has looked at.
- `Room.started` counts games begun, so it names a game. Equal turn sequence numbers are shown to mean equal `started`.
- The dictionary is any store in which each word is listed once under the syllable it begins on; `Loading.LoadedIsIndexed`
  shows that loading gives one. Dictionary words being in normal form (`Endings.Normal`) is an assumption about the data.

Where the code and its comments part, the code is followed:

- `server/internal/wsapi/nickname.go:141-142` says a free suffix is found within as many tries as there are names.
  It is, whatever the names, exactly when none of those tries is the name itself (`Nickname.AsManyTriesIff`); a long name
  that ends in a number can be (`Nickname.OneTryMore`), and one try more is always enough (`Nickname.OneIsFree`).
- `server/internal/wsapi/ratelimit.go:80-81` says recreating a swept bucket is equivalent; it is exactly when the idle limit covers the time a
  bucket takes to fill (`KeyedLimiter.SweepIsTransparentIff`), as it does for the hub's limiters, on a clock that does not
  step back.
- Drawing an opening with a minimum of one can give a word that cannot open a game (`Openings.LoneLoopCannotOpen`): a
  drawn word opens one exactly when two words answer it or it does not answer itself (`Openings.DrawnPlaysIff`). With a
  minimum of two or more it always does (`Openings.DrawnOpeningPlays`); the server asks for twenty.
- `server/internal/wsapi/room_lobby.go:146-152` counts on no game beginning once the server is draining. One can: a bot room
  registered before the drain seats its player and begins after it, without asking
  (`HubRules.BotRoomOutlivesTheDrain`). Nothing begins, over every run, exactly when no such room is waiting or no word
  that may be drawn opens a game (`HubRules.DrainingStartsNothingIff`), which over a loaded dictionary is when no word
  leaves twenty answers (`HubRules.BotGameIff`).

## Model

| member | source | states |
|---|---|---|
| `Minimax.ChildrenAreFree` | server/internal/bot/strategy_hard.go:148-193 | a child the search looks at is a word nobody has played, on the board or on the line being searched |
| `Minimax.ChildrenAreTightest` | server/internal/bot/strategy_hard.go:173-197 | the words searched are the twelve tightest there are, or all of them, tightest first |
| `Minimax.ValueIsMinimax` | server/internal/bot/strategy_hard.go:139-219 | the value of a position is two-sided minimax: the computer takes the most, its opponent leaves it the least, and at the end of the lookahead options count for whoever has them |
| `Lookahead.FoldChild` | server/internal/bot/strategy_hard.go:204-212 | what is known of a node after one more child, given only that the child answered its own window fail-soft |
| `Lookahead.Conclude` | server/internal/bot/strategy_hard.go:213-219 | a loop that stops, by a cut or at the end, has a fail-soft answer for the whole node |
| `Lookahead.Search.constructor` | server/internal/bot/strategy_hard.go:88 | a search starts with nothing used and the whole node budget |
| `Lookahead.Search.Candidates` | server/internal/bot/strategy_hard.go:148-153 | the words still open at a syllable, in dictionary order |
| `Lookahead.Search.CountReplies` | server/internal/bot/strategy_hard.go:185-190 | how many answers a word would leave at the syllable it hands over |
| `Lookahead.Search.Order` | server/internal/bot/strategy_hard.go:173-193 | candidates with no last syllable dropped, the rest tightest first with ties in dictionary order |
| `Lookahead.Search.Negamax` | server/internal/bot/strategy_hard.go:139-219 | with budget left the pruned search answers plain minimax exactly inside the window and a bound outside it, puts the used words back, looks at one position for each it spends of the budget, and spends no more than plain minimax visits |
| `Lookahead.Search.Probe` | server/internal/bot/strategy_hard.go:203-205 | a move made and unmade round a child search leaves the used words as they were |
| `Lookahead.Search.TryChild` | server/internal/bot/strategy_hard.go:203-212 | one turn of the loop keeps the value of the children seen so far |
| `Lookahead.Search.Explore` | server/internal/bot/strategy_hard.go:197-219 | the loop over at most branchCap ordered children, cut when the window closes, agrees with the unpruned one |
| `Strategies.ScoreMoves` | server/internal/bot/strategy_medium.go:65-78 | every legal move that has a last syllable, with the answers it leaves, in order |
| `Strategies.RemainingOutDegree` | server/internal/bot/bot.go:103-111 | how many words at a syllable are neither played nor the move being considered |
| `Strategies.FoldRoot` | server/internal/bot/strategy_hard.go:106-111 | the root loop keeps the first of the best moves seen |
| `Strategies.SearchRoot` | server/internal/bot/strategy_hard.go:88-119 | with budget left the pruned root picks the very move plain minimax picks first among the best; a tree smaller than nodeCap always leaves budget, and never more than 20000 positions are looked at |
| `Strategies.ChooseHard` | server/internal/bot/strategy_hard.go:49-120 | no move exactly when there is none to make; a legal move otherwise; an instant win or the first maximiser of plain minimax over the moves left on the table |
| `Strategies.KillDominates` | server/internal/bot/strategy_hard.go:71-82 | a move that leaves no reply is worth strictly more to the search than any that leaves one, which is why a declined win is taken off the table |
| `Strategies.FewerAnswersIsWorthMore` | server/internal/bot/strategy_hard.go:163-170 | where the lookahead ends, a move that leaves the opponent fewer answers is worth strictly more |
| `Strategies.PoolIs` | server/internal/bot/strategy_hard.go:71-82 | what the search chooses from: the moves that leave a reply when there are both kinds, and otherwise all of them |
| `Strategies.TightestFirst` | server/internal/bot/strategy_medium.go:48-56 | after the sort the first move leaves no reply exactly when some move does |
| `Strategies.ChooseMedium` | server/internal/bot/strategy_medium.go:37-61 | no move exactly when there is none; an instant win whenever there is one; otherwise one of the tightest quarter, or the tightest when there are fewer than four |
| `Sorting.StableSortCorrect` | server/internal/bot/strategy_hard.go:86 | the sort is ordered and keeps elements of equal key in the order they came |
| `Sorting.StableSortUnique` | server/internal/bot/strategy_hard.go:86 | order and stability leave only one possible result |
| `Scoring.PointsFor` | server/internal/game/engine.go:293-316 | the trimming and deleting loops compute the breakdown and its total |
| `Scoring.TrimFromEnd` | server/internal/game/engine.go:307-311 | the loop from the last part back takes off what the specification takes off |
| `Scoring.DropEmpty` | server/internal/game/engine.go:314 | parts that contribute nothing are dropped, the rest keep their order |
| `Scoring.Breakdown` | server/internal/game/engine.go:284-316 | listed parts are positive and sum to min(100, untrimmed); base and chain are untouched; what is over comes off rarity, then speed, then syllables |
| `GameProofs.AcceptedScores` | server/internal/game/engine.go:275-316 | an accepted word: speed and rarity are in their ranges, every part listed is positive, base and chain are there in full, and the points are the terms together, from 12 to 100 |
| `Scoring.SpeedFalls` | server/internal/game/engine.go:327-341 | speed is in 0..10, full when the turn starts, nothing at the deadline, and never rises with time |
| `Scoring.SpeedIsTenthsLeft` | server/internal/game/engine.go:327-341 | within the turn, exactly the whole tenths of it that are left |
| `Scoring.RarityLadder` | server/internal/game/engine.go:343-360 | rarity is 15 less 3 per doubling of the options, never negative, and never rises with the options |
| `Scoring.UnknownIsNotRare` | server/internal/game/engine.go:348-355 | a syllable nobody knows, or that nothing answers, earns nothing |
| `GameProofs.NewKeepsInv` | server/internal/game/engine.go:94-147 | a game that starts satisfies every invariant and has a legal first move |
| `GameProofs.AcceptedAnswers` | server/internal/game/engine.go:216-282 | an accepted word is the turn holder's, in time, links, and was unspent |
| `GameProofs.PlayKeepsInv` | server/internal/game/engine.go:255-273 | a played word extends the chain, the scores and the used set together and hands the turn to another live player |
| `GameProofs.ExpireSheds` | server/internal/game/engine.go:439-448 | losing the turn takes its holder out first, moves the turn on and restarts the clock or ends the game, and changes no word or score |
| `GameProofs.ResignSheds` | server/internal/game/engine.go:474-493 | a resignation takes exactly that player out and leaves the turn and the clock alone unless it moved the turn |
| `GameProofs.SubmitIs` | server/internal/game/engine.go:216-282 | a submission plays its word, takes a late player out, or changes nothing |
| `GameProofs.ApplyKeepsInv` | server/internal/game/engine.go:216-532 | every operation keeps the elimination and chain invariants, and leaves strictly less of the game unless it changes nothing |
| `GameProofs.EveryGameEnds` | server/internal/game/engine.go:216-532 | over any run the changes are fewer than the unused words and live players there were: every game ends |
| `GameProofs.ClockAlwaysMoves` | server/internal/game/engine.go:412-418 | a running game past its deadline is always moved on by the timer, and nothing else is |
| `Turns.BeginsIff` | server/internal/game/engine.go:94-147 | a game begins exactly with two players or more, all different, some time to answer, and an opening some other word answers |
| `Turns.TakenMovesOn` | server/internal/game/engine.go:268-273 | an accepted word is the one the text stands for, is added as typed and when, scores for its player alone, and hands the next live player round the table a whole turn from now |
| `Turns.RarityCountsWords` | server/internal/game/engine.go:343-360 | rarity goes by how many words of the dictionary begin where the word does, played ones among them, and is nothing where they are not counted |
| `Turns.RefusedBecause` | server/internal/game/engine.go:216-266 | each refusal is given exactly when what it says is so, and a word is accepted exactly when none is |
| `Turns.ResignedTurnPasses` | server/internal/game/engine.go:474-493 | giving up one's turn with a word left passes it to the next in order with a whole turn from now, or leaves a winner |
| `Turns.ResignedOutOfTurn` | server/internal/game/engine.go:474-493 | going out of turn takes that player out and leaves the turn, its clock and everybody else as they were |
| `Turns.OthersHadNoMove` | server/internal/game/engine.go:459-493 | whoever else goes out with a player who resigns had no move to make; earlier reasons stand |
| `Turns.EndIsLastOverRuns` | server/internal/game/engine.go:510-512 | over any run, the reason given for a game's end is that of whoever went out last |
| `Turns.NewIsUndecided` | server/internal/game/engine.go:94-147 | a game that begins has no reason for its end yet |
| `GameRules.EliminateKeepsTable` | server/internal/game/engine.go:500-522 | live flags, their count, the turn, the end of the game and the elimination order stay in agreement |
| `Endings.SettleDeadEnd` | server/internal/game/engine.go:459-463 | settling a dead end takes out everybody but the last in turn order, in turn order |
| `Endings.DeadEndDecides` | server/internal/game/engine.go:439-463 | a turn lost in a dead end ends the game in that call and the live player cyclically just before its holder wins |
| `Endings.ResignedDeadEndDecides` | server/internal/game/engine.go:474-493 | so does giving up one's turn in a dead end: the game ends in that call, the others go out for want of a word, and the same player wins |
| `Endings.LiveEndTakesOne` | server/internal/game/engine.go:439-448 | a turn lost with a word left takes out exactly its holder, as a timeout |
| `Endings.FinalTable` | server/internal/game/engine.go:552-571 | the table ranks everybody once from 1 to n, winner first, the others in reverse elimination order with the scores of their moves |
| `Endings.TablePermutes` | server/internal/game/engine.go:552-571 | the players of the table are a permutation of the players of the game |
| `Endings.TableNeedsAnId` | server/internal/game/engine.go:556-558 | the table is complete exactly when the winner has a non-empty id |
| `Endings.LegalMoveAccepted` | server/internal/game/engine.go:216-282 | in time and on turn a dictionary word is accepted exactly when it is listed as a legal move |
| `Endings.LegalMovesAreWords` | server/internal/game/engine.go:366-378 | a listed legal move is a dictionary word that links and is unspent |
| `Endings.NoMoveExactly` | server/internal/game/engine.go:426-432 | the position can be settled at once exactly when no legal move is listed |
| `Endings.OpeningPlays` | server/internal/game/engine.go:94-147 | an opening whose last syllable starts two words or more always opens a game |
| `Endings.WordPlaysIff` | server/internal/game/engine.go:112-144 | told by counting: two words begin on the syllable it hands over, or one does and it is not itself |
| `Engine.Engine.IndexOf` | server/internal/game/engine.go:534-541 | the seat of a player, or -1 |
| `Engine.Engine.HasLegalMove` | server/internal/game/engine.go:393-400 | whether some word at the current syllable is unspent |
| `Engine.Engine.LegalMoves` | server/internal/game/engine.go:366-378 | the unspent words at the current syllable, in order |
| `Engine.Engine.Advance` | server/internal/game/engine.go:525-532 | the turn goes to the next live seat round the table |
| `Engine.Engine.TakeOut` | server/internal/game/engine.go:506-521 | the state after the player in a seat goes out |
| `Engine.Engine.Eliminate` | server/internal/game/engine.go:500-522 | refused for a player already out; otherwise the player goes out |
| `Engine.Engine.Settle` | server/internal/game/engine.go:459-463 | the loop clears out everybody a dead end leaves with nothing |
| `Engine.Engine.SettleAndRestart` | server/internal/game/engine.go:486-491 | settles, and restarts the clock if the game goes on |
| `Engine.Engine.Expire` | server/internal/game/engine.go:439-448 | the turn ends against its holder, for want of time or of a word |
| `Engine.Engine.Timeout` | server/internal/game/engine.go:412-418 | acts exactly when the state changes, which is past the deadline of a running game |
| `Engine.Engine.NoMove` | server/internal/game/engine.go:426-432 | acts exactly when the state changes, which is in a running dead end |
| `Engine.Engine.Resign` | server/internal/game/engine.go:474-493 | acts exactly for a live player of a running game |
| `Engine.Engine.Submit` | server/internal/game/engine.go:216-282 | the answer, and the state it leaves, the invariants among it |
| `Engine.Engine.Examine` | server/internal/game/engine.go:228-266 | the checks on the word in their order: length, dictionary, link, reuse |
| `Engine.Engine.Play` | server/internal/game/engine.go:268-273 | the state after an accepted move |
| `Engine.Engine.Standings` | server/internal/game/engine.go:554-571 | the loop over the elimination order builds the final table |
| `Engine.NewEngine` | server/internal/game/engine.go:94-147 | refuses exactly what the rules refuse; otherwise a valid game |
| `Basics.UnspentInOrder` | server/internal/game/engine.go:366-378 | what is left to play is kept in dictionary order |
| `Loading.Loader.LoadSyllables` | server/internal/dictionary/store.go:210-227 | the out-degree table as it stands in the rows |
| `Loading.Loader.LoadWords` | server/internal/dictionary/store.go:229-251 | words, the index by first syllable and the openers, built in one pass |
| `Loading.Loader.LoadAliases` | server/internal/dictionary/store.go:253-269 | the alias table as it stands in the rows |
| `Loading.Loader.LoadMeanings` | server/internal/dictionary/store.go:271-291 | each word's meanings in the order of its page, and how many there are in all |
| `Loading.MeaningsInOrder` | server/internal/dictionary/store.go:271-291 | each word has the meanings of its rows and no others, in the order of the rows |
| `Loading.Loader.Validate` | server/internal/dictionary/store.go:299-335 | passes exactly the stores whose words, meanings, degrees and alias targets agree with what was declared and with each other |
| `Loading.Loader.SortOpeners` | server/internal/dictionary/store.go:144-146 | the openers with the most answers come first, none is lost or added, and those with as many stay in the order they were read |
| `Loading.Open` | server/internal/dictionary/store.go:96-149 | serves the loaded tables exactly when they are consistent |
| `Loading.ConsistentMeans` | server/internal/dictionary/store.go:299-335 | a store that passes has as many words as declared, degrees that count, and understands nothing that is no word |
| `Loading.LoadedIsIndexed` | server/internal/dictionary/store.go:229-251 | under every syllable a loaded store lists exactly the words that begin there, each once |
| `Loading.CountDegrees` | server/cmd/build-dictionary/main.go:498-509 | the out-degree of every syllable a word begins or ends on |
| `Loading.TallyCounts` | server/cmd/build-dictionary/main.go:498-509 | what is counted is how many words begin there, and exactly the syllables at either end of a word are counted |
| `Loading.WrittenOpens` | server/cmd/build-dictionary/main.go:498-531 | a dictionary as the builder writes it passes the server's checks, in whatever order its syllables are stored |
| `Building.WriteTo` | server/cmd/build-dictionary/main.go:443-580 | every row of every table, in whatever order the parts come; an error exactly when a meaning is no word's, is empty or is over the cap |
| `Building.WrittenIsServed` | server/internal/dictionary/store.go:96-149 | any tables that hold a dictionary, with aliases for its words, open, and what is served is that dictionary |
| `Building.Finish` | server/cmd/build-dictionary/main.go:155-171 | the tail of every build: refused exactly below the floor, or when a meaning is not sound, or when what landed fails its checks |
| `Building.VerifiesIff` | server/cmd/build-dictionary/main.go:265-331 | the checks on what was written pass exactly when the words and meanings it was written from are enough, whole and often enough explained; the other checks can never fail |
| `Building.ReadIsSound` | server/cmd/build-dictionary/main.go:209-263 | every word and meaning the reader lets through, from any text, is whole and sound |
| `Building.BuildFromText` | server/cmd/build-dictionary/main.go:183-205 | from any text, nothing the reader lets through is refused later: only too few words, or too few with a meaning, stop a build |
| `Building.BuildAndOpen` | server/cmd/build-dictionary/main.go:155-171 | accepted words through the floor, the aliases, the writing, the checks and opening: it comes through exactly when there is a word, enough of them, enough explained, and every word and meaning is whole; then the server has each word, meaning and alias, the alias exactly when one word alone claims it |
| `Building.TextStandsFor` | server/internal/dictionary/store.go:366-384 | in what is served a text stands for a word exactly when it is that word, or is no word and that word alone is also spelled so |
| `Building.VariantsOfAWord` | server/cmd/build-dictionary/aliases.go:256-273 | a word's alternative spellings are those of the syllables it is made of |
| `Openings.EligibleArePrefix` | server/internal/dictionary/store.go:495-512 | among openers in descending order the eligible ones are a prefix |
| `Openings.PickOpeningWord` | server/internal/dictionary/store.go:509-518 | the binary search draws what the specification draws from the whole eligible prefix; nothing exactly when that is empty |
| `Openings.DrawnIffAnswerable` | server/internal/dictionary/store.go:509-518 | there is a word to draw exactly when some word leaves enough answers |
| `Openings.LoadedIsServed` | server/internal/dictionary/store.go:96-149 | a dictionary loaded from any consistent tables is one these draws are over: indexed, its openers sorted and complete, its degrees the counts |
| `Openings.EveryDrawPlays` | server/internal/dictionary/store.go:509-518 | at a minimum of two or more, any draw over a loaded dictionary finds a word exactly when some word leaves enough answers, and then opens a game for any two players or more |
| `Openings.EveryWordMayBeDrawn` | server/internal/dictionary/store.go:509-518 | every word that leaves enough answers is drawn by some draw |
| `Openings.DrawnOpeningPlays` | server/internal/dictionary/store.go:509-518 | every word drawn with a minimum of two or more opens a game that can be played |
| `Openings.DrawnPlaysIff` | server/internal/dictionary/store.go:509-518 | a word drawn at a minimum of one or more opens a game exactly when two words answer it or it does not begin on the syllable it ends on |
| `Openings.LoneLoopCannotOpen` | server/internal/dictionary/store.go:509-518 | the draw that fails: a loaded dictionary whose one word answers itself is consistent, draws that word at a minimum of one, and cannot open a game on it |
| `BotTurn.FreezeBoard` | server/internal/wsapi/bot_board.go:23-33 | the board is the position: its legal moves, its used words, its dictionary |
| `BotTurn.RepliesAreMoves` | server/internal/bot/bot.go:103-111 | the answers a strategy counts against a move are the moves the next player would have after it |
| `BotTurn.BotNeverRefused` | server/internal/wsapi/room_game.go:358-367 | a word legal on the frozen board is accepted while the position stands and the clock has not run out |
| `BotTurn.NoMoveSettles` | server/internal/wsapi/room_game.go:346-356 | the bot has nothing to play exactly when the position can be settled |
| `BotTurn.TakeTurn` | server/internal/wsapi/room_game.go:332-401 | freeze, choose, apply: a word the bot chooses is played and hands the turn on; it has none exactly in a dead end, which is then settled against it |
| `Nickname.Distinguish` | server/internal/wsapi/nickname.go:143-157 | the loop ends and returns the first free numbered name, or the name itself |
| `Nickname.DistinguishedIsFree` | server/internal/wsapi/nickname.go:136-157 | the result is nobody else's and at most 20 runes |
| `Nickname.DistinguishedIs` | server/internal/wsapi/nickname.go:143-157 | a name nobody has is kept; one that is taken gets the first number, from 2 up, that makes it free |
| `Nickname.NumberedKeepsTheName` | server/internal/wsapi/nickname.go:148-153 | a numbered name begins with as much of the name as there is room for, all of it when it fits, less space at the cut |
| `Nickname.NumberedInjective` | server/internal/wsapi/nickname.go:148-153 | different numbers give different names, whatever the cut left |
| `Nickname.OneIsFree` | server/internal/wsapi/nickname.go:141-157 | with one more try than there are names one of them is free |
| `Nickname.AsManyTriesIff` | server/internal/wsapi/nickname.go:141-142 | as many tries as there are names are enough, whatever the names, exactly when none of the tries is the name itself |
| `Nickname.OneTryMore` | server/internal/wsapi/nickname.go:141-142 | the call that needs one more: a 20-rune name ending in a number, taken once |
| `RoomSteps.BeginKeeps` | server/internal/wsapi/room_game.go:123-183 | beginning a game, or failing to, keeps the room's invariant, seats everybody dealt in and takes a new sequence number |
| `RoomSteps.GameEndKeeps` | server/internal/wsapi/room_game.go:548-596 | a finished game is uncounted once, credited once, and kept for every human seat that is away |
| `RoomSteps.EliminationsKeep` | server/internal/wsapi/room_game.go:468-502 | eliminations keep the invariant, and while the game runs the sequence moves exactly when the position does |
| `RoomSteps.SubmittedKeeps` | server/internal/wsapi/room_game.go:235-253 | a word, taken or refused, keeps the invariant |
| `RoomSeating.TakeSeatKeeps` | server/internal/wsapi/room.go:607-620 | a filled seat is new, fresh to the conversation and distinctly named |
| `RoomSeating.ReseatKeeps` | server/internal/wsapi/room_presence.go:26-47 | a change of presence or readiness leaves the seat the same seat |
| `RoomSeating.VacateKeeps` | server/internal/wsapi/room_lobby.go:258-315 | a freed seat takes its name off what was said from it and hands the room to somebody still seated |
| `RoomSeating.SayKeeps` | server/internal/wsapi/room_chat.go:52-64 | a line said extends the log by one number and keeps at most twenty |
| `RoomSeating.CloseKeeps` | server/internal/wsapi/room.go:291-308 | closing with a game running uncounts it |
| `RoomHandlers.CreatedOk` | server/internal/wsapi/room_lobby.go:18-32 | a room opens in a state that satisfies the invariant |
| `RoomHandlers.CreatedWithBotOk` | server/internal/wsapi/room_game.go:91-120 | a bot room opens in such a state too: with its game on, or closed at once |
| `RoomHandlers.JoinKeeps` | server/internal/wsapi/room_lobby.go:41-101 | a join, seated, refused or starting a matched game, keeps the invariant |
| `RoomHandlers.ResumeKeeps` | server/internal/wsapi/room_presence.go:114-185 | a resume keeps the invariant, and a seat it takes has had exactly the resuming connection added to its lineage |
| `RoomInputs.ResumeSeats` | server/internal/wsapi/room_presence.go:114-185 | a resume by whoever was last in the seat puts the new connection in it and closes its window, or holds it under a new one when that connection has died; the player and everybody else stay as they were, and any other resume does nothing |
| `RoomInputs.DisconnectHolds` | server/internal/wsapi/room_presence.go:26-47 | a dropped connection has its seat held for it, for a whole window, and changes nothing else; a notice from any other does nothing |
| `RoomInputs.ReadySets` | server/internal/wsapi/room_lobby.go:108-140 | a guest between games is as ready as they say, and nothing else changes; from anybody else it does nothing |
| `RoomInputs.KickFrees` | server/internal/wsapi/room_lobby.go:168-200 | the owner of a lobby frees the seat of a guest who is not ready and no other, and what they said forgets them; any other kick does nothing |
| `RoomInputs.KickNobody` | server/internal/wsapi/room_lobby.go:168-200 | a kick at somebody who is not there does nothing |
| `RoomInputs.LeaveFrees` | server/internal/wsapi/room_lobby.go:202-315 | between games a player who is not ready frees their seat, the room going to the first player left when it was theirs; one who is ready stays |
| `RoomInputs.StartOrNothing` | server/internal/wsapi/room_lobby.go:140-166 | a start that begins no game changes nothing |
| `RoomInputs.ChatSays` | server/internal/wsapi/room_chat.go:29-72 | what a seated player says is the next line, under their name, as the filter leaves it, the oldest of more than twenty dropped; nothing else changes |
| `RoomInputs.JoinSeats` | server/internal/wsapi/room_lobby.go:41-101 | a joiner gets the first free seat of an open room, under their name or a free one, and nobody else's seat changes; one who may not is turned away |
| `RoomInputs.CreatorOwns` | server/internal/wsapi/room_lobby.go:18-32 | whoever creates a room is alone in it and owns it |
| `RoomInputs.BotRoomSeats` | server/internal/wsapi/room_game.go:91-120 | a player against the bot sits opposite it and nobody else, in a room that is open exactly while its game is on |
| `RoomGames.DealIs` | server/internal/wsapi/room_game.go:123-183 | a game is dealt to everybody seated, in seat order from the seat drawn to lead, or from the player against the bot; it starts on the clock, with nothing played, every readiness spent and a sequence number of its own |
| `RoomGames.MatchedBeginIff` | server/internal/wsapi/room_lobby.go:86-100 | a matched pair's game begins by itself exactly when both are there, the server is not draining and there is a word to draw |
| `RoomGames.EliminationsAre` | server/internal/wsapi/room_game.go:468-596 | players going out move the sequence with the turn, or end the game: counted, credited to its winner and kept for whoever is away; nothing else changes |
| `RoomGames.TurnTimerTakesTheTurn` | server/internal/wsapi/room.go:417-425 | past the deadline of a running game the player to act goes out, and the game is over or the turn, the sequence and the clock move on; before it the timer does nothing |
| `RoomGames.ResignGivesUp` | server/internal/wsapi/room_game.go:28-55 | the player to act may give up at any time and is out first of all; from anybody else it does nothing |
| `RoomGames.DeadEndIsSettled` | server/internal/wsapi/room_game.go:61-86 | the player to act may have a dead end settled, which ends the game against them; claimed where there is a word to play, nothing happens |
| `RoomGames.LeavingGivesUp` | server/internal/wsapi/room_lobby.go:202-221 | leaving a game gives it up, in or out of turn, and frees the seat |
| `RoomGames.LapsedAreOut` | server/internal/wsapi/room_presence.go:68-107 | whoever's window runs out is out of a running game, and until one does the timer does nothing |
| `RoomGames.OnlyTheyResign` | server/internal/wsapi/room_presence.go:82-107 | of those who were in, nobody else resigns by it |
| `RoomGames.WordIsJudged` | server/internal/wsapi/room_game.go:205-253 | a word from the seat under the current number is put to the engine: taken, it is the next position under the next number; late, it costs the turn; anything else changes nothing |
| `RoomGames.BotAnswers` | server/internal/wsapi/room_game.go:332-371 | what the bot sends in its turn under the current number is its move, or its going out first; at any other time it changes nothing |
| `RoomGames.CloseEnds` | server/internal/wsapi/room.go:291-308 | closing counts a running game finished, with no winner, and changes nothing else |
| `RoomGames.ClosedWhen` | server/internal/wsapi/room.go:427-479 | a room is closed exactly by its closing, the end of a game against the bot, or its last player going |
| `RoomRuns.GraceTimerMay` | server/internal/wsapi/room_presence.go:68-107 | windows running out together, with a game to leave, keep the invariant |
| `RoomRuns.LeaveMay` | server/internal/wsapi/room_lobby.go:202-221 | leaving, in the lobby or out of a game, keeps the invariant |
| `RoomRuns.BotMoveMay` | server/internal/wsapi/room_game.go:332-371 | whatever the bot sends, and whenever, keeps the invariant |
| `RoomRuns.HandleMay` | server/internal/wsapi/room.go:378-432 | every input keeps the invariant and moves the room forward |
| `RoomRuns.StepMay` | server/internal/wsapi/room.go:362-479 | every turn of the loop does, the closing at its end included |
| `RoomRuns.RunMay` | server/internal/wsapi/room.go:362-479 | so does any run of it |
| `RoomTheorems.TurnSeqNamesPosition` | server/internal/wsapi/room_game.go:157-163 | over any run, two moments of play have one sequence number exactly when they are the same position of the same game |
| `RoomTheorems.InFlightWordIsHeard` | server/internal/wsapi/room_game.go:494-500 | over any run, a word stamped for the position that still stands is put to the engine and never refused as late, whoever has gone out meanwhile |
| `RoomTheorems.StartBeginsIff` | server/internal/wsapi/room_lobby.go:108-166 | between games a start begins one exactly when the lobby's checks pass, the server is not draining and some word leaves the twenty answers a draw asks for |
| `RoomTheorems.AcceptedAnswersItsStamp` | server/internal/wsapi/room_game.go:216-253 | a word taken under the sequence number of an earlier moment answers the position of that moment |
| `RoomTheorems.ReplayIsOnesOwnTime` | server/internal/wsapi/room_chat.go:76-121 | a seat is replayed exactly the kept lines said since it was filled, and shown as its own only what was said from it |
| `RoomTheorems.DepartedAreForgotten` | server/internal/wsapi/room_lobby.go:274-285 | once a seat has been freed nothing said from it names anybody, for the rest of the run |
| `RoomTheorems.ResumesItsOwn` | server/internal/wsapi/room_presence.go:114-128 | a resume is taken exactly when it replaces the last connection that sat in that very seat |
| `RoomTheorems.StaleNoticesDoNothing` | server/internal/wsapi/room_presence.go:39-47 | a notice changes the room exactly when it is from the connection in the seat, which is the last to have sat in it; any other changes nothing |
| `RoomTheorems.SeatsDoNotChangeHands` | server/internal/wsapi/room_presence.go:109-147 | over any run a seat keeps its name and extends its lineage, or is a new seat |
| `RoomTheorems.TimerCoversWindows` | server/internal/wsapi/room_presence.go:49-61 | the one grace timer is due exactly when some window has run out |
| `RoomTheorems.GraceFreesTheLapsed` | server/internal/wsapi/room_presence.go:63-92 | it then frees exactly the seats whose window has run out |
| `RoomTheorems.NobodyWaitsForEver` | server/internal/wsapi/room_presence.go:26-61 | every human seat with nobody connected has a window the timer will find |
| `RoomTheorems.RoomsStaySafe` | server/internal/wsapi/room_lobby.go:108-315 | over any run of a room from when it is opened: live players sit where they began and nobody is ready in a game; the log is gapless and names only who is still in the seat they spoke from; and between people there is one owner, seated and never ready, and no name twice |
| `RoomTheorems.WinsAreGamesWon` | server/internal/wsapi/room_game.go:548-563 | over any run from when the room is opened, each game begun is running or has one winner, and a seat's wins are how many of those winners it was |
| `RoomTheorems.MissedResultIsShown` | server/internal/wsapi/room_presence.go:168-198 | over any run from a moment of play, a player away at that moment who has not been back by the end of that game, whatever input ends it, and who comes back before the next begins is answered with that game, as it went for them |
| `RoomTheorems.ShownOnce` | server/internal/wsapi/room_presence.go:186-198 | and the seat is owed nothing more until another game has finished |
| `RoomTheorems.EndCreditsTheWinner` | server/internal/wsapi/room_game.go:548-563 | a game that ends adds one win to the winner's seat, where they still sit, and none to any other |
| `RoomBot.BotWordIsPlayed` | server/internal/wsapi/room_game.go:332-371 | over any run, a word chosen on the frozen board that arrives in time under an unchanged sequence is the next move of the game, played by the bot |
| `RoomBot.BotWithNothingIsSettled` | server/internal/wsapi/room_game.go:346-356 | a bot with nothing to play is settled, never made to resign |
| `HubRules.LiveGamesConserved` | server/internal/wsapi/hub.go:150-330 | whatever the hub and its rooms do, liveGames is the number of rooms with a game running |
| `HubRules.NoGameBegins` | server/internal/wsapi/room_lobby.go:146-152 | while draining no input to a seated room begins a game |
| `HubRules.TakeQueuedDue` | server/internal/wsapi/room_game.go:91-120 | seating whoever a room was registered for begins a game exactly when it is against the bot, its player is there and the word drawn, one with twenty answers, opens one; it asks nobody about draining |
| `HubRules.DrainingStep` | server/internal/wsapi/hub.go:311-330 | while draining, live games and games due together never rise |
| `HubRules.DrainingOnlyFinishes` | server/internal/wsapi/hub.go:311-330 | over any run of a draining server no more games come to be live than were live or due |
| `HubRules.EveryGameDueCanBegin` | server/internal/wsapi/hub.go:150-158 | and that many can: some run, drawing only words the server may draw, begins every game due |
| `HubRules.DrainingStartsNothingIff` | server/internal/wsapi/hub.go:311-330 | over every run a draining server starts nothing exactly when no bot room is waiting to seat its player or no word the server may draw opens a game against the bot |
| `HubRules.BotRoomOutlivesTheDrain` | server/internal/wsapi/hub.go:150-158 | the run: a bot room registered, the drain begun, its player seated, and a game live |
| `HubRules.BotGameIff` | server/internal/wsapi/room_game.go:123-152 | over a loaded dictionary a game against the bot can open, and then on any draw, exactly when some word leaves twenty answers |
| `HubRules.OvertakenRoomCloses` | server/internal/wsapi/room_lobby.go:47-60 | an input that overtakes the one a room was registered for seats nobody and closes the room |
| `HubRules.SeatedDoNotWait` | server/internal/wsapi/room.go:607-620 | whoever takes a seat, or comes back to one, leaves the quick-match queue |
| `HubRules.OnlyTheSeatedStopWaiting` | server/internal/wsapi/room.go:607-620 | whoever joins an open room, or resumes the seat they were last in, leaves the quick-match queue, and nothing else done in a room takes anybody out of it |
| `HubRules.StoppingTakesOneOut` | server/internal/wsapi/hub.go:239-249 | cancelling takes that player out of the queue and nobody else, and touches no room |
| `HubRules.PairedGetARoom` | server/internal/wsapi/hub.go:181-234 | asking for a match: refused while draining; a pair leave the queue together and get a room that starts itself, unless the server is full |
| `HubRules.OpensIff` | server/internal/wsapi/hub.go:277-303 | a room is opened exactly when the server is not draining, is not full and the code is free, and then for whoever asked |
| `HubRules.RoomTakesItsInput` | server/internal/wsapi/room.go:362-479 | a room takes its input as rooms do and is forgotten exactly when that closes it |
| `HubRules.RoomsAreApart` | server/internal/wsapi/hub.go:60-66 | nothing that happens in one room, or opens one, touches any other |
| `QuickMatch.MatchIsFair` | server/internal/wsapi/hub.go:188-209 | a pairing takes the longest-waiting live stranger and leaves neither side queued |
| `QuickMatch.CancelRemoves` | server/internal/wsapi/hub.go:239-249 | cancelling removes exactly that session |
| `QuickMatch.Queue.QuickMatch` | server/internal/wsapi/hub.go:188-209 | the loop over the queue, in place |
| `QuickMatch.Queue.CancelQuickMatch` | server/internal/wsapi/hub.go:239-249 | the loop over the queue, in place |
| `RoomObject.RoomObject.PromoteHeir` | server/internal/wsapi/room_lobby.go:304-315 | the room goes to the first player left, whose readiness is cleared |
| `RoomObject.RoomObject.ScrubChat` | server/internal/wsapi/room_lobby.go:278-285 | the words stay, the author and the name go |
| `RoomObject.RoomObject.GameOver` | server/internal/wsapi/room_game.go:548-593 | the end of a game: uncounted, credited, and kept for whoever is away |
| `RoomObject.RoomObject.Eliminated` | server/internal/wsapi/room_game.go:468-502 | what the room makes of the eliminations of one input |
| `RoomObject.RoomObject.SubmitToEngine` | server/internal/wsapi/room_game.go:235-253 | a word put to the engine |
| `RoomObject.RoomObject.Deal` | server/internal/wsapi/room_game.go:129-149 | seat order is turn order, rotated by the drawn lead except against a bot |
| `RoomObject.RoomObject.HandleResume` | server/internal/wsapi/room_presence.go:114-176 | the seat is rebound, or refused, and what it is owed is handed over |
| `RoomObject.RoomObject.ChatHistory` | server/internal/wsapi/room_chat.go:82-93 | the replay of one seat |
| `RoomObject.RoomObject.NextGraceExpiry` | server/internal/wsapi/room_presence.go:50-61 | the earliest open window |
| `RoomObject.RoomObject.EliminateAbsent` | server/internal/wsapi/room_presence.go:82-86 | everybody whose window ran out leaves the game before the room is told once |
| `RoomObject.RoomObject.HandleGraceExpiry` | server/internal/wsapi/room_presence.go:68-92 | both, for exactly the windows that ran out |
| `RoomObject.RoomObject.HandleStartBot` | server/internal/wsapi/room_game.go:91-120 | the player is seated opposite the bot; the game is on, or the room is over |
| `RoomObject.RoomObject.BotPlays` | server/internal/wsapi/room_game.go:358-371 | the bot's word is played; a refused one costs it the game |
| `RoomObject.RoomObject.BotGivesIn` | server/internal/wsapi/room_game.go:346-356 | with nothing to play the position is settled, or failing that the bot resigns |
| `RoomObject.RoomObject.BeginGame` | server/internal/wsapi/room_game.go:123-183 | a game with an engine of its own, or the room as it was |
| `RoomObject.RoomObject.JoinAt` | server/internal/wsapi/room_lobby.go:70-100 | a joiner is seated under a name nobody here has, and a matched pair begin |
| `RoomObject.RoomObject.RunOnce` | server/internal/wsapi/room.go:362-479 | one turn of the loop keeps every invariant, and the hub's count in step with the room's own |
| `HubObject.HubObject.NewRegisteredRoom` | server/internal/wsapi/hub.go:277-303 | a room of its own under a code nobody holds, or nothing |
| `HubObject.HubObject.QuickMatch` | server/internal/wsapi/hub.go:181-234 | a pair are taken off the queue and a room is registered for them |
| `HubObject.HubObject.TakeQueuedInput` | server/internal/wsapi/room.go:378-383 | a room seats whoever it was registered for, and is forgotten if that was the end of it |
| `HubObject.HubObject.RunRoom` | server/internal/wsapi/room.go:362-479 | one room takes one input and no other room is touched |
| `HubObject.HubObject.Serve` | server/internal/wsapi/hub.go:317-330 | after anything the hub or a room does, the shared count is the number of rooms with a game in them |
| `HubObject.HubObject.ServeAll` | server/internal/wsapi/hub.go:317-330 | any run of the server is a run of the hub, and ends with the count right |
| `Templates.SplitTemplate` | server/cmd/build-dictionary/wikitext.go:549-569 | the loop splits on bars outside braces and brackets |
| `Templates.SplitJoins` | server/cmd/build-dictionary/wikitext.go:547-569 | the parts joined on bars are the body, for every string |
| `Rendering.CheckLangCode` | server/cmd/build-dictionary/wikitext.go:526-545 | the loop decides what a language code is |
| `Rendering.PartsAreShort` | server/cmd/build-dictionary/wikitext.go:466-476 | no part is longer than the body, so nested rendering ends |
| `Rendering.StripTemplates` | server/cmd/build-dictionary/wikitext.go:426-457 | the scanner, in place, is the specified scan |
| `Rendering.RenderTemplate` | server/cmd/build-dictionary/wikitext.go:466-521 | one template body as plain text |
| `Rendering.RenderParams` | server/cmd/build-dictionary/wikitext.go:469-476 | the positional parameters as plain text |
| `WikiTrees.ScanTop` | server/cmd/build-dictionary/wikitext.go:426-457 | on a printed tree every outermost template becomes the rendering of its own body |
| `WikiMeaning.SplitBody` | server/cmd/build-dictionary/wikitext.go:547-569 | a printed body splits into its printed parts, however links and templates nest in them and in one another |
| `WikiMeaning.HintIsKeyValue` | server/cmd/build-dictionary/wikitext.go:471-474 | the test for a key=value parameter is right on printed parameters |
| `WikiMeaning.TrimmedOnce` | server/cmd/build-dictionary/wikitext.go:475 | trimming before the nested strip makes no difference to trimming after it |
| `WikiMeaning.StripMeans` | server/cmd/build-dictionary/wikitext.go:422-521 | for every well-formed tree, stripping its printed form gives the structural rendering of the tree |
| `TemplateForms.LabelReads` | server/cmd/build-dictionary/wikitext.go:488-493 | a context label is bracketed, its parts joined with commas, a leading language code dropped when something follows it |
| `TemplateForms.LinkReads` | server/cmd/build-dictionary/wikitext.go:494-499 | a link reads as the last of its parameters |
| `TemplateForms.NonGlossReads` | server/cmd/build-dictionary/wikitext.go:500-501 | a definition that is not a gloss reads as its parameters, one after another |
| `TemplateForms.CrossReferenceReads` | server/cmd/build-dictionary/wikitext.go:502-506 | a cross-reference points at its first parameter |
| `TemplateForms.PlaceReads` | server/cmd/build-dictionary/wikitext.go:507-515 | places are joined with commas, each without the letter and slash of its type |
| `TemplateForms.OthersSayNothing` | server/cmd/build-dictionary/wikitext.go:517-520 | any other template says nothing |
| `TemplateForms.LangCodeIs` | server/cmd/build-dictionary/wikitext.go:523-545 | a language code is runs of lower-case letters between hyphens, each of two or more and the last of two or three, eleven characters at most |
| `TemplateForms.UnclosedIsDropped` | server/cmd/build-dictionary/wikitext.go:451-455 | what opens and never closes is dropped, and what stands before it kept |
| `TemplateForms.StrayCloserIsDropped` | server/cmd/build-dictionary/wikitext.go:438-446 | a closer with nothing open is dropped, and what stands round it kept |
| `Corpus.CapFits` | server/cmd/build-dictionary/wikitext.go:622-632 | a capped gloss fits, and one that fits is left alone |
| `Corpus.CapCutsAtASpace` | server/cmd/build-dictionary/wikitext.go:622-632 | a long gloss is cut at the last space that leaves room for the mark, or where it must be, less what hangs at the cut |
| `Corpus.BareCellIsAGloss` | server/cmd/build-dictionary/main.go:249-253 | a cell without a bar is a gloss with no label |
| `Corpus.RefusedLineIsPassedOver` | server/cmd/build-dictionary/main.go:220-224 | a line whose word is not accepted adds nothing and takes nothing away |
| `Corpus.SensesOnlyGrow` | server/cmd/build-dictionary/main.go:243-263 | meanings are kept in order, and after five the rest are passed over |
| `Corpus.WriteWord` | server/cmd/build-dictionary/corpus.go:76-93 | a line, or an error for a value it cannot carry |
| `Corpus.WriteCorpus` | server/cmd/build-dictionary/corpus.go:43-107 | the file text, or an error |
| `Corpus.ReadSenses` | server/cmd/build-dictionary/main.go:243-263 | the meanings of a line |
| `Corpus.ReadWordList` | server/cmd/build-dictionary/main.go:209-238 | the dictionary a text holds |
| `CorpusRoundTrip.CellReads` | server/cmd/build-dictionary/corpus.go:85-90 | a meaning cell parses back to its meaning |
| `CorpusRoundTrip.WordLineReads` | server/cmd/build-dictionary/main.go:214-234 | a word's line adds exactly that word and its meanings |
| `CorpusRoundTrip.LinesComeBack` | server/cmd/build-dictionary/main.go:214 | the file comes apart into the lines it was made of |
| `CorpusRoundTrip.CorpusRoundTrips` | server/cmd/build-dictionary/corpus.go:40-107 | whenever the dictionary can be written, reading the file gives back exactly that dictionary |
| `Provenance.ReadProvenance` | server/cmd/build-dictionary/corpus.go:130-137 | the header of a word list, read line by line |
| `Provenance.RunFromCorpus` | server/cmd/build-dictionary/corpus.go:124-160 | refused when a provenance key is missing or blank, and then exactly when the words are too few or too seldom explained |
| `Provenance.HeaderRoundTrips` | server/cmd/build-dictionary/corpus.go:68-97 | whatever facts a list is headed with, reading it back finds exactly those, and the dictionary as it was |
| `Provenance.ProvenanceRoundTrips` | server/cmd/build-dictionary/corpus.go:68-150 | an exported list names its dump when read back, value by value, and is accepted as an exported one exactly when no value is blank |
| `Spelling.FindToneShift` | server/cmd/build-dictionary/aliases.go:108-149 | the loop moves the tone only within a final open pair |
| `Spelling.ToneShiftsIff` | server/cmd/build-dictionary/aliases.go:108-149 | a tone can stand elsewhere exactly in a syllable ending on a plain oa, oe or uy, not quy, with a tone on either letter |
| `Spelling.ToneShiftMoves` | server/cmd/build-dictionary/aliases.go:133-145 | then the tone goes to the other letter and nothing else changes |
| `Spelling.SwapIYIs` | server/cmd/build-dictionary/aliases.go:181-225 | i and y interchange exactly as the one vowel ending a syllable of plain letters after h, k, l, m, t or qu, and only that letter changes |
| `Spelling.ShiftUndoes` | server/cmd/build-dictionary/aliases.go:106-149 | the two tone placements of a syllable with one mark are each other's |
| `Spelling.SwapUndoes` | server/cmd/build-dictionary/aliases.go:181-225 | writing i for y and y for i undo each other |
| `Spelling.SpellingsOf` | server/cmd/build-dictionary/aliases.go:234-248 | the spellings of a syllable are distinct, itself first |
| `Spelling.SpellingsAre` | server/cmd/build-dictionary/aliases.go:234-248 | they are the syllable, its other tone placement and its other vowel letter, where there are such |
| `Spelling.CapKeepsTheFirst` | server/cmd/build-dictionary/aliases.go:259-273 | capping at every step keeps exactly the first 32 of all combinations |
| `Spelling.ProductIsEveryChoice` | server/cmd/build-dictionary/aliases.go:259-273 | the combinations are every choice of a spelling for each syllable |
| `Spelling.VariantsAreSpellings` | server/cmd/build-dictionary/aliases.go:250-287 | variants are distinct, never the word itself, each a choice of spellings, and all of them unless the cap bites |
| `Spelling.ExtendCombos` | server/cmd/build-dictionary/aliases.go:263-271 | the capped double loop |
| `Spelling.VariantsFor` | server/cmd/build-dictionary/aliases.go:256-287 | the variants, in place |
| `AliasTable.ClaimKeeps` | server/cmd/build-dictionary/main.go:377-392 | what one claim does to the table, the poisoned set and the count |
| `AliasTable.OneTable` | server/cmd/build-dictionary/main.go:368-396 | the claims alone settle the table and the count |
| `AliasTable.BuildAliases` | server/cmd/build-dictionary/main.go:368-396 | a spelling goes to a word exactly when it is no word and that word alone claims it; each claimed word and each contested spelling is one collision |
| `AliasTable.OrderDoesNotMatter` | server/cmd/build-dictionary/main.go:368-396 | any two orders of the words give the same table and the same count |
| `AliasTable.AliasesPointAtWords` | server/internal/dictionary/store.go:328-332 | an alias is no word, and stands for a word it is a spelling of |
| `TokenBucket.TokenBucket.AllowCall` | server/internal/wsapi/ratelimit.go:30-43 | the bucket, in place |
| `TokenBucket.WindowBound` | server/internal/wsapi/ratelimit.go:30-43 | from the first call at or after a time on, calls allowed are at most the capacity plus what is earned from that time to the latest seen, however the clock steps back between them, past that time too |
| `TokenBucket.RefusalCostsNothing` | server/internal/wsapi/ratelimit.go:34-42 | being refused leaves every later answer as it would have been |
| `TokenBucket.RefusalsCostNothing` | server/internal/wsapi/ratelimit.go:30-43 | over any run on a clock that goes forward, leaving out the refused calls changes no answer |
| `TokenBucket.PatienceIsAllowed` | server/internal/wsapi/ratelimit.go:30-43 | whoever waits as long as one token takes is never refused |
| `TokenBucket.BurstIsCapacity` | server/internal/wsapi/ratelimit.go:30-43 | a full bucket lets through all it holds in one instant |
| `KeyedLimiter.KeyedLimiter.AllowCall` | server/internal/wsapi/ratelimit.go:68-78 | one bucket per key, full when first asked |
| `KeyedLimiter.KeyedLimiter.SweepIdle` | server/internal/wsapi/ratelimit.go:82-99 | exactly the buckets idle too long go |
| `KeyedLimiter.KeysAreApart` | server/internal/wsapi/ratelimit.go:68-99 | over any run, a key is answered as if it were the only one in use |
| `KeyedLimiter.SweptRunsAlike` | server/internal/wsapi/ratelimit.go:68-99 | swept often enough apart, a limiter answers every later call as one that never sweeps |
| `KeyedLimiter.SweepIsTransparentIff` | server/internal/wsapi/ratelimit.go:80-99 | sweeping is invisible exactly when the idle limit is at least the time a bucket takes to fill |
| `KeyedLimiter.SteppingBackShows` | server/internal/wsapi/ratelimit.go:80-99 | on a clock that steps back no limiter, whatever its limits, sweeps unseen |
| `KeyedLimiter.HubLimitersAreTransparent` | server/internal/wsapi/session.go:53-88 | the hub's own two limiters may be swept freely |

## Left out

- Lookahead.Search.Negamax: says nothing of the answer once the budget is spent, because the early return of the window floor is not a bound at every ply; the used words, the node bound and legality are stated for those runs too. Its loop over children is three methods here.
- Strategies.ChooseHard: the rate at which an instant win is declined is an open choice; nothing is said of probabilities.
- Engine.Engine.Submit: the checks on the word itself are a method of their own, in the same order; integer widths are unbounded.
- RoomObject.RoomObject.RunOnce: seats are values at their index, told apart by serial, where the source compares pointers.
- RoomTheorems.RoomsStaySafe: distinct names and the owner's readiness are claimed of rooms between people; in a bot room the player may carry the bot's own name.
- RoomTheorems.TurnSeqNamesPosition: the sequence number is a natural number; 32-bit wrap-around is not modelled.
- HubRules.LiveGamesConserved: room codes are opaque and drawn outside; registering a room, a pairing with its registration, and a room's handling of one input, its test for draining included, are one step each.
- HubRules.HubStep: a room that is cancelled closes at once, where the source may take inputs already queued for it first; an input that overtakes the one a room was registered for closes it, where the source answers both.
- HubObject.HubObject.ServeAll: each event is one call, in the order given; the rooms' goroutines are not interleaved within a call.
- Loading.Open: the licence and the builder version read from the metadata are not modelled.
- Building.Finish: the coverage floor is compared over the reals, where the source compares floating-point numbers.
- Building.BuildFromText: accept is any function that gives a word two syllables or more and names its first and last.
- Building.WriteTo: the rest of the metadata, the transaction and the temporary file are left out; rows are read back word by word, each word's meanings in order, as the query asks.
- TokenBucket.RefusalsCostNothing: on a clock that goes forward, as Go's monotonic readings do; one that steps back may remember how far it had gone from a refused call.
- Spelling.SpellingsAre: the pairs of syllables listed one by one are a parameter.
- KeyedLimiter.SweepIsTransparentIff: calls and sweeps are atomic, and the clock goes forward, as Go's monotonic readings do; on one that steps back sweeping always shows (`KeyedLimiter.SteppingBackShows`).
- CorpusRoundTrip.CorpusRoundTrips: accept is any function that never accepts an empty word or one beginning with a hash; the header is any list of comment lines (`Provenance` says which the builder writes); the sort of the keys is any order of them.
- Provenance.ProvenanceRoundTrips: the lines above the header are any comments that are not header lines; the dump's url is a parameter, and the page count and the time are text already; a value holds no line break.
- WikiMeaning.StripMeans: text in a tree makes no doubled brace or bracket, in itself or with what is printed after it, and text inside a parameter holds no bar; the count of dropped template names is left out.
- Spelling.ShiftUndoes: for syllables whose pair carries a single mark; taking syllables apart and together is a parameter.
- What is sent to players: broadcasts, replies to refusals, error codes, suggestions, near misses, and the reasons shown for eliminations. A result kept for a player who was away is modelled as the finished game and whether they won it.
- The session side of seating (attach and release), resume tokens, the idle timer's own arming (it is a close), room inboxes and their capacity.
- Unicode normalization and case folding, the dump parser's section finding, links and HTML in wikitext, SQLite, metrics and logs.
- The easy strategy, thinking delays, server configuration, HTTP and WebSocket handling, and the browser client.
