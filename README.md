# Homeworlds rules engine, modelled in Dafny

This project models the rules engine of a two-player Homeworlds-style game.
The engine's pieces come in four colours and three sizes. Each of the twelve
kinds starts with three pieces in a shared reserve. A system is a star (a list
of pieces, owned by a player for a homeworld or neutral) with a list of ships.
Setup accepts any list of star pieces; a neutral star always has at least one.
Each player turn is a list of actions:

- `construct`: build a ship of a colour the player already has there.
- `move`: move a ship to an existing system whose star shares no size with its
  origin, or found a new system.
- `trade`: swap a ship's colour.
- `attack`: take over an enemy ship of at most the size of one of your own.
- `sacrifice`: give up a ship for as many actions of its colour's power as its size.
- `catastrophe`: clear out a colour present four or more times in a system.
- `setup`: found a homeworld.

Each action has a validator. Construct, move, trade and attack need their colour
power present in the system, unless they run as part of a sacrifice. The turn
interpreter validates and executes the actions in order and stops at the first
rejection. A player without an own ship at an own homeworld loses.

The model has these modules:

- **Pieces** (`pieces.dfy`): colours, sizes, the twelve reserve keys, and the
  reserve as twelve counts, with the two one-piece helpers, refunds and
  withdrawals.
- **Board** (`board.dfy`): ships, stars, systems and the game state, with the
  query helpers of `game.py` and the list filters the executors use.
- **Actions** (`actions.dfy`): the action datatype that replaces the
  string-keyed dispatch tables, the colour-to-power table, and rejection
  reasons.
- **Rules** (`rules.dfy`): every validator, and the effect of every executor,
  as functions on game states.
- **Acceptance** (`acceptance.dfy`): for each validator, the exact conditions
  under which it accepts, in both directions.
- **Conservation** (`conservation.dfy`): every accepted action keeps the state
  well formed. For each piece kind it keeps reserve plus board constant, and it
  keeps reserve counts non-negative.
- **Turns** (`turns.dfy`): the initial state, the loss check, turn alternation,
  and a bot's turn as a function (`RunTurn`).
- **Executors** (`executors.dfy`): class `Game`. Its methods change the game in
  place, as the source's executors do. Each is proved to leave exactly the
  state its `Rules` function computes.
- **Interpreter** (`interpreter.dfy`): `interpret_bot_input` as a loop over the
  bot's list on a `Game` object. It is proved to agree with `RunTurn`.
- **Properties** (`properties.dfy`): the laws of the game in detail. These
  cover the colour powers, combat, the adjacency rule, the sacrifice count and
  kind laws, the three catastrophe outcomes, and the effects of construct, move,
  trade, attack, the sacrifice spend and setup. This module also holds the trade
  counterexample.

Where the source is evidently broken (a wrong index, a misspelt key, a
filtered list never written back), the model follows what the surrounding code
and docstrings state. Each such place in the Dafny carries a comment naming
the line it corrects.

A game state is well formed (`Board.Wf`) when:

- the current player is not the no-owner id 0, and 0 is not a registered player;
- every system id lies between 1 and `system_count`;
- every neutral star has a piece.

## Model

| member | source | states |
|---|---|---|
| Pieces.PieceKeyInjective | game_engine/game.py:202-204 | two pieces have the same key exactly when they are the same piece, and every key is one of the twelve reserve keys |
| Pieces.Slot | game_engine/game.py:85-98 | each piece has a position among the twelve reserve keys, and the key at that position is the piece's key |
| Pieces.SlotInjective | game_engine/game.py:85-98 | distinct pieces occupy distinct reserve positions |
| Pieces.PieceAt | game_engine/game.py:85-98 | every one of the twelve positions belongs to some piece |
| Pieces.InitialReserve | game_engine/main.py:107-120 | the initial reserve holds three of every piece |
| Pieces.AddPiece | game_engine/game.py:581-585 | the piece's count goes up by one and every other count is unchanged |
| Pieces.RemovePiece | game_engine/game.py:588-592 | the piece's count goes down by one and every other count is unchanged |
| Pieces.PieceInReserve | game_engine/game.py:153-160 | true exactly when the piece's count is positive; taking that piece from a non-negative reserve keeps it non-negative |
| Pieces.ColorInReserve | game_engine/game.py:163-172 | true only when some size of the colour has a positive count; on a non-negative reserve, true whenever one does |
| Pieces.SmallestAvailable | game_engine/game.py:434-438 | no size exactly when every count of the colour is zero or less; otherwise the returned size has a positive count and every smaller size has none |
| Pieces.Refund | game_engine/game.py:523-526 | every count goes up by the number of times its piece occurs in the list |
| Pieces.Withdraw | game_engine/game.py:553-554 | every count goes down by the number of times its piece occurs in the list |
| Board.PlayerHasShip | game_engine/game.py:137-150 | true exactly when the ship's owner is a registered player, the system exists, and the ship is in it |
| Board.ColorsInSystem | game_engine/game.py:175-180 | a colour is present exactly when some ship or some star piece of the system has it |
| Board.ColorsOfPlayer | game_engine/game.py:183-187 | a colour is listed exactly when a ship of the player in the system has it |
| Board.ShipsOfPlayer | game_engine/game.py:196-199 | exactly the system's ships owned by the player |
| Board.ShipColors | game_engine/game.py:178 | a colour is listed exactly when some ship of the list has it |
| Board.PieceColors | game_engine/game.py:179 | a colour is listed exactly when some piece of the list has it |
| Board.OwnedBy | game_engine/main.py:38 | exactly the ships of the list owned by the player |
| Board.StarSizes | game_engine/game.py:274-275 | a size is in the set exactly when some star piece has it |
| Board.ShipPieces | game_engine/game.py:525-526 | the ships' pieces, position by position |
| Board.RemoveFirst | game_engine/game.py:457 | a present ship loses exactly one occurrence (as a multiset), and an absent one changes nothing |
| Board.RemoveFirstPieces | game_engine/game.py:505-507 | removing a present ship takes exactly its piece off the list's pieces |
| Board.ReplaceFirst | game_engine/game.py:497-498 | the list keeps its length and its pieces; it is unchanged when the ship is absent |
| Board.ReplaceFirstContents | game_engine/game.py:497-498 | when the ship is present, the re-owned ship is in the new list, and exactly one occurrence of the ship has been swapped for it (the new list plus the ship equals the old list plus the re-owned ship, as multisets) |
| Board.ShipsOfColor | game_engine/game.py:535 | exactly the ships of the colour |
| Board.OtherShips | game_engine/game.py:534 | exactly the ships of other colours |
| Board.SplitShipsByColor | game_engine/game.py:534-538 | the ships of the colour and the rest together hold exactly the pieces of all ships |
| Board.PartitionShipsByColor | game_engine/game.py:534-535 | the ships of the colour and the rest together are exactly the ship list, as multisets |
| Board.PiecesOfColor | game_engine/game.py:529-531 | exactly the star pieces of the colour |
| Board.OtherPieces | game_engine/game.py:521 | exactly the star pieces of other colours, never more than the star has |
| Board.SplitPiecesByColor | game_engine/game.py:520-532 | the star pieces of the colour and the rest together are exactly the star's pieces |
| Acceptance.ConstructAccepted | game_engine/game.py:226-246 | construct is accepted exactly when the system exists, the colour is in the reserve, the player has a ship of that colour there, and green is present or the action is a sacrifice action |
| Acceptance.MoveAccepted | game_engine/game.py:250-283 | move is accepted exactly when the origin exists, the ship is the current player's and is there, an existing destination exists and shares no star size with the origin, a new system's piece is in the reserve and its size is not a size of the origin's star, and yellow is present or the action is a sacrifice action |
| Acceptance.TradeAccepted | game_engine/game.py:287-306 | the corrected trade is accepted exactly when the system exists, the ship is the current player's and is there, the new piece is in the reserve, and blue is present or the action is a sacrifice action |
| Acceptance.AttackAccepted | game_engine/game.py:310-332 | attack is accepted exactly when the system exists, the target is not the current player's, the player has a ship there of at least the target's size, and red is present or the action is a sacrifice action |
| Acceptance.CatastropheAccepted | game_engine/game.py:371-393 | catastrophe is accepted exactly when the system exists and holds at least four pieces of the colour, ships and star together |
| Acceptance.SetupAccepted | game_engine/game.py:397-413 | setup is accepted exactly when each used piece's count covers its multiplicity among the pieces and the current player owns no star |
| Acceptance.SacrificeAccepted | game_engine/game.py:336-367 | sacrifice is accepted exactly when the ship is in the system with a registered owner, the non-catastrophe sub-actions number the ship's size, and the chain of sub-actions is accepted after the ship is spent |
| Conservation.ConstructKeeps | game_engine/game.py:434-447 | an accepted construct keeps the state well formed, keeps the reserve non-negative, and keeps every piece's total (reserve plus board) |
| Conservation.LeaveOriginShape | game_engine/game.py:456-463 | leaving the origin keeps the state well formed, and deletes the origin only when it is neutral |
| Conservation.LeaveOriginTotal | game_engine/game.py:456-463 | after leaving the origin, every piece's total is as before, except the moved ship's piece, which is one short until the ship arrives |
| Conservation.DestinationSurvives | game_engine/game.py:473 | an existing destination accepted for a move is still there after the ship leaves its origin |
| Conservation.ArrivalSafe | game_engine/game.py:465-473 | the arriving ship keeps the state well formed, and founding a system from an available piece keeps the reserve non-negative |
| Conservation.MoveKeeps | game_engine/game.py:451-475 | under the conditions move's validator checks, move keeps the state well formed and non-negative, and keeps every piece's total |
| Conservation.TradeKeeps | game_engine/game.py:479-491 | under the corrected trade's conditions, trade keeps the state well formed and non-negative, and keeps every piece's total |
| Conservation.AttackKeeps | game_engine/game.py:495-500 | attack keeps the state well formed, the reserve, and every piece's total |
| Conservation.SpendKeeps | game_engine/game.py:505-507 | spending a present ship keeps the state well formed and non-negative, and keeps every piece's total |
| Conservation.CatastropheKeeps | game_engine/game.py:517-546 | catastrophe keeps the state well formed and non-negative, and keeps every piece's total |
| Conservation.SetupKeeps | game_engine/game.py:550-561 | an accepted setup keeps the state well formed and non-negative, and keeps every piece's total |
| Conservation.ApplyKeeps | game_engine/game.py:564-572 | every accepted action, sacrifice chains included, keeps the state well formed and non-negative, and keeps every piece's total |
| Conservation.SacrificeKeeps | game_engine/game.py:504-513 | an accepted sacrifice, with all its sub-actions, keeps the state well formed and non-negative, and keeps every piece's total |
| Conservation.ChainKeeps | game_engine/game.py:509-511 | an accepted chain of sub-actions keeps the state well formed and non-negative, and keeps every piece's total |
| Turns.Init | game_engine/main.py:106-127 | the initial state: three of every piece, no systems, system count 0, players 1 and 2, the given first player |
| Turns.InitInvariants | game_engine/main.py:106-127 | the initial state is well formed, non-negative, and holds three of every piece in total |
| Turns.ConservedForever | game_engine/main.py:68-71 | from a state holding three of every piece, any accepted action leads to one that does too |
| Turns.PlayersWithHomeworlds | game_engine/main.py:35-40 | exactly the registered players with an own ship in a system whose star they own |
| Turns.Without | game_engine/main.py:42 | exactly the listed players not in the set |
| Turns.CheckPlayerLost | game_engine/main.py:33-46 | no losers exactly when every registered player has a homeworld with an own ship; otherwise a non-empty list of exactly the players who have none |
| Turns.NeutralSystemsIrrelevant | game_engine/main.py:37-40 | two states that differ only in neutral systems have the same losers |
| Turns.Losers | game_engine/main.py:149-153 | no loss is detected in the first two turns; afterwards the loss check decides |
| Turns.NextPlayer | game_engine/main.py:76-83 | 1 goes to 2, every other id to 1 |
| Turns.NextPlayerAlternates | game_engine/main.py:76-83 | on players 1 and 2 the next player is the other one, and two steps return to the first |
| Turns.ArgumentsOf | game_engine/main.py:61-62 | the argument tuple of the pair is an action of the kind its name says |
| Turns.Pairs | game_engine/main.py:58-62 | one action per (name, arguments) pair, in order, each of the kind its name says |
| Turns.RunTurnStep | game_engine/main.py:68-71 | a rejected first action ends the turn with that rejection and the state as it stands; an accepted one is applied and the turn goes on |
| Turns.RunTurnAccepts | game_engine/main.py:58-73 | a turn is accepted exactly when each action is accepted on the state the earlier ones left, and its state is then the fold of the executors |
| Turns.RunTurnRejects | game_engine/main.py:68-70 | at the first rejected action the turn returns that rejection unchanged, with the state the earlier executors left (no rollback) |
| Turns.Relaxed | game_engine/game.py:243 | an action accepted without the sacrifice flag is accepted with it |
| Turns.RunTurnKeeps | game_engine/main.py:58-73 | a whole turn, whether accepted or cut short, keeps the state well formed and non-negative, and keeps every piece's total |
| Executors.Game.constructor | game_engine/main.py:106-127 | the new game is the initial state |
| Executors.Game.AddPieceToReserve | game_engine/game.py:581-585 | only the reserve changes, by one more of the piece |
| Executors.Game.RemovePieceFromReserve | game_engine/game.py:588-592 | only the reserve changes, by one fewer of the piece |
| Executors.Game.ReturnPieces | game_engine/game.py:523-526 | only the reserve changes, by the refund of the listed pieces |
| Executors.Game.TakePieces | game_engine/game.py:553-554 | only the reserve changes, by the withdrawal of the listed pieces |
| Executors.Game.Construct | game_engine/game.py:434-447 | the game becomes exactly the construct effect of the old state |
| Executors.Game.FirstAvailableSize | game_engine/game.py:436-437 | the scan returns exactly the smallest available size of the colour, or none (Pieces.SmallestAvailable) |
| Executors.Game.Depart | game_engine/game.py:456-463 | the game becomes exactly the old state with the ship gone from its origin |
| Executors.Game.Move | game_engine/game.py:451-475 | the game becomes exactly the move effect of the old state |
| Executors.Game.Arrive | game_engine/game.py:465-475 | the game becomes exactly the old state with the ship arrived: appended to an existing destination, or founding the next system |
| Executors.Game.Trade | game_engine/game.py:479-491 | the game becomes exactly the trade effect of the old state, which Properties.TradeEffect describes |
| Executors.Game.Attack | game_engine/game.py:495-500 | the game becomes exactly the attack effect of the old state |
| Executors.Game.Sacrifice | game_engine/game.py:504-513 | the game becomes exactly the sacrifice effect: the ship spent, then each sub-action in order |
| Executors.Game.Catastrophe | game_engine/game.py:517-546 | the game becomes exactly the catastrophe effect of the old state |
| Executors.Game.DestroySystem | game_engine/game.py:521-527 | all star and ship pieces are refunded and the system is deleted; nothing else changes |
| Executors.Game.DestroyColorWithStar | game_engine/game.py:528-539 | the star pieces and ships of the colour are refunded and removed; the rest of the system stays |
| Executors.Game.StripStarColor | game_engine/game.py:529-532 | the star pieces of the colour are refunded and removed from the star |
| Executors.Game.DestroyColorShips | game_engine/game.py:540-544 | the ships of the colour are refunded and removed; the star stays |
| Executors.Game.Setup | game_engine/game.py:550-561 | the game becomes exactly the setup effect of the old state |
| Executors.Game.Execute | game_engine/game.py:564-572 | runs the executor of the action; the game becomes its effect on the old state |
| Interpreter.InterpretBotInput | game_engine/main.py:50-73 | the verdict and the game's new state are exactly those of RunTurn on the bot's pairs; by the Turns lemmas, that is acceptance with the fold of all executors, or the first rejection with the state the earlier executors left |
| Interpreter.Perform | game_engine/main.py:63-71 | one pair: the verdict is the validator's; a rejection leaves the game unchanged and ends the turn, and an acceptance applies the executor and the turn goes on |
| Properties.ConstructPower | game_engine/game.py:238-244 | without the sacrifice flag, construct is accepted exactly when it is accepted with it and green is present |
| Properties.MovePower | game_engine/game.py:279-281 | without the sacrifice flag, move is accepted exactly when it is accepted with it and yellow is present at the origin |
| Properties.TradePower | game_engine/game.py:302-304 | without the sacrifice flag, trade is accepted exactly when it is accepted with it and blue is present |
| Properties.AttackPower | game_engine/game.py:328-330 | without the sacrifice flag, attack is accepted exactly when it is accepted with it and red is present |
| Properties.ConstructNeedsOwnColor | game_engine/game.py:239-241 | an accepted construct has an own ship of the built colour in the system |
| Properties.AttackRules | game_engine/game.py:319-326 | an accepted attack targets a ship the player does not own and the player has a ship at least as large; an own target is rejected as owned, and an attacker with only smaller ships is rejected |
| Properties.TradeEffect | game_engine/game.py:479-491 | trading a present ship keeps the star, swaps one occurrence of the ship for a ship of the current player of the same size in the new colour, appended last; the old piece returns to the reserve and the new one leaves it; nothing else changes |
| Properties.TradedShips | game_engine/game.py:481-490 | dropping one occurrence of a present ship and appending another keeps the length, puts the new ship last, and swaps the one for the other as multisets |
| Properties.AttackEffect | game_engine/game.py:495-500 | the target leaves once and returns owned by the attacker; the reserve, the star and the other systems are untouched |
| Properties.ConstructEffect | game_engine/game.py:434-447 | the smallest available size is built; only its count drops, by one; exactly one ship of that piece, owned by the current player, is appended; the other systems are untouched |
| Properties.MoveSymmetric | game_engine/game.py:274-277 | being connected (disjoint star sizes) does not depend on direction; accepted moves go between connected systems; between unconnected systems every move is rejected both ways |
| Properties.MoveAbandonsNeutralOrigin | game_engine/game.py:458-463 | a neutral origin left without ships is deleted and its star pieces are refunded |
| Properties.MoveKeepsHomeworld | game_engine/game.py:456-463 | an origin with an owned star survives, star intact, with one occurrence of the ship gone, even when emptied |
| Properties.MoveArrives | game_engine/game.py:465-473 | the ship is appended to an existing destination, whose star, the reserve, the system count and the other systems stay as leaving the origin left them; or it founds a new neutral system under the next unused id, with only the founding piece's count lowered, by one, and no earlier system touched |
| Properties.ChainAccepted | game_engine/game.py:356-365 | a chain is accepted exactly when every sub-action is of the granted kind or a catastrophe, and is legal on the state the earlier ones leave |
| Properties.SpendEffect | game_engine/game.py:505-507 | spending keeps the star and removes one occurrence of a present ship, or nothing when it is absent; the ship's piece returns to the reserve either way; nothing else changes |
| Properties.SacrificeLaws | game_engine/game.py:349-361 | an accepted sacrifice has exactly the ship's size in non-catastrophe sub-actions, each of its colour's kind or a catastrophe; any other count is rejected with that count |
| Properties.CatastropheThreshold | game_engine/game.py:384-391 | four or more pieces of the colour admit the catastrophe; three or fewer are rejected as not overpopulated |
| Properties.CatastropheDestroysSystem | game_engine/game.py:521-527 | a star wholly of the colour: the system is deleted and every one of its pieces is refunded; nothing else changes |
| Properties.CatastropheShrinksStar | game_engine/game.py:528-539 | a star partly of the colour: exactly the pieces and ships of other colours remain, every copy of them as multisets, and the rest are refunded |
| Properties.CatastropheShrinkBranch | game_engine/game.py:528-539 | such a star takes the middle branch: the coloured star pieces and ships are refunded and the system keeps the others |
| Properties.CatastropheDestroysShips | game_engine/game.py:540-544 | a star with no piece of the colour stays; exactly the ships of other colours remain, every copy of them as multisets, and the ships of the colour are refunded |
| Properties.SetupEffect | game_engine/game.py:550-561 | every count drops by its piece's multiplicity; the next id gets a system whose star is the current player's, holding exactly one ship of theirs; the earlier systems are untouched |
| Properties.PhantomTradeGame | game_engine/game.py:287-306 | a game with a homeworld at id 1 and system count 1 |
| Properties.PhantomTradeGameCounts | game_engine/main.py:106-120 | that game is well formed and holds three large red pieces, all in the reserve |
| Properties.PhantomTradeAccepted | game_engine/game.py:287-306 | the trade validator as written accepts trading a large red ship that is not in the system; the corrected validator rejects it as missing |
| Properties.PhantomTradeResult | game_engine/game.py:479-491 | the executor refunds the large red piece, takes a large yellow one and appends a yellow ship, leaving the blue ship in place |
| Properties.TradeAsWrittenBreaksConservation | game_engine/game.py:479-491 | executing that phantom trade leaves four large red pieces where there were three |

## Left out

- Reason strings, the `history` log and the unused `owner_count` field are left out. A rejection carries an enumerated reason instead of the formatted message.
- The `main` loop is left out: loading bots with `import_module`, the retry loop on rejections, printing, `DEBUG` output and writing the log file are process plumbing. The random choice of the first player becomes the parameter of `Turns.Init`. The turn-count gate is kept as `Turns.Losers`.
- The bots and `game_engine/engine.py` are not part of this model. engine.py is a stale, unused copy of the validators.
- The schema decorators and `ValidatedType` classes are not part of this model. Their run-time type checks become Dafny types: `Size` as a subset type, and `Color`, `Action` and `Destination` as datatypes.
- Interpreter.InterpretBotInput: the bot's flat list becomes a sequence of `Item`s, each an action name or an action. An odd-length list, a name without matching arguments, or an unknown name makes the source raise; the model requires a well-formed list (`Turns.WellFormedInput`) instead.
- Board.RemoveFirst: the `!=` filters of move, trade and sacrifice (game_engine/game.py:457, 482, 506) drop every ship equal to the given one but refund a single piece. The model removes one occurrence, so that each removal matches its one refund. With two equal ships in a system, this differs from the source. Likewise Board.ReplaceFirst re-owns only the first equal ship, where attack's `==` filter (game_engine/game.py:497-498) selects every equal ship.
- Rules.ValidateSacrifice: the source validates every sub-action against the state before the sacrifice (game_engine/game.py:356-365). The model validates each one against the state its executor will meet: after the ship is spent and the earlier sub-actions are applied. The source's check lets a sub-action move the sacrificed ship itself: the ship is still there when the move is validated, and move re-appends it at the destination after its piece has been refunded, so that piece kind is counted once more than it exists. The model validates that move on the state after the spend, so it is rejected unless an equal ship is still in the system.
- Acceptance.SacrificeAccepted: as the source's `check_player_has_ship` does, the sacrifice validator checks only that the ship's owner is a registered player, not that it is the current player.
- Rules.LeaveOrigin: a deleted neutral origin refunds every piece of its star. The source reads a single `star["piece"]` (game_engine/game.py:460), a key that does not exist. Neutral stars made by move have exactly one piece.
- Acceptance.AttackAccepted: like the source, the attack validator does not check that the target ship is in the system. Attacking an absent ship is accepted and changes nothing.
- Where the source would raise `KeyError` on a missing system, the effect functions of Rules skip the failing step. Trade, attack, catastrophe, sacrifice and a move from a missing origin then leave the state unchanged. Construct also leaves it unchanged, and so skips the reserve decrement that the source has already made (game_engine/game.py:441) when it raises at line 442. A move to a missing existing destination keeps its origin step, as the source has already performed it when it raises (game_engine/game.py:456-473); only the arrival is skipped. States that passed validation never reach those branches.
- Counts are unbounded integers, as Python's are. Non-negativity of the reserve is a proved invariant, not a type.

## Findings

| source | as written | input that shows it | evidently intended | confidence | as-written member | corrected member |
|---|---|---|---|---|---|---|
| game_engine/game.py:287-306 | validate_trade never checks that the traded ship is in the system or belongs to the current player, so trade refunds a piece that was never on the board | player 1 trades `Ship(1, red 3)` for yellow in a system whose only ship is a blue 2 | the ownership and presence checks of validate_move (game_engine/game.py:265-269) | high; not executed | Properties.TradeAsWrittenBreaksConservation | Conservation.TradeKeeps |
