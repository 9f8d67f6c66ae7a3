/**
 * The legality predicate of every action (game_engine/game.py:213-413)
 * and the effect of every action on a game state (game_engine/game.py:433-561),
 * as functions on values. The executors of module Executors change a game
 * in place and are proved to produce exactly these values.
 *
 * Where the source is evidently broken, the model follows what the
 * surrounding code and docstrings state; each such place carries a comment
 * naming the line it corrects.
 *
 * The effect functions are total: where the source would raise KeyError on
 * a missing system they leave the state unchanged. On a well-formed state
 * that the validator accepted, that never happens (module Conservation).
 */
module Rules {
  import opened Pieces
  import opened Board
  import opened Actions

  // ---------------------------------------------------------------------
  // Validators
  // ---------------------------------------------------------------------

  /** validate_construct (game_engine/game.py:226-246). */
  function ValidateConstruct(g: GameState, system: int, color: Color, sacrifice: bool): Verdict
  {
    if system !in g.systems then Reject(NoSuchSystem)
    else if !ColorInReserve(g.reserve, color) then Reject(ReserveEmpty)
    else if color !in ColorsOfPlayer(g, g.currentPlayer, system) then Reject(ColorNotOwned(color))
    else if !sacrifice && Green !in ColorsInSystem(g, system) then Reject(PowerAbsent(Green))
    else Accept
  }

  /** The star sizes of a move's destination; a new system's star is its founding piece. */
  function DestinationSizes(g: GameState, dest: Destination): set<Size>
  {
    match dest
    case Existing(id) => if id in g.systems then StarSizes(g.systems[id].star.pieces) else {}
    case NewSystem(p) => {p.size}
  }

  /** validate_move (game_engine/game.py:250-283). */
  function ValidateMove(g: GameState, origin: int, ship: Ship, dest: Destination, sacrifice: bool): Verdict
  {
    // game.py:257 reads the destination from args[1]; it is args[2], `dest` here
    if origin !in g.systems then Reject(NoSuchSystem)
    else if dest.Existing? && dest.id !in g.systems then Reject(NoSuchSystem)
    // game.py:263 reads to_system["piece"]; the key is "new_piece" (game.py:67, 466)
    else if dest.NewSystem? && !PieceInReserve(g.reserve, dest.newPiece) then Reject(ReserveEmpty)
    // game.py:265 reads ship[0]; it means ship["owner"]
    else if ship.owner != g.currentPlayer then Reject(NotOwnShip)
    // game.py:268 tests the (bool, str) tuple, which is always truthy; it means its [0]
    else if !PlayerHasShip(g, origin, ship) then Reject(ShipMissing)
    // game.py:272 indexes systems by a new-system dict; game.py:276 calls .intersect,
    // which sets do not have: the intent is the intersection of the two star-size sets
    else if StarSizes(g.systems[origin].star.pieces) * DestinationSizes(g, dest) != {} then Reject(SharedStarSize)
    else if !sacrifice && Yellow !in ColorsInSystem(g, origin) then Reject(PowerAbsent(Yellow))
    else Accept
  }

  /**
   * validate_trade as the source writes it (game_engine/game.py:287-306), with
   * only the piece of game.py:298 repaired: it never checks that the traded ship
   * is in the system or belongs to the current player.
   */
  function ValidateTradeAsWritten(g: GameState, system: int, ship: Ship, color: Color, sacrifice: bool): Verdict
  {
    if system !in g.systems then Reject(NoSuchSystem)
    // game.py:298 builds the piece as a list, which check_piece_in_reserve cannot index
    else if !PieceInReserve(g.reserve, Piece(color, ship.piece.size)) then Reject(ReserveEmpty)
    else if !sacrifice && Blue !in ColorsInSystem(g, system) then Reject(PowerAbsent(Blue))
    else Accept
  }

  /**
   * validate_trade with the ownership and presence checks of validate_move
   * (game.py:265-269) added, so that trade destroys a ship that exists.
   */
  function ValidateTrade(g: GameState, system: int, ship: Ship, color: Color, sacrifice: bool): Verdict
  {
    if system !in g.systems then Reject(NoSuchSystem)
    else if ship.owner != g.currentPlayer then Reject(NotOwnShip)
    else if !PlayerHasShip(g, system, ship) then Reject(ShipMissing)
    else if !PieceInReserve(g.reserve, Piece(color, ship.piece.size)) then Reject(ReserveEmpty)
    else if !sacrifice && Blue !in ColorsInSystem(g, system) then Reject(PowerAbsent(Blue))
    else Accept
  }

  /** Some ship of the list has a size at least `size` (game.py:324-325). */
  function SomeShipAtLeast(ships: seq<Ship>, size: int): bool
  {
    exists s :: s in ships && s.piece.size >= size
  }

  /** validate_attack (game_engine/game.py:310-332). */
  function ValidateAttack(g: GameState, system: int, ship: Ship, sacrifice: bool): Verdict
  {
    if system !in g.systems then Reject(NoSuchSystem)
    // game.py:319 reads ship[0]; it means ship["owner"]
    else if ship.owner == g.currentPlayer then Reject(TargetAlreadyOwned)
    else if !SomeShipAtLeast(ShipsOfPlayer(g, g.currentPlayer, system), ship.piece.size) then Reject(NoShipLargeEnough)
    else if !sacrifice && Red !in ColorsInSystem(g, system) then Reject(PowerAbsent(Red))
    else Accept
  }

  /** validate_catastrophe (game_engine/game.py:371-393). */
  function ValidateCatastrophe(g: GameState, system: int, color: Color): Verdict
  {
    if system !in g.systems then Reject(NoSuchSystem)
    else if ColorCount(g.systems[system], color) < 4 then Reject(NotOverpopulated)
    else Accept
  }

  /** validate_setup (game_engine/game.py:397-413). */
  function ValidateSetup(g: GameState, starPieces: seq<Piece>, shipPiece: Piece): Verdict
  {
    var all := starPieces + [shipPiece];
    if exists p :: p in all && Amount(g.reserve, p) < multiset(all)[p] then Reject(SetupReserveShort)
    else if exists id :: id in g.systems && g.systems[id].star.owner == g.currentPlayer then Reject(SetupAlreadyDone)
    else Accept
  }

  /**
   * validate_sacrifice (game_engine/game.py:336-367). The source validates
   * every sub-action against the state before the sacrifice; the model
   * validates each against the state its executor will meet: after the ship
   * is spent and the earlier sub-actions are applied.
   */
  function ValidateSacrifice(g: GameState, system: int, ship: Ship, subs: seq<Action>): Verdict
    decreases Sacrifice(system, ship, subs), 1
  {
    if system !in g.systems then Reject(NoSuchSystem)
    // game.py:346 tests the (bool, str) tuple, which is always truthy; it means its [0]
    else if !PlayerHasShip(g, system, ship) then Reject(ShipMissing)
    else if NonCatastropheCount(subs) != ship.piece.size then
      Reject(WrongActionCount(ship.piece.size, NonCatastropheCount(subs)))
    else ValidateChain(Spend(g, system, ship), ColorAction(ship.piece.color), subs)
  }

  /**
   * The loop of game.py:356-365: each sub-action must be of the granted kind
   * or a catastrophe, and must be legal as a sacrifice action. The source
   * appends True to the caller's argument list (game.py:359) and calls the
   * validator without the game (game.py:363); the intent is
   * `validator(game, args, sacrifice=True)`.
   */
  function ValidateChain(g: GameState, power: Kind, subs: seq<Action>): Verdict
    decreases subs, 0
  {
    if subs == [] then Accept
    else if KindOf(subs[0]) != power && KindOf(subs[0]) != CatastropheKind then
      Reject(WrongActionKind(KindOf(subs[0])))
    else
      match Validate(g, subs[0], true)
      case Reject(r) => Reject(SubActionRejected(r))
      case Accept => ValidateChain(Apply(g, subs[0]), power, subs[1..])
  }

  /** ACTION_VALIDATORS; catastrophe, sacrifice and setup take no sacrifice flag. */
  function Validate(g: GameState, a: Action, sacrifice: bool): Verdict
    decreases a, 2
  {
    match a
    case Construct(system, color) => ValidateConstruct(g, system, color, sacrifice)
    case Move(origin, ship, dest) => ValidateMove(g, origin, ship, dest, sacrifice)
    case Trade(system, ship, color) => ValidateTrade(g, system, ship, color, sacrifice)
    case Attack(system, ship) => ValidateAttack(g, system, ship, sacrifice)
    case Sacrifice(system, ship, subs) => ValidateSacrifice(g, system, ship, subs)
    case Catastrophe(system, color) => ValidateCatastrophe(g, system, color)
    case Setup(starPieces, shipPiece) => ValidateSetup(g, starPieces, shipPiece)
  }

  // ---------------------------------------------------------------------
  // Effects
  // ---------------------------------------------------------------------

  /** construct (game_engine/game.py:434-447). */
  function ApplyConstruct(g: GameState, system: int, color: Color): GameState
  {
    match SmallestAvailable(g.reserve, color)
    case None => g
    case Some(size) =>
      if system !in g.systems then g
      else
        var piece := Piece(color, size);
        var sys := g.systems[system];
        g.(reserve := RemovePiece(g.reserve, piece),
           systems := g.systems[system := sys.(ships := sys.ships + [Ship(g.currentPlayer, piece)])])
  }

  /** The state after the origin of a move has lost the moved ship (game.py:456-463). */
  function LeaveOrigin(g: GameState, origin: int, ship: Ship): GameState
  {
    if origin !in g.systems then g
    else
      var from := g.systems[origin];
      // game.py:457 never writes the filtered list back; the model does
      var fromShips := RemoveFirst(from.ships, ship);
      if fromShips == [] && from.star.owner == NoOwner then
        // game.py:460 reads star["piece"]; the star's pieces are star["pieces"]
        g.(reserve := Refund(g.reserve, from.star.pieces), systems := g.systems - {origin})
      else
        g.(systems := g.systems[origin := from.(ships := fromShips)])
  }

  /** The second half of move (game.py:465-475): the ship arrives at its destination. */
  function Arrival(g: GameState, ship: Ship, dest: Destination): GameState
  {
    match dest
    case NewSystem(p) =>
      // game.py:465-471 founds the system without taking its piece from the reserve
      var id := g.systemCount + 1;
      g.(reserve := RemovePiece(g.reserve, p), systemCount := id,
         systems := g.systems[id := System(Star(NoOwner, [p]), [ship])])
    case Existing(id) =>
      if id !in g.systems then g
      else g.(systems := g.systems[id := g.systems[id].(ships := g.systems[id].ships + [ship])])
  }

  /** move (game_engine/game.py:451-475). */
  function ApplyMove(g: GameState, origin: int, ship: Ship, dest: Destination): GameState
  {
    if origin !in g.systems then g
    else Arrival(LeaveOrigin(g, origin, ship), ship, dest)
  }

  /** trade (game_engine/game.py:479-491). */
  function ApplyTrade(g: GameState, system: int, ship: Ship, color: Color): GameState
  {
    if system !in g.systems then g
    else
      var sys := g.systems[system];
      var newPiece := Piece(color, ship.piece.size);
      // game.py:482 and 489 change a local copy of the ship list; the model writes it back
      var ships := RemoveFirst(sys.ships, ship) + [Ship(g.currentPlayer, newPiece)];
      g.(reserve := RemovePiece(AddPiece(g.reserve, ship.piece), newPiece),
         systems := g.systems[system := sys.(ships := ships)])
  }

  /** attack (game_engine/game.py:495-500). */
  function ApplyAttack(g: GameState, system: int, ship: Ship): GameState
  {
    if system !in g.systems then g
    else
      var sys := g.systems[system];
      // game.py:497-498 sets "owner" on a list of ships; the model re-owns the target ship
      g.(systems := g.systems[system := sys.(ships := ReplaceFirst(sys.ships, ship, ship.(owner := g.currentPlayer)))])
  }

  /** The first step of sacrifice: the ship leaves the system and its piece returns (game.py:505-507). */
  function Spend(g: GameState, system: int, ship: Ship): GameState
  {
    if system !in g.systems then g
    else
      var sys := g.systems[system];
      g.(systems := g.systems[system := sys.(ships := RemoveFirst(sys.ships, ship))],
         reserve := AddPiece(g.reserve, ship.piece))
  }

  /** sacrifice (game_engine/game.py:504-513). */
  function ApplySacrifice(g: GameState, system: int, ship: Ship, subs: seq<Action>): GameState
    decreases Sacrifice(system, ship, subs), 1
  {
    if system !in g.systems then g
    else ApplyAll(Spend(g, system, ship), subs)
  }

  /** catastrophe (game_engine/game.py:517-546). */
  function ApplyCatastrophe(g: GameState, system: int, color: Color): GameState
  {
    if system !in g.systems then g
    else
      var sys := g.systems[system];
      var remaining := OtherPieces(sys.star.pieces, color);
      if remaining == [] then
        g.(reserve := Refund(Refund(g.reserve, sys.star.pieces), ShipPieces(sys.ships)),
           systems := g.systems - {system})
      else if |remaining| != |sys.star.pieces| then
        // game.py:529-531 refunds the star pieces not in `remaining`: those of the colour
        var r1 := Refund(g.reserve, PiecesOfColor(sys.star.pieces, color));
        // game.py:537 refunds the ship dict; it means the ship's piece
        g.(reserve := Refund(r1, ShipPieces(ShipsOfColor(sys.ships, color))),
           systems := g.systems[system := System(sys.star.(pieces := remaining), OtherShips(sys.ships, color))])
      else
        g.(reserve := Refund(g.reserve, ShipPieces(ShipsOfColor(sys.ships, color))),
           systems := g.systems[system := sys.(ships := OtherShips(sys.ships, color))])
  }

  /** setup (game_engine/game.py:550-561). */
  function ApplySetup(g: GameState, starPieces: seq<Piece>, shipPiece: Piece): GameState
  {
    var id := g.systemCount + 1;
    g.(reserve := RemovePiece(Withdraw(g.reserve, starPieces), shipPiece),
       systemCount := id,
       systems := g.systems[id := System(Star(g.currentPlayer, starPieces), [Ship(g.currentPlayer, shipPiece)])])
  }

  /** ACTION_METHODS */
  function Apply(g: GameState, a: Action): GameState
    decreases a, 2
  {
    match a
    case Construct(system, color) => ApplyConstruct(g, system, color)
    case Move(origin, ship, dest) => ApplyMove(g, origin, ship, dest)
    case Trade(system, ship, color) => ApplyTrade(g, system, ship, color)
    case Attack(system, ship) => ApplyAttack(g, system, ship)
    case Sacrifice(system, ship, subs) => ApplySacrifice(g, system, ship, subs)
    case Catastrophe(system, color) => ApplyCatastrophe(g, system, color)
    case Setup(starPieces, shipPiece) => ApplySetup(g, starPieces, shipPiece)
  }

  /** The executors of a list of actions, applied left to right to the running state. */
  function ApplyAll(g: GameState, acts: seq<Action>): GameState
    decreases acts, 0
  {
    if acts == [] then g else ApplyAll(Apply(g, acts[0]), acts[1..])
  }
}
