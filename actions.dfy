/**
 * Actions as a closed tagged type: each kind carries the arguments its
 * validator and its executor take (game_engine/game.py:114-121), in place
 * of the string keys of ACTION_VALIDATORS and ACTION_METHODS
 * (game_engine/game.py:416-424, 564-572).
 */
module Actions {
  import opened Pieces
  import opened Board

  /** A move destination: an existing system, or a new system founded by a reserve piece. */
  datatype Destination = Existing(id: int) | NewSystem(newPiece: Piece)

  datatype Kind = ConstructKind | MoveKind | TradeKind | AttackKind | SacrificeKind | CatastropheKind | SetupKind

  datatype Action =
    | Construct(system: int, color: Color)
    | Move(origin: int, ship: Ship, dest: Destination)
    | Trade(system: int, ship: Ship, color: Color)
    | Attack(system: int, ship: Ship)
    | Sacrifice(system: int, ship: Ship, actions: seq<Action>)
    | Catastrophe(system: int, color: Color)
    | Setup(starPieces: seq<Piece>, shipPiece: Piece)

  function KindOf(a: Action): Kind
  {
    match a
    case Construct(_, _) => ConstructKind
    case Move(_, _, _) => MoveKind
    case Trade(_, _, _) => TradeKind
    case Attack(_, _) => AttackKind
    case Sacrifice(_, _, _) => SacrificeKind
    case Catastrophe(_, _) => CatastropheKind
    case Setup(_, _) => SetupKind
  }

  /** COLOR_ACTIONS: the power each colour grants (game_engine/game.py:129-134). */
  function ColorAction(c: Color): Kind
  {
    match c
    case Green => ConstructKind
    case Yellow => MoveKind
    case Blue => TradeKind
    case Red => AttackKind
  }

  /** The number of sub-actions that are not catastrophes. */
  function NonCatastropheCount(subs: seq<Action>): nat
  {
    if subs == [] then 0
    else (if KindOf(subs[0]) != CatastropheKind then 1 else 0) + NonCatastropheCount(subs[1..])
  }

  /** Why a validator rejected; the source's message strings are not reproduced. */
  datatype Reason =
    | NoSuchSystem
    | ReserveEmpty
    | ColorNotOwned(color: Color)
    | PowerAbsent(power: Color)
    | NotOwnShip
    | ShipMissing
    | SharedStarSize
    | TargetAlreadyOwned
    | NoShipLargeEnough
    | WrongActionCount(expected: int, given: int)
    | WrongActionKind(kind: Kind)
    | SubActionRejected(inner: Reason)
    | NotOverpopulated
    | SetupReserveShort
    | SetupAlreadyDone

  /** A validator's `(bool, reason)` pair. */
  datatype Verdict = Accept | Reject(reason: Reason)
}
