/**
 * The executors of game_engine/game.py:433-592 as they run: each changes
 * the one game object in place, counting pieces in and out of the reserve
 * one at a time, filtering and appending ship lists, issuing system ids and
 * deleting systems. Each is proved to leave exactly the state the matching
 * function of module Rules computes, so the laws proved about those
 * functions (modules Conservation and Properties) hold of the object.
 *
 * The source's executors rely on their validator having accepted
 * (game_engine/game.py:427); each method requires that, in its relaxed
 * form, since sacrifice runs its sub-actions after relaxed validation.
 */
module Executors {
  import opened Pieces
  import opened Board
  import opened Actions
  import opened Rules
  import opened Turns

  /** The GAMESTATE dict, without its history log and unused owner_count. */
  class Game {
    var reserve: Reserve
    var systems: map<int, System>
    var players: seq<PlayerId>
    var currentPlayer: PlayerId
    var systemCount: int

    /** The fields as a value. */
    function State(): GameState
      reads this
    {
      GameState(reserve, systems, players, currentPlayer, systemCount)
    }

    /** The state main builds (game_engine/main.py:106-130), with the first player given. */
    constructor (first: PlayerId)
      requires first == 1 || first == 2
      ensures State() == Init(first)
    {
      reserve := InitialReserve();
      systems := map[];
      players := [1, 2];
      currentPlayer := first;
      systemCount := 0;
    }

    /** _add_piece_to_reserve: `reserve[key] += 1`. */
    method AddPieceToReserve(p: Piece)
      modifies this
      ensures State() == old(State()).(reserve := AddPiece(old(reserve), p))
    {
      reserve := reserve[Slot(p) := reserve[Slot(p)] + 1];
    }

    /** _remove_piece_from_reserve: `reserve[key] -= 1`, unchecked. */
    method RemovePieceFromReserve(p: Piece)
      modifies this
      ensures State() == old(State()).(reserve := RemovePiece(old(reserve), p))
    {
      reserve := reserve[Slot(p) := reserve[Slot(p)] - 1];
    }

    /** The refund loops of move and catastrophe: each piece back to the reserve, in order. */
    method ReturnPieces(ps: seq<Piece>)
      modifies this
      ensures State() == old(State()).(reserve := Refund(old(reserve), ps))
    {
      var i := 0;
      while i < |ps|
        invariant 0 <= i <= |ps|
        invariant Refund(reserve, ps[i..]) == Refund(old(reserve), ps)
        invariant State() == old(State()).(reserve := reserve)
      {
        assert ps[i..][0] == ps[i] && ps[i..][1..] == ps[i + 1..];
        AddPieceToReserve(ps[i]);
        i := i + 1;
      }
    }

    /** The loop of setup (game_engine/game.py:553-554): each star piece out of the reserve, in order. */
    method TakePieces(ps: seq<Piece>)
      modifies this
      ensures State() == old(State()).(reserve := Withdraw(old(reserve), ps))
    {
      var i := 0;
      while i < |ps|
        invariant 0 <= i <= |ps|
        invariant Withdraw(reserve, ps[i..]) == Withdraw(old(reserve), ps)
        invariant State() == old(State()).(reserve := reserve)
      {
        assert ps[i..][0] == ps[i] && ps[i..][1..] == ps[i + 1..];
        RemovePieceFromReserve(ps[i]);
        i := i + 1;
      }
    }

    /** construct (game_engine/game.py:434-447). */
    method Construct(system: int, color: Color)
      requires ValidateConstruct(State(), system, color, true).Accept?
      modifies this
      ensures State() == ApplyConstruct(old(State()), system, color)
    {
      var found := FirstAvailableSize(color);
      if found.Some? {
        var piece := Piece(color, found.value);
        RemovePieceFromReserve(piece);
        var sys := systems[system];
        systems := systems[system := sys.(ships := sys.ships + [Ship(currentPlayer, piece)])];
      }
    }

    /** The size scan of construct (game_engine/game.py:436-437): the first of 1, 2, 3 whose count is positive. */
    method FirstAvailableSize(color: Color) returns (found: Option<Size>)
      ensures found == SmallestAvailable(reserve, color)
    {
      var size := 1;
      while size <= 3 && reserve[Slot(Piece(color, size))] <= 0
        invariant 1 <= size <= 4
        invariant forall s: Size :: s < size ==> Amount(reserve, Piece(color, s)) <= 0
      {
        size := size + 1;
      }
      found := if size <= 3 then Some(size) else None;
    }

    /** The first half of move (game_engine/game.py:456-463): the ship leaves its origin. */
    method Depart(origin: int, ship: Ship)
      requires origin in systems
      modifies this
      ensures State() == LeaveOrigin(old(State()), origin, ship)
    {
      var from := systems[origin];
      // game.py:457 never writes the filtered list back; the model does
      var fromShips := RemoveFirst(from.ships, ship);
      if fromShips == [] && from.star.owner == NoOwner {
        // game.py:460 reads star["piece"]; the star's pieces are star["pieces"]
        ReturnPieces(from.star.pieces);
        systems := systems - {origin};
      } else {
        systems := systems[origin := from.(ships := fromShips)];
      }
    }

    /** move (game_engine/game.py:452-475). */
    method Move(origin: int, ship: Ship, dest: Destination)
      requires ValidateMove(State(), origin, ship, dest, true).Accept?
      modifies this
      ensures State() == ApplyMove(old(State()), origin, ship, dest)
    {
      Depart(origin, ship);
      Arrive(ship, dest);
    }

    /** The second half of move (game_engine/game.py:465-475): the ship joins its destination. */
    method Arrive(ship: Ship, dest: Destination)
      modifies this
      ensures State() == Arrival(old(State()), ship, dest)
    {
      match dest
      case NewSystem(p) =>
        // game.py:465-471 founds the system without taking its piece from the reserve
        RemovePieceFromReserve(p);
        systemCount := systemCount + 1;
        systems := systems[systemCount := System(Star(NoOwner, [p]), [ship])];
      case Existing(id) =>
        if id in systems {
          systems := systems[id := systems[id].(ships := systems[id].ships + [ship])];
        }
    }

    /** trade (game_engine/game.py:479-491). */
    method Trade(system: int, ship: Ship, color: Color)
      requires ValidateTrade(State(), system, ship, color, true).Accept?
      modifies this
      ensures State() == ApplyTrade(old(State()), system, ship, color)
    {
      var sys := systems[system];
      var ships := RemoveFirst(sys.ships, ship);
      var newPiece := Piece(color, ship.piece.size);
      AddPieceToReserve(ship.piece);
      RemovePieceFromReserve(newPiece);
      ships := ships + [Ship(currentPlayer, newPiece)];
      // game.py:482 and 489 change a local copy of the ship list; the model writes it back
      systems := systems[system := sys.(ships := ships)];
    }

    /** attack (game_engine/game.py:495-500). */
    method Attack(system: int, ship: Ship)
      requires ValidateAttack(State(), system, ship, true).Accept?
      modifies this
      ensures State() == ApplyAttack(old(State()), system, ship)
    {
      var sys := systems[system];
      // game.py:497-498 sets "owner" on a list of ships; the model re-owns the target ship
      systems := systems[system := sys.(ships := ReplaceFirst(sys.ships, ship, ship.(owner := currentPlayer)))];
    }

    /** sacrifice (game_engine/game.py:504-513): spend the ship, then run the sub-actions in order. */
    method Sacrifice(system: int, ship: Ship, subs: seq<Action>)
      requires ValidateSacrifice(State(), system, ship, subs).Accept?
      modifies this
      ensures State() == ApplySacrifice(old(State()), system, ship, subs)
      decreases Action.Sacrifice(system, ship, subs), 0
    {
      var sys := systems[system];
      systems := systems[system := sys.(ships := RemoveFirst(sys.ships, ship))];
      AddPieceToReserve(ship.piece);
      var power := ColorAction(ship.piece.color);
      var i := 0;
      while i < |subs|
        invariant 0 <= i <= |subs|
        invariant ValidateChain(State(), power, subs[i..]).Accept?
        invariant ApplyAll(State(), subs[i..]) == ApplySacrifice(old(State()), system, ship, subs)
      {
        assert subs[i..][0] == subs[i] && subs[i..][1..] == subs[i + 1..];
        Execute(subs[i]);
        i := i + 1;
      }
    }

    /** catastrophe (game_engine/game.py:517-546). */
    method Catastrophe(system: int, color: Color)
      requires ValidateCatastrophe(State(), system, color).Accept?
      modifies this
      ensures State() == ApplyCatastrophe(old(State()), system, color)
    {
      var sys := systems[system];
      var remaining := OtherPieces(sys.star.pieces, color);
      if remaining == [] {
        DestroySystem(system);
      } else if |remaining| != |sys.star.pieces| {
        DestroyColorWithStar(system, color);
      } else {
        DestroyColorShips(system, color);
      }
    }

    /** Every star piece has the colour: all pieces go back, and the system is gone (game.py:522-527). */
    method DestroySystem(system: int)
      requires system in systems
      modifies this
      ensures var sys := old(systems[system]);
        State() == old(State()).(reserve := Refund(Refund(old(reserve), sys.star.pieces), ShipPieces(sys.ships)),
                                 systems := old(systems) - {system})
    {
      var sys := systems[system];
      ReturnPieces(sys.star.pieces);
      ReturnPieces(ShipPieces(sys.ships));
      systems := systems - {system};
    }

    /** Some star pieces have the colour: they and the ships of the colour go back (game.py:528-539). */
    method DestroyColorWithStar(system: int, color: Color)
      requires system in systems
      modifies this
      ensures var sys := old(systems[system]);
        State() == old(State()).(
          reserve := Refund(Refund(old(reserve), PiecesOfColor(sys.star.pieces, color)), ShipPieces(ShipsOfColor(sys.ships, color))),
          systems := old(systems)[system := System(sys.star.(pieces := OtherPieces(sys.star.pieces, color)), OtherShips(sys.ships, color))])
    {
      StripStarColor(system, color);
      // game.py:537 refunds the ship dict; it means the ship's piece
      DestroyColorShips(system, color);
    }

    /** The star pieces of the colour go back, the rest stay (game.py:529-531). */
    method StripStarColor(system: int, color: Color)
      requires system in systems
      modifies this
      ensures system in systems
      ensures var sys := old(systems[system]);
        State() == old(State()).(reserve := Refund(old(reserve), PiecesOfColor(sys.star.pieces, color)),
                                 systems := old(systems)[system := sys.(star := sys.star.(pieces := OtherPieces(sys.star.pieces, color)))])
    {
      var sys := systems[system];
      ReturnPieces(PiecesOfColor(sys.star.pieces, color));
      systems := systems[system := sys.(star := sys.star.(pieces := OtherPieces(sys.star.pieces, color)))];
    }

    /** No star piece has the colour: only the ships of the colour go back (game.py:540-544). */
    method DestroyColorShips(system: int, color: Color)
      requires system in systems
      modifies this
      ensures var sys := old(systems[system]);
        State() == old(State()).(reserve := Refund(old(reserve), ShipPieces(ShipsOfColor(sys.ships, color))),
                                 systems := old(systems)[system := sys.(ships := OtherShips(sys.ships, color))])
    {
      var sys := systems[system];
      ReturnPieces(ShipPieces(ShipsOfColor(sys.ships, color)));
      systems := systems[system := sys.(ships := OtherShips(sys.ships, color))];
    }

    /** setup (game_engine/game.py:550-561). */
    method Setup(starPieces: seq<Piece>, shipPiece: Piece)
      requires ValidateSetup(State(), starPieces, shipPiece).Accept?
      modifies this
      ensures State() == ApplySetup(old(State()), starPieces, shipPiece)
    {
      var star := Star(currentPlayer, starPieces);
      TakePieces(starPieces);
      var ship := Ship(currentPlayer, shipPiece);
      RemovePieceFromReserve(shipPiece);
      systemCount := systemCount + 1;
      systems := systems[systemCount := System(star, [ship])];
    }

    /** `ACTION_METHODS[action](game, *args)`. */
    method Execute(a: Action)
      requires Validate(State(), a, true).Accept?
      modifies this
      ensures State() == Apply(old(State()), a)
      decreases a, 1
    {
      match a
      case Construct(system, color) => Construct(system, color);
      case Move(origin, ship, dest) => Move(origin, ship, dest);
      case Trade(system, ship, color) => Trade(system, ship, color);
      case Attack(system, ship) => Attack(system, ship);
      case Sacrifice(system, ship, subs) => Sacrifice(system, ship, subs);
      case Catastrophe(system, color) => Catastrophe(system, color);
      case Setup(starPieces, shipPiece) => Setup(starPieces, shipPiece);
    }
  }
}
