/**
 * What each validator accepts, stated as plain conditions on the game
 * state: every condition the validator checks, and nothing more, in both
 * directions.
 */
module Acceptance {
  import opened Pieces
  import opened Board
  import opened Actions
  import opened Rules

  /** The system holds a ship or a star piece of colour c: the power c is present. */
  ghost predicate PowerPresent(g: GameState, system: int, c: Color)
    requires system in g.systems
  {
    || (exists s :: s in g.systems[system].ships && s.piece.color == c)
    || (exists p :: p in g.systems[system].star.pieces && p.color == c)
  }

  lemma ConstructAccepted(g: GameState, system: int, color: Color, sacrifice: bool)
    ensures ValidateConstruct(g, system, color, sacrifice).Accept? <==>
      && system in g.systems
      && ColorInReserve(g.reserve, color)
      && (exists s :: s in g.systems[system].ships && s.owner == g.currentPlayer && s.piece.color == color)
      && (sacrifice || PowerPresent(g, system, Green))
  {
  }

  lemma MoveAccepted(g: GameState, origin: int, ship: Ship, dest: Destination, sacrifice: bool)
    ensures ValidateMove(g, origin, ship, dest, sacrifice).Accept? <==>
      && origin in g.systems
      && ship.owner == g.currentPlayer && ship.owner in g.players
      && ship in g.systems[origin].ships
      && (dest.Existing? ==>
            && dest.id in g.systems
            && StarSizes(g.systems[origin].star.pieces) * StarSizes(g.systems[dest.id].star.pieces) == {})
      && (dest.NewSystem? ==>
            && Amount(g.reserve, dest.newPiece) >= 1
            && dest.newPiece.size !in StarSizes(g.systems[origin].star.pieces))
      && (sacrifice || PowerPresent(g, origin, Yellow))
  {
    if origin in g.systems && (dest.Existing? ==> dest.id in g.systems) {
      var sizes := StarSizes(g.systems[origin].star.pieces);
      match dest
      case NewSystem(p) =>
        assert DestinationSizes(g, dest) == {p.size};
        if p.size in sizes {
          assert p.size in sizes * {p.size};
        }
      case Existing(id) =>
        assert DestinationSizes(g, dest) == StarSizes(g.systems[id].star.pieces);
    }
  }

  lemma TradeAccepted(g: GameState, system: int, ship: Ship, color: Color, sacrifice: bool)
    ensures ValidateTrade(g, system, ship, color, sacrifice).Accept? <==>
      && system in g.systems
      && ship.owner == g.currentPlayer && ship.owner in g.players
      && ship in g.systems[system].ships
      && Amount(g.reserve, Piece(color, ship.piece.size)) >= 1
      && (sacrifice || PowerPresent(g, system, Blue))
  {
  }

  lemma AttackAccepted(g: GameState, system: int, ship: Ship, sacrifice: bool)
    ensures ValidateAttack(g, system, ship, sacrifice).Accept? <==>
      && system in g.systems
      && ship.owner != g.currentPlayer
      && (exists s :: s in g.systems[system].ships && s.owner == g.currentPlayer && s.piece.size >= ship.piece.size)
      && (sacrifice || PowerPresent(g, system, Red))
  {
  }

  lemma CatastropheAccepted(g: GameState, system: int, color: Color)
    ensures ValidateCatastrophe(g, system, color).Accept? <==>
      system in g.systems && ColorCount(g.systems[system], color) >= 4
  {
  }

  lemma SetupAccepted(g: GameState, starPieces: seq<Piece>, shipPiece: Piece)
    ensures ValidateSetup(g, starPieces, shipPiece).Accept? <==>
      && (forall p :: p in starPieces + [shipPiece] ==> Amount(g.reserve, p) >= multiset(starPieces + [shipPiece])[p])
      && (forall id :: id in g.systems ==> g.systems[id].star.owner != g.currentPlayer)
  {
  }

  lemma SacrificeAccepted(g: GameState, system: int, ship: Ship, subs: seq<Action>)
    ensures ValidateSacrifice(g, system, ship, subs).Accept? <==>
      && system in g.systems
      && ship.owner in g.players
      && ship in g.systems[system].ships
      && NonCatastropheCount(subs) == ship.piece.size
      && ValidateChain(Spend(g, system, ship), ColorAction(ship.piece.color), subs).Accept?
  {
  }
}
