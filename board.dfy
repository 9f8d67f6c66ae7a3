/**
 * The game state: ships, stars, star systems and the whole game
 * (game_engine/game.py:58-112), with the list helpers the rules use and
 * the query helpers of game_engine/game.py:137-199.
 */
module Board {
  import opened Pieces

  type PlayerId = int

  /** The owner of a neutral star (game_engine/game.py:59). */
  const NoOwner: PlayerId := 0

  datatype Ship = Ship(owner: PlayerId, piece: Piece)

  /** A star owned by a player is that player's homeworld. */
  datatype Star = Star(owner: PlayerId, pieces: seq<Piece>)

  datatype System = System(star: Star, ships: seq<Ship>)

  /** GAMESTATE without its history log and its unused owner_count. */
  datatype GameState = GameState(
    reserve: Reserve,
    systems: map<int, System>,
    players: seq<PlayerId>,
    currentPlayer: PlayerId,
    systemCount: int)

  /**
   * What every state reached from the initial one satisfies: the current
   * player and the registered players are never the neutral owner, system
   * ids lie between 1 and the id counter (so the next id is fresh), and a
   * neutral star is never empty.
   */
  ghost predicate Wf(g: GameState)
  {
    && g.currentPlayer != NoOwner
    && g.systemCount >= 0
    && NoOwner !in g.players
    && (forall id :: id in g.systems ==> 1 <= id <= g.systemCount)
    && (forall id :: id in g.systems && g.systems[id].star.owner == NoOwner ==>
          g.systems[id].star.pieces != [])
  }

  // ---------------------------------------------------------------------
  // List helpers
  // ---------------------------------------------------------------------

  /** `[ship["piece"] for ship in ships]` */
  function ShipPieces(ships: seq<Ship>): (r: seq<Piece>)
    ensures |r| == |ships|
    ensures forall i :: 0 <= i < |ships| ==> r[i] == ships[i].piece
  {
    if ships == [] then [] else [ships[0].piece] + ShipPieces(ships[1..])
  }

  lemma ShipPiecesAppend(a: seq<Ship>, b: seq<Ship>)
    ensures ShipPieces(a + b) == ShipPieces(a) + ShipPieces(b)
  {
    assert ShipPieces(a + b) == ShipPieces(a) + ShipPieces(b);
  }

  /**
   * Take one occurrence of ship out of the list. The source filters with
   * `!=` (game_engine/game.py:457, 482, 506), which drops every equal ship
   * while refunding only one piece; the model removes exactly one.
   */
  function RemoveFirst(ships: seq<Ship>, ship: Ship): (r: seq<Ship>)
    ensures ship !in ships ==> r == ships
    ensures ship in ships ==> |r| == |ships| - 1 && multiset(r) == multiset(ships) - multiset{ship}
  {
    if ships == [] then []
    else if ships[0] == ship then
      assert ships == [ships[0]] + ships[1..];
      ships[1..]
    else
      assert ships == [ships[0]] + ships[1..];
      [ships[0]] + RemoveFirst(ships[1..], ship)
  }

  /** Removing a ship that is present takes exactly its piece off the list. */
  lemma {:induction false} RemoveFirstPieces(ships: seq<Ship>, ship: Ship)
    requires ship in ships
    ensures multiset(ShipPieces(RemoveFirst(ships, ship))) + multiset{ship.piece} == multiset(ShipPieces(ships))
  {
    var head, tail := ships[0], ships[1..];
    assert ships == [head] + tail;
    var all := ShipPieces(ships);
    assert all == [head.piece] + ShipPieces(tail) by {
      ShipPiecesAppend([head], tail);
    }
    if head == ship {
      assert RemoveFirst(ships, ship) == tail;
    } else {
      var rest := RemoveFirst(tail, ship);
      assert RemoveFirst(ships, ship) == [head] + rest;
      var left := ShipPieces([head] + rest);
      assert left == [head.piece] + ShipPieces(rest) by {
        ShipPiecesAppend([head], rest);
      }
      RemoveFirstPieces(tail, ship);
      assert multiset(left) == multiset{head.piece} + multiset(ShipPieces(rest));
      assert multiset(all) == multiset{head.piece} + multiset(ShipPieces(tail));
    }
  }

  /** Replace the first occurrence of ship by other; the pieces on the list do not change. */
  function ReplaceFirst(ships: seq<Ship>, ship: Ship, other: Ship): (r: seq<Ship>)
    requires other.piece == ship.piece
    ensures |r| == |ships|
    ensures ShipPieces(r) == ShipPieces(ships)
    ensures ship !in ships ==> r == ships
  {
    if ships == [] then []
    else if ships[0] == ship then [other] + ships[1..]
    else [ships[0]] + ReplaceFirst(ships[1..], ship, other)
  }

  /** Replacing a ship that is present swaps exactly that one ship for the other. */
  lemma {:induction false} ReplaceFirstContents(ships: seq<Ship>, ship: Ship, other: Ship)
    requires other.piece == ship.piece && ship in ships
    ensures other in ReplaceFirst(ships, ship, other)
    ensures multiset(ReplaceFirst(ships, ship, other)) + multiset{ship} == multiset(ships) + multiset{other}
  {
    ReplaceFirstCounts(ships, ship, other);
    assert other in multiset(ReplaceFirst(ships, ship, other)) + multiset{ship};
  }

  lemma {:induction false} ReplaceFirstCounts(ships: seq<Ship>, ship: Ship, other: Ship)
    requires other.piece == ship.piece && ship in ships
    ensures multiset(ReplaceFirst(ships, ship, other)) + multiset{ship} == multiset(ships) + multiset{other}
  {
    var head, tail := ships[0], ships[1..];
    assert ships == [head] + tail;
    if head == ship {
      assert ReplaceFirst(ships, ship, other) == [other] + tail;
    } else {
      var rest := ReplaceFirst(tail, ship, other);
      assert ReplaceFirst(ships, ship, other) == [head] + rest;
      ReplaceFirstCounts(tail, ship, other);
      calc {
        multiset([head] + rest) + multiset{ship};
        multiset([head]) + (multiset(rest) + multiset{ship});
        multiset([head]) + (multiset(tail) + multiset{other});
        multiset([head] + tail) + multiset{other};
      }
    }
  }

  /** catastrophe's `lost_ships`: the ships whose piece has colour c, in order. */
  function ShipsOfColor(ships: seq<Ship>, c: Color): (r: seq<Ship>)
    ensures forall s :: s in r <==> s in ships && s.piece.color == c
  {
    if ships == [] then []
    else if ships[0].piece.color == c then [ships[0]] + ShipsOfColor(ships[1..], c)
    else ShipsOfColor(ships[1..], c)
  }

  /** catastrophe's `remaining_ships`: the ships whose piece has another colour, in order. */
  function OtherShips(ships: seq<Ship>, c: Color): (r: seq<Ship>)
    ensures forall s :: s in r <==> s in ships && s.piece.color != c
  {
    if ships == [] then []
    else if ships[0].piece.color != c then [ships[0]] + OtherShips(ships[1..], c)
    else OtherShips(ships[1..], c)
  }

  /** Splitting the ships by colour keeps every piece on exactly one side. */
  lemma {:induction false} SplitShipsByColor(ships: seq<Ship>, c: Color)
    ensures multiset(ShipPieces(ShipsOfColor(ships, c))) + multiset(ShipPieces(OtherShips(ships, c)))
            == multiset(ShipPieces(ships))
  {
    if ships != [] {
      var head, tail := ships[0], ships[1..];
      assert ships == [head] + tail;
      SplitShipsByColor(tail, c);
      ShipPiecesAppend([head], tail);
      assert ShipPieces([head]) == [head.piece];
      if head.piece.color == c {
        assert ShipsOfColor(ships, c) == [head] + ShipsOfColor(tail, c);
        assert OtherShips(ships, c) == OtherShips(tail, c);
        ShipPiecesAppend([head], ShipsOfColor(tail, c));
      } else {
        assert ShipsOfColor(ships, c) == ShipsOfColor(tail, c);
        assert OtherShips(ships, c) == [head] + OtherShips(tail, c);
        ShipPiecesAppend([head], OtherShips(tail, c));
      }
    }
  }

  /** Splitting the ships by colour keeps every ship, equal ones included, on exactly one side. */
  lemma {:induction false} PartitionShipsByColor(ships: seq<Ship>, c: Color)
    ensures multiset(ShipsOfColor(ships, c)) + multiset(OtherShips(ships, c)) == multiset(ships)
  {
    if ships != [] {
      var head, tail := ships[0], ships[1..];
      assert ships == [head] + tail;
      PartitionShipsByColor(tail, c);
      if head.piece.color == c {
        assert ShipsOfColor(ships, c) == [head] + ShipsOfColor(tail, c);
        assert OtherShips(ships, c) == OtherShips(tail, c);
      } else {
        assert ShipsOfColor(ships, c) == ShipsOfColor(tail, c);
        assert OtherShips(ships, c) == [head] + OtherShips(tail, c);
      }
    }
  }

  /** The star pieces of colour c, in order. */
  function PiecesOfColor(ps: seq<Piece>, c: Color): (r: seq<Piece>)
    ensures forall p :: p in r <==> p in ps && p.color == c
  {
    if ps == [] then []
    else if ps[0].color == c then [ps[0]] + PiecesOfColor(ps[1..], c)
    else PiecesOfColor(ps[1..], c)
  }

  /** catastrophe's `remaining_stars`: the star pieces of another colour, in order. */
  function OtherPieces(ps: seq<Piece>, c: Color): (r: seq<Piece>)
    ensures forall p :: p in r <==> p in ps && p.color != c
    ensures |r| <= |ps|
  {
    if ps == [] then []
    else if ps[0].color != c then [ps[0]] + OtherPieces(ps[1..], c)
    else OtherPieces(ps[1..], c)
  }

  /** Splitting the star by colour keeps every piece on exactly one side. */
  lemma {:induction false} SplitPiecesByColor(ps: seq<Piece>, c: Color)
    ensures multiset(PiecesOfColor(ps, c)) + multiset(OtherPieces(ps, c)) == multiset(ps)
  {
    if ps != [] {
      var head, tail := ps[0], ps[1..];
      assert ps == [head] + tail;
      SplitPiecesByColor(tail, c);
      if head.color == c {
        assert PiecesOfColor(ps, c) == [head] + PiecesOfColor(tail, c);
        assert OtherPieces(ps, c) == OtherPieces(tail, c);
      } else {
        assert PiecesOfColor(ps, c) == PiecesOfColor(tail, c);
        assert OtherPieces(ps, c) == [head] + OtherPieces(tail, c);
      }
    }
  }

  /** `[ship["piece"]["color"] for ship in ships]` */
  function ShipColors(ships: seq<Ship>): (r: seq<Color>)
    ensures forall c :: c in r <==> exists s :: s in ships && s.piece.color == c
  {
    if ships == [] then []
    else
      assert forall s :: s in ships <==> s == ships[0] || s in ships[1..];
      [ships[0].piece.color] + ShipColors(ships[1..])
  }

  /** `[piece["color"] for piece in pieces]` */
  function PieceColors(ps: seq<Piece>): (r: seq<Color>)
    ensures forall c :: c in r <==> exists p :: p in ps && p.color == c
  {
    if ps == [] then []
    else
      assert forall p :: p in ps <==> p == ps[0] || p in ps[1..];
      [ps[0].color] + PieceColors(ps[1..])
  }

  /** `[ship for ship in ships if ship["owner"] == player]` */
  function OwnedBy(ships: seq<Ship>, player: PlayerId): (r: seq<Ship>)
    ensures forall s :: s in r <==> s in ships && s.owner == player
  {
    if ships == [] then []
    else if ships[0].owner == player then [ships[0]] + OwnedBy(ships[1..], player)
    else OwnedBy(ships[1..], player)
  }

  // ---------------------------------------------------------------------
  // Query helpers (game_engine/game.py:137-222)
  // ---------------------------------------------------------------------

  /** check_player_has_ship: the ship's owner is registered, the system exists and holds that ship. */
  function PlayerHasShip(g: GameState, systemId: int, ship: Ship): (b: bool)
    ensures b <==> ship.owner in g.players && systemId in g.systems && ship in g.systems[systemId].ships
  {
    if ship.owner !in g.players then false
    else if systemId !in g.systems then false
    else
      // the pieces of the owner's ships in the system, compared by colour and size
      var owned := ShipPieces(OwnedBy(g.systems[systemId].ships, ship.owner));
      assert ship in g.systems[systemId].ships ==> ship in OwnedBy(g.systems[systemId].ships, ship.owner);
      assert ship.piece in owned ==> exists k :: 0 <= k < |owned| && owned[k] == ship.piece;
      ship.piece in owned
  }

  /** get_colors_in_system: the colours of every ship and every star piece in the system. */
  function ColorsInSystem(g: GameState, systemId: int): (r: set<Color>)
    requires systemId in g.systems
    ensures forall c :: c in r <==>
      (exists s :: s in g.systems[systemId].ships && s.piece.color == c) ||
      (exists p :: p in g.systems[systemId].star.pieces && p.color == c)
  {
    var sys := g.systems[systemId];
    set c | c in ShipColors(sys.ships) + PieceColors(sys.star.pieces)
  }

  /** get_colors_in_system_for_player: the colours of the player's own ships; stars do not count. */
  function ColorsOfPlayer(g: GameState, player: PlayerId, systemId: int): (r: set<Color>)
    requires systemId in g.systems
    ensures forall c :: c in r <==>
      exists s :: s in g.systems[systemId].ships && s.owner == player && s.piece.color == c
  {
    set c | c in ShipColors(OwnedBy(g.systems[systemId].ships, player))
  }

  /** get_ships_in_system_for_player */
  function ShipsOfPlayer(g: GameState, player: PlayerId, systemId: int): (r: seq<Ship>)
    requires systemId in g.systems
    ensures forall s :: s in r <==> s in g.systems[systemId].ships && s.owner == player
  {
    OwnedBy(g.systems[systemId].ships, player)
  }

  /** The sizes of a star's pieces. */
  function StarSizes(pieces: seq<Piece>): (r: set<Size>)
    ensures forall s :: s in r <==> exists p :: p in pieces && p.size == s
  {
    set p | p in pieces :: p.size
  }

  /** The number of pieces of colour c in a system, on ships and in the star. */
  function ColorCount(sys: System, c: Color): nat
  {
    |ShipsOfColor(sys.ships, c)| + |PiecesOfColor(sys.star.pieces, c)|
  }
}
