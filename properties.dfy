/**
 * The laws of the rules engine, stated about the validators and effects of
 * module Rules: the colour powers and what the sacrifice flag relaxes,
 * combat, the adjacency rule, the sacrifice count and kind rules, the
 * catastrophe threshold and its three outcomes, and what construct, move,
 * trade, attack, the sacrifice spend and setup do to the state. The last
 * part shows how the trade validator as written lets a phantom ship break
 * piece conservation.
 */
module Properties {
  import opened Pieces
  import opened Board
  import opened Actions
  import opened Rules
  import opened Conservation
  import opened Turns

  /** Every system other than `system` is as it was, and no system appears or disappears except `system`. */
  ghost predicate OthersUntouched(g: GameState, g': GameState, system: int)
  {
    forall id :: id != system ==> (id in g'.systems <==> id in g.systems) && (id in g.systems ==> g'.systems[id] == g.systems[id])
  }

  // ---------------------------------------------------------------------
  // Colour powers (game_engine/game.py:238-244, 279-281, 302-304, 328-330)
  // ---------------------------------------------------------------------

  /** Without the sacrifice flag, construct needs green in the system; that is all the flag waives. */
  lemma ConstructPower(g: GameState, system: int, color: Color)
    ensures ValidateConstruct(g, system, color, false).Accept? <==>
      ValidateConstruct(g, system, color, true).Accept? && Green in ColorsInSystem(g, system)
  {
  }

  /** Without the sacrifice flag, move needs yellow at the origin; that is all the flag waives. */
  lemma MovePower(g: GameState, origin: int, ship: Ship, dest: Destination)
    ensures ValidateMove(g, origin, ship, dest, false).Accept? <==>
      ValidateMove(g, origin, ship, dest, true).Accept? && Yellow in ColorsInSystem(g, origin)
  {
  }

  /** Without the sacrifice flag, trade needs blue in the system; that is all the flag waives. */
  lemma TradePower(g: GameState, system: int, ship: Ship, color: Color)
    ensures ValidateTrade(g, system, ship, color, false).Accept? <==>
      ValidateTrade(g, system, ship, color, true).Accept? && Blue in ColorsInSystem(g, system)
  {
  }

  /** Without the sacrifice flag, attack needs red in the system; that is all the flag waives. */
  lemma AttackPower(g: GameState, system: int, ship: Ship)
    ensures ValidateAttack(g, system, ship, false).Accept? <==>
      ValidateAttack(g, system, ship, true).Accept? && Red in ColorsInSystem(g, system)
  {
  }

  /** A construct is accepted only of a colour the current player already has a ship of in that system. */
  lemma ConstructNeedsOwnColor(g: GameState, system: int, color: Color, sacrifice: bool)
    requires ValidateConstruct(g, system, color, sacrifice).Accept?
    ensures exists s :: s in g.systems[system].ships && s.owner == g.currentPlayer && s.piece.color == color
  {
    assert color in ColorsOfPlayer(g, g.currentPlayer, system);
  }

  // ---------------------------------------------------------------------
  // Combat (game_engine/game.py:319-326) and attack (game.py:495-500)
  // ---------------------------------------------------------------------

  /**
   * An accepted attack never targets the attacker's own ship, and the attacker
   * has a ship there at least as large; a target equal in size is allowed.
   */
  lemma AttackRules(g: GameState, system: int, ship: Ship, sacrifice: bool)
    ensures ValidateAttack(g, system, ship, sacrifice).Accept? ==>
      && ship.owner != g.currentPlayer
      && exists s :: s in g.systems[system].ships && s.owner == g.currentPlayer && s.piece.size >= ship.piece.size
    ensures system in g.systems && ship.owner == g.currentPlayer ==>
      ValidateAttack(g, system, ship, sacrifice) == Reject(TargetAlreadyOwned)
    ensures (&& system in g.systems && ship.owner != g.currentPlayer
             && forall s :: s in g.systems[system].ships && s.owner == g.currentPlayer ==> s.piece.size < ship.piece.size) ==>
      ValidateAttack(g, system, ship, sacrifice) == Reject(NoShipLargeEnough)
  {
    if ValidateAttack(g, system, ship, sacrifice).Accept? {
      var s :| s in ShipsOfPlayer(g, g.currentPlayer, system) && s.piece.size >= ship.piece.size;
      assert s in g.systems[system].ships && s.owner == g.currentPlayer;
    }
  }

  /** The attacked ship changes hands: it leaves the system once and returns owned by the attacker; nothing else moves. */
  lemma AttackEffect(g: GameState, system: int, ship: Ship)
    requires system in g.systems && ship in g.systems[system].ships
    ensures var g' := ApplyAttack(g, system, ship);
      && g'.reserve == g.reserve && g'.systemCount == g.systemCount
      && system in g'.systems && g'.systems[system].star == g.systems[system].star
      && ship.(owner := g.currentPlayer) in g'.systems[system].ships
      && multiset(g'.systems[system].ships) + multiset{ship} ==
           multiset(g.systems[system].ships) + multiset{ship.(owner := g.currentPlayer)}
      && OthersUntouched(g, g', system)
  {
    ReplaceFirstContents(g.systems[system].ships, ship, ship.(owner := g.currentPlayer));
  }

  // ---------------------------------------------------------------------
  // Construct (game_engine/game.py:434-447)
  // ---------------------------------------------------------------------

  /**
   * An accepted construct takes the smallest size of the colour whose count
   * is positive, lowers that one count by one, and appends exactly one ship
   * of that piece, owned by the current player, to the named system.
   */
  lemma ConstructEffect(g: GameState, system: int, color: Color)
    requires ValidateConstruct(g, system, color, true).Accept?
    ensures SmallestAvailable(g.reserve, color).Some?
    ensures var size := SmallestAvailable(g.reserve, color).value;
      var piece := Piece(color, size);
      var g' := ApplyConstruct(g, system, color);
      && Amount(g.reserve, piece) > 0
      && (forall s: Size :: s < size ==> Amount(g.reserve, Piece(color, s)) <= 0)
      && Amount(g'.reserve, piece) == Amount(g.reserve, piece) - 1
      && (forall q :: q != piece ==> Amount(g'.reserve, q) == Amount(g.reserve, q))
      && system in g'.systems && g'.systems[system].star == g.systems[system].star
      && g'.systems[system].ships == g.systems[system].ships + [Ship(g.currentPlayer, piece)]
      && OthersUntouched(g, g', system)
      && g'.systemCount == g.systemCount && g'.currentPlayer == g.currentPlayer
  {
  }

  // ---------------------------------------------------------------------
  // Move (game_engine/game.py:250-283, 451-475)
  // ---------------------------------------------------------------------

  /** Two systems are connected when their stars share no size. */
  ghost predicate Connected(g: GameState, a: int, b: int)
  {
    a in g.systems && b in g.systems &&
    StarSizes(g.systems[a].star.pieces) * StarSizes(g.systems[b].star.pieces) == {}
  }

  /**
   * The adjacency rule is symmetric: a move between existing systems is
   * accepted only between connected systems, connection does not depend on
   * the direction, and between systems that share a star size every move
   * is rejected in both directions, whatever the ships.
   */
  lemma MoveSymmetric(g: GameState, a: int, b: int, s1: Ship, s2: Ship, sacrifice: bool)
    ensures Connected(g, a, b) <==> Connected(g, b, a)
    ensures ValidateMove(g, a, s1, Existing(b), sacrifice).Accept? ==> Connected(g, a, b)
    ensures a in g.systems && b in g.systems && !Connected(g, a, b) ==>
      ValidateMove(g, a, s1, Existing(b), sacrifice).Reject? && ValidateMove(g, b, s2, Existing(a), sacrifice).Reject?
  {
    if ValidateMove(g, a, s1, Existing(b), sacrifice).Accept? {
      assert DestinationSizes(g, Existing(b)) == StarSizes(g.systems[b].star.pieces);
    }
    if a in g.systems && b in g.systems && !Connected(g, a, b) {
      assert DestinationSizes(g, Existing(b)) == StarSizes(g.systems[b].star.pieces);
      assert DestinationSizes(g, Existing(a)) == StarSizes(g.systems[a].star.pieces);
      assert StarSizes(g.systems[b].star.pieces) * StarSizes(g.systems[a].star.pieces)
          == StarSizes(g.systems[a].star.pieces) * StarSizes(g.systems[b].star.pieces);
    }
  }

  /** A neutral origin left without ships is deleted, and its star pieces go back to the reserve. */
  lemma MoveAbandonsNeutralOrigin(g: GameState, origin: int, ship: Ship)
    requires origin in g.systems && g.systems[origin].ships == [ship] && g.systems[origin].star.owner == NoOwner
    ensures var g' := LeaveOrigin(g, origin, ship);
      && origin !in g'.systems
      && (forall q :: Amount(g'.reserve, q) == Amount(g.reserve, q) + multiset(g.systems[origin].star.pieces)[q])
      && OthersUntouched(g, g', origin)
  {
  }

  /** An origin whose star has an owner survives the move, star and remaining ships intact, even when emptied. */
  lemma MoveKeepsHomeworld(g: GameState, origin: int, ship: Ship)
    requires origin in g.systems && ship in g.systems[origin].ships && g.systems[origin].star.owner != NoOwner
    ensures var g' := LeaveOrigin(g, origin, ship);
      && origin in g'.systems && g'.reserve == g.reserve
      && g'.systems[origin].star == g.systems[origin].star
      && multiset(g'.systems[origin].ships) == multiset(g.systems[origin].ships) - multiset{ship}
      && OthersUntouched(g, g', origin)
  {
  }

  /**
   * After an accepted move the ship is at its destination: appended to an
   * existing system, or as the only ship of a new neutral system whose star
   * is the founding piece, now taken out of the reserve, under the next id.
   * Nothing else changes: no other count, and no system besides the
   * destination, beyond what leaving the origin did.
   */
  lemma MoveArrives(g: GameState, origin: int, ship: Ship, dest: Destination)
    requires Wf(g) && ValidateMove(g, origin, ship, dest, true).Accept?
    ensures var g1 := LeaveOrigin(g, origin, ship);
      var g' := ApplyMove(g, origin, ship, dest);
      && g'.players == g.players && g'.currentPlayer == g.currentPlayer
      && match dest
      case Existing(id) =>
        && id in g1.systems && id in g'.systems && g'.systems[id].ships == g1.systems[id].ships + [ship]
        && g'.systems[id].star == g1.systems[id].star
        && g'.reserve == g1.reserve && g'.systemCount == g.systemCount
        && OthersUntouched(g1, g', id)
      case NewSystem(p) =>
        && g'.systemCount == g.systemCount + 1
        && g.systemCount + 1 !in g.systems
        && g'.systems[g'.systemCount] == System(Star(NoOwner, [p]), [ship])
        && Amount(g'.reserve, p) == Amount(g1.reserve, p) - 1
        && (forall q: Piece :: q != p ==> Amount(g'.reserve, q) == Amount(g1.reserve, q))
        && OthersUntouched(g1, g', g'.systemCount)
  {
    if dest.Existing? {
      DestinationSurvives(g, origin, ship, dest.id);
    }
  }

  // ---------------------------------------------------------------------
  // Trade (game_engine/game.py:479-491)
  // ---------------------------------------------------------------------

  /**
   * Trading a ship that is in the system destroys it and builds one of the
   * same size in the new colour for the current player (a ship the corrected
   * validator accepts always is, Acceptance.TradeAccepted): the system keeps its star, one
   * occurrence of the old ship is swapped for the new one, which comes last;
   * the old piece goes back to the reserve and the new one leaves it.
   */
  lemma TradeEffect(g: GameState, system: int, ship: Ship, color: Color)
    requires system in g.systems && ship in g.systems[system].ships
    ensures var g' := ApplyTrade(g, system, ship, color);
      var newShip := Ship(g.currentPlayer, Piece(color, ship.piece.size));
      && system in g'.systems && g'.systems[system].star == g.systems[system].star
      && |g'.systems[system].ships| == |g.systems[system].ships|
      && g'.systems[system].ships[|g'.systems[system].ships| - 1] == newShip
      && multiset(g'.systems[system].ships) + multiset{ship} == multiset(g.systems[system].ships) + multiset{newShip}
      && (forall q: Piece :: Amount(g'.reserve, q) ==
            Amount(g.reserve, q) + (if q == ship.piece then 1 else 0) - (if q == newShip.piece then 1 else 0))
      && g'.systemCount == g.systemCount && g'.players == g.players && g'.currentPlayer == g.currentPlayer
      && OthersUntouched(g, g', system)
  {
    TradedShips(g.systems[system].ships, ship, Ship(g.currentPlayer, Piece(color, ship.piece.size)));
  }

  /** Dropping one occurrence of a ship and appending another swaps the one for the other, at the end. */
  lemma TradedShips(ships: seq<Ship>, ship: Ship, newShip: Ship)
    requires ship in ships
    ensures var r := RemoveFirst(ships, ship) + [newShip];
      && |r| == |ships| && r[|r| - 1] == newShip
      && multiset(r) + multiset{ship} == multiset(ships) + multiset{newShip}
  {
    var rest := RemoveFirst(ships, ship);
    assert multiset(rest) + multiset{ship} == multiset(ships);
    calc {
      multiset(rest + [newShip]) + multiset{ship};
      (multiset(rest) + multiset{ship}) + multiset{newShip};
      multiset(ships) + multiset{newShip};
    }
  }

  // ---------------------------------------------------------------------
  // Sacrifice (game_engine/game.py:336-367)
  // ---------------------------------------------------------------------

  /** Sub-action i is of the granted kind or a catastrophe, and is legal on the state the earlier ones leave. */
  ghost predicate SubActionOk(g: GameState, power: Kind, subs: seq<Action>, i: int)
    requires 0 <= i < |subs|
  {
    && (KindOf(subs[i]) == power || KindOf(subs[i]) == CatastropheKind)
    && Validate(ApplyAll(g, subs[..i]), subs[i], true).Accept?
  }

  lemma SubActionShift(g: GameState, power: Kind, subs: seq<Action>, i: int)
    requires 0 <= i < |subs| - 1
    ensures SubActionOk(g, power, subs, i + 1) <==> SubActionOk(Apply(g, subs[0]), power, subs[1..], i)
  {
    ApplyAllShift(g, subs, i + 1);
    assert subs[1..][i] == subs[i + 1];
  }

  /**
   * A chain of sub-actions is accepted exactly when each is of the granted
   * kind or a catastrophe, and each is legal, as a sacrifice action, on the
   * state the earlier ones leave.
   */
  lemma {:induction false} ChainAccepted(g: GameState, power: Kind, subs: seq<Action>)
    ensures ValidateChain(g, power, subs).Accept? <==> forall i :: 0 <= i < |subs| ==> SubActionOk(g, power, subs, i)
    decreases subs
  {
    if subs != [] {
      var g1 := Apply(g, subs[0]);
      ChainAccepted(g1, power, subs[1..]);
      assert subs[..0] == [];
      assert SubActionOk(g, power, subs, 0) <==>
        (KindOf(subs[0]) == power || KindOf(subs[0]) == CatastropheKind) && Validate(g, subs[0], true).Accept?;
      if SubActionOk(g, power, subs, 0) && ValidateChain(g1, power, subs[1..]).Accept? {
        forall i | 0 < i < |subs| ensures SubActionOk(g, power, subs, i) {
          SubActionShift(g, power, subs, i - 1);
        }
      }
      if forall i :: 0 <= i < |subs| ==> SubActionOk(g, power, subs, i) {
        forall i | 0 <= i < |subs[1..]| ensures SubActionOk(g1, power, subs[1..], i) {
          SubActionShift(g, power, subs, i);
        }
      }
    }
  }

  /**
   * Spending the sacrificed ship (game.py:505-507): the system keeps its
   * star and loses one occurrence of the ship, or nothing when the ship is
   * absent; either way the ship's piece goes back to the reserve.
   */
  lemma SpendEffect(g: GameState, system: int, ship: Ship)
    requires system in g.systems
    ensures var g' := Spend(g, system, ship);
      && system in g'.systems && g'.systems[system].star == g.systems[system].star
      && (ship in g.systems[system].ships ==>
            multiset(g'.systems[system].ships) + multiset{ship} == multiset(g.systems[system].ships))
      && (ship !in g.systems[system].ships ==> g'.systems[system].ships == g.systems[system].ships)
      && (forall q: Piece :: Amount(g'.reserve, q) == Amount(g.reserve, q) + (if q == ship.piece then 1 else 0))
      && g'.systemCount == g.systemCount && g'.players == g.players && g'.currentPlayer == g.currentPlayer
      && OthersUntouched(g, g', system)
  {
  }

  /**
   * The count law and the kind law: an accepted sacrifice has exactly as
   * many non-catastrophe sub-actions as the ship's size, each of the kind its
   * colour grants or a catastrophe; any other count is rejected, one too
   * many or too few included.
   */
  lemma SacrificeLaws(g: GameState, system: int, ship: Ship, subs: seq<Action>)
    ensures ValidateSacrifice(g, system, ship, subs).Accept? ==> NonCatastropheCount(subs) == ship.piece.size
    ensures ValidateSacrifice(g, system, ship, subs).Accept? ==>
      forall i :: 0 <= i < |subs| ==> KindOf(subs[i]) == ColorAction(ship.piece.color) || KindOf(subs[i]) == CatastropheKind
    ensures PlayerHasShip(g, system, ship) && NonCatastropheCount(subs) != ship.piece.size ==>
      ValidateSacrifice(g, system, ship, subs) == Reject(WrongActionCount(ship.piece.size, NonCatastropheCount(subs)))
  {
    if ValidateSacrifice(g, system, ship, subs).Accept? {
      var g1, power := Spend(g, system, ship), ColorAction(ship.piece.color);
      assert ValidateChain(g1, power, subs).Accept?;
      ChainAccepted(g1, power, subs);
      forall i | 0 <= i < |subs| ensures KindOf(subs[i]) == power || KindOf(subs[i]) == CatastropheKind {
        assert SubActionOk(g1, power, subs, i);
      }
    }
  }

  // ---------------------------------------------------------------------
  // Catastrophe (game_engine/game.py:371-393, 517-546)
  // ---------------------------------------------------------------------

  /** Four pieces of a colour in a system admit a catastrophe of that colour; three do not. */
  lemma CatastropheThreshold(g: GameState, system: int, color: Color)
    requires system in g.systems
    ensures ColorCount(g.systems[system], color) >= 4 ==> ValidateCatastrophe(g, system, color).Accept?
    ensures ColorCount(g.systems[system], color) <= 3 ==> ValidateCatastrophe(g, system, color) == Reject(NotOverpopulated)
  {
  }

  lemma {:induction false} NoneOfColor(ps: seq<Piece>, c: Color)
    requires forall p :: p in ps ==> p.color != c
    ensures OtherPieces(ps, c) == ps && PiecesOfColor(ps, c) == []
  {
    if ps != [] {
      NoneOfColor(ps[1..], c);
      assert ps == [ps[0]] + ps[1..];
    }
  }

  lemma {:induction false} AllOfColor(ps: seq<Piece>, c: Color)
    requires forall p :: p in ps ==> p.color == c
    ensures OtherPieces(ps, c) == []
  {
    if ps != [] {
      AllOfColor(ps[1..], c);
    }
  }

  lemma {:induction false} SomeOfColor(ps: seq<Piece>, c: Color)
    requires exists p :: p in ps && p.color == c
    ensures |OtherPieces(ps, c)| < |ps|
  {
    if ps[0].color != c {
      assert exists p :: p in ps[1..] && p.color == c by {
        var p :| p in ps && p.color == c;
        assert p != ps[0];
        assert ps == [ps[0]] + ps[1..];
      }
      SomeOfColor(ps[1..], c);
    }
  }

  /** A star wholly of the colour: the system is gone and every piece of it, star and ships, is back in the reserve. */
  lemma CatastropheDestroysSystem(g: GameState, system: int, color: Color)
    requires system in g.systems && forall p :: p in g.systems[system].star.pieces ==> p.color == color
    ensures var sys := g.systems[system];
      var g' := ApplyCatastrophe(g, system, color);
      && system !in g'.systems
      && (forall q :: Amount(g'.reserve, q) == Amount(g.reserve, q) + multiset(sys.star.pieces)[q] + multiset(ShipPieces(sys.ships))[q])
      && OthersUntouched(g, g', system)
  {
    AllOfColor(g.systems[system].star.pieces, color);
  }

  /** A star with no piece of the colour: only the ships of the colour go back; the star and the other ships stay. */
  lemma CatastropheDestroysShips(g: GameState, system: int, color: Color)
    requires system in g.systems && forall p :: p in g.systems[system].star.pieces ==> p.color != color
    requires g.systems[system].star.pieces != []
    ensures var sys := g.systems[system];
      var g' := ApplyCatastrophe(g, system, color);
      && system in g'.systems && g'.systems[system].star == sys.star
      && (forall s :: s in g'.systems[system].ships <==> s in sys.ships && s.piece.color != color)
      && multiset(g'.systems[system].ships) + multiset(ShipsOfColor(sys.ships, color)) == multiset(sys.ships)
      && (forall q :: Amount(g'.reserve, q) == Amount(g.reserve, q) + multiset(ShipPieces(ShipsOfColor(sys.ships, color)))[q])
      && OthersUntouched(g, g', system)
  {
    NoneOfColor(g.systems[system].star.pieces, color);
    PartitionShipsByColor(g.systems[system].ships, color);
  }

  /** A star partly of the colour: those star pieces and the ships of the colour go back; the rest of the system stays. */
  lemma CatastropheShrinksStar(g: GameState, system: int, color: Color)
    requires system in g.systems
    requires exists p :: p in g.systems[system].star.pieces && p.color == color
    requires exists p :: p in g.systems[system].star.pieces && p.color != color
    ensures var sys := g.systems[system];
      var g' := ApplyCatastrophe(g, system, color);
      && system in g'.systems && g'.systems[system].star.owner == sys.star.owner
      && (forall p :: p in g'.systems[system].star.pieces <==> p in sys.star.pieces && p.color != color)
      && multiset(g'.systems[system].star.pieces) + multiset(PiecesOfColor(sys.star.pieces, color)) == multiset(sys.star.pieces)
      && (forall s :: s in g'.systems[system].ships <==> s in sys.ships && s.piece.color != color)
      && multiset(g'.systems[system].ships) + multiset(ShipsOfColor(sys.ships, color)) == multiset(sys.ships)
      && (forall q :: Amount(g'.reserve, q) == Amount(g.reserve, q)
            + multiset(PiecesOfColor(sys.star.pieces, color))[q] + multiset(ShipPieces(ShipsOfColor(sys.ships, color)))[q])
      && OthersUntouched(g, g', system)
  {
    CatastropheShrinkBranch(g, system, color);
    SplitPiecesByColor(g.systems[system].star.pieces, color);
    PartitionShipsByColor(g.systems[system].ships, color);
  }

  /** A star partly of the colour takes the middle branch of catastrophe. */
  lemma CatastropheShrinkBranch(g: GameState, system: int, color: Color)
    requires system in g.systems
    requires exists p :: p in g.systems[system].star.pieces && p.color == color
    requires exists p :: p in g.systems[system].star.pieces && p.color != color
    ensures var sys := g.systems[system];
      ApplyCatastrophe(g, system, color) ==
        g.(reserve := Refund(Refund(g.reserve, PiecesOfColor(sys.star.pieces, color)), ShipPieces(ShipsOfColor(sys.ships, color))),
           systems := g.systems[system := System(sys.star.(pieces := OtherPieces(sys.star.pieces, color)), OtherShips(sys.ships, color))])
  {
    var ps := g.systems[system].star.pieces;
    SomeOfColor(ps, color);
    var p :| p in ps && p.color != color;
    assert p in OtherPieces(ps, color);
  }

  // ---------------------------------------------------------------------
  // Setup (game_engine/game.py:397-413, 550-561)
  // ---------------------------------------------------------------------

  /**
   * Setup lowers each reserve count by the number of times its piece is
   * used, issues the next system id, and adds there one system whose star is
   * the current player's, holding exactly one ship of theirs; every earlier
   * system stays as it was.
   */
  lemma SetupEffect(g: GameState, starPieces: seq<Piece>, shipPiece: Piece)
    requires Wf(g)
    ensures var g' := ApplySetup(g, starPieces, shipPiece);
      var id := g.systemCount + 1;
      && g'.systemCount == id && id !in g.systems
      && (forall q :: Amount(g'.reserve, q) == Amount(g.reserve, q) - multiset(starPieces + [shipPiece])[q])
      && g'.systems[id] == System(Star(g.currentPlayer, starPieces), [Ship(g.currentPlayer, shipPiece)])
      && g'.systems.Keys == g.systems.Keys + {id}
      && OthersUntouched(g, g', id)
  {
    forall q ensures multiset(starPieces + [shipPiece])[q] == multiset(starPieces)[q] + multiset([shipPiece])[q] {
      assert multiset(starPieces + [shipPiece]) == multiset(starPieces) + multiset([shipPiece]);
    }
  }

  // ---------------------------------------------------------------------
  // Trade: the phantom ship (game_engine/game.py:287-306)
  // ---------------------------------------------------------------------

  /** Player 1's homeworld with a green star and one blue ship; the reserve holds the other pieces. */
  function PhantomTradeGame(): (g: GameState)
    ensures 1 in g.systems && g.systemCount == 1
  {
    // g1 g2 g3 b1 b2 b3 y1 y2 y3 r1 r2 r3
    var reserve := [2, 3, 3, 3, 2, 3, 3, 3, 3, 3, 3, 3];
    GameState(reserve, map[1 := System(Star(1, [Piece(Green, 1)]), [Ship(1, Piece(Blue, 2))])], [1, 2], 1, 1)
  }

  /** The phantom trade: player 1 trades a large red ship that is not in the system for a yellow one. */
  const Phantom: Ship := Ship(1, Piece(Red, 3))

  /** The game is well formed and holds the three large red pieces, all in the reserve. */
  lemma PhantomTradeGameCounts()
    ensures Wf(PhantomTradeGame())
    ensures Total(PhantomTradeGame(), Piece(Red, 3)) == 3
  {
    var g := PhantomTradeGame();
    assert ShipPieces(g.systems[1].ships) == [Piece(Blue, 2)];
  }

  /** The validator as written accepts the phantom trade, and the corrected validator rejects it. */
  lemma PhantomTradeAccepted()
    ensures ValidateTradeAsWritten(PhantomTradeGame(), 1, Phantom, Yellow, false).Accept?
    ensures ValidateTrade(PhantomTradeGame(), 1, Phantom, Yellow, false) == Reject(ShipMissing)
  {
    var g := PhantomTradeGame();
    assert Blue in ColorsInSystem(g, 1) by {
      assert g.systems[1].ships[0] in g.systems[1].ships;
    }
  }

  /** The game after the phantom trade, written out. */
  function PhantomTradeAfter(): (g: GameState)
    ensures 1 in g.systems && g.systemCount == 1
  {
    // g1 g2 g3 b1 b2 b3 y1 y2 y3 r1 r2 r3
    var reserve := [2, 3, 3, 3, 2, 3, 3, 3, 2, 3, 3, 4];
    GameState(reserve, map[1 := System(Star(1, [Piece(Green, 1)]), [Ship(1, Piece(Blue, 2)), Ship(1, Piece(Yellow, 3))])], [1, 2], 1, 1)
  }

  /** The phantom trade refunds a large red piece, takes a large yellow one, and appends the yellow ship. */
  lemma PhantomTradeResult()
    ensures ApplyTrade(PhantomTradeGame(), 1, Phantom, Yellow) == PhantomTradeAfter()
  {
    var g := PhantomTradeGame();
    assert RemoveFirst(g.systems[1].ships, Phantom) == g.systems[1].ships;
    assert Slot(Piece(Red, 3)) == 11 && Slot(Piece(Yellow, 3)) == 8;
    assert RemovePiece(AddPiece(g.reserve, Piece(Red, 3)), Piece(Yellow, 3)) == [2, 3, 3, 3, 2, 3, 3, 3, 2, 3, 3, 4];
    var g' := ApplyTrade(g, 1, Phantom, Yellow);
    assert g'.reserve == PhantomTradeAfter().reserve;
    assert g'.systems[1].ships == [Ship(1, Piece(Blue, 2)), Ship(1, Piece(Yellow, 3))];
    assert g'.systems == PhantomTradeAfter().systems;
  }

  /** Afterwards four large red pieces are counted: the four in the reserve. */
  lemma PhantomTradeAfterCounts()
    ensures Total(PhantomTradeAfter(), Piece(Red, 3)) == 4
  {
    var g := PhantomTradeAfter();
    assert ShipPieces(g.systems[1].ships) == [Piece(Blue, 2), Piece(Yellow, 3)];
  }

  /**
   * After the phantom trade the executor has refunded a piece that was never
   * on the board: the large red key totals four where the game holds three.
   */
  lemma TradeAsWrittenBreaksConservation()
    ensures ValidateTradeAsWritten(PhantomTradeGame(), 1, Phantom, Yellow, false).Accept?
    ensures Total(PhantomTradeGame(), Piece(Red, 3)) == 3
    ensures Total(ApplyTrade(PhantomTradeGame(), 1, Phantom, Yellow), Piece(Red, 3)) == 4
  {
    PhantomTradeAccepted();
    PhantomTradeGameCounts();
    PhantomTradeResult();
    PhantomTradeAfterCounts();
  }
}
