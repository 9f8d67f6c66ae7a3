/**
 * Piece conservation: for every kind of piece, the reserve count plus the
 * pieces of that kind in stars and on ships stays what it was, through every
 * accepted action. Starting from three per kind, it is three forever. The
 * same lemmas show that accepted actions keep the state well formed and
 * never drive a reserve count below zero.
 */
module Conservation {
  import opened Pieces
  import opened Board
  import opened Actions
  import opened Rules
  import opened Acceptance

  /** Pieces of kind p in one system, in its star and on its ships. */
  ghost function InSystem(s: System, p: Piece): nat
  {
    multiset(s.star.pieces)[p] + multiset(ShipPieces(s.ships))[p]
  }

  /** Pieces of kind p in the systems with ids 1 to n (ids are issued from 1 upwards). */
  ghost function OnBoard(m: map<int, System>, p: Piece, n: int): nat
    decreases n
  {
    if n <= 0 then 0
    else OnBoard(m, p, n - 1) + (if n in m then InSystem(m[n], p) else 0)
  }

  /** Pieces of kind p anywhere: in the reserve or in one of the systems issued so far. */
  ghost function Total(g: GameState, p: Piece): int
  {
    Amount(g.reserve, p) + OnBoard(g.systems, p, g.systemCount)
  }

  /** Three pieces of every kind exist (the invariant of the game's data model). */
  ghost predicate Conserved(g: GameState)
  {
    forall p: Piece :: Total(g, p) == 3
  }

  /** g' is well formed and keeps the reserve non-negative if g's was. */
  ghost predicate Safe(g: GameState, g': GameState)
  {
    Wf(g') && (NonNegative(g.reserve) ==> NonNegative(g'.reserve))
  }

  /** g' holds as many pieces of every kind as g. */
  ghost predicate SameTotals(g: GameState, g': GameState)
  {
    forall p: Piece :: Total(g', p) == Total(g, p)
  }

  /** The three invariants an accepted action keeps. */
  ghost predicate Keeps(g: GameState, g': GameState)
  {
    Safe(g, g') && SameTotals(g, g')
  }

  lemma KeepsTransitive(g0: GameState, g1: GameState, g2: GameState)
    requires Keeps(g0, g1) && Keeps(g1, g2)
    ensures Keeps(g0, g2)
  {
  }

  // ---------------------------------------------------------------------
  // Counting over the map of systems
  // ---------------------------------------------------------------------

  /** Replacing, adding or deleting the system with id k changes the count by that system's difference. */
  lemma {:induction false} OnBoardChange(m: map<int, System>, m': map<int, System>, k: int, p: Piece, n: int)
    requires 1 <= k <= n
    requires forall id :: id != k ==> (id in m <==> id in m') && (id in m ==> m[id] == m'[id])
    ensures OnBoard(m', p, n) == OnBoard(m, p, n)
      - (if k in m then InSystem(m[k], p) else 0) + (if k in m' then InSystem(m'[k], p) else 0)
    decreases n
  {
    if n > k {
      OnBoardChange(m, m', k, p, n - 1);
    } else {
      OnBoardSame(m, m', p, n - 1);
    }
  }

  /** Systems beyond the range, or equal on it, do not change the count. */
  lemma {:induction false} OnBoardSame(m: map<int, System>, m': map<int, System>, p: Piece, n: int)
    requires forall id :: 1 <= id <= n ==> (id in m <==> id in m') && (id in m ==> m[id] == m'[id])
    ensures OnBoard(m', p, n) == OnBoard(m, p, n)
    decreases n
  {
    if n > 0 {
      OnBoardSame(m, m', p, n - 1);
    }
  }

  lemma OnBoardUpdate(m: map<int, System>, k: int, s: System, p: Piece, n: int)
    requires 1 <= k <= n
    ensures OnBoard(m[k := s], p, n) == OnBoard(m, p, n) - (if k in m then InSystem(m[k], p) else 0) + InSystem(s, p)
  {
    OnBoardChange(m, m[k := s], k, p, n);
  }

  lemma OnBoardDelete(m: map<int, System>, k: int, p: Piece, n: int)
    requires 1 <= k <= n && k in m
    ensures OnBoard(m - {k}, p, n) == OnBoard(m, p, n) - InSystem(m[k], p)
  {
    OnBoardChange(m, m - {k}, k, p, n);
  }

  /** Issuing the next id: the new system adds its pieces, nothing else moves. */
  lemma OnBoardIssue(m: map<int, System>, s: System, p: Piece, n: int)
    requires n >= 0 && forall id :: id in m ==> id <= n
    ensures OnBoard(m[n + 1 := s], p, n + 1) == OnBoard(m, p, n) + InSystem(s, p)
  {
    OnBoardSame(m, m[n + 1 := s], p, n);
  }

  /** A ship joining a system adds its piece. */
  lemma InSystemJoin(sys: System, ship: Ship, q: Piece)
    ensures InSystem(sys.(ships := sys.ships + [ship]), q) == InSystem(sys, q) + (if q == ship.piece then 1 else 0)
  {
    ShipPiecesAppend(sys.ships, [ship]);
  }

  /** A ship leaving a system takes its piece away. */
  lemma InSystemLeave(sys: System, ship: Ship, q: Piece)
    requires ship in sys.ships
    ensures InSystem(sys.(ships := RemoveFirst(sys.ships, ship)), q) + (if q == ship.piece then 1 else 0) == InSystem(sys, q)
  {
    RemoveFirstPieces(sys.ships, ship);
  }

  // ---------------------------------------------------------------------
  // Well-formedness under the three ways the map of systems changes
  // ---------------------------------------------------------------------

  /** Replacing or issuing one system whose neutral star is non-empty. */
  lemma WfPut(g: GameState, g': GameState, id: int, s: System)
    requires Wf(g) && 1 <= id <= g'.systemCount && g.systemCount <= g'.systemCount
    requires g'.currentPlayer == g.currentPlayer && g'.players == g.players
    requires g'.systems == g.systems[id := s]
    requires s.star.owner == NoOwner ==> s.star.pieces != []
    ensures Wf(g')
  {
  }

  /** Deleting one system. */
  lemma WfDrop(g: GameState, g': GameState, id: int)
    requires Wf(g) && g'.systemCount == g.systemCount
    requires g'.currentPlayer == g.currentPlayer && g'.players == g.players
    requires g'.systems == g.systems - {id}
    ensures Wf(g')
  {
  }

  // ---------------------------------------------------------------------
  // One lemma per executor, under the conditions its validator guarantees
  // ---------------------------------------------------------------------

  lemma ConstructSafe(g: GameState, system: int, color: Color)
    requires Wf(g)
    ensures Safe(g, ApplyConstruct(g, system, color))
  {
    var o := SmallestAvailable(g.reserve, color);
    if o.Some? && system in g.systems {
      var sys := g.systems[system];
      WfPut(g, ApplyConstruct(g, system, color), system, sys.(ships := sys.ships + [Ship(g.currentPlayer, Piece(color, o.value))]));
    }
  }

  lemma ConstructTotalAt(g: GameState, system: int, color: Color, q: Piece)
    requires Wf(g)
    ensures Total(ApplyConstruct(g, system, color), q) == Total(g, q)
  {
    var o := SmallestAvailable(g.reserve, color);
    if o.Some? && system in g.systems {
      var sys := g.systems[system];
      var ship := Ship(g.currentPlayer, Piece(color, o.value));
      InSystemJoin(sys, ship, q);
      OnBoardUpdate(g.systems, system, sys.(ships := sys.ships + [ship]), q, g.systemCount);
    }
  }

  lemma ConstructKeeps(g: GameState, system: int, color: Color)
    requires Wf(g)
    ensures Keeps(g, ApplyConstruct(g, system, color))
  {
    ConstructSafe(g, system, color);
    forall q: Piece ensures Total(ApplyConstruct(g, system, color), q) == Total(g, q) {
      ConstructTotalAt(g, system, color, q);
    }
  }

  /** The origin of a move keeps every other system, and is deleted only when it is neutral. */
  lemma LeaveOriginShape(g: GameState, origin: int, ship: Ship)
    requires Wf(g) && origin in g.systems
    ensures var g1 := LeaveOrigin(g, origin, ship);
      && Wf(g1)
      && g1.systemCount == g.systemCount && g1.currentPlayer == g.currentPlayer && g1.players == g.players
      && (forall id :: id in g1.systems ==> id in g.systems && g1.systems[id].star == g.systems[id].star)
      && (forall id :: id in g.systems && id != origin ==> id in g1.systems)
      && (origin !in g1.systems ==> g.systems[origin].star.owner == NoOwner)
      && (forall q: Piece :: Amount(g1.reserve, q) >= Amount(g.reserve, q))
  {
    var from := g.systems[origin];
    var fromShips := RemoveFirst(from.ships, ship);
    if fromShips == [] && from.star.owner == NoOwner {
      WfDrop(g, LeaveOrigin(g, origin, ship), origin);
    } else {
      WfPut(g, LeaveOrigin(g, origin, ship), origin, from.(ships := fromShips));
    }
  }

  /** The origin of a move loses exactly the moved ship's piece. */
  lemma LeaveOriginTotal(g: GameState, origin: int, ship: Ship, q: Piece)
    requires Wf(g) && origin in g.systems && ship in g.systems[origin].ships
    ensures Total(LeaveOrigin(g, origin, ship), q) + (if q == ship.piece then 1 else 0) == Total(g, q)
  {
    var from := g.systems[origin];
    InSystemLeave(from, ship, q);
    if RemoveFirst(from.ships, ship) == [] && from.star.owner == NoOwner {
      assert ShipPieces([]) == [];
      OnBoardDelete(g.systems, origin, q, g.systemCount);
    } else {
      OnBoardUpdate(g.systems, origin, from.(ships := RemoveFirst(from.ships, ship)), q, g.systemCount);
    }
  }

  /** A move's existing destination survives its origin's deletion: the two share no star size. */
  lemma DestinationSurvives(g: GameState, origin: int, ship: Ship, id: int)
    requires Wf(g) && origin in g.systems && id in g.systems
    requires StarSizes(g.systems[origin].star.pieces) * StarSizes(g.systems[id].star.pieces) == {}
    ensures id in LeaveOrigin(g, origin, ship).systems
  {
    LeaveOriginShape(g, origin, ship);
    SharesOwnSizes(g.systems[origin].star.pieces);
  }

  /** A non-empty star shares its sizes with itself. */
  lemma SharesOwnSizes(ps: seq<Piece>)
    ensures ps != [] ==> StarSizes(ps) * StarSizes(ps) != {}
  {
    if ps != [] {
      assert ps[0].size in StarSizes(ps) * StarSizes(ps);
    }
  }

  lemma MoveSafe(g: GameState, origin: int, ship: Ship, dest: Destination)
    requires Wf(g) && origin in g.systems
    requires dest.NewSystem? ==> Amount(g.reserve, dest.newPiece) >= 1
    ensures Safe(g, ApplyMove(g, origin, ship, dest))
  {
    LeaveOriginShape(g, origin, ship);
    ArrivalSafe(LeaveOrigin(g, origin, ship), ship, dest);
  }

  /** The arrival half of a move keeps the board well formed, and takes at most the one piece it founds a star with. */
  lemma ArrivalSafe(g1: GameState, ship: Ship, dest: Destination)
    requires Wf(g1)
    requires dest.NewSystem? ==> Amount(g1.reserve, dest.newPiece) >= 1
    ensures Safe(g1, Arrival(g1, ship, dest))
  {
    var g' := Arrival(g1, ship, dest);
    match dest
    case NewSystem(p) =>
      WfPut(g1, g', g1.systemCount + 1, System(Star(NoOwner, [p]), [ship]));
    case Existing(id) =>
      if id in g1.systems {
        WfPut(g1, g', id, g1.systems[id].(ships := g1.systems[id].ships + [ship]));
      }
  }

  lemma MoveTotalAt(g: GameState, origin: int, ship: Ship, dest: Destination, q: Piece)
    requires Wf(g) && origin in g.systems && ship in g.systems[origin].ships
    requires dest.Existing? ==>
      dest.id in g.systems && StarSizes(g.systems[origin].star.pieces) * StarSizes(g.systems[dest.id].star.pieces) == {}
    ensures Total(ApplyMove(g, origin, ship, dest), q) == Total(g, q)
  {
    LeaveOriginShape(g, origin, ship);
    LeaveOriginTotal(g, origin, ship, q);
    match dest
    case NewSystem(p) => FoundTotalAt(LeaveOrigin(g, origin, ship), ship, p, q);
    case Existing(id) =>
      DestinationSurvives(g, origin, ship, id);
      ArriveTotalAt(LeaveOrigin(g, origin, ship), ship, id, q);
  }

  /** A ship founding a new system adds the system's star and the ship itself. */
  lemma FoundTotalAt(g1: GameState, ship: Ship, p: Piece, q: Piece)
    requires Wf(g1)
    ensures var id := g1.systemCount + 1;
      Total(g1.(reserve := RemovePiece(g1.reserve, p), systemCount := id,
                systems := g1.systems[id := System(Star(NoOwner, [p]), [ship])]), q)
      == Total(g1, q) + (if q == ship.piece then 1 else 0)
  {
    assert ShipPieces([ship]) == [ship.piece];
    OnBoardIssue(g1.systems, System(Star(NoOwner, [p]), [ship]), q, g1.systemCount);
  }

  /** A ship arriving at an existing system adds itself. */
  lemma ArriveTotalAt(g1: GameState, ship: Ship, id: int, q: Piece)
    requires Wf(g1) && id in g1.systems
    ensures Total(g1.(systems := g1.systems[id := g1.systems[id].(ships := g1.systems[id].ships + [ship])]), q)
      == Total(g1, q) + (if q == ship.piece then 1 else 0)
  {
    var sys := g1.systems[id];
    InSystemJoin(sys, ship, q);
    OnBoardUpdate(g1.systems, id, sys.(ships := sys.ships + [ship]), q, g1.systemCount);
  }

  lemma MoveKeeps(g: GameState, origin: int, ship: Ship, dest: Destination)
    requires Wf(g) && origin in g.systems && ship in g.systems[origin].ships
    requires dest.Existing? ==>
      dest.id in g.systems && StarSizes(g.systems[origin].star.pieces) * StarSizes(g.systems[dest.id].star.pieces) == {}
    requires dest.NewSystem? ==> Amount(g.reserve, dest.newPiece) >= 1
    ensures Keeps(g, ApplyMove(g, origin, ship, dest))
  {
    MoveSafe(g, origin, ship, dest);
    forall q: Piece ensures Total(ApplyMove(g, origin, ship, dest), q) == Total(g, q) {
      MoveTotalAt(g, origin, ship, dest, q);
    }
  }

  lemma TradeSafe(g: GameState, system: int, ship: Ship, color: Color)
    requires Wf(g) && Amount(g.reserve, Piece(color, ship.piece.size)) >= 1
    ensures Safe(g, ApplyTrade(g, system, ship, color))
  {
    if system in g.systems {
      var sys := g.systems[system];
      var ships := RemoveFirst(sys.ships, ship) + [Ship(g.currentPlayer, Piece(color, ship.piece.size))];
      WfPut(g, ApplyTrade(g, system, ship, color), system, sys.(ships := ships));
    }
  }

  lemma TradeTotalAt(g: GameState, system: int, ship: Ship, color: Color, q: Piece)
    requires Wf(g) && system in g.systems && ship in g.systems[system].ships
    ensures Total(ApplyTrade(g, system, ship, color), q) == Total(g, q)
  {
    var sys := g.systems[system];
    var sys1 := sys.(ships := RemoveFirst(sys.ships, ship));
    var newShip := Ship(g.currentPlayer, Piece(color, ship.piece.size));
    InSystemLeave(sys, ship, q);
    InSystemJoin(sys1, newShip, q);
    OnBoardUpdate(g.systems, system, sys1.(ships := sys1.ships + [newShip]), q, g.systemCount);
  }

  lemma TradeKeeps(g: GameState, system: int, ship: Ship, color: Color)
    requires Wf(g) && system in g.systems && ship in g.systems[system].ships
    requires Amount(g.reserve, Piece(color, ship.piece.size)) >= 1
    ensures Keeps(g, ApplyTrade(g, system, ship, color))
  {
    TradeSafe(g, system, ship, color);
    forall q: Piece ensures Total(ApplyTrade(g, system, ship, color), q) == Total(g, q) {
      TradeTotalAt(g, system, ship, color, q);
    }
  }

  lemma AttackKeeps(g: GameState, system: int, ship: Ship)
    requires Wf(g)
    ensures Keeps(g, ApplyAttack(g, system, ship))
  {
    if system in g.systems {
      var sys := g.systems[system];
      var sys' := sys.(ships := ReplaceFirst(sys.ships, ship, ship.(owner := g.currentPlayer)));
      WfPut(g, ApplyAttack(g, system, ship), system, sys');
      forall q: Piece ensures Total(ApplyAttack(g, system, ship), q) == Total(g, q) {
        OnBoardUpdate(g.systems, system, sys', q, g.systemCount);
      }
    }
  }

  lemma SpendSafe(g: GameState, system: int, ship: Ship)
    requires Wf(g)
    ensures Safe(g, Spend(g, system, ship))
  {
    if system in g.systems {
      var sys := g.systems[system];
      WfPut(g, Spend(g, system, ship), system, sys.(ships := RemoveFirst(sys.ships, ship)));
    }
  }

  lemma SpendTotalAt(g: GameState, system: int, ship: Ship, q: Piece)
    requires Wf(g) && system in g.systems && ship in g.systems[system].ships
    ensures Total(Spend(g, system, ship), q) == Total(g, q)
  {
    var sys := g.systems[system];
    InSystemLeave(sys, ship, q);
    OnBoardUpdate(g.systems, system, sys.(ships := RemoveFirst(sys.ships, ship)), q, g.systemCount);
  }

  lemma SpendKeeps(g: GameState, system: int, ship: Ship)
    requires Wf(g) && system in g.systems && ship in g.systems[system].ships
    ensures Keeps(g, Spend(g, system, ship))
  {
    SpendSafe(g, system, ship);
    forall q: Piece ensures Total(Spend(g, system, ship), q) == Total(g, q) {
      SpendTotalAt(g, system, ship, q);
    }
  }

  lemma CatastropheSafe(g: GameState, system: int, color: Color)
    requires Wf(g)
    ensures Safe(g, ApplyCatastrophe(g, system, color))
  {
    if system in g.systems {
      var sys := g.systems[system];
      var g' := ApplyCatastrophe(g, system, color);
      var remaining := OtherPieces(sys.star.pieces, color);
      if remaining == [] {
        WfDrop(g, g', system);
      } else if |remaining| != |sys.star.pieces| {
        WfPut(g, g', system, System(sys.star.(pieces := remaining), OtherShips(sys.ships, color)));
      } else {
        WfPut(g, g', system, sys.(ships := OtherShips(sys.ships, color)));
      }
    }
  }

  lemma CatastropheTotalAt(g: GameState, system: int, color: Color, q: Piece)
    requires Wf(g)
    ensures Total(ApplyCatastrophe(g, system, color), q) == Total(g, q)
  {
    if system in g.systems {
      var sys := g.systems[system];
      var remaining := OtherPieces(sys.star.pieces, color);
      SplitShipsByColor(sys.ships, color);
      SplitPiecesByColor(sys.star.pieces, color);
      if remaining == [] {
        OnBoardDelete(g.systems, system, q, g.systemCount);
      } else if |remaining| != |sys.star.pieces| {
        OnBoardUpdate(g.systems, system, System(sys.star.(pieces := remaining), OtherShips(sys.ships, color)), q, g.systemCount);
      } else {
        OnBoardUpdate(g.systems, system, sys.(ships := OtherShips(sys.ships, color)), q, g.systemCount);
      }
    }
  }

  lemma CatastropheKeeps(g: GameState, system: int, color: Color)
    requires Wf(g)
    ensures Keeps(g, ApplyCatastrophe(g, system, color))
  {
    CatastropheSafe(g, system, color);
    forall q: Piece ensures Total(ApplyCatastrophe(g, system, color), q) == Total(g, q) {
      CatastropheTotalAt(g, system, color, q);
    }
  }

  lemma SetupSafe(g: GameState, starPieces: seq<Piece>, shipPiece: Piece)
    requires Wf(g)
    requires forall p :: p in starPieces + [shipPiece] ==> Amount(g.reserve, p) >= multiset(starPieces + [shipPiece])[p]
    ensures Safe(g, ApplySetup(g, starPieces, shipPiece))
  {
    var ship := Ship(g.currentPlayer, shipPiece);
    var all := starPieces + [shipPiece];
    WfPut(g, ApplySetup(g, starPieces, shipPiece), g.systemCount + 1, System(Star(g.currentPlayer, starPieces), [ship]));
    assert multiset(all) == multiset(starPieces) + multiset{shipPiece};
    forall p: Piece | p !in all ensures multiset(all)[p] == 0 {
    }
  }

  lemma SetupTotalAt(g: GameState, starPieces: seq<Piece>, shipPiece: Piece, q: Piece)
    requires Wf(g)
    ensures Total(ApplySetup(g, starPieces, shipPiece), q) == Total(g, q)
  {
    var ship := Ship(g.currentPlayer, shipPiece);
    assert ShipPieces([ship]) == [shipPiece];
    OnBoardIssue(g.systems, System(Star(g.currentPlayer, starPieces), [ship]), q, g.systemCount);
  }

  lemma SetupKeeps(g: GameState, starPieces: seq<Piece>, shipPiece: Piece)
    requires Wf(g)
    requires forall p :: p in starPieces + [shipPiece] ==> Amount(g.reserve, p) >= multiset(starPieces + [shipPiece])[p]
    ensures Keeps(g, ApplySetup(g, starPieces, shipPiece))
  {
    SetupSafe(g, starPieces, shipPiece);
    forall q: Piece ensures Total(ApplySetup(g, starPieces, shipPiece), q) == Total(g, q) {
      SetupTotalAt(g, starPieces, shipPiece, q);
    }
  }

  // ---------------------------------------------------------------------
  // Every accepted action
  // ---------------------------------------------------------------------

  lemma AcceptedMoveKeeps(g: GameState, origin: int, ship: Ship, dest: Destination, sacrifice: bool)
    requires Wf(g) && ValidateMove(g, origin, ship, dest, sacrifice).Accept?
    ensures Keeps(g, ApplyMove(g, origin, ship, dest))
  {
    MoveAccepted(g, origin, ship, dest, sacrifice);
    MoveKeeps(g, origin, ship, dest);
  }

  lemma AcceptedTradeKeeps(g: GameState, system: int, ship: Ship, color: Color, sacrifice: bool)
    requires Wf(g) && ValidateTrade(g, system, ship, color, sacrifice).Accept?
    ensures Keeps(g, ApplyTrade(g, system, ship, color))
  {
    TradeAccepted(g, system, ship, color, sacrifice);
    TradeKeeps(g, system, ship, color);
  }

  lemma AcceptedSetupKeeps(g: GameState, starPieces: seq<Piece>, shipPiece: Piece)
    requires Wf(g) && ValidateSetup(g, starPieces, shipPiece).Accept?
    ensures Keeps(g, ApplySetup(g, starPieces, shipPiece))
  {
    SetupAccepted(g, starPieces, shipPiece);
    SetupKeeps(g, starPieces, shipPiece);
  }

  /** Every executor run after its validator accepted keeps the three invariants. */
  lemma {:induction false} ApplyKeeps(g: GameState, a: Action, sacrifice: bool)
    requires Wf(g) && Validate(g, a, sacrifice).Accept?
    ensures Keeps(g, Apply(g, a))
    decreases a, 1
  {
    match a
    case Construct(system, color) => ConstructKeeps(g, system, color);
    case Move(origin, ship, dest) => AcceptedMoveKeeps(g, origin, ship, dest, sacrifice);
    case Trade(system, ship, color) => AcceptedTradeKeeps(g, system, ship, color, sacrifice);
    case Attack(system, ship) => AttackKeeps(g, system, ship);
    case Sacrifice(system, ship, subs) => SacrificeKeeps(g, system, ship, subs);
    case Catastrophe(system, color) => CatastropheKeeps(g, system, color);
    case Setup(starPieces, shipPiece) => AcceptedSetupKeeps(g, starPieces, shipPiece);
  }

  lemma {:induction false} SacrificeKeeps(g: GameState, system: int, ship: Ship, subs: seq<Action>)
    requires Wf(g) && ValidateSacrifice(g, system, ship, subs).Accept?
    ensures Keeps(g, ApplySacrifice(g, system, ship, subs))
    decreases Sacrifice(system, ship, subs), 0
  {
    SacrificeAccepted(g, system, ship, subs);
    SpendKeeps(g, system, ship);
    ChainKeeps(Spend(g, system, ship), ColorAction(ship.piece.color), subs);
    KeepsTransitive(g, Spend(g, system, ship), ApplySacrifice(g, system, ship, subs));
  }

  /** A sacrifice's validated chain of sub-actions keeps the three invariants. */
  lemma {:induction false} ChainKeeps(g: GameState, power: Kind, subs: seq<Action>)
    requires Wf(g) && ValidateChain(g, power, subs).Accept?
    ensures Keeps(g, ApplyAll(g, subs))
    decreases subs
  {
    if subs != [] {
      ApplyKeeps(g, subs[0], true);
      ChainKeeps(Apply(g, subs[0]), power, subs[1..]);
      KeepsTransitive(g, Apply(g, subs[0]), ApplyAll(g, subs));
    }
  }
}
