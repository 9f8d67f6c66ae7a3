/**
 * The turn structure of game_engine/main.py as functions: the initial game
 * state, the loss check, turn alternation, and what interpreting one bot
 * turn computes. The method that interprets a turn in place is in module
 * Interpreter and is proved to compute RunTurn.
 */
module Turns {
  import opened Pieces
  import opened Board
  import opened Actions
  import opened Rules
  import opened Conservation

  // ---------------------------------------------------------------------
  // The initial state (game_engine/main.py:106-130)
  // ---------------------------------------------------------------------

  /**
   * The game state main builds before the first turn, with the first player
   * chosen among the two registered ones (the random choice is a parameter).
   */
  function Init(first: PlayerId): (g: GameState)
    requires first == 1 || first == 2
    ensures forall p: Piece :: Amount(g.reserve, p) == 3
    ensures g.systems == map[] && g.systemCount == 0
    ensures g.players == [1, 2] && g.currentPlayer == first
  {
    GameState(InitialReserve(), map[], [1, 2], first, 0)
  }

  /** The initial state is well formed, holds three pieces of every kind, and has no negative count. */
  lemma InitInvariants(first: PlayerId)
    requires first == 1 || first == 2
    ensures Wf(Init(first)) && Conserved(Init(first)) && NonNegative(Init(first).reserve)
  {
    forall p: Piece ensures Total(Init(first), p) == 3 {
      assert OnBoard(map[], p, 0) == 0;
    }
  }

  /**
   * One accepted action keeps three pieces of every kind: the step of an
   * induction over the actions taken from Init, whose base is InitInvariants.
   */
  lemma ConservedForever(g: GameState, a: Action, sacrifice: bool)
    requires Wf(g) && Conserved(g) && NonNegative(g.reserve) && Validate(g, a, sacrifice).Accept?
    ensures Wf(Apply(g, a)) && Conserved(Apply(g, a)) && NonNegative(Apply(g, a).reserve)
  {
    ApplyKeeps(g, a, sacrifice);
  }

  // ---------------------------------------------------------------------
  // The loss check (game_engine/main.py:33-46)
  // ---------------------------------------------------------------------

  /** Player p owns a star and has a ship of their own at it: a live homeworld. */
  predicate HasHomeworld(g: GameState, p: PlayerId)
  {
    exists id :: id in g.systems && g.systems[id].star.owner == p &&
      exists s :: s in g.systems[id].ships && s.owner == p
  }

  /** `players_with_homeworlds`: owners of registered stars that hold one of their owner's ships. */
  function PlayersWithHomeworlds(g: GameState): (r: set<PlayerId>)
    ensures forall p :: p in r <==> p in g.players && HasHomeworld(g, p)
  {
    var r := set id | id in g.systems && g.systems[id].star.owner in g.players
                                      && OwnedBy(g.systems[id].ships, g.systems[id].star.owner) != []
                    :: g.systems[id].star.owner;
    forall p | p in g.players && HasHomeworld(g, p) ensures p in r {
      var id :| id in g.systems && g.systems[id].star.owner == p &&
        exists s :: s in g.systems[id].ships && s.owner == p;
      var s :| s in g.systems[id].ships && s.owner == p;
      assert s in OwnedBy(g.systems[id].ships, p);
    }
    forall p | p in r ensures HasHomeworld(g, p) {
      var id :| id in g.systems && g.systems[id].star.owner in g.players
        && OwnedBy(g.systems[id].ships, g.systems[id].star.owner) != [] && p == g.systems[id].star.owner;
      assert OwnedBy(g.systems[id].ships, p)[0] in OwnedBy(g.systems[id].ships, p);
    }
    r
  }

  /** The players of the list that are not in the set, in list order. */
  function Without(players: seq<PlayerId>, homes: set<PlayerId>): (r: seq<PlayerId>)
    ensures forall p :: p in r <==> p in players && p !in homes
    ensures |r| <= |players|
  {
    if players == [] then []
    else if players[0] !in homes then [players[0]] + Without(players[1..], homes)
    else Without(players[1..], homes)
  }

  /** check_player_lost: the registered players without a live homeworld, or None if there are none. */
  function CheckPlayerLost(g: GameState): (r: Option<seq<PlayerId>>)
    ensures r.None? <==> forall p :: p in g.players ==> HasHomeworld(g, p)
    ensures r.Some? ==> r.value != [] && forall p :: p in r.value <==> p in g.players && !HasHomeworld(g, p)
  {
    var without := Without(g.players, PlayersWithHomeworlds(g));
    assert without != [] ==> without[0] in g.players && !HasHomeworld(g, without[0]) by {
      if without != [] {
        assert without[0] in without;
      }
    }
    assert without == [] ==> forall p :: p in g.players ==> HasHomeworld(g, p) by {
      if without == [] {
        forall p | p in g.players ensures HasHomeworld(g, p) {
          assert p !in without;
        }
      }
    }
    if without != [] then Some(without) else None
  }

  /** Neutral systems never count as a homeworld: adding, changing or removing one leaves the loss check unchanged. */
  lemma NeutralSystemsIrrelevant(g: GameState, g': GameState)
    requires NoOwner !in g.players && g'.players == g.players
    requires forall id :: id in g.systems && g.systems[id].star.owner != NoOwner ==>
      id in g'.systems && g'.systems[id] == g.systems[id]
    requires forall id :: id in g'.systems && g'.systems[id].star.owner != NoOwner ==>
      id in g.systems && g.systems[id] == g'.systems[id]
    ensures CheckPlayerLost(g') == CheckPlayerLost(g)
  {
    assert PlayersWithHomeworlds(g') == PlayersWithHomeworlds(g);
  }

  /** Loss detection is skipped on the first two turns, which are the setup turns (game_engine/main.py:149-152). */
  function Losers(g: GameState, turnCount: int): (r: Option<seq<PlayerId>>)
    ensures turnCount <= 2 ==> r.None?
    ensures turnCount > 2 ==> r == CheckPlayerLost(g)
  {
    if turnCount > 2 then CheckPlayerLost(g) else None
  }

  // ---------------------------------------------------------------------
  // Turn alternation (game_engine/main.py:76-83)
  // ---------------------------------------------------------------------

  /** next_player: 1 is followed by 2, every other id by 1. */
  function NextPlayer(p: PlayerId): (r: PlayerId)
    ensures p == 1 ==> r == 2
    ensures p != 1 ==> r == 1
  {
    if p == 1 then 2 else 1
  }

  /** On the two player ids the turn alternates and comes back after two turns. */
  lemma NextPlayerAlternates(p: PlayerId)
    requires p == 1 || p == 2
    ensures NextPlayer(p) != p && (NextPlayer(p) == 1 || NextPlayer(p) == 2)
    ensures NextPlayer(NextPlayer(p)) == p
  {
  }

  // ---------------------------------------------------------------------
  // One bot turn (game_engine/main.py:50-73)
  // ---------------------------------------------------------------------

  /**
   * An entry of the flat list a bot returns: an action name at an even
   * index, followed by that action's arguments.
   */
  datatype Item = Name(kind: Kind) | Arguments(action: Action)

  /** The list is made of (name, arguments) pairs whose arguments fit their name. */
  predicate WellFormedInput(input: seq<Item>)
  {
    && |input| % 2 == 0
    && forall k :: 0 <= k < |input| / 2 ==>
         && input[2 * k].Name?
         && input[2 * k + 1].Arguments?
         && KindOf(input[2 * k + 1].action) == input[2 * k].kind
  }

  /** The arguments of the k-th pair. */
  function ArgumentsOf(input: seq<Item>, k: int): (a: Action)
    requires WellFormedInput(input) && 0 <= k < |input| / 2
    ensures input[2 * k + 1].Arguments? && a == input[2 * k + 1].action && KindOf(a) == input[2 * k].kind
  {
    assert input[2 * k].Name?;
    input[2 * k + 1].action
  }

  /** The actions of the pairs, in list order: the arguments at the odd indices. */
  function Pairs(input: seq<Item>): (acts: seq<Action>)
    requires WellFormedInput(input)
    ensures |acts| == |input| / 2
    ensures forall k :: 0 <= k < |acts| ==>
      input[2 * k + 1].Arguments? && acts[k] == input[2 * k + 1].action && KindOf(acts[k]) == input[2 * k].kind
  {
    var acts := seq(|input| / 2, k requires 0 <= k < |input| / 2 => ArgumentsOf(input, k));
    assert forall k :: 0 <= k < |acts| ==>
      input[2 * k + 1].Arguments? && acts[k] == input[2 * k + 1].action && KindOf(acts[k]) == input[2 * k].kind
    by {
      forall k | 0 <= k < |acts|
        ensures input[2 * k + 1].Arguments? && acts[k] == input[2 * k + 1].action && KindOf(acts[k]) == input[2 * k].kind
      {
        assert acts[k] == ArgumentsOf(input, k);
      }
    }
    acts
  }

  /** A verdict and the game state it leaves behind. */
  datatype Outcome = Outcome(verdict: Verdict, state: GameState)

  /**
   * interpret_bot_input on the list of actions: each is validated against
   * the current state without the sacrifice flag, then executed; the first
   * rejection is returned with the state the accepted actions before it
   * left behind.
   */
  function RunTurn(g: GameState, acts: seq<Action>): (o: Outcome)
    decreases |acts|
  {
    if acts == [] then Outcome(Accept, g)
    else
      match Validate(g, acts[0], false)
      case Reject(r) => Outcome(Reject(r), g)
      case Accept => RunTurn(Apply(g, acts[0]), acts[1..])
  }

  /** One step of a turn: the first action is either rejected, ending the turn where it stands, or applied. */
  lemma RunTurnStep(g: GameState, acts: seq<Action>)
    requires acts != []
    ensures Validate(g, acts[0], false).Reject? ==> RunTurn(g, acts) == Outcome(Validate(g, acts[0], false), g)
    ensures Validate(g, acts[0], false).Accept? ==> RunTurn(g, acts) == RunTurn(Apply(g, acts[0]), acts[1..])
  {
  }

  /** The action at position k is accepted on the state the actions before it produced. */
  ghost predicate AcceptedAt(g: GameState, acts: seq<Action>, k: int)
    requires 0 <= k < |acts|
  {
    Validate(ApplyAll(g, acts[..k]), acts[k], false).Accept?
  }

  /** Every action of the turn is accepted on the state the earlier ones produced. */
  ghost predicate AllAccepted(g: GameState, acts: seq<Action>)
  {
    forall k :: 0 <= k < |acts| ==> AcceptedAt(g, acts, k)
  }

  /** A prefix of a turn after its first action is the longer prefix of the turn. */
  lemma ApplyAllShift(g: GameState, acts: seq<Action>, j: int)
    requires 0 < j <= |acts|
    ensures ApplyAll(g, acts[..j]) == ApplyAll(Apply(g, acts[0]), acts[1..][..j - 1])
  {
    assert acts[..j] != [] && acts[..j][0] == acts[0] && acts[..j][1..] == acts[1..][..j - 1];
  }

  /** Position j + 1 of a turn is position j of the rest of the turn after its first action. */
  lemma AcceptedShift(g: GameState, acts: seq<Action>, j: int)
    requires 0 <= j < |acts| - 1
    ensures AcceptedAt(g, acts, j + 1) <==> AcceptedAt(Apply(g, acts[0]), acts[1..], j)
  {
    ApplyAllShift(g, acts, j + 1);
    assert acts[1..][j] == acts[j + 1];
  }

  /** A turn is accepted exactly when every action is, and then its state is the fold of the executors. */
  lemma {:induction false} RunTurnAccepts(g: GameState, acts: seq<Action>)
    ensures RunTurn(g, acts).verdict.Accept? <==> AllAccepted(g, acts)
    ensures RunTurn(g, acts).verdict.Accept? ==> RunTurn(g, acts).state == ApplyAll(g, acts)
    decreases |acts|
  {
    if acts != [] {
      var g1 := Apply(g, acts[0]);
      RunTurnStep(g, acts);
      RunTurnAccepts(g1, acts[1..]);
      assert acts[..0] == [];
      assert AcceptedAt(g, acts, 0) <==> Validate(g, acts[0], false).Accept?;
      if AcceptedAt(g, acts, 0) && AllAccepted(g1, acts[1..]) {
        forall k | 0 < k < |acts| ensures AcceptedAt(g, acts, k) {
          AcceptedShift(g, acts, k - 1);
        }
      }
      if AllAccepted(g, acts) {
        forall k | 0 <= k < |acts[1..]| ensures AcceptedAt(g1, acts[1..], k) {
          AcceptedShift(g, acts, k);
        }
      }
    }
  }

  /**
   * The first rejected action ends the turn: its verdict is returned and
   * the state is the one the actions before it produced; no later action runs.
   */
  lemma {:induction false} RunTurnRejects(g: GameState, acts: seq<Action>, k: int)
    requires 0 <= k < |acts|
    requires forall j :: 0 <= j < k ==> AcceptedAt(g, acts, j)
    requires !AcceptedAt(g, acts, k)
    ensures RunTurn(g, acts) == Outcome(Validate(ApplyAll(g, acts[..k]), acts[k], false), ApplyAll(g, acts[..k]))
    decreases k
  {
    assert acts[..0] == [];
    RunTurnStep(g, acts);
    if k > 0 {
      var g1 := Apply(g, acts[0]);
      assert AcceptedAt(g, acts, 0);
      forall j | 0 <= j < k - 1 ensures AcceptedAt(g1, acts[1..], j) {
        AcceptedShift(g, acts, j);
      }
      AcceptedShift(g, acts, k - 1);
      RunTurnRejects(g1, acts[1..], k - 1);
      ApplyAllShift(g, acts, k);
      assert acts[1..][k - 1] == acts[k];
    }
  }

  /** Without the sacrifice flag a validator is at least as strict as with it. */
  lemma Relaxed(g: GameState, a: Action)
    ensures Validate(g, a, false).Accept? ==> Validate(g, a, true).Accept?
  {
  }

  /** A turn, accepted or not, keeps the state well formed, every piece count, and a non-negative reserve. */
  lemma {:induction false} RunTurnKeeps(g: GameState, acts: seq<Action>)
    requires Wf(g)
    ensures Keeps(g, RunTurn(g, acts).state)
    decreases |acts|
  {
    if acts != [] && Validate(g, acts[0], false).Accept? {
      ApplyKeeps(g, acts[0], false);
      RunTurnKeeps(Apply(g, acts[0]), acts[1..]);
      KeepsTransitive(g, Apply(g, acts[0]), RunTurn(g, acts).state);
    }
  }
}
