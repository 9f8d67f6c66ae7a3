/**
 * interpret_bot_input (game_engine/main.py:50-74) on the game object: the
 * bot's list alternates action names and argument tuples, and each pair is
 * validated against the game as it stands and then executed on it, until
 * one is rejected. The executors change the object in place, so a turn cut
 * short by a rejection leaves the effects of the pairs accepted before it.
 */
module Interpreter {
  import opened Actions
  import opened Rules
  import opened Turns
  import opened Executors

  /**
   * Runs the bot's turn on the game. The verdict and the state left behind
   * are exactly those of RunTurn on the pairs of the input, so what the
   * lemmas of module Turns prove about RunTurn (which pairs are applied,
   * conservation of pieces) holds of the object.
   */
  method InterpretBotInput(game: Game, input: seq<Item>) returns (v: Verdict)
    requires WellFormedInput(input)
    modifies game
    ensures Outcome(v, game.State()) == RunTurn(old(game.State()), Pairs(input))
  {
    ghost var acts := Pairs(input);
    ghost var done := 0;
    var index := 0;
    while index < |input|
      invariant 0 <= index <= |input| && 0 <= done <= |acts|
      invariant index == 2 * done || index == 2 * done - 1
      invariant RunTurn(game.State(), acts[done..]) == RunTurn(old(game.State()), acts)
      decreases |input| - index
    {
      Parity(index, done);
      if index % 2 != 0 {
        index := index + 1;
        continue;
      }
      assert index + 1 == 2 * done + 1 && acts[done] == input[2 * done + 1].action;
      var a := input[index + 1].action;
      var verdict := Perform(game, a, acts, done);
      if verdict.Reject? {
        return verdict;
      }
      done := done + 1;
      index := index + 1;
    }
    assert acts[done..] == [];
    v := Accept;
  }

  /** An index at or just before the start of pair `done` is odd exactly when it is just before. */
  lemma Parity(index: int, done: int)
    requires index == 2 * done || index == 2 * done - 1
    ensures index % 2 != 0 <==> index == 2 * done - 1
  {
  }

  /**
   * One pair of the bot's list, `validator(game, args)` and on acceptance
   * `method(game, *args)`, as one step of RunTurn over the remaining actions.
   */
  method Perform(game: Game, a: Action, ghost acts: seq<Action>, ghost k: int) returns (verdict: Verdict)
    requires 0 <= k < |acts| && acts[k] == a
    modifies game
    ensures verdict == Validate(old(game.State()), a, false)
    ensures verdict.Reject? ==> game.State() == old(game.State())
    ensures verdict.Reject? ==> RunTurn(old(game.State()), acts[k..]) == Outcome(verdict, game.State())
    ensures verdict.Accept? ==> RunTurn(old(game.State()), acts[k..]) == RunTurn(game.State(), acts[k + 1..])
  {
    assert acts[k..][0] == a && acts[k..][1..] == acts[k + 1..];
    RunTurnStep(game.State(), acts[k..]);
    verdict := Validate(game.State(), a, false);
    if verdict.Accept? {
      Relaxed(game.State(), a);
      game.Execute(a);
    }
  }
}
