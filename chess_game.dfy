/** The state of the `ChessGame` component (src/app/page.tsx) and the operations that change
    it: one turn of the match, the start/stop button and the reset button.

    The chess engine is not modelled. Its position is represented by `game`, the moves applied
    to it since it was created; what the engine says about that position (game over,
    checkmate, draw, side to move) and whether it accepts a move are parameters of a turn. */
module Match {
  import opened Wrappers
  import opened Scoring
  import opened MoveLog
  import opened Oracle

  const InitialWinner: string := "Start the game to find the winner"
  const RunningWinner: string := "Game in progress..."
  const PausedWinner: string := "Resume the game..."

  /** Everything one turn depends on from outside: the engine's report, the oracle's answers,
      how a reply is read (`JSON.parse(reply).move`), whether the engine accepts a move, and
      whether the stop button is pressed while the request is pending. */
  datatype TurnInput = TurnInput(
    status: EngineStatus,
    outcomes: seq<Option<string>>,
    parse: string -> Option<string>,
    legal: string -> bool,
    stopDuringRequest: bool)

  lemma ParityStep(n: nat)
    ensures (n % 2 + 1) % 2 == (n + 1) % 2
  {
  }

  class ChessGame {
    var players: seq<Player>
    var game: seq<string>
    var moves: seq<string>
    var start: bool
    var activePlayer: int
    var currentMoveIndex: int
    var winner: string

    /** The counters move in lockstep with the log, the log is exactly the formatted history
        of the position (newest first), and the two records keep their colours. */
    ghost predicate Valid()
      reads this
    {
      && |players| == 2 && players[0].color == White && players[1].color == Black
      && currentMoveIndex == |game| == |moves|
      && activePlayer == currentMoveIndex % 2
      && moves == LogOf(game)
    }

    constructor ()
      ensures Valid()
      ensures players == InitialPlayers()
      ensures game == [] && moves == [] && !start
      ensures activePlayer == 0 && currentMoveIndex == 0 && winner == InitialWinner
    {
      players := InitialPlayers();
      game := [];
      moves := [];
      start := false;
      activePlayer := 0;
      currentMoveIndex := 0;
      winner := InitialWinner;
    }

    /** The start/stop button: flips the running flag and says so in the winner text. */
    method OnClickStart()
      requires Valid()
      modifies this
      ensures Valid()
      ensures start == !old(start)
      ensures winner == if old(start) then PausedWinner else RunningWinner
      ensures players == old(players) && game == old(game) && moves == old(moves)
      ensures activePlayer == old(activePlayer) && currentMoveIndex == old(currentMoveIndex)
    {
      if start {
        winner := PausedWinner;
      } else {
        winner := RunningWinner;
      }
      start := !start;
    }

    /** The reset button: a fresh position and log; the score records are kept. */
    method ResetGame()
      requires Valid()
      modifies this
      ensures Valid()
      ensures game == [] && moves == [] && !start
      ensures activePlayer == 0 && currentMoveIndex == 0 && winner == InitialWinner
      ensures players == old(players)
    {
      game := [];
      moves := [];
      start := false;
      activePlayer := 0;
      currentMoveIndex := 0;
      winner := InitialWinner;
    }

    /** One turn (`makeMove`). `stopDuringRequest` says the stop button was pressed while the
        oracle request was pending; the move is committed all the same, since the running flag
        is not looked at again after the request. `scheduled` says the next turn was
        scheduled. A failed request, an unreadable reply or a move the engine rejects ends the
        turn with nothing changed and nothing scheduled. */
    method MakeMove(status: EngineStatus, outcomes: seq<Option<string>>, parse: string -> Option<string>,
                    legal: string -> bool, stopDuringRequest: bool)
      returns (scheduled: bool)
      requires Valid()
      requires |outcomes| >= MaxAttempts
      modifies this
      ensures Valid()
      // not running: nothing happens
      ensures !old(start) ==>
                !scheduled && start == old(start) && winner == old(winner) && players == old(players) &&
                game == old(game) && moves == old(moves) &&
                activePlayer == old(activePlayer) && currentMoveIndex == old(currentMoveIndex)
      // game over: the result is recorded and the match stops; no move is made
      ensures old(start) && status.gameOver ==>
                var v := GetWinner(status, old(players));
                !scheduled && !start && players == v.players && winner == v.winner &&
                game == old(game) && moves == old(moves) &&
                activePlayer == old(activePlayer) && currentMoveIndex == old(currentMoveIndex)
      // a turn is played: the scores never change
      ensures old(start) && !status.gameOver ==>
                players == old(players) &&
                (if stopDuringRequest then !start && winner == PausedWinner
                 else start && winner == old(winner))
      ensures old(start) && !status.gameOver ==>
                var move := ParsedMove(outcomes, parse);
                if move.Some? && legal(move.value) then
                  scheduled && game == old(game) + [move.value] &&
                  moves == [Entry(old(currentMoveIndex), old(activePlayer), move.value)] + old(moves) &&
                  activePlayer == (old(activePlayer) + 1) % 2 &&
                  currentMoveIndex == old(currentMoveIndex) + 1
                else
                  !scheduled && game == old(game) && moves == old(moves) &&
                  activePlayer == old(activePlayer) && currentMoveIndex == old(currentMoveIndex)
    {
      if !start {
        return false;
      }
      if status.gameOver {
        RecordResult(status);
        return false;
      }
      var move := GetNextMove(outcomes, parse);
      if stopDuringRequest {
        OnClickStart();
      }
      if move.None? || !legal(move.value) {
        return false;
      }
      Commit(move.value);
      scheduled := true;
    }

    /** Game over: the scoring rule's records and text are stored and the match stops. */
    method RecordResult(status: EngineStatus)
      requires Valid()
      modifies this
      ensures Valid()
      ensures var v := GetWinner(status, old(players));
              !start && players == v.players && winner == v.winner
      ensures game == old(game) && moves == old(moves)
      ensures activePlayer == old(activePlayer) && currentMoveIndex == old(currentMoveIndex)
    {
      var v := GetWinner(status, players);
      players := v.players;
      winner := v.winner;
      start := false;
    }

    /** An accepted move: applied to the position, logged in front, and the turn passes. */
    method Commit(move: string)
      requires Valid()
      modifies this
      ensures Valid()
      ensures game == old(game) + [move]
      ensures moves == [Entry(old(currentMoveIndex), old(activePlayer), move)] + old(moves)
      ensures activePlayer == (old(activePlayer) + 1) % 2
      ensures currentMoveIndex == old(currentMoveIndex) + 1
      ensures players == old(players) && start == old(start) && winner == old(winner)
    {
      var n := |game|;
      ParityStep(n);
      LogOfSnoc(game, move);
      game, moves := game + [move], [Entry(n, n % 2, move)] + moves;
      activePlayer, currentMoveIndex := (n + 1) % 2, n + 1;
    }

    /** The chain of turns that one start sets off: each turn schedules the next one until
        a turn schedules nothing or the inputs run out. Earlier log lines are never touched:
        the history only grows at its end and the log only at its front. Temperatures are
        kept and no win or draw count goes down. */
    method Play(turns: seq<TurnInput>) returns (played: nat)
      requires Valid()
      requires forall t :: 0 <= t < |turns| ==> |turns[t].outcomes| >= MaxAttempts
      modifies this
      ensures Valid()
      ensures played <= |turns|
      ensures |old(game)| <= |game| <= |old(game)| + played
      ensures game[..|old(game)|] == old(game)
      ensures moves[|moves| - |old(moves)|..] == old(moves)
      ensures forall k :: 0 <= k < 2 ==>
                players[k].temperature == old(players)[k].temperature &&
                players[k].wins >= old(players)[k].wins && players[k].draws >= old(players)[k].draws
    {
      ghost var before := game;
      played := 0;
      var scheduled := true;
      while scheduled && played < |turns|
        invariant Valid()
        invariant played <= |turns|
        invariant |before| <= |game| <= |before| + played
        invariant game[..|before|] == before
        invariant forall k :: 0 <= k < 2 ==>
                    players[k].temperature == old(players)[k].temperature &&
                    players[k].wins >= old(players)[k].wins && players[k].draws >= old(players)[k].draws
      {
        var t := turns[played];
        scheduled := MakeMove(t.status, t.outcomes, t.parse, t.legal, t.stopDuringRequest);
        played := played + 1;
      }
      assert game == before + game[|before|..];
      LogOfExtend(before, game[|before|..]);
    }
  }
}
