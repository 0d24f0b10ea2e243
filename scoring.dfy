/** The two player records of a match and the scoring rule applied when the chess engine
    reports that the game is over (`getWinner` in src/app/page.tsx). */
module Scoring {

  /** The colour a player plays; also the side to move, as the engine's `turn()` reports it. */
  datatype Color = White | Black

  /** A player's record. The temperature is the oracle's randomness setting; it is only
      carried along, never computed with. */
  datatype Player = Player(color: Color, temperature: real, wins: nat, draws: nat)

  /** What the engine reports about the current position. */
  datatype EngineStatus = EngineStatus(gameOver: bool, checkmate: bool, draw: bool, turn: Color)

  /** The new player records and the text shown as the winner. */
  datatype Verdict = Verdict(players: seq<Player>, winner: string)

  /** The records the component starts with: white at temperature 0, black at temperature 1. */
  function InitialPlayers(): (ps: seq<Player>)
    ensures |ps| == 2 && ps[0].color == White && ps[1].color == Black
    ensures forall k :: 0 <= k < 2 ==> ps[k].wins == 0 && ps[k].draws == 0
  {
    [Player(White, 0.0, 0, 0), Player(Black, 1.0, 0, 0)]
  }

  function Other(c: Color): Color
  {
    if c == White then Black else White
  }

  /** The text that names player `k` (0 or 1) as the winner. */
  function PlayerLabel(k: nat): string
    requires k < 2
  {
    if k == 0 then "Player 1" else "Player 2"
  }

  /** The scoring rule. The result is decided by the player's index: on checkmate with
      white to move, the second record gains a win; with black to move, the first. */
  function GetWinner(status: EngineStatus, players: seq<Player>): (v: Verdict)
    requires |players| == 2
    ensures |v.players| == 2
    ensures forall k :: 0 <= k < 2 ==>
              v.players[k].color == players[k].color &&
              v.players[k].temperature == players[k].temperature
    ensures forall k :: 0 <= k < 2 ==>
              v.players[k].wins >= players[k].wins && v.players[k].draws >= players[k].draws
  {
    var p1, p2 := players[0], players[1];
    if status.checkmate then
      if status.turn == White then Verdict([p1, p2.(wins := p2.wins + 1)], "Player 2")
      else Verdict([p1.(wins := p1.wins + 1), p2], "Player 1")
    else if status.draw then
      Verdict([p1.(draws := p1.draws + 1), p2.(draws := p2.draws + 1)], "Draw")
    else
      Verdict([p1, p2], "No Winner")
  }

  /** Total wins and total draws over both records. */
  function TotalWins(ps: seq<Player>): nat
    requires |ps| == 2
  {
    ps[0].wins + ps[1].wins
  }

  function TotalDraws(ps: seq<Player>): nat
    requires |ps| == 2
  {
    ps[0].draws + ps[1].draws
  }

  /** On checkmate the side that is not to move gains exactly one win, the other record
      is unchanged, no draw is counted, and the winner text names that player. */
  lemma CheckmateGivesOneWin(status: EngineStatus, players: seq<Player>)
    requires |players| == 2 && status.checkmate
    ensures var v := GetWinner(status, players);
            var w := if status.turn == White then 1 else 0;
            v.players[w] == players[w].(wins := players[w].wins + 1) &&
            v.players[1 - w] == players[1 - w] &&
            v.winner == PlayerLabel(w) &&
            TotalWins(v.players) == TotalWins(players) + 1 &&
            TotalDraws(v.players) == TotalDraws(players)
  {
  }

  /** A draw that is not a checkmate gives both records one more draw and no win. */
  lemma DrawGivesBothADraw(status: EngineStatus, players: seq<Player>)
    requires |players| == 2 && !status.checkmate && status.draw
    ensures var v := GetWinner(status, players);
            (forall k :: 0 <= k < 2 ==> v.players[k] == players[k].(draws := players[k].draws + 1)) &&
            v.winner == "Draw" &&
            TotalWins(v.players) == TotalWins(players)
  {
  }

  /** Neither checkmate nor draw: the records are unchanged and the winner text is "No Winner". */
  lemma NoResultChangesNothing(status: EngineStatus, players: seq<Player>)
    requires |players| == 2 && !status.checkmate && !status.draw
    ensures GetWinner(status, players) == Verdict(players, "No Winner")
  {
  }

  /** With the records in their fixed colour order (white first), the index-based rule agrees
      with the rule stated by colour: the player whose colour is NOT the side to move wins. */
  lemma CheckmateWinnerIsTheSideNotToMove(status: EngineStatus, players: seq<Player>)
    requires |players| == 2 && players[0].color == White && players[1].color == Black
    requires status.checkmate
    ensures var v := GetWinner(status, players);
            forall k :: 0 <= k < 2 ==>
              v.players[k].wins == players[k].wins + (if players[k].color == Other(status.turn) then 1 else 0) &&
              v.players[k].draws == players[k].draws &&
              (players[k].color == Other(status.turn) <==> v.winner == PlayerLabel(k))
  {
  }

  /** The winner text alone tells which way the scores moved. */
  lemma LabelDeterminesScoreChange(status: EngineStatus, players: seq<Player>)
    requires |players| == 2
    ensures var v := GetWinner(status, players);
            (v.winner == "Draw" <==> TotalDraws(v.players) == TotalDraws(players) + 2) &&
            (v.winner == "No Winner" <==> v.players == players) &&
            (v.winner in {"Player 1", "Player 2"} <==> TotalWins(v.players) == TotalWins(players) + 1)
  {
  }
}
