/** `Game` (janggi/game.py): the board, the side to move, the round counter
    and the moves played, with the end-of-game, reward and winner rules, the
    text record written by `dumps`, and the FEN and UCI/USI string arithmetic
    of `from_fen` and `from_uci_usi`. */
module Games {
  import opened Utils
  import opened Actions
  import opened Positions
  import opened Rules
  import opened BoardStates
  import opened Boards
  import opened Text

  // --------------------------------------------------------------- rules

  /** What `self.actions[-1]` hands to `Board.is_finished`: nothing before the
      first move or after a pass, otherwise what the last move ate. */
  function LastOf(actions: seq<Move>, captured: seq<Option<PieceId>>): LastCapture
    requires |captured| == |actions|
  {
    if |actions| == 0 || actions[|actions| - 1].None? then None else Some(captured[|captured| - 1])
  }

  /** `Game.is_finished(iter_max)`. */
  predicate GameOver(pos: Position, c: Color, last: LastCapture, round: int, iterMax: int)
    requires WellFormed(pos)
  {
    Finished(pos, c, last) || round == iterMax
  }

  /** `get_reward`: +1 when the side to move is ahead (RED also on a tie),
      -1 otherwise. */
  function Reward(pos: Position, c: Color): (r: int)
    requires WellFormed(pos)
    ensures r == 1 || r == -1
    ensures r == 1 <==> (c == Blue && Score(pos, Blue) > Score(pos, Red)) || (c == Red && Score(pos, Red) >= Score(pos, Blue))
  {
    if Score(pos, Blue) > Score(pos, Red) then (if c == Blue then 1 else -1)
    else (if c == Blue then -1 else 1)
  }

  /** `get_winner`: when the board is not finished for the side to move the
      higher score wins, RED on a tie; otherwise the other side wins. */
  function Winner(pos: Position, c: Color): (w: Color)
    requires WellFormed(pos)
    ensures Finished(pos, c, None) ==> w == c.Other()
    ensures !Finished(pos, c, None) ==> (w == Blue <==> Score(pos, Blue) > Score(pos, Red))
  {
    if !Finished(pos, c, None) then (if Score(pos, Blue) > Score(pos, Red) then Blue else Red)
    else c.Other()
  }

  /** The reward and the winner agree while the game goes on: the side to
      move is rewarded exactly when it is the winner. */
  lemma RewardMatchesWinner(pos: Position, c: Color)
    requires WellFormed(pos) && !Finished(pos, c, None)
    ensures Reward(pos, c) == 1 <==> Winner(pos, c) == c
  {
  }

  /** The positions reached by playing a sequence of moves, when each can
      be applied in turn. */
  predicate Playable(pos: Position, moves: seq<Move>)
    requires WellFormed(pos)
    decreases |moves|
  {
    |moves| == 0 || (MoveOk(pos, moves[0]) && Playable(StepMove(pos, moves[0]), moves[1..]))
  }

  function Replay(pos: Position, moves: seq<Move>): (r: Position)
    requires WellFormed(pos) && Playable(pos, moves)
    ensures WellFormed(r)
    decreases |moves|
  {
    if |moves| == 0 then pos else Replay(StepMove(pos, moves[0]), moves[1..])
  }

  /** Playing the first of a playable sequence of moves leaves the rest
      playable, towards the same final position. */
  lemma PlayStep(pos: Position, moves: seq<Move>)
    requires WellFormed(pos) && Playable(pos, moves) && |moves| > 0
    ensures MoveOk(pos, moves[0]) && WellFormed(StepMove(pos, moves[0]))
    ensures Playable(StepMove(pos, moves[0]), moves[1..])
    ensures Replay(StepMove(pos, moves[0]), moves[1..]) == Replay(pos, moves)
  {
  }

  /** The side to move after `n` moves from `c0`, one move further. */
  lemma TurnStep(c0: Color, n: nat, c: Color)
    requires c == (if n % 2 == 0 then c0 else c0.Other())
    ensures c.Other() == (if (n + 1) % 2 == 0 then c0 else c0.Other())
  {
  }

  /** A move that can be applied stands on the board. */
  lemma MoveOkOnBoard(moves: seq<Move>, m: Move, pos: Position)
    requires AllOnBoard(moves) && Shaped(pos) && MoveOk(pos, m)
    ensures AllOnBoard(moves + [m])
  {
  }

  lemma SplitFirst<T>(all: seq<T>, done: seq<T>, todo: seq<T>)
    requires all == done + todo && |todo| > 0
    ensures all == (done + [todo[0]]) + todo[1..]
  {
    assert todo == [todo[0]] + todo[1..];
  }

  // -------------------------------------------------------------- records

  const Pass: string := "XXXX"

  /** A record line: "XXXX" for a pass, otherwise the four coordinates as
      digits. */
  function MoveText(m: Move): (s: string)
    requires m.Some? ==> OnBoard(m.value)
    ensures |s| == 4
  {
    match m
    case None => Pass
    case Some(a) => [DigitChar(a.xFrom), DigitChar(a.yFrom), DigitChar(a.xTo), DigitChar(a.yTo)]
  }

  predicate AllOnBoard(moves: seq<Move>)
  {
    forall i :: 0 <= i < |moves| && moves[i].Some? ==> OnBoard(moves[i].value)
  }

  function MoveLines(moves: seq<Move>): (r: seq<string>)
    requires AllOnBoard(moves)
    ensures |r| == |moves|
    ensures forall i :: 0 <= i < |moves| ==> r[i] == MoveText(moves[i])
  {
    if |moves| == 0 then [] else MoveLines(moves[..|moves| - 1]) + [MoveText(moves[|moves| - 1])]
  }

  /** The lines `dumps` joins: the FEN line or the two layout tags, one line
      per move, and one more "XXXX" when the winner is the side to move. */
  function RecordLines(fen: Option<string>, startBlue: string, startRed: string, moves: seq<Move>, extra: bool): seq<string>
    requires AllOnBoard(moves)
  {
    (if fen.Some? then [fen.value] else [startBlue, startRed]) + MoveLines(moves) + (if extra then [Pass] else [])
  }

  /** `"\n".join(lines) + "\n"`. */
  function Record(lines: seq<string>): string
  {
    Join(lines, "\n") + "\n"
  }

  // ------------------------------------------------------------------ FEN

  /** `fen.replace("--", "- -").split(" ")`. */
  function Fields(s: string): seq<string>
  {
    Split(Replace(s, "--", "- -"), ' ')
  }

  /** The side to move and the round `from_fen` sets: BLUE on "w", RED
      otherwise; the round is twice the last field minus one, minus one more
      for BLUE. An error when there is no second field or the last field is
      not an integer. The round is even exactly when BLUE is to move, as in a
      game played from the start. */
  function FenTurn(fen: string): (r: Result<(Color, int)>)
    ensures r.Err? <==> |Fields(fen)| < 2 || ParseInt(Fields(fen)[|Fields(fen)| - 1]).None?
    ensures r.Ok? ==> (r.value.0 == Blue <==> Fields(fen)[1] == "w")
    ensures r.Ok? ==> r.value.1 + (if r.value.0 == Blue then 2 else 1) == 2 * ParseInt(Fields(fen)[|Fields(fen)| - 1]).value
    ensures r.Ok? ==> (r.value.0 == Blue <==> r.value.1 % 2 == 0)
  {
    var fields := Fields(fen);
    if |fields| < 2 then Err("IndexError")
    else
      var player := if fields[1] == "w" then Blue else Red;
      match ParseInt(fields[|fields| - 1])
      case None => Err("ValueError")
      case Some(n) =>
        var round := if player == Blue then n * 2 - 2 else n * 2 - 1;
        DoubledParity(n);
        Ok((player, round))
  }

  lemma DoubledParity(n: int)
    ensures (n * 2 - 2) % 2 == 0 && (n * 2 - 1) % 2 == 1
  {
    assert n * 2 - 2 == 2 * (n - 1);
  }

  /** A FEN ending in "w - - 0 1" starts at round 0 with BLUE to move. */
  lemma FenStart(board: string)
    requires ' ' !in board && '-' !in board
    ensures FenTurn(board + " w - - 0 1") == Ok((Blue, 0))
  {
    var tail := " w - - 0 1";
    NoDashPair(board, tail);
    ReplaceAbsent(board + tail, "--", "- -");
    var ws := [board, "w", "-", "-", "0", "1"];
    assert Join(ws[4..], " ") == "0 1";
    assert Join(ws[3..], " ") == "- 0 1";
    assert Join(ws[2..], " ") == "- - 0 1";
    assert Join(ws[1..], " ") == "w - - 0 1";
    assert Join(ws, " ") == board + tail;
    SplitJoin(ws, ' ');
    assert NumeralOf(1) == "1";
    ParseNumeral(1);
  }

  lemma NoDashPair(board: string, tail: string)
    requires '-' !in board && tail == " w - - 0 1"
    ensures forall i :: !OccursAt(board + tail, "--", i)
  {
    var s := board + tail;
    forall i
      ensures !OccursAt(s, "--", i)
    {
      if 0 <= i && i + 2 <= |s| {
        if i < |board| {
          assert s[i] == board[i];
        } else {
          var j := i - |board|;
          assert s[i] == tail[j] && s[i + 1] == tail[j + 1];
          assert s[i..i + 2] == [s[i], s[i + 1]];
        }
      }
    }
  }

  /** `s[i:j]` with Python's clipping of out-of-range bounds. */
  function Slice<T>(s: seq<T>, i: nat, j: nat): (r: seq<T>)
    ensures |r| <= |s|
  {
    if i >= |s| || j <= i then [] else s[i..if j <= |s| then j else |s|]
  }

  /** `from_uci_usi`: tokens 2 to 7 joined back form the FEN, tokens from 9
      on are the moves. */
  function UciUsiParts(s: string): (string, seq<string>)
  {
    var tokens := Fields(s);
    (Join(Slice(tokens, 2, 8), " "), Slice(tokens, 9, |tokens|))
  }

  /** A "position fen <six fields> moves <moves...>" command whose tokens
      hold no space and no "--" splits back into the six FEN fields, joined,
      and the moves. */
  lemma UciUsiRoundTrip(tokens: seq<string>)
    requires |tokens| >= 9
    requires forall i :: 0 <= i < |tokens| ==> ' ' !in tokens[i]
    requires forall i :: !OccursAt(Join(tokens, " "), "--", i)
    ensures UciUsiParts(Join(tokens, " ")) == (Join(tokens[2..8], " "), tokens[9..])
  {
    var s := Join(tokens, " ");
    ReplaceAbsent(s, "--", "- -");
    assert [' '] == " ";
    SplitJoin(tokens, ' ');
    assert Fields(s) == tokens;
    PartsOfFields(s, tokens);
  }

  lemma PartsOfFields(s: string, tokens: seq<string>)
    requires Fields(s) == tokens && |tokens| >= 9
    ensures UciUsiParts(s) == (Join(tokens[2..8], " "), tokens[9..])
  {
    assert Slice(tokens, 2, 8) == tokens[2..8];
    assert Slice(tokens, 9, |tokens|) == tokens[9..];
  }

  // ----------------------------------------------------------------- game

  class Game {
    const board: Board
    /** The layout tags `dumps` writes for a game without a FEN (the
        `start_blue`/`start_red` of the board the game was built with). */
    const startBlue: string
    const startRed: string
    var currentPlayer: Color
    var startingFen: Option<string>
    var round: int
    var actions: seq<Move>
    /** The `eaten` field each move of `actions` was given when applied. */
    var captured: seq<Option<PieceId>>

    ghost predicate Valid()
      reads this, board
    {
      && board.Valid()
      && |captured| == |actions|
      && AllOnBoard(actions)
    }

    /** The position on the board. */
    function Pos(): Position
      reads this, board
    {
      board.Pos()
    }

    /** `Game.__init__`: BLUE to move, round 0, no move, no FEN. */
    constructor (b: Board, blueTag: string, redTag: string)
      requires b.Valid()
      ensures Valid()
      ensures board == b && startBlue == blueTag && startRed == redTag
      ensures currentPlayer == Blue && startingFen.None? && round == 0 && actions == [] && captured == []
    {
      board, startBlue, startRed := b, blueTag, redTag;
      currentPlayer, startingFen, round := Blue, None, 0;
      actions, captured := [], [];
    }

    /** `switch_player`: the other side is to move. */
    method SwitchPlayer()
      modifies this
      ensures currentPlayer == old(currentPlayer).Other()
      ensures startingFen == old(startingFen) && round == old(round)
      ensures actions == old(actions) && captured == old(captured)
    {
      currentPlayer := currentPlayer.Other();
    }

    /** `apply_action`: record the move, carry it out on the board, hand the
        turn over, cut the cache above the new node (or start a fresh cache
        for a pass) and count the round. */
    method ApplyAction(m: Move)
      requires Valid() && MoveOk(Pos(), m)
      modifies this, board
      ensures Valid()
      ensures Pos() == StepMove(old(Pos()), m)
      ensures actions == old(actions) + [m]
      ensures captured == old(captured) + [if m.None? then None else EatenAt(old(Pos()), m.value)]
      ensures currentPlayer == old(currentPlayer).Other() && round == old(round) + 1
      ensures startingFen == old(startingFen)
    {
      MoveOkOnBoard(actions, m, Pos());
      var e := PlayOnBoard(m);
      actions, captured, round := actions + [m], captured + [e], round + 1;
      currentPlayer := currentPlayer.Other();
    }

    /** The board half of `apply_action`: the move carried out, then the
        cache cut above the new node. */
    method PlayOnBoard(m: Move) returns (e: Option<PieceId>)
      requires board.Valid() && MoveOk(board.Pos(), m)
      modifies board
      ensures board.Valid() && board.Pos() == StepMove(old(board.Pos()), m)
      ensures e == (if m.None? then None else EatenAt(old(board.Pos()), m.value))
    {
      e := board.ApplyAction(m);
      board.InvalidateActionCache(m);
    }

    /** The loop of `from_uci_usi` over the decoded moves. */
    method ApplyMoves(moves: seq<Move>)
      requires Valid() && Playable(Pos(), moves)
      modifies this, board
      ensures Valid()
      ensures Pos() == Replay(old(Pos()), moves)
      ensures actions == old(actions) + moves && round == old(round) + |moves|
      ensures currentPlayer == (if |moves| % 2 == 0 then old(currentPlayer) else old(currentPlayer).Other())
    {
      ghost var c0, a0, r0, target := currentPlayer, actions, round, Replay(Pos(), moves);
      ghost var done: seq<Move> := [];
      var todo := moves;
      while |todo| > 0
        invariant Valid() && Playable(Pos(), todo) && Replay(Pos(), todo) == target
        invariant moves == done + todo
        invariant actions == a0 + done && round == r0 + |done|
        invariant currentPlayer == (if |done| % 2 == 0 then c0 else c0.Other())
      {
        PlayStep(Pos(), todo);
        var m := todo[0];
        SplitFirst(moves, done, todo);
        TurnStep(c0, |done|, currentPlayer);
        AppendAssoc(a0, done, [m]);
        ApplyAction(m);
        done, todo := done + [m], todo[1..];
      }
    }

    /** `get_current_actions`: the legal moves of the side to move. */
    method GetCurrentActions() returns (moves: seq<Action>)
      requires Valid()
      modifies board
      ensures Valid() && Pos() == old(Pos())
      ensures moves == Legal(Pos(), currentPlayer)
      ensures board.path == old(board.path) && board.floor == old(board.floor) && board.eatenStack == old(board.eatenStack)
      ensures Extends(old(board.nodePos), board.nodePos)
    {
      moves := board.GetActions(currentPlayer, false);
    }

    /** `is_finished(iter_max)`: the board's end test for the side to move,
        given the last move when there is one, or the round limit. */
    method IsFinished(iterMax: int) returns (finished: bool)
      requires Valid()
      modifies board
      ensures Valid() && Pos() == old(Pos())
      ensures finished == GameOver(Pos(), currentPlayer, LastOf(actions, captured), round, iterMax)
      ensures board.path == old(board.path) && board.floor == old(board.floor) && board.eatenStack == old(board.eatenStack)
      ensures Extends(old(board.nodePos), board.nodePos)
    {
      var last: LastCapture := None;
      if |actions| > 0 && actions[|actions| - 1].Some? {
        last := Some(captured[|captured| - 1]);
      }
      finished := board.IsFinished(currentPlayer, last);
      finished := finished || round == iterMax;
    }

    /** `get_reward`. */
    method GetReward() returns (r: int)
      requires Valid()
      ensures r == Reward(Pos(), currentPlayer)
    {
      var blue := board.GetScore(Blue);
      var red := board.GetScore(Red);
      if blue > red {
        r := if currentPlayer == Blue then 1 else -1;
      } else {
        r := if currentPlayer == Blue then -1 else 1;
      }
    }

    /** `get_winner`. */
    method GetWinner() returns (w: Color)
      requires Valid()
      modifies board
      ensures Valid() && Pos() == old(Pos())
      ensures w == Winner(Pos(), currentPlayer)
    {
      var finished := board.IsFinished(currentPlayer, None);
      if !finished {
        var blue := board.GetScore(Blue);
        var red := board.GetScore(Red);
        w := if blue > red then Blue else Red;
      } else {
        w := currentPlayer.Other();
      }
    }

    /** `dumps`: the record of the game. */
    method Dumps() returns (s: string)
      requires Valid()
      modifies board
      ensures Valid() && Pos() == old(Pos())
      ensures s == Record(RecordLines(startingFen, startBlue, startRed, actions, Winner(Pos(), currentPlayer) == currentPlayer))
    {
      var res: seq<string> := if startingFen.Some? then [startingFen.value] else [startBlue, startRed];
      ghost var header := res;
      var i := 0;
      while i < |actions|
        invariant 0 <= i <= |actions|
        invariant res == header + MoveLines(actions[..i])
      {
        assert actions[..i + 1][..i] == actions[..i];
        res := res + [MoveText(actions[i])];
        i := i + 1;
      }
      assert actions[..i] == actions;
      var w := GetWinner();
      if w == currentPlayer {
        res := res + [Pass];
      }
      assert res == RecordLines(startingFen, startBlue, startRed, actions, w == currentPlayer);
      s := Join(res, "\n") + "\n";
    }
  }
}
