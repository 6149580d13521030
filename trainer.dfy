/** The game-record side of the trainer (ia/trainer.py): `set_winner`, which
    turns the mover tag of each example into the game's outcome for that
    side, and the line-by-line record parser of `_raw_to_examples`, the
    reader of what `Game.dumps` writes. The features and the policy target
    of an example are not computed here: an example records what they are
    computed from (the side, the round, the augmentation flag and the move). */
module Training {
  import opened Utils
  import opened Actions
  import opened Text
  import opened Games

  /** The third field of an example: the mover's colour until `set_winner`
      replaces it by the outcome. */
  datatype Label = Mover(c: Color) | Outcome(v: int)

  /** `[features, policy, label]`: the features are those of the board for
      `view` at `round` (mirrored when `augmented`), the policy that of
      `move` for the same side and flag. */
  datatype Example = Example(view: Color, round: int, augmented: bool, move: Move, tag: Label)

  /** The example with its label replaced by the outcome for `winner`: 1 for
      an example tagged with the winner's colour, -1 for any other. */
  function Relabel(e: Example, winner: Color): Example
  {
    e.(tag := Outcome(if e.tag == Mover(winner) then 1 else -1))
  }

  /** What `set_winner` makes of a list of examples: the same examples, each
      labelled 1 exactly when it was tagged with the winner, -1 otherwise. */
  function Labelled(examples: seq<Example>, winner: Color): (r: seq<Example>)
    ensures |r| == |examples|
    ensures forall i :: 0 <= i < |r| ==>
      r[i].view == examples[i].view && r[i].round == examples[i].round &&
      r[i].augmented == examples[i].augmented && r[i].move == examples[i].move
    ensures forall i :: 0 <= i < |r| ==> r[i].tag.Outcome? && (r[i].tag.v == 1 || r[i].tag.v == -1)
    ensures forall i :: 0 <= i < |r| ==> (r[i].tag == Outcome(1) <==> examples[i].tag == Mover(winner))
  {
    seq(|examples|, i requires 0 <= i < |examples| => Relabel(examples[i], winner))
  }

  /** `set_winner`: relabel every example in place. */
  method SetWinner(examples: array<Example>, winner: Color)
    modifies examples
    ensures examples[..] == Labelled(old(examples[..]), winner)
  {
    for i := 0 to examples.Length
      invariant examples[..i] == Labelled(old(examples[..]), winner)[..i]
      invariant examples[i..] == old(examples[..])[i..]
    {
      assert examples[i] == old(examples[..])[i];
      examples[i] := Relabel(examples[i], winner);
      assert examples[..i + 1] == examples[..i] + [examples[i]];
    }
  }

  /** How often the collected examples are handed to training: every
      30000 games. */
  const GamesPerTraining: nat := 30000

  /** The state of the record parser between two lines: the game number,
      the examples of finished games, the batches already handed to
      training, the two layout tags once read, whose move comes next, the
      round, and the examples of the game being read. */
  datatype Parser = Parser(
    gameNumber: nat,
    all: seq<Example>,
    trained: seq<seq<Example>>,
    blue: Option<string>,
    red: Option<string>,
    isBlue: bool,
    round: int,
    examples: seq<Example>)

  /** The state before the first line. */
  const Start: Parser := Parser(1, [], [], None, None, true, 0, [])

  /** The winner of a record: the side that is not to move. */
  function RecordWinner(isBlue: bool): Color
  {
    if isBlue then Red else Blue
  }

  /** The two examples of a move line: BLUE's plain then mirrored view, RED's
      mirrored then plain view, all tagged with the mover. */
  function MovePair(mover: Color, round: int, m: Move): seq<Example>
  {
    if mover == Blue then [Example(Blue, round, false, m, Mover(Blue)), Example(Blue, round, true, m, Mover(Blue))]
    else [Example(Red, round, true, m, Mover(Red)), Example(Red, round, false, m, Mover(Red))]
  }

  /** `int(c)` of a single character: its digit, or a `ValueError`. */
  function DigitOf(c: char): Result<int>
  {
    if IsDigit(c) then Ok(DigitValue(c)) else Err("ValueError")
  }

  /** The move of a stripped, non-blank record line: "XXXX" is a pass;
      otherwise `Action(int(line[0]), ..., int(line[3]))`, where the first
      character that is missing raises an `IndexError` and the first that is
      not a digit a `ValueError`; characters after the fourth are ignored. */
  function MoveOfLine(line: string): Result<Move>
  {
    if line == Pass then Ok(None)
    else if |line| < 1 then Err("IndexError")
    else if DigitOf(line[0]).Err? then Err("ValueError")
    else if |line| < 2 then Err("IndexError")
    else if DigitOf(line[1]).Err? then Err("ValueError")
    else if |line| < 3 then Err("IndexError")
    else if DigitOf(line[2]).Err? then Err("ValueError")
    else if |line| < 4 then Err("IndexError")
    else if DigitOf(line[3]).Err? then Err("ValueError")
    else Ok(Some(Action(DigitValue(line[0]), DigitValue(line[1]), DigitValue(line[2]), DigitValue(line[3]))))
  }

  /** A blank line: the examples of the game are labelled with its winner
      and added to the collection, the per-game state is reset and the game
      number counted; every `GamesPerTraining` games the collection is
      handed to training and emptied. */
  function CloseGame(p: Parser): Parser
  {
    var all := p.all + Labelled(p.examples, RecordWinner(p.isBlue));
    var n := p.gameNumber + 1;
    if n % GamesPerTraining == 0 then Parser(n, [], p.trained + [all], None, None, true, 0, [])
    else Parser(n, all, p.trained, None, None, true, 0, [])
  }

  /** One line of the record, read once it is stripped of surrounding
      whitespace. */
  function Feed(p: Parser, line: string): Result<Parser>
  {
    Step(p, Strip(line))
  }

  /** A stripped line: a blank line closes the game, the first two others
      are the layout tags, every later one a move. */
  function Step(p: Parser, t: string): Result<Parser>
  {
    if t == "" then Ok(CloseGame(p))
    else if p.blue.None? then Ok(p.(blue := Some(t)))
    else if p.red.None? then Ok(p.(red := Some(t)))
    else
      match MoveOfLine(t)
      case Err(e) => Err(e)
      case Ok(m) =>
        var mover := if p.isBlue then Blue else Red;
        Ok(p.(examples := p.examples + MovePair(mover, p.round, m), round := p.round + 1, isBlue := !p.isBlue))
  }

  /** The state after a sequence of lines, or the error of the first line
      that raises one. */
  function Run(lines: seq<string>): Result<Parser>
  {
    if |lines| == 0 then Ok(Start)
    else
      match Run(lines[..|lines| - 1])
      case Err(e) => Err(e)
      case Ok(p) => Feed(p, lines[|lines| - 1])
  }

  /** What `_raw_to_examples` produces: the batches handed to training on
      the way, and the examples it returns. */
  datatype Parsed = Parsed(trained: seq<seq<Example>>, examples: seq<Example>)

  /** The end of the input closes the last game like a blank line, without
      the reset or the training. */
  function Parse(lines: seq<string>): Result<Parsed>
  {
    match Run(lines)
    case Err(e) => Err(e)
    case Ok(p) => Ok(Parsed(p.trained, p.all + Labelled(p.examples, RecordWinner(p.isBlue))))
  }

  /** `_raw_to_examples` over the lines of a record file; its local
      variables are gathered in one `Parser` value. */
  method RawToExamples(lines: seq<string>) returns (r: Result<Parsed>)
    ensures r == Parse(lines)
  {
    var state := Start;
    for i := 0 to |lines|
      invariant Run(lines[..i]) == Ok(state)
    {
      var next := ReadLine(state, Strip(lines[i]));
      assert Run(lines[..i + 1]) == next by {
        TakeOneMore(lines, i);
        RunSnoc(lines[..i], lines[i]);
      }
      if next.Err? {
        ErrorStops(lines, i + 1);
        return Err(next.error);
      }
      state := next.value;
    }
    assert Parse(lines) == Ok(Parsed(state.trained, state.all + Labelled(state.examples, RecordWinner(state.isBlue)))) by {
      assert lines[..|lines|] == lines;
    }
    var labelled := LabelGame(state.examples, RecordWinner(state.isBlue));
    r := Ok(Parsed(state.trained, state.all + labelled));
  }

  /** The body of the loop of `_raw_to_examples`: one line of the file,
      once stripped. */
  method ReadLine(p: Parser, line: string) returns (r: Result<Parser>)
    ensures r == Step(p, line)
  {
    if line == "" {
      var labelled := LabelGame(p.examples, RecordWinner(p.isBlue));
      var all := p.all + labelled;
      var gameNumber := p.gameNumber + 1;
      if gameNumber % GamesPerTraining == 0 {
        r := Ok(Parser(gameNumber, [], p.trained + [all], None, None, true, 0, []));
      } else {
        r := Ok(Parser(gameNumber, all, p.trained, None, None, true, 0, []));
      }
    } else if p.blue.None? {
      r := Ok(p.(blue := Some(line)));
    } else if p.red.None? {
      r := Ok(p.(red := Some(line)));
    } else {
      var m := MoveOfLine(line);
      if m.Err? {
        return Err(m.error);
      }
      var mover := if p.isBlue then Blue else Red;
      r := Ok(p.(examples := p.examples + MovePair(mover, p.round, m.value), round := p.round + 1, isBlue := !p.isBlue));
    }
  }

  /** The examples of a game, labelled by `set_winner` on a copy. */
  method LabelGame(examples: seq<Example>, winner: Color) returns (r: seq<Example>)
    ensures r == Labelled(examples, winner)
  {
    var buffer := new Example[|examples|](i requires 0 <= i < |examples| => examples[i]);
    assert buffer[..] == examples;
    SetWinner(buffer, winner);
    r := buffer[..];
  }

  // ------------------------------------------------------------ properties

  /** A record line written for a move reads back as that move. */
  lemma MoveLineRoundTrip(m: Move)
    requires m.Some? ==> OnBoard(m.value)
    ensures Strip(MoveText(m)) == MoveText(m) && MoveText(m) != ""
    ensures MoveOfLine(MoveText(m)) == Ok(m)
  {
    var t := MoveText(m);
    StripTrimmed(t);
    match m
    case None =>
      assert t == Pass;
      PassRead();
      assert MoveOfLine(t) == Ok(None);
    case Some(a) =>
      assert t == [DigitChar(a.xFrom), DigitChar(a.yFrom), DigitChar(a.xTo), DigitChar(a.yTo)];
      assert t[0] != Pass[0];
      DigitsRead(t, a);
      assert MoveOfLine(t) == Ok(Some(a));
      assert MoveOfLine(MoveText(m)) == Ok(m);
  }

  lemma PassRead()
    ensures MoveOfLine(Pass) == Ok(None)
  {
  }

  /** Four digits read back as the action they spell. */
  lemma DigitsRead(t: string, a: Action)
    requires t != Pass && |t| == 4
    requires forall i :: 0 <= i < 4 ==> IsDigit(t[i])
    requires DigitValue(t[0]) == a.xFrom && DigitValue(t[1]) == a.yFrom
    requires DigitValue(t[2]) == a.xTo && DigitValue(t[3]) == a.yTo
    ensures MoveOfLine(t) == Ok(Some(a))
  {
    assert DigitOf(t[0]).Ok? && DigitOf(t[1]).Ok? && DigitOf(t[2]).Ok? && DigitOf(t[3]).Ok?;
  }

  /** The examples a game's moves give, from BLUE's first move on: two per
      move, tagged with the mover, the round counting the moves. */
  function GameExamples(moves: seq<Move>): (r: seq<Example>)
    ensures |r| == 2 * |moves|
  {
    if |moves| == 0 then []
    else
      var n := |moves| - 1;
      GameExamples(moves[..n]) + MovePair(if n % 2 == 0 then Blue else Red, n, moves[n])
  }

  /** Feeding one more line is feeding it to the state the earlier lines
      left, unless they already raised. */
  lemma RunSnoc(lines: seq<string>, line: string)
    ensures Run(lines + [line]) ==
      match Run(lines)
      case Err(e) => Err(e)
      case Ok(p) => Feed(p, line)
  {
    TakeAppend(lines, [line]);
  }

  /** Once a line raises, the rest of the input is not read: the whole run
      fails with that error. */
  lemma {:induction false} ErrorStops(lines: seq<string>, k: nat)
    requires k <= |lines| && Run(lines[..k]).Err?
    ensures Run(lines) == Run(lines[..k])
    decreases |lines| - k
  {
    if k == |lines| {
      assert lines[..k] == lines;
    } else {
      TakeOneMore(lines, k);
      RunSnoc(lines[..k], lines[k]);
      ErrorStops(lines, k + 1);
    }
  }

  /** The first two non-blank lines of a record are the layout tags. */
  lemma ReadTags(blueTag: string, redTag: string)
    requires Strip(blueTag) == blueTag != "" && Strip(redTag) == redTag != ""
    ensures Run([blueTag, redTag]) == Ok(Start.(blue := Some(blueTag), red := Some(redTag)))
  {
    RunSnoc([], blueTag);
    assert [] + [blueTag] == [blueTag];
    RunSnoc([blueTag], redTag);
    assert [blueTag] + [redTag] == [blueTag, redTag];
  }

  /** One more move hands the turn to the other side. */
  lemma ParityStep(n: nat)
    ensures ((n + 1) % 2 == 0) == !(n % 2 == 0)
  {
  }

  lemma GameExamplesSnoc(moves: seq<Move>)
    requires |moves| > 0
    ensures var n := |moves| - 1;
      GameExamples(moves) == GameExamples(moves[..n]) + MovePair(if n % 2 == 0 then Blue else Red, n, moves[n])
  {
  }

  /** A move line read after the tags adds the move's two examples for the
      side to move and passes the turn. */
  lemma FeedMove(p: Parser, m: Move)
    requires p.blue.Some? && p.red.Some?
    requires m.Some? ==> OnBoard(m.value)
    ensures Feed(p, MoveText(m)) ==
      Ok(p.(examples := p.examples + MovePair(if p.isBlue then Blue else Red, p.round, m),
            round := p.round + 1, isBlue := !p.isBlue))
  {
    MoveLineRoundTrip(m);
    StepMove(p, MoveText(m), m);
  }

  /** A line that reads as a move, fed after both tags. */
  lemma StepMove(p: Parser, t: string, m: Move)
    requires p.blue.Some? && p.red.Some?
    requires t != "" && MoveOfLine(t) == Ok(m)
    ensures Step(p, t) ==
      Ok(p.(examples := p.examples + MovePair(if p.isBlue then Blue else Red, p.round, m),
            round := p.round + 1, isBlue := !p.isBlue))
  {
  }

  /** Reading the move lines of a game once its two tags are in: the state
      after them holds the side to move and the round after those moves, and
      their examples. */
  lemma {:induction false} ReadMoves(lines: seq<string>, p: Parser, moves: seq<Move>)
    requires Run(lines) == Ok(p)
    requires p.blue.Some? && p.red.Some? && p.isBlue && p.round == 0 && p.examples == []
    requires AllOnBoard(moves)
    ensures Run(lines + MoveLines(moves)) ==
      Ok(p.(isBlue := |moves| % 2 == 0, round := |moves|, examples := GameExamples(moves)))
    decreases |moves|
  {
    if |moves| == 0 {
      assert lines + MoveLines(moves) == lines;
    } else {
      var n := |moves| - 1;
      assert AllOnBoard(moves[..n]);
      ReadMoves(lines, p, moves[..n]);
      var q := p.(isBlue := n % 2 == 0, round := n, examples := GameExamples(moves[..n]));
      assert Run(lines + MoveLines(moves)) == Feed(q, MoveText(moves[n])) by {
        var prefix := lines + MoveLines(moves[..n]);
        assert MoveLines(moves) == MoveLines(moves[..n]) + [MoveText(moves[n])];
        AppendAssoc(lines, MoveLines(moves[..n]), [MoveText(moves[n])]);
        RunSnoc(prefix, MoveText(moves[n]));
      }
      FeedMove(q, moves[n]);
      assert GameExamples(moves) == q.examples + MovePair(if q.isBlue then Blue else Red, n, moves[n]) by {
        GameExamplesSnoc(moves);
      }
      assert (|moves| % 2 == 0) == !q.isBlue by {
        ParityStep(n);
      }
    }
  }

  /** `Game.dumps` read back: for a game that started from the layout tags
      with BLUE to move and stands at `c` to move after its moves, parsing
      the record yields the examples of its moves (with the extra pass when
      the winner is to move), labelled with the winner the record was
      written for. */
  lemma DumpsRoundTrip(blueTag: string, redTag: string, moves: seq<Move>, c: Color, winner: Color)
    requires Strip(blueTag) == blueTag != "" && Strip(redTag) == redTag != ""
    requires AllOnBoard(moves)
    requires c == (if |moves| % 2 == 0 then Blue else Red)
    ensures var played := moves + (if winner == c then [None] else []);
      Parse(RecordLines(None, blueTag, redTag, moves, winner == c)) ==
      Ok(Parsed([], Labelled(GameExamples(played), winner)))
  {
    var played := moves + (if winner == c then [None] else []);
    assert AllOnBoard(played);
    var lines := [blueTag, redTag] + MoveLines(played);
    assert RecordLines(None, blueTag, redTag, moves, winner == c) == lines by {
      if winner == c {
        TakeAppend(moves, [None]);
        assert MoveLines(played) == MoveLines(moves) + [Pass];
        AppendAssoc([blueTag, redTag], MoveLines(moves), [Pass]);
      } else {
        AppendEmpty(moves);
        AppendEmpty([blueTag, redTag] + MoveLines(moves));
      }
    }
    var p := Start.(blue := Some(blueTag), red := Some(redTag), isBlue := |played| % 2 == 0,
      round := |played|, examples := GameExamples(played));
    assert Run(lines) == Ok(p) by {
      ReadTags(blueTag, redTag);
      ReadMoves([blueTag, redTag], Start.(blue := Some(blueTag), red := Some(redTag)), played);
    }
    assert RecordWinner(p.isBlue) == winner by {
      if winner == c {
        ParityStep(|moves|);
      }
    }
    assert Parse(lines) == Ok(Parsed([], Labelled(GameExamples(played), winner))) by {
      AppendEmpty(Labelled(GameExamples(played), winner));
    }
  }

  /** A blank line ends the game: the side not to move is the winner, the
      game's examples join the collection (or the batch handed to training)
      labelled for that winner, and the next line starts a new game. */
  lemma BlankLineClosesGame(p: Parser, line: string)
    requires Strip(line) == ""
    ensures Feed(p, line).Ok?
    ensures var q := Feed(p, line).value;
      q.blue.None? && q.red.None? && q.isBlue && q.round == 0 && q.examples == [] &&
      q.gameNumber == p.gameNumber + 1 &&
      (if q.gameNumber % GamesPerTraining == 0
       then q.all == [] && q.trained == p.trained + [p.all + Labelled(p.examples, if p.isBlue then Red else Blue)]
       else q.trained == p.trained && q.all == p.all + Labelled(p.examples, if p.isBlue then Red else Blue))
  {
  }
}
