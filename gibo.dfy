/** The `.gib` record converter (data/process_gibo.py): the layout tags of
    the two sides read from a gibo header, and the moves of a gibo body
    turned into the four-digit lines that `_raw_to_examples` reads. */
module Gibo {
  import opened Utils
  import opened Actions
  import opened Text
  import opened Games
  import opened Training

  // ----------------------------------------------------------------- header

  /** `to_initial_board`: the order of the back-row horses (마) and
      elephants (상), read from the left, named by its layout tag. */
  const ToInitialBoard: map<string, string> := map[
    "마상상마" := "won",
    "상마마상" := "yang",
    "상마상마" := "gwee",
    "마상마상" := "sang"]

  /** The header keys of BLUE's and RED's setup. */
  const BluePlayer: string := "초차림"
  const RedPlayer: string := "한차림"

  /** `line.strip()[1:-1]`: the stripped line without its first and last
      characters (the brackets); empty when fewer than two are left. */
  function Inner(line: string): string
  {
    var t := Strip(line);
    if |t| < 2 then "" else t[1..|t| - 1]
  }

  /** `re.sub('"', "", s)`: every double quote removed. */
  function Unquoted(s: string): (r: string)
    ensures '"' !in r
    ensures forall c :: c in r ==> c in s
  {
    if |s| == 0 then ""
    else if s[0] == '"' then Unquoted(s[1..])
    else [s[0]] + Unquoted(s[1..])
  }

  /** The key of a header line and its value (the other words joined by a
      space, quotes removed), or `None` when nothing is left between the
      brackets. */
  function Entry(line: string): Option<(string, string)>
  {
    var words := Words(Inner(line));
    if |words| == 0 then None
    else Some((words[0], Unquoted(Join(words[1..], " "))))
  }

  /** The entries of the header lines, in order. */
  function Entries(header: seq<string>): (es: seq<Option<(string, string)>>)
    ensures |es| == |header| && forall i :: 0 <= i < |header| ==> es[i] == Entry(header[i])
  {
    seq(|header|, i requires 0 <= i < |header| => Entry(header[i]))
  }

  /** The entry sets the layout of the side keyed `key`. */
  predicate Sets(e: Option<(string, string)>, key: string)
  {
    e.Some? && e.value.0 == key
  }

  /** The entry sets a side's layout to a value the table lacks. */
  predicate Unknown(e: Option<(string, string)>)
  {
    (Sets(e, BluePlayer) || Sets(e, RedPlayer)) && e.value.1 !in ToInitialBoard
  }

  /** The layouts after one more header entry: the entry's side gets the tag
      its value names; an unknown value is a `KeyError`. */
  function ReadEntry(starts: (Option<string>, Option<string>), e: Option<(string, string)>): Result<(Option<string>, Option<string>)>
  {
    match e
    case None => Ok(starts)
    case Some((key, value)) =>
      if key == BluePlayer then
        if value in ToInitialBoard then Ok((Some(ToInitialBoard[value]), starts.1)) else Err("KeyError")
      else if key == RedPlayer then
        if value in ToInitialBoard then Ok((starts.0, Some(ToInitialBoard[value]))) else Err("KeyError")
      else Ok(starts)
  }

  /** The layouts read from a sequence of entries, or the error raised. */
  function Starts(es: seq<Option<(string, string)>>): Result<(Option<string>, Option<string>)>
  {
    if |es| == 0 then Ok((None, None))
    else
      match Starts(es[..|es| - 1])
      case Err(e) => Err(e)
      case Ok(starts) => ReadEntry(starts, es[|es| - 1])
  }

  /** What `get_blue_red_starting_pos` returns for a header, or the error it
      raises. */
  function StartingPos(header: seq<string>): Result<(Option<string>, Option<string>)>
  {
    Starts(Entries(header))
  }

  /** `get_blue_red_starting_pos`. */
  method GetBlueRedStartingPos(header: seq<string>) returns (r: Result<(Option<string>, Option<string>)>)
    ensures r == StartingPos(header)
  {
    ghost var es := Entries(header);
    var blueStart: Option<string> := None;
    var redStart: Option<string> := None;
    for i := 0 to |header|
      invariant Starts(es[..i]) == Ok((blueStart, redStart))
    {
      var entry := Entry(header[i]);
      var next := SetLayout(blueStart, redStart, entry);
      assert Starts(es[..i + 1]) == next by {
        TakeOneMore(es, i);
        assert es[i] == entry;
      }
      if next.Err? {
        ErrorEndsHeader(es, i + 1);
        return next;
      }
      blueStart, redStart := next.value.0, next.value.1;
    }
    assert es[..|header|] == es;
    r := Ok((blueStart, redStart));
  }

  /** The body of the loop of `get_blue_red_starting_pos`, once the line is
      split: the side the key names gets the layout its value names. */
  method SetLayout(blueStart: Option<string>, redStart: Option<string>, entry: Option<(string, string)>)
    returns (r: Result<(Option<string>, Option<string>)>)
    ensures r == ReadEntry((blueStart, redStart), entry)
  {
    if entry.None? {
      return Ok((blueStart, redStart));
    }
    var key := entry.value.0;
    var value := entry.value.1;
    if key == BluePlayer {
      if value !in ToInitialBoard {
        return Err("KeyError");
      }
      r := Ok((Some(ToInitialBoard[value]), redStart));
    } else if key == RedPlayer {
      if value !in ToInitialBoard {
        return Err("KeyError");
      }
      r := Ok((blueStart, Some(ToInitialBoard[value])));
    } else {
      r := Ok((blueStart, redStart));
    }
  }

  /** A `KeyError` ends the reading of the header. */
  lemma {:induction false} ErrorEndsHeader(es: seq<Option<(string, string)>>, k: nat)
    requires k <= |es| && Starts(es[..k]).Err?
    ensures Starts(es) == Starts(es[..k])
    decreases |es| - k
  {
    if k == |es| {
      assert es[..k] == es;
    } else {
      TakeOneMore(es, k);
      ErrorEndsHeader(es, k + 1);
    }
  }

  /** The layout a side has in the pair `get_blue_red_starting_pos`
      builds. */
  function LayoutOf(starts: (Option<string>, Option<string>), key: string): Option<string>
  {
    if key == BluePlayer then starts.0 else starts.1
  }

  /** Reading the header fails exactly when a setup entry names a value the
      table lacks. */
  lemma {:induction false} StartsFail(es: seq<Option<(string, string)>>)
    ensures Starts(es).Err? <==> exists i :: 0 <= i < |es| && Unknown(es[i])
    decreases |es|
  {
    if |es| > 0 {
      var n := |es| - 1;
      var init := es[..n];
      StartsFail(init);
      assert forall i :: 0 <= i < n ==> init[i] == es[i];
      if exists i :: 0 <= i < |es| && Unknown(es[i]) {
        var i :| 0 <= i < |es| && Unknown(es[i]);
        if i < n {
          assert Unknown(init[i]);
        }
      }
    }
  }

  /** Otherwise a side's layout is `None` exactly when no entry sets it, and
      is the tag named by the last entry that sets it. */
  lemma {:induction false} StartsLayout(es: seq<Option<(string, string)>>, key: string)
    requires key == BluePlayer || key == RedPlayer
    requires Starts(es).Ok?
    ensures LayoutOf(Starts(es).value, key).None? <==> forall i :: 0 <= i < |es| ==> !Sets(es[i], key)
    ensures forall i :: 0 <= i < |es| && Sets(es[i], key) ==> es[i].value.1 in ToInitialBoard
    ensures forall i :: (0 <= i < |es| && Sets(es[i], key) && forall j :: i < j < |es| ==> !Sets(es[j], key)) ==>
      LayoutOf(Starts(es).value, key) == Some(ToInitialBoard[es[i].value.1])
    decreases |es|
  {
    if |es| > 0 {
      var n := |es| - 1;
      var init := es[..n];
      assert Starts(init).Ok?;
      StartsFail(es);
      StartsLayout(init, key);
      assert forall i :: 0 <= i < n ==> init[i] == es[i];
      assert BluePlayer[0] != RedPlayer[0];
      var after := LayoutOf(Starts(es).value, key);
      if Sets(es[n], key) {
        assert after == Some(ToInitialBoard[es[n].value.1]);
      } else {
        assert after == LayoutOf(Starts(init).value, key);
      }
    }
  }

  /** The table names four distinct layouts, one per order of the pieces. */
  lemma TableLayouts()
    ensures ToInitialBoard.Values == {"won", "yang", "gwee", "sang"}
    ensures forall k1, k2 :: k1 in ToInitialBoard && k2 in ToInitialBoard && k1 != k2 ==>
      ToInitialBoard[k1] != ToInitialBoard[k2]
  {
    assert ToInitialBoard["마상상마"] == "won";
    assert ToInitialBoard["상마마상"] == "yang";
    assert ToInitialBoard["상마상마"] == "gwee";
    assert ToInitialBoard["마상마상"] == "sang";
  }

  // ------------------------------------------------------------------ moves

  /** The index of the `>` closing a `<` whose text starts at `k`: the first
      one, provided no newline comes before it (`.` does not match a
      newline). */
  function CloseAt(s: string, k: nat): (j: Option<nat>)
    ensures j.Some? ==> k <= j.value < |s| && s[j.value] == '>'
    decreases |s| - k
  {
    if k >= |s| then None
    else if s[k] == '>' then Some(k)
    else if s[k] == '\n' then None
    else CloseAt(s, k + 1)
  }

  /** `re.sub("<.*?>", "", s)`: from left to right, every `<` with a `>`
      after it on the same line starts a span that is removed up to the
      first such `>`. */
  function DropTags(s: string): (r: string)
    ensures forall c :: c in r ==> c in s
    decreases |s|
  {
    if |s| == 0 then ""
    else if s[0] == '<' && CloseAt(s, 1).Some? then DropTags(s[CloseAt(s, 1).value + 1..])
    else [s[0]] + DropTags(s[1..])
  }

  /** `re.sub("\s+", " ", s)`: every run of whitespace becomes one space. */
  function CollapseSpaces(s: string): (r: string)
    ensures forall c :: c in r ==> c in s || c == ' '
    ensures forall i :: 0 <= i < |r| - 1 ==> !(r[i] == ' ' && r[i + 1] == ' ')
    decreases |s|
  {
    if |s| == 0 then ""
    else if IsSpace(s[0]) then
      if |s| > 1 && IsSpace(s[1]) then CollapseSpaces(s[1..]) else " " + CollapseSpaces(s[1..])
    else [s[0]] + CollapseSpaces(s[1..])
  }

  /** `re.sub("[^0-9 ]", "", s)`: only the digits and spaces are kept, in
      order. */
  function KeepDigits(s: string): (r: string)
    ensures forall c :: c in r ==> IsDigit(c) || c == ' '
    ensures forall c :: c in s && (IsDigit(c) || c == ' ') ==> c in r
  {
    if |s| == 0 then ""
    else if IsDigit(s[0]) || s[0] == ' ' then [s[0]] + KeepDigits(s[1..])
    else KeepDigits(s[1..])
  }

  /** The move text of a gibo body after the four normalising steps of
      `get_moves`: only digits and spaces, with no space at either end. */
  function Normalized(raw: seq<string>): (s: string)
    ensures forall c :: c in s ==> IsDigit(c) || c == ' '
    ensures |s| == 0 || (s[0] != ' ' && s[|s| - 1] != ' ')
  {
    var t := KeepDigits(CollapseSpaces(DropTags(Strip(Join(raw, " ")))));
    StripChars(t);
    Strip(t)
  }

  /** `moves_raw.split(" ")`: the tokens, numbers and moves alternating. */
  function Tokens(raw: seq<string>): (r: seq<string>)
    ensures |r| >= 1 && DigitTokens(r)
  {
    var s := Normalized(raw);
    DigitPieces(s);
    Split(s, ' ')
  }

  /** Splitting a text of digits and spaces at the spaces leaves runs of
      digits. */
  lemma DigitPieces(s: string)
    requires forall c :: c in s ==> IsDigit(c) || c == ' '
    ensures DigitTokens(Split(s, ' '))
  {
    var r := Split(s, ' ');
    SplitChars(s, ' ');
    forall k | 0 <= k < |r|
      ensures AllDigits(r[k])
    {
      assert ' ' !in r[k];
    }
  }

  /** Gibo rows are numbered 1 to 10 with 0 for the tenth; the model's rows
      count from 0: `(d - 1) % 10`, Python's remainder being non-negative as
      Dafny's is. */
  function Row(d: int): (r: int)
    ensures 0 <= r < Height
  {
    (d - 1) % 10
  }

  /** Gibo columns are numbered 1 to 9: `(d - 1) % 9`. */
  function Col(d: int): (r: int)
    ensures 0 <= r < Width
  {
    (d - 1) % 9
  }

  predicate AllDigits(t: string)
  {
    forall c :: c in t ==> IsDigit(c)
  }

  /** The action a four-digit move token stands for. */
  function TokenAction(token: string): (a: Action)
    requires |token| == 4 && AllDigits(token)
    ensures OnBoard(a)
  {
    Action(Row(DigitValue(token[0])), Col(DigitValue(token[1])), Row(DigitValue(token[2])), Col(DigitValue(token[3])))
  }

  /** The line written for a four-digit move token. */
  function ConvertMove(token: string): string
    requires |token| == 4 && AllDigits(token)
  {
    var a := TokenAction(token);
    [DigitChar(a.xFrom), DigitChar(a.yFrom), DigitChar(a.xTo), DigitChar(a.yTo)]
  }

  /** Every token is a run of digits, as normalising makes them. */
  predicate DigitTokens(tokens: seq<string>)
  {
    forall k :: 0 <= k < |tokens| ==> AllDigits(tokens[k])
  }

  /** The line for a move token: a pass when it is empty, `None` when it is
      not four digits long (`get_moves` then returns `[]`). */
  function MoveLine(move: string): Option<string>
    requires AllDigits(move)
  {
    if move == "" then Some(Pass)
    else if |move| != 4 then None
    else Some(ConvertMove(move))
  }

  /** Lines already produced, put in front of those still to come. */
  function Glue(done: seq<string>, rest: Option<seq<string>>): Option<seq<string>>
  {
    match rest
    case None => None
    case Some(lines) => Some(done + lines)
  }

  lemma GlueStep(done: seq<string>, line: string, rest: Option<seq<string>>)
    ensures Glue(done, Glue([line], rest)) == Glue(done + [line], rest)
  {
    if rest.Some? {
      assert done + ([line] + rest.value) == done + [line] + rest.value;
    }
  }

  /** The lines for the (number, move) pairs from token `i` on, or `None`
      when a move token is bad; a token left without a partner gives a
      pass. */
  function Pairs(tokens: seq<string>, i: nat): (r: Option<seq<string>>)
    requires DigitTokens(tokens)
    decreases |tokens| - i
  {
    if i >= |tokens| then Some([])
    else if i + 1 >= |tokens| then Some([Pass])
    else
      match MoveLine(tokens[i + 1])
      case None => None
      case Some(l) => Glue([l], Pairs(tokens, i + 2))
  }

  /** What `get_moves` returns for the tokens of a gibo body. */
  function MovesOf(tokens: seq<string>): seq<string>
    requires DigitTokens(tokens)
  {
    match Pairs(tokens, 0)
    case None => []
    case Some(lines) => lines
  }

  /** What `get_moves` returns for the lines of a gibo body. */
  function Moves(raw: seq<string>): seq<string>
  {
    MovesOf(Tokens(raw))
  }

  /** `get_moves`: the text normalised and split, then the pairs loop. */
  method GetMoves(raw: seq<string>) returns (r: seq<string>)
    ensures r == Moves(raw)
  {
    var tokens := Tokens(raw);
    r := ConvertPairs(tokens);
  }

  /** The stride-2 loop of `get_moves` over the tokens. */
  method ConvertPairs(tokens: seq<string>) returns (r: seq<string>)
    requires DigitTokens(tokens)
    ensures r == MovesOf(tokens)
  {
    var res: seq<string> := [];
    var i := 0;
    assert Glue(res, Pairs(tokens, 0)) == Pairs(tokens, 0) by {
      if Pairs(tokens, 0).Some? {
        assert res + Pairs(tokens, 0).value == Pairs(tokens, 0).value;
      }
    }
    while i < |tokens|
      invariant Pairs(tokens, 0) == Glue(res, Pairs(tokens, i))
      decreases |tokens| - i
    {
      if i + 1 >= |tokens| {
        assert Pairs(tokens, i) == Glue([Pass], Pairs(tokens, i + 2)) by {
          assert [Pass] + [] == [Pass];
        }
        GlueStep(res, Pass, Pairs(tokens, i + 2));
        res := res + [Pass];
        i := i + 2;
        continue;
      }
      var move := tokens[i + 1];
      assert AllDigits(move);
      assert Pairs(tokens, i) == Glue([], None) || Pairs(tokens, i) == Glue([MoveLine(move).value], Pairs(tokens, i + 2));
      if move == "" {
        GlueStep(res, Pass, Pairs(tokens, i + 2));
        res := res + [Pass];
      } else {
        if |move| != 4 {
          return [];
        }
        GlueStep(res, ConvertMove(move), Pairs(tokens, i + 2));
        res := res + [ConvertMove(move)];
      }
      i := i + 2;
    }
    assert Pairs(tokens, i) == Some([]);
    assert res + [] == res;
    r := res;
  }

  /** A move token that is neither empty nor four digits long. */
  predicate BadMove(tokens: seq<string>, k: int)
    requires 0 <= k < |tokens|
  {
    k % 2 == 1 && tokens[k] != "" && |tokens[k]| != 4
  }

  /** From token `i` on (`i` even), the pairs are converted exactly when no
      move token is bad, and then into one line per pair, a token left
      alone at the end counting as one. */
  lemma {:induction false} PairsMeaning(tokens: seq<string>, i: nat)
    requires DigitTokens(tokens)
    requires i % 2 == 0
    ensures Pairs(tokens, i).None? <==> exists k :: i <= k < |tokens| && BadMove(tokens, k)
    ensures Pairs(tokens, i).Some? && i < |tokens| ==> |Pairs(tokens, i).value| == (|tokens| - i + 1) / 2
    decreases |tokens| - i
  {
    if i + 1 < |tokens| {
      PairsMeaning(tokens, i + 2);
      assert (i + 1) % 2 == 1 && (i + 2) % 2 == 0;
      if Pairs(tokens, i).None? && !BadMove(tokens, i + 1) {
        var k :| i + 2 <= k < |tokens| && BadMove(tokens, k);
      }
      if exists k :: i <= k < |tokens| && BadMove(tokens, k) {
        var k :| i <= k < |tokens| && BadMove(tokens, k);
        assert k != i;
        if k != i + 1 {
          assert i + 2 <= k;
        }
      }
      if Pairs(tokens, i).Some? && i + 2 < |tokens| {
        assert (|tokens| - i + 1) / 2 == (|tokens| - (i + 2) + 1) / 2 + 1;
      }
    } else if i < |tokens| {
      assert !BadMove(tokens, i);
    }
  }

  /** Every line of `Pairs` is a pass or the line of a four-digit token. */
  lemma {:induction false} PairsLines(tokens: seq<string>, i: nat)
    requires DigitTokens(tokens)
    requires Pairs(tokens, i).Some?
    ensures forall l :: l in Pairs(tokens, i).value ==>
      l == Pass || exists k :: 0 <= k < |tokens| && |tokens[k]| == 4 && l == ConvertMove(tokens[k])
    decreases |tokens| - i
  {
    if i + 1 < |tokens| {
      PairsLines(tokens, i + 2);
    }
  }

  /** The converted line of a token reads back in the trainer as the
      token's action, which lies on the board, and is the line the game
      record would write for it. */
  lemma ConvertedReads(token: string)
    requires |token| == 4 && AllDigits(token)
    ensures MoveOfLine(ConvertMove(token)) == Ok(Some(TokenAction(token)))
    ensures MoveText(Some(TokenAction(token))) == ConvertMove(token)
  {
    var a := TokenAction(token);
    var t := ConvertMove(token);
    assert t[0] != Pass[0];
    DigitsRead(t, a);
  }

  /** Every line `get_moves` produces is read by the trainer as a move on
      the board or a pass, and is the line `Game.dumps` writes for that
      move: the gibo output and the game records share one format. */
  lemma MovesReadBack(tokens: seq<string>)
    requires DigitTokens(tokens)
    ensures forall l :: l in MovesOf(tokens) ==>
      MoveOfLine(l).Ok? && (MoveOfLine(l).value.Some? ==> OnBoard(MoveOfLine(l).value.value)) &&
      MoveText(MoveOfLine(l).value) == l
  {
    if Pairs(tokens, 0).Some? {
      PairsLines(tokens, 0);
      forall l | l in MovesOf(tokens)
        ensures MoveOfLine(l).Ok? && (MoveOfLine(l).value.Some? ==> OnBoard(MoveOfLine(l).value.value)) &&
          MoveText(MoveOfLine(l).value) == l
      {
        if l == Pass {
          PassRead();
        } else {
          var k :| 0 <= k < |tokens| && |tokens[k]| == 4 && l == ConvertMove(tokens[k]);
          ConvertedReads(tokens[k]);
        }
      }
    }
  }

  /** `get_moves` gives up (returns `[]`) exactly when a move token is bad,
      and otherwise returns one line per (number, move) pair of tokens. */
  lemma MovesCount(tokens: seq<string>)
    requires DigitTokens(tokens) && |tokens| >= 1
    ensures MovesOf(tokens) == [] <==> exists k :: 0 <= k < |tokens| && BadMove(tokens, k)
    ensures MovesOf(tokens) != [] ==> |MovesOf(tokens)| == (|tokens| + 1) / 2
  {
    PairsMeaning(tokens, 0);
    assert (|tokens| + 1) / 2 >= 1;
  }

  /** A body with no move text gives a single pass. */
  lemma EmptyBodyPasses(raw: seq<string>)
    requires Normalized(raw) == ""
    ensures Moves(raw) == [Pass]
  {
    assert Tokens(raw) == [""];
    SinglePass();
  }

  lemma SinglePass()
    ensures MovesOf([""]) == [Pass]
  {
    assert Pairs([""], 0) == Some([Pass]);
  }
}
