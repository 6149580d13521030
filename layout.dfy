/** The starting layout built by `Board.__init__` (janggi/board.py) and the
    per-colour piece lists `_initialise_pieces_per_color` derives from it. */
module Layout {
  import opened Utils
  import opened Positions

  /** The 32 piece objects in the order `_initialize_pieces` creates them:
      soldiers (BLUE then RED), cannons, generals, chariots, elephants,
      horses, guards. */
  function StartPiece(i: nat): (p: Piece)
    requires i < 32
    ensures p.alive
  {
    if i < 5 then Piece(Soldier, Blue, 3, 2 * i, true)
    else if i < 10 then Piece(Soldier, Red, 6, 2 * (i - 5), true)
    else if i == 10 then Piece(Cannon, Blue, 2, 1, true)
    else if i == 11 then Piece(Cannon, Blue, 2, 7, true)
    else if i == 12 then Piece(Cannon, Red, 7, 1, true)
    else if i == 13 then Piece(Cannon, Red, 7, 7, true)
    else if i == 14 then Piece(General, Blue, 1, 4, true)
    else if i == 15 then Piece(General, Red, 8, 4, true)
    else if i == 16 then Piece(Chariot, Blue, 0, 0, true)
    else if i == 17 then Piece(Chariot, Blue, 0, 8, true)
    else if i == 18 then Piece(Chariot, Red, 9, 0, true)
    else if i == 19 then Piece(Chariot, Red, 9, 8, true)
    else if i == 20 then Piece(Elephant, Blue, 0, 1, true)
    else if i == 21 then Piece(Elephant, Blue, 0, 7, true)
    else if i == 22 then Piece(Elephant, Red, 9, 1, true)
    else if i == 23 then Piece(Elephant, Red, 9, 7, true)
    else if i == 24 then Piece(Horse, Blue, 0, 2, true)
    else if i == 25 then Piece(Horse, Blue, 0, 6, true)
    else if i == 26 then Piece(Horse, Red, 9, 2, true)
    else if i == 27 then Piece(Horse, Red, 9, 6, true)
    else if i == 28 then Piece(Guard, Blue, 0, 3, true)
    else if i == 29 then Piece(Guard, Blue, 0, 5, true)
    else if i == 30 then Piece(Guard, Red, 9, 3, true)
    else Piece(Guard, Red, 9, 5, true)
  }

  /** The grid cell each `self.board[x][y] = ...` assignment fills. */
  function StartCell(x: int, y: int): Option<PieceId>
  {
    if x == 3 then (if 0 <= y < Width && y % 2 == 0 then Some(y / 2) else None)
    else if x == 6 then (if 0 <= y < Width && y % 2 == 0 then Some(5 + y / 2) else None)
    else if x == 2 then (if y == 1 then Some(10) else if y == 7 then Some(11) else None)
    else if x == 7 then (if y == 1 then Some(12) else if y == 7 then Some(13) else None)
    else if x == 1 then (if y == 4 then Some(14) else None)
    else if x == 8 then (if y == 4 then Some(15) else None)
    else if x == 0 then BackRow(y, 16, 17, 20, 21, 24, 25, 28, 29)
    else if x == 9 then BackRow(y, 18, 19, 22, 23, 26, 27, 30, 31)
    else None
  }

  /** A back row: chariots, elephants, horses and guards from the edges in. */
  function BackRow(y: int, c1: nat, c2: nat, e1: nat, e2: nat, h1: nat, h2: nat, g1: nat, g2: nat): Option<PieceId>
  {
    if y == 0 then Some(c1) else if y == 8 then Some(c2)
    else if y == 1 then Some(e1) else if y == 7 then Some(e2)
    else if y == 2 then Some(h1) else if y == 6 then Some(h2)
    else if y == 3 then Some(g1) else if y == 5 then Some(g2)
    else None
  }

  /** A grid and an arena hold the starting layout, cell by cell and piece
      by piece. */
  ghost predicate IsStartLayout(grid: seq<seq<Option<PieceId>>>, pieces: seq<Piece>)
  {
    && |grid| == Height && (forall x :: 0 <= x < Height ==> |grid[x]| == Width)
    && (forall x, y :: IsIn(x, y) ==> grid[x][y] == StartCell(x, y))
    && |pieces| == 32 && (forall i :: 0 <= i < 32 ==> pieces[i] == StartPiece(i))
  }

  /** `_initialize_pieces`: every piece object created on its square. */
  method InitializePieces() returns (grid: seq<seq<Option<PieceId>>>, pieces: seq<Piece>)
    ensures IsStartLayout(grid, pieces)
  {
    grid := seq(Height, x => seq(Width, y => StartCell(x, y)));
    pieces := seq(32, i requires 0 <= i < 32 => StartPiece(i));
  }

  /** A starting cell that is occupied holds the piece whose coordinates are
      that cell. */
  lemma StartCellPlaced(x: int, y: int)
    requires IsIn(x, y) && StartCell(x, y).Some?
    ensures StartCell(x, y).value < 32
    ensures StartPiece(StartCell(x, y).value).x == x && StartPiece(StartCell(x, y).value).y == y
  {
  }

  /** Each starting piece stands on the board, on the cell that refers to
      it, in its own half: BLUE in rows 0-3 and RED in rows 6-9. */
  lemma StartPiecePlaced(i: nat)
    requires i < 32
    ensures IsIn(StartPiece(i).x, StartPiece(i).y) && StartCell(StartPiece(i).x, StartPiece(i).y) == Some(i)
    ensures StartPiece(i).color == Blue ==> 0 <= StartPiece(i).x <= 3
    ensures StartPiece(i).color == Red ==> 6 <= StartPiece(i).x <= 9
  {
  }

  /** The grid and the piece coordinates of the starting layout agree, and
      each side starts in its own half. */
  lemma StartConsistent()
    ensures forall x, y :: IsIn(x, y) && StartCell(x, y).Some? ==>
      StartCell(x, y).value < 32 && StartPiece(StartCell(x, y).value).x == x && StartPiece(StartCell(x, y).value).y == y
    ensures forall i :: 0 <= i < 32 ==>
      IsIn(StartPiece(i).x, StartPiece(i).y) && StartCell(StartPiece(i).x, StartPiece(i).y) == Some(i)
    ensures forall i :: 0 <= i < 32 ==>
      (StartPiece(i).color == Blue ==> 0 <= StartPiece(i).x <= 3) && (StartPiece(i).color == Red ==> 6 <= StartPiece(i).x <= 9)
  {
    forall x, y | IsIn(x, y) && StartCell(x, y).Some?
      ensures StartCell(x, y).value < 32 && StartPiece(StartCell(x, y).value).x == x && StartPiece(StartCell(x, y).value).y == y
    {
      StartCellPlaced(x, y);
    }
    forall i | 0 <= i < 32
      ensures IsIn(StartPiece(i).x, StartPiece(i).y) && StartCell(StartPiece(i).x, StartPiece(i).y) == Some(i)
      ensures (StartPiece(i).color == Blue ==> 0 <= StartPiece(i).x <= 3) && (StartPiece(i).color == Red ==> 6 <= StartPiece(i).x <= 9)
    {
      StartPiecePlaced(i);
    }
  }

  /** The starting grid and piece objects form a well-formed position
      whatever the lists, provided neither repeats a piece: references agree
      with coordinates both ways and the two general references point at the
      generals. */
  lemma StartWellFormed(grid: seq<seq<Option<PieceId>>>, pieces: seq<Piece>, blue: seq<PieceId>, red: seq<PieceId>,
                        blueGeneral: PieceId, redGeneral: PieceId)
    requires IsStartLayout(grid, pieces)
    requires forall i :: 0 <= i < |blue| ==> blue[i] < 32 && StartPiece(blue[i]).color == Blue
    requires forall i :: 0 <= i < |red| ==> red[i] < 32 && StartPiece(red[i]).color == Red
    requires Distinct(blue) && Distinct(red)
    requires blueGeneral < 32 && StartPiece(blueGeneral).kind == General && StartPiece(blueGeneral).color == Blue
    requires redGeneral < 32 && StartPiece(redGeneral).kind == General && StartPiece(redGeneral).color == Red
    ensures WellFormed(Position(grid, pieces, blue, red, blueGeneral, redGeneral))
  {
    StartConsistent();
    var pos := Position(grid, pieces, blue, red, blueGeneral, redGeneral);
    assert Shaped(pos);
  }
}
