/** The board contents the piece rules read: piece kinds with their point
    values and type indices (janggi/piece.py), and the grid of piece
    references with the per-colour piece lists (janggi/board.py). */
module Positions {
  import opened Utils

  /** The seven piece classes of janggi/piece.py. */
  datatype Kind = Soldier | Cannon | General | Chariot | Elephant | Horse | Guard {
    /** `get_points`. */
    function Points(): nat
    {
      match this
      case Soldier => 2
      case Cannon => 7
      case General => 0
      case Chariot => 13
      case Elephant => 3
      case Horse => 5
      case Guard => 3
    }

    /** `get_index`: the feature-plane index of the kind. */
    function Index(): nat
    {
      match this
      case Soldier => 0
      case Cannon => 1
      case General => 2
      case Chariot => 3
      case Elephant => 4
      case Horse => 5
      case Guard => 6
    }
  }

  /** The index is a bijection between the seven kinds and 0..6. */
  lemma IndexBijective(k1: Kind, k2: Kind)
    ensures k1.Index() < 7
    ensures k1.Index() == k2.Index() <==> k1 == k2
  {
  }

  /** A `Piece` object: its coordinates and liveness are the fields the
      board updates in place. */
  datatype Piece = Piece(kind: Kind, color: Color, x: int, y: int, alive: bool)

  /** A piece is referred to by its index in the board's arena. */
  type PieceId = nat

  /** A snapshot of the fields of a `Board`: the 10 x 9 grid of optional
      piece references, the arena holding every piece object, the per-colour
      piece lists and the two general references. */
  datatype Position = Position(
    grid: seq<seq<Option<PieceId>>>,
    pieces: seq<Piece>,
    bluePieces: seq<PieceId>,
    redPieces: seq<PieceId>,
    blueGeneral: PieceId,
    redGeneral: PieceId)

  /** The grid has 10 rows of 9 cells. */
  ghost predicate Shaped(pos: Position)
  {
    |pos.grid| == Height && forall x :: 0 <= x < Height ==> |pos.grid[x]| == Width
  }

  /** `Board.get(x, y)`: the piece on a square, if any. A reference outside
      the arena never occurs in a well-formed position and reads as empty. */
  function Get(pos: Position, x: int, y: int): Option<Piece>
    requires Shaped(pos) && IsIn(x, y)
  {
    match pos.grid[x][y]
    case None => None
    case Some(id) => if id < |pos.pieces| then Some(pos.pieces[id]) else None
  }

  /** `Board.get(x, y, reverse=True)`: the square seen from the other side of
      the board (rows and columns both mirrored). */
  function GetMirrored(pos: Position, x: int, y: int, reverse: bool): (r: Option<Piece>)
    requires Shaped(pos) && IsIn(x, y)
    ensures reverse ==> r == Get(pos, Height - 1 - x, Width - 1 - y)
    ensures !reverse ==> r == Get(pos, x, y)
  {
    if reverse then Get(pos, Height - 1 - x, Width - 1 - y) else Get(pos, x, y)
  }

  /** Reading mirrored twice is reading plainly: the mirrored square is on
      the board, and mirroring it again gives back (x, y). */
  lemma MirroredInvolution(pos: Position, x: int, y: int)
    requires Shaped(pos) && IsIn(x, y)
    ensures IsIn(Height - 1 - x, Width - 1 - y)
    ensures GetMirrored(pos, Height - 1 - x, Width - 1 - y, true) == Get(pos, x, y)
    ensures GetMirrored(pos, x, y, false) == Get(pos, x, y)
  {
  }

  /** The piece list and the general reference of a colour. */
  function PiecesOf(pos: Position, c: Color): seq<PieceId>
  {
    if c == Blue then pos.bluePieces else pos.redPieces
  }

  function GeneralOf(pos: Position, c: Color): PieceId
  {
    if c == Blue then pos.blueGeneral else pos.redGeneral
  }

  /** The invariant of the board's piece bookkeeping: every grid reference
      is a live piece whose stored coordinates are that square, every live
      piece is on the grid at its coordinates, the colour lists hold pieces of
      their colour, each once, and the general references point at generals. */
  ghost predicate WellFormed(pos: Position)
  {
    && Shaped(pos)
    && (forall x, y :: IsIn(x, y) && pos.grid[x][y].Some? ==>
          var id := pos.grid[x][y].value;
          id < |pos.pieces| && pos.pieces[id].alive && pos.pieces[id].x == x && pos.pieces[id].y == y)
    && (forall id :: 0 <= id < |pos.pieces| && pos.pieces[id].alive ==>
          IsIn(pos.pieces[id].x, pos.pieces[id].y) && pos.grid[pos.pieces[id].x][pos.pieces[id].y] == Some(id))
    && (forall i :: 0 <= i < |pos.bluePieces| ==>
          pos.bluePieces[i] < |pos.pieces| && pos.pieces[pos.bluePieces[i]].color == Blue)
    && (forall i :: 0 <= i < |pos.redPieces| ==>
          pos.redPieces[i] < |pos.pieces| && pos.pieces[pos.redPieces[i]].color == Red)
    && pos.blueGeneral < |pos.pieces| && pos.pieces[pos.blueGeneral].kind == General
    && pos.pieces[pos.blueGeneral].color == Blue
    && pos.redGeneral < |pos.pieces| && pos.pieces[pos.redGeneral].kind == General
    && pos.pieces[pos.redGeneral].color == Red
    && Distinct(pos.bluePieces) && Distinct(pos.redPieces)
  }

  /** In a well-formed position the piece standing on a square is the one
      whose stored coordinates are that square. */
  lemma GetAgreesWithPieces(pos: Position, x: int, y: int)
    requires WellFormed(pos) && IsIn(x, y)
    ensures Get(pos, x, y).Some? ==> Get(pos, x, y).value.alive && Get(pos, x, y).value.x == x && Get(pos, x, y).value.y == y
  {
  }
}
