/** The board semantics over position values (janggi/board.py): applying and
    reversing a move, the per-colour candidate moves, check, the
    check-filtered legal moves, the score, the end-of-game test, the feature
    planes and the starting layout. The `Board` class computes these by
    mutation; this module says what it computes. */
module Rules {
  import opened Utils
  import opened Actions
  import opened Positions
  import opened Pieces

  // ------------------------------------------------------- apply / reverse

  /** A move `apply_action` can carry out: on the board, not a null move,
      and starting from an occupied square. */
  predicate Applicable(pos: Position, a: Action)
    requires Shaped(pos)
  {
    OnBoard(a) && (a.xFrom != a.xTo || a.yFrom != a.yTo) && pos.grid[a.xFrom][a.yFrom].Some?
  }

  /** The piece `apply_action` stores in `action.eaten`: the previous
      occupant of the destination. */
  function EatenAt(pos: Position, a: Action): Option<PieceId>
    requires Shaped(pos) && OnBoard(a)
  {
    pos.grid[a.xTo][a.yTo]
  }

  /** Two grids agree everywhere except possibly on two squares. */
  ghost predicate SameElsewhere(g1: seq<seq<Option<PieceId>>>, g2: seq<seq<Option<PieceId>>>, a: Action)
    requires |g1| == Height && |g2| == Height
    requires forall x :: 0 <= x < Height ==> |g1[x]| == Width && |g2[x]| == Width
  {
    forall x, y :: IsIn(x, y) && !(x == a.xFrom && y == a.yFrom) && !(x == a.xTo && y == a.yTo) ==>
      g1[x][y] == g2[x][y]
  }

  function SetCell(grid: seq<seq<Option<PieceId>>>, x: int, y: int, v: Option<PieceId>): (r: seq<seq<Option<PieceId>>>)
    requires |grid| == Height && (forall i :: 0 <= i < Height ==> |grid[i]| == Width) && IsIn(x, y)
    ensures |r| == Height && (forall i :: 0 <= i < Height ==> |r[i]| == Width)
    ensures r[x][y] == v
    ensures forall i, j :: IsIn(i, j) && !(i == x && j == y) ==> r[i][j] == grid[i][j]
  {
    grid[x := grid[x][y := v]]
  }

  /** The position after the move, computed square by square and piece by
      piece. */
  function Moved(pos: Position, a: Action): Position
    requires WellFormed(pos) && Applicable(pos, a)
  {
    var id := pos.grid[a.xFrom][a.yFrom].value;
    var eaten := pos.grid[a.xTo][a.yTo];
    var moved := pos.pieces[id := pos.pieces[id].(x := a.xTo, y := a.yTo)];
    var pieces := if eaten.Some? then moved[eaten.value := moved[eaten.value].(alive := false)] else moved;
    var grid := SetCell(SetCell(pos.grid, a.xTo, a.yTo, Some(id)), a.xFrom, a.yFrom, None);
    pos.(grid := grid, pieces := pieces)
  }

  /** The moved position is well formed: the moving piece is alive on the
      destination, the eaten piece is dead and off the grid, and every
      other reference is untouched. */
  lemma MovedWellFormed(pos: Position, a: Action)
    requires WellFormed(pos) && Applicable(pos, a)
    ensures WellFormed(Moved(pos, a))
  {
    var r := Moved(pos, a);
    var id := pos.grid[a.xFrom][a.yFrom].value;
    assert Shaped(r);
    forall x, y | IsIn(x, y) && r.grid[x][y].Some?
      ensures var j := r.grid[x][y].value;
        j < |r.pieces| && r.pieces[j].alive && r.pieces[j].x == x && r.pieces[j].y == y
    {
      if x == a.xTo && y == a.yTo {
        assert r.grid[x][y] == Some(id);
      } else {
        assert r.grid[x][y] == pos.grid[x][y];
      }
    }
    forall j | 0 <= j < |r.pieces| && r.pieces[j].alive
      ensures IsIn(r.pieces[j].x, r.pieces[j].y) && r.grid[r.pieces[j].x][r.pieces[j].y] == Some(j)
    {
      if j != id {
        assert r.pieces[j] == pos.pieces[j];
      }
    }
  }

  /** `apply_action` on a real move: the moving piece goes to the
      destination and records it in its coordinates, the previous occupant of
      the destination is marked dead, the origin becomes empty and every
      other square, the lists and the generals are unchanged. */
  function Step(pos: Position, a: Action): (r: Position)
    requires WellFormed(pos) && Applicable(pos, a)
    ensures WellFormed(r) && |r.pieces| == |pos.pieces|
    ensures r.grid[a.xTo][a.yTo] == pos.grid[a.xFrom][a.yFrom] && r.grid[a.xFrom][a.yFrom].None?
    ensures var id := pos.grid[a.xFrom][a.yFrom].value;
      r.pieces[id] == pos.pieces[id].(x := a.xTo, y := a.yTo)
    ensures EatenAt(pos, a).Some? ==> r.pieces[EatenAt(pos, a).value] == pos.pieces[EatenAt(pos, a).value].(alive := false)
    ensures r.bluePieces == pos.bluePieces && r.redPieces == pos.redPieces
    ensures r.blueGeneral == pos.blueGeneral && r.redGeneral == pos.redGeneral
  {
    MovedWellFormed(pos, a);
    Moved(pos, a)
  }

  /** Nothing but the two squares of the move and the two pieces involved
      changes. */
  lemma StepElsewhere(pos: Position, a: Action)
    requires WellFormed(pos) && Applicable(pos, a)
    ensures SameElsewhere(Step(pos, a).grid, pos.grid, a)
    ensures forall i :: 0 <= i < |pos.pieces| && Some(i) != pos.grid[a.xFrom][a.yFrom] && Some(i) != EatenAt(pos, a) ==>
      Step(pos, a).pieces[i] == pos.pieces[i]
  {
  }

  /** `apply_action` on an optional move: a pass changes nothing. */
  function StepMove(pos: Position, m: Move): (r: Position)
    requires WellFormed(pos) && (m.Some? ==> Applicable(pos, m.value))
    ensures WellFormed(r)
  {
    if m.None? then pos else Step(pos, m.value)
  }

  /** What `reverse_action` needs of the position: the destination holds the
      moved piece and the recorded eaten piece is a valid reference. */
  predicate Reversible(pos: Position, a: Action, eaten: Option<PieceId>)
    requires Shaped(pos)
  {
    OnBoard(a) && pos.grid[a.xTo][a.yTo].Some? && pos.grid[a.xTo][a.yTo].value < |pos.pieces|
    && (eaten.Some? ==> eaten.value < |pos.pieces|)
  }

  /** `reverse_action`: the piece on the destination returns to the origin
      with its coordinates, and the recorded eaten piece is put back on the
      destination alive. */
  function Undo(pos: Position, a: Action, eaten: Option<PieceId>): (r: Position)
    requires Shaped(pos) && Reversible(pos, a, eaten)
    ensures Shaped(r)
  {
    var id := pos.grid[a.xTo][a.yTo].value;
    var moved := pos.pieces[id := pos.pieces[id].(x := a.xFrom, y := a.yFrom)];
    var pieces := if eaten.Some? then moved[eaten.value := moved[eaten.value].(alive := true)] else moved;
    var grid := SetCell(SetCell(pos.grid, a.xFrom, a.yFrom, Some(id)), a.xTo, a.yTo, eaten);
    pos.(grid := grid, pieces := pieces)
  }

  /** `reverse_action` directly after `apply_action` of the same move
      restores the position exactly: grid, coordinates and liveness. */
  lemma UndoStep(pos: Position, a: Action)
    requires WellFormed(pos) && Applicable(pos, a)
    ensures Reversible(Step(pos, a), a, EatenAt(pos, a))
    ensures Undo(Step(pos, a), a, EatenAt(pos, a)) == pos
  {
    var s := Step(pos, a);
    var u := Undo(s, a, EatenAt(pos, a));
    var id := pos.grid[a.xFrom][a.yFrom].value;
    assert u.pieces == pos.pieces by {
      forall i | 0 <= i < |pos.pieces|
        ensures u.pieces[i] == pos.pieces[i]
      {
      }
    }
    assert u.grid == pos.grid by {
      forall x | 0 <= x < Height
        ensures u.grid[x] == pos.grid[x]
      {
        forall y | 0 <= y < Width
          ensures u.grid[x][y] == pos.grid[x][y]
        {
        }
      }
    }
  }

  // ------------------------------------------------------------ candidates

  /** Every reference in a list is a valid arena index. */
  predicate InArena(pos: Position, ids: seq<PieceId>)
  {
    forall i :: 0 <= i < |ids| ==> ids[i] < |pos.pieces|
  }

  /** The moves of the live pieces of `ids`, in list order, leaving out the
      general when `excl` holds: the `itertools.chain` of `get_actions`. */
  function CandidatesFrom(pos: Position, ids: seq<PieceId>, excl: bool): seq<Action>
    requires WellFormed(pos) && InArena(pos, ids)
  {
    if |ids| == 0 then []
    else
      var p := pos.pieces[ids[0]];
      (if p.alive && (!excl || p.kind != General) then PieceMoves(pos, p) else [])
      + CandidatesFrom(pos, ids[1..], excl)
  }

  lemma ListsInArena(pos: Position, c: Color)
    requires WellFormed(pos)
    ensures InArena(pos, PiecesOf(pos, c))
  {
  }

  /** The pseudo-legal moves of a colour, as `get_actions` collects them. */
  function Candidates(pos: Position, c: Color, excl: bool): seq<Action>
    requires WellFormed(pos)
  {
    ListsInArena(pos, c);
    CandidatesFrom(pos, PiecesOf(pos, c), excl)
  }

  /** Every candidate is a sound move of a live piece of the list (not the
      general when `excl` holds), and so can be applied. */
  lemma {:induction false} CandidatesFromSound(pos: Position, ids: seq<PieceId>, excl: bool, a: Action)
    requires WellFormed(pos) && InArena(pos, ids) && a in CandidatesFrom(pos, ids, excl)
    ensures Applicable(pos, a)
    ensures var id := pos.grid[a.xFrom][a.yFrom].value;
      id in ids && pos.pieces[id].alive && (excl ==> pos.pieces[id].kind != General)
      && SoundMove(pos, pos.pieces[id], a)
  {
    var p := pos.pieces[ids[0]];
    if p.alive && (!excl || p.kind != General) && a in PieceMoves(pos, p) {
      PieceMovesSound(pos, p, a);
    } else {
      CandidatesFromSound(pos, ids[1..], excl, a);
    }
  }

  /** Conversely every generated move of a live piece of the list (other
      than the general when `excl` holds) is a candidate. */
  lemma {:induction false} CandidatesFromComplete(pos: Position, ids: seq<PieceId>, excl: bool, k: int, a: Action)
    requires WellFormed(pos) && InArena(pos, ids) && 0 <= k < |ids|
    requires pos.pieces[ids[k]].alive && (!excl || pos.pieces[ids[k]].kind != General)
    requires a in PieceMoves(pos, pos.pieces[ids[k]])
    ensures a in CandidatesFrom(pos, ids, excl)
  {
    if k > 0 {
      CandidatesFromComplete(pos, ids[1..], excl, k - 1, a);
    }
  }

  /** A list naming each piece once yields each candidate once: a piece's
      generator repeats no move, and the moves of different pieces start on
      different squares. */
  lemma {:induction false} CandidatesFromDistinct(pos: Position, ids: seq<PieceId>, excl: bool)
    requires WellFormed(pos) && InArena(pos, ids) && Distinct(ids)
    ensures Distinct(CandidatesFrom(pos, ids, excl))
  {
    if |ids| > 0 {
      var p := pos.pieces[ids[0]];
      var head := if p.alive && (!excl || p.kind != General) then PieceMoves(pos, p) else [];
      var rest := CandidatesFrom(pos, ids[1..], excl);
      assert forall k :: 0 <= k < |ids| - 1 ==> ids[1..][k] == ids[k + 1];
      CandidatesFromDistinct(pos, ids[1..], excl);
      if head != [] {
        PieceMovesDistinct(pos, p);
      }
      forall a | a in head
        ensures a !in rest
      {
        PieceMovesSound(pos, p, a);
        if a in rest {
          CandidatesFromSound(pos, ids[1..], excl, a);
        }
      }
      DistinctAppend(head, rest);
    }
  }

  lemma CandidatesApplicable(pos: Position, c: Color, excl: bool)
    requires WellFormed(pos)
    ensures forall a :: a in Candidates(pos, c, excl) ==> Applicable(pos, a)
  {
    forall a | a in Candidates(pos, c, excl)
      ensures Applicable(pos, a)
    {
      CandidatesFromSound(pos, PiecesOf(pos, c), excl, a);
    }
  }

  // ------------------------------------------------------ check and legal

  /** Some move lands on (x, y): the `any(...)` of `is_check`. */
  predicate Hits(actions: seq<Action>, x: int, y: int)
  {
    exists i :: 0 <= i < |actions| && actions[i].xTo == x && actions[i].yTo == y
  }

  /** The `any(...)` of `is_check`, scanning the moves in order. */
  method AnyHits(actions: seq<Action>, x: int, y: int) returns (hit: bool)
    ensures hit == Hits(actions, x, y)
  {
    var i := 0;
    while i < |actions|
      invariant 0 <= i <= |actions|
      invariant forall j :: 0 <= j < i ==> !(actions[j].xTo == x && actions[j].yTo == y)
    {
      if actions[i].xTo == x && actions[i].yTo == y {
        return true;
      }
      i := i + 1;
    }
    return false;
  }

  /** `is_check(color)`: some non-general move of the other colour lands on
      the square recorded in the colour's general. */
  predicate InCheck(pos: Position, c: Color)
    requires WellFormed(pos)
  {
    var g := pos.pieces[GeneralOf(pos, c)];
    Hits(Candidates(pos, c.Other(), true), g.x, g.y)
  }

  /** The moves of `cands` that `keep` accepts, in their order: the
      filtering loop of `get_actions`. */
  function Filter(cands: seq<Action>, keep: Action --> bool): seq<Action>
    requires forall a :: a in cands ==> keep.requires(a)
  {
    if |cands| == 0 then []
    else (if keep(cands[0]) then [cands[0]] else []) + Filter(cands[1..], keep)
  }

  /** One step of a loop that filters `cands` by `keep` into an
      accumulator. */
  lemma FilterStep(acc: seq<Action>, todo: seq<Action>, cands: seq<Action>, keep: Action --> bool, kept: bool)
    requires forall a :: a in cands ==> keep.requires(a)
    requires forall a :: a in todo ==> keep.requires(a)
    requires |todo| > 0 && kept == keep(todo[0])
    requires acc + Filter(todo, keep) == Filter(cands, keep)
    ensures (if kept then acc + [todo[0]] else acc) + Filter(todo[1..], keep) == Filter(cands, keep)
  {
    var rest := Filter(todo[1..], keep);
    if kept {
      assert Filter(todo, keep) == [todo[0]] + rest;
      assert (acc + [todo[0]]) + rest == acc + ([todo[0]] + rest);
    } else {
      assert Filter(todo, keep) == [] + rest;
      assert [] + rest == rest;
    }
  }

  lemma {:induction false} FilterExactly(cands: seq<Action>, keep: Action --> bool, a: Action)
    requires forall b :: b in cands ==> keep.requires(b)
    ensures a in Filter(cands, keep) <==> a in cands && keep(a)
  {
    if |cands| > 0 {
      FilterExactly(cands[1..], keep, a);
      assert cands == [cands[0]] + cands[1..];
    }
  }

  lemma {:induction false} FilterDistinct(cands: seq<Action>, keep: Action --> bool)
    requires forall a :: a in cands ==> keep.requires(a)
    requires Distinct(cands)
    ensures Distinct(Filter(cands, keep))
  {
    if |cands| > 0 {
      var head := if keep(cands[0]) then [cands[0]] else [];
      var rest := Filter(cands[1..], keep);
      assert forall k :: 0 <= k < |cands| - 1 ==> cands[1..][k] == cands[k + 1];
      FilterDistinct(cands[1..], keep);
      forall a | a in head
        ensures a !in rest
      {
        FilterExactly(cands[1..], keep, a);
      }
      DistinctAppend(head, rest);
    }
  }

  /** The test of the filtering loop: after the move the colour is not in
      check. */
  function SafeAfter(pos: Position, c: Color): Action --> bool
    requires WellFormed(pos)
  {
    a requires Applicable(pos, a) => !InCheck(Step(pos, a), c)
  }

  /** `get_actions(color)`: the check-filtered moves. */
  function Legal(pos: Position, c: Color): seq<Action>
    requires WellFormed(pos)
  {
    CandidatesApplicable(pos, c, false);
    Filter(Candidates(pos, c, false), SafeAfter(pos, c))
  }

  /** The legal moves are exactly the pseudo-legal moves after which the
      mover is not in check. */
  lemma LegalExactly(pos: Position, c: Color, a: Action)
    requires WellFormed(pos)
    ensures a in Legal(pos, c) <==> a in Candidates(pos, c, false) && Applicable(pos, a) && !InCheck(Step(pos, a), c)
  {
    CandidatesApplicable(pos, c, false);
    FilterExactly(Candidates(pos, c, false), SafeAfter(pos, c), a);
  }

  /** No legal move is listed twice. */
  lemma LegalDistinct(pos: Position, c: Color)
    requires WellFormed(pos)
    ensures Distinct(Legal(pos, c))
  {
    ListsInArena(pos, c);
    CandidatesFromDistinct(pos, PiecesOf(pos, c), false);
    CandidatesApplicable(pos, c, false);
    FilterDistinct(Candidates(pos, c, false), SafeAfter(pos, c));
  }

  // ----------------------------------------------------------------- score

  /** The points of the live pieces of a list. */
  function PointsFrom(pos: Position, ids: seq<PieceId>): nat
    requires InArena(pos, ids)
  {
    if |ids| == 0 then 0
    else (if pos.pieces[ids[0]].alive then pos.pieces[ids[0]].kind.Points() else 0) + PointsFrom(pos, ids[1..])
  }

  /** `get_score(color)`: the points of the colour's live pieces, plus the
      1.5 handicap for RED. */
  function Score(pos: Position, c: Color): real
    requires WellFormed(pos)
  {
    ListsInArena(pos, c);
    (if c == Blue then 0.0 else 1.5) + PointsFrom(pos, PiecesOf(pos, c)) as real
  }

  /** No live piece of the list carries points. */
  predicate Scoreless(pos: Position, ids: seq<PieceId>)
  {
    forall i :: 0 <= i < |ids| && ids[i] < |pos.pieces| ==>
      !pos.pieces[ids[i]].alive || pos.pieces[ids[i]].kind.Points() == 0
  }

  /** A list scores nothing exactly when none of its live pieces has points. */
  lemma {:induction false} PointsFromZero(pos: Position, ids: seq<PieceId>)
    requires InArena(pos, ids)
    ensures PointsFrom(pos, ids) == 0 <==> Scoreless(pos, ids)
  {
    if |ids| > 0 {
      PointsFromZero(pos, ids[1..]);
      assert forall i :: 1 <= i < |ids| ==> ids[i] == ids[1..][i - 1];
    }
  }

  /** RED's score is never zero, and BLUE's is zero exactly when none of its
      listed pieces with points is alive. */
  lemma ScoreBounds(pos: Position, c: Color)
    requires WellFormed(pos)
    ensures Score(pos, c) >= (if c == Blue then 0.0 else 1.5)
    ensures c == Red ==> Score(pos, c) != 0.0
    ensures c == Blue ==> (Score(pos, c) == 0.0 <==> Scoreless(pos, pos.bluePieces))
  {
    ListsInArena(pos, c);
    PointsFromZero(pos, PiecesOf(pos, c));
  }

  /** The recorded outcome of the last move handed to `is_finished`: `None`
      when there is no last move or it was a pass, otherwise its eaten
      piece. */
  type LastCapture = Option<Option<PieceId>>

  /** `is_finished(color, last_action)`. */
  predicate Finished(pos: Position, c: Color, last: LastCapture)
    requires WellFormed(pos)
  {
    || Score(pos, c) == 0.0
    || (Score(pos, c) < 20.0 && last.Some? && last.value.None?)
    || (|Legal(pos, c)| == 0 && InCheck(pos, c))
  }

  // -------------------------------------------------------------- features

  /** The feature planes of `get_features(color, round)` at plane `k` and
      square (x, y): planes 0-6 for the colour's own kinds and 7-13 for the
      opponent's, read from the board turned around for RED; plane 14 is 1
      for RED; plane 15 holds the round. */
  function FeatureAt(pos: Position, c: Color, round: int, k: int, x: int, y: int): int
    requires Shaped(pos) && IsIn(x, y) && 0 <= k < 16
  {
    if k == 14 then (if c == Red then 1 else 0)
    else if k == 15 then round
    else
      match GetMirrored(pos, x, y, c != Blue)
      case None => 0
      case Some(q) => if q.kind.Index() + (if q.color != c then 7 else 0) == k then 1 else 0
  }

  /** Among the piece planes exactly the plane of the kind and side of the
      piece seen at a square is set, and none at an empty square. */
  lemma FeaturePlanesOneHot(pos: Position, c: Color, round: int, x: int, y: int, k: int)
    requires Shaped(pos) && IsIn(x, y) && 0 <= k < 14
    ensures var q := GetMirrored(pos, x, y, c != Blue);
      FeatureAt(pos, c, round, k, x, y) == 1 <==>
        q.Some? && k == q.value.kind.Index() + (if q.value.color != c then 7 else 0)
    ensures FeatureAt(pos, c, round, k, x, y) == 0 || FeatureAt(pos, c, round, k, x, y) == 1
  {
  }
}
