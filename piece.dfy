/** Pseudo-legal move generation for the seven piece kinds
    (janggi/piece.py). The board is only read: every generator takes the
    position as a value. Each generator is a specification function; the
    generators that loop in the source also have a method proved equal to
    it. */
module Pieces {
  import opened Utils
  import opened Actions
  import opened Positions

  /** The test every generator uses for a destination: empty, or holding a
      piece of the other colour. */
  predicate CanEnter(pos: Position, c: Color, x: int, y: int)
    requires Shaped(pos) && IsIn(x, y)
  {
    Get(pos, x, y).None? || Get(pos, x, y).value.color != c
  }

  /** A piece the board can ask for moves: it stands on the board. */
  predicate Placed(p: Piece)
  {
    IsIn(p.x, p.y)
  }

  /** Every move of `p` in `moves` starts on the square of `p`. */
  predicate StartAt(moves: seq<Action>, p: Piece)
  {
    forall a :: a in moves ==> a.xFrom == p.x && a.yFrom == p.y
  }

  // ---------------------------------------------------------------- Soldier

  /** The palace squares from which a soldier may step diagonally towards
      column `y + side` (side 1 is the source's "right", -1 its "left"). The
      RED left square is (3, 5) as in the source. */
  predicate SoldierDiagonalFrom(c: Color, x: int, y: int, side: int)
  {
    if c == Blue then
      (x == 8 && y == 4) || (side == 1 && x == 7 && y == 3) || (side == -1 && x == 7 && y == 5)
    else
      (x == 1 && y == 4) || (side == 1 && x == 2 && y == 3) || (side == -1 && x == 3 && y == 5)
  }

  /** `Soldier.get_actions`: sideways steps, then the forward step in the
      direction of the colour's value, then the palace diagonals. */
  function SoldierMoves(pos: Position, p: Piece): seq<Action>
    requires Shaped(pos) && Placed(p)
  {
    var left := p.y - 1;
    var right := p.y + 1;
    var top := p.x + p.color.Value();
    var sideways :=
      (if 0 <= left && CanEnter(pos, p.color, p.x, left) then [Action(p.x, p.y, p.x, left)] else []) +
      (if right < Width && CanEnter(pos, p.color, p.x, right) then [Action(p.x, p.y, p.x, right)] else []);
    if 0 <= top < Height then
      var canRight := SoldierDiagonalFrom(p.color, p.x, p.y, 1);
      var canLeft := SoldierDiagonalFrom(p.color, p.x, p.y, -1);
      sideways
      + (if CanEnter(pos, p.color, top, p.y) then [Action(p.x, p.y, top, p.y)] else [])
      + (if canRight && CanEnter(pos, p.color, top, right) then [Action(p.x, p.y, top, right)] else [])
      + (if canLeft && CanEnter(pos, p.color, top, left) then [Action(p.x, p.y, top, left)] else [])
    else
      sideways
  }

  /** The soldier's reach, stated geometrically: one square sideways, one
      square forward, or one square diagonally forward from a listed palace
      square. In particular a soldier never moves backward. */
  predicate SoldierReach(p: Piece, tx: int, ty: int)
  {
    (tx == p.x && (ty == p.y - 1 || ty == p.y + 1))
    || (tx == p.x + p.color.Value() && ty == p.y)
    || (tx == p.x + p.color.Value() && (ty == p.y + 1 || ty == p.y - 1)
        && SoldierDiagonalFrom(p.color, p.x, p.y, ty - p.y))
  }

  /** Every soldier move is a reachable square the soldier can enter. */
  lemma SoldierMovesSound(pos: Position, p: Piece, a: Action)
    requires Shaped(pos) && Placed(p) && a in SoldierMoves(pos, p)
    ensures a.xFrom == p.x && a.yFrom == p.y && IsIn(a.xTo, a.yTo)
    ensures SoldierReach(p, a.xTo, a.yTo) && CanEnter(pos, p.color, a.xTo, a.yTo)
  {
  }

  /** Every reachable square the soldier can enter is one of its moves. */
  lemma SoldierMovesComplete(pos: Position, p: Piece, a: Action)
    requires Shaped(pos) && Placed(p)
    requires a.xFrom == p.x && a.yFrom == p.y && IsIn(a.xTo, a.yTo)
    requires SoldierReach(p, a.xTo, a.yTo) && CanEnter(pos, p.color, a.xTo, a.yTo)
    ensures a in SoldierMoves(pos, p)
  {
    assert a == Action(p.x, p.y, a.xTo, a.yTo);
  }

  lemma SoldierMovesExactly(pos: Position, p: Piece, a: Action)
    requires Shaped(pos) && Placed(p)
    ensures a in SoldierMoves(pos, p) <==>
      a.xFrom == p.x && a.yFrom == p.y && IsIn(a.xTo, a.yTo)
      && SoldierReach(p, a.xTo, a.yTo) && CanEnter(pos, p.color, a.xTo, a.yTo)
  {
    if a in SoldierMoves(pos, p) {
      SoldierMovesSound(pos, p, a);
    }
    if a.xFrom == p.x && a.yFrom == p.y && IsIn(a.xTo, a.yTo)
       && SoldierReach(p, a.xTo, a.yTo) && CanEnter(pos, p.color, a.xTo, a.yTo) {
      SoldierMovesComplete(pos, p, a);
    }
  }

  // ----------------------------------------------------- straight scans

  /** The four straight directions the cannon and the chariot scan. */
  predicate UnitDirection(dx: int, dy: int)
  {
    ((dx == 1 || dx == -1) && dy == 0) || (dx == 0 && (dy == 1 || dy == -1))
  }

  /** How many squares are left on the board from (x, y) onwards in the
      direction (dx, dy); the termination measure of the scans. */
  function Room(x: int, y: int, dx: int, dy: int): int
  {
    if dx == 1 then Height - x else if dx == -1 then x + 1 else if dy == 1 then Width - y else y + 1
  }

  /** (tx, ty) lies on the ray that starts at (x, y) in direction (dx, dy). */
  predicate Ahead(x: int, y: int, dx: int, dy: int, tx: int, ty: int)
  {
    if dx == 1 then ty == y && tx >= x
    else if dx == -1 then ty == y && tx <= x
    else if dy == 1 then tx == x && ty >= y
    else tx == x && ty <= y
  }

  /** A square ahead of the next square of a ray is ahead of its start and
      is not the start. */
  lemma AheadStep(x: int, y: int, dx: int, dy: int, tx: int, ty: int)
    requires UnitDirection(dx, dy) && Ahead(x + dx, y + dy, dx, dy, tx, ty)
    ensures Ahead(x, y, dx, dy, tx, ty) && !(tx == x && ty == y)
  {
  }

  /** A square ahead of the start of a ray, other than the start, is ahead
      of the next square, which is on the board when the square is. */
  lemma AheadNext(x: int, y: int, dx: int, dy: int, tx: int, ty: int)
    requires UnitDirection(dx, dy) && Ahead(x, y, dx, dy, tx, ty) && !(tx == x && ty == y)
    requires IsIn(x, y) && IsIn(tx, ty)
    ensures Ahead(x + dx, y + dy, dx, dy, tx, ty) && IsIn(x + dx, y + dy)
  {
  }

  /** The contents of the squares from (x, y) up to, not including, (tx, ty)
      along a direction, stopping at the edge of the board. */
  function Walk(pos: Position, x: int, y: int, dx: int, dy: int, tx: int, ty: int): seq<Option<Piece>>
    requires Shaped(pos) && UnitDirection(dx, dy)
    decreases Room(x, y, dx, dy)
  {
    if !IsIn(x, y) || (x == tx && y == ty) then []
    else [Get(pos, x, y)] + Walk(pos, x + dx, y + dy, dx, dy, tx, ty)
  }

  /** A walk towards a square ahead of the next square starts with the
      current square. */
  lemma WalkStep(pos: Position, x: int, y: int, dx: int, dy: int, tx: int, ty: int)
    requires Shaped(pos) && UnitDirection(dx, dy) && IsIn(x, y) && Ahead(x + dx, y + dy, dx, dy, tx, ty)
    ensures Ahead(x, y, dx, dy, tx, ty)
    ensures Walk(pos, x, y, dx, dy, tx, ty) == [Get(pos, x, y)] + Walk(pos, x + dx, y + dy, dx, dy, tx, ty)
  {
    AheadStep(x, y, dx, dy, tx, ty);
  }

  /** The number of occupied squares in a walk. */
  function Occupied(w: seq<Option<Piece>>): nat
  {
    if |w| == 0 then 0 else (if w[0].Some? then 1 else 0) + Occupied(w[1..])
  }

  /** No square of a walk holds a cannon. */
  predicate NoCannon(w: seq<Option<Piece>>)
  {
    forall i :: 0 <= i < |w| && w[i].Some? ==> w[i].value.kind != Cannon
  }

  /** A walk one square longer at its start counts that square. */
  lemma OccupiedCons(v: Option<Piece>, w: seq<Option<Piece>>)
    ensures Occupied([v] + w) == (if v.Some? then 1 else 0) + Occupied(w)
  {
    assert ([v] + w)[1..] == w;
  }

  /** A walk one square longer at its start is free of cannons when the
      square and the rest are. */
  lemma NoCannonCons(v: Option<Piece>, w: seq<Option<Piece>>)
    ensures NoCannon([v] + w) <==> (v.Some? ==> v.value.kind != Cannon) && NoCannon(w)
  {
    var vw := [v] + w;
    assert vw[0] == v;
    assert forall i :: 0 <= i < |w| ==> vw[i + 1] == w[i];
    if (v.Some? ==> v.value.kind != Cannon) && NoCannon(w) {
      forall i | 0 <= i < |vw| && vw[i].Some?
        ensures vw[i].value.kind != Cannon
      {
        if i > 0 {
          assert vw[i] == w[i - 1];
        }
      }
    }
  }

  /** Every square of a walk is empty. */
  predicate AllEmpty(w: seq<Option<Piece>>)
  {
    forall i :: 0 <= i < |w| ==> w[i].None?
  }

  // ----------------------------------------------------------------- Cannon

  /** `Cannon._get_actions_one_direction` from (x, y) on: before the screen
      the cannon only looks for a screen; after it, every empty square is a
      move and the first piece ends the scan, as a capture when it is an
      enemy. Any cannon met ends the scan at once. */
  function CannonScan(pos: Position, p: Piece, x: int, y: int, dx: int, dy: int, jumped: bool): seq<Action>
    requires Shaped(pos) && UnitDirection(dx, dy)
    decreases Room(x, y, dx, dy)
  {
    if !IsIn(x, y) then []
    else
      var v := Get(pos, x, y);
      if v.None? then
        (if jumped then [Action(p.x, p.y, x, y)] else []) + CannonScan(pos, p, x + dx, y + dy, dx, dy, jumped)
      else if v.value.kind.Index() == Cannon.Index() then []
      else if !jumped then CannonScan(pos, p, x + dx, y + dy, dx, dy, true)
      else if v.value.color != p.color then [Action(p.x, p.y, x, y)]
      else []
  }

  /** `Cannon._get_diagonal_actions` for the palace with centre (cx, cy): from
      a corner, jump over an occupied centre to the opposite corner. The two
      nested loops over [-1, 1] are written out; neither the screen nor the
      target is tested for being a cannon, as in the source. */
  function CannonDiagonal(pos: Position, p: Piece, cx: int, cy: int): seq<Action>
    requires Shaped(pos) && 1 <= cx < Height - 1 && 1 <= cy < Width - 1
  {
    CannonDiagonalSub(pos, p, cx, cy, -1, -1) + CannonDiagonalSub(pos, p, cx, cy, -1, 1)
    + CannonDiagonalSub(pos, p, cx, cy, 1, -1) + CannonDiagonalSub(pos, p, cx, cy, 1, 1)
  }

  function CannonDiagonalSub(pos: Position, p: Piece, cx: int, cy: int, xd: int, yd: int): seq<Action>
    requires Shaped(pos) && 1 <= cx < Height - 1 && 1 <= cy < Width - 1
    requires (xd == 1 || xd == -1) && (yd == 1 || yd == -1)
  {
    if !(p.x - xd == cx && p.y - yd == cy) then []
    else if Get(pos, cx, cy).None? then []
    else if CanEnter(pos, p.color, cx - xd, cy - yd) then [Action(p.x, p.y, cx - xd, cy - yd)]
    else []
  }

  /** The four straight scans of `Cannon.get_actions`, in the source's
      order. */
  function CannonStraight(pos: Position, p: Piece): seq<Action>
    requires Shaped(pos)
  {
    CannonScan(pos, p, p.x + 1, p.y, 1, 0, false)
    + CannonScan(pos, p, p.x - 1, p.y, -1, 0, false)
    + CannonScan(pos, p, p.x, p.y + 1, 0, 1, false)
    + CannonScan(pos, p, p.x, p.y - 1, 0, -1, false)
  }

  /** `Cannon.get_actions`. */
  function CannonMoves(pos: Position, p: Piece): seq<Action>
    requires Shaped(pos)
  {
    CannonStraight(pos, p) + CannonDiagonal(pos, p, 1, 4) + CannonDiagonal(pos, p, 8, 4)
  }

  /** `Cannon._get_actions_one_direction` as the loop of the source, with the
      `encounter_piece_jump` flag and its early returns. */
  method CannonDirection(pos: Position, p: Piece, dx: int, dy: int, actions: seq<Action>)
    returns (result: seq<Action>)
    requires Shaped(pos) && UnitDirection(dx, dy)
    ensures result == actions + CannonScan(pos, p, p.x + dx, p.y + dy, dx, dy, false)
  {
    var jumped := false;
    var x, y := p.x + dx, p.y + dy;
    result := actions;
    while IsIn(x, y)
      invariant result + CannonScan(pos, p, x, y, dx, dy, jumped)
                == actions + CannonScan(pos, p, p.x + dx, p.y + dy, dx, dy, false)
      decreases Room(x, y, dx, dy)
    {
      var value := Get(pos, x, y);
      if value.None? {
        ghost var rest := CannonScan(pos, p, x + dx, y + dy, dx, dy, jumped);
        if jumped {
          assert CannonScan(pos, p, x, y, dx, dy, jumped) == [Action(p.x, p.y, x, y)] + rest;
          assert result + ([Action(p.x, p.y, x, y)] + rest) == (result + [Action(p.x, p.y, x, y)]) + rest;
          result := result + [Action(p.x, p.y, x, y)];
        } else {
          assert CannonScan(pos, p, x, y, dx, dy, jumped) == rest;
        }
      } else if value.value.kind.Index() == Cannon.Index() {
        return;
      } else if !jumped {
        jumped := true;
      } else if value.value.color != p.color {
        result := result + [Action(p.x, p.y, x, y)];
        return;
      } else {
        return;
      }
      x, y := x + dx, y + dy;
    }
  }

  /** Every straight cannon move lies on the scanned ray, jumps exactly one
      screen (counting a screen already met when `jumped`), never jumps a
      cannon, and lands on an empty square or an enemy that is not a cannon. */
  lemma {:induction false} CannonScanSound(pos: Position, p: Piece, x: int, y: int, dx: int, dy: int, jumped: bool, a: Action)
    requires Shaped(pos) && UnitDirection(dx, dy)
    requires a in CannonScan(pos, p, x, y, dx, dy, jumped)
    ensures a.xFrom == p.x && a.yFrom == p.y && IsIn(a.xTo, a.yTo) && Ahead(x, y, dx, dy, a.xTo, a.yTo)
    ensures Occupied(Walk(pos, x, y, dx, dy, a.xTo, a.yTo)) + (if jumped then 1 else 0) == 1
    ensures NoCannon(Walk(pos, x, y, dx, dy, a.xTo, a.yTo))
    ensures Get(pos, a.xTo, a.yTo).None?
            || (Get(pos, a.xTo, a.yTo).value.color != p.color && Get(pos, a.xTo, a.yTo).value.kind != Cannon)
    decreases Room(x, y, dx, dy)
  {
    var v := Get(pos, x, y);
    var here := Walk(pos, x, y, dx, dy, x, y);
    assert here == [];
    if v.Some? {
      IndexBijective(v.value.kind, Cannon);
    }
    if v.None? && jumped && a == Action(p.x, p.y, x, y) {
      assert Occupied(here) == 0;
    } else if v.None? || (!jumped && v.value.kind != Cannon) {
      var jumped' := jumped || v.Some?;
      assert a in CannonScan(pos, p, x + dx, y + dy, dx, dy, jumped');
      CannonScanSound(pos, p, x + dx, y + dy, dx, dy, jumped', a);
      WalkStep(pos, x, y, dx, dy, a.xTo, a.yTo);
      var w := Walk(pos, x + dx, y + dy, dx, dy, a.xTo, a.yTo);
      OccupiedCons(v, w);
      NoCannonCons(v, w);
    } else {
      assert a == Action(p.x, p.y, x, y);
      assert Occupied(here) == 0;
    }
  }

  /** Conversely, every square on the ray reached over exactly one screen,
      with no cannon on the way, that is empty or holds an enemy other than a
      cannon, is a cannon move. */
  lemma {:induction false} CannonScanComplete(pos: Position, p: Piece, x: int, y: int, dx: int, dy: int, jumped: bool, tx: int, ty: int)
    requires Shaped(pos) && UnitDirection(dx, dy) && IsIn(x, y) && IsIn(tx, ty) && Ahead(x, y, dx, dy, tx, ty)
    requires Occupied(Walk(pos, x, y, dx, dy, tx, ty)) + (if jumped then 1 else 0) == 1
    requires NoCannon(Walk(pos, x, y, dx, dy, tx, ty))
    requires Get(pos, tx, ty).None? || (Get(pos, tx, ty).value.color != p.color && Get(pos, tx, ty).value.kind != Cannon)
    ensures Action(p.x, p.y, tx, ty) in CannonScan(pos, p, x, y, dx, dy, jumped)
    decreases Room(x, y, dx, dy)
  {
    var v := Get(pos, x, y);
    if v.Some? {
      IndexBijective(v.value.kind, Cannon);
    }
    if x != tx || y != ty {
      AheadNext(x, y, dx, dy, tx, ty);
      WalkStep(pos, x, y, dx, dy, tx, ty);
      var w := Walk(pos, x + dx, y + dy, dx, dy, tx, ty);
      OccupiedCons(v, w);
      NoCannonCons(v, w);
      CannonScanComplete(pos, p, x + dx, y + dy, dx, dy, jumped || v.Some?, tx, ty);
    } else {
      assert Walk(pos, x, y, dx, dy, tx, ty) == [];
    }
  }


  // ---------------------------------------------------------------- Chariot

  /** `Chariot._get_normal_actions_x` / `_y` from (x, y) on: every empty
      square, and the first piece if it is an enemy. */
  function SlideScan(pos: Position, p: Piece, x: int, y: int, dx: int, dy: int): seq<Action>
    requires Shaped(pos) && UnitDirection(dx, dy)
    decreases Room(x, y, dx, dy)
  {
    if !IsIn(x, y) then []
    else
      var v := Get(pos, x, y);
      if v.None? then [Action(p.x, p.y, x, y)] + SlideScan(pos, p, x + dx, y + dy, dx, dy)
      else if v.value.color != p.color then [Action(p.x, p.y, x, y)]
      else []
  }

  /** The slide loop of the source: one method serves the row and the column
      variants, which differ only in the coordinate they range over. */
  method SlideDirection(pos: Position, p: Piece, dx: int, dy: int, actions: seq<Action>)
    returns (result: seq<Action>)
    requires Shaped(pos) && UnitDirection(dx, dy)
    ensures result == actions + SlideScan(pos, p, p.x + dx, p.y + dy, dx, dy)
  {
    var x, y := p.x + dx, p.y + dy;
    result := actions;
    while IsIn(x, y)
      invariant result + SlideScan(pos, p, x, y, dx, dy) == actions + SlideScan(pos, p, p.x + dx, p.y + dy, dx, dy)
      decreases Room(x, y, dx, dy)
    {
      var value := Get(pos, x, y);
      if value.None? {
        result := result + [Action(p.x, p.y, x, y)];
      } else if value.value.color != p.color {
        result := result + [Action(p.x, p.y, x, y)];
        return;
      } else {
        return;
      }
      x, y := x + dx, y + dy;
    }
  }

  /** Every slide crosses only empty squares and ends on an empty square or
      an enemy. */
  lemma {:induction false} SlideScanSound(pos: Position, p: Piece, x: int, y: int, dx: int, dy: int, a: Action)
    requires Shaped(pos) && UnitDirection(dx, dy)
    requires a in SlideScan(pos, p, x, y, dx, dy)
    ensures a.xFrom == p.x && a.yFrom == p.y && IsIn(a.xTo, a.yTo) && Ahead(x, y, dx, dy, a.xTo, a.yTo)
    ensures AllEmpty(Walk(pos, x, y, dx, dy, a.xTo, a.yTo))
    ensures CanEnter(pos, p.color, a.xTo, a.yTo)
    decreases Room(x, y, dx, dy)
  {
    if Get(pos, x, y).None? && a != Action(p.x, p.y, x, y) {
      SlideScanSound(pos, p, x + dx, y + dy, dx, dy, a);
    }
  }

  /** Every square on the ray reached over empty squares that is empty or
      holds an enemy is a slide. */
  lemma {:induction false} SlideScanComplete(pos: Position, p: Piece, x: int, y: int, dx: int, dy: int, tx: int, ty: int)
    requires Shaped(pos) && UnitDirection(dx, dy) && IsIn(x, y) && IsIn(tx, ty) && Ahead(x, y, dx, dy, tx, ty)
    requires AllEmpty(Walk(pos, x, y, dx, dy, tx, ty))
    requires CanEnter(pos, p.color, tx, ty)
    ensures Action(p.x, p.y, tx, ty) in SlideScan(pos, p, x, y, dx, dy)
    decreases Room(x, y, dx, dy)
  {
    if x != tx || y != ty {
      var w := Walk(pos, x, y, dx, dy, tx, ty);
      assert w == [Get(pos, x, y)] + Walk(pos, x + dx, y + dy, dx, dy, tx, ty);
      assert w[0] == Get(pos, x, y);
      assert w[1..] == Walk(pos, x + dx, y + dy, dx, dy, tx, ty);
      SlideScanComplete(pos, p, x + dx, y + dy, dx, dy, tx, ty);
    }
  }

  /** `Chariot._get_diagonal_actions_sub`: from a corner of the palace the
      centre is always offered when occupied (the source compares the
      occupant with a colour, which never holds, so even an own piece there is
      offered); when the centre is empty the opposite corner is offered too if
      it can be entered. */
  function ChariotDiagonalSub(pos: Position, p: Piece, cx: int, cy: int, xd: int, yd: int): seq<Action>
    requires Shaped(pos) && 1 <= cx < Height - 1 && 1 <= cy < Width - 1
    requires (xd == 1 || xd == -1) && (yd == 1 || yd == -1)
  {
    if !(p.x - xd == cx && p.y - yd == cy) then []
    else if Get(pos, cx, cy).Some? then [Action(p.x, p.y, cx, cy)]
    else
      [Action(p.x, p.y, cx, cy)]
      + (if CanEnter(pos, p.color, cx - xd, cy - yd) then [Action(p.x, p.y, cx - xd, cy - yd)] else [])
  }

  /** `Chariot._get_diagonal_actions_in_center`: one diagonal step from the
      centre. */
  function ChariotFromCenter(pos: Position, p: Piece, cx: int, cy: int, xd: int, yd: int): seq<Action>
    requires Shaped(pos) && 1 <= cx < Height - 1 && 1 <= cy < Width - 1
    requires (xd == 1 || xd == -1) && (yd == 1 || yd == -1)
  {
    if CanEnter(pos, p.color, cx + xd, cy + yd) then [Action(p.x, p.y, cx + xd, cy + yd)] else []
  }

  /** `Chariot._get_diagonal_actions` for the palace with centre (cx, cy). */
  function ChariotDiagonal(pos: Position, p: Piece, cx: int, cy: int): seq<Action>
    requires Shaped(pos) && 1 <= cx < Height - 1 && 1 <= cy < Width - 1
  {
    ChariotDiagonalSub(pos, p, cx, cy, -1, 1) + ChariotDiagonalSub(pos, p, cx, cy, -1, -1)
    + ChariotDiagonalSub(pos, p, cx, cy, 1, 1) + ChariotDiagonalSub(pos, p, cx, cy, 1, -1)
    + (if p.x == cx && p.y == cy then
         ChariotFromCenter(pos, p, cx, cy, -1, 1) + ChariotFromCenter(pos, p, cx, cy, -1, -1)
         + ChariotFromCenter(pos, p, cx, cy, 1, 1) + ChariotFromCenter(pos, p, cx, cy, 1, -1)
       else [])
  }

  /** `Chariot.get_actions`. */
  function ChariotMoves(pos: Position, p: Piece): seq<Action>
    requires Shaped(pos)
  {
    SlideScan(pos, p, p.x + 1, p.y, 1, 0)
    + SlideScan(pos, p, p.x - 1, p.y, -1, 0)
    + SlideScan(pos, p, p.x, p.y + 1, 0, 1)
    + SlideScan(pos, p, p.x, p.y - 1, 0, -1)
    + ChariotDiagonal(pos, p, 1, 4)
    + ChariotDiagonal(pos, p, 8, 4)
  }

  /** A palace centre. */
  predicate PalaceCenter(x: int, y: int)
  {
    (x == 1 || x == 8) && y == 4
  }

  /** Every palace-diagonal chariot move goes one or two squares diagonally
      inside a palace; the two-square move crosses an empty centre; the target
      can be entered unless it is an occupied centre. */
  lemma ChariotDiagonalSound(pos: Position, p: Piece, cx: int, cy: int, a: Action)
    requires Shaped(pos) && PalaceCenter(cx, cy) && a in ChariotDiagonal(pos, p, cx, cy)
    ensures a.xFrom == p.x && a.yFrom == p.y
    ensures cx - 1 <= a.xTo <= cx + 1 && cy - 1 <= a.yTo <= cy + 1
    ensures Abs(a.xTo - p.x) == Abs(a.yTo - p.y) && 1 <= Abs(a.xTo - p.x) <= 2
    ensures Abs(a.xTo - p.x) == 2 ==> Get(pos, cx, cy).None?
    ensures CanEnter(pos, p.color, a.xTo, a.yTo) || (a.xTo == cx && a.yTo == cy)
  {
  }

  // ------------------------------------------------------ General and Guard

  /** The palace bounds passed to `_get_action_per_fortress`. */
  datatype Palace = Palace(xMin: int, xMax: int, yMin: int, yMax: int)

  predicate PalaceOnBoard(b: Palace)
  {
    0 <= b.xMin && b.xMax < Height && 0 <= b.yMin && b.yMax < Width
  }

  /** The palace of a colour: rows 0-2 for BLUE, 7-9 for RED, columns 3-5. */
  function PalaceOf(c: Color): (b: Palace)
    ensures PalaceOnBoard(b)
  {
    if c == Blue then Palace(0, 2, 3, 5) else Palace(7, 9, 3, 5)
  }

  predicate InPalace(b: Palace, x: int, y: int)
  {
    b.xMin <= x <= b.xMax && b.yMin <= y <= b.yMax
  }

  /** A square in the middle of a palace edge: on the middle row or column
      but not the centre. */
  predicate EdgeMidpoint(b: Palace, x: int, y: int)
  {
    (x == b.xMin + 1 || y == b.yMin + 1) && !(x == b.xMin + 1 && y == b.yMin + 1)
  }

  /** One iteration of the double loop of `_get_action_per_fortress`, for the
      offset (xd, yd). */
  function PalaceStep(pos: Position, p: Piece, b: Palace, xd: int, yd: int): seq<Action>
    requires Shaped(pos) && PalaceOnBoard(b)
  {
    if xd == 0 && yd == 0 then []
    else if EdgeMidpoint(b, p.x, p.y) && xd != 0 && yd != 0 then []
    else if !InPalace(b, p.x + xd, p.y + yd) then []
    else if CanEnter(pos, p.color, p.x + xd, p.y + yd) then [Action(p.x, p.y, p.x + xd, p.y + yd)]
    else []
  }

  /** The inner loop after `n` of its iterations, for row offset `xd`. */
  function PalaceRow(pos: Position, p: Piece, b: Palace, xd: int, n: nat): seq<Action>
    requires Shaped(pos) && PalaceOnBoard(b) && n <= 3
  {
    if n == 0 then [] else PalaceRow(pos, p, b, xd, n - 1) + PalaceStep(pos, p, b, xd, n - 2)
  }

  /** The outer loop after `n` of its iterations. */
  function PalaceRows(pos: Position, p: Piece, b: Palace, n: nat): seq<Action>
    requires Shaped(pos) && PalaceOnBoard(b) && n <= 3
  {
    if n == 0 then [] else PalaceRows(pos, p, b, n - 1) + PalaceRow(pos, p, b, n - 2, 3)
  }

  /** `General.get_actions` and `Guard.get_actions`, which are the same. */
  function PalaceMoves(pos: Position, p: Piece): seq<Action>
    requires Shaped(pos)
  {
    PalaceRows(pos, p, PalaceOf(p.color), 3)
  }

  /** One pass of the body of the double loop of `_get_action_per_fortress`,
      with its `continue`s. */
  method PalaceStepAction(pos: Position, p: Piece, b: Palace, xd: int, yd: int, actions: seq<Action>)
    returns (result: seq<Action>)
    requires Shaped(pos) && PalaceOnBoard(b)
    ensures result == actions + PalaceStep(pos, p, b, xd, yd)
  {
    result := actions;
    var midX := b.xMin + 1;
    var midY := b.yMin + 1;
    if xd == 0 && yd == 0 {
      return;
    }
    if (p.x == midX || p.y == midY) && !(p.x == midX && p.y == midY) && xd != 0 && yd != 0 {
      return;
    }
    var newX, newY := p.x + xd, p.y + yd;
    if !(b.xMin <= newX <= b.xMax && b.yMin <= newY <= b.yMax) {
      return;
    }
    var value := Get(pos, newX, newY);
    if value.None? || value.value.color != p.color {
      result := result + [Action(p.x, p.y, newX, newY)];
    }
  }

  /** `_get_action_per_fortress` as the double loop of the source. */
  method PalaceActions(pos: Position, p: Piece, b: Palace) returns (actions: seq<Action>)
    requires Shaped(pos) && PalaceOnBoard(b)
    ensures actions == PalaceRows(pos, p, b, 3)
  {
    actions := [];
    for i := 0 to 3
      invariant actions == PalaceRows(pos, p, b, i)
    {
      var xd := i - 1;
      ghost var rowStart := actions;
      for j := 0 to 3
        invariant actions == rowStart + PalaceRow(pos, p, b, xd, j)
      {
        actions := PalaceStepAction(pos, p, b, xd, j - 1, actions);
      }
    }
  }

  /** One step of the general or a guard, stated geometrically: to an
      adjacent square of the palace (diagonally only when not on an edge
      midpoint) that is empty or holds an enemy. */
  predicate PalaceReach(pos: Position, p: Piece, b: Palace, tx: int, ty: int)
    requires Shaped(pos) && PalaceOnBoard(b)
  {
    && InPalace(b, tx, ty)
    && -1 <= tx - p.x <= 1 && -1 <= ty - p.y <= 1 && (tx != p.x || ty != p.y)
    && (EdgeMidpoint(b, p.x, p.y) ==> tx == p.x || ty == p.y)
    && CanEnter(pos, p.color, tx, ty)
  }

  lemma PalaceRowExactly(pos: Position, p: Piece, b: Palace, xd: int, n: nat, a: Action)
    requires Shaped(pos) && PalaceOnBoard(b) && n <= 3 && -1 <= xd <= 1
    ensures a in PalaceRow(pos, p, b, xd, n) <==>
      a.xFrom == p.x && a.yFrom == p.y && a.xTo == p.x + xd && a.yTo - p.y < n - 1
      && PalaceReach(pos, p, b, a.xTo, a.yTo)
  {
    if n > 0 {
      PalaceRowExactly(pos, p, b, xd, n - 1, a);
    }
  }

  lemma PalaceRowsExactly(pos: Position, p: Piece, b: Palace, n: nat, a: Action)
    requires Shaped(pos) && PalaceOnBoard(b) && n <= 3
    ensures a in PalaceRows(pos, p, b, n) <==>
      a.xFrom == p.x && a.yFrom == p.y && a.xTo - p.x < n - 1 && PalaceReach(pos, p, b, a.xTo, a.yTo)
  {
    if n > 0 {
      PalaceRowsExactly(pos, p, b, n - 1, a);
      PalaceRowExactly(pos, p, b, n - 2, 3, a);
    }
  }

  /** The general and the guards move exactly one step within their own
      palace, diagonally only away from the edge midpoints, onto an empty
      square or an enemy. */
  lemma PalaceMovesExactly(pos: Position, p: Piece, a: Action)
    requires Shaped(pos)
    ensures a in PalaceMoves(pos, p) <==>
      a.xFrom == p.x && a.yFrom == p.y && PalaceReach(pos, p, PalaceOf(p.color), a.xTo, a.yTo)
  {
    PalaceRowsExactly(pos, p, PalaceOf(p.color), 3, a);
  }

  // ------------------------------------------------------- Elephant, Horse

  /** `Elephant._get_actions_sub` for the quadrant (fx, fy): the two
      elephant moves three squares along one axis and two along the other,
      both intermediate squares empty. */
  function ElephantSub(pos: Position, p: Piece, fx: int, fy: int): seq<Action>
    requires Shaped(pos) && Placed(p) && (fx == 1 || fx == -1) && (fy == 1 || fy == -1)
  {
    var sx, lx, vx := p.x + fx, p.x + 2 * fx, p.x + 3 * fx;
    var sy, ly, vy := p.y + fy, p.y + 2 * fy, p.y + 3 * fy;
    (if IsIn(vx, ly) && CanEnter(pos, p.color, vx, ly) && Get(pos, lx, sy).None? && Get(pos, sx, p.y).None?
     then [Action(p.x, p.y, vx, ly)] else [])
    + (if IsIn(lx, vy) && CanEnter(pos, p.color, lx, vy) && Get(pos, sx, ly).None? && Get(pos, p.x, sy).None?
       then [Action(p.x, p.y, lx, vy)] else [])
  }

  function ElephantMoves(pos: Position, p: Piece): seq<Action>
    requires Shaped(pos) && Placed(p)
  {
    ElephantSub(pos, p, -1, 1) + ElephantSub(pos, p, -1, -1) + ElephantSub(pos, p, 1, 1) + ElephantSub(pos, p, 1, -1)
  }

  /** `Horse._get_actions_sub` for the quadrant (fx, fy). */
  function HorseSub(pos: Position, p: Piece, fx: int, fy: int): seq<Action>
    requires Shaped(pos) && Placed(p) && (fx == 1 || fx == -1) && (fy == 1 || fy == -1)
  {
    var sx, lx := p.x + fx, p.x + 2 * fx;
    var sy, ly := p.y + fy, p.y + 2 * fy;
    (if IsIn(lx, sy) && CanEnter(pos, p.color, lx, sy) && Get(pos, sx, p.y).None?
     then [Action(p.x, p.y, lx, sy)] else [])
    + (if IsIn(sx, ly) && CanEnter(pos, p.color, sx, ly) && Get(pos, p.x, sy).None?
       then [Action(p.x, p.y, sx, ly)] else [])
  }

  function HorseMoves(pos: Position, p: Piece): seq<Action>
    requires Shaped(pos) && Placed(p)
  {
    HorseSub(pos, p, -1, 1) + HorseSub(pos, p, -1, -1) + HorseSub(pos, p, 1, 1) + HorseSub(pos, p, 1, -1)
  }

  function Sign(n: int): int
  {
    if n > 0 then 1 else if n < 0 then -1 else 0
  }

  /** The horse's reach: two squares along one axis and one along the other,
      with the first square of the long leg empty. */
  predicate HorseReach(pos: Position, p: Piece, tx: int, ty: int)
    requires Shaped(pos) && Placed(p)
  {
    var dx, dy := tx - p.x, ty - p.y;
    && IsIn(tx, ty) && CanEnter(pos, p.color, tx, ty)
    && ((Abs(dx) == 2 && Abs(dy) == 1 && Get(pos, p.x + Sign(dx), p.y).None?)
        || (Abs(dx) == 1 && Abs(dy) == 2 && Get(pos, p.x, p.y + Sign(dy)).None?))
  }

  /** The elephant's reach: three squares along one axis and two along the
      other, with the square after the first straight step and the first
      diagonal square both empty. */
  predicate ElephantReach(pos: Position, p: Piece, tx: int, ty: int)
    requires Shaped(pos) && Placed(p)
  {
    var dx, dy := tx - p.x, ty - p.y;
    && IsIn(tx, ty) && CanEnter(pos, p.color, tx, ty)
    && ((Abs(dx) == 3 && Abs(dy) == 2
         && Get(pos, p.x + Sign(dx), p.y).None? && Get(pos, p.x + 2 * Sign(dx), p.y + Sign(dy)).None?)
        || (Abs(dx) == 2 && Abs(dy) == 3
         && Get(pos, p.x, p.y + Sign(dy)).None? && Get(pos, p.x + Sign(dx), p.y + 2 * Sign(dy)).None?))
  }

  /** The horse move towards (fx, fy) two squares along x is offered
      exactly when it is within reach. */
  lemma HorseLongX(pos: Position, p: Piece, fx: int, fy: int)
    requires Shaped(pos) && Placed(p) && (fx == 1 || fx == -1) && (fy == 1 || fy == -1)
    ensures Action(p.x, p.y, p.x + 2 * fx, p.y + fy) in HorseSub(pos, p, fx, fy) <==>
      HorseReach(pos, p, p.x + 2 * fx, p.y + fy)
  {
    assert Sign(2 * fx) == fx && Sign(fy) == fy;
  }

  /** The horse move towards (fx, fy) two squares along y is offered
      exactly when it is within reach. */
  lemma HorseLongY(pos: Position, p: Piece, fx: int, fy: int)
    requires Shaped(pos) && Placed(p) && (fx == 1 || fx == -1) && (fy == 1 || fy == -1)
    ensures Action(p.x, p.y, p.x + fx, p.y + 2 * fy) in HorseSub(pos, p, fx, fy) <==>
      HorseReach(pos, p, p.x + fx, p.y + 2 * fy)
  {
    assert Sign(fx) == fx && Sign(2 * fy) == fy;
  }

  /** A quadrant offers only its two horse moves. */
  lemma HorseSubOnly(pos: Position, p: Piece, fx: int, fy: int, a: Action)
    requires Shaped(pos) && Placed(p) && (fx == 1 || fx == -1) && (fy == 1 || fy == -1)
    requires a in HorseSub(pos, p, fx, fy)
    ensures a == Action(p.x, p.y, p.x + 2 * fx, p.y + fy) || a == Action(p.x, p.y, p.x + fx, p.y + 2 * fy)
  {
  }

  /** Within a quadrant, a jump of one and two squares, in either order,
      has only the two targets the quadrant tries. */
  lemma JumpTargets(x: int, y: int, fx: int, fy: int, tx: int, ty: int, long: int, short: int)
    requires (fx == 1 || fx == -1) && (fy == 1 || fy == -1) && 0 < short < long
    requires Sign(tx - x) == fx && Sign(ty - y) == fy
    requires (Abs(tx - x) == long && Abs(ty - y) == short) || (Abs(tx - x) == short && Abs(ty - y) == long)
    ensures (tx == x + long * fx && ty == y + short * fy) || (tx == x + short * fx && ty == y + long * fy)
  {
  }

  /** A move of the quadrant is a horse jump towards it within reach. */
  lemma HorseSubSound(pos: Position, p: Piece, fx: int, fy: int, a: Action)
    requires Shaped(pos) && Placed(p) && (fx == 1 || fx == -1) && (fy == 1 || fy == -1)
    requires a in HorseSub(pos, p, fx, fy)
    ensures a.xFrom == p.x && a.yFrom == p.y && Sign(a.xTo - p.x) == fx && Sign(a.yTo - p.y) == fy
    ensures HorseReach(pos, p, a.xTo, a.yTo)
  {
    HorseSubOnly(pos, p, fx, fy, a);
    HorseLongX(pos, p, fx, fy);
    HorseLongY(pos, p, fx, fy);
    assert Sign(2 * fx) == fx && Sign(2 * fy) == fy;
  }

  /** A horse jump towards the quadrant within reach is a move of the
      quadrant. */
  lemma HorseSubComplete(pos: Position, p: Piece, fx: int, fy: int, a: Action)
    requires Shaped(pos) && Placed(p) && (fx == 1 || fx == -1) && (fy == 1 || fy == -1)
    requires a.xFrom == p.x && a.yFrom == p.y && Sign(a.xTo - p.x) == fx && Sign(a.yTo - p.y) == fy
    requires HorseReach(pos, p, a.xTo, a.yTo)
    ensures a in HorseSub(pos, p, fx, fy)
  {
    JumpTargets(p.x, p.y, fx, fy, a.xTo, a.yTo, 2, 1);
    if a.xTo == p.x + 2 * fx && a.yTo == p.y + fy {
      assert a == Action(p.x, p.y, p.x + 2 * fx, p.y + fy);
      HorseLongX(pos, p, fx, fy);
    } else {
      assert a == Action(p.x, p.y, p.x + fx, p.y + 2 * fy);
      HorseLongY(pos, p, fx, fy);
    }
  }

  lemma HorseSubExactly(pos: Position, p: Piece, fx: int, fy: int, a: Action)
    requires Shaped(pos) && Placed(p) && (fx == 1 || fx == -1) && (fy == 1 || fy == -1)
    ensures a in HorseSub(pos, p, fx, fy) <==>
      a.xFrom == p.x && a.yFrom == p.y && Sign(a.xTo - p.x) == fx && Sign(a.yTo - p.y) == fy
      && HorseReach(pos, p, a.xTo, a.yTo)
  {
    if a in HorseSub(pos, p, fx, fy) {
      HorseSubSound(pos, p, fx, fy, a);
    }
    if a.xFrom == p.x && a.yFrom == p.y && Sign(a.xTo - p.x) == fx && Sign(a.yTo - p.y) == fy
       && HorseReach(pos, p, a.xTo, a.yTo) {
      HorseSubComplete(pos, p, fx, fy, a);
    }
  }

  /** A horse move is exactly a horse jump whose leg is not blocked. */
  lemma HorseMovesExactly(pos: Position, p: Piece, a: Action)
    requires Shaped(pos) && Placed(p)
    ensures a in HorseMoves(pos, p) <==> a.xFrom == p.x && a.yFrom == p.y && HorseReach(pos, p, a.xTo, a.yTo)
  {
    HorseSubExactly(pos, p, -1, 1, a);
    HorseSubExactly(pos, p, -1, -1, a);
    HorseSubExactly(pos, p, 1, 1, a);
    HorseSubExactly(pos, p, 1, -1, a);
  }

  /** The elephant move towards (fx, fy) three squares along x is offered
      exactly when it is within reach. */
  lemma ElephantLongX(pos: Position, p: Piece, fx: int, fy: int)
    requires Shaped(pos) && Placed(p) && (fx == 1 || fx == -1) && (fy == 1 || fy == -1)
    ensures Action(p.x, p.y, p.x + 3 * fx, p.y + 2 * fy) in ElephantSub(pos, p, fx, fy) <==>
      ElephantReach(pos, p, p.x + 3 * fx, p.y + 2 * fy)
  {
    assert Sign(3 * fx) == fx && Sign(2 * fy) == fy;
  }

  /** The elephant move towards (fx, fy) three squares along y is offered
      exactly when it is within reach. */
  lemma ElephantLongY(pos: Position, p: Piece, fx: int, fy: int)
    requires Shaped(pos) && Placed(p) && (fx == 1 || fx == -1) && (fy == 1 || fy == -1)
    ensures Action(p.x, p.y, p.x + 2 * fx, p.y + 3 * fy) in ElephantSub(pos, p, fx, fy) <==>
      ElephantReach(pos, p, p.x + 2 * fx, p.y + 3 * fy)
  {
    assert Sign(2 * fx) == fx && Sign(3 * fy) == fy;
  }

  /** A quadrant offers only its two elephant moves. */
  lemma ElephantSubOnly(pos: Position, p: Piece, fx: int, fy: int, a: Action)
    requires Shaped(pos) && Placed(p) && (fx == 1 || fx == -1) && (fy == 1 || fy == -1)
    requires a in ElephantSub(pos, p, fx, fy)
    ensures a == Action(p.x, p.y, p.x + 3 * fx, p.y + 2 * fy) || a == Action(p.x, p.y, p.x + 2 * fx, p.y + 3 * fy)
  {
  }

  /** A move of the quadrant is a elephant jump towards it within reach. */
  lemma ElephantSubSound(pos: Position, p: Piece, fx: int, fy: int, a: Action)
    requires Shaped(pos) && Placed(p) && (fx == 1 || fx == -1) && (fy == 1 || fy == -1)
    requires a in ElephantSub(pos, p, fx, fy)
    ensures a.xFrom == p.x && a.yFrom == p.y && Sign(a.xTo - p.x) == fx && Sign(a.yTo - p.y) == fy
    ensures ElephantReach(pos, p, a.xTo, a.yTo)
  {
    ElephantSubOnly(pos, p, fx, fy, a);
    ElephantLongX(pos, p, fx, fy);
    ElephantLongY(pos, p, fx, fy);
    assert Sign(2 * fx) == fx && Sign(2 * fy) == fy && Sign(3 * fx) == fx && Sign(3 * fy) == fy;
  }

  /** A elephant jump towards the quadrant within reach is a move of the
      quadrant. */
  lemma ElephantSubComplete(pos: Position, p: Piece, fx: int, fy: int, a: Action)
    requires Shaped(pos) && Placed(p) && (fx == 1 || fx == -1) && (fy == 1 || fy == -1)
    requires a.xFrom == p.x && a.yFrom == p.y && Sign(a.xTo - p.x) == fx && Sign(a.yTo - p.y) == fy
    requires ElephantReach(pos, p, a.xTo, a.yTo)
    ensures a in ElephantSub(pos, p, fx, fy)
  {
    JumpTargets(p.x, p.y, fx, fy, a.xTo, a.yTo, 3, 2);
    if a.xTo == p.x + 3 * fx && a.yTo == p.y + 2 * fy {
      assert a == Action(p.x, p.y, p.x + 3 * fx, p.y + 2 * fy);
      ElephantLongX(pos, p, fx, fy);
    } else {
      assert a == Action(p.x, p.y, p.x + 2 * fx, p.y + 3 * fy);
      ElephantLongY(pos, p, fx, fy);
    }
  }

  lemma ElephantSubExactly(pos: Position, p: Piece, fx: int, fy: int, a: Action)
    requires Shaped(pos) && Placed(p) && (fx == 1 || fx == -1) && (fy == 1 || fy == -1)
    ensures a in ElephantSub(pos, p, fx, fy) <==>
      a.xFrom == p.x && a.yFrom == p.y && Sign(a.xTo - p.x) == fx && Sign(a.yTo - p.y) == fy
      && ElephantReach(pos, p, a.xTo, a.yTo)
  {
    if a in ElephantSub(pos, p, fx, fy) {
      ElephantSubSound(pos, p, fx, fy, a);
    }
    if a.xFrom == p.x && a.yFrom == p.y && Sign(a.xTo - p.x) == fx && Sign(a.yTo - p.y) == fy
       && ElephantReach(pos, p, a.xTo, a.yTo) {
      ElephantSubComplete(pos, p, fx, fy, a);
    }
  }

  /** An elephant move is exactly an elephant jump with both intermediate
      squares empty. */
  lemma ElephantMovesExactly(pos: Position, p: Piece, a: Action)
    requires Shaped(pos) && Placed(p)
    ensures a in ElephantMoves(pos, p) <==> a.xFrom == p.x && a.yFrom == p.y && ElephantReach(pos, p, a.xTo, a.yTo)
  {
    ElephantSubExactly(pos, p, -1, 1, a);
    ElephantSubExactly(pos, p, -1, -1, a);
    ElephantSubExactly(pos, p, 1, 1, a);
    ElephantSubExactly(pos, p, 1, -1, a);
  }

  // --------------------------------------------------------------- dispatch

  /** `piece.get_actions()` for a piece standing on the board. */
  function PieceMoves(pos: Position, p: Piece): seq<Action>
    requires Shaped(pos) && Placed(p)
  {
    match p.kind
    case Soldier => SoldierMoves(pos, p)
    case Cannon => CannonMoves(pos, p)
    case General => PalaceMoves(pos, p)
    case Chariot => ChariotMoves(pos, p)
    case Elephant => ElephantMoves(pos, p)
    case Horse => HorseMoves(pos, p)
    case Guard => PalaceMoves(pos, p)
  }

  /** The four calls of `_get_actions_one_direction`, each appending to the
      same list. */
  method CannonStraightActions(pos: Position, p: Piece) returns (actions: seq<Action>)
    requires Shaped(pos)
    ensures actions == CannonStraight(pos, p)
  {
    var north := CannonScan(pos, p, p.x + 1, p.y, 1, 0, false);
    var south := CannonScan(pos, p, p.x - 1, p.y, -1, 0, false);
    var east := CannonScan(pos, p, p.x, p.y + 1, 0, 1, false);
    actions := CannonDirection(pos, p, 1, 0, []);
    assert actions == north;
    actions := CannonDirection(pos, p, -1, 0, actions);
    assert actions == north + south;
    actions := CannonDirection(pos, p, 0, 1, actions);
    assert actions == north + south + east;
    actions := CannonDirection(pos, p, 0, -1, actions);
  }

  /** `Cannon.get_actions`: the four scans, then the two palaces. */
  method CannonActions(pos: Position, p: Piece) returns (actions: seq<Action>)
    requires Shaped(pos)
    ensures actions == CannonMoves(pos, p)
  {
    actions := CannonStraightActions(pos, p);
    actions := actions + CannonDiagonal(pos, p, 1, 4);
    actions := actions + CannonDiagonal(pos, p, 8, 4);
  }

  /** `Chariot.get_actions`: the four slides, then the two palaces. */
  method ChariotActions(pos: Position, p: Piece) returns (actions: seq<Action>)
    requires Shaped(pos)
    ensures actions == ChariotMoves(pos, p)
  {
    var north := SlideScan(pos, p, p.x + 1, p.y, 1, 0);
    var south := SlideScan(pos, p, p.x - 1, p.y, -1, 0);
    var east := SlideScan(pos, p, p.x, p.y + 1, 0, 1);
    var west := SlideScan(pos, p, p.x, p.y - 1, 0, -1);
    actions := SlideDirection(pos, p, 1, 0, []);
    assert actions == north;
    actions := SlideDirection(pos, p, -1, 0, actions);
    assert actions == north + south;
    actions := SlideDirection(pos, p, 0, 1, actions);
    assert actions == north + south + east;
    actions := SlideDirection(pos, p, 0, -1, actions);
    assert actions == north + south + east + west;
    actions := actions + ChariotDiagonal(pos, p, 1, 4);
    actions := actions + ChariotDiagonal(pos, p, 8, 4);
  }

  /** `piece.get_actions()` as the source computes it: the scanning pieces run
      their loops. */
  method PieceActions(pos: Position, p: Piece) returns (actions: seq<Action>)
    requires Shaped(pos) && Placed(p)
    ensures actions == PieceMoves(pos, p)
  {
    match p.kind {
      case Cannon =>
        actions := CannonActions(pos, p);
      case Chariot =>
        actions := ChariotActions(pos, p);
      case General =>
        actions := PalaceActions(pos, p, PalaceOf(p.color));
      case Guard =>
        actions := PalaceActions(pos, p, PalaceOf(p.color));
      case Soldier =>
        actions := SoldierMoves(pos, p);
      case Elephant =>
        actions := ElephantMoves(pos, p);
      case Horse =>
        actions := HorseMoves(pos, p);
    }
  }
  /** What the board relies on from every generator: a move starts on the
      piece's square, ends elsewhere on the board, and its destination is
      empty or an enemy, except the chariot's occupied palace centre. */
  predicate SoundMove(pos: Position, p: Piece, a: Action)
    requires Shaped(pos)
  {
    && a.xFrom == p.x && a.yFrom == p.y && OnBoard(a)
    && (a.xTo != a.xFrom || a.yTo != a.yFrom)
    && (CanEnter(pos, p.color, a.xTo, a.yTo) || (p.kind == Chariot && PalaceCenter(a.xTo, a.yTo)))
  }

  lemma CannonDiagonalSound(pos: Position, p: Piece, cx: int, cy: int, a: Action)
    requires Shaped(pos) && Placed(p) && PalaceCenter(cx, cy) && a in CannonDiagonal(pos, p, cx, cy)
    ensures SoundMove(pos, p, a)
    ensures Get(pos, cx, cy).Some? && a.xTo - p.x == 2 * (cx - p.x) && a.yTo - p.y == 2 * (cy - p.y)
    ensures Abs(cx - p.x) == 1 && Abs(cy - p.y) == 1
  {
  }

  lemma CannonMovesSound(pos: Position, p: Piece, a: Action)
    requires Shaped(pos) && Placed(p) && p.kind == Cannon && a in CannonMoves(pos, p)
    ensures SoundMove(pos, p, a)
  {
    var north := CannonScan(pos, p, p.x + 1, p.y, 1, 0, false);
    var south := CannonScan(pos, p, p.x - 1, p.y, -1, 0, false);
    var east := CannonScan(pos, p, p.x, p.y + 1, 0, 1, false);
    var west := CannonScan(pos, p, p.x, p.y - 1, 0, -1, false);
    var d1, d8 := CannonDiagonal(pos, p, 1, 4), CannonDiagonal(pos, p, 8, 4);
    assert CannonMoves(pos, p) == north + south + east + west + d1 + d8;
    if a in north {
      CannonScanSound(pos, p, p.x + 1, p.y, 1, 0, false, a);
    } else if a in south {
      CannonScanSound(pos, p, p.x - 1, p.y, -1, 0, false, a);
    } else if a in east {
      CannonScanSound(pos, p, p.x, p.y + 1, 0, 1, false, a);
    } else if a in west {
      CannonScanSound(pos, p, p.x, p.y - 1, 0, -1, false, a);
    } else if a in d1 {
      CannonDiagonalSound(pos, p, 1, 4, a);
    } else {
      assert a in d8;
      CannonDiagonalSound(pos, p, 8, 4, a);
    }
  }

  lemma ChariotMovesSound(pos: Position, p: Piece, a: Action)
    requires Shaped(pos) && Placed(p) && p.kind == Chariot && a in ChariotMoves(pos, p)
    ensures SoundMove(pos, p, a)
  {
    var north := SlideScan(pos, p, p.x + 1, p.y, 1, 0);
    var south := SlideScan(pos, p, p.x - 1, p.y, -1, 0);
    var east := SlideScan(pos, p, p.x, p.y + 1, 0, 1);
    var west := SlideScan(pos, p, p.x, p.y - 1, 0, -1);
    var d1, d8 := ChariotDiagonal(pos, p, 1, 4), ChariotDiagonal(pos, p, 8, 4);
    assert ChariotMoves(pos, p) == north + south + east + west + d1 + d8;
    if a in north {
      SlideScanSound(pos, p, p.x + 1, p.y, 1, 0, a);
    } else if a in south {
      SlideScanSound(pos, p, p.x - 1, p.y, -1, 0, a);
    } else if a in east {
      SlideScanSound(pos, p, p.x, p.y + 1, 0, 1, a);
    } else if a in west {
      SlideScanSound(pos, p, p.x, p.y - 1, 0, -1, a);
    } else if a in d1 {
      ChariotDiagonalSound(pos, p, 1, 4, a);
    } else {
      assert a in d8;
      ChariotDiagonalSound(pos, p, 8, 4, a);
    }
  }

  /** Every generated move of every kind is sound. */
  lemma PieceMovesSound(pos: Position, p: Piece, a: Action)
    requires Shaped(pos) && Placed(p) && a in PieceMoves(pos, p)
    ensures SoundMove(pos, p, a)
  {
    match p.kind
    case Soldier => SoldierMovesExactly(pos, p, a);
    case Cannon => CannonMovesSound(pos, p, a);
    case General => PalaceMovesExactly(pos, p, a);
    case Chariot => ChariotMovesSound(pos, p, a);
    case Elephant => ElephantMovesExactly(pos, p, a);
    case Horse => HorseMovesExactly(pos, p, a);
    case Guard => PalaceMovesExactly(pos, p, a);
  }

  // ------------------------------------------------------ palace diagonals

  /** A chariot on a palace corner is always offered the centre (even when
      its own piece stands there, as the comparison at line 258 of the
      source never holds), and the opposite corner when the centre is empty
      and that corner can be entered. */
  lemma ChariotCornerComplete(pos: Position, p: Piece, cx: int, cy: int, xd: int, yd: int)
    requires Shaped(pos) && PalaceCenter(cx, cy) && (xd == 1 || xd == -1) && (yd == 1 || yd == -1)
    requires p.x == cx + xd && p.y == cy + yd
    ensures Action(p.x, p.y, cx, cy) in ChariotMoves(pos, p)
    ensures Get(pos, cx, cy).None? && CanEnter(pos, p.color, cx - xd, cy - yd) ==>
      Action(p.x, p.y, cx - xd, cy - yd) in ChariotMoves(pos, p)
  {
    var sub := ChariotDiagonalSub(pos, p, cx, cy, xd, yd);
    assert forall a :: a in sub ==> a in ChariotDiagonal(pos, p, cx, cy);
    assert forall a :: a in ChariotDiagonal(pos, p, cx, cy) ==> a in ChariotMoves(pos, p);
  }

  /** A chariot on a palace centre is offered every corner it can enter. */
  lemma ChariotCenterComplete(pos: Position, p: Piece, cx: int, cy: int, xd: int, yd: int)
    requires Shaped(pos) && PalaceCenter(cx, cy) && (xd == 1 || xd == -1) && (yd == 1 || yd == -1)
    requires p.x == cx && p.y == cy && CanEnter(pos, p.color, cx + xd, cy + yd)
    ensures Action(p.x, p.y, cx + xd, cy + yd) in ChariotMoves(pos, p)
  {
    var step := ChariotFromCenter(pos, p, cx, cy, xd, yd);
    assert forall a :: a in step ==> a in ChariotDiagonal(pos, p, cx, cy);
    assert forall a :: a in ChariotDiagonal(pos, p, cx, cy) ==> a in ChariotMoves(pos, p);
  }

  /** A cannon on a palace corner is offered the opposite corner over an
      occupied centre when that corner is empty or holds an enemy. */
  lemma CannonCornerComplete(pos: Position, p: Piece, cx: int, cy: int, xd: int, yd: int)
    requires Shaped(pos) && PalaceCenter(cx, cy) && (xd == 1 || xd == -1) && (yd == 1 || yd == -1)
    requires p.x == cx + xd && p.y == cy + yd
    requires Get(pos, cx, cy).Some? && CanEnter(pos, p.color, cx - xd, cy - yd)
    ensures Action(p.x, p.y, cx - xd, cy - yd) in CannonMoves(pos, p)
  {
    var sub := CannonDiagonalSub(pos, p, cx, cy, xd, yd);
    assert forall a :: a in sub ==> a in CannonDiagonal(pos, p, cx, cy);
    assert forall a :: a in CannonDiagonal(pos, p, cx, cy) ==> a in CannonMoves(pos, p);
  }

  // ------------------------------------------------------------ repetitions

  /** A scan offers each square once: later squares lie strictly ahead. */
  lemma {:induction false} SlideScanDistinct(pos: Position, p: Piece, x: int, y: int, dx: int, dy: int)
    requires Shaped(pos) && UnitDirection(dx, dy)
    ensures Distinct(SlideScan(pos, p, x, y, dx, dy))
    decreases Room(x, y, dx, dy)
  {
    if IsIn(x, y) && Get(pos, x, y).None? {
      var rest := SlideScan(pos, p, x + dx, y + dy, dx, dy);
      SlideScanDistinct(pos, p, x + dx, y + dy, dx, dy);
      forall a | a in [Action(p.x, p.y, x, y)]
        ensures a !in rest
      {
        if a in rest {
          SlideScanSound(pos, p, x + dx, y + dy, dx, dy, a);
          AheadStep(x, y, dx, dy, a.xTo, a.yTo);
        }
      }
      DistinctAppend([Action(p.x, p.y, x, y)], rest);
    }
  }

  lemma {:induction false} CannonScanDistinct(pos: Position, p: Piece, x: int, y: int, dx: int, dy: int, jumped: bool)
    requires Shaped(pos) && UnitDirection(dx, dy)
    ensures Distinct(CannonScan(pos, p, x, y, dx, dy, jumped))
    decreases Room(x, y, dx, dy)
  {
    if IsIn(x, y) {
      var v := Get(pos, x, y);
      if v.None? {
        var head := if jumped then [Action(p.x, p.y, x, y)] else [];
        var rest := CannonScan(pos, p, x + dx, y + dy, dx, dy, jumped);
        CannonScanDistinct(pos, p, x + dx, y + dy, dx, dy, jumped);
        forall a | a in head
          ensures a !in rest
        {
          if a in rest {
            CannonScanSound(pos, p, x + dx, y + dy, dx, dy, jumped, a);
            AheadStep(x, y, dx, dy, a.xTo, a.yTo);
          }
        }
        DistinctAppend(head, rest);
      } else if v.value.kind.Index() != Cannon.Index() && !jumped {
        CannonScanDistinct(pos, p, x + dx, y + dy, dx, dy, true);
      }
    }
  }

  /** A straight move north, south, east or west of the piece lies on its
      row or column on that side. */
  predicate Toward(p: Piece, dx: int, dy: int, a: Action)
  {
    if dx != 0 then a.yTo == p.y && Sign(a.xTo - p.x) == dx
    else a.xTo == p.x && Sign(a.yTo - p.y) == dy
  }

  lemma SlideToward(pos: Position, p: Piece, dx: int, dy: int, a: Action)
    requires Shaped(pos) && UnitDirection(dx, dy) && a in SlideScan(pos, p, p.x + dx, p.y + dy, dx, dy)
    ensures Toward(p, dx, dy, a)
  {
    SlideScanSound(pos, p, p.x + dx, p.y + dy, dx, dy, a);
  }

  lemma CannonToward(pos: Position, p: Piece, dx: int, dy: int, a: Action)
    requires Shaped(pos) && UnitDirection(dx, dy) && a in CannonScan(pos, p, p.x + dx, p.y + dy, dx, dy, false)
    ensures Toward(p, dx, dy, a)
  {
    CannonScanSound(pos, p, p.x + dx, p.y + dy, dx, dy, false, a);
  }

  /** Four lists of moves, one per direction, chain without repetitions. */
  lemma StraightDistinct(p: Piece, n: seq<Action>, s: seq<Action>, e: seq<Action>, w: seq<Action>)
    requires Distinct(n) && Distinct(s) && Distinct(e) && Distinct(w)
    requires forall a :: a in n ==> Toward(p, 1, 0, a)
    requires forall a :: a in s ==> Toward(p, -1, 0, a)
    requires forall a :: a in e ==> Toward(p, 0, 1, a)
    requires forall a :: a in w ==> Toward(p, 0, -1, a)
    ensures Distinct(n + s + e + w)
    ensures forall a :: a in n + s + e + w ==> a.xTo == p.x || a.yTo == p.y
  {
    DistinctAppend(n, s);
    DistinctAppend(n + s, e);
    DistinctAppend(n + s + e, w);
  }

  /** The straight moves followed by the diagonal moves of the two palaces
      chain without repetitions: diagonal moves leave both the row and the
      column of the piece, and the two palaces are rows apart. */
  lemma DiagonalsAfter(p: Piece, straight: seq<Action>, d1: seq<Action>, d8: seq<Action>)
    requires Distinct(straight) && Distinct(d1) && Distinct(d8)
    requires forall a :: a in straight ==> a.xTo == p.x || a.yTo == p.y
    requires forall a :: a in d1 ==> a.xTo != p.x && a.yTo != p.y && a.xTo <= 2
    requires forall a :: a in d8 ==> a.xTo != p.x && a.yTo != p.y && a.xTo >= 7
    ensures Distinct(straight + d1 + d8)
  {
    DistinctAppend(straight, d1);
    DistinctAppend(straight + d1, d8);
  }

  lemma ChariotDiagonalDistinct(pos: Position, p: Piece, cx: int, cy: int)
    requires Shaped(pos) && PalaceCenter(cx, cy)
    ensures Distinct(ChariotDiagonal(pos, p, cx, cy))
    ensures forall a :: a in ChariotDiagonal(pos, p, cx, cy) ==>
      a.xTo != p.x && a.yTo != p.y && cx - 1 <= a.xTo <= cx + 1
  {
    forall a | a in ChariotDiagonal(pos, p, cx, cy)
      ensures a.xTo != p.x && a.yTo != p.y && cx - 1 <= a.xTo <= cx + 1
    {
      ChariotDiagonalSound(pos, p, cx, cy, a);
    }
    ChariotDiagonalOnce(pos, p, cx, cy);
  }

  /** Only the corner the chariot stands on contributes moves, one or two
      distinct ones. */
  lemma ChariotSubOnce(pos: Position, p: Piece, cx: int, cy: int, xd: int, yd: int)
    requires Shaped(pos) && PalaceCenter(cx, cy) && (xd == 1 || xd == -1) && (yd == 1 || yd == -1)
    ensures Distinct(ChariotDiagonalSub(pos, p, cx, cy, xd, yd))
    ensures !(p.x == cx + xd && p.y == cy + yd) ==> ChariotDiagonalSub(pos, p, cx, cy, xd, yd) == []
  {
  }

  /** From the centre the four corners are offered at most once each. */
  lemma ChariotCenterOnce(pos: Position, p: Piece, cx: int, cy: int)
    requires Shaped(pos) && PalaceCenter(cx, cy) && p.x == cx && p.y == cy
    ensures Distinct(ChariotFromCenter(pos, p, cx, cy, -1, 1) + ChariotFromCenter(pos, p, cx, cy, -1, -1)
      + ChariotFromCenter(pos, p, cx, cy, 1, 1) + ChariotFromCenter(pos, p, cx, cy, 1, -1))
  {
    QuadrantsDistinct(p, ChariotFromCenter(pos, p, cx, cy, -1, 1), ChariotFromCenter(pos, p, cx, cy, -1, -1),
      ChariotFromCenter(pos, p, cx, cy, 1, 1), ChariotFromCenter(pos, p, cx, cy, 1, -1));
  }

  lemma ChariotDiagonalOnce(pos: Position, p: Piece, cx: int, cy: int)
    requires Shaped(pos) && PalaceCenter(cx, cy)
    ensures Distinct(ChariotDiagonal(pos, p, cx, cy))
  {
    var s1, s2 := ChariotDiagonalSub(pos, p, cx, cy, -1, 1), ChariotDiagonalSub(pos, p, cx, cy, -1, -1);
    var s3, s4 := ChariotDiagonalSub(pos, p, cx, cy, 1, 1), ChariotDiagonalSub(pos, p, cx, cy, 1, -1);
    ChariotSubOnce(pos, p, cx, cy, -1, 1);
    ChariotSubOnce(pos, p, cx, cy, -1, -1);
    ChariotSubOnce(pos, p, cx, cy, 1, 1);
    ChariotSubOnce(pos, p, cx, cy, 1, -1);
    if p.x == cx && p.y == cy {
      ChariotCenterOnce(pos, p, cx, cy);
      assert s1 + s2 + s3 + s4 == [];
    } else if p.x == cx - 1 && p.y == cy + 1 {
      assert s1 + s2 + s3 + s4 == s1;
    } else if p.x == cx - 1 && p.y == cy - 1 {
      assert s1 + s2 + s3 + s4 == s2;
    } else if p.x == cx + 1 && p.y == cy + 1 {
      assert s1 + s2 + s3 + s4 == s3;
    } else if p.x == cx + 1 && p.y == cy - 1 {
      assert s1 + s2 + s3 + s4 == s4;
    }
  }

  lemma CannonDiagonalDistinct(pos: Position, p: Piece, cx: int, cy: int)
    requires Shaped(pos) && Placed(p) && PalaceCenter(cx, cy)
    ensures Distinct(CannonDiagonal(pos, p, cx, cy))
    ensures forall a :: a in CannonDiagonal(pos, p, cx, cy) ==>
      a.xTo != p.x && a.yTo != p.y && cx - 1 <= a.xTo <= cx + 1
  {
    forall a | a in CannonDiagonal(pos, p, cx, cy)
      ensures a.xTo != p.x && a.yTo != p.y && cx - 1 <= a.xTo <= cx + 1
    {
      CannonDiagonalSound(pos, p, cx, cy, a);
    }
  }

  /** The four slides of the chariot repeat no move and stay on its row
      and column. */
  lemma SlidesDistinct(pos: Position, p: Piece)
    requires Shaped(pos)
    ensures var straight := SlideScan(pos, p, p.x + 1, p.y, 1, 0) + SlideScan(pos, p, p.x - 1, p.y, -1, 0)
      + SlideScan(pos, p, p.x, p.y + 1, 0, 1) + SlideScan(pos, p, p.x, p.y - 1, 0, -1);
      Distinct(straight) && forall a :: a in straight ==> a.xTo == p.x || a.yTo == p.y
  {
    var n, s := SlideScan(pos, p, p.x + 1, p.y, 1, 0), SlideScan(pos, p, p.x - 1, p.y, -1, 0);
    var e, w := SlideScan(pos, p, p.x, p.y + 1, 0, 1), SlideScan(pos, p, p.x, p.y - 1, 0, -1);
    SlideScanDistinct(pos, p, p.x + 1, p.y, 1, 0);
    SlideScanDistinct(pos, p, p.x - 1, p.y, -1, 0);
    SlideScanDistinct(pos, p, p.x, p.y + 1, 0, 1);
    SlideScanDistinct(pos, p, p.x, p.y - 1, 0, -1);
    forall a | a in n ensures Toward(p, 1, 0, a) { SlideToward(pos, p, 1, 0, a); }
    forall a | a in s ensures Toward(p, -1, 0, a) { SlideToward(pos, p, -1, 0, a); }
    forall a | a in e ensures Toward(p, 0, 1, a) { SlideToward(pos, p, 0, 1, a); }
    forall a | a in w ensures Toward(p, 0, -1, a) { SlideToward(pos, p, 0, -1, a); }
    StraightDistinct(p, n, s, e, w);
  }

  lemma ChariotMovesDistinct(pos: Position, p: Piece)
    requires Shaped(pos) && Placed(p)
    ensures Distinct(ChariotMoves(pos, p))
  {
    SlidesDistinct(pos, p);
    ChariotDiagonalDistinct(pos, p, 1, 4);
    ChariotDiagonalDistinct(pos, p, 8, 4);
    DiagonalsAfter(p, SlideScan(pos, p, p.x + 1, p.y, 1, 0) + SlideScan(pos, p, p.x - 1, p.y, -1, 0)
      + SlideScan(pos, p, p.x, p.y + 1, 0, 1) + SlideScan(pos, p, p.x, p.y - 1, 0, -1),
      ChariotDiagonal(pos, p, 1, 4), ChariotDiagonal(pos, p, 8, 4));
  }

  /** The four straight scans of the cannon repeat no move and stay on its
      row and column. */
  lemma CannonStraightDistinct(pos: Position, p: Piece)
    requires Shaped(pos)
    ensures Distinct(CannonStraight(pos, p))
    ensures forall a :: a in CannonStraight(pos, p) ==> a.xTo == p.x || a.yTo == p.y
  {
    var n, s := CannonScan(pos, p, p.x + 1, p.y, 1, 0, false), CannonScan(pos, p, p.x - 1, p.y, -1, 0, false);
    var e, w := CannonScan(pos, p, p.x, p.y + 1, 0, 1, false), CannonScan(pos, p, p.x, p.y - 1, 0, -1, false);
    CannonScanDistinct(pos, p, p.x + 1, p.y, 1, 0, false);
    CannonScanDistinct(pos, p, p.x - 1, p.y, -1, 0, false);
    CannonScanDistinct(pos, p, p.x, p.y + 1, 0, 1, false);
    CannonScanDistinct(pos, p, p.x, p.y - 1, 0, -1, false);
    forall a | a in n ensures Toward(p, 1, 0, a) { CannonToward(pos, p, 1, 0, a); }
    forall a | a in s ensures Toward(p, -1, 0, a) { CannonToward(pos, p, -1, 0, a); }
    forall a | a in e ensures Toward(p, 0, 1, a) { CannonToward(pos, p, 0, 1, a); }
    forall a | a in w ensures Toward(p, 0, -1, a) { CannonToward(pos, p, 0, -1, a); }
    StraightDistinct(p, n, s, e, w);
  }

  lemma CannonMovesDistinct(pos: Position, p: Piece)
    requires Shaped(pos) && Placed(p)
    ensures Distinct(CannonMoves(pos, p))
  {
    CannonStraightDistinct(pos, p);
    CannonDiagonalDistinct(pos, p, 1, 4);
    CannonDiagonalDistinct(pos, p, 8, 4);
    DiagonalsAfter(p, CannonStraight(pos, p), CannonDiagonal(pos, p, 1, 4), CannonDiagonal(pos, p, 8, 4));
  }

  lemma SoldierMovesDistinct(pos: Position, p: Piece)
    requires Shaped(pos) && Placed(p)
    ensures Distinct(SoldierMoves(pos, p))
  {
  }

  lemma {:induction false} PalaceRowDistinct(pos: Position, p: Piece, b: Palace, xd: int, n: nat)
    requires Shaped(pos) && PalaceOnBoard(b) && n <= 3 && -1 <= xd <= 1
    ensures Distinct(PalaceRow(pos, p, b, xd, n))
  {
    if n > 0 {
      var front, step := PalaceRow(pos, p, b, xd, n - 1), PalaceStep(pos, p, b, xd, n - 2);
      PalaceRowDistinct(pos, p, b, xd, n - 1);
      forall a | a in front
        ensures a !in step
      {
        PalaceRowExactly(pos, p, b, xd, n - 1, a);
      }
      DistinctAppend(front, step);
    }
  }

  lemma {:induction false} PalaceRowsDistinct(pos: Position, p: Piece, b: Palace, n: nat)
    requires Shaped(pos) && PalaceOnBoard(b) && n <= 3
    ensures Distinct(PalaceRows(pos, p, b, n))
  {
    if n > 0 {
      var front, row := PalaceRows(pos, p, b, n - 1), PalaceRow(pos, p, b, n - 2, 3);
      PalaceRowsDistinct(pos, p, b, n - 1);
      PalaceRowDistinct(pos, p, b, n - 2, 3);
      forall a | a in front
        ensures a !in row
      {
        PalaceRowsExactly(pos, p, b, n - 1, a);
        PalaceRowExactly(pos, p, b, n - 2, 3, a);
      }
      DistinctAppend(front, row);
    }
  }

  /** Moves of four quadrants chain without repetitions: each quadrant's
      moves lie on its side of the piece in both directions. */
  lemma QuadrantsDistinct(p: Piece, q1: seq<Action>, q2: seq<Action>, q3: seq<Action>, q4: seq<Action>)
    requires Distinct(q1) && Distinct(q2) && Distinct(q3) && Distinct(q4)
    requires forall a :: a in q1 ==> Sign(a.xTo - p.x) == -1 && Sign(a.yTo - p.y) == 1
    requires forall a :: a in q2 ==> Sign(a.xTo - p.x) == -1 && Sign(a.yTo - p.y) == -1
    requires forall a :: a in q3 ==> Sign(a.xTo - p.x) == 1 && Sign(a.yTo - p.y) == 1
    requires forall a :: a in q4 ==> Sign(a.xTo - p.x) == 1 && Sign(a.yTo - p.y) == -1
    ensures Distinct(q1 + q2 + q3 + q4)
  {
    DistinctAppend(q1, q2);
    DistinctAppend(q1 + q2, q3);
    DistinctAppend(q1 + q2 + q3, q4);
  }

  lemma HorseMovesDistinct(pos: Position, p: Piece)
    requires Shaped(pos) && Placed(p)
    ensures Distinct(HorseMoves(pos, p))
  {
    forall fx, fy | (fx == 1 || fx == -1) && (fy == 1 || fy == -1)
      ensures Distinct(HorseSub(pos, p, fx, fy))
      ensures forall a :: a in HorseSub(pos, p, fx, fy) ==> Sign(a.xTo - p.x) == fx && Sign(a.yTo - p.y) == fy
    {
      forall a | a in HorseSub(pos, p, fx, fy)
        ensures Sign(a.xTo - p.x) == fx && Sign(a.yTo - p.y) == fy
      {
        HorseSubSound(pos, p, fx, fy, a);
      }
    }
    QuadrantsDistinct(p, HorseSub(pos, p, -1, 1), HorseSub(pos, p, -1, -1), HorseSub(pos, p, 1, 1), HorseSub(pos, p, 1, -1));
  }

  lemma ElephantMovesDistinct(pos: Position, p: Piece)
    requires Shaped(pos) && Placed(p)
    ensures Distinct(ElephantMoves(pos, p))
  {
    forall fx, fy | (fx == 1 || fx == -1) && (fy == 1 || fy == -1)
      ensures Distinct(ElephantSub(pos, p, fx, fy))
      ensures forall a :: a in ElephantSub(pos, p, fx, fy) ==> Sign(a.xTo - p.x) == fx && Sign(a.yTo - p.y) == fy
    {
      forall a | a in ElephantSub(pos, p, fx, fy)
        ensures Sign(a.xTo - p.x) == fx && Sign(a.yTo - p.y) == fy
      {
        ElephantSubSound(pos, p, fx, fy, a);
      }
    }
    QuadrantsDistinct(p, ElephantSub(pos, p, -1, 1), ElephantSub(pos, p, -1, -1), ElephantSub(pos, p, 1, 1), ElephantSub(pos, p, 1, -1));
  }

  /** No generator offers the same move twice. */
  lemma PieceMovesDistinct(pos: Position, p: Piece)
    requires Shaped(pos) && Placed(p)
    ensures Distinct(PieceMoves(pos, p))
  {
    match p.kind
    case Soldier => SoldierMovesDistinct(pos, p);
    case Cannon => CannonMovesDistinct(pos, p);
    case General => PalaceRowsDistinct(pos, p, PalaceOf(p.color), 3);
    case Chariot => ChariotMovesDistinct(pos, p);
    case Elephant => ElephantMovesDistinct(pos, p);
    case Horse => HorseMovesDistinct(pos, p);
    case Guard => PalaceRowsDistinct(pos, p, PalaceOf(p.color), 3);
  }
}
