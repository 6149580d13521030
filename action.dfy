/** Moves as values and their 58-way move-class encoding (janggi/action.py). */
module Actions {
  import opened Utils

  /** A move from (xFrom, yFrom) to (xTo, yTo). Equality of this datatype is
      equality of the four coordinates, which is what `Action.__eq__` compares;
      the transient `eaten` slot of the source object is kept by the board
      (see `Boards.Board.eatenStack`) rather than in the value. */
  datatype Action = Action(xFrom: int, yFrom: int, xTo: int, yTo: int)

  /** A move as it travels through the game: `None` is the pass of the source. */
  type Move = Option<Action>

  /** Both squares of the move lie on the board. */
  predicate OnBoard(a: Action)
  {
    IsIn(a.xFrom, a.yFrom) && IsIn(a.xTo, a.yTo)
  }

  /** `Action.__hash__` hashes the coordinate tuple; the model uses a
      mixed-radix encoding of the same tuple, so the hash is a function of the
      four coordinates only. */
  function Hash(a: Action): int
  {
    ((a.xFrom * Width + a.yFrom) * Height + a.xTo) * Width + a.yTo
  }

  /** Quotient and remainder of `k * 9 + r` and `k * 10 + r` for a digit `r`. */
  lemma DivModWidth(k: int, r: int)
    requires 0 <= r < Width
    ensures (k * Width + r) / Width == k && (k * Width + r) % Width == r
  {
  }

  lemma DivModHeight(k: int, r: int)
    requires 0 <= r < Height
    ensures (k * Height + r) / Height == k && (k * Height + r) % Height == r
  {
  }

  /** Reading the four coordinates back out of a hash of an on-board move. */
  function Unhash(h: int): Action
  {
    Action(h / Width / Height / Width, h / Width / Height % Width, h / Width % Height, h % Width)
  }

  /** Every on-board move hashes into [0, 10*9*10*9) and the hash can be
      decoded, so distinct on-board moves have distinct hashes (the property
      the test janggi/tests/test_action.py checks on all 8100 moves). */
  lemma HashRoundTrip(a: Action)
    requires OnBoard(a)
    ensures 0 <= Hash(a) < Height * Width * Height * Width
    ensures Unhash(Hash(a)) == a
  {
    var k1 := a.xFrom * Width + a.yFrom;
    var k2 := k1 * Height + a.xTo;
    assert 0 <= k1 < Height * Width;
    assert 0 <= k2 < Height * Width * Height by {
      assert k2 <= (Height * Width - 1) * Height + Height - 1;
    }
    DivModWidth(k2, a.yTo);
    DivModHeight(k1, a.xTo);
    DivModWidth(a.xFrom, a.yFrom);
  }

  lemma HashInjective(a: Action, b: Action)
    requires OnBoard(a) && OnBoard(b)
    ensures Hash(a) == Hash(b) <==> a == b
  {
    HashRoundTrip(a);
    HashRoundTrip(b);
  }

  /** `Action.get_features(symmetry)`: the move class used to address the
      policy tensor. `None` stands for the fall-through of the source (a move
      that is neither straight nor has a row or column offset of 1 or 2, for
      which the Python method returns `None`). */
  function MoveClass(a: Action, symmetry: bool): (r: Option<int>)
    ensures r.Some? && OnBoard(a) ==> 0 <= r.value < 58
  {
    var dx := a.xTo - a.xFrom;
    var dy := a.yTo - a.yFrom;
    if dy == 0 then
      // vertical: north, then south
      if dx > 0 then Some(dx - 1) else Some(-dx + 8)
    else if dx == 0 then
      // horizontal: east, then west
      if dy > 0 then Some(if !symmetry then dy + 17 else dy + 25)
      else Some(if !symmetry then -dy + 25 else -dy + 17)
    else if dy == 1 then
      // short diagonal east, then horse vertical east
      if dx == 1 then Some(if !symmetry then 34 else 36)
      else if dx == -1 then Some(if !symmetry then 35 else 37)
      else if dx > 0 then Some(if !symmetry then 42 else 44)
      else Some(if !symmetry then 43 else 45)
    else if dy == -1 then
      // short diagonal west, then horse vertical west
      if dx == 1 then Some(if !symmetry then 36 else 34)
      else if dx == -1 then Some(if !symmetry then 37 else 35)
      else if dx > 0 then Some(if !symmetry then 44 else 42)
      else Some(if !symmetry then 45 else 43)
    else if dx == 1 then
      // horse horizontal north
      if dy > 0 then Some(if !symmetry then 46 else 47) else Some(if !symmetry then 47 else 46)
    else if dx == -1 then
      // horse horizontal south
      if dy > 0 then Some(if !symmetry then 48 else 49) else Some(if !symmetry then 49 else 48)
    else if dy == 2 then
      // large diagonal east, then elephant vertical east
      if dx == 2 then Some(if !symmetry then 38 else 40)
      else if dx == -2 then Some(if !symmetry then 39 else 41)
      else if dx > 0 then Some(if !symmetry then 50 else 52)
      else Some(if !symmetry then 51 else 53)
    else if dy == -2 then
      // large diagonal west, then elephant vertical west
      if dx == 2 then Some(if !symmetry then 40 else 38)
      else if dx == -2 then Some(if !symmetry then 41 else 39)
      else if dx > 0 then Some(if !symmetry then 52 else 50)
      else Some(if !symmetry then 53 else 51)
    else if dx == 2 then
      // elephant horizontal north
      if dy > 0 then Some(if !symmetry then 54 else 55) else Some(if !symmetry then 55 else 54)
    else if dx == -2 then
      // elephant horizontal south
      if dy > 0 then Some(if !symmetry then 56 else 57) else Some(if !symmetry then 57 else 56)
    else
      None
  }

  /** A vertical move of d squares is class d - 1 going north and d + 8 going
      south, whatever the symmetry flag. */
  lemma VerticalClasses(a: Action, symmetry: bool)
    requires a.yFrom == a.yTo
    ensures a.xTo > a.xFrom ==> MoveClass(a, symmetry) == Some(a.xTo - a.xFrom - 1)
    ensures a.xTo <= a.xFrom ==> MoveClass(a, symmetry) == Some(a.xFrom - a.xTo + 8)
    ensures MoveClass(a, symmetry) == MoveClass(a, !symmetry)
  {
  }

  /** A horizontal move of d squares is class d + 17 going east and d + 25
      going west; the symmetry flag swaps the two families. */
  lemma HorizontalClasses(a: Action)
    requires a.xFrom == a.xTo && a.yFrom != a.yTo
    ensures a.yTo > a.yFrom ==> MoveClass(a, false) == Some(a.yTo - a.yFrom + 17)
    ensures a.yTo > a.yFrom ==> MoveClass(a, true) == Some(a.yTo - a.yFrom + 25)
    ensures a.yTo < a.yFrom ==> MoveClass(a, false) == Some(a.yFrom - a.yTo + 25)
    ensures a.yTo < a.yFrom ==> MoveClass(a, true) == Some(a.yFrom - a.yTo + 17)
  {
  }

  function Abs(n: int): nat
  {
    if n < 0 then -n else n
  }

  /** A move gets a class exactly when it is straight or one of its offsets is
      1 or 2 in absolute value; the diagonal, horse and elephant shapes fall in
      fixed bands. */
  lemma ClassBands(a: Action, symmetry: bool)
    ensures var dx, dy := Abs(a.xTo - a.xFrom), Abs(a.yTo - a.yFrom);
      && (MoveClass(a, symmetry).Some? <==> (dx == 0 || dy == 0 || dx in {1, 2} || dy in {1, 2}))
      && (dx == 1 && dy == 1 ==> 34 <= MoveClass(a, symmetry).value <= 37)
      && (dx == 2 && dy == 2 ==> 38 <= MoveClass(a, symmetry).value <= 41)
      && ((dx == 2 && dy == 1) || (dx == 1 && dy == 2) ==> 42 <= MoveClass(a, symmetry).value <= 49)
      && ((dx == 3 && dy == 2) || (dx == 2 && dy == 3) ==> 50 <= MoveClass(a, symmetry).value <= 57)
  {
  }

  /** The move seen in a board mirrored column-wise (y becomes 8 - y). */
  function MirrorColumns(a: Action): (m: Action)
    ensures OnBoard(a) ==> OnBoard(m)
  {
    Action(a.xFrom, Width - 1 - a.yFrom, a.xTo, Width - 1 - a.yTo)
  }

  /** The symmetric encoding of the mirrored move is the plain encoding of the
      move, so counting classes over a mirror-closed set of moves gives the
      same totals with and without the flag. */
  lemma MirrorClass(a: Action)
    ensures MoveClass(MirrorColumns(a), true) == MoveClass(a, false)
    ensures MoveClass(MirrorColumns(a), false) == MoveClass(a, true)
  {
  }
}
