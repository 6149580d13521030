/** The values a `Board` (janggi/board.py) holds and the invariant tying
    them together: the per-colour lists derived from the grid, the
    `ActionCacheNode` tree, the recorded `eaten` fields, and the state
    changes `apply_action` and `reverse_action` make, computed on values. */
module BoardStates {
  import opened Utils
  import opened Actions
  import opened Positions
  import opened Pieces
  import opened Rules
  import opened Layout

  type Grid = seq<seq<Option<PieceId>>>

  // ------------------------------------------------------ per-colour lists

  /** Every grid reference is an index of the arena. */
  ghost predicate GridInArena(grid: Grid, pieces: seq<Piece>)
  {
    |grid| == Height && (forall x :: 0 <= x < Height ==> |grid[x]| == Width)
    && forall x, y :: IsIn(x, y) && grid[x][y].Some? ==> grid[x][y].value < |pieces|
  }

  /** The piece of colour `c` on square (x, y), if any, as a list. */
  function ColorCell(grid: Grid, pieces: seq<Piece>, c: Color, x: int, y: int): seq<PieceId>
    requires GridInArena(grid, pieces) && IsIn(x, y)
  {
    match grid[x][y]
    case None => []
    case Some(id) => if pieces[id].color == c then [id] else []
  }

  /** The pieces of colour `c` among the first `n` cells of row `x`. */
  function ColorRow(grid: Grid, pieces: seq<Piece>, c: Color, x: int, n: nat): seq<PieceId>
    requires GridInArena(grid, pieces) && 0 <= x < Height && n <= Width
  {
    if n == 0 then [] else ColorRow(grid, pieces, c, x, n - 1) + ColorCell(grid, pieces, c, x, n - 1)
  }

  /** The pieces of colour `c` in the first `n` rows, row by row. */
  function ColorRows(grid: Grid, pieces: seq<Piece>, c: Color, n: nat): seq<PieceId>
    requires GridInArena(grid, pieces) && n <= Height
  {
    if n == 0 then [] else ColorRows(grid, pieces, c, n - 1) + ColorRow(grid, pieces, c, n - 1, Width)
  }

  lemma {:induction false} ColorRowExactly(grid: Grid, pieces: seq<Piece>, c: Color, x: int, n: nat, id: PieceId)
    requires GridInArena(grid, pieces) && 0 <= x < Height && n <= Width
    ensures id in ColorRow(grid, pieces, c, x, n) <==>
      exists y :: 0 <= y < n && grid[x][y] == Some(id) && pieces[id].color == c
  {
    if n > 0 {
      ColorRowExactly(grid, pieces, c, x, n - 1, id);
    }
  }

  /** A listed piece stands in one of the scanned rows with the list's
      colour. */
  lemma {:induction false} ColorRowsSound(grid: Grid, pieces: seq<Piece>, c: Color, n: nat, id: PieceId)
    requires GridInArena(grid, pieces) && n <= Height && id in ColorRows(grid, pieces, c, n)
    ensures exists x, y :: 0 <= x < n && 0 <= y < Width && grid[x][y] == Some(id) && pieces[id].color == c
  {
    if id in ColorRows(grid, pieces, c, n - 1) {
      ColorRowsSound(grid, pieces, c, n - 1, id);
      var x, y :| 0 <= x < n - 1 && 0 <= y < Width && grid[x][y] == Some(id) && pieces[id].color == c;
      assert 0 <= x < n;
    } else {
      ColorRowExactly(grid, pieces, c, n - 1, Width, id);
    }
  }

  /** A piece of the colour standing in one of the scanned rows is listed. */
  lemma {:induction false} ColorRowsComplete(grid: Grid, pieces: seq<Piece>, c: Color, n: nat, id: PieceId, x: int, y: int)
    requires GridInArena(grid, pieces) && n <= Height
    requires 0 <= x < n && 0 <= y < Width && grid[x][y] == Some(id) && pieces[id].color == c
    ensures id in ColorRows(grid, pieces, c, n)
  {
    if x < n - 1 {
      ColorRowsComplete(grid, pieces, c, n - 1, id, x, y);
    } else {
      ColorRowExactly(grid, pieces, c, n - 1, Width, id);
    }
  }

  /** The list of a colour holds exactly the pieces of that colour on the
      grid. */
  lemma ColorRowsExactly(grid: Grid, pieces: seq<Piece>, c: Color, n: nat, id: PieceId)
    requires GridInArena(grid, pieces) && n <= Height
    ensures id in ColorRows(grid, pieces, c, n) <==>
      exists x, y :: 0 <= x < n && 0 <= y < Width && grid[x][y] == Some(id) && pieces[id].color == c
  {
    if id in ColorRows(grid, pieces, c, n) {
      ColorRowsSound(grid, pieces, c, n, id);
    }
    if exists x, y :: 0 <= x < n && 0 <= y < Width && grid[x][y] == Some(id) && pieces[id].color == c {
      var x, y :| 0 <= x < n && 0 <= y < Width && grid[x][y] == Some(id) && pieces[id].color == c;
      ColorRowsComplete(grid, pieces, c, n, id, x, y);
    }
  }

  /** Every listed piece is of the list's colour. */
  lemma ColorRowsColored(grid: Grid, pieces: seq<Piece>, c: Color)
    requires GridInArena(grid, pieces)
    ensures var ids := ColorRows(grid, pieces, c, Height);
      forall i :: 0 <= i < |ids| ==> ids[i] < |pieces| && pieces[ids[i]].color == c
  {
    var ids := ColorRows(grid, pieces, c, Height);
    forall i | 0 <= i < |ids|
      ensures ids[i] < |pieces| && pieces[ids[i]].color == c
    {
      assert ids[i] in ids;
      ColorRowsExactly(grid, pieces, c, Height, ids[i]);
    }
  }

  /** Every grid reference names a piece whose coordinates are its square. */
  ghost predicate GridAgrees(grid: Grid, pieces: seq<Piece>)
    requires GridInArena(grid, pieces)
  {
    forall x, y :: IsIn(x, y) && grid[x][y].Some? ==>
      pieces[grid[x][y].value].x == x && pieces[grid[x][y].value].y == y
  }

  /** A piece listed from the first `n` cells of row `x` stands in that row,
      left of column `n`. */
  lemma ColorRowPlaced(grid: Grid, pieces: seq<Piece>, c: Color, x: int, n: nat, id: PieceId)
    requires GridInArena(grid, pieces) && GridAgrees(grid, pieces) && 0 <= x < Height && n <= Width
    requires id in ColorRow(grid, pieces, c, x, n)
    ensures id < |pieces| && pieces[id].x == x && pieces[id].y < n
  {
    ColorRowExactly(grid, pieces, c, x, n, id);
  }

  /** When the grid agrees with the coordinates, a row lists each piece
      once. */
  lemma {:induction false} ColorRowDistinct(grid: Grid, pieces: seq<Piece>, c: Color, x: int, n: nat)
    requires GridInArena(grid, pieces) && GridAgrees(grid, pieces) && 0 <= x < Height && n <= Width
    ensures Distinct(ColorRow(grid, pieces, c, x, n))
  {
    if n > 0 {
      var front, cell := ColorRow(grid, pieces, c, x, n - 1), ColorCell(grid, pieces, c, x, n - 1);
      ColorRowDistinct(grid, pieces, c, x, n - 1);
      forall id | id in front
        ensures id !in cell
      {
        ColorRowPlaced(grid, pieces, c, x, n - 1, id);
      }
      DistinctAppend(front, cell);
    }
  }

  /** When the grid agrees with the coordinates, the scan lists each piece
      once. */
  lemma {:induction false} ColorRowsDistinct(grid: Grid, pieces: seq<Piece>, c: Color, n: nat)
    requires GridInArena(grid, pieces) && GridAgrees(grid, pieces) && n <= Height
    ensures Distinct(ColorRows(grid, pieces, c, n))
  {
    if n > 0 {
      var front, row := ColorRows(grid, pieces, c, n - 1), ColorRow(grid, pieces, c, n - 1, Width);
      ColorRowsDistinct(grid, pieces, c, n - 1);
      ColorRowDistinct(grid, pieces, c, n - 1, Width);
      forall id | id in front
        ensures id !in row
      {
        ColorRowsSound(grid, pieces, c, n - 1, id);
        var x, y :| 0 <= x < n - 1 && 0 <= y < Width && grid[x][y] == Some(id) && pieces[id].color == c;
        if id in row {
          ColorRowPlaced(grid, pieces, c, n - 1, Width, id);
        }
      }
      DistinctAppend(front, row);
    }
  }

  // ------------------------------------------------------------ the cache

  /** The four optional lists of an `ActionCacheNode`. */
  datatype CacheNode = CacheNode(
    blue: Option<seq<Action>>,
    noGeneralBlue: Option<seq<Action>>,
    red: Option<seq<Action>>,
    noGeneralRed: Option<seq<Action>>)
  {
    function Slot(c: Color, excl: bool): Option<seq<Action>>
    {
      if c == Red then (if excl then noGeneralRed else red)
      else (if excl then noGeneralBlue else blue)
    }

    function WithSlot(c: Color, excl: bool, v: seq<Action>): (r: CacheNode)
      ensures r.Slot(c, excl) == Some(v)
      ensures forall c', e' :: (c' != c || e' != excl) ==> r.Slot(c', e') == Slot(c', e')
    {
      if c == Red then (if excl then this.(noGeneralRed := Some(v)) else this.(red := Some(v)))
      else (if excl then this.(noGeneralBlue := Some(v)) else this.(blue := Some(v)))
    }
  }

  const EmptyNode := CacheNode(None, None, None, None)

  /** A new `ActionCacheNode` holds no list. */
  lemma EmptyNodeSlots(c: Color, excl: bool)
    ensures EmptyNode.Slot(c, excl).None?
  {
  }

  /** What `get_actions(color, exclude_general)` computes at a position. */
  function Expected(pos: Position, c: Color, excl: bool): seq<Action>
    requires WellFormed(pos)
  {
    if excl then Candidates(pos, c, true) else Legal(pos, c)
  }

  /** Every list stored in the cache is the one `get_actions` computes at
      the position of its node. */
  ghost predicate SlotsCorrect(cache: map<seq<Move>, CacheNode>, nodePos: map<seq<Move>, Position>)
    requires AllWellFormed(nodePos)
  {
    forall k, c, excl :: k in cache && cache[k].Slot(c, excl).Some? ==>
      k in nodePos && cache[k].Slot(c, excl).value == Expected(nodePos[k], c, excl)
  }

  /** A move can be applied at a position (a pass always can). */
  predicate MoveOk(pos: Position, m: Move)
    requires Shaped(pos)
  {
    m.Some? ==> Applicable(pos, m.value)
  }

  /** Every cached node's position is well formed. */
  ghost predicate AllWellFormed(nodePos: map<seq<Move>, Position>)
  {
    forall k {:trigger WellFormed(nodePos[k])} {:trigger Shaped(nodePos[k])} :: k in nodePos ==> WellFormed(nodePos[k])
  }

  /** Every node but the root is the child, for its last move, of the node
      of its parent path. */
  ghost predicate ParentsLinked(nodePos: map<seq<Move>, Position>)
    requires AllWellFormed(nodePos)
  {
    forall k, m :: k + [m] in nodePos ==>
      && k in nodePos
      && MoveOk(nodePos[k], m)
      && nodePos[k + [m]] == StepMove(nodePos[k], m)
  }

  /** The cache tree: the nodes' positions are well formed and linked to
      their parents, and their lists are correct. */
  ghost predicate CacheTree(cache: map<seq<Move>, CacheNode>, nodePos: map<seq<Move>, Position>)
  {
    && cache.Keys == nodePos.Keys
    && AllWellFormed(nodePos)
    && SlotsCorrect(cache, nodePos)
    && ParentsLinked(nodePos)
  }

  /** The `eaten` fields of the moves on the current path: each is the
      occupant of the destination at the node the move was applied from. */
  ghost predicate EatenRecorded(path: seq<Move>, eaten: seq<Option<PieceId>>, nodePos: map<seq<Move>, Position>)
    requires AllWellFormed(nodePos)
    decreases |path|
  {
    && |eaten| == |path|
    && (|path| > 0 ==>
          var n := |path| - 1;
          && path[..n] in nodePos
          && eaten[n] == (if path[n].None? || !OnBoard(path[n].value) then None else EatenAt(nodePos[path[..n]], path[n].value))
          && EatenRecorded(path[..n], eaten[..n], nodePos))
  }

  /** Old nodes keep their positions. */
  ghost predicate Extends(m1: map<seq<Move>, Position>, m2: map<seq<Move>, Position>)
  {
    forall k :: k in m1 ==> k in m2 && m2[k] == m1[k]
  }

  /** A fresh cache root alone is a correct cache tree. */
  lemma SingleNodeTree(pos: Position)
    requires WellFormed(pos)
    ensures CacheTree(map[[] := EmptyNode], map[[] := pos])
  {
  }

  /** A new empty node keeps every stored list correct. */
  lemma AddEmptyNode(cache: map<seq<Move>, CacheNode>, nodePos: map<seq<Move>, Position>, key: seq<Move>, pos: Position)
    requires AllWellFormed(nodePos) && AllWellFormed(nodePos[key := pos])
    requires SlotsCorrect(cache, nodePos) && key !in cache
    ensures SlotsCorrect(cache[key := EmptyNode], nodePos[key := pos])
  {
    var cache', nodePos' := cache[key := EmptyNode], nodePos[key := pos];
    forall k, c, excl | k in cache' && cache'[k].Slot(c, excl).Some?
      ensures k in nodePos' && cache'[k].Slot(c, excl).value == Expected(nodePos'[k], c, excl)
    {
      EmptyNodeSlots(c, excl);
      assert k != key;
    }
  }

  /** After adding the child of `path` for `m`, the node of `k + [m']` is
      still linked to its parent. */
  lemma LinkedAfterAdd(nodePos: map<seq<Move>, Position>, path: seq<Move>, m: Move, child: Position,
                       k: seq<Move>, m': Move)
    requires AllWellFormed(nodePos) && ParentsLinked(nodePos)
    requires path in nodePos && MoveOk(nodePos[path], m) && path + [m] !in nodePos
    requires child == StepMove(nodePos[path], m)
    requires k + [m'] in nodePos[path + [m] := child]
    ensures var nodePos' := nodePos[path + [m] := child];
      k in nodePos' && MoveOk(nodePos'[k], m') && nodePos'[k + [m']] == StepMove(nodePos'[k], m')
  {
    var key := path + [m];
    if k + [m'] == key {
      assert k == key[..|key| - 1] == path;
      assert m' == key[|key| - 1] == m;
    } else {
      assert k + [m'] in nodePos;
    }
  }

  /** The child of a node for a move is linked to it. */
  lemma AddLinkedChild(nodePos: map<seq<Move>, Position>, path: seq<Move>, m: Move)
    requires AllWellFormed(nodePos) && ParentsLinked(nodePos)
    requires path in nodePos && MoveOk(nodePos[path], m) && path + [m] !in nodePos
    ensures AllWellFormed(nodePos[path + [m] := StepMove(nodePos[path], m)])
    ensures ParentsLinked(nodePos[path + [m] := StepMove(nodePos[path], m)])
  {
    var child := StepMove(nodePos[path], m);
    var nodePos' := nodePos[path + [m] := child];
    assert AllWellFormed(nodePos');
    forall k, m' | k + [m'] in nodePos'
      ensures k in nodePos' && MoveOk(nodePos'[k], m') && nodePos'[k + [m']] == StepMove(nodePos'[k], m')
    {
      LinkedAfterAdd(nodePos, path, m, child, k, m');
    }
  }

  /** Creating the child of a node for a move keeps the cache tree. */
  lemma AddChild(cache: map<seq<Move>, CacheNode>, nodePos: map<seq<Move>, Position>, path: seq<Move>, m: Move)
    requires CacheTree(cache, nodePos) && path in nodePos && MoveOk(nodePos[path], m)
    requires path + [m] !in nodePos
    ensures CacheTree(cache[path + [m] := EmptyNode], nodePos[path + [m] := StepMove(nodePos[path], m)])
  {
    AddLinkedChild(nodePos, path, m);
    AddEmptyNode(cache, nodePos, path + [m], StepMove(nodePos[path], m));
  }

  /** Storing the list `get_actions` computes at a node keeps the cache
      tree. */
  lemma StoreSlot(cache: map<seq<Move>, CacheNode>, nodePos: map<seq<Move>, Position>, k: seq<Move>,
                  c: Color, excl: bool, v: seq<Action>)
    requires CacheTree(cache, nodePos) && k in cache
    requires v == Expected(nodePos[k], c, excl)
    ensures CacheTree(cache[k := cache[k].WithSlot(c, excl, v)], nodePos)
  {
    var cache' := cache[k := cache[k].WithSlot(c, excl, v)];
    forall k', c', e' | k' in cache' && cache'[k'].Slot(c', e').Some?
      ensures k' in nodePos
      ensures cache'[k'].Slot(c', e').value == Expected(nodePos[k'], c', e')
    {
    }
  }

  /** The record of the `eaten` fields survives adding cache nodes. */
  lemma {:induction false} EatenExtends(path: seq<Move>, eaten: seq<Option<PieceId>>,
                                        nodePos: map<seq<Move>, Position>, nodePos': map<seq<Move>, Position>)
    requires AllWellFormed(nodePos) && AllWellFormed(nodePos')
    requires EatenRecorded(path, eaten, nodePos) && Extends(nodePos, nodePos')
    ensures EatenRecorded(path, eaten, nodePos')
    decreases |path|
  {
    if |path| > 0 {
      var n := |path| - 1;
      EatenExtends(path[..n], eaten[..n], nodePos, nodePos');
    }
  }

  /** Recording the `eaten` of a move applied at the end of the path. */
  lemma PushEaten(path: seq<Move>, eaten: seq<Option<PieceId>>, nodePos: map<seq<Move>, Position>,
                  nodePos': map<seq<Move>, Position>, m: Move, e: Option<PieceId>)
    requires AllWellFormed(nodePos) && AllWellFormed(nodePos')
    requires EatenRecorded(path, eaten, nodePos) && Extends(nodePos, nodePos')
    requires path in nodePos
    requires e == (if m.None? || !OnBoard(m.value) then None else EatenAt(nodePos[path], m.value))
    ensures EatenRecorded(path + [m], eaten + [e], nodePos')
  {
    EatenExtends(path, eaten, nodePos, nodePos');
    assert (path + [m])[..|path|] == path;
    assert (eaten + [e])[..|eaten|] == eaten;
  }

  /** The invariant of a board: its position is well formed and is the
      position of the current cache node, the cache is a correct tree, and
      the `eaten` of every move on the path is recorded. */
  ghost predicate BoardInv(pos: Position, path: seq<Move>, floor: nat, eaten: seq<Option<PieceId>>,
                           cache: map<seq<Move>, CacheNode>, nodePos: map<seq<Move>, Position>)
  {
    && WellFormed(pos)
    && floor <= |path|
    && CacheTree(cache, nodePos)
    && path in nodePos && nodePos[path] == pos
    && EatenRecorded(path, eaten, nodePos)
  }

  /** `apply_action` keeps the invariant: the current node becomes the
      child for the move, created if missing, whose position is the moved
      position. */
  lemma ApplyKeepsInv(pos: Position, path: seq<Move>, floor: nat, eaten: seq<Option<PieceId>>,
                      cache: map<seq<Move>, CacheNode>, nodePos: map<seq<Move>, Position>, m: Move,
                      pos': Position, path': seq<Move>, eaten': seq<Option<PieceId>>,
                      cache': map<seq<Move>, CacheNode>, nodePos': map<seq<Move>, Position>)
    requires BoardInv(pos, path, floor, eaten, cache, nodePos) && MoveOk(pos, m)
    requires pos' == StepMove(pos, m) && path' == path + [m]
    requires eaten' == eaten + [if m.None? then None else EatenAt(pos, m.value)]
    requires cache' == (if path' in cache then cache else cache[path' := EmptyNode])
    requires nodePos' == (if path' in cache then nodePos else nodePos[path' := pos'])
    ensures BoardInv(pos', path', floor, eaten', cache', nodePos') && Extends(nodePos, nodePos')
  {
    if path' !in cache {
      AddChild(cache, nodePos, path, m);
    }
    assert nodePos'[path'] == StepMove(pos, m);
    PushEaten(path, eaten, nodePos, nodePos', m, eaten'[|eaten|]);
    assert eaten' == eaten + [eaten'[|eaten|]];
  }

  /** What `apply_action(m)` does to the values of a board: the position
      becomes the moved one, the move and the piece it eats are pushed on the
      path and on the record of `eaten` fields, and the cache only gains
      nodes. */
  ghost predicate Applied(pos: Position, path: seq<Move>, eaten: seq<Option<PieceId>>,
                          cache: map<seq<Move>, CacheNode>, nodePos: map<seq<Move>, Position>, m: Move,
                          pos': Position, path': seq<Move>, eaten': seq<Option<PieceId>>,
                          cache': map<seq<Move>, CacheNode>, nodePos': map<seq<Move>, Position>, e: Option<PieceId>)
    requires WellFormed(pos) && MoveOk(pos, m)
  {
    && pos' == StepMove(pos, m)
    && e == (if m.None? then None else EatenAt(pos, m.value))
    && path' == path + [m] && eaten' == eaten + [e]
    && Extends(nodePos, nodePos')
    && (forall k :: k in cache ==> k in cache' && cache'[k] == cache[k])
  }

  /** The new state of `apply_action` computed from the old one: the grid
      and pieces of the moved position, the path and eaten record extended,
      and a fresh child cache node when there was none. */
  method ApplyState(pos: Position, path: seq<Move>, floor: nat, eaten: seq<Option<PieceId>>,
                    cache: map<seq<Move>, CacheNode>, ghost nodePos: map<seq<Move>, Position>, m: Move)
    returns (grid: Grid, pieces: seq<Piece>, e: Option<PieceId>, path': seq<Move>, eaten': seq<Option<PieceId>>,
             cache': map<seq<Move>, CacheNode>, ghost nodePos': map<seq<Move>, Position>)
    requires BoardInv(pos, path, floor, eaten, cache, nodePos) && MoveOk(pos, m)
    ensures Applied(pos, path, eaten, cache, nodePos, m, pos.(grid := grid, pieces := pieces), path', eaten', cache', nodePos', e)
    ensures BoardInv(pos.(grid := grid, pieces := pieces), path', floor, eaten', cache', nodePos')
  {
    path' := path + [m];
    cache', nodePos' := cache, nodePos;
    if path' !in cache {
      cache' := cache[path' := EmptyNode];
      nodePos' := nodePos[path' := StepMove(pos, m)];
    }
    grid, pieces, e := pos.grid, pos.pieces, None;
    if m.Some? {
      grid, pieces, e := MovePiece(pos, m.value);
    }
    eaten' := eaten + [e];
    ApplyKeepsInv(pos, path, floor, eaten, cache, nodePos, m, pos.(grid := grid, pieces := pieces), path', eaten', cache', nodePos');
  }

  /** `reverse_action` keeps the invariant: the current node becomes the
      parent, whose position is the one the last move was applied to. */
  lemma ReverseKeepsInv(pos: Position, path: seq<Move>, floor: nat, eaten: seq<Option<PieceId>>,
                        cache: map<seq<Move>, CacheNode>, nodePos: map<seq<Move>, Position>)
    requires BoardInv(pos, path, floor, eaten, cache, nodePos) && |path| > floor
    ensures var parent := path[..|path| - 1];
      var m := path[|path| - 1];
      && BoardInv(nodePos[parent], parent, floor, eaten[..|eaten| - 1], cache, nodePos)
      && MoveOk(nodePos[parent], m) && pos == StepMove(nodePos[parent], m)
      && eaten[|eaten| - 1] == (if m.None? then None else EatenAt(nodePos[parent], m.value))
  {
    var parent := path[..|path| - 1];
    assert path == parent + [path[|path| - 1]];
    assert path[..|path| - 1] == parent;
  }

  /** The new state of `reverse_action` of the last move computed from the
      old one: the path and eaten record shortened, and the grid and pieces
      of the parent node's position, rebuilt by undoing the move. */
  method ReverseState(pos: Position, path: seq<Move>, floor: nat, eaten: seq<Option<PieceId>>,
                      ghost cache: map<seq<Move>, CacheNode>, ghost nodePos: map<seq<Move>, Position>, m: Move)
    returns (grid: Grid, pieces: seq<Piece>, path': seq<Move>, eaten': seq<Option<PieceId>>)
    requires BoardInv(pos, path, floor, eaten, cache, nodePos) && |path| > floor && path[|path| - 1] == m
    ensures path' == path[..|path| - 1] && eaten' == eaten[..|eaten| - 1]
    ensures path' in nodePos && pos.(grid := grid, pieces := pieces) == nodePos[path']
    ensures BoardInv(nodePos[path'], path', floor, eaten', cache, nodePos)
    ensures MoveOk(nodePos[path'], m) && pos == StepMove(nodePos[path'], m)
    ensures m.Some? ==> pos.(grid := grid, pieces := pieces) == Undo(pos, m.value, eaten[|eaten| - 1])
  {
    ReverseKeepsInv(pos, path, floor, eaten, cache, nodePos);
    path', eaten' := path[..|path| - 1], eaten[..|eaten| - 1];
    grid, pieces := pos.grid, pos.pieces;
    if m.Some? {
      UndoStep(nodePos[path'], m.value);
      grid, pieces := UnmovePiece(pos, m.value, eaten[|eaten| - 1]);
    }
  }

  /** Moving the piece of `a`: its coordinates become the destination, the
      piece on the destination (returned) is marked dead, the destination
      holds the mover and the origin is emptied. */
  method MovePiece(pos: Position, a: Action) returns (grid: Grid, pieces: seq<Piece>, eaten: Option<PieceId>)
    requires WellFormed(pos) && Applicable(pos, a)
    ensures pos.(grid := grid, pieces := pieces) == Step(pos, a)
    ensures eaten == EatenAt(pos, a)
  {
    grid, pieces := pos.grid, pos.pieces;
    var id := grid[a.xFrom][a.yFrom].value;
    pieces := pieces[id := pieces[id].(x := a.xTo, y := a.yTo)];
    eaten := grid[a.xTo][a.yTo];
    if eaten.Some? {
      pieces := pieces[eaten.value := pieces[eaten.value].(alive := false)];
    }
    grid := SetCell(grid, a.xTo, a.yTo, Some(id));
    grid := SetCell(grid, a.xFrom, a.yFrom, None);
  }

  /** Moving the piece on the destination of `a` back to the origin and
      putting the recorded eaten piece back on the destination, alive. */
  method UnmovePiece(pos: Position, a: Action, eaten: Option<PieceId>) returns (grid: Grid, pieces: seq<Piece>)
    requires Shaped(pos) && Reversible(pos, a, eaten)
    ensures pos.(grid := grid, pieces := pieces) == Undo(pos, a, eaten)
  {
    grid, pieces := pos.grid, pos.pieces;
    var id := grid[a.xTo][a.yTo].value;
    pieces := pieces[id := pieces[id].(x := a.xFrom, y := a.yFrom)];
    grid := SetCell(grid, a.xFrom, a.yFrom, Some(id));
    grid := SetCell(grid, a.xTo, a.yTo, eaten);
    if eaten.Some? {
      pieces := pieces[eaten.value := pieces[eaten.value].(alive := true)];
    }
  }

  /** The moves `get_actions` collects from one piece. */
  function PieceCandidates(pos: Position, p: Piece, excl: bool): seq<Action>
    requires WellFormed(pos) && (p.alive ==> Placed(p))
  {
    if p.alive && (!excl || p.kind != General) then PieceMoves(pos, p) else []
  }

  /** The chained candidates of a list are its first piece's moves followed
      by those of the rest. */
  lemma CandidatesStep(pos: Position, ids: seq<PieceId>, excl: bool)
    requires WellFormed(pos) && InArena(pos, ids) && |ids| > 0
    ensures InArena(pos, ids[1..])
    ensures CandidatesFrom(pos, ids, excl) == PieceCandidates(pos, pos.pieces[ids[0]], excl) + CandidatesFrom(pos, ids[1..], excl)
  {
  }

  /** The first loop of `get_actions`: the moves of every live piece of
      the colour's list, skipping the general when `exclude_general` holds,
      chained in list order. */
  method CollectCandidates(pos: Position, c: Color, excl: bool) returns (cands: seq<Action>)
    requires WellFormed(pos)
    ensures cands == Candidates(pos, c, excl)
  {
    ListsInArena(pos, c);
    var todo := if c == Blue then pos.bluePieces else pos.redPieces;
    ghost var all := CandidatesFrom(pos, todo, excl);
    cands := [];
    while |todo| > 0
      invariant InArena(pos, todo)
      invariant cands + CandidatesFrom(pos, todo, excl) == all
    {
      var p := pos.pieces[todo[0]];
      CandidatesStep(pos, todo, excl);
      var moves := [];
      if p.alive && (!excl || p.kind != General) {
        moves := PieceActions(pos, p);
      }
      ghost var rest := CandidatesFrom(pos, todo[1..], excl);
      assert moves == PieceCandidates(pos, p, excl);
      AppendAssoc(cands, moves, rest);
      cands, todo := cands + moves, todo[1..];
    }
  }

  /** The starting grid references only the 32 starting pieces, and its
      two generals are where `_initialize_general` puts them. */
  lemma StartInArena(grid: Grid, pieces: seq<Piece>)
    requires IsStartLayout(grid, pieces)
    ensures GridInArena(grid, pieces)
    ensures pieces[14].kind == General && pieces[14].color == Blue
    ensures pieces[15].kind == General && pieces[15].color == Red
  {
    StartWellFormed(grid, pieces, [], [], 14, 15);
  }

  /** The lists the scan builds over the starting grid, with any general
      references of the right kind and colour, make a well-formed position. */
  lemma StartListsWellFormed(grid: Grid, pieces: seq<Piece>, blue: seq<PieceId>, red: seq<PieceId>,
                             blueGeneral: PieceId, redGeneral: PieceId)
    requires IsStartLayout(grid, pieces) && GridInArena(grid, pieces)
    requires blue == ColorRows(grid, pieces, Blue, Height)
    requires red == ColorRows(grid, pieces, Red, Height)
    requires blueGeneral < |pieces| && pieces[blueGeneral].kind == General && pieces[blueGeneral].color == Blue
    requires redGeneral < |pieces| && pieces[redGeneral].kind == General && pieces[redGeneral].color == Red
    ensures WellFormed(Position(grid, pieces, blue, red, blueGeneral, redGeneral))
  {
    ColorRowsColored(grid, pieces, Blue);
    ColorRowsColored(grid, pieces, Red);
    StartWellFormed(grid, pieces, [], [], blueGeneral, redGeneral);
    assert GridAgrees(grid, pieces);
    ColorRowsDistinct(grid, pieces, Blue, Height);
    ColorRowsDistinct(grid, pieces, Red, Height);
    StartWellFormed(grid, pieces, blue, red, blueGeneral, redGeneral);
  }

  /** The loop of `_initialise_pieces_per_color` over the grid, row by row:
      the two lists and the two general references it ends with. */
  method ScanColors(grid: Grid, pieces: seq<Piece>, blueGeneral0: PieceId, redGeneral0: PieceId)
    returns (blue: seq<PieceId>, red: seq<PieceId>, blueGeneral: PieceId, redGeneral: PieceId)
    requires GridInArena(grid, pieces)
    requires blueGeneral0 < |pieces| && pieces[blueGeneral0].kind == General && pieces[blueGeneral0].color == Blue
    requires redGeneral0 < |pieces| && pieces[redGeneral0].kind == General && pieces[redGeneral0].color == Red
    ensures blue == ColorRows(grid, pieces, Blue, Height)
    ensures red == ColorRows(grid, pieces, Red, Height)
    ensures blueGeneral < |pieces| && pieces[blueGeneral].kind == General && pieces[blueGeneral].color == Blue
    ensures redGeneral < |pieces| && pieces[redGeneral].kind == General && pieces[redGeneral].color == Red
  {
    blue, red, blueGeneral, redGeneral := [], [], blueGeneral0, redGeneral0;
    for x := 0 to Height
      invariant blue == ColorRows(grid, pieces, Blue, x)
      invariant red == ColorRows(grid, pieces, Red, x)
      invariant blueGeneral < |pieces| && pieces[blueGeneral].kind == General && pieces[blueGeneral].color == Blue
      invariant redGeneral < |pieces| && pieces[redGeneral].kind == General && pieces[redGeneral].color == Red
    {
      ghost var blueStart, redStart := blue, red;
      for y := 0 to Width
        invariant blue == blueStart + ColorRow(grid, pieces, Blue, x, y)
        invariant red == redStart + ColorRow(grid, pieces, Red, x, y)
        invariant blueGeneral < |pieces| && pieces[blueGeneral].kind == General && pieces[blueGeneral].color == Blue
        invariant redGeneral < |pieces| && pieces[redGeneral].kind == General && pieces[redGeneral].color == Red
      {
        blue, red, blueGeneral, redGeneral := ScanCell(grid, pieces, x, y, blue, red, blueGeneral, redGeneral);
      }
    }
  }

  /** One square of the scan: its piece joins the list of its colour, and a
      general becomes that colour's general. */
  method ScanCell(grid: Grid, pieces: seq<Piece>, x: int, y: int, blue0: seq<PieceId>, red0: seq<PieceId>,
                  blueGeneral0: PieceId, redGeneral0: PieceId)
    returns (blue: seq<PieceId>, red: seq<PieceId>, blueGeneral: PieceId, redGeneral: PieceId)
    requires GridInArena(grid, pieces) && IsIn(x, y)
    requires blueGeneral0 < |pieces| && pieces[blueGeneral0].kind == General && pieces[blueGeneral0].color == Blue
    requires redGeneral0 < |pieces| && pieces[redGeneral0].kind == General && pieces[redGeneral0].color == Red
    ensures blue == blue0 + ColorCell(grid, pieces, Blue, x, y)
    ensures red == red0 + ColorCell(grid, pieces, Red, x, y)
    ensures blueGeneral < |pieces| && pieces[blueGeneral].kind == General && pieces[blueGeneral].color == Blue
    ensures redGeneral < |pieces| && pieces[redGeneral].kind == General && pieces[redGeneral].color == Red
  {
    blue, red, blueGeneral, redGeneral := blue0, red0, blueGeneral0, redGeneral0;
    var value := grid[x][y];
    if value.Some? {
      if pieces[value.value].color == Blue {
        blue := blue + [value.value];
        if pieces[value.value].kind == General {
          blueGeneral := value.value;
        }
      } else {
        red := red + [value.value];
        if pieces[value.value].kind == General {
          redGeneral := value.value;
        }
      }
    }
  }
}
