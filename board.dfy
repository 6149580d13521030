/** `Board` (janggi/board.py): the mutable grid, the piece objects, the
    per-colour lists, the general references and the action cache, whose
    current node is identified by the path of moves applied since the cache
    root. */
module Boards {
  import opened Utils
  import opened Actions
  import opened Positions
  import opened Pieces
  import opened Rules
  import opened Layout
  import opened BoardStates

  class Board {
    /** `self.board`: the grid of piece references. */
    var grid: Grid
    /** The piece objects, whose `x`, `y` and `is_alive` the board updates. */
    var pieces: seq<Piece>
    var bluePieces: seq<PieceId>
    var redPieces: seq<PieceId>
    var blueGeneral: PieceId
    var redGeneral: PieceId
    /** The moves leading from the cache root to `_current_action_cache_node`. */
    var path: seq<Move>
    /** The depth on `path` of the node whose parent link
        `invalidate_action_cache` cut last: `reverse_action` cannot go above
        it. */
    var floor: nat
    /** The `eaten` fields of the moves of `path`. */
    var eatenStack: seq<Option<PieceId>>
    /** The cache nodes, keyed by their path from the root. */
    var cache: map<seq<Move>, CacheNode>
    /** The position of each cache node. */
    ghost var nodePos: map<seq<Move>, Position>

    function Pos(): Position
      reads this
    {
      Position(grid, pieces, bluePieces, redPieces, blueGeneral, redGeneral)
    }

    ghost predicate Valid()
      reads this
    {
      BoardInv(Pos(), path, floor, eatenStack, cache, nodePos)
    }

    /** `Board.__init__`: the starting layout, an empty cache root, and the
        per-colour lists. */
    constructor ()
      ensures Valid()
      ensures IsStartLayout(grid, pieces)
      ensures bluePieces == ColorRows(grid, pieces, Blue, Height)
      ensures redPieces == ColorRows(grid, pieces, Red, Height)
      ensures path == [] && floor == 0 && cache == map[[] := EmptyNode]
    {
      var g, ps := InitializePieces();
      StartInArena(g, ps);
      var blue, red, bg, rg := ScanColors(g, ps, 14, 15);
      StartListsWellFormed(g, ps, blue, red, bg, rg);
      var pos := Position(g, ps, blue, red, bg, rg);
      SingleNodeTree(pos);
      grid, pieces := g, ps;
      bluePieces, redPieces, blueGeneral, redGeneral := blue, red, bg, rg;
      path, floor, eatenStack := [], 0, [];
      cache := map[[] := EmptyNode];
      nodePos := map[[] := pos];
    }

    /** Replaces the grid, the pieces and the cache cursor at once; the
        lists and the general references stay. */
    method SetState(g: Grid, ps: seq<Piece>, p: seq<Move>, f: nat, e: seq<Option<PieceId>>,
                    c: map<seq<Move>, CacheNode>, ghost n: map<seq<Move>, Position>)
      modifies this
      ensures grid == g && pieces == ps && path == p && floor == f && eatenStack == e && cache == c && nodePos == n
      ensures bluePieces == old(bluePieces) && redPieces == old(redPieces)
      ensures blueGeneral == old(blueGeneral) && redGeneral == old(redGeneral)
    {
      grid, pieces, path, floor, eatenStack, cache, nodePos := g, ps, p, f, e, c, n;
    }

    /** `apply_action`: move to the child cache node for the move, creating
        it when missing, then carry the move out and record the piece it
        eats. A pass only moves in the cache. */
    method ApplyAction(m: Move) returns (eaten: Option<PieceId>)
      requires Valid() && MoveOk(Pos(), m)
      modifies this
      ensures Valid() && floor == old(floor)
      ensures Applied(old(Pos()), old(path), old(eatenStack), old(cache), old(nodePos), m,
                      Pos(), path, eatenStack, cache, nodePos, eaten)
    {
      var g, ps, e, path', eaten', cache', nodePos' := ApplyState(Pos(), path, floor, eatenStack, cache, nodePos, m);
      SetState(g, ps, path', floor, eaten', cache', nodePos');
      eaten := e;
    }

    /** `reverse_action` of the last move applied: back to the parent cache
        node, the moved piece back on its origin and the eaten piece back on
        the destination, alive. The cache cannot be left above the node whose
        parent link was cut. */
    method ReverseAction(m: Move)
      requires Valid() && |path| > floor && path[|path| - 1] == m
      modifies this
      ensures Valid()
      ensures path == old(path)[..|old(path)| - 1] && eatenStack == old(eatenStack)[..|old(eatenStack)| - 1]
      ensures floor == old(floor) && cache == old(cache) && nodePos == old(nodePos)
    {
      var g, ps, path', eaten' := ReverseState(Pos(), path, floor, eatenStack, cache, nodePos, m);
      SetState(g, ps, path', floor, eaten', cache, nodePos);
    }

    /** `invalidate_action_cache`: with no move, start a fresh cache root at
        the current position; with a move, cut the current node's parent
        link, so that no later `reverse_action` goes above it. */
    method InvalidateActionCache(m: Move)
      requires Valid()
      modifies this
      ensures Valid() && Pos() == old(Pos())
      ensures m.None? ==> path == [] && floor == 0 && cache == map[[] := EmptyNode]
      ensures m.Some? ==> path == old(path) && floor == |path| && cache == old(cache) && nodePos == old(nodePos)
    {
      if m.None? {
        SingleNodeTree(Pos());
        SetState(grid, pieces, [], 0, [], map[[] := EmptyNode], map[[] := Pos()]);
      } else {
        SetState(grid, pieces, path, |path|, eatenStack, cache, nodePos);
      }
    }

    /** `get_actions(color, exclude_general)`: the list cached at the current
        node when there is one; otherwise the moves of the colour's live
        pieces (the general's left out when `exclude_general` holds), kept,
        unless `exclude_general` holds, only when applying the move leaves the
        colour out of check, and stored at the current node. */
    method GetActions(c: Color, excl: bool) returns (actions: seq<Action>)
      requires Valid()
      modifies this
      decreases if excl then 0 else 4
      ensures Valid() && Pos() == old(Pos())
      ensures actions == Expected(Pos(), c, excl)
      ensures path == old(path) && floor == old(floor) && eatenStack == old(eatenStack)
      ensures Extends(old(nodePos), nodePos)
      ensures cache[path].Slot(c, excl) == Some(actions)
    {
      var hit := cache[path].Slot(c, excl);
      if hit.Some? {
        return hit.value;
      }
      var cands := CollectCandidates(Pos(), c, excl);
      actions := cands;
      if !excl {
        CandidatesApplicable(Pos(), c, false);
        actions := KeepSafe(c, cands);
      }
      StoreActions(c, excl, actions);
    }

    /** The filtering loop of `get_actions`: each move is applied, kept when
        the colour is then not in check, and reversed. */
    method KeepSafe(c: Color, cands: seq<Action>) returns (actions: seq<Action>)
      requires Valid() && forall a :: a in cands ==> Applicable(Pos(), a)
      modifies this
      decreases 3
      ensures Valid() && Pos() == old(Pos())
      ensures actions == Filter(cands, SafeAfter(Pos(), c))
      ensures path == old(path) && floor == old(floor) && eatenStack == old(eatenStack)
      ensures Extends(old(nodePos), nodePos)
    {
      ghost var pos0, nodePos0 := Pos(), nodePos;
      ghost var keep := SafeAfter(pos0, c);
      var path0, eaten0 := path, eatenStack;
      actions := [];
      var todo := cands;
      while |todo| > 0
        invariant Valid() && Pos() == pos0
        invariant path == path0 && eatenStack == eaten0 && floor == old(floor)
        invariant Extends(nodePos0, nodePos)
        invariant forall a :: a in todo ==> Applicable(pos0, a)
        invariant actions + Filter(todo, keep) == Filter(cands, keep)
      {
        var a := todo[0];
        var safe := TestMove(c, a);
        FilterStep(actions, todo, cands, keep, safe);
        if safe {
          actions := actions + [a];
        }
        todo := todo[1..];
      }
    }

    /** One step of the filtering loop of `get_actions`: apply the move, ask
        whether the colour is in check, reverse the move. */
    method TestMove(c: Color, a: Action) returns (safe: bool)
      requires Valid() && Applicable(Pos(), a)
      modifies this
      decreases 2
      ensures Valid() && Pos() == old(Pos())
      ensures safe == SafeAfter(Pos(), c)(a)
      ensures path == old(path) && floor == old(floor) && eatenStack == old(eatenStack)
      ensures Extends(old(nodePos), nodePos)
    {
      ghost var path0 := path;
      var _ := ApplyAction(Some(a));
      var check := IsCheck(c);
      ReverseAction(Some(a));
      assert path == path0;
      safe := !check;
    }

    /** Stores a computed list in the current cache node. */
    method StoreActions(c: Color, excl: bool, actions: seq<Action>)
      requires Valid() && actions == Expected(Pos(), c, excl)
      modifies this
      ensures Valid() && Pos() == old(Pos())
      ensures path == old(path) && floor == old(floor) && eatenStack == old(eatenStack)
      ensures nodePos == old(nodePos) && cache == old(cache)[path := old(cache)[path].WithSlot(c, excl, actions)]
    {
      StoreSlot(cache, nodePos, path, c, excl, actions);
      SetState(grid, pieces, path, floor, eatenStack, cache[path := cache[path].WithSlot(c, excl, actions)], nodePos);
    }

    /** `is_check(color)`: some move of the other colour, its general's left
        out, lands on the square recorded in the colour's general. */
    method IsCheck(c: Color) returns (check: bool)
      requires Valid()
      modifies this
      decreases 1
      ensures Valid() && Pos() == old(Pos())
      ensures check == InCheck(Pos(), c)
      ensures path == old(path) && floor == old(floor) && eatenStack == old(eatenStack)
      ensures Extends(old(nodePos), nodePos)
    {
      var general := pieces[if c == Blue then blueGeneral else redGeneral];
      var others := GetActions(c.Other(), true);
      check := AnyHits(others, general.x, general.y);
    }

    /** `is_finished(color, last_action)`: the colour has no points left, or
        fewer than 20 after a last move that ate nothing, or it has no legal
        move while in check. The tests run in that order and stop at the
        first that holds. */
    method IsFinished(c: Color, last: LastCapture) returns (finished: bool)
      requires Valid()
      modifies this
      ensures Valid() && Pos() == old(Pos())
      ensures finished == Finished(Pos(), c, last)
      ensures path == old(path) && floor == old(floor) && eatenStack == old(eatenStack)
      ensures Extends(old(nodePos), nodePos)
    {
      var score := GetScore(c);
      if score == 0.0 {
        return true;
      }
      if score < 20.0 && last.Some? && last.value.None? {
        return true;
      }
      var actions := GetActions(c, false);
      if |actions| != 0 {
        return false;
      }
      finished := IsCheck(c);
    }

    /** `get_score(color)`: 1.5 for RED, 0 for BLUE, plus the points of the
        colour's live pieces. */
    method GetScore(c: Color) returns (score: real)
      requires Valid()
      ensures score == Score(Pos(), c)
    {
      ListsInArena(Pos(), c);
      var todo := if c == Blue then bluePieces else redPieces;
      score := if c == Blue then 0.0 else 1.5;
      while |todo| > 0
        invariant InArena(Pos(), todo)
        invariant score + PointsFrom(Pos(), todo) as real == Score(Pos(), c)
      {
        var p := pieces[todo[0]];
        if p.alive {
          score := score + p.kind.Points() as real;
        }
        todo := todo[1..];
      }
    }

    /** `get_features(color, round)`: 16 planes over the board, seen from
        the colour's side. A piece sets its plane: its kind's index, plus 7
        when it is the opponent's; plane 14 is set for RED and plane 15 holds
        the round. */
    method GetFeatures(c: Color, round: int) returns (features: array3<int>)
      requires Valid()
      ensures fresh(features)
      ensures features.Length0 == 16 && features.Length1 == Height && features.Length2 == Width
      ensures forall k, x, y :: 0 <= k < 16 && 0 <= x < Height && 0 <= y < Width ==>
        features[k, x, y] == FeatureAt(Pos(), c, round, k, x, y)
    {
      var reversed := c != Blue;
      features := new int[16, Height, Width]((k, x, y) => 0);
      for x := 0 to Height
        invariant forall k, i, j :: 0 <= k < 16 && 0 <= i < Height && 0 <= j < Width ==>
          features[k, i, j] == (if i < x && k < 14 then FeatureAt(Pos(), c, round, k, i, j) else 0)
      {
        for y := 0 to Width
          invariant forall k, i, j :: 0 <= k < 16 && 0 <= i < Height && 0 <= j < Width ==>
            features[k, i, j] == (if (i < x || (i == x && j < y)) && k < 14 then FeatureAt(Pos(), c, round, k, i, j) else 0)
        {
          var current := GetMirrored(Pos(), x, y, reversed);
          if current.Some? {
            var q := current.value;
            IndexBijective(q.kind, q.kind);
            features[q.kind.Index() + (if q.color != c then 7 else 0), x, y] := 1;
          }
        }
      }
      for x := 0 to Height
        invariant forall k, i, j :: 0 <= k < 16 && 0 <= i < Height && 0 <= j < Width ==>
          features[k, i, j] == (if k < 14 || (k == 14 && i < x) then FeatureAt(Pos(), c, round, k, i, j) else 0)
      {
        for y := 0 to Width
          invariant forall k, i, j :: 0 <= k < 16 && 0 <= i < Height && 0 <= j < Width ==>
            features[k, i, j] == (if k < 14 || (k == 14 && (i < x || (i == x && j < y))) then FeatureAt(Pos(), c, round, k, i, j) else 0)
        {
          if c == Red {
            features[14, x, y] := 1;
          }
        }
      }
      for x := 0 to Height
        invariant forall k, i, j :: 0 <= k < 16 && 0 <= i < Height && 0 <= j < Width ==>
          features[k, i, j] == (if k < 15 || i < x then FeatureAt(Pos(), c, round, k, i, j) else 0)
      {
        for y := 0 to Width
          invariant forall k, i, j :: 0 <= k < 16 && 0 <= i < Height && 0 <= j < Width ==>
            features[k, i, j] == (if k < 15 || i < x || (i == x && j < y) then FeatureAt(Pos(), c, round, k, i, j) else 0)
        {
          features[15, x, y] := round;
        }
      }
    }
  }
}
