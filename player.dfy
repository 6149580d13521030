/** The search player (ia/random_mcts_player.py): it keeps its place in the
    search tree in step with the moves of the game, evaluates positions by
    the material difference, and chooses its moves with the search. */
module Players {
  import opened Utils
  import opened Actions
  import opened Positions
  import opened Rules
  import opened Boards
  import opened Games
  import opened MonteCarlo

  /** `{action: 1 / len(actions) for action in actions}`: the same prior for
      every move offered; no entry (and no division) when none is. */
  function UniformPriors(actions: seq<Action>): (p: map<Move, real>)
    ensures forall a :: Some(a) in p <==> a in actions
    ensures None !in p
    ensures forall m :: m in p ==> |actions| > 0 && p[m] == 1.0 / |actions| as real
  {
    map a | a in actions :: Some(a) := 1.0 / |actions| as real
  }

  /** `predict` of the player: the uniform prior over the legal moves, and the
      difference of the scores divided by 73.5 and by 10, seen from the side
      to move. */
  function HeuristicPrediction(pos: Position, c: Color): Prediction
    requires WellFormed(pos)
  {
    var diff := (Score(pos, Blue) - Score(pos, Red)) / 73.5 / 10.0;
    Prediction(UniformPriors(Legal(pos, c)), if c == Red then -diff else diff)
  }

  /** The predictor handed to the search is the player's own `predict`. */
  ghost predicate IsHeuristic(predict: Predictor)
  {
    forall pos, c, round :: WellFormed(pos) ==> predict(pos, c, round) == HeuristicPrediction(pos, c)
  }

  /** The value estimate agrees in sign with the reward the game would give
      if it ended here: BLUE is ahead exactly when its estimate is positive,
      RED (who wins ties) exactly when its estimate is not negative. */
  lemma HeuristicAgreesWithReward(pos: Position, c: Color)
    requires WellFormed(pos)
    ensures c == Blue ==> (HeuristicPrediction(pos, c).value > 0.0 <==> Reward(pos, c) == 1)
    ensures c == Red ==> (HeuristicPrediction(pos, c).value >= 0.0 <==> Reward(pos, c) == 1)
  {
  }

  /** The sum of the values of a map over some of its keys. */
  ghost function Mass(p: map<Move, real>, keys: set<Move>): real
    requires keys <= p.Keys
    decreases |keys|
  {
    if keys == {} then 0.0
    else
      var k :| k in keys;
      p[k] + Mass(p, keys - {k})
  }

  /** Keys that all carry the same value sum to their number times it. */
  lemma {:induction false} UniformMass(p: map<Move, real>, keys: set<Move>, v: real)
    requires keys <= p.Keys
    requires forall k :: k in keys ==> p[k] == v
    ensures Mass(p, keys) == |keys| as real * v
    decreases |keys|
  {
    if keys != {} {
      var k :| k in keys && Mass(p, keys) == p[k] + Mass(p, keys - {k});
      UniformMass(p, keys - {k}, v);
      var size := |keys - {k}|;
      assert |keys| == size + 1;
      assert Mass(p, keys) == v + size as real * v;
      assert v + size as real * v == |keys| as real * v;
    }
  }

  /** A list without repetitions gives as many keys as it has moves. */
  lemma {:induction false} DistinctKeys(actions: seq<Action>)
    requires Distinct(actions)
    ensures |set a | a in actions :: Some(a)| == |actions|
    decreases |actions|
  {
    if |actions| > 0 {
      var rest := actions[1..];
      DistinctKeys(rest);
      var s := set a | a in rest :: Some(a);
      assert (set a | a in actions :: Some(a)) == {Some(actions[0])} + s by {
        assert actions == [actions[0]] + rest;
      }
      assert Some(actions[0]) !in s by {
        forall i | 0 <= i < |rest|
          ensures rest[i] != actions[0]
        {
          assert rest[i] == actions[i + 1];
        }
      }
    }
  }

  /** The uniform priors sum to the share of distinct moves among the moves
      offered: to 1 when each move is listed once. */
  lemma UniformPriorsMass(actions: seq<Action>)
    requires |actions| > 0
    ensures var p := UniformPriors(actions);
      Mass(p, p.Keys) == |p.Keys| as real / |actions| as real
    ensures Distinct(actions) ==> var p := UniformPriors(actions); Mass(p, p.Keys) == 1.0
  {
    var p := UniformPriors(actions);
    ShareMass(p, |actions| as real);
    if Distinct(actions) {
      DistinctKeys(actions);
      assert p.Keys == set a | a in actions :: Some(a);
    }
  }

  /** Entries that each carry `1/n` sum to their number divided by `n`. */
  lemma ShareMass(p: map<Move, real>, n: real)
    requires n > 0.0 && forall k :: k in p ==> p[k] == 1.0 / n
    ensures Mass(p, p.Keys) == |p.Keys| as real / n
    ensures |p.Keys| as real == n ==> Mass(p, p.Keys) == 1.0
  {
    UniformMass(p, p.Keys, 1.0 / n);
    var size := |p.Keys| as real;
    assert size * (1.0 / n) == size / n;
  }

  /** The priors of the heuristic form a probability distribution over the
      legal moves, which are listed once each. */
  lemma PriorsSumToOne(pos: Position, c: Color)
    requires WellFormed(pos) && |Legal(pos, c)| > 0
    ensures var p := HeuristicPrediction(pos, c).priors; Mass(p, p.Keys) == 1.0
  {
    LegalDistinct(pos, c);
    UniformPriorsMass(Legal(pos, c));
  }

  /** `predict`: the moves offered on the game's board and its two scores. */
  method Predict(game: Game) returns (pred: Prediction)
    requires game.Valid()
    modifies game.board
    ensures game.Valid() && game.Pos() == old(game.Pos())
    ensures pred == HeuristicPrediction(game.Pos(), game.currentPlayer)
  {
    var actions := game.GetCurrentActions();
    var blue := game.board.GetScore(Blue);
    var red := game.board.GetScore(Red);
    var diff := (blue - red) / 73.5 / 10.0;
    if game.currentPlayer == Red {
      diff := -diff;
    }
    pred := Prediction(UniformPriors(actions), diff);
  }

  /** `actions[i]` with Python's indexing: a negative index counts from the
      end; out of range there is no element. */
  function Indexed(actions: seq<Move>, i: int): (m: Option<Move>)
    ensures m.Some? <==> -|actions| <= i < |actions|
  {
    if 0 <= i < |actions| then Some(actions[i])
    else if -|actions| <= i < 0 then Some(actions[|actions| + i])
    else None
  }

  /** The moves read by `for i in range(k, len(actions)): actions[i]`, or
      the `IndexError` the first unreadable one raises. */
  function RangeItems(actions: seq<Move>, k: int): Result<seq<Move>>
    decreases |actions| - k
  {
    if k >= |actions| then Ok([])
    else
      match Indexed(actions, k)
      case None => Err("IndexError")
      case Some(m) =>
        var rest := RangeItems(actions, k + 1);
        if rest.Err? then rest else Ok([m] + rest.value)
  }

  /** The range reads the moves from `k` on; from a negative `k` it first
      reads the last `-k` moves, then all of them; below `-len(actions)` it
      fails at once. */
  lemma {:induction false} RangeItemsClosedForm(actions: seq<Move>, k: int)
    ensures RangeItems(actions, k).Err? <==> k < -|actions|
    ensures 0 <= k <= |actions| ==> RangeItems(actions, k) == Ok(actions[k..])
    ensures -|actions| <= k < 0 ==> RangeItems(actions, k) == Ok(actions[|actions| + k..] + actions)
    decreases |actions| - k
  {
    var n := |actions|;
    if k >= n {
      assert k == n ==> actions[k..] == [];
    } else {
      RangeItemsClosedForm(actions, k + 1);
      if 0 <= k {
        assert Indexed(actions, k) == Some(actions[k]);
        assert RangeItems(actions, k) == Ok([actions[k]] + actions[k + 1..]);
        assert actions[k..] == [actions[k]] + actions[k + 1..];
      } else if -n <= k {
        assert Indexed(actions, k) == Some(actions[n + k]);
        assert RangeItems(actions, k) == Ok([actions[n + k]] + RangeItems(actions, k + 1).value);
        if k + 1 == 0 {
          assert RangeItems(actions, k + 1) == Ok(actions);
          assert actions[n + k..] == [actions[n + k]];
        } else {
          assert actions[n + k..] == [actions[n + k]] + actions[n + k + 1..];
          assert actions[n + k..] + actions == [actions[n + k]] + (actions[n + k + 1..] + actions);
        }
      }
    }
  }

  /** The node reached from `n` along `moves` through existing children, if
      every step has one. */
  ghost function Descendant(n: MctsNode, moves: seq<Move>): (d: Option<MctsNode>)
    requires n.Valid()
    reads n.Repr
    ensures d.Some? ==> d.value in n.Repr && d.value.Repr <= n.Repr && d.value.Valid()
    decreases |moves|
  {
    if moves == [] then Some(n)
    else if moves[0] in n.next then Descendant(n.next[moves[0]], moves[1..])
    else None
  }

  /** One more move goes one step further down, if the child exists. */
  lemma {:induction false} DescendantStep(n: MctsNode, moves: seq<Move>, m: Move)
    requires n.Valid()
    ensures Descendant(n, moves + [m]) ==
      match Descendant(n, moves)
      case None => None
      case Some(d) => if m in d.next then Some(d.next[m]) else None
    decreases |moves|
  {
    if moves != [] {
      assert (moves + [m])[1..] == moves[1..] + [m];
      if moves[0] in n.next {
        DescendantStep(n.next[moves[0]], moves[1..], m);
      }
    }
  }

  /** `node` is where following `moves` from `start` ends: the descendant
      when every step has a child, otherwise an empty node of its own (a
      new one, as the methods below state). */
  ghost predicate Reached(start: MctsNode, moves: seq<Move>, node: MctsNode)
    requires start.Valid()
    reads start.Repr, node
  {
    match Descendant(start, moves)
    case Some(d) => node == d
    case None => node.Empty() && node.Repr == {node}
  }

  /** One step of the walk: the child for the move, or a new node. */
  method StepDown(ghost start: MctsNode, ghost done: seq<Move>, node: MctsNode, m: Move) returns (child: MctsNode)
    requires start.Valid() && node.Valid() && Reached(start, done, node)
    ensures child.Valid() && Reached(start, done + [m], child)
    ensures Descendant(start, done + [m]).None? ==> fresh(child)
  {
    if m in node.next {
      child := node.next[m];
    } else {
      child := new MctsNode();
    }
    ReachedStep(start, done, node, m, child);
  }

  /** A step of the walk keeps `Reached`; it stays on existing nodes only
      while the descendant exists. */
  lemma ReachedStep(start: MctsNode, done: seq<Move>, node: MctsNode, m: Move, child: MctsNode)
    requires start.Valid() && node.Valid() && Reached(start, done, node)
    requires m in node.next ==> child == node.next[m]
    requires m !in node.next ==> child.Empty() && child.Repr == {child}
    ensures Reached(start, done + [m], child)
    ensures m in node.next ==> Descendant(start, done + [m]).Some?
  {
    DescendantStep(start, done, m);
  }

  /** The loop of `_apply_latest_actions`: for each move read by the range
      from `k`, step to the child for it, or to a new node when there is
      none. The node reached is the descendant along the moves read, or a
      new empty node once a step is missing. The only index that can be out
      of range is the first, so the `IndexError` is raised before any step. */
  method Walk(start: MctsNode, actions: seq<Move>, k: int) returns (r: Result<MctsNode>)
    requires start.Valid()
    ensures RangeItems(actions, k).Err? ==> r == Err("IndexError")
    ensures RangeItems(actions, k).Ok? ==>
      r.Ok? && r.value.Valid() && Reached(start, RangeItems(actions, k).value, r.value) &&
      (Descendant(start, RangeItems(actions, k).value).None? ==> fresh(r.value))
  {
    var n := |actions|;
    RangeItemsClosedForm(actions, k);
    if k < -n {
      return Err("IndexError");
    }
    var moves := if k < 0 then actions[n + k..] + actions else if k <= n then actions[k..] else [];
    var node := start;
    for t := 0 to |moves|
      invariant node.Valid() && Reached(start, moves[..t], node)
      invariant Descendant(start, moves[..t]).None? ==> fresh(node)
    {
      assert moves[..t + 1] == moves[..t] + [moves[t]];
      node := StepDown(start, moves[..t], node, moves[t]);
    }
    assert moves[..|moves|] == moves;
    r := Ok(node);
  }

  /** `RandomMCTSPlayer`: its colour, its search, the node of the tree that
      stands for the current position, and where in the game's move list it
      resumes following the moves. */
  class MctsPlayer {
    const color: Color
    const search: Mcts
    var currentNode: MctsNode
    var lastActionIndex: int

    ghost predicate Valid()
      reads this, currentNode, currentNode.Repr
    {
      currentNode.Valid()
    }

    /** `RandomMCTSPlayer.__init__`: the given node, or a new one; resume
        from the first move. */
    constructor (c: Color, cPuct: real, nSimulations: int, sqrt: real -> real, start: Option<MctsNode>)
      requires start.Some? ==> start.value.Valid()
      ensures Valid() && color == c && search == Mcts(cPuct, nSimulations, sqrt) && lastActionIndex == 0
      ensures start.Some? ==> currentNode == start.value
      ensures start.None? ==> fresh(currentNode) && currentNode.Empty()
    {
      color, search := c, Mcts(cPuct, nSimulations, sqrt);
      if start.Some? {
        currentNode := start.value;
      } else {
        currentNode := new MctsNode();
      }
      lastActionIndex := 0;
    }

    /** The loop of `_apply_latest_actions`, from `lastActionIndex` on;
        an `IndexError` leaves the node as it was. */
    method FollowActions(actions: seq<Move>) returns (r: Result<()>)
      requires Valid()
      modifies this
      ensures Valid() && lastActionIndex == old(lastActionIndex)
      ensures RangeItems(actions, lastActionIndex).Err? ==>
        r == Err("IndexError") && currentNode == old(currentNode)
      ensures RangeItems(actions, lastActionIndex).Ok? ==>
        r == Ok(()) && Reached(old(currentNode), RangeItems(actions, lastActionIndex).value, currentNode) &&
        (Descendant(old(currentNode), RangeItems(actions, lastActionIndex).value).None? ==> fresh(currentNode))
    {
      var reached := Walk(currentNode, actions, lastActionIndex);
      if reached.Err? {
        return Err(reached.error);
      }
      currentNode := reached.value;
      r := Ok(());
    }

    /** `_apply_latest_actions`: follow the moves, then resume next time
        from the last move of the list, which has already been followed
        (see `ResumeRereadsLast`). */
    method ApplyLatestActions(actions: seq<Move>) returns (r: Result<()>)
      requires Valid()
      modifies this
      ensures Valid()
      ensures RangeItems(actions, old(lastActionIndex)).Err? ==>
        r == Err("IndexError") && currentNode == old(currentNode) && lastActionIndex == old(lastActionIndex)
      ensures RangeItems(actions, old(lastActionIndex)).Ok? ==>
        r == Ok(()) && lastActionIndex == |actions| - 1 && Reached(old(currentNode), RangeItems(actions, old(lastActionIndex)).value, currentNode) &&
        (Descendant(old(currentNode), RangeItems(actions, old(lastActionIndex)).value).None? ==> fresh(currentNode))
    {
      r := FollowActions(actions);
      if r.Ok? {
        lastActionIndex := |actions| - 1;
      }
    }

    /** The node that catching up with `actions` reaches when the tree has
        a child for every move read, or `None` (also on an `IndexError`). */
    ghost function CatchUpTarget(actions: seq<Move>): Option<MctsNode>
      requires Valid()
      reads this, currentNode.Repr
    {
      match RangeItems(actions, lastActionIndex)
      case Err(_) => None
      case Ok(moves) => Descendant(currentNode, moves)
    }

    /** `play_action`: catch up with the game's moves, then let the search
        choose among the moves of the node reached, with the player's own
        evaluation as predictor. The node searched is the one the catch-up
        walk reaches (a new one once the tree has no child for a move), and
        the move returned has maximal Q there. */
    method PlayAction(game: Game, predict: Predictor) returns (r: Result<Move>)
      requires Valid() && game.Valid() && IsHeuristic(predict)
      modifies this, currentNode.Repr, game, game.board
      ensures Valid() && game.Valid()
      ensures RangeItems(old(game.actions), old(lastActionIndex)).Err? ==>
        r == Err("IndexError") && currentNode == old(currentNode) && lastActionIndex == old(lastActionIndex)
      ensures RangeItems(old(game.actions), old(lastActionIndex)).Ok? ==>
        (old(CatchUpTarget(game.actions)).Some? ==> currentNode == old(CatchUpTarget(game.actions)).value)
        && (old(CatchUpTarget(game.actions)).None? ==> fresh(currentNode))
      ensures game.actions == old(game.actions) && game.captured == old(game.captured)
      ensures r.Ok? ==> game.currentPlayer == old(game.currentPlayer) && game.Pos() == old(game.Pos())
      ensures r.Ok? ==> lastActionIndex == |game.actions| - 1
      ensures r.Ok? ==> r.value in currentNode.q && forall m :: m in currentNode.q ==> currentNode.q[m] <= currentNode.q[r.value]
    {
      var caught := ApplyLatestActions(game.actions);
      if caught.Err? {
        return Err(caught.error);
      }
      assert currentNode.Valid();
      r := ChooseAction(search, currentNode, game, predict);
    }
  }

  /** The call after one that saw the moves `seen` reads again the last of
      them before the moves played since; when `seen` was empty it reads
      the last move, then all of them, and fails on an empty list. */
  lemma ResumeRereadsLast(seen: seq<Move>, now: seq<Move>)
    requires seen <= now
    ensures |seen| > 0 ==> RangeItems(now, |seen| - 1) == Ok([seen[|seen| - 1]] + now[|seen|..])
    ensures |seen| == 0 && |now| > 0 ==> RangeItems(now, -1) == Ok([now[|now| - 1]] + now)
    ensures |seen| == 0 && |now| == 0 ==> RangeItems(now, -1) == Err("IndexError")
  {
    RangeItemsClosedForm(now, |seen| - 1);
    if |seen| > 0 {
      assert now[|seen| - 1..] == [seen[|seen| - 1]] + now[|seen|..];
    } else if |now| > 0 {
      assert now[|now| - 1..] == [now[|now| - 1]];
    }
  }
}
