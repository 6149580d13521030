/** The Monte Carlo tree search of ia/mcts.py: search-tree nodes holding
    priors, running-mean action values Q and visit counts N, the recursive
    simulation that plays moves on the shared board and takes them back
    again, and the final choice of a move. */
module MonteCarlo {
  import opened Utils
  import opened Actions
  import opened Positions
  import opened Rules
  import opened BoardStates
  import opened Boards
  import opened Games

  /** What `predictor.predict()` returns: a prior per move and a value for
      the side to move. */
  datatype Prediction = Prediction(priors: map<Move, real>, value: real)

  /** A predictor: a function of what the game shows it (the position, the
      side to move and the round, the inputs of the feature planes). */
  type Predictor = (Position, Color, int) -> Prediction

  /** The constants of an `MCTS` object; `math.sqrt` is a parameter. */
  datatype Mcts = Mcts(cPuct: real, nSimulations: int, sqrt: real -> real)

  /** The round limit `Game.is_finished()` uses when called without one. */
  const DefaultIterMax := 200

  // ---------------------------------------------------------- visit counts

  /** The sum of the counts of `keys`. */
  ghost function SumOver(n: map<Move, nat>, keys: set<Move>): nat
    requires keys <= n.Keys
    decreases |keys|
  {
    if keys == {} then 0
    else
      var k :| k in keys;
      n[k] + SumOver(n, keys - {k})
  }

  /** `sum(N.values())`. */
  ghost function Total(n: map<Move, nat>): nat
  {
    SumOver(n, n.Keys)
  }

  /** The sum does not depend on the order the keys are taken in: any key
      can be taken first. */
  lemma {:induction false} SumOverRemove(n: map<Move, nat>, keys: set<Move>, k: Move)
    requires keys <= n.Keys && k in keys
    ensures SumOver(n, keys) == n[k] + SumOver(n, keys - {k})
    decreases |keys|
  {
    var k0 :| k0 in keys && SumOver(n, keys) == n[k0] + SumOver(n, keys - {k0});
    if k0 != k {
      SumOverRemove(n, keys - {k0}, k);
      SumOverRemove(n, keys - {k}, k0);
      assert keys - {k0} - {k} == keys - {k} - {k0};
    }
  }

  /** Changing one count changes the sum by the difference. */
  lemma {:induction false} SumOverUpdate(n: map<Move, nat>, keys: set<Move>, k: Move, v: nat)
    requires keys <= n.Keys && k in n
    ensures SumOver(n[k := v], keys) == SumOver(n, keys) + (if k in keys then v - n[k] else 0)
    decreases |keys|
  {
    if keys != {} {
      var x :| x in keys;
      SumOverRemove(n, keys, x);
      SumOverRemove(n[k := v], keys, x);
      SumOverUpdate(n, keys - {x}, k, v);
    }
  }

  /** One more visit of a move adds one to the total. */
  lemma TotalBump(n: map<Move, nat>, k: Move)
    requires k in n
    ensures Total(n[k := n[k] + 1]) == Total(n) + 1
  {
    assert n[k := n[k] + 1].Keys == n.Keys;
    SumOverUpdate(n, n.Keys, k, n[k] + 1);
  }

  /** `sum(N.values())`, key by key. */
  method SumVisits(n: map<Move, nat>) returns (total: nat)
    ensures total == Total(n)
  {
    var keys := n.Keys;
    total := 0;
    while keys != {}
      invariant keys <= n.Keys
      invariant total + SumOver(n, keys) == Total(n)
      decreases |keys|
    {
      var k :| k in keys;
      SumOverRemove(n, keys, k);
      total, keys := total + n[k], keys - {k};
    }
  }

  // ------------------------------------------------------------- selection

  /** The three tables hold the move. */
  predicate Known(q: map<Move, real>, p: map<Move, real>, n: map<Move, nat>, m: Move)
  {
    m in q && m in p && m in n
  }

  /** The PUCT score `q[a] + c_puct * P[a] * sqrt(sum N) / (1 + N[a])`. */
  function Ucb(s: Mcts, q: map<Move, real>, p: map<Move, real>, n: map<Move, nat>, total: nat, m: Move): real
    requires Known(q, p, n, m)
  {
    q[m] + s.cPuct * p[m] * s.sqrt(total as real) / ((1 + n[m]) as real)
  }

  /** The index of the move the selection loop keeps: the scan from minus
      infinity replaces its choice only on a strictly higher score; -1 when
      there is no move. */
  function BestIndex(s: Mcts, q: map<Move, real>, p: map<Move, real>, n: map<Move, nat>, total: nat,
                     actions: seq<Action>): (i: int)
    requires forall j :: 0 <= j < |actions| ==> Known(q, p, n, Some(actions[j]))
    ensures -1 <= i < |actions| && (i == -1 <==> |actions| == 0)
    decreases |actions|
  {
    if |actions| == 0 then -1
    else
      var b := BestIndex(s, q, p, n, total, actions[..|actions| - 1]);
      var last := |actions| - 1;
      if b < 0 || Ucb(s, q, p, n, total, Some(actions[last])) > Ucb(s, q, p, n, total, Some(actions[b])) then last
      else b
  }

  /** The kept move has the highest score, and every move before it scores
      strictly lower: it is the first maximiser. */
  lemma {:induction false} BestIndexFirstMax(s: Mcts, q: map<Move, real>, p: map<Move, real>, n: map<Move, nat>,
                                             total: nat, actions: seq<Action>)
    requires forall j :: 0 <= j < |actions| ==> Known(q, p, n, Some(actions[j]))
    ensures var i := BestIndex(s, q, p, n, total, actions);
      |actions| > 0 ==>
        && (forall j :: 0 <= j < |actions| ==>
              Ucb(s, q, p, n, total, Some(actions[j])) <= Ucb(s, q, p, n, total, Some(actions[i])))
        && (forall j :: 0 <= j < i ==>
              Ucb(s, q, p, n, total, Some(actions[j])) < Ucb(s, q, p, n, total, Some(actions[i])))
    decreases |actions|
  {
    if |actions| > 1 {
      var pre := actions[..|actions| - 1];
      BestIndexFirstMax(s, q, p, n, total, pre);
      assert forall j :: 0 <= j < |pre| ==> pre[j] == actions[j];
    }
  }

  /** What the selection loop of `run_simulation` yields: the first
      maximiser of the PUCT score (no move when there is none), or a
      `KeyError` when a move is missing from Q, the priors or N. */
  ghost function Selection(s: Mcts, q: map<Move, real>, p: map<Move, real>, n: map<Move, nat>,
                           actions: seq<Action>): Result<Move>
  {
    if forall j :: 0 <= j < |actions| ==> Known(q, p, n, Some(actions[j])) then
      var i := BestIndex(s, q, p, n, Total(n), actions);
      Ok(if i < 0 then None else Some(actions[i]))
    else Err("KeyError")
  }

  /** A selected move is one of the moves offered, and there is one
      exactly when some move is offered. */
  lemma SelectionOffered(s: Mcts, q: map<Move, real>, p: map<Move, real>, n: map<Move, nat>, actions: seq<Action>)
    requires Selection(s, q, p, n, actions).Ok?
    ensures var m := Selection(s, q, p, n, actions).value;
      (m.None? <==> |actions| == 0) && (m.Some? ==> m.value in actions)
  {
  }

  /** The Q update: `(N * q + v) / (N + 1)`. */
  function RunningMean(visits: nat, q: real, v: real): real
  {
    (visits as real * q + v) / ((visits + 1) as real)
  }

  function Sum(vs: seq<real>): real
  {
    if |vs| == 0 then 0.0 else Sum(vs[..|vs| - 1]) + vs[|vs| - 1]
  }

  /** The mean of the values backed up so far (0 before any). */
  function Mean(vs: seq<real>): real
  {
    if |vs| == 0 then 0.0 else Sum(vs) / (|vs| as real)
  }

  /** Q stays the mean of the values backed up through the move. */
  lemma RunningMeanIsMean(vs: seq<real>, v: real)
    ensures Mean(vs + [v]) == RunningMean(|vs|, Mean(vs), v)
  {
    var ws := vs + [v];
    assert ws[..|ws| - 1] == vs;
    var k := |vs| as real;
    if |vs| > 0 {
      assert k * (Sum(vs) / k) == Sum(vs);
    }
  }

  /** A value and a mean within bounds keep the new mean within them. */
  lemma RunningMeanBounds(visits: nat, q: real, v: real, lo: real, hi: real)
    requires lo <= q <= hi && lo <= v <= hi
    ensures lo <= RunningMean(visits, q, v) <= hi
  {
    var k := visits as real;
    var d := k + 1.0;
    var r := RunningMean(visits, q, v);
    assert r * d == k * q + v;
    WeightedBelow(k, lo, q, v, r);
    WeightedBelow(k, -hi, -q, -v, -r);
  }

  /** The step of the bound: `(k * q + v) / (k + 1)` is at least `lo`. */
  lemma WeightedBelow(k: real, lo: real, q: real, v: real, r: real)
    requires k >= 0.0 && lo <= q && lo <= v && r * (k + 1.0) == k * q + v
    ensures lo <= r
  {
    assert k * lo <= k * q;
  }

  // ------------------------------------------------------------------ nodes

  /** The keys `set_up` gives Q and N: the moves offered, or the single
      pass when there is none. */
  function SetUpKeys(actions: seq<Action>): set<Move>
  {
    if |actions| == 0 then {None} else set a | a in actions :: Some(a)
  }

  /** Q of every move the largest is the one `max` can return. */
  lemma {:induction false} MaxEntry(q: map<Move, real>)
    requires q != map[]
    ensures exists m :: m in q && forall k :: k in q ==> q[k] <= q[m]
    decreases |q.Keys|
  {
    var k0 :| k0 in q;
    var rest := q - {k0};
    assert forall k :: k in q && k != k0 ==> k in rest && rest[k] == q[k];
    if rest == map[] {
      assert forall k :: k in q ==> k == k0;
    } else {
      assert |rest.Keys| < |q.Keys| by {
        assert rest.Keys == q.Keys - {k0};
      }
      MaxEntry(rest);
      var m :| m in rest && forall k :: k in rest ==> rest[k] <= rest[m];
      if q[k0] > q[m] {
        assert forall k :: k in q ==> q[k] <= q[k0];
      } else {
        assert forall k :: k in q ==> q[k] <= q[m];
      }
    }
  }

  /** The entries `set_up` leaves: the priors and the player stored, no
      child, and Q and N zero on exactly the set-up keys. */
  ghost predicate SetUpFor(node: MctsNode, probs: map<Move, real>, c: Color, actions: seq<Action>)
    reads node
  {
    && node.probabilities == Some(probs) && node.player == Some(c) && node.next == map[]
    && node.q.Keys == SetUpKeys(actions) && node.visits.Keys == SetUpKeys(actions)
    && (forall m :: m in node.q ==> node.q[m] == 0.0)
    && (forall m :: m in node.visits ==> node.visits[m] == 0)
  }

  /** `MCTSNode`: the priors and the player once set up, and Q, N and the
      child nodes per move. */
  class MctsNode {
    var probabilities: Option<map<Move, real>>
    var player: Option<Color>
    var q: map<Move, real>
    var visits: map<Move, nat>
    var next: map<Move, MctsNode>
    /** The nodes of the subtree rooted here. */
    ghost var Repr: set<MctsNode>

    /** The subtree is a tree: each child's subtree lies inside this one,
        does not hold this node and is disjoint from its siblings'; a node
        not yet set up has no child. */
    ghost predicate Valid()
      reads this, Repr
      decreases Repr
    {
      && this in Repr
      && (probabilities.None? ==> next == map[])
      && (forall m :: m in next ==> next[m] in Repr && next[m].Repr <= Repr && this !in next[m].Repr)
      && (forall m1, m2 :: m1 in next && m2 in next && m1 != m2 ==> next[m1].Repr !! next[m2].Repr)
      && (forall m :: m in next ==> next[m].Valid())
    }

    /** A node as `MCTSNode()` leaves it. */
    ghost predicate Empty()
      reads this
    {
      probabilities.None? && player.None? && q == map[] && visits == map[] && next == map[]
    }

    /** `MCTSNode()`: no priors, no player, no entries. */
    constructor ()
      ensures Valid() && Empty() && Repr == {this}
    {
      probabilities, player := None, None;
      q, visits, next := map[], map[], map[];
      Repr := {this};
    }

    /** `set_up`: store the priors and the player, drop the children, and
        give Q and N the moves offered (the pass alone when none is) with
        zero values. */
    method SetUp(probs: map<Move, real>, c: Color, actions: seq<Action>)
      requires Valid()
      modifies this
      ensures Valid() && Repr == old(Repr)
      ensures SetUpFor(this, probs, c, actions)
    {
      var qs: map<Move, real> := map[];
      var ns: map<Move, nat> := map[];
      for i := 0 to |actions|
        invariant qs.Keys == ns.Keys == set a | a in actions[..i] :: Some(a)
        invariant forall m :: m in qs ==> qs[m] == 0.0
        invariant forall m :: m in ns ==> ns[m] == 0
      {
        assert actions[..i + 1] == actions[..i] + [actions[i]];
        qs, ns := qs[Some(actions[i]) := 0.0], ns[Some(actions[i]) := 0];
      }
      assert actions[..|actions|] == actions;
      if |actions| == 0 {
        qs, ns := qs[None := 0.0], ns[None := 0];
      }
      probabilities, player, q, visits, next := Some(probs), Some(c), qs, ns, map[];
    }

    /** The child for a move: the existing one, or a new empty node
        recorded under the move. */
    method ChildFor(m: Move) returns (child: MctsNode)
      requires Valid() && probabilities.Some?
      modifies this
      ensures Valid() && m in next && next[m] == child && fresh(Repr - old(Repr))
      ensures forall k :: k in old(next) ==> k in next && next[k] == old(next[k])
      ensures m in old(next) ==> next == old(next) && Repr == old(Repr)
      ensures m !in old(next) ==> fresh(child) && child.Empty() && child.Repr == {child}
      ensures m !in old(next) ==> next == old(next)[m := child] && Repr == old(Repr) + {child}
      ensures probabilities == old(probabilities) && player == old(player)
      ensures q == old(q) && visits == old(visits)
    {
      if m in next {
        child := next[m];
      } else {
        child := new MctsNode();
        next := next[m := child];
        Repr := Repr + {child};
      }
    }

    /** The tree conditions of `Valid` for a node whose child for `m` may
        hold nodes this node's footprint does not yet include. */
    ghost predicate Growable(m: Move)
      reads this, Repr, if m in next then {next[m]} + next[m].Repr else {}
    {
      && this in Repr && probabilities.Some? && m in next
      && next[m] in Repr && this !in next[m].Repr && next[m].Valid()
      && (forall k :: k in next && k != m ==>
            next[k] in Repr && next[k].Repr <= Repr && this !in next[k].Repr && next[k].Repr !! next[m].Repr)
      && (forall k1, k2 :: k1 in next && k2 in next && k1 != k2 && k1 != m && k2 != m ==> next[k1].Repr !! next[k2].Repr)
      && (forall k :: k in next && k != m ==> next[k].Valid())
    }

    /** Take the grown subtree of the child for `m` into the footprint. */
    method Absorb(m: Move)
      requires Growable(m)
      modifies this
      ensures Valid() && Repr == old(Repr) + old(next[m].Repr)
      ensures next == old(next) && q == old(q) && visits == old(visits)
      ensures probabilities == old(probabilities) && player == old(player)
    {
      Repr := Repr + next[m].Repr;
    }

    /** The backup: Q of the move becomes the running mean with the new
        value and N of the move grows by one; a `KeyError` when the move
        has no entry. */
    method Backup(m: Move, v: real) returns (r: Result<()>)
      requires Valid()
      modifies this
      ensures Valid() && Repr == old(Repr) && next == old(next)
      ensures probabilities == old(probabilities) && player == old(player)
      ensures r.Ok? <==> m in old(q) && m in old(visits)
      ensures r.Ok? ==> q == old(q)[m := RunningMean(old(visits)[m], old(q)[m], v)]
      ensures r.Ok? ==> visits == old(visits)[m := old(visits)[m] + 1]
      ensures r.Err? ==> q == old(q) && visits == old(visits)
    {
      if m !in visits || m !in q {
        return Err("KeyError");
      }
      q := q[m := RunningMean(visits[m], q[m], v)];
      visits := visits[m := visits[m] + 1];
      r := Ok(());
    }
  }

  /** The selection loop of `run_simulation` over the moves offered. */
  method SelectAction(s: Mcts, node: MctsNode, actions: seq<Action>) returns (r: Result<Move>)
    requires node.probabilities.Some?
    ensures r == Selection(s, node.q, node.probabilities.value, node.visits, actions)
  {
    var q, p, n := node.q, node.probabilities.value, node.visits;
    var total := SumVisits(n);
    var uMax: real := 0.0;
    var best: Move := None;
    ghost var bi := -1;
    var i := 0;
    while i < |actions|
      invariant 0 <= i <= |actions|
      invariant forall j :: 0 <= j < i ==> Known(q, p, n, Some(actions[j]))
      invariant bi == BestIndex(s, q, p, n, total, actions[..i])
      invariant best == (if bi < 0 then None else Some(actions[bi]))
      invariant bi >= 0 ==> uMax == Ucb(s, q, p, n, total, Some(actions[bi]))
    {
      var m := Some(actions[i]);
      if m !in q || m !in p || m !in n {
        return Err("KeyError");
      }
      var u := Ucb(s, q, p, n, total, m);
      assert actions[..i + 1][..i] == actions[..i];
      if best.None? || u > uMax {
        uMax, best, bi := u, m, i;
      }
      i := i + 1;
    }
    assert actions[..i] == actions;
    r := Ok(best);
  }

  // ------------------------------------------------------------ simulation

  /** What the backup of an expanded node leaves: when the selection fails
      so does the simulation; when the simulation succeeds, the selected
      move had entries, its N grew by one and its Q became the running mean
      with the child's value, the negation of the value returned. */
  ghost predicate BackedUp(s: Mcts, q0: map<Move, real>, p0: map<Move, real>, n0: map<Move, nat>, actions: seq<Action>,
                           q: map<Move, real>, visits: map<Move, nat>, r: Result<real>)
  {
    var sel := Selection(s, q0, p0, n0, actions);
    && (sel.Err? ==> r.Err?)
    && (r.Ok? ==>
          && sel.Ok? && sel.value in q0 && sel.value in n0
          && q == q0[sel.value := RunningMean(n0[sel.value], q0[sel.value], -r.value)]
          && visits == n0[sel.value := n0[sel.value] + 1])
  }

  /** `run_simulation`: at the end of the game, minus the reward of the side
      to move; at a node not yet set up, set it up from the predictor and
      the moves offered and return minus the predicted value; otherwise
      select a move, play it on the board, simulate from the child node
      (created on the first visit), take the move back, back the child's
      value up and return its negation. A `KeyError` ends the simulation
      where it arises. */
  method RunSimulation(s: Mcts, node: MctsNode, game: Game, predict: Predictor) returns (r: Result<real>)
    requires node.Valid() && game.Valid()
    modifies node.Repr, game, game.board
    decreases if node.probabilities.None? then 0 else |node.Repr|, 3
    ensures node.Valid() && fresh(node.Repr - old(node.Repr)) && game.Valid()
    ensures game.actions == old(game.actions) && game.captured == old(game.captured)
    ensures game.round == old(game.round) && game.startingFen == old(game.startingFen)
    ensures r.Ok? ==> game.currentPlayer == old(game.currentPlayer) && game.Pos() == old(game.Pos())
    ensures r.Ok? ==> game.board.path == old(game.board.path) && game.board.floor == old(game.board.floor)
    ensures r.Ok? ==> game.board.eatenStack == old(game.board.eatenStack) && Extends(old(game.board.nodePos), game.board.nodePos)
    ensures forall m :: m in old(node.next) ==> m in node.next && node.next[m] == old(node.next[m])
    ensures var pos, c := old(game.Pos()), old(game.currentPlayer);
      GameOver(pos, c, LastOf(old(game.actions), old(game.captured)), old(game.round), DefaultIterMax) ==>
        && r == Ok(-(Reward(pos, c) as real))
        && node.probabilities == old(node.probabilities) && node.player == old(node.player)
        && node.q == old(node.q) && node.visits == old(node.visits) && node.next == old(node.next)
    ensures var pos, c := old(game.Pos()), old(game.currentPlayer);
      !GameOver(pos, c, LastOf(old(game.actions), old(game.captured)), old(game.round), DefaultIterMax) &&
      old(node.probabilities).None? ==>
        var pred := predict(pos, c, old(game.round));
        r == Ok(-pred.value) && SetUpFor(node, pred.priors, c, Legal(pos, c))
    ensures var pos, c := old(game.Pos()), old(game.currentPlayer);
      !GameOver(pos, c, LastOf(old(game.actions), old(game.captured)), old(game.round), DefaultIterMax) &&
      old(node.probabilities).Some? ==>
        && node.probabilities == old(node.probabilities) && node.player == old(node.player)
        && BackedUp(s, old(node.q), old(node.probabilities).value, old(node.visits), Legal(pos, c), node.q, node.visits, r)
  {
    ghost var pos, c := game.Pos(), game.currentPlayer;
    var finished := game.IsFinished(DefaultIterMax);
    if finished {
      var reward := game.GetReward();
      return Ok(-(reward as real));
    }
    assert game.Pos() == pos && game.currentPlayer == c;
    r := Proceed(s, node, game, predict);
  }

  /** `run_simulation` once the game is known not to be over: expansion of
      a node not yet set up, descent below one that is. */
  method Proceed(s: Mcts, node: MctsNode, game: Game, predict: Predictor) returns (r: Result<real>)
    requires node.Valid() && game.Valid()
    modifies node.Repr, game, game.board
    decreases if node.probabilities.None? then 0 else |node.Repr|, 2
    ensures node.Valid() && fresh(node.Repr - old(node.Repr)) && game.Valid()
    ensures game.actions == old(game.actions) && game.captured == old(game.captured)
    ensures game.round == old(game.round) && game.startingFen == old(game.startingFen)
    ensures r.Ok? ==> game.currentPlayer == old(game.currentPlayer) && game.Pos() == old(game.Pos())
    ensures r.Ok? ==> game.board.path == old(game.board.path) && game.board.floor == old(game.board.floor)
    ensures r.Ok? ==> game.board.eatenStack == old(game.board.eatenStack) && Extends(old(game.board.nodePos), game.board.nodePos)
    ensures forall m :: m in old(node.next) ==> m in node.next && node.next[m] == old(node.next[m])
    ensures old(node.probabilities).None? ==>
      var pred := predict(old(game.Pos()), old(game.currentPlayer), old(game.round));
      r == Ok(-pred.value) && SetUpFor(node, pred.priors, old(game.currentPlayer), Legal(old(game.Pos()), old(game.currentPlayer)))
    ensures old(node.probabilities).Some? ==>
      && node.probabilities == old(node.probabilities) && node.player == old(node.player)
      && BackedUp(s, old(node.q), old(node.probabilities).value, old(node.visits),
                  Legal(old(game.Pos()), old(game.currentPlayer)), node.q, node.visits, r)
  {
    if node.probabilities.None? {
      r := Expand(node, game, predict);
    } else {
      r := Descend(s, node, game, predict);
    }
  }

  /** A node not yet set up gets the predictor's priors, the side to move
      and the moves offered; the simulation returns minus the predicted
      value. */
  method Expand(node: MctsNode, game: Game, predict: Predictor) returns (r: Result<real>)
    requires node.Valid() && game.Valid()
    modifies node, game.board
    ensures node.Valid() && node.Repr == old(node.Repr) && game.Valid()
    ensures game.Pos() == old(game.Pos()) && game.board.path == old(game.board.path) && game.board.floor == old(game.board.floor)
    ensures game.board.eatenStack == old(game.board.eatenStack) && Extends(old(game.board.nodePos), game.board.nodePos)
    ensures var pred := predict(game.Pos(), game.currentPlayer, game.round);
      r == Ok(-pred.value) && SetUpFor(node, pred.priors, game.currentPlayer, Legal(game.Pos(), game.currentPlayer))
  {
    var pred := predict(game.Pos(), game.currentPlayer, game.round);
    var actions := game.GetCurrentActions();
    node.SetUp(pred.priors, game.currentPlayer, actions);
    r := Ok(-pred.value);
  }

  /** The part of `run_simulation` below an expanded node: selection, the
      move played and taken back around the child's simulation, and the
      backup. */
  method Descend(s: Mcts, node: MctsNode, game: Game, predict: Predictor) returns (r: Result<real>)
    requires node.Valid() && game.Valid() && node.probabilities.Some?
    modifies node.Repr, game, game.board
    decreases |node.Repr|, 1
    ensures node.Valid() && fresh(node.Repr - old(node.Repr)) && game.Valid()
    ensures game.actions == old(game.actions) && game.captured == old(game.captured)
    ensures game.round == old(game.round) && game.startingFen == old(game.startingFen)
    ensures r.Ok? ==> game.currentPlayer == old(game.currentPlayer) && game.Pos() == old(game.Pos())
    ensures r.Ok? ==> game.board.path == old(game.board.path) && game.board.floor == old(game.board.floor)
    ensures r.Ok? ==> game.board.eatenStack == old(game.board.eatenStack) && Extends(old(game.board.nodePos), game.board.nodePos)
    ensures forall m :: m in old(node.next) ==> m in node.next && node.next[m] == old(node.next[m])
    ensures node.probabilities == old(node.probabilities) && node.player == old(node.player)
    ensures BackedUp(s, old(node.q), old(node.probabilities).value, old(node.visits),
                     Legal(old(game.Pos()), old(game.currentPlayer)), node.q, node.visits, r)
  {
    var sel := SelectMove(s, node, game);
    if sel.Err? {
      return Err(sel.error);
    }
    var best := sel.value;
    var value := Explore(s, node, game, predict, best);
    if value.Err? {
      return Err(value.error);
    }
    var b := node.Backup(best, value.value);
    if b.Err? {
      return Err(b.error);
    }
    r := Ok(-value.value);
  }

  /** The selection over the moves the game offers: a move the board can
      play when it succeeds. */
  method SelectMove(s: Mcts, node: MctsNode, game: Game) returns (sel: Result<Move>)
    requires game.Valid() && node.probabilities.Some?
    modifies game.board
    ensures game.Valid() && game.Pos() == old(game.Pos())
    ensures game.board.path == old(game.board.path) && game.board.floor == old(game.board.floor)
    ensures game.board.eatenStack == old(game.board.eatenStack) && Extends(old(game.board.nodePos), game.board.nodePos)
    ensures sel == Selection(s, node.q, node.probabilities.value, node.visits, Legal(game.Pos(), game.currentPlayer))
    ensures sel.Ok? ==> MoveOk(game.Pos(), sel.value)
  {
    var actions := game.GetCurrentActions();
    sel := SelectAction(s, node, actions);
    if sel.Ok? {
      SelectionOffered(s, node.q, node.probabilities.value, node.visits, actions);
      if sel.value.Some? {
        LegalExactly(game.Pos(), game.currentPlayer, sel.value.value);
      }
    }
  }

  /** Below an expanded node, with the child for the selected move in
      place: the simulation through that child, whose grown subtree the
      node then takes into its footprint. */
  method Explore(s: Mcts, node: MctsNode, game: Game, predict: Predictor, best: Move) returns (r: Result<real>)
    requires node.Valid() && game.Valid() && node.probabilities.Some? && MoveOk(game.Pos(), best)
    modifies node.Repr, game, game.board
    decreases |node.Repr|, 0
    ensures node.Valid() && fresh(node.Repr - old(node.Repr)) && game.Valid()
    ensures game.actions == old(game.actions) && game.captured == old(game.captured)
    ensures game.round == old(game.round) && game.startingFen == old(game.startingFen)
    ensures r.Ok? ==> game.currentPlayer == old(game.currentPlayer) && game.Pos() == old(game.Pos())
    ensures r.Ok? ==> game.board.path == old(game.board.path) && game.board.floor == old(game.board.floor)
    ensures r.Ok? ==> game.board.eatenStack == old(game.board.eatenStack) && Extends(old(game.board.nodePos), game.board.nodePos)
    ensures forall m :: m in old(node.next) ==> m in node.next && node.next[m] == old(node.next[m])
    ensures node.q == old(node.q) && node.visits == old(node.visits)
    ensures node.probabilities == old(node.probabilities) && node.player == old(node.player)
  {
    ghost var r0 := node.Repr;
    var child := node.ChildFor(best);
    ChildSmaller(node, best);
    ghost var r1 := node.Repr;
    r := Adopt(s, node, child, game, predict, best);
    StepwiseGrowth(r0, r1, node.Repr);
  }

  /** The simulation through the child for the selected move, whose grown
      subtree the node then takes into its footprint. */
  method Adopt(s: Mcts, node: MctsNode, child: MctsNode, game: Game, predict: Predictor, best: Move) returns (r: Result<real>)
    requires node.Valid() && game.Valid() && node.probabilities.Some? && MoveOk(game.Pos(), best)
    requires best in node.next && node.next[best] == child
    modifies node.Repr, game, game.board
    decreases if child.probabilities.None? then 0 else |child.Repr|, 7
    ensures node.Valid() && fresh(node.Repr - old(node.Repr)) && game.Valid()
    ensures game.actions == old(game.actions) && game.captured == old(game.captured)
    ensures game.round == old(game.round) && game.startingFen == old(game.startingFen)
    ensures r.Ok? ==> game.currentPlayer == old(game.currentPlayer) && game.Pos() == old(game.Pos())
    ensures r.Ok? ==> game.board.path == old(game.board.path) && game.board.floor == old(game.board.floor)
    ensures r.Ok? ==> game.board.eatenStack == old(game.board.eatenStack) && Extends(old(game.board.nodePos), game.board.nodePos)
    ensures node.next == old(node.next) && node.q == old(node.q) && node.visits == old(node.visits)
    ensures node.probabilities == old(node.probabilities) && node.player == old(node.player)
  {
    assert node !in child.Repr;
    r := Visit(s, child, game, predict, best);
    ghost var c2 := child.Repr;
    node.Absorb(best);
    assert node.Repr - old(node.Repr) == c2 - old(node.Repr);
  }

  /** The move played on the board, the simulation from the child node,
      and the move taken back when that simulation succeeds. */
  method Visit(s: Mcts, child: MctsNode, game: Game, predict: Predictor, best: Move) returns (r: Result<real>)
    requires child.Valid() && game.Valid() && MoveOk(game.Pos(), best)
    modifies child.Repr, game, game.board
    decreases if child.probabilities.None? then 0 else |child.Repr|, 6
    ensures child.Valid() && fresh(child.Repr - old(child.Repr)) && game.Valid()
    ensures game.actions == old(game.actions) && game.captured == old(game.captured)
    ensures game.round == old(game.round) && game.startingFen == old(game.startingFen)
    ensures r.Ok? ==> game.currentPlayer == old(game.currentPlayer) && game.Pos() == old(game.Pos())
    ensures r.Ok? ==> game.board.path == old(game.board.path) && game.board.floor == old(game.board.floor)
    ensures r.Ok? ==> game.board.eatenStack == old(game.board.eatenStack) && Extends(old(game.board.nodePos), game.board.nodePos)
  {
    ghost var p0, e0, pos0 := game.board.path, game.board.eatenStack, game.Pos();
    assert p0 in game.board.nodePos && game.board.nodePos[p0] == pos0;
    PlayMove(game, best);
    r := SimulateBelow(s, child, game, predict, best);
    if r.Ok? {
      assert game.board.path == p0 && game.board.eatenStack == e0;
      assert game.board.nodePos[p0] == pos0;
    }
  }

  /** The simulation from the child node after its move was played, and
      the move taken back when that simulation succeeds. */
  method SimulateBelow(s: Mcts, child: MctsNode, game: Game, predict: Predictor, best: Move) returns (r: Result<real>)
    requires child.Valid() && game.Valid()
    requires |game.board.path| > game.board.floor && game.board.path[|game.board.path| - 1] == best
    modifies child.Repr, game, game.board
    decreases if child.probabilities.None? then 0 else |child.Repr|, 5
    ensures child.Valid() && fresh(child.Repr - old(child.Repr)) && game.Valid()
    ensures game.actions == old(game.actions) && game.captured == old(game.captured)
    ensures game.round == old(game.round) && game.startingFen == old(game.startingFen)
    ensures r.Ok? ==> game.currentPlayer == old(game.currentPlayer).Other() && game.board.floor == old(game.board.floor)
    ensures r.Ok? ==> game.board.path == old(game.board.path)[..|old(game.board.path)| - 1]
    ensures r.Ok? ==> game.board.eatenStack == old(game.board.eatenStack)[..|old(game.board.eatenStack)| - 1]
    ensures r.Ok? ==> Extends(old(game.board.nodePos), game.board.nodePos)
  {
    r := RunSimulation(s, child, game, predict);
    if r.Ok? {
      TakeBack(game, best);
    }
  }

  /** What a set gained over two steps it gained in one of them. */
  lemma StepwiseGrowth<T>(a: set<T>, b: set<T>, c: set<T>)
    ensures c - a <= (b - a) + (c - b)
  {
  }

  /** A child's subtree is smaller than its parent's. */
  lemma ChildSmaller(node: MctsNode, m: Move)
    requires node.Valid() && m in node.next
    ensures |node.next[m].Repr| < |node.Repr|
  {
    var c := node.next[m];
    assert c.Repr <= node.Repr - {node};
    assert |node.Repr - {node}| == |node.Repr| - 1;
    SubsetCard(c.Repr, node.Repr - {node});
  }

  lemma {:induction false} SubsetCard<T>(a: set<T>, b: set<T>)
    requires a <= b
    ensures |a| <= |b|
    decreases |a|
  {
    if a != {} {
      var x :| x in a;
      SubsetCard(a - {x}, b - {x});
    }
  }

  /** `game.board.apply_action(m)` followed by `game.switch_player()`: the
      board one move down the cache, the other side to move. */
  method PlayMove(game: Game, m: Move)
    requires game.Valid() && MoveOk(game.Pos(), m)
    modifies game, game.board
    ensures game.Valid() && game.Pos() == StepMove(old(game.Pos()), m)
    ensures game.currentPlayer == old(game.currentPlayer).Other()
    ensures game.actions == old(game.actions) && game.captured == old(game.captured)
    ensures game.round == old(game.round) && game.startingFen == old(game.startingFen)
    ensures game.board.path == old(game.board.path) + [m] && game.board.floor == old(game.board.floor)
    ensures |game.board.eatenStack| == |old(game.board.eatenStack)| + 1
    ensures game.board.eatenStack[..|old(game.board.eatenStack)|] == old(game.board.eatenStack)
    ensures Extends(old(game.board.nodePos), game.board.nodePos)
  {
    var _ := game.board.ApplyAction(m);
    game.SwitchPlayer();
  }

  /** `game.board.reverse_action(m)` followed by `game.switch_player()`. */
  method TakeBack(game: Game, m: Move)
    requires game.Valid() && |game.board.path| > game.board.floor && game.board.path[|game.board.path| - 1] == m
    modifies game, game.board
    ensures game.Valid()
    ensures game.currentPlayer == old(game.currentPlayer).Other()
    ensures game.actions == old(game.actions) && game.captured == old(game.captured)
    ensures game.round == old(game.round) && game.startingFen == old(game.startingFen)
    ensures game.board.path == old(game.board.path)[..|old(game.board.path)| - 1]
    ensures game.board.eatenStack == old(game.board.eatenStack)[..|old(game.board.eatenStack)| - 1]
    ensures game.board.floor == old(game.board.floor) && game.board.nodePos == old(game.board.nodePos)
  {
    game.board.ReverseAction(m);
    game.SwitchPlayer();
  }

  /** A successful backup adds exactly one visit to the node. */
  lemma BackedUpCounts(s: Mcts, q0: map<Move, real>, p0: map<Move, real>, n0: map<Move, nat>, actions: seq<Action>,
                       q: map<Move, real>, visits: map<Move, nat>, r: Result<real>)
    requires BackedUp(s, q0, p0, n0, actions, q, visits, r) && r.Ok?
    ensures Total(visits) == Total(n0) + 1
  {
    var m := Selection(s, q0, p0, n0, actions).value;
    TotalBump(n0, m);
  }

  // ------------------------------------------------------------ choice

  /** The simulations of `choose_action`: `n_simulations` of them (none
      when that number is not positive), the first failure ending the
      search with its error. When the node was set up and the game not
      over, every simulation adds one visit to the node. */
  method Search(s: Mcts, node: MctsNode, game: Game, predict: Predictor) returns (r: Result<()>)
    requires node.Valid() && game.Valid()
    modifies node.Repr, game, game.board
    ensures node.Valid() && fresh(node.Repr - old(node.Repr)) && game.Valid()
    ensures game.actions == old(game.actions) && game.captured == old(game.captured)
    ensures game.round == old(game.round) && game.startingFen == old(game.startingFen)
    ensures r.Ok? ==> game.currentPlayer == old(game.currentPlayer) && game.Pos() == old(game.Pos())
    ensures r.Ok? && old(node.probabilities).Some? &&
            !GameOver(old(game.Pos()), old(game.currentPlayer), LastOf(old(game.actions), old(game.captured)),
                      old(game.round), DefaultIterMax) ==>
              Total(node.visits) == Total(old(node.visits)) + (if s.nSimulations > 0 then s.nSimulations else 0)
  {
    ghost var pos0, c0 := game.Pos(), game.currentPlayer;
    ghost var counted := node.probabilities.Some? &&
      !GameOver(pos0, c0, LastOf(game.actions, game.captured), game.round, DefaultIterMax);
    ghost var visits0 := node.visits;
    var n := if s.nSimulations > 0 then s.nSimulations else 0;
    var i := 0;
    while i < n
      invariant 0 <= i <= n
      invariant node.Valid() && fresh(node.Repr - old(node.Repr)) && game.Valid()
      invariant game.actions == old(game.actions) && game.captured == old(game.captured)
      invariant game.round == old(game.round) && game.startingFen == old(game.startingFen)
      invariant game.currentPlayer == c0 && game.Pos() == pos0
      invariant counted ==> node.probabilities.Some? && Total(node.visits) == Total(visits0) + i
    {
      ghost var r0, q0, n0 := node.Repr, node.q, node.visits;
      var v := RunSimulation(s, node, game, predict);
      if v.Err? {
        return Err(v.error);
      }
      if counted {
        BackedUpCounts(s, q0, node.probabilities.value, n0, Legal(pos0, c0), node.q, node.visits, v);
      }
      StepwiseGrowth(old(node.Repr), r0, node.Repr);
      i := i + 1;
    }
    r := Ok(());
  }

  /** `max` over the entries of Q by value: a move of maximal Q, any of
      several maximal ones, and a `ValueError` when Q is empty. */
  method PickMax(q: map<Move, real>) returns (r: Result<Move>)
    ensures r.Err? <==> q == map[]
    ensures r.Err? ==> r.error == "ValueError"
    ensures r.Ok? ==> r.value in q && forall m :: m in q ==> q[m] <= q[r.value]
  {
    if q == map[] {
      return Err("ValueError");
    }
    MaxEntry(q);
    var best :| best in q && forall m :: m in q ==> q[m] <= q[best];
    r := Ok(best);
  }

  /** `choose_action`: the simulations, then a move of maximal Q among the
      node's entries. */
  method ChooseAction(s: Mcts, node: MctsNode, game: Game, predict: Predictor) returns (r: Result<Move>)
    requires node.Valid() && game.Valid()
    modifies node.Repr, game, game.board
    ensures node.Valid() && fresh(node.Repr - old(node.Repr)) && game.Valid()
    ensures game.actions == old(game.actions) && game.captured == old(game.captured)
    ensures game.round == old(game.round) && game.startingFen == old(game.startingFen)
    ensures r.Ok? ==> game.currentPlayer == old(game.currentPlayer) && game.Pos() == old(game.Pos())
    ensures r.Ok? ==> r.value in node.q && forall m :: m in node.q ==> node.q[m] <= node.q[r.value]
  {
    var done := Search(s, node, game, predict);
    if done.Err? {
      return Err(done.error);
    }
    r := PickMax(node.q);
  }
}
