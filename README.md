# Janggi engine core: a Dafny model

This project models the deterministic core of an AlphaZero-style engine for
Janggi (Korean chess), played on a board of 10 rows and 9 columns. It covers:

- **Moves and their encoding** (`Actions`, janggi/action.py). A move is a
  value made of four coordinates. Its hash depends on those coordinates only.
  Its move class indexes the policy tensor: 58 classes, plus a mirror flag.
- **Piece rules** (`Pieces`, janggi/piece.py). The move generators of the
  seven kinds. Each is stated geometrically and proved equal, or sound, with
  respect to that statement. The scanning generators (cannon, chariot,
  palace) are also written as the loops of the source and proved to compute
  the same lists.
- **The board** (`Positions`, `Rules`, `Layout`, `BoardStates`, `Boards`,
  janggi/board.py). The mutable `Board` class holds the grid, the piece
  objects, the per-colour lists and the general references. `apply_action`
  and `reverse_action` undo each other exactly. Move lists are cached in a
  tree of nodes keyed by the path of moves applied. Check-filtered move
  generation, the check and end-of-game tests, the score and the 16 feature
  planes complete the class.
- **The game** (`Games`, janggi/game.py). `Game` holds the side to move, the
  round counter and the moves played. The module also states the reward and
  winner rules and the text record `dumps` writes. It models the round
  arithmetic of `from_fen` and the token split of `from_uci_usi`.
- **Tree search** (`MonteCarlo`, ia/mcts.py). Search nodes are objects with
  Q, N and child tables. The recursive simulation applies moves to the shared
  board and reverses them. Selection uses the PUCT score, Q is backed up as a
  running mean, and `choose_action` picks a move of maximal Q.
- **The player** (`Players`, ia/random_mcts_player.py). Following the game's
  moves down the search tree, the heuristic predictor (uniform priors,
  score-difference value) and `play_action`.
- **Training records** (`Training`, ia/trainer.py). `set_winner` relabels
  examples in place. `_raw_to_examples` is the line-by-line state machine
  that reads game records. A round-trip lemma shows that parsing what
  `Game.dumps` writes gives back the game's moves, with the examples
  labelled for its winner.
- **Gibo conversion** (`Gibo`, data/process_gibo.py). The layout table, the
  header reader `get_blue_red_starting_pos`, and `get_moves`, which turns a
  gibo body into four-digit lines. Every such line reads back in the trainer
  as a move on the board or a pass.

`Utils` and `Text` hold the colours, `Option`/`Result`, and the Python string
operations the source relies on: `strip`, `split`, `join`, `replace`,
`int` and `str`.

Python exceptions are modelled as `Err` values of a `Result`, carrying the
exception's name. The pass move `None` is `Move = Option<Action>`. Floating
point values (scores, priors, Q) are Dafny `real`s.

## Model

| member | source | states |
|---|---|---|
| `Actions.HashRoundTrip` | janggi/action.py:19-20 | the hash depends on the four coordinates only; for the mixed-radix code that stands in for Python's tuple hash, an on-board move's hash lies in [0, 8100) and decodes back to its coordinates |
| `Actions.HashInjective` | janggi/action.py:19-24 | for the stand-in code, two on-board moves have the same hash exactly when they are equal, i.e. have the same four coordinates, so hash and `__eq__` agree |
| `Actions.MoveClass` | janggi/action.py:26-188 | the class of an on-board move, when it has one, lies in [0, 58) |
| `Actions.VerticalClasses` | janggi/action.py:27-34 | north by d is class d-1, south by d is class d+8, and the symmetry flag changes nothing |
| `Actions.HorizontalClasses` | janggi/action.py:35-48 | east by d is class d+17 and west by d is class d+25; with the flag the two are swapped |
| `Actions.ClassBands` | janggi/action.py:49-188 | a move has a class exactly when it is straight or an offset is 1 or 2; short diagonals fall in 34-37, large diagonals in 38-41, horse moves in 42-49, elephant moves in 50-57 |
| `Actions.MirrorColumns` | janggi/action.py:26-188 | mirroring the columns keeps a move on the board |
| `Actions.MirrorClass` | janggi/action.py:26-188 | the symmetric class of the column-mirrored move equals the plain class of the move, and conversely |
| `Positions.IndexBijective` | janggi/board.py:246 | `get_index` is a bijection from the seven kinds onto 0..6, so kind and side pick distinct feature planes |
| `Positions.MirroredInvolution` | janggi/board.py:232-235 | the mirrored square of an on-board square is on the board, reading it mirrored gives back the piece on (x, y), and reading without `reverse` is the plain `get` |
| `Positions.GetAgreesWithPieces` | janggi/board.py:195-202 | in a well-formed position the piece on a square is alive and its stored coordinates are that square |
| `Pieces.SoldierMovesExactly` | janggi/piece.py:55-88 | a soldier move is exactly one step sideways, one step forward in the direction of the colour's value, or a forward diagonal from a listed palace square (RED's left one being (3, 5)), onto an empty or enemy square; never backward |
| `Pieces.SoldierMovesSound` | janggi/piece.py:55-88 | every soldier move starts on the soldier, stays on the board and reaches an enterable square within the soldier's reach |
| `Pieces.SoldierMovesComplete` | janggi/piece.py:55-88 | every enterable square within the soldier's reach is one of its moves |
| `Pieces.CannonDirection` | janggi/piece.py:131-147 | the scan loop with its `encounter_piece_jump` flag and early returns appends exactly the moves of the cannon's ray |
| `Pieces.CannonScanSound` | janggi/piece.py:131-147 | every straight cannon move lies on the ray, jumps exactly one screen, crosses no cannon and lands on an empty square or a non-cannon enemy |
| `Pieces.CannonScanComplete` | janggi/piece.py:131-147 | every square on the ray that is reached over exactly one screen and no cannon, and is empty or holds a non-cannon enemy, is a cannon move |
| `Pieces.CannonStraightActions` | janggi/piece.py:103-107 | the four direction scans, in the source's order, build the cannon's straight moves |
| `Pieces.CannonActions` | janggi/piece.py:102-110 | `Cannon.get_actions`: the straight scans followed by the two palace diagonals |
| `Pieces.CannonMovesSound` | janggi/piece.py:102-147 | every cannon move starts on the cannon, ends elsewhere on the board, on an empty or enemy square |
| `Pieces.CannonDiagonalSound` | janggi/piece.py:112-129 | every palace-diagonal cannon move jumps from a corner over an occupied centre to the opposite corner, which is empty or an enemy |
| `Pieces.CannonCornerComplete` | janggi/piece.py:112-129 | a cannon on a palace corner is offered the opposite corner over an occupied centre when that corner is empty or holds an enemy |
| `Pieces.SlideDirection` | janggi/piece.py:213-233 | the slide loop appends exactly the squares of the ray up to and including the first piece when it is an enemy |
| `Pieces.SlideScanSound` | janggi/piece.py:213-233 | every slide crosses only empty squares and ends on an empty square or an enemy |
| `Pieces.SlideScanComplete` | janggi/piece.py:213-233 | every square reached over empty squares that is empty or an enemy is a slide |
| `Pieces.ChariotActions` | janggi/piece.py:203-211 | `Chariot.get_actions`: the four slides then the two palaces |
| `Pieces.ChariotDiagonalSound` | janggi/piece.py:235-269 | palace-diagonal chariot moves go one or two squares diagonally inside the palace; a two-square move crosses an empty centre; the target is enterable unless it is the occupied centre (the comparison of a piece with a colour at line 258 never holds) |
| `Pieces.ChariotMovesSound` | janggi/piece.py:203-269 | every chariot move starts on the chariot and ends elsewhere on the board, on an enterable square or the palace centre |
| `Pieces.ChariotCornerComplete` | janggi/piece.py:253-269 | a chariot on a palace corner is always offered the centre (even over its own piece, the line-258 quirk), and the opposite corner when the centre is empty and that corner can be entered |
| `Pieces.ChariotCenterComplete` | janggi/piece.py:240-251 | a chariot on a palace centre is offered every corner it can enter |
| `Pieces.PalaceOf` | janggi/piece.py:163-166 | BLUE's palace is rows 0-2 and RED's rows 7-9, both columns 3-5, and lies on the board |
| `Pieces.PalaceStepAction` | janggi/piece.py:172-189 | one pass of the double loop with its `continue`s appends exactly that offset's move |
| `Pieces.PalaceActions` | janggi/piece.py:169-189 | the double loop of `_get_action_per_fortress` computes the palace moves |
| `Pieces.PalaceMovesExactly` | janggi/piece.py:161-189 | the general and the guards move exactly one step inside their own palace, diagonally only away from edge midpoints, onto an empty or enemy square |
| `Pieces.HorseMovesExactly` | janggi/piece.py:327-352 | a horse move is exactly a jump of two squares along one axis and one along the other whose first square is empty, onto an empty or enemy square on the board |
| `Pieces.HorseSubExactly` | janggi/piece.py:335-352 | one quadrant's moves are exactly the horse jumps towards it within reach |
| `Pieces.ElephantMovesExactly` | janggi/piece.py:283-313 | an elephant move is exactly a jump of three squares along one axis and two along the other with both intermediate squares empty, onto an empty or enemy square on the board |
| `Pieces.ElephantSubExactly` | janggi/piece.py:291-313 | one quadrant's moves are exactly the elephant jumps towards it within reach |
| `Pieces.PieceActions` | janggi/piece.py:27-28 | `piece.get_actions()`, dispatched on the kind, with the loops of the scanning pieces, equals the specified moves |
| `Pieces.PieceMovesSound` | janggi/piece.py:55-392 | every generated move of every kind starts on the piece's square and ends elsewhere on the board, on an empty or enemy square (the chariot's occupied palace centre excepted) |
| `Pieces.PieceMovesDistinct` | janggi/piece.py:55-392 | no generator offers the same move twice: scans move strictly ahead, directions and quadrants occupy disjoint regions, palace diagonals leave the piece's row and column |
| `Rules.Step` | janggi/board.py:195-202 | the moved position: the mover goes to the destination with its coordinates, the eaten piece is dead, the origin is empty, lists and generals unchanged |
| `Rules.StepElsewhere` | janggi/board.py:195-202 | nothing but the two squares of the move and the two pieces involved changes |
| `Rules.MovedWellFormed` | janggi/board.py:195-202 | the moved position keeps grid references and piece coordinates in agreement |
| `Rules.StepMove` | janggi/board.py:191-193 | a pass leaves the position as it was; a move gives a well-formed position |
| `Rules.UndoStep` | janggi/board.py:204-218 | `reverse_action` directly after `apply_action` of the same move restores the grid, every coordinate and every liveness flag |
| `Rules.CandidatesFromSound` | janggi/board.py:141-145 | every collected move is a move of a live listed piece (not the general when excluded) and can be applied |
| `Rules.CandidatesFromComplete` | janggi/board.py:141-145 | every move of a live listed piece (not the general when excluded) is collected |
| `Rules.AnyHits` | janggi/board.py:182 | the `any(...)` scan is true exactly when some move lands on the square |
| `Rules.FilterExactly` | janggi/board.py:147-154 | a move survives the filter exactly when it is a candidate the test accepts |
| `Rules.LegalExactly` | janggi/board.py:137-154 | the legal moves are exactly the pseudo-legal moves after which the mover is not in check |
| `Rules.LegalDistinct` | janggi/board.py:137-154 | in a well-formed position (whose colour lists name each piece once) the legal moves repeat no move |
| `Rules.ScoreBounds` | janggi/board.py:220-230 | BLUE's score is at least 0, RED's at least 1.5 and never zero; BLUE's is zero exactly when none of its listed live pieces carries points |
| `Rules.FeaturePlanesOneHot` | janggi/board.py:237-250 | at each square exactly the plane of the kind and side of the piece seen there is 1 and none at an empty square; planes 14 and 15 hold the RED flag and the round |
| `Layout.StartPiece` | janggi/board.py:48-97 | the 32 starting piece objects, in the order they are created, are alive |
| `Layout.InitializePieces` | janggi/board.py:48-97 | `_initialize_pieces` fills the grid and the piece objects with the starting layout |
| `Layout.StartConsistent` | janggi/board.py:48-97 | on the starting board, grid and coordinates agree both ways; BLUE stands in rows 0-3 and RED in rows 6-9 |
| `Layout.StartWellFormed` | janggi/board.py:81-85 | the starting grid and pieces, with the two generals where `_initialize_general` puts them, form a well-formed position |
| `BoardStates.ColorRowsExactly` | janggi/board.py:22-36 | a colour's list holds exactly the pieces of that colour on the grid, row by row |
| `BoardStates.ColorRowsColored` | janggi/board.py:29-34 | every listed piece has the list's colour |
| `BoardStates.ScanColors` | janggi/board.py:22-36 | the scan loop builds the two row-major lists and ends with general references to the two generals |
| `BoardStates.ScanCell` | janggi/board.py:27-36 | one square of the scan appends its piece to its colour's list |
| `BoardStates.StartListsWellFormed` | janggi/board.py:10-20 | the lists scanned over the starting grid make a well-formed position |
| `BoardStates.EmptyNodeSlots` | janggi/board.py:253-262 | a new cache node holds no list |
| `BoardStates.SingleNodeTree` | janggi/board.py:38-40 | a fresh cache root alone is a correct cache tree |
| `BoardStates.AddChild` | janggi/board.py:187-189 | creating the child node for a move keeps every stored list correct and the child linked to its parent |
| `BoardStates.StoreSlot` | janggi/board.py:156-165 | storing the list `get_actions` computes keeps the cache correct |
| `BoardStates.ApplyKeepsInv` | janggi/board.py:184-202 | `apply_action` keeps the board invariant; the current node becomes the child for the move |
| `BoardStates.ApplyState` | janggi/board.py:184-202 | the new state after `apply_action`: moved position, extended path and `eaten` record, child node created if missing |
| `BoardStates.ReverseKeepsInv` | janggi/board.py:204-218 | `reverse_action` of the last move keeps the invariant; the current node becomes the parent |
| `BoardStates.ReverseState` | janggi/board.py:204-218 | the new state after `reverse_action`: path and record shortened, the parent's position rebuilt by undoing the move |
| `BoardStates.MovePiece` | janggi/board.py:195-202 | the piece moves, its coordinates become the destination, the previous occupant is returned and marked dead |
| `BoardStates.UnmovePiece` | janggi/board.py:212-218 | the piece goes back to the origin and the recorded eaten piece is put back, alive |
| `BoardStates.CollectCandidates` | janggi/board.py:137-145 | the collecting loop chains the moves of the live listed pieces, the general skipped when excluded |
| `Boards.Board.constructor` | janggi/board.py:10-20 | a new board holds the starting layout, lists equal to the row-major scan, and an empty cache root |
| `Boards.Board.ApplyAction` | janggi/board.py:184-202 | the position becomes the moved one, the move and the eaten piece are pushed, the cache only gains nodes |
| `Boards.Board.ReverseAction` | janggi/board.py:204-218 | the path and `eaten` record lose their last entry and the position is the parent node's |
| `Boards.Board.InvalidateActionCache` | janggi/board.py:38-42 | with no move a fresh root at the current position; with a move the parent link is cut, so later reverses stop there |
| `Boards.Board.GetActions` | janggi/board.py:125-167 | returns the cached list or computes it, and either way the result is the check-filtered (or general-free) move list of the position, now stored in the current node |
| `Boards.Board.KeepSafe` | janggi/board.py:146-154 | the apply/test/reverse loop keeps exactly the moves after which the colour is not in check, and leaves the position as it was |
| `Boards.Board.TestMove` | janggi/board.py:149-153 | one step of that loop answers whether the colour is safe after the move, position unchanged |
| `Boards.Board.StoreActions` | janggi/board.py:156-165 | the computed list goes in the slot of the colour and flag |
| `Boards.Board.IsCheck` | janggi/board.py:174-182 | true exactly when some non-general move of the other colour lands on the colour's general |
| `Boards.Board.IsFinished` | janggi/board.py:169-172 | true exactly when the score is 0, or below 20 after a last move that ate nothing, or there is no legal move while in check |
| `Boards.Board.GetScore` | janggi/board.py:220-230 | the points of the colour's live pieces, plus 1.5 for RED |
| `Boards.Board.GetFeatures` | janggi/board.py:237-250 | a fresh 16 x 10 x 9 array equal at every entry to the feature plane value |
| `Games.Reward` | janggi/game.py:119-131 | always +1 or -1, and +1 exactly when the side to move is BLUE strictly ahead or RED at least level |
| `Games.Winner` | janggi/game.py:136-146 | on a finished board the other side wins; otherwise BLUE wins exactly when strictly ahead |
| `Games.RewardMatchesWinner` | janggi/game.py:119-146 | while the game goes on, the side to move is rewarded exactly when it is the winner |
| `Games.MoveText` | janggi/game.py:153-157 | a record line is four characters: "XXXX" for a pass, else the four coordinates as digits |
| `Games.MoveLines` | janggi/game.py:153-157 | one line per move, the i-th being the text of the i-th move |
| `Games.FenTurn` | janggi/game.py:24-34 | an error exactly when there is no second field (IndexError) or the last field is not an integer (ValueError); otherwise BLUE exactly when the second field is "w", and the round is 2n-2 for BLUE and 2n-1 for RED where n is the last field, so even exactly when BLUE is to move |
| `Games.FenStart` | janggi/game.py:24-34 | a FEN ending in "w - - 0 1" gives round 0 with BLUE to move |
| `Games.UciUsiRoundTrip` | janggi/game.py:41-44 | tokens 2 to 7 form the FEN and tokens from 9 on the moves |
| `Games.PlayStep` | janggi/game.py:46-48 | playing the first of a playable move list leaves the rest playable towards the same final position |
| `Games.Game.constructor` | janggi/game.py:11-20 | BLUE to move, round 0, no move, no FEN |
| `Games.Game.SwitchPlayer` | janggi/game.py:100-101 | the other side is to move and nothing else changes |
| `Games.Game.ApplyAction` | janggi/game.py:93-98 | the move is appended and carried out, the turn passes, the round grows by exactly one |
| `Games.Game.ApplyMoves` | janggi/game.py:46-48 | the loop over the decoded moves replays them in order; the round grows by their number and the side to move alternates |
| `Games.Game.GetCurrentActions` | janggi/game.py:110-111 | the legal moves of the side to move |
| `Games.Game.IsFinished` | janggi/game.py:113-117 | the board's end test for the side to move, given the last move when there is one, or the round limit |
| `Games.Game.GetReward` | janggi/game.py:119-131 | the reward rule for the side to move |
| `Games.Game.GetWinner` | janggi/game.py:136-146 | the winner rule for the side to move |
| `Games.Game.Dumps` | janggi/game.py:148-160 | the FEN line or the two layout tags, one line per move, an extra "XXXX" when the winner is to move, joined by newlines with a final newline |
| `MonteCarlo.MctsNode.constructor` | ia/mcts.py:7-12 | no priors, no player, empty tables |
| `MonteCarlo.MctsNode.SetUp` | ia/mcts.py:14-25 | priors and player stored, no child, Q and N zero on exactly the moves offered, or on the pass alone when none is |
| `MonteCarlo.MctsNode.Backup` | ia/mcts.py:65-67 | Q of the move becomes the running mean with the value and N grows by one; every other entry unchanged; a `KeyError` for a move without entries |
| `MonteCarlo.SumVisits` | ia/mcts.py:48 | the loop computes `sum(N.values())` |
| `MonteCarlo.TotalBump` | ia/mcts.py:67 | one more visit of a move adds one to the total |
| `MonteCarlo.BestIndex` | ia/mcts.py:44-51 | the kept index is in range, and -1 exactly when there is no move |
| `MonteCarlo.BestIndexFirstMax` | ia/mcts.py:44-51 | the kept move has the highest PUCT score and every earlier move scores strictly lower |
| `MonteCarlo.SelectionOffered` | ia/mcts.py:44-52 | a selected move is one of the moves offered, and there is none exactly when no move is offered |
| `MonteCarlo.SelectAction` | ia/mcts.py:44-51 | the selection loop computes the first maximiser of the PUCT score, or a `KeyError` |
| `MonteCarlo.RunningMeanIsMean` | ia/mcts.py:65-66 | Q stays the mean of the values backed up through the move |
| `MonteCarlo.RunningMeanBounds` | ia/mcts.py:65-66 | a value and a mean within bounds give a new mean within them |
| `MonteCarlo.MaxEntry` | ia/mcts.py:76 | a non-empty Q table has an entry of maximal value |
| `MonteCarlo.RunSimulation` | ia/mcts.py:34-69 | at the end of the game returns minus the reward, node untouched; an unexpanded node is set up from one prediction and returns minus its value; otherwise the backup of the selected move with the child's value, returning its negation; on success the board, its cache cursor and the side to move are as before |
| `MonteCarlo.Expand` | ia/mcts.py:39-42 | the node is set up from the predictor's priors, the side to move and the moves offered; minus the predicted value is returned |
| `MonteCarlo.Descend` | ia/mcts.py:44-69 | selection, the move played and taken back around the child's simulation, then the backup |
| `MonteCarlo.SelectMove` | ia/mcts.py:44-52 | the selection over the legal moves, whose result the board can play |
| `MonteCarlo.MctsNode.ChildFor` | ia/mcts.py:56-60 | the existing child for the move, or a new empty one recorded under it; other children unchanged |
| `MonteCarlo.PlayMove` | ia/mcts.py:54-55 | the board one move further down the cache, the other side to move |
| `MonteCarlo.TakeBack` | ia/mcts.py:62-63 | the board back to the parent cache node, the side to move switched back |
| `MonteCarlo.BackedUpCounts` | ia/mcts.py:67 | a successful backup adds exactly one visit to the node |
| `MonteCarlo.Search` | ia/mcts.py:72-73 | on success the board and side to move are as before; on an expanded node of a game not over, the node's total visit count grows by exactly `n_simulations` (none when that is not positive) |
| `MonteCarlo.PickMax` | ia/mcts.py:74-76 | a key of maximal Q, and a `ValueError` exactly when Q is empty |
| `MonteCarlo.ChooseAction` | ia/mcts.py:71-77 | after the simulations, a move of the node's Q table with maximal Q; board and side to move as before |
| `Players.UniformPriors` | ia/random_mcts_player.py:53 | a key for each move offered and no other, each with prior 1/len(actions) |
| `Players.UniformPriorsMass` | ia/random_mcts_player.py:53 | the priors sum to the share of distinct moves, 1 when each is listed once |
| `Players.PriorsSumToOne` | ia/random_mcts_player.py:48-53 | in every well-formed position with a legal move, the heuristic priors over the legal moves sum to 1 (the legal list repeats no move, by `Rules.LegalDistinct`) |
| `Players.HeuristicAgreesWithReward` | ia/random_mcts_player.py:50-52 | the value is positive for BLUE exactly when BLUE would get reward +1, non-negative for RED exactly when RED would |
| `Players.Predict` | ia/random_mcts_player.py:48-53 | `predict` on the game: the uniform priors over the legal moves and the score difference / 73.5 / 10 seen from the side to move |
| `Players.Indexed` | ia/random_mcts_player.py:31 | Python indexing succeeds exactly for -len <= i < len |
| `Players.RangeItemsClosedForm` | ia/random_mcts_player.py:30-31 | the loop reads the moves from k on; from a negative k the last -k moves then all of them; an `IndexError` below -len |
| `Players.StepDown` | ia/random_mcts_player.py:32-36 | one step to the child for the move, or to a new node when there is none |
| `Players.Walk` | ia/random_mcts_player.py:30-37 | the node reached is the descendant along the moves read, or a new empty node once a child is missing |
| `Players.MctsPlayer.constructor` | ia/random_mcts_player.py:40-46 | the given node or a new empty one; the index starts at 0 |
| `Players.MctsPlayer.FollowActions` | ia/random_mcts_player.py:30-37 | the loop of `_apply_latest_actions` from the stored index, as `Walk` |
| `Players.MctsPlayer.ApplyLatestActions` | ia/random_mcts_player.py:29-38 | follows the moves, then stores len(actions) - 1 as the next start |
| `Players.MctsPlayer.PlayAction` | ia/random_mcts_player.py:25-27 | catches up with the game: an `IndexError` leaves the node and index as they were; otherwise the node searched is the descendant along the moves read, or a new node when the tree lacks one. The move returned has maximal Q at that node; board and side to move are as before |
| `Players.ResumeRereadsLast` | ia/random_mcts_player.py:38 | the next call reads the last move already seen again; with no move seen it reads the last move then all; on an empty list it fails |
| `Training.Labelled` | ia/trainer.py:46-53 | same length and same examples, each labelled 1 exactly when tagged with the winner, -1 otherwise |
| `Training.SetWinner` | ia/trainer.py:46-53 | the in-place loop leaves the array equal to the relabelled examples |
| `Training.LabelGame` | ia/trainer.py:149 | `set_winner` on a game's examples gives the labelled list |
| `Training.ReadLine` | ia/trainer.py:143-195 | one stripped line of the record: a blank closes the game, the first two others are the tags, every later one a move |
| `Training.RawToExamples` | ia/trainer.py:133-202 | the loop over all lines gives the specified parse, or the error of the first line that raises |
| `Training.ErrorStops` | ia/trainer.py:142-175 | once a line raises, the rest of the input is not read |
| `Training.ReadTags` | ia/trainer.py:164-167 | the first two non-blank lines of a game are BLUE's then RED's layout tag |
| `Training.MoveLineRoundTrip` | ia/trainer.py:171-175 | the line written for a move reads back as that move |
| `Training.DigitsRead` | ia/trainer.py:175 | four digits read as the action they spell |
| `Training.GameExamples` | ia/trainer.py:177-192 | two examples per move, tagged with the mover |
| `Training.FeedMove` | ia/trainer.py:168-195 | a move line adds its two examples for the side to move, flips the side and counts the round |
| `Training.ReadMoves` | ia/trainer.py:168-195 | after a game's move lines the parser holds the side to move, the round and the examples of those moves |
| `Training.DumpsRoundTrip` | ia/trainer.py:133-202 | parsing what `dumps` writes for a game gives its moves' examples labelled with the winner, the side not to move after the trailing pass |
| `Training.BlankLineClosesGame` | ia/trainer.py:144-163 | a blank line labels the game's examples for the side not to move, adds them to the collection and resets the per-game state |
| `Gibo.TableLayouts` | data/process_gibo.py:11-16 | the table names the four layouts, each once |
| `Gibo.Unquoted` | data/process_gibo.py:30 | no double quote is left and no character is added |
| `Gibo.Entries` | data/process_gibo.py:26-30 | one entry per header line |
| `Gibo.GetBlueRedStartingPos` | data/process_gibo.py:22-35 | the loop over the header gives the layouts read from its entries, or the `KeyError` of the first unknown value |
| `Gibo.SetLayout` | data/process_gibo.py:31-34 | the side named by the key gets the layout its value names |
| `Gibo.ErrorEndsHeader` | data/process_gibo.py:32-34 | a `KeyError` ends the reading of the header |
| `Gibo.StartsFail` | data/process_gibo.py:31-34 | reading fails exactly when a setup entry names a value the table lacks |
| `Gibo.StartsLayout` | data/process_gibo.py:22-35 | otherwise a side's layout is `None` exactly when no entry sets it, and is the table's tag for the last entry that does |
| `Gibo.DropTags` | data/process_gibo.py:40 | removing tags adds no character |
| `Gibo.CollapseSpaces` | data/process_gibo.py:41 | no two spaces in a row are left |
| `Gibo.KeepDigits` | data/process_gibo.py:42 | exactly the digits and spaces are kept |
| `Gibo.Normalized` | data/process_gibo.py:39-42 | the normalised text holds only digits and spaces, with no space at either end |
| `Gibo.Tokens` | data/process_gibo.py:43 | at least one token, each a run of digits |
| `Gibo.Row` | data/process_gibo.py:55-57 | the row of a gibo digit lies in 0..9 |
| `Gibo.Col` | data/process_gibo.py:56-58 | the column of a gibo digit lies in 0..8 |
| `Gibo.TokenAction` | data/process_gibo.py:55-58 | a four-digit token stands for a move on the board |
| `Gibo.GetMoves` | data/process_gibo.py:38-60 | `get_moves` returns the specified line list |
| `Gibo.ConvertPairs` | data/process_gibo.py:44-60 | the stride-2 loop gives one line per (number, move) pair, or [] at the first bad move token |
| `Gibo.PairsMeaning` | data/process_gibo.py:45-54 | the pairs are converted exactly when no move token is bad, and then into (tokens - i + 1) / 2 lines |
| `Gibo.MovesCount` | data/process_gibo.py:44-60 | the result is [] exactly when some move token is neither empty nor four long, and otherwise has one line per pair |
| `Gibo.ConvertedReads` | data/process_gibo.py:55-59 | the converted line reads back in the trainer as the token's action and is the line a game record writes for it |
| `Gibo.MovesReadBack` | data/process_gibo.py:44-60 | every output line reads in the trainer as a pass or a move on the board, and is the line `dumps` writes for it |
| `Gibo.EmptyBodyPasses` | data/process_gibo.py:45-48 | a body with no move text gives the single pass ["XXXX"] |
| `Text.SplitJoin` | janggi/game.py:42 | splitting a joined list gives the parts back when none holds the separator |
| `Text.SplitChars` | data/process_gibo.py:43 | the pieces of a split are made of characters of the string |
| `Text.StripTrimmed` | ia/trainer.py:143 | a string with no whitespace at either end is its own `strip()` |
| `Text.StripChars` | data/process_gibo.py:42 | `strip()` only removes characters |
| `Text.ReplaceAbsent` | janggi/game.py:24 | `replace` changes nothing when the pattern does not occur |
| `Text.NumeralRoundTrip` | janggi/game.py:32 | `int(str(n))` is `n` |
| `Text.ParseNumeral` | janggi/game.py:32 | `int` of the decimal text of a natural number gives it back |
| `Utils.Color.Other` | janggi/game.py:101 | the other side differs from the side and its value is the negated value, as `Color(-c.value)` |

## Left out

- `Board.from_fen`, `Board.to_fen` and the board's `start_blue`/`start_red`
  tags are not part of this model: janggi/board.py defines no such members.
  The board is built with the fixed layout of `_initialize_pieces`, and
  `Game` carries the two layout tags `dumps` writes. `Game.from_fen` is
  modelled only through its side and round arithmetic (`Games.FenTurn`).
- `Action.from_uci_usi`, `Action.to_uci_usi` and `get_policy` are not part
  of this model. `from_uci_usi` is modelled by its token split
  (`Games.UciUsiParts`) and by the loop that applies decoded moves
  (`Games.Game.ApplyMoves`).
- `Game.run_game`, `Game.to_json`, `Game.to_uci_usi`, `Game.get_features`
  and `Game.get_next_action`: timing, printing, JSON and UCI text, which rest
  on members not in the modelled files. The players' back-links to the game
  are not modelled; a player method receives the game as a parameter.
- `Board.__str__`, `__hash__` and `__eq__` (coloured text) are not modelled.
- `Actions.HashRoundTrip`: Python's `hash` of the coordinate tuple is
  replaced by a mixed-radix code of the same four coordinates. The range
  [0, 8100) and the decoding hold for that code, not for Python's tuple hash.
  The source uses the hash only to key dictionaries and sets, where all that
  matters is that equal moves hash alike; the code keeps that.
- `Actions.HashInjective`: injectivity is proved of the mixed-radix code.
  Python's tuple hash may collide, which dictionaries resolve through
  `__eq__`; either way keys are equal exactly when the coordinates are.
- The cache's no-general lists are `itertools.chain` iterators in the
  source, so a second hit sees an exhausted iterator. The model stores
  lists and returns the full list on every hit.
- `Boards.Board.GetFeatures` drops the leading batch dimension of size 1.
- `Boards.Board.ApplyAction` requires a move whose origin differs from its
  destination, because the source removes the piece in that case. No
  generator produces such a move.
- Scores, priors, Q and the heuristic value are exact `real`s, not floating
  point. `math.sqrt` is a parameter of the search (`Mcts.sqrt`).
- `MonteCarlo.PickMax`: `random.shuffle` before `max` is modelled as a free
  choice among the maximal entries. The contract states only that the move
  returned has maximal Q, not which maximiser the shuffle favours.
- `MonteCarlo.RunSimulation`: a `KeyError` in selection or backup (a move
  missing from Q, the priors or N) is an `Err` result. The player's re-walk
  of the last move can reach a node set up at another position, and then
  such an error is possible.
- `Players.MctsPlayer.PlayAction` takes the predictor as a function value
  and requires it to be the player's own heuristic (`IsHeuristic`).
  `NNPlayer.predict` and the network are not part of this model.
- The source builds `MCTS` with five arguments, but ia/mcts.py's constructor
  takes two. The model keeps `c_puct`, `n_simulations` and `sqrt` only.
- `_apply_latest_actions` stores `len(actions) - 1`, so the next call walks
  the last move again. This is kept as written and stated by
  `Players.ResumeRereadsLast`.
- Trainer: the feature tensors, policies and the board the parser builds
  (`Board(start_blue=...)`, `apply_action`) are not modelled. An example is
  its side, its round and its move. Training every `SUPERVISED_GAMES_FREQ`
  games hands the collection on and empties it; the training itself is not
  modelled.
- `_raw_to_examples` reads its input as a list of lines. Its local
  variables are gathered in one `Parser` value.
- `int()` is modelled on ASCII digits only. `strip`, `split` and the
  regular expression `\s` treat exactly six characters as whitespace: space,
  `\t`, `\n`, `\r`, `\v` and `\f`. Python also counts `\x1c`-`\x1f`, `\x85`
  and the Unicode spaces.
- `get_moves` is split into the normalising functions (`Tokens`) and the
  stride-2 loop (`ConvertPairs`). Column digit 0 gives (0 - 1) % 9 = 8, as
  digit 9 does; the model keeps that.
- The module-level script of data/process_gibo.py (lines 62-118) walks
  directories and writes files; it is not modelled.
- Concrete counts that the source's tests check on particular boards are not
  restated as lemmas: 31 legal moves at the start, the per-piece move counts
  and the starting scores 72 and 73.5. The general rules they instance are
  proved.
