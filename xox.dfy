/** The "Love XOX" stage: a 3x3 tic-tac-toe board, the player against a
    minimax opponent that plays a random empty cell 40% of the time. */
module Xox {

  /** A board cell: empty, the player's red heart or the opponent's broken heart. */
  datatype Cell = Empty | Player | Ai

  /** Indices of the nine cells, row-major. */
  type Idx = i: int | 0 <= i < 9

  type Board = b: seq<Cell> | |b| == 9
    witness [Empty, Empty, Empty, Empty, Empty, Empty, Empty, Empty, Empty]

  const EmptyBoard: Board := [Empty, Empty, Empty, Empty, Empty, Empty, Empty, Empty, Empty]

  /** The eight winning lines, in the order they are scanned: rows, columns, diagonals. */
  const Wins: seq<(Idx, Idx, Idx)> :=
    [(0, 1, 2), (3, 4, 5), (6, 7, 8),
     (0, 3, 6), (1, 4, 7), (2, 5, 8),
     (0, 4, 8), (2, 4, 6)]

  /** Line `l` holds three equal marks. */
  predicate LineWon(b: Board, l: (Idx, Idx, Idx)) {
    b[l.0] != Empty && b[l.0] == b[l.1] && b[l.0] == b[l.2]
  }

  /** The scan of `checkWinner` from line `k` on: the mark of the first won line, or Empty. */
  function WinnerFrom(b: Board, k: nat): Cell
    requires k <= |Wins|
    decreases |Wins| - k
  {
    if k == |Wins| then Empty
    else if LineWon(b, Wins[k]) then b[Wins[k].0]
    else WinnerFrom(b, k + 1)
  }

  /** `checkWinner`. */
  function CheckWinner(b: Board): Cell {
    WinnerFrom(b, 0)
  }

  /** The scan from line `k` finds a mark iff some line from `k` on is won, and
      then it is the mark of the first such line. */
  lemma {:induction false} WinnerFromSpec(b: Board, k: nat)
    requires k <= |Wins|
    ensures WinnerFrom(b, k) == Empty <==> forall j | k <= j < |Wins| :: !LineWon(b, Wins[j])
    ensures WinnerFrom(b, k) != Empty ==> exists j | k <= j < |Wins| ::
      LineWon(b, Wins[j]) && WinnerFrom(b, k) == b[Wins[j].0] && forall i | k <= i < j :: !LineWon(b, Wins[i])
    decreases |Wins| - k
  {
    if k < |Wins| && !LineWon(b, Wins[k]) {
      WinnerFromSpec(b, k + 1);
    }
  }

  /** `checkWinner` returns a mark iff one of the eight lines is won, and then the
      mark of the first won line in table order. */
  lemma CheckWinnerSpec(b: Board)
    ensures CheckWinner(b) == Empty <==> forall j | 0 <= j < |Wins| :: !LineWon(b, Wins[j])
    ensures CheckWinner(b) != Empty ==> exists j | 0 <= j < |Wins| ::
      LineWon(b, Wins[j]) && CheckWinner(b) == b[Wins[j].0] && forall i | 0 <= i < j :: !LineWon(b, Wins[i])
  {
    WinnerFromSpec(b, 0);
  }

  /** `board.every(Boolean)`: no empty cell is left. */
  predicate Full(b: seq<Cell>) {
    forall k | 0 <= k < |b| :: b[k] != Empty
  }

  /** The game stops: somebody won or the board is full. */
  predicate Terminal(b: Board) {
    CheckWinner(b) != Empty || Full(b)
  }

  /** The empty cells; it shrinks with every move, which bounds the search. */
  ghost function EmptySet(b: Board): set<Idx> {
    set k: Idx | b[k] == Empty
  }

  lemma PlaceShrinks(b: Board, k: Idx, m: Cell)
    requires b[k] == Empty && m != Empty
    ensures EmptySet(b[k := m]) < EmptySet(b)
  {
    assert k in EmptySet(b) && k !in EmptySet(b[k := m]);
  }

  /** Number of cells of `b` holding `c`. */
  function Count(b: seq<Cell>, c: Cell): nat {
    if b == [] then 0 else Count(b[..|b| - 1], c) + (if b[|b| - 1] == c then 1 else 0)
  }

  lemma {:induction false} CountNone(b: seq<Cell>, c: Cell)
    ensures Count(b, c) == 0 <==> forall k | 0 <= k < |b| :: b[k] != c
  {
    if b != [] {
      CountNone(b[..|b| - 1], c);
    }
  }

  /** Writing mark `m` on an empty cell moves one unit of count from Empty to `m`. */
  lemma {:induction false} CountPlace(b: seq<Cell>, i: nat, m: Cell, c: Cell)
    requires i < |b| && b[i] == Empty && m != Empty
    ensures Count(b[i := m], c) ==
      Count(b, c) + (if c == m then 1 else 0) - (if c == Empty then 1 else 0)
  {
    var n := |b| - 1;
    if i == n {
      assert b[i := m][..n] == b[..n];
    } else {
      assert b[i := m][..n] == b[..n][i := m];
      CountPlace(b[..n], i, m, c);
    }
  }

  /** A move on a board without a winner can only make its own mark win. */
  lemma WinnerIsMover(b: Board, i: Idx, m: Cell)
    requires CheckWinner(b) == Empty && b[i] == Empty && m != Empty
    ensures CheckWinner(b[i := m]) == Empty || CheckWinner(b[i := m]) == m
  {
    var b' := b[i := m];
    CheckWinnerSpec(b);
    CheckWinnerSpec(b');
    if CheckWinner(b') != Empty {
      var j :| 0 <= j < |Wins| && LineWon(b', Wins[j]) && CheckWinner(b') == b'[Wins[j].0];
      assert !LineWon(b, Wins[j]);
    }
  }

  // ---------------------------------------------------------------------------
  // Minimax

  /** Largest element (`Math.max(...s)`). */
  function Max(s: seq<int>): (r: int)
    requires |s| > 0
    ensures r in s && forall x | x in s :: x <= r
  {
    if |s| == 1 then s[0]
    else
      assert s == [s[0]] + s[1..];
      var m := Max(s[1..]);
      if s[0] >= m then s[0] else m
  }

  /** Smallest element (`Math.min(...s)`). */
  function Min(s: seq<int>): (r: int)
    requires |s| > 0
    ensures r in s && forall x | x in s :: r <= x
  {
    if |s| == 1 then s[0]
    else
      assert s == [s[0]] + s[1..];
      var m := Min(s[1..]);
      if s[0] <= m then s[0] else m
  }

  /** The mark the side to move places: the opponent when maximising. */
  function Mover(isMax: bool): Cell {
    if isMax then Ai else Player
  }

  /** The value `minimax(b, isMax)` computes: +10 for an opponent win, -10 for a
      player win (checked first), 0 for a full board, otherwise the maximum (for
      `isMax`) or minimum of the children's scores. */
  function Score(b: Board, isMax: bool): (r: int)
    ensures -10 <= r <= 10
    decreases EmptySet(b), 1, 0
  {
    var w := CheckWinner(b);
    if w == Ai then 10
    else if w == Player then -10
    else if Full(b) then 0
    else
      var s := Children(b, isMax, 9);
      assert |EmptyCells(b)| > 0;
      if isMax then Max(s) else Min(s)
  }

  /** The scores pushed by the `reduce` over cells 0..n-1: one per empty cell, in
      index order, each the score of the board with that cell filled by the mover. */
  function Children(b: Board, isMax: bool, n: nat): (s: seq<int>)
    requires n <= 9
    ensures |s| == |EmptyCellsUpTo(b, n)|
    ensures forall x | x in s :: -10 <= x <= 10
    decreases EmptySet(b), 0, n
  {
    if n == 0 then []
    else if b[n - 1] == Empty then Children(b, isMax, n - 1) + [ChildScore(b, isMax, n - 1)]
    else Children(b, isMax, n - 1)
  }

  /** The score of the child in which the side to move has filled empty cell k. */
  function ChildScore(b: Board, isMax: bool, k: Idx): (r: int)
    requires b[k] == Empty
    ensures -10 <= r <= 10
    decreases EmptySet(b), 0, 0
  {
    PlaceShrinks(b, k, Mover(isMax));
    Score(b[k := Mover(isMax)], !isMax)
  }

  /** Every child score is in the list, and every listed score is a child's. */
  lemma {:induction false} ChildrenAre(b: Board, isMax: bool, n: nat)
    requires n <= 9
    ensures forall k: Idx | k < n && b[k] == Empty :: ChildScore(b, isMax, k) in Children(b, isMax, n)
    ensures forall x | x in Children(b, isMax, n) ::
      exists k: Idx | k < n && b[k] == Empty :: x == ChildScore(b, isMax, k)
  {
    if n > 0 {
      ChildrenAre(b, isMax, n - 1);
      var prev := Children(b, isMax, n - 1);
      if b[n - 1] == Empty {
        var last := ChildScore(b, isMax, n - 1);
        assert Children(b, isMax, n) == prev + [last];
        forall x | x in Children(b, isMax, n)
          ensures exists k: Idx | k < n && b[k] == Empty :: x == ChildScore(b, isMax, k)
        {
          if x !in prev {
            assert x == last;
          }
        }
      } else {
        assert Children(b, isMax, n) == prev;
      }
    }
  }

  /** At a non-terminal node the score is the best child score for the side to move. */
  lemma ScoreAtInnerNode(b: Board, isMax: bool)
    requires !Terminal(b)
    ensures forall k: Idx | b[k] == Empty ::
      if isMax then ChildScore(b, isMax, k) <= Score(b, isMax) else Score(b, isMax) <= ChildScore(b, isMax, k)
    ensures exists k: Idx | b[k] == Empty :: Score(b, isMax) == ChildScore(b, isMax, k)
  {
    ChildrenAre(b, isMax, 9);
  }

  /** The win check comes first: a won board scores for its winner even when it
      is full, and only a full board without a winner is a draw. */
  lemma ScoreAtLeaf(b: Board, isMax: bool)
    ensures CheckWinner(b) == Ai ==> Score(b, isMax) == 10
    ensures CheckWinner(b) == Player ==> Score(b, isMax) == -10
    ensures CheckWinner(b) == Empty && Full(b) ==> Score(b, isMax) == 0
  {
  }

  /** Every position scores a win (10), a loss (-10) or a draw (0): the maximum
      and minimum only ever pick one of the leaf values. */
  lemma {:induction false} ScoreValues(b: Board, isMax: bool)
    ensures Score(b, isMax) in {-10, 0, 10}
    decreases EmptySet(b)
  {
    if !Terminal(b) {
      ScoreAtInnerNode(b, isMax);
      var k: Idx :| b[k] == Empty && Score(b, isMax) == ChildScore(b, isMax, k);
      PlaceShrinks(b, k, Mover(isMax));
      ScoreValues(b[k := Mover(isMax)], !isMax);
    }
  }

  /** `minimax`: scores the board by exhaustive search, writing each hypothetical
      mark into `board` and undoing it, so the board is left as it was. */
  method Minimax(board: array<Cell>, isMax: bool) returns (score: int)
    requires board.Length == 9
    modifies board
    ensures board[..] == old(board[..])
    ensures score == Score(old(board[..]), isMax)
    decreases EmptySet(board[..]), 1
  {
    ghost var b: Board := board[..];
    var w := CheckWinner(board[..]);
    if w == Ai { return 10; }
    if w == Player { return -10; }
    if Full(board[..]) { return 0; }
    var scores: seq<int> := [];
    var i := 0;
    while i < 9
      invariant 0 <= i <= 9
      invariant board[..] == b
      invariant scores == Children(b, isMax, i)
    {
      if board[i] == Empty {
        var s := TryCell(board, i, isMax);
        scores := scores + [s];
      }
      i := i + 1;
    }
    assert |EmptyCells(b)| > 0;
    score := if isMax then Max(scores) else Min(scores);
  }

  /** One hypothetical move of the search: mark empty cell `i` for the side to
      move, score the result with the other side to move, and clear the cell. */
  method TryCell(board: array<Cell>, i: Idx, isMax: bool) returns (score: int)
    requires board.Length == 9 && board[i] == Empty
    modifies board
    ensures board[..] == old(board[..])
    ensures score == ChildScore(old(board[..]), isMax, i)
    decreases EmptySet(board[..]), 0
  {
    ghost var b: Board := board[..];
    board[i] := Mover(isMax);
    assert board[..] == b[i := Mover(isMax)];
    PlaceShrinks(b, i, Mover(isMax));
    score := Minimax(board, !isMax);
    board[i] := Empty;
    assert board[..] == b;
  }

  // ---------------------------------------------------------------------------
  // The opponent's move

  /** The empty cells among 0..n-1 in increasing order (the map/filter of `aiMove`). */
  function EmptyCellsUpTo(b: Board, n: nat): (e: seq<Idx>)
    requires n <= 9
    ensures forall j | 0 <= j < |e| :: e[j] < n && b[e[j]] == Empty
  {
    if n == 0 then []
    else if b[n - 1] == Empty then EmptyCellsUpTo(b, n - 1) + [n - 1]
    else EmptyCellsUpTo(b, n - 1)
  }

  /** The list holds every empty cell below `n`, in increasing order. */
  lemma {:induction false} EmptyCellsUpToSpec(b: Board, n: nat)
    requires n <= 9
    ensures forall j, j' | 0 <= j < j' < |EmptyCellsUpTo(b, n)| :: EmptyCellsUpTo(b, n)[j] < EmptyCellsUpTo(b, n)[j']
    ensures forall k | 0 <= k < n && b[k] == Empty :: k in EmptyCellsUpTo(b, n)
  {
    if n > 0 {
      EmptyCellsUpToSpec(b, n - 1);
    }
  }

  /** `board.map((c, i) => (!c ? i : -1)).filter((i) => i >= 0)`. */
  function EmptyCells(b: Board): (e: seq<Idx>)
    ensures forall j | 0 <= j < |e| :: b[e[j]] == Empty
    ensures !Full(b) ==> |e| > 0
  {
    EmptyCellsUpToSpec(b, 9);
    EmptyCellsUpTo(b, 9)
  }

  /** The empty cells in increasing order, each exactly once. */
  lemma EmptyCellsSpec(b: Board)
    ensures forall j, j' | 0 <= j < j' < |EmptyCells(b)| :: EmptyCells(b)[j] < EmptyCells(b)[j']
    ensures forall k: Idx | b[k] == Empty :: k in EmptyCells(b)
  {
    EmptyCellsUpToSpec(b, 9);
  }

  /** `Math.floor(draw * n)` for a draw in [0, 1): an index below n. */
  function Pick(draw: real, n: nat): (k: nat)
    requires 0.0 <= draw < 1.0 && n > 0
    ensures k < n
  {
    assert 0.0 <= draw * n as real < n as real by {
      assert draw * n as real <= 1.0 * n as real;
    }
    (draw * n as real).Floor
  }

  /** `idx` is the first empty cell, in index order, whose search score is the largest. */
  ghost predicate IsFirstBest(b: Board, idx: Idx) {
    b[idx] == Empty &&
    (forall k: Idx | b[k] == Empty :: ChildScore(b, true, k) <= ChildScore(b, true, idx)) &&
    (forall k: Idx | k < idx && b[k] == Empty :: ChildScore(b, true, k) < ChildScore(b, true, idx))
  }

  /** The search score of the `m`-th empty cell: the opponent has marked it. */
  function CandidateScore(b: Board, m: nat): int
    requires m < |EmptyCells(b)|
  {
    ChildScore(b, true, EmptyCells(b)[m])
  }

  /** The position among the first `j` empty cells that the search loop of `aiMove`
      holds after `j` rounds: a cell replaces the best so far only when its score
      is strictly greater. */
  function SearchPos(b: Board, j: nat): (p: nat)
    requires 0 < j <= |EmptyCells(b)|
    ensures p < j
  {
    if j == 1 then 0
    else
      var p := SearchPos(b, j - 1);
      if CandidateScore(b, j - 1) > CandidateScore(b, p) then j - 1 else p
  }

  /** After `j` rounds the held cell has the largest score so far, and every
      earlier cell scores strictly less. */
  lemma {:induction false} SearchPosIsFirstMax(b: Board, j: nat)
    requires 0 < j <= |EmptyCells(b)|
    ensures forall m | 0 <= m < j :: CandidateScore(b, m) <= CandidateScore(b, SearchPos(b, j))
    ensures forall m | 0 <= m < SearchPos(b, j) :: CandidateScore(b, m) < CandidateScore(b, SearchPos(b, j))
  {
    if j > 1 {
      SearchPosIsFirstMax(b, j - 1);
      var p := SearchPos(b, j - 1);
      if CandidateScore(b, j - 1) > CandidateScore(b, p) {
        assert SearchPos(b, j) == j - 1;
      } else {
        assert SearchPos(b, j) == p;
      }
    }
  }

  /** The cell the search loop of `aiMove` returns once every empty cell was tried. */
  function SearchMove(b: Board): (idx: Idx)
    requires !Full(b)
    ensures b[idx] == Empty
  {
    EmptyCells(b)[SearchPos(b, |EmptyCells(b)|)]
  }

  /** The search branch of `aiMove` returns the first best-scoring empty cell. */
  lemma SearchMoveIsFirstBest(b: Board)
    requires !Full(b)
    ensures IsFirstBest(b, SearchMove(b))
  {
    var e := EmptyCells(b);
    var p := SearchPos(b, |e|);
    SearchPosIsFirstMax(b, |e|);
    EmptyCellsSpec(b);
    forall k: Idx | b[k] == Empty
      ensures ChildScore(b, true, k) <= ChildScore(b, true, e[p])
      ensures k < e[p] ==> ChildScore(b, true, k) < ChildScore(b, true, e[p])
    {
      var m :| 0 <= m < |e| && e[m] == k;
      assert CandidateScore(b, m) == ChildScore(b, true, k);
      assert k < e[p] ==> m < p;
    }
  }

  /** The cell the random branch of `aiMove` picks with the draw `draw`. */
  function RandomMove(b: Board, draw: real): (idx: Idx)
    requires !Full(b) && 0.0 <= draw < 1.0
    ensures b[idx] == Empty
  {
    var e := EmptyCells(b);
    e[Pick(draw, |e|)]
  }

  /** The choice `aiMove` makes for the two random draws `coin` and `draw`. */
  function AiPick(b: Board, coin: real, draw: real): (idx: Idx)
    requires !Full(b) && 0.0 <= draw < 1.0
    ensures b[idx] == Empty
  {
    if coin < 0.4 then RandomMove(b, draw) else SearchMove(b)
  }

  /** `aiMove`: an empty cell, random when `coin < 0.4`, otherwise the first
      best-scoring one; the board is restored after the search. */
  method AiMove(board: array<Cell>, coin: real, draw: real) returns (idx: Idx)
    requires board.Length == 9 && !Full(board[..])
    requires 0.0 <= coin < 1.0 && 0.0 <= draw < 1.0
    modifies board
    ensures board[..] == old(board[..])
    ensures old(board[idx]) == Empty
    ensures idx == AiPick(old(board[..]), coin, draw)
  {
    ghost var b: Board := board[..];
    var empty := EmptyCells(board[..]);
    if coin < 0.4 {
      idx := empty[Pick(draw, |empty|)];
      return;
    }
    var best := -11;  // below every score, so it plays the part of -Infinity
    var bestIdx := empty[0];
    var j := 0;
    while j < |empty|
      invariant 0 <= j <= |empty|
      invariant board[..] == b
      invariant j == 0 ==> bestIdx == empty[0] && best == -11
      invariant j > 0 ==> bestIdx == empty[SearchPos(b, j)] && best == CandidateScore(b, SearchPos(b, j))
    {
      var i := empty[j];
      var score := TryCell(board, i, true);
      if score > best {
        best, bestIdx := score, i;
      }
      j := j + 1;
    }
    idx := bestIdx;
  }

  // ---------------------------------------------------------------------------
  // The game component

  /** The callback a turn leaves scheduled: none, `completeXOX` after a player
      win, or `reset` after an opponent win or a draw. */
  datatype Timer = NoTimer | CompleteStage | Restart

  const WinMessage: string := "You won! \U{1F389}"
  const DrawMessage: string := "It's a draw! Restarting\U{2026} \U{1F504}"
  const LoseMessage: string := "Hmm\U{2026} try again \U{1F60F}"

  /** The board after an accepted click on `i`: the player's mark on `i`, then,
      unless that ended the game, the opponent's mark where `aiMove` puts it. */
  function Turn(b: Board, i: Idx, coin: real, draw: real): (t: Board)
    requires b[i] == Empty && 0.0 <= draw < 1.0
    ensures t[i] == Player
  {
    var p := b[i := Player];
    if Terminal(p) then p else p[AiPick(p, coin, draw) := Ai]
  }

  /** A turn changes cell `i` and at most one other cell, which was empty and
      becomes the opponent's. */
  lemma TurnChanges(b: Board, i: Idx, coin: real, draw: real)
    requires b[i] == Empty && 0.0 <= draw < 1.0
    ensures forall k: Idx :: k != i && Turn(b, i, coin, draw)[k] != b[k] ==>
      b[k] == Empty && Turn(b, i, coin, draw)[k] == Ai
    ensures forall k: Idx, k': Idx ::
      k != i && k' != i && Turn(b, i, coin, draw)[k] != b[k] && Turn(b, i, coin, draw)[k'] != b[k'] ==> k == k'
  {
  }

  /** From a board where both have moved equally often, a turn adds one mark
      of the player's and at most one of the opponent's, so the player is
      again level or one mark ahead. */
  lemma TurnCounts(b: Board, i: Idx, coin: real, draw: real)
    requires b[i] == Empty && 0.0 <= draw < 1.0 && Count(b, Player) == Count(b, Ai)
    ensures var t := Turn(b, i, coin, draw);
      Count(t, Player) == Count(b, Player) + 1 &&
      (Count(t, Ai) == Count(b, Ai) || Count(t, Ai) == Count(b, Ai) + 1) &&
      (Count(t, Ai) == Count(b, Ai) <==> Terminal(b[i := Player]))
  {
    var p := b[i := Player];
    CountPlace(b, i, Player, Player);
    CountPlace(b, i, Player, Ai);
    if !Terminal(p) {
      var k := AiPick(p, coin, draw);
      CountPlace(p, k, Ai, Player);
      CountPlace(p, k, Ai, Ai);
    }
  }

  /** The board, message and game-over flag of the component. */
  class XoxGame {
    var board: Board
    var message: string
    var gameOver: bool

    /** The player moves first in every turn pair; the game is over exactly on a
        terminal board; a running game shows no message and is the player's turn. */
    ghost predicate Valid()
      reads this
    {
      (Count(board, Player) == Count(board, Ai) || Count(board, Player) == Count(board, Ai) + 1) &&
      gameOver == Terminal(board) &&
      (!gameOver ==> Count(board, Player) == Count(board, Ai) && message == "")
    }

    constructor ()
      ensures Valid()
      ensures board == EmptyBoard && message == "" && !gameOver
    {
      board, message, gameOver := EmptyBoard, "", false;
      new;
      EmptyBoardFacts();
    }

    /** `reset`: the new state does not depend on the old one, so resetting twice
        is resetting once. */
    method Reset()
      modifies this
      ensures Valid()
      ensures board == EmptyBoard && message == "" && !gameOver
    {
      board, message, gameOver := EmptyBoard, "", false;
      EmptyBoardFacts();
    }

    /** Whether `handleClick(i)` gets past its guard. */
    static predicate Accepts(b: Board, gameOver: bool, i: Idx, xoxCompleted: bool) {
      b[i] == Empty && !gameOver && !xoxCompleted
    }

    /** `handleClick(i)`: one turn. `coin` and `draw` are the two values of
        `Math.random` the opponent may use. */
    method HandleClick(i: Idx, xoxCompleted: bool, coin: real, draw: real) returns (scheduled: Timer)
      requires Valid()
      requires 0.0 <= coin < 1.0 && 0.0 <= draw < 1.0
      modifies this
      ensures Valid()
      ensures !Accepts(old(board), old(gameOver), i, xoxCompleted) ==>
        board == old(board) && message == old(message) && gameOver == old(gameOver) && scheduled == NoTimer
      ensures Accepts(old(board), old(gameOver), i, xoxCompleted) ==> board == Turn(old(board), i, coin, draw)
      ensures scheduled == CompleteStage <==>
        Accepts(old(board), old(gameOver), i, xoxCompleted) && CheckWinner(board) == Player
      ensures scheduled == Restart <==>
        Accepts(old(board), old(gameOver), i, xoxCompleted) && gameOver && CheckWinner(board) != Player
      ensures scheduled == CompleteStage ==> message == WinMessage
      ensures scheduled == Restart ==> message == (if CheckWinner(board) == Ai then LoseMessage else DrawMessage)
    {
      if board[i] != Empty || gameOver || xoxCompleted {
        return NoTimer;
      }
      ghost var b0 := board;
      var newBoard := board[i := Player];
      CountPlace(board, i, Player, Player);
      CountPlace(board, i, Player, Ai);
      if CheckWinner(newBoard) != Empty {
        WinnerIsMover(b0, i, Player);
        board, message, gameOver := newBoard, WinMessage, true;
        return CompleteStage;
      }
      if Full(newBoard) {
        board, message, gameOver := newBoard, DrawMessage, true;
        return Restart;
      }
      var arr := new Cell[9](k requires 0 <= k < 9 => newBoard[k]);
      assert arr[..] == newBoard;
      var ai := AiMove(arr, coin, draw);
      arr[ai] := Ai;
      ghost var afterPlayer := newBoard;
      newBoard := arr[..];
      assert newBoard == afterPlayer[ai := Ai];
      CountPlace(afterPlayer, ai, Ai, Player);
      CountPlace(afterPlayer, ai, Ai, Ai);
      WinnerIsMover(afterPlayer, ai, Ai);
      if CheckWinner(newBoard) != Empty {
        board, message, gameOver := newBoard, LoseMessage, true;
        return Restart;
      }
      if Full(newBoard) {
        board, message, gameOver := newBoard, DrawMessage, true;
        return Restart;
      }
      board := newBoard;
      return NoTimer;
    }
  }

  /** The empty board: no marks and no winner, so the game is running. */
  lemma EmptyBoardFacts()
    ensures Count(EmptyBoard, Player) == 0 && Count(EmptyBoard, Ai) == 0
    ensures !Terminal(EmptyBoard)
  {
    CheckWinnerSpec(EmptyBoard);
    CountNone(EmptyBoard, Player);
    CountNone(EmptyBoard, Ai);
    assert EmptyBoard[0] == Empty;
  }
}
