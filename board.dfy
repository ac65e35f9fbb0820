/** The Game-of-Life board of the search (board.py): the B3/S23 cell rule on
    a bounded grid without wrap-around, a board that grows by a fixed margin
    when live cells reach its edge, and cycle detection over the last three
    distinct grid fingerprints.

    `BoardState` is the value of a board's fields; `InitialState`,
    `UpdateState` and `Evolved` say what construction, one step and a whole
    evolution do to it, and the lemmas below prove what they guarantee. The
    class `Board` has the fields of the Python class and methods proved to
    change them as these functions say. */
module CellularAutomaton {
  import opened Grids

  const BOARD_RESIZE_STEP: nat := 2
  const MAX_BOARD_WIDTH: int := 100
  const MAX_BOARD_HEIGHT: int := 100

  // ---------------------------------------------------------------------
  // The cell rule

  /** Reference definition of the neighbourhood: the 3x3 window around
      (x, y) with off-grid cells read as 0, less the cell itself. */
  function NeighborhoodSum(m: Grid, x: int, y: int): int {
    BoxSum(m, x - 1, x + 2, y - 1, y + 2) - Cell(m, x, y)
  }

  /** The eight neighbours, each guarded by its own bounds test, as the
      source counts them. */
  function NeighborsCount(m: Grid, x: int, y: int): int
    requires IsGrid(m) && 0 <= x < |m| && 0 <= y < |m[0]|
  {
    var width := |m[0]|;
    var height := |m|;
    var above :=
      if x > 0 then
        m[x - 1][y] + (if y > 0 then m[x - 1][y - 1] else 0) + (if y < width - 1 then m[x - 1][y + 1] else 0)
      else 0;
    var below :=
      if x < height - 1 then
        m[x + 1][y] + (if y > 0 then m[x + 1][y - 1] else 0) + (if y < width - 1 then m[x + 1][y + 1] else 0)
      else 0;
    var beside := (if y > 0 then m[x][y - 1] else 0) + (if y < width - 1 then m[x][y + 1] else 0);
    above + below + beside
  }

  /** The guarded count is exactly the window sum: every in-bounds neighbour
      once, nothing off the grid, no wrap-around. */
  lemma NeighborsCountIsWindow(m: Grid, x: int, y: int)
    requires IsGrid(m) && 0 <= x < |m| && 0 <= y < |m[0]|
    ensures NeighborsCount(m, x, y) == NeighborhoodSum(m, x, y)
  {
    NeighborhoodUnfold(m, x, y);
  }

  /** B3/S23: a cell is live next iff it has 3 live neighbours, or it is
      live (exactly 1) and has 2. */
  function ApplyRules(m: Grid, x: int, y: int): int
    requires IsGrid(m) && 0 <= x < |m| && 0 <= y < |m[0]|
  {
    var isAlive := m[x][y] == 1;
    var count := NeighborsCount(m, x, y);
    if count == 3 then 1
    else if isAlive && count == 2 then 1
    else 0
  }

  /** The rule yields 0 or 1, and 1 exactly when the window holds 3 live
      neighbours, or 2 around a live cell. */
  lemma ApplyRulesB3S23(m: Grid, x: int, y: int)
    requires IsGrid(m) && 0 <= x < |m| && 0 <= y < |m[0]|
    ensures ApplyRules(m, x, y) == 0 || ApplyRules(m, x, y) == 1
    ensures ApplyRules(m, x, y) == 1 <==>
      NeighborhoodSum(m, x, y) == 3 || (m[x][y] == 1 && NeighborhoodSum(m, x, y) == 2)
  {
    NeighborsCountIsWindow(m, x, y);
  }

  lemma RowWindow(m: Grid, i: int, y: int)
    ensures RowRangeSum(m, i, y - 1, y + 2) == Cell(m, i, y - 1) + Cell(m, i, y) + Cell(m, i, y + 1)
  {
    assert RowRangeSum(m, i, y + 2, y + 2) == 0;
    assert RowRangeSum(m, i, y + 1, y + 2) == Cell(m, i, y + 1);
    assert RowRangeSum(m, i, y, y + 2) == Cell(m, i, y) + Cell(m, i, y + 1);
  }

  lemma NeighborhoodUnfold(m: Grid, x: int, y: int)
    ensures NeighborhoodSum(m, x, y) ==
      Cell(m, x - 1, y - 1) + Cell(m, x - 1, y) + Cell(m, x - 1, y + 1) +
      Cell(m, x, y - 1) + Cell(m, x, y + 1) +
      Cell(m, x + 1, y - 1) + Cell(m, x + 1, y) + Cell(m, x + 1, y + 1)
  {
    RowWindow(m, x - 1, y);
    RowWindow(m, x, y);
    RowWindow(m, x + 1, y);
    assert BoxSum(m, x + 2, x + 2, y - 1, y + 2) == 0;
    assert BoxSum(m, x + 1, x + 2, y - 1, y + 2) == RowRangeSum(m, x + 1, y - 1, y + 2);
    assert BoxSum(m, x, x + 2, y - 1, y + 2) == RowRangeSum(m, x, y - 1, y + 2) + RowRangeSum(m, x + 1, y - 1, y + 2);
  }

  /** On a 0/1 grid a cell has between 0 and 8 live neighbours. */
  lemma NeighborsCountBounds(m: Grid, x: int, y: int)
    requires IsGrid(m) && IsBinaryGrid(m) && 0 <= x < |m| && 0 <= y < |m[0]|
    ensures 0 <= NeighborsCount(m, x, y) <= 8
  {
    NeighborsCountIsWindow(m, x, y);
    NeighborhoodUnfold(m, x, y);
    forall i, j ensures 0 <= Cell(m, i, j) <= 1 {
    }
  }

  // ---------------------------------------------------------------------
  // One generation of the whole grid

  /** The grid after one step: every cell from the rule on the old grid. */
  function NextGrid(m: Grid): Grid
    requires IsGrid(m)
  {
    seq(|m|, i requires 0 <= i < |m| =>
      seq(|m[0]|, j requires 0 <= j < |m[0]| => ApplyRules(m, i, j)))
  }

  /** The next grid has the same shape, is 0/1, and each cell follows B3/S23
      on the old neighbourhood. */
  lemma NextGridRule(m: Grid)
    requires IsGrid(m)
    ensures IsGrid(NextGrid(m)) && IsBinaryGrid(NextGrid(m))
    ensures |NextGrid(m)| == |m| && |NextGrid(m)[0]| == |m[0]|
    ensures forall i, j :: 0 <= i < |m| && 0 <= j < |m[0]| ==>
      (NextGrid(m)[i][j] == 1 <==>
        NeighborhoodSum(m, i, j) == 3 || (m[i][j] == 1 && NeighborhoodSum(m, i, j) == 2))
  {
    forall i, j | 0 <= i < |m| && 0 <= j < |m[0]|
      ensures NextGrid(m)[i][j] == ApplyRules(m, i, j)
      ensures NextGrid(m)[i][j] == 1 <==>
        NeighborhoodSum(m, i, j) == 3 || (m[i][j] == 1 && NeighborhoodSum(m, i, j) == 2)
    {
      ApplyRulesB3S23(m, i, j);
    }
  }

  predicate OnBorder(height: int, width: int, i: int, j: int) {
    i == 0 || i == height - 1 || j == 0 || j == width - 1
  }

  /** Some non-zero cell lies in the first or last row or column. */
  predicate TouchesBorder(g: Grid)
    requires IsGrid(g)
  {
    exists i, j :: 0 <= i < |g| && 0 <= j < |g[0]| && g[i][j] != 0 && OnBorder(|g|, |g[0]|, i, j)
  }

  /** resize_board on a grid: a frame of BOARD_RESIZE_STEP zeros on every
      side, unless either dimension has reached its maximum. */
  function Resize(m: Grid): Grid
    requires IsGrid(m)
  {
    if |m[0]| >= MAX_BOARD_WIDTH || |m| >= MAX_BOARD_HEIGHT then m else Pad(m, BOARD_RESIZE_STEP)
  }

  /** Resizing does nothing once a dimension is at its maximum; otherwise both
      dimensions grow by exactly 4, every old cell moves by (2, 2) and the new
      frame is zero. Neither dimension ever shrinks. */
  lemma ResizeShape(m: Grid)
    requires IsGrid(m)
    ensures IsGrid(Resize(m))
    ensures |m[0]| >= MAX_BOARD_WIDTH || |m| >= MAX_BOARD_HEIGHT ==> Resize(m) == m
    ensures |m[0]| < MAX_BOARD_WIDTH && |m| < MAX_BOARD_HEIGHT ==>
      |Resize(m)| == |m| + 4 && |Resize(m)[0]| == |m[0]| + 4 &&
      (forall i, j :: 0 <= i < |m| && 0 <= j < |m[0]| ==> Resize(m)[i + 2][j + 2] == m[i][j]) &&
      (forall i, j :: 0 <= i < |m| + 4 && 0 <= j < |m[0]| + 4 && !(2 <= i < |m| + 2 && 2 <= j < |m[0]| + 2)
        ==> Resize(m)[i][j] == 0)
    ensures GridSum(Resize(m)) == GridSum(m)
  {
    if |m[0]| < MAX_BOARD_WIDTH && |m| < MAX_BOARD_HEIGHT {
      PadShape(m, BOARD_RESIZE_STEP);
      PadSum(m, BOARD_RESIZE_STEP);
    }
  }

  // ---------------------------------------------------------------------
  // The board's fields as a value, and what each operation does to them

  datatype BoardState = BoardState(
    initConfig: Grid,
    initConfigSize: int,
    maxConfigSize: int,
    currentConfigSize: int,
    lifespan: nat,
    matrix: Grid,
    boardHistory: seq<seq<int>>,
    isCycle: bool)

  /** At most three fingerprints, no two equal. */
  predicate HistoryOk(h: seq<seq<int>>) {
    |h| <= 3 && forall i, j :: 0 <= i < j < |h| ==> h[i] != h[j]
  }

  /** What holds of every board built by the constructor and stepped by
      `UpdateState`: a proper grid, a well-formed history, and a maximum no
      smaller than the initial and the current live counts. */
  predicate Consistent(s: BoardState) {
    IsGrid(s.matrix) && HistoryOk(s.boardHistory) &&
    s.maxConfigSize >= s.initConfigSize && s.maxConfigSize >= s.currentConfigSize
  }

  /** The steps that `evolve` still takes. */
  predicate CanStep(s: BoardState, maxSteps: int) {
    s.currentConfigSize > 0 && s.lifespan < maxSteps && !s.isCycle
  }

  /** Board(chromosome, numColumns). */
  function InitialState(chromosome: seq<int>, numColumns: int): BoardState
    requires numColumns > 0 && |chromosome| > 0 && |chromosome| % numColumns == 0
  {
    ReshapeShape(chromosome, numColumns);
    var init := Reshape(chromosome, numColumns);
    var size := GridSum(init);
    BoardState(init, size, size, size, 0, Resize(init), [], false)
  }

  /** The fingerprint of a grid: its raw contents in row-major order. */
  function Fingerprint(g: Grid): seq<int> {
    Flatten(g)
  }

  function KeepLastThree(h: seq<seq<int>>): seq<seq<int>> {
    if |h| > 3 then h[|h| - 3..] else h
  }

  /** The history after seeing `fingerprint`: unchanged if it is already
      there, otherwise with it appended and cut to the last three. */
  function Recorded(h: seq<seq<int>>, fingerprint: seq<int>): seq<seq<int>> {
    if fingerprint in h then h else KeepLastThree(h + [fingerprint])
  }

  /** The grid installed by a step: resized when a live cell touches the border. */
  function Installed(next: Grid): Grid
    requires IsGrid(next)
  {
    if TouchesBorder(next) then Resize(next) else next
  }

  /** update_board. The live count it stores is that of the grid BEFORE the
      step, since it is summed before the new grid is installed. */
  function UpdateState(s: BoardState): BoardState
    requires IsGrid(s.matrix)
  {
    var next := NextGrid(s.matrix);
    var current := GridSum(s.matrix);
    var fingerprint := Fingerprint(next);
    var cycle := fingerprint in s.boardHistory;
    s.(lifespan := s.lifespan + 1,
       currentConfigSize := current,
       maxConfigSize := if current > s.maxConfigSize then current else s.maxConfigSize,
       matrix := Installed(next),
       boardHistory := Recorded(s.boardHistory, fingerprint),
       isCycle := cycle)
  }

  lemma UpdateStateFields(s: BoardState)
    requires IsGrid(s.matrix)
    ensures var next, current := NextGrid(s.matrix), GridSum(s.matrix);
      UpdateState(s) == BoardState(s.initConfig, s.initConfigSize,
        if current > s.maxConfigSize then current else s.maxConfigSize, current,
        s.lifespan + 1, Installed(next), Recorded(s.boardHistory, Fingerprint(next)),
        Fingerprint(next) in s.boardHistory)
  {
  }

  /** evolve(maxSteps): step while there are live cells, steps left and no
      cycle. */
  function Evolved(s: BoardState, maxSteps: int): (r: BoardState)
    requires IsGrid(s.matrix)
    ensures IsGrid(r.matrix)
    ensures !CanStep(r, maxSteps)
    ensures s.lifespan <= r.lifespan
    ensures r.lifespan <= if s.lifespan < maxSteps then maxSteps else s.lifespan
    ensures r.initConfig == s.initConfig && r.initConfigSize == s.initConfigSize
    decreases maxSteps - s.lifespan
  {
    if CanStep(s, maxSteps) then Evolved(UpdateState(s), maxSteps) else s
  }

  /** The constructor's state: nothing evolved yet and all three live
      counts equal to the sum of the chromosome. */
  lemma InitialStateCounters(chromosome: seq<int>, numColumns: int)
    requires numColumns > 0 && |chromosome| > 0 && |chromosome| % numColumns == 0
    ensures var s := InitialState(chromosome, numColumns);
      s.lifespan == 0 && s.boardHistory == [] && !s.isCycle &&
      s.initConfigSize == Sum(chromosome) && s.maxConfigSize == Sum(chromosome) &&
      s.currentConfigSize == Sum(chromosome) &&
      s.initConfig == Reshape(chromosome, numColumns) &&
      Consistent(s)
  {
    ReshapeShape(chromosome, numColumns);
    ResizeShape(Reshape(chromosome, numColumns));
  }

  /** When the reshaped pattern is below the maximum size, the constructor's
      grid is (h + 4) x (w + 4) with the pattern at offset (2, 2) and zeros
      everywhere else. */
  lemma InitialStateGrid(chromosome: seq<int>, numColumns: int)
    requires numColumns > 0 && |chromosome| > 0 && |chromosome| % numColumns == 0
    requires |chromosome| / numColumns < MAX_BOARD_HEIGHT && numColumns < MAX_BOARD_WIDTH
    ensures var h, w := |chromosome| / numColumns, numColumns;
      var s := InitialState(chromosome, numColumns);
      |s.initConfig| == h && (forall i :: 0 <= i < h ==> |s.initConfig[i]| == w) &&
      |s.matrix| == h + 4 && |s.matrix[0]| == w + 4 &&
      (forall i, j :: 2 <= i < h + 2 && 2 <= j < w + 2 ==> s.matrix[i][j] == s.initConfig[i - 2][j - 2]) &&
      (forall i, j :: 0 <= i < h + 4 && 0 <= j < w + 4 && !(2 <= i < h + 2 && 2 <= j < w + 2)
        ==> s.matrix[i][j] == 0)
  {
    ReshapeShape(chromosome, numColumns);
    var init := Reshape(chromosome, numColumns);
    var h := |chromosome| / numColumns;
    assert |init| == h by {
      DivExact(|chromosome|, numColumns, |init|);
    }
    ResizeShape(init);
    PadShape(init, BOARD_RESIZE_STEP);
  }

  lemma DivExact(n: int, k: int, q: int)
    requires k > 0 && q * k == n
    ensures n / k == q
  {
    var d, r := n / k, n % k;
    assert n == d * k + r && 0 <= r < k;
    MulSub(k, q, d);
    assert k * q - k * d == r;
    MulSmall(k, q - d);
  }

  /** A step keeps the board consistent. */
  lemma UpdateConsistent(s: BoardState)
    requires Consistent(s)
    ensures Consistent(UpdateState(s))
  {
    UpdateHistory(s);
    NextGridRule(s.matrix);
    ResizeShape(NextGrid(s.matrix));
  }

  /** One step: lifespan up by exactly one, the live count of the grid before
      the step, the largest count seen so far, and every cell of the new grid
      from the rule on the old one; the initial pattern is untouched. */
  lemma UpdateCounters(s: BoardState)
    requires IsGrid(s.matrix)
    ensures var r := UpdateState(s);
      r.lifespan == s.lifespan + 1 &&
      r.currentConfigSize == GridSum(s.matrix) &&
      r.maxConfigSize >= s.maxConfigSize && r.maxConfigSize >= r.currentConfigSize &&
      (r.maxConfigSize == s.maxConfigSize || r.maxConfigSize == r.currentConfigSize) &&
      r.initConfig == s.initConfig && r.initConfigSize == s.initConfigSize
    ensures GridSum(UpdateState(s).matrix) == GridSum(NextGrid(s.matrix))
  {
    NextGridRule(s.matrix);
    ResizeShape(NextGrid(s.matrix));
  }

  /** Recording a fingerprint: a known one leaves the history alone; a new
      one is appended, the history is cut to its last three entries, and a
      history of at most three distinct entries stays so. */
  lemma RecordedSpec(h: seq<seq<int>>, fp: seq<int>)
    ensures fp in h ==> Recorded(h, fp) == h
    ensures fp !in h ==>
      var r := Recorded(h, fp);
      |r| == (if |h| >= 3 then 3 else |h| + 1) &&
      r[|r| - 1] == fp && r[..|r| - 1] == h[|h| + 1 - |r|..]
    ensures HistoryOk(h) ==> HistoryOk(Recorded(h, fp)) && fp in Recorded(h, fp)
  {
    if fp !in h {
      var g := h + [fp];
      var k := KeepLastThree(g);
      var d := |g| - |k|;
      assert k == g[d..];
      assert k[|k| - 1] == g[|g| - 1] == fp;
      assert k[..|k| - 1] == g[d..|g| - 1];
      assert g[..|g| - 1] == h;
      if HistoryOk(h) {
        KeptDistinct(h, fp, k, d);
      }
    }
  }

  lemma KeptDistinct(h: seq<seq<int>>, fp: seq<int>, k: seq<seq<int>>, d: nat)
    requires HistoryOk(h) && fp !in h
    requires d <= |h| + 1 && k == (h + [fp])[d..]
    ensures forall i, j :: 0 <= i < j < |k| ==> k[i] != k[j]
  {
    var g := h + [fp];
    forall i, j | 0 <= i < j < |k| ensures k[i] != k[j] {
      assert k[i] == g[i + d] && k[j] == g[j + d];
      if j + d == |g| - 1 {
        assert g[i + d] == h[i + d];
      } else {
        assert g[i + d] == h[i + d] && g[j + d] == h[j + d];
      }
    }
  }

  /** Cycle detection: the cycle flag is set exactly when the new grid's
      fingerprint is already recorded; the fingerprint is appended (and the
      history cut to its last three entries) only when it is new; the history
      stays at most three long with distinct entries. */
  lemma UpdateHistory(s: BoardState)
    requires IsGrid(s.matrix)
    ensures var r := UpdateState(s);
      var fp := Fingerprint(NextGrid(s.matrix));
      (r.isCycle <==> fp in s.boardHistory) &&
      r.boardHistory == Recorded(s.boardHistory, fp) &&
      (r.isCycle ==> r.boardHistory == s.boardHistory) &&
      (!r.isCycle ==> |r.boardHistory| > 0 && r.boardHistory[|r.boardHistory| - 1] == fp) &&
      (HistoryOk(s.boardHistory) ==> HistoryOk(r.boardHistory) && fp in r.boardHistory)
  {
    UpdateStateFields(s);
    RecordedSpec(s.boardHistory, Fingerprint(NextGrid(s.matrix)));
  }

  /** Growth: the grid grows (both dimensions by 4) exactly when a live cell
      of the new grid touches its border and neither dimension has reached
      the maximum, whether or not the step also detects a cycle; it never
      shrinks. */
  lemma UpdateGrowth(s: BoardState)
    requires IsGrid(s.matrix)
    ensures var r := UpdateState(s);
      var next := NextGrid(s.matrix);
      var grows := TouchesBorder(next) && |s.matrix| < MAX_BOARD_HEIGHT && |s.matrix[0]| < MAX_BOARD_WIDTH;
      IsGrid(r.matrix) &&
      (grows ==> |r.matrix| == |s.matrix| + 4 && |r.matrix[0]| == |s.matrix[0]| + 4) &&
      (!grows ==> |r.matrix| == |s.matrix| && |r.matrix[0]| == |s.matrix[0]|)
  {
    NextGridRule(s.matrix);
    ResizeShape(NextGrid(s.matrix));
  }

  /** Evolution keeps the board consistent, never changes the initial
      pattern, and leaves a board that is frozen: extinct, out of steps or
      cycled. A board `evolve` cannot step is returned unchanged. */
  lemma {:induction false} EvolvedSpec(s: BoardState, maxSteps: int)
    requires Consistent(s)
    ensures var r := Evolved(s, maxSteps);
      Consistent(r) && (r.currentConfigSize <= 0 || r.lifespan >= maxSteps || r.isCycle) &&
      (!CanStep(s, maxSteps) ==> r == s) &&
      Evolved(r, maxSteps) == r
    decreases maxSteps - s.lifespan
  {
    if CanStep(s, maxSteps) {
      UpdateConsistent(s);
      EvolvedSpec(UpdateState(s), maxSteps);
    }
  }

  // ---------------------------------------------------------------------
  // The board as an object

  class Board {
    var initConfig: Grid
    var initConfigSize: int
    var maxConfigSize: int
    var currentConfigSize: int
    var lifespan: nat
    var matrix: Grid
    var width: nat
    var height: nat
    var boardHistory: seq<seq<int>>
    var isCycle: bool

    /** `width` and `height` are the dimensions of `matrix`. */
    ghost predicate Valid()
      reads this
    {
      IsGrid(matrix) && width == |matrix[0]| && height == |matrix|
    }

    /** The fields, as a value. */
    function State(): BoardState
      reads this
    {
      BoardState(initConfig, initConfigSize, maxConfigSize, currentConfigSize,
                 lifespan, matrix, boardHistory, isCycle)
    }

    constructor (chromosome: seq<int>, numColumns: int)
      requires numColumns > 0 && |chromosome| > 0 && |chromosome| % numColumns == 0
      ensures Valid() && State() == InitialState(chromosome, numColumns)
    {
      ReshapeShape(chromosome, numColumns);
      var config := Reshape(chromosome, numColumns);
      var size := GridSum(config);
      initConfig := config;
      initConfigSize := size;
      maxConfigSize := size;
      currentConfigSize := size;
      lifespan := 0;
      matrix := config;
      new;
      ResizeBoard();
      width := |matrix[0]|;
      height := |matrix|;
      boardHistory := [];
      isCycle := false;
      assert State() == BoardState(config, size, size, size, 0, Resize(config), [], false);
    }

    /** Copy the grid into one BOARD_RESIZE_STEP cells larger on every side,
        unless either dimension has reached its maximum. */
    method ResizeBoard()
      requires IsGrid(matrix)
      modifies this`matrix, this`width, this`height
      ensures IsGrid(matrix) && matrix == Resize(old(matrix))
      ensures if |old(matrix)[0]| >= MAX_BOARD_WIDTH || |old(matrix)| >= MAX_BOARD_HEIGHT
              then width == old(width) && height == old(height)
              else width == |matrix[0]| && height == |matrix|
    {
      var initWidth := |matrix[0]|;
      var initHeight := |matrix|;
      ResizeShape(matrix);
      if initWidth >= MAX_BOARD_WIDTH || initHeight >= MAX_BOARD_HEIGHT {
        return;
      }
      width := initWidth + BOARD_RESIZE_STEP * 2;
      height := initHeight + BOARD_RESIZE_STEP * 2;
      matrix := Pad(matrix, BOARD_RESIZE_STEP);
    }

    /** One step of the automaton. */
    method UpdateBoard()
      requires Valid()
      modifies this
      ensures Valid()
      ensures State() == UpdateState(old(State()))
    {
      ghost var s := State();
      var newMatrix, needResize := ComputeNextGrid(matrix);
      CountStep();
      matrix := newMatrix;
      var boardHash := Fingerprint(newMatrix);
      RecordHash(boardHash);
      if needResize {
        ResizeBoard();
      }
      UpdateStateFields(s);
    }

    /** The counters of update_board: one more step, and the live count of
        the grid before the step, raising the maximum if it is exceeded. */
    method CountStep()
      modifies this`lifespan, this`currentConfigSize, this`maxConfigSize
      ensures lifespan == old(lifespan) + 1
      ensures currentConfigSize == GridSum(matrix)
      ensures maxConfigSize == if currentConfigSize > old(maxConfigSize) then currentConfigSize else old(maxConfigSize)
    {
      lifespan := lifespan + 1;
      currentConfigSize := GridSum(matrix);
      if currentConfigSize > maxConfigSize {
        maxConfigSize := currentConfigSize;
      }
    }

    /** The cycle detection of update_board: a fingerprint already in the
        history marks a cycle; a new one is appended, keeping the last three. */
    method RecordHash(boardHash: seq<int>)
      modifies this`isCycle, this`boardHistory
      ensures isCycle == (boardHash in old(boardHistory))
      ensures boardHistory == Recorded(old(boardHistory), boardHash)
    {
      isCycle := boardHash in boardHistory;
      if !isCycle {
        var history := boardHistory + [boardHash];
        if |history| > 3 {
          history := history[|history| - 3..];
        }
        boardHistory := history;
      }
    }

    /** Step until extinction, `maxSteps` or a cycle. */
    method Evolve(maxSteps: int)
      requires Valid()
      modifies this
      ensures Valid()
      ensures State() == Evolved(old(State()), maxSteps)
      ensures currentConfigSize <= 0 || lifespan >= maxSteps || isCycle
      ensures !CanStep(old(State()), maxSteps) ==> State() == old(State())
    {
      while currentConfigSize > 0 && lifespan < maxSteps && !isCycle
        invariant Valid()
        invariant Evolved(State(), maxSteps) == Evolved(old(State()), maxSteps)
        decreases maxSteps - lifespan
      {
        UpdateBoard();
      }
    }
  }

  /** The cell loop of update_board: the next grid, cell by cell from the
      rule on `m`, and whether any non-zero new cell lies on the border. */
  method ComputeNextGrid(m: Grid) returns (next: Grid, needResize: bool)
    requires IsGrid(m)
    ensures next == NextGrid(m)
    ensures IsGrid(next) && |next| == |m| && |next[0]| == |m[0]|
    ensures needResize == TouchesBorder(next)
  {
    var height, width := |m|, |m[0]|;
    ghost var goal := NextGrid(m);
    next := [];
    needResize := false;
    for x := 0 to height
      invariant |next| == x
      invariant forall i :: 0 <= i < x ==> next[i] == goal[i]
      invariant needResize <==>
        exists i, j :: 0 <= i < x && 0 <= j < width && goal[i][j] != 0 && OnBorder(height, width, i, j)
    {
      var row := [];
      ghost var before := needResize;
      for y := 0 to width
        invariant |row| == y
        invariant forall j :: 0 <= j < y ==> row[j] == goal[x][j]
        invariant needResize <==>
          before || exists j :: 0 <= j < y && goal[x][j] != 0 && OnBorder(height, width, x, j)
      {
        var cell := ApplyRules(m, x, y);
        assert cell == goal[x][y];
        ghost var was := needResize;
        row := row + [cell];
        if cell != 0 && (x == 0 || x == height - 1 || y == 0 || y == width - 1) {
          needResize := true;
        }
        assert needResize <==>
          before || exists j :: 0 <= j < y + 1 && goal[x][j] != 0 && OnBorder(height, width, x, j)
        by {
          if needResize && !was {
            assert goal[x][y] != 0 && OnBorder(height, width, x, y);
          }
          if !needResize {
            assert !(goal[x][y] != 0 && OnBorder(height, width, x, y));
          }
        }
      }
      assert row == goal[x];
      assert needResize <==>
        exists i, j :: 0 <= i < x + 1 && 0 <= j < width && goal[i][j] != 0 && OnBorder(height, width, i, j)
      by {
        if needResize && !before {
          var j :| 0 <= j < width && goal[x][j] != 0 && OnBorder(height, width, x, j);
          assert 0 <= x < x + 1;
        }
        if !needResize {
          assert forall i, j :: 0 <= i < x + 1 && 0 <= j < width && goal[i][j] != 0 ==> !OnBorder(height, width, i, j) by {
            forall i, j | 0 <= i < x + 1 && 0 <= j < width && goal[i][j] != 0 ensures !OnBorder(height, width, i, j) {
              if i == x {
                assert goal[x][j] != 0;
              }
            }
          }
        }
      }
      next := next + [row];
    }
  }
}
