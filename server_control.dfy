/** The host: the setup wizard driven by the confirm button, the computation
    of b = A·x, and the per-round collection, averaging and grading of the
    clients' guesses. */
module Server {
  import opened Common
  import opened Matrix

  /** The text of the input field as int.TryParse and float.TryParse read it. */
  datatype Input = Input(asInt: Option<int>, asFloat: Option<real>)

  /** The wizard's state: ServerControl's own fields and the host's board. */
  datatype Host = Host(
    rows: int,                    // ServerControl.totalRows
    columns: int,                 // ServerControl.totalColumns
    row: int,                     // currentRowIndex
    column: int,                  // currentColumnIndex
    solution: Option<seq<real>>,  // solutionVector; None while it is null
    board: Board)

  /** What one press of the confirm button leaves: the new state, whether the
      handler threw, and whether it broadcast "matrix ready" to the clients. */
  datatype Confirmed = Confirmed(host: Host, outcome: Outcome, matrixReady: bool)

  /** The host right after it spawns: all fields at their defaults, the phase
      set to SetRows by the setup flow. */
  function Initial(): Host
  {
    Host(0, 0, 0, 0, None, Board(true, SetRows, 0, 0, [], [], []))
  }

  /** Σ_{j < n} GetCoefficient(i, j) * x[j], accumulated left to right. */
  function RowSum(list: seq<real>, stride: int, i: int, x: seq<real>, n: int): real
    requires n <= |x|
  {
    if n <= 0 then 0.0 else RowSum(list, stride, i, x, n - 1) + Lookup(list, stride, i, n - 1) * x[n - 1]
  }

  /** The right-hand side b computed from the board's coefficients. */
  function AugmentedB(b: Board, rows: int, columns: int, x: seq<real>): seq<real>
    requires rows >= 0 && columns <= |x|
  {
    seq(rows, i requires 0 <= i < rows => RowSum(b.coefficients, b.totalColumns, i, x, columns))
  }

  /** Whether the parser used in this phase accepted the input. */
  predicate Parsed(state: GameState, input: Input)
  {
    match state
    case SetRows => input.asInt.Some?
    case SetColumns => input.asInt.Some?
    case SetCoefficients => input.asFloat.Some?
    case SetSolution => input.asFloat.Some?
    case _ => true
  }

  /** One press of the host's confirm button (OnConfirmInput). */
  function Confirm(h: Host, input: Input): Confirmed
  {
    match h.board.state
    case SetRows =>
      (match input.asInt
       case Some(n) => Confirmed(h.(rows := n, board := WithRows(h.board, n).(state := SetColumns)), Completed, false)
       case None => Confirmed(h.(rows := 0), Completed, false))
    case SetColumns =>
      (match input.asInt
       case Some(n) =>
         var b1 := WithColumns(h.board, n).(state := SetCoefficients);
         Confirmed(h.(columns := n, row := 0, column := 0, board := Generated(b1, h.rows, n)),
                   if h.rows < 0 || n < 0 then Faulted(NegativeSize) else Completed, false)
       case None => Confirmed(h.(columns := 0), Completed, false))
    case SetCoefficients =>
      (match input.asFloat
       case Some(v) =>
         var b1 := WithCoefficient(h.board, h.row, h.column, v);
         var wraps := h.column + 1 >= h.columns;
         var r1 := if wraps then h.row + 1 else h.row;
         var c1 := if wraps then 0 else h.column + 1;
         if r1 < h.rows then Confirmed(h.(row := r1, column := c1, board := b1), Completed, false)
         else if h.columns < 0 then
           Confirmed(h.(row := r1, column := c1, board := b1.(state := SetSolution)), Faulted(NegativeSize), false)
         else
           Confirmed(h.(row := r1, column := 0, solution := Some(Zeros(h.columns)), board := b1.(state := SetSolution)),
                     Completed, false)
       case None => Confirmed(h, Completed, false))
    case SetSolution =>
      (match input.asFloat
       case Some(v) =>
         if h.solution.None? then Confirmed(h, Faulted(NullReference), false)
         else if !(0 <= h.column < |h.solution.value|) then Confirmed(h, Faulted(IndexOutOfRange), false)
         else
           var s := h.solution.value[h.column := v];
           var h1 := h.(solution := Some(s), column := h.column + 1);
           if h1.column < h.columns then Confirmed(h1, Completed, false)
           else if h.rows < 0 then Confirmed(h1, Faulted(NegativeSize), false)
           else
             var b1 := WithAugmented(h.board, AugmentedB(h.board, h.rows, h.columns, s));
             Confirmed(h1.(board := WithSolution(b1, s).(state := ConfirmSetup)), Completed, false)
       case None => Confirmed(h, Completed, false))
    case ConfirmSetup => Confirmed(h.(board := h.board.(state := StartGame)), Completed, false)
    case StartGame => Confirmed(h, Completed, true)
    case _ => Confirmed(h, Completed, false)
  }

  /** A sequence of confirm presses. */
  function Run(h: Host, inputs: seq<Input>): Host
    decreases |inputs|
  {
    if inputs == [] then h else Run(Confirm(h, inputs[0]).host, inputs[1..])
  }

  /** Every input reads as the given float. */
  predicate AllFloats(inputs: seq<Input>, values: seq<real>)
    decreases |inputs|
  {
    |inputs| == |values| &&
    (inputs != [] ==> inputs[0].asFloat == Some(values[0]) && AllFloats(inputs[1..], values[1..]))
  }

  // ---- one press ----

  /** Text the phase's parser rejects changes neither the phase nor the cursor
      nor the board; only a failed int.TryParse zeroes the count it targeted. */
  lemma InvalidInputKeepsPhaseAndCursor(h: Host, input: Input)
    requires h.board.state in {SetRows, SetColumns, SetCoefficients, SetSolution}
    requires !Parsed(h.board.state, input)
    ensures var r := Confirm(h, input);
      r.host.board == h.board && r.host.row == h.row && r.host.column == h.column &&
      r.host.solution == h.solution && r.outcome == Completed && !r.matrixReady &&
      r.host.rows == (if h.board.state == SetRows then 0 else h.rows) &&
      r.host.columns == (if h.board.state == SetColumns then 0 else h.columns)
  {
  }

  /** Any parsed count, zero and negatives included, moves SetRows to
      SetColumns and SetColumns to SetCoefficients with the cursor at (0, 0). */
  lemma DimensionsAlwaysAdvance(h: Host, input: Input)
    requires h.board.state in {SetRows, SetColumns} && input.asInt.Some?
    ensures var r := Confirm(h, input);
      (h.board.state == SetRows ==>
         r.host.board.state == SetColumns && r.host.rows == input.asInt.value &&
         (h.board.isServer ==> r.host.board.totalRows == input.asInt.value)) &&
      (h.board.state == SetColumns ==>
         r.host.board.state == SetCoefficients && r.host.columns == input.asInt.value &&
         r.host.row == 0 && r.host.column == 0)
  {
  }

  /** The column count is stored twice on the host (directly, then again by
      GenerateMatrix), and each time the list grows by rows·columns zeros. */
  lemma ColumnsStepDoublesList(h: Host, input: Input)
    requires h.board.isServer && h.board.state == SetColumns && h.board.coefficients == []
    requires h.board.totalRows == h.rows && h.rows > 0
    requires input.asInt.Some? && input.asInt.value > 0
    ensures Confirm(h, input).host.board.coefficients == Zeros(2 * h.rows * input.asInt.value)
    ensures Confirm(h, input).host.board.totalColumns == input.asInt.value
  {
    var columns := input.asInt.value;
    var n := h.rows * columns;
    MultipleBounds(columns, h.rows);
    var b1 := h.board.(state := SetCoefficients);
    assert WithColumns(h.board, columns).(state := SetCoefficients) == WithColumns(b1, columns);
    ColumnsThenGenerate(b1, columns);
    ZerosConcat(n, n);
    assert 2 * h.rows * columns == n + n;
  }

  /** A parsed coefficient lands at the cursor's flat position, and the cursor
      moves one cell on in row-major order. */
  lemma CoefficientStep(h: Host, input: Input)
    requires h.board.isServer && h.board.state == SetCoefficients && input.asFloat.Some?
    requires h.row < h.rows
    ensures var r := Confirm(h, input).host;
      r.board.coefficients ==
        Written(h.board.coefficients, h.board.totalColumns, h.row, h.column, input.asFloat.value) &&
      (if h.column + 1 >= h.columns then r.row == h.row + 1 && r.column == 0
       else r.row == h.row && r.column == h.column + 1)
  {
  }

  /** ConfirmSetup moves to StartGame; StartGame only broadcasts; the phases
      the wizard has no case for are left alone. */
  lemma ConfirmAfterSetup(h: Host, input: Input)
    ensures h.board.state == ConfirmSetup ==>
      Confirm(h, input) == Confirmed(h.(board := h.board.(state := StartGame)), Completed, false)
    ensures h.board.state == StartGame ==> Confirm(h, input) == Confirmed(h, Completed, true)
    ensures h.board.state in {Connecting, ViewingMatrix, AdjustingSliders, GuessConfirmed} ==>
      Confirm(h, input) == Confirmed(h, Completed, false)
  {
  }

  /** The cursor never goes negative. */
  lemma {:induction false} CursorStaysNonNegative(h: Host, inputs: seq<Input>)
    requires h.row >= 0 && h.column >= 0
    ensures Run(h, inputs).row >= 0 && Run(h, inputs).column >= 0
    decreases |inputs|
  {
    if inputs != [] {
      CursorStaysNonNegative(Confirm(h, inputs[0]).host, inputs[1..]);
    }
  }

  // ---- whole phases ----

  lemma {:induction false} RunAppend(h: Host, a: seq<Input>, b: seq<Input>)
    ensures Run(h, a + b) == Run(Run(h, a), b)
    decreases |a|
  {
    if a != [] {
      assert (a + b)[0] == a[0] && (a + b)[1..] == a[1..] + b;
      assert Run(h, a + b) == Run(Confirm(h, a[0]).host, a[1..] + b);
      RunAppend(Confirm(h, a[0]).host, a[1..], b);
    } else {
      assert a + b == b;
    }
  }

  /** One coefficient of the phase: it lands at flat position p, and the
      cursor moves to position p + 1, or past the grid into SetSolution. */
  lemma CoefficientAdvance(h: Host, inputs: seq<Input>, p: int) returns (e: Host)
    requires h.board.isServer && h.board.state == SetCoefficients
    requires inputs != [] && inputs[0].asFloat.Some?
    requires h.rows > 0 && h.columns > 0 && h.board.totalColumns == h.columns
    requires 0 <= h.row < h.rows && 0 <= h.column < h.columns
    requires p == FlatIndex(h.columns, h.row, h.column)
    requires |h.board.coefficients| >= h.rows * h.columns
    ensures 0 <= p < h.rows * h.columns
    ensures Run(h, inputs) == Run(e, inputs[1..])
    ensures var written := h.board.coefficients[p := inputs[0].asFloat.value];
      e.rows == h.rows && e.columns == h.columns &&
      (p + 1 < h.rows * h.columns ==>
         e.board == h.board.(coefficients := written) && e.solution == h.solution &&
         0 <= e.row < h.rows && 0 <= e.column < h.columns && FlatIndex(h.columns, e.row, e.column) == p + 1) &&
      (p + 1 == h.rows * h.columns ==>
         e.board == h.board.(coefficients := written, state := SetSolution) &&
         e.row == h.rows && e.column == 0 && e.solution == Some(Zeros(h.columns)))
  {
    e := Confirm(h, inputs[0]).host;
    CellBelowSize(h.columns, h.rows, h.row, h.column);
    if h.column + 1 >= h.columns {
      assert FlatIndex(h.columns, h.row + 1, 0) == p + 1;
      if h.row + 1 < h.rows {
        CellBelowSize(h.columns, h.rows, h.row + 1, 0);
      } else {
        assert p + 1 == h.rows * h.columns;
      }
    } else {
      CellBelowSize(h.columns, h.rows, h.row, h.column + 1);
    }
  }

  /** Writing values[0] at p and then the rest of values from p + 1 on is
      writing all of values from p on. */
  lemma Splice(list: seq<real>, p: int, values: seq<real>)
    requires 0 <= p && 0 < |values| && p + |values| <= |list|
    ensures var list1 := list[p := values[0]];
      list1[..p + 1] + values[1..] + list1[p + |values|..] == list[..p] + values + list[p + |values|..]
  {
    var list1 := list[p := values[0]];
    assert list1[..p + 1] == list[..p] + [values[0]];
    assert list1[p + |values|..] == list[p + |values|..];
    assert [values[0]] + values[1..] == values;
  }

  /** From the cursor at flat position p, the remaining rows·columns − p parsed
      coefficients fill positions p, p+1, … in order; then the phase becomes
      SetSolution with a zero solution of length columns and column cursor 0. */
  lemma {:induction false} CoefficientPhase(h: Host, inputs: seq<Input>, values: seq<real>, p: int)
    requires h.board.isServer && h.board.state == SetCoefficients
    requires h.rows > 0 && h.columns > 0 && h.board.totalColumns == h.columns
    requires 0 <= h.row < h.rows && 0 <= h.column < h.columns
    requires p == FlatIndex(h.columns, h.row, h.column)
    requires |h.board.coefficients| >= h.rows * h.columns
    requires AllFloats(inputs, values) && |values| == h.rows * h.columns - p
    ensures 0 <= p < p + |values| <= |h.board.coefficients|
    ensures var e := Run(h, inputs);
      e.board == h.board.(state := SetSolution,
                          coefficients := h.board.coefficients[..p] + values + h.board.coefficients[p + |values|..]) &&
      e.rows == h.rows && e.columns == h.columns && e.row == h.rows && e.column == 0 &&
      e.solution == Some(Zeros(h.columns))
    decreases |values|
  {
    CellBelowSize(h.columns, h.rows, h.row, h.column);
    assert inputs[0].asFloat == Some(values[0]);
    var h1 := CoefficientAdvance(h, inputs, p);
    var list := h.board.coefficients;
    var rest := values[1..];
    var filled := list[..p] + values + list[p + |values|..];
    if p + 1 < h.rows * h.columns {
      assert AllFloats(inputs[1..], rest);
      CoefficientPhase(h1, inputs[1..], rest, p + 1);
      Splice(list, p, values);
      assert p + 1 + |rest| == p + |values|;
    } else {
      assert inputs[1..] == [];
      assert list[p := values[0]] == filled;
      assert Run(h1, inputs[1..]) == h1;
    }
  }

  /** From the solution cursor at column k, the remaining columns − k parsed
      values complete the solution; then b is computed from it, the solution
      and b are published, and the phase becomes ConfirmSetup. */
  lemma {:induction false} SolutionPhase(h: Host, inputs: seq<Input>, values: seq<real>)
    requires h.board.state == SetSolution && h.rows >= 0
    requires h.solution.Some? && |h.solution.value| == h.columns && 0 <= h.column < h.columns
    requires AllFloats(inputs, values) && |values| == h.columns - h.column
    ensures var s := h.solution.value[..h.column] + values;
      var e := Run(h, inputs);
      |s| == h.columns &&
      e == h.(solution := Some(s), column := h.columns,
              board := WithSolution(WithAugmented(h.board, AugmentedB(h.board, h.rows, h.columns, s)), s)
                         .(state := ConfirmSetup))
    decreases |values|
  {
    var sol := h.solution.value;
    var v := values[0];
    assert inputs[0].asFloat == Some(v);
    var s1 := sol[h.column := v];
    var h1 := Confirm(h, inputs[0]).host;
    assert s1[..h.column + 1] == sol[..h.column] + [v];
    if h.column + 1 < h.columns {
      assert h1 == h.(solution := Some(s1), column := h.column + 1);
      assert AllFloats(inputs[1..], values[1..]);
      SolutionPhase(h1, inputs[1..], values[1..]);
      assert s1[..h.column + 1] + values[1..] == sol[..h.column] + values;
    } else {
      assert inputs[1..] == [];
      assert s1 == sol[..h.column] + values;
    }
  }

  // ---- b = A·x ----

  /** Σ_j a[j] * x[j] over the whole of a. */
  function Dot(a: seq<real>, x: seq<real>): real
    requires |a| <= |x|
  {
    if a == [] then 0.0 else Dot(a[..|a| - 1], x) + a[|a| - 1] * x[|a| - 1]
  }

  /** The matrix-vector product of a grid and a vector. */
  function MatVec(grid: seq<seq<real>>, x: seq<real>): seq<real>
    requires forall i :: 0 <= i < |grid| ==> |grid[i]| <= |x|
  {
    seq(|grid|, i requires 0 <= i < |grid| => Dot(grid[i], x))
  }

  /** Read through GetCoefficient, a list that begins with the flattened grid
      gives row i of b as the dot product of grid row i with x. */
  lemma {:induction false} RowSumIsDot(list: seq<real>, grid: seq<seq<real>>, x: seq<real>, i: int, n: int)
    requires |x| > 0 && IsGrid(grid, |x|) && 0 <= i < |grid| && 0 <= n <= |x|
    requires |list| >= |grid| * |x| && list[..|grid| * |x|] == Flatten(grid)
    ensures RowSum(list, |x|, i, x, n) == Dot(grid[i][..n], x)
    decreases n
  {
    if n > 0 {
      RowSumIsDot(list, grid, x, i, n - 1);
      FlattenAt(grid, |x|, i, n - 1);
      assert grid[i][..n][..n - 1] == grid[i][..n - 1];
    }
  }

  /** The computed b is A·x for the matrix the coefficient list stores. */
  lemma AugmentedIsMatVec(b: Board, grid: seq<seq<real>>, x: seq<real>)
    requires |x| > 0 && IsGrid(grid, |x|) && b.totalColumns == |x|
    requires |b.coefficients| >= |grid| * |x| && b.coefficients[..|grid| * |x|] == Flatten(grid)
    ensures AugmentedB(b, |grid|, |x|, x) == MatVec(grid, x)
  {
    forall i | 0 <= i < |grid|
      ensures AugmentedB(b, |grid|, |x|, x)[i] == MatVec(grid, x)[i]
    {
      RowSumIsDot(b.coefficients, grid, x, i, |x|);
      assert grid[i][..|x|] == grid[i];
    }
  }

  /** The whole wizard: a row count, a column count, the flattened grid and
      the solution, entered on a fresh host, leave it at ConfirmSetup with the
      grid (followed by the second block of zeros), the solution and b = A·x. */
  lemma SetupBuildsSystem(grid: seq<seq<real>>, x: seq<real>, rowsText: Input, columnsText: Input,
                                             coefficientTexts: seq<Input>, solutionTexts: seq<Input>)
    requires |grid| > 0 && |x| > 0 && IsGrid(grid, |x|)
    requires rowsText.asInt == Some(|grid|) && columnsText.asInt == Some(|x|)
    requires AllFloats(coefficientTexts, Flatten(grid)) && AllFloats(solutionTexts, x)
    ensures var e := Run(Initial(), [rowsText, columnsText] + coefficientTexts + solutionTexts);
      e.board.state == ConfirmSetup &&
      e.board.totalRows == |grid| && e.board.totalColumns == |x| &&
      e.board.coefficients == Flatten(grid) + Zeros(|grid| * |x|) &&
      e.board.solution == x && e.board.augmented == MatVec(grid, x)
  {
    var rows, columns := |grid|, |x|;
    var rc := rows * columns;
    assert rc > 0;
    FlattenLength(grid, columns);
    RunAppend(Initial(), [rowsText, columnsText] + coefficientTexts, solutionTexts);
    RunAppend(Initial(), [rowsText, columnsText], coefficientTexts);
    var h1 := Confirm(Initial(), rowsText).host;
    assert [rowsText, columnsText][1..] == [columnsText];
    assert Run(Initial(), [rowsText, columnsText]) == Run(h1, [columnsText]);
    var h2 := Confirm(h1, columnsText).host;
    assert Run(h1, [columnsText]) == Run(h2, []) == h2;
    ColumnsStepDoublesList(h1, columnsText);
    assert h2.board.coefficients == Zeros(2 * rc);
    assert 2 * rows * columns == 2 * rc;
    CoefficientPhase(h2, coefficientTexts, Flatten(grid), 0);
    var h3 := Run(h2, coefficientTexts);
    assert h3.board.coefficients == Flatten(grid) + Zeros(rc) by {
      assert Zeros(2 * rc)[..0] == [];
      assert Zeros(2 * rc)[rc..] == Zeros(rc);
      assert [] + Flatten(grid) == Flatten(grid);
    }
    SolutionPhase(h3, solutionTexts, x);
    assert Zeros(columns)[..0] + x == x;
    assert (Flatten(grid) + Zeros(rc))[..rc] == Flatten(grid);
    AugmentedIsMatVec(h3.board, grid, x);
  }

  // ---- rounds ----

  /** The colour a component is shown in: yellow, green or red. */
  datatype Feedback = Exact | Close | Far

  /** What the host broadcasts when a round resolves. */
  datatype RoundResult = RoundResult(colors: seq<Feedback>, average: seq<real>)

  /** What one submission leaves: the pending guesses, the broadcast if the
      round resolved, and whether the handler threw. */
  datatype Collected = Collected(pending: seq<seq<real>>, result: Option<RoundResult>, outcome: Outcome)

  /** Every guess has at least n components. */
  predicate Covers(guesses: seq<seq<real>>, n: int)
  {
    forall k :: 0 <= k < |guesses| ==> |guesses[k]| >= n
  }

  /** Σ_k guesses[k][i], accumulated in submission order. */
  function ColumnSum(guesses: seq<seq<real>>, i: nat): real
    requires Covers(guesses, i + 1)
  {
    if guesses == [] then 0.0 else ColumnSum(guesses[..|guesses| - 1], i) + guesses[|guesses| - 1][i]
  }

  /** The component-wise mean of the first n components. */
  function Averaged(guesses: seq<seq<real>>, n: nat): seq<real>
    requires |guesses| > 0 && Covers(guesses, n)
  {
    seq(n, i requires 0 <= i < n => ColumnSum(guesses, i) / (|guesses| as real))
  }

  /** Grades one component of the average against the solution. */
  function Classify(average: real, solution: real): (f: Feedback)
    ensures f == Exact <==> average == solution
    ensures f == Close <==> 0.0 < Abs(average - solution) <= 10.0
    ensures f == Far <==> Abs(average - solution) > 10.0
  {
    var difference := Abs(average - solution);
    if difference == 0.0 then Exact else if difference <= 10.0 then Close else Far
  }

  function Classified(average: seq<real>, solution: seq<real>): seq<Feedback>
    requires |solution| >= |average|
  {
    seq(|average|, i requires 0 <= i < |average| => Classify(average[i], solution[i]))
  }

  /** Why grading n components against the solution throws, if it does: the
      solution is still null, or shorter than n. */
  function GradeFault(n: nat, solution: Option<seq<real>>): (f: Option<Fault>)
    ensures f.Some? <==> n > 0 && (solution.None? || |solution.value| < n)
    ensures f == Some(NullReference) <==> n > 0 && solution.None?
    ensures f == Some(IndexOutOfRange) <==> n > 0 && solution.Some? && |solution.value| < n
  {
    if n == 0 then None
    else if solution.None? then Some(NullReference)
    else if |solution.value| < n then Some(IndexOutOfRange)
    else None
  }

  /** The averaging loop of CompareGuess: accumulates each component over the
      guesses in order, then divides by their number; reading a component a
      guess does not have throws. */
  method AverageGuesses(clientGuesses: seq<seq<real>>, n: nat) returns (average: Option<seq<real>>)
    requires |clientGuesses| > 0
    ensures average.Some? <==> Covers(clientGuesses, n)
    ensures average.Some? ==> average.value == Averaged(clientGuesses, n)
  {
    var count := |clientGuesses|;
    var averageGuess := new real[n];
    for i := 0 to n
      invariant Covers(clientGuesses, i)
      invariant forall t :: 0 <= t < i ==> averageGuess[t] == ColumnSum(clientGuesses, t) / (count as real)
    {
      averageGuess[i] := 0.0;
      for k := 0 to count
        invariant Covers(clientGuesses[..k], i + 1)
        invariant averageGuess[i] == ColumnSum(clientGuesses[..k], i)
        invariant forall t :: 0 <= t < i ==> averageGuess[t] == ColumnSum(clientGuesses, t) / (count as real)
      {
        if |clientGuesses[k]| <= i {
          return None;
        }
        assert clientGuesses[..k + 1][..k] == clientGuesses[..k];
        averageGuess[i] := averageGuess[i] + clientGuesses[k][i];
      }
      assert clientGuesses[..count] == clientGuesses;
      averageGuess[i] := averageGuess[i] / (count as real);
    }
    return Some(averageGuess[..]);
  }

  /** The grading loop of CompareGuess: each component of the average against
      the same component of the solution. */
  method GradeAverage(averageGuess: seq<real>, solutionVector: Option<seq<real>>)
    returns (colors: seq<Feedback>, fault: Option<Fault>)
    ensures fault == GradeFault(|averageGuess|, solutionVector)
    ensures fault.None? ==> colors == Classified(averageGuess, OrEmpty(solutionVector))
  {
    var n := |averageGuess|;
    var colorVector := new Feedback[n];
    for i := 0 to n
      invariant i > 0 ==> solutionVector.Some? && i <= |solutionVector.value|
      invariant forall t :: 0 <= t < i ==>
        colorVector[t] == Classify(averageGuess[t], OrEmpty(solutionVector)[t])
    {
      if solutionVector.None? {
        return [], Some(NullReference);
      }
      if i >= |solutionVector.value| {
        return [], Some(IndexOutOfRange);
      }
      var difference := Abs(averageGuess[i] - solutionVector.value[i]);
      if difference == 0.0 {
        colorVector[i] := Exact;
      } else if difference <= 10.0 {
        colorVector[i] := Close;
      } else {
        colorVector[i] := Far;
      }
    }
    return colorVector[..], None;
  }

  /** One call of CompareGuess: the guess is always appended; the round
      resolves exactly when the number of pending guesses equals the number of
      connected clients less one (the host). Resolving averages the guesses,
      grades the average and empties the list. A short guess or a missing or
      short solution throws before anything but the append has happened. */
  function Submit(pending: seq<seq<real>>, guess: seq<real>, connectedClients: int,
                  solution: Option<seq<real>>): Collected
  {
    var all := pending + [guess];
    if |all| != connectedClients - 1 then Collected(all, None, Completed)
    else if !Covers(all, |guess|) then Collected(all, None, Faulted(IndexOutOfRange))
    else if GradeFault(|guess|, solution).Some? then Collected(all, None, Faulted(GradeFault(|guess|, solution).value))
    else
      var average := Averaged(all, |guess|);
      Collected([], Some(RoundResult(Classified(average, OrEmpty(solution)), average)), Completed)
  }

  /** A sequence of submissions: the pending list left and the number of
      rounds that resolved. */
  function SubmitAll(pending: seq<seq<real>>, guesses: seq<seq<real>>, connectedClients: int,
                     solution: Option<seq<real>>): (seq<seq<real>>, nat)
    decreases |guesses|
  {
    if guesses == [] then (pending, 0)
    else
      var c := Submit(pending, guesses[0], connectedClients, solution);
      var rest := SubmitAll(c.pending, guesses[1..], connectedClients, solution);
      (rest.0, rest.1 + if c.result.Some? then 1 else 0)
  }

  /** Guesses of one length m that the solution covers. */
  predicate WellFormed(guesses: seq<seq<real>>, m: nat, solution: Option<seq<real>>)
  {
    solution.Some? && |solution.value| >= m && forall k :: 0 <= k < |guesses| ==> |guesses[k]| == m
  }

  /** When the pending guesses plus the new ones make exactly one guess per
      client, the round resolves once, at the last submission, and the list is
      left empty. */
  lemma {:induction false} FullRoundResolvesOnce(pending: seq<seq<real>>, guesses: seq<seq<real>>,
                                                 connectedClients: int, m: nat, solution: Option<seq<real>>)
    requires guesses != [] && |pending| + |guesses| == connectedClients - 1
    requires WellFormed(pending + guesses, m, solution)
    ensures SubmitAll(pending, guesses, connectedClients, solution) == ([], 1)
    decreases |guesses|
  {
    var all := pending + [guesses[0]];
    assert forall k :: 0 <= k < |all| ==> all[k] in pending + guesses;
    if |guesses| > 1 {
      assert |all| != connectedClients - 1;
      assert all + guesses[1..] == pending + guesses;
      FullRoundResolvesOnce(all, guesses[1..], connectedClients, m, solution);
    } else {
      assert all == pending + guesses && guesses[1..] == [];
      assert (pending + guesses)[|pending|] == guesses[0];
      assert |guesses[0]| == m && Covers(all, m);
      var c := Submit(pending, guesses[0], connectedClients, solution);
      assert c.result.Some? && c.pending == [];
    }
  }

  /** Once the pending list has reached the number of clients less one, no
      further submission resolves: the count must be met exactly. */
  lemma {:induction false} OvershootNeverResolves(pending: seq<seq<real>>, guesses: seq<seq<real>>,
                                                  connectedClients: int, solution: Option<seq<real>>)
    requires |pending| >= connectedClients - 1
    ensures SubmitAll(pending, guesses, connectedClients, solution) == (pending + guesses, 0)
    decreases |guesses|
  {
    if guesses != [] {
      assert pending + [guesses[0]] + guesses[1..] == pending + guesses;
      OvershootNeverResolves(pending + [guesses[0]], guesses[1..], connectedClients, solution);
    } else {
      assert pending + guesses == pending;
    }
  }

  lemma {:induction false} ColumnSumOfCopies(guesses: seq<seq<real>>, g: seq<real>, i: nat)
    requires i < |g| && forall k :: 0 <= k < |guesses| ==> guesses[k] == g
    ensures Covers(guesses, i + 1) && ColumnSum(guesses, i) == (|guesses| as real) * g[i]
    decreases |guesses|
  {
    if guesses != [] {
      ColumnSumOfCopies(guesses[..|guesses| - 1], g, i);
    }
  }

  /** When every client submits the same guess, the average is that guess. */
  lemma AgreeingGuessesAverageToThemselves(guesses: seq<seq<real>>, g: seq<real>)
    requires |guesses| > 0 && forall k :: 0 <= k < |guesses| ==> guesses[k] == g
    ensures Covers(guesses, |g|) && Averaged(guesses, |g|) == g
  {
    forall i | 0 <= i < |g|
      ensures Covers(guesses, i + 1) && ColumnSum(guesses, i) / (|guesses| as real) == g[i]
    {
      ColumnSumOfCopies(guesses, g, i);
    }
  }

  lemma {:induction false} ColumnSumBounds(guesses: seq<seq<real>>, i: nat, lo: real, hi: real)
    requires Covers(guesses, i + 1)
    requires forall k :: 0 <= k < |guesses| ==> lo <= guesses[k][i] <= hi
    ensures (|guesses| as real) * lo <= ColumnSum(guesses, i) <= (|guesses| as real) * hi
    decreases |guesses|
  {
    if guesses != [] {
      ColumnSumBounds(guesses[..|guesses| - 1], i, lo, hi);
    }
  }

  /** Each component of the average lies between the smallest and the largest
      submitted value of that component (so guesses in a slider's range give
      an average in that range). */
  lemma AverageWithinBounds(guesses: seq<seq<real>>, n: nat, i: nat, lo: real, hi: real)
    requires |guesses| > 0 && Covers(guesses, n) && i < n
    requires forall k :: 0 <= k < |guesses| ==> lo <= guesses[k][i] <= hi
    ensures lo <= Averaged(guesses, n)[i] <= hi
  {
    ColumnSumBounds(guesses, i, lo, hi);
    var c := |guesses| as real;
    var s := ColumnSum(guesses, i);
    assert s / c * c == s;
  }

  /** The host's ServerControl. `mv` is the host's board; `clientGuesses` is
      the list of the current round's submissions. */
  class ServerControl {
    const mv: MatrixVisualizer
    var totalRows: int
    var totalColumns: int
    var currentRowIndex: int
    var currentColumnIndex: int
    var clientGuesses: seq<seq<real>>
    var solutionVector: array?<real>

    function Solution(): Option<seq<real>>
      reads this, solutionVector
    {
      if solutionVector == null then None else Some(solutionVector[..])
    }

    function Snapshot(): Host
      reads this, mv, solutionVector
    {
      Host(totalRows, totalColumns, currentRowIndex, currentColumnIndex, Solution(), mv.View())
    }

    constructor (mv: MatrixVisualizer)
      ensures this.mv == mv && clientGuesses == []
      ensures Snapshot() == Host(0, 0, 0, 0, None, mv.View())
    {
      this.mv := mv;
      totalRows, totalColumns := 0, 0;
      currentRowIndex, currentColumnIndex := 0, 0;
      clientGuesses := [];
      solutionVector := null;
    }

    /** StartGameSetupFlow, run when the host spawns. */
    method OnNetworkSpawn()
      modifies mv
      ensures mv.View() == if mv.isServer then old(mv.View()).(state := SetRows) else old(mv.View())
    {
      if mv.isServer {
        mv.currentState := SetRows;
      }
    }

    /** The host's confirm button. */
    method OnConfirmInput(input: Input) returns (outcome: Outcome, matrixReady: bool)
      modifies this, mv, solutionVector
      ensures Confirm(old(Snapshot()), input) == Confirmed(Snapshot(), outcome, matrixReady)
      ensures clientGuesses == old(clientGuesses)
    {
      outcome, matrixReady := Completed, false;
      match mv.currentState {
        case SetRows =>
          match input.asInt {
            case Some(n) =>
              totalRows := n;
              mv.SetTotalRows(totalRows);
              mv.currentState := SetColumns;
            case None =>
              totalRows := 0;
          }
        case SetColumns =>
          match input.asInt {
            case Some(n) =>
              totalColumns := n;
              mv.SetTotalColumns(totalColumns);
              mv.currentState := SetCoefficients;
              currentRowIndex := 0;
              currentColumnIndex := 0;
              outcome := mv.GenerateMatrix(totalRows, totalColumns);
            case None =>
              totalColumns := 0;
          }
        case SetCoefficients =>
          match input.asFloat {
            case Some(coefficientValue) =>
              outcome := EnterCoefficient(coefficientValue);
            case None =>
          }
        case SetSolution =>
          match input.asFloat {
            case Some(solutionValue) =>
              outcome := EnterSolutionValue(solutionValue);
            case None =>
          }
        case ConfirmSetup =>
          mv.currentState := StartGame;
        case StartGame =>
          matrixReady := true;
        case _ =>
      }
    }

    /** The SetCoefficients case with a parsed value. */
    method EnterCoefficient(coefficientValue: real) returns (outcome: Outcome)
      requires mv.currentState == SetCoefficients
      modifies this, mv
      ensures Confirm(old(Snapshot()), Input(None, Some(coefficientValue))) == Confirmed(Snapshot(), outcome, false)
      ensures clientGuesses == old(clientGuesses)
    {
      outcome := Completed;
      mv.UpdateMatrixData(currentRowIndex, currentColumnIndex, coefficientValue);
      currentColumnIndex := currentColumnIndex + 1;
      if currentColumnIndex >= totalColumns {
        currentRowIndex := currentRowIndex + 1;
        currentColumnIndex := 0;
      }
      if currentRowIndex >= totalRows {
        mv.currentState := SetSolution;
        if totalColumns < 0 {
          return Faulted(NegativeSize);
        }
        solutionVector := new real[totalColumns](_ => 0.0);
        currentColumnIndex := 0;
        assert solutionVector[..] == Zeros(totalColumns);
      }
    }

    /** The SetSolution case with a parsed value. */
    method EnterSolutionValue(solutionValue: real) returns (outcome: Outcome)
      requires mv.currentState == SetSolution
      modifies this, mv, solutionVector
      ensures Confirm(old(Snapshot()), Input(None, Some(solutionValue))) == Confirmed(Snapshot(), outcome, false)
      ensures clientGuesses == old(clientGuesses)
    {
      outcome := Completed;
      if solutionVector == null {
        return Faulted(NullReference);
      }
      if !(0 <= currentColumnIndex < solutionVector.Length) {
        return Faulted(IndexOutOfRange);
      }
      solutionVector[currentColumnIndex] := solutionValue;
      currentColumnIndex := currentColumnIndex + 1;
      if currentColumnIndex >= totalColumns {
        outcome := CalculateAugmentedVectorB();
        if outcome.Faulted? {
          return;
        }
        mv.SetSolutionVector(solutionVector[..]);
        mv.currentState := ConfirmSetup;
      }
    }

    /** b[i] = Σ_{j < totalColumns} GetCoefficient(i, j) * solutionVector[j]
        for i < totalRows, accumulated in place and then published; allocating
        b throws when totalRows is negative. The only caller has a solution of
        at least totalColumns values. */
    method CalculateAugmentedVectorB() returns (outcome: Outcome)
      requires solutionVector != null && totalColumns <= solutionVector.Length
      modifies mv
      ensures outcome == if totalRows < 0 then Faulted(NegativeSize) else Completed
      ensures mv.View() == if totalRows < 0 then old(mv.View())
        else WithAugmented(old(mv.View()), AugmentedB(old(mv.View()), totalRows, totalColumns, solutionVector[..]))
    {
      if totalRows < 0 {
        return Faulted(NegativeSize);
      }
      var x := solutionVector[..];
      var augmentedVectorB := new real[totalRows];
      for i := 0 to totalRows
        modifies augmentedVectorB
        invariant forall k :: 0 <= k < i ==>
          augmentedVectorB[k] == RowSum(mv.coefficientList, mv.totalColumns, k, x, totalColumns)
      {
        AccumulateRow(augmentedVectorB, i);
      }
      assert augmentedVectorB[..] == AugmentedB(mv.View(), totalRows, totalColumns, x);
      mv.SetAugmentedVectorB(augmentedVectorB[..]);
      return Completed;
    }

    /** Row i of that loop: b[i] is zeroed, then Σ_j GetCoefficient(i, j)·x[j]
        is accumulated into it in place. */
    method AccumulateRow(augmentedVectorB: array<real>, i: int)
      requires solutionVector != null && totalColumns <= solutionVector.Length
      requires augmentedVectorB != solutionVector && 0 <= i < augmentedVectorB.Length
      modifies augmentedVectorB
      ensures augmentedVectorB[i] == RowSum(mv.coefficientList, mv.totalColumns, i, solutionVector[..], totalColumns)
      ensures forall k :: 0 <= k < augmentedVectorB.Length && k != i ==> augmentedVectorB[k] == old(augmentedVectorB[k])
    {
      var x := solutionVector[..];
      augmentedVectorB[i] := 0.0;
      var j := 0;
      while j < totalColumns
        invariant 0 <= j <= |x| && (totalColumns >= 0 ==> j <= totalColumns) && (totalColumns < 0 ==> j == 0)
        invariant augmentedVectorB[i] == RowSum(mv.coefficientList, mv.totalColumns, i, x, j)
        invariant forall k :: 0 <= k < augmentedVectorB.Length && k != i ==> augmentedVectorB[k] == old(augmentedVectorB[k])
      {
        augmentedVectorB[i] := augmentedVectorB[i] + mv.GetCoefficient(i, j) * solutionVector[j];
        j := j + 1;
      }
      assert totalColumns < 0 ==> RowSum(mv.coefficientList, mv.totalColumns, i, x, j) ==
                                  RowSum(mv.coefficientList, mv.totalColumns, i, x, totalColumns);
    }

    /** A client's guess arrives (SubmitGuessServerRpc, called directly);
        `connectedClients` is the number of connected clients, host included. */
    method CompareGuess(guess: seq<real>, connectedClients: int) returns (result: Option<RoundResult>, outcome: Outcome)
      modifies this`clientGuesses, mv`currentState
      ensures Submit(old(clientGuesses), guess, connectedClients, Solution()) ==
        Collected(clientGuesses, result, outcome)
      ensures mv.currentState == if result.Some? then ViewingMatrix else old(mv.currentState)
    {
      clientGuesses := clientGuesses + [guess];
      result, outcome := None, Completed;
      if |clientGuesses| != connectedClients - 1 {
        return;
      }
      var averageGuess := AverageGuesses(clientGuesses, |guess|);
      if averageGuess.None? {
        return None, Faulted(IndexOutOfRange);
      }
      var colorVector, fault := GradeAverage(averageGuess.value, Solution());
      if fault.Some? {
        return None, Faulted(fault.value);
      }
      mv.currentState := ViewingMatrix;
      result := Some(RoundResult(colorVector, averageGuess.value));
      clientGuesses := [];
    }
  }
}
