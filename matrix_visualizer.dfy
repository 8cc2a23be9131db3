/** The replicated matrix store: dimensions, the row-major coefficient list,
    the solution list and the right-hand side b, with the host-only mutators
    and the never-failing coefficient lookup. */
module Matrix {
  import opened Common

  /** Every phase of the session; host and clients each keep their own copy. */
  datatype GameState =
    | SetRows | SetColumns | SetCoefficients | SetSolution | ConfirmSetup | StartGame
    | Connecting | ViewingMatrix | AdjustingSliders | GuessConfirmed

  /** The value of a MatrixVisualizer: the process's server flag, its phase and
      its replicated fields. */
  datatype Board = Board(
    isServer: bool,
    state: GameState,
    totalRows: int,
    totalColumns: int,
    coefficients: seq<real>,
    solution: seq<real>,
    augmented: seq<real>)

  /** A list of `n` zeros (none when `n` is not positive). */
  function Zeros(n: int): (z: seq<real>)
    ensures |z| == (if n < 0 then 0 else n)
    ensures forall i :: 0 <= i < |z| ==> z[i] == 0.0
  {
    if n <= 0 then [] else Zeros(n - 1) + [0.0]
  }

  /** The flat position of cell (row, column) in a row-major list. */
  function FlatIndex(stride: int, row: int, column: int): int
  {
    row * stride + column
  }

  /** The value GetCoefficient reads: the entry at the flat position when it
      lies inside the list, 0 otherwise. */
  function Lookup(list: seq<real>, stride: int, row: int, column: int): real
  {
    var index := FlatIndex(stride, row, column);
    if 0 <= index < |list| then list[index] else 0.0
  }

  /** The list after the bounds-checked write of SetCoefficient. */
  function Written(list: seq<real>, stride: int, row: int, column: int, value: real): (r: seq<real>)
    ensures |r| == |list|
    ensures forall k :: 0 <= k < |list| && k != FlatIndex(stride, row, column) ==> r[k] == list[k]
    ensures 0 <= FlatIndex(stride, row, column) < |list| ==> r[FlatIndex(stride, row, column)] == value
    ensures !(0 <= FlatIndex(stride, row, column) < |list|) ==> r == list
  {
    var index := FlatIndex(stride, row, column);
    if 0 <= index < |list| then list[index := value] else list
  }

  /** Decodes a changed list position back to (row, column) with C#'s `/` and
      `%`; None stands for the DivideByZeroException when there are no columns. */
  function DecodeIndex(index: int, columns: int): Option<(int, int)>
  {
    if columns == 0 then None else Some((TruncDiv(index, columns), TruncMod(index, columns)))
  }

  // ---- the host-only mutators, as functions on a Board ----

  function WithRows(b: Board, rows: int): Board
  {
    if b.isServer then b.(totalRows := rows) else b
  }

  /** InitializeCoefficientList: the guard reads the stored dimensions, the
      count uses the arguments; existing entries are kept. */
  function WithZeros(b: Board, rows: int, columns: int): (r: Board)
    ensures |r.coefficients| >= |b.coefficients| && r.coefficients[..|b.coefficients|] == b.coefficients
    ensures b.totalRows > 0 && b.totalColumns > 0 ==>
      r == b.(coefficients := b.coefficients + Zeros(rows * columns))
    ensures !(b.totalRows > 0 && b.totalColumns > 0) ==> r == b
  {
    if b.totalRows > 0 && b.totalColumns > 0 then b.(coefficients := b.coefficients + Zeros(rows * columns))
    else b
  }

  /** SetTotalColumns: stores the column count, then extends the list. */
  function WithColumns(b: Board, columns: int): Board
  {
    if b.isServer then WithZeros(b.(totalColumns := columns), b.totalRows, columns) else b
  }

  function WithCoefficient(b: Board, row: int, column: int, value: real): Board
  {
    if b.isServer then b.(coefficients := Written(b.coefficients, b.totalColumns, row, column, value)) else b
  }

  function WithSolution(b: Board, s: seq<real>): Board
  {
    if b.isServer then b.(solution := s) else b
  }

  function WithAugmented(b: Board, s: seq<real>): Board
  {
    if b.isServer then b.(augmented := s) else b
  }

  /** The dimension effects of GenerateMatrix: SetTotalRows then SetTotalColumns. */
  function Generated(b: Board, rows: int, columns: int): Board
  {
    WithColumns(WithRows(b, rows), columns)
  }

  /** Off the server every mutator leaves the board as it was. */
  lemma ClientMutatorsChangeNothing(b: Board, n: int, row: int, column: int, v: real, s: seq<real>)
    requires !b.isServer
    ensures WithRows(b, n) == b && WithColumns(b, n) == b && Generated(b, row, column) == b
    ensures WithCoefficient(b, row, column, v) == b
    ensures WithSolution(b, s) == b && WithAugmented(b, s) == b
  {
  }

  /** Zeros(a) followed by Zeros(c) is Zeros(a + c). */
  lemma ZerosConcat(a: nat, c: nat)
    ensures Zeros(a) + Zeros(c) == Zeros(a + c)
  {
    assert |Zeros(a) + Zeros(c)| == |Zeros(a + c)|;
  }

  /** On the server, storing the column count and then GenerateMatrix with
      the same dimensions appends the rows·columns zeros twice. */
  lemma ColumnsThenGenerate(b: Board, columns: int)
    requires b.isServer && b.totalRows > 0 && columns > 0
    ensures Generated(WithColumns(b, columns), b.totalRows, columns).coefficients ==
      b.coefficients + Zeros(b.totalRows * columns) + Zeros(b.totalRows * columns)
  {
    var z := Zeros(b.totalRows * columns);
    var b1 := WithColumns(b, columns);
    assert b1 == b.(totalColumns := columns, coefficients := b.coefficients + z);
    assert WithRows(b1, b.totalRows) == b1;
    assert WithColumns(b1, columns) == b1.(coefficients := b1.coefficients + z);
  }

  // ---- properties of the flat layout ----

  /** A non-zero multiple of a positive stride is at least the stride away from 0. */
  lemma MultipleBounds(stride: int, d: int)
    requires stride > 0
    ensures d >= 1 ==> stride * d >= stride
    ensures d <= -1 ==> stride * d <= -stride
  {
    if d >= 1 {
      assert stride * d == stride * (d - 1) + stride;
    } else if d <= -1 {
      assert stride * d == stride * (d + 1) - stride;
    }
  }

  /** Decoding a flat position gives back the cell it came from. */
  lemma DecodeInverts(stride: int, row: int, column: int)
    requires stride > 0 && row >= 0 && 0 <= column < stride
    ensures DecodeIndex(FlatIndex(stride, row, column), stride) == Some((row, column))
  {
    var k := FlatIndex(stride, row, column);
    assert k >= 0;
    var q, m := k / stride, k % stride;
    assert k == stride * q + m && 0 <= m < stride;
    assert stride * (q - row) == column - m;
    MultipleBounds(stride, q - row);
    assert TruncDiv(k, stride) == q;
  }

  /** Every non-negative position decodes to a cell whose flat position it is. */
  lemma DecodeCoversPositions(index: int, stride: int)
    requires stride > 0 && index >= 0
    ensures DecodeIndex(index, stride) == Some((index / stride, index % stride))
    ensures index / stride >= 0 && 0 <= index % stride < stride
    ensures FlatIndex(stride, index / stride, index % stride) == index
  {
    var q, m := index / stride, index % stride;
    assert index == stride * q + m && 0 <= m < stride;
    MultipleBounds(stride, q);
    assert TruncDiv(index, stride) == q;
  }

  /** Cells of the same row length that differ have different flat positions. */
  lemma DistinctCells(stride: int, r1: int, c1: int, r2: int, c2: int)
    requires stride > 0 && r1 >= 0 && r2 >= 0 && 0 <= c1 < stride && 0 <= c2 < stride
    requires (r1, c1) != (r2, c2)
    ensures FlatIndex(stride, r1, c1) != FlatIndex(stride, r2, c2)
  {
    DecodeInverts(stride, r1, c1);
    DecodeInverts(stride, r2, c2);
  }

  /** SetCoefficient then GetCoefficient: the written cell reads back the value
      and every other cell of the grid reads what it read before. */
  lemma ReadAfterWrite(list: seq<real>, stride: int, row: int, column: int, value: real,
                                          r: int, c: int)
    requires stride > 0 && row >= 0 && r >= 0 && 0 <= column < stride && 0 <= c < stride
    requires 0 <= FlatIndex(stride, row, column) < |list|
    ensures Lookup(Written(list, stride, row, column, value), stride, r, c) ==
      if (r, c) == (row, column) then value else Lookup(list, stride, r, c)
  {
    if (r, c) != (row, column) {
      DistinctCells(stride, row, column, r, c);
    }
  }

  /** One cell past the grid in row-major order is the row-major size. */
  lemma CellBelowSize(stride: int, rows: int, row: int, column: int)
    requires stride > 0 && 0 <= row < rows && 0 <= column < stride
    ensures 0 <= FlatIndex(stride, row, column) < rows * stride
  {
    assert rows * stride == (rows - row - 1) * stride + row * stride + stride;
    assert (rows - row - 1) * stride >= 0;
  }

  /** The row-major concatenation of a grid. */
  function Flatten(grid: seq<seq<real>>): seq<real>
  {
    if grid == [] then [] else Flatten(grid[..|grid| - 1]) + grid[|grid| - 1]
  }

  ghost predicate IsGrid(grid: seq<seq<real>>, columns: int)
  {
    forall i :: 0 <= i < |grid| ==> |grid[i]| == columns
  }

  /** In the flattened grid, cell (i, j) sits at flat position i*columns+j. */
  lemma {:induction false} FlattenAt(grid: seq<seq<real>>, columns: int, i: int, j: int)
    requires columns >= 0 && IsGrid(grid, columns) && 0 <= i < |grid| && 0 <= j < columns
    ensures |Flatten(grid)| == |grid| * columns
    ensures 0 <= FlatIndex(columns, i, j) < |Flatten(grid)|
    ensures Flatten(grid)[FlatIndex(columns, i, j)] == grid[i][j]
  {
    FlattenLength(grid, columns);
    var n := |grid| - 1;
    FlattenLength(grid[..n], columns);
    assert Flatten(grid) == Flatten(grid[..n]) + grid[n];
    if i < n {
      FlattenAt(grid[..n], columns, i, j);
      assert FlatIndex(columns, i, j) < n * columns;
    } else {
      assert FlatIndex(columns, i, j) == n * columns + j;
    }
  }

  lemma {:induction false} FlattenLength(grid: seq<seq<real>>, columns: int)
    requires columns >= 0 && IsGrid(grid, columns)
    ensures |Flatten(grid)| == |grid| * columns
  {
    if grid != [] {
      FlattenLength(grid[..|grid| - 1], columns);
      assert |grid| * columns == (|grid| - 1) * columns + columns;
    }
  }

  /** The coefficient store of one process. Every mutator acts on the server
      only; on a client it leaves every field as it was. */
  class MatrixVisualizer {
    const isServer: bool
    var currentState: GameState
    var totalRows: int
    var totalColumns: int
    var coefficientList: seq<real>
    var solutionVector: seq<real>
    var augmentedVectorB: seq<real>

    function View(): Board
      reads this
    {
      Board(isServer, currentState, totalRows, totalColumns, coefficientList, solutionVector, augmentedVectorB)
    }

    /** A freshly spawned store; `currentState` holds the enum's first value. */
    constructor (isServer: bool)
      ensures View() == Board(isServer, SetRows, 0, 0, [], [], [])
    {
      this.isServer := isServer;
      currentState := SetRows;
      totalRows, totalColumns := 0, 0;
      coefficientList, solutionVector, augmentedVectorB := [], [], [];
    }

    method SetTotalRows(rows: int)
      modifies this
      ensures View() == WithRows(old(View()), rows)
    {
      if isServer {
        totalRows := rows;
      }
    }

    method SetTotalColumns(columns: int)
      modifies this
      ensures View() == WithColumns(old(View()), columns)
    {
      if isServer {
        totalColumns := columns;
        InitializeCoefficientList(totalRows, columns);
      }
    }

    method InitializeCoefficientList(rows: int, columns: int)
      modifies this
      ensures View() == WithZeros(old(View()), rows, columns)
    {
      if totalRows > 0 && totalColumns > 0 {
        var totalElements := rows * columns;
        var i := 0;
        while i < totalElements
          invariant 0 <= i <= (if totalElements < 0 then 0 else totalElements)
          invariant View() == old(View()).(coefficients := old(coefficientList) + Zeros(i))
        {
          coefficientList := coefficientList + [0.0];
          i := i + 1;
        }
        assert i == (if totalElements < 0 then 0 else totalElements);
        assert Zeros(i) == Zeros(totalElements);
      }
    }

    method SetCoefficient(rowIndex: int, columnIndex: int, value: real)
      modifies this
      ensures View() == WithCoefficient(old(View()), rowIndex, columnIndex, value)
    {
      if isServer {
        var index := rowIndex * totalColumns + columnIndex;
        if index >= 0 && index < |coefficientList| {
          coefficientList := coefficientList[index := value];
        }
      }
    }

    /** Clears the solution list, then appends the values one by one. */
    method SetSolutionVector(solution: seq<real>)
      modifies this
      ensures View() == WithSolution(old(View()), solution)
    {
      if isServer {
        solutionVector := [];
        for i := 0 to |solution|
          invariant View() == old(View()).(solution := solution[..i])
        {
          solutionVector := solutionVector + [solution[i]];
        }
      }
    }

    /** Clears the right-hand-side list, then appends the values one by one. */
    method SetAugmentedVectorB(resultVectorB: seq<real>)
      modifies this
      ensures View() == WithAugmented(old(View()), resultVectorB)
    {
      if isServer {
        augmentedVectorB := [];
        for i := 0 to |resultVectorB|
          invariant View() == old(View()).(augmented := resultVectorB[..i])
        {
          augmentedVectorB := augmentedVectorB + [resultVectorB[i]];
        }
      }
    }

    /** Stores the dimensions (server only) and allocates the rows x columns
        grid of display cells, which throws for a negative dimension. */
    method GenerateMatrix(rows: int, columns: int) returns (outcome: Outcome)
      modifies this
      ensures View() == Generated(old(View()), rows, columns)
      ensures outcome == if rows < 0 || columns < 0 then Faulted(NegativeSize) else Completed
    {
      SetTotalRows(rows);
      SetTotalColumns(columns);
      if rows < 0 || columns < 0 {
        return Faulted(NegativeSize);
      }
      return Completed;
    }

    method UpdateMatrixData(rowIndex: int, columnIndex: int, value: real)
      modifies this
      ensures View() == WithCoefficient(old(View()), rowIndex, columnIndex, value)
    {
      if isServer {
        SetCoefficient(rowIndex, columnIndex, value);
      }
    }

    /** GetCoefficient: never fails; 0 outside the list. There is no check of
        the row or the column on its own, only of the flat position. */
    function GetCoefficient(rowIndex: int, columnIndex: int): (v: real)
      reads this
      ensures 0 <= FlatIndex(totalColumns, rowIndex, columnIndex) < |coefficientList| ==>
        v == coefficientList[FlatIndex(totalColumns, rowIndex, columnIndex)]
      ensures !(0 <= FlatIndex(totalColumns, rowIndex, columnIndex) < |coefficientList|) ==> v == 0.0
    {
      Lookup(coefficientList, totalColumns, rowIndex, columnIndex)
    }

    /** The cell a change at `index` is shown in, with the value now stored
        there; None when the column count is 0 (division by zero). */
    function OnCoefficientListChanged(index: int): (update: Option<(int, int, real)>)
      reads this
      requires 0 <= index < |coefficientList|
      ensures update.Some? <==> totalColumns != 0
      ensures update.Some? ==> update.value.2 == coefficientList[index]
      ensures update.Some? && totalColumns > 0 ==>
        update.value.0 >= 0 && 0 <= update.value.1 < totalColumns &&
        FlatIndex(totalColumns, update.value.0, update.value.1) == index
    {
      match DecodeIndex(index, totalColumns)
      case None => None
      case Some((row, column)) =>
        if totalColumns > 0 then
          DecodeCoversPositions(index, totalColumns);
          Some((row, column, coefficientList[index]))
        else Some((row, column, coefficientList[index]))
    }
  }
}
