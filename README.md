# DistributedLinearSolver: a Dafny model of the host wizard, the coefficient store and the client phases

DistributedLinearSolver is a Unity game played over Netcode. A host types in a
linear system A·x = b cell by cell. Connected clients are shown A and b, and
each one guesses x with one slider per unknown. When every client has sent a
guess, the host averages the guesses component by component. It grades each
component of the average against the true solution as exact, close (off by
at most 10) or far, and broadcasts the colours and the average. With
auto-guess on, a client copies the broadcast average back into its sliders
and submits it again.

The model has four modules, one file each.

- `Common` (`common.dfy`): an option type, and the .NET exceptions that can
  abort a handler part-way (`Fault`, `Outcome`). It also holds C#'s
  truncating integer `/` and `%`, and `Mathf.Abs`.
- `Matrix` (`matrix_visualizer.dfy`): `MatrixVisualizer`, the replicated
  store. It holds the dimensions, the row-major coefficient list, the
  solution list and b.
  - `Board` is its value.
  - `WithRows`, `WithColumns`, `WithZeros`, `WithCoefficient`,
    `WithSolution`, `WithAugmented` and `Generated` are pure functions that
    specify the host-only mutators.
  - The class `Matrix.MatrixVisualizer` keeps the source's fields. Its
    methods change them in place and are proved to match those functions.
- `Server` (`server_control.dfy`): `ServerControl`, the host.
  - `Confirm` is one press of the confirm button in the setup wizard
    (SetRows → SetColumns → SetCoefficients → SetSolution → ConfirmSetup →
    StartGame). `Run` is a sequence of presses.
  - `AugmentedB` is the computation of b.
  - `Submit` is one incoming guess, and `SubmitAll` is several.
  - The class `Server.ServerControl` keeps the source's fields: the cursor,
    the `solutionVector` array and the `clientGuesses` list. Each handler
    is proved equal to the pure step.
- `Client` (`client_control.dfy`): `ClientControl`, one player.
  - `Panel` is its value. `Click` is the confirm button, `AutoGuess` is the
    auto-guess, and `NewTurn` is a resolved round's broadcast.
  - The class `Client.ClientControl` keeps `sliderCells` as an array of
    sliders, plus `lastAverageGuess`, `autoGuessEveryTurn` and
    `guessVector`.

Modelling choices:

- `float` is `real`.
- The input field's text enters as the pair of results that `int.TryParse`
  and `float.TryParse` give for it (`Server.Input`). A failed
  `int.TryParse` still zeroes its `out` field, as in C#.
- `IsServer` is the `isServer` flag of the process's `MatrixVisualizer`.
- Remote procedure calls are direct calls.
  - A host handler returns what it broadcasts. `OnConfirmInput` returns
    `matrixReady`, and `CompareGuess` returns the `RoundResult`.
  - A client handler takes that broadcast as parameters and returns the
    guess it sends to the host.
  - `NetworkManager.Singleton.ConnectedClients.Count` is the parameter
    `connectedClients`.
- An exception is an `Outcome.Faulted`. Everything the handler changed
  before the throw stays changed. For example:
  - A negative column count reaches `new float[totalColumns]` after the
    phase has already become SetSolution.
  - A negative row count makes the allocation of b throw.
  - With zero columns, the SetSolution phase writes into an empty array on
    every press and never leaves that phase.

The model follows the code in a few places where a natural reading of the
game would differ:

- Dimensions are not checked for positivity. Zero and negative counts
  advance the wizard (`Server.DimensionsAlwaysAdvance`).
- The host's coefficient list is filled with zeros twice, so it holds
  2·rows·columns entries (`Server.ColumnsStepDoublesList`). Only the first
  rows·columns are ever written or shown.
- A round resolves only when the list length equals the client count less
  one. Once it is past that count it never resolves
  (`Server.OvershootNeverResolves`).
- Submissions are counted by list length, not per client. A second press in
  AdjustingSliders submits again, because the phase does not change.
- After a round a client goes back to AdjustingSliders, not ViewingMatrix
  (`Client.NewTurnReturnsToSliders`). `CompareGuess` sets the host's phase
  to ViewingMatrix, but the round's broadcast also runs on the host's own
  ClientControl. That object has no sliders, so `NewTurnUI` sets the shared
  phase to AdjustingSliders and then throws (`Client.HostPanelOnNewTurn`).
  The host's confirm button has no case for either phase.
- With auto-guess on everywhere, every later round repeats the previous
  average and colours (`Client.AutoGuessRoundRepeats`).

## Model

| member | source | states |
|---|---|---|
| Matrix.Zeros | Assets/MatrixVisualizer.cs:84-88 | the appended block has exactly max(n, 0) entries, all 0 |
| Matrix.Written | Assets/MatrixVisualizer.cs:96-100 | the bounds-checked write keeps the length, changes only position row·columns+column, and is a no-op outside the list |
| Matrix.WithZeros | Assets/MatrixVisualizer.cs:79-90 | InitializeCoefficientList appends rows·columns zeros when both stored dimensions are positive, otherwise changes nothing; existing entries are never cleared |
| Matrix.ClientMutatorsChangeNothing | Assets/MatrixVisualizer.cs:62-126 | off the server SetTotalRows, SetTotalColumns, GenerateMatrix, SetCoefficient, SetSolutionVector and SetAugmentedVectorB leave the board as it was |
| Matrix.ColumnsThenGenerate | Assets/MatrixVisualizer.cs:128-132 | on the server, storing the column count and then GenerateMatrix with the same dimensions appends the rows·columns zeros twice |
| Matrix.DecodeInverts | Assets/MatrixVisualizer.cs:214-219 | for columns > 0 and 0 ≤ column < columns, the change handler decodes position row·columns+column back to (row, column) |
| Matrix.DecodeCoversPositions | Assets/MatrixVisualizer.cs:217-218 | every non-negative position k decodes to (k / columns, k % columns): a row ≥ 0 and a column in [0, columns) whose flat position is k |
| Matrix.DistinctCells | Assets/MatrixVisualizer.cs:96 | distinct cells of a grid with positive row length have distinct flat positions |
| Matrix.ReadAfterWrite | Assets/MatrixVisualizer.cs:92-102 | GetCoefficient after SetCoefficient at an in-range cell reads the value written; every other cell reads what it read before |
| Matrix.FlattenAt | Assets/MatrixVisualizer.cs:96 | in a row-major list of a grid, cell (i, j) sits at position i·columns + j |
| Matrix.MatrixVisualizer.constructor | Assets/MatrixVisualizer.cs:20-26 | a new store is in the first phase with zero dimensions and empty lists |
| Matrix.MatrixVisualizer.SetTotalRows | Assets/MatrixVisualizer.cs:62-68 | the row count is stored on the server only |
| Matrix.MatrixVisualizer.SetTotalColumns | Assets/MatrixVisualizer.cs:70-77 | the column count is stored and the list extended with zeros, on the server only |
| Matrix.MatrixVisualizer.InitializeCoefficientList | Assets/MatrixVisualizer.cs:79-90 | the append loop leaves the list equal to the old list followed by rows·columns zeros exactly when the stored dimensions are positive |
| Matrix.MatrixVisualizer.SetCoefficient | Assets/MatrixVisualizer.cs:92-102 | the server writes the flat position when it lies in the list; nothing else changes |
| Matrix.MatrixVisualizer.SetSolutionVector | Assets/MatrixVisualizer.cs:104-114 | clear-then-append leaves the solution list equal to the argument, on the server only |
| Matrix.MatrixVisualizer.SetAugmentedVectorB | Assets/MatrixVisualizer.cs:116-126 | clear-then-append leaves b equal to the argument, on the server only |
| Matrix.MatrixVisualizer.GenerateMatrix | Assets/MatrixVisualizer.cs:128-152 | stores both dimensions through the two setters; allocating the cell grid throws for a negative dimension |
| Matrix.MatrixVisualizer.UpdateMatrixData | Assets/MatrixVisualizer.cs:172-182 | the same effect as SetCoefficient, on the server only |
| Matrix.MatrixVisualizer.GetCoefficient | Assets/MatrixVisualizer.cs:222-230 | returns the entry at row·columns+column when that position lies in the list and 0 otherwise; it never fails and does not check row or column on their own |
| Matrix.MatrixVisualizer.OnCoefficientListChanged | Assets/MatrixVisualizer.cs:214-220 | a change is shown with the value now stored at its position; it fails exactly when the column count is 0; with positive columns the decoded cell encodes back to the position |
| Server.ServerControl.constructor | Assets/ServerControl.cs:16-21 | a new host has zero dimensions and cursor, no solution array and no pending guesses |
| Server.ServerControl.OnNetworkSpawn | Assets/ServerControl.cs:25-43 | on the server the phase becomes SetRows; elsewhere nothing changes |
| Server.ServerControl.OnConfirmInput | Assets/ServerControl.cs:62-163 | one press moves the host's fields, the board and the solution array exactly as the step function Confirm does, with the same fault and the same "matrix ready" broadcast; the pending guesses are untouched |
| Server.ServerControl.EnterCoefficient | Assets/ServerControl.cs:98-128 | a parsed coefficient is stored at the cursor, the cursor advances row-major, and past the last row the phase becomes SetSolution with a zeroed solution array of totalColumns values |
| Server.ServerControl.EnterSolutionValue | Assets/ServerControl.cs:130-152 | a parsed value is stored at the column cursor; after the last column b is computed, the solution published and the phase set to ConfirmSetup |
| Server.ServerControl.CalculateAugmentedVectorB | Assets/ServerControl.cs:178-190 | b has totalRows entries with b[i] = Σ_{j<totalColumns} GetCoefficient(i, j)·x[j], published to the store; a negative row count throws before anything changes |
| Server.ServerControl.AccumulateRow | Assets/ServerControl.cs:182-187 | the inner loop leaves b[i] equal to the row sum and every other entry of b as it was |
| Server.ServerControl.CompareGuess | Assets/ServerControl.cs:197-244 | the guess is always appended; the round can resolve only when the list size equals connectedClients − 1, and then throws for a short guess or a missing or short solution; resolving sets the host phase to ViewingMatrix, broadcasts the colours and the average, and empties the list |
| Server.InvalidInputKeepsPhaseAndCursor | Assets/ServerControl.cs:67-152 | text the phase's parser rejects leaves the phase, the cursor, the solution and the board unchanged, and only zeroes the count a failed int.TryParse targeted |
| Server.DimensionsAlwaysAdvance | Assets/ServerControl.cs:67-96 | any parsed integer, zero and negatives included, moves SetRows to SetColumns and SetColumns to SetCoefficients with the cursor at (0, 0) |
| Server.ColumnsStepDoublesList | Assets/ServerControl.cs:81-91 | after the SetColumns step on a fresh host the coefficient list holds 2·rows·columns zeros |
| Server.CoefficientStep | Assets/ServerControl.cs:98-110 | a coefficient lands at flat position row·totalColumns+column and the cursor moves one cell on, wrapping to (row+1, 0) at totalColumns |
| Server.CoefficientAdvance | Assets/ServerControl.cs:98-122 | from flat position p, one coefficient moves the cursor to p + 1, or after the last cell into SetSolution with a zero solution |
| Server.CoefficientPhase | Assets/ServerControl.cs:98-128 | with positive dimensions, exactly the remaining rows·columns − p coefficients fill positions p, p+1, … in order and end in SetSolution with column cursor 0 |
| Server.SolutionPhase | Assets/ServerControl.cs:130-152 | exactly the remaining totalColumns − k values fill the solution in order; then b is computed from it, the solution is published and the phase is ConfirmSetup |
| Server.ConfirmAfterSetup | Assets/ServerControl.cs:154-163 | ConfirmSetup moves to StartGame unconditionally; StartGame only broadcasts "matrix ready"; the client-side phases are left alone |
| Server.CursorStaysNonNegative | Assets/ServerControl.cs:98-134 | any sequence of presses from a non-negative cursor keeps it non-negative |
| Server.RowSumIsDot | Assets/ServerControl.cs:183-186 | read through GetCoefficient, a list beginning with the flattened grid makes the row sum the dot product of grid row i with x |
| Server.AugmentedIsMatVec | Assets/ServerControl.cs:178-190 | the computed b is A·x for the matrix the coefficient list stores |
| Server.SetupBuildsSystem | Assets/ServerControl.cs:62-152 | rows, columns, the rows·columns coefficients and the solution typed on a fresh host leave it in ConfirmSetup holding A (followed by the second block of zeros), x, and b = A·x |
| Server.Classify | Assets/ServerControl.cs:221-233 | exact iff the component equals the solution's, close iff 0 < difference ≤ 10, far iff difference > 10 |
| Server.GradeFault | Assets/ServerControl.cs:219-221 | grading throws iff there is at least one component and the solution array is null or shorter; the fault is NullReference iff the array is null, and IndexOutOfRange iff it is present but shorter |
| Server.AverageGuesses | Assets/ServerControl.cs:206-215 | the nested loop completes iff every pending guess has at least as many components as the new guess, and then yields Σ_k guesses[k][i] / count for each component i |
| Server.GradeAverage | Assets/ServerControl.cs:218-234 | the grading loop throws as GradeFault says, and otherwise classifies each component of the average against the same component of the solution |
| Server.FullRoundResolvesOnce | Assets/ServerControl.cs:200-242 | when the pending and new guesses make exactly one per client, the round resolves once, at the last submission, and leaves the list empty |
| Server.OvershootNeverResolves | Assets/ServerControl.cs:203 | once the list has reached connectedClients − 1, no further submission resolves and every guess stays pending |
| Server.AgreeingGuessesAverageToThemselves | Assets/ServerControl.cs:206-215 | when every client submits the same guess the average is that guess |
| Server.AverageWithinBounds | Assets/ServerControl.cs:206-215 | each component of the average lies between the least and the greatest submitted value of that component |
| Client.ConfirmOpensSliders | Assets/ClientControl.cs:99-104 | confirm in ViewingMatrix creates exactly totalColumns sliders at 0 in [-100, 100], moves to AdjustingSliders and submits nothing |
| Client.ConfirmSubmitsSliders | Assets/ClientControl.cs:106-111 | confirm in AdjustingSliders submits one guess with one entry per slider, each the slider's value, and leaves phase and sliders as they were |
| Client.ConfirmIgnoredElsewhere | Assets/ClientControl.cs:97-113 | every other phase ignores the button |
| Client.FirstGuessIsZero | Assets/ClientControl.cs:197-199 | two presses from ViewingMatrix submit the all-zero guess of length totalColumns |
| Client.AutoGuessCopiesAverage | Assets/ClientControl.cs:129-139 | the auto-guess acts only in AdjustingSliders with an average on record; it sets slider i to average[i] and keeps its range, and throws exactly when the sliders outnumber the average's components |
| Client.NewTurnReturnsToSliders | Assets/ClientControl.cs:256-259 | a broadcast round always leaves the client in AdjustingSliders with the average on record; with auto-guess off nothing is submitted and the sliders are untouched |
| Client.HostPanelOnNewTurn | Assets/ClientControl.cs:256-265 | on a ClientControl whose sliders were never created, such as the host's own, the broadcast sets the phase to AdjustingSliders and records the average, then throws NullReference and submits nothing |
| Client.NewTurnAutoSubmitsAverage | Assets/ClientControl.cs:288-293 | with auto-guess on, the client submits exactly one guess, the average cut to the slider count, which the sliders now show |
| Client.AutoGuessRoundRepeats | Assets/ClientControl.cs:288-293 | when every client auto-guesses, the next round resolves to the same average and the same colours |
| Client.ShownAfterSetup | Assets/ClientControl.cs:80-87 | a coefficient list that begins with the host's flattened grid is shown as exactly that grid |
| Client.SetupCompletesInRange | Assets/ClientControl.cs:80-86 | when the display completes, every cell it reads lies inside the copied list |
| Client.ClientControl.constructor | Assets/ClientControl.cs:19-27 | a new client has no sliders, no average on record and auto-guess off |
| Client.ClientControl.OnNetworkSpawn | Assets/ClientControl.cs:35-45 | a pure client starts in Connecting; the host is left alone |
| Client.ClientControl.OnMatrixSetupComplete | Assets/ClientControl.cs:47-93 | a no-op on the host; on a client the phase becomes ViewingMatrix, a negative dimension or a cell past the end of the list throws, and otherwise cell (i, j) shows coefficientList[i·columns + j] |
| Client.ClientControl.ShowCells | Assets/ClientControl.cs:80-87 | the display loop throws iff a cell position falls past the list, and otherwise shows the whole rows × columns grid |
| Client.ClientControl.ShowRow | Assets/ClientControl.cs:82-86 | one row shows cells (i, 0), (i, 1), … in order, and throws iff the row ends past the list |
| Client.ClientControl.OnConfirmButtonClicked | Assets/ClientControl.cs:95-114 | the button acts exactly as Click: it opens sliders in ViewingMatrix, submits the slider values in AdjustingSliders, and otherwise does nothing |
| Client.ClientControl.ActivateSliders | Assets/ClientControl.cs:185-230 | totalColumns fresh sliders at 0 in [-100, 100] replace the old ones; a negative count throws before anything changes |
| Client.ClientControl.GetGuessVector | Assets/ClientControl.cs:232-241 | the guess has one entry per slider, each the slider's value |
| Client.ClientControl.ApplyAutoGuess | Assets/ClientControl.cs:129-139 | the sliders change exactly as AutoGuess says |
| Client.ClientControl.SetAutoGuessToggle | Assets/ClientControl.cs:170-174 | afterwards autoGuessEveryTurn equals the argument |
| Client.ClientControl.OnAutoGuessToggleChanged | Assets/ClientControl.cs:123-127 | afterwards autoGuessEveryTurn equals the argument |
| Client.ClientControl.NewTurnUI | Assets/ClientControl.cs:256-296 | the handler acts exactly as NewTurn: back to AdjustingSliders with the average on record, and with auto-guess on the average is applied and submitted |

## Left out

- Unity user interface: prefabs, cell and slider objects, grid layout, slider
  handle colours, the average indicator (Assets/ClientControl.cs:268-285),
  prompts, `UpdateCellValue` text, `"F2"` formatting, and
  `DisplayClientView`/`DisableServerViewControls`. `ShowCells` returns the
  grid of values a client would display instead of setting cell text.
- The display of b on a client (`UpdateAugmentedMatrix`, and
  `OnAugmentedVectorBChanged`). It only creates UI objects.
- Netcode replication. NetworkVariable and NetworkList propagation,
  `[ServerRpc]`/`[ClientRpc]` delivery and `FindObjectOfType` are left out.
  Each process's `MatrixVisualizer` is one object, and an RPC is a direct
  call with the broadcast values as arguments.
- Concurrency and message ordering. Every handler runs to completion, one
  at a time.
- IEEE single-precision rounding. Floats are `real`.
- Unity's clamping of a slider value to its range. `ApplyAutoGuess` stores
  the average's component as it is.
- User drags of a slider and typing in a slider's input field. These are
  UI callbacks (Assets/ClientControl.cs:215-228). The slider array is state
  they may change, and the model reads whatever it holds.
- `int.TryParse` and `float.TryParse` on text. The model takes their results
  as `Server.Input`.
- 32-bit overflow of `rows * columns` and of the flat index. Integers are
  unbounded.
- The commented-out `AutoGuessUsingAlgorithm` and its unused fields
  (`neighbors`, `neighborGuesses`, `currentGuess`, `projectionParameter`),
  `UpdateSliderWithGuess`, `OnAutoGuessButtonClicked`, and the empty change
  handlers.
- The host's toggle fan-out (`OnAutoGuessAllClientsToggleChanged` and
  `NotifyClientsAutoGuessChangedClientRpc`, Assets/ServerControl.cs:44-60).
  It reaches each client as a `SetAutoGuessToggle` call.
- The composition of the host's `CompareGuess` with the delivery of its
  broadcast to the host's own ClientControl. Each half is modelled
  (`Server.ServerControl.CompareGuess`, `Client.HostPanelOnNewTurn`), but no
  lemma follows the host's shared phase through both.
- The null check in `NotifyClientsNewTurnUIClientRpc`. Sequences are never
  null.
- `Debug.Log` and `Debug.LogError`.
- The `clientId` parameter of `CompareGuess`. The method never reads it.
- Client.ClientControl.OnMatrixSetupComplete: the copy into `resultArray`
  is made before `GenerateMatrix`, as in the source. On a client
  `GenerateMatrix` changes no replicated field, so the copy and the list
  agree.
