/** The client side of a round: the phase a pure client is in, the sliders it
    guesses with, the matrix it is shown, and the auto-guess option that
    re-submits the last broadcast average. */
module Client {
  import opened Common
  import opened Matrix
  import Server

  /** One guess slider: its range and its current value. */
  datatype Slider = Slider(minValue: real, maxValue: real, value: real)

  /** What a ClientControl holds, with the phase and the column count read
      from its MatrixVisualizer; `sliders` is None while the array is null. */
  datatype Panel = Panel(state: GameState, columns: int, sliders: Option<seq<Slider>>,
                         lastAverage: Option<seq<real>>, autoGuess: bool, guess: Option<seq<real>>)

  /** The panel after a handler, what it sent to the host, and whether it threw. */
  datatype Reaction = Reaction(panel: Panel, submitted: Option<seq<real>>, outcome: Outcome)

  /** n sliders as ActivateSliders creates them: range [-100, 100], value 0. */
  function FreshSliders(n: nat): seq<Slider>
  {
    seq(n, _ => Slider(-100.0, 100.0, 0.0))
  }

  /** The values the sliders show, in order. */
  function Values(sliders: seq<Slider>): seq<real>
  {
    seq(|sliders|, i requires 0 <= i < |sliders| => sliders[i].value)
  }

  /** The first k sliders take the values of `average`; the others keep theirs. */
  function SetValues(sliders: seq<Slider>, average: seq<real>, k: int): seq<Slider>
    requires k <= |average|
  {
    seq(|sliders|, i requires 0 <= i < |sliders| => if i < k then sliders[i].(value := average[i]) else sliders[i])
  }

  /** The grid a client displays: cell (i, j) from flat position i·columns + j. */
  function Shown(list: seq<real>, rows: nat, columns: nat): seq<seq<real>>
  {
    seq(rows, i requires 0 <= i < rows => seq(columns, j requires 0 <= j < columns => Lookup(list, columns, i, j)))
  }

  /** Whether the matrix set-up on a client throws: a negative dimension in
      the cell allocation, or a cell position past the end of the list. */
  function SetupOutcome(rows: int, columns: int, count: int): Outcome
  {
    if rows < 0 || columns < 0 then Faulted(NegativeSize)
    else if rows > 0 && columns > 0 && rows * columns > count then Faulted(IndexOutOfRange)
    else Completed
  }

  /** The confirm button. ViewingMatrix opens `columns` fresh sliders, which
      throws for a negative count before the phase changes; AdjustingSliders
      submits the slider values, which throws while the sliders are null;
      every other phase ignores the press. */
  function Click(p: Panel): Reaction
  {
    match p.state
    case ViewingMatrix =>
      if p.columns < 0 then Reaction(p, None, Faulted(NegativeSize))
      else Reaction(p.(sliders := Some(FreshSliders(p.columns)), state := AdjustingSliders), None, Completed)
    case AdjustingSliders =>
      if p.sliders.None? then Reaction(p, None, Faulted(NullReference))
      else
        var g := Values(p.sliders.value);
        Reaction(p.(guess := Some(g)), Some(g), Completed)
    case _ => Reaction(p, None, Completed)
  }

  /** The auto-guess: in AdjustingSliders with an average on record, slider i
      takes average[i]; an average shorter than the sliders throws after the
      sliders it covers were set. */
  function AutoGuess(p: Panel): Reaction
  {
    if p.state != AdjustingSliders || p.lastAverage.None? then Reaction(p, None, Completed)
    else if p.sliders.None? then Reaction(p, None, Faulted(NullReference))
    else
      var s := p.sliders.value;
      var average := p.lastAverage.value;
      if |average| < |s| then
        Reaction(p.(sliders := Some(SetValues(s, average, |average|))), None, Faulted(IndexOutOfRange))
      else Reaction(p.(sliders := Some(SetValues(s, average, |s|))), None, Completed)
  }

  /** A resolved round reaching the client: back to AdjustingSliders with the
      average on record; the per-slider display reads colors[i] and
      average[i]; with auto-guess on, the average is applied and confirmed. */
  function NewTurn(p: Panel, colors: seq<Server.Feedback>, average: seq<real>): Reaction
  {
    var p1 := p.(state := AdjustingSliders, lastAverage := Some(average));
    if p1.sliders.None? then Reaction(p1, None, Faulted(NullReference))
    else if |colors| < |p1.sliders.value| || |average| < |p1.sliders.value| then
      Reaction(p1, None, Faulted(IndexOutOfRange))
    else if !p1.autoGuess then Reaction(p1, None, Completed)
    else
      var a := AutoGuess(p1);
      if a.outcome.Faulted? then a else Click(a.panel)
  }

  // ---- properties ----

  /** Confirm in ViewingMatrix opens exactly `columns` sliders at 0 in
      [-100, 100] and moves to AdjustingSliders, submitting nothing. */
  lemma ConfirmOpensSliders(p: Panel)
    requires p.state == ViewingMatrix && p.columns >= 0
    ensures var r := Click(p);
      r.outcome == Completed && r.submitted.None? && r.panel.state == AdjustingSliders &&
      r.panel.sliders.Some? && |r.panel.sliders.value| == p.columns &&
      (forall i :: 0 <= i < p.columns ==> r.panel.sliders.value[i] == Slider(-100.0, 100.0, 0.0)) &&
      r.panel.lastAverage == p.lastAverage && r.panel.autoGuess == p.autoGuess
  {
  }

  /** Confirm in AdjustingSliders submits one guess, one entry per slider,
      each the slider's value, and leaves the phase and the sliders alone. */
  lemma ConfirmSubmitsSliders(p: Panel)
    requires p.state == AdjustingSliders && p.sliders.Some?
    ensures var r := Click(p);
      r.outcome == Completed && r.submitted.Some? &&
      |r.submitted.value| == |p.sliders.value| &&
      (forall i :: 0 <= i < |p.sliders.value| ==> r.submitted.value[i] == p.sliders.value[i].value) &&
      r.panel == p.(guess := r.submitted)
  {
  }

  /** The phases with no case in the switch ignore the button. */
  lemma ConfirmIgnoredElsewhere(p: Panel)
    requires p.state != ViewingMatrix && p.state != AdjustingSliders
    ensures Click(p) == Reaction(p, None, Completed)
  {
  }

  /** Two presses from ViewingMatrix submit the all-zero guess of length columns. */
  lemma FirstGuessIsZero(p: Panel)
    requires p.state == ViewingMatrix && p.columns >= 0
    ensures Click(Click(p).panel).submitted == Some(Zeros(p.columns))
  {
    var s := FreshSliders(p.columns);
    assert Values(s) == Zeros(p.columns);
  }

  /** The auto-guess changes nothing unless the phase is AdjustingSliders and
      an average is on record; then each slider it reaches takes the average's
      component and keeps its range, and it throws exactly when the sliders
      are null or outnumber the average's components. */
  lemma AutoGuessCopiesAverage(p: Panel)
    ensures var r := AutoGuess(p);
      r.submitted.None? &&
      (p.state != AdjustingSliders || p.lastAverage.None? ==> r == Reaction(p, None, Completed)) &&
      (p.state == AdjustingSliders && p.lastAverage.Some? && p.sliders.Some? ==>
         var s := p.sliders.value;
         var average := p.lastAverage.value;
         r.panel == p.(sliders := r.panel.sliders) && r.panel.sliders.Some? &&
         |r.panel.sliders.value| == |s| &&
         (forall i :: 0 <= i < |s| ==>
            r.panel.sliders.value[i].minValue == s[i].minValue &&
            r.panel.sliders.value[i].maxValue == s[i].maxValue &&
            r.panel.sliders.value[i].value == (if i < |average| then average[i] else s[i].value)) &&
         (r.outcome == Completed <==> |average| >= |s|))
  {
  }

  /** A round's broadcast always leaves the client in AdjustingSliders with
      the average on record, whatever it was doing; with auto-guess off it
      submits nothing. */
  lemma NewTurnReturnsToSliders(p: Panel, colors: seq<Server.Feedback>, average: seq<real>)
    ensures var r := NewTurn(p, colors, average);
      r.panel.state == AdjustingSliders && r.panel.lastAverage == Some(average) &&
      (!p.autoGuess ==> r.submitted.None? && r.panel.sliders == p.sliders)
  {
  }

  /** The broadcast also reaches the host's own ClientControl, whose sliders
      were never created: its phase is set to AdjustingSliders and the
      average recorded, then reading the first slider throws. */
  lemma HostPanelOnNewTurn(p: Panel, colors: seq<Server.Feedback>, average: seq<real>)
    requires p.sliders.None?
    ensures NewTurn(p, colors, average) ==
      Reaction(p.(state := AdjustingSliders, lastAverage := Some(average)), None, Faulted(NullReference))
  {
  }

  /** With auto-guess on and sliders no more than the broadcast components,
      the client submits exactly one guess: the average cut to the number of
      sliders, which the sliders now show. */
  lemma NewTurnAutoSubmitsAverage(p: Panel, colors: seq<Server.Feedback>, average: seq<real>)
    requires p.autoGuess && p.sliders.Some?
    requires |p.sliders.value| <= |colors| && |p.sliders.value| <= |average|
    ensures var r := NewTurn(p, colors, average);
      r.outcome == Completed && r.submitted == Some(average[..|p.sliders.value|]) &&
      r.panel.sliders.Some? && Values(r.panel.sliders.value) == average[..|p.sliders.value|] &&
      r.panel.state == AdjustingSliders && r.panel.lastAverage == Some(average)
  {
    var n := |p.sliders.value|;
    var s1 := SetValues(p.sliders.value, average, n);
    assert Values(s1) == average[..n];
  }

  /** With every client on auto-guess, a round in which each client submits
      the broadcast average resolves to that same average again, with the
      same colours: the auto-guess repeats the round rather than moving on. */
  lemma AutoGuessRoundRepeats(p: Panel, colors: seq<Server.Feedback>, average: seq<real>,
                                                 pending: seq<seq<real>>, connectedClients: int,
                                                 solution: seq<real>)
    requires p.autoGuess && p.sliders.Some?
    requires |p.sliders.value| == |average| && |colors| >= |average| && |solution| >= |average|
    requires |pending| + 1 == connectedClients - 1
    requires forall k :: 0 <= k < |pending| ==> pending[k] == average
    ensures var r := NewTurn(p, colors, average);
      r.submitted.Some? &&
      Server.Submit(pending, r.submitted.value, connectedClients, Some(solution)) ==
        Server.Collected([], Some(Server.RoundResult(Server.Classified(average, solution), average)), Completed)
  {
    NewTurnAutoSubmitsAverage(p, colors, average);
    assert average[..|average|] == average;
    var all := pending + [average];
    assert forall k :: 0 <= k < |all| ==> all[k] == average;
    Server.AgreeingGuessesAverageToThemselves(all, average);
  }

  /** Read through the row-major layout, a list that begins with the host's
      flattened grid shows exactly that grid. */
  lemma ShownAfterSetup(grid: seq<seq<real>>, rest: seq<real>, columns: nat)
    requires IsGrid(grid, columns)
    ensures Shown(Flatten(grid) + rest, |grid|, columns) == grid
  {
    var list := Flatten(grid) + rest;
    forall i | 0 <= i < |grid|
      ensures Shown(list, |grid|, columns)[i] == grid[i]
    {
      forall j | 0 <= j < columns
        ensures Lookup(list, columns, i, j) == grid[i][j]
      {
        FlattenAt(grid, columns, i, j);
      }
    }
  }

  /** A set-up that completes on a client reads only cells inside the list. */
  lemma SetupCompletesInRange(rows: int, columns: int, count: int, i: int, j: int)
    requires SetupOutcome(rows, columns, count) == Completed
    requires 0 <= i < rows && 0 <= j < columns
    ensures 0 <= FlatIndex(columns, i, j) < count
  {
    CellBelowSize(columns, rows, i, j);
  }

  // ---- the component ----

  class ClientControl {
    const mv: MatrixVisualizer
    var sliderCells: array?<Slider>
    var lastAverageGuess: Option<seq<real>>
    var autoGuessEveryTurn: bool
    var guessVector: Option<seq<real>>

    function Sliders(): Option<seq<Slider>>
      reads this, sliderCells
    {
      if sliderCells == null then None else Some(sliderCells[..])
    }

    function View(): Panel
      reads this, mv, sliderCells
    {
      Panel(mv.currentState, mv.totalColumns, Sliders(), lastAverageGuess, autoGuessEveryTurn, guessVector)
    }

    constructor (mv: MatrixVisualizer)
      ensures this.mv == mv && sliderCells == null && lastAverageGuess.None? && !autoGuessEveryTurn
      ensures guessVector.None?
    {
      this.mv := mv;
      sliderCells := null;
      lastAverageGuess := None;
      autoGuessEveryTurn := false;
      guessVector := None;
    }

    /** A pure client starts in Connecting; the host is left alone. */
    method OnNetworkSpawn()
      modifies mv`currentState
      ensures mv.currentState == if mv.isServer then old(mv.currentState) else Connecting
    {
      if !mv.isServer {
        mv.currentState := Connecting;
      }
    }

    /** The host's notice that the matrix is ready. On a client: the phase
        becomes ViewingMatrix, the list is copied, the cell grid is allocated
        (its dimensions are stored on the host only), and cell (i, j) shows
        the copy's entry i·columns + j. Returns the grid shown so far. */
    method OnMatrixSetupComplete() returns (shown: seq<seq<real>>, outcome: Outcome)
      modifies mv
      ensures mv.isServer ==> mv.View() == old(mv.View()) && shown == [] && outcome == Completed
      ensures !mv.isServer ==> mv.View() == old(mv.View()).(state := ViewingMatrix)
      ensures !mv.isServer ==> outcome == SetupOutcome(mv.totalRows, mv.totalColumns, |mv.coefficientList|)
      ensures !mv.isServer && outcome == Completed ==>
        mv.totalRows >= 0 && mv.totalColumns >= 0 && shown == Shown(mv.coefficientList, mv.totalRows, mv.totalColumns)
    {
      if mv.isServer {
        return [], Completed;
      }
      mv.currentState := ViewingMatrix;
      var resultArray := new real[|mv.coefficientList|];
      for i := 0 to |mv.coefficientList|
        modifies resultArray
        invariant resultArray[..i] == mv.coefficientList[..i]
      {
        resultArray[i] := mv.coefficientList[i];
      }
      assert resultArray[..] == mv.coefficientList;
      ClientMutatorsChangeNothing(mv.View(), 0, mv.totalRows, mv.totalColumns, 0.0, []);
      outcome := mv.GenerateMatrix(mv.totalRows, mv.totalColumns);
      shown := [];
      if outcome.Faulted? {
        return;
      }
      shown, outcome := ShowCells(resultArray, mv.totalRows, mv.totalColumns);
    }

    /** The display loop of OnMatrixSetupComplete: row by row, cell (i, j)
        shows values[i·columns + j]; a position past the end throws, leaving
        the rows shown before it. */
    method ShowCells(values: array<real>, rows: nat, columns: nat) returns (shown: seq<seq<real>>, outcome: Outcome)
      ensures outcome == SetupOutcome(rows, columns, values.Length)
      ensures outcome == Completed ==> shown == Shown(values[..], rows, columns)
    {
      shown := [];
      for i := 0 to rows
        invariant |shown| == i && i * columns <= values.Length
        invariant forall r :: 0 <= r < i ==> shown[r] == Shown(values[..], rows, columns)[r]
      {
        var line;
        line, outcome := ShowRow(values, i, columns);
        if outcome.Faulted? {
          assert rows * columns > values.Length by {
            CellBelowSize(columns, rows, i, columns - 1);
          }
          return;
        }
        assert line == Shown(values[..], rows, columns)[i];
        shown := shown + [line];
      }
      return shown, Completed;
    }

    /** One row of that loop: cells (i, 0), (i, 1), … in order. */
    method ShowRow(values: array<real>, i: nat, columns: nat) returns (line: seq<real>, outcome: Outcome)
      requires i * columns <= values.Length
      ensures outcome == if (i + 1) * columns <= values.Length then Completed else Faulted(IndexOutOfRange)
      ensures outcome == Completed ==>
        |line| == columns && forall c :: 0 <= c < columns ==> line[c] == Lookup(values[..], columns, i, c)
    {
      line := [];
      for j := 0 to columns
        invariant |line| == j && i * columns + j <= values.Length
        invariant forall c :: 0 <= c < j ==> line[c] == Lookup(values[..], columns, i, c)
      {
        var index := i * columns + j;
        if index >= values.Length {
          return line, Faulted(IndexOutOfRange);
        }
        line := line + [values[index]];
      }
      return line, Completed;
    }

    /** The confirm button; returns the guess sent to the host, if any. */
    method OnConfirmButtonClicked() returns (submitted: Option<seq<real>>, outcome: Outcome)
      modifies this, mv`currentState
      ensures Click(old(View())) == Reaction(View(), submitted, outcome)
      ensures lastAverageGuess == old(lastAverageGuess)
      ensures sliderCells != old(sliderCells) ==> fresh(sliderCells)
    {
      submitted := None;
      outcome := Completed;
      match mv.currentState
      case ViewingMatrix =>
        outcome := ActivateSliders();
        if outcome.Completed? {
          mv.currentState := AdjustingSliders;
        }
      case AdjustingSliders =>
        if sliderCells == null {
          outcome := Faulted(NullReference);
        } else {
          var guess := GetGuessVector();
          assert guess == Values(sliderCells[..]);
          guessVector := Some(guess);
          submitted := Some(guess);
        }
      case _ =>
    }

    /** Replaces the sliders by totalColumns fresh ones at 0 in [-100, 100];
        a negative count throws before anything changes. */
    method ActivateSliders() returns (outcome: Outcome)
      modifies this
      ensures outcome == if mv.totalColumns < 0 then Faulted(NegativeSize) else Completed
      ensures outcome.Faulted? ==> View() == old(View()) && sliderCells == old(sliderCells)
      ensures outcome.Completed? ==> fresh(sliderCells) && View() == old(View()).(sliders := Some(FreshSliders(mv.totalColumns)))
    {
      var numSliders := mv.totalColumns;
      if numSliders < 0 {
        return Faulted(NegativeSize);
      }
      var cells := new Slider[numSliders];
      for i := 0 to numSliders
        modifies cells
        invariant cells[..i] == FreshSliders(numSliders)[..i]
      {
        cells[i] := Slider(-100.0, 100.0, 0.0);
      }
      assert cells[..] == FreshSliders(numSliders);
      sliderCells := cells;
      return Completed;
    }

    /** Reads the slider values into a new guess array. */
    method GetGuessVector() returns (guess: seq<real>)
      requires sliderCells != null
      ensures |guess| == sliderCells.Length
      ensures forall i :: 0 <= i < sliderCells.Length ==> guess[i] == sliderCells[i].value
    {
      var vector := new real[sliderCells.Length];
      for i := 0 to sliderCells.Length
        invariant forall k :: 0 <= k < i ==> vector[k] == sliderCells[k].value
      {
        vector[i] := sliderCells[i].value;
      }
      return vector[..];
    }

    /** Copies the last broadcast average into the sliders, in the
        AdjustingSliders phase only. */
    method ApplyAutoGuess() returns (outcome: Outcome)
      modifies sliderCells
      ensures AutoGuess(old(View())) == Reaction(View(), None, outcome)
    {
      if mv.currentState == AdjustingSliders && lastAverageGuess.Some? {
        if sliderCells == null {
          return Faulted(NullReference);
        }
        var average := lastAverageGuess.value;
        for i := 0 to sliderCells.Length
          invariant i <= |average|
          invariant sliderCells[..] == SetValues(old(sliderCells[..]), average, i)
        {
          if i >= |average| {
            return Faulted(IndexOutOfRange);
          }
          sliderCells[i] := sliderCells[i].(value := average[i]);
        }
      }
      return Completed;
    }

    method SetAutoGuessToggle(autoGuessEnabled: bool)
      modifies this`autoGuessEveryTurn
      ensures autoGuessEveryTurn == autoGuessEnabled
    {
      autoGuessEveryTurn := autoGuessEnabled;
    }

    method OnAutoGuessToggleChanged(isOn: bool)
      modifies this`autoGuessEveryTurn
      ensures autoGuessEveryTurn == isOn
    {
      autoGuessEveryTurn := isOn;
    }

    /** The host's broadcast of a resolved round: colours and average. */
    method NewTurnUI(colorVector: seq<Server.Feedback>, averageGuess: seq<real>)
      returns (submitted: Option<seq<real>>, outcome: Outcome)
      modifies this, mv`currentState, sliderCells
      ensures NewTurn(old(View()), colorVector, averageGuess) == Reaction(View(), submitted, outcome)
    {
      mv.currentState := AdjustingSliders;
      lastAverageGuess := Some(averageGuess);
      submitted := None;
      if sliderCells == null {
        return None, Faulted(NullReference);
      }
      for i := 0 to sliderCells.Length
        invariant i <= |colorVector| && i <= |averageGuess|
      {
        if i >= |colorVector| || i >= |averageGuess| {
          return None, Faulted(IndexOutOfRange);
        }
      }
      outcome := Completed;
      if autoGuessEveryTurn {
        outcome := ApplyAutoGuess();
        if outcome.Faulted? {
          return;
        }
        submitted, outcome := OnConfirmButtonClicked();
      }
    }
  }
}
