/** `APCMiniMK2Manager` of src/midi/APCMiniMK2Manager.ts: the registry maps and
    the fader arrays as fields, updated in place. Each method is proved against
    the function of ApcSurface that describes it, through `State()`. Outgoing
    MIDI messages are returned instead of sent; `rnd` stands for
    `Math.random()` and `rand` for `UniformRandom.rand`. */
module ApcManager {
  import opened Wrappers
  import opened ApcSurface
  import MidiConfig

  /** Writing one more entry after a merge is a merge with the extended map. */
  lemma UpdateAfterMerge<K, V>(a: map<K, V>, b: map<K, V>, k: K, v: V)
    ensures (a + b)[k := v] == a + b[k := v]
  {
  }

  class APCMiniMK2Manager {
    const faderValues: array<real>
    const faderButtonToggleState: array<bool>
    var currentPageIndex: int
    var faderButtonMode: FaderButtonMode
    var cellRegistry: map<CellId, RegisteredCell>
    var inputValues: map<string, InputValue>
    var buttonConfigs: map<string, ButtonConfig>
    var momentaryState: map<string, bool>
    /** `LED_PALETTE` and `PAGE_LED_PALETTE`. */
    const palette: LedPalette

    /** The whole state as a value. */
    function State(): Surface
      reads this, faderValues, faderButtonToggleState
    {
      Surface(faderValues[..], faderButtonToggleState[..], currentPageIndex, faderButtonMode,
              cellRegistry, inputValues, buttonConfigs, momentaryState)
    }

    ghost predicate Valid()
      reads this, faderValues, faderButtonToggleState
    {
      ApcSurface.Valid(State()) && ValidPalette(palette)
    }

    constructor (palette: LedPalette)
      requires ValidPalette(palette)
      ensures Valid() && fresh(faderValues) && fresh(faderButtonToggleState)
      ensures State() == Initial(MidiConfig.FADER_BUTTON_MODE) && this.palette == palette
    {
      this.palette := palette;
      faderValues := new real[FADER_COUNT](_ => 0.0);
      faderButtonToggleState := new bool[FADER_COUNT](_ => false);
      currentPageIndex := 0;
      faderButtonMode := MidiConfig.FADER_BUTTON_MODE;
      cellRegistry := map[];
      inputValues := map[];
      buttonConfigs := map[];
      momentaryState := map[];
      new;
      assert faderValues[..] == seq(FADER_COUNT, _ => 0.0);
      assert faderButtonToggleState[..] == seq(FADER_COUNT, _ => false);
    }

    // -------------------------------------------------------------------
    // Registration
    // -------------------------------------------------------------------

    /** `registerButton(config)`; the thrown error is returned as `Fail`. */
    method RegisterButton(config: ButtonConfig) returns (outcome: Outcome<RegistrationError>)
      requires Valid()
      modifies this
      ensures Valid()
      ensures Register(old(State()), palette, config).Failure? ==>
                outcome == Fail(Register(old(State()), palette, config).error) && State() == old(State())
      ensures Register(old(State()), palette, config).Success? ==>
                outcome == Pass && State() == Register(old(State()), palette, config).value
    {
      var taken := FindTakenCell(config.cells);
      if taken.Some? {
        var cell := config.cells[taken.value];
        var existing := cellRegistry[CellId(cell.page.GetOr(0), cell.row, cell.col)];
        return Fail(CellTaken(cell.page.GetOr(0), cell.row, cell.col, existing.key, config.key));
      }
      StoreButton(config);
      return Pass;
    }

    /** What `registerButton` writes once no cell is taken: the cell bindings,
        the config and the default value. */
    method StoreButton(config: ButtonConfig)
      requires Valid()
      modifies this
      ensures Valid()
      ensures State() == Bind(old(State()), palette, config)
    {
      BindCells(config);
      buttonConfigs := buttonConfigs[config.key := config];
      SetDefaultValue(config);
    }

    /** The default-value switch of `registerButton`. */
    method SetDefaultValue(config: ButtonConfig)
      modifies this`inputValues, this`momentaryState
      ensures inputValues == old(inputValues)[config.key := SeedValue(config)]
      ensures momentaryState == if config.defaultValue.None? && config.inputType == Momentary
                                then old(momentaryState)[config.key := false] else old(momentaryState)
    {
      match config.defaultValue {
        case Some(v) =>
          inputValues := inputValues[config.key := v];
        case None =>
          match config.inputType {
            case Radio =>
              inputValues := inputValues[config.key := Number(0)];
            case Toggle =>
              inputValues := inputValues[config.key := Bool(false)];
            case Oneshot =>
              inputValues := inputValues[config.key := Bool(false)];
            case Momentary =>
              inputValues := inputValues[config.key := Bool(false)];
              momentaryState := momentaryState[config.key := false];
            case Random =>
              // A random button holds no value of its own; it acts as a trigger.
              inputValues := inputValues[config.key := Bool(false)];
          }
      }
    }

    /** The duplicate check of `registerButton`: the first listed cell that is
        already bound, checked before anything is written. */
    method FindTakenCell(cells: seq<CellPosition>) returns (taken: Option<nat>)
      ensures taken == FirstTaken(cellRegistry, CellKeyList(cells), 0)
    {
      ghost var keys := CellKeyList(cells);
      var cellIndex := 0;
      while cellIndex < |cells|
        invariant 0 <= cellIndex <= |cells|
        invariant forall j :: 0 <= j < cellIndex ==> keys[j] !in cellRegistry
      {
        var cell := cells[cellIndex];
        var cellKey := CellId(cell.page.GetOr(0), cell.row, cell.col);
        if cellKey in cellRegistry {
          return Some(cellIndex);
        }
        cellIndex := cellIndex + 1;
      }
      return None;
    }

    /** The registration loop of `registerButton`: binds every cell in order,
        so a cell listed twice keeps its later index. */
    method BindCells(config: ButtonConfig)
      modifies this`cellRegistry
      ensures cellRegistry == old(cellRegistry) + CellEntries(config, palette, CellKeyList(config.cells), |config.cells|)
    {
      ghost var keys := CellKeyList(config.cells);
      var cellIndex := 0;
      while cellIndex < |config.cells|
        invariant 0 <= cellIndex <= |config.cells|
        invariant cellRegistry == old(cellRegistry) + CellEntries(config, palette, keys, cellIndex)
      {
        var cell := config.cells[cellIndex];
        var cellKey := CellId(cell.page.GetOr(0), cell.row, cell.col);
        var registeredCell := RegisteredCell(config.key, config.inputType, cellIndex,
                                             config.activeColor.GetOr(palette.on),
                                             config.inactiveColor.GetOr(palette.dim));
        ghost var entries := CellEntries(config, palette, keys, cellIndex);
        assert cellKey == keys[cellIndex] && registeredCell == CellRecord(config, palette, cellIndex);
        UpdateAfterMerge(old(cellRegistry), entries, cellKey, registeredCell);
        cellRegistry := cellRegistry[cellKey := registeredCell];
        cellIndex := cellIndex + 1;
      }
    }

    /** `registerButtons(configs)`: the first throw ends the loop and is returned. */
    method RegisterButtons(configs: seq<ButtonConfig>) returns (outcome: Outcome<RegistrationError>)
      requires Valid()
      modifies this
      ensures Valid()
      ensures State() == RegisterAll(old(State()), palette, configs).0
      ensures outcome == if RegisterAll(old(State()), palette, configs).1.None? then Pass
                         else Fail(RegisterAll(old(State()), palette, configs).1.value)
    {
      var i := 0;
      while i < |configs|
        invariant 0 <= i <= |configs| && Valid()
        invariant RegisterAll(old(State()), palette, configs) == RegisterAll(State(), palette, configs[i..])
      {
        assert configs[i..][0] == configs[i] && configs[i..][1..] == configs[i + 1..];
        outcome := RegisterButton(configs[i]);
        if outcome.Fail? {
          return;
        }
        i := i + 1;
      }
      return Pass;
    }

    /** `init()` after the MIDI connection is up: registers the configured
        buttons when there are any (MidiConfig.MIDI_BUTTON_CONFIGS). */
    method Init(configs: seq<ButtonConfig>) returns (outcome: Outcome<RegistrationError>)
      requires Valid()
      modifies this
      ensures Valid()
      ensures State() == RegisterAll(old(State()), palette, configs).0
      ensures outcome == if RegisterAll(old(State()), palette, configs).1.None? then Pass
                         else Fail(RegisterAll(old(State()), palette, configs).1.value)
    {
      outcome := Pass;
      if |configs| > 0 {
        outcome := RegisterButtons(configs);
      }
    }

    // -------------------------------------------------------------------
    // Per-frame update
    // -------------------------------------------------------------------

    /** `update(beat)`: resets oneshots, gates faders, and returns the LED messages. */
    method Update(beat: real, rand: (int, int) -> real) returns (leds: seq<MidiMessage>)
      requires Valid()
      modifies this, faderValues
      ensures Valid()
      ensures State() == ApcSurface.Update(old(State()), beat, rand)
      ensures leds == SendControls(State(), palette)
    {
      ResetOneshotValues();
      UpdateFaderButtonEffects(beat, rand);
      leds := MidiOutputSendControls();
    }

    /** `resetOneshotValues`: a pass over the configured keys. */
    method ResetOneshotValues()
      requires Valid()
      modifies this
      ensures Valid()
      ensures State() == ApcSurface.ResetOneshotValues(old(State()))
    {
      var pending := buttonConfigs.Keys;
      while pending != {}
        modifies this`inputValues
        invariant pending <= buttonConfigs.Keys
        invariant inputValues.Keys == old(inputValues).Keys
        invariant forall k :: k in inputValues ==>
          inputValues[k] == if k !in pending && buttonConfigs[k].inputType == Oneshot then Bool(false)
                            else old(inputValues)[k]
        decreases pending
      {
        var key :| key in pending;
        if buttonConfigs[key].inputType == Oneshot {
          inputValues := inputValues[key := Bool(false)];
        }
        pending := pending - {key};
      }
    }

    /** `updateFaderButtonEffects(beat)`: the loop stops before fader 8. */
    method UpdateFaderButtonEffects(beat: real, rand: (int, int) -> real)
      requires Valid()
      modifies faderValues
      ensures Valid()
      ensures State() == ApcSurface.UpdateFaderButtonEffects(old(State()), beat, rand)
    {
      ghost var s0 := State();
      for col := 0 to 8
        invariant forall c :: 0 <= c < col ==> faderValues[c] == GatedFader(s0, beat, rand, c)
        invariant forall c :: col <= c < FADER_COUNT ==> faderValues[c] == old(faderValues[c])
      {
        if !faderButtonToggleState[col] {
          continue;
        }
        if faderButtonMode == RandomGate {
          faderValues[col] := if rand(beat.Floor, col) < 0.5 then 0.0 else 1.0;
        } else if faderButtonMode == Mute {
          faderValues[col] := 0.0;
        }
      }
      assert faderValues[..] == ApcSurface.UpdateFaderButtonEffects(s0, beat, rand).faderValues;
    }

    // -------------------------------------------------------------------
    // Incoming messages
    // -------------------------------------------------------------------

    /** `handleMIDIMessage`: one received message, `[status, data1, data2]`. */
    method HandleMidiMessage(statusByte: StatusByte, dataByte1: DataByte, dataByte2: DataByte, rnd: real)
      requires Valid() && 0.0 <= rnd < 1.0
      modifies this, faderValues, faderButtonToggleState
      ensures Valid()
      ensures State() == ApcSurface.HandleMidiMessage(old(State()), statusByte, dataByte1, dataByte2, rnd)
    {
      var noteNumber := dataByte1;
      var velocity := dataByte2;
      HandleFaderButton(statusByte, noteNumber, velocity);
      HandleSideButton(statusByte, noteNumber, velocity);
      HandleGridPad(statusByte, noteNumber, velocity, rnd);
      HandleFaderControlChange(statusByte, noteNumber, velocity);
    }

    method HandleFaderButton(statusByte: StatusByte, noteNumber: DataByte, velocity: DataByte)
      requires Valid()
      modifies faderButtonToggleState
      ensures Valid()
      ensures State() == ApcSurface.HandleFaderButton(old(State()), statusByte, noteNumber, velocity)
    {
      var isFaderButton :=
        (statusByte == NOTE_ON || statusByte == NOTE_OFF) &&
        ((FADER_BUTTONS_START <= noteNumber <= FADER_BUTTONS_END) || noteNumber == FADER_BUTTON_8);
      if !isFaderButton {
        return;
      }
      var index: int;
      if noteNumber == FADER_BUTTON_8 {
        index := 8;
      } else {
        index := noteNumber - FADER_BUTTONS_START;
      }
      faderButtonToggleState[index] :=
        if velocity > 0 then !faderButtonToggleState[index] else faderButtonToggleState[index];
    }

    method HandleSideButton(statusByte: StatusByte, noteNumber: DataByte, velocity: DataByte)
      requires Valid()
      modifies this
      ensures Valid()
      ensures State() == ApcSurface.HandleSideButton(old(State()), statusByte, noteNumber, velocity)
    {
      var isSideButton := statusByte == NOTE_ON && SIDE_BUTTONS_START <= noteNumber <= SIDE_BUTTONS_END;
      if !isSideButton {
        return;
      }
      if velocity <= 0 {
        return;
      }
      var pageIndex := noteNumber - SIDE_BUTTONS_START;
      if pageIndex < 0 || pageIndex >= GRID_COLS {
        return;
      }
      currentPageIndex := pageIndex;
    }

    method HandleGridPad(statusByte: StatusByte, noteNumber: DataByte, velocity: DataByte, rnd: real)
      requires Valid() && 0.0 <= rnd < 1.0
      modifies this
      ensures Valid()
      ensures State() == ApcSurface.HandleGridPad(old(State()), statusByte, noteNumber, velocity, rnd)
    {
      var isNoteOn := statusByte == NOTE_ON;
      var isNoteOff := statusByte == NOTE_OFF;
      if !isNoteOn && !isNoteOff {
        return;
      }
      if noteNumber < GRID_START || noteNumber > GRID_END {
        return;
      }
      var gridIndex := noteNumber - GRID_START;
      var col := gridIndex % GRID_COLS;
      var row := GRID_ROWS - 1 - gridIndex / GRID_COLS;
      var cellKey := CellId(currentPageIndex, row, col);
      if cellKey !in cellRegistry {
        return;
      }
      var registeredCell := cellRegistry[cellKey];
      var key := registeredCell.key;
      if isNoteOn && velocity > 0 {
        PressCell(registeredCell, rnd);
      } else if (isNoteOff || (isNoteOn && velocity == 0)) && registeredCell.inputType == Momentary {
        inputValues := inputValues[key := Bool(false)];
        momentaryState := momentaryState[key := false];
      }
    }

    /** The press branch of `handleGridPad`, by the cell's input type. */
    method PressCell(registeredCell: RegisteredCell, rnd: real)
      requires Valid() && registeredCell.key in buttonConfigs && 0.0 <= rnd < 1.0
      modifies this`inputValues, this`momentaryState
      ensures Valid()
      ensures State() == ApcSurface.Press(old(State()), registeredCell, rnd)
    {
      var key := registeredCell.key;
      match registeredCell.inputType {
        case Radio =>
          inputValues := inputValues[key := Number(registeredCell.cellIndex)];
        case Toggle =>
          var currentToggle := inputValues[key];
          inputValues := inputValues[key := Bool(!Truthy(currentToggle))];
        case Oneshot =>
          inputValues := inputValues[key := Bool(true)];
        case Momentary =>
          inputValues := inputValues[key := Bool(true)];
          momentaryState := momentaryState[key := true];
        case Random =>
          TriggerRandom(key, rnd);
      }
    }

    method HandleFaderControlChange(statusByte: StatusByte, noteNumber: DataByte, value: DataByte)
      requires Valid()
      modifies faderValues
      ensures Valid()
      ensures State() == ApcSurface.HandleFaderControlChange(old(State()), statusByte, noteNumber, value)
    {
      var isFaderControlChange := statusByte == CONTROL_CHANGE && FADERS_START <= noteNumber <= FADERS_END;
      if !isFaderControlChange {
        return;
      }
      var index := noteNumber - FADERS_START;
      var normalizedValue := value as real / 127.0;
      faderValues[index] := normalizedValue;
    }

    /** The loop of `triggerRandom` that lists the options other than the current one. */
    static method CollectCandidates(cellCount: nat, currentValue: InputValue) returns (candidates: seq<int>)
      ensures candidates == Candidates(cellCount, currentValue)
    {
      candidates := [];
      var i := 0;
      while i < cellCount
        invariant 0 <= i <= cellCount
        invariant candidates == Candidates(i, currentValue)
      {
        assert Candidates(i + 1, currentValue) ==
               Candidates(i, currentValue) + (if Number(i) != currentValue then [i] else []);
        if Number(i) != currentValue {
          candidates := candidates + [i];
        }
        i := i + 1;
      }
    }

    /** `triggerRandom(randomKey)`. */
    method TriggerRandom(randomKey: string, rnd: real)
      requires Valid() && 0.0 <= rnd < 1.0
      modifies this`inputValues
      ensures Valid()
      ensures State() == ApcSurface.TriggerRandom(old(State()), randomKey, rnd)
    {
      if randomKey !in buttonConfigs {
        return;
      }
      var config := buttonConfigs[randomKey];
      if config.inputType != Random {
        return;
      }
      if config.randomTarget.None? || config.randomTarget.value == "" {
        return;
      }
      var targetKey := config.randomTarget.value;
      if targetKey !in buttonConfigs {
        return;
      }
      var targetConfig := buttonConfigs[targetKey];
      if targetConfig.inputType != Radio {
        return;
      }
      var cellCount := |targetConfig.cells|;
      if cellCount <= 1 {
        return;
      }
      var currentValue := inputValues[targetKey];
      var excludeCurrent := config.excludeCurrent != Some(false);
      var newValue: int;
      if excludeCurrent {
        var candidates := CollectCandidates(cellCount, currentValue);
        newValue := candidates[PickIndex(rnd, |candidates|)];
      } else {
        newValue := PickIndex(rnd, cellCount);
      }
      inputValues := inputValues[targetKey := Number(newValue)];
    }

    // -------------------------------------------------------------------
    // LED output
    // -------------------------------------------------------------------

    /** `midiOutputSendControls`: the 8 + 64 + 9 LED messages of one frame. */
    method MidiOutputSendControls() returns (leds: seq<MidiMessage>)
      requires Valid()
      ensures leds == SendControls(State(), palette)
    {
      var page := SendPageButtonLeds();
      var grid := SendGridPadLeds();
      var faders := SendFaderButtonLeds();
      leds := page + grid + faders;
    }

    method SendPageButtonLeds() returns (leds: seq<MidiMessage>)
      requires Valid()
      ensures leds == PageButtonLeds(State(), palette)
    {
      leds := [];
      for i := 0 to 8
        invariant leds == PageButtonLeds(State(), palette)[..i]
      {
        var note := SIDE_BUTTONS_START + i;
        var velocity := if i == currentPageIndex then palette.pageColors[i] else palette.off;
        leds := leds + [MidiMessage(NOTE_ON, note, velocity)];
      }
    }

    method SendGridPadLeds() returns (leds: seq<MidiMessage>)
      requires Valid()
      ensures leds == GridPadLeds(State(), palette)
    {
      ghost var all := GridPadLeds(State(), palette);
      leds := [];
      for col := 0 to GRID_COLS
        invariant leds == all[..col * GRID_ROWS]
      {
        for row := 0 to GRID_ROWS
          invariant leds == all[..col * GRID_ROWS + row]
        {
          var gridIndex := (GRID_ROWS - 1 - row) * GRID_COLS + col;
          var note := GRID_START + gridIndex;
          var velocity := GridPadVelocity(State(), palette, currentPageIndex, row, col);
          GridPadLedAt(State(), palette, row, col);
          assert all[..col * GRID_ROWS + row + 1] == all[..col * GRID_ROWS + row] + [all[col * GRID_ROWS + row]];
          leds := leds + [MidiMessage(OUTPUT_NOTE_ON, note, velocity)];
        }
        assert col * GRID_ROWS + GRID_ROWS == (col + 1) * GRID_ROWS;
      }
    }

    method SendFaderButtonLeds() returns (leds: seq<MidiMessage>)
      requires Valid()
      ensures leds == FaderButtonLeds(State(), palette)
    {
      leds := [];
      for i := 0 to FADER_COUNT
        invariant leds == FaderButtonLeds(State(), palette)[..i]
      {
        var note := if i < 8 then FADER_BUTTONS_START + i else FADER_BUTTON_8;
        var velocity := if faderButtonToggleState[i] then palette.on else palette.off;
        leds := leds + [MidiMessage(NOTE_ON, note, velocity)];
      }
    }
  }
}
