/** The state of the APC Mini MK2 control surface (src/midi/APCMiniMK2Manager.ts)
    as a value, and every operation of the manager as a function on that value.
    The class in apc_manager.dfy holds the same state in fields and arrays and
    proves each of its methods against the functions here. */
module ApcSurface {
  import opened Wrappers
  import MathUtils

  // Status bytes of the MIDI 1.0 channel voice messages on channel 1.
  const NOTE_ON: int := 0x90
  const NOTE_OFF: int := 0x80
  const CONTROL_CHANGE: int := 0xB0
  /** Note On on channel 7: the grid LED output status. */
  const OUTPUT_NOTE_ON: int := 0x96

  // Note ranges of the device.
  const GRID_START: int := 0
  const GRID_END: int := 63
  const FADER_BUTTONS_START: int := 100
  const FADER_BUTTONS_END: int := 107
  const SIDE_BUTTONS_START: int := 112
  const SIDE_BUTTONS_END: int := 119
  const FADERS_START: int := 48
  const FADERS_END: int := 56
  const FADER_BUTTON_8: int := 122

  const GRID_ROWS: int := 8
  const GRID_COLS: int := 8
  /** Length of `faderValues` and `faderButtonToggleState`. */
  const FADER_COUNT: int := 9

  /** The first byte of a received message. */
  type StatusByte = b: int | 0 <= b < 256
  /** A MIDI data byte: seven bits. */
  type DataByte = b: int | 0 <= b < 128

  datatype InputType = Radio | Toggle | Oneshot | Momentary | Random

  /** A cell of a button configuration; a missing page means page 0. */
  datatype CellPosition = CellPosition(page: Option<int>, row: int, col: int)

  /** A stored input value: `number | boolean`. */
  datatype InputValue = Number(n: int) | Bool(b: bool)

  datatype ButtonConfig = ButtonConfig(
    key: string,
    inputType: InputType,
    cells: seq<CellPosition>,
    activeColor: Option<int>,
    inactiveColor: Option<int>,
    defaultValue: Option<InputValue>,
    randomTarget: Option<string>,
    excludeCurrent: Option<bool>)

  /** What the registry stores for one cell. */
  datatype RegisteredCell = RegisteredCell(
    key: string,
    inputType: InputType,
    cellIndex: nat,
    activeColor: int,
    inactiveColor: int)

  datatype FaderButtonMode = Mute | RandomGate

  /** The LED colour constants `LED_PALETTE` and `PAGE_LED_PALETTE`. */
  datatype LedPalette = LedPalette(on: int, dim: int, off: int, pageColors: seq<int>)

  predicate ValidPalette(palette: LedPalette) {
    |palette.pageColors| >= 8
  }

  /** One outgoing three-byte message. */
  datatype MidiMessage = MidiMessage(status: int, note: int, velocity: int)

  /** The error `registerButton` throws: the cell is already bound to `existingKey`. */
  datatype RegistrationError = CellTaken(page: int, row: int, col: int, existingKey: string, newKey: string)

  datatype Surface = Surface(
    faderValues: seq<real>,
    faderButtonToggleState: seq<bool>,
    currentPageIndex: int,
    faderButtonMode: FaderButtonMode,
    cellRegistry: map<CellId, RegisteredCell>,
    inputValues: map<string, InputValue>,
    buttonConfigs: map<string, ButtonConfig>,
    momentaryState: map<string, bool>)

  /** The invariant every operation keeps: nine faders in [0, 1], nine fader
      toggles, a page in [0, 7], a stored value for exactly the configured keys,
      and every registered cell bound to a configured key. */
  ghost predicate Valid(s: Surface) {
    && |s.faderValues| == FADER_COUNT
    && |s.faderButtonToggleState| == FADER_COUNT
    && (forall i :: 0 <= i < FADER_COUNT ==> 0.0 <= s.faderValues[i] <= 1.0)
    && 0 <= s.currentPageIndex < GRID_COLS
    && s.inputValues.Keys == s.buttonConfigs.Keys
    && (forall k :: k in s.cellRegistry ==> s.cellRegistry[k].key in s.buttonConfigs)
  }

  /** The state the constructor builds. */
  function Initial(mode: FaderButtonMode): (s: Surface)
    ensures Valid(s)
    ensures forall i :: 0 <= i < FADER_COUNT ==> s.faderValues[i] == 0.0 && !s.faderButtonToggleState[i]
    ensures s.currentPageIndex == 0 && s.cellRegistry == map[] && s.inputValues == map[]
  {
    Surface(seq(FADER_COUNT, _ => 0.0), seq(FADER_COUNT, _ => false), 0, mode, map[], map[], map[], map[])
  }

  // ---------------------------------------------------------------------
  // Registration
  // ---------------------------------------------------------------------

  function PageOf(cell: CellPosition): int {
    cell.page.GetOr(0)
  }

  /** A grid cell. The source keys its registry by the string
      `getCellKey(page, row, col)`; CellKeys.GetCellKeyInjective shows that
      string determines the triple, so the triple itself serves as the key. */
  datatype CellId = CellId(page: int, row: int, col: int)

  function KeyOf(cell: CellPosition): CellId {
    CellId(PageOf(cell), cell.row, cell.col)
  }

  /** The registry key of every cell of a configuration, in order. */
  function CellKeyList(cells: seq<CellPosition>): (keys: seq<CellId>)
    ensures |keys| == |cells|
    ensures forall i :: 0 <= i < |cells| ==> keys[i] == KeyOf(cells[i])
  {
    seq(|cells|, i requires 0 <= i < |cells| => KeyOf(cells[i]))
  }

  /** The first of `keys[from..]` that is already registered: the duplicate
      check of `registerButton`. */
  function FirstTaken(registry: map<CellId, RegisteredCell>, keys: seq<CellId>, from: nat): (r: Option<nat>)
    requires from <= |keys|
    ensures r.Some? ==> from <= r.value < |keys| && keys[r.value] in registry
    ensures r.Some? ==> forall j :: from <= j < r.value ==> keys[j] !in registry
    ensures r.None? ==> forall j :: from <= j < |keys| ==> keys[j] !in registry
    decreases |keys| - from
  {
    if from == |keys| then None
    else if keys[from] in registry then Some(from)
    else FirstTaken(registry, keys, from + 1)
  }

  function CellRecord(config: ButtonConfig, palette: LedPalette, cellIndex: nat): RegisteredCell {
    RegisteredCell(config.key, config.inputType, cellIndex,
                   config.activeColor.GetOr(palette.on), config.inactiveColor.GetOr(palette.dim))
  }

  /** The registry entries written by the first `n` rounds of the registration
      loop; a cell listed twice keeps the entry of its later position. */
  function CellEntries(config: ButtonConfig, palette: LedPalette, keys: seq<CellId>, n: nat): (m: map<CellId, RegisteredCell>)
    requires n <= |keys|
    ensures forall k :: k in m ==> m[k].key == config.key && m[k].inputType == config.inputType
    ensures forall k :: k in m <==> exists i :: 0 <= i < n && keys[i] == k
  {
    if n == 0 then map[]
    else CellEntries(config, palette, keys, n - 1)[keys[n - 1] := CellRecord(config, palette, n - 1)]
  }

  /** The value a key starts with: its `defaultValue`, else 0 for radio and false otherwise. */
  function SeedValue(config: ButtonConfig): InputValue {
    match config.defaultValue
    case Some(v) => v
    case None => if config.inputType == Radio then Number(0) else Bool(false)
  }

  /** `registerButton(config)`: throws on a cell that is already registered,
      otherwise binds every cell, stores the config and seeds the value. */
  function Register(s: Surface, palette: LedPalette, config: ButtonConfig): (r: Result<Surface, RegistrationError>)
    requires Valid(s)
    ensures r.Success? ==> Valid(r.value)
  {
    var keys := CellKeyList(config.cells);
    match FirstTaken(s.cellRegistry, keys, 0)
    case Some(i) =>
      var c := config.cells[i];
      Failure(CellTaken(PageOf(c), c.row, c.col, s.cellRegistry[keys[i]].key, config.key))
    case None =>
      Success(Bind(s, palette, config))
  }

  /** The writes of `registerButton` once no cell is taken. */
  function Bind(s: Surface, palette: LedPalette, config: ButtonConfig): (r: Surface)
    requires Valid(s)
    ensures Valid(r)
  {
    var keys := CellKeyList(config.cells);
    s.(cellRegistry := s.cellRegistry + CellEntries(config, palette, keys, |keys|),
       buttonConfigs := s.buttonConfigs[config.key := config],
       inputValues := s.inputValues[config.key := SeedValue(config)],
       momentaryState :=
         if config.defaultValue.None? && config.inputType == Momentary
         then s.momentaryState[config.key := false]
         else s.momentaryState)
  }

  /** `registerButtons(configs)`: registers in order and stops at the first
      throw, keeping the registrations made before it. */
  function RegisterAll(s: Surface, palette: LedPalette, configs: seq<ButtonConfig>): (r: (Surface, Option<RegistrationError>))
    requires Valid(s)
    ensures Valid(r.0)
    decreases |configs|
  {
    if configs == [] then (s, None)
    else
      var first := Register(s, palette, configs[0]);
      if first.Failure? then (s, Some(first.error))
      else RegisterAll(first.value, palette, configs[1..])
  }

  // ---------------------------------------------------------------------
  // Incoming messages
  // ---------------------------------------------------------------------

  /** Row and column of grid note `note` (row 0 is the top row). */
  function GridRow(note: int): int { GRID_ROWS - 1 - note / GRID_COLS }
  function GridCol(note: int): int { note % GRID_COLS }
  /** The registry key a grid note addresses on the current page. */
  function PadAt(s: Surface, note: int): CellId {
    CellId(s.currentPageIndex, GridRow(note), GridCol(note))
  }
  /** The grid note the LED loop sends for `(row, col)`. */
  function GridNote(row: int, col: int): int { (GRID_ROWS - 1 - row) * GRID_COLS + col }

  /** `handleFaderButton`: notes 100..107 and 122 toggle fader buttons 0..8
      on Note On or Note Off with a non-zero velocity. */
  function HandleFaderButton(s: Surface, status: StatusByte, note: DataByte, velocity: DataByte): (r: Surface)
    requires Valid(s)
    ensures Valid(r)
  {
    if (status == NOTE_ON || status == NOTE_OFF)
       && ((FADER_BUTTONS_START <= note <= FADER_BUTTONS_END) || note == FADER_BUTTON_8)
    then
      var index := if note == FADER_BUTTON_8 then 8 else note - FADER_BUTTONS_START;
      var t := s.faderButtonToggleState;
      s.(faderButtonToggleState := t[index := if velocity > 0 then !t[index] else t[index]])
    else s
  }

  /** `handleSideButton`: Note On with a non-zero velocity on notes 112..119 selects the page. */
  function HandleSideButton(s: Surface, status: StatusByte, note: DataByte, velocity: DataByte): (r: Surface)
    requires Valid(s)
    ensures Valid(r)
    ensures status == NOTE_ON && SIDE_BUTTONS_START <= note <= SIDE_BUTTONS_END && velocity > 0 ==>
      r == s.(currentPageIndex := note - SIDE_BUTTONS_START)
    ensures !(status == NOTE_ON && SIDE_BUTTONS_START <= note <= SIDE_BUTTONS_END && velocity > 0) ==> r == s
  {
    if status == NOTE_ON && SIDE_BUTTONS_START <= note <= SIDE_BUTTONS_END && velocity > 0 then
      var pageIndex := note - SIDE_BUTTONS_START;
      if pageIndex < 0 || pageIndex >= GRID_COLS then s else s.(currentPageIndex := pageIndex)
    else s
  }

  /** JavaScript's `!value` on a stored value. */
  function Truthy(v: InputValue): bool {
    match v
    case Number(n) => n != 0
    case Bool(b) => b
  }

  /** `excludeCurrent !== false`: excluding is the default. */
  function ExcludesCurrent(config: ButtonConfig): bool {
    config.excludeCurrent != Some(false)
  }

  /** The radio key a press on random binding `randomKey` re-picks, or None
      when `triggerRandom` returns early: the binding is missing or not random,
      it has no (or an empty) `randomTarget`, the target is missing or not a
      radio, or the target has at most one cell. */
  function RandomTargetOf(s: Surface, randomKey: string): Option<string> {
    if randomKey !in s.buttonConfigs || s.buttonConfigs[randomKey].inputType != Random then None
    else
      var target := s.buttonConfigs[randomKey].randomTarget;
      if target.None? || target.value == "" then None
      else if target.value !in s.buttonConfigs then None
      else if s.buttonConfigs[target.value].inputType != Radio then None
      else if |s.buttonConfigs[target.value].cells| <= 1 then None
      else target
  }

  /** The candidate list of `triggerRandom`: every option below `n` whose
      number differs from the current value, in increasing order. */
  function Candidates(n: nat, current: InputValue): (c: seq<int>)
    ensures |c| == if current.Number? && 0 <= current.n < n then n - 1 else n
  {
    if n == 0 then []
    else Candidates(n - 1, current) + (if Number(n - 1) != current then [n - 1] else [])
  }

  /** The candidates are exactly the options below `n` other than the current value. */
  lemma {:induction false} CandidatesAreTheOtherOptions(n: nat, current: InputValue)
    ensures var c := Candidates(n, current);
      && (forall i :: 0 <= i < |c| ==> 0 <= c[i] < n && Number(c[i]) != current)
      && (forall x :: 0 <= x < n && Number(x) != current ==> x in c)
  {
    if n > 0 {
      CandidatesAreTheOtherOptions(n - 1, current);
    }
  }

  /** `Math.floor(Math.random() * n)` for a draw `rnd` in [0, 1). */
  function PickIndex(rnd: real, n: nat): (i: nat)
    requires 0.0 <= rnd < 1.0 && n > 0
    ensures i < n
  {
    var x := rnd * n as real;
    assert 0.0 <= x < n as real by {
      MathUtils.ProductPositive(1.0 - rnd, n as real);
      assert (n as real) - x == (1.0 - rnd) * n as real;
    }
    x.Floor
  }

  /** `triggerRandom(randomKey)` with `rnd` standing for `Math.random()`. */
  function TriggerRandom(s: Surface, randomKey: string, rnd: real): (r: Surface)
    requires Valid(s) && 0.0 <= rnd < 1.0
    ensures Valid(r)
    ensures RandomTargetOf(s, randomKey).None? ==> r == s
    ensures RandomTargetOf(s, randomKey).Some? ==>
      var t := RandomTargetOf(s, randomKey).value;
      && t in r.inputValues
      && r == s.(inputValues := s.inputValues[t := r.inputValues[t]])
      && r.inputValues[t].Number?
      && 0 <= r.inputValues[t].n < |s.buttonConfigs[t].cells|
      && (ExcludesCurrent(s.buttonConfigs[randomKey]) ==> r.inputValues[t] != s.inputValues[t])
  {
    match RandomTargetOf(s, randomKey)
    case None => s
    case Some(t) =>
      var n := |s.buttonConfigs[t].cells|;
      var current := s.inputValues[t];
      var newValue :=
        if ExcludesCurrent(s.buttonConfigs[randomKey]) then
          var c := Candidates(n, current);
          CandidatesAreTheOtherOptions(n, current);
          c[PickIndex(rnd, |c|)]
        else PickIndex(rnd, n);
      s.(inputValues := s.inputValues[t := Number(newValue)])
  }

  /** What a press (Note On, velocity > 0) on a registered cell does. */
  function Press(s: Surface, cell: RegisteredCell, rnd: real): (r: Surface)
    requires Valid(s) && cell.key in s.buttonConfigs && 0.0 <= rnd < 1.0
    ensures Valid(r)
  {
    var key := cell.key;
    match cell.inputType
    case Radio => s.(inputValues := s.inputValues[key := Number(cell.cellIndex)])
    case Toggle => s.(inputValues := s.inputValues[key := Bool(!Truthy(s.inputValues[key]))])
    case Oneshot => s.(inputValues := s.inputValues[key := Bool(true)])
    case Momentary => s.(inputValues := s.inputValues[key := Bool(true)], momentaryState := s.momentaryState[key := true])
    case Random => TriggerRandom(s, key, rnd)
  }

  /** `handleGridPad`: notes 0..63 address the grid cell of the current page;
      a press applies the cell's transition, a release (Note Off, or Note On
      with velocity 0) clears a momentary binding, an unregistered cell is ignored. */
  function HandleGridPad(s: Surface, status: StatusByte, note: DataByte, velocity: DataByte, rnd: real): (r: Surface)
    requires Valid(s) && 0.0 <= rnd < 1.0
    ensures Valid(r)
  {
    var isNoteOn := status == NOTE_ON;
    var isNoteOff := status == NOTE_OFF;
    if !isNoteOn && !isNoteOff then s
    else if note < GRID_START || note > GRID_END then s
    else
      var cellKey := PadAt(s, note);
      if cellKey !in s.cellRegistry then s
      else
        var cell := s.cellRegistry[cellKey];
        if isNoteOn && velocity > 0 then Press(s, cell, rnd)
        else if (isNoteOff || (isNoteOn && velocity == 0)) && cell.inputType == Momentary then
          s.(inputValues := s.inputValues[cell.key := Bool(false)],
             momentaryState := s.momentaryState[cell.key := false])
        else s
  }

  /** `handleFaderControlChange`: Control Change on controllers 48..56 sets fader
      `note - 48` to `value / 127`. */
  function HandleFaderControlChange(s: Surface, status: StatusByte, note: DataByte, value: DataByte): (r: Surface)
    requires Valid(s)
    ensures Valid(r)
  {
    if status == CONTROL_CHANGE && FADERS_START <= note <= FADERS_END then
      s.(faderValues := s.faderValues[note - FADERS_START := value as real / 127.0])
    else s
  }

  /** `handleMIDIMessage`: the four handlers, in the source's order. */
  function HandleMidiMessage(s: Surface, status: StatusByte, note: DataByte, velocity: DataByte, rnd: real): (r: Surface)
    requires Valid(s) && 0.0 <= rnd < 1.0
    ensures Valid(r)
  {
    var s1 := HandleFaderButton(s, status, note, velocity);
    var s2 := HandleSideButton(s1, status, note, velocity);
    var s3 := HandleGridPad(s2, status, note, velocity, rnd);
    HandleFaderControlChange(s3, status, note, velocity)
  }

  // ---------------------------------------------------------------------
  // Per-frame update
  // ---------------------------------------------------------------------

  /** `resetOneshotValues`: every oneshot key goes back to false. */
  function ResetOneshotValues(s: Surface): (r: Surface)
    requires Valid(s)
    ensures Valid(r)
  {
    s.(inputValues := map k | k in s.inputValues ::
         if s.buttonConfigs[k].inputType == Oneshot then Bool(false) else s.inputValues[k])
  }

  /** The value fader `col` gets from `updateFaderButtonEffects`; `rand`
      stands for `UniformRandom.rand`. Fader 8 is outside the loop. */
  function GatedFader(s: Surface, beat: real, rand: (int, int) -> real, col: int): (v: real)
    requires Valid(s) && 0 <= col < FADER_COUNT
    ensures 0.0 <= v <= 1.0
  {
    if col < 8 && s.faderButtonToggleState[col] then
      match s.faderButtonMode
      case RandomGate => if rand(beat.Floor, col) < 0.5 then 0.0 else 1.0
      case Mute => 0.0
    else s.faderValues[col]
  }

  /** `updateFaderButtonEffects(beat)`. */
  function UpdateFaderButtonEffects(s: Surface, beat: real, rand: (int, int) -> real): (r: Surface)
    requires Valid(s)
    ensures Valid(r)
  {
    s.(faderValues := seq(FADER_COUNT, col requires 0 <= col < FADER_COUNT => GatedFader(s, beat, rand, col)))
  }

  /** The state change of `update(beat)`. */
  function Update(s: Surface, beat: real, rand: (int, int) -> real): (r: Surface)
    requires Valid(s)
    ensures Valid(r)
  {
    UpdateFaderButtonEffects(ResetOneshotValues(s), beat, rand)
  }

  // ---------------------------------------------------------------------
  // LED output
  // ---------------------------------------------------------------------

  /** `getGridPadVelocity(page, row, col)`: the LED colour of a grid cell. */
  function GridPadVelocity(s: Surface, palette: LedPalette, page: int, row: int, col: int): (v: int)
    requires Valid(s)
    ensures CellId(page, row, col) !in s.cellRegistry ==> v == palette.off
    ensures CellId(page, row, col) in s.cellRegistry ==>
      var cell := s.cellRegistry[CellId(page, row, col)];
      && (cell.inputType == Radio ==>
            v == if s.inputValues[cell.key] == Number(cell.cellIndex) then cell.activeColor else cell.inactiveColor)
      && (cell.inputType in {Toggle, Oneshot} ==>
            v == if s.inputValues[cell.key] == Bool(true) then cell.activeColor else cell.inactiveColor)
      && (cell.inputType == Momentary ==>
            v == if cell.key in s.momentaryState && s.momentaryState[cell.key] then cell.activeColor else cell.inactiveColor)
      && (cell.inputType == Random ==> v == cell.activeColor)
  {
    var cellKey := CellId(page, row, col);
    if cellKey !in s.cellRegistry then palette.off
    else
      var cell := s.cellRegistry[cellKey];
      var value := s.inputValues[cell.key];
      match cell.inputType
      case Radio => if value == Number(cell.cellIndex) then cell.activeColor else cell.inactiveColor
      case Toggle => if value == Bool(true) then cell.activeColor else cell.inactiveColor
      case Oneshot => if value == Bool(true) then cell.activeColor else cell.inactiveColor
      case Momentary =>
        if cell.key in s.momentaryState && s.momentaryState[cell.key] then cell.activeColor else cell.inactiveColor
      case Random => cell.activeColor
  }

  /** `sendPageButtonLeds`: notes 112..119, lit only for the current page. */
  function PageButtonLeds(s: Surface, palette: LedPalette): (leds: seq<MidiMessage>)
    requires ValidPalette(palette)
    ensures |leds| == 8
    ensures forall i :: 0 <= i < |leds| ==> leds[i].status == NOTE_ON && leds[i].note == SIDE_BUTTONS_START + i
    ensures forall i :: 0 <= i < |leds| && i != s.currentPageIndex ==> leds[i].velocity == palette.off
    ensures 0 <= s.currentPageIndex < 8 ==> leds[s.currentPageIndex].velocity == palette.pageColors[s.currentPageIndex]
  {
    seq(8, i requires 0 <= i < 8 =>
      MidiMessage(NOTE_ON, SIDE_BUTTONS_START + i,
                  if i == s.currentPageIndex then palette.pageColors[i] else palette.off))
  }

  /** `sendGridPadLeds`: the outer loop runs over columns, the inner over rows,
      so message `col * 8 + row` is the LED of `(row, col)` on the current page. */
  function GridPadLeds(s: Surface, palette: LedPalette): (leds: seq<MidiMessage>)
    requires Valid(s)
    ensures |leds| == GRID_ROWS * GRID_COLS
    ensures forall k :: 0 <= k < |leds| ==> leds[k].status == OUTPUT_NOTE_ON
  {
    seq(GRID_ROWS * GRID_COLS, k requires 0 <= k < GRID_ROWS * GRID_COLS =>
      var col := k / GRID_ROWS;
      var row := k % GRID_ROWS;
      MidiMessage(OUTPUT_NOTE_ON, GRID_START + GridNote(row, col),
                  GridPadVelocity(s, palette, s.currentPageIndex, row, col)))
  }

  /** The message the LED loop sends for `(row, col)`, at its place in the output. */
  lemma GridPadLedAt(s: Surface, palette: LedPalette, row: int, col: int)
    requires Valid(s) && 0 <= row < GRID_ROWS && 0 <= col < GRID_COLS
    ensures 0 <= col * GRID_ROWS + row < |GridPadLeds(s, palette)|
    ensures GridPadLeds(s, palette)[col * GRID_ROWS + row] ==
      MidiMessage(OUTPUT_NOTE_ON, GRID_START + GridNote(row, col), GridPadVelocity(s, palette, s.currentPageIndex, row, col))
  {
    var k := col * 8 + row;
    assert k / 8 == col && k % 8 == row;
  }

  /** `sendFaderButtonLeds`: notes 100..107 and 122 mirror the fader toggles. */
  function FaderButtonLeds(s: Surface, palette: LedPalette): (leds: seq<MidiMessage>)
    requires Valid(s)
    ensures |leds| == FADER_COUNT
    ensures forall i :: 0 <= i < 8 ==> leds[i].note == FADER_BUTTONS_START + i
    ensures leds[8].note == FADER_BUTTON_8
    ensures forall i :: 0 <= i < |leds| ==>
      leds[i].status == NOTE_ON && leds[i].velocity == if s.faderButtonToggleState[i] then palette.on else palette.off
  {
    seq(FADER_COUNT, i requires 0 <= i < FADER_COUNT =>
      MidiMessage(NOTE_ON, if i < 8 then FADER_BUTTONS_START + i else FADER_BUTTON_8,
                  if s.faderButtonToggleState[i] then palette.on else palette.off))
  }

  /** `midiOutputSendControls`: page buttons, then grid, then fader buttons. */
  function SendControls(s: Surface, palette: LedPalette): (leds: seq<MidiMessage>)
    requires Valid(s) && ValidPalette(palette)
    ensures |leds| == 8 + 64 + 9
    ensures leds[..8] == PageButtonLeds(s, palette)
    ensures leds[8..72] == GridPadLeds(s, palette)
    ensures leds[72..] == FaderButtonLeds(s, palette)
  {
    PageButtonLeds(s, palette) + GridPadLeds(s, palette) + FaderButtonLeds(s, palette)
  }
}
