/** What the APC Mini MK2 manager promises, stated over the functions of
    ApcSurface (and so, through the methods' postconditions, over the class). */
module ApcProperties {
  import opened Wrappers
  import opened ApcSurface

  // ---------------------------------------------------------------------
  // Grid addressing: the pad a note reads and the LED a note lights
  // ---------------------------------------------------------------------

  /** Decoding a grid note and encoding the cell again gives the note back. */
  lemma GridNoteRoundTrip(note: int)
    requires GRID_START <= note <= GRID_END
    ensures 0 <= GridRow(note) < GRID_ROWS && 0 <= GridCol(note) < GRID_COLS
    ensures GridNote(GridRow(note), GridCol(note)) == note
  {
  }

  /** Encoding a cell as a grid note and decoding it gives the cell back. */
  lemma GridCellRoundTrip(row: int, col: int)
    requires 0 <= row < GRID_ROWS && 0 <= col < GRID_COLS
    ensures GRID_START <= GridNote(row, col) <= GRID_END
    ensures GridRow(GridNote(row, col)) == row && GridCol(GridNote(row, col)) == col
  {
    var q := GRID_ROWS - 1 - row;
    assert GridNote(row, col) == q * GRID_COLS + col;
    assert (q * GRID_COLS + col) / GRID_COLS == q;
  }

  /** The 64 grid LED messages address every pad note exactly once, and each
      shows the colour of the very cell a press on that note would reach. */
  lemma GridLedsAddressEveryPadOnce(s: Surface, palette: LedPalette)
    requires Valid(s)
    ensures var leds := GridPadLeds(s, palette);
      && |leds| == GRID_ROWS * GRID_COLS
      && (forall k :: 0 <= k < |leds| ==>
            && GRID_START <= leds[k].note <= GRID_END
            && leds[k].status == OUTPUT_NOTE_ON
            && leds[k].velocity == GridPadVelocity(s, palette, PadAt(s, leds[k].note).page,
                                                   PadAt(s, leds[k].note).row, PadAt(s, leds[k].note).col))
      && (forall k1, k2 :: 0 <= k1 < k2 < |leds| ==> leds[k1].note != leds[k2].note)
      && (forall row, col :: 0 <= row < GRID_ROWS && 0 <= col < GRID_COLS ==>
            0 <= LedIndex(row, col) < |leds| && leds[LedIndex(row, col)].note == GridNote(row, col))
  {
    var leds := GridPadLeds(s, palette);
    forall k | 0 <= k < |leds|
      ensures GRID_START <= leds[k].note <= GRID_END
      ensures leds[k].status == OUTPUT_NOTE_ON
      ensures leds[k].velocity == GridPadVelocity(s, palette, PadAt(s, leds[k].note).page,
                                                  PadAt(s, leds[k].note).row, PadAt(s, leds[k].note).col)
    {
      GridCellRoundTrip(k % GRID_ROWS, k / GRID_ROWS);
      assert PadAt(s, leds[k].note) == CellId(s.currentPageIndex, k % GRID_ROWS, k / GRID_ROWS);
    }
    forall k1, k2 | 0 <= k1 < k2 < |leds|
      ensures leds[k1].note != leds[k2].note
    {
      GridCellRoundTrip(k1 % GRID_ROWS, k1 / GRID_ROWS);
      GridCellRoundTrip(k2 % GRID_ROWS, k2 / GRID_ROWS);
    }
    forall row, col | 0 <= row < GRID_ROWS && 0 <= col < GRID_COLS
      ensures 0 <= LedIndex(row, col) < |leds| && leds[LedIndex(row, col)].note == GridNote(row, col)
    {
      var k := LedIndex(row, col);
      assert k % GRID_ROWS == row && k / GRID_ROWS == col;
    }
  }

  /** The position of the LED message of `(row, col)` in `sendGridPadLeds`'s output. */
  function LedIndex(row: int, col: int): int {
    col * GRID_ROWS + row
  }

  // ---------------------------------------------------------------------
  // Routing of incoming messages
  // ---------------------------------------------------------------------

  /** A Note On or Note Off on a grid note reaches only the grid handler. */
  lemma GridMessagesReachOnlyGridPad(s: Surface, status: StatusByte, note: DataByte, velocity: DataByte, rnd: real)
    requires Valid(s) && 0.0 <= rnd < 1.0
    requires (status == NOTE_ON || status == NOTE_OFF) && GRID_START <= note <= GRID_END
    ensures HandleMidiMessage(s, status, note, velocity, rnd) == HandleGridPad(s, status, note, velocity, rnd)
  {
  }

  /** A side button press selects its page and changes nothing else; the page
      LEDs then light exactly that page's button. */
  lemma SideButtonSelectsPage(s: Surface, palette: LedPalette, note: DataByte, velocity: DataByte, rnd: real)
    requires Valid(s) && ValidPalette(palette) && 0.0 <= rnd < 1.0
    requires SIDE_BUTTONS_START <= note <= SIDE_BUTTONS_END && velocity > 0
    ensures var r := HandleMidiMessage(s, NOTE_ON, note, velocity, rnd);
      && r == s.(currentPageIndex := note - SIDE_BUTTONS_START)
      && (forall i :: 0 <= i < 8 ==>
            PageButtonLeds(r, palette)[i] ==
              MidiMessage(NOTE_ON, SIDE_BUTTONS_START + i,
                          if i == note - SIDE_BUTTONS_START then palette.pageColors[i] else palette.off))
  {
  }

  /** The page changes only on a side-button press: every other message,
      a release of a side button included, leaves the current page as it was. */
  lemma PageChangesOnlyOnSideButton(s: Surface, status: StatusByte, note: DataByte, velocity: DataByte, rnd: real)
    requires Valid(s) && 0.0 <= rnd < 1.0
    requires !(status == NOTE_ON && SIDE_BUTTONS_START <= note <= SIDE_BUTTONS_END && velocity > 0)
    ensures HandleMidiMessage(s, status, note, velocity, rnd).currentPageIndex == s.currentPageIndex
  {
  }

  /** Pressing a fader button twice leaves the surface as it was, and its
      LED follows the toggle. */
  lemma FaderButtonPressTwiceRestores(s: Surface, palette: LedPalette, i: int, velocity: DataByte, rnd: real)
    requires Valid(s) && 0.0 <= rnd < 1.0 && 0 <= i < FADER_COUNT && velocity > 0
    ensures var note := if i < 8 then FADER_BUTTONS_START + i else FADER_BUTTON_8;
      var once := HandleMidiMessage(s, NOTE_ON, note, velocity, rnd);
      && once.faderButtonToggleState[i] == !s.faderButtonToggleState[i]
      && FaderButtonLeds(once, palette)[i] ==
           MidiMessage(NOTE_ON, note, if once.faderButtonToggleState[i] then palette.on else palette.off)
      && HandleMidiMessage(once, NOTE_ON, note, velocity, rnd) == s
  {
    var note := if i < 8 then FADER_BUTTONS_START + i else FADER_BUTTON_8;
    var once := HandleMidiMessage(s, NOTE_ON, note, velocity, rnd);
    var t := s.faderButtonToggleState;
    assert once == s.(faderButtonToggleState := t[i := !t[i]]);
    assert t[i := !t[i]][i := t[i]] == t;
  }

  /** A fader's Control Change stores the value scaled to [0, 1]: 0 is 0 and 127 is 1. */
  lemma FaderControlStoresNormalisedValue(s: Surface, i: int, value: DataByte, rnd: real)
    requires Valid(s) && 0.0 <= rnd < 1.0 && 0 <= i < FADER_COUNT
    ensures var r := HandleMidiMessage(s, CONTROL_CHANGE, FADERS_START + i, value, rnd);
      && r == s.(faderValues := s.faderValues[i := value as real / 127.0])
      && 0.0 <= r.faderValues[i] <= 1.0
      && (value == 0 ==> r.faderValues[i] == 0.0)
      && (value == 127 ==> r.faderValues[i] == 1.0)
  {
  }

  // ---------------------------------------------------------------------
  // Registration
  // ---------------------------------------------------------------------

  /** `registerButton` throws exactly when one of the cells is already bound;
      the error names the first such cell and the key that holds it. */
  lemma RegisterFailsIffCellTaken(s: Surface, palette: LedPalette, config: ButtonConfig)
    requires Valid(s)
    ensures Register(s, palette, config).Failure? <==>
      exists i :: 0 <= i < |config.cells| && KeyOf(config.cells[i]) in s.cellRegistry
    ensures Register(s, palette, config).Failure? ==>
      exists i :: 0 <= i < |config.cells| && KeyOf(config.cells[i]) in s.cellRegistry
        && (forall j :: 0 <= j < i ==> KeyOf(config.cells[j]) !in s.cellRegistry)
        && Register(s, palette, config).error ==
             CellTaken(PageOf(config.cells[i]), config.cells[i].row, config.cells[i].col,
                       s.cellRegistry[KeyOf(config.cells[i])].key, config.key)
  {
    var keys := CellKeyList(config.cells);
    var first := FirstTaken(s.cellRegistry, keys, 0);
    if first.Some? {
      var i := first.value;
      assert KeyOf(config.cells[i]) == keys[i];
      assert forall j :: 0 <= j < i ==> KeyOf(config.cells[j]) == keys[j];
    } else {
      assert forall i :: 0 <= i < |config.cells| ==> KeyOf(config.cells[i]) == keys[i];
    }
  }

  /** A successful `registerButton` stores the config and its default value,
      binds every listed cell to the key, keeps every earlier binding and adds
      no other. */
  lemma RegisterStoresBinding(s: Surface, palette: LedPalette, config: ButtonConfig)
    requires Valid(s) && Register(s, palette, config).Success?
    ensures var r := Register(s, palette, config).value;
      && r.buttonConfigs == s.buttonConfigs[config.key := config]
      && r.inputValues == s.inputValues[config.key := SeedValue(config)]
      && (forall i :: 0 <= i < |config.cells| ==>
            && KeyOf(config.cells[i]) in r.cellRegistry
            && r.cellRegistry[KeyOf(config.cells[i])].key == config.key
            && r.cellRegistry[KeyOf(config.cells[i])].inputType == config.inputType)
      && (forall k :: k in s.cellRegistry ==> k in r.cellRegistry && r.cellRegistry[k] == s.cellRegistry[k])
      && (forall k :: k in r.cellRegistry ==>
            k in s.cellRegistry || exists i :: 0 <= i < |config.cells| && KeyOf(config.cells[i]) == k)
  {
    var keys := CellKeyList(config.cells);
    var entries := CellEntries(config, palette, keys, |keys|);
    assert FirstTaken(s.cellRegistry, keys, 0).None?;
    var r := Register(s, palette, config).value;
    assert r.cellRegistry == s.cellRegistry + entries;
    forall i | 0 <= i < |config.cells|
      ensures KeyOf(config.cells[i]) in entries
    {
      assert keys[i] == KeyOf(config.cells[i]);
    }
  }

  /** A cell listed more than once in a configuration keeps the index of its
      last occurrence: each registry entry written by the registration loop
      records the last position at which its key occurs. */
  lemma {:induction false} CellEntriesKeepLastIndex(config: ButtonConfig, palette: LedPalette,
                                                    keys: seq<CellId>, n: nat, k: CellId)
    requires n <= |keys| && k in CellEntries(config, palette, keys, n)
    ensures var i := CellEntries(config, palette, keys, n)[k].cellIndex;
      && i < n && keys[i] == k
      && (forall j :: i < j < n ==> keys[j] != k)
      && CellEntries(config, palette, keys, n)[k] == CellRecord(config, palette, i)
    decreases n
  {
    if keys[n - 1] != k {
      CellEntriesKeepLastIndex(config, palette, keys, n - 1, k);
    }
  }

  /** `registerButtons` over `a + b` is `a` and then, unless `a` threw, `b`. */
  lemma {:induction false} RegisterAllSplits(s: Surface, palette: LedPalette, a: seq<ButtonConfig>, b: seq<ButtonConfig>)
    requires Valid(s)
    ensures RegisterAll(s, palette, a + b) ==
      if RegisterAll(s, palette, a).1.Some? then RegisterAll(s, palette, a)
      else RegisterAll(RegisterAll(s, palette, a).0, palette, b)
    decreases |a|
  {
    if a != [] {
      assert (a + b)[0] == a[0] && (a + b)[1..] == a[1..] + b;
      var first := Register(s, palette, a[0]);
      if first.Success? {
        RegisterAllSplits(first.value, palette, a[1..], b);
      }
    } else {
      assert a + b == b;
    }
  }

  // ---------------------------------------------------------------------
  // Pads
  // ---------------------------------------------------------------------

  /** A message on a grid note whose pad is not registered on the current page is ignored. */
  lemma UnboundPadIgnored(s: Surface, status: StatusByte, note: DataByte, velocity: DataByte, rnd: real)
    requires Valid(s) && 0.0 <= rnd < 1.0 && PadAt(s, note) !in s.cellRegistry
    ensures HandleGridPad(s, status, note, velocity, rnd) == s
  {
  }

  /** A release (Note Off, or Note On with velocity 0) changes nothing unless
      the pad is bound to a momentary button. */
  lemma ReleaseOnlyAffectsMomentary(s: Surface, status: StatusByte, note: DataByte, velocity: DataByte, rnd: real)
    requires Valid(s) && 0.0 <= rnd < 1.0
    requires status == NOTE_OFF || (status == NOTE_ON && velocity == 0)
    requires PadAt(s, note) in s.cellRegistry ==> s.cellRegistry[PadAt(s, note)].inputType != Momentary
    ensures HandleGridPad(s, status, note, velocity, rnd) == s
  {
  }

  /** Pressing a radio pad selects its option: every pad of the same radio
      key on the page is lit exactly when it is the pressed option. */
  lemma RadioPressLightsPressedOption(s: Surface, palette: LedPalette, note: DataByte, velocity: DataByte,
                                      rnd: real, row: int, col: int)
    requires Valid(s) && 0.0 <= rnd < 1.0 && GRID_START <= note <= GRID_END && velocity > 0
    requires PadAt(s, note) in s.cellRegistry && s.cellRegistry[PadAt(s, note)].inputType == Radio
    requires CellId(s.currentPageIndex, row, col) in s.cellRegistry
    requires s.cellRegistry[CellId(s.currentPageIndex, row, col)].key == s.cellRegistry[PadAt(s, note)].key
    requires s.cellRegistry[CellId(s.currentPageIndex, row, col)].inputType == Radio
    ensures var pressed := s.cellRegistry[PadAt(s, note)];
      var other := s.cellRegistry[CellId(s.currentPageIndex, row, col)];
      var r := HandleGridPad(s, NOTE_ON, note, velocity, rnd);
      && r == s.(inputValues := s.inputValues[pressed.key := Number(pressed.cellIndex)])
      && GridPadVelocity(r, palette, r.currentPageIndex, row, col) ==
           if other.cellIndex == pressed.cellIndex then other.activeColor else other.inactiveColor
  {
  }

  /** Pressing a toggle pad flips the truthiness of its value, so a second
      press restores a boolean value. */
  lemma TogglePressTwiceRestores(s: Surface, note: DataByte, velocity: DataByte, rnd: real)
    requires Valid(s) && 0.0 <= rnd < 1.0 && GRID_START <= note <= GRID_END && velocity > 0
    requires PadAt(s, note) in s.cellRegistry && s.cellRegistry[PadAt(s, note)].inputType == Toggle
    ensures var key := s.cellRegistry[PadAt(s, note)].key;
      var once := HandleGridPad(s, NOTE_ON, note, velocity, rnd);
      var twice := HandleGridPad(once, NOTE_ON, note, velocity, rnd);
      && once == s.(inputValues := s.inputValues[key := Bool(!Truthy(s.inputValues[key]))])
      && twice == s.(inputValues := s.inputValues[key := Bool(Truthy(s.inputValues[key]))])
      && (s.inputValues[key].Bool? ==> twice == s)
  {
    var key := s.cellRegistry[PadAt(s, note)].key;
    var once := HandleGridPad(s, NOTE_ON, note, velocity, rnd);
    assert PadAt(once, note) == PadAt(s, note);
    if s.inputValues[key].Bool? {
      assert s.inputValues[key := Bool(Truthy(s.inputValues[key]))] == s.inputValues;
    }
  }

  /** A momentary pad is on while held and off again after the release; a
      Note On with velocity 0 releases it like a Note Off. */
  lemma MomentaryHoldAndRelease(s: Surface, palette: LedPalette, note: DataByte, velocity: DataByte,
                                releaseVelocity: DataByte, rnd: real)
    requires Valid(s) && 0.0 <= rnd < 1.0 && GRID_START <= note <= GRID_END && velocity > 0
    requires PadAt(s, note) in s.cellRegistry && s.cellRegistry[PadAt(s, note)].inputType == Momentary
    ensures var cell := s.cellRegistry[PadAt(s, note)];
      var held := HandleGridPad(s, NOTE_ON, note, velocity, rnd);
      var released := HandleGridPad(held, NOTE_OFF, note, releaseVelocity, rnd);
      && held.inputValues[cell.key] == Bool(true)
      && GridPadVelocity(held, palette, held.currentPageIndex, GridRow(note), GridCol(note)) == cell.activeColor
      && released.inputValues[cell.key] == Bool(false)
      && GridPadVelocity(released, palette, released.currentPageIndex, GridRow(note), GridCol(note)) == cell.inactiveColor
      && HandleGridPad(held, NOTE_ON, note, 0, rnd) == released
  {
    var held := HandleGridPad(s, NOTE_ON, note, velocity, rnd);
    assert PadAt(held, note) == PadAt(s, note);
  }

  /** A oneshot pad reads true from its press until the next `update`, which
      clears it. */
  lemma OneshotPulseLastsOneFrame(s: Surface, note: DataByte, velocity: DataByte, rnd: real,
                                  beat: real, rand: (int, int) -> real)
    requires Valid(s) && 0.0 <= rnd < 1.0 && GRID_START <= note <= GRID_END && velocity > 0
    requires PadAt(s, note) in s.cellRegistry && s.cellRegistry[PadAt(s, note)].inputType == Oneshot
    requires s.buttonConfigs[s.cellRegistry[PadAt(s, note)].key].inputType == Oneshot
    ensures var key := s.cellRegistry[PadAt(s, note)].key;
      var pressed := HandleGridPad(s, NOTE_ON, note, velocity, rnd);
      && pressed.inputValues[key] == Bool(true)
      && Update(pressed, beat, rand).inputValues[key] == Bool(false)
  {
  }

  // ---------------------------------------------------------------------
  // Random buttons
  // ---------------------------------------------------------------------

  /** `Math.floor(Math.random() * n)` can produce every index below `n`. */
  lemma PickIndexReachesEveryIndex(n: nat, i: nat)
    requires i < n
    ensures 0.0 <= i as real / n as real < 1.0
    ensures PickIndex(i as real / n as real, n) == i
  {
    var rnd := i as real / n as real;
    assert rnd * n as real == i as real;
  }

  /** With `excludeCurrent` in force, a random press can move the radio target
      to any option other than the current one. */
  lemma TriggerRandomReachesEveryOtherOption(s: Surface, randomKey: string, x: int)
    requires Valid(s) && RandomTargetOf(s, randomKey).Some?
    requires ExcludesCurrent(s.buttonConfigs[randomKey])
    requires var t := RandomTargetOf(s, randomKey).value;
      0 <= x < |s.buttonConfigs[t].cells| && Number(x) != s.inputValues[t]
    ensures exists rnd :: (0.0 <= rnd < 1.0 &&
      TriggerRandom(s, randomKey, rnd).inputValues[RandomTargetOf(s, randomKey).value] == Number(x))
  {
    var t := RandomTargetOf(s, randomKey).value;
    var c := Candidates(|s.buttonConfigs[t].cells|, s.inputValues[t]);
    CandidatesAreTheOtherOptions(|s.buttonConfigs[t].cells|, s.inputValues[t]);
    var j :| 0 <= j < |c| && c[j] == x;
    PickIndexReachesEveryIndex(|c|, j);
    var rnd := j as real / |c| as real;
    assert TriggerRandom(s, randomKey, rnd).inputValues[t] == Number(c[PickIndex(rnd, |c|)]);
  }

  /** With `excludeCurrent: false`, a random press can land on any option. */
  lemma TriggerRandomReachesEveryOption(s: Surface, randomKey: string, x: int)
    requires Valid(s) && RandomTargetOf(s, randomKey).Some?
    requires !ExcludesCurrent(s.buttonConfigs[randomKey])
    requires 0 <= x < |s.buttonConfigs[RandomTargetOf(s, randomKey).value].cells|
    ensures exists rnd :: (0.0 <= rnd < 1.0 &&
      TriggerRandom(s, randomKey, rnd).inputValues[RandomTargetOf(s, randomKey).value] == Number(x))
  {
    var t := RandomTargetOf(s, randomKey).value;
    var n := |s.buttonConfigs[t].cells|;
    PickIndexReachesEveryIndex(n, x);
    var rnd := x as real / n as real;
    assert TriggerRandom(s, randomKey, rnd).inputValues[t] == Number(PickIndex(rnd, n));
  }

  // ---------------------------------------------------------------------
  // Per-frame update
  // ---------------------------------------------------------------------

  /** `update` clears oneshot values, applies the fader-button effect to the
      first eight faders, leaves fader 8 and everything else alone. */
  lemma UpdateEffects(s: Surface, beat: real, rand: (int, int) -> real)
    requires Valid(s)
    ensures var r := Update(s, beat, rand);
      && r.inputValues.Keys == s.inputValues.Keys
      && (forall k :: k in s.inputValues ==>
            r.inputValues[k] == if s.buttonConfigs[k].inputType == Oneshot then Bool(false) else s.inputValues[k])
      && r.faderValues[8] == s.faderValues[8]
      && (forall c :: 0 <= c < 8 && !s.faderButtonToggleState[c] ==> r.faderValues[c] == s.faderValues[c])
      && (forall c :: 0 <= c < 8 && s.faderButtonToggleState[c] && s.faderButtonMode == Mute ==>
            r.faderValues[c] == 0.0)
      && (forall c :: 0 <= c < 8 && s.faderButtonToggleState[c] && s.faderButtonMode == RandomGate ==>
            r.faderValues[c] == (if rand(beat.Floor, c) < 0.5 then 0.0 else 1.0))
      && r == s.(inputValues := r.inputValues, faderValues := r.faderValues)
  {
  }

  /** In mute mode a second `update` in the same frame changes nothing. */
  lemma UpdateIdempotentWhenMuting(s: Surface, beat: real, rand: (int, int) -> real)
    requires Valid(s) && s.faderButtonMode == Mute
    ensures Update(Update(s, beat, rand), beat, rand) == Update(s, beat, rand)
  {
    var r := Update(s, beat, rand);
    var rr := Update(r, beat, rand);
    assert rr.faderValues == r.faderValues;
    assert rr.inputValues == r.inputValues;
  }
}
