/** The constants of src/midi/config.ts. */
module MidiConfig {
  import opened ApcSurface

  /** The grid buttons registered at start-up: none are configured. */
  const MIDI_BUTTON_CONFIGS: seq<ButtonConfig> := []

  const FADER_BUTTON_MODE: FaderButtonMode := Mute
}
