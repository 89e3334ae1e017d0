# Maltine Records VJ system: a verified model of its core

The system is a browser VJ tool. An APC Mini MK2 MIDI controller drives
scenes that are drawn with p5.js, and those scenes are composed from still
images, frame animations, overlays and a moving 3D camera. This project
models the state and logic of that core in Dafny and proves what the code
promises about it:

- **The APC Mini MK2 manager** (`apc_surface.dfy`, `apc_manager.dfy`, `apc_properties.dfy`, `cell_keys.dfy`, `midi_config.dfy`):
  - registering button configurations onto grid cells across eight pages;
  - the five input types: radio, toggle, oneshot, momentary and random;
  - the fader, fader-button and side-button handlers;
  - the per-frame update, with its oneshot reset and the mute or random fader gate;
  - the LED messages sent back each frame.

  `ApcSurface` states every operation as a function on a `Surface` value.
  The class `APCMiniMK2Manager` keeps the source's maps and fixed-size arrays
  as fields. Each of its methods is proved to move the object exactly as the
  matching function says. `ApcProperties` holds the behavioural lemmas.
- **The scene registry** (`scene_manager.dfy`): scenes by index, and the
  id-to-index map.
- **The two scene compositions** (`scene_composition.dfy`, `image_scene_composition.dfy`):
  - the fixed list of scene-composition mode names;
  - the image composition's registered modes, with the setter calls a mode
    change sends to its collaborators and the sizes `draw` uses.
- **Image sources** (`image_slots.dfy`, `animation_playback.dfy`, `image_animation.dfy`, `image_gallery.dfy`):
  - the sparse arrays that asynchronous image loads fill;
  - frame animations and their frame clock;
  - the categorised still-image gallery.
- **The camera** (`camera_transition.dfy`, `camera.dfy`): six camera patterns,
  immediate placement, and a two-beat interpolated transition.
- **The UI overlay manager** (`ui_manager.dfy`) and the numeric helpers (`math_utils.dfy`).

`wrappers.dfy` provides `Option`, `Result` and `Outcome`. They stand for
`undefined`/`null` and for the errors the source throws.

Where the source mutates an object, the model is a class with the same
fields. Each method's `ensures` ties the new state to a specification
function of the old state, and the lemmas state what those functions
promise.

## Model

| member | source | states |
|---|---|---|
| ApcSurface.Initial | src/midi/APCMiniMK2Manager.ts:97-105 | the constructed surface satisfies the invariant: nine faders at 0, nine fader toggles off, page 0, empty registry and values |
| ApcSurface.CellKeyList | src/midi/APCMiniMK2Manager.ts:120-132 | one registry key per configured cell, in order |
| ApcSurface.FirstTaken | src/midi/APCMiniMK2Manager.ts:120-132 | the first cell that is already registered, with none taken before it; None exactly when no cell is taken |
| ApcSurface.CellEntries | src/midi/APCMiniMK2Manager.ts:135-149 | the registry entries bind exactly the configured cells, each to the config's key and input type |
| ApcSurface.Register | src/midi/APCMiniMK2Manager.ts:116-179 | a successful registration keeps the surface invariant |
| ApcSurface.Bind | src/midi/APCMiniMK2Manager.ts:135-178 | binding the cells and seeding the default value keeps the invariant |
| ApcSurface.RegisterAll | src/midi/APCMiniMK2Manager.ts:185-189 | registering in order keeps the invariant |
| ApcSurface.HandleFaderButton | src/midi/APCMiniMK2Manager.ts:270-288 | fader-button handling keeps nine faders in [0, 1] and nine toggles |
| ApcSurface.HandleSideButton | src/midi/APCMiniMK2Manager.ts:293-311 | a press of side button i selects page i; a release changes nothing; the page stays in [0, 8) |
| ApcSurface.Candidates | src/midi/APCMiniMK2Manager.ts:512-518 | there are n - 1 candidates when the current value is an option below n, and n otherwise |
| ApcSurface.CandidatesAreTheOtherOptions | src/midi/APCMiniMK2Manager.ts:512-518 | the candidates are exactly the options below n other than the current value |
| ApcSurface.PickIndex | src/midi/APCMiniMK2Manager.ts:518-521 | `Math.floor(Math.random() * n)` is an index below n |
| ApcSurface.TriggerRandom | src/midi/APCMiniMK2Manager.ts:478-525 | a random binding without a radio target changes nothing; otherwise only the target's value changes, to one of the candidates |
| ApcSurface.Press | src/midi/APCMiniMK2Manager.ts:342-362 | a press of any input type keeps the invariant |
| ApcSurface.HandleGridPad | src/midi/APCMiniMK2Manager.ts:316-368 | grid handling keeps the invariant |
| ApcSurface.GridPadVelocity | src/midi/APCMiniMK2Manager.ts:441-468 | an unregistered pad is off; a radio pad shows the active colour iff the stored value is its cell index, a toggle or oneshot iff its value is true, a momentary iff it is held; a random pad always shows the active colour |
| ApcSurface.PageButtonLeds | src/midi/APCMiniMK2Manager.ts:403-409 | eight note-on messages to the side buttons in order; the current page's button has its page colour and every other button is off |
| ApcSurface.GridPadLeds | src/midi/APCMiniMK2Manager.ts:414-423 | sixty-four note-on messages, one per grid pad |
| ApcSurface.FaderButtonLeds | src/midi/APCMiniMK2Manager.ts:428-436 | nine note-on messages to the eight fader buttons and the ninth button, each on exactly when its fader toggle is on |
| ApcSurface.SendControls | src/midi/APCMiniMK2Manager.ts:394-398 | the page messages, then the grid messages, then the fader-button messages, 81 in all |
| ApcSurface.HandleFaderControlChange | src/midi/APCMiniMK2Manager.ts:373-385 | a fader value stays in [0, 1] |
| ApcSurface.HandleMidiMessage | src/midi/APCMiniMK2Manager.ts:256-265 | the four handlers in turn keep the invariant |
| ApcSurface.ResetOneshotValues | src/midi/APCMiniMK2Manager.ts:224-230 | the reset keeps the invariant |
| ApcSurface.GatedFader | src/midi/APCMiniMK2Manager.ts:235-247 | every fader value after the gate stays in [0, 1] |
| ApcSurface.UpdateFaderButtonEffects | src/midi/APCMiniMK2Manager.ts:235-247 | the gate keeps the invariant |
| ApcSurface.Update | src/midi/APCMiniMK2Manager.ts:210-219 | the frame update keeps the invariant |
| ApcSurface.GridPadLedAt | src/midi/APCMiniMK2Manager.ts:414-423 | the message for (row, col) sits at position col * 8 + row and is Note On channel 7 on the pad's note, with the pad's colour |
| ApcProperties.GridNoteRoundTrip | src/midi/APCMiniMK2Manager.ts:328-330 | decoding a grid note to (row, col) and encoding it again gives the note back |
| ApcProperties.GridCellRoundTrip | src/midi/APCMiniMK2Manager.ts:414-423 | encoding a cell as its LED note and decoding that note gives the cell back |
| ApcProperties.GridLedsAddressEveryPadOnce | src/midi/APCMiniMK2Manager.ts:414-423 | the 64 grid LED messages address 64 different grid notes, each with the colour of the pad it addresses, so every pad is lit exactly once |
| ApcProperties.PageChangesOnlyOnSideButton | src/midi/APCMiniMK2Manager.ts:256-311 | every message other than a side-button press, a side-button release included, leaves the current page unchanged |
| ApcProperties.GridMessagesReachOnlyGridPad | src/midi/APCMiniMK2Manager.ts:256-265 | a Note On or Note Off on notes 0..63 is handled by the grid handler alone |
| ApcProperties.SideButtonSelectsPage | src/midi/APCMiniMK2Manager.ts:293-311 | a side-button press selects page note - 112, changes nothing else, and only that page's button is then lit |
| ApcProperties.FaderButtonPressTwiceRestores | src/midi/APCMiniMK2Manager.ts:270-288 | a fader-button press flips its toggle, and a second press restores the surface |
| ApcProperties.FaderControlStoresNormalisedValue | src/midi/APCMiniMK2Manager.ts:373-385 | a fader's Control Change stores value / 127, so 0 maps to 0 and 127 maps to 1 |
| ApcProperties.RegisterFailsIffCellTaken | src/midi/APCMiniMK2Manager.ts:120-132 | registration fails exactly when some configured cell is already bound, and the error names the key of the first such cell |
| ApcProperties.RegisterStoresBinding | src/midi/APCMiniMK2Manager.ts:135-178 | a successful registration stores the config, binds every cell to its key, and seeds the default value |
| ApcProperties.CellEntriesKeepLastIndex | src/midi/APCMiniMK2Manager.ts:135-149 | a cell listed twice keeps the cell index of its last listing |
| ApcProperties.RegisterAllSplits | src/midi/APCMiniMK2Manager.ts:185-189 | registering a + b is registering a and then, unless a threw, b |
| ApcProperties.UnboundPadIgnored | src/midi/APCMiniMK2Manager.ts:332-338 | a message on a pad not registered on the current page leaves the surface unchanged |
| ApcProperties.ReleaseOnlyAffectsMomentary | src/midi/APCMiniMK2Manager.ts:363-367 | a release on a pad that is not momentary changes nothing |
| ApcProperties.RadioPressLightsPressedOption | src/midi/APCMiniMK2Manager.ts:345-347 | pressing a radio pad stores its index, and the pads of the same radio key are lit exactly when they are the pressed one |
| ApcProperties.TogglePressTwiceRestores | src/midi/APCMiniMK2Manager.ts:348-351 | a toggle press negates the stored truthiness, and two presses give back the same truthiness |
| ApcProperties.MomentaryHoldAndRelease | src/midi/APCMiniMK2Manager.ts:355-367 | a momentary pad reads true and is lit while held, and reads false after the release |
| ApcProperties.OneshotPulseLastsOneFrame | src/midi/APCMiniMK2Manager.ts:352-354 | a oneshot reads true after its press and false after the next update |
| ApcProperties.PickIndexReachesEveryIndex | src/midi/APCMiniMK2Manager.ts:518-521 | every index below n is produced by some draw in [0, 1) |
| ApcProperties.TriggerRandomReachesEveryOtherOption | src/midi/APCMiniMK2Manager.ts:504-525 | with excludeCurrent in force, every option other than the current one can be picked |
| ApcProperties.TriggerRandomReachesEveryOption | src/midi/APCMiniMK2Manager.ts:504-525 | with excludeCurrent false, every option can be picked |
| ApcProperties.UpdateEffects | src/midi/APCMiniMK2Manager.ts:210-247 | update clears every oneshot, gates toggled faders 0..7, and leaves fader 8 and the other values alone |
| ApcProperties.UpdateIdempotentWhenMuting | src/midi/APCMiniMK2Manager.ts:210-247 | in mute mode, a second update in the same frame changes nothing |
| ApcManager.APCMiniMK2Manager.constructor | src/midi/APCMiniMK2Manager.ts:97-105 | the object starts in the initial surface state with the configured fader-button mode |
| ApcManager.APCMiniMK2Manager.RegisterButton | src/midi/APCMiniMK2Manager.ts:116-179 | fails with the first taken cell's error and changes nothing, or moves to the registered state |
| ApcManager.APCMiniMK2Manager.StoreButton | src/midi/APCMiniMK2Manager.ts:135-178 | performs exactly the writes of a registration without conflicts |
| ApcManager.APCMiniMK2Manager.SetDefaultValue | src/midi/APCMiniMK2Manager.ts:155-178 | stores the seed value (defaultValue, else 0 for radio, else false) and, for momentary keys, the released state |
| ApcManager.APCMiniMK2Manager.FindTakenCell | src/midi/APCMiniMK2Manager.ts:120-132 | finds the first configured cell that is already registered |
| ApcManager.APCMiniMK2Manager.BindCells | src/midi/APCMiniMK2Manager.ts:135-149 | the registry gains exactly the config's cell entries |
| ApcManager.APCMiniMK2Manager.RegisterButtons | src/midi/APCMiniMK2Manager.ts:185-189 | registers in order and returns the first error, as the specification function says |
| ApcManager.APCMiniMK2Manager.Init | src/midi/APCMiniMK2Manager.ts:545-554 | registers the configured buttons; fails with `registerButtons`' error, the first already-taken cell, and passes otherwise |
| ApcManager.APCMiniMK2Manager.Update | src/midi/APCMiniMK2Manager.ts:210-219 | moves to the updated state and returns that state's LED messages |
| ApcManager.APCMiniMK2Manager.ResetOneshotValues | src/midi/APCMiniMK2Manager.ts:224-230 | performs the oneshot reset |
| ApcManager.APCMiniMK2Manager.UpdateFaderButtonEffects | src/midi/APCMiniMK2Manager.ts:235-247 | performs the fader gate over faders 0..7 |
| ApcManager.APCMiniMK2Manager.HandleMidiMessage | src/midi/APCMiniMK2Manager.ts:256-265 | handles one message as the specification function does |
| ApcManager.APCMiniMK2Manager.HandleFaderButton | src/midi/APCMiniMK2Manager.ts:270-288 | flips the addressed fader toggle on a press |
| ApcManager.APCMiniMK2Manager.HandleSideButton | src/midi/APCMiniMK2Manager.ts:293-311 | selects the addressed page on a press |
| ApcManager.APCMiniMK2Manager.HandleGridPad | src/midi/APCMiniMK2Manager.ts:316-368 | handles a grid message as the specification function does |
| ApcManager.APCMiniMK2Manager.PressCell | src/midi/APCMiniMK2Manager.ts:342-362 | applies the press of the cell's input type |
| ApcManager.APCMiniMK2Manager.HandleFaderControlChange | src/midi/APCMiniMK2Manager.ts:373-385 | stores the normalised fader value |
| ApcManager.APCMiniMK2Manager.CollectCandidates | src/midi/APCMiniMK2Manager.ts:512-518 | the loop collects exactly the candidate list |
| ApcManager.APCMiniMK2Manager.TriggerRandom | src/midi/APCMiniMK2Manager.ts:478-525 | re-picks the radio target as the specification function does |
| ApcManager.APCMiniMK2Manager.MidiOutputSendControls | src/midi/APCMiniMK2Manager.ts:394-398 | page LEDs, then grid LEDs, then fader-button LEDs |
| ApcManager.APCMiniMK2Manager.SendPageButtonLeds | src/midi/APCMiniMK2Manager.ts:403-409 | the eight page-button messages |
| ApcManager.APCMiniMK2Manager.SendGridPadLeds | src/midi/APCMiniMK2Manager.ts:414-423 | the nested loop sends exactly the 64 grid messages |
| ApcManager.APCMiniMK2Manager.SendFaderButtonLeds | src/midi/APCMiniMK2Manager.ts:428-436 | the nine fader-button messages |
| CellKeys.NatToDecimal | src/midi/APCMiniMK2Manager.ts:530-532 | a decimal rendering has at least one digit, and exactly one digit iff the number is below 10 |
| CellKeys.IntToDecimalInjective | src/midi/APCMiniMK2Manager.ts:530-532 | different integers render differently |
| CellKeys.GetCellKey | src/midi/APCMiniMK2Manager.ts:530-532 | `${page}-${row}-${col}`: the page's digits come first, then a dash, and the key is two dashes longer than its three numbers; distinct cells get distinct keys (`GetCellKeyInjective`) |
| CellKeys.GetCellKeyInjective | src/midi/APCMiniMK2Manager.ts:530-532 | two cells share the key `${page}-${row}-${col}` exactly when page, row and col are all equal |
| SceneManager.IndexMap | src/scenes/SceneManager.ts:49-52 | every mapped index is a position in the scene list |
| SceneManager.IndexMapIsLastPosition | src/scenes/SceneManager.ts:49-52 | an id is mapped iff some scene has it, and it maps to the last scene with that id |
| SceneManager.IndexMapOfConcat | src/scenes/SceneManager.ts:57-59 | registering more scenes without a given id leaves that id's index unchanged |
| SceneManager.RegisterThenLookUp | src/scenes/SceneManager.ts:49-52 | after a registration, the scene is the last one and its id leads to it |
| SceneManager.SceneManagerClass.constructor | src/scenes/SceneManager.ts:43-44 | starts with no scenes and an empty map |
| SceneManager.SceneManagerClass.Register | src/scenes/SceneManager.ts:49-52 | appends the scene and maps its id to its index, keeping the map consistent with the list |
| SceneManager.SceneManagerClass.RegisterAll | src/scenes/SceneManager.ts:57-59 | appends every scene in order |
| SceneManager.SceneManagerClass.GetScene | src/scenes/SceneManager.ts:64-66 | the scene at an index, and undefined exactly outside [0, count) |
| SceneManager.SceneManagerClass.GetIndexById | src/scenes/SceneManager.ts:79-81 | -1 exactly when no scene has the id; otherwise the index of a scene with that id |
| SceneManager.SceneManagerClass.GetSceneById | src/scenes/SceneManager.ts:71-74 | a scene with the id, and undefined exactly when there is none |
| SceneManager.SceneManagerClass.SceneCount | src/scenes/SceneManager.ts:86-95 | the number of scenes: the last index is valid and the count itself is not |
| SceneManager.SceneManagerClass.GetAllSceneIds | src/scenes/SceneManager.ts:100-102 | the ids, in registration order |
| SceneManager.SceneManagerClass.GetAllScenes | src/scenes/SceneManager.ts:107-109 | every scene, each at the index getScene gives it |
| SceneComposition.IndexOf | src/scenes/SceneComposition.ts:76-78 | `indexOf`: -1 iff absent, otherwise the first position of the name |
| SceneComposition.IndexOfDistinct | src/scenes/SceneComposition.ts:76-78 | in a list without repeats, indexOf undoes indexing |
| SceneComposition.ModeNamesDistinct | src/scenes/SceneComposition.ts:33-43 | the nine mode names are all different |
| SceneComposition.SceneComposition.constructor | src/scenes/SceneComposition.ts:23-46 | starts in mode "hand_1", a listed name |
| SceneComposition.SceneComposition.SetMode | src/scenes/SceneComposition.ts:51-55 | switches to a listed name and ignores any other |
| SceneComposition.SceneComposition.SetModeByIndex | src/scenes/SceneComposition.ts:60-64 | switches for an index in range, after which getCurrentModeIndex gives that index; any other index is ignored |
| SceneComposition.SceneComposition.GetCurrentModeIndex | src/scenes/SceneComposition.ts:76-78 | never -1: the position of the current name |
| SceneComposition.SceneComposition.GetModeNames | src/scenes/SceneComposition.ts:83-85 | the nine names in order |
| SceneComposition.SceneComposition.GetModeCount | src/scenes/SceneComposition.ts:90-92 | nine |
| SceneComposition.SceneComposition.GetCurrentModeName | src/scenes/SceneComposition.ts:69-71 | the current mode's name, always one of the nine listed names |
| ImageSceneComposition.ImageCommandsForwardDefinedFields | src/scenes/image/SceneComposition.ts:170-181 | each image setter is called exactly when its field is defined and belongs to the mode's image source; a category must be non-empty |
| ImageSceneComposition.OverlayCommandsForwardDefinedFields | src/scenes/image/SceneComposition.ts:184-191 | the pattern and mask setters are called exactly when defined and the overlay is a shader pattern |
| ImageSceneComposition.ApplyModeForwardsDefinedFields | src/scenes/image/SceneComposition.ts:168-192 | applyMode makes at most four calls, exactly the defined fields that belong to the mode |
| ImageSceneComposition.PlanUsesSizeDefaults | src/scenes/image/SceneComposition.ts:228-259 | a missing or zero size means 0.8 for the image and 0.4 for the overlay; no overlay is drawn only for NoOverlay; the circle fits inside the overlay box |
| ImageSceneComposition.ApplyMode | src/scenes/image/SceneComposition.ts:168-192 | at most four setter calls, the image-layer ones before the overlay ones |
| ImageSceneComposition.Plan | src/scenes/image/SceneComposition.ts:228-259 | image size is base times the mode's size or 0.8; a pattern overlay is base times its size or 0.4; a circle has diameter 0.8 of the smaller side; no overlay exactly for NoOverlay |
| ImageSceneComposition.PresetNamesDistinct | src/scenes/image/SceneComposition.ts:101-145 | the four presets have different names |
| ImageSceneComposition.SceneComposition.constructor | src/scenes/image/SceneComposition.ts:85-145 | the registry holds the four presets in order, and the current mode is "hand_with_circle" with its setter call sent |
| ImageSceneComposition.SceneComposition.RegisterDefaultModes | src/scenes/image/SceneComposition.ts:101-145 | installs the four presets and selects the first one |
| ImageSceneComposition.SceneComposition.RegisterPresets | src/scenes/image/SceneComposition.ts:101-143 | the registry maps each preset name to its preset, in registration order |
| ImageSceneComposition.SceneComposition.RegisterFour | src/scenes/image/SceneComposition.ts:101-143 | four registrations with distinct names give a four-entry map in that order |
| ImageSceneComposition.SceneComposition.RegisterMode | src/scenes/image/SceneComposition.ts:150-152 | stores the mode under its name; a new name goes to the end of the key order and a re-registered one keeps its place |
| ImageSceneComposition.SceneComposition.SetMode | src/scenes/image/SceneComposition.ts:157-163 | an unknown name changes nothing; a known one becomes current and sends its applyMode calls |
| ImageSceneComposition.SceneComposition.GetCurrentImage | src/scenes/image/SceneComposition.ts:197-204 | the gallery's image for a still, the animation's current frame for an animation |
| ImageSceneComposition.SceneComposition.UpdateAnimation | src/scenes/image/SceneComposition.ts:209-213 | in animation mode the animation is stepped exactly as its own update does; in any other mode it is left as it was; it stays valid |
| ImageSceneComposition.SceneComposition.Draw | src/scenes/image/SceneComposition.ts:228-246 | the image is drawn at its mode's size times the canvas, 0.8 when the size is missing or zero; a pattern overlay at its size times the canvas, 0.4 by default; a circle of 0.8 of the smaller overlay side; nothing for NoOverlay |
| ImageSceneComposition.SceneComposition.GetCurrentMode | src/scenes/image/SceneComposition.ts:264-266 | the current mode, whose name is registered |
| ImageSceneComposition.SceneComposition.GetModeNames | src/scenes/image/SceneComposition.ts:271-273 | the registered names in registration order, each exactly once |
| ImageSlots.TrimHoles | src/scenes/image/ImageAnimation.ts:70 | an array's length is one past its last assigned slot: only holes are dropped, and only at the end |
| ImageSlots.Assign | src/scenes/image/ImageGallery.ts:37 | `array[i] = img` stores img at i, grows the array with holes as needed, and leaves the other slots alone |
| ImageSlots.FilledReadsBack | src/scenes/image/ImageGallery.ts:29-49 | once the loads settle, reading slot i gives exactly the load's outcome, and undefined outside the array |
| ImageSlots.AssignAfterTrim | src/scenes/image/ImageAnimation.ts:62-82 | a success on the next slot extends the array by that image |
| ImageSlots.AssignCommutes | src/scenes/image/ImageAnimation.ts:62-82 | two loads that complete in either order leave the same array |
| ImageSlots.Fill | src/scenes/image/ImageGallery.ts:29-49 | the loop's array is the settled array |
| AnimationPlayback.Initial | src/scenes/image/ImageAnimation.ts:27-40 | a new animation is not loaded, has no images, and is at animation 0, frame 0 |
| AnimationPlayback.FramePath | src/scenes/image/ImageAnimation.ts:64 | `${basePath}/${anim}/${frame}.png`: the base path, a slash, and a `.png` ending |
| AnimationPlayback.LoadedImages | src/scenes/image/ImageAnimation.ts:60-83 | the loop makes the array at least `animationCount` long and keeps every slot at or above `animationCount` as it was |
| AnimationPlayback.LoadedImagesStep | src/scenes/image/ImageAnimation.ts:60-83 | one more animation slot replaces or appends that slot |
| AnimationPlayback.Load | src/scenes/image/ImageAnimation.ts:52-101 | a settled load leaves a valid, loaded state |
| AnimationPlayback.Update | src/scenes/image/ImageAnimation.ts:109-131 | update keeps the indices non-negative and the current animation in range |
| AnimationPlayback.SetAnimationIndex | src/scenes/image/ImageAnimation.ts:220-225 | the state stays valid |
| AnimationPlayback.SetFrameRate | src/scenes/image/ImageAnimation.ts:241-243 | the new rate is fps |
| AnimationPlayback.UpdateIdleUntilReady | src/scenes/image/ImageAnimation.ts:109-112 | before loading, or with no animations, update changes nothing and there is no frame |
| AnimationPlayback.UpdateStepsOnlyWhenDue | src/scenes/image/ImageAnimation.ts:115-130 | the frame advances and the frame time is taken exactly when a frame is due |
| AnimationPlayback.FrameDueAfterFrameDuration | src/scenes/image/ImageAnimation.ts:117-119 | a frame is due once 1000 / frameRate ms have passed; at rate 0 never |
| AnimationPlayback.FrameDue | src/scenes/image/ImageAnimation.ts:117-119 | never due at rate 0; at a positive rate due exactly when 1000 / frameRate ms have passed |
| AnimationPlayback.Advance | src/scenes/image/ImageAnimation.ts:120-127 | the next frame is frame + 1 while that is inside the animation, and 0 otherwise |
| AnimationPlayback.CurrentFrame | src/scenes/image/ImageAnimation.ts:172-183 | a frame only when loaded with the indices in range, and then the stored image of the current slot |
| AnimationPlayback.AdvanceStaysInAnimation | src/scenes/image/ImageAnimation.ts:120-127 | after a step the frame is inside the animation |
| AnimationPlayback.AdvanceTimesAdds | src/scenes/image/ImageAnimation.ts:120-127 | a steps and then b more are a + b steps |
| AnimationPlayback.AdvanceTimesCountsUp | src/scenes/image/ImageAnimation.ts:120-127 | from frame 0 the frames are shown in turn |
| AnimationPlayback.AdvanceTimesLoops | src/scenes/image/ImageAnimation.ts:120-127 | after q full rounds and r more steps the frame is r |
| AnimationPlayback.SetAnimationIndexAcceptsLoadedIndices | src/scenes/image/ImageAnimation.ts:220-225 | an index is accepted iff it names a loaded animation, and then the frame restarts at 0 |
| AnimationPlayback.SetFrameRateKeepsPlayback | src/scenes/image/ImageAnimation.ts:241-243 | only the frame rate changes: images, loaded flag, indices, clock and current frame are kept |
| AnimationPlayback.CurrentFrameIsStoredSlot | src/scenes/image/ImageAnimation.ts:172-183 | there is a frame iff loaded with the current slot filled, and it is that slot's image |
| AnimationPlayback.LoadedImagesReadBack | src/scenes/image/ImageAnimation.ts:60-83 | animation slot a holds exactly what the loads of its frame paths produced |
| AnimationPlayback.LoadThenChooseShowsFirstFrame | src/scenes/image/ImageAnimation.ts:52-101 | after loading and choosing animation a, the frame shown is the one loaded from `${basePath}/${a+1}/1.png` |
| ImageAnimation.ImageAnimation.constructor | src/scenes/image/ImageAnimation.ts:27-40 | the initial state |
| ImageAnimation.ImageAnimation.Load | src/scenes/image/ImageAnimation.ts:52-101 | the settled-load state |
| ImageAnimation.ImageAnimation.LoadImages | src/scenes/image/ImageAnimation.ts:60-83 | the nested loading loop builds the loaded image arrays |
| ImageAnimation.ImageAnimation.Update | src/scenes/image/ImageAnimation.ts:109-131 | the frame-clock step |
| ImageAnimation.ImageAnimation.GetCurrentFrame | src/scenes/image/ImageAnimation.ts:172-183 | null or the stored image of the current slot |
| ImageAnimation.ImageAnimation.SetAnimationIndex | src/scenes/image/ImageAnimation.ts:220-225 | the index change of the specification |
| ImageAnimation.ImageAnimation.GetAnimationIndex | src/scenes/image/ImageAnimation.ts:232-234 | a loaded animation's index, or 0 |
| ImageAnimation.ImageAnimation.SetFrameRate | src/scenes/image/ImageAnimation.ts:241-243 | the rate change |
| ImageAnimation.ImageAnimation.IsReady | src/scenes/image/ImageAnimation.ts:250-252 | true iff loaded |
| ImageGallery.SetCategory | src/scenes/image/ImageGallery.ts:27-28 | the named category holds the new array, and every other category is unchanged |
| ImageGallery.LoadCategories | src/scenes/image/ImageGallery.ts:19-53 | the gallery stays consistent |
| ImageGallery.UnlistedCategoryKept | src/scenes/image/ImageGallery.ts:19-53 | a category not listed in the load is left as it was |
| ImageGallery.LastEntryLoaded | src/scenes/image/ImageGallery.ts:19-53 | a category holds what its last listing's loads produced |
| ImageGallery.LoadedImageReadsBack | src/scenes/image/ImageGallery.ts:29-49 | slot i holds the image loaded from `${basePath}/${name}/${i+1}.png`, or a hole |
| ImageGallery.LoadKeepsOrderPrefix | src/scenes/image/ImageGallery.ts:19-53 | the categories already there stay in front |
| ImageGallery.LoadListsLoadedCategories | src/scenes/image/ImageGallery.ts:19-53 | every loaded category is listed |
| ImageGallery.LoadListsNothingElse | src/scenes/image/ImageGallery.ts:19-53 | only old and loaded categories are listed |
| ImageGallery.LoadFreshCategoriesAppends | src/scenes/image/ImageGallery.ts:19-53 | loading new, distinct names appends them in order |
| ImageGallery.ImageGallery.constructor | src/scenes/image/ImageGallery.ts:8-10 | an empty map |
| ImageGallery.ImageGallery.Load | src/scenes/image/ImageGallery.ts:19-53 | the settled-load gallery |
| ImageGallery.ImageGallery.GetImage | src/scenes/image/ImageGallery.ts:63-73 | category-not-found iff unknown; index-not-found with the max index when the slot is empty or out of range; otherwise the stored image |
| ImageGallery.ImageGallery.GetImageCount | src/scenes/image/ImageGallery.ts:78-80 | 0 for an unknown category, else the array length; every readable index is below it |
| ImageGallery.ImageGallery.GetLength | src/scenes/image/ImageGallery.ts:87-89 | the same as getImageCount |
| ImageGallery.ImageGallery.GetCategories | src/scenes/image/ImageGallery.ts:94-96 | the category names in insertion order, each exactly once |
| ImageGallery.ImageGallery.GetLabels | src/scenes/image/ImageGallery.ts:102-104 | the same as getCategories |
| CameraTransition.CameraPatterns | src/utils/camera.ts:53-60 | six patterns |
| CameraTransition.RotateY | src/utils/camera.ts:27-36 | fixed at x 0, z -1200 with no rotation; y sways by `sin(beat * 0.2) * 100`, so within [-100, 100] |
| CameraTransition.JsRem | src/utils/camera.ts:93 | JavaScript's `%`: magnitude below n, the sign of the dividend, and truncated division |
| CameraTransition.ParamsAt | src/utils/camera.ts:139-142 | parameters exist iff the index is inside the pattern list: a fixed pattern's own parameters, an animated one's at the beat |
| CameraTransition.SetCameraParameter | src/utils/camera.ts:103-110 | stores the parameters, with z offset by initZ; nothing else changes |
| CameraTransition.PushCamera | src/utils/camera.ts:118-131 | the position is kept, and the snapshot, target and start beat are recorded |
| CameraTransition.Progress | src/utils/camera.ts:161-162 | at most 1, and exactly 1 once two beats have passed; not positive at or before the start |
| CameraTransition.PatternIndexWraps | src/utils/camera.ts:92-97 | an index selects pattern `index % 6` with JavaScript's sign rule: for a non-negative index that is the Euclidean remainder, and the pattern is missing exactly when the remainder is negative |
| CameraTransition.SetCameraSelectsPattern | src/utils/camera.ts:92-97 | setCamera places the camera at pattern index % 6 at the beat |
| CameraTransition.InitialEasesToFirstPattern | src/utils/camera.ts:80-84 | a new camera eases straight to pattern 0 |
| CameraTransition.Initial | src/utils/camera.ts:80-84 | the camera starts at the origin pulled back by initZ, targeting pattern 0, with no transition snapshot and start beat 0 |
| CameraTransition.SetCamera | src/utils/camera.ts:92-97 | succeeds iff `index % 6` is not negative, then holds that pattern's parameters at the beat and nothing else changes; otherwise fails with the missing pattern index |
| CameraTransition.EaseCamera | src/utils/camera.ts:149-184 | the zero parameters without a target; fails iff the target pattern is missing; only the snapshot may change, and only by being cleared |
| CameraTransition.PushAfterSetSnapshotsParams | src/utils/camera.ts:118-131 | setting parameters p and pushing snapshots exactly p |
| CameraTransition.EaseWithoutSnapshotIsTarget | src/utils/camera.ts:155-158 | without a transition the result is the target pattern, and the state is unchanged |
| CameraTransition.EaseCompletesAfterTwoBeats | src/utils/camera.ts:160-183 | two beats after the start the result is the target and the transition is cleared |
| CameraTransition.EaseAtStartIsSnapshot | src/utils/camera.ts:160-176 | at or before the start the result is the snapshot |
| CameraTransition.EaseStaysBetween | src/utils/camera.ts:160-176 | during a transition each coordinate lies between its start and target values |
| Camera.Camera.constructor | src/utils/camera.ts:80-84 | the initial camera with the six patterns |
| Camera.Camera.SetCamera | src/utils/camera.ts:92-97 | the setCamera state change, failing for a pattern that does not exist |
| Camera.Camera.SetCameraParameter | src/utils/camera.ts:103-110 | the parameter state change |
| Camera.Camera.PushCamera | src/utils/camera.ts:118-131 | the push state change |
| Camera.Camera.EaseCamera | src/utils/camera.ts:149-184 | the eased parameters and the state left, failing for a missing target |
| Camera.Camera.Resize | src/utils/camera.ts:197-199 | only initZ changes |
| UiManager.NormalizedIndexIsADrawer | src/core/uiManager.ts:199-205 | the result is a drawer index, and 0 for input that is not a finite number |
| UiManager.NormalizedIndexFloorsAndClamps | src/core/uiManager.ts:199-205 | floor, then clamp to [0, count - 1]; an integer in range is kept |
| UiManager.NormalizePatternIndex | src/core/uiManager.ts:199-205 | an index below the drawer count; 0 for a non-finite input |
| UiManager.NormalizedIndexWithOneDrawer | src/core/uiManager.ts:81-83 | with the one drawer every input gives 0 |
| UiManager.DrawerAt | src/core/uiManager.ts:183 | an index without a drawer falls back to the first |
| UiManager.UIManager.constructor | src/core/uiManager.ts:97-100 | no texture, pattern 0 |
| UiManager.UIManager.Init | src/core/uiManager.ts:111-113 | a texture of the canvas size |
| UiManager.UIManager.GetTexture | src/core/uiManager.ts:125-131 | fails iff not initialised; otherwise the texture |
| UiManager.UIManager.Resize | src/core/uiManager.ts:142-148 | fails iff not initialised, changing nothing; otherwise the new size |
| UiManager.UIManager.Update | src/core/uiManager.ts:161-162 | changes nothing |
| UiManager.UIManager.Draw | src/core/uiManager.ts:175-187 | fails iff not initialised; otherwise calls the active drawer on the texture at beat millis / 500 |
| MathUtils.Clamp01 | src/utils/mathUtils.ts:6 | the parameter clamped to [0, 1] |
| MathUtils.Lerp | src/utils/mathUtils.ts:5-7 | the result lies between a and b; a for t <= 0 and b for t >= 1 |
| MathUtils.LerpBetween | src/utils/mathUtils.ts:5-7 | for t in [0, 1], a + (b - a) t lies between a and b |
| MathUtils.LerpEndpoints | src/utils/mathUtils.ts:5-7 | lerp(a, b, 0) = a, lerp(a, b, 1) = b, and inside [0, 1] the clamp does nothing |

## Left out

- Drawing and rendering are not modelled: p5.js calls, shaders, textures' pixels, `drawCamera`, `drawP5Overlay`'s strokes and the UI drawer's output. The model keeps only the sizes and which drawer is called.
- MIDI transport is not modelled: the Web MIDI connection, `send` and `onMidiAvailabilityChanged`. Outgoing messages are returned as values.
- The `midiInput` getter (src/midi/APCMiniMK2Manager.ts:198) is the read API over the stored input values. It is not a member of its own: it copies the `inputValues` map into a record, and the model exposes that map directly.
- Console logging is left out.
- Default arguments are not modelled; every caller passes every argument. The source's defaults are `load`'s `animationCount = 5` and `framesPerAnimation = 40` (src/scenes/image/ImageAnimation.ts:55-56), `setCamera`'s `patternIndex = 0` and `beat = 0` (src/utils/camera.ts:92), and the animation constructor's `frameRate = 30` (src/scenes/image/ImageAnimation.ts:27). Its texture sizes of 1024 are left out with the textures. The gallery has no defaults.
- Clocks and randomness are parameters:
  - `p.millis()` is `now`/`currentTime`/`millis`;
  - `Math.random()` is `rnd` in [0, 1);
  - `UniformRandom.rand` is the function `rand`;
  - the beat clock is `beat`.
- The LED colour constants are not part of this model. They are the `LedPalette` parameter.
- Asynchronous loads are modelled only once every load has settled: a load function says which paths succeed. The order in which loads complete is not modelled. `AssignCommutes` shows that it does not change the result.
- Positions, sizes, times and fader values are reals; stored input values (`defaultValue`, radio indices) are integers, so a fractional `defaultValue` is not modelled. NaN and infinities are not modelled. The one exception is the pattern input of `normalizePatternIndex`, which has its own case for them. Non-integer counts and indices are not modelled.
- `angleClamp` (src/utils/mathUtils.ts:1-3) is left out: its modulus 2π is irrational. Only the two dynamic camera patterns `rotateCameraPattern` and `aboveCameraPattern` call it (src/utils/camera.ts:21-23, 43-45), and the model takes those patterns as the `PatternEnv` parameter.
- The camera's dynamic patterns need things this model leaves out:
  - the parts that use `GVM`/`Easing` are not part of this model, so they are the `PatternEnv` parameter;
  - `initZ` is passed in, because it comes from `tan`.
- `Camera.Camera.Resize`: like the source, it only updates `initZ`. The stored `z` keeps the old offset until the next `setCameraParameter`.
- A negative camera pattern index makes JavaScript's `%` negative, and the source then reads an undefined pattern. The model returns `CameraError` there instead of crashing.
- ImageGallery.ts has no `setCategory`, `setImageIndex` or `getCurrentImage`, although the image composition calls them. The model records those calls as `Command`s and takes the gallery's current image as a parameter.
- `ImageSceneComposition.SceneComposition.SetMode` does not model the crash on a still-image mode ("animal_with_grid", "human_simple"). As written, `setMode` assigns `currentMode` and then throws a TypeError at `this.imageGallery.setCategory` (src/scenes/image/SceneComposition.ts:159-160, 170-172), so the overlay setters are never called. `getCurrentImage` throws the same way for a still (line 199). The model's `SetMode` records `SetCategory`/`SetImageIndex` and the overlay calls and succeeds, and `GetCurrentImage` returns the image passed in.
- Parts of the image composition's `update` are left out. Its calls into the image layer and the overlay pattern go to code outside the core. Only the animation step is modelled (`UpdateAnimation`).
- Some members of src/scenes/SceneComposition.ts are left out: `update`, `draw` and the renderer/pattern/overlay accessors (lines 97-138). They only forward to collaborators outside the core.
- `UiManager.UIManager`: `activePatternIndex` is never changed by the source, and `normalizePatternIndex` is private and never called. Both are modelled as written.
- `getCellKey`'s string keys are replaced by a `CellId(page, row, col)` key in the registry. `CellKeys.GetCellKeyInjective` shows that the string is a faithful key.
- `ApcSurface.Register`, `ApcSurface.Press` and the other surface transition functions: their own contracts state only the invariant. What each transition does is stated by the lemmas in `ApcProperties` and by the methods' `ensures`.
