# AccordionTest free-play keyboard and frame clock, in Dafny

AccordionTest is an openFrameworks application that plays an accordion. A
webcam gives the bellows gesture, and the computer keyboard plays the notes.
This project models the discrete part of its application object (`ofApp`)
and proves properties about it:

- **Letter-to-note lookup** (`KeyLayout`). A lower-case letter sounds the
  MIDI note given by its position in the fixed string
  `"q.wer..t.y..u.iop..a.s..d.fgh..j.k..l.zxc..v.b..n.m"`, plus 35. The
  string is the three QWERTY rows, with `.` filling the semitones that have
  no key. `Find` models `std::string::find`. `NoteOf` models the addition,
  which is done in `size_t`, so npos + 35 wraps round to 34. That value is
  unreachable for letters, as the lemmas show. The mapping is checked
  against an independent table, `LetterNotes`, written out by hand.
- **Free-play key handlers** (`KeyHandling`, `OfApp.App`).
  - `Pressed` and `Released` are pure specifications of `keyPressed` and
    `keyReleased`. They act on the set `playing` of sounding notes and on the
    flags `keybOn` (on-screen keyboard) and `fulscr` (full screen).
  - They return the calls the handlers make, in order: `noteOn(1, note, 127)`,
    `noteOff(1, note)` and `ofSetFullscreen(fulscr)`.
  - `App.KeyPressed` and `App.KeyReleased` do the same thing in place, on the
    fields of class `App`, and append each call to the field `events`.
  - `App` keeps an invariant tying the two together: `playing` is exactly the
    set of notes that the logged calls leave sounding (`Sounding(events)`).
- **Frame clock** (`FrameClock`, `App.OnNewFrame`). This is the integer part of
  `update` for each new camera frame.
  - The frame counter goes up by one.
  - `lastTime` starts at the sentinel -1. The first frame replaces it, so
    that frame's `dT` is 0 and the whole update runs with `dT = 0`
    (src/ofApp.cpp:59-61). After that, `dT` is the time since the previous
    frame.
  - Tracked features are re-seeded on every tenth frame.
  - Over runs of frames, `Run` and its lemmas prove how many resets happen
    and that the `dT`s add up to the elapsed time.

Inputs from outside are parameters:
- the key code passed to each handler;
- the frame time in milliseconds, which stands in for
  `ofGetElapsedTimeMillis()`;
- whether the averaged flow came out NaN.

Synthesizer and window calls are recorded as `Event` values and not
performed.

The key codes `TabKey = 9` and `F11Key = 0x10B` are openFrameworks'
`OF_KEY_TAB` and `OF_KEY_F11` (`11 | OF_KEY_MODIFIER`). openFrameworks'
`ofConstants.h` is not part of this model. The proofs use only that the two
codes differ from each other and from the letters.

## Model

| member | source | states |
|---|---|---|
| `KeyLayout.Find` | src/ofApp.cpp:172-173 | `std::string::find`: None exactly when the character does not occur from `from` on; otherwise the position holds it and no earlier position does |
| `KeyLayout.NoteOfFindsFirst` | src/ofApp.cpp:172-173 | `NoteOf`, the lookup `find(key) + 35`: when the layout holds a character at position i, its note is 35 plus the first position holding it, at most 35 + i, and that position holds the character |
| `KeyLayout.NoteOfMissing` | src/ofApp.cpp:172-173 | a character missing from the layout gets npos + 35, which wraps round to 34 in size_t |
| `KeyLayout.LayoutAgreesWithTable` | src/ofApp.cpp:172 | every position of the layout holds `.` or a letter whose table note is that position plus 35 |
| `KeyLayout.TableCoversLetters` | src/ofApp.cpp:170-172 | every letter 'a'..'z' has a table entry, and the layout holds that letter at the entry's position |
| `KeyLayout.LetterInLayout` | src/ofApp.cpp:170-173 | every letter 'a'..'z' occurs in the layout, so `find` never returns npos under the handler's guard |
| `KeyLayout.NoteOfLetter` | src/ofApp.cpp:172-173 | each letter's note equals the independent table `LetterNotes` |
| `KeyLayout.LetterNoteRange` | src/ofApp.cpp:170-173 | every letter's note lies in 35..85, at a position of the layout that holds that letter |
| `KeyLayout.LowestNote` | src/ofApp.cpp:172-173 | 'q' sounds 35 |
| `KeyLayout.HighestNote` | src/ofApp.cpp:172-173 | 'm' sounds 85 |
| `KeyLayout.LetterNoteInjective` | src/ofApp.cpp:172-173 | two letters sound the same note if and only if they are the same letter |
| `KeyHandling.KeyNote` | src/ofApp.cpp:201-204 | the note of a letter key code, the one lookup shared by press and release, lies in 35..85 |
| `KeyHandling.KeyNoteInjective` | src/ofApp.cpp:172-204 | two letter key codes sound the same note if and only if they are the same key |
| `KeyHandling.DuplicatePressIsSilent` | src/ofApp.cpp:174 | pressing a letter whose note is already sounding makes no call and changes no state |
| `KeyHandling.FreshPressSoundsNote` | src/ofApp.cpp:174-191 | pressing a letter whose note is silent emits exactly `noteOn(1, note, 127)` then `ofSetFullscreen(fulscr)`, adds exactly that note, and leaves both flags alone |
| `KeyHandling.ReleaseOfSilentNoteIsNoOp` | src/ofApp.cpp:205 | releasing a letter whose note is not sounding makes no call and changes nothing |
| `KeyHandling.ReleaseStopsNote` | src/ofApp.cpp:205-209 | releasing a letter whose note sounds emits exactly `noteOff(1, note)` and removes exactly that note |
| `KeyHandling.PressThenReleaseRestores` | src/ofApp.cpp:168-211 | a fresh press then release of one letter restores the whole key state, having emitted noteOn, ofSetFullscreen, noteOff in that order |
| `KeyHandling.OtherLetterLeavesNoteAlone` | src/ofApp.cpp:172-209 | pressing or releasing one letter never changes whether another letter's note sounds |
| `KeyHandling.NonLetterKeepsNotes` | src/ofApp.cpp:168-211 | a non-letter key never changes the sounding notes; when pressed it only reasserts full screen, and its release does nothing |
| `KeyHandling.ToggleKeys` | src/ofApp.cpp:182-189 | Tab and only Tab flips `keybOn`; F11 and only F11 flips `fulscr` |
| `KeyHandling.ToggleTwiceRestores` | src/ofApp.cpp:182-189 | two presses of Tab, or of F11, restore the key state |
| `KeyHandling.HandlersKeepNotesInRange` | src/ofApp.cpp:173-209 | both handlers keep every sounding note within 35..85 |
| `KeyHandling.PressedTracksSynth` | src/ofApp.cpp:174-178 | if `playing` was what the logged calls leave sounding, it still is after a press and its calls |
| `KeyHandling.ReleasedTracksSynth` | src/ofApp.cpp:205-209 | the same for a release |
| `FrameClock.TickAdvances` | src/ofApp.cpp:55-68 | one frame adds one to the counter and records `now`; `dT` is 0 when no time was recorded, else `now - lastTime`; features are reset exactly when the new count is a multiple of 10 |
| `FrameClock.FirstFrameHasNoElapsedTime` | src/ofApp.cpp:58-62 | from the initial clock, the first frame has `dT = 0`, records its time and does not reset features |
| `FrameClock.RunFacts` | src/ofApp.cpp:54-68 | over k frames: the counter rises by k and the last time is kept; the i-th frame resets exactly when its count is a multiple of 10; the first `dT` follows the sentinel rule and each later `dT` is the difference of consecutive times |
| `FrameClock.ResetCount` | src/ofApp.cpp:68 | from count n, k frames reset features (n + k) / 10 - n / 10 times |
| `FrameClock.ResetsFromStart` | src/ofApp.cpp:55-68 | from the initial clock, k frames reset features k / 10 times |
| `FrameClock.ElapsedTimeTelescopes` | src/ofApp.cpp:58-62 | once a time is recorded, the `dT`s of a run add up to the last frame time minus that recorded time |
| `FrameClock.ElapsedFromStart` | src/ofApp.cpp:58-62 | from the initial clock, the `dT`s add up to the last frame time minus the first |
| `OfApp.App.constructor` | src/ofApp.cpp:38-39 | both flags are off as `setup` sets them, `lastTime` is the sentinel -1 it is declared with (src/ofApp.h:33), no note sounds, nothing is logged, and the frame counter is taken to start at 0 |
| `OfApp.App.KeyPressed` | src/ofApp.cpp:168-192 | the new key state and logged calls are those of `Pressed`; the clock fields are unchanged; the invariant `playing == Sounding(events)` is kept |
| `OfApp.App.KeyReleased` | src/ofApp.cpp:199-211 | the new key state and logged calls are those of `Released`; the clock fields are unchanged; the invariant is kept |
| `OfApp.App.OnNewFrame` | src/ofApp.cpp:54-87 | the new clock, `dT` and reset flag are those of `Tick`; `lastTime` equals `now` even when the NaN test returns from `update`; that return skips everything after it (smoothing, volume, slew, bellows), and `smoothingRuns` stands for that remainder; key state and log are unchanged |

## Left out

- Optical flow (`calcOpticalFlow`, `getMotion`) and camera capture are calls into library code. `resetFeaturesToTrack` is represented only by the reset flag (src/ofApp.cpp:51, 67-69).
- Flow averaging, the exponential smoothing with `exp` and `tau`, and the NaN comparison are floating point. The NaN outcome is an input to `OnNewFrame` (src/ofApp.cpp:65, 71-91).
- The volume `controlChange` (src/ofApp.cpp:94-95), the keyboard slew and the bellows `compress` easing (src/ofApp.cpp:99-110) are float easing and casting laws. The slew and the easing run on every call to `update`, new frame or not, except when the NaN test returns first; `smoothingRuns` is false exactly then.
- `draw`, `drawBaffle`, `drawKeys` and `mouseMoved` are rendering and pointer input.
- `setup`'s camera, synthesizer and SoundFont initialisation are omitted, along with its float fields (`compress`, `velocity`, `keybPosition`). Only its flag initialisation is in the constructor.
- The `camera.isFrameNew()` test (src/ofApp.cpp:54) is the caller's choice to call `OnNewFrame`. A frame that is not new changes none of the modelled fields.
- `OfApp.App.constructor`: the frame counter's starting value of 0 is assumed. `numFrames` has no initialiser in src/ofApp.cpp or src/ofApp.h, so in the C++ its first value is not fixed; `FrameClock.ResetsFromStart` and `FrameClock.ElapsedFromStart` start from that assumed 0. The declarations of `numFrames` and `playing` are not in the header, and `playing` is taken to start empty.
- `src/main.cpp` sets up the window and starts the program, and is not part of this model.
- `OfApp.App.OnNewFrame`: `numFrames` is unbounded. The C++ `int` would overflow after 2^31 frames, which is undefined behaviour with no defined result to model. For the same reason `numFrames % 10` is Dafny's `%` on a natural number. For non-negative counts that agrees with C++.
- `OfApp.App.OnNewFrame`: `now` is any integer and `dT` is an integer. The code narrows `ofGetElapsedTimeMillis()` to `int` and stores `dT` as a `float`. Both conversions are left out.
- `FrameClock.RunFacts`: the difference law for `dT` is stated only where the previous frame time is not -1. The code cannot tell such a time from "no frame yet" and then reports `dT = 0`.
