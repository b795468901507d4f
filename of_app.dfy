/**
 * The application object: the free-play key handlers and the integer part
 * of the per-frame update, as methods that change its fields in place.  The
 * calls it makes to the synthesizer and the window are appended to `events`.
 */
module OfApp {
  import opened KeyLayout
  import opened KeyHandling
  import opened FrameClock

  class App {
    /** Notes currently sounding in free play. */
    var playing: set<int>
    /** The on-screen keyboard is shown. */
    var keybOn: bool
    /** The window is full-screen. */
    var fulscr: bool
    /** Every call made to the synthesizer or the window, oldest first. */
    var events: seq<Event>
    /** New camera frames seen so far. */
    var numFrames: nat
    /** Time of the latest new frame in milliseconds, or NoTime before the first. */
    var lastTime: int

    /** `playing` is exactly what the calls made so far leave sounding, and holds only letter notes. */
    ghost predicate Valid()
      reads this
    {
      playing == Sounding(events) && NotesInRange(playing)
    }

    function KeyState(): Keys
      reads this
    {
      Keys(playing, keybOn, fulscr)
    }

    function ClockState(): Clock
      reads this
    {
      Clock(numFrames, lastTime)
    }

    /**
     * The starting state: setup clears both flags, lastTime is declared as -1,
     * and no note sounds and no call is logged yet.  The frame counter has no
     * initialiser in the C++; it is taken to start at 0.
     */
    constructor ()
      ensures Valid()
      ensures playing == {} && !keybOn && !fulscr && events == []
      ensures ClockState() == Start
    {
      playing := {};
      keybOn := false;
      fulscr := false;
      events := [];
      numFrames := 0;
      lastTime := NoTime;
    }

    /** keyPressed: the state and the calls are those `Pressed` describes. */
    method KeyPressed(key: int)
      requires Valid()
      modifies this
      ensures Valid()
      ensures KeyState() == Pressed(old(KeyState()), key).after
      ensures events == old(events) + Pressed(old(KeyState()), key).emitted
      ensures ClockState() == old(ClockState())
    {
      ghost var before, log := KeyState(), events;
      ghost var r := Pressed(before, key);
      PressedTracksSynth(before, key, log);
      HandlersKeepNotesInRange(before, key);
      ToggleKeys(before, key);
      if IsLetter(key) {
        var note := KeyNote(key);
        if note in playing {
          DuplicatePressIsSilent(before, key);
          assert log + [] == log;
          return;
        }
        FreshPressSoundsNote(before, key);
        events := events + [NoteOn(Channel, note, Velocity)];
        playing := playing + {note};
      } else {
        NonLetterKeepsNotes(before, key);
      }
      if key == TabKey {
        keybOn := !keybOn;
      }
      if key == F11Key {
        fulscr := !fulscr;
      }
      events := events + [SetFullscreen(fulscr)];
      if IsLetter(key) {
        assert log + [NoteOn(Channel, KeyNote(key), Velocity)] + [SetFullscreen(fulscr)]
            == log + [NoteOn(Channel, KeyNote(key), Velocity), SetFullscreen(fulscr)];
      }
      assert playing == r.after.playing && events == log + r.emitted;
    }

    /** keyReleased: the state and the calls are those `Released` describes. */
    method KeyReleased(key: int)
      requires Valid()
      modifies this
      ensures Valid()
      ensures KeyState() == Released(old(KeyState()), key).after
      ensures events == old(events) + Released(old(KeyState()), key).emitted
      ensures ClockState() == old(ClockState())
    {
      ReleasedTracksSynth(KeyState(), key, events);
      HandlersKeepNotesInRange(KeyState(), key);
      if IsLetter(key) {
        var note := KeyNote(key);
        if note !in playing {
          return;
        }
        events := events + [NoteOff(Channel, note)];
        playing := playing - {note};
      }
    }

    /**
     * The integer bookkeeping of `update` for a new camera frame at time `now`.
     * `tiltIsNaN` says whether the averaged flow came out NaN.  The NaN test
     * returns from `update` altogether, skipping everything after it (the
     * smoothing, the volume, the keyboard slew and the bellows easing);
     * `smoothingRuns` says whether that remainder runs.  Every integer field
     * is already updated before the test.
     */
    method OnNewFrame(now: int, tiltIsNaN: bool) returns (dT: int, resetFeatures: bool, smoothingRuns: bool)
      modifies this
      ensures ClockState() == Tick(old(ClockState()), now).after
      ensures dT == Tick(old(ClockState()), now).dT
      ensures resetFeatures == Tick(old(ClockState()), now).resetFeatures
      ensures numFrames == old(numFrames) + 1 && lastTime == now
      ensures dT == if old(lastTime) == NoTime then 0 else now - old(lastTime)
      ensures resetFeatures <==> numFrames % 10 == 0
      ensures smoothingRuns <==> !tiltIsNaN
      ensures KeyState() == old(KeyState()) && events == old(events)
    {
      numFrames := numFrames + 1;
      if lastTime == NoTime {
        lastTime := now;
      }
      dT := now - lastTime;
      lastTime := now;
      resetFeatures := numFrames % ResetPeriod == 0;
      if tiltIsNaN {
        smoothingRuns := false;
        return;
      }
      smoothingRuns := true;
    }
  }
}
