/**
 * What the application's key handlers do to the free-play state, stated as
 * pure functions: the set of sounding notes, the on-screen-keyboard and
 * full-screen flags, and the calls made to the synthesizer and the window.
 */
module KeyHandling {
  import opened KeyLayout

  /** openFrameworks key codes (OF_KEY_TAB, and OF_KEY_F11 = 11 | OF_KEY_MODIFIER). */
  const TabKey: int := 9
  const F11Key: int := 0x10B

  /** The synthesizer channel and the note-on velocity used for free play. */
  const Channel: int := 1
  const Velocity: int := 127

  /** The outside calls the handlers make, in the order they make them. */
  datatype Event =
    | NoteOn(channel: int, note: int, velocity: int)
    | NoteOff(channel: int, note: int)
    | SetFullscreen(on: bool)

  /** The part of the application state the key handlers read and write. */
  datatype Keys = Keys(playing: set<int>, keybOn: bool, fulscr: bool)

  /** The state after a handler and the calls it made. */
  datatype Reaction = Reaction(after: Keys, emitted: seq<Event>)

  /** The handlers' `key >= 'a' && key <= 'z'` test on the integer key code. */
  predicate IsLetter(key: int) { 'a' as int <= key <= 'z' as int }

  /** The note a letter key sounds; press and release both look it up here. */
  function KeyNote(key: int): (n: int)
    requires IsLetter(key)
    ensures 35 <= n <= 85
  {
    LetterNoteRange(key as char);
    NoteOf(key as char)
  }

  /** Two letter keys sound the same note if and only if they are the same key. */
  lemma KeyNoteInjective(key1: int, key2: int)
    requires IsLetter(key1) && IsLetter(key2)
    ensures KeyNote(key1) == KeyNote(key2) <==> key1 == key2
  {
    LetterNoteInjective(key1 as char, key2 as char);
  }

  /** Every note in the set is one a letter key can sound. */
  predicate NotesInRange(playing: set<int>) {
    forall n :: n in playing ==> 35 <= n <= 85
  }

  /**
   * keyPressed.  A letter whose note sounds returns at once; any other letter
   * sounds its note and falls through to the Tab and F11 tests, which a
   * letter never passes, and to ofSetFullscreen.
   */
  function Pressed(k: Keys, key: int): Reaction {
    if IsLetter(key) then
      if KeyNote(key) in k.playing then Reaction(k, [])
      else Reaction(k.(playing := k.playing + {KeyNote(key)}),
                    [NoteOn(Channel, KeyNote(key), Velocity), SetFullscreen(k.fulscr)])
    else
      var keybOn := if key == TabKey then !k.keybOn else k.keybOn;
      var fulscr := if key == F11Key then !k.fulscr else k.fulscr;
      Reaction(k.(keybOn := keybOn, fulscr := fulscr), [SetFullscreen(fulscr)])
  }

  /** keyReleased. */
  function Released(k: Keys, key: int): Reaction {
    if !IsLetter(key) || KeyNote(key) !in k.playing then
      Reaction(k, [])
    else
      Reaction(k.(playing := k.playing - {KeyNote(key)}), [NoteOff(Channel, KeyNote(key))])
  }

  /** The notes sounding after one more call. */
  function AfterCall(sounding: set<int>, e: Event): set<int> {
    match e
    case NoteOn(_, n, _) => sounding + {n}
    case NoteOff(_, n) => sounding - {n}
    case SetFullscreen(_) => sounding
  }

  /** The notes a log of calls leaves sounding, starting from silence. */
  function Sounding(log: seq<Event>): set<int>
    decreases |log|
  {
    if log == [] then {} else AfterCall(Sounding(log[..|log| - 1]), log[|log| - 1])
  }

  lemma SoundingAppendOne(log: seq<Event>, e: Event)
    ensures Sounding(log + [e]) == AfterCall(Sounding(log), e)
  {
    assert (log + [e])[..|log + [e]| - 1] == log;
  }

  /** Pressing a letter whose note is already sounding makes no call and changes nothing. */
  lemma DuplicatePressIsSilent(k: Keys, key: int)
    requires IsLetter(key) && KeyNote(key) in k.playing
    ensures Pressed(k, key) == Reaction(k, [])
  {
  }

  /**
   * Pressing a letter whose note is silent turns exactly that note on with
   * full velocity, adds it (and nothing else) to the set, leaves both flags
   * alone and reasserts the full-screen state.
   */
  lemma FreshPressSoundsNote(k: Keys, key: int)
    requires IsLetter(key) && KeyNote(key) !in k.playing
    ensures Pressed(k, key).after == k.(playing := k.playing + {KeyNote(key)})
    ensures Pressed(k, key).emitted == [NoteOn(1, KeyNote(key), 127), SetFullscreen(k.fulscr)]
    ensures |Pressed(k, key).after.playing| == |k.playing| + 1
  {
  }

  /** Releasing a letter whose note is silent makes no call and changes nothing. */
  lemma ReleaseOfSilentNoteIsNoOp(k: Keys, key: int)
    requires IsLetter(key) && KeyNote(key) !in k.playing
    ensures Released(k, key) == Reaction(k, [])
  {
  }

  /** Releasing a letter whose note sounds turns exactly that note off and removes only it. */
  lemma ReleaseStopsNote(k: Keys, key: int)
    requires IsLetter(key) && KeyNote(key) in k.playing
    ensures Released(k, key).after == k.(playing := k.playing - {KeyNote(key)})
    ensures Released(k, key).emitted == [NoteOff(1, KeyNote(key))]
    ensures |Released(k, key).after.playing| == |k.playing| - 1
  {
  }

  /** A fresh press followed by the release of the same key restores the set of sounding notes. */
  lemma PressThenReleaseRestores(k: Keys, key: int)
    requires IsLetter(key) && KeyNote(key) !in k.playing
    ensures Released(Pressed(k, key).after, key).after == k
    ensures Pressed(k, key).emitted + Released(Pressed(k, key).after, key).emitted
         == [NoteOn(1, KeyNote(key), 127), SetFullscreen(k.fulscr), NoteOff(1, KeyNote(key))]
  {
    var p := Pressed(k, key).after;
    assert p.playing - {KeyNote(key)} == k.playing;
  }

  /** Different letters never disturb each other's notes. */
  lemma OtherLetterLeavesNoteAlone(k: Keys, key: int, other: int)
    requires IsLetter(key) && IsLetter(other) && key != other
    ensures KeyNote(other) in Pressed(k, key).after.playing <==> KeyNote(other) in k.playing
    ensures KeyNote(other) in Released(k, key).after.playing <==> KeyNote(other) in k.playing
  {
    KeyNoteInjective(key, other);
  }

  /** Keys that are not letters never change the set of sounding notes; releasing them does nothing. */
  lemma NonLetterKeepsNotes(k: Keys, key: int)
    requires !IsLetter(key)
    ensures Pressed(k, key).after.playing == k.playing
    ensures Pressed(k, key).emitted == [SetFullscreen(Pressed(k, key).after.fulscr)]
    ensures Released(k, key) == Reaction(k, [])
  {
  }

  /** Tab flips the on-screen keyboard and F11 the full-screen flag; nothing else flips either. */
  lemma ToggleKeys(k: Keys, key: int)
    ensures Pressed(k, key).after.keybOn == (if key == TabKey then !k.keybOn else k.keybOn)
    ensures Pressed(k, key).after.fulscr == (if key == F11Key then !k.fulscr else k.fulscr)
  {
  }

  /** Pressing a toggle key twice restores the state. */
  lemma ToggleTwiceRestores(k: Keys, key: int)
    requires key == TabKey || key == F11Key
    ensures Pressed(Pressed(k, key).after, key).after == k
  {
  }

  /** Both handlers keep every sounding note within the range a letter can sound. */
  lemma HandlersKeepNotesInRange(k: Keys, key: int)
    requires NotesInRange(k.playing)
    ensures NotesInRange(Pressed(k, key).after.playing)
    ensures NotesInRange(Released(k, key).after.playing)
  {
  }

  /**
   * The set of sounding notes is exactly what the calls made so far leave
   * sounding: a press adds a note only when it calls noteOn, a release
   * removes one only when it calls noteOff.
   */
  lemma PressedTracksSynth(k: Keys, key: int, log: seq<Event>)
    requires k.playing == Sounding(log)
    ensures Pressed(k, key).after.playing == Sounding(log + Pressed(k, key).emitted)
  {
    var r := Pressed(k, key);
    if IsLetter(key) && KeyNote(key) in k.playing {
      assert log + r.emitted == log;
    } else {
      var fs := SetFullscreen(r.after.fulscr);
      if IsLetter(key) {
        var on := NoteOn(Channel, KeyNote(key), Velocity);
        assert log + r.emitted == (log + [on]) + [fs];
        SoundingAppendOne(log, on);
        SoundingAppendOne(log + [on], fs);
      } else {
        assert log + r.emitted == log + [fs];
        SoundingAppendOne(log, fs);
      }
    }
  }

  lemma ReleasedTracksSynth(k: Keys, key: int, log: seq<Event>)
    requires k.playing == Sounding(log)
    ensures Released(k, key).after.playing == Sounding(log + Released(k, key).emitted)
  {
    var r := Released(k, key);
    if !IsLetter(key) || KeyNote(key) !in k.playing {
      assert log + r.emitted == log;
    } else {
      SoundingAppendOne(log, NoteOff(Channel, KeyNote(key)));
    }
  }
}
