/**
 * The letter-to-note lookup of the free-play keyboard: a letter's MIDI note
 * is its position in a fixed layout string plus 35.  The string spells the
 * three rows of a QWERTY keyboard, with '.' filling the semitones that have
 * no key, so that the letters sound a blues-flavoured scale from B1 (35) up.
 */
module KeyLayout {

  datatype Option<T> = None | Some(value: T)

  /** The layout string, identical in the press and the release handler. */
  const Layout: string := "q.wer..t.y..u.iop..a.s..d.fgh..j.k..l.zxc..v.b..n.m"

  /** The three keyboard rows the layout is made of. */
  const TopRow: string := "q.wer..t.y..u.iop.."
  const HomeRow: string := "a.s..d.fgh..j.k..l."
  const BottomRow: string := "zxc..v.b..n.m"

  /** The offset added to a letter's position. */
  const NoteBase: int := 35

  /** size_t arithmetic is modulo 2^64; npos is its largest value. */
  const SizeModulus: int := 0x1_0000_0000_0000_0000
  const NPos: int := SizeModulus - 1

  /** The note of each letter, read off the layout by hand. */
  const LetterNotes: map<char, int> := map[
    'q' := 35, 'w' := 37, 'e' := 38, 'r' := 39, 't' := 42, 'y' := 44,
    'u' := 47, 'i' := 49, 'o' := 50, 'p' := 51,
    'a' := 54, 's' := 56, 'd' := 59, 'f' := 61, 'g' := 62, 'h' := 63,
    'j' := 66, 'k' := 68, 'l' := 71,
    'z' := 73, 'x' := 74, 'c' := 75, 'v' := 78, 'b' := 80, 'n' := 83,
    'm' := 85]

  predicate IsLetterChar(c: char) { 'a' <= c <= 'z' }

  /**
   * std::string::find(c, from): the first position at or after `from` that
   * holds `c`, or None (npos) when there is none.
   */
  function Find(s: string, c: char, from: nat): (r: Option<nat>)
    decreases |s| - from
    ensures r.None? <==> forall j :: from <= j < |s| ==> s[j] != c
    ensures r.Some? ==> from <= r.value < |s| && s[r.value] == c
    ensures r.Some? ==> forall j :: from <= j < r.value ==> s[j] != c
  {
    if from >= |s| then None
    else if s[from] == c then Some(from)
    else Find(s, c, from + 1)
  }

  /**
   * `qwerty.find(key) + 35`: the sum is taken in size_t, so a character
   * that is not in the layout (npos) wraps round to 34.
   */
  function NoteOf(c: char): int {
    var pos := match Find(Layout, c, 0)
      case Some(i) => i
      case None => NPos;
    var sum := pos + NoteBase;
    if sum < SizeModulus then sum else sum - SizeModulus
  }

  /**
   * When the layout holds `c` at position i, the note of `c` is 35 plus the
   * first position holding it, which is at most i.
   */
  lemma NoteOfFindsFirst(c: char, i: int)
    requires 0 <= i < |Layout| && Layout[i] == c
    ensures NoteBase <= NoteOf(c) <= NoteBase + i
    ensures Layout[NoteOf(c) - NoteBase] == c
    ensures forall j :: 0 <= j < NoteOf(c) - NoteBase ==> Layout[j] != c
  {
    var r := Find(Layout, c, 0);
    assert r.Some?;
    assert NoteOf(c) == r.value + NoteBase;
  }

  /** A character missing from the layout gets npos + 35, which wraps round to 34. */
  lemma NoteOfMissing(c: char)
    requires c !in Layout
    ensures NoteOf(c) == 34
  {
    assert Find(Layout, c, 0).None?;
  }

  lemma LayoutRows()
    ensures Layout == TopRow + HomeRow + BottomRow
    ensures |TopRow| == 19 && |HomeRow| == 19 && |BottomRow| == 13
  {
  }

  /** Top row: positions 0..18 of the layout. */
  lemma TopRowAgreesWithTable(j: int)
    requires 0 <= j < |TopRow|
    ensures TopRow[j] == '.' || (TopRow[j] in LetterNotes && LetterNotes[TopRow[j]] == j + NoteBase)
  {
  }

  /** Home row: positions 19..37 of the layout. */
  lemma HomeRowAgreesWithTable(j: int)
    requires 0 <= j < |HomeRow|
    ensures HomeRow[j] == '.' || (HomeRow[j] in LetterNotes && LetterNotes[HomeRow[j]] == j + 19 + NoteBase)
  {
  }

  /** Bottom row: positions 38..50 of the layout. */
  lemma BottomRowAgreesWithTable(j: int)
    requires 0 <= j < |BottomRow|
    ensures BottomRow[j] == '.' || (BottomRow[j] in LetterNotes && LetterNotes[BottomRow[j]] == j + 38 + NoteBase)
  {
  }

  /** Every position of the layout holds '.' or a letter whose table note is that position plus 35. */
  lemma LayoutAgreesWithTable(j: int)
    requires 0 <= j < |Layout|
    ensures Layout[j] == '.' || (Layout[j] in LetterNotes && LetterNotes[Layout[j]] == j + NoteBase)
  {
    LayoutRows();
    if j < 19 {
      assert Layout[j] == TopRow[j];
      TopRowAgreesWithTable(j);
    } else if j < 38 {
      assert Layout[j] == HomeRow[j - 19];
      HomeRowAgreesWithTable(j - 19);
    } else {
      assert Layout[j] == BottomRow[j - 38];
      BottomRowAgreesWithTable(j - 38);
    }
  }

  lemma TopRowLetters(c: char)
    requires c in "qwertyuiop"
    ensures c in LetterNotes && 0 <= LetterNotes[c] - NoteBase < |TopRow|
    ensures TopRow[LetterNotes[c] - NoteBase] == c
  {
  }

  lemma HomeRowLetters(c: char)
    requires c in "asdfghjkl"
    ensures c in LetterNotes && 0 <= LetterNotes[c] - NoteBase - 19 < |HomeRow|
    ensures HomeRow[LetterNotes[c] - NoteBase - 19] == c
  {
  }

  lemma BottomRowLetters(c: char)
    requires c in "zxcvbnm"
    ensures c in LetterNotes && 0 <= LetterNotes[c] - NoteBase - 38 < |BottomRow|
    ensures BottomRow[LetterNotes[c] - NoteBase - 38] == c
  {
  }

  /** Every lower-case letter has an entry in the table, at a position of the layout that holds it. */
  lemma TableCoversLetters(c: char)
    requires IsLetterChar(c)
    ensures c in LetterNotes
    ensures 0 <= LetterNotes[c] - NoteBase < |Layout| && Layout[LetterNotes[c] - NoteBase] == c
  {
    LayoutRows();
    if c in "qwertyuiop" {
      TopRowLetters(c);
      assert Layout[LetterNotes[c] - NoteBase] == TopRow[LetterNotes[c] - NoteBase];
    } else if c in "asdfghjkl" {
      HomeRowLetters(c);
      assert Layout[LetterNotes[c] - NoteBase] == HomeRow[LetterNotes[c] - NoteBase - 19];
    } else {
      assert c in "zxcvbnm";
      BottomRowLetters(c);
      assert Layout[LetterNotes[c] - NoteBase] == BottomRow[LetterNotes[c] - NoteBase - 38];
    }
  }

  /** Every letter is found in the layout (the lookup is total on 'a'..'z'). */
  lemma LetterInLayout(c: char)
    requires IsLetterChar(c)
    ensures c in Layout
  {
    TableCoversLetters(c);
    assert Layout[LetterNotes[c] - NoteBase] == c;
  }

  /** Each letter's note is the one in the table. */
  lemma NoteOfLetter(c: char)
    requires IsLetterChar(c)
    ensures c in LetterNotes && NoteOf(c) == LetterNotes[c]
  {
    TableCoversLetters(c);
    NoteOfFindsFirst(c, LetterNotes[c] - NoteBase);
    LayoutAgreesWithTable(NoteOf(c) - NoteBase);
  }

  /** Every letter's note lies in 35..85, at a position of the layout holding that letter. */
  lemma LetterNoteRange(c: char)
    requires IsLetterChar(c)
    ensures 35 <= NoteOf(c) <= 85
    ensures Layout[NoteOf(c) - NoteBase] == c
  {
    TableCoversLetters(c);
    NoteOfFindsFirst(c, LetterNotes[c] - NoteBase);
  }

  /** The lowest key. */
  lemma LowestNote()
    ensures NoteOf('q') == 35
  {
    NoteOfLetter('q');
  }

  /** The highest key. */
  lemma HighestNote()
    ensures NoteOf('m') == 85
  {
    NoteOfLetter('m');
  }

  /** Distinct letters sound distinct notes. */
  lemma LetterNoteInjective(c1: char, c2: char)
    requires IsLetterChar(c1) && IsLetterChar(c2)
    ensures NoteOf(c1) == NoteOf(c2) <==> c1 == c2
  {
    LetterNoteRange(c1);
    LetterNoteRange(c2);
  }
}
