/**
  midi_to_note: the name of a MIDI pitch, such as "C#4", built from the
  pitch class and the octave. Every copy of the helper in the repository
  computes the octave as `int((midi - 12) / 12)`, Python's truncation toward
  zero, and the name as `NOTES[midi % 12]`.

  MidiOfName is the inverse naming scheme (letter, optional '#', signed
  octave, MIDI = 12 * (octave + 1) + pitch class); decoders turn the names
  back into chord pitches through it.
 */
module NoteNames {
  import opened Wrappers

  const Names: seq<string> := ["C", "C#", "D", "D#", "E", "F", "F#", "G", "G#", "A", "A#", "B"]

  /** Python's `int(a / d)` for a positive divisor: truncation toward zero. */
  function TruncDiv(a: int, d: int): (q: int)
    requires d > 0
    ensures a >= 0 ==> q == a / d
    ensures a < 0 ==> q == -((-a) / d)
  {
    if a >= 0 then a / d else -((-a) / d)
  }

  predicate IsDigit(c: char) {
    '0' <= c <= '9'
  }

  /** Every character is a decimal digit, checked from the last one back. */
  predicate AllDigits(s: string) {
    |s| == 0 || (IsDigit(s[|s| - 1]) && AllDigits(s[..|s| - 1]))
  }

  function DigitChar(d: nat): (c: char)
    requires d < 10
    ensures IsDigit(c) && c as int - '0' as int == d
  {
    ('0' as int + d) as char
  }

  /** Python's `str(n)` for a natural number. */
  function NatToString(n: nat): (s: string)
    ensures |s| >= 1 && AllDigits(s) && IsDigit(s[0])
  {
    if n < 10 then [DigitChar(n)]
    else
      var front := NatToString(n / 10);
      assert (front + [DigitChar(n % 10)])[..|front|] == front;
      front + [DigitChar(n % 10)]
  }

  /** Python's `str(i)`. */
  function IntToString(i: int): (s: string)
    ensures |s| >= 1 && (s[0] == '-' || IsDigit(s[0]))
  {
    if i < 0 then "-" + NatToString(-i) else NatToString(i)
  }

  /** midi_to_note as written: `NOTES[m % 12] + str(int((m - 12) / 12))`. */
  function MidiToNote(m: int): string {
    Names[m % 12] + IntToString(TruncDiv(m - 12, 12))
  }

  /** The same name with the octave rounded down, `m // 12 - 1`. */
  function MidiToNoteFloor(m: int): string {
    Names[m % 12] + IntToString(m / 12 - 1)
  }

  /** The decimal value of a string of digits. */
  function DigitsValue(s: string): nat
    requires AllDigits(s)
  {
    if |s| == 0 then 0 else DigitsValue(s[..|s| - 1]) * 10 + (s[|s| - 1] as int - '0' as int)
  }

  /** Reads an optionally signed decimal integer. */
  function ParseInt(s: string): Option<int> {
    if |s| >= 2 && s[0] == '-' && AllDigits(s[1..]) then Some(-(DigitsValue(s[1..]) as int))
    else if |s| >= 1 && AllDigits(s) then Some(DigitsValue(s))
    else None
  }

  /** The pitch class of a natural note letter. */
  function LetterClass(c: char): Option<int> {
    match c
    case 'C' => Some(0)
    case 'D' => Some(2)
    case 'E' => Some(4)
    case 'F' => Some(5)
    case 'G' => Some(7)
    case 'A' => Some(9)
    case 'B' => Some(11)
    case _ => None
  }

  /** The MIDI number a note name denotes: 12 * (octave + 1) + pitch class. */
  function MidiOfName(s: string): Option<int> {
    if |s| < 2 then None
    else
      match LetterClass(s[0])
      case None => None
      case Some(base) =>
        var pc := if s[1] == '#' then base + 1 else base;
        var rest := if s[1] == '#' then s[2..] else s[1..];
        match ParseInt(rest)
        case None => None
        case Some(octave) => Some(12 * (octave + 1) + pc)
  }

  lemma {:induction false} DigitsRoundTrip(n: nat)
    ensures DigitsValue(NatToString(n)) == n
  {
    var s := NatToString(n);
    if n >= 10 {
      DigitsRoundTrip(n / 10);
      assert s[..|s| - 1] == NatToString(n / 10);
    }
  }

  /** Reading back `str(i)` of a negative i: a minus sign, then the digits of -i. */
  lemma NegativeRoundTrip(i: int)
    requires i < 0
    ensures ParseInt(IntToString(i)) == Some(i)
  {
    var t := NatToString(-i);
    var s := "-" + t;
    assert s[0] == '-' && s[1..] == t;
    DigitsRoundTrip(-i);
    assert ParseInt(s) == Some(-(DigitsValue(t) as int));
  }

  /** Reading back `str(i)` gives i. */
  lemma IntRoundTrip(i: int)
    ensures ParseInt(IntToString(i)) == Some(i)
  {
    if i < 0 {
      NegativeRoundTrip(i);
    } else {
      DigitsRoundTrip(i);
      assert NatToString(i)[0] != '-';
    }
  }

  /** A pitch-class name: a natural letter, optionally followed by '#' one semitone up. */
  predicate ClassName(name: string, pc: int) {
    (|name| == 1 && LetterClass(name[0]) == Some(pc)) ||
    (|name| == 2 && name[1] == '#' && LetterClass(name[0]) == Some(pc - 1))
  }

  /** Each of the twelve names spells its pitch class. */
  lemma NamesSpellClasses(pc: int)
    requires 0 <= pc < 12
    ensures ClassName(Names[pc], pc)
  {
  }

  /** A pitch-class name followed by an octave string reads back as 12 * (octave + 1) + pitch class. */
  lemma ClassNameRoundTrip(name: string, pc: int, octave: int)
    requires ClassName(name, pc)
    ensures MidiOfName(name + IntToString(octave)) == Some(12 * (octave + 1) + pc)
  {
    var t := IntToString(octave);
    var s := name + t;
    IntRoundTrip(octave);
    assert s[0] == name[0];
    if |name| == 2 {
      assert s[1] == '#' && s[2..] == t;
    } else {
      assert s[1] == t[0] && s[1..] == t;
    }
  }

  /** A name followed by an octave string denotes 12 * (octave + 1) + pitch class. */
  lemma NameRoundTrip(pc: int, octave: int)
    requires 0 <= pc < 12
    ensures MidiOfName(Names[pc] + IntToString(octave)) == Some(12 * (octave + 1) + pc)
  {
    NamesSpellClasses(pc);
    ClassNameRoundTrip(Names[pc], pc, octave);
  }

  /** Over MIDI 12 and up, which includes the whole piano range, the name read back is the pitch itself. */
  lemma MidiToNoteRoundTrip(m: int)
    requires m >= 12
    ensures MidiOfName(MidiToNote(m)) == Some(m)
  {
    NameRoundTrip(m % 12, (m - 12) / 12);
  }

  /** A string that is midi_to_note(m), for m from 12 up, reads back as m. */
  lemma NameReadsBack(name: string, m: int)
    requires m >= 12 && name == MidiToNote(m)
    ensures MidiOfName(name) == Some(m)
  {
    MidiToNoteRoundTrip(m);
  }

  lemma MidiToNoteOfC8()
    ensures MidiToNote(108) == "C8"
  {
    assert TruncDiv(96, 12) == 8;
    assert NatToString(8) == "8";
  }

  lemma MidiToNoteOfA0()
    ensures MidiToNote(21) == "A0"
  {
    assert TruncDiv(9, 12) == 0;
    assert NatToString(0) == "0";
  }

  /** Truncation toward zero gives MIDI 1 the name of MIDI 13. */
  lemma MidiToNoteCollides()
    ensures MidiToNote(1) == MidiToNote(13) == "C#0"
    ensures MidiOfName(MidiToNote(1)) == Some(13)
  {
    assert TruncDiv(-11, 12) == 0 && TruncDiv(1, 12) == 0;
    assert NatToString(0) == "0";
    MidiToNoteRoundTrip(13);
  }

  /** With the octave rounded down every MIDI number reads back as itself. */
  lemma MidiToNoteFloorRoundTrip(m: int)
    ensures MidiOfName(MidiToNoteFloor(m)) == Some(m)
  {
    NameRoundTrip(m % 12, m / 12 - 1);
  }

  /** No two pitches share a corrected name. */
  lemma MidiToNoteFloorInjective(a: int, b: int)
    requires MidiToNoteFloor(a) == MidiToNoteFloor(b)
    ensures a == b
  {
    MidiToNoteFloorRoundTrip(a);
    MidiToNoteFloorRoundTrip(b);
  }

  /** Both octave rules agree from MIDI 12 up. */
  lemma MidiToNoteAgreesAboveTwelve(m: int)
    requires m >= 12
    ensures MidiToNote(m) == MidiToNoteFloor(m)
  {
  }
}
