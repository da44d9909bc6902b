/**
  The abstract score that the piano-roll pipeline consumes.

  A parsed score is reduced to what the pipeline reads from it: for every
  note, chord or rest its 1-based measure number, its offset inside the
  measure and its duration, both in quarter notes and both exact rationals.
  Pitches are MIDI numbers.
 */
module Music {

  /** Lowest and highest pitch of the piano-roll vocabulary: A0 and C8. */
  const MinPitch: int := 21
  const MaxPitch: int := 108
  /** Number of pitch columns, MaxPitch - MinPitch + 1. */
  const NoteRange: int := 88

  datatype Kind = Note(pitch: int) | Chord(pitches: seq<int>) | Rest

  /** One general note of a score: its kind, measure number, offset and quarter length. */
  datatype Event = Event(kind: Kind, measureNumber: int, offset: real, quarterLength: real)

  /** A time signature: its ratio and the beat count and beat length that the score parser derives from it. */
  datatype TimeSig = TimeSig(numerator: nat, denominator: nat, beatCount: nat, beatQL: real)

  /** Offsets and durations are never negative. */
  predicate WellFormed(e: Event) {
    e.offset >= 0.0 && e.quarterLength >= 0.0
  }

  predicate AllWellFormed(evs: seq<Event>) {
    forall k :: 0 <= k < |evs| ==> WellFormed(evs[k])
  }

  /** The pitches an event sounds; a rest sounds none. */
  function Pitches(k: Kind): seq<int> {
    match k
    case Note(p) => [p]
    case Chord(ps) => ps
    case Rest => []
  }

  /** The `isNote or isChord` test. */
  predicate IsSounding(k: Kind) {
    k.Note? || k.Chord?
  }

  predicate InVocabulary(p: int) {
    MinPitch <= p <= MaxPitch
  }

  /** A duration measured in grid steps of 4/G quarter notes. */
  function StepsOf(ql: real, g: nat): real {
    ql * g as real / 4.0
  }

  /** `ql % (4.0 / G) == 0`, stated exactly: the duration is a whole number of steps. */
  predicate IsDivisible(ql: real, g: nat) {
    StepsOf(ql, g).Floor as real == StepsOf(ql, g)
  }

  /** The length of one grid step, 4/G quarter notes. */
  function StepLength(g: nat): (r: real)
    requires g > 0
    ensures r > 0.0
  {
    4.0 / g as real
  }

  /** Steps spanned by one measure of time signature ts: G * beatCount * beatQL / 4. */
  function MeasureSteps(ts: TimeSig, g: nat): real {
    g as real * ts.beatCount as real * ts.beatQL / 4.0
  }

  /** A divisible duration is exactly its step count times the step length. */
  lemma DivisibleIsWholeSteps(ql: real, g: nat)
    requires g > 0
    ensures IsDivisible(ql, g) <==> ql == StepsOf(ql, g).Floor as real * StepLength(g)
  {
    var s := StepsOf(ql, g);
    assert ql == s * StepLength(g);
    if ql == s.Floor as real * StepLength(g) {
      assert s.Floor as real * StepLength(g) == s * StepLength(g);
    }
  }

  /** Any whole number k of steps is divisible, and spans exactly k steps. */
  lemma WholeStepsAreDivisible(k: int, g: nat)
    requires g > 0
    ensures IsDivisible(k as real * StepLength(g), g)
    ensures StepsOf(k as real * StepLength(g), g).Floor == k
  {
    assert StepsOf(k as real * StepLength(g), g) == k as real;
  }
}
