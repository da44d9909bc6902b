/**
  augment_score_keys of task_1/create_dataset.py (task_6/create_dataset.py
  has the same function): the score itself followed by its transpositions
  up and down by one to five semitones.
 */
module Augment {
  import opened Music

  /** A pitch set moved by d semitones; rests stay rests. */
  function TransposeKind(k: Kind, d: int): (r: Kind)
    ensures r.Note? == k.Note? && r.Chord? == k.Chord? && r.Rest? == k.Rest?
    ensures |Pitches(r)| == |Pitches(k)|
    ensures forall i :: 0 <= i < |Pitches(k)| ==> Pitches(r)[i] == Pitches(k)[i] + d
  {
    match k
    case Note(p) => Note(p + d)
    case Chord(ps) => Chord(seq(|ps|, i requires 0 <= i < |ps| => ps[i] + d))
    case Rest => Rest
  }

  /** score.transpose(d): every pitch moved by d semitones, timing unchanged. */
  function Transpose(score: seq<Event>, d: int): (r: seq<Event>)
    ensures |r| == |score|
    ensures forall j :: 0 <= j < |score| ==>
      r[j].kind == TransposeKind(score[j].kind, d) && r[j].measureNumber == score[j].measureNumber &&
      r[j].offset == score[j].offset && r[j].quarterLength == score[j].quarterLength
  {
    seq(|score|, j requires 0 <= j < |score| =>
      Event(TransposeKind(score[j].kind, d), score[j].measureNumber, score[j].offset, score[j].quarterLength))
  }

  /** The shift of the i-th augmented score: 0, then +1, -1, +2, -2, ..., +5, -5. */
  function Shift(i: nat): int {
    if i == 0 then 0 else if i % 2 == 1 then (i + 1) / 2 else -(i / 2)
  }

  /** The first n augmented scores: the transpositions by Shift(0) .. Shift(n - 1). */
  predicate ShiftedUpTo(score: seq<Event>, augmented: seq<seq<Event>>, n: nat) {
    |augmented| == n && forall i :: 0 <= i < n ==> augmented[i] == Transpose(score, Shift(i))
  }

  /** Turn k of the loop appends the transpositions by +k and -k, which are Shift(2k - 1) and Shift(2k). */
  lemma AppendShifts(score: seq<Event>, augmented: seq<seq<Event>>, k: int)
    requires k > 0 && ShiftedUpTo(score, augmented, 2 * k - 1)
    ensures ShiftedUpTo(score, augmented + [Transpose(score, k)] + [Transpose(score, -k)], 2 * k + 1)
  {
    var next := augmented + [Transpose(score, k)] + [Transpose(score, -k)];
    assert Shift(2 * k - 1) == k && Shift(2 * k) == -k;
    assert forall i :: 0 <= i < 2 * k - 1 ==> next[i] == augmented[i];
  }

  /** The loop `for k in range(1, 6)` appending score.transpose(k) and score.transpose(-k). */
  method AugmentScoreKeys(score: seq<Event>) returns (augmented: seq<seq<Event>>)
    ensures |augmented| == 11
    ensures forall i :: 0 <= i < 11 ==> augmented[i] == Transpose(score, Shift(i))
  {
    augmented := [score];
    assert score == Transpose(score, 0) by { TransposeZero(score); }
    for k := 1 to 6
      invariant ShiftedUpTo(score, augmented, 2 * k - 1)
    {
      var augScore1 := Transpose(score, k);
      var augScore2 := Transpose(score, -k);
      AppendShifts(score, augmented, k);
      augmented := augmented + [augScore1];
      augmented := augmented + [augScore2];
    }
  }

  /** A transposition by zero is the score itself. */
  lemma TransposeZero(score: seq<Event>)
    ensures Transpose(score, 0) == score
  {
    forall j | 0 <= j < |score|
      ensures Transpose(score, 0)[j] == score[j]
    {
      var k := score[j].kind;
      if k.Chord? {
        assert TransposeKind(k, 0).pitches == k.pitches;
      }
    }
  }

  /** Transposing by d and then by e is transposing by d + e. */
  lemma TransposeCompose(score: seq<Event>, d: int, e: int)
    ensures Transpose(Transpose(score, d), e) == Transpose(score, d + e)
  {
    forall j | 0 <= j < |score|
      ensures Transpose(Transpose(score, d), e)[j] == Transpose(score, d + e)[j]
    {
      var k := score[j].kind;
      if k.Chord? {
        assert TransposeKind(TransposeKind(k, d), e).pitches == TransposeKind(k, d + e).pitches;
      }
    }
  }

  /** Each augmented score transposed back by its shift is the original score. */
  lemma TransposeBack(score: seq<Event>, d: int)
    ensures Transpose(Transpose(score, d), -d) == score
  {
    TransposeCompose(score, d, -d);
    TransposeZero(score);
  }

  /** The eleven shifts are distinct and lie in -5 .. 5. */
  lemma ShiftsDistinct()
    ensures forall i :: 0 <= i < 11 ==> -5 <= Shift(i) <= 5
    ensures forall i, j :: 0 <= i < j < 11 ==> Shift(i) != Shift(j)
  {
  }

  /** Every transposition by -5 .. 5 is among the eleven augmented scores, at index i. */
  lemma ShiftIndex(d: int) returns (i: nat)
    requires -5 <= d <= 5
    ensures i < 11 && Shift(i) == d
  {
    if d > 0 {
      i := 2 * d - 1;
    } else if d < 0 {
      i := -2 * d;
    } else {
      i := 0;
    }
  }

  /** Every pitch of the score lies in [lo, hi]. */
  predicate PitchesWithin(score: seq<Event>, lo: int, hi: int) {
    forall j, i :: 0 <= j < |score| && 0 <= i < |Pitches(score[j].kind)| ==> lo <= Pitches(score[j].kind)[i] <= hi
  }

  /**
    A transposition by d keeps the piano's 88 keys exactly when the score
    stays d semitones clear of the keyboard's far end.
   */
  lemma TransposeRange(score: seq<Event>, d: int)
    ensures PitchesWithin(Transpose(score, d), MinPitch, MaxPitch) <==> PitchesWithin(score, MinPitch - d, MaxPitch - d)
  {
    var t := Transpose(score, d);
    if PitchesWithin(t, MinPitch, MaxPitch) {
      forall j, i | 0 <= j < |score| && 0 <= i < |Pitches(score[j].kind)|
        ensures MinPitch - d <= Pitches(score[j].kind)[i] <= MaxPitch - d
      {
        assert Pitches(t[j].kind)[i] == Pitches(score[j].kind)[i] + d;
      }
    }
  }
}
