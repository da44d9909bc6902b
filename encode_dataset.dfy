/**
  encode_score and decode_score of task_1/encode_dataset.py: the binary
  roll of a cut of num_measures measures in steps_per_cut rows, each
  measure getting steps_per_cut / num_measures rows, and its decoder.

  The encoder keeps the notes and chords whose duration is a whole number
  of steps and checks no pitch range: a pitch outside A0 .. C8 lands in a
  wrapped column or raises IndexError. The decoder reads the roll back
  either as image rows (one channel per pitch, the `image` flag) or as
  plain rows; the plain branch takes np.nonzero's tuple for the list of
  columns, so it never yields a rest and only survives rows with exactly
  one key down.
 */
module EncodeDataset {
  import opened Wrappers
  import opened Music
  import opened NoteNames
  import opened PianoRoll

  /** num_measures measures of steps_per_cut / num_measures rows each. */
  function CutLayout(numMeasures: nat, stepsPerCut: nat): (lay: Layout)
    requires numMeasures > 0
    ensures ValidLayout(lay)
  {
    Layout(numMeasures, stepsPerCut as real / numMeasures as real)
  }

  /**
    encode_score(score, num_measures, steps_per_cut): a zero
    (steps_per_cut x 88) roll, then a run of ones per pitch of every
    encodable event; false where numpy raises IndexError.
   */
  method EncodeScore(evs: seq<Event>, g: nat, numMeasures: nat, stepsPerCut: nat) returns (grid: array2<int>, ok: bool)
    requires numMeasures > 0 && AllWellFormed(evs)
    ensures fresh(grid) && grid.Length0 == stepsPerCut && grid.Length1 == NoteRange
    ensures ok == AllFit(ScoreMarks(evs, g, CutLayout(numMeasures, stepsPerCut)), stepsPerCut)
    ensures ok ==> GridIs(grid, ScoreMarks(evs, g, CutLayout(numMeasures, stepsPerCut)))
  {
    var stepsPerMeasure := stepsPerCut as real / numMeasures as real;
    grid, ok := Encode(evs, g, Layout(numMeasures, stepsPerMeasure), stepsPerCut);
  }

  /**
    With no range check, a pitch one below A0 writes column -1, which
    numpy reads as the last column: the roll then sounds C8, which no
    event holds.
   */
  lemma BelowRangeWraps()
    ensures var evs := [Event(Note(20), 1, 0.0, 0.25)];
      var lay := CutLayout(1, 16);
      var ms := ScoreMarks(evs, 16, lay);
      AllFit(ms, 16) && Cell(ms, 0, NoteRange - 1) == 1 &&
      MaxPitch in ChordPitches(DecodeStep(CellRow(ms, 0), 16)) && !SoundsAt(evs, 16, lay, 0, MaxPitch)
  {
    var e := Event(Note(20), 1, 0.0, 0.25);
    var evs := [e];
    var lay := CutLayout(1, 16);
    assert StepsOf(0.25, 16) == 1.0;
    assert Encodable(e, 16);
    assert StartRow(e, 16, lay) == 0 && StepCount(e, 16) == 1;
    assert EventMarks(e, 16, lay) == [Mark(0, 1, -1)];
    assert ScoreMarks(evs, 16, lay) == ScoreMarks([], 16, lay) + [Mark(0, 1, -1)];
    var ms := ScoreMarks(evs, 16, lay);
    assert Covers(ms[0], 0, NoteRange - 1);
    CellCovered(ms, 0, NoteRange - 1);
    RowPitch(CellRow(ms, 0), 16, MaxPitch);
    forall k, i | 0 <= k < |evs| && 0 <= i < |Pitches(evs[k].kind)|
      ensures Pitches(evs[k].kind)[i] != MaxPitch
    {
      assert evs[k] == e && Pitches(e.kind) == [20];
    }
  }

  /**
    An encoded roll read back: measure i, step k of the decoded score sounds
    pitch p exactly when an encodable event holds p at row
    int(i * steps_per_cut / num_measures) + k, for events on the keyboard.
   */
  lemma EncodeDecodeRoundTrip(evs: seq<Event>, g: nat, numMeasures: nat, grid: array2<int>, i: nat, k: nat, p: int)
    requires g > 0 && numMeasures > 0 && AllWellFormed(evs) && KeyboardPitches(evs, g)
    requires grid.Length1 == NoteRange && GridIs(grid, ScoreMarks(evs, g, CutLayout(numMeasures, grid.Length0)))
    requires i < numMeasures
    ensures var spm := grid.Length0 as real / numMeasures as real;
      var ds := DecodeSpec(RowsOf(grid), numMeasures, spm, g);
      k < |ds[i]| ==>
        (p in ChordPitches(ds[i][k]) <==> SoundsAt(evs, g, CutLayout(numMeasures, grid.Length0), MeasureStart(i, spm) + k, p))
  {
    var spm := grid.Length0 as real / numMeasures as real;
    var lay := CutLayout(numMeasures, grid.Length0);
    var rows := RowsOf(grid);
    DecodeSpecShape(rows, numMeasures, spm, g, i);
    var ds := DecodeSpec(rows, numMeasures, spm, g);
    if k < |ds[i]| {
      var t := MeasureStart(i, spm) + k;
      GridRows(grid, ScoreMarks(evs, g, lay), t);
      EncodeDecodeRow(evs, g, lay, t, p);
    }
  }

  // ---------------------------------------------------------------------
  // Decoding

  /** Exactly one key is down in the row. */
  predicate OneKey(row: seq<int>) {
    |NonzeroCols(row)| == 1
  }

  /**
    One step of the plain branch: played_pitches is np.nonzero's 1-tuple,
    so its length is 1 and no Rest is made; the comprehension converts the
    one column array with int(), which numpy allows for a single element
    and refuses (TypeError) otherwise.
   */
  function FlatDecodeStep(row: seq<int>, g: nat): Option<Decoded>
    requires g > 0
  {
    var cs := NonzeroCols(row);
    if |cs| == 1 then Some(DChord(ColumnNames(cs), StepLength(g))) else None
  }

  /**
    The plain branch decodes a row exactly when one key is down, never as
    a rest, and then agrees with the image branch.
   */
  lemma FlatDecodeMeaning(row: seq<int>, g: nat)
    requires g > 0
    ensures FlatDecodeStep(row, g).Some? <==> OneKey(row)
    ensures FlatDecodeStep(row, g).Some? ==> FlatDecodeStep(row, g) == Some(DecodeStep(row, g)) && !FlatDecodeStep(row, g).value.DRest?
  {
  }

  /** A silent row: the image branch gives a Rest, the plain branch fails. */
  lemma FlatDecodeSilentFails()
    ensures var row := seq(NoteRange, c => 0);
      FlatDecodeStep(row, 16).None? && DecodeStep(row, 16) == DRest(0.25)
  {
    var row := seq(NoteRange, c => 0);
    DecodeStepMeaning(row, 16);
    assert |NonzeroCols(row)| == 0;
  }

  /** A two-note row: the image branch gives the chord, the plain branch fails. */
  lemma FlatDecodeChordFails()
    ensures var row := seq(NoteRange, c => if c == 39 || c == 43 then 1 else 0);
      FlatDecodeStep(row, 16).None? && ChordPitches(DecodeStep(row, 16)) == {60, 64}
  {
    var row := seq(NoteRange, c => if c == 39 || c == 43 then 1 else 0);
    DecodeStepMeaning(row, 16);
    var cs := NonzeroCols(row);
    assert 39 in cs && 43 in cs;
    assert |cs| != 1;
  }

  /** The plain branch over the rows lo .. hi - 1 of one measure. */
  method DecodeMeasureFlat(grid: array2<int>, lo: nat, hi: nat, g: nat) returns (r: Option<seq<Decoded>>)
    requires g > 0 && lo <= hi <= grid.Length0
    ensures r.Some? <==> forall t :: lo <= t < hi ==> OneKey(RowsOf(grid)[t])
    ensures r.Some? ==> r.value == DecodeRows(RowsOf(grid), lo, hi, g)
  {
    ghost var rows := RowsOf(grid);
    var measure := [];
    var b := lo;
    while b < hi
      invariant lo <= b <= hi
      invariant measure == DecodeRows(rows, lo, b, g)
      invariant forall t :: lo <= t < b ==> OneKey(rows[t])
    {
      var row := GridRow(grid, b);
      assert rows[b] == row;
      var step := FlatDecodeStep(row, g);
      FlatDecodeMeaning(row, g);
      if step.None? {
        assert lo <= b < hi && !OneKey(RowsOf(grid)[b]);
        return None;
      }
      DecodeRowsSnoc(rows, lo, b, g);
      measure := measure + [step.value];
      b := b + 1;
    }
    return Some(measure);
  }

  /** The plain branch over all measures: the decoded score, or None at the first row it cannot convert. */
  /** Measure mi of the plain branch: rows int(mi * spm) .. int((mi + 1) * spm) - 1. */
  method DecodeNextMeasure(grid: array2<int>, nm: nat, spm: real, g: nat, mi: nat) returns (r: Option<seq<Decoded>>)
    requires g > 0 && spm >= 0.0 && nm as real * spm == grid.Length0 as real && mi < nm
    ensures 0 <= MeasureStart(mi, spm) <= MeasureStart(mi + 1, spm) <= grid.Length0
    ensures r.Some? <==> forall t :: MeasureStart(mi, spm) <= t < MeasureStart(mi + 1, spm) ==> OneKey(RowsOf(grid)[t])
    ensures r.Some? ==> r.value == DecodeSpec(RowsOf(grid), nm, spm, g)[mi]
  {
    MeasureBounds(mi, nm, spm, grid.Length0);
    r := DecodeMeasureFlat(grid, MeasureStart(mi, spm), MeasureStart(mi + 1, spm), g);
  }

  method DecodeFlat(grid: array2<int>, nm: nat, spm: real, g: nat) returns (r: Option<seq<seq<Decoded>>>)
    requires g > 0 && spm >= 0.0 && nm as real * spm == grid.Length0 as real
    ensures r.Some? <==> forall t :: 0 <= t < grid.Length0 ==> OneKey(RowsOf(grid)[t])
    ensures r.Some? ==> r.value == DecodeSpec(RowsOf(grid), nm, spm, g)
  {
    ghost var rows := RowsOf(grid);
    ghost var spec := DecodeSpec(rows, nm, spm, g);
    var measures := [];
    var mi := 0;
    assert MeasureStart(0, spm) == 0;
    while mi < nm
      invariant 0 <= mi <= nm
      invariant measures == spec[..mi]
      invariant 0 <= MeasureStart(mi, spm) <= |rows|
      invariant forall t :: 0 <= t < MeasureStart(mi, spm) ==> OneKey(rows[t])
    {
      var measure := DecodeNextMeasure(grid, nm, spm, g, mi);
      if measure.None? {
        return None;
      }
      measures := measures + [measure.value];
      assert measures == spec[..mi + 1];
      mi := mi + 1;
    }
    assert MeasureStart(nm, spm) == grid.Length0;
    assert spec[..nm] == spec;
    return Some(measures);
  }

  /**
    decode_score(encoding, num_measures, ts, image): measure i holds the
    steps of rows int(i * spm) .. int((i + 1) * spm) - 1, where
    spm = len(encoding) / num_measures. The image branch always succeeds;
    the plain branch succeeds exactly when every row has one key down.
   */
  method DecodeScore(grid: array2<int>, numMeasures: nat, g: nat, image: bool) returns (r: Option<seq<seq<Decoded>>>)
    requires g > 0 && numMeasures > 0
    ensures var spm := grid.Length0 as real / numMeasures as real;
      numMeasures as real * spm == grid.Length0 as real &&
      (image ==> r == Some(DecodeSpec(RowsOf(grid), numMeasures, spm, g))) &&
      (!image ==> (r.Some? <==> forall t :: 0 <= t < grid.Length0 ==> OneKey(RowsOf(grid)[t]))) &&
      (!image && r.Some? ==> r.value == DecodeSpec(RowsOf(grid), numMeasures, spm, g))
  {
    var spm := grid.Length0 as real / numMeasures as real;
    assert numMeasures as real * spm == grid.Length0 as real;
    if image {
      var measures := Decode(grid, numMeasures, spm, g);
      return Some(measures);
    }
    r := DecodeFlat(grid, numMeasures, spm, g);
  }

  /**
    decode_score of task_1/create_dataset.py: asserts the roll has
    MEASURES_PER_CUT * STEPS_PER_MEASURE rows, then decodes measure by
    measure as the image branch does.
   */
  method CreateDecodeScore(grid: array2<int>, measuresPerCut: nat, stepsPerMeasure: real, g: nat)
    returns (r: Option<seq<seq<Decoded>>>)
    requires g > 0 && stepsPerMeasure >= 0.0
    ensures r.Some? <==> grid.Length0 as real == measuresPerCut as real * stepsPerMeasure
    ensures r.Some? ==> r.value == DecodeSpec(RowsOf(grid), measuresPerCut, stepsPerMeasure, g)
  {
    if grid.Length0 as real != measuresPerCut as real * stepsPerMeasure {
      return None;
    }
    var measures := Decode(grid, measuresPerCut, stepsPerMeasure, g);
    return Some(measures);
  }

  /** int(MEASURES_PER_CUT * STEPS_PER_MEASURE): the rows encode_score of task_1/create_dataset.py allocates. */
  function CreateRows(measuresPerCut: nat, stepsPerMeasure: real): (rows: nat)
    requires stepsPerMeasure >= 0.0
    ensures rows as real <= measuresPerCut as real * stepsPerMeasure < rows as real + 1.0
  {
    NonnegProduct(measuresPerCut as real, stepsPerMeasure);
    (measuresPerCut as real * stepsPerMeasure).Floor
  }

  /**
    encode_score of task_1/create_dataset.py: a zero roll of
    int(MEASURES_PER_CUT * STEPS_PER_MEASURE) rows, each event placed in
    measure (measureNumber - 1) % MEASURES_PER_CUT of STEPS_PER_MEASURE
    rows; ok is false where numpy raises IndexError.
   */
  method CreateEncodeScore(evs: seq<Event>, g: nat, measuresPerCut: nat, stepsPerMeasure: real)
    returns (grid: array2<int>, ok: bool)
    requires measuresPerCut > 0 && stepsPerMeasure >= 0.0 && AllWellFormed(evs)
    ensures fresh(grid) && grid.Length0 == CreateRows(measuresPerCut, stepsPerMeasure) && grid.Length1 == NoteRange
    ensures ok == AllFit(ScoreMarks(evs, g, Layout(measuresPerCut, stepsPerMeasure)), grid.Length0)
    ensures ok ==> GridIs(grid, ScoreMarks(evs, g, Layout(measuresPerCut, stepsPerMeasure)))
  {
    grid, ok := Encode(evs, g, Layout(measuresPerCut, stepsPerMeasure), CreateRows(measuresPerCut, stepsPerMeasure));
  }

  /**
    The two functions of task_1/create_dataset.py in sequence: the roll
    encode_score builds passes decode_score's length assert exactly when
    MEASURES_PER_CUT * STEPS_PER_MEASURE is a whole number, and then
    decodes to MEASURES_PER_CUT measures.
   */
  method CreateEncodeDecode(evs: seq<Event>, g: nat, measuresPerCut: nat, stepsPerMeasure: real)
    returns (r: Option<seq<seq<Decoded>>>)
    requires g > 0 && measuresPerCut > 0 && stepsPerMeasure >= 0.0 && AllWellFormed(evs)
    ensures r.Some? <==>
      AllFit(ScoreMarks(evs, g, Layout(measuresPerCut, stepsPerMeasure)), CreateRows(measuresPerCut, stepsPerMeasure)) &&
      CreateRows(measuresPerCut, stepsPerMeasure) as real == measuresPerCut as real * stepsPerMeasure
    ensures r.Some? ==> |r.value| == measuresPerCut
  {
    var grid, ok := CreateEncodeScore(evs, g, measuresPerCut, stepsPerMeasure);
    if !ok {
      return None;
    }
    r := CreateDecodeScore(grid, measuresPerCut, stepsPerMeasure, g);
  }
}
