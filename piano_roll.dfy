/**
  The binary piano roll shared by the encoders: a (steps x 88) grid of 0/1
  cells, rows being time steps of 4/G quarter notes and columns pitches
  minus 21.

  Every encoder reduces a score cut to a list of Marks, one per pitch of
  every event it keeps: a run of rows in one column. Writing the marks into
  a zero grid in order gives the grid that Cell describes. A column index is
  used as numpy uses it: -88 <= col < 0 counts from the right-hand end, and
  any other index outside the grid raises IndexError, which the model
  reports as a failed encode (the source discards the array with the
  exception).
 */
module PianoRoll {
  import opened Music
  import opened NoteNames
  import opened Wrappers

  /** `len` rows from `row` in column `col` (pitch - 21, before numpy's wrap). */
  datatype Mark = Mark(row: nat, len: nat, col: int)

  /** Cut geometry: measures per cut and rows per measure. */
  datatype Layout = Layout(measures: nat, stepsPerMeasure: real)

  predicate ValidLayout(lay: Layout) {
    lay.measures > 0 && lay.stepsPerMeasure >= 0.0
  }

  /** numpy's negative-index rule for the pitch axis. */
  function WrapCol(c: int): int {
    if c < 0 then c + NoteRange else c
  }

  /** Writing the mark into a grid of `rows` rows raises no IndexError. */
  predicate Fits(m: Mark, rows: int) {
    m.len == 0 || (m.row + m.len <= rows && -NoteRange <= m.col < NoteRange)
  }

  predicate AllFit(ms: seq<Mark>, rows: int) {
    forall k :: 0 <= k < |ms| ==> Fits(ms[k], rows)
  }

  predicate Covers(m: Mark, r: int, c: int) {
    m.row <= r < m.row + m.len && WrapCol(m.col) == c
  }

  /** The cell (r, c) after writing the marks, in order, into a zero grid. */
  function Cell(ms: seq<Mark>, r: int, c: int): int {
    if ms == [] then 0
    else if Covers(ms[|ms| - 1], r, c) then 1
    else Cell(ms[..|ms| - 1], r, c)
  }

  /** Row t of that grid. */
  function CellRow(ms: seq<Mark>, t: int): seq<int> {
    seq(NoteRange, c => Cell(ms, t, c))
  }

  /** A cell is 1 exactly when some mark covers it, and 0 otherwise. */
  lemma {:induction false} CellCovered(ms: seq<Mark>, r: int, c: int)
    ensures Cell(ms, r, c) == 1 <==> exists k :: 0 <= k < |ms| && Covers(ms[k], r, c)
    ensures Cell(ms, r, c) == 0 || Cell(ms, r, c) == 1
  {
    if ms != [] {
      var n := |ms| - 1;
      CellCovered(ms[..n], r, c);
      if Cell(ms[..n], r, c) == 1 {
        var k :| 0 <= k < n && Covers(ms[..n][k], r, c);
        assert Covers(ms[k], r, c);
      }
      if k :| 0 <= k < |ms| && Covers(ms[k], r, c) {
        if k < n {
          assert Covers(ms[..n][k], r, c);
        }
      }
    }
  }

  /** The row where an event starts: int(((measureNumber - 1) mod M) * stepsPerMeasure + offset * G / 4). */
  function StartRow(e: Event, g: nat, lay: Layout): nat
    requires ValidLayout(lay) && WellFormed(e)
  {
    var m := (e.measureNumber - 1) % lay.measures;
    assert m as real * lay.stepsPerMeasure >= 0.0 by {
      NonnegProduct(m as real, lay.stepsPerMeasure);
    }
    (m as real * lay.stepsPerMeasure + StepsOf(e.offset, g)).Floor
  }

  /** The number of rows an event covers: int(quarterLength * G / 4). */
  function StepCount(e: Event, g: nat): nat
    requires WellFormed(e)
  {
    StepsOf(e.quarterLength, g).Floor
  }

  lemma NonnegProduct(a: real, b: real)
    requires a >= 0.0 && b >= 0.0
    ensures a * b >= 0.0
  {
  }

  /** The encoders' filter: a note or chord whose duration is a whole number of steps. */
  predicate Encodable(e: Event, g: nat) {
    IsSounding(e.kind) && IsDivisible(e.quarterLength, g)
  }

  /** One mark per pitch of an encodable event, none for anything else. */
  function EventMarks(e: Event, g: nat, lay: Layout): seq<Mark>
    requires ValidLayout(lay) && WellFormed(e)
  {
    if Encodable(e, g) then
      var ps := Pitches(e.kind);
      seq(|ps|, i requires 0 <= i < |ps| => Mark(StartRow(e, g, lay), StepCount(e, g), ps[i] - MinPitch))
    else []
  }

  /** The marks of a whole cut, event by event in score order. */
  function ScoreMarks(evs: seq<Event>, g: nat, lay: Layout): seq<Mark>
    requires ValidLayout(lay) && AllWellFormed(evs)
  {
    if evs == [] then []
    else ScoreMarks(evs[..|evs| - 1], g, lay) + EventMarks(evs[|evs| - 1], g, lay)
  }

  lemma ScoreMarksSnoc(evs: seq<Event>, j: nat, g: nat, lay: Layout)
    requires ValidLayout(lay) && AllWellFormed(evs) && j < |evs|
    ensures ScoreMarks(evs[..j + 1], g, lay) == ScoreMarks(evs[..j], g, lay) + EventMarks(evs[j], g, lay)
  {
    assert evs[..j + 1][..j] == evs[..j];
  }

  /** The marks of a prefix are a prefix of the marks of the cut. */
  lemma {:induction false} ScoreMarksPrefix(evs: seq<Event>, j: nat, g: nat, lay: Layout)
    requires ValidLayout(lay) && AllWellFormed(evs) && j <= |evs|
    ensures ScoreMarks(evs[..j], g, lay) <= ScoreMarks(evs, g, lay)
    decreases |evs| - j
  {
    if j == |evs| {
      assert evs[..j] == evs;
    } else {
      ScoreMarksSnoc(evs, j, g, lay);
      ScoreMarksPrefix(evs, j + 1, g, lay);
    }
  }

  /** A mark belongs to the cut exactly when it belongs to one of its events. */
  lemma {:induction false} ScoreMarksMember(evs: seq<Event>, g: nat, lay: Layout, m: Mark)
    requires ValidLayout(lay) && AllWellFormed(evs)
    ensures m in ScoreMarks(evs, g, lay) <==> exists k :: 0 <= k < |evs| && m in EventMarks(evs[k], g, lay)
  {
    if evs != [] {
      var n := |evs| - 1;
      var front := evs[..n];
      assert ScoreMarks(evs, g, lay) == ScoreMarks(front, g, lay) + EventMarks(evs[n], g, lay);
      ScoreMarksMember(front, g, lay, m);
      if m in ScoreMarks(front, g, lay) {
        var k :| 0 <= k < n && m in EventMarks(front[k], g, lay);
        assert front[k] == evs[k];
      }
      if k :| 0 <= k < |evs| && m in EventMarks(evs[k], g, lay) {
        if k < n {
          assert front[k] == evs[k];
          assert m in ScoreMarks(front, g, lay);
        }
      }
    }
  }

  /** The grid holds exactly the cells of the marks. */
  ghost predicate GridIs(grid: array2<int>, ms: seq<Mark>)
    reads grid
  {
    forall r, c :: 0 <= r < grid.Length0 && 0 <= c < grid.Length1 ==> grid[r, c] == Cell(ms, r, c)
  }

  lemma CellSnoc(ms: seq<Mark>, m: Mark)
    ensures forall r, c :: Cell(ms + [m], r, c) == if Covers(m, r, c) then 1 else Cell(ms, r, c)
  {
    assert (ms + [m])[..|ms|] == ms;
  }

  /**
    Writes one mark: `for i in range(len): X[row + i][col] = 1`. Returns false
    where numpy raises IndexError.
   */
  method PaintRun(grid: array2<int>, m: Mark, ghost ms: seq<Mark>) returns (ok: bool)
    requires grid.Length1 == NoteRange && GridIs(grid, ms)
    modifies grid
    ensures ok == Fits(m, grid.Length0)
    ensures ok ==> GridIs(grid, ms + [m])
  {
    var i := 0;
    while i < m.len
      invariant 0 <= i <= m.len
      invariant i > 0 ==> m.row + i <= grid.Length0 && -NoteRange <= m.col < NoteRange
      invariant GridIs(grid, ms + [Mark(m.row, i, m.col)])
    {
      if m.row + i >= grid.Length0 || m.col < -NoteRange || m.col >= NoteRange {
        return false;
      }
      CellSnoc(ms, Mark(m.row, i, m.col));
      CellSnoc(ms, Mark(m.row, i + 1, m.col));
      grid[m.row + i, WrapCol(m.col)] := 1;
      i := i + 1;
    }
    ok := true;
  }

  /** A mark of event j that does not fit means the cut as a whole does not fit. */
  lemma MarkOfCutFails(evs: seq<Event>, j: nat, q: nat, g: nat, lay: Layout, rows: int)
    requires ValidLayout(lay) && AllWellFormed(evs) && j < |evs| && q < |EventMarks(evs[j], g, lay)|
    requires !Fits(EventMarks(evs[j], g, lay)[q], rows)
    ensures !AllFit(ScoreMarks(evs, g, lay), rows)
  {
    ScoreMarksSnoc(evs, j, g, lay);
    ScoreMarksPrefix(evs, j + 1, g, lay);
    var k := |ScoreMarks(evs[..j], g, lay)| + q;
    assert ScoreMarks(evs, g, lay)[k] == EventMarks(evs[j], g, lay)[q];
  }

  /** Writes the marks of one event, pitch by pitch. */
  method PaintEvent(grid: array2<int>, e: Event, g: nat, lay: Layout, ghost done: seq<Mark>) returns (ok: bool)
    requires ValidLayout(lay) && WellFormed(e)
    requires grid.Length1 == NoteRange && GridIs(grid, done)
    modifies grid
    ensures ok ==> GridIs(grid, done + EventMarks(e, g, lay)) && AllFit(EventMarks(e, g, lay), grid.Length0)
    ensures !ok ==> exists q :: 0 <= q < |EventMarks(e, g, lay)| && !Fits(EventMarks(e, g, lay)[q], grid.Length0)
  {
    ghost var em := EventMarks(e, g, lay);
    ok := true;
    if Encodable(e, g) {
      var ps := Pitches(e.kind);
      var q := 0;
      assert done + em[..0] == done;
      while q < |ps|
        invariant 0 <= q <= |ps| == |em|
        invariant AllFit(em[..q], grid.Length0)
        invariant GridIs(grid, done + em[..q])
      {
        var m := Mark(StartRow(e, g, lay), StepCount(e, g), ps[q] - MinPitch);
        assert m == em[q];
        ok := PaintRun(grid, m, done + em[..q]);
        if !ok {
          return;
        }
        assert em[..q + 1] == em[..q] + [m];
        assert done + em[..q + 1] == (done + em[..q]) + [m];
        q := q + 1;
      }
      assert em[..q] == em;
    } else {
      assert done + em == done;
    }
  }

  /**
    encode_score: a zero (rows x 88) grid, then for every encodable event
    and every pitch of it, its run of rows set to 1.
   */
  method Encode(evs: seq<Event>, g: nat, lay: Layout, rows: nat) returns (grid: array2<int>, ok: bool)
    requires ValidLayout(lay) && AllWellFormed(evs)
    ensures fresh(grid) && grid.Length0 == rows && grid.Length1 == NoteRange
    ensures ok == AllFit(ScoreMarks(evs, g, lay), rows)
    ensures ok ==> GridIs(grid, ScoreMarks(evs, g, lay))
  {
    grid := new int[rows, NoteRange]((r, c) => 0);
    assert ScoreMarks(evs[..0], g, lay) == [];
    var j := 0;
    while j < |evs|
      invariant 0 <= j <= |evs|
      invariant grid.Length0 == rows && grid.Length1 == NoteRange
      invariant AllFit(ScoreMarks(evs[..j], g, lay), rows)
      invariant GridIs(grid, ScoreMarks(evs[..j], g, lay))
    {
      ScoreMarksSnoc(evs, j, g, lay);
      ok := PaintEvent(grid, evs[j], g, lay, ScoreMarks(evs[..j], g, lay));
      if !ok {
        var q :| 0 <= q < |EventMarks(evs[j], g, lay)| && !Fits(EventMarks(evs[j], g, lay)[q], rows);
        MarkOfCutFails(evs, j, q, g, lay, rows);
        return;
      }
      j := j + 1;
    }
    assert evs[..|evs|] == evs;
    ok := true;
  }

  // ---------------------------------------------------------------------
  // Decoding

  /** One decoded time step: a rest, or a chord of note names; both last one step. */
  datatype Decoded = DRest(quarterLength: real) | DChord(names: seq<string>, quarterLength: real)

  /** np.nonzero on a row: the columns holding a nonzero value, in increasing order. */
  function NonzeroCols(row: seq<int>): (cs: seq<int>)
    ensures forall i :: 0 <= i < |cs| ==> 0 <= cs[i] < |row| && row[cs[i]] != 0
    ensures forall c :: 0 <= c < |row| && row[c] != 0 ==> c in cs
    ensures forall i, j :: 0 <= i < j < |cs| ==> cs[i] < cs[j]
  {
    if row == [] then []
    else
      var n := |row| - 1;
      var front := NonzeroCols(row[..n]);
      assert forall c :: 0 <= c < n ==> row[..n][c] == row[c];
      front + (if row[n] != 0 then [n] else [])
  }

  /** midi_to_note(column + 21): the name of a column reads back as the column plus 21. */
  function ColumnName(c: nat): (name: string)
    ensures MidiOfName(name) == Some(c + MinPitch)
  {
    MidiToNoteRoundTrip(c + MinPitch);
    MidiToNote(c + MinPitch)
  }

  /** The names of the columns, in order; each reads back as its column plus 21. */
  function ColumnNames(cs: seq<int>): (names: seq<string>)
    requires forall i :: 0 <= i < |cs| ==> cs[i] >= 0
    ensures |names| == |cs|
    ensures forall i :: 0 <= i < |cs| ==> MidiOfName(names[i]) == Some(cs[i] + MinPitch)
  {
    seq(|cs|, i requires 0 <= i < |cs| => ColumnName(cs[i]))
  }

  /** One row of the grid: a Rest of 4/G when it is all zero, else a Chord of midi_to_note(column + 21). */
  function DecodeStep(row: seq<int>, g: nat): Decoded
    requires g > 0
  {
    var cs := NonzeroCols(row);
    if |cs| == 0 then DRest(StepLength(g))
    else DChord(ColumnNames(cs), StepLength(g))
  }

  /** The MIDI pitches a decoded step sounds when its names are read back. */
  function ChordPitches(d: Decoded): set<int> {
    match d
    case DRest(_) => {}
    case DChord(names, _) => set i | 0 <= i < |names| && MidiOfName(names[i]).Some? :: MidiOfName(names[i]).value
  }

  /** Names that read back as the columns plus 21 sound exactly those pitches. */
  lemma ReadBackChord(names: seq<string>, cs: seq<int>, l: real)
    requires |names| == |cs|
    requires forall i :: 0 <= i < |cs| ==> MidiOfName(names[i]) == Some(cs[i] + MinPitch)
    ensures forall p :: p in ChordPitches(DChord(names, l)) <==> p - MinPitch in cs
  {
    forall p | p - MinPitch in cs
      ensures p in ChordPitches(DChord(names, l))
    {
      var i :| 0 <= i < |cs| && cs[i] == p - MinPitch;
      assert MidiOfName(names[i]) == Some(p);
    }
  }

  /** The chord of midi_to_note(column + 21) names sounds exactly the columns plus 21. */
  lemma ChordOfColumns(cs: seq<int>, l: real)
    requires forall i :: 0 <= i < |cs| ==> cs[i] >= 0
    ensures forall p :: p in ChordPitches(DChord(ColumnNames(cs), l)) <==> p - MinPitch in cs
  {
    ReadBackChord(ColumnNames(cs), cs, l);
  }

  /** The nonzero columns are exactly the columns c with row[c] != 0; none exactly when the row is all zero. */
  lemma NonzeroColsMeaning(row: seq<int>)
    ensures forall c :: c in NonzeroCols(row) <==> 0 <= c < |row| && row[c] != 0
    ensures |NonzeroCols(row)| == 0 <==> forall c :: 0 <= c < |row| ==> row[c] == 0
  {
    var cs := NonzeroCols(row);
    if |cs| > 0 {
      assert row[cs[0]] != 0;
    }
  }

  /**
    A decoded step lasts 4/G; it is a Rest exactly when its row is all zero,
    and otherwise its chord sounds exactly the nonzero columns plus 21.
   */
  lemma DecodeStepMeaning(row: seq<int>, g: nat)
    requires g > 0
    ensures DecodeStep(row, g).quarterLength == StepLength(g)
    ensures DecodeStep(row, g).DRest? <==> forall c :: 0 <= c < |row| ==> row[c] == 0
    ensures forall p :: p in ChordPitches(DecodeStep(row, g)) <==>
      MinPitch <= p < MinPitch + |row| && row[p - MinPitch] != 0
  {
    var cs := NonzeroCols(row);
    NonzeroColsMeaning(row);
    if |cs| > 0 {
      ChordOfColumns(cs, StepLength(g));
    }
  }

  /** A decoded step lasts 4/G and is a Rest exactly when its row is all zero. */
  lemma StepRest(row: seq<int>, g: nat)
    requires g > 0
    ensures DecodeStep(row, g).quarterLength == StepLength(g)
    ensures DecodeStep(row, g).DRest? <==> Silent(row)
  {
    var cs := NonzeroCols(row);
    NonzeroColsMeaning(row);
  }

  /** One pitch at a time: p is in the decoded chord exactly when its column is nonzero. */
  lemma RowPitch(row: seq<int>, g: nat, p: int)
    requires g > 0
    ensures p in ChordPitches(DecodeStep(row, g)) <==> MinPitch <= p < MinPitch + |row| && row[p - MinPitch] != 0
  {
    DecodeStepMeaning(row, g);
  }

  /** The row range of measure i: int(i * spm) up to int((i + 1) * spm). */
  function MeasureStart(i: nat, spm: real): int {
    (i as real * spm).Floor
  }

  lemma MeasureBounds(i: nat, nm: nat, spm: real, rows: nat)
    requires spm >= 0.0 && i < nm && nm as real * spm <= rows as real
    ensures 0 <= MeasureStart(i, spm) <= MeasureStart(i + 1, spm) <= rows
  {
    NonnegProduct(i as real, spm);
    assert (i + 1) as real * spm == i as real * spm + spm;
    assert nm as real * spm == (i + 1) as real * spm + (nm - i - 1) as real * spm;
    NonnegProduct((nm - i - 1) as real, spm);
  }

  /** The decoded steps of rows lo .. hi - 1. */
  function DecodeRows(rows: seq<seq<int>>, lo: nat, hi: nat, g: nat): seq<Decoded>
    requires g > 0 && lo <= hi <= |rows|
  {
    seq(hi - lo, k requires 0 <= k < hi - lo => DecodeStep(rows[lo + k], g))
  }

  /** The decoder's output: nm measures, measure i made of the steps of its row range. */
  function DecodeSpec(rows: seq<seq<int>>, nm: nat, spm: real, g: nat): seq<seq<Decoded>>
    requires g > 0 && spm >= 0.0 && nm as real * spm <= |rows| as real
  {
    seq(nm, i requires 0 <= i < nm =>
      MeasureBounds(i, nm, spm, |rows|);
      DecodeRows(rows, MeasureStart(i, spm), MeasureStart(i + 1, spm), g))
  }

  /** Row r of the grid. */
  function GridRow(grid: array2<int>, r: nat): (row: seq<int>)
    requires r < grid.Length0
    reads grid
    ensures |row| == grid.Length1
  {
    seq(grid.Length1, c requires 0 <= c < grid.Length1 reads grid => grid[r, c])
  }

  /** The grid as a sequence of rows. */
  function RowsOf(grid: array2<int>): seq<seq<int>>
    reads grid
  {
    seq(grid.Length0, r requires 0 <= r < grid.Length0 reads grid => GridRow(grid, r))
  }

  /** Decoding one more row appends its step. */
  lemma DecodeRowsSnoc(rows: seq<seq<int>>, lo: nat, hi: nat, g: nat)
    requires g > 0 && lo <= hi < |rows|
    ensures DecodeRows(rows, lo, hi + 1, g) == DecodeRows(rows, lo, hi, g) + [DecodeStep(rows[hi], g)]
  {
  }

  /**
    decode_score: for each measure index, a measure holding one decoded
    step per row of its range.
   */
  method Decode(grid: array2<int>, nm: nat, spm: real, g: nat) returns (measures: seq<seq<Decoded>>)
    requires g > 0 && spm >= 0.0 && nm as real * spm <= grid.Length0 as real
    ensures measures == DecodeSpec(RowsOf(grid), nm, spm, g)
  {
    ghost var rows := RowsOf(grid);
    measures := [];
    var mi := 0;
    while mi < nm
      invariant 0 <= mi <= nm
      invariant |measures| == mi
      invariant forall i :: 0 <= i < mi ==> measures[i] == DecodeSpec(rows, nm, spm, g)[i]
    {
      MeasureBounds(mi, nm, spm, grid.Length0);
      var start := MeasureStart(mi, spm);
      var end := MeasureStart(mi + 1, spm);
      var measure := [];
      var b := start;
      while b < end
        invariant start <= b <= end
        invariant measure == DecodeRows(rows, start, b, g)
      {
        var row := GridRow(grid, b);
        DecodeRowsSnoc(rows, start, b, g);
        measure := measure + [DecodeStep(row, g)];
        b := b + 1;
      }
      measures := measures + [measure];
      mi := mi + 1;
    }
  }

  /** No key is down in this row. */
  predicate Silent(row: seq<int>) {
    forall c :: 0 <= c < |row| ==> row[c] == 0
  }

  /**
    The decoded score has M measures; measure i holds one step per row of
    its range, each lasting 4/G, a Rest exactly when its row is all zero.
   */
  lemma DecodeSpecShape(rows: seq<seq<int>>, m: nat, spm: real, g: nat, i: nat)
    requires g > 0 && spm >= 0.0 && m as real * spm <= |rows| as real && i < m
    ensures 0 <= MeasureStart(i, spm) <= MeasureStart(i + 1, spm) <= |rows|
    ensures |DecodeSpec(rows, m, spm, g)| == m
    ensures |DecodeSpec(rows, m, spm, g)[i]| == MeasureStart(i + 1, spm) - MeasureStart(i, spm)
    ensures forall k :: 0 <= k < |DecodeSpec(rows, m, spm, g)[i]| ==>
      DecodeSpec(rows, m, spm, g)[i][k] == DecodeStep(rows[MeasureStart(i, spm) + k], g) &&
      DecodeSpec(rows, m, spm, g)[i][k].quarterLength == StepLength(g) &&
      (DecodeSpec(rows, m, spm, g)[i][k].DRest? <==>
        Silent(rows[MeasureStart(i, spm) + k]))
  {
    MeasureBounds(i, m, spm, |rows|);
    var lo, hi := MeasureStart(i, spm), MeasureStart(i + 1, spm);
    var ds := DecodeSpec(rows, m, spm, g);
    var measure := DecodeRows(rows, lo, hi, g);
    assert ds[i] == measure;
    DecodeRowsMeaning(rows, lo, hi, g);
    forall k | 0 <= k < |ds[i]|
      ensures ds[i][k] == DecodeStep(rows[lo + k], g) && ds[i][k].quarterLength == StepLength(g) &&
        (ds[i][k].DRest? <==> Silent(rows[lo + k]))
    {
      assert ds[i][k] == measure[k];
    }
  }

  /** Each decoded step of a row range lasts 4/G and is a Rest exactly when its row is all zero. */
  lemma DecodeRowsMeaning(rows: seq<seq<int>>, lo: nat, hi: nat, g: nat)
    requires g > 0 && lo <= hi <= |rows|
    ensures |DecodeRows(rows, lo, hi, g)| == hi - lo
    ensures forall k :: 0 <= k < hi - lo ==>
      DecodeRows(rows, lo, hi, g)[k] == DecodeStep(rows[lo + k], g) &&
      DecodeRows(rows, lo, hi, g)[k].quarterLength == StepLength(g) &&
      (DecodeRows(rows, lo, hi, g)[k].DRest? <==> Silent(rows[lo + k]))
  {
    var ds := DecodeRows(rows, lo, hi, g);
    forall k | 0 <= k < hi - lo
      ensures ds[k] == DecodeStep(rows[lo + k], g) && ds[k].quarterLength == StepLength(g) &&
        (ds[k].DRest? <==> Silent(rows[lo + k]))
    {
      var row := rows[lo + k];
      assert ds[k] == DecodeStep(row, g);
      StepRest(row, g);
    }
  }

  // ---------------------------------------------------------------------
  // Encoding then decoding

  /** Every pitch of every encodable event lies on the keyboard, A0 to C8. */
  predicate KeyboardPitches(evs: seq<Event>, g: nat) {
    forall k, i :: 0 <= k < |evs| && Encodable(evs[k], g) && 0 <= i < |Pitches(evs[k].kind)| ==>
      InVocabulary(Pitches(evs[k].kind)[i])
  }

  /** Some encodable event of the cut holds pitch p at row t. */
  ghost predicate SoundsAt(evs: seq<Event>, g: nat, lay: Layout, t: int, p: int)
    requires ValidLayout(lay) && AllWellFormed(evs)
  {
    exists k, i :: 0 <= k < |evs| && Encodable(evs[k], g) && 0 <= i < |Pitches(evs[k].kind)| &&
      Pitches(evs[k].kind)[i] == p && StartRow(evs[k], g, lay) <= t < StartRow(evs[k], g, lay) + StepCount(evs[k], g)
  }

  /** Every mark of a cut comes from one pitch of one encodable event. */
  lemma MarkOrigin(evs: seq<Event>, g: nat, lay: Layout, m: Mark)
    requires ValidLayout(lay) && AllWellFormed(evs) && m in ScoreMarks(evs, g, lay)
    ensures exists k, i ::
      0 <= k < |evs| && Encodable(evs[k], g) && 0 <= i < |Pitches(evs[k].kind)| &&
      m == Mark(StartRow(evs[k], g, lay), StepCount(evs[k], g), Pitches(evs[k].kind)[i] - MinPitch)
  {
    ScoreMarksMember(evs, g, lay, m);
    var k :| 0 <= k < |evs| && m in EventMarks(evs[k], g, lay);
    var i :| 0 <= i < |EventMarks(evs[k], g, lay)| && EventMarks(evs[k], g, lay)[i] == m;
  }

  /** Every pitch of every encodable event leaves its mark. */
  lemma MarkOfEvent(evs: seq<Event>, g: nat, lay: Layout, k: int, i: int)
    requires ValidLayout(lay) && AllWellFormed(evs) && 0 <= k < |evs| && Encodable(evs[k], g)
    requires 0 <= i < |Pitches(evs[k].kind)|
    ensures Mark(StartRow(evs[k], g, lay), StepCount(evs[k], g), Pitches(evs[k].kind)[i] - MinPitch) in ScoreMarks(evs, g, lay)
  {
    var m := Mark(StartRow(evs[k], g, lay), StepCount(evs[k], g), Pitches(evs[k].kind)[i] - MinPitch);
    assert EventMarks(evs[k], g, lay)[i] == m;
    ScoreMarksMember(evs, g, lay, m);
  }

  /** A cell a mark of the list covers is 1. */
  lemma MarkCell(ms: seq<Mark>, m: Mark, r: int, c: int)
    requires m in ms && Covers(m, r, c)
    ensures Cell(ms, r, c) == 1
  {
    CellCovered(ms, r, c);
    var j :| 0 <= j < |ms| && ms[j] == m;
    assert Covers(ms[j], r, c);
  }

  /** A mark of the cut covering (t, p - 21), for p on the keyboard, witnesses that p sounds at t. */
  lemma MarkSounds(evs: seq<Event>, g: nat, lay: Layout, m: Mark, t: int, p: int)
    requires ValidLayout(lay) && AllWellFormed(evs) && KeyboardPitches(evs, g)
    requires m in ScoreMarks(evs, g, lay) && InVocabulary(p) && Covers(m, t, p - MinPitch)
    ensures SoundsAt(evs, g, lay, t, p)
  {
    MarkOrigin(evs, g, lay, m);
    var k, i :| 0 <= k < |evs| && Encodable(evs[k], g) && 0 <= i < |Pitches(evs[k].kind)| &&
      m == Mark(StartRow(evs[k], g, lay), StepCount(evs[k], g), Pitches(evs[k].kind)[i] - MinPitch);
    assert InVocabulary(Pitches(evs[k].kind)[i]);
    assert Pitches(evs[k].kind)[i] == p;
  }

  /** A nonzero cell of an encoded row comes from an event holding that pitch at that step. */
  lemma CellSounds(evs: seq<Event>, g: nat, lay: Layout, t: int, p: int)
    requires ValidLayout(lay) && AllWellFormed(evs) && KeyboardPitches(evs, g)
    requires MinPitch <= p <= MaxPitch && Cell(ScoreMarks(evs, g, lay), t, p - MinPitch) != 0
    ensures SoundsAt(evs, g, lay, t, p)
  {
    var ms := ScoreMarks(evs, g, lay);
    CellCovered(ms, t, p - MinPitch);
    var j :| 0 <= j < |ms| && Covers(ms[j], t, p - MinPitch);
    MarkSounds(evs, g, lay, ms[j], t, p);
  }

  /** Pitch i of encodable event k sets its column in every row the event spans. */
  lemma EventCell(evs: seq<Event>, g: nat, lay: Layout, k: int, i: int, t: int)
    requires ValidLayout(lay) && AllWellFormed(evs) && 0 <= k < |evs| && Encodable(evs[k], g)
    requires 0 <= i < |Pitches(evs[k].kind)| && InVocabulary(Pitches(evs[k].kind)[i])
    requires StartRow(evs[k], g, lay) <= t < StartRow(evs[k], g, lay) + StepCount(evs[k], g)
    ensures Cell(ScoreMarks(evs, g, lay), t, Pitches(evs[k].kind)[i] - MinPitch) == 1
  {
    var m := Mark(StartRow(evs[k], g, lay), StepCount(evs[k], g), Pitches(evs[k].kind)[i] - MinPitch);
    MarkOfEvent(evs, g, lay, k, i);
    MarkCell(ScoreMarks(evs, g, lay), m, t, Pitches(evs[k].kind)[i] - MinPitch);
  }

  /** A pitch an event holds at a step sets its cell in the encoded row. */
  lemma SoundingCell(evs: seq<Event>, g: nat, lay: Layout, t: int, p: int)
    requires ValidLayout(lay) && AllWellFormed(evs) && KeyboardPitches(evs, g) && SoundsAt(evs, g, lay, t, p)
    ensures MinPitch <= p <= MaxPitch && Cell(ScoreMarks(evs, g, lay), t, p - MinPitch) == 1
  {
    var k, i :| 0 <= k < |evs| && Encodable(evs[k], g) && 0 <= i < |Pitches(evs[k].kind)| &&
      Pitches(evs[k].kind)[i] == p && StartRow(evs[k], g, lay) <= t < StartRow(evs[k], g, lay) + StepCount(evs[k], g);
    assert InVocabulary(p);
    EventCell(evs, g, lay, k, i, t);
  }

  /**
    Decoding row t of an encoded cut gives back exactly the pitches that
    the cut's encodable events hold at step t.
   */
  lemma EncodeDecodeRow(evs: seq<Event>, g: nat, lay: Layout, t: int, p: int)
    requires g > 0 && ValidLayout(lay) && AllWellFormed(evs) && KeyboardPitches(evs, g)
    ensures p in ChordPitches(DecodeStep(CellRow(ScoreMarks(evs, g, lay), t), g)) <==> SoundsAt(evs, g, lay, t, p)
  {
    var ms := ScoreMarks(evs, g, lay);
    RowPitch(CellRow(ms, t), g, p);
    if MinPitch <= p <= MaxPitch && Cell(ms, t, p - MinPitch) != 0 {
      CellSounds(evs, g, lay, t, p);
    }
    if SoundsAt(evs, g, lay, t, p) {
      SoundingCell(evs, g, lay, t, p);
    }
  }

  /** An encoded row decodes to a Rest exactly when no event of the cut sounds at that step. */
  lemma EncodeDecodeRest(evs: seq<Event>, g: nat, lay: Layout, t: int)
    requires g > 0 && ValidLayout(lay) && AllWellFormed(evs) && KeyboardPitches(evs, g)
    ensures DecodeStep(CellRow(ScoreMarks(evs, g, lay), t), g).DRest? <==> forall p :: !SoundsAt(evs, g, lay, t, p)
  {
    var row := CellRow(ScoreMarks(evs, g, lay), t);
    DecodeStepMeaning(row, g);
    forall p
      ensures p in ChordPitches(DecodeStep(row, g)) <==> SoundsAt(evs, g, lay, t, p)
    {
      EncodeDecodeRow(evs, g, lay, t, p);
    }
    if !DecodeStep(row, g).DRest? {
      var c :| 0 <= c < |row| && row[c] != 0;
      assert (c + MinPitch) in ChordPitches(DecodeStep(row, g));
    }
  }

  /** A grid the encoder filled holds the rows CellRow describes. */
  lemma GridRows(grid: array2<int>, ms: seq<Mark>, t: int)
    requires grid.Length1 == NoteRange && GridIs(grid, ms) && 0 <= t < grid.Length0
    ensures RowsOf(grid)[t] == CellRow(ms, t)
  {
  }
}
