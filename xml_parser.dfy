/**
  encode_score and decode_score of xml_parser.py: a two-part score is
  flattened and cut into consecutive windows of M measures from measure 1
  on; every full window becomes one binary piano roll of
  int(M * G * beatCount * beatQL / 4) rows.

  This encoder differs from the one in task_1/create_dataset.py: it skips
  notes and chords shorter than one step (4/G) rather than those whose
  duration is not a whole number of steps, so a longer duration that is
  not a whole number of steps is truncated to int(ql * G / 4) rows; and it
  skips pitches outside A0 .. C8 rather than relying on the caller.
 */
module XmlParser {
  import opened Wrappers
  import opened Music
  import opened PianoRoll
  import opened Cutting

  /** One measure of the flattened score: its number, its notes, its chords, and the ratio strings of its time signatures. */
  datatype XmlMeasure = XmlMeasure(number: int, notes: seq<Event>, chords: seq<Event>, sigs: seq<string>)

  /** What stops encode_score: an assert on the part count or the time signature, or numpy's IndexError. */
  datatype EncodeError = PartCount | TimeSignatureMismatch | IndexError

  /** The measures are numbered 1 .. n in order and their events carry their measure's number. */
  predicate Numbered(ms: seq<XmlMeasure>) {
    forall i :: 0 <= i < |ms| ==>
      && ms[i].number == i + 1
      && (forall k :: 0 <= k < |ms[i].notes| ==> ms[i].notes[k].measureNumber == i + 1 && WellFormed(ms[i].notes[k]))
      && (forall k :: 0 <= k < |ms[i].chords| ==> ms[i].chords[k].measureNumber == i + 1 && WellFormed(ms[i].chords[k]))
  }

  /** The layout the encoder uses: M measures of int(G * beatCount * beatQL / 4) rows each. */
  function XmlLayout(m: nat, ts: TimeSig, g: nat): (lay: Layout)
    requires m > 0 && ts.beatQL >= 0.0
    ensures ValidLayout(lay)
  {
    NonnegProduct(g as real * ts.beatCount as real, ts.beatQL);
    Layout(m, MeasureSteps(ts, g).Floor as real)
  }

  /** The rows of one window's roll: int(M * G * beatCount * beatQL / 4). */
  function XmlRows(m: nat, ts: TimeSig, g: nat): nat
    requires ts.beatQL >= 0.0
  {
    NonnegProduct(g as real * ts.beatCount as real, ts.beatQL);
    NonnegProduct(m as real, MeasureSteps(ts, g));
    (m as real * MeasureSteps(ts, g)).Floor
  }

  /** The encoder keeps a note or chord lasting at least one step, 4/G quarter notes. */
  predicate XmlKeeps(e: Event, g: nat)
    requires g > 0
  {
    IsSounding(e.kind) && e.quarterLength >= StepLength(g)
  }

  /** One mark of `len` rows from `row` per pitch of ps on the keyboard, in order. */
  function PitchMarks(ps: seq<int>, row: nat, len: nat): seq<Mark> {
    if ps == [] then []
    else
      var p := ps[|ps| - 1];
      PitchMarks(ps[..|ps| - 1], row, len) + (if InVocabulary(p) then [Mark(row, len, p - MinPitch)] else [])
  }

  /** The marks of one event: one per pitch on the keyboard, if the event is kept. */
  function XmlEventMarks(e: Event, g: nat, lay: Layout): seq<Mark>
    requires g > 0 && ValidLayout(lay) && WellFormed(e)
  {
    if XmlKeeps(e, g) then PitchMarks(Pitches(e.kind), StartRow(e, g, lay), StepCount(e, g)) else []
  }

  /** The marks of a sequence of events, in order. */
  function XmlMarks(evs: seq<Event>, g: nat, lay: Layout): seq<Mark>
    requires g > 0 && ValidLayout(lay) && AllWellFormed(evs)
  {
    if evs == [] then []
    else XmlMarks(evs[..|evs| - 1], g, lay) + XmlEventMarks(evs[|evs| - 1], g, lay)
  }

  /** The events of some measures in the order the encoder visits them: measure by measure, notes before chords. */
  function MeasureEvents(ms: seq<XmlMeasure>): seq<Event> {
    if ms == [] then []
    else MeasureEvents(ms[..|ms| - 1]) + ms[|ms| - 1].notes + ms[|ms| - 1].chords
  }

  lemma {:induction false} MeasureEventsWellFormed(ms: seq<XmlMeasure>, base: int)
    requires forall i :: 0 <= i < |ms| ==>
      (forall k :: 0 <= k < |ms[i].notes| ==> WellFormed(ms[i].notes[k])) &&
      (forall k :: 0 <= k < |ms[i].chords| ==> WellFormed(ms[i].chords[k]))
    ensures AllWellFormed(MeasureEvents(ms))
  {
    if ms != [] {
      var n := |ms| - 1;
      MeasureEventsWellFormed(ms[..n], base);
      var front := MeasureEvents(ms[..n]);
      var all := front + ms[n].notes + ms[n].chords;
      forall k | 0 <= k < |all|
        ensures WellFormed(all[k])
      {
        if k < |front| {
          assert all[k] == front[k];
        } else if k < |front| + |ms[n].notes| {
          assert all[k] == ms[n].notes[k - |front|];
        } else {
          assert all[k] == ms[n].chords[k - |front| - |ms[n].notes|];
        }
      }
    }
  }

  /** The measures of window w: score.measures(w.first, w.last). */
  function WindowMeasures(ms: seq<XmlMeasure>, w: Window): seq<XmlMeasure>
    requires 1 <= w.first <= w.last <= |ms|
  {
    ms[w.first - 1 .. w.last]
  }

  /** Every time signature declared in the measures has the expected ratio string. */
  predicate SigsMatch(ms: seq<XmlMeasure>, ratio: string) {
    forall i, j :: 0 <= i < |ms| && 0 <= j < |ms[i].sigs| ==> ms[i].sigs[j] == ratio
  }

  /** One more pitch adds its mark when it is on the keyboard. */
  lemma PitchMarksSnoc(ps: seq<int>, q: nat, row: nat, len: nat)
    requires q < |ps|
    ensures PitchMarks(ps[..q + 1], row, len) ==
      PitchMarks(ps[..q], row, len) + (if InVocabulary(ps[q]) then [Mark(row, len, ps[q] - MinPitch)] else [])
  {
    assert ps[..q + 1][..q] == ps[..q];
  }

  /** Writes one mark per pitch of ps on the keyboard, skipping the rest; false where numpy raises IndexError. */
  method PaintPitches(grid: array2<int>, ps: seq<int>, row: nat, len: nat, ghost done: seq<Mark>) returns (ok: bool)
    requires grid.Length1 == NoteRange && GridIs(grid, done)
    modifies grid
    ensures ok ==> GridIs(grid, done + PitchMarks(ps, row, len)) && AllFit(PitchMarks(ps, row, len), grid.Length0)
    ensures !ok ==> !AllFit(PitchMarks(ps, row, len), grid.Length0)
  {
    ok := true;
    var q := 0;
    assert ps[..0] == [];
    assert done + PitchMarks(ps[..0], row, len) == done;
    while q < |ps|
      invariant 0 <= q <= |ps|
      invariant AllFit(PitchMarks(ps[..q], row, len), grid.Length0)
      invariant GridIs(grid, done + PitchMarks(ps[..q], row, len))
    {
      PitchMarksSnoc(ps, q, row, len);
      if InVocabulary(ps[q]) {
        var m := Mark(row, len, ps[q] - MinPitch);
        ghost var before := done + PitchMarks(ps[..q], row, len);
        ok := PaintRun(grid, m, before);
        if !ok {
          PitchMarksPrefix(ps, q + 1, row, len);
          LastMarkMisfits(PitchMarks(ps[..q + 1], row, len), PitchMarks(ps, row, len), grid.Length0);
          return;
        }
        assert done + PitchMarks(ps[..q + 1], row, len) == before + [m];
      } else {
        assert done + PitchMarks(ps[..q + 1], row, len) == done + PitchMarks(ps[..q], row, len);
      }
      q := q + 1;
    }
    assert ps[..q] == ps;
  }

  /** A mark that does not fit, last of a prefix, keeps the whole sequence from fitting. */
  lemma LastMarkMisfits(pre: seq<Mark>, all: seq<Mark>, rows: int)
    requires pre <= all && pre != [] && !Fits(pre[|pre| - 1], rows)
    ensures !AllFit(all, rows)
  {
    assert all[|pre| - 1] == pre[|pre| - 1];
  }

  /** Writes the marks of one event: the in-range pitches of a kept note or chord. */
  method PaintXmlEvent(grid: array2<int>, e: Event, g: nat, lay: Layout, ghost done: seq<Mark>) returns (ok: bool)
    requires g > 0 && ValidLayout(lay) && WellFormed(e)
    requires grid.Length1 == NoteRange && GridIs(grid, done)
    modifies grid
    ensures ok ==> GridIs(grid, done + XmlEventMarks(e, g, lay)) && AllFit(XmlEventMarks(e, g, lay), grid.Length0)
    ensures !ok ==> !AllFit(XmlEventMarks(e, g, lay), grid.Length0)
  {
    if !IsSounding(e.kind) || e.quarterLength < 4.0 / g as real {
      assert done + [] == done;
      return true;
    }
    ok := PaintPitches(grid, Pitches(e.kind), StartRow(e, g, lay), StepCount(e, g), done);
  }

  /** The marks of a prefix of the pitches are a prefix of the marks. */
  lemma {:induction false} PitchMarksPrefix(ps: seq<int>, q: nat, row: nat, len: nat)
    requires q <= |ps|
    ensures PitchMarks(ps[..q], row, len) <= PitchMarks(ps, row, len)
  {
    if q < |ps| {
      var n := |ps| - 1;
      assert ps[..n][..q] == ps[..q];
      PitchMarksPrefix(ps[..n], q, row, len);
    } else {
      assert ps[..q] == ps;
    }
  }

  /** The marks of a prefix of the events are a prefix of the marks. */
  lemma {:induction false} XmlMarksPrefix(evs: seq<Event>, j: nat, g: nat, lay: Layout)
    requires g > 0 && ValidLayout(lay) && AllWellFormed(evs) && j <= |evs|
    ensures AllWellFormed(evs[..j])
    ensures XmlMarks(evs[..j], g, lay) <= XmlMarks(evs, g, lay)
  {
    assert forall k :: 0 <= k < j ==> evs[..j][k] == evs[k];
    if j < |evs| {
      var n := |evs| - 1;
      assert evs[..n][..j] == evs[..j];
      assert forall k :: 0 <= k < n ==> evs[..n][k] == evs[k];
      XmlMarksPrefix(evs[..n], j, g, lay);
    } else {
      assert evs[..j] == evs;
    }
  }

  lemma XmlMarksSnoc(evs: seq<Event>, j: nat, g: nat, lay: Layout)
    requires g > 0 && ValidLayout(lay) && AllWellFormed(evs) && j < |evs|
    ensures AllWellFormed(evs[..j]) && AllWellFormed(evs[..j + 1])
    ensures XmlMarks(evs[..j + 1], g, lay) == XmlMarks(evs[..j], g, lay) + XmlEventMarks(evs[j], g, lay)
  {
    assert evs[..j + 1][..j] == evs[..j];
    assert forall k :: 0 <= k <= j ==> evs[..j + 1][k] == evs[k];
  }

  /** A mark of one event that does not fit makes the window's marks not fit. */
  lemma XmlMarkOfCutFails(evs: seq<Event>, j: nat, q: nat, g: nat, lay: Layout, rows: int)
    requires g > 0 && ValidLayout(lay) && AllWellFormed(evs) && j < |evs| && q < |XmlEventMarks(evs[j], g, lay)|
    requires !Fits(XmlEventMarks(evs[j], g, lay)[q], rows)
    ensures !AllFit(XmlMarks(evs, g, lay), rows)
  {
    XmlMarksSnoc(evs, j, g, lay);
    XmlMarksPrefix(evs, j + 1, g, lay);
    var before, em := XmlMarks(evs[..j], g, lay), XmlEventMarks(evs[j], g, lay);
    var upto, all := XmlMarks(evs[..j + 1], g, lay), XmlMarks(evs, g, lay);
    assert upto == before + em && upto <= all;
    var k := |before| + q;
    assert upto[k] == em[q];
    assert all[k] == upto[k];
  }

  /** Encodes one window's events into a zero grid of `rows` rows; false where numpy raises IndexError. */
  method EncodeWindow(evs: seq<Event>, g: nat, lay: Layout, rows: nat) returns (grid: array2<int>, ok: bool)
    requires g > 0 && ValidLayout(lay) && AllWellFormed(evs)
    ensures fresh(grid) && grid.Length0 == rows && grid.Length1 == NoteRange
    ensures ok == AllFit(XmlMarks(evs, g, lay), rows)
    ensures ok ==> GridIs(grid, XmlMarks(evs, g, lay))
  {
    grid := new int[rows, NoteRange]((r, c) => 0);
    assert XmlMarks(evs[..0], g, lay) == [];
    var j := 0;
    while j < |evs|
      invariant 0 <= j <= |evs|
      invariant grid.Length0 == rows && grid.Length1 == NoteRange
      invariant AllWellFormed(evs[..j])
      invariant AllFit(XmlMarks(evs[..j], g, lay), rows)
      invariant GridIs(grid, XmlMarks(evs[..j], g, lay))
    {
      XmlMarksSnoc(evs, j, g, lay);
      ok := PaintXmlEvent(grid, evs[j], g, lay, XmlMarks(evs[..j], g, lay));
      if !ok {
        var q :| 0 <= q < |XmlEventMarks(evs[j], g, lay)| && !Fits(XmlEventMarks(evs[j], g, lay)[q], rows);
        XmlMarkOfCutFails(evs, j, q, g, lay, rows);
        return;
      }
      j := j + 1;
    }
    assert evs[..j] == evs;
    ok := true;
  }

  /** What encode_score writes for window w: the marks of its notes and chords. */
  function WindowMarks(ms: seq<XmlMeasure>, w: Window, m: nat, ts: TimeSig, g: nat): seq<Mark>
    requires g > 0 && m > 0 && ts.beatQL >= 0.0 && Numbered(ms) && 1 <= w.first <= w.last <= |ms|
  {
    var wm := WindowMeasures(ms, w);
    MeasureEventsWellFormed(wm, w.first);
    XmlMarks(MeasureEvents(wm), g, XmlLayout(m, ts, g))
  }

  /** A window passes the time-signature assert and its marks fit the roll. */
  predicate WindowEncodes(ms: seq<XmlMeasure>, w: Window, m: nat, ts: TimeSig, ratio: string, g: nat)
    requires g > 0 && m > 0 && ts.beatQL >= 0.0 && Numbered(ms) && 1 <= w.first <= w.last <= |ms|
  {
    SigsMatch(WindowMeasures(ms, w), ratio) && AllFit(WindowMarks(ms, w, m, ts, g), XmlRows(m, ts, g))
  }

  /** x is window w's roll: the window lies in the score, passes the asserts, and x holds its marks. */
  ghost predicate RollOf(x: array2<int>, ms: seq<XmlMeasure>, w: Window, m: nat, ts: TimeSig, ratio: string, g: nat)
    reads x
    requires g > 0 && m > 0 && ts.beatQL >= 0.0 && Numbered(ms)
  {
    && 1 <= w.first <= w.last <= |ms|
    && x.Length0 == XmlRows(m, ts, g) && x.Length1 == NoteRange
    && WindowEncodes(ms, w, m, ts, ratio, g)
    && GridIs(x, WindowMarks(ms, w, m, ts, g))
  }

  /** The body of encode_score's loop for one window: the time-signature assert, then the roll. */
  method EncodeCut(ms: seq<XmlMeasure>, w: Window, m: nat, ts: TimeSig, ratio: string, g: nat)
    returns (r: Result<array2<int>, EncodeError>)
    requires g > 0 && m > 0 && ts.beatQL >= 0.0 && Numbered(ms) && 1 <= w.first <= w.last <= |ms|
    ensures r.Ok? ==> fresh(r.value) && RollOf(r.value, ms, w, m, ts, ratio, g)
    ensures r.Err? ==> r.error != PartCount && !WindowEncodes(ms, w, m, ts, ratio, g)
  {
    var window := ms[w.first - 1 .. w.last];
    if !SigsMatch(window, ratio) {
      return Err(TimeSignatureMismatch);
    }
    MeasureEventsWellFormed(window, w.first);
    var x, ok := EncodeWindow(MeasureEvents(window), g, XmlLayout(m, ts, g), XmlRows(m, ts, g));
    if !ok {
      return Err(IndexError);
    }
    return Ok(x);
  }

  /**
    encode_score(score): asserts two parts, then for every full window of
    M measures from measure 1 on asserts its time signatures and appends
    the roll of its notes and chords.
   */
  method EncodeScore(numParts: nat, ms: seq<XmlMeasure>, m: nat, ts: TimeSig, ratio: string, g: nat)
    returns (r: Result<seq<array2<int>>, EncodeError>)
    requires g > 0 && m > 0 && ts.beatQL >= 0.0 && Numbered(ms)
    ensures numParts != 2 <==> r == Err(PartCount)
    ensures var ws := Windows(1, |ms|, m, 1);
      r.Ok? ==> |r.value| == |ws| && forall k :: 0 <= k < |ws| ==> RollOf(r.value[k], ms, ws[k], m, ts, ratio, g)
    ensures var ws := Windows(1, |ms|, m, 1);
      numParts == 2 && r.Err? ==>
        exists k :: 0 <= k < |ws| && 1 <= ws[k].first <= ws[k].last <= |ms| && !WindowEncodes(ms, ws[k], m, ts, ratio, g)
  {
    if numParts != 2 {
      return Err(PartCount);
    }
    ghost var ws := Windows(1, |ms|, m, 1);
    ghost var done: seq<Window> := [];
    var scoreX: seq<array2<int>> := [];
    var startInd := 1;
    while CountIn(1, |ms|, startInd, startInd + m - 1) == m
      invariant ws == done + Windows(1, |ms|, m, startInd) && |done| == |scoreX|
      invariant forall k :: 0 <= k < |scoreX| ==> RollOf(scoreX[k], ms, done[k], m, ts, ratio, g)
      decreases if startInd <= |ms| then |ms| - startInd + 1 else 0
    {
      FullCount(1, |ms|, startInd, m);
      var w := Window(startInd, startInd + m - 1);
      var x := EncodeCut(ms, w, m, ts, ratio, g);
      if x.Err? {
        assert ws[|done|] == w;
        return Err(x.error);
      }
      assert done + Windows(1, |ms|, m, startInd) == (done + [w]) + Windows(1, |ms|, m, startInd + m);
      scoreX, done := scoreX + [x.value], done + [w];
      startInd := startInd + m;
    }
    assert ws == done;
    return Ok(scoreX);
  }

  // ---------------------------------------------------------------------
  // Properties of the encoder

  /** The start row is the source's sum of two truncations: ((mn - 1) % M) * int(G * bc * bql / 4) + int(offset * G / 4). */
  lemma XmlStartRow(e: Event, m: nat, ts: TimeSig, g: nat)
    requires m > 0 && ts.beatQL >= 0.0 && WellFormed(e)
    ensures StartRow(e, g, XmlLayout(m, ts, g)) ==
      ((e.measureNumber - 1) % m) * MeasureSteps(ts, g).Floor + StepsOf(e.offset, g).Floor
  {
    var k := ((e.measureNumber - 1) % m) * MeasureSteps(ts, g).Floor;
    assert ((e.measureNumber - 1) % m) as real * MeasureSteps(ts, g).Floor as real == k as real;
    var x := StepsOf(e.offset, g);
    assert (k as real + x).Floor == k + x.Floor;
  }

  /** A pitch gets a mark exactly when it is on the keyboard; every mark lies in column p - 21 of the grid. */
  lemma {:induction false} PitchMarksMeaning(ps: seq<int>, row: nat, len: nat, p: int)
    ensures (exists i :: 0 <= i < |PitchMarks(ps, row, len)| && PitchMarks(ps, row, len)[i].col == p - MinPitch) <==>
      p in ps && InVocabulary(p)
    ensures forall i :: 0 <= i < |PitchMarks(ps, row, len)| ==>
      var mk := PitchMarks(ps, row, len)[i];
      mk.row == row && mk.len == len && 0 <= mk.col < NoteRange
  {
    if ps != [] {
      var n := |ps| - 1;
      PitchMarksMeaning(ps[..n], row, len, p);
      assert ps == ps[..n] + [ps[n]];
      var front := PitchMarks(ps[..n], row, len);
      var all := PitchMarks(ps, row, len);
      assert forall j :: 0 <= j < |front| ==> all[j] == front[j];
      if p in ps && InVocabulary(p) && p !in ps[..n] {
        assert p == ps[n];
        assert all[|all| - 1].col == p - MinPitch;
      }
      if i :| 0 <= i < |all| && all[i].col == p - MinPitch {
        if i < |front| {
          assert front[i] == all[i];
          var j :| 0 <= j < n && ps[..n][j] == p;
          assert ps[j] == p;
        } else {
          assert InVocabulary(ps[n]) && all == front + [Mark(row, len, ps[n] - MinPitch)];
          assert p == ps[n];
        }
      }
    }
  }

  /** Notes and chords shorter than one step, and rests, leave no mark. */
  lemma ShortEventsSkipped(e: Event, g: nat, lay: Layout)
    requires g > 0 && ValidLayout(lay) && WellFormed(e)
    requires e.quarterLength < StepLength(g) || e.kind.Rest?
    ensures XmlEventMarks(e, g, lay) == []
  {
  }

  /**
    A dotted sixteenth (ql 0.375, 1.5 steps at G = 16) is truncated to one
    row here, where the task_1 encoder, which needs whole steps, drops it.
   */
  lemma DottedSixteenthTruncated()
    ensures var e := Event(Note(60), 1, 0.0, 0.375);
      var lay := XmlLayout(32, TimeSig(3, 4, 3, 1.0), 16);
      XmlEventMarks(e, 16, lay) == [Mark(0, 1, 39)] && !Encodable(e, 16)
  {
    var e := Event(Note(60), 1, 0.0, 0.375);
    var lay := XmlLayout(32, TimeSig(3, 4, 3, 1.0), 16);
    assert StepsOf(0.375, 16) == 1.5;
    assert StepCount(e, 16) == 1;
    assert StartRow(e, 16, lay) == 0;
    assert PitchMarks([60], 0, 1) == PitchMarks([], 0, 1) + [Mark(0, 1, 39)];
  }

  /**
    The rolls come from the full windows 1 .. M, M + 1 .. 2M, ... of the
    score; the first incomplete window ends the loop, so trailing measures
    are dropped.
   */
  lemma XmlWindows(n: nat, m: nat)
    requires m > 0
    ensures var ws := Windows(1, n, m, 1);
      |ws| * m <= n < (|ws| + 1) * m &&
      forall k :: 0 <= k < |ws| ==> ws[k] == Window(k * m + 1, k * m + m)
  {
    WindowsShape(1, n, m, 1);
    WindowsCount(1, n, m, 1);
    var ws := Windows(1, n, m, 1);
    forall k | 0 <= k < |ws|
      ensures ws[k] == Window(k * m + 1, k * m + m)
    {
      WindowStart(ws, m, k);
    }
  }

  /** Contiguous windows of m measures from 1 on start at k * m + 1. */
  lemma {:induction false} WindowStart(ws: seq<Window>, m: nat, k: nat)
    requires k < |ws| && (ws != [] ==> ws[0].first == 1)
    requires forall i :: 0 <= i < |ws| ==> ws[i].last == ws[i].first + m - 1
    requires forall i :: 0 <= i < |ws| - 1 ==> ws[i + 1].first == ws[i].last + 1
    ensures ws[k] == Window(k * m + 1, k * m + m)
  {
    if k > 0 {
      WindowStart(ws, m, k - 1);
      assert ws[k].first == (k - 1) * m + m + 1;
    }
  }

  // ---------------------------------------------------------------------
  // Decoding

  /**
    decode_score(encoding): asserts the roll has exactly
    M * G * beatCount * beatQL / 4 rows, then decodes measure i from rows
    int(i * G * bc * bql / 4) to int((i + 1) * G * bc * bql / 4).
   */
  method DecodeScore(grid: array2<int>, m: nat, ts: TimeSig, g: nat) returns (r: Option<seq<seq<Decoded>>>)
    requires g > 0 && ts.beatQL >= 0.0
    ensures r.Some? <==> grid.Length0 as real == m as real * MeasureSteps(ts, g)
    ensures r.Some? ==> r.value == DecodeSpec(RowsOf(grid), m, MeasureSteps(ts, g), g)
  {
    if grid.Length0 as real != m as real * MeasureSteps(ts, g) {
      return None;
    }
    NonnegProduct(g as real * ts.beatCount as real, ts.beatQL);
    var measures := Decode(grid, m, MeasureSteps(ts, g), g);
    return Some(measures);
  }
}
