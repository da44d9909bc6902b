/**
  Cutting a score into windows of whole measures, as get_cut_score_nummeasures
  and get_cut_score_numsteps do in task_1/create_dataset.py and
  task_6/create_dataset.py (the two copies are the same).

  A score is reduced to its first part's measures, numbered 1 .. total, and
  to the time signature each measure declares, if any. A cut is the window
  of measure numbers it spans; `score.measures(a, b)` on a score holding
  measures lo .. hi holds the measures numbered in both ranges.
 */
module Cutting {
  import opened Wrappers
  import opened Music

  /** The measures first .. last of a cut, both inclusive. */
  datatype Window = Window(first: int, last: int)

  function Max(a: int, b: int): int { if a >= b then a else b }
  function Min(a: int, b: int): int { if a <= b then a else b }

  /** len(score.measures(a, b)) on a score holding measures lo .. hi. */
  function CountIn(lo: int, hi: int, a: int, b: int): nat {
    if Max(a, lo) <= Min(b, hi) then Min(b, hi) - Max(a, lo) + 1 else 0
  }

  /** A full count means the whole range a .. b lies inside lo .. hi. */
  lemma FullCount(lo: int, hi: int, a: int, m: nat)
    requires m > 0
    ensures CountIn(lo, hi, a, a + m - 1) == m <==> lo <= a && a + m - 1 <= hi
  {
  }

  /** The windows get_cut_score_nummeasures returns from `start` on. */
  function Windows(lo: int, hi: int, m: nat, start: int): seq<Window>
    requires m > 0
    decreases if start <= hi then hi - start + 1 else 0
  {
    if CountIn(lo, hi, start, start + m - 1) == m then
      FullCount(lo, hi, start, m);
      [Window(start, start + m - 1)] + Windows(lo, hi, m, start + m)
    else []
  }

  /**
    get_cut_score_nummeasures(score, m, start_i) on a score holding measures
    lo .. hi: windows of m measures from start_i on, while the window is full.
   */
  method CutByMeasures(lo: int, hi: int, m: nat, startI: int) returns (cuts: seq<Window>)
    requires m > 0
    ensures cuts == Windows(lo, hi, m, startI)
  {
    cuts := [];
    var startInd := startI;
    while CountIn(lo, hi, startInd, startInd + m - 1) == m
      invariant Windows(lo, hi, m, startI) == cuts + Windows(lo, hi, m, startInd)
      decreases if startInd <= hi then hi - startInd + 1 else 0
    {
      FullCount(lo, hi, startInd, m);
      cuts := cuts + [Window(startInd, startInd + m - 1)];
      startInd := startInd + m;
    }
  }

  /** Where the window after the windows ws, found from `start` on, would start. */
  function NextStart(ws: seq<Window>, start: int): int {
    if ws == [] then start else ws[|ws| - 1].last + 1
  }

  /** Each window spans exactly m measures inside the score, and each starts right after the one before. */
  lemma {:induction false} WindowsContiguous(lo: int, hi: int, m: nat, start: int)
    requires m > 0
    ensures var ws := Windows(lo, hi, m, start);
      (ws != [] ==> ws[0].first == start) &&
      (forall k :: 0 <= k < |ws| ==> ws[k].last == ws[k].first + m - 1 && lo <= ws[k].first && ws[k].last <= hi) &&
      (forall k :: 0 <= k < |ws| - 1 ==> ws[k + 1].first == ws[k].last + 1)
    decreases if start <= hi then hi - start + 1 else 0
  {
    var ws := Windows(lo, hi, m, start);
    if CountIn(lo, hi, start, start + m - 1) == m {
      FullCount(lo, hi, start, m);
      WindowsContiguous(lo, hi, m, start + m);
      var rest := Windows(lo, hi, m, start + m);
      assert ws == [Window(start, start + m - 1)] + rest;
      assert forall k :: 0 < k < |ws| ==> ws[k] == rest[k - 1];
    }
  }

  /** The window after the last one is not full, so a trailing partial window is dropped. */
  lemma {:induction false} WindowsStop(lo: int, hi: int, m: nat, start: int)
    requires m > 0
    ensures var ws := Windows(lo, hi, m, start);
      CountIn(lo, hi, NextStart(ws, start), NextStart(ws, start) + m - 1) < m
    decreases if start <= hi then hi - start + 1 else 0
  {
    var ws := Windows(lo, hi, m, start);
    if CountIn(lo, hi, start, start + m - 1) == m {
      FullCount(lo, hi, start, m);
      WindowsStop(lo, hi, m, start + m);
      var rest := Windows(lo, hi, m, start + m);
      assert ws == [Window(start, start + m - 1)] + rest;
      assert NextStart(ws, start) == NextStart(rest, start + m);
    }
  }

  /**
    The windows are full, contiguous and non-overlapping: the first starts
    at `start`, each spans exactly m measures inside the score, each starts
    right after the one before, and the window after the last one is not
    full, so a trailing partial window is dropped.
   */
  lemma WindowsShape(lo: int, hi: int, m: nat, start: int)
    requires m > 0
    ensures var ws := Windows(lo, hi, m, start);
      (ws != [] ==> ws[0].first == start) &&
      (forall k :: 0 <= k < |ws| ==> ws[k].last == ws[k].first + m - 1 && lo <= ws[k].first && ws[k].last <= hi) &&
      (forall k :: 0 <= k < |ws| - 1 ==> ws[k + 1].first == ws[k].last + 1) &&
      CountIn(lo, hi, NextStart(ws, start), NextStart(ws, start) + m - 1) < m
  {
    WindowsContiguous(lo, hi, m, start);
    WindowsStop(lo, hi, m, start);
  }

  /** Starting inside the score, the windows cover as many whole windows of m measures as fit. */
  lemma {:induction false} WindowsCount(lo: int, hi: int, m: nat, start: int)
    requires m > 0 && lo <= start <= hi + 1
    ensures |Windows(lo, hi, m, start)| * m <= hi - start + 1 < (|Windows(lo, hi, m, start)| + 1) * m
    decreases hi - start + 1
  {
    FullCount(lo, hi, start, m);
    if start + m - 1 <= hi {
      WindowsCount(lo, hi, m, start + m);
      var n := |Windows(lo, hi, m, start + m)|;
      assert (n + 1) * m == n * m + m;
      assert (n + 2) * m == (n + 1) * m + m;
    }
  }

  // ---------------------------------------------------------------------
  // Cutting by time-signature segments

  /** Time signatures compare by their ratio string, e.g. "3/4". */
  predicate SameRatio(a: TimeSig, b: TimeSig) {
    a.numerator == b.numerator && a.denominator == b.denominator
  }

  /** int(steps_per_cut / (G * beatCount * beatQL / 4)): whole measures of ts in a cut. */
  function MeasuresPerCut(ts: TimeSig, spc: nat, g: nat): int
    requires MeasureSteps(ts, g) > 0.0
  {
    (spc as real / MeasureSteps(ts, g)).Floor
  }

  /**
    Every declared time signature spans at least one step and at most one cut,
    and measure 1 declares one: the source divides by zero, loops forever or
    reads the signature of nothing otherwise.
   */
  predicate CuttableSigs(tsOf: seq<Option<TimeSig>>, spc: nat, g: nat) {
    |tsOf| >= 1 && tsOf[0].Some? &&
    forall j :: 0 <= j < |tsOf| && tsOf[j].Some? ==> 0.0 < MeasureSteps(tsOf[j].value, g) <= spc as real
  }

  lemma MeasuresPerCutPositive(ts: TimeSig, spc: nat, g: nat)
    requires 0.0 < MeasureSteps(ts, g) <= spc as real
    ensures MeasuresPerCut(ts, spc, g) >= 1
  {
    assert spc as real / MeasureSteps(ts, g) >= 1.0;
  }

  /** Measure i closes a segment: it declares a different signature, or it is the last measure. */
  predicate Boundary(tsOf: seq<Option<TimeSig>>, i: int, ts: TimeSig)
    requires 1 <= i <= |tsOf|
  {
    (tsOf[i - 1].Some? && !SameRatio(tsOf[i - 1].value, ts)) || i == |tsOf|
  }

  /** The cuts get_cut_score_numsteps collects from measure i on, its segment having started at `start` with `ts`. */
  function StepCuts(tsOf: seq<Option<TimeSig>>, spc: nat, g: nat, i: nat, start: int, ts: TimeSig): seq<Window>
    requires CuttableSigs(tsOf, spc, g) && 0.0 < MeasureSteps(ts, g) <= spc as real
    decreases |tsOf| + 1 - i
  {
    if i < 1 || i > |tsOf| then []
    else if Boundary(tsOf, i, ts) then
      MeasuresPerCutPositive(ts, spc, g);
      Windows(start, i - 1, MeasuresPerCut(ts, spc, g), start) +
      StepCuts(tsOf, spc, g, i + 1, i, if tsOf[i - 1].Some? then tsOf[i - 1].value else ts)
    else StepCuts(tsOf, spc, g, i + 1, start, ts)
  }

  /**
    get_cut_score_numsteps(score, steps_per_cut): walk the measures; when
    measure i declares a different signature, or is the last one, cut the
    segment start_ind .. i - 1 with the segment's measures per cut and start
    a new segment at i.
   */
  method CutBySteps(tsOf: seq<Option<TimeSig>>, spc: nat, g: nat) returns (cuts: seq<Window>)
    requires CuttableSigs(tsOf, spc, g)
    ensures cuts == StepCuts(tsOf, spc, g, 1, 1, tsOf[0].value)
  {
    cuts := [];
    var startInd := 1;
    var i := 1;
    var totalMeasures := |tsOf|;
    var ts := tsOf[0].value;
    while i <= totalMeasures
      invariant 1 <= i <= totalMeasures + 1
      invariant 0.0 < MeasureSteps(ts, g) <= spc as real
      invariant StepCuts(tsOf, spc, g, 1, 1, tsOf[0].value) == cuts + StepCuts(tsOf, spc, g, i, startInd, ts)
      decreases totalMeasures + 1 - i
    {
      var curTs := tsOf[i - 1];
      if (curTs.Some? && !SameRatio(curTs.value, ts)) || i == totalMeasures {
        MeasuresPerCutPositive(ts, spc, g);
        var measuresPerCut := (spc as real / MeasureSteps(ts, g)).Floor;
        var segmentCuts := CutByMeasures(startInd, i - 1, measuresPerCut, startInd);
        cuts := cuts + segmentCuts;
        if curTs.Some? {
          ts := curTs.value;
        }
        startInd := i;
      }
      i := i + 1;
    }
  }

  /** Window w lies in the segment starting at measure s: s declares a signature and no later measure up to w's end declares a different one. */
  predicate SegmentOf(tsOf: seq<Option<TimeSig>>, s: int, w: Window)
    requires 1 <= s <= |tsOf|
  {
    tsOf[s - 1].Some? && s <= w.first &&
    forall j :: s <= j < w.last && j < |tsOf| ==> tsOf[j].None? || SameRatio(tsOf[j].value, tsOf[s - 1].value)
  }

  /** What every cut of a score satisfies: inside measures 1 .. total - 1, one segment's length. */
  ghost predicate GoodCut(tsOf: seq<Option<TimeSig>>, spc: nat, g: nat, w: Window) {
    1 <= w.first <= w.last < |tsOf| &&
    exists s :: 1 <= s <= |tsOf| && SegmentOf(tsOf, s, w) &&
      0.0 < MeasureSteps(tsOf[s - 1].value, g) && w.last - w.first + 1 == MeasuresPerCut(tsOf[s - 1].value, spc, g)
  }

  /** The windows of one segment start .. i - 1 are good cuts. */
  lemma SegmentCuts(tsOf: seq<Option<TimeSig>>, spc: nat, g: nat, i: nat, start: int, ts: TimeSig)
    requires CuttableSigs(tsOf, spc, g) && 0.0 < MeasureSteps(ts, g) <= spc as real
    requires 1 <= start <= i <= |tsOf| && tsOf[start - 1] == Some(ts)
    requires forall j :: start <= j < i - 1 && j < |tsOf| ==> tsOf[j].None? || SameRatio(tsOf[j].value, ts)
    ensures MeasuresPerCut(ts, spc, g) >= 1
    ensures forall w :: w in Windows(start, i - 1, MeasuresPerCut(ts, spc, g), start) ==> GoodCut(tsOf, spc, g, w)
  {
    MeasuresPerCutPositive(ts, spc, g);
    var m := MeasuresPerCut(ts, spc, g);
    var here := Windows(start, i - 1, m, start);
    WindowsShape(start, i - 1, m, start);
    forall w | w in here
      ensures GoodCut(tsOf, spc, g, w)
    {
      var k :| 0 <= k < |here| && here[k] == w;
      assert SegmentOf(tsOf, start, w);
    }
  }

  /**
    Every cut lies in measures 1 .. total - 1 (the last measure is never
    cut), inside one segment: it starts at or after a measure s declaring a
    signature, no measure from s + 1 to its end declares a different one,
    and it spans exactly the measures per cut of that signature.
   */
  lemma {:induction false} StepCutsShape(tsOf: seq<Option<TimeSig>>, spc: nat, g: nat, i: nat, start: int, ts: TimeSig)
    requires CuttableSigs(tsOf, spc, g) && 0.0 < MeasureSteps(ts, g) <= spc as real
    requires 1 <= start <= i
    requires i <= |tsOf| ==> tsOf[start - 1] == Some(ts)
    requires forall j :: start <= j < i - 1 && j < |tsOf| ==> tsOf[j].None? || SameRatio(tsOf[j].value, ts)
    ensures forall w :: w in StepCuts(tsOf, spc, g, i, start, ts) ==> GoodCut(tsOf, spc, g, w)
    decreases |tsOf| + 1 - i
  {
    if 1 <= i <= |tsOf| {
      if Boundary(tsOf, i, ts) {
        SegmentCuts(tsOf, spc, g, i, start, ts);
        var next := if tsOf[i - 1].Some? then tsOf[i - 1].value else ts;
        StepCutsShape(tsOf, spc, g, i + 1, i, next);
      } else {
        StepCutsShape(tsOf, spc, g, i + 1, start, ts);
      }
    }
  }

  /** The cuts of a whole score: none contains the last measure, each lies in one segment. */
  lemma CutByStepsShape(tsOf: seq<Option<TimeSig>>, spc: nat, g: nat)
    requires CuttableSigs(tsOf, spc, g)
    ensures forall w :: w in StepCuts(tsOf, spc, g, 1, 1, tsOf[0].value) ==> GoodCut(tsOf, spc, g, w)
  {
    StepCutsShape(tsOf, spc, g, 1, 1, tsOf[0].value);
  }

  /** A score in one time signature throughout: cut i spans measures 1 + i*m .. m + i*m, as many as fit before the last measure. */
  lemma SingleSignatureCuts(tsOf: seq<Option<TimeSig>>, spc: nat, g: nat)
    requires CuttableSigs(tsOf, spc, g)
    requires forall j :: 1 <= j < |tsOf| ==> tsOf[j].None?
    ensures MeasuresPerCut(tsOf[0].value, spc, g) >= 1
    ensures var m := MeasuresPerCut(tsOf[0].value, spc, g);
      var cuts := StepCuts(tsOf, spc, g, 1, 1, tsOf[0].value);
      cuts == Windows(1, |tsOf| - 1, m, 1) && |cuts| * m <= |tsOf| - 1 < (|cuts| + 1) * m
  {
    var ts := tsOf[0].value;
    MeasuresPerCutPositive(ts, spc, g);
    var m := MeasuresPerCut(ts, spc, g);
    SingleSignatureRun(tsOf, spc, g, 1);
    WindowsCount(1, |tsOf| - 1, m, 1);
  }

  lemma {:induction false} SingleSignatureRun(tsOf: seq<Option<TimeSig>>, spc: nat, g: nat, i: nat)
    requires CuttableSigs(tsOf, spc, g) && 1 <= i <= |tsOf|
    requires forall j :: 1 <= j < |tsOf| ==> tsOf[j].None?
    ensures MeasuresPerCut(tsOf[0].value, spc, g) >= 1
    ensures StepCuts(tsOf, spc, g, i, 1, tsOf[0].value) ==
      Windows(1, |tsOf| - 1, MeasuresPerCut(tsOf[0].value, spc, g), 1)
    decreases |tsOf| - i
  {
    var ts := tsOf[0].value;
    MeasuresPerCutPositive(ts, spc, g);
    if i < |tsOf| {
      assert !Boundary(tsOf, i, ts);
      SingleSignatureRun(tsOf, spc, g, i + 1);
    } else {
      assert StepCuts(tsOf, spc, g, i + 1, i, ts) == [];
    }
  }
}
