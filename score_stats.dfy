/**
  get_score_stats of task_1/create_dataset.py and task_6/create_dataset.py
  (the two copies are the same): the metadata record of a parsed score that
  the pruning filters read.

  What the parser computes itself (the number of parts and measures, whether
  there is a pickup, whether the measures are evenly spaced, the ratio
  strings of the time signatures and the scale names of the key signatures)
  comes in with the parsed score; the statistics over its notes are folded
  here.
 */
module ScoreStats {
  import opened Wrappers
  import opened Music

  /** A parsed score, as far as the statistics read it. */
  datatype ParsedScore = ParsedScore(
    numParts: nat, hasPickup: bool, numMeasures: nat, consistentMeasures: bool,
    events: seq<Event>, timeSignatures: seq<string>, keySignatures: seq<string>)

  /** The score_stats record. */
  datatype Stats = Stats(
    composer: string, numParts: nat, hasPickup: bool, numMeasures: nat, consistentMeasures: bool,
    minNote: Option<int>, maxNote: Option<int>, granularity: Option<real>,
    divisibleNotes: bool, onePercentDivisible: bool, percentIndivisible: real,
    timeSignatures: set<string>, keySignatures: set<string>,
    consistentKey: bool, consistentTime: bool, consistentParts: bool)

  /** indivisible_notes / total_notes with no notes at all. */
  datatype StatsError = ZeroDivision

  /** The running minimum: replaced when unset or when p is lower. */
  function Lower(m: Option<int>, p: int): Option<int> {
    if m.None? || p < m.value then Some(p) else m
  }

  /** The running maximum: replaced when unset or when p is higher. */
  function Higher(m: Option<int>, p: int): Option<int> {
    if m.None? || p > m.value then Some(p) else m
  }

  /** The pitches of the notes and chords among the events, in order. */
  function AllPitches(evs: seq<Event>): seq<int> {
    if evs == [] then []
    else
      var e := evs[|evs| - 1];
      AllPitches(evs[..|evs| - 1]) + (if IsSounding(e.kind) then Pitches(e.kind) else [])
  }

  /** min_note: unset for no pitches, else the lowest pitch. */
  function MinOf(ps: seq<int>): (r: Option<int>)
    ensures r.None? <==> ps == []
    ensures r.Some? ==> r.value in ps && forall i :: 0 <= i < |ps| ==> r.value <= ps[i]
  {
    if ps == [] then None
    else
      var front := MinOf(ps[..|ps| - 1]);
      assert forall i :: 0 <= i < |ps| - 1 ==> ps[..|ps| - 1][i] == ps[i];
      Lower(front, ps[|ps| - 1])
  }

  /** max_note: unset for no pitches, else the highest pitch. */
  function MaxOf(ps: seq<int>): (r: Option<int>)
    ensures r.None? <==> ps == []
    ensures r.Some? ==> r.value in ps && forall i :: 0 <= i < |ps| ==> ps[i] <= r.value
  {
    if ps == [] then None
    else
      var front := MaxOf(ps[..|ps| - 1]);
      assert forall i :: 0 <= i < |ps| - 1 ==> ps[..|ps| - 1][i] == ps[i];
      Higher(front, ps[|ps| - 1])
  }

  /** The granularity of one nonzero duration: 1 / (0.25 * quarterLength). */
  function NoteGran(ql: real): real
    requires ql != 0.0
  {
    1.0 / (0.25 * ql)
  }

  /** granularity: unset when every duration is zero, else the largest granularity of a nonzero duration. */
  function GranOf(evs: seq<Event>): (r: Option<real>)
    ensures r.None? <==> forall k :: 0 <= k < |evs| ==> evs[k].quarterLength == 0.0
    ensures r.Some? ==>
      (exists k :: 0 <= k < |evs| && evs[k].quarterLength != 0.0 && r.value == NoteGran(evs[k].quarterLength)) &&
      forall k :: 0 <= k < |evs| && evs[k].quarterLength != 0.0 ==> NoteGran(evs[k].quarterLength) <= r.value
  {
    if evs == [] then None
    else
      var n := |evs| - 1;
      var front := GranOf(evs[..n]);
      assert forall k :: 0 <= k < n ==> evs[..n][k] == evs[k];
      if evs[n].quarterLength != 0.0 && (front.None? || NoteGran(evs[n].quarterLength) > front.value) then
        Some(NoteGran(evs[n].quarterLength))
      else front
  }

  /** A note of nonzero duration that is not a whole number of grid steps. */
  predicate Indivisible(e: Event, g: nat) {
    e.quarterLength != 0.0 && !IsDivisible(e.quarterLength, g)
  }

  /** indivisible_notes: how many events are indivisible. */
  function IndivisibleCount(evs: seq<Event>, g: nat): (n: nat)
    ensures n <= |evs|
    ensures n == 0 <==> forall k :: 0 <= k < |evs| ==> !Indivisible(evs[k], g)
  {
    if evs == [] then 0
    else
      var m := |evs| - 1;
      var front := IndivisibleCount(evs[..m], g);
      assert forall k :: 0 <= k < m ==> evs[..m][k] == evs[k];
      front + (if Indivisible(evs[m], g) then 1 else 0)
  }

  function SetOf(s: seq<string>): set<string> {
    set i | 0 <= i < |s| :: s[i]
  }

  /** The record get_score_stats builds for a score that is not cached yet. */
  function StatsOf(score: ParsedScore, composer: string, g: nat): Result<Stats, StatsError> {
    var total := |score.events|;
    if total == 0 then Err(ZeroDivision)
    else
      var ind := IndivisibleCount(score.events, g);
      var ps := AllPitches(score.events);
      var tss := SetOf(score.timeSignatures);
      var kss := SetOf(score.keySignatures);
      Ok(Stats(composer, score.numParts, score.hasPickup, score.numMeasures, score.consistentMeasures,
        MinOf(ps), MaxOf(ps), GranOf(score.events),
        ind == 0, ind as real / total as real < 0.01, ind as real / total as real,
        tss, kss, |kss| == 1, |tss| == 1, true))
  }

  /** One more pitch moves the running bounds as Lower and Higher do. */
  lemma BoundsSnoc(s: seq<int>, x: int)
    ensures MinOf(s + [x]) == Lower(MinOf(s), x)
    ensures MaxOf(s + [x]) == Higher(MaxOf(s), x)
  {
    assert (s + [x])[..|s|] == s;
  }

  /** The first q + 1 elements are the first q and then element q. */
  lemma TakeSnoc<T>(b: seq<T>, q: nat)
    requires q < |b|
    ensures b[..q + 1] == b[..q] + [b[q]]
  {
  }

  /** Reading one more element of b after a. */
  lemma PrefixSnoc<T>(a: seq<T>, b: seq<T>, q: nat)
    requires q < |b|
    ensures a + b[..q + 1] == (a + b[..q]) + [b[q]]
  {
    TakeSnoc(b, q);
  }

  /** The pitches of the events read so far and one more. */
  lemma PitchesSnoc(pre: seq<Event>, e: Event)
    ensures AllPitches(pre + [e]) == AllPitches(pre) + (if IsSounding(e.kind) then Pitches(e.kind) else [])
  {
    assert (pre + [e])[..|pre|] == pre;
  }

  /** The granularity and indivisible count of the events read so far and one more. */
  lemma DurationsSnoc(pre: seq<Event>, e: Event, g: nat)
    ensures GranOf(pre + [e]) ==
      if e.quarterLength != 0.0 && (GranOf(pre).None? || NoteGran(e.quarterLength) > GranOf(pre).value)
      then Some(NoteGran(e.quarterLength)) else GranOf(pre)
    ensures IndivisibleCount(pre + [e], g) == IndivisibleCount(pre, g) + (if Indivisible(e, g) then 1 else 0)
  {
    assert (pre + [e])[..|pre|] == pre;
  }

  /** The inner loop over the pitches of one note or chord. */
  method FoldPitches(minIn: Option<int>, maxIn: Option<int>, ghost before: seq<int>, ps: seq<int>)
    returns (minNote: Option<int>, maxNote: Option<int>)
    requires minIn == MinOf(before) && maxIn == MaxOf(before)
    ensures minNote == MinOf(before + ps) && maxNote == MaxOf(before + ps)
  {
    minNote, maxNote := minIn, maxIn;
    ghost var seen := before;
    var q := 0;
    while q < |ps|
      invariant 0 <= q <= |ps| && seen == before + ps[..q]
      invariant minNote == MinOf(seen) && maxNote == MaxOf(seen)
    {
      BoundsSnoc(seen, ps[q]);
      PrefixSnoc(before, ps, q);
      minNote, maxNote := WidenBounds(minNote, maxNote, ps[q]);
      seen := seen + [ps[q]];
      q := q + 1;
    }
    assert ps[..q] == ps;
  }

  /** The body of the inner loop: one pitch moves the running bounds. */
  method WidenBounds(minIn: Option<int>, maxIn: Option<int>, p: int) returns (minNote: Option<int>, maxNote: Option<int>)
    ensures minNote == Lower(minIn, p) && maxNote == Higher(maxIn, p)
  {
    minNote, maxNote := minIn, maxIn;
    if minNote.None? || p < minNote.value {
      minNote := Some(p);
    }
    if maxNote.None? || p > maxNote.value {
      maxNote := Some(p);
    }
  }

  /** The part of the loop body for the pitches: a note or chord moves the bounds to those of the events read so far. */
  method FoldEventPitches(minIn: Option<int>, maxIn: Option<int>, ghost pre: seq<Event>, e: Event)
    returns (minNote: Option<int>, maxNote: Option<int>)
    requires minIn == MinOf(AllPitches(pre)) && maxIn == MaxOf(AllPitches(pre))
    ensures minNote == MinOf(AllPitches(pre + [e])) && maxNote == MaxOf(AllPitches(pre + [e]))
  {
    PitchesSnoc(pre, e);
    if IsSounding(e.kind) {
      minNote, maxNote := FoldPitches(minIn, maxIn, AllPitches(pre), Pitches(e.kind));
    } else {
      assert AllPitches(pre) + [] == AllPitches(pre);
      minNote, maxNote := minIn, maxIn;
    }
  }

  /** The part of the loop body that reads a nonzero duration: granularity and divisibility. */
  method TallyDuration(granIn: Option<real>, indIn: nat, divIn: bool, e: Event, g: nat)
    returns (granularity: Option<real>, indivisibleNotes: nat, divisibleNotes: bool)
    ensures granularity ==
      if e.quarterLength != 0.0 && (granIn.None? || NoteGran(e.quarterLength) > granIn.value)
      then Some(NoteGran(e.quarterLength)) else granIn
    ensures indivisibleNotes == indIn + (if Indivisible(e, g) then 1 else 0)
    ensures divisibleNotes == (divIn && !Indivisible(e, g))
  {
    granularity, indivisibleNotes, divisibleNotes := granIn, indIn, divIn;
    if e.quarterLength != 0.0 {
      var noteGran := 1.0 / (0.25 * e.quarterLength);
      if granularity.None? || noteGran > granularity.value {
        granularity := Some(noteGran);
      }
      if !IsDivisible(e.quarterLength, g) {
        indivisibleNotes := indivisibleNotes + 1;
        divisibleNotes := false;
      }
    }
  }

  /**
    The loop of get_score_stats over the score's general notes: counts
    them, tracks the lowest and highest pitch and the largest granularity,
    and counts the indivisible ones.
   */
  method FoldEvents(evs: seq<Event>, g: nat)
    returns (minNote: Option<int>, maxNote: Option<int>, granularity: Option<real>,
             divisibleNotes: bool, totalNotes: nat, indivisibleNotes: nat)
    ensures minNote == MinOf(AllPitches(evs)) && maxNote == MaxOf(AllPitches(evs))
    ensures granularity == GranOf(evs)
    ensures indivisibleNotes == IndivisibleCount(evs, g) && divisibleNotes == (indivisibleNotes == 0)
    ensures totalNotes == |evs|
  {
    minNote, maxNote, granularity := None, None, None;
    divisibleNotes := true;
    totalNotes, indivisibleNotes := 0, 0;
    var k := 0;
    ghost var pre: seq<Event> := [];
    while k < |evs|
      invariant 0 <= k <= |evs| && pre == evs[..k] && totalNotes == k
      invariant minNote == MinOf(AllPitches(pre)) && maxNote == MaxOf(AllPitches(pre))
      invariant granularity == GranOf(pre) && indivisibleNotes == IndivisibleCount(pre, g)
      invariant divisibleNotes == (indivisibleNotes == 0)
    {
      var e := evs[k];
      totalNotes := totalNotes + 1;
      minNote, maxNote := FoldEventPitches(minNote, maxNote, pre, e);
      DurationsSnoc(pre, e, g);
      granularity, indivisibleNotes, divisibleNotes := TallyDuration(granularity, indivisibleNotes, divisibleNotes, e, g);
      TakeSnoc(evs, k);
      pre := pre + [e];
      k := k + 1;
    }
    assert evs[..k] == evs;
  }

  /**
    get_score_stats(score_name, score, composer): the cached record when
    the name is known, else the record folded from the score.
   */
  method GetScoreStats(cache: map<string, Stats>, name: string, score: ParsedScore, composer: string, g: nat)
    returns (r: Result<Stats, StatsError>)
    ensures name in cache ==> r == Ok(cache[name])
    ensures name !in cache ==> r == StatsOf(score, composer, g)
  {
    if name in cache {
      return Ok(cache[name]);
    }
    var minNote, maxNote, granularity, divisibleNotes, totalNotes, indivisibleNotes := FoldEvents(score.events, g);
    if totalNotes == 0 {
      return Err(ZeroDivision);
    }
    var ratio := indivisibleNotes as real / totalNotes as real;
    var tss := SetOf(score.timeSignatures);
    var kss := SetOf(score.keySignatures);
    r := Ok(Stats(composer, score.numParts, score.hasPickup, score.numMeasures, score.consistentMeasures,
      minNote, maxNote, granularity, divisibleNotes, ratio < 0.01, ratio,
      tss, kss, |kss| == 1, |tss| == 1, true));
  }

  /** Multiplying by a positive real keeps strict order, both ways. */
  lemma ScaleLess(x: real, y: real, t: real)
    requires t > 0.0
    ensures x < y <==> x * t < y * t
  {
    if x < y {
      assert (y - x) * t > 0.0;
    } else {
      assert (x - y) * t >= 0.0;
    }
  }

  /** A count out of a positive total is a fraction between 0 and 1. */
  lemma Fraction(part: nat, total: nat)
    requires 0 < total && part <= total
    ensures 0.0 <= part as real / total as real <= 1.0
  {
    var t := total as real;
    var q := part as real / t;
    assert q * t == part as real;
    ScaleLess(1.0, q, t);
    ScaleLess(q, 0.0, t);
  }

  /** '1%+_divisible' holds exactly when fewer than one in a hundred notes is indivisible. */
  lemma OnePercentMeaning(ind: nat, total: nat)
    requires total > 0
    ensures (ind as real / total as real < 0.01) <==> 100 * ind < total
  {
    var t := total as real;
    var q := ind as real / t;
    assert q * t == ind as real;
    assert 0.01 * t == total as real / 100.0;
    ScaleLess(q, 0.01, t);
  }

  /**
    What the record's counts say about its score: the stats exist exactly
    when the score has a general note; divisible_notes holds exactly when
    no note is indivisible, '1%+_divisible' exactly when under one percent
    are, '%_indivisible' is a fraction, and the key and time signatures are
    consistent exactly when there is one distinct signature of that kind.
   */
  lemma CountsMeaning(score: ParsedScore, composer: string, g: nat)
    ensures StatsOf(score, composer, g).Err? <==> |score.events| == 0
    ensures StatsOf(score, composer, g).Ok? ==>
      var st := StatsOf(score, composer, g).value;
      (st.divisibleNotes <==> forall k :: 0 <= k < |score.events| ==> !Indivisible(score.events[k], g)) &&
      (st.onePercentDivisible <==> 100 * IndivisibleCount(score.events, g) < |score.events|) &&
      0.0 <= st.percentIndivisible <= 1.0 &&
      (st.consistentTime <==> |SetOf(score.timeSignatures)| == 1) &&
      (st.consistentKey <==> |SetOf(score.keySignatures)| == 1) &&
      st.consistentParts
  {
    if |score.events| > 0 {
      var ind := IndivisibleCount(score.events, g);
      var total := |score.events|;
      OnePercentMeaning(ind, total);
      Fraction(ind, total);
    }
  }

  /**
    min_note and max_note are set exactly when the score has a note or a
    chord, and are then its lowest and highest pitch, in that order.
   */
  lemma PitchRangeMeaning(score: ParsedScore, composer: string, g: nat)
    requires StatsOf(score, composer, g).Ok?
    ensures var st := StatsOf(score, composer, g).value;
      var ps := AllPitches(score.events);
      (st.minNote.Some? <==> ps != []) && (st.maxNote.Some? <==> ps != []) &&
      (ps != [] ==>
        st.minNote.value in ps && st.maxNote.value in ps && st.minNote.value <= st.maxNote.value &&
        forall i :: 0 <= i < |ps| ==> st.minNote.value <= ps[i] <= st.maxNote.value)
  {
    var ps := AllPitches(score.events);
    if ps != [] {
      var lo := MinOf(ps).value;
      var hi := MaxOf(ps).value;
      assert lo <= ps[0] <= hi;
    }
  }

  /** Every pitch of a note or chord among the events appears in AllPitches. */
  lemma {:induction false} PitchesOfEvent(evs: seq<Event>, k: int, i: int)
    requires 0 <= k < |evs| && IsSounding(evs[k].kind) && 0 <= i < |Pitches(evs[k].kind)|
    ensures Pitches(evs[k].kind)[i] in AllPitches(evs)
  {
    var n := |evs| - 1;
    if k < n {
      assert evs[..n][k] == evs[k];
      PitchesOfEvent(evs[..n], k, i);
    }
  }

  /** The pitch bounds of the record bound every pitch of every note and chord of the score. */
  lemma PitchBounds(score: ParsedScore, composer: string, g: nat, k: int, i: int)
    requires StatsOf(score, composer, g).Ok?
    requires 0 <= k < |score.events| && IsSounding(score.events[k].kind) && 0 <= i < |Pitches(score.events[k].kind)|
    ensures var st := StatsOf(score, composer, g).value;
      st.minNote.Some? && st.maxNote.Some? &&
      st.minNote.value <= Pitches(score.events[k].kind)[i] <= st.maxNote.value
  {
    PitchesOfEvent(score.events, k, i);
  }
}
